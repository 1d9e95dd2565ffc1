/** Issuing a token for a narrower scope. Containment is a check on the two texts; what it has to
    guarantee is about rights: nothing a token allows, down any chain of issuing, is more than any of its
    ancestors allows. */
module Narrowing {
  import opened Prelude
  import opened Names
  import opened Scopes

  predicate ContainsReadWrite(parent: ReadWrite, child: ReadWrite) {
    (!child.read || parent.read) && (!child.write || parent.write)
  }

  predicate ContainsAccess(parent: Access, child: Access) {
    && ContainsReadWrite(parent.stream, child.stream)
    && ContainsReadWrite(parent.tokens, child.tokens)
    && ContainsReadWrite(parent.group, child.group)
    && ContainsReadWrite(parent.admin, child.admin)
  }

  predicate ContainsExpiry(parent: Option<int>, child: Option<int>) {
    match (parent, child)
    case (None, _) => true
    case (Some(_), None) => false
    case (Some(p), Some(c)) => c <= p
  }

  predicate SolePrefix(s: ResourceSet) {
    |s| == 1 && s[0].Prefix?
  }

  predicate Prefixed(s: Scope) {
    SolePrefix(s.streams) && SolePrefix(s.groups)
  }

  predicate Contains(parent: Scope, child: Scope) {
    && ContainsStreams(parent, child.streams)
    && SetContains(parent.tokens, child.tokens)
    && SetContains(parent.groups, child.groups)
    && ContainsAccess(parent.access, child.access)
    && (forall op :: op in child.ops ==> parent.AllowsOperation(op))
    && (forall a :: a in child.audiences ==> parent.AllowsAudience(a))
    && ContainsExpiry(parent.expiresAtMs, child.expiresAtMs)
    && (!child.autoPrefix || Prefixed(child))
  }

  datatype IssueError = Denied | NarrowingRejected | Malformed

  ghost function CheckIssue(issuer: Scope, newId: Str, requested: Scope): Option<IssueError> {
    if !issuer.AllowsOperation(IssueToken) then Some(Denied)
    else if !SetMatches(issuer.tokens, newId) then Some(NarrowingRejected)
    else if requested.autoPrefix && !Prefixed(requested) then Some(Malformed)
    else if requested.EffectiveOps() == {} then Some(Malformed)
    else if requested.audiences == {} then Some(Malformed)
    else if !Contains(issuer, requested) then Some(NarrowingRejected)
    else None
  }

  // ----------------------------------------------------- what a scope permits

  /** A request: an operation on a named resource, from a listener, at a time. */
  datatype Request = Request(op: Operation, name: Option<Str>, audience: Audience, nowMs: int)

  predicate Permits(s: Scope, r: Request) {
    s.Allows(r.op, r.name) && s.AllowsAudience(r.audience) && !s.IsExpired(r.nowMs)
  }

  lemma OperationsNarrow(parent: Scope, child: Scope, op: Operation)
    requires Contains(parent, child) && child.AllowsOperation(op)
    ensures parent.AllowsOperation(op)
  {
    if op !in child.ops && !child.access.Of(ResourceOf(op)).Allows(Writes(op)) {
      RightsNarrow(parent, child, ResourceOf(op));
    }
  }

  /** Describing is implied by any right of the child, each of which the parent has or can describe by. */
  lemma RightsNarrow(parent: Scope, child: Scope, r: Option<Resource>)
    requires Contains(parent, child) && child.AnyRightOn(r)
    ensures parent.AnyRightOn(r)
  {
    if !child.access.Of(r).Any() {
      var op :| op in child.ops && ResourceOf(op) == r;
      assert parent.AllowsOperation(op);
    }
  }

  lemma StreamsNarrow(parent: Scope, child: Scope, name: Str)
    requires Contains(parent, child) && child.AllowsStream(name)
    ensures parent.AllowsStream(name)
  {
    AllowsCanonically(child, name);
    SetContainsSound(CanonicalSet(parent.streams), CanonicalSet(child.streams), Canonical(name));
    AllowsCanonically(parent, name);
  }

  /** A contained scope permits nothing its container does not. */
  lemma ContainedPermitsLess(parent: Scope, child: Scope, r: Request)
    requires Contains(parent, child) && Permits(child, r)
    ensures Permits(parent, r)
  {
    OperationsNarrow(parent, child, r.op);
    match ResourceOf(r.op) {
      case Some(StreamName) => StreamsNarrow(parent, child, r.name.value);
      case Some(TokenId) => SetContainsSound(parent.tokens, child.tokens, r.name.value);
      case Some(Group) => SetContainsSound(parent.groups, child.groups, r.name.value);
      case None =>
    }
  }

  lemma ContainsTransitive(a: Scope, b: Scope, c: Scope)
    requires Contains(a, b) && Contains(b, c)
    ensures Contains(a, c)
  {
    SetContainsTransitive(CanonicalSet(a.streams), CanonicalSet(b.streams), CanonicalSet(c.streams));
    SetContainsTransitive(a.tokens, b.tokens, c.tokens);
    SetContainsTransitive(a.groups, b.groups, c.groups);
    forall op | op in c.ops ensures a.AllowsOperation(op) {
      OperationsNarrow(a, b, op);
    }
  }

  lemma SetContainsItself(s: ResourceSet)
    ensures SetContains(s, s)
  {
    forall i | 0 <= i < |s| ensures Covers(s, s[i]) {
      assert s[i].Contains(s[i]);
    }
  }

  /** A scope contains itself unless it asks for prefixing without one prefix to use. */
  lemma ContainsItselfIff(s: Scope)
    ensures Contains(s, s) <==> (s.autoPrefix ==> Prefixed(s))
  {
    SetContainsItself(CanonicalSet(s.streams));
    SetContainsItself(s.tokens);
    SetContainsItself(s.groups);
  }

  // --------------------------------------------------------- chains of issuing

  datatype Token = Token(id: Str, scope: Scope)

  /** Each token was issued by the one before it. */
  ghost predicate Chain(ts: seq<Token>) {
    forall i :: 0 < i < |ts| ==> CheckIssue(ts[i - 1].scope, ts[i].id, ts[i].scope).None?
  }

  lemma {:induction false} AncestorsContain(ts: seq<Token>, i: nat, j: nat)
    requires Chain(ts) && i < j < |ts|
    ensures Contains(ts[i].scope, ts[j].scope)
    decreases j - i
  {
    if i + 1 < j {
      AncestorsContain(ts, i, j - 1);
      ContainsTransitive(ts[i].scope, ts[j - 1].scope, ts[j].scope);
    }
  }

  /** However long the chain: what a token permits, every ancestor permits. */
  lemma DelegationNeverWidens(ts: seq<Token>, i: nat, j: nat, r: Request)
    requires Chain(ts) && i < j < |ts| && Permits(ts[j].scope, r)
    ensures Permits(ts[i].scope, r)
  {
    AncestorsContain(ts, i, j);
    ContainedPermitsLess(ts[i].scope, ts[j].scope, r);
  }

  /** Every token down the chain has an id its ancestors may name, was issued by a token that may issue
      in the eyes of every ancestor too, and permits something. */
  lemma IssuedIdsStayInside(ts: seq<Token>, i: nat, j: nat)
    requires Chain(ts) && i < j < |ts|
    ensures SetMatches(ts[i].scope.tokens, ts[j].id) && ts[i].scope.AllowsOperation(IssueToken)
    ensures ts[i].scope.EffectiveOps() >= ts[j].scope.EffectiveOps() > {}
    ensures ts[i].scope.audiences >= ts[j].scope.audiences > {}
  {
    AncestorsContain(ts, i, j);
    if i + 1 < j {
      AncestorsContain(ts, i, j - 1);
      SetContainsSound(ts[i].scope.tokens, ts[j - 1].scope.tokens, ts[j].id);
      OperationsNarrow(ts[i].scope, ts[j - 1].scope, IssueToken);
    }
    forall op | op in ts[j].scope.EffectiveOps() ensures op in ts[i].scope.EffectiveOps() {
      OperationsNarrow(ts[i].scope, ts[j].scope, op);
    }
  }
}

/** What a token may do: operations, the resources it may name, who may ask and until when. */
module Scopes {
  import opened Prelude
  import opened Names

  datatype Operation =
    | Read | Head | List | Create | Append | Trim | Close | Delete
    | IssueToken | RevokeToken | ListTokens
    | Consume | DescribeGroup | DeleteGroup
    | ClusterRead | NodeRead | TransferStream | UpdateNodeSlots

  datatype Resource = StreamName | TokenId | Group

  function ResourceOf(op: Operation): Option<Resource> {
    match op
    case Read | Head | List | Create | Append | Trim | Close | Delete => Some(StreamName)
    case IssueToken | RevokeToken | ListTokens => Some(TokenId)
    case Consume | DescribeGroup | DeleteGroup => Some(Group)
    case ClusterRead | NodeRead | TransferStream | UpdateNodeSlots => None
  }

  predicate Writes(op: Operation) {
    || op.Create? || op.Append? || op.Trim? || op.Close? || op.Delete?
    || op.IssueToken? || op.RevokeToken? || op.DeleteGroup? || op.TransferStream? || op.UpdateNodeSlots?
  }

  predicate Describes(op: Operation) {
    op.Head? || op.DescribeGroup?
  }

  datatype ReadWrite = ReadWrite(read: bool, write: bool) {
    predicate Allows(writing: bool) { if writing then write else read }
    predicate Any() { read || write }
  }

  datatype Access = Access(stream: ReadWrite, tokens: ReadWrite, group: ReadWrite, admin: ReadWrite) {
    function Of(r: Option<Resource>): ReadWrite {
      match r
      case Some(StreamName) => stream
      case Some(TokenId) => tokens
      case Some(Group) => group
      case None => admin
    }
  }

  datatype Audience = Pico | DurableStreams | Admin | Kafka

  // --------------------------------------------------------------- matchers

  datatype Matcher = Exact(text: Str) | Prefix(text: Str) {
    predicate Matches(name: Str) {
      match this
      case Exact(e) => name == e
      case Prefix(p) => p <= name
    }

    predicate Contains(child: Matcher) {
      match (this, child)
      case (Exact(a), Exact(b)) => a == b
      case (Exact(_), Prefix(_)) => false
      case (Prefix(p), Exact(e)) => p <= e
      case (Prefix(p), Prefix(c)) => p <= c
    }
  }

  /** A name the child matches and the parent does not, when containment is refused. */
  function Escapee(parent: Matcher, child: Matcher): Str {
    if parent.Exact? && child.Prefix? && parent.text == child.text then child.text + [97] else child.text
  }

  /** Containment of matchers decides inclusion of the sets of names, in both directions. */
  lemma MatcherContainsExactly(parent: Matcher, child: Matcher)
    requires Utf8(child.text)
    ensures parent.Contains(child) <==> forall name :: Utf8(name) && child.Matches(name) ==> parent.Matches(name)
    ensures !parent.Contains(child) ==>
              var name := Escapee(parent, child); Utf8(name) && child.Matches(name) && !parent.Matches(name)
  {
    assert Utf8([97]) by { assert [97][1..] == []; }
    Utf8Concat(child.text, [97]);
    assert child.Matches(Escapee(parent, child));
  }

  lemma ContainedMatches(parent: Matcher, child: Matcher, name: Str)
    requires parent.Contains(child) && child.Matches(name)
    ensures parent.Matches(name)
  {
  }

  /** No matcher, no name. */
  type ResourceSet = seq<Matcher>

  predicate SetMatches(set_: ResourceSet, name: Str) {
    exists i :: 0 <= i < |set_| && set_[i].Matches(name)
  }

  predicate Covers(parent: ResourceSet, m: Matcher) {
    exists j :: 0 <= j < |parent| && parent[j].Contains(m)
  }

  predicate SetContains(parent: ResourceSet, child: ResourceSet) {
    if child == [] then true
    else if parent == [] then false
    else forall i :: 0 <= i < |child| ==> Covers(parent, child[i])
  }

  lemma SetContainsSound(parent: ResourceSet, child: ResourceSet, name: Str)
    requires SetContains(parent, child) && SetMatches(child, name)
    ensures SetMatches(parent, name)
  {
    var i :| 0 <= i < |child| && child[i].Matches(name);
    var j :| 0 <= j < |parent| && parent[j].Contains(child[i]);
    ContainedMatches(parent[j], child[i], name);
  }

  lemma MatcherContainsTransitive(a: Matcher, b: Matcher, c: Matcher)
    requires a.Contains(b) && b.Contains(c)
    ensures a.Contains(c)
  {
    if a.text <= b.text && b.text <= c.text {
      assert a.text == b.text[..|a.text|] == c.text[..|a.text|];
    }
  }

  lemma SetContainsTransitive(a: ResourceSet, b: ResourceSet, c: ResourceSet)
    requires SetContains(a, b) && SetContains(b, c)
    ensures SetContains(a, c)
  {
    forall i | 0 <= i < |c| ensures Covers(a, c[i]) {
      var k :| 0 <= k < |b| && b[k].Contains(c[i]);
      var j :| 0 <= j < |a| && a[j].Contains(b[k]);
      MatcherContainsTransitive(a[j], b[k], c[i]);
    }
  }

  // ----------------------------------------------------------------- scopes

  datatype Scope = Scope(streams: ResourceSet, tokens: ResourceSet, groups: ResourceSet, access: Access,
                         ops: set<Operation>, audiences: set<Audience>, autoPrefix: bool, expiresAtMs: Option<int>)
  {
    predicate AllowsAudience(a: Audience) { a in audiences }

    predicate IsExpired(nowMs: int) { expiresAtMs.Some? && nowMs >= expiresAtMs.value }

    predicate AnyRightOn(r: Option<Resource>) {
      access.Of(r).Any() || exists op :: op in ops && ResourceOf(op) == r
    }

    /** An explicit right or a flag; describing comes with any right on the same kind of resource. */
    predicate AllowsOperation(op: Operation) {
      || op in ops
      || access.Of(ResourceOf(op)).Allows(Writes(op))
      || (Describes(op) && AnyRightOn(ResourceOf(op)))
    }

    predicate AllowsStream(name: Str) {
      exists i :: 0 <= i < |streams| &&
        match streams[i]
        case Exact(e) => CanonicalEq(e, name)
        case Prefix(p) => Canonical(p) <= Canonical(name)
    }

    predicate Allows(op: Operation, name: Option<Str>) {
      AllowsOperation(op) &&
      match ResourceOf(op)
      case Some(StreamName) => name.Some? && AllowsStream(name.value)
      case Some(TokenId) => name.Some? && SetMatches(tokens, name.value)
      case Some(Group) => name.Some? && SetMatches(groups, name.value)
      case None => true
    }

    /** The operations the scope comes down to. */
    ghost function EffectiveOps(): set<Operation> {
      set op: Operation | AllowsOperation(op)
    }
  }

  function CanonicalMatcher(m: Matcher): Matcher {
    match m
    case Exact(e) => Exact(Canonical(e))
    case Prefix(p) => Prefix(Canonical(p))
  }

  function CanonicalSet(s: ResourceSet): (c: ResourceSet)
    ensures |c| == |s|
  {
    seq(|s|, i requires 0 <= i < |s| => CanonicalMatcher(s[i]))
  }

  predicate ContainsStreams(parent: Scope, child: ResourceSet) {
    SetContains(CanonicalSet(parent.streams), CanonicalSet(child))
  }

  /** A scope sees only the canonical form of a stream's name: both spellings are allowed or neither is. */
  lemma AllowsCanonically(s: Scope, name: Str)
    ensures s.AllowsStream(name) <==> SetMatches(CanonicalSet(s.streams), Canonical(name))
  {
    var c := CanonicalSet(s.streams);
    if s.AllowsStream(name) {
      var i :| 0 <= i < |s.streams| &&
               match s.streams[i]
               case Exact(e) => CanonicalEq(e, name)
               case Prefix(p) => Canonical(p) <= Canonical(name);
      assert c[i].Matches(Canonical(name));
    }
    if SetMatches(c, Canonical(name)) {
      var i :| 0 <= i < |c| && c[i].Matches(Canonical(name));
      assert c[i] == CanonicalMatcher(s.streams[i]);
    }
  }
}

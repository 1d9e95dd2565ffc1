/** What a scope permits, spelled out: which flag or explicit operation gives which right, and when a request
    is allowed. */
module Rights {
  import opened Prelude
  import opened Names
  import opened Scopes
  import opened Narrowing

  // --------------------------------------------------------------- operations

  predicate OnStreams(op: Operation) {
    op.Read? || op.Head? || op.List? || op.Create? || op.Append? || op.Trim? || op.Close? || op.Delete?
  }

  predicate OnTokens(op: Operation) { op.IssueToken? || op.RevokeToken? || op.ListTokens? }

  predicate OnGroups(op: Operation) { op.Consume? || op.DescribeGroup? || op.DeleteGroup? }

  /** The flags that give a right: reading and writing have operations of their own, and either of them lets a
      stream or a group be described. */
  predicate ByFlag(a: Access, op: Operation) {
    match op
    case Read | List => a.stream.read
    case Create | Append | Trim | Close | Delete => a.stream.write
    case Head => a.stream.read || a.stream.write
    case ListTokens => a.tokens.read
    case IssueToken | RevokeToken => a.tokens.write
    case Consume => a.group.read
    case DeleteGroup => a.group.write
    case DescribeGroup => a.group.read || a.group.write
    case ClusterRead | NodeRead => a.admin.read
    case TransferStream | UpdateNodeSlots => a.admin.write
  }

  /** An explicit operation gives itself, and lets the stream or the group it is about be described. */
  ghost predicate ByName(ops: set<Operation>, op: Operation) {
    || op in ops
    || (op.Head? && exists x :: x in ops && OnStreams(x))
    || (op.DescribeGroup? && exists x :: x in ops && OnGroups(x))
  }

  ghost predicate HasRight(s: Scope, op: Operation) {
    ByFlag(s.access, op) || ByName(s.ops, op)
  }

  /** A scope's rights are those of its flags and those of its explicit operations, and no others. */
  lemma RightsAre(s: Scope, op: Operation)
    ensures s.AllowsOperation(op) <==> HasRight(s, op)
  {
    ResourceIs(op);
    if op.Head? || op.DescribeGroup? {
      forall x ensures (ResourceOf(x) == Some(StreamName) <==> OnStreams(x)) && (ResourceOf(x) == Some(Group) <==> OnGroups(x)) {
        ResourceIs(x);
      }
    }
  }

  lemma ResourceIs(op: Operation)
    ensures ResourceOf(op) == Some(StreamName) <==> OnStreams(op)
    ensures ResourceOf(op) == Some(TokenId) <==> OnTokens(op)
    ensures ResourceOf(op) == Some(Group) <==> OnGroups(op)
  {
  }

  /** With flags alone: who may only read a stream may not write it, and who may only write it may not read it. */
  lemma StreamFlagsKeepApart(s: Scope, op: Operation)
    requires s.ops == {} && OnStreams(op)
    ensures s.access.stream == ReadWrite(false, false) ==> !s.AllowsOperation(op)
    ensures s.access.stream == ReadWrite(true, false) ==> (s.AllowsOperation(op) <==> op.Read? || op.Head? || op.List?)
    ensures s.access.stream == ReadWrite(false, true) ==>
              (s.AllowsOperation(op) <==> op.Create? || op.Append? || op.Trim? || op.Close? || op.Delete? || op.Head?)
    ensures s.access.stream == ReadWrite(true, true) ==> s.AllowsOperation(op)
  {
    RightsAre(s, op);
  }

  lemma OtherFlagsKeepApart(s: Scope, op: Operation)
    requires s.ops == {} && !OnStreams(op)
    ensures OnTokens(op) && s.access.tokens == ReadWrite(true, false) ==> (s.AllowsOperation(op) <==> op.ListTokens?)
    ensures OnTokens(op) && s.access.tokens == ReadWrite(false, true) ==> (s.AllowsOperation(op) <==> op.IssueToken? || op.RevokeToken?)
    ensures OnGroups(op) && s.access.group == ReadWrite(true, false) ==> (s.AllowsOperation(op) <==> op.Consume? || op.DescribeGroup?)
    ensures OnGroups(op) && s.access.group == ReadWrite(false, true) ==> (s.AllowsOperation(op) <==> op.DeleteGroup? || op.DescribeGroup?)
    ensures !OnTokens(op) && !OnGroups(op) && s.access.admin == ReadWrite(true, false) ==>
              (s.AllowsOperation(op) <==> op.ClusterRead? || op.NodeRead?)
    ensures !OnTokens(op) && !OnGroups(op) && s.access.admin == ReadWrite(false, true) ==>
              (s.AllowsOperation(op) <==> op.TransferStream? || op.UpdateNodeSlots?)
  {
    RightsAre(s, op);
  }

  lemma NameAdds(ops: set<Operation>, added: Operation, op: Operation)
    ensures ByName(ops + {added}, op) <==>
            ByName(ops, op) || op == added || (op.Head? && OnStreams(added)) || (op.DescribeGroup? && OnGroups(added))
  {
    var all := ops + {added};
    assert added in all && forall x :: x in all <==> x in ops || x == added;
  }

  /** Naming one more operation adds that operation, and describing if it is about streams or groups. */
  lemma OperationAdds(s: Scope, added: Operation, op: Operation)
    ensures s.(ops := s.ops + {added}).AllowsOperation(op) <==>
            || s.AllowsOperation(op) || op == added
            || (op.Head? && OnStreams(added)) || (op.DescribeGroup? && OnGroups(added))
  {
    RightsAre(s, op);
    RightsAre(s.(ops := s.ops + {added}), op);
    NameAdds(s.ops, added, op);
  }

  // ----------------------------------------------------------------- requests

  /** One of the matchers is this very name, or a prefix of it. */
  ghost predicate NamedBy(rs: ResourceSet, name: Str) {
    exists i :: 0 <= i < |rs| && (rs[i] == Exact(name) || (rs[i].Prefix? && rs[i].text <= name))
  }

  /** The same for stream names, whose spelling does not matter. */
  ghost predicate StreamNamedBy(rs: ResourceSet, name: Str) {
    exists i :: 0 <= i < |rs| &&
      (if rs[i].Exact? then Canonical(rs[i].text) == Canonical(name) else Canonical(rs[i].text) <= Canonical(name))
  }

  lemma NamedByIff(rs: ResourceSet, name: Str)
    ensures SetMatches(rs, name) <==> NamedBy(rs, name)
  {
    if SetMatches(rs, name) {
      var i :| 0 <= i < |rs| && rs[i].Matches(name);
      assert rs[i] == Exact(name) || (rs[i].Prefix? && rs[i].text <= name);
    }
    if NamedBy(rs, name) {
      var i :| 0 <= i < |rs| && (rs[i] == Exact(name) || (rs[i].Prefix? && rs[i].text <= name));
      assert rs[i].Matches(name);
    }
  }

  lemma StreamNamedByIff(s: Scope, name: Str)
    ensures s.AllowsStream(name) <==> StreamNamedBy(s.streams, name)
  {
  }

  /** A request is permitted exactly when the scope has the right, the resource is named and one the scope names,
      the listener is one the scope is for, and the scope has not run out. */
  lemma PermittedIff(s: Scope, r: Request)
    ensures Permits(s, r) <==>
            && HasRight(s, r.op)
            && (OnStreams(r.op) ==> r.name.Some? && StreamNamedBy(s.streams, r.name.value))
            && (OnTokens(r.op) ==> r.name.Some? && NamedBy(s.tokens, r.name.value))
            && (OnGroups(r.op) ==> r.name.Some? && NamedBy(s.groups, r.name.value))
            && r.audience in s.audiences
            && (s.expiresAtMs.Some? ==> r.nowMs < s.expiresAtMs.value)
  {
    RightsAre(s, r.op);
    ResourceIs(r.op);
    if r.name.Some? {
      StreamNamedByIff(s, r.name.value);
      NamedByIff(s.tokens, r.name.value);
      NamedByIff(s.groups, r.name.value);
    }
  }

  // ------------------------------------------------------------------ issuing

  /** Each flag of the child is a flag of the parent. */
  ghost predicate FlagsWithin(p: ReadWrite, c: ReadWrite) {
    (c.read ==> p.read) && (c.write ==> p.write)
  }

  /** A set of one prefix and nothing else. */
  ghost predicate OnePrefix(rs: ResourceSet) {
    exists p :: rs == [Prefix(p)]
  }

  lemma OnePrefixIff(rs: ResourceSet)
    ensures SolePrefix(rs) <==> OnePrefix(rs)
  {
    if SolePrefix(rs) { assert rs == [Prefix(rs[0].text)]; }
  }

  /** Part by part, what it takes for one scope to contain another. A flag needs the flag; an explicit operation
      any way of having the right. */
  lemma ContainsIff(parent: Scope, child: Scope)
    ensures Contains(parent, child) <==>
            && ContainsStreams(parent, child.streams)
            && SetContains(parent.tokens, child.tokens) && SetContains(parent.groups, child.groups)
            && FlagsWithin(parent.access.stream, child.access.stream) && FlagsWithin(parent.access.tokens, child.access.tokens)
            && FlagsWithin(parent.access.group, child.access.group) && FlagsWithin(parent.access.admin, child.access.admin)
            && (forall op :: op in child.ops ==> HasRight(parent, op))
            && child.audiences <= parent.audiences
            && (parent.expiresAtMs.Some? ==> child.expiresAtMs.Some? && child.expiresAtMs.value <= parent.expiresAtMs.value)
            && (child.autoPrefix ==> OnePrefix(child.streams) && OnePrefix(child.groups))
  {
    forall op ensures parent.AllowsOperation(op) <==> HasRight(parent, op) { RightsAre(parent, op); }
    OnePrefixIff(child.streams);
    OnePrefixIff(child.groups);
  }

  /** The scope has no right at all. */
  ghost predicate Powerless(s: Scope) {
    s.ops == {} && s.access == Access(ReadWrite(false, false), ReadWrite(false, false), ReadWrite(false, false), ReadWrite(false, false))
  }

  lemma NoRight(s: Scope)
    requires forall op :: !HasRight(s, op)
    ensures Powerless(s)
  {
    assert !HasRight(s, Read) && !HasRight(s, Create) && !HasRight(s, ListTokens) && !HasRight(s, IssueToken);
    assert !HasRight(s, Consume) && !HasRight(s, DeleteGroup) && !HasRight(s, NodeRead) && !HasRight(s, UpdateNodeSlots);
    forall op ensures op !in s.ops { assert !HasRight(s, op); }
  }

  lemma PowerlessIff(s: Scope)
    ensures s.EffectiveOps() == {} <==> Powerless(s)
  {
    if s.EffectiveOps() == {} {
      forall op ensures !HasRight(s, op) {
        assert op !in s.EffectiveOps();
        RightsAre(s, op);
      }
      NoRight(s);
    } else {
      var op :| op in s.EffectiveOps();
      RightsAre(s, op);
    }
  }

  /** Issuing succeeds exactly for a token that may issue, an id it may name, and a scope within its own that has
      some right and some listener. */
  lemma IssuedIff(issuer: Scope, id: Str, requested: Scope)
    ensures CheckIssue(issuer, id, requested).None? <==>
            && HasRight(issuer, IssueToken) && NamedBy(issuer.tokens, id) && Contains(issuer, requested)
            && !Powerless(requested) && requested.audiences != {}
    ensures CheckIssue(issuer, id, requested) == Some(Denied) <==> !HasRight(issuer, IssueToken)
    ensures CheckIssue(issuer, id, requested) == Some(Malformed) <==>
            && HasRight(issuer, IssueToken) && NamedBy(issuer.tokens, id)
            && ((requested.autoPrefix && !(OnePrefix(requested.streams) && OnePrefix(requested.groups)))
                || Powerless(requested) || requested.audiences == {})
  {
    RightsAre(issuer, IssueToken);
    PowerlessIff(requested);
    NamedByIff(issuer.tokens, id);
    OnePrefixIff(requested.streams);
    OnePrefixIff(requested.groups);
  }
}

/** Leases, the cleaner's queue, the key-value table, and the ids that are handed out. */
module ObjectCommands {
  import opened Prelude
  import opened MetadataTypes
  import opened Metadata
  import opened Frames
  import opened NodeCommands

  // ------------------------------------------------------------------- leases

  /** Leases are for the next ids, of which the first is the reply, until the time to live is over, which
      is at once if it is negative. */
  lemma PrepareLeases(s: State, p: Proposer, count: nat, ttl: int, now: int)
    requires Current(s, p)
    ensures var r := Step(s, PrepareObject(p, count, ttl, now));
            && (r.Ok? <==> count >= 1) && (r.Err? ==> r.error == Unexpected)
            && (r.Ok? ==>
                  var o, t := s.objects, r.value.state.objects;
                  && r.value.result == Id(o.nextObjectId) && t.nextObjectId == o.nextObjectId + count
                  && r.value.state == s.(objects := o.(prepared := t.prepared, nextObjectId := t.nextObjectId))
                  && (forall id :: id in t.prepared <==> id in o.prepared || o.nextObjectId <= id < t.nextObjectId)
                  && (forall id :: id in t.prepared ==>
                        t.prepared[id] == if o.nextObjectId <= id < t.nextObjectId then (if ttl < 0 then now else now + ttl)
                                          else o.prepared[id]))
  {
  }

  /** Exactly the leases whose time has come are ended and counted. */
  lemma ExpiryEndsLeases(s: State, p: Proposer, now: int)
    requires Current(s, p)
    ensures var r := Step(s, ExpirePreparedObjects(p, now));
            var o := s.objects;
            && r.Ok? && var t := r.value.state.objects;
               && r.value.state == s.(objects := o.(prepared := t.prepared))
               && (forall id :: id in t.prepared <==> id in o.prepared && now < o.prepared[id])
               && (forall id :: id in t.prepared ==> t.prepared[id] == o.prepared[id])
               && r.value.result == Count(|o.prepared| - |t.prepared|)
  {
    var o, t := s.objects, Step(s, ExpirePreparedObjects(p, now)).value.state.objects;
    var due := set id | id in o.prepared && o.prepared[id] <= now;
    assert t.prepared.Keys == o.prepared.Keys - due && due <= o.prepared.Keys;
    assert |o.prepared.Keys| == |o.prepared.Keys - due| + |due|;
  }

  /** Cleaned objects leave the queue, and the others keep their places. */
  lemma CleaningEmptiesQueue(s: State, p: Proposer, ids: seq<nat>)
    requires Current(s, p)
    ensures var r := Step(s, CleanDestroyedObjects(p, ids));
            var g := s.objects.garbage;
            && r.Ok? && r.value.result == Unit
            && var t := r.value.state.objects.garbage;
               && r.value.state == s.(objects := s.objects.(garbage := t)) && t.nextSeq == g.nextSeq
               && (forall id :: id in t.marks <==> id in g.marks && id !in ids)
               && (forall id :: id in t.marks ==> t.marks[id] == g.marks[id])
  {
  }

  // ---------------------------------------------------------------- key-value

  /** What is stored under the key. */
  ghost function At(s: State, key: Str): Option<Str> {
    if key in s.kv then Some(s.kv[key]) else None
  }

  /** The key holds `value` now, and nothing else is different. */
  ghost predicate Holding(s: State, key: Str, value: Option<Str>, t: State) {
    && At(t, key) == value && (forall k :: k != key ==> At(t, k) == At(s, k)) && t == s.(kv := t.kv)
  }

  /** Putting replies with what is stored then, and if the key is taken already that is what was there;
      deleting replies with what was stored. */
  lemma PutsAndDeletes(s: State, p: Proposer, key: Str, value: Str)
    requires Current(s, p)
    ensures var r := Step(s, PutKv(p, key, value));
            r.Ok? && Holding(s, key, Some(value), r.value.state) && r.value.result == Value(Some(value))
    ensures var r := Step(s, PutKvIfAbsent(p, key, value));
            && r.Ok? && r.value.result == Value(At(r.value.state, key))
            && Holding(s, key, if At(s, key).None? then Some(value) else At(s, key), r.value.state)
    ensures var r := Step(s, DeleteKv(p, key));
            r.Ok? && Holding(s, key, None, r.value.state) && r.value.result == Value(At(s, key))
  {
  }

  /** Conditional commands change the value they expect, and are redundant where there is another or none. */
  lemma ConditionalsSwap(s: State, p: Proposer, key: Str, expected: Str, value: Str)
    requires Current(s, p)
    ensures var r := Step(s, PutKvIfMatches(p, key, expected, value));
            && (r.Ok? <==> At(s, key) == Some(expected)) && (r.Err? ==> r.error == Redundant)
            && (r.Ok? ==> Holding(s, key, Some(value), r.value.state) && r.value.result == Value(Some(value)))
    ensures var r := Step(s, DeleteKvIfMatches(p, key, expected));
            && (r.Ok? <==> At(s, key) == Some(expected)) && (r.Err? ==> r.error == Redundant)
            && (r.Ok? ==> Holding(s, key, None, r.value.state) && r.value.result == Value(Some(expected)))
  {
  }

  // -------------------------------------------------------------- allocations

  /** Producer ids are handed out in blocks of 1 to 4096, the first of them being the reply. */
  lemma ProducerIdsHandedOut(s: State, p: Proposer, count: nat)
    requires Current(s, p)
    ensures var r := Step(s, AllocateProducerIds(p, count));
            && (r.Ok? <==> 1 <= count <= 4096) && (r.Err? ==> r.error == Unexpected)
            && (r.Ok? ==> r.value == Applied(s.(nextProducerId := s.nextProducerId + count), Id(s.nextProducerId)))
  {
  }

  datatype Kind = StreamIds | ObjectIds | ProducerIds

  predicate Allocates(c: Command, k: Kind) {
    match k
    case StreamIds => c.CreateStream? || c.CreateStreams?
    case ObjectIds => c.PrepareObject?
    case ProducerIds => c.AllocateProducerIds?
  }

  /** How many ids the command asks for. */
  function Wanted(c: Command): nat {
    match c
    case CreateStreams(_, count) => count
    case PrepareObject(_, count, _, _) => count
    case AllocateProducerIds(_, count) => count
    case _ => 1
  }

  function Counter(s: State, k: Kind): nat {
    match k
    case StreamIds => s.nextStreamId
    case ObjectIds => s.objects.nextObjectId
    case ProducerIds => s.nextProducerId
  }

  /** An allocation replies with the counter and moves it on; no other command moves it. */
  ghost predicate Counts(s: State, c: Command, k: Kind, r: StepResult) {
    r.Ok? ==>
      if Allocates(c, k) then r.value.result == Id(Counter(s, k)) && Counter(r.value.state, k) == Counter(s, k) + Wanted(c)
      else Counter(r.value.state, k) == Counter(s, k)
  }

  lemma StreamTransitionCounts(s: State, c: Command, k: Kind)
    requires IsStreamCommand(c)
    ensures Counts(s, c, k, StreamTransition(s, c))
  {
  }

  lemma ObjectTransitionCounts(s: State, c: Command, k: Kind)
    requires IsObjectCommand(c)
    ensures Counts(s, c, k, ObjectTransition(s, c))
  {
    if c.CommitStreamSetObject? && ObjectTransition(s, c).Ok? { CommitFrame(s, c.proposer.nodeId, c.commit, c.nowMs); }
  }

  lemma StepCounts(s: State, c: Command, k: Kind)
    ensures Counts(s, c, k, Step(s, c))
  {
    if Step(s, c).Ok? && !c.RegisterNode? {
      if IsNodeCommand(c) { NodeFrame(s, c); }
      else if IsStreamCommand(c) { StreamTransitionCounts(s, c, k); }
      else if IsObjectCommand(c) { ObjectTransitionCounts(s, c, k); }
      else if IsKvCommand(c) { KvFrame(s, c); }
    }
  }

  lemma {:induction false} RunCounts(s: State, cs: seq<Command>, k: Kind)
    ensures Counter(s, k) <= Counter(Run(s, cs), k)
    decreases |cs|
  {
    if cs != [] {
      StepCounts(s, cs[0], k);
      RunCounts(Apply(s, cs[0]), cs[1..], k);
    }
  }

  /** The block of ids an allocation replies with. */
  ghost predicate HandsOut(s: State, c: Command, id: nat) {
    && Step(s, c).Ok? && Step(s, c).value.result.Id?
    && Step(s, c).value.result.id <= id < Step(s, c).value.result.id + Wanted(c)
  }

  /** Over any run, no id of a kind is handed out twice. */
  lemma HandedOutOnce(s: State, cs: seq<Command>, i: nat, j: nat, k: Kind, id: nat)
    requires i < j < |cs| && Allocates(cs[i], k) && Allocates(cs[j], k) && HandsOut(Run(s, cs[..i]), cs[i], id)
    ensures !HandsOut(Run(s, cs[..j]), cs[j], id)
  {
    var a := Run(s, cs[..i]);
    RunNext(s, cs, i);
    StepCounts(a, cs[i], k);
    assert cs[..j] == cs[..i + 1] + cs[i + 1..j];
    RunConcat(s, cs[..i + 1], cs[i + 1..j]);
    RunCounts(Apply(a, cs[i]), cs[i + 1..j], k);
    StepCounts(Run(s, cs[..j]), cs[j], k);
  }
}

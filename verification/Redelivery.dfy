/** Duplicate delivery: a log entry applied twice in a row leaves what applying it once leaves. */
module Redelivery {
  import opened MetadataTypes
  import opened Metadata
  import opened Frames
  import opened ObjectLifecycle
  import opened EpochHistory

  /** Commands that hand out something new each time they land. */
  predicate Allocates(c: Command) {
    || c.RegisterNode? || c.Heartbeat? || c.CreateStream? || c.CreateStreams? || c.PrepareObject?
    || c.AllocateProducerIds?
  }

  /** `r` leaves a state in which the same transition changes nothing more. */
  ghost predicate Settled(r: StepResult, again: StepResult) {
    r.Ok? && again.Ok? ==> again.value.state == r.value.state
  }

  // ---------------------------------------------------------------- queue

  /** The last operation given for `id`. */
  function LastOp(ids: seq<nat>, ops: seq<CompactOperation>, id: nat): CompactOperation
    requires |ids| == |ops| && id in ids
    decreases |ids|
  {
    var n := |ids| - 1;
    if ids[n] == id then ops[n] else LastOp(ids[..n], ops[..n], id)
  }

  /** Marking changes only the operations of the ids given, and queues the new ones. */
  lemma {:induction false} MarkAllRows(g: Garbage, ids: seq<nat>, ops: seq<CompactOperation>, id: nat)
    requires |ids| == |ops|
    ensures var t := MarkAll(g, ids, ops);
            && (id in ids ==> id in t.marks && t.marks[id].op == LastOp(ids, ops, id))
            && (id in g.marks ==> id in t.marks && t.marks[id].seqNo == g.marks[id].seqNo)
            && (id !in ids ==> (id in t.marks <==> id in g.marks))
            && (id !in ids && id in g.marks ==> t.marks[id] == g.marks[id])
    decreases |ids|
  {
    if ids != [] {
      var n := |ids| - 1;
      MarkAllRows(g, ids[..n], ops[..n], id);
      assert ids == ids[..n] + [ids[n]];
    }
  }

  lemma {:induction false} MarkKnownKeepsCounter(g: Garbage, ids: seq<nat>, ops: seq<CompactOperation>)
    requires |ids| == |ops| && forall i :: 0 <= i < |ids| ==> ids[i] in g.marks
    ensures MarkAll(g, ids, ops).nextSeq == g.nextSeq
    ensures forall i :: 0 <= i < |ids| ==> ids[i] in MarkAll(g, ids, ops).marks
    decreases |ids|
  {
    if ids != [] {
      var n := |ids| - 1;
      MarkKnownKeepsCounter(g, ids[..n], ops[..n]);
      MarkAllRows(g, ids[..n], ops[..n], ids[n]);
      forall i | 0 <= i < |ids| ensures ids[i] in MarkAll(g, ids, ops).marks {
        MarkAllRows(g, ids, ops, ids[i]);
      }
    }
  }

  /** Marking the same ids again keeps every queue position and every operation. */
  lemma MarkAllTwice(g: Garbage, ids: seq<nat>, ops: seq<CompactOperation>)
    requires |ids| == |ops|
    ensures MarkAll(MarkAll(g, ids, ops), ids, ops) == MarkAll(g, ids, ops)
  {
    var once := MarkAll(g, ids, ops);
    var twice := MarkAll(once, ids, ops);
    forall i | 0 <= i < |ids| ensures ids[i] in once.marks { MarkAllRows(g, ids, ops, ids[i]); }
    MarkKnownKeepsCounter(once, ids, ops);
    forall id ensures (id in twice.marks <==> id in once.marks) && (id in once.marks ==> twice.marks[id] == once.marks[id]) {
      MarkAllRows(g, ids, ops, id);
      MarkAllRows(once, ids, ops, id);
    }
    assert twice.marks == once.marks;
  }

  // ------------------------------------------------------------ transitions

  lemma NothingBelowAfterTrim(o: Objects, id: nat, start: nat)
    ensures var t := DestroyStreamObjects(o, ObjectsBelow(o.streamObjects, id, start));
            DestroyStreamObjects(t, ObjectsBelow(t.streamObjects, id, start)) == t
  {
    var t := DestroyStreamObjects(o, ObjectsBelow(o.streamObjects, id, start));
    assert ObjectsBelow(t.streamObjects, id, start) == {};
    assert InScanOrder(t.streamObjects, {}) == [];
    assert t.streamObjects - {} == t.streamObjects;
  }

  lemma PruneTwice(epochs: Epochs, id: nat, start: nat)
    ensures PruneEpochs(PruneEpochs(epochs, id, start), id, start) == PruneEpochs(epochs, id, start)
  {
    var p := PruneEpochs(epochs, id, start);
    forall k | k in p ensures !(k.0 == id && Superseded(p, id, k.1, start)) {
      if k.0 == id && Superseded(p, id, k.1, start) {
        var f :| k.1 < f && StartedBy(p, id, f, start);
        PrunedStartedBy(epochs, id, f, start);
        assert Superseded(epochs, id, k.1, start);
      }
    }
  }

  lemma PrunedStartedBy(epochs: Epochs, id: nat, f: int, start: nat)
    requires StartedBy(PruneEpochs(epochs, id, start), id, f, start)
    ensures StartedBy(epochs, id, f, start)
  {
    var p := PruneEpochs(epochs, id, start);
    forall d | d <= f && (id, d) in epochs ensures epochs[(id, d)] <= start {
      if (id, d) !in p {
        var h :| d < h && StartedBy(epochs, id, h, start);
      }
    }
  }

  lemma TrimTwice(s: State, n: int, id: nat, epoch: int, start: nat)
    requires TrimStreamStep(s, n, id, epoch, start).Ok?
    ensures Settled(TrimStreamStep(s, n, id, epoch, start),
                    TrimStreamStep(TrimStreamStep(s, n, id, epoch, start).value.state, n, id, epoch, start))
  {
    PruneTwice(s.epochs, id, start);
    NothingBelowAfterTrim(s.objects, id, start);
  }

  /** A commit leaves something that makes the same commit redundant, or it did nothing. */
  lemma CommitTwice(s: State, n: int, r: CommitRequest, now: int)
    requires CommitStep(s, n, r, now).Ok?
    ensures var t := CommitStep(s, n, r, now).value.state;
            CommitStep(t, n, r, now).Err? || t == s
  {
    var stamp := CommitStamp(s.objects, r, now);
    var freed := s.(objects := DestroySetObjects(s.objects, r.compacted));
    var withSet := CommitSetObject(freed, n, r, stamp).value;
    var t := CommitStep(s, n, r, now).value.state;
    CommitIds(s, n, r, now);
    if r.objectId == NOOP_OBJECT_ID && r.streamObjects != [] {
      forall i | 0 <= i < |r.streamObjects|
        ensures StreamObjectCommitted(t.objects, r.streamObjects[i].streamId, r.streamObjects[i].objectId)
      {
        CommitLeavesObject(withSet, r.streamObjects, r.compacted != [], stamp, i);
      }
    } else if r.objectId == NOOP_OBJECT_ID && r.compacted != [] {
      assert r.compacted[0] in IdSet(r.compacted);
      assert r.compacted[0] !in t.objects.setObjects;
    } else if r.objectId == NOOP_OBJECT_ID {
      assert s.objects.setObjects - IdSet([]) == s.objects.setObjects;
      assert t == s;
    }
  }

  /** Whatever comes later in the batch, an id committed by it stays an object of its stream. */
  lemma {:induction false} CommitLeavesObject(s: State, xs: seq<NewStreamObject>, compact: bool, t: Stamp, i: nat)
    requires CommitStreamObjects(s, xs, compact, t).Ok? && i < |xs|
    ensures StreamObjectCommitted(CommitStreamObjects(s, xs, compact, t).value.objects, xs[i].streamId, xs[i].objectId)
    decreases |xs|
  {
    var n := |xs| - 1;
    if i < n {
      assert xs[..n][i] == xs[i];
      CommitLeavesObject(s, xs[..n], compact, t, i);
    }
  }

  lemma CompactTwice(s: State, r: CompactRequest, now: int)
    requires CompactStep(s, r, now).Ok?
    ensures Settled(CompactStep(s, r, now), CompactStep(CompactStep(s, r, now).value.state, r, now))
  {
    var t := CompactStep(s, r, now).value.state;
    MarkAllTwice(s.objects.garbage, r.sources, SourceOperations(r.sources, r.operations));
    if CompactStep(t, r, now).Ok? {
      CompactedTwice(s.objects.streamObjects, r, now);
      assert t.objects.prepared - {r.objectId} == t.objects.prepared;
    }
  }

  /** When a second compaction is not refused, its replacement was itself among the sources, or there
      is none: either way the table is as the first left it. */
  lemma CompactedTwice(objects: map<nat, StreamObject>, r: CompactRequest, now: int)
    requires r.objectId == NOOP_OBJECT_ID || r.objectId !in CompactedObjects(objects, r, now)
    ensures var once := CompactedObjects(objects, r, now);
            CompactedObjects(once, r, now) == once
  {
    var once := CompactedObjects(objects, r, now);
    var twice := CompactedObjects(once, r, now);
    if r.objectId != NOOP_OBJECT_ID {
      assert r.objectId in IdSet(r.sources);
    }
    assert twice.Keys == once.Keys;
    assert forall k :: k in once ==> twice[k] == once[k];
  }

  lemma StreamTransitionTwice(s: State, c: Command)
    requires IsStreamCommand(c) && !Allocates(c) && StreamTransition(s, c).Ok?
    ensures Settled(StreamTransition(s, c), StreamTransition(StreamTransition(s, c).value.state, c))
  {
    if c.TrimStream? { TrimTwice(s, c.proposer.nodeId, c.streamId, c.epoch, c.newStartOffset); }
  }

  lemma ObjectTransitionTwice(s: State, c: Command)
    requires IsObjectCommand(c) && !Allocates(c) && ObjectTransition(s, c).Ok?
    ensures Settled(ObjectTransition(s, c), ObjectTransition(ObjectTransition(s, c).value.state, c))
  {
    if c.CommitStreamSetObject? { CommitTwice(s, c.proposer.nodeId, c.commit, c.nowMs); }
    else if c.CompactStreamObject? { CompactTwice(s, c.compact, c.nowMs); }
  }

  lemma NodeTransitionTwice(s: State, c: Command)
    requires IsNodeCommand(c) && !Allocates(c) && NodeTransition(s, c).Ok?
    ensures Settled(NodeTransition(s, c), NodeTransition(NodeTransition(s, c).value.state, c))
  {
  }

  lemma KvTransitionTwice(s: State, c: Command)
    requires IsKvCommand(c) && KvTransition(s, c).Ok?
    ensures Settled(KvTransition(s, c), KvTransition(KvTransition(s, c).value.state, c))
  {
  }

  /** Every command that allocates nothing may be delivered twice: from any state, the second delivery
      changes nothing. */
  lemma DuplicateDeliveryIsHarmless(s: State, c: Command)
    requires !Allocates(c)
    ensures Apply(Apply(s, c), c) == Apply(s, c)
  {
    if Step(s, c).Ok? {
      if IsNodeCommand(c) { NodeTransitionTwice(s, c); }
      else if IsStreamCommand(c) { StreamTransitionTwice(s, c); }
      else if IsObjectCommand(c) { ObjectTransitionTwice(s, c); }
      else { KvTransitionTwice(s, c); }
    }
  }

  /** ... and for no other: an allocating command that lands changes the state each time it lands. */
  lemma AllocationsAreNotIdempotent(s: State, c: Command)
    requires Allocates(c) && Step(s, c).Ok?
    ensures Step(Apply(s, c), c).Ok? && Apply(Apply(s, c), c) != Apply(s, c)
  {
    var t := Apply(s, c);
    if c.RegisterNode? {
      assert Apply(t, c).nodes[c.nodeId].epoch > t.nodes[c.nodeId].epoch;
    } else if c.Heartbeat? {
      assert Apply(t, c).nodes[c.proposer.nodeId].heartbeats > t.nodes[c.proposer.nodeId].heartbeats;
    } else {
      StepFrame(s, c);
    }
  }
}

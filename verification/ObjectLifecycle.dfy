/** Garbage-collection safety: an object id is leased, committed or queued for destruction, never two
    of these, and once queued it never becomes live again. */
module ObjectLifecycle {
  import opened MetadataTypes
  import opened Metadata
  import opened Frames

  /** Pairwise disjoint, and all below `next`. */
  ghost predicate Apart(leased: set<nat>, sets: set<nat>, streams: set<nat>, queued: set<nat>, next: nat) {
    && leased !! sets && leased !! streams && leased !! queued
    && sets !! streams && sets !! queued && streams !! queued
    && forall id :: id in leased || id in sets || id in streams || id in queued ==> id < next
  }

  /** Each known object id is in one place only, and was handed out by the allocator. */
  ghost predicate Exclusive(o: Objects) {
    Apart(o.prepared.Keys, o.setObjects.Keys, o.streamObjects.Keys, o.garbage.marks.Keys, o.nextObjectId)
  }

  ghost predicate LiveObject(o: Objects, id: nat) {
    id in o.prepared || id in o.setObjects || id in o.streamObjects
  }

  // ------------------------------------------------ what commands do to ids

  lemma {:induction false} MarkAllKeys(g: Garbage, ids: seq<nat>, ops: seq<CompactOperation>)
    requires |ids| == |ops|
    ensures MarkAll(g, ids, ops).marks.Keys == g.marks.Keys + IdSet(ids)
    decreases |ids|
  {
    if ids != [] {
      var n := |ids| - 1;
      MarkAllKeys(g, ids[..n], ops[..n]);
      assert IdSet(ids) == IdSet(ids[..n]) + {ids[n]} by {
        assert forall x :: x in IdSet(ids) ==> x in IdSet(ids[..n]) + {ids[n]} by {
          forall x | x in IdSet(ids) ensures x in IdSet(ids[..n]) + {ids[n]} {
            var i :| 0 <= i < |ids| && ids[i] == x;
            if i < n { assert ids[..n][i] == x; }
          }
        }
        forall x | x in IdSet(ids[..n]) ensures x in IdSet(ids) {
          var i :| 0 <= i < n && ids[..n][i] == x;
          assert ids[i] == x;
        }
        assert ids[n] in IdSet(ids);
      }
    }
  }

  lemma ScanOrderIds(objects: map<nat, StreamObject>, ids: set<nat>)
    requires ids <= objects.Keys
    ensures IdSet(InScanOrder(objects, ids)) == ids
  {
    var keys := set id | id in ids && id in objects :: KeyOf(objects[id], id);
    var q := SortKeys(keys);
    forall x | x in ids ensures x in IdSet(ObjectsOf(q)) {
      var k := KeyOf(objects[x], x);
      assert k in q;
      var i :| 0 <= i < |q| && q[i] == k;
      assert ObjectsOf(q)[i] == x;
    }
    forall x | x in IdSet(ObjectsOf(q)) ensures x in ids {
      var i :| 0 <= i < |q| && ObjectsOf(q)[i] == x;
      assert q[i] in keys;
    }
  }

  /** Objects dropped from a stream end up queued, and nothing else moves. */
  lemma DestroyStreamObjectsIds(o: Objects, ids: set<nat>)
    requires ids <= o.streamObjects.Keys
    ensures var t := DestroyStreamObjects(o, ids);
            && t.streamObjects == o.streamObjects - ids
            && t.garbage.marks.Keys == o.garbage.marks.Keys + ids
            && t.prepared == o.prepared && t.setObjects == o.setObjects && t.nextObjectId == o.nextObjectId
  {
    var order := InScanOrder(o.streamObjects, ids);
    MarkAllKeys(o.garbage, order, Deletes(|order|));
    ScanOrderIds(o.streamObjects, ids);
  }

  function NewObjectIds(xs: seq<NewStreamObject>): set<nat> {
    set i | 0 <= i < |xs| :: xs[i].objectId
  }

  /** The ids a commit gives an object to. */
  function CommittedIds(r: CommitRequest): set<nat> {
    NewObjectIds(r.streamObjects) + (if r.objectId == NOOP_OBJECT_ID then {} else {r.objectId})
  }

  lemma {:induction false} CommitStreamObjectsIds(s: State, xs: seq<NewStreamObject>, compact: bool, t: Stamp)
    requires CommitStreamObjects(s, xs, compact, t).Ok?
    ensures var o := s.objects;
            var after := CommitStreamObjects(s, xs, compact, t).value.objects;
            && after.setObjects == o.setObjects && after.garbage == o.garbage && after.nextObjectId == o.nextObjectId
            && after.prepared.Keys == o.prepared.Keys - NewObjectIds(xs)
            && after.streamObjects.Keys == o.streamObjects.Keys + NewObjectIds(xs)
            && NewObjectIds(xs) !! o.setObjects.Keys
    decreases |xs|
  {
    if xs != [] {
      var n := |xs| - 1;
      CommitStreamObjectsIds(s, xs[..n], compact, t);
      NewIdsSplit(xs);
    }
  }

  lemma NewIdsSplit(xs: seq<NewStreamObject>)
    requires xs != []
    ensures NewObjectIds(xs) == NewObjectIds(xs[..|xs| - 1]) + {xs[|xs| - 1].objectId}
  {
    var n := |xs| - 1;
    forall x | x in NewObjectIds(xs) ensures x in NewObjectIds(xs[..n]) + {xs[n].objectId} {
      var i :| 0 <= i < |xs| && xs[i].objectId == x;
      if i < n { assert xs[..n][i].objectId == x; }
    }
    forall x | x in NewObjectIds(xs[..n]) ensures x in NewObjectIds(xs) {
      var i :| 0 <= i < n && xs[..n][i].objectId == x;
      assert xs[i].objectId == x;
    }
  }

  lemma CommitIds(s: State, n: int, r: CommitRequest, now: int)
    requires CommitStep(s, n, r, now).Ok?
    ensures var o := s.objects;
            var t := CommitStep(s, n, r, now).value.state.objects;
            && t.nextObjectId == o.nextObjectId
            && t.prepared.Keys == o.prepared.Keys - CommittedIds(r)
            && t.setObjects.Keys == o.setObjects.Keys - IdSet(r.compacted) + (if r.objectId == NOOP_OBJECT_ID then {} else {r.objectId})
            && t.streamObjects.Keys == o.streamObjects.Keys + NewObjectIds(r.streamObjects)
            && t.garbage.marks.Keys == o.garbage.marks.Keys + IdSet(r.compacted)
            && t.setObjects.Keys !! NewObjectIds(r.streamObjects)
            && IdSet(r.compacted) <= o.setObjects.Keys
            && (r.objectId != NOOP_OBJECT_ID ==> r.objectId !in o.streamObjects && r.objectId !in o.setObjects)
  {
    var stamp := CommitStamp(s.objects, r, now);
    var freed := s.(objects := DestroySetObjects(s.objects, r.compacted));
    var withSet := CommitSetObject(freed, n, r, stamp).value;
    MarkAllKeys(s.objects.garbage, r.compacted, Deletes(|r.compacted|));
    CommitStreamObjectsIds(withSet, r.streamObjects, r.compacted != [], stamp);
  }

  // -------------------------------------------- exactly when ids stay exclusive

  ghost predicate CommitDisciplined(o: Objects, r: CommitRequest) {
    && CommittedIds(r) !! o.garbage.marks.Keys
    && CommittedIds(r) !! IdSet(r.compacted)
    && forall id :: id in CommittedIds(r) ==> id < o.nextObjectId
  }

  lemma ApartAfterCommit(leased: set<nat>, sets: set<nat>, streams: set<nat>, queued: set<nat>, next: nat,
                         compacted: set<nat>, newSet: set<nat>, newStream: set<nat>)
    requires Apart(leased, sets, streams, queued, next)
    requires compacted <= sets && newSet !! streams && newSet !! sets
    requires (sets - compacted + newSet) !! newStream
    ensures Apart(leased - (newStream + newSet), sets - compacted + newSet, streams + newStream, queued + compacted, next)
            <==> ((newStream + newSet) !! queued && (newStream + newSet) !! compacted
                  && forall id :: id in newStream + newSet ==> id < next)
  {
    if Apart(leased - (newStream + newSet), sets - compacted + newSet, streams + newStream, queued + compacted, next) {
      forall id | id in newStream + newSet ensures id < next && id !in queued && id !in compacted {
        assert id in streams + newStream || id in sets - compacted + newSet;
      }
    }
  }

  /** Checked before the commit: it keeps ids exclusive exactly when it re-uses no destroyed id and
      commits none the allocator has not handed out. */
  lemma CommitExclusiveIff(s: State, n: int, r: CommitRequest, now: int)
    requires Exclusive(s.objects) && CommitStep(s, n, r, now).Ok?
    ensures Exclusive(CommitStep(s, n, r, now).value.state.objects) <==> CommitDisciplined(s.objects, r)
  {
    var o := s.objects;
    CommitIds(s, n, r, now);
    ApartAfterCommit(o.prepared.Keys, o.setObjects.Keys, o.streamObjects.Keys, o.garbage.marks.Keys, o.nextObjectId,
                     IdSet(r.compacted), if r.objectId == NOOP_OBJECT_ID then {} else {r.objectId},
                     NewObjectIds(r.streamObjects));
  }

  /** A source that is not leased, not a stream-set object and no object of another stream. */
  ghost predicate OwnSource(o: Objects, streamId: nat, id: nat) {
    && id < o.nextObjectId && id !in o.setObjects
    && (id in o.streamObjects ==> o.streamObjects[id].streamId == streamId)
  }

  ghost predicate CompactDisciplined(o: Objects, r: CompactRequest) {
    && (forall id :: id in IdSet(r.sources) ==> OwnSource(o, r.streamId, id) && (id in o.prepared ==> id == r.objectId))
    && (r.objectId != NOOP_OBJECT_ID ==>
          r.objectId < o.nextObjectId && (r.objectId in o.garbage.marks ==> r.objectId in IdSet(r.sources)))
  }

  lemma CompactIds(s: State, r: CompactRequest, now: int)
    requires CompactStep(s, r, now).Ok?
    ensures var o := s.objects;
            var t := CompactStep(s, r, now).value.state.objects;
            var own := set id | id in IdSet(r.sources) && (id in o.streamObjects ==> o.streamObjects[id].streamId == r.streamId);
            && t.nextObjectId == o.nextObjectId && t.setObjects == o.setObjects
            && t.prepared.Keys == o.prepared.Keys - {r.objectId}
            && t.garbage.marks.Keys == o.garbage.marks.Keys + IdSet(r.sources)
            && t.streamObjects.Keys == o.streamObjects.Keys + (if r.objectId == NOOP_OBJECT_ID then {} else {r.objectId}) - own
            && (r.objectId != NOOP_OBJECT_ID ==> r.objectId !in o.streamObjects && r.objectId !in o.setObjects)
  {
    MarkAllKeys(s.objects.garbage, r.sources, SourceOperations(r.sources, r.operations));
  }

  lemma CompactExclusiveIff(s: State, r: CompactRequest, now: int)
    requires Exclusive(s.objects) && CompactStep(s, r, now).Ok?
    ensures Exclusive(CompactStep(s, r, now).value.state.objects) <==> CompactDisciplined(s.objects, r)
  {
    var o := s.objects;
    var t := CompactStep(s, r, now).value.state.objects;
    CompactIds(s, r, now);
    if Exclusive(t) {
      forall id | id in IdSet(r.sources)
        ensures OwnSource(o, r.streamId, id) && (id in o.prepared ==> id == r.objectId)
      {
        assert id in t.garbage.marks;
      }
    }
  }

  // ------------------------------------------------------------- over runs

  /** Handed out once and no longer live. */
  ghost predicate Buried(o: Objects, id: nat) {
    id < o.nextObjectId && !LiveObject(o, id)
  }

  ghost predicate Lifecycle(o: Objects, t: Objects) {
    Exclusive(t) && forall id :: Buried(o, id) ==> Buried(t, id)
  }

  /** The set object's id is on lease, and the others are or are stream objects already. */
  ghost predicate CommitLeased(o: Objects, r: CommitRequest) {
    && (r.objectId != NOOP_OBJECT_ID ==> r.objectId in o.prepared)
    && forall id :: id in NewObjectIds(r.streamObjects) ==> id in o.prepared || id in o.streamObjects
  }

  /** Sources are, or once were, stream objects of that stream, and the replacement is on lease or itself
      a source. */
  ghost predicate CompactLeased(o: Objects, r: CompactRequest) {
    && (forall id :: id in IdSet(r.sources) ==> OwnSource(o, r.streamId, id) && (id in o.prepared ==> id == r.objectId))
    && (r.objectId != NOOP_OBJECT_ID ==> r.objectId in o.prepared || r.objectId in IdSet(r.sources))
  }

  ghost predicate LeaseDisciplined(o: Objects, c: Command) {
    && (c.CommitStreamSetObject? ==> CommitLeased(o, c.commit))
    && (c.CompactStreamObject? ==> CompactLeased(o, c.compact))
  }

  /** Checked before the commit: it keeps ids exclusive and revives none exactly under lease discipline. */
  lemma CommitLifecycleIff(s: State, n: int, r: CommitRequest, now: int)
    requires Exclusive(s.objects) && CommitStep(s, n, r, now).Ok?
    ensures Lifecycle(s.objects, CommitStep(s, n, r, now).value.state.objects) <==> CommitLeased(s.objects, r)
  {
    var o := s.objects;
    var t := CommitStep(s, n, r, now).value.state.objects;
    CommitIds(s, n, r, now);
    CommitExclusiveIff(s, n, r, now);
    if Lifecycle(o, t) {
      forall id | id in CommittedIds(r) ensures LiveObject(o, id) {
        assert LiveObject(t, id) && !Buried(o, id);
      }
    }
    if CommitLeased(o, r) {
      assert CommittedIds(r) !! IdSet(r.compacted);
    }
  }

  lemma CompactLifecycleIff(s: State, r: CompactRequest, now: int)
    requires Exclusive(s.objects) && CompactStep(s, r, now).Ok?
    ensures Lifecycle(s.objects, CompactStep(s, r, now).value.state.objects) <==> CompactLeased(s.objects, r)
  {
    CompactIds(s, r, now);
    CompactExclusiveIff(s, r, now);
    if Lifecycle(s.objects, CompactStep(s, r, now).value.state.objects) {
      assert !Buried(s.objects, r.objectId) || Buried(CompactStep(s, r, now).value.state.objects, r.objectId);
    }
  }

  lemma PrepareLifecycle(s: State, count: nat, ttl: int, now: int)
    requires Exclusive(s.objects) && PrepareObjectStep(s, count, ttl, now).Ok?
    ensures Lifecycle(s.objects, PrepareObjectStep(s, count, ttl, now).value.state.objects)
  {
    var t := PrepareObjectStep(s, count, ttl, now).value.state.objects;
    assert forall id :: id in t.prepared <==> id in s.objects.prepared || s.objects.nextObjectId <= id < t.nextObjectId;
  }

  lemma ShrinkLifecycle(o: Objects, t: Objects)
    requires Exclusive(o) && t.setObjects == o.setObjects && t.streamObjects == o.streamObjects
    requires t.prepared.Keys <= o.prepared.Keys && t.garbage.marks.Keys <= o.garbage.marks.Keys
    requires t.nextObjectId == o.nextObjectId
    ensures Lifecycle(o, t)
  {
  }

  lemma ObjectTransitionLifecycle(s: State, c: Command)
    requires Exclusive(s.objects) && IsObjectCommand(c) && ObjectTransition(s, c).Ok?
    ensures Lifecycle(s.objects, ObjectTransition(s, c).value.state.objects) <==> LeaseDisciplined(s.objects, c)
  {
    if c.CommitStreamSetObject? { CommitLifecycleIff(s, c.proposer.nodeId, c.commit, c.nowMs); }
    else if c.CompactStreamObject? { CompactLifecycleIff(s, c.compact, c.nowMs); }
    else if c.PrepareObject? { PrepareLifecycle(s, c.count, c.ttlMs, c.nowMs); }
    else { ShrinkLifecycle(s.objects, ObjectTransition(s, c).value.state.objects); }
  }

  lemma DestroyLifecycle(o: Objects, ids: set<nat>)
    requires Exclusive(o) && ids <= o.streamObjects.Keys
    ensures Lifecycle(o, DestroyStreamObjects(o, ids))
  {
    DestroyStreamObjectsIds(o, ids);
  }

  lemma TrimLifecycle(s: State, n: int, id: nat, epoch: int, start: nat)
    requires Exclusive(s.objects) && TrimStreamStep(s, n, id, epoch, start).Ok?
    ensures Lifecycle(s.objects, TrimStreamStep(s, n, id, epoch, start).value.state.objects)
  {
    DestroyLifecycle(s.objects, ObjectsBelow(s.objects.streamObjects, id, start));
  }

  lemma DeleteLifecycle(s: State, n: int, id: nat, epoch: int)
    requires Exclusive(s.objects) && DeleteStreamStep(s, n, id, epoch).Ok?
    ensures Lifecycle(s.objects, DeleteStreamStep(s, n, id, epoch).value.state.objects)
  {
    DestroyLifecycle(s.objects, ObjectsOfStream(s.objects.streamObjects, id));
  }

  /** A step keeps ids exclusive and revives none exactly when it is refused or disciplined. */
  lemma StepLifecycleIff(s: State, c: Command)
    requires Exclusive(s.objects)
    ensures Lifecycle(s.objects, Apply(s, c).objects) <==> (Step(s, c).Ok? ==> LeaseDisciplined(s.objects, c))
  {
    if Step(s, c).Ok? {
      if IsObjectCommand(c) { ObjectTransitionLifecycle(s, c); }
      else if c.TrimStream? { TrimLifecycle(s, c.proposer.nodeId, c.streamId, c.epoch, c.newStartOffset); }
      else if c.DeleteStream? { DeleteLifecycle(s, c.proposer.nodeId, c.streamId, c.epoch); }
      else { StepFrame(s, c); }
    }
  }

  /** Every command accepted along the run is disciplined. */
  ghost predicate LeaseDisciplinedRun(s: State, cs: seq<Command>)
    decreases |cs|
  {
    cs == [] || ((Step(s, cs[0]).Ok? ==> LeaseDisciplined(s.objects, cs[0])) && LeaseDisciplinedRun(Apply(s, cs[0]), cs[1..]))
  }

  lemma {:induction false} RunLifecycle(s: State, cs: seq<Command>)
    requires Exclusive(s.objects) && LeaseDisciplinedRun(s, cs)
    ensures Lifecycle(s.objects, Run(s, cs).objects)
    decreases |cs|
  {
    if cs != [] {
      StepLifecycleIff(s, cs[0]);
      RunLifecycle(Apply(s, cs[0]), cs[1..]);
    }
  }

  /** Every step of the run keeps ids exclusive and revives none. */
  ghost predicate LifecycleKept(s: State, cs: seq<Command>)
    decreases |cs|
  {
    cs == [] || (Lifecycle(s.objects, Apply(s, cs[0]).objects) && LifecycleKept(Apply(s, cs[0]), cs[1..]))
  }

  lemma {:induction false} RunLifecycleIff(s: State, cs: seq<Command>)
    requires Exclusive(s.objects)
    ensures LifecycleKept(s, cs) <==> LeaseDisciplinedRun(s, cs)
    decreases |cs|
  {
    if cs != [] {
      StepLifecycleIff(s, cs[0]);
      if Exclusive(Apply(s, cs[0]).objects) { RunLifecycleIff(Apply(s, cs[0]), cs[1..]); }
    }
  }

  /** Under lease discipline: in every state reached, ids are exclusive, and an id once queued for
      destruction is never leased or committed again. */
  lemma QueuedObjectsNeverReturn(before: seq<Command>, after: seq<Command>, id: nat)
    requires LeaseDisciplinedRun(Empty, before) && LeaseDisciplinedRun(Run(Empty, before), after)
    requires id in Run(Empty, before).objects.garbage.marks
    ensures Exclusive(Run(Empty, before).objects) && Exclusive(Run(Empty, before + after).objects)
    ensures !LiveObject(Run(Empty, before + after).objects, id)
  {
    RunConcat(Empty, before, after);
    RunLifecycle(Empty, before);
    var s := Run(Empty, before);
    RunLifecycle(s, after);
    assert Buried(s.objects, id);
  }
}

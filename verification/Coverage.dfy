/** No data loss: every live offset of every stream stays inside some committed object. */
module Coverage {
  import opened MetadataTypes
  import opened Metadata
  import opened Frames
  import opened Ownership
  import opened EpochHistory
  import opened ObjectLifecycle

  predicate SliceHolds(x: Slice, id: nat, offset: nat) {
    x.streamId == id && x.startOffset <= offset < x.endOffset
  }

  ghost predicate SlicesHold(xs: seq<Slice>, id: nat, offset: nat) {
    exists i :: 0 <= i < |xs| && SliceHolds(xs[i], id, offset)
  }

  predicate ObjectHolds(x: StreamObject, id: nat, offset: nat) {
    x.streamId == id && x.startOffset <= offset < x.endOffset
  }

  predicate NewHolds(x: NewStreamObject, id: nat, offset: nat) {
    x.streamId == id && x.startOffset <= offset < x.endOffset
  }

  /** The row entry `i` of a commit writes is not written again by a later entry. */
  ghost predicate Final(xs: seq<NewStreamObject>, i: nat) {
    i < |xs| && forall j :: i < j < |xs| ==> xs[j].objectId != xs[i].objectId
  }

  ghost predicate NewObjectsHold(xs: seq<NewStreamObject>, id: nat, offset: nat) {
    exists i: nat :: Final(xs, i) && NewHolds(xs[i], id, offset)
  }

  ghost predicate HeldBySet(sets: map<nat, SetObject>, id: nat, offset: nat) {
    exists k :: k in sets && SlicesHold(sets[k].slices, id, offset)
  }

  ghost predicate HeldByObject(objects: map<nat, StreamObject>, id: nat, offset: nat) {
    exists k :: k in objects && ObjectHolds(objects[k], id, offset)
  }

  /** Some committed object holds this offset of the stream. */
  ghost predicate Held(o: Objects, id: nat, offset: nat) {
    HeldBySet(o.setObjects, id, offset) || HeldByObject(o.streamObjects, id, offset)
  }

  ghost predicate LiveOffset(s: State, id: nat, offset: nat) {
    id in s.streams && s.streams[id].startOffset <= offset < s.streams[id].endOffset
  }

  ghost predicate NoDataLoss(s: State) {
    forall id, offset :: LiveOffset(s, id, offset) ==> Held(s.objects, id, offset)
  }

  // ------------------------------------------- what a command must not leave out

  /** The objects a commit writes hold this offset. */
  ghost predicate CommitHolds(r: CommitRequest, id: nat, offset: nat) {
    (r.objectId != NOOP_OBJECT_ID && SlicesHold(r.slices, id, offset)) || NewObjectsHold(r.streamObjects, id, offset)
  }

  /** An object the commit neither destroys nor writes over holds this offset. */
  ghost predicate CommitSpares(o: Objects, r: CommitRequest, id: nat, offset: nat) {
    || HeldBySet(o.setObjects - IdSet(r.compacted), id, offset)
    || HeldByObject(o.streamObjects - NewObjectIds(r.streamObjects), id, offset)
  }

  /** An object the commit destroys or writes over holds this offset. */
  ghost predicate CommitRemoves(o: Objects, r: CommitRequest, id: nat, offset: nat) {
    || (exists k :: k in o.setObjects && k in IdSet(r.compacted) && SlicesHold(o.setObjects[k].slices, id, offset))
    || (exists k :: k in o.streamObjects && k in NewObjectIds(r.streamObjects) && ObjectHolds(o.streamObjects[k], id, offset))
  }

  /** What the removed objects held of a stream, up to where it will end, is written or spared. */
  ghost predicate CommitKeeps(s: State, r: CommitRequest) {
    forall id: nat, offset: nat :: LiveOffset(s, id, offset) && offset < EndAfter(r, id, s.streams[id].endOffset)
      && CommitRemoves(s.objects, r, id, offset)
      ==> CommitHolds(r, id, offset) || CommitSpares(s.objects, r, id, offset)
  }

  predicate ReplacementHolds(r: CompactRequest, offset: nat) {
    r.objectId != NOOP_OBJECT_ID && r.objectId !in IdSet(r.sources) && r.startOffset <= offset < r.endOffset
  }

  ghost predicate CompactSpares(o: Objects, r: CompactRequest, id: nat, offset: nat) {
    || HeldBySet(o.setObjects, id, offset)
    || HeldByObject(o.streamObjects - SourcesIn(o.streamObjects, r.streamId, r.sources), id, offset)
  }

  /** What the sources held of the stream is held by the replacement or by an object that stays. */
  ghost predicate CompactKeeps(s: State, r: CompactRequest) {
    forall k, offset :: k in SourcesIn(s.objects.streamObjects, r.streamId, r.sources) && LiveOffset(s, r.streamId, offset)
      && ObjectHolds(s.objects.streamObjects[k], r.streamId, offset)
      ==> ReplacementHolds(r, offset) || CompactSpares(s.objects, r, r.streamId, offset)
  }

  ghost predicate Keeps(s: State, c: Command) {
    && (c.CommitStreamSetObject? ==> CommitKeeps(s, c.commit))
    && (c.CompactStreamObject? ==> CompactKeeps(s, c.compact))
  }

  /** Every command accepted along the run leaves nothing out. */
  ghost predicate KeepingRun(s: State, cs: seq<Command>)
    decreases |cs|
  {
    cs == [] || ((Step(s, cs[0]).Ok? ==> Keeps(s, cs[0])) && KeepingRun(Apply(s, cs[0]), cs[1..]))
  }

  // ---------------------------------------------------------------- commits

  /** Offsets a commit adds to a stream are offsets one of its ranges holds. */
  lemma {:induction false} AdvancedOffsetsHeld(streams: map<nat, Stream>, slices: seq<Slice>, compact: bool, id: nat, offset: nat)
    requires AdvanceAll(streams, slices, compact).Ok? && id in streams
    requires id in AdvanceAll(streams, slices, compact).value
    requires streams[id].endOffset <= offset < AdvanceAll(streams, slices, compact).value[id].endOffset
    ensures SlicesHold(slices, id, offset)
    decreases |slices|
  {
    if slices != [] {
      var n := |slices| - 1;
      var before := AdvanceAll(streams, slices[..n], compact).value;
      AdvanceAllMovesEnds(streams, slices[..n], compact);
      if offset < before[id].endOffset {
        AdvancedOffsetsHeld(streams, slices[..n], compact, id, offset);
        var i :| 0 <= i < n && SliceHolds(slices[..n][i], id, offset);
        assert SliceHolds(slices[i], id, offset);
      } else {
        assert SliceHolds(slices[n], id, offset);
      }
    }
  }

  /** A later entry may reuse an id only for the same start, so it cannot replace a row below the end. */
  lemma {:induction false} AppendedOffsetsHeld(s: State, xs: seq<NewStreamObject>, compact: bool, t: Stamp, id: nat, offset: nat)
    requires CommitStreamObjects(s, xs, compact, t).Ok? && id in s.streams
    requires id in CommitStreamObjects(s, xs, compact, t).value.streams
    requires s.streams[id].endOffset <= offset < CommitStreamObjects(s, xs, compact, t).value.streams[id].endOffset
    ensures NewObjectsHold(xs, id, offset)
    decreases |xs|
  {
    if xs != [] {
      var n := |xs| - 1;
      var before := CommitStreamObjects(s, xs[..n], compact, t).value;
      CommitStreamObjectsFrame(s, xs[..n], compact, t);
      CommitStreamObjectsEnds(s, xs, compact, t, id);
      if offset < before.streams[id].endOffset {
        AppendedOffsetsHeld(s, xs[..n], compact, t, id, offset);
        var i: nat :| Final(xs[..n], i) && NewHolds(xs[..n][i], id, offset);
        CommitWritesRow(s, xs[..n], compact, t, i);
        assert xs[n].objectId != xs[i].objectId;
        FinalExtends(xs, i);
      } else {
        assert Final(xs, n) && NewHolds(xs[n], id, offset);
      }
    }
  }

  lemma FinalExtends(xs: seq<NewStreamObject>, i: nat)
    requires xs != [] && Final(xs[..|xs| - 1], i) && xs[|xs| - 1].objectId != xs[i].objectId
    ensures Final(xs, i)
  {
    forall j | i < j < |xs| ensures xs[j].objectId != xs[i].objectId {
      if j < |xs| - 1 { assert xs[..|xs| - 1][j].objectId != xs[..|xs| - 1][i].objectId; }
    }
  }

  lemma FinalShortens(xs: seq<NewStreamObject>, i: nat)
    requires Final(xs, i) && i < |xs| - 1
    ensures Final(xs[..|xs| - 1], i)
  {
    var ys := xs[..|xs| - 1];
    forall j | i < j < |ys| ensures ys[j].objectId != ys[i].objectId {
      assert xs[j].objectId != xs[i].objectId;
    }
  }

  /** The table has a row for the new object, with its range. */
  predicate Wrote(x: NewStreamObject, objects: map<nat, StreamObject>) {
    && x.objectId in objects
    && objects[x.objectId].streamId == x.streamId
    && objects[x.objectId].startOffset == x.startOffset
    && objects[x.objectId].endOffset == x.endOffset
  }

  lemma {:induction false} CommitKeepsOtherRows(s: State, xs: seq<NewStreamObject>, compact: bool, t: Stamp, k: nat)
    requires CommitStreamObjects(s, xs, compact, t).Ok? && k in s.objects.streamObjects && k !in NewObjectIds(xs)
    ensures var after := CommitStreamObjects(s, xs, compact, t).value.objects;
            k in after.streamObjects && after.streamObjects[k] == s.objects.streamObjects[k]
    decreases |xs|
  {
    if xs != [] {
      NewIdsSplit(xs);
      CommitKeepsOtherRows(s, xs[..|xs| - 1], compact, t, k);
    }
  }

  lemma {:induction false} CommitWritesRow(s: State, xs: seq<NewStreamObject>, compact: bool, t: Stamp, i: nat)
    requires CommitStreamObjects(s, xs, compact, t).Ok? && Final(xs, i)
    ensures Wrote(xs[i], CommitStreamObjects(s, xs, compact, t).value.objects.streamObjects)
    decreases |xs|
  {
    var n := |xs| - 1;
    if i < n {
      FinalShortens(xs, i);
      assert xs[..n][i] == xs[i] && xs[n].objectId != xs[i].objectId;
      CommitWritesRow(s, xs[..n], compact, t, i);
    }
  }

  /** Every written id has a last entry that writes it. */
  lemma {:induction false} FinalEntry(xs: seq<NewStreamObject>, k: nat) returns (i: nat)
    requires k in NewObjectIds(xs)
    ensures Final(xs, i) && xs[i].objectId == k
    decreases |xs|
  {
    var n := |xs| - 1;
    if xs[n].objectId == k {
      i := n;
    } else {
      NewIdsSplit(xs);
      i := FinalEntry(xs[..n], k);
      FinalExtends(xs, i);
    }
  }

  /** The stream-set table after a commit. */
  lemma CommitWritesSets(s: State, n: int, r: CommitRequest, now: int)
    requires CommitStep(s, n, r, now).Ok?
    ensures var o := s.objects.setObjects - IdSet(r.compacted);
            var t := CommitStep(s, n, r, now).value.state.objects.setObjects;
            if r.objectId == NOOP_OBJECT_ID then t == o
            else r.objectId !in o && r.objectId in t && t[r.objectId].slices == r.slices && t == o[r.objectId := t[r.objectId]]
  {
    var stamp := CommitStamp(s.objects, r, now);
    var freed := s.(objects := DestroySetObjects(s.objects, r.compacted));
    var withSet := CommitSetObject(freed, n, r, stamp).value;
    CommitStreamObjectsIds(withSet, r.streamObjects, r.compacted != [], stamp);
  }

  /** The stream-object table after a commit: the rows it does not name, and each final entry's. */
  ghost predicate WroteObjects(o: map<nat, StreamObject>, xs: seq<NewStreamObject>, t: map<nat, StreamObject>) {
    && t.Keys == o.Keys + NewObjectIds(xs)
    && (forall k :: k in o && k !in NewObjectIds(xs) ==> t[k] == o[k])
    && (forall i: nat :: Final(xs, i) ==> Wrote(xs[i], t))
  }

  lemma BatchWrites(s: State, xs: seq<NewStreamObject>, compact: bool, t: Stamp)
    requires CommitStreamObjects(s, xs, compact, t).Ok?
    ensures WroteObjects(s.objects.streamObjects, xs, CommitStreamObjects(s, xs, compact, t).value.objects.streamObjects)
  {
    var o := s.objects.streamObjects;
    var after := CommitStreamObjects(s, xs, compact, t).value.objects.streamObjects;
    CommitStreamObjectsIds(s, xs, compact, t);
    forall k | k in o && k !in NewObjectIds(xs) ensures after[k] == o[k] {
      CommitKeepsOtherRows(s, xs, compact, t, k);
    }
    forall i: nat | Final(xs, i) ensures Wrote(xs[i], after) {
      CommitWritesRow(s, xs, compact, t, i);
    }
  }

  lemma CommitWritesObjects(s: State, n: int, r: CommitRequest, now: int)
    requires CommitStep(s, n, r, now).Ok?
    ensures WroteObjects(s.objects.streamObjects, r.streamObjects, CommitStep(s, n, r, now).value.state.objects.streamObjects)
  {
    var stamp := CommitStamp(s.objects, r, now);
    var freed := s.(objects := DestroySetObjects(s.objects, r.compacted));
    var withSet := CommitSetObject(freed, n, r, stamp).value;
    BatchWrites(withSet, r.streamObjects, r.compacted != [], stamp);
  }

  lemma ObjectsHeldIff(o: map<nat, StreamObject>, xs: seq<NewStreamObject>, t: map<nat, StreamObject>, id: nat, offset: nat)
    requires WroteObjects(o, xs, t)
    ensures HeldByObject(t, id, offset) <==> HeldByObject(o - NewObjectIds(xs), id, offset) || NewObjectsHold(xs, id, offset)
  {
    if HeldByObject(t, id, offset) {
      var k :| k in t && ObjectHolds(t[k], id, offset);
      if k in NewObjectIds(xs) {
        var i := FinalEntry(xs, k);
        assert Wrote(xs[i], t) && NewHolds(xs[i], id, offset);
      } else {
        assert k in o - NewObjectIds(xs);
      }
    }
    if NewObjectsHold(xs, id, offset) {
      var i: nat :| Final(xs, i) && NewHolds(xs[i], id, offset);
      assert Wrote(xs[i], t) && ObjectHolds(t[xs[i].objectId], id, offset);
    }
  }

  lemma SetsHeldIff(o: map<nat, SetObject>, added: nat, row: SetObject, id: nat, offset: nat)
    requires added !in o
    ensures HeldBySet(o[added := row], id, offset) <==> HeldBySet(o, id, offset) || SlicesHold(row.slices, id, offset)
  {
    var t := o[added := row];
    if HeldBySet(o, id, offset) {
      var k :| k in o && SlicesHold(o[k].slices, id, offset);
      assert t[k] == o[k];
    }
    if SlicesHold(row.slices, id, offset) { assert SlicesHold(t[added].slices, id, offset); }
  }

  /** After a commit an offset is held exactly if the commit wrote it or spared an object holding it. */
  lemma CommitHeldIff(s: State, n: int, r: CommitRequest, now: int, id: nat, offset: nat)
    requires CommitStep(s, n, r, now).Ok?
    ensures Held(CommitStep(s, n, r, now).value.state.objects, id, offset)
            <==> CommitHolds(r, id, offset) || CommitSpares(s.objects, r, id, offset)
  {
    var t := CommitStep(s, n, r, now).value.state.objects;
    CommitWritesSets(s, n, r, now);
    CommitWritesObjects(s, n, r, now);
    ObjectsHeldIff(s.objects.streamObjects, r.streamObjects, t.streamObjects, id, offset);
    if r.objectId != NOOP_OBJECT_ID {
      SetsHeldIff(s.objects.setObjects - IdSet(r.compacted), r.objectId, t.setObjects[r.objectId], id, offset);
    }
  }

  lemma HeldBefore(o: Objects, r: CommitRequest, id: nat, offset: nat)
    requires Held(o, id, offset)
    ensures CommitSpares(o, r, id, offset) || CommitRemoves(o, r, id, offset)
  {
    if HeldBySet(o.setObjects, id, offset) {
      var k :| k in o.setObjects && SlicesHold(o.setObjects[k].slices, id, offset);
      assert k in IdSet(r.compacted) || k in o.setObjects - IdSet(r.compacted);
    } else {
      var k :| k in o.streamObjects && ObjectHolds(o.streamObjects[k], id, offset);
      assert k in NewObjectIds(r.streamObjects) || k in o.streamObjects - NewObjectIds(r.streamObjects);
    }
  }

  /** The offsets a commit adds are held by what it writes. */
  lemma CommitAddsHeldOffsets(s: State, n: int, r: CommitRequest, now: int, id: nat, offset: nat)
    requires CommitStep(s, n, r, now).Ok? && id in s.streams
    requires id in CommitStep(s, n, r, now).value.state.streams
    requires s.streams[id].endOffset <= offset < CommitStep(s, n, r, now).value.state.streams[id].endOffset
    ensures CommitHolds(r, id, offset)
  {
    var stamp := CommitStamp(s.objects, r, now);
    var freed := s.(objects := DestroySetObjects(s.objects, r.compacted));
    var withSet := CommitSetObject(freed, n, r, stamp).value;
    if r.objectId != NOOP_OBJECT_ID { AdvanceAllMovesEnds(freed.streams, r.slices, r.compacted != []); }
    if offset < withSet.streams[id].endOffset {
      AdvancedOffsetsHeld(freed.streams, r.slices, r.compacted != [], id, offset);
    } else {
      AppendedOffsetsHeld(withSet, r.streamObjects, r.compacted != [], stamp, id, offset);
    }
  }

  lemma CommitLosesNothingIff(s: State, n: int, r: CommitRequest, now: int)
    requires NoDataLoss(s) && CommitStep(s, n, r, now).Ok?
    ensures NoDataLoss(CommitStep(s, n, r, now).value.state) <==> CommitKeeps(s, r)
  {
    var t := CommitStep(s, n, r, now).value.state;
    CommitFrame(s, n, r, now);
    forall id, offset
      ensures Held(t.objects, id, offset) <==> CommitHolds(r, id, offset) || CommitSpares(s.objects, r, id, offset)
    {
      CommitHeldIff(s, n, r, now, id, offset);
    }
    forall id | id in s.streams ensures t.streams[id].endOffset == EndAfter(r, id, s.streams[id].endOffset) {
      CommitEnds(s, n, r, now, id);
    }
    if CommitKeeps(s, r) {
      forall id, offset | LiveOffset(t, id, offset) ensures Held(t.objects, id, offset) {
        if s.streams[id].endOffset <= offset {
          CommitAddsHeldOffsets(s, n, r, now, id, offset);
        } else {
          assert LiveOffset(s, id, offset);
          HeldBefore(s.objects, r, id, offset);
        }
      }
    }
    if NoDataLoss(t) {
      forall id: nat, offset: nat | LiveOffset(s, id, offset) && offset < EndAfter(r, id, s.streams[id].endOffset)
        ensures CommitHolds(r, id, offset) || CommitSpares(s.objects, r, id, offset)
      {
        assert LiveOffset(t, id, offset);
      }
    }
  }

  // ------------------------------------------------------- other commands

  lemma CompactHeldIff(s: State, r: CompactRequest, now: int, id: nat, offset: nat)
    requires CompactStep(s, r, now).Ok?
    ensures Held(CompactStep(s, r, now).value.state.objects, id, offset)
            <==> (id == r.streamId && ReplacementHolds(r, offset)) || CompactSpares(s.objects, r, id, offset)
  {
    var o := s.objects.streamObjects;
    var t := CompactStep(s, r, now).value.state.objects.streamObjects;
    var stay := o - SourcesIn(o, r.streamId, r.sources);
    assert forall k :: k in stay ==> k in t && t[k] == stay[k];
    if HeldByObject(t, id, offset) {
      var k :| k in t && ObjectHolds(t[k], id, offset);
      assert (k in stay && stay[k] == t[k]) || (k == r.objectId && r.objectId != NOOP_OBJECT_ID);
    }
    if id == r.streamId && ReplacementHolds(r, offset) {
      assert r.objectId in t && ObjectHolds(t[r.objectId], id, offset);
    }
    if HeldByObject(stay, id, offset) {
      var k :| k in stay && ObjectHolds(stay[k], id, offset);
      assert ObjectHolds(t[k], id, offset);
    }
  }

  lemma CompactLosesNothingIff(s: State, r: CompactRequest, now: int)
    requires NoDataLoss(s) && CompactStep(s, r, now).Ok?
    ensures NoDataLoss(CompactStep(s, r, now).value.state) <==> CompactKeeps(s, r)
  {
    var t := CompactStep(s, r, now).value.state;
    var o := s.objects.streamObjects;
    forall id, offset
      ensures Held(t.objects, id, offset)
              <==> (id == r.streamId && ReplacementHolds(r, offset)) || CompactSpares(s.objects, r, id, offset)
    {
      CompactHeldIff(s, r, now, id, offset);
    }
    if CompactKeeps(s, r) {
      forall id, offset | LiveOffset(t, id, offset) ensures Held(t.objects, id, offset) {
        assert LiveOffset(s, id, offset);
        if !HeldBySet(s.objects.setObjects, id, offset) {
          var k :| k in o && ObjectHolds(o[k], id, offset);
          assert k in SourcesIn(o, r.streamId, r.sources) || k in o - SourcesIn(o, r.streamId, r.sources);
        }
      }
    }
    if NoDataLoss(t) {
      forall offset | LiveOffset(s, r.streamId, offset)
        ensures ReplacementHolds(r, offset) || CompactSpares(s.objects, r, r.streamId, offset)
      {
        assert LiveOffset(t, r.streamId, offset);
      }
    }
  }

  lemma TrimLosesNothing(s: State, n: int, id: nat, epoch: int, start: nat)
    requires NoDataLoss(s) && TrimStreamStep(s, n, id, epoch, start).Ok?
    ensures NoDataLoss(TrimStreamStep(s, n, id, epoch, start).value.state)
  {
    var t := TrimStreamStep(s, n, id, epoch, start).value.state;
    var o := s.objects.streamObjects;
    forall x, offset | LiveOffset(t, x, offset) ensures Held(t.objects, x, offset) {
      assert LiveOffset(s, x, offset);
      if !HeldBySet(s.objects.setObjects, x, offset) {
        var k :| k in o && ObjectHolds(o[k], x, offset);
        assert k in t.objects.streamObjects && t.objects.streamObjects[k] == o[k];
      }
    }
  }

  lemma DeleteLosesNothing(s: State, n: int, id: nat, epoch: int)
    requires NoDataLoss(s) && DeleteStreamStep(s, n, id, epoch).Ok?
    ensures NoDataLoss(DeleteStreamStep(s, n, id, epoch).value.state)
  {
    var t := DeleteStreamStep(s, n, id, epoch).value.state;
    var o := s.objects.streamObjects;
    forall x, offset | LiveOffset(t, x, offset) ensures Held(t.objects, x, offset) {
      assert LiveOffset(s, x, offset);
      if !HeldBySet(s.objects.setObjects, x, offset) {
        var k :| k in o && ObjectHolds(o[k], x, offset);
        assert k in t.objects.streamObjects && t.objects.streamObjects[k] == o[k];
      }
    }
  }

  /** Commands that keep every object and move no live offset. */
  lemma SameObjectsLoseNothing(s: State, t: State)
    requires NoDataLoss(s) && t.objects.setObjects == s.objects.setObjects && t.objects.streamObjects == s.objects.streamObjects
    requires QuietRows(s.streams, t.streams)
    ensures NoDataLoss(t)
  {
    forall id, offset | LiveOffset(t, id, offset) ensures Held(t.objects, id, offset) {
      assert LiveOffset(s, id, offset);
    }
  }

  lemma UntouchedLosesNothing(s: State, t: State)
    requires NoDataLoss(s) && t.objects == s.objects && t.streams == s.streams
    ensures NoDataLoss(t)
  {
    SameObjectsLoseNothing(s, t);
  }

  lemma StreamTransitionLosesNothing(s: State, c: Command)
    requires NoDataLoss(s) && IdsAllocated(s) && IsStreamCommand(c) && StreamTransition(s, c).Ok?
    ensures NoDataLoss(StreamTransition(s, c).value.state)
  {
    var t := StreamTransition(s, c).value.state;
    if c.TrimStream? { TrimLosesNothing(s, c.proposer.nodeId, c.streamId, c.epoch, c.newStartOffset); }
    else if c.DeleteStream? { DeleteLosesNothing(s, c.proposer.nodeId, c.streamId, c.epoch); }
    else if c.OpenStream? {
      assert t.objects == s.objects;
      assert QuietLive(s, t);
    } else {
      QuietTransition(s, c);
      StreamFrame(s, c);
      SameObjectsLoseNothing(s, t);
    }
  }

  ghost predicate QuietLive(s: State, t: State) {
    forall id, offset :: LiveOffset(t, id, offset) ==> LiveOffset(s, id, offset)
  }

  lemma ObjectTransitionLosesNothing(s: State, c: Command)
    requires NoDataLoss(s) && IsObjectCommand(c) && ObjectTransition(s, c).Ok?
    ensures NoDataLoss(ObjectTransition(s, c).value.state) <==> Keeps(s, c)
  {
    if c.CommitStreamSetObject? { CommitLosesNothingIff(s, c.proposer.nodeId, c.commit, c.nowMs); }
    else if c.CompactStreamObject? { CompactLosesNothingIff(s, c.compact, c.nowMs); }
    else { SameObjectsLoseNothing(s, ObjectTransition(s, c).value.state); }
  }

  /** A step loses nothing exactly when it is refused or leaves nothing out. */
  lemma StepLosesNothingIff(s: State, c: Command)
    requires NoDataLoss(s) && IdsAllocated(s)
    ensures NoDataLoss(Apply(s, c)) <==> (Step(s, c).Ok? ==> Keeps(s, c))
  {
    if Step(s, c).Ok? {
      if IsStreamCommand(c) { StreamTransitionLosesNothing(s, c); }
      else if IsObjectCommand(c) { ObjectTransitionLosesNothing(s, c); }
      else {
        StepFrame(s, c);
        UntouchedLosesNothing(s, Apply(s, c));
      }
    }
  }

  /** In every state the run passes through, each offset between a stream's start and its end is held by a
      committed stream-set slice or stream object. */
  ghost predicate NeverLoses(s: State, cs: seq<Command>) {
    forall i :: 0 <= i <= |cs| ==> NoDataLoss(Run(s, cs[..i]))
  }

  lemma NeverLosesStep(s: State, cs: seq<Command>)
    requires cs != []
    ensures NeverLoses(s, cs) <==> NoDataLoss(s) && NeverLoses(Apply(s, cs[0]), cs[1..])
  {
    var t := Apply(s, cs[0]);
    assert cs[..0] == [] && Run(s, cs[..0]) == s;
    forall i | 0 < i <= |cs| ensures Run(s, cs[..i]) == Run(t, cs[1..][..i - 1]) {
      assert cs[..i][0] == cs[0] && cs[..i][1..] == cs[1..][..i - 1];
    }
    if NeverLoses(s, cs) {
      forall i | 0 <= i <= |cs[1..]| ensures NoDataLoss(Run(t, cs[1..][..i])) {
        assert NoDataLoss(Run(s, cs[..i + 1]));
      }
    }
    if NoDataLoss(s) && NeverLoses(t, cs[1..]) {
      forall i | 0 <= i <= |cs| ensures NoDataLoss(Run(s, cs[..i])) {
        if i > 0 { assert NoDataLoss(Run(t, cs[1..][..i - 1])); }
      }
    }
  }

  lemma {:induction false} RunLosesNothingIff(s: State, cs: seq<Command>)
    requires NoDataLoss(s) && IdsAllocated(s)
    ensures NeverLoses(s, cs) <==> KeepingRun(s, cs)
    decreases |cs|
  {
    if cs == [] {
      assert forall i :: 0 <= i <= |cs| ==> cs[..i] == [];
    } else {
      var t := Apply(s, cs[0]);
      NeverLosesStep(s, cs);
      StepLosesNothingIff(s, cs[0]);
      StepEvolves(s, cs[0]);
      if NoDataLoss(t) {
        RunLosesNothingIff(t, cs[1..]);
      } else {
        assert cs[1..][..0] == [] && Run(t, cs[1..][..0]) == t;
      }
    }
  }

  /** No run from the empty metadata loses an offset, exactly when each commit and each compaction it
      accepts writes or spares what the objects it removes held. */
  lemma NoDataLossIff(cs: seq<Command>)
    ensures NeverLoses(Empty, cs) <==> KeepingRun(Empty, cs)
  {
    RunLosesNothingIff(Empty, cs);
  }

  // ------------------------------------------------- what proposers promise

  /** New rows replace none, and the objects a compaction writes cover those it removes. */
  ghost predicate Proper(s: State, c: Command) {
    && (c.CommitStreamSetObject? ==>
          && NewObjectIds(c.commit.streamObjects) !! s.objects.streamObjects.Keys
          && forall k, id, offset :: k in IdSet(c.commit.compacted) && k in s.objects.setObjects && LiveOffset(s, id, offset)
               && SlicesHold(s.objects.setObjects[k].slices, id, offset)
               ==> CommitHolds(c.commit, id, offset))
    && (c.CompactStreamObject? ==>
          forall k, offset :: k in SourcesIn(s.objects.streamObjects, c.compact.streamId, c.compact.sources)
            && LiveOffset(s, c.compact.streamId, offset) && ObjectHolds(s.objects.streamObjects[k], c.compact.streamId, offset)
            ==> ReplacementHolds(c.compact, offset))
  }

  lemma ProperKeeps(s: State, c: Command)
    requires Proper(s, c)
    ensures Keeps(s, c)
  {
  }

  ghost predicate ProperRun(s: State, cs: seq<Command>)
    decreases |cs|
  {
    cs == [] || ((Step(s, cs[0]).Ok? ==> Proper(s, cs[0])) && ProperRun(Apply(s, cs[0]), cs[1..]))
  }

  lemma {:induction false} ProperRunKeeps(s: State, cs: seq<Command>)
    requires ProperRun(s, cs)
    ensures KeepingRun(s, cs)
    decreases |cs|
  {
    if cs != [] {
      if Step(s, cs[0]).Ok? { ProperKeeps(s, cs[0]); }
      ProperRunKeeps(Apply(s, cs[0]), cs[1..]);
    }
  }

  lemma NoDataLossFromEmpty(cs: seq<Command>)
    requires ProperRun(Empty, cs)
    ensures NeverLoses(Empty, cs)
  {
    ProperRunKeeps(Empty, cs);
    NoDataLossIff(cs);
  }
}

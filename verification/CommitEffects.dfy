/** What an accepted commit or compaction leaves in the tables: rows, leases and times. */
module CommitEffects {
  import opened MetadataTypes
  import opened Metadata
  import opened ObjectLifecycle
  import opened Coverage

  // ------------------------------------------------------------------- times

  /** The time of the data: that of the oldest source, but not later than now. */
  ghost predicate OldestOf(sets: map<nat, SetObject>, ids: seq<nat>, now: int, t: int)
    requires forall i :: 0 <= i < |ids| ==> ids[i] in sets
  {
    && t <= now && (forall i :: 0 <= i < |ids| ==> t <= sets[ids[i]].dataMs)
    && (t == now || exists i :: 0 <= i < |ids| && t == sets[ids[i]].dataMs)
  }

  /** The time of the last write: that of the source written last; now, if there is no source. */
  ghost predicate LatestOf(sets: map<nat, SetObject>, ids: seq<nat>, now: int, t: int)
    requires forall i :: 0 <= i < |ids| ==> ids[i] in sets
  {
    if ids == [] then t == now
    else (forall i :: 0 <= i < |ids| ==> sets[ids[i]].lastWriteMs <= t) && exists i :: 0 <= i < |ids| && t == sets[ids[i]].lastWriteMs
  }

  lemma {:induction false} OldestDataIs(sets: map<nat, SetObject>, ids: seq<nat>, now: int)
    requires forall i :: 0 <= i < |ids| ==> ids[i] in sets
    ensures OldestOf(sets, ids, now, OldestData(sets, ids, now))
    decreases |ids|
  {
    if ids != [] {
      var n := |ids| - 1;
      OldestDataIs(sets, ids[..n], now);
      assert forall i :: 0 <= i < n ==> ids[..n][i] == ids[i];
      assert OldestData(sets, ids, now) == sets[ids[n]].dataMs || OldestData(sets, ids, now) == OldestData(sets, ids[..n], now);
    }
  }

  lemma {:induction false} LatestWriteIs(sets: map<nat, SetObject>, ids: seq<nat>, now: int)
    requires forall i :: 0 <= i < |ids| ==> ids[i] in sets
    ensures LatestOf(sets, ids, now, LatestWrite(sets, ids, now))
    decreases |ids|
  {
    if |ids| > 1 {
      var n := |ids| - 1;
      LatestWriteIs(sets, ids[..n], now);
      assert forall i :: 0 <= i < n ==> ids[..n][i] == ids[i];
      assert LatestWrite(sets, ids, now) == sets[ids[n]].lastWriteMs || LatestWrite(sets, ids, now) == LatestWrite(sets, ids[..n], now);
    }
  }

  // ----------------------------------------------------------------- commits

  /** The stream-set objects after a commit: sources gone, the new one there with its times. */
  ghost predicate SetsWritten(o: Objects, n: int, r: CommitRequest, now: int, dataMs: int, lastWriteMs: int, t: Objects) {
    && (forall id :: id in t.setObjects <==>
          (id in o.setObjects && id !in r.compacted) || (id == r.objectId && r.objectId != NOOP_OBJECT_ID))
    && (forall id :: id in t.setObjects && !(id == r.objectId && r.objectId != NOOP_OBJECT_ID) ==> t.setObjects[id] == o.setObjects[id])
    && (r.objectId != NOOP_OBJECT_ID ==>
          t.setObjects[r.objectId] == SetObject(n, r.slices, r.objectSize, r.attributes, now, dataMs, lastWriteMs))
  }

  /** The row of a new stream object, with the same times. */
  ghost predicate RowWritten(x: NewStreamObject, now: int, dataMs: int, lastWriteMs: int, t: Objects) {
    && x.objectId in t.streamObjects
    && t.streamObjects[x.objectId] ==
         StreamObject(x.streamId, x.startOffset, x.endOffset, x.objectSize, x.attributes, now, dataMs, lastWriteMs)
  }

  ghost predicate Names(r: CommitRequest, id: nat) {
    (r.objectId != NOOP_OBJECT_ID && id == r.objectId) || exists i :: 0 <= i < |r.streamObjects| && r.streamObjects[i].objectId == id
  }

  /** The ids a commit names are off lease, and the other leases are as they were. */
  ghost predicate LeasesUsed(o: Objects, r: CommitRequest, t: Objects) {
    && (forall id :: id in t.prepared <==> id in o.prepared && !Names(r, id))
    && (forall id :: id in t.prepared ==> t.prepared[id] == o.prepared[id])
  }

  lemma {:induction false} EntryWrites(s: State, xs: seq<NewStreamObject>, compact: bool, t: Stamp, i: nat)
    requires CommitStreamObjects(s, xs, compact, t).Ok? && Final(xs, i)
    ensures var after := CommitStreamObjects(s, xs, compact, t).value.objects.streamObjects;
            var x := xs[i];
            x.objectId in after
            && after[x.objectId] == StreamObject(x.streamId, x.startOffset, x.endOffset, x.objectSize, x.attributes,
                                                 t.nowMs, t.dataMs, t.lastWriteMs)
    decreases |xs|
  {
    var n := |xs| - 1;
    if i < n {
      FinalShortens(xs, i);
      assert xs[..n][i] == xs[i] && xs[n].objectId != xs[i].objectId;
      EntryWrites(s, xs[..n], compact, t, i);
    }
  }

  lemma {:induction false} EntriesUseLeases(s: State, xs: seq<NewStreamObject>, compact: bool, t: Stamp)
    requires CommitStreamObjects(s, xs, compact, t).Ok?
    ensures var after := CommitStreamObjects(s, xs, compact, t).value.objects;
            after.prepared == s.objects.prepared - NewObjectIds(xs) && after.setObjects == s.objects.setObjects
    decreases |xs|
  {
    if xs != [] {
      EntriesUseLeases(s, xs[..|xs| - 1], compact, t);
      NewIdsSplit(xs);
    }
  }

  lemma IdSetHas(ids: seq<nat>, id: nat)
    ensures id in IdSet(ids) <==> id in ids
  {
  }

  lemma CommitUsesLeases(s: State, n: int, r: CommitRequest, now: int)
    requires CommitStep(s, n, r, now).Ok?
    ensures LeasesUsed(s.objects, r, CommitStep(s, n, r, now).value.state.objects)
  {
    var stamp := CommitStamp(s.objects, r, now);
    var freed := s.(objects := DestroySetObjects(s.objects, r.compacted));
    var withSet := CommitSetObject(freed, n, r, stamp).value;
    EntriesUseLeases(withSet, r.streamObjects, r.compacted != [], stamp);
    forall id ensures Names(r, id) <==> id in NewObjectIds(r.streamObjects) || (r.objectId != NOOP_OBJECT_ID && id == r.objectId) { }
  }

  lemma CommitWritesSet(s: State, n: int, r: CommitRequest, now: int)
    requires CommitStep(s, n, r, now).Ok?
    ensures var stamp := CommitStamp(s.objects, r, now);
            SetsWritten(s.objects, n, r, now, stamp.dataMs, stamp.lastWriteMs, CommitStep(s, n, r, now).value.state.objects)
  {
    var stamp := CommitStamp(s.objects, r, now);
    var freed := s.(objects := DestroySetObjects(s.objects, r.compacted));
    var withSet := CommitSetObject(freed, n, r, stamp).value;
    EntriesUseLeases(withSet, r.streamObjects, r.compacted != [], stamp);
    forall id ensures id in IdSet(r.compacted) <==> id in r.compacted { IdSetHas(r.compacted, id); }
  }

  lemma CommitWritesEntry(s: State, n: int, r: CommitRequest, now: int, i: nat)
    requires CommitStep(s, n, r, now).Ok? && Final(r.streamObjects, i)
    ensures var stamp := CommitStamp(s.objects, r, now);
            RowWritten(r.streamObjects[i], now, stamp.dataMs, stamp.lastWriteMs, CommitStep(s, n, r, now).value.state.objects)
  {
    var stamp := CommitStamp(s.objects, r, now);
    var freed := s.(objects := DestroySetObjects(s.objects, r.compacted));
    var withSet := CommitSetObject(freed, n, r, stamp).value;
    EntryWrites(withSet, r.streamObjects, r.compacted != [], stamp, i);
  }

  /** An accepted commit writes its object and the last entry of each stream-object id, all stamped alike, and
      takes their ids off lease. */
  lemma CommitWrites(s: State, n: int, r: CommitRequest, now: int) returns (dataMs: int, lastWriteMs: int)
    requires CommitStep(s, n, r, now).Ok?
    ensures forall i :: 0 <= i < |r.compacted| ==> r.compacted[i] in s.objects.setObjects
    ensures OldestOf(s.objects.setObjects, r.compacted, now, dataMs) && LatestOf(s.objects.setObjects, r.compacted, now, lastWriteMs)
    ensures var t := CommitStep(s, n, r, now).value.state.objects;
            && SetsWritten(s.objects, n, r, now, dataMs, lastWriteMs, t)
            && (forall i: nat :: Final(r.streamObjects, i) ==> RowWritten(r.streamObjects[i], now, dataMs, lastWriteMs, t))
            && LeasesUsed(s.objects, r, t)
    ensures CommitStep(s, n, r, now).value.result == Unit
  {
    var stamp := CommitStamp(s.objects, r, now);
    dataMs, lastWriteMs := stamp.dataMs, stamp.lastWriteMs;
    OldestDataIs(s.objects.setObjects, r.compacted, now);
    LatestWriteIs(s.objects.setObjects, r.compacted, now);
    CommitWritesSet(s, n, r, now);
    CommitUsesLeases(s, n, r, now);
    forall i: nat | Final(r.streamObjects, i)
      ensures RowWritten(r.streamObjects[i], now, dataMs, lastWriteMs, CommitStep(s, n, r, now).value.state.objects)
    {
      CommitWritesEntry(s, n, r, now, i);
    }
  }

  /** Stream objects a commit does not name stay as they are, and there are no others. */
  lemma CommitSparesOthers(s: State, n: int, r: CommitRequest, now: int, id: nat)
    requires CommitStep(s, n, r, now).Ok? && forall i :: 0 <= i < |r.streamObjects| ==> r.streamObjects[i].objectId != id
    ensures var o, t := s.objects.streamObjects, CommitStep(s, n, r, now).value.state.objects.streamObjects;
            (id in t <==> id in o) && (id in o ==> t[id] == o[id])
  {
    CommitWritesObjects(s, n, r, now);
    assert id !in NewObjectIds(r.streamObjects);
  }

  // ------------------------------------------------------------- compactions

  /** The last write among those sources that are stream objects; now, if none is. */
  ghost predicate LatestSource(objects: map<nat, StreamObject>, ids: seq<nat>, now: int, t: int) {
    if forall i :: 0 <= i < |ids| ==> ids[i] !in objects then t == now
    else
      && (forall i :: 0 <= i < |ids| && ids[i] in objects ==> objects[ids[i]].lastWriteMs <= t)
      && exists i :: 0 <= i < |ids| && ids[i] in objects && t == objects[ids[i]].lastWriteMs
  }

  lemma {:induction false} SourceWriteIs(objects: map<nat, StreamObject>, ids: seq<nat>, now: int)
    ensures SourceWrite(objects, ids).None? <==> forall i :: 0 <= i < |ids| ==> ids[i] !in objects
    ensures SourceWrite(objects, ids).Some? ==> LatestSource(objects, ids, now, SourceWrite(objects, ids).value)
    decreases |ids|
  {
    if ids != [] {
      var n := |ids| - 1;
      SourceWriteIs(objects, ids[..n], now);
      assert forall i :: 0 <= i < n ==> ids[..n][i] == ids[i];
    }
  }

  /** After an accepted compaction the stream objects are what they were, without the sources that were
      objects of the stream, and with the replacement, unless that is named as a source itself. */
  lemma CompactWrites(s: State, r: CompactRequest, now: int) returns (lastWriteMs: int)
    requires CompactStep(s, r, now).Ok?
    ensures LatestSource(s.objects.streamObjects, r.sources, now, lastWriteMs)
    ensures var o, t := s.objects, CompactStep(s, r, now).value.state.objects;
            && (forall id :: id in t.streamObjects <==>
                  || (id in o.streamObjects && !(o.streamObjects[id].streamId == r.streamId && id in r.sources))
                  || (id == r.objectId && r.objectId != NOOP_OBJECT_ID && r.objectId !in r.sources))
            && (forall id :: id in t.streamObjects && id in o.streamObjects ==> t.streamObjects[id] == o.streamObjects[id])
            && (r.objectId != NOOP_OBJECT_ID && r.objectId !in r.sources ==>
                  r.objectId !in o.streamObjects && r.objectId in t.streamObjects
                  && t.streamObjects[r.objectId] ==
                       StreamObject(r.streamId, r.startOffset, r.endOffset, r.objectSize, r.attributes, now, now, lastWriteMs))
            && (forall id :: id in t.prepared <==> id in o.prepared && id != r.objectId)
            && (forall id :: id in t.prepared ==> t.prepared[id] == o.prepared[id])
            && t.setObjects == o.setObjects && t.nextObjectId == o.nextObjectId
    ensures CompactStep(s, r, now).value.state == s.(objects := CompactStep(s, r, now).value.state.objects)
    ensures CompactStep(s, r, now).value.result == Unit
  {
    SourceWriteIs(s.objects.streamObjects, r.sources, now);
    lastWriteMs := match SourceWrite(s.objects.streamObjects, r.sources) case Some(w) => w case None => now;
    forall id ensures id in IdSet(r.sources) <==> id in r.sources { IdSetHas(r.sources, id); }
  }
}

/** What each secondary index and running counter must equal, as a function of the primary tables,
    and the single-row updates that keep it so. */
module Indexes {
  import opened Prelude
  import opened Sums
  import opened MetadataTypes
  import opened Metadata

  /** A stream row as stored: the stream, and the bytes its committed objects hold. */
  datatype StreamRow = StreamRow(stream: Stream, storedBytes: nat)

  /** `logical` is the rows without their byte counts. */
  ghost predicate RowsHold(rows: map<nat, StreamRow>, logical: map<nat, Stream>) {
    rows.Keys == logical.Keys && forall id :: id in rows ==> rows[id].stream == logical[id]
  }

  // Always true. Each names a key at which a proof looks into an index, and so is what the index's
  // quantifiers are keyed on: an index no proof step looks into stays out of the way. Without them the
  // triggers Dafny picks are the memberships `p in opening`, `k in objects` and the like. A command
  // writes several tables, so each new membership would instantiate the quantifiers of every index that
  // reads one of them, and those name further memberships.
  ghost predicate AtNode(n: int) { true }
  ghost predicate AtPair(p: (int, nat)) { true }
  ghost predicate AtStream(id: nat) { true }
  ghost predicate AtObject(id: nat) { true }
  ghost predicate AtKey(k: OffsetKey) { true }
  ghost predicate AtSeq(q: nat) { true }

  // ------------------------------------------------------- streams by node

  ghost predicate NodeIndexes(streams: map<nat, Stream>, opening: set<(int, nat)>, placed: set<(int, nat)>, counts: map<int, nat>) {
    && (forall p {:trigger AtPair(p)} :: AtPair(p) ==>
          (p in opening <==> p.1 in streams && streams[p.1].state.Opened? && streams[p.1].nodeId == p.0))
    && (forall p {:trigger AtPair(p)} :: AtPair(p) ==>
          (p in placed <==> p.1 in streams && streams[p.1].state.Closed? && streams[p.1].nodeId == p.0 && p.0 != -1))
    && CountsIndexed(streams, counts)
  }

  ghost predicate CountsIndexed(streams: map<nat, Stream>, counts: map<int, nat>) {
    forall n {:trigger AtNode(n)} :: AtNode(n) ==>
      (n in counts <==> StreamsOn(streams, n) != {}) && (n in counts ==> counts[n] == |StreamsOn(streams, n)|)
  }

  lemma CountsAfterRemoval(streams: map<nat, Stream>, id: nat, counts: map<int, nat>, after: map<int, nat>)
    requires CountsIndexed(streams, counts) && id in streams
    requires var n := streams[id].nodeId;
             if !LoadsNode(streams[id], n) then after == counts
             else if n in counts && counts[n] > 1 then after == counts[n := counts[n] - 1]
             else after == counts - {n}
    ensures CountsIndexed(streams - {id}, after)
  {
    var node := streams[id].nodeId;
    forall n | AtNode(n) ensures (n in after <==> StreamsOn(streams - {id}, n) != {}) && (n in after ==> after[n] == |StreamsOn(streams - {id}, n)|) {
      if n == node && LoadsNode(streams[id], n) {
        assert id in StreamsOn(streams, n);
        assert StreamsOn(streams - {id}, n) == StreamsOn(streams, n) - {id};
        assert |StreamsOn(streams - {id}, n)| == |StreamsOn(streams, n)| - 1;
      } else {
        assert StreamsOn(streams - {id}, n) == StreamsOn(streams, n);
      }
    }
  }

  lemma CountsAfterInsert(streams: map<nat, Stream>, id: nat, st: Stream, counts: map<int, nat>, after: map<int, nat>)
    requires CountsIndexed(streams, counts) && id !in streams
    requires var n := st.nodeId;
             after == if LoadsNode(st, n) then counts[n := (if n in counts then counts[n] else 0) + 1] else counts
    ensures CountsIndexed(streams[id := st], after)
  {
    var t := streams[id := st];
    forall n | AtNode(n) ensures (n in after <==> StreamsOn(t, n) != {}) && (n in after ==> after[n] == |StreamsOn(t, n)|) {
      if n == st.nodeId && LoadsNode(st, n) {
        assert StreamsOn(t, n) == StreamsOn(streams, n) + {id};
        assert n !in counts ==> StreamsOn(streams, n) == {};
      } else {
        assert StreamsOn(t, n) == StreamsOn(streams, n);
      }
    }
  }

  /** A row change that keeps state and owner moves no index. */
  lemma NodeIndexesSameOwner(streams: map<nat, Stream>, id: nat, st: Stream,
                             opening: set<(int, nat)>, placed: set<(int, nat)>, counts: map<int, nat>)
    requires NodeIndexes(streams, opening, placed, counts) && id in streams
    requires st.state == streams[id].state && st.nodeId == streams[id].nodeId
    ensures NodeIndexes(streams[id := st], opening, placed, counts)
  {
    var t := streams[id := st];
    forall n ensures StreamsOn(t, n) == StreamsOn(streams, n) {
    }
  }

  // ------------------------------------------------- leases, queue, objects

  ghost predicate DeadlinesIndexed(prepared: map<nat, int>, byDeadline: set<(int, nat)>) {
    forall p {:trigger AtPair(p)} :: AtPair(p) ==> (p in byDeadline <==> p.1 in prepared && prepared[p.1] == p.0)
  }

  /** `byId` is the table keyed by object id alone. */
  ghost predicate ObjectsIndexed(objects: map<OffsetKey, StreamObject>, ids: map<nat, OffsetKey>, byId: map<nat, StreamObject>) {
    && ids.Keys == byId.Keys
    && (forall id {:trigger AtObject(id)} :: AtObject(id) && id in byId ==>
          ids[id] == KeyOf(byId[id], id) && ids[id] in objects && objects[ids[id]] == byId[id])
    && (forall k {:trigger AtKey(k)} :: AtKey(k) && k in objects ==> k.objectId in byId && ids[k.objectId] == k)
  }

  /** `marks` is the queue keyed by object id. */
  ghost predicate QueueIndexed(queue: map<nat, (nat, CompactOperation)>, byId: map<nat, nat>, nextSeq: nat, marks: map<nat, Mark>) {
    && byId.Keys == marks.Keys
    && (forall id {:trigger AtObject(id)} :: AtObject(id) && id in marks ==>
          byId[id] == marks[id].seqNo && byId[id] in queue && queue[byId[id]] == (id, marks[id].op))
    && (forall q: nat {:trigger AtSeq(q)} :: AtSeq(q) && q in queue ==> queue[q].0 in byId && byId[queue[q].0] == q && q < nextSeq)
  }

  // ----------------------------------------------------- stream-set slices

  /** The slice of `stream` starting at `start`: the last one, should several share the start. */
  ghost function Entry(xs: seq<Slice>, stream: nat, start: nat): Option<(nat, nat)> {
    if xs == [] then None
    else
      var x := xs[|xs| - 1];
      if x.streamId == stream && x.startOffset == start then Some((x.endOffset, x.size))
      else Entry(xs[..|xs| - 1], stream, start)
  }

  ghost predicate RangesIndexed(sets: map<nat, SetObject>, ranges: map<OffsetKey, (nat, nat)>) {
    forall k {:trigger AtKey(k)} :: AtKey(k) ==>
      && (k in ranges <==> k.objectId in sets && Entry(sets[k.objectId].slices, k.stream, k.start).Some?)
      && (k in ranges ==> Entry(sets[k.objectId].slices, k.stream, k.start) == Some(ranges[k]))
  }

  ghost predicate SetsByNode(sets: map<nat, SetObject>, byNode: set<(int, nat)>) {
    forall p {:trigger AtPair(p)} :: AtPair(p) ==> (p in byNode <==> p.1 in sets && sets[p.1].nodeId == p.0)
  }

  // --------------------------------------------------------------- counters

  ghost function KvSizes(kv: map<Str, Str>): map<Str, nat> {
    map k | k in kv :: |k| + |kv[k]|
  }

  /** Bytes the slices give to one stream. */
  ghost function SliceBytes(xs: seq<Slice>, id: nat): nat {
    if xs == [] then 0
    else SliceBytes(xs[..|xs| - 1], id) + (if xs[|xs| - 1].streamId == id then xs[|xs| - 1].size else 0)
  }

  ghost function SetShares(sets: map<nat, SetObject>, id: nat): map<nat, nat> {
    map k | k in sets :: SliceBytes(sets[k].slices, id)
  }

  ghost function ObjectShares(objects: map<nat, StreamObject>, id: nat): map<nat, nat> {
    map k | k in objects :: if objects[k].streamId == id then objects[k].objectSize else 0
  }

  /** Bytes committed objects hold for one stream. */
  ghost function StreamBytes(sets: map<nat, SetObject>, objects: map<nat, StreamObject>, id: nat): nat {
    Total(SetShares(sets, id)) + Total(ObjectShares(objects, id))
  }

  ghost function SetSizes(sets: map<nat, SetObject>): map<nat, nat> {
    map k | k in sets :: sets[k].objectSize
  }

  ghost function ObjectSizes(objects: map<nat, StreamObject>): map<nat, nat> {
    map k | k in objects :: objects[k].objectSize
  }

  /** Bytes all committed objects hold. */
  ghost function AllBytes(sets: map<nat, SetObject>, objects: map<nat, StreamObject>): nat {
    Total(SetSizes(sets)) + Total(ObjectSizes(objects))
  }

  ghost predicate BytesCounted(rows: map<nat, StreamRow>, sets: map<nat, SetObject>, objects: map<nat, StreamObject>, stored: nat) {
    forall id: nat {:trigger AtStream(id)} :: AtStream(id) ==>
      && (id in rows ==> rows[id].storedBytes == StreamBytes(sets, objects, id))
      && stored == AllBytes(sets, objects)
  }

  /** Dropping a stream-set object takes its share out of every total. */
  lemma SetTotalsWithout(sets: map<nat, SetObject>, k: nat, id: nat)
    requires k in sets
    ensures Total(SetShares(sets, id)) == SliceBytes(sets[k].slices, id) + Total(SetShares(sets - {k}, id))
    ensures Total(SetSizes(sets)) == sets[k].objectSize + Total(SetSizes(sets - {k}))
  {
    TotalWithout(SetShares(sets, id), k);
    assert SetShares(sets, id) - {k} == SetShares(sets - {k}, id);
    TotalWithout(SetSizes(sets), k);
    assert SetSizes(sets) - {k} == SetSizes(sets - {k});
  }

  lemma ObjectTotalsWithout(objects: map<nat, StreamObject>, k: nat, id: nat)
    requires k in objects
    ensures Total(ObjectShares(objects, id)) ==
            (if objects[k].streamId == id then objects[k].objectSize else 0) + Total(ObjectShares(objects - {k}, id))
    ensures Total(ObjectSizes(objects)) == objects[k].objectSize + Total(ObjectSizes(objects - {k}))
  {
    TotalWithout(ObjectShares(objects, id), k);
    assert ObjectShares(objects, id) - {k} == ObjectShares(objects - {k}, id);
    TotalWithout(ObjectSizes(objects), k);
    assert ObjectSizes(objects) - {k} == ObjectSizes(objects - {k});
  }

  lemma KvTotalsWithout(kv: map<Str, Str>, k: Str)
    requires k in kv
    ensures Total(KvSizes(kv)) == |k| + |kv[k]| + Total(KvSizes(kv - {k}))
  {
    TotalWithout(KvSizes(kv), k);
    assert KvSizes(kv) - {k} == KvSizes(kv - {k});
  }

  /** A row stored with the bytes already counted for it keeps the count. */
  lemma BytesAfterPut(rows: map<nat, StreamRow>, id: nat, row: StreamRow, sets: map<nat, SetObject>, objects: map<nat, StreamObject>, stored: nat)
    requires BytesCounted(rows, sets, objects, stored)
    requires row.storedBytes == if id in rows then rows[id].storedBytes else StreamBytes(sets, objects, id)
    ensures BytesCounted(rows[id := row], sets, objects, stored)
  {
    assert AtStream(id);
  }

  lemma ObjectsAfterDrop(objects: map<OffsetKey, StreamObject>, ids: map<nat, OffsetKey>, byId: map<nat, StreamObject>, id: nat)
    requires ObjectsIndexed(objects, ids, byId) && id in byId
    ensures ObjectsIndexed(objects - {ids[id]}, ids - {id}, byId - {id})
  {
    assert AtObject(id);
    forall k | AtKey(k) && k in objects && k != ids[id] ensures k.objectId != id {
    }
    forall x | AtObject(x) && x in byId && x != id ensures ids[x] != ids[id] {
    }
  }

  lemma ObjectsAfterPut(objects: map<OffsetKey, StreamObject>, ids: map<nat, OffsetKey>, byId: map<nat, StreamObject>, id: nat, row: StreamObject)
    requires ObjectsIndexed(objects, ids, byId) && id !in byId
    ensures ObjectsIndexed(objects[KeyOf(row, id) := row], ids[id := KeyOf(row, id)], byId[id := row])
  {
  }

  /** `hi` is `lo` with `bytes` more on one stream, if it exists. */
  ghost predicate Credited(lo: map<nat, StreamRow>, hi: map<nat, StreamRow>, stream: nat, bytes: nat) {
    && lo.Keys == hi.Keys
    && forall id :: id in lo ==>
         lo[id].stream == hi[id].stream && lo[id].storedBytes + (if id == stream then bytes else 0) == hi[id].storedBytes
  }

  /** Counting a stream object out. */
  lemma BytesAfterObjectDrop(hi: map<nat, StreamRow>, lo: map<nat, StreamRow>, sets: map<nat, SetObject>, byId: map<nat, StreamObject>, id: nat, stored: nat)
    requires id in byId && Credited(lo, hi, byId[id].streamId, byId[id].objectSize)
    requires BytesCounted(hi, sets, byId, stored) && byId[id].objectSize <= stored
    ensures BytesCounted(lo, sets, byId - {id}, stored - byId[id].objectSize)
  {
    forall x: nat | AtStream(x)
      ensures x in lo ==> lo[x].storedBytes == StreamBytes(sets, byId - {id}, x)
      ensures stored - byId[id].objectSize == AllBytes(sets, byId - {id})
    {
      ObjectTotalsWithout(byId, id, x);
    }
  }

  /** Counting a stream object in. */
  lemma BytesAfterObjectPut(lo: map<nat, StreamRow>, hi: map<nat, StreamRow>, sets: map<nat, SetObject>, byId: map<nat, StreamObject>, id: nat, row: StreamObject, stored: nat)
    requires id !in byId && Credited(lo, hi, row.streamId, row.objectSize)
    requires BytesCounted(lo, sets, byId, stored)
    ensures BytesCounted(hi, sets, byId[id := row], stored + row.objectSize)
  {
    var after := byId[id := row];
    assert after - {id} == byId;
    forall x: nat | AtStream(x)
      ensures x in hi ==> hi[x].storedBytes == StreamBytes(sets, after, x)
      ensures stored + row.objectSize == AllBytes(sets, after)
    {
      ObjectTotalsWithout(after, id, x);
    }
  }

  /** Counting a stream-set object out. */
  lemma BytesAfterSetDrop(hi: map<nat, StreamRow>, lo: map<nat, StreamRow>, sets: map<nat, SetObject>, byId: map<nat, StreamObject>, id: nat, stored: nat)
    requires id in sets && Gave(lo, hi, sets[id].slices)
    requires BytesCounted(hi, sets, byId, stored) && sets[id].objectSize <= stored
    ensures BytesCounted(lo, sets - {id}, byId, stored - sets[id].objectSize)
  {
    forall x: nat | AtStream(x)
      ensures x in lo ==> lo[x].storedBytes == StreamBytes(sets - {id}, byId, x)
      ensures stored - sets[id].objectSize == AllBytes(sets - {id}, byId)
    {
      SetTotalsWithout(sets, id, x);
    }
  }

  /** Counting a stream-set object in. */
  lemma BytesAfterSetPut(lo: map<nat, StreamRow>, hi: map<nat, StreamRow>, sets: map<nat, SetObject>, byId: map<nat, StreamObject>, id: nat, row: SetObject, stored: nat)
    requires id !in sets && Gave(lo, hi, row.slices)
    requires BytesCounted(lo, sets, byId, stored)
    ensures BytesCounted(hi, sets[id := row], byId, stored + row.objectSize)
  {
    var after := sets[id := row];
    assert after - {id} == sets;
    forall x: nat | AtStream(x)
      ensures x in hi ==> hi[x].storedBytes == StreamBytes(after, byId, x)
      ensures stored + row.objectSize == AllBytes(after, byId)
    {
      SetTotalsWithout(after, id, x);
    }
  }

  /** What is counted covers what one object contributes. */
  lemma CountedCoversObject(rows: map<nat, StreamRow>, sets: map<nat, SetObject>, byId: map<nat, StreamObject>, id: nat, stored: nat)
    requires BytesCounted(rows, sets, byId, stored) && id in byId
    ensures byId[id].objectSize <= stored
    ensures byId[id].streamId in rows ==> byId[id].objectSize <= rows[byId[id].streamId].storedBytes
  {
    assert AtStream(byId[id].streamId);
    ObjectTotalsWithout(byId, id, byId[id].streamId);
  }

  lemma CountedCoversSet(rows: map<nat, StreamRow>, sets: map<nat, SetObject>, byId: map<nat, StreamObject>, id: nat, stored: nat)
    requires BytesCounted(rows, sets, byId, stored) && id in sets
    ensures sets[id].objectSize <= stored
    ensures forall x :: x in rows ==> SliceBytes(sets[id].slices, x) <= rows[x].storedBytes
  {
    forall x | x in rows ensures SliceBytes(sets[id].slices, x) <= rows[x].storedBytes {
      assert AtStream(x);
      SetTotalsWithout(sets, id, x);
    }
    assert AtStream(0);
    SetTotalsWithout(sets, id, 0);
  }

  lemma RangesAfterDrop(sets: map<nat, SetObject>, ranges: map<OffsetKey, (nat, nat)>, after: map<OffsetKey, (nat, nat)>, id: nat)
    requires RangesIndexed(sets, ranges) && id in sets && Taken(ranges, after, id, sets[id].slices)
    ensures RangesIndexed(sets - {id}, after)
  {
  }

  lemma RangesAfterPut(sets: map<nat, SetObject>, ranges: map<OffsetKey, (nat, nat)>, after: map<OffsetKey, (nat, nat)>, id: nat, row: SetObject)
    requires RangesIndexed(sets, ranges) && id !in sets && Entered(ranges, after, id, row.slices)
    ensures RangesIndexed(sets[id := row], after)
  {
  }

  // ------------------------------------------------------ slice by slice

  /** `hi` is `lo` with the slices' bytes added to their streams. */
  ghost predicate Gave(lo: map<nat, StreamRow>, hi: map<nat, StreamRow>, xs: seq<Slice>) {
    && lo.Keys == hi.Keys
    && forall id :: id in lo ==> lo[id].stream == hi[id].stream && lo[id].storedBytes + SliceBytes(xs, id) == hi[id].storedBytes
  }

  lemma {:induction false} SliceBytesOfPrefix(xs: seq<Slice>, i: nat, id: nat)
    requires i <= |xs|
    ensures SliceBytes(xs[..i], id) <= SliceBytes(xs, id)
    decreases |xs|
  {
    if i == |xs| {
      assert xs[..i] == xs;
    } else {
      assert xs[..|xs| - 1][..i] == xs[..i];
      SliceBytesOfPrefix(xs[..|xs| - 1], i, id);
    }
  }

  /** `hi` is `lo` with the object's slices entered in order. */
  ghost predicate Entered(lo: map<OffsetKey, (nat, nat)>, hi: map<OffsetKey, (nat, nat)>, owner: nat, xs: seq<Slice>) {
    forall k: OffsetKey ::
      if k.objectId == owner && Entry(xs, k.stream, k.start).Some?
      then k in hi && Entry(xs, k.stream, k.start) == Some(hi[k])
      else (k in hi <==> k in lo) && (k in hi ==> hi[k] == lo[k])
  }

  /** `lo` is `hi` with the keys of the object's slices taken out. */
  ghost predicate Taken(hi: map<OffsetKey, (nat, nat)>, lo: map<OffsetKey, (nat, nat)>, owner: nat, xs: seq<Slice>) {
    forall k: OffsetKey ::
      && (k in lo <==> k in hi && !(k.objectId == owner && Entry(xs, k.stream, k.start).Some?))
      && (k in lo ==> lo[k] == hi[k])
  }

  // -------------------------------------------------------- ordered scans

  /** `es` lists the recorded epochs of the stream, oldest first. */
  ghost predicate EpochList(epochs: map<(nat, int), nat>, id: nat, es: seq<int>) {
    && (forall i, j :: 0 <= i < j < |es| ==> es[i] < es[j])
    && (forall i :: 0 <= i < |es| ==> (id, es[i]) in epochs)
    && (forall e :: (id, e) in epochs ==> e in es)
  }

  /** Taking epochs while they start at or below `offset` finds `n` of them: those before the last are
      exactly the superseded ones. */
  lemma SupersededArePrefix(epochs: map<(nat, int), nat>, id: nat, es: seq<int>, n: nat, offset: nat, j: nat)
    requires EpochList(epochs, id, es) && n <= |es| && j < |es|
    requires forall i :: 0 <= i < n ==> epochs[(id, es[i])] <= offset
    requires n < |es| ==> epochs[(id, es[n])] > offset
    ensures Superseded(epochs, id, es[j], offset) <==> j + 1 < n
  {
    if j + 1 < n {
      forall d | d <= es[n - 1] && (id, d) in epochs ensures epochs[(id, d)] <= offset {
        var i :| 0 <= i < |es| && es[i] == d;
      }
      assert StartedBy(epochs, id, es[n - 1], offset);
    }
    if Superseded(epochs, id, es[j], offset) {
      var f :| es[j] < f && StartedBy(epochs, id, f, offset);
      var m :| 0 <= m < |es| && es[m] == f;
      assert n <= m ==> (id, es[n]) in epochs && es[n] <= f;
    }
  }

  /** Dropping the first `n - 1` listed epochs is what pruning does. */
  lemma PrunedByPrefix(epochs: map<(nat, int), nat>, id: nat, es: seq<int>, n: nat, offset: nat, after: map<(nat, int), nat>)
    requires EpochList(epochs, id, es) && n <= |es|
    requires forall i :: 0 <= i < n ==> epochs[(id, es[i])] <= offset
    requires n < |es| ==> epochs[(id, es[n])] > offset
    requires forall k :: k in after <==> k in epochs && !(k.0 == id && k.1 in es[..if n == 0 then 0 else n - 1])
    requires forall k :: k in after ==> after[k] == epochs[k]
    ensures after == PruneEpochs(epochs, id, offset)
  {
    var dropped := es[..if n == 0 then 0 else n - 1];
    forall k | k in epochs && k.0 == id ensures Superseded(epochs, id, k.1, offset) <==> k.1 in dropped {
      assert (id, k.1) == k;
      var j :| 0 <= j < |es| && es[j] == k.1;
      SupersededArePrefix(epochs, id, es, n, offset, j);
      if j + 1 < n { assert dropped[j] == k.1; }
      if k.1 in dropped {
        var i :| 0 <= i < |dropped| && dropped[i] == k.1;
        assert es[i] == es[j];
      }
    }
  }

  /** The keys of some rows, from either side of the id index. */
  lemma KeysOfRows(objects: map<OffsetKey, StreamObject>, ids: map<nat, OffsetKey>, byId: map<nat, StreamObject>,
                   keys: set<OffsetKey>, rows: set<nat>)
    requires ObjectsIndexed(objects, ids, byId) && rows <= byId.Keys && keys <= objects.Keys
    requires forall k :: k in objects ==> (k in keys <==> k.objectId in rows)
    ensures keys == set id | id in rows && id in byId :: KeyOf(byId[id], id)
  {
    forall id | id in rows ensures ids[id] == KeyOf(byId[id], id) && ids[id] in keys {
      assert AtObject(id);
    }
    forall k | k in keys ensures k in set id | id in rows && id in byId :: KeyOf(byId[id], id) {
      assert AtKey(k) && AtObject(k.objectId);
      assert k.objectId in byId && ids[k.objectId] == k;
    }
  }

  /** As many leases are due as there are due entries in the deadline index. */
  lemma DueEntries(prepared: map<nat, int>, due: set<(int, nat)>, ids: set<nat>)
    requires ids <= prepared.Keys && due == set id | id in ids :: (prepared[id], id)
    ensures |due| == |ids|
    decreases |ids|
  {
    if id :| id in ids {
      var p := (prepared[id], id);
      var less := ids - {id};
      assert due - {p} == set x | x in less :: (prepared[x], x) by {
        forall q | q in due - {p} ensures q in set x | x in less :: (prepared[x], x) {
          assert q.1 in less;
        }
      }
      DueEntries(prepared, due - {p}, less);
    } else {
      assert ids == {};
      assert due == {};
    }
  }
}

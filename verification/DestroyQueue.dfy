/** The queue of destroyed objects, as the cleaner finds it: which objects a command puts there, with
    which operation, and in which order. */
module DestroyQueue {
  import opened MetadataTypes
  import opened Metadata

  /** The queue holds what it held and the ids; entries that are not named are as before, and none moves. */
  ghost predicate Kept(g: Garbage, ids: seq<nat>, t: Garbage) {
    && (forall id :: id in t.marks <==> id in g.marks || id in ids)
    && (forall id :: id in g.marks ==> t.marks[id].seqNo == g.marks[id].seqNo && (id !in ids ==> t.marks[id] == g.marks[id]))
  }

  /** Position `i` is where the id is named for the first time. */
  ghost predicate NamedFirst(ids: seq<nat>, i: nat) {
    i < |ids| && ids[i] !in ids[..i]
  }

  ghost function Newcomers(g: Garbage, ids: seq<nat>): set<nat> {
    set id | id in ids && id !in g.marks
  }

  /** Ids new to the queue come last, in the order in which they are first named, without a gap. */
  ghost predicate Appended(g: Garbage, ids: seq<nat>, t: Garbage)
    requires Kept(g, ids, t)
  {
    && (forall id :: id in Newcomers(g, ids) ==> g.nextSeq <= t.marks[id].seqNo < t.nextSeq)
    && (forall i: nat, j: nat :: NamedFirst(ids, i) && NamedFirst(ids, j) && i < j && ids[i] !in g.marks && ids[j] !in g.marks ==>
          t.marks[ids[i]].seqNo < t.marks[ids[j]].seqNo)
    && t.nextSeq == g.nextSeq + |Newcomers(g, ids)|
  }

  /** The ids join the queue: one already there keeps its place, and the others come last. */
  ghost predicate Joined(g: Garbage, ids: seq<nat>, t: Garbage) {
    Kept(g, ids, t) && Appended(g, ids, t)
  }

  /** Position `i` is where the id is named for the last time. */
  ghost predicate NamedLast(ids: seq<nat>, i: nat) {
    i < |ids| && ids[i] !in ids[i + 1..]
  }

  /** Each id got the operation given with it last. */
  ghost predicate Operated(ids: seq<nat>, ops: seq<CompactOperation>, t: Garbage)
    requires |ids| == |ops|
  {
    forall i: nat :: NamedLast(ids, i) ==> ids[i] in t.marks && t.marks[ids[i]].op == ops[i]
  }

  lemma KeptNext(g: Garbage, ids: seq<nat>, t: Garbage, id: nat, op: CompactOperation)
    requires Kept(g, ids, t)
    ensures Kept(g, ids + [id], MarkOne(t, id, op))
  {
  }

  lemma NewcomersNext(g: Garbage, ids: seq<nat>, id: nat)
    ensures Newcomers(g, ids + [id]) == Newcomers(g, ids) + (if id in g.marks then {} else {id})
  {
  }

  lemma NamedFirstNext(ids: seq<nat>, id: nat, i: nat)
    ensures NamedFirst(ids + [id], i) <==> NamedFirst(ids, i) || (i == |ids| && id !in ids)
  {
    if i < |ids| { assert (ids + [id])[..i] == ids[..i]; }
    if i == |ids| { assert (ids + [id])[..i] == ids; }
  }

  /** Naming an id that is in the queue already moves nothing. */
  lemma AgainNext(g: Garbage, ids: seq<nat>, t: Garbage, id: nat, op: CompactOperation)
    requires Joined(g, ids, t) && id in t.marks
    ensures Joined(g, ids + [id], MarkOne(t, id, op))
  {
    var all, u := ids + [id], MarkOne(t, id, op);
    KeptNext(g, ids, t, id, op);
    NewcomersNext(g, ids, id);
    assert Newcomers(g, all) == Newcomers(g, ids);
    forall i: nat, j: nat | NamedFirst(all, i) && NamedFirst(all, j) && i < j && all[i] !in g.marks && all[j] !in g.marks
      ensures u.marks[all[i]].seqNo < u.marks[all[j]].seqNo
    {
      NamedFirstNext(ids, id, i);
      NamedFirstNext(ids, id, j);
    }
  }

  lemma NewComesLast(g: Garbage, ids: seq<nat>, t: Garbage, id: nat, op: CompactOperation, i: nat, j: nat)
    requires Joined(g, ids, t) && id !in t.marks
    requires NamedFirst(ids + [id], i) && NamedFirst(ids + [id], j) && i < j
    requires (ids + [id])[i] !in g.marks && (ids + [id])[j] !in g.marks
    ensures var all, u := ids + [id], MarkOne(t, id, op);
            all[i] in u.marks && all[j] in u.marks && u.marks[all[i]].seqNo < u.marks[all[j]].seqNo
  {
    NamedFirstNext(ids, id, i);
    assert ids[i] in Newcomers(g, ids);
    if j < |ids| {
      NamedFirstNext(ids, id, j);
      assert ids[j] in ids;
    }
  }

  lemma NewNext(g: Garbage, ids: seq<nat>, t: Garbage, id: nat, op: CompactOperation)
    requires Joined(g, ids, t) && id !in t.marks
    ensures Joined(g, ids + [id], MarkOne(t, id, op))
  {
    var all, u := ids + [id], MarkOne(t, id, op);
    KeptNext(g, ids, t, id, op);
    NewcomersNext(g, ids, id);
    assert |Newcomers(g, all)| == |Newcomers(g, ids)| + 1 by { assert id !in Newcomers(g, ids); }
    forall i: nat, j: nat | NamedFirst(all, i) && NamedFirst(all, j) && i < j && all[i] !in g.marks && all[j] !in g.marks
      ensures u.marks[all[i]].seqNo < u.marks[all[j]].seqNo
    {
      NewComesLast(g, ids, t, id, op, i, j);
    }
  }

  lemma JoinedNext(g: Garbage, ids: seq<nat>, t: Garbage, id: nat, op: CompactOperation)
    requires Joined(g, ids, t)
    ensures Joined(g, ids + [id], MarkOne(t, id, op))
  {
    if id in t.marks { AgainNext(g, ids, t, id, op); } else { NewNext(g, ids, t, id, op); }
  }

  lemma OperatedNext(ids: seq<nat>, ops: seq<CompactOperation>, t: Garbage, id: nat, op: CompactOperation)
    requires |ids| == |ops| && Operated(ids, ops, t)
    ensures Operated(ids + [id], ops + [op], MarkOne(t, id, op))
  {
    var all := ids + [id];
    forall i: nat | NamedLast(all, i)
      ensures all[i] in MarkOne(t, id, op).marks && MarkOne(t, id, op).marks[all[i]].op == (ops + [op])[i]
    {
      if i < |ids| {
        assert all[i + 1..] == ids[i + 1..] + [id];
        assert NamedLast(ids, i);
      }
    }
  }

  lemma JoinedNone(g: Garbage)
    ensures Joined(g, [], g) && Operated([], [], g)
  {
    assert Newcomers(g, []) == {};
  }

  lemma {:induction false} MarkAllJoins(g: Garbage, ids: seq<nat>, ops: seq<CompactOperation>)
    requires |ids| == |ops|
    ensures Joined(g, ids, MarkAll(g, ids, ops)) && Operated(ids, ops, MarkAll(g, ids, ops))
    decreases |ids|
  {
    if ids == [] {
      JoinedNone(g);
    } else {
      var n := |ids| - 1;
      var before := MarkAll(g, ids[..n], ops[..n]);
      assert ids[..n] + [ids[n]] == ids && ops[..n] + [ops[n]] == ops;
      assert MarkAll(g, ids, ops) == MarkOne(before, ids[n], ops[n]);
      MarkAllJoins(g, ids[..n], ops[..n]);
      JoinedNext(g, ids[..n], before, ids[n], ops[n]);
      OperatedNext(ids[..n], ops[..n], before, ids[n], ops[n]);
    }
  }

  // ------------------------------------------------------------- compactions

  /** A stream-object compaction queues exactly its sources, in their order, each with the operation the
      request gives for it, or to be deleted if it gives none. */
  lemma CompactionQueues(s: State, r: CompactRequest, now: int)
    requires CompactStep(s, r, now).Ok?
    ensures var g, t := s.objects.garbage, CompactStep(s, r, now).value.state.objects.garbage;
            && Joined(g, r.sources, t)
            && (forall i: nat :: NamedLast(r.sources, i) ==>
                  && r.sources[i] in t.marks
                  && if r.operations == [] then t.marks[r.sources[i]].op.Delete?
                     else i < |r.operations| && t.marks[r.sources[i]].op == r.operations[i])
  {
    MarkAllJoins(s.objects.garbage, r.sources, SourceOperations(r.sources, r.operations));
  }

  lemma DeletesMark(g: Garbage, ids: seq<nat>, id: nat)
    requires id in ids
    ensures var t := MarkAll(g, ids, Deletes(|ids|)); id in t.marks && t.marks[id].op.Delete?
  {
    MarkAllJoins(g, ids, Deletes(|ids|));
    var i := LastNaming(ids, id);
  }

  lemma CommitMarks(s: State, n: int, r: CommitRequest, now: int)
    requires CommitStep(s, n, r, now).Ok?
    ensures CommitStep(s, n, r, now).value.state.objects.garbage == MarkAll(s.objects.garbage, r.compacted, Deletes(|r.compacted|))
  {
    var stamp := CommitStamp(s.objects, r, now);
    var freed := s.(objects := DestroySetObjects(s.objects, r.compacted));
    var withSet := CommitSetObject(freed, n, r, stamp).value;
    CommitKeepsGarbage(withSet, r.streamObjects, r.compacted != [], stamp);
  }

  /** A commit queues exactly the objects it replaces, in their order, for deletion. */
  lemma CommitQueues(s: State, n: int, r: CommitRequest, now: int)
    requires CommitStep(s, n, r, now).Ok?
    ensures var g, t := s.objects.garbage, CommitStep(s, n, r, now).value.state.objects.garbage;
            Joined(g, r.compacted, t) && forall id :: id in r.compacted ==> t.marks[id].op.Delete?
  {
    CommitMarks(s, n, r, now);
    MarkAllJoins(s.objects.garbage, r.compacted, Deletes(|r.compacted|));
    forall id | id in r.compacted
      ensures MarkAll(s.objects.garbage, r.compacted, Deletes(|r.compacted|)).marks[id].op.Delete?
    {
      DeletesMark(s.objects.garbage, r.compacted, id);
    }
  }

  lemma {:induction false} CommitKeepsGarbage(s: State, xs: seq<NewStreamObject>, compact: bool, t: Stamp)
    requires CommitStreamObjects(s, xs, compact, t).Ok?
    ensures CommitStreamObjects(s, xs, compact, t).value.objects.garbage == s.objects.garbage
    decreases |xs|
  {
    if xs != [] { CommitKeepsGarbage(s, xs[..|xs| - 1], compact, t); }
  }

  lemma {:induction false} LastNaming(ids: seq<nat>, id: nat) returns (i: nat)
    requires id in ids
    ensures NamedLast(ids, i) && ids[i] == id
    decreases |ids|
  {
    var n := |ids| - 1;
    if ids[n] == id {
      i := n;
    } else {
      assert ids == ids[..n] + [ids[n]];
      i := LastNaming(ids[..n], id);
      assert ids[i + 1..] == ids[..n][i + 1..] + [ids[n]];
    }
  }

  // --------------------------------------------------------- trims, deletions

  /** `a` starts below `b`, or at the same offset with a smaller id. */
  predicate Before(objects: map<nat, StreamObject>, a: nat, b: nat)
    requires a in objects && b in objects
  {
    || objects[a].startOffset < objects[b].startOffset
    || (objects[a].startOffset == objects[b].startOffset && a < b)
  }

  ghost predicate OfStream(o: Objects, gone: set<nat>, streamId: nat) {
    forall id :: id in gone ==> id in o.streamObjects && o.streamObjects[id].streamId == streamId
  }

  /** The objects dropped from the table are queued for deletion in the order of their start offsets, and
      of their ids where those are equal. */
  ghost predicate Dropped(o: Objects, gone: set<nat>, t: Objects)
    requires gone <= o.streamObjects.Keys
  {
    && t == o.(streamObjects := t.streamObjects, garbage := t.garbage)
    && t.streamObjects == o.streamObjects - gone
    && (forall id :: id in t.garbage.marks <==> id in o.garbage.marks || id in gone)
    && (forall id :: id in gone ==> t.garbage.marks[id].op.Delete?)
    && (forall id :: id in o.garbage.marks ==>
          t.garbage.marks[id].seqNo == o.garbage.marks[id].seqNo && (id !in gone ==> t.garbage.marks[id] == o.garbage.marks[id]))
    && (forall id :: id in gone && id !in o.garbage.marks ==> o.garbage.nextSeq <= t.garbage.marks[id].seqNo < t.garbage.nextSeq)
    && (forall a, b :: a in gone && b in gone && a !in o.garbage.marks && b !in o.garbage.marks && Before(o.streamObjects, a, b)
          ==> t.garbage.marks[a].seqNo < t.garbage.marks[b].seqNo)
    && t.garbage.nextSeq == o.garbage.nextSeq + |gone - o.garbage.marks.Keys|
  }

  lemma ScanOrderHas(objects: map<nat, StreamObject>, ids: set<nat>, id: nat)
    requires ids <= objects.Keys
    ensures id in InScanOrder(objects, ids) <==> id in ids
  {
    var keys := set x | x in ids && x in objects :: KeyOf(objects[x], x);
    var q := SortKeys(keys);
    if id in ids {
      assert KeyOf(objects[id], id) in q;
      var i :| 0 <= i < |q| && q[i] == KeyOf(objects[id], id);
      assert ObjectsOf(q)[i] == id;
    }
    if id in ObjectsOf(q) {
      var i :| 0 <= i < |q| && ObjectsOf(q)[i] == id;
      assert q[i] in keys;
    }
  }

  lemma ScanDistinct(objects: map<nat, StreamObject>, ids: set<nat>, i: int, j: int)
    requires ids <= objects.Keys && 0 <= i < j < |InScanOrder(objects, ids)|
    ensures InScanOrder(objects, ids)[i] != InScanOrder(objects, ids)[j]
  {
    var keys := set x | x in ids && x in objects :: KeyOf(objects[x], x);
    var q := SortKeys(keys);
    assert q[i] in keys && q[j] in keys && q[i] != q[j];
  }

  lemma ScanNamesOnce(objects: map<nat, StreamObject>, ids: set<nat>, i: nat)
    requires ids <= objects.Keys && i < |InScanOrder(objects, ids)|
    ensures NamedFirst(InScanOrder(objects, ids), i)
  {
    forall k | 0 <= k < i ensures InScanOrder(objects, ids)[k] != InScanOrder(objects, ids)[i] {
      ScanDistinct(objects, ids, k, i);
    }
  }

  /** Of two objects the one with the smaller key stands first in the scan order. */
  lemma ScanPosition(objects: map<nat, StreamObject>, ids: set<nat>, a: nat, b: nat) returns (i: nat, j: nat)
    requires ids <= objects.Keys && a in ids && b in ids && a != b && KeyLeq(KeyOf(objects[a], a), KeyOf(objects[b], b))
    ensures var order := InScanOrder(objects, ids);
            i < j < |order| && order[i] == a && order[j] == b && NamedFirst(order, i) && NamedFirst(order, j)
  {
    var keys := set x | x in ids && x in objects :: KeyOf(objects[x], x);
    var q := SortKeys(keys);
    var ka, kb := KeyOf(objects[a], a), KeyOf(objects[b], b);
    assert ka in q && kb in q;
    i :| 0 <= i < |q| && q[i] == ka;
    j :| 0 <= j < |q| && q[j] == kb;
    assert j < i ==> KeyLeq(q[j], q[i]);
    ScanNamesOnce(objects, ids, i);
    ScanNamesOnce(objects, ids, j);
  }

  lemma ScanQueues(o: Objects, gone: set<nat>, streamId: nat, t: Garbage, a: nat, b: nat)
    requires OfStream(o, gone, streamId) && Joined(o.garbage, InScanOrder(o.streamObjects, gone), t)
    requires a in gone && b in gone && a !in o.garbage.marks && b !in o.garbage.marks && Before(o.streamObjects, a, b)
    ensures a in t.marks && b in t.marks && t.marks[a].seqNo < t.marks[b].seqNo
  {
    var i, j := ScanPosition(o.streamObjects, gone, a, b);
  }

  lemma ScanNewcomers(o: Objects, gone: set<nat>)
    requires gone <= o.streamObjects.Keys
    ensures Newcomers(o.garbage, InScanOrder(o.streamObjects, gone)) == gone - o.garbage.marks.Keys
    ensures forall id :: id in InScanOrder(o.streamObjects, gone) <==> id in gone
  {
    forall id ensures id in InScanOrder(o.streamObjects, gone) <==> id in gone { ScanOrderHas(o.streamObjects, gone, id); }
  }

  /** Dropping objects of one stream, whichever they are. */
  lemma DestroyDrops(o: Objects, gone: set<nat>, streamId: nat)
    requires OfStream(o, gone, streamId)
    ensures Dropped(o, gone, DestroyStreamObjects(o, gone))
  {
    var order := InScanOrder(o.streamObjects, gone);
    var t := DestroyStreamObjects(o, gone).garbage;
    MarkAllJoins(o.garbage, order, Deletes(|order|));
    ScanNewcomers(o, gone);
    forall id | id in gone ensures t.marks[id].op.Delete? { DeletesMark(o.garbage, order, id); }
    forall a, b | a in gone && b in gone && a !in o.garbage.marks && b !in o.garbage.marks && Before(o.streamObjects, a, b)
      ensures t.marks[a].seqNo < t.marks[b].seqNo
    {
      ScanQueues(o, gone, streamId, t, a, b);
    }
  }

  /** A trim drops exactly the stream's objects that end at or below the new start. */
  lemma TrimDrops(s: State, n: int, id: nat, epoch: int, start: nat)
    requires TrimStreamStep(s, n, id, epoch, start).Ok?
    ensures var o, t := s.objects, TrimStreamStep(s, n, id, epoch, start).value.state.objects;
            var gone := set x | x in o.streamObjects && o.streamObjects[x].streamId == id && o.streamObjects[x].endOffset <= start;
            Dropped(o, gone, t)
  {
    DestroyDrops(s.objects, ObjectsBelow(s.objects.streamObjects, id, start), id);
  }

  /** Deleting a stream drops exactly its objects. */
  lemma DeletionDrops(s: State, n: int, id: nat, epoch: int)
    requires id in s.streams && DeleteStreamStep(s, n, id, epoch).Ok?
    ensures var o, t := s.objects, DeleteStreamStep(s, n, id, epoch).value.state.objects;
            var gone := set x | x in o.streamObjects && o.streamObjects[x].streamId == id;
            Dropped(o, gone, t)
  {
    DestroyDrops(s.objects, ObjectsOfStream(s.objects.streamObjects, id), id);
  }
}

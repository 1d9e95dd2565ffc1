/** The consistency audit over stream-set slices: every slice of every row is recorded, nothing else is,
    and each stream's bytes add up from the records. It holds exactly while no row has two slices of one
    stream with one start, because both would be recorded under the same key. */
module Audit {
  import opened Prelude
  import opened Sums
  import opened MetadataTypes
  import opened Metadata
  import opened Frames
  import opened Indexes

  function SliceKey(x: Slice, object_: nat): OffsetKey {
    OffsetKey(x.streamId, x.startOffset, object_)
  }

  ghost predicate DistinctStarts(xs: seq<Slice>) {
    forall i, j :: 0 <= i < j < |xs| ==> SliceKey(xs[i], 0) != SliceKey(xs[j], 0)
  }

  ghost predicate AllDistinct(sets: map<nat, SetObject>) {
    forall k :: k in sets ==> DistinctStarts(sets[k].slices)
  }

  // ------------------------------------------------------------- the audit

  ghost predicate SlicesRecorded(xs: seq<Slice>, k: nat, ranges: map<OffsetKey, (nat, nat)>) {
    forall i :: 0 <= i < |xs| ==>
      SliceKey(xs[i], k) in ranges && ranges[SliceKey(xs[i], k)] == (xs[i].endOffset, xs[i].size)
  }

  ghost function SliceCounts(sets: map<nat, SetObject>): map<nat, nat> {
    map k | k in sets :: |sets[k].slices|
  }

  /** The bytes each record gives to one stream. */
  ghost function Weights(ranges: map<OffsetKey, (nat, nat)>, id: nat): map<OffsetKey, nat> {
    map k | k in ranges :: if k.stream == id then ranges[k].1 else 0
  }

  /** Every slice is recorded, and there are as many records as slices. */
  ghost predicate SliceAudit(sets: map<nat, SetObject>, ranges: map<OffsetKey, (nat, nat)>) {
    && (forall k :: k in sets ==> SlicesRecorded(sets[k].slices, k, ranges))
    && |ranges| == Total(SliceCounts(sets))
  }

  // ------------------------------------------------------- one row's records

  /** What recording the slices in order leaves. */
  ghost function Records(xs: seq<Slice>, k: nat): map<OffsetKey, (nat, nat)> {
    if xs == [] then map[]
    else
      var x := xs[|xs| - 1];
      Records(xs[..|xs| - 1], k)[SliceKey(x, k) := (x.endOffset, x.size)]
  }

  lemma {:induction false} RecordsAt(xs: seq<Slice>, k: nat, key: OffsetKey)
    ensures key in Records(xs, k) <==> key.objectId == k && Entry(xs, key.stream, key.start).Some?
    ensures key in Records(xs, k) ==> Entry(xs, key.stream, key.start) == Some(Records(xs, k)[key])
    decreases |xs|
  {
    if xs != [] { RecordsAt(xs[..|xs| - 1], k, key); }
  }

  lemma {:induction false} RecordsKeys(xs: seq<Slice>, k: nat, key: OffsetKey)
    ensures key in Records(xs, k) <==> exists i :: 0 <= i < |xs| && SliceKey(xs[i], k) == key
    decreases |xs|
  {
    if xs != [] {
      var n := |xs| - 1;
      RecordsKeys(xs[..n], k, key);
      if key in Records(xs[..n], k) {
        var i :| 0 <= i < n && SliceKey(xs[..n][i], k) == key;
        assert SliceKey(xs[i], k) == key;
      } else if SliceKey(xs[n], k) != key {
        forall i | 0 <= i < |xs| ensures SliceKey(xs[i], k) != key {
          if i < n { assert xs[..n][i] == xs[i]; }
        }
      }
    }
  }

  lemma DistinctStartsNext(xs: seq<Slice>, k: nat)
    requires xs != []
    ensures DistinctStarts(xs) <==>
            DistinctStarts(xs[..|xs| - 1]) && SliceKey(xs[|xs| - 1], k) !in Records(xs[..|xs| - 1], k)
  {
    var n := |xs| - 1;
    var init := xs[..n];
    RecordsKeys(init, k, SliceKey(xs[n], k));
    if SliceKey(xs[n], k) in Records(init, k) {
      var i :| 0 <= i < |init| && SliceKey(init[i], k) == SliceKey(xs[n], k);
      assert SliceKey(xs[i], 0) == SliceKey(xs[n], 0);
    } else if DistinctStarts(init) {
      forall i, j | 0 <= i < j < |xs| ensures SliceKey(xs[i], 0) != SliceKey(xs[j], 0) {
        assert init[i] == xs[i];
        if j < n { assert init[j] == xs[j]; }
      }
    }
    if DistinctStarts(xs) {
      forall i, j | 0 <= i < j < |init| ensures SliceKey(init[i], 0) != SliceKey(init[j], 0) {
        assert SliceKey(xs[i], 0) != SliceKey(xs[j], 0);
      }
    }
  }

  /** There are as many records as slices exactly when no two slices share a key. */
  lemma {:induction false} RecordCount(xs: seq<Slice>, k: nat)
    ensures |Records(xs, k)| <= |xs|
    ensures |Records(xs, k)| == |xs| <==> DistinctStarts(xs)
    decreases |xs|
  {
    if xs != [] {
      RecordCount(xs[..|xs| - 1], k);
      DistinctStartsNext(xs, k);
    }
  }

  lemma {:induction false} DistinctAreRecorded(xs: seq<Slice>, k: nat)
    requires DistinctStarts(xs)
    ensures SlicesRecorded(xs, k, Records(xs, k))
    decreases |xs|
  {
    if xs != [] {
      var n := |xs| - 1;
      DistinctStartsNext(xs, k);
      DistinctAreRecorded(xs[..n], k);
      forall i | 0 <= i < n ensures SliceKey(xs[i], k) in Records(xs, k) && Records(xs, k)[SliceKey(xs[i], k)] == (xs[i].endOffset, xs[i].size) {
        assert xs[..n][i] == xs[i];
        RecordsKeys(xs[..n], k, SliceKey(xs[i], k));
      }
    }
  }

  lemma {:induction false} RecordBytes(xs: seq<Slice>, k: nat, id: nat)
    requires DistinctStarts(xs)
    ensures Total(Weights(Records(xs, k), id)) == SliceBytes(xs, id)
    decreases |xs|
  {
    if xs != [] {
      var x := xs[|xs| - 1];
      DistinctStartsNext(xs, k);
      RecordBytes(xs[..|xs| - 1], k, id);
      var w := Weights(Records(xs, k), id);
      TotalWithout(w, SliceKey(x, k));
      assert w - {SliceKey(x, k)} == Weights(Records(xs[..|xs| - 1], k), id);
    }
  }

  // ------------------------------------------------------------ all the rows

  ghost function OfOthers(ranges: map<OffsetKey, (nat, nat)>, k: nat): map<OffsetKey, (nat, nat)> {
    map key | key in ranges && key.objectId != k :: ranges[key]
  }

  /** The records split into one row's and everybody else's. */
  lemma RecordsSplit(sets: map<nat, SetObject>, ranges: map<OffsetKey, (nat, nat)>, k: nat)
    requires RangesIndexed(sets, ranges) && k in sets
    ensures RangesIndexed(sets - {k}, OfOthers(ranges, k))
    ensures ranges == OfOthers(ranges, k) + Records(sets[k].slices, k)
    ensures OfOthers(ranges, k).Keys !! Records(sets[k].slices, k).Keys
  {
    var own := Records(sets[k].slices, k);
    forall key ensures key in own <==> key in ranges && key.objectId == k {
      assert AtKey(key);
      RecordsAt(sets[k].slices, k, key);
    }
    forall key | key in own ensures own[key] == ranges[key] {
      assert AtKey(key);
      RecordsAt(sets[k].slices, k, key);
    }
  }

  lemma UnionWithout<K, V>(a: map<K, V>, b: map<K, V>, k: K)
    requires a.Keys !! b.Keys && k in b
    ensures (a + b) - {k} == a + (b - {k}) && (a + b)[k] == b[k]
    ensures b - {k} != b
  {
  }

  lemma UnionEmpty<K, V>(a: map<K, V>, b: map<K, V>)
    requires b == map[]
    ensures a + b == a
  {
  }

  lemma {:induction false} TotalUnion<K(!new)>(a: map<K, nat>, b: map<K, nat>)
    requires a.Keys !! b.Keys
    ensures Total(a + b) == Total(a) + Total(b)
    decreases |b|
  {
    if b == map[] {
      UnionEmpty(a, b);
    } else {
      var k :| k in b;
      UnionWithout(a, b, k);
      TotalUnion(a, b - {k});
      TotalWithout(b, k);
      TotalWithout(a + b, k);
    }
  }

  lemma CountOfUnion<K, V>(a: map<K, V>, b: map<K, V>)
    requires a.Keys !! b.Keys
    ensures |a + b| == |a| + |b|
  {
    assert (a + b).Keys == a.Keys + b.Keys;
  }

  lemma CountsWithout(sets: map<nat, SetObject>, k: nat)
    requires k in sets
    ensures Total(SliceCounts(sets)) == |sets[k].slices| + Total(SliceCounts(sets - {k}))
  {
    TotalWithout(SliceCounts(sets), k);
    assert SliceCounts(sets) - {k} == SliceCounts(sets - {k});
  }

  lemma NothingRecorded(ranges: map<OffsetKey, (nat, nat)>)
    requires RangesIndexed(map[], ranges)
    ensures ranges == map[]
  {
    forall key ensures key !in ranges { assert AtKey(key); }
  }

  lemma DistinctWithout(sets: map<nat, SetObject>, k: nat)
    requires k in sets
    ensures AllDistinct(sets) <==> AllDistinct(sets - {k}) && DistinctStarts(sets[k].slices)
  {
    if AllDistinct(sets - {k}) && DistinctStarts(sets[k].slices) {
      forall j | j in sets ensures DistinctStarts(sets[j].slices) {
        if j != k { assert j in sets - {k} && (sets - {k})[j] == sets[j]; }
      }
    }
  }

  lemma {:induction false} RangeCount(sets: map<nat, SetObject>, ranges: map<OffsetKey, (nat, nat)>)
    requires RangesIndexed(sets, ranges)
    ensures |ranges| <= Total(SliceCounts(sets))
    ensures |ranges| == Total(SliceCounts(sets)) <==> AllDistinct(sets)
    decreases |sets|
  {
    if sets == map[] {
      NothingRecorded(ranges);
    } else {
      var k :| k in sets;
      RecordsSplit(sets, ranges, k);
      CountOfUnion(OfOthers(ranges, k), Records(sets[k].slices, k));
      RecordCount(sets[k].slices, k);
      RangeCount(sets - {k}, OfOthers(ranges, k));
      CountsWithout(sets, k);
      DistinctWithout(sets, k);
    }
  }

  /** The audit passes exactly when every row's slices start in different places. */
  lemma SliceAuditIff(sets: map<nat, SetObject>, ranges: map<OffsetKey, (nat, nat)>)
    requires RangesIndexed(sets, ranges)
    ensures SliceAudit(sets, ranges) <==> AllDistinct(sets)
  {
    RangeCount(sets, ranges);
    if AllDistinct(sets) {
      forall k | k in sets ensures SlicesRecorded(sets[k].slices, k, ranges) {
        DistinctAreRecorded(sets[k].slices, k);
        RecordsSplit(sets, ranges, k);
      }
    }
  }

  lemma WeightsSplit(a: map<OffsetKey, (nat, nat)>, b: map<OffsetKey, (nat, nat)>, id: nat)
    requires a.Keys !! b.Keys
    ensures Total(Weights(a + b, id)) == Total(Weights(a, id)) + Total(Weights(b, id))
  {
    TotalUnion(Weights(a, id), Weights(b, id));
    assert Weights(a + b, id) == Weights(a, id) + Weights(b, id);
  }

  /** Then the records alone say how many bytes each stream's slices hold. */
  lemma {:induction false} RangeBytes(sets: map<nat, SetObject>, ranges: map<OffsetKey, (nat, nat)>, id: nat)
    requires RangesIndexed(sets, ranges) && AllDistinct(sets)
    ensures Total(Weights(ranges, id)) == Total(SetShares(sets, id))
    decreases |sets|
  {
    if sets == map[] {
      NothingRecorded(ranges);
    } else {
      var k :| k in sets;
      RecordsSplit(sets, ranges, k);
      WeightsSplit(OfOthers(ranges, k), Records(sets[k].slices, k), id);
      RecordBytes(sets[k].slices, k, id);
      DistinctWithout(sets, k);
      RangeBytes(sets - {k}, OfOthers(ranges, k), id);
      SetTotalsWithout(sets, k, id);
    }
  }

  // -------------------------------------------------------------- over runs

  /** A command whose slices, if it commits any, start in different places. */
  ghost predicate DistinctSlices(c: Command) {
    c.CommitStreamSetObject? && c.commit.objectId != NOOP_OBJECT_ID ==> DistinctStarts(c.commit.slices)
  }

  lemma CommitAuditIff(s: State, n: int, r: CommitRequest, nowMs: int)
    requires CommitStep(s, n, r, nowMs).Ok? && AllDistinct(s.objects.setObjects)
    ensures AllDistinct(CommitStep(s, n, r, nowMs).value.state.objects.setObjects)
            <==> (r.objectId != NOOP_OBJECT_ID ==> DistinctStarts(r.slices))
  {
    CommitSets(s, n, r, nowMs);
    var sets := CommitStep(s, n, r, nowMs).value.state.objects.setObjects;
    assert AllDistinct(s.objects.setObjects - IdSet(r.compacted));
    if r.objectId != NOOP_OBJECT_ID { DistinctWithout(sets, r.objectId); }
  }

  /** A commit drops the sets it compacts and adds its own row. */
  lemma CommitSets(s: State, n: int, r: CommitRequest, nowMs: int)
    requires CommitStep(s, n, r, nowMs).Ok?
    ensures var sets := CommitStep(s, n, r, nowMs).value.state.objects.setObjects;
            var kept := s.objects.setObjects - IdSet(r.compacted);
            if r.objectId == NOOP_OBJECT_ID then sets == kept
            else r.objectId in sets && sets[r.objectId].slices == r.slices && sets - {r.objectId} == kept - {r.objectId}
                 && r.objectId !in kept
  {
    var t := CommitStamp(s.objects, r, nowMs);
    var freed := s.(objects := DestroySetObjects(s.objects, r.compacted));
    var withSet := CommitSetObject(freed, n, r, t).value;
    ObjectsLeaveSets(withSet, r.streamObjects, r.compacted != [], t);
  }

  lemma {:induction false} ObjectsLeaveSets(s: State, xs: seq<NewStreamObject>, compact: bool, t: Stamp)
    requires CommitStreamObjects(s, xs, compact, t).Ok?
    ensures CommitStreamObjects(s, xs, compact, t).value.objects.setObjects == s.objects.setObjects
    decreases |xs|
  {
    if xs != [] { ObjectsLeaveSets(s, xs[..|xs| - 1], compact, t); }
  }

  /** An accepted command keeps the audit passing exactly when its slices start in different places. */
  lemma StepAuditIff(s: State, c: Command)
    requires AllDistinct(s.objects.setObjects) && Step(s, c).Ok?
    ensures AllDistinct(Apply(s, c).objects.setObjects) <==> DistinctSlices(c)
  {
    if c.CommitStreamSetObject? {
      CommitAuditIff(s, c.proposer.nodeId, c.commit, c.nowMs);
    } else {
      OthersLeaveSets(s, c);
    }
  }

  lemma OthersLeaveSets(s: State, c: Command)
    requires Step(s, c).Ok? && !c.CommitStreamSetObject?
    ensures Apply(s, c).objects.setObjects == s.objects.setObjects
  {
    if !ChangesObjects(c) { StepFrame(s, c); }
    else if IsObjectCommand(c) { ObjectCommandsLeaveSets(s, c); }
    else { RemovalLeavesSets(s, c); }
  }

  lemma RemovalLeavesSets(s: State, c: Command)
    requires (c.TrimStream? || c.DeleteStream?) && StreamTransition(s, c).Ok?
    ensures StreamTransition(s, c).value.state.objects.setObjects == s.objects.setObjects
  {
  }

  lemma ObjectCommandsLeaveSets(s: State, c: Command)
    requires IsObjectCommand(c) && ObjectTransition(s, c).Ok? && !c.CommitStreamSetObject?
    ensures ObjectTransition(s, c).value.state.objects.setObjects == s.objects.setObjects
  {
  }

  lemma {:induction false} RunAudit(s: State, cs: seq<Command>)
    requires AllDistinct(s.objects.setObjects) && forall i :: 0 <= i < |cs| ==> DistinctSlices(cs[i])
    ensures AllDistinct(Run(s, cs).objects.setObjects)
    decreases |cs|
  {
    if cs != [] {
      if Step(s, cs[0]).Ok? { StepAuditIff(s, cs[0]); }
      RunAudit(Apply(s, cs[0]), cs[1..]);
    }
  }

  /** Two slices of one stream with one start: an empty one, then the data. */
  const SHARED_START := [Slice(0, 0, 0, 1), Slice(0, 0, 5, 2)]

  function Overwriting(): seq<Command> {
    [RegisterNode(0, 0, [], 0, map[], []),
     CreateStream(Proposer(0, 0)),
     CommitStreamSetObject(Proposer(0, 0), CommitRequest(7, 3, 0, SHARED_START, [], []), 0)]
  }

  /** Such a commit is accepted, so the audit can fail after a run from the empty state. */
  lemma AuditCanFail(ranges: map<OffsetKey, (nat, nat)>)
    requires RangesIndexed(Run(Empty, Overwriting()).objects.setObjects, ranges)
    ensures !SliceAudit(Run(Empty, Overwriting()).objects.setObjects, ranges)
  {
    var cs := Overwriting();
    var s1 := Apply(Empty, cs[0]);
    assert s1.nodes == map[0 := Node(0, [], 0, map[], [], 0, false)];
    var s2 := Apply(s1, cs[1]);
    assert s2.streams == map[0 := NewStream] && s2.nodes == s1.nodes && s2.objects == Empty.objects;
    SharedStartAccepted(s2);
    assert cs[1..][1..] == [cs[2]] && cs[1..][0] == cs[1] && [cs[2]][1..] == [];
    assert Run(s2, [cs[2]]) == Run(Apply(s2, cs[2]), []);
    var sets := Run(Empty, cs).objects.setObjects;
    assert SliceKey(SHARED_START[0], 0) == SliceKey(SHARED_START[1], 0);
    SliceAuditIff(sets, ranges);
  }

  lemma SharedStartAccepted(s: State)
    requires s.streams == map[0 := NewStream] && s.objects == Empty.objects
    ensures var r := CommitRequest(7, 3, 0, SHARED_START, [], []);
            CommitStep(s, 0, r, 0).Ok? &&
            var sets := CommitStep(s, 0, r, 0).value.state.objects.setObjects;
            7 in sets && sets[7].slices == SHARED_START
  {
    assert SHARED_START[..1] == [SHARED_START[0]] && SHARED_START[..1][..0] == [];
    assert AdvanceAll(s.streams, SHARED_START[..1], false).Ok?;
  }
}

/** Which commits and compactions are accepted, as a condition on the tables and the request alone. */
module CommitAcceptance {
  import opened Prelude
  import opened MetadataTypes
  import opened Metadata
  import opened Frames

  /** A range of offsets of a stream that a commit carries. */
  datatype Range = Range(stream: nat, start: nat, end: nat)

  function SliceRanges(xs: seq<Slice>): (rs: seq<Range>)
    ensures |rs| == |xs|
  {
    seq(|xs|, i requires 0 <= i < |xs| => Range(xs[i].streamId, xs[i].startOffset, xs[i].endOffset))
  }

  function ObjectRanges(xs: seq<NewStreamObject>): (rs: seq<Range>)
    ensures |rs| == |xs|
  {
    seq(|xs|, i requires 0 <= i < |xs| => Range(xs[i].streamId, xs[i].startOffset, xs[i].endOffset))
  }

  /** The slices, if there is an object to hold them, and then the stream objects. */
  function Ranges(r: CommitRequest): seq<Range> {
    (if r.objectId == NOOP_OBJECT_ID then [] else SliceRanges(r.slices)) + ObjectRanges(r.streamObjects)
  }

  /** Every range lies between the start and the end of its stream. */
  ghost predicate Inside(streams: map<nat, Stream>, rs: seq<Range>) {
    forall i :: 0 <= i < |rs| ==>
      && rs[i].stream in streams
      && streams[rs[i].stream].startOffset <= rs[i].start && rs[i].end <= streams[rs[i].stream].endOffset
  }

  /** `j` is the last range of the stream before `i`. */
  ghost predicate Precedes(rs: seq<Range>, j: nat, i: nat, stream: nat) {
    j < i <= |rs| && rs[j].stream == stream && forall k :: j < k < i ==> rs[k].stream != stream
  }

  ghost predicate NoneBefore(rs: seq<Range>, i: nat, stream: nat)
    requires i <= |rs|
  {
    forall k :: 0 <= k < i ==> rs[k].stream != stream
  }

  /** The range starts where the one before it of the same stream ended, or the first one where the stream
      ends now. */
  ghost predicate Follows(streams: map<nat, Stream>, rs: seq<Range>, i: nat)
    requires i < |rs|
  {
    && rs[i].stream in streams
    && (forall j: nat :: Precedes(rs, j, i, rs[i].stream) ==> rs[i].start == rs[j].end)
    && (NoneBefore(rs, i, rs[i].stream) ==> rs[i].start == streams[rs[i].stream].endOffset)
  }

  ghost predicate Chained(streams: map<nat, Stream>, rs: seq<Range>) {
    forall i: nat :: i < |rs| ==> Follows(streams, rs, i)
  }

  /** A new object's id is no other object's: it is no stream-set object that stays, and where it is a stream
      object, committed before or earlier in the request, that has the same stream and start. */
  ghost predicate IdFree(o: Objects, r: CommitRequest, i: nat)
    requires i < |r.streamObjects|
  {
    var x := r.streamObjects[i];
    && (x.objectId in o.setObjects ==> x.objectId in r.compacted)
    && (r.objectId != NOOP_OBJECT_ID ==> x.objectId != r.objectId)
    && KeyFree(o.streamObjects, r.streamObjects, i)
  }

  ghost predicate KeyFree(objects: map<nat, StreamObject>, xs: seq<NewStreamObject>, i: nat)
    requires i < |xs|
  {
    && (xs[i].objectId in objects ==>
          objects[xs[i].objectId].streamId == xs[i].streamId && objects[xs[i].objectId].startOffset == xs[i].startOffset)
    && (forall j :: 0 <= j < i && xs[j].objectId == xs[i].objectId ==>
          xs[j].streamId == xs[i].streamId && xs[j].startOffset == xs[i].startOffset)
  }

  /** The commit has nothing to add: its stream-set object is committed, or it has none and all of its stream
      objects are. */
  ghost predicate NothingNew(o: Objects, r: CommitRequest) {
    if r.objectId != NOOP_OBJECT_ID then r.objectId in o.setObjects
    else r.streamObjects != [] && forall i :: 0 <= i < |r.streamObjects| ==>
      && r.streamObjects[i].objectId in o.streamObjects
      && o.streamObjects[r.streamObjects[i].objectId].streamId == r.streamObjects[i].streamId
  }

  ghost predicate Acceptable(s: State, r: CommitRequest) {
    && (forall i :: 0 <= i < |r.compacted| ==> r.compacted[i] in s.objects.setObjects)
    && (r.objectId != NOOP_OBJECT_ID ==> r.objectId !in s.objects.streamObjects)
    && (forall i: nat :: i < |r.streamObjects| ==> IdFree(s.objects, r, i))
    && (if r.compacted != [] then Inside(s.streams, Ranges(r)) else Chained(s.streams, Ranges(r)))
  }

  // -------------------------------------------------------------- the ranges

  /** What advancing along the ranges, one after the other, leaves. */
  function AdvanceAlong(streams: map<nat, Stream>, rs: seq<Range>, compact: bool): Outcome<map<nat, Stream>> {
    if rs == [] then Ok(streams)
    else
      var last := rs[|rs| - 1];
      var before :- AdvanceAlong(streams, rs[..|rs| - 1], compact);
      Advance(before, last.stream, last.start, last.end, compact)
  }

  lemma {:induction false} SlicesAdvance(streams: map<nat, Stream>, xs: seq<Slice>, compact: bool)
    ensures AdvanceAll(streams, xs, compact) == AdvanceAlong(streams, SliceRanges(xs), compact)
    decreases |xs|
  {
    if xs != [] {
      var n := |xs| - 1;
      SlicesAdvance(streams, xs[..n], compact);
      assert SliceRanges(xs)[..n] == SliceRanges(xs[..n]);
    }
  }

  lemma {:induction false} AdvanceConcat(streams: map<nat, Stream>, a: seq<Range>, b: seq<Range>, compact: bool)
    ensures AdvanceAlong(streams, a + b, compact) ==
            match AdvanceAlong(streams, a, compact)
            case Ok(mid) => AdvanceAlong(mid, b, compact)
            case Err(e) => Err(e)
    decreases |b|
  {
    if b == [] {
      assert a + b == a;
    } else {
      var n := |b| - 1;
      AdvanceConcat(streams, a, b[..n], compact);
      assert (a + b)[..|a| + n] == a + b[..n];
    }
  }

  lemma {:induction false} CompactingAdvances(streams: map<nat, Stream>, rs: seq<Range>)
    ensures AdvanceAlong(streams, rs, true).Ok? <==> Inside(streams, rs)
    ensures AdvanceAlong(streams, rs, true).Ok? ==> AdvanceAlong(streams, rs, true).value == streams
    decreases |rs|
  {
    if rs != [] {
      var n := |rs| - 1;
      CompactingAdvances(streams, rs[..n]);
      if Inside(streams, rs[..n]) {
        forall i | 0 <= i < n
          ensures rs[i].stream in streams && streams[rs[i].stream].startOffset <= rs[i].start
                  && rs[i].end <= streams[rs[i].stream].endOffset
        {
          assert rs[..n][i] == rs[i];
        }
      }
      if Inside(streams, rs) {
        forall i | 0 <= i < n
          ensures rs[..n][i].stream in streams && streams[rs[..n][i].stream].startOffset <= rs[..n][i].start
                  && rs[..n][i].end <= streams[rs[..n][i].stream].endOffset
        {
          assert rs[..n][i] == rs[i];
        }
      }
    }
  }

  /** Where a stream ends after the first `n` ranges. */
  ghost predicate EndsAt(streams: map<nat, Stream>, rs: seq<Range>, n: nat, id: nat, end: nat)
    requires n <= |rs| && id in streams
  {
    && (forall j: nat :: Precedes(rs, j, n, id) ==> end == rs[j].end)
    && (NoneBefore(rs, n, id) ==> end == streams[id].endOffset)
  }

  lemma EndsAtOne(streams: map<nat, Stream>, rs: seq<Range>, n: nat, id: nat, a: nat, b: nat)
    requires n <= |rs| && id in streams && EndsAt(streams, rs, n, id, a) && EndsAt(streams, rs, n, id, b)
    ensures a == b
  {
    if !NoneBefore(rs, n, id) { var j := LastBefore(rs, n, id); }
  }

  lemma {:induction false} LastBefore(rs: seq<Range>, n: nat, id: nat) returns (j: nat)
    requires n <= |rs| && !NoneBefore(rs, n, id)
    ensures Precedes(rs, j, n, id)
    decreases n
  {
    if rs[n - 1].stream == id {
      j := n - 1;
    } else {
      assert !NoneBefore(rs, n - 1, id);
      j := LastBefore(rs, n - 1, id);
    }
  }

  ghost predicate AllFollow(streams: map<nat, Stream>, rs: seq<Range>, n: nat)
    requires n <= |rs|
  {
    forall i: nat :: i < n ==> Follows(streams, rs, i)
  }

  /** The streams with the ends the first `n` ranges lead to. */
  ghost predicate AllEnd(streams: map<nat, Stream>, rs: seq<Range>, n: nat, t: map<nat, Stream>)
    requires n <= |rs|
  {
    t.Keys == streams.Keys && forall id :: id in streams ==> EndsAt(streams, rs, n, id, t[id].endOffset)
  }

  /** The outcome of advancing along the first `n` ranges: it is there if they chain, with the ends they lead to. */
  ghost predicate AppendsWhen(streams: map<nat, Stream>, rs: seq<Range>, n: nat, r: Outcome<map<nat, Stream>>)
    requires n <= |rs|
  {
    (r.Ok? <==> AllFollow(streams, rs, n)) && (r.Ok? ==> AllEnd(streams, rs, n, r.value))
  }

  lemma AppendsNext(streams: map<nat, Stream>, rs: seq<Range>, n: nat, r: Outcome<map<nat, Stream>>)
    requires n < |rs| && AppendsWhen(streams, rs, n, r)
    ensures AppendsWhen(streams, rs, n + 1,
              match r case Ok(before) => Advance(before, rs[n].stream, rs[n].start, rs[n].end, false) case Err(e) => Err(e))
  {
    assert AllFollow(streams, rs, n + 1) <==> AllFollow(streams, rs, n) && Follows(streams, rs, n);
    if r.Ok? { AppendOne(streams, rs, n, r.value); }
  }

  lemma {:induction false} AppendingAdvances(streams: map<nat, Stream>, rs: seq<Range>, n: nat)
    requires n <= |rs|
    ensures AppendsWhen(streams, rs, n, AdvanceAlong(streams, rs[..n], false))
    decreases n
  {
    if n > 0 {
      AppendingAdvances(streams, rs, n - 1);
      AdvanceNext(streams, rs, n - 1, false);
      AppendsNext(streams, rs, n - 1, AdvanceAlong(streams, rs[..n - 1], false));
    }
  }

  lemma AppendOne(streams: map<nat, Stream>, rs: seq<Range>, n: nat, before: map<nat, Stream>)
    requires n < |rs| && before.Keys == streams.Keys
    requires forall id :: id in streams ==> EndsAt(streams, rs, n, id, before[id].endOffset)
    ensures Advance(before, rs[n].stream, rs[n].start, rs[n].end, false).Ok? <==> Follows(streams, rs, n)
    ensures Follows(streams, rs, n) ==>
              var t := Advance(before, rs[n].stream, rs[n].start, rs[n].end, false).value;
              t.Keys == streams.Keys && forall id :: id in streams ==> EndsAt(streams, rs, n + 1, id, t[id].endOffset)
  {
    var id := rs[n].stream;
    if id in streams {
      if Follows(streams, rs, n) {
        assert EndsAt(streams, rs, n, id, rs[n].start);
        EndsAtOne(streams, rs, n, id, rs[n].start, before[id].endOffset);
        var t := Advance(before, id, rs[n].start, rs[n].end, false).value;
        forall x | x in streams ensures EndsAt(streams, rs, n + 1, x, t[x].endOffset) {
          EndsNext(streams, rs, n, x, before[x].endOffset);
        }
      }
    }
  }

  lemma EndsNext(streams: map<nat, Stream>, rs: seq<Range>, n: nat, id: nat, end: nat)
    requires n < |rs| && id in streams && EndsAt(streams, rs, n, id, end)
    ensures EndsAt(streams, rs, n + 1, id, if rs[n].stream == id then rs[n].end else end)
  {
    if rs[n].stream != id {
      assert NoneBefore(rs, n + 1, id) ==> NoneBefore(rs, n, id);
      forall j: nat | Precedes(rs, j, n + 1, id) ensures end == rs[j].end {
        assert Precedes(rs, j, n, id);
      }
    }
  }

  lemma AdvancesIff(streams: map<nat, Stream>, rs: seq<Range>, compact: bool)
    ensures AdvanceAlong(streams, rs, compact).Ok? <==> if compact then Inside(streams, rs) else Chained(streams, rs)
  {
    if compact {
      CompactingAdvances(streams, rs);
    } else {
      AppendingAdvances(streams, rs, |rs|);
      assert rs[..|rs|] == rs;
    }
  }

  // ------------------------------------------------------------------ the ids

  /** The stream objects after some entries: each id named has the stream and the start it was named with. */
  ghost predicate Keyed(o: map<nat, StreamObject>, xs: seq<NewStreamObject>, t: map<nat, StreamObject>) {
    && (forall j :: 0 <= j < |xs| ==>
          && xs[j].objectId in t
          && t[xs[j].objectId].streamId == xs[j].streamId && t[xs[j].objectId].startOffset == xs[j].startOffset)
    && (forall k :: k in t && (forall j :: 0 <= j < |xs| ==> xs[j].objectId != k) ==> k in o && t[k] == o[k])
    && (forall k :: k in o ==> k in t)
  }

  ghost predicate Free(o: Objects, xs: seq<NewStreamObject>, i: nat)
    requires i < |xs|
  {
    xs[i].objectId !in o.setObjects && KeyFree(o.streamObjects, xs, i)
  }

  /** What is checked of an entry's id is that it keeps to the key it has, if it has one. */
  lemma FreeIff(o: Objects, xs: seq<NewStreamObject>, n: nat, before: Objects)
    requires n < |xs| && before.setObjects == o.setObjects && Keyed(o.streamObjects, xs[..n], before.streamObjects)
    requires forall i: nat :: i < n ==> Free(o, xs, i)
    ensures ObjectIdFree(before, xs[n].objectId, Some(OffsetKey(xs[n].streamId, xs[n].startOffset, xs[n].objectId)))
            <==> Free(o, xs, n)
  {
    var x := xs[n];
    if j :| 0 <= j < n && xs[j].objectId == x.objectId {
      assert xs[..n][j] == xs[j];
      if Free(o, xs, n) { assert xs[j].streamId == x.streamId && xs[j].startOffset == x.startOffset; }
      if ObjectIdFree(before, x.objectId, Some(OffsetKey(x.streamId, x.startOffset, x.objectId))) {
        FreeByFirst(o, xs, n, before, j);
      }
    } else {
      assert x.objectId in before.streamObjects <==> x.objectId in o.streamObjects;
    }
  }

  lemma FreeByFirst(o: Objects, xs: seq<NewStreamObject>, n: nat, before: Objects, j: nat)
    requires n < |xs| && before.setObjects == o.setObjects && Keyed(o.streamObjects, xs[..n], before.streamObjects)
    requires j < n && xs[j].objectId == xs[n].objectId
    requires ObjectIdFree(before, xs[n].objectId, Some(OffsetKey(xs[n].streamId, xs[n].startOffset, xs[n].objectId)))
    requires forall i: nat :: i < n ==> Free(o, xs, i)
    ensures Free(o, xs, n)
  {
    forall k | 0 <= k < n && xs[k].objectId == xs[n].objectId
      ensures xs[k].streamId == xs[n].streamId && xs[k].startOffset == xs[n].startOffset
    {
      assert xs[..n][k] == xs[k];
    }
    assert Free(o, xs, j);
  }

  lemma KeyedNext(o: map<nat, StreamObject>, xs: seq<NewStreamObject>, n: nat, before: map<nat, StreamObject>, row: StreamObject)
    requires n < |xs| && Keyed(o, xs[..n], before) && row.streamId == xs[n].streamId && row.startOffset == xs[n].startOffset
    requires forall j :: 0 <= j < n && xs[j].objectId == xs[n].objectId ==>
               xs[j].streamId == xs[n].streamId && xs[j].startOffset == xs[n].startOffset
    ensures Keyed(o, xs[..n + 1], before[xs[n].objectId := row])
  {
    var t := before[xs[n].objectId := row];
    var ys := xs[..n + 1];
    forall j | 0 <= j < |ys|
      ensures ys[j].objectId in t && t[ys[j].objectId].streamId == ys[j].streamId && t[ys[j].objectId].startOffset == ys[j].startOffset
    {
      assert j < n ==> xs[..n][j] == ys[j];
    }
    forall k | k in t && forall j :: 0 <= j < |ys| ==> ys[j].objectId != k ensures k in o && t[k] == o[k] {
      assert ys[n].objectId != k;
      forall j | 0 <= j < n ensures xs[..n][j].objectId != k { assert ys[j].objectId != k; }
    }
  }

  lemma CommitOne(s: State, xs: seq<NewStreamObject>, n: nat, compact: bool, t: Stamp, before: State)
    requires n < |xs| && before.objects.setObjects == s.objects.setObjects
    requires Keyed(s.objects.streamObjects, xs[..n], before.objects.streamObjects)
    requires forall i: nat :: i < n ==> Free(s.objects, xs, i)
    ensures var r := CommitStreamObject(before, xs[n], compact, t);
            && (r.Ok? <==> Free(s.objects, xs, n)
                           && Advance(before.streams, xs[n].streamId, xs[n].startOffset, xs[n].endOffset, compact).Ok?)
            && (r.Ok? ==>
                  && r.value.objects.setObjects == s.objects.setObjects
                  && Keyed(s.objects.streamObjects, xs[..n + 1], r.value.objects.streamObjects)
                  && Advance(before.streams, xs[n].streamId, xs[n].startOffset, xs[n].endOffset, compact) == Ok(r.value.streams))
  {
    FreeIff(s.objects, xs, n, before.objects);
    var r := CommitStreamObject(before, xs[n], compact, t);
    if r.Ok? {
      KeyedNext(s.objects.streamObjects, xs, n, before.objects.streamObjects, r.value.objects.streamObjects[xs[n].objectId]);
    }
  }

  lemma CommitNext(s: State, xs: seq<NewStreamObject>, n: nat, compact: bool, t: Stamp)
    requires n < |xs|
    ensures CommitStreamObjects(s, xs[..n + 1], compact, t) ==
            match CommitStreamObjects(s, xs[..n], compact, t)
            case Ok(before) => CommitStreamObject(before, xs[n], compact, t)
            case Err(e) => Err(e)
  {
    assert xs[..n + 1][..n] == xs[..n];
  }

  lemma AdvanceNext(streams: map<nat, Stream>, rs: seq<Range>, n: nat, compact: bool)
    requires n < |rs|
    ensures AdvanceAlong(streams, rs[..n + 1], compact) ==
            match AdvanceAlong(streams, rs[..n], compact)
            case Ok(before) => Advance(before, rs[n].stream, rs[n].start, rs[n].end, compact)
            case Err(e) => Err(e)
  {
    assert rs[..n + 1][..n] == rs[..n];
  }

  ghost predicate AllFree(o: Objects, xs: seq<NewStreamObject>, n: nat)
    requires n <= |xs|
  {
    forall i: nat :: i < n ==> Free(o, xs, i)
  }

  /** `r` is the outcome of the first `n` entries, `along` that of advancing along their ranges. */
  ghost predicate CommitsWhen(s: State, xs: seq<NewStreamObject>, n: nat, r: Outcome<State>, along: Outcome<map<nat, Stream>>)
    requires n <= |xs|
  {
    && (r.Ok? <==> along.Ok? && AllFree(s.objects, xs, n))
    && (r.Ok? ==> along == Ok(r.value.streams) && r.value.objects.setObjects == s.objects.setObjects
                  && Keyed(s.objects.streamObjects, xs[..n], r.value.objects.streamObjects))
  }

  function AfterEntry(r: Outcome<State>, x: NewStreamObject, compact: bool, t: Stamp): Outcome<State> {
    match r case Ok(before) => CommitStreamObject(before, x, compact, t) case Err(e) => Err(e)
  }

  function AfterRange(r: Outcome<map<nat, Stream>>, x: NewStreamObject, compact: bool): Outcome<map<nat, Stream>> {
    match r case Ok(before) => Advance(before, x.streamId, x.startOffset, x.endOffset, compact) case Err(e) => Err(e)
  }

  lemma CommitsWhenNext(s: State, xs: seq<NewStreamObject>, n: nat, compact: bool, t: Stamp,
                        r: Outcome<State>, along: Outcome<map<nat, Stream>>)
    requires n < |xs| && CommitsWhen(s, xs, n, r, along)
    ensures CommitsWhen(s, xs, n + 1, AfterEntry(r, xs[n], compact, t), AfterRange(along, xs[n], compact))
  {
    assert AllFree(s.objects, xs, n + 1) <==> AllFree(s.objects, xs, n) && Free(s.objects, xs, n);
    if r.Ok? { CommitOne(s, xs, n, compact, t, r.value); }
  }

  lemma EntryNext(s: State, xs: seq<NewStreamObject>, n: nat, compact: bool, t: Stamp)
    requires n < |xs|
    ensures CommitStreamObjects(s, xs[..n + 1], compact, t) == AfterEntry(CommitStreamObjects(s, xs[..n], compact, t), xs[n], compact, t)
    ensures AdvanceAlong(s.streams, ObjectRanges(xs)[..n + 1], compact)
            == AfterRange(AdvanceAlong(s.streams, ObjectRanges(xs)[..n], compact), xs[n], compact)
  {
    CommitNext(s, xs, n, compact, t);
    AdvanceNext(s.streams, ObjectRanges(xs), n, compact);
  }

  lemma CommitNone(s: State, xs: seq<NewStreamObject>, compact: bool, t: Stamp)
    ensures CommitsWhen(s, xs, 0, CommitStreamObjects(s, xs[..0], compact, t), AdvanceAlong(s.streams, ObjectRanges(xs)[..0], compact))
  {
    assert xs[..0] == [] && ObjectRanges(xs)[..0] == [];
  }

  /** The stream objects of a commit are accepted one by one: free ids, and ranges that can be advanced along. */
  lemma {:induction false} CommitObjectsIff(s: State, xs: seq<NewStreamObject>, n: nat, compact: bool, t: Stamp)
    requires n <= |xs|
    ensures CommitsWhen(s, xs, n, CommitStreamObjects(s, xs[..n], compact, t), AdvanceAlong(s.streams, ObjectRanges(xs)[..n], compact))
    decreases n
  {
    if n == 0 {
      CommitNone(s, xs, compact, t);
    } else {
      CommitObjectsIff(s, xs, n - 1, compact, t);
      EntryNext(s, xs, n - 1, compact, t);
      CommitsWhenNext(s, xs, n - 1, compact, t,
                      CommitStreamObjects(s, xs[..n - 1], compact, t), AdvanceAlong(s.streams, ObjectRanges(xs)[..n - 1], compact));
    }
  }

  // ------------------------------------------------------------- the commit

  lemma SetObjectIff(s: State, n: int, r: CommitRequest, t: Stamp)
    requires r.objectId != NOOP_OBJECT_ID ==> r.objectId !in s.objects.setObjects
    ensures var c := CommitSetObject(s, n, r, t);
            var slices := if r.objectId == NOOP_OBJECT_ID then [] else SliceRanges(r.slices);
            && (c.Ok? <==> (r.objectId != NOOP_OBJECT_ID ==> r.objectId !in s.objects.streamObjects)
                           && AdvanceAlong(s.streams, slices, r.compacted != []).Ok?)
            && (c.Ok? ==>
                  && AdvanceAlong(s.streams, slices, r.compacted != []) == Ok(c.value.streams)
                  && c.value.objects.streamObjects == s.objects.streamObjects
                  && c.value.objects.setObjects.Keys ==
                       s.objects.setObjects.Keys + (if r.objectId == NOOP_OBJECT_ID then {} else {r.objectId}))
  {
    SlicesAdvance(s.streams, r.slices, r.compacted != []);
  }

  lemma IdsFreeIff(s: State, r: CommitRequest, withSet: State, i: nat)
    requires i < |r.streamObjects| && withSet.objects.streamObjects == s.objects.streamObjects
    requires withSet.objects.setObjects.Keys ==
               s.objects.setObjects.Keys - IdSet(r.compacted) + (if r.objectId == NOOP_OBJECT_ID then {} else {r.objectId})
    ensures Free(withSet.objects, r.streamObjects, i) <==> IdFree(s.objects, r, i)
  {
  }

  lemma RedundantIff(o: Objects, r: CommitRequest)
    ensures RedundantCommit(o, r) <==> NothingNew(o, r)
  {
  }

  /** A commit is accepted exactly when it has something new, its sources are committed, its ids are free and
      its ranges lie inside their streams, for a compaction, or else chain from where the streams end. */
  lemma CommitAcceptedIff(s: State, n: int, r: CommitRequest, now: int)
    ensures CommitStep(s, n, r, now).Ok? <==> !NothingNew(s.objects, r) && Acceptable(s, r)
    ensures CommitStep(s, n, r, now) == Err(Redundant) <==> NothingNew(s.objects, r)
    ensures CommitStep(s, n, r, now).Err? && !NothingNew(s.objects, r) ==>
              var e := CommitStep(s, n, r, now).error; e.Unexpected? || Missing(s, r, e)
  {
    RedundantIff(s.objects, r);
    if !NothingNew(s.objects, r) && SourcesExist(s.objects, r) {
      FreshCommitIff(s, n, r, now);
    }
    if !NothingNew(s.objects, r) && CommitStep(s, n, r, now).Err? { FreshCommitErrors(s, n, r, now); }
  }

  /** A stream the request names and that does not exist. */
  ghost predicate Missing(s: State, r: CommitRequest, e: MetadataError) {
    e.StreamNotExist? && e.streamId !in s.streams && exists i :: 0 <= i < |Ranges(r)| && Ranges(r)[i].stream == e.streamId
  }

  lemma {:induction false} SliceErrors(streams: map<nat, Stream>, xs: seq<Slice>, compact: bool)
    requires AdvanceAll(streams, xs, compact).Err?
    ensures var e := AdvanceAll(streams, xs, compact).error;
            e.Unexpected? || (e.StreamNotExist? && e.streamId !in streams && exists i :: 0 <= i < |xs| && xs[i].streamId == e.streamId)
    decreases |xs|
  {
    var n := |xs| - 1;
    if AdvanceAll(streams, xs[..n], compact).Err? {
      SliceErrors(streams, xs[..n], compact);
      assert forall i :: 0 <= i < n ==> xs[..n][i] == xs[i];
    } else {
      AdvanceAllMovesEnds(streams, xs[..n], compact);
    }
  }

  lemma {:induction false} ObjectErrors(s: State, xs: seq<NewStreamObject>, compact: bool, t: Stamp)
    requires CommitStreamObjects(s, xs, compact, t).Err?
    ensures var e := CommitStreamObjects(s, xs, compact, t).error;
            e.Unexpected? || (e.StreamNotExist? && e.streamId !in s.streams && exists i :: 0 <= i < |xs| && xs[i].streamId == e.streamId)
    decreases |xs|
  {
    var n := |xs| - 1;
    if CommitStreamObjects(s, xs[..n], compact, t).Err? {
      ObjectErrors(s, xs[..n], compact, t);
      assert forall i :: 0 <= i < n ==> xs[..n][i] == xs[i];
    } else {
      CommitStreamObjectsFrame(s, xs[..n], compact, t);
    }
  }

  lemma SliceIsRange(s: State, r: CommitRequest, e: MetadataError, i: nat)
    requires r.objectId != NOOP_OBJECT_ID && i < |r.slices|
    requires e == StreamNotExist(r.slices[i].streamId) && e.streamId !in s.streams
    ensures Missing(s, r, e)
  {
    assert Ranges(r)[i].stream == e.streamId;
  }

  lemma ObjectIsRange(s: State, r: CommitRequest, e: MetadataError, i: nat)
    requires i < |r.streamObjects| && e == StreamNotExist(r.streamObjects[i].streamId) && e.streamId !in s.streams
    ensures Missing(s, r, e)
  {
    var n := if r.objectId == NOOP_OBJECT_ID then 0 else |r.slices|;
    assert Ranges(r)[n + i].stream == e.streamId;
  }

  lemma SetObjectErrors(s: State, n: int, r: CommitRequest, t: Stamp)
    ensures var c := CommitSetObject(s, n, r, t);
            if c.Ok? then c.value.streams.Keys == s.streams.Keys else c.error.Unexpected? || Missing(s, r, c.error)
  {
    var c := CommitSetObject(s, n, r, t);
    if c.Ok? {
      if r.objectId != NOOP_OBJECT_ID { AdvanceAllMovesEnds(s.streams, r.slices, r.compacted != []); }
    } else if !c.error.Unexpected? {
      SliceErrors(s.streams, r.slices, r.compacted != []);
      var i :| 0 <= i < |r.slices| && r.slices[i].streamId == c.error.streamId;
      SliceIsRange(s, r, c.error, i);
    }
  }

  lemma ObjectsErrors(s: State, withSet: State, r: CommitRequest, t: Stamp)
    requires withSet.streams.Keys == s.streams.Keys
    ensures var c := CommitStreamObjects(withSet, r.streamObjects, r.compacted != [], t);
            c.Err? ==> c.error.Unexpected? || Missing(s, r, c.error)
  {
    var c := CommitStreamObjects(withSet, r.streamObjects, r.compacted != [], t);
    if c.Err? {
      ObjectErrors(withSet, r.streamObjects, r.compacted != [], t);
      if !c.error.Unexpected? {
        var i :| 0 <= i < |r.streamObjects| && r.streamObjects[i].streamId == c.error.streamId;
        ObjectIsRange(s, r, c.error, i);
      }
    }
  }

  /** What else is refused is refused for a stream that is missing, or as unexpected. */
  lemma FreshCommitErrors(s: State, n: int, r: CommitRequest, now: int)
    requires !RedundantCommit(s.objects, r) && CommitStep(s, n, r, now).Err?
    ensures var e := CommitStep(s, n, r, now).error; e.Unexpected? || Missing(s, r, e)
  {
    if SourcesExist(s.objects, r) {
      var t := CommitStamp(s.objects, r, now);
      var freed := s.(objects := DestroySetObjects(s.objects, r.compacted));
      var c := CommitSetObject(freed, n, r, t);
      SetObjectErrors(freed, n, r, t);
      if c.Ok? { ObjectsErrors(s, c.value, r, t); }
    }
  }

  lemma FreshCommitIff(s: State, n: int, r: CommitRequest, now: int)
    requires !NothingNew(s.objects, r) && !RedundantCommit(s.objects, r) && SourcesExist(s.objects, r)
    ensures CommitStep(s, n, r, now).Ok? <==> Acceptable(s, r)
  {
    var compact := r.compacted != [];
    var t := CommitStamp(s.objects, r, now);
    var freed := s.(objects := DestroySetObjects(s.objects, r.compacted));
    var slices := if r.objectId == NOOP_OBJECT_ID then [] else SliceRanges(r.slices);
    SetObjectIff(freed, n, r, t);
    AdvanceConcat(s.streams, slices, ObjectRanges(r.streamObjects), compact);
    AdvancesIff(s.streams, Ranges(r), compact);
    var c := CommitSetObject(freed, n, r, t);
    if c.Ok? {
      CommitObjectsIff(c.value, r.streamObjects, |r.streamObjects|, compact, t);
      assert r.streamObjects[..|r.streamObjects|] == r.streamObjects;
      assert ObjectRanges(r.streamObjects)[..|r.streamObjects|] == ObjectRanges(r.streamObjects);
      forall i: nat | i < |r.streamObjects| ensures Free(c.value.objects, r.streamObjects, i) <==> IdFree(s.objects, r, i) {
        IdsFreeIff(s, r, c.value, i);
      }
    }
  }

  // --------------------------------------------------------- compactions

  /** The replacement was put in place before. */
  ghost predicate AlreadyCompacted(o: Objects, r: CompactRequest) {
    r.objectId != NOOP_OBJECT_ID && r.objectId in o.streamObjects && o.streamObjects[r.objectId].streamId == r.streamId
  }

  /** The stream's epoch is the one the request names, as the 64 bits of a signed number. */
  ghost predicate AtEpoch(st: Stream, epoch: nat) {
    st.epoch == if epoch < 0x8000_0000_0000_0000 then epoch else epoch - 0x1_0000_0000_0000_0000
  }

  ghost predicate CompactAcceptable(s: State, r: CompactRequest) {
    && r.streamId in s.streams && AtEpoch(s.streams[r.streamId], r.streamEpoch)
    && s.streams[r.streamId].startOffset <= r.startOffset && r.endOffset <= s.streams[r.streamId].endOffset
    && (r.objectId != NOOP_OBJECT_ID ==> r.objectId !in s.objects.setObjects && r.objectId !in s.objects.streamObjects)
    && (r.sources != [] && r.operations != [] ==> |r.operations| == |r.sources|)
  }

  /** A stream-object compaction is accepted exactly when its range lies inside the stream at its current
      epoch, the replacement is no committed object and the operations given match the sources. */
  lemma CompactAcceptedIff(s: State, r: CompactRequest, now: int)
    ensures CompactStep(s, r, now).Ok? <==> CompactAcceptable(s, r)
    ensures CompactStep(s, r, now) == Err(Redundant) <==> AlreadyCompacted(s.objects, r)
    ensures CompactStep(s, r, now) == Err(StreamNotExist(r.streamId))
            <==> !AlreadyCompacted(s.objects, r) && r.streamId !in s.streams
    ensures (CompactStep(s, r, now).Err? && CompactStep(s, r, now).error.ExpiredEpoch?)
            <==> !AlreadyCompacted(s.objects, r) && r.streamId in s.streams && !AtEpoch(s.streams[r.streamId], r.streamEpoch)
    ensures CompactStep(s, r, now).Err? ==>
              var e := CompactStep(s, r, now).error;
              e.Redundant? || e == StreamNotExist(r.streamId) || (e.ExpiredEpoch? && e.streamId == r.streamId) || e.Unexpected?
  {
  }

  /** Commits and compactions are taken from whoever is current, the commit in the name of its node. */
  lemma CommitsAreSteps(s: State, p: Proposer, r: CommitRequest, x: CompactRequest, now: int)
    requires p.nodeId in s.nodes && s.nodes[p.nodeId].epoch == p.nodeEpoch && !s.nodes[p.nodeId].fenced
    ensures Step(s, CommitStreamSetObject(p, r, now)) == CommitStep(s, p.nodeId, r, now)
    ensures Step(s, CompactStreamObject(p, x, now)) == CompactStep(s, x, now)
  {
  }
}

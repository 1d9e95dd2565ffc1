/** Which epoch wrote an offset: opens add entries, trims drop them, and yet the answer for a live
    offset never changes. */
module EpochHistory {
  import opened Prelude
  import opened MetadataTypes
  import opened Metadata
  import opened Frames
  import opened Ownership

  type Epochs = map<(nat, int), nat>

  /** `e` is the largest recorded epoch of the stream that starts at or below `offset`. */
  ghost predicate Governs(epochs: Epochs, id: nat, offset: nat, e: int) {
    && (id, e) in epochs && epochs[(id, e)] <= offset
    && forall f :: (id, f) in epochs && epochs[(id, f)] <= offset ==> f <= e
  }

  ghost function Lookup(epochs: Epochs, id: nat, offset: nat): Option<int> {
    if e :| Governs(epochs, id, offset, e) then Some(e) else None
  }

  /** Where a stream ends once these slices were appended: where the last of its slices does. */
  function SlicesEnd(xs: seq<Slice>, id: nat, end: nat): nat {
    if xs == [] then end
    else if xs[|xs| - 1].streamId == id then xs[|xs| - 1].endOffset
    else SlicesEnd(xs[..|xs| - 1], id, end)
  }

  function ObjectsEnd(xs: seq<NewStreamObject>, id: nat, end: nat): nat {
    if xs == [] then end
    else if xs[|xs| - 1].streamId == id then xs[|xs| - 1].endOffset
    else ObjectsEnd(xs[..|xs| - 1], id, end)
  }

  /** Where a stream ending at `end` ends after the commit: a compaction moves no end. */
  function EndAfter(r: CommitRequest, id: nat, end: nat): nat {
    if r.compacted != [] then end
    else ObjectsEnd(r.streamObjects, id, if r.objectId == NOOP_OBJECT_ID then end else SlicesEnd(r.slices, id, end))
  }

  /** A commit after which no stream ends before where it ends now. */
  ghost predicate Growing(s: State, c: Command) {
    c.CommitStreamSetObject? ==>
      forall id :: id in s.streams ==> s.streams[id].endOffset <= EndAfter(c.commit, id, s.streams[id].endOffset)
  }

  /** Every commit accepted along the run is a growing one. */
  ghost predicate GrowingRun(s: State, cs: seq<Command>)
    decreases |cs|
  {
    cs == [] || ((Step(s, cs[0]).Ok? ==> Growing(s, cs[0])) && GrowingRun(Apply(s, cs[0]), cs[1..]))
  }

  /** The ranges a commit carries do not run backwards. */
  ghost predicate Forward(c: Command) {
    c.CommitStreamSetObject? ==>
      && (forall i :: 0 <= i < |c.commit.slices| ==> c.commit.slices[i].startOffset <= c.commit.slices[i].endOffset)
      && (forall i :: 0 <= i < |c.commit.streamObjects| ==>
            c.commit.streamObjects[i].startOffset <= c.commit.streamObjects[i].endOffset)
  }

  /** Recorded epochs belong to existing streams and are none later than the stream's; a stream that was
      ever opened has its current epoch on record. */
  ghost predicate HistoryKept(s: State) {
    && (forall k :: k in s.epochs ==> k.0 in s.streams && k.1 <= s.streams[k.0].epoch)
    && (forall id :: id in s.streams ==> s.streams[id].epoch == -1 || (id, s.streams[id].epoch) in s.epochs)
  }

  /** ... and start inside them. */
  ghost predicate HistorySound(s: State) {
    && HistoryKept(s)
    && (forall k :: k in s.epochs ==> s.epochs[k] <= s.streams[k.0].endOffset)
    && (forall id :: id in s.streams ==> s.streams[id].startOffset <= s.streams[id].endOffset)
  }

  /** Both ends of a surviving stream only move forward. */
  ghost predicate OffsetsGrow(s: State, t: State) {
    forall id :: id in s.streams && id in t.streams ==>
      s.streams[id].startOffset <= t.streams[id].startOffset && s.streams[id].endOffset <= t.streams[id].endOffset
  }

  // -------------------------------------------------------------- pruning

  lemma {:induction false} GreatestOf(es: set<int>, e: int)
    requires e in es
    ensures exists g :: g in es && e <= g && forall f :: f in es ==> f <= g
    decreases |es|
  {
    if f :| f in es && f > e {
      GreatestOf(es - {e}, f);
      var g :| g in es - {e} && f <= g && forall h :: h in es - {e} ==> h <= g;
      assert forall h :: h in es ==> h == e || h in es - {e};
    }
  }

  /** Some epoch that governs from `offset` on survives pruning. */
  lemma LastStartedSurvives(epochs: Epochs, id: nat, e: int, offset: nat)
    requires StartedBy(epochs, id, e, offset)
    ensures exists g :: e <= g && StartedBy(epochs, id, g, offset) && (id, g) in PruneEpochs(epochs, id, offset)
  {
    var es := set k | k in epochs && k.0 == id && StartedBy(epochs, id, k.1, offset) :: k.1;
    assert (id, e) in epochs;
    GreatestOf(es, e);
    var g :| g in es && e <= g && forall f :: f in es ==> f <= g;
    assert StartedBy(epochs, id, g, offset);
    forall f | StartedBy(epochs, id, f, offset) ensures f <= g {
      assert (id, f) in epochs && f in es;
    }
  }

  lemma PruneKeepsGovernor(epochs: Epochs, id: nat, start: nat, other: nat, offset: nat, e: int)
    requires other == id ==> start <= offset
    ensures Governs(PruneEpochs(epochs, id, start), other, offset, e) <==> Governs(epochs, other, offset, e)
  {
    var pruned := PruneEpochs(epochs, id, start);
    if other == id {
      if Governs(epochs, id, offset, e) {
        assert !Superseded(epochs, id, e, start);
      }
      if Governs(pruned, id, offset, e) {
        forall f | (id, f) in epochs && epochs[(id, f)] <= offset ensures f <= e {
          if (id, f) !in pruned {
            var h :| f < h && StartedBy(epochs, id, h, start);
            LastStartedSurvives(epochs, id, h, start);
            var g :| h <= g && StartedBy(epochs, id, g, start) && (id, g) in pruned;
            assert pruned[(id, g)] <= offset;
          }
        }
      }
    } else {
      assert forall f :: (other, f) in pruned <==> (other, f) in epochs;
    }
  }

  lemma SameGovernorsSameLookup(a: Epochs, b: Epochs, id: nat, offset: nat)
    requires forall e :: Governs(a, id, offset, e) <==> Governs(b, id, offset, e)
    ensures Lookup(a, id, offset) == Lookup(b, id, offset)
  {
    if e :| Governs(a, id, offset, e) { assert Governs(b, id, offset, e); }
    if e :| Governs(b, id, offset, e) { assert Governs(a, id, offset, e); }
  }

  lemma PruneKeepsLookup(epochs: Epochs, id: nat, start: nat, other: nat, offset: nat)
    requires other == id ==> start <= offset
    ensures Lookup(PruneEpochs(epochs, id, start), other, offset) == Lookup(epochs, other, offset)
  {
    forall e ensures Governs(PruneEpochs(epochs, id, start), other, offset, e) <==> Governs(epochs, other, offset, e) {
      PruneKeepsGovernor(epochs, id, start, other, offset, e);
    }
    SameGovernorsSameLookup(PruneEpochs(epochs, id, start), epochs, other, offset);
  }

  lemma DropKeepsLookup(epochs: Epochs, id: nat, other: nat, offset: nat)
    requires other != id
    ensures Lookup(DropEpochs(epochs, id), other, offset) == Lookup(epochs, other, offset)
  {
    assert forall f :: (other, f) in DropEpochs(epochs, id) <==> (other, f) in epochs;
    SameGovernorsSameLookup(DropEpochs(epochs, id), epochs, other, offset);
  }

  lemma RecordKeepsLookup(epochs: Epochs, id: nat, epoch: int, start: nat, other: nat, offset: nat)
    requires (id, epoch) !in epochs && (other == id ==> offset < start)
    ensures Lookup(epochs[(id, epoch) := start], other, offset) == Lookup(epochs, other, offset)
  {
    var recorded := epochs[(id, epoch) := start];
    assert forall f :: (other, f) in epochs ==> (other, f) in recorded && recorded[(other, f)] == epochs[(other, f)];
    assert forall f :: (other, f) in recorded && (other, f) !in epochs ==> recorded[(other, f)] > offset;
    SameGovernorsSameLookup(recorded, epochs, other, offset);
  }

  // ------------------------------------------------------------ invariant

  lemma {:induction false} AdvanceAllEnds(streams: map<nat, Stream>, slices: seq<Slice>, compact: bool, id: nat)
    requires AdvanceAll(streams, slices, compact).Ok? && id in streams
    ensures var t := AdvanceAll(streams, slices, compact).value;
            id in t && t[id].endOffset == if compact then streams[id].endOffset else SlicesEnd(slices, id, streams[id].endOffset)
    decreases |slices|
  {
    if slices != [] { AdvanceAllEnds(streams, slices[..|slices| - 1], compact, id); }
  }

  lemma {:induction false} CommitStreamObjectsEnds(s: State, xs: seq<NewStreamObject>, compact: bool, t: Stamp, id: nat)
    requires CommitStreamObjects(s, xs, compact, t).Ok? && id in s.streams
    ensures var after := CommitStreamObjects(s, xs, compact, t).value.streams;
            id in after
            && after[id].endOffset == if compact then s.streams[id].endOffset else ObjectsEnd(xs, id, s.streams[id].endOffset)
    decreases |xs|
  {
    if xs != [] { CommitStreamObjectsEnds(s, xs[..|xs| - 1], compact, t, id); }
  }

  /** An accepted commit leaves every stream ending where the last of its ranges does. */
  lemma CommitEnds(s: State, n: int, r: CommitRequest, now: int, id: nat)
    requires CommitStep(s, n, r, now).Ok? && id in s.streams
    ensures var t := CommitStep(s, n, r, now).value.state.streams;
            id in t && t[id].endOffset == EndAfter(r, id, s.streams[id].endOffset)
  {
    var t := CommitStamp(s.objects, r, now);
    var freed := s.(objects := DestroySetObjects(s.objects, r.compacted));
    var withSet := CommitSetObject(freed, n, r, t).value;
    if r.objectId != NOOP_OBJECT_ID { AdvanceAllEnds(freed.streams, r.slices, r.compacted != [], id); }
    CommitStreamObjectsEnds(withSet, r.streamObjects, r.compacted != [], t, id);
  }

  /** An accepted commit moves no end backwards exactly when each stream's last range ends at or above
      where the stream ends. */
  lemma CommitGrowsIff(s: State, c: Command)
    requires c.CommitStreamSetObject? && CommitStep(s, c.proposer.nodeId, c.commit, c.nowMs).Ok?
    ensures OffsetsGrow(s, CommitStep(s, c.proposer.nodeId, c.commit, c.nowMs).value.state) <==> Growing(s, c)
  {
    CommitFrame(s, c.proposer.nodeId, c.commit, c.nowMs);
    forall id | id in s.streams
      ensures CommitStep(s, c.proposer.nodeId, c.commit, c.nowMs).value.state.streams[id].endOffset ==
              EndAfter(c.commit, id, s.streams[id].endOffset)
    {
      CommitEnds(s, c.proposer.nodeId, c.commit, c.nowMs, id);
    }
  }

  lemma {:induction false} ForwardSlicesGrow(streams: map<nat, Stream>, slices: seq<Slice>, compact: bool, id: nat)
    requires AdvanceAll(streams, slices, compact).Ok? && id in streams
    requires forall i :: 0 <= i < |slices| ==> slices[i].startOffset <= slices[i].endOffset
    ensures var t := AdvanceAll(streams, slices, compact).value; id in t && streams[id].endOffset <= t[id].endOffset
    decreases |slices|
  {
    if slices != [] { ForwardSlicesGrow(streams, slices[..|slices| - 1], compact, id); }
  }

  lemma {:induction false} ForwardObjectsGrow(s: State, xs: seq<NewStreamObject>, compact: bool, t: Stamp, id: nat)
    requires CommitStreamObjects(s, xs, compact, t).Ok? && id in s.streams
    requires forall i :: 0 <= i < |xs| ==> xs[i].startOffset <= xs[i].endOffset
    ensures var after := CommitStreamObjects(s, xs, compact, t).value;
            id in after.streams && s.streams[id].endOffset <= after.streams[id].endOffset
    decreases |xs|
  {
    if xs != [] { ForwardObjectsGrow(s, xs[..|xs| - 1], compact, t, id); }
  }

  /** Ranges that do not run backwards are enough: they have to follow each other. */
  lemma ForwardIsGrowing(s: State, c: Command)
    requires c.CommitStreamSetObject? && Forward(c) && CommitStep(s, c.proposer.nodeId, c.commit, c.nowMs).Ok?
    ensures Growing(s, c)
  {
    var r := c.commit;
    var t := CommitStamp(s.objects, r, c.nowMs);
    var freed := s.(objects := DestroySetObjects(s.objects, r.compacted));
    var withSet := CommitSetObject(freed, c.proposer.nodeId, r, t).value;
    forall id | id in s.streams ensures s.streams[id].endOffset <= EndAfter(r, id, s.streams[id].endOffset) {
      CommitEnds(s, c.proposer.nodeId, r, c.nowMs, id);
      if r.objectId != NOOP_OBJECT_ID { ForwardSlicesGrow(freed.streams, r.slices, r.compacted != [], id); }
      ForwardObjectsGrow(withSet, r.streamObjects, r.compacted != [], t, id);
    }
  }

  lemma PruneKeepsLatest(epochs: Epochs, id: nat, start: nat, e: int)
    requires (id, e) in epochs && forall f :: (id, f) in epochs ==> f <= e
    ensures (id, e) in PruneEpochs(epochs, id, start)
  {
  }

  lemma TrimKept(s: State, n: int, id: nat, epoch: int, start: nat)
    requires TrimStreamStep(s, n, id, epoch, start).Ok? && HistoryKept(s)
    ensures HistoryKept(TrimStreamStep(s, n, id, epoch, start).value.state)
  {
    if s.streams[id].epoch != -1 { PruneKeepsLatest(s.epochs, id, start, s.streams[id].epoch); }
  }

  lemma OpenKept(s: State, n: int, id: nat, epoch: int)
    requires OpenStreamStep(s, n, id, epoch).Ok? && HistoryKept(s)
    ensures HistoryKept(OpenStreamStep(s, n, id, epoch).value.state)
  {
  }

  lemma DeleteKept(s: State, n: int, id: nat, epoch: int)
    requires DeleteStreamStep(s, n, id, epoch).Ok? && HistoryKept(s)
    ensures HistoryKept(DeleteStreamStep(s, n, id, epoch).value.state)
  {
  }

  lemma TrimHistory(s: State, n: int, id: nat, epoch: int, start: nat)
    requires TrimStreamStep(s, n, id, epoch, start).Ok? && HistorySound(s)
    ensures HistorySound(TrimStreamStep(s, n, id, epoch, start).value.state)
  {
    TrimKept(s, n, id, epoch, start);
  }

  lemma OpenHistory(s: State, n: int, id: nat, epoch: int)
    requires OpenStreamStep(s, n, id, epoch).Ok? && HistorySound(s)
    ensures HistorySound(OpenStreamStep(s, n, id, epoch).value.state)
  {
    OpenKept(s, n, id, epoch);
  }

  /** What a stream command that adds no history entry and drops none does to the rows. */
  ghost predicate QuietRows(a: map<nat, Stream>, b: map<nat, Stream>) {
    && a.Keys <= b.Keys
    && forall id :: id in b ==>
         if id !in a then b[id] == NewStream
         else b[id].epoch == a[id].epoch && b[id].startOffset == a[id].startOffset && b[id].endOffset == a[id].endOffset
  }

  lemma QuietTransition(s: State, c: Command)
    requires IsStreamCommand(c) && !ChangesEpochs(c) && StreamTransition(s, c).Ok? && IdsAllocated(s)
    ensures QuietRows(s.streams, StreamTransition(s, c).value.state.streams)
  {
  }

  lemma QuietKept(s: State, t: State)
    requires HistoryKept(s) && QuietRows(s.streams, t.streams) && t.epochs == s.epochs
    ensures HistoryKept(t)
  {
  }

  lemma QuietHistory(s: State, t: State)
    requires HistorySound(s) && QuietRows(s.streams, t.streams) && t.epochs == s.epochs
    ensures HistorySound(t)
  {
  }

  lemma QuietStepHistory(s: State, c: Command)
    requires IsStreamCommand(c) && !ChangesEpochs(c) && StreamTransition(s, c).Ok? && IdsAllocated(s) && HistorySound(s)
    ensures HistorySound(StreamTransition(s, c).value.state)
  {
    QuietTransition(s, c);
    StreamFrame(s, c);
    QuietHistory(s, StreamTransition(s, c).value.state);
  }

  lemma DeleteHistory(s: State, n: int, id: nat, epoch: int)
    requires DeleteStreamStep(s, n, id, epoch).Ok? && HistorySound(s)
    ensures HistorySound(DeleteStreamStep(s, n, id, epoch).value.state)
  {
    DeleteKept(s, n, id, epoch);
  }

  lemma StreamTransitionKept(s: State, c: Command)
    requires IsStreamCommand(c) && StreamTransition(s, c).Ok? && IdsAllocated(s) && HistoryKept(s)
    ensures HistoryKept(StreamTransition(s, c).value.state)
  {
    if c.TrimStream? { TrimKept(s, c.proposer.nodeId, c.streamId, c.epoch, c.newStartOffset); }
    else if c.OpenStream? { OpenKept(s, c.proposer.nodeId, c.streamId, c.epoch); }
    else if c.DeleteStream? { DeleteKept(s, c.proposer.nodeId, c.streamId, c.epoch); }
    else {
      QuietTransition(s, c);
      StreamFrame(s, c);
      QuietKept(s, StreamTransition(s, c).value.state);
    }
  }

  /** Whatever is committed, backwards or not. */
  lemma StepKept(s: State, c: Command)
    requires IdsAllocated(s) && HistoryKept(s)
    ensures HistoryKept(Apply(s, c))
  {
    if Step(s, c).Ok? {
      if IsStreamCommand(c) { StreamTransitionKept(s, c); }
      else if IsObjectCommand(c) { ObjectFrame(s, c); }
      else { StepFrame(s, c); }
    }
  }

  lemma {:induction false} RunKept(s: State, cs: seq<Command>)
    requires IdsAllocated(s) && HistoryKept(s)
    ensures IdsAllocated(Run(s, cs)) && HistoryKept(Run(s, cs))
    decreases |cs|
  {
    if cs != [] {
      StepKept(s, cs[0]);
      StepEvolves(s, cs[0]);
      RunKept(Apply(s, cs[0]), cs[1..]);
    }
  }

  lemma StreamTransitionHistory(s: State, c: Command)
    requires IsStreamCommand(c) && StreamTransition(s, c).Ok? && IdsAllocated(s) && HistorySound(s)
    ensures var t := StreamTransition(s, c).value.state; HistorySound(t)
  {
    if c.TrimStream? { TrimHistory(s, c.proposer.nodeId, c.streamId, c.epoch, c.newStartOffset); }
    else if c.OpenStream? { OpenHistory(s, c.proposer.nodeId, c.streamId, c.epoch); }
    else if c.DeleteStream? { DeleteHistory(s, c.proposer.nodeId, c.streamId, c.epoch); }
    else { QuietStepHistory(s, c); }
  }

  lemma StreamTransitionOffsets(s: State, c: Command)
    requires IsStreamCommand(c) && StreamTransition(s, c).Ok? && IdsAllocated(s)
    ensures OffsetsGrow(s, StreamTransition(s, c).value.state)
  {
    if !ChangesEpochs(c) { QuietTransition(s, c); }
  }

  /** Both ends of every stream move forward exactly when the command, if accepted, is a growing one. */
  lemma StepGrowsIff(s: State, c: Command)
    requires IdsAllocated(s)
    ensures OffsetsGrow(s, Apply(s, c)) <==> (Step(s, c).Ok? ==> Growing(s, c))
  {
    if Step(s, c).Ok? {
      if IsStreamCommand(c) { StreamTransitionOffsets(s, c); }
      else if c.CommitStreamSetObject? { CommitGrowsIff(s, c); }
      else { StepFrame(s, c); }
    }
  }

  lemma StepHistory(s: State, c: Command)
    requires IdsAllocated(s) && HistorySound(s) && (Step(s, c).Ok? ==> Growing(s, c))
    ensures HistorySound(Apply(s, c)) && OffsetsGrow(s, Apply(s, c))
  {
    StepGrowsIff(s, c);
    if Step(s, c).Ok? {
      if IsStreamCommand(c) { StreamTransitionHistory(s, c); }
      else if c.CommitStreamSetObject? { CommitFrame(s, c.proposer.nodeId, c.commit, c.nowMs); }
      else { StepFrame(s, c); }
    }
  }

  lemma {:induction false} RunHistory(s: State, cs: seq<Command>)
    requires IdsAllocated(s) && HistorySound(s) && GrowingRun(s, cs)
    ensures IdsAllocated(Run(s, cs)) && HistorySound(Run(s, cs)) && OffsetsGrow(s, Run(s, cs))
    decreases |cs|
  {
    if cs != [] {
      StepHistory(s, cs[0]);
      StepEvolves(s, cs[0]);
      RunHistory(Apply(s, cs[0]), cs[1..]);
      RunEvolves(Apply(s, cs[0]), cs[1..]);
    }
  }

  // ------------------------------------------------------------- theorems

  lemma StepKeepsLookup(s: State, c: Command, id: nat, offset: nat)
    requires IdsAllocated(s) && HistorySound(s)
    requires id in s.streams && id in Apply(s, c).streams
    requires Apply(s, c).streams[id].startOffset <= offset < s.streams[id].endOffset
    ensures Lookup(Apply(s, c).epochs, id, offset) == Lookup(s.epochs, id, offset)
  {
    var t := Apply(s, c);
    if !ChangesEpochs(c) || Step(s, c).Err? {
      StepFrame(s, c);
    } else {
      if c.TrimStream? {
        assert t.epochs == PruneEpochs(s.epochs, c.streamId, c.newStartOffset);
        PruneKeepsLookup(s.epochs, c.streamId, c.newStartOffset, id, offset);
      } else if c.DeleteStream? {
        assert t.epochs == s.epochs || t.epochs == DropEpochs(s.epochs, c.streamId);
        DropKeepsLookup(s.epochs, c.streamId, id, offset);
      } else if t.epochs != s.epochs {
        assert t.epochs == s.epochs[(c.streamId, c.epoch) := s.streams[c.streamId].endOffset];
        RecordKeepsLookup(s.epochs, c.streamId, c.epoch, s.streams[c.streamId].endOffset, id, offset);
      }
    }
  }

  /** Along any run of growing commits, while a stream exists and an offset below its end is not
      trimmed, the epoch on record for that offset never changes. */
  lemma {:induction false} EpochHistoryIsStable(s: State, cs: seq<Command>, id: nat, offset: nat)
    requires IdsAllocated(s) && HistorySound(s) && GrowingRun(s, cs)
    requires id in s.streams && id in Run(s, cs).streams
    requires Run(s, cs).streams[id].startOffset <= offset < s.streams[id].endOffset
    ensures Lookup(Run(s, cs).epochs, id, offset) == Lookup(s.epochs, id, offset)
    decreases |cs|
  {
    if cs != [] {
      var t := Apply(s, cs[0]);
      StepEvolves(s, cs[0]);
      StepHistory(s, cs[0]);
      RunEvolves(t, cs[1..]);
      RunHistory(t, cs[1..]);
      assert id in t.streams;
      StepKeepsLookup(s, cs[0], id, offset);
      EpochHistoryIsStable(t, cs[1..], id, offset);
    }
  }

  lemma {:induction false} GrowingParts(s: State, a: seq<Command>, b: seq<Command>)
    requires GrowingRun(s, a + b)
    ensures GrowingRun(s, a) && GrowingRun(Run(s, a), b)
    decreases |a|
  {
    if a == [] {
      assert a + b == b;
    } else {
      assert (a + b)[1..] == a[1..] + b;
      GrowingParts(Apply(s, a[0]), a[1..], b);
    }
  }

  /** The same between any two moments of a run from the empty state. */
  lemma RecordedEpochsNeverChange(cs: seq<Command>, i: nat, j: nat, id: nat, offset: nat)
    requires GrowingRun(Empty, cs) && i <= j <= |cs|
    requires id in Run(Empty, cs[..i]).streams && id in Run(Empty, cs[..j]).streams
    requires Run(Empty, cs[..j]).streams[id].startOffset <= offset < Run(Empty, cs[..i]).streams[id].endOffset
    ensures Lookup(Run(Empty, cs[..j]).epochs, id, offset) == Lookup(Run(Empty, cs[..i]).epochs, id, offset)
  {
    assert cs == cs[..j] + cs[j..] && cs[..j] == cs[..i] + cs[i..j];
    GrowingParts(Empty, cs[..j], cs[j..]);
    GrowingParts(Empty, cs[..i], cs[i..j]);
    RunConcat(Empty, cs[..i], cs[i..j]);
    RunHistory(Empty, cs[..i]);
    EpochHistoryIsStable(Run(Empty, cs[..i]), cs[i..j], id, offset);
  }

  lemma LookupIs(epochs: Epochs, id: nat, offset: nat, e: int)
    requires Governs(epochs, id, offset, e)
    ensures Lookup(epochs, id, offset) == Some(e)
  {
  }

  /** In every run from the empty state: what is written next to a stream that was ever opened is on record
      under its current epoch, exactly when the stream does not end before that epoch began. */
  lemma NextWriteBelongsIff(cs: seq<Command>, id: nat)
    requires id in Run(Empty, cs).streams && Run(Empty, cs).streams[id].epoch != -1
    ensures var s := Run(Empty, cs);
            var st := s.streams[id];
            (id, st.epoch) in s.epochs
            && (Lookup(s.epochs, id, st.endOffset) == Some(st.epoch) <==> s.epochs[(id, st.epoch)] <= st.endOffset)
  {
    RunKept(Empty, cs);
    var s := Run(Empty, cs);
    var st := s.streams[id];
    if s.epochs[(id, st.epoch)] <= st.endOffset { LookupIs(s.epochs, id, st.endOffset, st.epoch); }
  }

  /** Growing commits never take it before that. */
  lemma NextWriteBelongsToCurrentEpoch(cs: seq<Command>, id: nat)
    requires GrowingRun(Empty, cs) && id in Run(Empty, cs).streams && Run(Empty, cs).streams[id].epoch != -1
    ensures var s := Run(Empty, cs);
            Lookup(s.epochs, id, s.streams[id].endOffset) == Some(s.streams[id].epoch)
  {
    NextWriteBelongsIff(cs, id);
    RunHistory(Empty, cs);
  }
}

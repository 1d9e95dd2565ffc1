/** Rows only ever refer to ids that were handed out, and where the source insists on it, to streams
    that still exist. Holds in every reachable state, whatever is proposed. */
module References {
  import opened Sums
  import opened MetadataTypes
  import opened Metadata
  import opened Frames
  import opened Ownership
  import opened EpochHistory
  import opened ObjectLifecycle
  import opened Indexes

  /** Slices only of streams whose ids have been handed out. */
  ghost predicate SlicesBelow(xs: seq<Slice>, next: nat) {
    forall i :: 0 <= i < |xs| ==> xs[i].streamId < next
  }

  ghost predicate ObjectsReferTo(o: Objects, streams: map<nat, Stream>, nextStreamId: nat) {
    && (forall id :: id in o.prepared ==> id < o.nextObjectId)
    && (forall k :: k in o.setObjects ==> SlicesBelow(o.setObjects[k].slices, nextStreamId))
    && (forall k :: k in o.streamObjects ==> o.streamObjects[k].streamId in streams)
  }

  ghost predicate Referential(s: State) {
    && IdsAllocated(s)
    && ObjectsReferTo(s.objects, s.streams, s.nextStreamId)
    && (forall k :: k in s.epochs ==> k.0 in s.streams)
    && (forall id :: id in s.transfers ==> id in s.streams)
  }

  lemma {:induction false} ZeroTotal<K(!new)>(m: map<K, nat>)
    requires forall k :: k in m ==> m[k] == 0
    ensures Total(m) == 0
    decreases |m|
  {
    if m != map[] {
      var k :| k in m && Total(m) == m[k] + Total(m - {k});
      ZeroTotal(m - {k});
    }
  }

  lemma {:induction false} NoSliceNoBytes(xs: seq<Slice>, next: nat, id: nat)
    requires SlicesBelow(xs, next) && next <= id
    ensures SliceBytes(xs, id) == 0
    decreases |xs|
  {
    if xs != [] { NoSliceNoBytes(xs[..|xs| - 1], next, id); }
  }

  /** No committed object holds bytes of a stream not created yet. */
  lemma NewStreamHasNoBytes(s: State, id: nat)
    requires Referential(s) && s.nextStreamId <= id
    ensures StreamBytes(s.objects.setObjects, s.objects.streamObjects, id) == 0
  {
    forall k | k in s.objects.setObjects ensures SliceBytes(s.objects.setObjects[k].slices, id) == 0 {
      NoSliceNoBytes(s.objects.setObjects[k].slices, s.nextStreamId, id);
    }
    ZeroTotal(SetShares(s.objects.setObjects, id));
    ZeroTotal(ObjectShares(s.objects.streamObjects, id));
  }

  // ----------------------------------------------------------- preservation

  lemma {:induction false} AdvancedSlicesExist(streams: map<nat, Stream>, slices: seq<Slice>, compact: bool, i: nat)
    requires AdvanceAll(streams, slices, compact).Ok? && i < |slices|
    ensures slices[i].streamId in streams
    decreases |slices|
  {
    var n := |slices| - 1;
    AdvanceAllMovesEnds(streams, slices[..n], compact);
    if i < n { AdvancedSlicesExist(streams, slices[..n], compact, i); }
  }

  lemma {:induction false} CommitStreamObjectsRefer(s: State, xs: seq<NewStreamObject>, compact: bool, t: Stamp)
    requires CommitStreamObjects(s, xs, compact, t).Ok? && ObjectsReferTo(s.objects, s.streams, s.nextStreamId)
    ensures ObjectsReferTo(CommitStreamObjects(s, xs, compact, t).value.objects, s.streams, s.nextStreamId)
    decreases |xs|
  {
    if xs != [] {
      CommitStreamObjectsRefer(s, xs[..|xs| - 1], compact, t);
      CommitStreamObjectsFrame(s, xs[..|xs| - 1], compact, t);
    }
  }

  lemma CommitRefers(s: State, n: int, r: CommitRequest, now: int)
    requires CommitStep(s, n, r, now).Ok? && IdsAllocated(s) && ObjectsReferTo(s.objects, s.streams, s.nextStreamId)
    ensures ObjectsReferTo(CommitStep(s, n, r, now).value.state.objects, s.streams, s.nextStreamId)
  {
    var stamp := CommitStamp(s.objects, r, now);
    var freed := s.(objects := DestroySetObjects(s.objects, r.compacted));
    var withSet := CommitSetObject(freed, n, r, stamp).value;
    if r.objectId != NOOP_OBJECT_ID {
      forall i | 0 <= i < |r.slices| ensures r.slices[i].streamId < s.nextStreamId {
        AdvancedSlicesExist(freed.streams, r.slices, r.compacted != [], i);
      }
      AdvanceAllMovesEnds(freed.streams, r.slices, r.compacted != []);
    }
    assert ObjectsReferTo(withSet.objects, withSet.streams, s.nextStreamId);
    CommitStreamObjectsRefer(withSet, r.streamObjects, r.compacted != [], stamp);
    SameKeysRefer(CommitStep(s, n, r, now).value.state.objects, withSet.streams, s.streams, s.nextStreamId);
  }

  lemma SameKeysRefer(o: Objects, a: map<nat, Stream>, b: map<nat, Stream>, next: nat)
    requires ObjectsReferTo(o, a, next) && a.Keys == b.Keys
    ensures ObjectsReferTo(o, b, next)
  {
  }

  lemma ObjectTransitionRefers(s: State, c: Command)
    requires IsObjectCommand(c) && ObjectTransition(s, c).Ok? && IdsAllocated(s)
    requires ObjectsReferTo(s.objects, s.streams, s.nextStreamId)
    ensures ObjectsReferTo(ObjectTransition(s, c).value.state.objects, s.streams, s.nextStreamId)
  {
    if c.CommitStreamSetObject? { CommitRefers(s, c.proposer.nodeId, c.commit, c.nowMs); }
  }

  lemma TrimRefers(s: State, n: int, id: nat, epoch: int, start: nat)
    requires TrimStreamStep(s, n, id, epoch, start).Ok? && Referential(s)
    ensures Referential(TrimStreamStep(s, n, id, epoch, start).value.state)
  {
    DestroyStreamObjectsIds(s.objects, ObjectsBelow(s.objects.streamObjects, id, start));
  }

  lemma DeleteRefers(s: State, n: int, id: nat, epoch: int)
    requires DeleteStreamStep(s, n, id, epoch).Ok? && Referential(s)
    ensures Referential(DeleteStreamStep(s, n, id, epoch).value.state)
  {
    DestroyStreamObjectsIds(s.objects, ObjectsOfStream(s.objects.streamObjects, id));
  }

  lemma LargerTableRefers(o: Objects, a: map<nat, Stream>, next: nat, b: map<nat, Stream>, nextB: nat)
    requires ObjectsReferTo(o, a, next) && a.Keys <= b.Keys && next <= nextB
    ensures ObjectsReferTo(o, b, nextB)
  {
  }

  lemma OtherStreamCommandsRefer(s: State, c: Command)
    requires IsStreamCommand(c) && !c.TrimStream? && !c.DeleteStream? && StreamTransition(s, c).Ok? && Referential(s)
    ensures Referential(StreamTransition(s, c).value.state)
  {
    var t := StreamTransition(s, c).value.state;
    StreamTransitionEvolves(s, c);
    StreamFrame(s, c);
    if !c.OpenStream? { QuietTransition(s, c); }
    LargerTableRefers(s.objects, s.streams, s.nextStreamId, t.streams, t.nextStreamId);
  }

  lemma StepRefers(s: State, c: Command)
    requires Referential(s)
    ensures Referential(Apply(s, c))
  {
    if Step(s, c).Ok? {
      if c.TrimStream? { TrimRefers(s, c.proposer.nodeId, c.streamId, c.epoch, c.newStartOffset); }
      else if c.DeleteStream? { DeleteRefers(s, c.proposer.nodeId, c.streamId, c.epoch); }
      else if IsStreamCommand(c) { OtherStreamCommandsRefer(s, c); }
      else { QuietStepRefers(s, c); }
    }
  }

  lemma QuietStepRefers(s: State, c: Command)
    requires Referential(s) && Step(s, c).Ok? && !IsStreamCommand(c)
    ensures Referential(Apply(s, c))
  {
    if IsObjectCommand(c) {
      ObjectTransitionRefers(s, c);
      ObjectFrame(s, c);
      ObjectsKeepTransfers(s, c);
      SameKeysRefer(Apply(s, c).objects, s.streams, Apply(s, c).streams, s.nextStreamId);
    } else if IsNodeCommand(c) {
      NodeFrame(s, c);
    } else if IsKvCommand(c) {
      KvFrame(s, c);
    }
  }

  lemma ObjectsKeepTransfers(s: State, c: Command)
    requires IsObjectCommand(c) && ObjectTransition(s, c).Ok?
    ensures ObjectTransition(s, c).value.state.transfers == s.transfers
  {
    if c.CommitStreamSetObject? { CommitFrame(s, c.proposer.nodeId, c.commit, c.nowMs); }
  }

  lemma {:induction false} RunRefers(s: State, cs: seq<Command>)
    requires Referential(s)
    ensures Referential(Run(s, cs))
    decreases |cs|
  {
    if cs != [] {
      StepRefers(s, cs[0]);
      RunRefers(Apply(s, cs[0]), cs[1..]);
    }
  }
}

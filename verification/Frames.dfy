/** Which tables each command can change. The run theorems look only at the commands that can. */
module Frames {
  import opened MetadataTypes
  import opened Metadata

  predicate ChangesStreams(c: Command) {
    || c.PlaceStream? || c.CreateStream? || c.CreateStreams? || c.OpenStream? || c.TrimStream?
    || c.CloseStream? || c.DeleteStream? || c.CommitStreamSetObject? || c.CompleteTransfer?
  }

  predicate ChangesNodes(c: Command) {
    c.RegisterNode? || c.SetNodeSlots? || c.Heartbeat? || c.FenceNode?
  }

  predicate ChangesEpochs(c: Command) {
    c.OpenStream? || c.TrimStream? || c.DeleteStream?
  }

  predicate ChangesObjects(c: Command) {
    || c.TrimStream? || c.DeleteStream? || c.PrepareObject? || c.CommitStreamSetObject?
    || c.CompactStreamObject? || c.ExpirePreparedObjects? || c.CleanDestroyedObjects?
  }

  ghost predicate Framed(s: State, c: Command, t: State) {
    && (!ChangesStreams(c) ==> t.streams == s.streams && t.nextStreamId == s.nextStreamId)
    && (!ChangesNodes(c) ==> t.nodes == s.nodes)
    && (!ChangesEpochs(c) ==> t.epochs == s.epochs)
    && (!ChangesObjects(c) ==> t.objects == s.objects)
  }

  /** Same streams, and each differs at most in where it ends. */
  ghost predicate OnlyEndsMoved(a: map<nat, Stream>, b: map<nat, Stream>) {
    && a.Keys == b.Keys
    && forall id :: id in a ==> b[id] == a[id].(endOffset := b[id].endOffset)
  }

  /** Everything outside the object tables and the streams' end offsets is as before. */
  ghost predicate OnlyObjectsMoved(s: State, t: State) {
    && OnlyEndsMoved(s.streams, t.streams)
    && t == s.(streams := t.streams, objects := t.objects)
    && t.objects.nextObjectId == s.objects.nextObjectId
  }

  lemma {:induction false} AdvanceAllMovesEnds(streams: map<nat, Stream>, slices: seq<Slice>, compact: bool)
    requires AdvanceAll(streams, slices, compact).Ok?
    ensures OnlyEndsMoved(streams, AdvanceAll(streams, slices, compact).value)
    decreases |slices|
  {
    if slices != [] { AdvanceAllMovesEnds(streams, slices[..|slices| - 1], compact); }
  }

  lemma {:induction false} CommitStreamObjectsFrame(s: State, xs: seq<NewStreamObject>, compact: bool, t: Stamp)
    requires CommitStreamObjects(s, xs, compact, t).Ok?
    ensures OnlyObjectsMoved(s, CommitStreamObjects(s, xs, compact, t).value)
    decreases |xs|
  {
    if xs != [] { CommitStreamObjectsFrame(s, xs[..|xs| - 1], compact, t); }
  }

  lemma CommitFrame(s: State, n: int, r: CommitRequest, now: int)
    requires CommitStep(s, n, r, now).Ok?
    ensures OnlyObjectsMoved(s, CommitStep(s, n, r, now).value.state)
  {
    var t := CommitStamp(s.objects, r, now);
    var freed := s.(objects := DestroySetObjects(s.objects, r.compacted));
    var withSet := CommitSetObject(freed, n, r, t).value;
    if r.objectId != NOOP_OBJECT_ID { AdvanceAllMovesEnds(freed.streams, r.slices, r.compacted != []); }
    CommitStreamObjectsFrame(withSet, r.streamObjects, r.compacted != [], t);
  }

  lemma KvFrame(s: State, c: Command)
    requires IsKvCommand(c) && KvTransition(s, c).Ok?
    ensures KvTransition(s, c).value.state == s.(kv := KvTransition(s, c).value.state.kv)
  {
  }

  lemma NodeFrame(s: State, c: Command)
    requires IsNodeCommand(c) && NodeTransition(s, c).Ok?
    ensures NodeTransition(s, c).value.state == s.(nodes := NodeTransition(s, c).value.state.nodes)
  {
  }

  lemma ObjectFrame(s: State, c: Command)
    requires IsObjectCommand(c) && ObjectTransition(s, c).Ok?
    ensures var t := ObjectTransition(s, c).value.state;
            && t.nodes == s.nodes && t.epochs == s.epochs && t.nextStreamId == s.nextStreamId
            && OnlyEndsMoved(s.streams, t.streams)
            && (!c.CommitStreamSetObject? ==> t.streams == s.streams)
  {
    if c.CommitStreamSetObject? { CommitFrame(s, c.proposer.nodeId, c.commit, c.nowMs); }
  }

  lemma StreamFrame(s: State, c: Command)
    requires IsStreamCommand(c) && StreamTransition(s, c).Ok?
    ensures var t := StreamTransition(s, c).value.state;
            && t.nodes == s.nodes
            && (c.TransferStream? ==> t.streams == s.streams && t.nextStreamId == s.nextStreamId)
            && (!ChangesEpochs(c) ==> t.epochs == s.epochs)
            && (!ChangesObjects(c) ==> t.objects == s.objects)
  {
  }

  /** Commands leave alone every table they are not about. */
  lemma StepFrame(s: State, c: Command)
    ensures Framed(s, c, Apply(s, c))
  {
    if Step(s, c).Ok? && !c.RegisterNode? {
      if IsNodeCommand(c) { NodeFrame(s, c); }
      else if IsStreamCommand(c) { StreamFrame(s, c); }
      else if IsObjectCommand(c) { ObjectFrame(s, c); }
      else if IsKvCommand(c) { KvFrame(s, c); }
    }
  }
}

/** What the commands about streams do: when each is accepted, why it is refused otherwise, and what it
    changes. */
module StreamCommands {
  import opened Prelude
  import opened MetadataTypes
  import opened Metadata
  import opened NodeCommands
  import opened EpochHistory
  import Placement

  /** The node owns the stream, or whoever does is not live. */
  ghost predicate InCharge(s: State, st: Stream, n: int) {
    st.nodeId == n || st.nodeId !in s.nodes || s.nodes[st.nodeId].fenced
  }

  /** Only this stream's row differs. */
  ghost predicate OnlyRow(s: State, id: nat, row: Stream, t: State) {
    && id in t.streams && t.streams[id] == row
    && t.streams.Keys == s.streams.Keys + {id} && (forall x :: x in s.streams && x != id ==> t.streams[x] == s.streams[x])
    && t == s.(streams := t.streams)
  }

  // ------------------------------------------------------------ open and close

  /** What opening replies with. */
  ghost predicate Describes(r: MetadataResult, id: nat, st: Stream) {
    && r.Opening?
    && r.stream.streamId == id && r.stream.startOffset == st.startOffset && r.stream.endOffset == st.endOffset
    && r.stream.state == st.state && r.stream.nodeId == st.nodeId
    && r.stream.epoch == if st.epoch < 0 then 0 else st.epoch
  }

  /** Opening takes a closed stream to a higher epoch, and succeeds once more for the node that has it open. */
  lemma OpenAcceptedIff(s: State, p: Proposer, id: nat, epoch: int)
    requires Current(s, p)
    ensures var r := Step(s, OpenStream(p, id, epoch));
            && (r.Ok? <==> id in s.streams
                           && var st := s.streams[id];
                              || (st.epoch < epoch && st.state.Closed?)
                              || (st.epoch == epoch && st.state.Opened? && st.nodeId == p.nodeId))
            && (r == Err(StreamNotExist(id)) <==> id !in s.streams)
            && (r == Err(StreamNotClosed(id)) <==> id in s.streams && s.streams[id].epoch < epoch && s.streams[id].state.Opened?)
            && (r.Err? ==> r.error == StreamNotExist(id) || r.error == StreamNotClosed(id) || r.error == StreamFenced(id, epoch))
  {
  }

  /** The first time, the epoch is recorded to begin where the stream ends. */
  lemma OpenSets(s: State, p: Proposer, id: nat, epoch: int)
    requires Step(s, OpenStream(p, id, epoch)).Ok?
    ensures var a := Step(s, OpenStream(p, id, epoch)).value;
            && id in s.streams && id in a.state.streams && Describes(a.result, id, a.state.streams[id])
            && (if s.streams[id].epoch == epoch then a.state == s
                else
                  && OnlyRow(s, id, Stream(epoch, s.streams[id].startOffset, s.streams[id].endOffset, Opened, p.nodeId),
                             a.state.(epochs := s.epochs))
                  && a.state.epochs == s.epochs[(id, epoch) := s.streams[id].endOffset])
  {
  }

  /** Closing is for whoever is in charge, at the stream's epoch, and repeats harmlessly for anyone. */
  lemma CloseAcceptedIff(s: State, p: Proposer, id: nat, epoch: int)
    requires Current(s, p)
    ensures var r := Step(s, CloseStream(p, id, epoch));
            && (r.Ok? <==> id in s.streams && s.streams[id].epoch == epoch
                           && (s.streams[id].state.Closed? || InCharge(s, s.streams[id], p.nodeId)))
            && (r.Ok? ==> r.value.result == Unit && OnlyRow(s, id, s.streams[id].(state := Closed), r.value.state))
            && (r == Err(StreamNotExist(id)) <==> id !in s.streams)
            && (r.Err? && id in s.streams ==>
                  var st := s.streams[id];
                  if !InCharge(s, st, p.nodeId) then r.error == StreamFenced(id, st.epoch)
                  else if st.state.Closed? then r.error == Unexpected else r.error == ExpiredEpoch(id, epoch))
  {
  }

  // ------------------------------------------------------------------ trimming

  /** Trimming is for whoever is in charge, at the stream's epoch, to an offset between its start and its end. */
  lemma TrimAcceptedIff(s: State, p: Proposer, id: nat, epoch: int, start: nat)
    requires Current(s, p)
    ensures var r := Step(s, TrimStream(p, id, epoch, start));
            && (r.Ok? <==> id in s.streams
                           && var st := s.streams[id];
                              st.epoch == epoch && InCharge(s, st, p.nodeId) && st.startOffset <= start <= st.endOffset)
            && (r == Err(StreamNotExist(id)) <==> id !in s.streams)
            && (r.Err? && id in s.streams ==>
                  var st := s.streams[id];
                  if st.epoch != epoch then r.error == ExpiredEpoch(id, epoch)
                  else if !InCharge(s, st, p.nodeId) then r.error == StreamFenced(id, st.epoch)
                  else r.error == Unexpected)
  {
  }

  /** The start moves, epochs that begin too early to matter go, and so do objects that end too early: those are
      `DestroyQueue.TrimDrops`. */
  lemma TrimSets(s: State, p: Proposer, id: nat, epoch: int, start: nat)
    requires Step(s, TrimStream(p, id, epoch, start)).Ok?
    ensures var a := Step(s, TrimStream(p, id, epoch, start)).value;
            var t := a.state;
            && a.result == Unit && id in s.streams
            && OnlyRow(s, id, s.streams[id].(startOffset := start), t.(epochs := s.epochs, objects := s.objects))
            && TrimStreamStep(s, p.nodeId, id, epoch, start) == Ok(a)
            && (forall k :: k in t.epochs ==> k in s.epochs && t.epochs[k] == s.epochs[k])
            && (forall k :: k in s.epochs && k.0 != id ==> k in t.epochs)
            && (forall e :: (id, e) in s.epochs ==>
                  ((id, e) !in t.epochs <==> exists f :: e < f && (id, f) in s.epochs && Begun(s.epochs, id, f, start)))
  {
    var t := Step(s, TrimStream(p, id, epoch, start)).value.state;
    forall e | (id, e) in s.epochs
      ensures (id, e) !in t.epochs <==> exists f :: e < f && (id, f) in s.epochs && Begun(s.epochs, id, f, start)
    {
      BegunIff(s.epochs, id, e, start);
    }
  }

  /** No epoch on record up to `f` begins past the offset. */
  ghost predicate Begun(epochs: Epochs, id: nat, f: int, offset: nat) {
    forall d :: (id, d) in epochs && d <= f ==> epochs[(id, d)] <= offset
  }

  lemma BegunIff(epochs: Epochs, id: nat, e: int, offset: nat)
    ensures Superseded(epochs, id, e, offset) <==> exists f :: e < f && (id, f) in epochs && Begun(epochs, id, f, offset)
  {
    if Superseded(epochs, id, e, offset) {
      var f :| e < f && StartedBy(epochs, id, f, offset);
      assert Begun(epochs, id, f, offset);
    }
    if f :| e < f && (id, f) in epochs && Begun(epochs, id, f, offset) {
      assert StartedBy(epochs, id, f, offset);
    }
  }

  // ------------------------------------------------------- place and transfer

  /** A node that can take streams. */
  ghost predicate Takes(s: State, n: int) {
    n in s.nodes && !s.nodes[n].fenced && s.nodes[n].slots >= 1
  }

  /** The streams on a node: those open there, and those closed but placed there. */
  ghost function On(s: State, n: int): set<nat> {
    set id | id in s.streams && s.streams[id].nodeId == n && (s.streams[id].state.Opened? || n != -1)
  }

  /** No node would be better: fewer streams for its slots, in thousandths rounded down, or as many and a lower id. */
  ghost predicate BestNode(s: State, n: int) {
    && Takes(s, n)
    && forall m :: Takes(s, m) ==>
         var x, y := |On(s, n)| * 1000 / s.nodes[n].slots, |On(s, m)| * 1000 / s.nodes[m].slots;
         x < y || (x == y && n <= m)
  }

  /** A stream that is open or on a live node stays there. Any other goes to the node asked for, if it can take
      streams, or without a wish to the best there is; and placing fails if there is none. */
  lemma PlaceSets(s: State, p: Proposer, id: nat, requested: Option<int>)
    requires Current(s, p)
    ensures var r := Step(s, PlaceStream(p, id, requested));
            if id !in s.streams then r == Err(StreamNotExist(id))
            else
              var st := s.streams[id];
              if st.state.Opened? || (st.nodeId in s.nodes && !s.nodes[st.nodeId].fenced) then
                r == Ok(Applied(s, Id(st.nodeId % 0x1_0000_0000_0000_0000)))
              else
                && (r.Ok? <==> match requested case Some(n) => Takes(s, n) case None => exists n :: Takes(s, n))
                && (r.Err? ==> r.error == NoLiveNode)
                && (r.Ok? ==>
                      && id in r.value.state.streams
                      && var n := r.value.state.streams[id].nodeId;
                         && OnlyRow(s, id, st.(nodeId := n), r.value.state)
                         && r.value.result == Id(n % 0x1_0000_0000_0000_0000)
                         && match requested case Some(m) => n == m case None => BestNode(s, n))
  {
    if requested.None? { BestIsLeast(s); }
  }

  lemma BestIsLeast(s: State)
    ensures forall n :: IsLeastLoaded(s, n) <==> BestNode(s, n)
    ensures LeastLoaded(s).Some? <==> exists n :: Takes(s, n)
    ensures LeastLoaded(s).Some? ==> BestNode(s, LeastLoaded(s).value)
  {
    forall n ensures Eligible(s, n) <==> Takes(s, n) { }
    forall n ensures On(s, n) == StreamsOn(s.streams, n) { }
    Placement.LeastLoadedIsMinimum(s);
    if n :| Takes(s, n) { assert Eligible(s, n); }
  }

  /** A transfer is recorded for an open stream of the node named, to another that can take streams; asking for
      the same transfer again succeeds. */
  lemma TransferSets(s: State, p: Proposer, id: nat, fromNode: int, toNode: int)
    requires Current(s, p)
    ensures var r := Step(s, TransferStream(p, id, fromNode, toNode));
            && (r.Ok? <==> id in s.streams
                           && if id in s.transfers then s.transfers[id] == Transfer(fromNode, toNode)
                              else fromNode != toNode && Takes(s, toNode)
                                   && s.streams[id].state.Opened? && s.streams[id].nodeId == fromNode)
            && (r.Ok? ==> r.value == Applied(s.(transfers := s.transfers[id := Transfer(fromNode, toNode)]), Unit))
            && (r == Err(StreamNotExist(id)) <==> id !in s.streams)
            && (r == Err(NodeEpochMismatch(toNode)) <==>
                  id in s.streams && id !in s.transfers && fromNode != toNode && !Takes(s, toNode))
            && (r.Err? ==> r.error == StreamNotExist(id) || r.error == NodeEpochMismatch(toNode) || r.error == Unexpected)
  {
    if Step(s, TransferStream(p, id, fromNode, toNode)).Ok? && id in s.transfers {
      assert s.transfers == s.transfers[id := Transfer(fromNode, toNode)];
    }
  }

  /** A transfer is completed once the stream is closed, at its epoch: the stream is then placed on the node it
      was transferred to. */
  lemma CompletionSets(s: State, p: Proposer, id: nat, epoch: int)
    requires Current(s, p)
    ensures var r := Step(s, CompleteTransfer(p, id, epoch));
            && (r.Ok? <==> id in s.transfers && id in s.streams && s.streams[id].state.Closed? && s.streams[id].epoch == epoch)
            && (r.Ok? ==>
                  && r.value.result == Unit && r.value.state.transfers == s.transfers - {id}
                  && OnlyRow(s, id, s.streams[id].(nodeId := s.transfers[id].toNode), r.value.state.(transfers := s.transfers)))
            && (r == Err(Redundant) <==> id !in s.transfers)
            && (r.Err? && id in s.transfers ==>
                  if id !in s.streams then r.error == StreamNotExist(id)
                  else if s.streams[id].state.Opened? then r.error == StreamNotClosed(id) else r.error == ExpiredEpoch(id, epoch))
  {
  }

  // -------------------------------------------------------- create and delete

  /** Deleting is for whoever is in charge of a closed stream, at its epoch, and is harmless when there is no such
      stream. The row, its transfer and its epochs go; its objects are `DestroyQueue.DeletionDrops`. */
  lemma DeleteSets(s: State, p: Proposer, id: nat, epoch: int)
    requires Current(s, p)
    ensures var r := Step(s, DeleteStream(p, id, epoch));
            && (id !in s.streams ==> r == Ok(Applied(s, Unit)))
            && (id in s.streams ==>
                  var st := s.streams[id];
                  && (r.Ok? <==> InCharge(s, st, p.nodeId) && st.state.Closed? && st.epoch == epoch)
                  && (r.Ok? ==>
                        var t := r.value.state;
                        && r.value.result == Unit && DeleteStreamStep(s, p.nodeId, id, epoch) == r
                        && t == s.(streams := s.streams - {id}, transfers := s.transfers - {id}, epochs := t.epochs, objects := t.objects)
                        && (forall k :: k in t.epochs <==> k in s.epochs && k.0 != id)
                        && (forall k :: k in t.epochs ==> t.epochs[k] == s.epochs[k]))
                  && (r.Err? ==>
                        if !InCharge(s, st, p.nodeId) then r.error == StreamFenced(id, st.epoch)
                        else if st.state.Opened? then r.error == StreamNotClosed(id) else r.error == ExpiredEpoch(id, epoch)))
  {
  }

  /** New streams are closed and empty, on no node and at no epoch, under the next ids, of which the first is the
      reply; a block has 1 to 4096 of them. */
  lemma CreationSets(s: State, p: Proposer, count: nat)
    requires Current(s, p)
    ensures var r := Step(s, CreateStreams(p, count));
            && (r.Ok? <==> 1 <= count <= 4096) && (r.Err? ==> r.error == Unexpected)
            && (r.Ok? ==>
                  var t := r.value.state;
                  && r.value.result == Id(s.nextStreamId) && t.nextStreamId == s.nextStreamId + count
                  && t == s.(streams := t.streams, nextStreamId := t.nextStreamId)
                  && (forall id :: id in t.streams <==> id in s.streams || s.nextStreamId <= id < t.nextStreamId)
                  && (forall id :: id in t.streams ==>
                        t.streams[id] == if s.nextStreamId <= id < t.nextStreamId then Stream(-1, 0, 0, Closed, -1) else s.streams[id]))
    ensures Step(s, CreateStream(p)) == Step(s, CreateStreams(p, 1))
  {
    assert Block(s.nextStreamId, 1, NewStream) == map[s.nextStreamId := NewStream];
    assert s.streams + Block(s.nextStreamId, 1, NewStream) == s.streams[s.nextStreamId := NewStream];
  }
}

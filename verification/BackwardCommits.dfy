/** Why end offsets must not move backwards. A range whose end lies below its start is accepted when it
    starts where the stream ends, and pulls the end back: the next epoch then begins below offsets that
    were written under an earlier one. */
module BackwardCommits {
  import opened Prelude
  import opened MetadataTypes
  import opened Metadata
  import opened Frames
  import opened EpochHistory

  /** Somebody may reopen the stream: its owner while that is live, anyone live otherwise. */
  function Reopener(s: State, st: Stream, p: Proposer): Proposer {
    if LiveNode(s, st.nodeId) then Proposer(st.nodeId, s.nodes[st.nodeId].epoch) else p
  }

  /** Closing the stream and opening it one epoch up. */
  function Reopening(s: State, id: nat, p: Proposer): seq<Command>
    requires id in s.streams
  {
    var q := Reopener(s, s.streams[id], p);
    [CloseStream(q, id, s.streams[id].epoch), OpenStream(q, id, s.streams[id].epoch + 1)]
  }

  lemma CloseLands(s: State, id: nat, p: Proposer)
    requires id in s.streams && Live(s, p)
    ensures var st := s.streams[id];
            Apply(s, CloseStream(Reopener(s, st, p), id, st.epoch)) == s.(streams := s.streams[id := st.(state := Closed)])
  {
  }

  lemma OpenLands(s: State, closed: State, id: nat, q: Proposer)
    requires id in s.streams && closed == s.(streams := s.streams[id := s.streams[id].(state := Closed)]) && Live(s, q)
    ensures var st := s.streams[id];
            Apply(closed, OpenStream(q, id, st.epoch + 1))
            == s.(streams := s.streams[id := Stream(st.epoch + 1, st.startOffset, st.endOffset, Opened, q.nodeId)],
                  epochs := s.epochs[(id, st.epoch + 1) := st.endOffset])
  {
    var st := s.streams[id];
    var reopened := Stream(st.epoch + 1, st.startOffset, st.endOffset, Opened, q.nodeId);
    assert closed.streams[id := reopened] == s.streams[id := reopened];
  }

  lemma RunOfTwo(s: State, a: Command, b: Command)
    ensures Run(s, [a, b]) == Apply(Apply(s, a), b)
  {
    assert [a, b][1..] == [b] && [b][1..] == [];
    assert Run(Apply(s, a), [b]) == Run(Apply(Apply(s, a), b), []);
  }

  lemma ReopenSucceeds(s: State, id: nat, p: Proposer)
    requires id in s.streams && Live(s, p)
    ensures var st := s.streams[id];
            Run(s, Reopening(s, id, p))
            == s.(streams := s.streams[id := Stream(st.epoch + 1, st.startOffset, st.endOffset, Opened, Reopener(s, st, p).nodeId)],
                  epochs := s.epochs[(id, st.epoch + 1) := st.endOffset])
  {
    var st := s.streams[id];
    var q := Reopener(s, st, p);
    CloseLands(s, id, p);
    OpenLands(s, Apply(s, CloseStream(q, id, st.epoch)), id, q);
    RunOfTwo(s, CloseStream(q, id, st.epoch), OpenStream(q, id, st.epoch + 1));
  }

  /** Reopened, a stream has everything from its end on under the new epoch. */
  lemma ReopenRecords(s: State, id: nat, p: Proposer, offset: nat)
    requires HistoryKept(s) && id in s.streams && Live(s, p) && s.streams[id].endOffset <= offset
    ensures Lookup(Run(s, Reopening(s, id, p)).epochs, id, offset) == Some(s.streams[id].epoch + 1)
    ensures Lookup(s.epochs, id, offset) != Some(s.streams[id].epoch + 1)
  {
    ReopenSucceeds(s, id, p);
    LookupIs(Run(s, Reopening(s, id, p)).epochs, id, offset, s.streams[id].epoch + 1);
  }

  lemma CommitMovesEnd(s: State, c: Command, id: nat)
    requires HistoryKept(s) && c.CommitStreamSetObject? && Step(s, c).Ok? && id in s.streams
    ensures var t := Apply(s, c);
            && HistoryKept(t) && t.epochs == s.epochs && Live(t, c.proposer) && id in t.streams
            && t.streams[id] == s.streams[id].(endOffset := EndAfter(c.commit, id, s.streams[id].endOffset))
  {
    CommitFrame(s, c.proposer.nodeId, c.commit, c.nowMs);
    CommitEnds(s, c.proposer.nodeId, c.commit, c.nowMs, id);
  }

  /** Below its end, reopening a stream changes no record. */
  lemma ReopenSpares(s: State, id: nat, p: Proposer, offset: nat)
    requires id in s.streams && Live(s, p) && offset < s.streams[id].endOffset && HistoryKept(s)
    ensures Lookup(Run(s, Reopening(s, id, p)).epochs, id, offset) == Lookup(s.epochs, id, offset)
  {
    ReopenSucceeds(s, id, p);
    RecordKeepsLookup(s.epochs, id, s.streams[id].epoch + 1, s.streams[id].endOffset, id, offset);
  }

  lemma CommitThenReopened(s: State, c: Command, id: nat, offset: nat)
    requires HistoryKept(s) && c.CommitStreamSetObject? && Step(s, c).Ok? && id in s.streams
    requires EndAfter(c.commit, id, s.streams[id].endOffset) <= offset
    ensures var a := Apply(s, c);
            && id in a.streams
            && var t := Run(a, Reopening(a, id, c.proposer));
               && id in t.streams && t.streams[id].startOffset == s.streams[id].startOffset
               && Lookup(t.epochs, id, offset) == Some(s.streams[id].epoch + 1)
  {
    CommitMovesEnd(s, c, id);
    ReopenSucceeds(Apply(s, c), id, c.proposer);
    ReopenRecords(Apply(s, c), id, c.proposer, offset);
  }

  /** Closing and opening a stream right after an accepted commit changes which epoch is on record for a live
      offset exactly when the commit pulled the stream's end down to that offset or below. */
  lemma CommitRewritesHistoryIff(s: State, c: Command, id: nat, offset: nat)
    requires HistoryKept(s) && c.CommitStreamSetObject? && Step(s, c).Ok? && id in s.streams && id in Apply(s, c).streams
    requires s.streams[id].startOffset <= offset < s.streams[id].endOffset
    ensures var a := Apply(s, c);
            var t := Run(a, Reopening(a, id, c.proposer));
            && id in t.streams && t.streams[id].startOffset <= offset
            && (Lookup(t.epochs, id, offset) != Lookup(s.epochs, id, offset)
                <==> EndAfter(c.commit, id, s.streams[id].endOffset) <= offset)
  {
    CommitMovesEnd(s, c, id);
    var a := Apply(s, c);
    ReopenSucceeds(a, id, c.proposer);
    if a.streams[id].endOffset <= offset {
      ReopenRecords(a, id, c.proposer, offset);
    } else {
      ReopenSpares(a, id, c.proposer, offset);
    }
  }

  // ------------------------------------------------------- a concrete run

  const NODE := Proposer(0, 0)

  /** One range of stream 0, as a stream-set object of its own. */
  function Write(objectId: nat, from: nat, to: nat): Command {
    CommitStreamSetObject(NODE, CommitRequest(objectId, 1, 0, [Slice(0, from, to, 1)], [], []), 0)
  }

  lemma WriteIsAccepted(s: State, objectId: nat, from: nat, to: nat)
    requires Live(s, NODE) && 0 in s.streams && s.streams[0].endOffset == from && objectId != NOOP_OBJECT_ID
    requires objectId !in s.objects.setObjects && objectId !in s.objects.streamObjects
    ensures Step(s, Write(objectId, from, to)).Ok?
    ensures var t := Apply(s, Write(objectId, from, to));
            t == s.(streams := s.streams[0 := s.streams[0].(endOffset := to)], objects := t.objects)
            && t.objects.setObjects.Keys == s.objects.setObjects.Keys + {objectId}
            && t.objects.streamObjects == s.objects.streamObjects
  {
    var slices := [Slice(0, from, to, 1)];
    assert slices[..0] == [];
    assert AdvanceAll(s.streams, slices, false) == Advance(s.streams, 0, from, to, false);
    assert s.objects.setObjects - IdSet([]) == s.objects.setObjects;
    assert Deletes(0) == [];
  }

  /** A node registers, creates stream 0 and opens it at epoch 0. */
  function Founding(): seq<Command> {
    [RegisterNode(0, 0, [], 0, map[], []), CreateStream(NODE), OpenStream(NODE, 0, 0)]
  }

  const OPENED: State :=
    Empty.(nextStreamId := 1, nodes := map[0 := Node(0, [], 0, map[], [], 0, false)],
           streams := map[0 := Stream(0, 0, 0, Opened, 0)], epochs := map[(0, 0) := 0])

  lemma FoundingState()
    ensures Run(Empty, Founding()) == OPENED && Live(OPENED, NODE)
  {
    var cs := Founding();
    var s1 := Apply(Empty, cs[0]);
    assert s1.nodes == OPENED.nodes;
    var s2 := Apply(s1, cs[1]);
    assert s2.streams == map[0 := NewStream];
    assert Apply(s2, cs[2]) == OPENED;
    RunOfTwo(s1, cs[1], cs[2]);
    assert cs[1..] == [cs[1], cs[2]];
  }

  /** Then it writes offsets 0 to 4. */
  function Setup(): seq<Command> {
    Founding() + [Write(7, 0, 5)]
  }

  lemma SetupState()
    ensures var s := Run(Empty, Setup());
            && s.streams == map[0 := Stream(0, 0, 5, Opened, 0)] && s.epochs == map[(0, 0) := 0]
            && Live(s, NODE) && s.objects.setObjects.Keys == {7} && s.objects.streamObjects == map[]
  {
    FoundingState();
    WriteIsAccepted(OPENED, 7, 0, 5);
    RunConcat(Empty, Founding(), [Write(7, 0, 5)]);
    assert Run(OPENED, [Write(7, 0, 5)]) == Apply(OPENED, Write(7, 0, 5));
  }

  /** Then a range from 5 back to 2 is accepted, and the stream ends at 2 instead of 5. */
  lemma BackwardCommitIsAccepted(s: State)
    requires Live(s, NODE) && 0 in s.streams && s.streams[0].endOffset == 5
    requires 8 !in s.objects.setObjects && 8 !in s.objects.streamObjects
    ensures Step(s, Write(8, 5, 2)).Ok? && EndAfter(Write(8, 5, 2).commit, 0, 5) == 2
    ensures !OffsetsGrow(s, Apply(s, Write(8, 5, 2)))
  {
    WriteIsAccepted(s, 8, 5, 2);
    assert SlicesEnd([Slice(0, 5, 2, 1)], 0, 5) == 2;
  }

  lemma SetupHistory(s: State)
    requires s.streams == map[0 := Stream(0, 0, 5, Opened, 0)] && s.epochs == map[(0, 0) := 0]
    ensures HistoryKept(s) && Lookup(s.epochs, 0, 3) == Some(0)
  {
    LookupIs(s.epochs, 0, 3, 0);
  }

  /** Two commands later offset 3, written under epoch 0, is on record under epoch 1. */
  lemma BackwardCommitRewritesHistory()
    ensures var s := Run(Empty, Setup());
            var a := Apply(s, Write(8, 5, 2));
            && Step(s, Write(8, 5, 2)).Ok? && !OffsetsGrow(s, a)
            && 0 in s.streams && s.streams[0].startOffset <= 3 < s.streams[0].endOffset && 0 in a.streams
            && var t := Run(a, Reopening(a, 0, NODE));
               0 in t.streams && t.streams[0].startOffset <= 3
               && Lookup(s.epochs, 0, 3) == Some(0) && Lookup(t.epochs, 0, 3) == Some(1)
  {
    var s := Run(Empty, Setup());
    SetupState();
    SetupHistory(s);
    BackwardCommitIsAccepted(s);
    CommitThenReopened(s, Write(8, 5, 2), 0, 3);
  }

  lemma SetupReopened(t: State)
    requires t == Run(Run(Empty, Setup()), [CloseStream(NODE, 0, 0), OpenStream(NODE, 0, 1)])
    ensures && t.streams == map[0 := Stream(1, 0, 5, Opened, 0)] && t.epochs == map[(0, 0) := 0, (0, 1) := 5]
            && Live(t, NODE) && t.objects.setObjects.Keys == {7} && t.objects.streamObjects == map[]
  {
    var s := Run(Empty, Setup());
    SetupState();
    ReopenSucceeds(s, 0, NODE);
    assert Reopening(s, 0, NODE) == [CloseStream(NODE, 0, 0), OpenStream(NODE, 0, 1)];
  }

  /** Reopened at 5 before such a commit, the stream ends before its current epoch began, and what is
      written next is on record under the epoch before. */
  lemma BackwardCommitMissesEpoch()
    ensures var t := Run(Run(Empty, Setup()), [CloseStream(NODE, 0, 0), OpenStream(NODE, 0, 1)]);
            var u := Apply(t, Write(8, 5, 2));
            && Step(t, Write(8, 5, 2)).Ok?
            && 0 in u.streams && u.streams[0].epoch == 1 && u.streams[0].endOffset == 2
            && Lookup(u.epochs, 0, 2) == Some(0)
  {
    var t := Run(Run(Empty, Setup()), [CloseStream(NODE, 0, 0), OpenStream(NODE, 0, 1)]);
    SetupReopened(t);
    WriteIsAccepted(t, 8, 5, 2);
    LookupIs(t.epochs, 0, 2, 0);
  }
}

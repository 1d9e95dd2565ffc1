/** Who may hold a stream: one writer per epoch over a whole run, no interference while the owner
    lives, and failover that always goes through once it does not. */
module Ownership {
  import opened Prelude
  import opened MetadataTypes
  import opened Metadata
  import opened Frames

  // ------------------------------------------------- one writer per epoch

  /** Epochs only grow, and a stream open at an unchanged epoch was already open there, on that node. */
  ghost predicate RowEvolves(a: Stream, b: Stream) {
    && a.epoch <= b.epoch
    && (a.epoch == b.epoch && b.state.Opened? ==> a.state.Opened? && a.nodeId == b.nodeId)
  }

  ghost predicate StreamsEvolve(s: State, t: State) {
    && s.nextStreamId <= t.nextStreamId
    && (forall id :: id in t.streams && id in s.streams ==> RowEvolves(s.streams[id], t.streams[id]))
    && (forall id :: id in t.streams && id < s.nextStreamId ==> id in s.streams)
  }

  ghost predicate IdsAllocated(s: State) {
    forall id :: id in s.streams ==> id < s.nextStreamId
  }

  lemma CreationEvolves(s: State, count: nat)
    requires IdsAllocated(s) && CreateStreamsStep(s, count).Ok?
    ensures var t := CreateStreamsStep(s, count).value.state; IdsAllocated(t) && StreamsEvolve(s, t)
  {
  }

  lemma RemovalEvolves(s: State, c: Command)
    requires IdsAllocated(s) && (c.TrimStream? || c.DeleteStream?) && StreamTransition(s, c).Ok?
    ensures var t := StreamTransition(s, c).value.state; IdsAllocated(t) && StreamsEvolve(s, t)
  {
  }

  lemma StreamTransitionEvolves(s: State, c: Command)
    requires IdsAllocated(s) && IsStreamCommand(c) && StreamTransition(s, c).Ok?
    ensures var t := StreamTransition(s, c).value.state; IdsAllocated(t) && StreamsEvolve(s, t)
  {
    if c.CreateStreams? { CreationEvolves(s, c.count); }
    else if c.TrimStream? || c.DeleteStream? { RemovalEvolves(s, c); }
  }

  lemma StepEvolves(s: State, c: Command)
    requires IdsAllocated(s)
    ensures IdsAllocated(Apply(s, c)) && StreamsEvolve(s, Apply(s, c))
  {
    if Step(s, c).Ok? {
      if IsStreamCommand(c) { StreamTransitionEvolves(s, c); }
      else if IsObjectCommand(c) { ObjectFrame(s, c); }
      else { StepFrame(s, c); }
    }
  }

  lemma {:induction false} RunEvolves(s: State, cs: seq<Command>)
    requires IdsAllocated(s)
    ensures IdsAllocated(Run(s, cs)) && StreamsEvolve(s, Run(s, cs))
    decreases |cs|
  {
    if cs != [] {
      StepEvolves(s, cs[0]);
      RunEvolves(Apply(s, cs[0]), cs[1..]);
    }
  }

  /** Over any run from the empty state: two moments at which a stream is OPENED at one epoch
      agree on the node that holds it. */
  lemma SingleWriterPerEpoch(cs: seq<Command>, i: nat, j: nat, id: nat)
    requires i <= j <= |cs|
    requires id in Run(Empty, cs[..i]).streams && id in Run(Empty, cs[..j]).streams
    requires Run(Empty, cs[..i]).streams[id].state.Opened? && Run(Empty, cs[..j]).streams[id].state.Opened?
    requires Run(Empty, cs[..i]).streams[id].epoch == Run(Empty, cs[..j]).streams[id].epoch
    ensures Run(Empty, cs[..i]).streams[id].nodeId == Run(Empty, cs[..j]).streams[id].nodeId
  {
    assert cs[..j] == cs[..i] + cs[i..j];
    RunConcat(Empty, cs[..i], cs[i..j]);
    RunEvolves(Empty, cs[..i]);
    RunEvolves(Run(Empty, cs[..i]), cs[i..j]);
  }

  /** Stream epochs never decrease, and a deleted stream id never comes back. */
  lemma StreamIdsAreNeverReused(cs: seq<Command>, i: nat, j: nat, k: nat, id: nat)
    requires i <= j <= k <= |cs|
    requires id in Run(Empty, cs[..i]).streams
    ensures id !in Run(Empty, cs[..j]).streams ==> id !in Run(Empty, cs[..k]).streams
    ensures id in Run(Empty, cs[..k]).streams ==>
              Run(Empty, cs[..i]).streams[id].epoch <= Run(Empty, cs[..k]).streams[id].epoch
  {
    assert cs[..j] == cs[..i] + cs[i..j];
    assert cs[..k] == cs[..j] + cs[j..k];
    RunConcat(Empty, cs[..i], cs[i..j]);
    RunConcat(Empty, cs[..j], cs[j..k]);
    RunEvolves(Empty, cs[..i]);
    RunEvolves(Run(Empty, cs[..i]), cs[i..j]);
    RunEvolves(Run(Empty, cs[..j]), cs[j..k]);
  }

  // ---------------------------------------------------- non-interference

  ghost predicate OpenOnLiveNode(s: State, id: nat, n: int) {
    id in s.streams && s.streams[id].state.Opened? && s.streams[id].nodeId == n && LiveNode(s, n)
  }

  /** Every command is proposed by a node other than `n`, and `n` is still live after each. */
  ghost predicate ForeignWhileLive(s: State, cs: seq<Command>, n: int)
    decreases |cs|
  {
    cs == [] ||
    (&& (cs[0].RegisterNode? || cs[0].proposer.nodeId != n)
     && LiveNode(Apply(s, cs[0]), n)
     && ForeignWhileLive(Apply(s, cs[0]), cs[1..], n))
  }

  lemma ForeignTransitionKeepsStream(s: State, c: Command, id: nat, n: int)
    requires OpenOnLiveNode(s, id, n) && IsStreamCommand(c) && c.proposer.nodeId != n && IdsAllocated(s)
    requires StreamTransition(s, c).Ok?
    ensures var t := StreamTransition(s, c).value.state; id in t.streams && t.streams[id] == s.streams[id]
  {
  }

  lemma ForeignStepKeepsStream(s: State, c: Command, id: nat, n: int)
    requires OpenOnLiveNode(s, id, n) && (c.RegisterNode? || c.proposer.nodeId != n) && IdsAllocated(s)
    ensures id in Apply(s, c).streams
    ensures Apply(s, c).streams[id] == s.streams[id].(endOffset := Apply(s, c).streams[id].endOffset)
  {
    if Step(s, c).Ok? {
      if IsStreamCommand(c) { ForeignTransitionKeepsStream(s, c, id, n); }
      else if IsObjectCommand(c) { ObjectFrame(s, c); }
      else { StepFrame(s, c); }
    }
  }

  /** While a stream is OPENED on a live node, nothing other nodes propose changes its state, epoch,
      owner or start offset, or removes it. */
  lemma {:induction false} NonInterference(s: State, cs: seq<Command>, id: nat, n: int)
    requires IdsAllocated(s) && OpenOnLiveNode(s, id, n) && ForeignWhileLive(s, cs, n)
    ensures OpenOnLiveNode(Run(s, cs), id, n)
    ensures Run(s, cs).streams[id] == s.streams[id].(endOffset := Run(s, cs).streams[id].endOffset)
    decreases |cs|
  {
    if cs != [] {
      ForeignStepKeepsStream(s, cs[0], id, n);
      StepEvolves(s, cs[0]);
      NonInterference(Apply(s, cs[0]), cs[1..], id, n);
    }
  }

  // ------------------------------------------------------------ failover

  /** Recovery of a stream no live node owns: closing it at its epoch, placing it on a live node with
      slots and opening it there one epoch up all succeed, and only ownership changes hands. */
  lemma FailoverSucceeds(s: State, id: nat, p: Proposer)
    requires id in s.streams && !LiveNode(s, s.streams[id].nodeId)
    requires Live(s, p) && Eligible(s, p.nodeId)
    ensures var st := s.streams[id];
            var close := CloseStream(p, id, st.epoch);
            var place := PlaceStream(p, id, Some(p.nodeId));
            var open := OpenStream(p, id, st.epoch + 1);
            var t := Run(s, [close, place, open]);
            && Step(s, close).Ok?
            && Step(Apply(s, close), place).Ok?
            && Step(Apply(Apply(s, close), place), open).Ok?
            && t.streams == s.streams[id := Stream(st.epoch + 1, st.startOffset, st.endOffset, Opened, p.nodeId)]
            && t.epochs == s.epochs[(id, st.epoch + 1) := st.endOffset]
            && t == s.(streams := t.streams, epochs := t.epochs)
  {
    var st := s.streams[id];
    var close := CloseStream(p, id, st.epoch);
    var place := PlaceStream(p, id, Some(p.nodeId));
    var open := OpenStream(p, id, st.epoch + 1);
    var a := Apply(s, close);
    var b := Apply(a, place);
    var c := Apply(b, open);
    assert a == WithStream(s, id, st.(state := Closed));
    assert b == WithStream(a, id, a.streams[id].(nodeId := p.nodeId));
    assert Step(b, open).Ok?;
    assert [close, place, open][1..] == [place, open];
    assert [place, open][1..] == [open];
    assert Run(b, [open]) == c;
    assert Run(a, [place, open]) == c;
  }
}

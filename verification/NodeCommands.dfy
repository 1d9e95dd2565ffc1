/** What the commands about nodes do, and failover from a silent node: the fence lands, and the streams
    of the fenced node can be opened elsewhere. */
module NodeCommands {
  import opened Prelude
  import opened MetadataTypes
  import opened Metadata
  import opened Frames
  import opened Ownership

  /** The proposer is the registered incarnation of its node, and not fenced. */
  ghost predicate Current(s: State, p: Proposer) {
    p.nodeId in s.nodes && s.nodes[p.nodeId].epoch == p.nodeEpoch && !s.nodes[p.nodeId].fenced
  }

  /** Only a registration is taken from a proposer that is not current. */
  lemma OnlyCurrentProposers(s: State, c: Command)
    requires !c.RegisterNode? && !Current(s, c.proposer)
    ensures Step(s, c) == Err(NodeEpochMismatch(c.proposer.nodeId)) && Apply(s, c) == s
  {
  }

  /** Registering is always accepted. The node gets the epoch it asks for, or the next one if that is higher,
      which is also the reply; it is unfenced, keeps its heartbeats, and keeps what it leaves unset. */
  lemma RegistrationSets(s: State, n: int, epoch: int, http: Str, slots: nat, addresses: map<Str, Str>, wal: Str)
    ensures var c := RegisterNode(n, epoch, http, slots, addresses, wal);
            && Step(s, c).Ok?
            && var t := Step(s, c).value.state;
               && n in t.nodes && t == s.(nodes := s.nodes[n := t.nodes[n]])
               && epoch <= t.nodes[n].epoch && !t.nodes[n].fenced && t.nodes[n].slots == slots
               && Step(s, c).value.result == Id(t.nodes[n].epoch % 0x1_0000_0000_0000_0000)
               && (n !in s.nodes ==> t.nodes[n] == Node(epoch, http, slots, addresses, wal, 0, false))
               && (n in s.nodes ==>
                     && s.nodes[n].epoch < t.nodes[n].epoch
                     && (t.nodes[n].epoch == epoch || t.nodes[n].epoch == s.nodes[n].epoch + 1)
                     && t.nodes[n].heartbeats == s.nodes[n].heartbeats
                     && (http != [] ==> t.nodes[n].httpAddress == http)
                     && (http == [] ==> t.nodes[n].httpAddress == s.nodes[n].httpAddress)
                     && (addresses != map[] ==> t.nodes[n].protocolAddresses == addresses)
                     && (addresses == map[] ==> t.nodes[n].protocolAddresses == s.nodes[n].protocolAddresses)
                     && (wal != [] ==> t.nodes[n].wal == wal)
                     && (wal == [] ==> t.nodes[n].wal == s.nodes[n].wal))
  {
  }

  /** Slots can be set for a registered node, and nothing else of it changes. */
  lemma SlotsSet(s: State, p: Proposer, n: int, slots: nat)
    requires Current(s, p)
    ensures var c := SetNodeSlots(p, n, slots);
            if n in s.nodes then Step(s, c) == Ok(Applied(s.(nodes := s.nodes[n := s.nodes[n].(slots := slots)]), Unit))
            else Step(s, c) == Err(NodeEpochMismatch(n))
  {
  }

  /** A heartbeat adds one to the count of the node that sends it. */
  lemma HeartbeatCounts(s: State, p: Proposer)
    requires Current(s, p)
    ensures var n := s.nodes[p.nodeId];
            Step(s, Heartbeat(p)) == Ok(Applied(s.(nodes := s.nodes[p.nodeId := n.(heartbeats := n.heartbeats + 1)]), Unit))
  {
  }

  /** A fence lands exactly on a registered, unfenced node at the epoch named, if the node fences itself or its
      count is the one named; then it is fenced and nothing else changes. Otherwise it is redundant, or the
      node is not registered. */
  lemma FenceLandsIff(s: State, p: Proposer, n: int, epoch: int, heartbeats: nat)
    requires Current(s, p)
    ensures var r := Step(s, FenceNode(p, n, epoch, heartbeats));
            && (r.Ok? <==> n in s.nodes && !s.nodes[n].fenced && s.nodes[n].epoch == epoch
                           && (s.nodes[n].heartbeats == heartbeats || (p.nodeId == n && p.nodeEpoch == epoch)))
            && (r.Ok? ==> r.value == Applied(s.(nodes := s.nodes[n := s.nodes[n].(fenced := true)]), Unit))
            && (r.Err? ==> r.error == if n in s.nodes then Redundant else NodeEpochMismatch(n))
  {
  }

  // --------------------------------------------------------------- failover

  /** The command is no sign of life of the node, and no fence of it. */
  predicate SilentOn(c: Command, n: int) {
    && !(c.Heartbeat? && c.proposer.nodeId == n)
    && !(c.RegisterNode? && c.nodeId == n)
    && !(c.FenceNode? && c.nodeId == n)
  }

  lemma SilentStep(s: State, c: Command, n: int)
    requires n in s.nodes && SilentOn(c, n)
    ensures var t := Apply(s, c);
            n in t.nodes && t.nodes[n] == s.nodes[n].(slots := t.nodes[n].slots)
  {
    if Step(s, c).Ok? && !c.RegisterNode? && !IsNodeCommand(c) { StepFrame(s, c); }
  }

  lemma {:induction false} SilentRun(s: State, cs: seq<Command>, n: int)
    requires n in s.nodes && forall i :: 0 <= i < |cs| ==> SilentOn(cs[i], n)
    ensures var t := Run(s, cs);
            n in t.nodes && t.nodes[n] == s.nodes[n].(slots := t.nodes[n].slots)
    decreases |cs|
  {
    if cs != [] {
      SilentStep(s, cs[0], n);
      SilentRun(Apply(s, cs[0]), cs[1..], n);
    }
  }

  /** A node observed live, and silent since, is fenced by any other node that is current: the fence naming
      what was observed lands after whatever else has happened. */
  lemma SilentNodeIsFenced(s: State, cs: seq<Command>, n: int, p: Proposer)
    requires LiveNode(s, n) && forall i :: 0 <= i < |cs| ==> SilentOn(cs[i], n)
    requires Current(Run(s, cs), p)
    ensures var t := Run(s, cs);
            var fence := FenceNode(p, n, s.nodes[n].epoch, s.nodes[n].heartbeats);
            && Step(t, fence).Ok? && n in t.nodes
            && Apply(t, fence) == t.(nodes := t.nodes[n := t.nodes[n].(fenced := true)])
  {
    SilentRun(s, cs, n);
    var seen := s.nodes[n];
    FenceLandsIff(Run(s, cs), p, n, seen.epoch, seen.heartbeats);
  }

  /** And then each of its streams is closed, placed and opened one epoch up by that other node. */
  lemma SilentOwnerFailsOver(s: State, cs: seq<Command>, n: int, p: Proposer, id: nat)
    requires LiveNode(s, n) && forall i :: 0 <= i < |cs| ==> SilentOn(cs[i], n)
    requires Current(Run(s, cs), p) && p.nodeId != n && Run(s, cs).nodes[p.nodeId].slots >= 1
    requires id in Run(s, cs).streams && Run(s, cs).streams[id].nodeId == n
    ensures var t := Run(s, cs);
            var st := t.streams[id];
            var fence := FenceNode(p, n, s.nodes[n].epoch, s.nodes[n].heartbeats);
            var u := Run(Apply(t, fence), [CloseStream(p, id, st.epoch), PlaceStream(p, id, Some(p.nodeId)), OpenStream(p, id, st.epoch + 1)]);
            && Step(t, fence).Ok? && id in u.streams
            && u.streams[id] == Stream(st.epoch + 1, st.startOffset, st.endOffset, Opened, p.nodeId)
  {
    var t := Run(s, cs);
    var fence := FenceNode(p, n, s.nodes[n].epoch, s.nodes[n].heartbeats);
    SilentNodeIsFenced(s, cs, n, p);
    FailoverSucceeds(Apply(t, fence), id, p);
  }
}

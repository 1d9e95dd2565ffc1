/** Placement: the least loaded node is the lexicographic minimum of (score, id), and choosing it keeps
    the nodes' loads within one stream of each other by score. */
module Placement {
  import opened Prelude
  import opened MetadataTypes
  import opened Metadata
  import opened Frames
  import opened Ownership

  function Load(s: State, n: int): nat {
    |StreamsOn(s.streams, n)|
  }

  ghost predicate Beats(s: State, n: int, m: int)
    requires Eligible(s, n) && Eligible(s, m)
  {
    Score(s, n) < Score(s, m) || (Score(s, n) == Score(s, m) && n <= m)
  }

  lemma {:induction false} BestExists(s: State, ns: set<int>, x: int)
    requires x in ns && forall n :: n in ns ==> Eligible(s, n)
    ensures exists n :: n in ns && forall m :: m in ns ==> Beats(s, n, m)
    decreases |ns|
  {
    var rest := ns - {x};
    if z :| z in rest {
      BestExists(s, rest, z);
      var y :| y in rest && forall m :: m in rest ==> Beats(s, y, m);
      var best := if Beats(s, x, y) then x else y;
      forall m | m in ns ensures Beats(s, best, m) {
        if m != x { assert m in rest; assert Beats(s, y, m); }
      }
    } else {
      assert forall m :: m in ns ==> m == x || m in rest;
      assert Beats(s, x, x);
    }
  }

  /** There is a least loaded node exactly when some node is live with slots, and then it is the one
      and only minimum. */
  lemma LeastLoadedIsMinimum(s: State)
    ensures LeastLoaded(s).Some? <==> exists n :: Eligible(s, n)
    ensures LeastLoaded(s).Some? ==> IsLeastLoaded(s, LeastLoaded(s).value)
    ensures forall n :: IsLeastLoaded(s, n) ==> LeastLoaded(s) == Some(n)
  {
    var ns := set n | n in s.nodes && Eligible(s, n);
    if n :| Eligible(s, n) {
      assert n in ns;
      BestExists(s, ns, n);
      var best :| best in ns && forall m :: m in ns ==> Beats(s, best, m);
      assert forall m :: Eligible(s, m) ==> m in ns;
      assert IsLeastLoaded(s, best);
    }
    forall a, b | IsLeastLoaded(s, a) && IsLeastLoaded(s, b) ensures a == b {
      assert Eligible(s, a) && Eligible(s, b);
    }
  }

  /** `winner` is the best of the eligible nodes listed, if there is one. */
  ghost predicate BestAmong(s: State, ns: seq<int>, winner: Option<int>) {
    && (winner.Some? ==> Eligible(s, winner.value))
    && forall i :: 0 <= i < |ns| && Eligible(s, ns[i]) ==> winner.Some? && Beats(s, winner.value, ns[i])
  }

  /** The node is eligible and scores lower than the winner so far, or as low with a lower id. */
  ghost predicate Improves(s: State, winner: Option<int>, n: int)
    requires winner.Some? ==> Eligible(s, winner.value)
  {
    Eligible(s, n) && (winner.None? || Score(s, n) < Score(s, winner.value)
                       || (Score(s, n) == Score(s, winner.value) && n < winner.value))
  }

  /** One more node: it replaces the winner when it beats it. */
  lemma BestAmongNext(s: State, ns: seq<int>, winner: Option<int>, n: int, next: Option<int>)
    requires BestAmong(s, ns, winner)
    requires next == if Improves(s, winner, n) then Some(n) else winner
    ensures BestAmong(s, ns + [n], next)
  {
    forall i | 0 <= i < |ns + [n]| && Eligible(s, (ns + [n])[i])
      ensures next.Some? && Beats(s, next.value, (ns + [n])[i])
    {
      if i < |ns| { assert Beats(s, winner.value, ns[i]); }
    }
  }

  lemma BestAmongPrefix(s: State, order: seq<int>, i: nat, winner: Option<int>, next: Option<int>)
    requires i < |order| && BestAmong(s, order[..i], winner)
    requires next == if Improves(s, winner, order[i]) then Some(order[i]) else winner
    ensures BestAmong(s, order[..i + 1], next)
  {
    BestAmongNext(s, order[..i], winner, order[i], next);
    assert order[..i + 1] == order[..i] + [order[i]];
  }

  lemma BestOfAll(s: State, ns: seq<int>, winner: Option<int>)
    requires BestAmong(s, ns, winner) && forall n :: n in s.nodes ==> n in ns
    ensures winner == LeastLoaded(s)
  {
    LeastLoadedIsMinimum(s);
    forall m | Eligible(s, m) ensures winner.Some? && Beats(s, winner.value, m) {
      assert m in ns;
    }
    if winner.Some? { assert IsLeastLoaded(s, winner.value); }
  }

  // --------------------------------------------------------------- fairness

  /** No eligible node got its last stream while another would have scored lower. */
  ghost predicate Fair(s: State) {
    forall i, j :: Eligible(s, i) && Eligible(s, j) && Load(s, j) > 0 ==>
      (Load(s, j) - 1) * 1000 / s.nodes[j].slots <= Load(s, i) * 1000 / s.nodes[i].slots
  }

  lemma DivisionIsMonotone(a: nat, b: nat, d: nat)
    requires a <= b && d > 0
    ensures a / d <= b / d
  {
    var p, q := a / d, b / d;
    assert a == d * p + a % d && b == d * q + b % d;
    if q < p {
      NextMultiple(d, q, p);
      assert false;
    }
  }

  lemma NextMultiple(d: nat, q: nat, p: nat)
    requires q < p
    ensures d * q + d <= d * p
  {
    assert d * p == d * q + d + d * (p - q - 1);
  }

  /** The effect of a placement on every live node's load. */
  lemma PlacementLoads(s: State, id: nat, n: int, m: int)
    requires id in s.streams && s.streams[id].state.Closed? && !LiveNode(s, s.streams[id].nodeId)
    requires LiveNode(s, n) && LiveNode(s, m)
    ensures var t := WithStream(s, id, s.streams[id].(nodeId := n));
            Load(t, m) == Load(s, m) + (if m == n && n != -1 then 1 else 0)
  {
    var t := WithStream(s, id, s.streams[id].(nodeId := n));
    if m == n && n != -1 {
      assert StreamsOn(t.streams, m) == StreamsOn(s.streams, m) + {id};
    } else {
      assert StreamsOn(t.streams, m) == StreamsOn(s.streams, m);
    }
  }

  lemma PlacementKeepsFair(s: State, id: nat)
    requires Fair(s) && PlaceStreamStep(s, id, None).Ok?
    ensures Fair(PlaceStreamStep(s, id, None).value.state)
  {
    var st := s.streams[id];
    var t := PlaceStreamStep(s, id, None).value.state;
    if st.state.Closed? && !LiveNode(s, st.nodeId) {
      LeastLoadedIsMinimum(s);
      var n := LeastLoaded(s).value;
      assert t == WithStream(s, id, st.(nodeId := n));
      forall i, j | Eligible(t, i) && Eligible(t, j) && Load(t, j) > 0
        ensures (Load(t, j) - 1) * 1000 / t.nodes[j].slots <= Load(t, i) * 1000 / t.nodes[i].slots
      {
        PlacementLoads(s, id, n, i);
        PlacementLoads(s, id, n, j);
        DivisionIsMonotone(Load(s, i) * 1000, Load(t, i) * 1000, s.nodes[i].slots);
        if Load(t, j) > Load(s, j) {
          assert j == n && Score(s, n) <= Score(s, i);
        } else {
          assert (Load(s, j) - 1) * 1000 / s.nodes[j].slots <= Load(s, i) * 1000 / s.nodes[i].slots;
        }
      }
    }
  }

  /** A command that moves no stream to another node and changes no node's slots. A stream a live node
      opens or closes counts as its load before and after. */
  ghost predicate LeavesLoads(s: State, c: Command) {
    if c.OpenStream? || c.CloseStream? then
      c.streamId in s.streams ==>
        s.streams[c.streamId].nodeId != -1 && (c.OpenStream? ==> s.streams[c.streamId].nodeId == c.proposer.nodeId)
    else
      && !c.RegisterNode? && !c.SetNodeSlots? && !c.FenceNode?
      && !c.PlaceStream? && !c.DeleteStream? && !c.CompleteTransfer?
  }

  /** Every stream loads the node it did, and new ones load none. */
  ghost predicate SamePlaces(a: map<nat, Stream>, b: map<nat, Stream>) {
    && a.Keys <= b.Keys
    && (forall id :: id in a ==> b[id].nodeId == a[id].nodeId && (a[id].nodeId == -1 ==> b[id].state == a[id].state))
    && (forall id :: id in b && id !in a ==> b[id] == NewStream)
  }

  lemma SamePlacesSameLoad(a: map<nat, Stream>, b: map<nat, Stream>, n: int)
    requires SamePlaces(a, b)
    ensures StreamsOn(a, n) == StreamsOn(b, n)
  {
  }

  lemma CreationKeepsPlaces(s: State, c: Command)
    requires IdsAllocated(s) && (c.CreateStream? || c.CreateStreams?) && StreamTransition(s, c).Ok?
    ensures SamePlaces(s.streams, StreamTransition(s, c).value.state.streams)
  {
  }

  lemma OpenKeepsPlaces(s: State, c: Command)
    requires (c.OpenStream? || c.CloseStream?) && StreamTransition(s, c).Ok? && LeavesLoads(s, c)
    ensures SamePlaces(s.streams, StreamTransition(s, c).value.state.streams)
  {
  }

  lemma StreamTransitionKeepsPlaces(s: State, c: Command)
    requires IdsAllocated(s) && IsStreamCommand(c) && StreamTransition(s, c).Ok? && LeavesLoads(s, c)
    ensures SamePlaces(s.streams, StreamTransition(s, c).value.state.streams)
  {
    if c.CreateStream? || c.CreateStreams? { CreationKeepsPlaces(s, c); }
    else if c.OpenStream? || c.CloseStream? { OpenKeepsPlaces(s, c); }
  }

  /** The same nodes are eligible, with the slots they had. */
  ghost predicate SameSlots(s: State, t: State) {
    forall n :: (Eligible(s, n) <==> Eligible(t, n)) && (Eligible(s, n) ==> t.nodes[n].slots == s.nodes[n].slots)
  }

  lemma SamePlacesKeepFair(s: State, t: State)
    requires Fair(s) && SamePlaces(s.streams, t.streams) && SameSlots(s, t)
    ensures Fair(t)
  {
    forall n ensures Load(t, n) == Load(s, n) { SamePlacesSameLoad(s.streams, t.streams, n); }
  }

  lemma HeartbeatKeepsSlots(s: State, c: Command)
    requires c.Heartbeat? && Step(s, c).Ok?
    ensures SameSlots(s, Apply(s, c))
  {
  }

  lemma LeavesLoadsKeepsFair(s: State, c: Command)
    requires Fair(s) && IdsAllocated(s) && Step(s, c).Ok? && LeavesLoads(s, c)
    ensures Fair(Apply(s, c)) && SameSlots(s, Apply(s, c))
  {
    var t := Apply(s, c);
    StepFrame(s, c);
    if c.Heartbeat? { HeartbeatKeepsSlots(s, c); }
    else if IsStreamCommand(c) { StreamTransitionKeepsPlaces(s, c); }
    else if IsObjectCommand(c) { ObjectFrame(s, c); }
    SamePlacesKeepFair(s, t);
  }

  /** What is accepted along the run is an unrequested placement or leaves loads alone. */
  ghost predicate PlacingRun(s: State, cs: seq<Command>)
    decreases |cs|
  {
    cs == [] ||
    (&& (Step(s, cs[0]).Ok? ==> (cs[0].PlaceStream? && cs[0].requested == None) || LeavesLoads(s, cs[0]))
     && PlacingRun(Apply(s, cs[0]), cs[1..]))
  }

  lemma StepStaysFair(s: State, c: Command)
    requires Fair(s) && IdsAllocated(s) && ((c.PlaceStream? && c.requested == None) || LeavesLoads(s, c)) && Step(s, c).Ok?
    ensures Fair(Apply(s, c)) && SameSlots(s, Apply(s, c))
  {
    if c.PlaceStream? {
      PlacementKeepsFair(s, c.streamId);
      StepFrame(s, c);
    } else {
      LeavesLoadsKeepsFair(s, c);
    }
  }

  /** Over any run of unrequested placements, with other traffic between them, every eligible node's score
      before its last stream stays at most any other's score. */
  lemma {:induction false} PlacementsStayFair(s: State, cs: seq<Command>)
    requires Fair(s) && IdsAllocated(s) && PlacingRun(s, cs)
    ensures Fair(Run(s, cs)) && SameSlots(s, Run(s, cs))
    decreases |cs|
  {
    if cs != [] {
      StepEvolves(s, cs[0]);
      if Step(s, cs[0]).Ok? { StepStaysFair(s, cs[0]); }
      PlacementsStayFair(Apply(s, cs[0]), cs[1..]);
    }
  }

  lemma PlacementFromEmptyIsFair(s: State, cs: seq<Command>, i: int, j: int)
    requires IdsAllocated(s) && PlacingRun(s, cs) && forall n :: Eligible(s, n) ==> Load(s, n) == 0
    requires Eligible(s, i) && Eligible(s, j) && Load(Run(s, cs), j) > 0
    ensures var t := Run(s, cs);
            (Load(t, j) - 1) * 1000 / s.nodes[j].slots <= Load(t, i) * 1000 / s.nodes[i].slots
  {
    PlacementsStayFair(s, cs);
  }
}

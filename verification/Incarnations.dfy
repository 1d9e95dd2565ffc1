/** Node incarnations: a fenced or superseded one never acts again, and a stale observation of
    heartbeats never fences. */
module Incarnations {
  import opened Prelude
  import opened MetadataTypes
  import opened Metadata
  import opened Frames

  /** The incarnation was registered and has since been fenced or superseded. */
  ghost predicate Dead(s: State, p: Proposer) {
    && p.nodeId in s.nodes
    && (p.nodeEpoch < s.nodes[p.nodeId].epoch || (p.nodeEpoch == s.nodes[p.nodeId].epoch && s.nodes[p.nodeId].fenced))
  }

  ghost predicate NodesEvolve(s: State, t: State) {
    forall n :: n in s.nodes ==>
      && n in t.nodes
      && s.nodes[n].epoch <= t.nodes[n].epoch
      && s.nodes[n].heartbeats <= t.nodes[n].heartbeats
      && (s.nodes[n].fenced && s.nodes[n].epoch == t.nodes[n].epoch ==> t.nodes[n].fenced)
  }

  lemma StepNodesEvolve(s: State, c: Command)
    ensures NodesEvolve(s, Apply(s, c))
  {
    if Step(s, c).Ok? && !c.RegisterNode? && !IsNodeCommand(c) { StepFrame(s, c); }
  }

  lemma {:induction false} RunNodesEvolve(s: State, cs: seq<Command>)
    ensures NodesEvolve(s, Run(s, cs))
    decreases |cs|
  {
    if cs != [] {
      StepNodesEvolve(s, cs[0]);
      RunNodesEvolve(Apply(s, cs[0]), cs[1..]);
    }
  }

  /** Once an incarnation is fenced or superseded, no command it proposes succeeds, whatever runs next. */
  lemma DeadStaysDead(s: State, cs: seq<Command>, c: Command)
    requires !c.RegisterNode? && Dead(s, c.proposer)
    ensures Dead(Run(s, cs), c.proposer)
    ensures Step(Run(s, cs), c) == Err(NodeEpochMismatch(c.proposer.nodeId))
    ensures Apply(Run(s, cs), c) == Run(s, cs)
  {
    RunNodesEvolve(s, cs);
  }

  /** Registering supersedes whatever incarnation of the node there was, and makes the new one live. */
  lemma RegistrationSupersedes(s: State, c: Command, prior: Proposer)
    requires c.RegisterNode? && c.nodeId in s.nodes && prior == Proposer(c.nodeId, s.nodes[c.nodeId].epoch)
    ensures Dead(Apply(s, c), prior)
    ensures Live(Apply(s, c), Proposer(c.nodeId, Apply(s, c).nodes[c.nodeId].epoch))
  {
  }

  /** Along any run, each registration of a node is assigned a strictly higher epoch than the last. */
  lemma AssignedEpochsIncrease(s: State, cs: seq<Command>, i: nat, j: nat)
    requires i < j < |cs| && cs[i].RegisterNode? && cs[j].RegisterNode? && cs[i].nodeId == cs[j].nodeId
    ensures var n := cs[i].nodeId;
            var a := Run(s, cs[..i + 1]);
            var b := Run(s, cs[..j + 1]);
            n in a.nodes && n in b.nodes && a.nodes[n].epoch < b.nodes[n].epoch
  {
    var n := cs[i].nodeId;
    var a := Run(s, cs[..i + 1]);
    assert cs[..i + 1] == cs[..i] + [cs[i]];
    RunConcat(s, cs[..i], [cs[i]]);
    assert a == Apply(Run(s, cs[..i]), cs[i]) by { assert [cs[i]][1..] == []; }
    assert cs[..j] == cs[..i + 1] + cs[i + 1..j];
    RunConcat(s, cs[..i + 1], cs[i + 1..j]);
    RunNodesEvolve(a, cs[i + 1..j]);
    assert cs[..j + 1] == cs[..j] + [cs[j]];
    RunConcat(s, cs[..j], [cs[j]]);
    assert Run(s, cs[..j + 1]) == Apply(Run(s, cs[..j]), cs[j]) by { assert [cs[j]][1..] == []; }
  }

  /** A fence proposed by anyone but the node itself, naming a count seen before a heartbeat that was
      applied, is refused in every later state. */
  lemma StaleFenceNeverLands(s: State, beat: Command, cs: seq<Command>, fence: Command)
    requires beat.Heartbeat? && Step(s, beat).Ok?
    requires fence.FenceNode? && fence.nodeId == beat.proposer.nodeId
    requires fence.heartbeats <= s.nodes[fence.nodeId].heartbeats
    requires fence.proposer != Proposer(fence.nodeId, fence.nodeEpoch)
    ensures Step(Run(Apply(s, beat), cs), fence).Err?
  {
    RunNodesEvolve(Apply(s, beat), cs);
  }

  /** A node leaving fences itself whatever heartbeats landed. */
  lemma LeavingAlwaysLands(s: State, p: Proposer, heartbeats: nat)
    requires Live(s, p)
    ensures Step(s, FenceNode(p, p.nodeId, p.nodeEpoch, heartbeats)).Ok?
    ensures Dead(Apply(s, FenceNode(p, p.nodeId, p.nodeEpoch, heartbeats)), p)
  {
  }
}

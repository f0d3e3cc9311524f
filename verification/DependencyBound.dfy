/** From the instructions of a loop body to its dependency bound. */
module DependencyBound {
  import opened LatencyGraph
  import opened AbstractValues
  import opened LatencyGraphSpec
  import opened LatencyGraphBuilder
  import opened MaximumLatency
  import opened CycleEnumeration

  /** Along a walk no iteration boundary is crossed only if the walk goes strictly forward in the program. */
  lemma {:induction false} TimelessWalkGoesForward(instrs: seq<Instr>, w: seq<Edge>)
    requires w != [] && IsWalk(w) && forall i :: 0 <= i < |w| ==> SoundEdge(instrs, w[i])
    ensures Time(w) >= 0
    ensures Time(w) == 0 ==> w[0].source.instr < w[|w| - 1].target.instr
  {
    var v := w[..|w| - 1];
    if v != [] {
      TimelessWalkGoesForward(instrs, v);
      assert v[|v| - 1].target == w[|w| - 1].source;
    }
  }

  /** The edges of the latency graph of a loop. */
  ghost function LoopEdges(x: Loop): iset<Edge> {
    iset e | IsLoopEdge(x, e)
  }

  lemma GraphEdges(x: Loop, g: Graph)
    requires IsLatencyGraph(x, g)
    ensures AllEdges(g) == LoopEdges(x) && WellFiled(g)
    ensures forall nodes :: (forall e :: e in LoopEdges(x) ==> e.source in nodes && e.target in nodes) ==>
              Covers(nodes, g)
  {}

  /** Every cycle of the latency graph takes at least one iteration. */
  lemma LoopTakesTime(x: Loop)
    ensures PositiveTimes(LoopEdges(x))
  {
    hide IsLoopEdge, SoundEdge;
    forall w | Closed(w) && Over(w, LoopEdges(x))
      ensures Time(w) > 0
    {
      forall i | 0 <= i < |w|
        ensures SoundEdge(x.instrs, w[i])
      {
        LoopEdgesSound(x, w[i]);
      }
      TimelessWalkGoesForward(x.instrs, w);
    }
  }

  /** The nodes of all instructions, in program order. */
  function Flatten(nodesForInstr: seq<seq<Node>>): seq<Node> {
    if nodesForInstr == [] then []
    else Flatten(nodesForInstr[..|nodesForInstr| - 1]) + nodesForInstr[|nodesForInstr| - 1]
  }

  lemma {:induction false} Flattened(nodesForInstr: seq<seq<Node>>, i: nat, n: Node)
    requires i < |nodesForInstr| && n in nodesForInstr[i]
    ensures n in Flatten(nodesForInstr)
  {
    if i < |nodesForInstr| - 1 {
      Flattened(nodesForInstr[..|nodesForInstr| - 1], i, n);
    }
  }

  lemma NodesCover(x: Loop, nodesForInstr: seq<seq<Node>>)
    requires |nodesForInstr| == |x.instrs|
    requires forall i :: 0 <= i < |x.instrs| ==> nodesForInstr[i] == NodesOf(i, x.instrs[i].inputs)
    ensures forall e :: e in LoopEdges(x) ==> e.source in Flatten(nodesForInstr) && e.target in Flatten(nodesForInstr)
  {
    hide IsLoopEdge;
    forall e | e in LoopEdges(x)
      ensures e.source in Flatten(nodesForInstr) && e.target in Flatten(nodesForInstr)
    {
      LoopEdgesSound(x, e);
      InputIsNode(x.instrs, nodesForInstr, e.source);
      InputIsNode(x.instrs, nodesForInstr, e.target);
    }
  }

  lemma InputIsNode(instrs: seq<Instr>, nodesForInstr: seq<seq<Node>>, n: Node)
    requires |nodesForInstr| == |instrs| && n.instr < |instrs| && n.operand in instrs[n.instr].inputs
    requires nodesForInstr[n.instr] == NodesOf(n.instr, instrs[n.instr].inputs)
    ensures n in Flatten(nodesForInstr)
  {
    var k :| 0 <= k < |instrs[n.instr].inputs| && instrs[n.instr].inputs[k] == n.operand;
    assert nodesForInstr[n.instr][k] == n;
    Flattened(nodesForInstr, n.instr, n);
  }

  /** How many operands the instructions read. */
  function OperandCount(instrs: seq<Instr>): nat {
    if instrs == [] then 0 else OperandCount(instrs[..|instrs| - 1]) + |instrs[|instrs| - 1].inputs|
  }

  lemma {:induction false} OneNodeEach(instrs: seq<Instr>, nodesForInstr: seq<seq<Node>>)
    requires |nodesForInstr| == |instrs|
    requires forall i :: 0 <= i < |instrs| ==> nodesForInstr[i] == NodesOf(i, instrs[i].inputs)
    ensures |Flatten(nodesForInstr)| == OperandCount(instrs)
  {
    if instrs != [] {
      var last := |instrs| - 1;
      OneNodeEach(instrs[..last], nodesForInstr[..last]);
    }
  }

  /** The exact dependency bound of a loop: no closed walk of its latency graph has a larger ratio of latency to
      iterations, and, unless it is zero, a closed walk attains it. */
  ghost predicate IsExactBound(x: Loop, ratio: real, walk: seq<Edge>) {
    AttainedIn(LoopEdges(x), ratio, walk) && MaximumRatio(LoopEdges(x), ratio)
  }

  /** A bound that no closed walk of the latency graph exceeds by more than a tolerance for each of its edges. */
  ghost predicate IsNearBound(x: Loop, ratio: real, walk: seq<Edge>, eps: real) {
    AttainedIn(LoopEdges(x), ratio, walk) && NearlyMaximumIn(LoopEdges(x), ratio, eps)
  }

  /** The exact dependency bound (`compute_maximum_latency_for_graph`). */
  method ExactBound(x: Loop) returns (ratio: real, walk: seq<Edge>)
    ensures IsExactBound(x, ratio, walk)
  {
    hide MaximumRatio, PositiveTimes, IsLatencyGraph, LoopEdges, AttainedIn;
    var nodesForInstr, g := GenerateLatencyGraph(x);
    NodesCover(x, nodesForInstr);
    GraphEdges(x, g);
    LoopTakesTime(x);
    ratio, walk := ComputeMaximumLatency(Flatten(nodesForInstr), g);
  }

  const EPS := 0.01

  /** The bound that policy iteration finds on the same graph (`computeMaximumLatencyForGraph`). */
  method ApproximateBound(x: Loop) returns (ratio: real, walk: seq<Edge>)
    ensures IsNearBound(x, ratio, walk, EPS)
  {
    hide MaximumRatio, PositiveTimes, IsLatencyGraph, LoopEdges, AttainedIn, NearlyMaximumIn;
    var nodesForInstr, g := GenerateLatencyGraph(x);
    NodesCover(x, nodesForInstr);
    GraphEdges(x, g);
    LoopTakesTime(x);
    CostsNotNegative(x, g);
    ratio, walk := ApproximateMaximumLatency(Flatten(nodesForInstr), g, EPS);
  }

  lemma CostsNotNegative(x: Loop, g: Graph)
    requires IsLatencyGraph(x, g)
    ensures NonNegativeCosts(g)
  {
    hide IsLoopEdge;
    forall e | IsEdge(g, e)
      ensures e.cost >= 0
    {
      LoopEdgesSound(x, e);
    }
  }

  /** The approximate bound never exceeds the exact one, and falls short of it by at most a tolerance for each operand
      that the loop reads. */
  lemma BoundsCompare(x: Loop, exact: real, walk: seq<Edge>, approximate: real, walk': seq<Edge>)
    requires IsExactBound(x, exact, walk) && IsNearBound(x, approximate, walk', EPS)
    ensures approximate <= exact <= approximate + OperandCount(x.instrs) as real * EPS
  {
    hide MaximumRatio, PositiveTimes, LoopEdges, AttainedIn, NearlyMaximumIn, Flatten;
    var nodesForInstr := seq(|x.instrs|, i requires 0 <= i < |x.instrs| => NodesOf(i, x.instrs[i].inputs));
    NodesCover(x, nodesForInstr);
    LoopTakesTime(x);
    OneNodeEach(x.instrs, nodesForInstr);
    BoundsAgree(Flatten(nodesForInstr), LoopEdges(x), exact, walk, approximate, walk', EPS);
  }

  /** There is only one exact bound. */
  lemma ExactBoundUnique(x: Loop, a: real, walk: seq<Edge>, b: real, walk': seq<Edge>)
    requires IsExactBound(x, a, walk) && IsExactBound(x, b, walk')
    ensures a == b
  {
    if walk != [] {
      BoundFromRatio(walk, b);
    }
    if walk' != [] {
      BoundFromRatio(walk', a);
    }
  }
}

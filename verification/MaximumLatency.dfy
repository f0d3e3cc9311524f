/** The dependency bound of a loop body: the largest ratio of latency to iterations over all cycles of its latency
    graph, exactly (`compute_maximum_latency_for_graph`) and within a tolerance (`computeMaximumLatencyForGraph`). */
module MaximumLatency {
  import opened LatencyGraph
  import opened Reachability
  import opened CycleEnumeration
  import RecursiveTarjan
  import ExplicitTarjan
  import PolicyIteration
  import PolicyEvaluation

  /** `nodes` lists both ends of every edge. */
  ghost predicate Covers(nodes: seq<Node>, g: Graph) {
    forall e :: IsEdge(g, e) ==> e.source in nodes && e.target in nodes
  }

  // Closed walks stay within one component

  lemma {:induction false} WalkReaches(g: Graph, w: seq<Edge>, i: nat, j: nat)
    requires IsWalk(w) && Over(w, AllEdges(g)) && i <= j < |w|
    ensures Reaches(g, w[i].source, w[j].source) && Reaches(g, w[j].source, w[j].target)
    decreases j
  {
    assert IsEdge(g, w[j]);
    assert Adjacent(g, w[j].source, w[j].target);
    ReachesStep(g, w[j].source, w[j].target);
    if i == j {
      ReachesSelf(g, w[i].source);
    } else {
      WalkReaches(g, w, i, j - 1);
      assert w[j - 1].target == w[j].source;
      ReachesTrans(g, w[i].source, w[j - 1].source, w[j].source);
    }
  }

  lemma ClosedWalkMutual(g: Graph, w: seq<Edge>, i: nat)
    requires Closed(w) && Over(w, AllEdges(g)) && i < |w|
    ensures Mutual(g, w[0].source, w[i].source) && Mutual(g, w[0].source, w[i].target)
  {
    hide Reaches;
    var last := |w| - 1;
    WalkReaches(g, w, 0, i);
    WalkReaches(g, w, i, last);
    ReachesTrans(g, w[i].source, w[last].source, w[0].source);
    ReachesTrans(g, w[0].source, w[i].source, w[i].target);
    if i < last {
      WalkReaches(g, w, i + 1, last);
      assert w[i].target == w[i + 1].source;
      ReachesTrans(g, w[i].target, w[last].source, w[0].source);
    } else {
      ReachesSelf(g, w[0].source);
    }
  }

  // The edges of a component

  function EdgesWithin(out: seq<Edge>, comp: seq<Node>): (r: seq<Edge>)
    ensures forall e :: e in r <==> e in out && e.target in comp
  {
    if out == [] then []
    else
      var rest, e := EdgesWithin(out[..|out| - 1], comp), out[|out| - 1];
      assert forall x :: x in out <==> x in out[..|out| - 1] || x == e;
      if e.target in comp then rest + [e] else rest
  }

  ghost predicate ComponentEdges(g: Graph, comp: seq<Node>, edges: seq<Edge>) {
    forall e :: e in edges <==> IsEdge(g, e) && e.source in comp && e.target in comp
  }

  /** The edges that leave and enter nodes of the component. */
  method CollectEdges(g: Graph, comp: seq<Node>) returns (edges: seq<Edge>)
    requires WellFiled(g)
    ensures ComponentEdges(g, comp, edges)
  {
    edges := [];
    for i := 0 to |comp|
      invariant forall e :: e in edges <==> IsEdge(g, e) && e.source in comp[..i] && e.target in comp
    {
      assert comp[..i + 1] == comp[..i] + [comp[i]];
      edges := edges + EdgesWithin(OutEdges(g, comp[i]), comp);
    }
    assert comp[..|comp|] == comp;
  }

  lemma ClosedWalkInComponent(g: Graph, w: seq<Edge>, comp: seq<Node>, edges: seq<Edge>)
    requires Closed(w) && Over(w, AllEdges(g)) && IsComponent(g, comp) && w[0].source in comp
    requires ComponentEdges(g, comp, edges)
    ensures Over(w, EdgeSet(edges))
  {
    hide Mutual;
    forall i | 0 <= i < |w|
      ensures w[i] in edges
    {
      ClosedWalkMutual(g, w, i);
      assert IsEdge(g, w[i]);
    }
  }

  lemma ComponentOf(g: Graph, components: seq<seq<Node>>, nodes: seq<Node>, n: Node) returns (k: nat)
    requires IsComponentPartition(g, components, ReachableFrom(g, nodes)) && n in nodes
    ensures k < |components| && n in components[k] && IsComponent(g, components[k])
  {
    ReachesSelf(g, n);
    assert ReachedFromRoots(g, nodes, n) && n in ReachableFrom(g, nodes);
    var c :| c in components && n in c;
    k :| 0 <= k < |components| && components[k] == c;
  }

  lemma SubsetPositive(g: Graph, comp: seq<Node>, edges: seq<Edge>)
    requires PositiveTimes(AllEdges(g)) && ComponentEdges(g, comp, edges)
    ensures PositiveTimes(EdgeSet(edges))
  {
    forall w: seq<Edge> | Closed(w) && Over(w, EdgeSet(edges))
      ensures Time(w) > 0
    {
      assert forall i :: 0 <= i < |w| ==> w[i] in edges;
      assert Over(w, AllEdges(g));
    }
  }

  /** A reported ratio is zero without a walk, or the ratio of a closed walk of the graph. */
  ghost predicate Reported(g: Graph, ratio: real, walk: seq<Edge>) {
    AttainedIn(AllEdges(g), ratio, walk)
  }

  ghost predicate AttainedIn(edges: iset<Edge>, ratio: real, walk: seq<Edge>) {
    && ratio >= 0.0
    && if walk == [] then ratio == 0.0
       else Closed(walk) && Over(walk, edges) && Time(walk) > 0 && ratio == Ratio(walk)
  }

  /** The closed walks through the components before `k` are bounded. */
  ghost predicate BoundedUpTo(g: Graph, components: seq<seq<Node>>, k: nat, ratio: real)
    requires k <= |components|
  {
    forall w: seq<Edge>, i :: Closed(w) && Over(w, AllEdges(g)) && 0 <= i < k && w[0].source in components[i] ==>
      BoundedBy(w, ratio)
  }

  lemma BoundNext(g: Graph, components: seq<seq<Node>>, k: nat, edges: seq<Edge>, before: real, cur: real,
                  ratio: real)
    requires k < |components| && IsComponent(g, components[k]) && ComponentEdges(g, components[k], edges)
    requires PositiveTimes(AllEdges(g)) && BoundedUpTo(g, components, k, before)
    requires edges == [] || MaximumRatio(EdgeSet(edges), cur)
    requires before <= ratio && (edges == [] || cur <= ratio)
    ensures BoundedUpTo(g, components, k + 1, ratio)
  {
    forall w: seq<Edge>, i | Closed(w) && Over(w, AllEdges(g)) && 0 <= i < k + 1 && w[0].source in components[i]
      ensures BoundedBy(w, ratio)
    {
      if i == k {
        ClosedWalkInComponent(g, w, components[k], edges);
        assert w[0] in edges;
        BoundGrows(w, cur, ratio);
      } else {
        BoundGrows(w, before, ratio);
      }
    }
  }

  lemma AllBounded(g: Graph, components: seq<seq<Node>>, nodes: seq<Node>, ratio: real)
    requires IsComponentPartition(g, components, ReachableFrom(g, nodes)) && Covers(nodes, g)
    requires BoundedUpTo(g, components, |components|, ratio)
    ensures MaximumRatio(AllEdges(g), ratio)
  {
    forall w: seq<Edge> | Closed(w) && Over(w, AllEdges(g))
      ensures BoundedBy(w, ratio)
    {
      assert IsEdge(g, w[0]);
      var k := ComponentOf(g, components, nodes, w[0].source);
    }
  }

  lemma PartReported(g: Graph, comp: seq<Node>, edges: seq<Edge>, ratio: real, walk: seq<Edge>)
    requires ComponentEdges(g, comp, edges) && Attained(ratio, walk, edges)
    ensures Reported(g, ratio, walk)
  {
    assert forall i :: 0 <= i < |walk| ==> walk[i] in EdgeSet(edges) && IsEdge(g, walk[i]);
  }

  /** The exact dependency bound. */
  method ComputeMaximumLatency(nodes: seq<Node>, g: Graph) returns (ratio: real, walk: seq<Edge>)
    requires WellFiled(g) && Covers(nodes, g)
    ensures Reported(g, ratio, walk)
    ensures PositiveTimes(AllEdges(g)) ==> MaximumRatio(AllEdges(g), ratio)
  {
    hide Reported, BoundedUpTo, IsComponentPartition, MaximumRatio, PositiveTimes, Attained, IsComponent,
         ComponentEdges, AllEdges;
    var components := RecursiveTarjan.FindStronglyConnectedComponents(nodes, g);
    ratio, walk := 0.0, [];
    NothingYet(g, components);
    for k := 0 to |components|
      invariant Reported(g, ratio, walk)
      invariant PositiveTimes(AllEdges(g)) ==> BoundedUpTo(g, components, k, ratio)
    {
      ghost var before := ratio;
      PartFacts(g, components, ReachableFrom(g, nodes), k);
      var edges := CollectEdges(g, components[k]);
      if edges == [] {
        if PositiveTimes(AllEdges(g)) {
          BoundNext(g, components, k, edges, before, ratio, ratio);
        }
        continue;
      }
      SourcesInside(g, components[k], edges);
      var cur, curWalk := MaximumCycleRatio(components[k], edges);
      if cur > ratio {
        PartReported(g, components[k], edges, cur, curWalk);
        ratio, walk := cur, curWalk;
      }
      if PositiveTimes(AllEdges(g)) {
        SubsetPositive(g, components[k], edges);
        BoundNext(g, components, k, edges, before, cur, ratio);
      }
    }
    if PositiveTimes(AllEdges(g)) {
      AllBounded(g, components, nodes, ratio);
    }
  }

  lemma NothingYet(g: Graph, components: seq<seq<Node>>)
    ensures Reported(g, 0.0, []) && BoundedUpTo(g, components, 0, 0.0)
  {}

  lemma PartFacts(g: Graph, components: seq<seq<Node>>, domain: iset<Node>, k: nat)
    requires IsComponentPartition(g, components, domain) && k < |components|
    ensures IsComponent(g, components[k])
  {}

  lemma SourcesInside(g: Graph, comp: seq<Node>, edges: seq<Edge>)
    requires ComponentEdges(g, comp, edges)
    ensures SourcesIn(edges, comp)
  {}

  // The approximate bound

  /** A path that leaves its first node goes on from the target of one of that node's edges. */
  lemma {:induction false} PathStarts(g: Graph, p: seq<Node>)
    requires IsPath(g, p) && |p| > 1
    ensures Adjacent(g, p[0], p[1]) && Reaches(g, p[1], p[|p| - 1])
  {
    if |p| == 2 {
      ReachesSelf(g, p[1]);
    } else {
      PathStarts(g, p[..|p| - 1]);
      ReachesStep(g, p[|p| - 2], p[|p| - 1]);
      ReachesTrans(g, p[1], p[|p| - 2], p[|p| - 1]);
    }
  }

  lemma FirstStep(g: Graph, x: Node, y: Node)
    requires Reaches(g, x, y) && x != y
    ensures exists e :: e in OutEdges(g, x) && Reaches(g, e.target, y)
  {
    var p :| PathBetween(g, p, x, y);
    PathStarts(g, p);
    var e :| e in OutEdges(g, p[0]) && e.target == p[1];
  }

  /** In a component with an edge, every node has one that stays inside. */
  lemma StaysInside(g: Graph, comp: seq<Node>, edges: seq<Edge>, n: Node)
    requires IsComponent(g, comp) && WellFiled(g) && ComponentEdges(g, comp, edges) && edges != [] && n in comp
    ensures PolicyIteration.HasOutEdge(edges, n)
  {
    hide Reaches;
    var first := edges[0];
    if first.source != n {
      FirstStep(g, n, first.source);
      var e :| e in OutEdges(g, n) && Reaches(g, e.target, first.source);
      ReachesStep(g, n, e.target);
      ReachesTrans(g, e.target, first.source, n);
      assert Mutual(g, n, e.target);
      assert IsEdge(g, e);
    }
  }

  lemma ComponentSpans(g: Graph, comp: seq<Node>, edges: seq<Edge>)
    requires IsComponent(g, comp) && WellFiled(g) && ComponentEdges(g, comp, edges) && edges != []
    ensures PolicyIteration.Spans(comp, edges)
  {
    hide Reaches, PolicyIteration.HasOutEdge;
    forall n | n in comp
      ensures PolicyIteration.HasOutEdge(edges, n)
    {
      StaysInside(g, comp, edges, n);
    }
  }

  ghost predicate NonNegativeCosts(g: Graph) {
    forall e :: IsEdge(g, e) ==> e.cost >= 0
  }

  /** No closed walk is better than `ratio` by more than a tolerance for each of its edges. */
  ghost predicate WithinEps(w: seq<Edge>, ratio: real, eps: real) {
    Cost(w) as real <= ratio * Time(w) as real + |w| as real * eps
  }

  ghost predicate NearlyMaximum(g: Graph, ratio: real, eps: real) {
    NearlyMaximumIn(AllEdges(g), ratio, eps)
  }

  ghost predicate NearlyMaximumIn(edges: iset<Edge>, ratio: real, eps: real) {
    forall w :: Closed(w) && Over(w, edges) ==> WithinEps(w, ratio, eps)
  }

  ghost predicate NearlyUpTo(g: Graph, components: seq<seq<Node>>, k: nat, ratio: real, eps: real)
    requires k <= |components|
  {
    forall w: seq<Edge>, i :: Closed(w) && Over(w, AllEdges(g)) && 0 <= i < k && w[0].source in components[i] ==>
      WithinEps(w, ratio, eps)
  }

  lemma WithinEpsGrows(w: seq<Edge>, a: real, b: real, eps: real)
    requires WithinEps(w, a, eps) && a <= b && Time(w) >= 0
    ensures WithinEps(w, b, eps)
  {
    assert a * Time(w) as real <= b * Time(w) as real;
  }

  lemma NearlyNext(g: Graph, components: seq<seq<Node>>, k: nat, edges: seq<Edge>, before: real, cur: real,
                   ratio: real, eps: real)
    requires k < |components| && IsComponent(g, components[k]) && ComponentEdges(g, components[k], edges)
    requires PositiveTimes(AllEdges(g)) && NearlyUpTo(g, components, k, before, eps)
    requires edges == [] || PolicyIteration.WithinTolerance(edges, cur, eps)
    requires before <= ratio && (edges == [] || cur <= ratio)
    ensures NearlyUpTo(g, components, k + 1, ratio, eps)
  {
    forall w: seq<Edge>, i | Closed(w) && Over(w, AllEdges(g)) && 0 <= i < k + 1 && w[0].source in components[i]
      ensures WithinEps(w, ratio, eps)
    {
      if i == k {
        ClosedWalkInComponent(g, w, components[k], edges);
        assert w[0] in edges;
        WithinEpsGrows(w, cur, ratio, eps);
      } else {
        WithinEpsGrows(w, before, ratio, eps);
      }
    }
  }

  lemma AllNearly(g: Graph, components: seq<seq<Node>>, nodes: seq<Node>, ratio: real, eps: real)
    requires IsComponentPartition(g, components, ReachableFrom(g, nodes)) && Covers(nodes, g)
    requires NearlyUpTo(g, components, |components|, ratio, eps)
    ensures NearlyMaximum(g, ratio, eps)
  {
    forall w: seq<Edge> | Closed(w) && Over(w, AllEdges(g))
      ensures WithinEps(w, ratio, eps)
    {
      assert IsEdge(g, w[0]);
      var k := ComponentOf(g, components, nodes, w[0].source);
    }
  }

  lemma NonNegativePart(g: Graph, comp: seq<Node>, edges: seq<Edge>)
    requires NonNegativeCosts(g) && ComponentEdges(g, comp, edges)
    ensures PolicyEvaluation.NonNegative(edges)
  {}

  lemma CycleReported(g: Graph, comp: seq<Node>, edges: seq<Edge>, ratio: real, cycle: seq<Edge>)
    requires ComponentEdges(g, comp, edges) && NonNegativeCosts(g)
    requires Closed(cycle) && Over(cycle, EdgeSet(edges)) && Time(cycle) > 0 && ratio == Ratio(cycle)
    ensures Reported(g, ratio, cycle)
  {
    assert forall i :: 0 <= i < |cycle| ==> cycle[i] in EdgeSet(edges) && IsEdge(g, cycle[i]);
    NonNegativePart(g, comp, edges);
    PolicyEvaluation.CostNonNegative(cycle, edges);
  }

  lemma NothingYetNearly(g: Graph, components: seq<seq<Node>>, eps: real)
    ensures Reported(g, 0.0, []) && NearlyUpTo(g, components, 0, 0.0, eps)
  {}

  /** The dependency bound up to a tolerance. */
  method ApproximateMaximumLatency(nodes: seq<Node>, g: Graph, eps: real) returns (ratio: real, walk: seq<Edge>)
    requires WellFiled(g) && Covers(nodes, g) && NonNegativeCosts(g) && PositiveTimes(AllEdges(g)) && eps > 0.0
    ensures Reported(g, ratio, walk) && NearlyMaximum(g, ratio, eps)
  {
    hide Reported, NearlyUpTo, IsComponentPartition, PositiveTimes, IsComponent, ComponentEdges, AllEdges,
         NearlyMaximum, PolicyIteration.WithinTolerance, NonNegativeCosts, PolicyIteration.Spans, Closed, Over;
    var components := ExplicitTarjan.FindStronglyConnectedComponents(nodes, g);
    ratio, walk := 0.0, [];
    NothingYetNearly(g, components, eps);
    for k := 0 to |components|
      invariant Reported(g, ratio, walk) && NearlyUpTo(g, components, k, ratio, eps)
    {
      ghost var before := ratio;
      PartFacts(g, components, ReachableFrom(g, nodes), k);
      var edges := CollectEdges(g, components[k]);
      if edges == [] {
        NearlyNext(g, components, k, edges, before, ratio, ratio, eps);
        continue;
      }
      ComponentSpans(g, components[k], edges);
      NonNegativePart(g, components[k], edges);
      SubsetPositive(g, components[k], edges);
      var cur, curWalk := PolicyIteration.MaximumCycleRatio(components[k], edges, eps);
      if cur > ratio {
        CycleReported(g, components[k], edges, cur, curWalk);
        ratio, walk := cur, curWalk;
      }
      NearlyNext(g, components, k, edges, before, cur, ratio, eps);
    }
    AllNearly(g, components, nodes, ratio, eps);
  }

  // The two bounds compared

  lemma CycleWithin(c: seq<Edge>, nodes: seq<Node>, edges: iset<Edge>, approximate: real, eps: real)
    requires Cycle(c) && Over(c, edges) && (forall e :: e in edges ==> e.source in nodes)
    requires PositiveTimes(edges) && eps > 0.0 && WithinEps(c, approximate, eps)
    ensures BoundedBy(c, approximate + |nodes| as real * eps)
  {
    DistinctSourcesFit(c, NodeSet(nodes));
    NodeSetSize(nodes);
    ToleranceBound(Cost(c) as real, approximate, |c| as real, |nodes| as real, Time(c) as real, eps);
  }

  lemma ToleranceBound(cost: real, a: real, k: real, n: real, t: real, eps: real)
    requires cost <= a * t + k * eps && 0.0 <= k <= n && t >= 1.0 && eps > 0.0
    ensures cost <= (a + n * eps) * t
  {
    var m := n * eps;
    assert k * eps <= m;
    assert m >= 0.0;
    ScaleUp(m, t);
    SumScaled(a, m, t);
  }

  lemma ScaleUp(m: real, t: real)
    requires m >= 0.0 && t >= 1.0
    ensures m <= m * t
  {}

  lemma SumScaled(a: real, m: real, t: real)
    ensures (a + m) * t == a * t + m * t
  {}

  /** The approximate bound never exceeds the exact one and falls short of it by at most a tolerance for each node. */
  lemma BoundsAgree(nodes: seq<Node>, edges: iset<Edge>, exact: real, walk: seq<Edge>, approximate: real,
                    walk': seq<Edge>, eps: real)
    requires (forall e :: e in edges ==> e.source in nodes) && PositiveTimes(edges) && eps > 0.0
    requires AttainedIn(edges, exact, walk) && MaximumRatio(edges, exact)
    requires AttainedIn(edges, approximate, walk') && NearlyMaximumIn(edges, approximate, eps)
    ensures approximate <= exact <= approximate + |nodes| as real * eps
  {
    if walk' != [] {
      assert BoundedBy(walk', exact);
      BoundFromRatio(walk', exact);
    }
    var bound := approximate + |nodes| as real * eps;
    assert bound >= 0.0;
    if walk != [] {
      forall c | Cycle(c) && Over(c, edges)
        ensures BoundedBy(c, bound)
      {
        CycleWithin(c, nodes, edges, approximate, eps);
      }
      CyclesDominate(walk, edges, bound);
      BoundFromRatio(walk, bound);
    }
  }
}

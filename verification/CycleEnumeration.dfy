/** The exact maximum cycle ratio of a component, by enumerating walks with an explicit stack
    (`maximum_cycle_ratio`). */
module CycleEnumeration {
  import opened LatencyGraph

  /** A walk from the start node and the node it has led to. */
  datatype Item = Item(node: Node, path: seq<Edge>, cost: int, time: int)

  ghost function EdgeSet(edges: seq<Edge>): iset<Edge> {
    iset e | e in edges
  }

  ghost predicate ValidItem(item: Item, start: Node, edges: seq<Edge>) {
    && IsWalk(item.path)
    && Over(item.path, EdgeSet(edges))
    && item.cost == Cost(item.path)
    && item.time == Time(item.path)
    && if item.path == [] then item.node == start
       else item.path[0].source == start && item.path[|item.path| - 1].target == item.node
  }

  ghost predicate ValidStack(stack: seq<Item>, start: Node, edges: seq<Edge>) {
    forall k :: 0 <= k < |stack| ==> ValidItem(stack[k], start, edges)
  }

  /** A cycle through `start` that the enumeration has to account for. */
  ghost predicate CycleFrom(c: seq<Edge>, start: Node, edges: seq<Edge>) {
    Cycle(c) && Over(c, EdgeSet(edges)) && c[0].source == start && Time(c) > 0
  }

  ghost predicate Begins(item: Item, c: seq<Edge>) {
    |item.path| < |c| && item.path == c[..|item.path|]
  }

  /** The cycle's ratio is at most `best`, or the stack holds a walk that can still grow into it. */
  ghost predicate Accounted(c: seq<Edge>, stack: seq<Item>, best: real) {
    BoundedBy(c, best) || exists k :: 0 <= k < |stack| && Begins(stack[k], c)
  }

  ghost predicate AllAccounted(stack: seq<Item>, best: real, start: Node, edges: seq<Edge>) {
    forall c :: CycleFrom(c, start, edges) ==> Accounted(c, stack, best)
  }

  /** What the enumeration reports: nothing, or a closed walk with the reported ratio. */
  ghost predicate Attained(best: real, bestEdges: seq<Edge>, edges: seq<Edge>) {
    && best >= 0.0
    && if bestEdges == [] then best == 0.0
       else Closed(bestEdges) && Over(bestEdges, EdgeSet(edges)) && Time(bestEdges) > 0 && best == Ratio(bestEdges)
  }

  // Termination: a walk weighs more than all its extensions by one edge together

  function Power(b: nat, e: nat): nat {
    if e == 0 then 1 else b * Power(b, e - 1)
  }

  function Weight(stack: seq<Item>, base: nat, limit: nat): nat {
    if stack == [] then 0
    else
      var len := |stack[|stack| - 1].path|;
      Weight(stack[..|stack| - 1], base, limit) + Power(base, if len <= limit then limit - len else 0)
  }

  lemma WeightPush(stack: seq<Item>, item: Item, base: nat, limit: nat)
    ensures Weight(stack + [item], base, limit) ==
            Weight(stack, base, limit) + Power(base, if |item.path| <= limit then limit - |item.path| else 0)
  {
    assert (stack + [item])[..|stack|] == stack;
  }

  lemma {:induction false} PowerPositive(b: nat, e: nat)
    requires b > 0
    ensures Power(b, e) > 0
  {
    if e > 0 {
      PowerPositive(b, e - 1);
    }
  }

  /** One walk more on the stack still leaves room for those of the remaining edges. */
  lemma ShareLeft(done: nat, degree: nat, share: nat)
    requires done < degree
    ensures (done + 1) * share == done * share + share && (done + 1) * share <= degree * share
  {}

  // The walk bound: a cycle of the component has at most as many edges as the component has nodes

  ghost function NodeSet(nodes: seq<Node>): set<Node> {
    set n | n in nodes
  }

  lemma {:induction false} NodeSetSize(nodes: seq<Node>)
    ensures |NodeSet(nodes)| <= |nodes|
  {
    if nodes != [] {
      NodeSetSize(nodes[..|nodes| - 1]);
      assert NodeSet(nodes) == NodeSet(nodes[..|nodes| - 1]) + {nodes[|nodes| - 1]};
    }
  }

  ghost predicate SourcesIn(edges: seq<Edge>, nodes: seq<Node>) {
    forall e :: e in edges ==> e.source in nodes
  }

  lemma CycleFits(c: seq<Edge>, edges: seq<Edge>, nodes: seq<Node>)
    requires Cycle(c) && Over(c, EdgeSet(edges)) && SourcesIn(edges, nodes)
    ensures |c| <= |nodes|
  {
    DistinctSourcesFit(c, NodeSet(nodes));
    NodeSetSize(nodes);
  }

  // Extending a walk by one edge

  function Extended(item: Item, e: Edge): Item {
    Item(e.target, item.path + [e], item.cost + e.cost, item.time + e.time)
  }

  lemma ExtendedValid(item: Item, e: Edge, start: Node, edges: seq<Edge>)
    requires ValidItem(item, start, edges) && e in edges && e.source == item.node
    ensures ValidItem(Extended(item, e), start, edges)
    ensures e.target == start ==> Closed(item.path + [e]) && Over(item.path + [e], EdgeSet(edges))
  {
    CostTimeSnoc(item.path, e);
    var p := item.path + [e];
    forall i | 0 <= i < |p| - 1
      ensures p[i].target == p[i + 1].source
    {
      if i == |p| - 2 {
        assert p[i] == item.path[|item.path| - 1];
      }
    }
  }

  /** The edge by which a cycle goes on after a walk that begins it. */
  lemma NextEdge(item: Item, c: seq<Edge>, start: Node, edges: seq<Edge>)
    requires ValidItem(item, start, edges) && CycleFrom(c, start, edges) && Begins(item, c)
    ensures var e := c[|item.path|];
            && e in edges && e.source == item.node
            && item.path + [e] == c[..|item.path| + 1]
            && (|item.path| + 1 == |c| ==> e.target == start && item.path + [e] == c)
            && (|item.path| + 1 < |c| ==>
                  e.target != start && forall k :: 0 <= k < |item.path| ==> item.path[k].source != e.target)
  {
    var n := |item.path|;
    var e := c[n];
    if n > 0 {
      assert item.path[n - 1] == c[n - 1];
      assert c[n - 1].target == c[n].source;
    }
    if n + 1 < |c| {
      assert c[n].target == c[n + 1].source;
      assert forall k :: 0 <= k < n ==> item.path[k] == c[k];
    } else {
      assert c[..n + 1] == c;
    }
  }

  predicate Visited(path: seq<Edge>, n: Node) {
    exists k :: 0 <= k < |path| && path[k].source == n
  }

  /** `c` is accounted for without the popped walk, or goes on by an edge that is still to be tried. */
  ghost predicate AccountedAfter(c: seq<Edge>, stack: seq<Item>, best: real, item: Item, edges: seq<Edge>, tried: nat)
    requires tried <= |edges|
  {
    Accounted(c, stack, best) || (Begins(item, c) && c[|item.path|] in edges[tried..])
  }

  ghost predicate AllAccountedAfter(stack: seq<Item>, best: real, item: Item, start: Node, edges: seq<Edge>, tried: nat)
    requires tried <= |edges|
  {
    forall c :: CycleFrom(c, start, edges) ==> AccountedAfter(c, stack, best, item, edges, tried)
  }

  lemma BoundGrows(c: seq<Edge>, a: real, b: real)
    requires BoundedBy(c, a) && a <= b && Time(c) >= 0
    ensures BoundedBy(c, b)
  {
    assert a * Time(c) as real <= b * Time(c) as real;
  }

  lemma AccountedKeeps(c: seq<Edge>, stack: seq<Item>, stack': seq<Item>, best: real, best': real)
    requires Accounted(c, stack, best) && best <= best' && stack <= stack' && Time(c) > 0
    ensures Accounted(c, stack', best')
  {
    if BoundedBy(c, best) {
      BoundGrows(c, best, best');
    } else {
      var k :| 0 <= k < |stack| && Begins(stack[k], c);
      assert stack'[k] == stack[k];
    }
  }

  /** After popping `item`, exactly the cycles it begins have to be looked after. */
  lemma PopAccounts(stack: seq<Item>, best: real, start: Node, edges: seq<Edge>)
    requires stack != [] && ValidStack(stack, start, edges) && AllAccounted(stack, best, start, edges)
    ensures AllAccountedAfter(stack[..|stack| - 1], best, stack[|stack| - 1], start, edges, 0)
  {
    var item, rest := stack[|stack| - 1], stack[..|stack| - 1];
    forall c | CycleFrom(c, start, edges)
      ensures AccountedAfter(c, rest, best, item, edges, 0)
    {
      assert Accounted(c, stack, best);
      if !BoundedBy(c, best) {
        var k :| 0 <= k < |stack| && Begins(stack[k], c);
        if k < |rest| {
          assert rest[k] == stack[k];
        } else {
          NextEdge(item, c, start, edges);
          assert edges[0..] == edges;
        }
      }
    }
  }

  /** The next walk and report of the loop body, for one edge. */
  lemma TryAccounts(stack: seq<Item>, best: real, stack': seq<Item>, best': real, item: Item, start: Node,
                    edges: seq<Edge>, i: nat)
    requires i < |edges| && ValidItem(item, start, edges)
    requires AllAccountedAfter(stack, best, item, start, edges, i)
    requires stack <= stack' && best <= best'
    requires var e := edges[i];
             e.source == item.node ==>
               if e.target == start && item.time + e.time > 0 then BoundedBy(item.path + [e], best')
               else !Visited(item.path, e.target) ==> stack' == stack + [Extended(item, e)]
    ensures AllAccountedAfter(stack', best', item, start, edges, i + 1)
  {
    forall c | CycleFrom(c, start, edges)
      ensures AccountedAfter(c, stack', best', item, edges, i + 1)
    {
      if Accounted(c, stack, best) {
        AccountedKeeps(c, stack, stack', best, best');
      } else {
        NextEdge(item, c, start, edges);
        var e := c[|item.path|];
        if e == edges[i] {
          CostTimeSnoc(item.path, e);
          if |item.path| + 1 < |c| {
            assert stack'[|stack|] == Extended(item, e);
            assert Begins(stack'[|stack|], c);
          }
        } else {
          assert edges[i..] == [edges[i]] + edges[i + 1..];
        }
      }
    }
  }

  /** A walk longer than the component has nodes begins no cycle. */
  lemma LongBeginsNothing(stack: seq<Item>, best: real, item: Item, start: Node, edges: seq<Edge>, nodes: seq<Node>)
    requires |item.path| > |nodes| && SourcesIn(edges, nodes)
    requires AllAccountedAfter(stack, best, item, start, edges, 0)
    ensures AllAccounted(stack, best, start, edges)
  {
    forall c | CycleFrom(c, start, edges)
      ensures Accounted(c, stack, best)
    {
      CycleFits(c, edges, nodes);
      assert AccountedAfter(c, stack, best, item, edges, 0);
    }
  }

  lemma AllTried(stack: seq<Item>, best: real, item: Item, start: Node, edges: seq<Edge>)
    requires AllAccountedAfter(stack, best, item, start, edges, |edges|)
    ensures AllAccounted(stack, best, start, edges)
  {
    assert edges[|edges|..] == [];
    forall c | CycleFrom(c, start, edges)
      ensures Accounted(c, stack, best)
    {
      assert AccountedAfter(c, stack, best, item, edges, |edges|);
    }
  }

  lemma PushValid(stack: seq<Item>, item: Item, start: Node, edges: seq<Edge>)
    requires ValidStack(stack, start, edges) && ValidItem(item, start, edges)
    ensures ValidStack(stack + [item], start, edges)
  {}

  lemma BetterAttained(item: Item, e: Edge, start: Node, edges: seq<Edge>, best: real)
    requires ValidItem(item, start, edges) && e in edges && e.source == item.node && e.target == start
    requires item.time + e.time > 0 && best >= 0.0
    requires (item.cost + e.cost) as real / (item.time + e.time) as real > best
    ensures Attained((item.cost + e.cost) as real / (item.time + e.time) as real, item.path + [e], edges)
    ensures BoundedBy(item.path + [e], (item.cost + e.cost) as real / (item.time + e.time) as real)
  {
    ExtendedValid(item, e, start, edges);
    CostTimeSnoc(item.path, e);
    BoundFromRatio(item.path + [e], (item.cost + e.cost) as real / (item.time + e.time) as real);
  }

  lemma NoBetter(item: Item, e: Edge, start: Node, edges: seq<Edge>, best: real)
    requires ValidItem(item, start, edges) && item.time + e.time > 0
    requires (item.cost + e.cost) as real / (item.time + e.time) as real <= best
    ensures BoundedBy(item.path + [e], best)
  {
    CostTimeSnoc(item.path, e);
    BoundFromRatio(item.path + [e], best);
  }

  /** Extends the popped walk by edge `i`, if that leaves from where the walk has led. */
  method TryEdge(item: Item, i: nat, stack0: seq<Item>, best0: real, bestEdges0: seq<Edge>, start: Node,
                 edges: seq<Edge>, ghost limit: nat)
    returns (stack: seq<Item>, best: real, bestEdges: seq<Edge>)
    requires i < |edges| && ValidItem(item, start, edges) && ValidStack(stack0, start, edges) && |item.path| < limit
    requires Attained(best0, bestEdges0, edges) && AllAccountedAfter(stack0, best0, item, start, edges, i)
    ensures ValidStack(stack, start, edges) && AllAccountedAfter(stack, best, item, start, edges, i + 1)
    ensures Attained(best, bestEdges, edges) && best0 <= best
    ensures Weight(stack, |edges| + 1, limit) <=
            Weight(stack0, |edges| + 1, limit) + Power(|edges| + 1, limit - |item.path| - 1)
  {
    hide ValidItem, ValidStack, Attained, AllAccountedAfter, AllAccounted, Weight, Power, BoundedBy;
    stack, best, bestEdges := stack0, best0, bestEdges0;
    var edge := edges[i];
    if edge.source == item.node {
      var nextPath := item.path + [edge];
      var nextCost := item.cost + edge.cost;
      var nextTime := item.time + edge.time;
      if edge.target == start && nextTime > 0 {
        var ratio := nextCost as real / nextTime as real;
        if ratio > best {
          AttainedNonNegative(best, bestEdges, edges);
          BetterAttained(item, edge, start, edges, best);
          best, bestEdges := ratio, nextPath;
        } else {
          NoBetter(item, edge, start, edges, best);
        }
      } else if !Visited(item.path, edge.target) {
        var next := Item(edge.target, nextPath, nextCost, nextTime);
        ExtendedValid(item, edge, start, edges);
        PushValid(stack, next, start, edges);
        WeightPush(stack, next, |edges| + 1, limit);
        stack := stack + [next];
      }
    }
    TryAccounts(stack0, best0, stack, best, item, start, edges, i);
  }

  /** Extends the popped walk by each edge that leaves it. */
  method Extend(item: Item, stack0: seq<Item>, best0: real, bestEdges0: seq<Edge>, start: Node, edges: seq<Edge>,
                ghost limit: nat)
    returns (stack: seq<Item>, best: real, bestEdges: seq<Edge>)
    requires ValidItem(item, start, edges) && ValidStack(stack0, start, edges) && |item.path| < limit
    requires Attained(best0, bestEdges0, edges) && AllAccountedAfter(stack0, best0, item, start, edges, 0)
    ensures ValidStack(stack, start, edges) && AllAccounted(stack, best, start, edges)
    ensures Attained(best, bestEdges, edges) && best0 <= best
    ensures Weight(stack, |edges| + 1, limit) <
            Weight(stack0, |edges| + 1, limit) + Power(|edges| + 1, limit - |item.path|)
  {
    hide ValidItem, ValidStack, Attained, AllAccountedAfter, AllAccounted, Weight, Power, BoundedBy;
    stack, best, bestEdges := stack0, best0, bestEdges0;
    ghost var share := Power(|edges| + 1, limit - |item.path| - 1);
    for i := 0 to |edges|
      invariant ValidStack(stack, start, edges)
      invariant Attained(best, bestEdges, edges) && best0 <= best
      invariant AllAccountedAfter(stack, best, item, start, edges, i)
      invariant Weight(stack, |edges| + 1, limit) <= Weight(stack0, |edges| + 1, limit) + i * share
    {
      ShareLeft(i, |edges|, share);
      stack, best, bestEdges := TryEdge(item, i, stack, best, bestEdges, start, edges, limit);
    }
    AllTried(stack, best, item, start, edges);
    PowerSplit(|edges|, limit - |item.path|);
  }

  lemma AttainedNonNegative(best: real, bestEdges: seq<Edge>, edges: seq<Edge>)
    requires Attained(best, bestEdges, edges)
    ensures best >= 0.0
  {}

  lemma PowerSplit(degree: nat, e: nat)
    requires e > 0
    ensures Power(degree + 1, e) > degree * Power(degree + 1, e - 1)
  {
    PowerPositive(degree + 1, e - 1);
    assert (degree + 1) * Power(degree + 1, e - 1) == degree * Power(degree + 1, e - 1) + Power(degree + 1, e - 1);
  }

  /** The largest ratio of a closed walk through a node of the component, and such a walk. */
  method MaximumCycleRatio(nodes: seq<Node>, edges: seq<Edge>) returns (best: real, bestEdges: seq<Edge>)
    requires SourcesIn(edges, nodes)
    ensures Attained(best, bestEdges, edges)
    ensures forall c :: Cycle(c) && Over(c, EdgeSet(edges)) && Time(c) > 0 ==> BoundedBy(c, best)
    ensures PositiveTimes(EdgeSet(edges)) ==> MaximumRatio(EdgeSet(edges), best)
  {
    best, bestEdges := 0.0, [];
    for s := 0 to |nodes|
      invariant Attained(best, bestEdges, edges)
      invariant forall k, c :: 0 <= k < s && CycleFrom(c, nodes[k], edges) ==> BoundedBy(c, best)
    {
      var start := nodes[s];
      var stack := [Item(start, [], 0, 0)];
      ghost var limit, best0 := |nodes| + 1, best;
      while stack != []
        invariant ValidStack(stack, start, edges) && AllAccounted(stack, best, start, edges)
        invariant Attained(best, bestEdges, edges) && best0 <= best
        decreases Weight(stack, |edges| + 1, limit)
      {
        var item := stack[|stack| - 1];
        PopAccounts(stack, best, start, edges);
        WeightPush(stack[..|stack| - 1], item, |edges| + 1, limit);
        assert stack == stack[..|stack| - 1] + [item];
        stack := stack[..|stack| - 1];
        if |item.path| > |nodes| {
          PowerPositive(|edges| + 1, if |item.path| <= limit then limit - |item.path| else 0);
          LongBeginsNothing(stack, best, item, start, edges, nodes);
          continue;
        }
        stack, best, bestEdges := Extend(item, stack, best, bestEdges, start, edges, limit);
      }
      forall k, c | 0 <= k < s + 1 && CycleFrom(c, nodes[k], edges)
        ensures BoundedBy(c, best)
      {
        if k < s {
          BoundGrows(c, best0, best);
        } else {
          assert Accounted(c, [], best);
        }
      }
    }
    forall c: seq<Edge> | Cycle(c) && Over(c, EdgeSet(edges)) && Time(c) > 0
      ensures BoundedBy(c, best)
    {
      assert c[0] in edges;
      var k :| 0 <= k < |nodes| && nodes[k] == c[0].source;
      assert CycleFrom(c, nodes[k], edges);
    }
    if PositiveTimes(EdgeSet(edges)) {
      forall w | Closed(w) && Over(w, EdgeSet(edges))
        ensures BoundedBy(w, best)
      {
        CyclesDominate(w, EdgeSet(edges), best);
      }
    }
  }
}

/** The approximate maximum cycle ratio of a component, by policy iteration (`maximumCycleRatio`). */
module PolicyIteration {
  import opened Wrappers
  import opened LatencyGraph
  import opened CycleEnumeration
  import opened PolicyEvaluation
  import opened PolicyPhase

  /** `sys.maxsize`, the stand-in for an infinite value. */
  const MAX_SIZE: int := 9223372036854775807

  ghost predicate HasOutEdge(edges: seq<Edge>, n: Node) {
    exists e :: e in edges && e.source == n
  }

  /** The edges lead from nodes of the component to nodes of the component, and out of each of its nodes. */
  ghost predicate Spans(nodes: seq<Node>, edges: seq<Edge>) {
    && nodes != []
    && (forall e :: e in edges ==> e.source in nodes && e.target in nodes)
    && (forall n {:trigger HasOutEdge(edges, n)} :: n in nodes ==> HasOutEdge(edges, n))
  }

  // Improvements of the ratio are finitely many: multiplied by a common denominator, every ratio is an integer

  function Factorial(n: nat): nat {
    if n == 0 then 1 else n * Factorial(n - 1)
  }

  lemma {:induction false} FactorialPositive(n: nat)
    ensures Factorial(n) > 0
  {
    if n > 0 {
      FactorialPositive(n - 1);
    }
  }

  lemma {:induction false} Divides(t: nat, n: nat) returns (q: int)
    requires 1 <= t <= n
    ensures Factorial(n) == q * t
  {
    if t == n {
      q := Factorial(n - 1);
    } else {
      var q' := Divides(t, n - 1);
      q := n * q';
      assert n * (q' * t) == (n * q') * t;
    }
  }

  predicate IsInteger(x: real, k: int) {
    x == k as real
  }

  function Scaled(r: real, f: nat): real {
    r * f as real
  }

  ghost predicate Discrete(r: real, f: nat) {
    exists k: int :: IsInteger(Scaled(r, f), k)
  }

  lemma RatioDiscrete(c: seq<Edge>, limit: nat)
    requires 1 <= Time(c) <= limit
    ensures Discrete(-Ratio(c), Factorial(limit))
  {
    var q := Divides(Time(c), limit);
    var x, t, y := Cost(c) as real, Time(c) as real, q as real;
    assert Factorial(limit) as real == y * t;
    assert (x / t) * (y * t) == x * y by {
      assert (x / t) * (y * t) == ((x / t) * t) * y;
      assert (x / t) * t == x;
    }
    assert -(x * y) == (-Cost(c) * q) as real by {
      assert (Cost(c) * q) as real == x * y;
    }
    assert IsInteger(Scaled(-Ratio(c), Factorial(limit)), -Cost(c) * q);
  }

  /** How far the ratio can still improve. */
  function Rank(r: real, limit: int, f: nat): nat {
    var x := Scaled(r, f).Floor + limit * f;
    if x < 0 then 0 else x
  }

  lemma RankDecreases(r': real, r: real, limit: int, f: nat)
    requires Discrete(r', f) && Discrete(r, f) && r' < r && r' >= -(limit as real) && f > 0
    ensures Rank(r', limit, f) < Rank(r, limit, f)
  {
    var k' :| IsInteger(Scaled(r', f), k');
    var k :| IsInteger(Scaled(r, f), k);
    ScaledMonotone(r', r, f);
    ScaledAtLeast(r', limit, f);
  }

  lemma ScaledMonotone(r': real, r: real, f: nat)
    requires r' < r && f > 0
    ensures Scaled(r', f) < Scaled(r, f)
  {}

  lemma ScaledAtLeast(r: real, limit: int, f: nat)
    requires r >= -(limit as real)
    ensures Scaled(r, f) >= -((limit * f) as real)
  {
    assert (limit * f) as real == limit as real * f as real;
    assert (r + limit as real) * f as real >= 0.0;
  }

  function Largest(w: seq<Edge>, f: Edge -> int): nat {
    if w == [] then 0
    else
      var rest, x := Largest(w[..|w| - 1], f), f(w[|w| - 1]);
      if x > rest then x else rest
  }

  lemma {:induction false} LargestBounds(w: seq<Edge>, f: Edge -> int, e: Edge)
    requires e in w
    ensures f(e) <= Largest(w, f)
  {
    if e != w[|w| - 1] {
      LargestBounds(w[..|w| - 1], f, e);
    }
  }

  const CostOf: Edge -> int := (e: Edge) => e.cost
  const TimeOf: Edge -> int := (e: Edge) => e.time

  lemma {:induction false} SumsAtMost(w: seq<Edge>, edges: seq<Edge>)
    requires Over(w, EdgeSet(edges))
    ensures Cost(w) <= |w| * Largest(edges, CostOf)
    ensures Time(w) <= |w| * Largest(edges, TimeOf)
  {
    if w != [] {
      var v, e := w[..|w| - 1], w[|w| - 1];
      assert e in edges;
      SumsAtMost(v, edges);
      LargestBounds(edges, CostOf, e);
      LargestBounds(edges, TimeOf, e);
      OneTimesMore(|v|, Largest(edges, CostOf));
      OneTimesMore(|v|, Largest(edges, TimeOf));
    }
  }

  lemma OneTimesMore(n: nat, x: nat)
    ensures (n + 1) * x == n * x + x
  {}

  ghost function CostLimit(nodes: seq<Node>, edges: seq<Edge>): nat {
    |nodes| * Largest(edges, CostOf)
  }

  ghost function TimeLimit(nodes: seq<Node>, edges: seq<Edge>): nat {
    |nodes| * Largest(edges, TimeOf)
  }

  lemma CycleLimits(c: seq<Edge>, nodes: seq<Node>, edges: seq<Edge>)
    requires Cycle(c) && Over(c, EdgeSet(edges)) && Spans(nodes, edges)
    ensures Cost(c) <= CostLimit(nodes, edges) && Time(c) <= TimeLimit(nodes, edges)
  {
    CycleFits(c, edges, nodes);
    SumsAtMost(c, edges);
    ProductMonotone(|c|, |nodes|, Largest(edges, CostOf));
    ProductMonotone(|c|, |nodes|, Largest(edges, TimeOf));
  }

  lemma ProductMonotone(a: nat, b: nat, k: nat)
    requires a <= b
    ensures a * k <= b * k
  {}

  lemma RatioAtMostCost(c: seq<Edge>)
    requires Time(c) >= 1 && Cost(c) >= 0
    ensures Ratio(c) <= Cost(c) as real
  {
    var x, t := Cost(c) as real, Time(c) as real;
    assert x <= x * t;
    assert x / t <= (x * t) / t;
  }

  /** A found ratio is one of the finitely many. */
  lemma FoundRank(handle: Node, r: real, p: map<Node, Edge>, nodes: seq<Node>, edges: seq<Edge>)
    requires Handles(handle, r, p, edges) && Spans(nodes, edges) && NonNegative(edges)
    ensures Discrete(r, Factorial(TimeLimit(nodes, edges))) && r >= -(CostLimit(nodes, edges) as real)
  {
    var c: seq<Edge> :| PolicyCycle(c, p) && DistinctSources(c) && Over(c, EdgeSet(edges)) && c[0].source == handle &&
                        Time(c) > 0 && r == -Ratio(c);
    CycleLimits(c, nodes, edges);
    RatioDiscrete(c, TimeLimit(nodes, edges));
    CostNonNegative(c, edges);
    RatioAtMostCost(c);
  }

  lemma MaxDiscrete(f: nat)
    ensures Discrete(MAX_SIZE as real, f)
  {
    assert IsInteger(Scaled(MAX_SIZE as real, f), MAX_SIZE * f);
  }

  // Rounds without an improvement are finitely many: each lowers the sum of the values by more than the tolerance

  /** The sum of the values of the listed nodes. */
  function Sum(nodes: seq<Node>, d: map<Node, real>): real {
    if nodes == [] then 0.0
    else
      var n := nodes[|nodes| - 1];
      Sum(nodes[..|nodes| - 1], d) + if n in d then d[n] else 0.0
  }

  lemma {:induction false} SumAtLeast(nodes: seq<Node>, d: map<Node, real>, m: real)
    requires forall n :: n in nodes ==> n in d && d[n] >= m
    ensures Sum(nodes, d) >= |nodes| as real * m
  {
    if nodes != [] {
      SumAtLeast(nodes[..|nodes| - 1], d, m);
      assert |nodes| as real * m == (|nodes| - 1) as real * m + m;
    }
  }

  /** Lowering one value lowers the sum at least as much, once for each time the node is listed. */
  lemma {:induction false} SumLowered(nodes: seq<Node>, d: map<Node, real>, u: Node, x: real)
    requires u in d && x <= d[u]
    ensures Sum(nodes, d[u := x]) <= Sum(nodes, d)
    ensures u in nodes ==> Sum(nodes, d[u := x]) <= Sum(nodes, d) - (d[u] - x)
  {
    if nodes != [] {
      SumLowered(nodes[..|nodes| - 1], d, u, x);
      assert u in nodes && u != nodes[|nodes| - 1] ==> u in nodes[..|nodes| - 1];
    }
  }

  function Budget(sum: real, bound: real, eps: real): nat
    requires eps > 0.0
  {
    if sum < bound then 0
    else
      var x := ((sum - bound) * (1.0 / eps)).Floor;
      if x < 0 then 1 else x + 1
  }

  lemma BudgetDecreases(sum': real, sum: real, bound: real, eps: real)
    requires eps > 0.0 && sum >= bound && sum' < sum - eps
    ensures Budget(sum', bound, eps) < Budget(sum, bound, eps)
  {
    if sum' >= bound {
      QuotientGap(sum' - bound, sum - bound, eps);
    }
  }

  lemma QuotientGap(a: real, b: real, eps: real)
    requires eps > 0.0 && 0.0 <= a < b - eps
    ensures 0.0 <= a * (1.0 / eps) && a * (1.0 / eps) + 1.0 < b * (1.0 / eps)
  {
    var k := 1.0 / eps;
    assert k > 0.0 && eps * k == 1.0;
    Distribute(a, eps, k);
    ScaleMonotone(a + eps, b, k);
    assert a * k >= 0.0;
  }

  lemma Distribute(a: real, b: real, k: real)
    ensures (a + b) * k == a * k + b * k
  {}

  lemma ScaleMonotone(a: real, b: real, k: real)
    requires a < b && k > 0.0
    ensures a * k < b * k
  {}

  ghost function ChargeLimit(edges: seq<Edge>, r: real): (k: real)
    ensures ChargesAtLeast(edges, r, k)
  {
    if edges == [] then 0.0
    else
      var k := ChargeLimit(edges[..|edges| - 1], r);
      var x := -Charge(edges[|edges| - 1], r);
      assert forall e :: e in edges ==> e in edges[..|edges| - 1] || e == edges[|edges| - 1];
      if x > k then x else k
  }

  ghost function LeastValue(d: map<Node, real>): (m: real)
    ensures forall n :: n in d ==> d[n] >= m
    decreases d.Keys
  {
    if d.Keys == {} then 0.0
    else
      var x :| x in d;
      var rest := d - {x};
      var m := LeastValue(rest);
      assert forall n :: n in d && n != x ==> n in rest && rest[n] == d[n];
      if d[x] < m then d[x] else m
  }

  /** The bound on every value during a phase that started with `d0`. */
  ghost function ValueBound(nodes: seq<Node>, edges: seq<Edge>, d0: map<Node, real>, r: real): real {
    LeastValue(d0) - |NodeSet(nodes)| as real * ChargeLimit(edges, r)
  }

  ghost function PhaseBound(nodes: seq<Node>, edges: seq<Edge>, d0: map<Node, real>, r: real): real {
    |nodes| as real * ValueBound(nodes, edges, d0, r)
  }

  lemma SumAboveBound(nodes: seq<Node>, edges: seq<Edge>, d: map<Node, real>, d0: map<Node, real>,
                      p: map<Node, Edge>, changed: set<Node>, r: real)
    requires Phase(d, d0, p, changed, r) && NoImprovement(p, nodes, r) && IsPolicy(p, nodes, edges)
    requires d.Keys == NodeSet(nodes)
    ensures Sum(nodes, d) >= PhaseBound(nodes, edges, d0, r)
  {
    hide Phase, NoImprovement, IsPolicy, ChargesAtLeast, ValueBound, NodeSet, Sum;
    AllAboveBound(nodes, edges, d, d0, p, changed, r);
    SumAtLeast(nodes, d, ValueBound(nodes, edges, d0, r));
  }

  lemma AllAboveBound(nodes: seq<Node>, edges: seq<Edge>, d: map<Node, real>, d0: map<Node, real>,
                      p: map<Node, Edge>, changed: set<Node>, r: real)
    requires Phase(d, d0, p, changed, r) && NoImprovement(p, nodes, r) && IsPolicy(p, nodes, edges)
    requires d.Keys == NodeSet(nodes)
    ensures forall n :: n in nodes ==> n in d && d[n] >= ValueBound(nodes, edges, d0, r)
  {
    hide Phase, NoImprovement, IsPolicy, ChargesAtLeast;
    AllAbove(d, d0, p, changed, r, nodes, edges, LeastValue(d0), ChargeLimit(edges, r));
  }

  lemma AllAbove(d: map<Node, real>, d0: map<Node, real>, p: map<Node, Edge>, changed: set<Node>, r: real,
                 nodes: seq<Node>, edges: seq<Edge>, m: real, k: real)
    requires BoundSetting(d, d0, p, changed, r, nodes, edges, m, k)
    ensures forall n :: n in nodes ==> n in d && d[n] >= m - |NodeSet(nodes)| as real * k
  {
    hide BoundSetting, LedTo;
    forall n | n in nodes
      ensures n in d && d[n] >= m - |NodeSet(nodes)| as real * k
    {
      StartsThere(p, nodes, n);
      ValueAbove(n, [], d, d0, p, changed, r, nodes, edges, m, k);
    }
  }

  // The algorithm

  method Initialize(nodes: seq<Node>, edges: seq<Edge>) returns (d: map<Node, real>, p: map<Node, Edge>)
    requires Spans(nodes, edges) && NonNegative(edges)
    ensures d.Keys == NodeSet(nodes) && IsPolicy(p, nodes, edges)
  {
    d := map n | n in nodes :: MAX_SIZE as real;
    p := map[];
    for i := 0 to |edges|
      invariant d.Keys == NodeSet(nodes) && p.Keys <= NodeSet(nodes)
      invariant forall n :: n in p ==> p[n] in edges && p[n].source == n && p[n].target in nodes
      invariant forall n :: n in nodes && n !in p ==> d[n] == MAX_SIZE as real
      invariant forall k :: 0 <= k < i ==> edges[k].source in p
    {
      var e := edges[i];
      assert e in edges;
      if (-e.cost) as real < d[e.source] {
        d := d[e.source := (-e.cost) as real];
        p := p[e.source := e];
      }
    }
    forall n | n in nodes
      ensures n in p
    {
      assert HasOutEdge(edges, n);
      var e :| e in edges && e.source == n;
      var k :| 0 <= k < |edges| && edges[k] == e;
    }
  }

  lemma UpdateKeepsPolicy(e: Edge, p: map<Node, Edge>, nodes: seq<Node>, edges: seq<Edge>)
    requires IsPolicy(p, nodes, edges) && Spans(nodes, edges) && e in edges
    ensures IsPolicy(p[e.source := e], nodes, edges)
  {}

  /** No edge lowers its source's value by more than `eps`. */
  ghost predicate Relaxed(edges: seq<Edge>, d: map<Node, real>, r: real, eps: real) {
    forall e :: e in edges ==> RelaxedBy(e, d, r, eps)
  }

  ghost predicate RelaxedBy(e: Edge, d: map<Node, real>, r: real, eps: real) {
    e.source in d && e.target in d && d[e.source] <= d[e.target] + Charge(e, r) + eps
  }

  lemma EdgeInside(e: Edge, nodes: seq<Node>, edges: seq<Edge>)
    requires Spans(nodes, edges) && e in edges
    ensures e.source in nodes && e.target in nodes
  {}

  lemma AllRelaxed(edges: seq<Edge>, d: map<Node, real>, r: real, eps: real)
    requires forall k :: 0 <= k < |edges| ==> RelaxedBy(edges[k], d, r, eps)
    ensures Relaxed(edges, d, r, eps)
  {}

  /** One pass over the edges: a node takes an edge for its choice that lowers its value by more than `eps`. */
  method Relax(nodes: seq<Node>, edges: seq<Edge>, r: real, eps: real, d0: map<Node, real>, p0: map<Node, Edge>,
               ghost dStart: map<Node, real>, ghost touched0: set<Node>)
    returns (d: map<Node, real>, p: map<Node, Edge>, changed: bool, ghost touched: set<Node>)
    requires Spans(nodes, edges) && eps > 0.0 && d0.Keys == NodeSet(nodes) && IsPolicy(p0, nodes, edges)
    requires Phase(d0, dStart, p0, touched0, r)
    ensures d.Keys == NodeSet(nodes) && IsPolicy(p, nodes, edges) && Phase(d, dStart, p, touched, r)
    ensures changed ==> Sum(nodes, d) < Sum(nodes, d0) - eps
    ensures !changed ==> Relaxed(edges, d, r, eps)
  {
    hide Phase, IsPolicy, Spans, Sum, Relaxed, RelaxedBy;
    d, p, changed, touched := d0, p0, false, touched0;
    for i := 0 to |edges|
      invariant d.Keys == NodeSet(nodes) && IsPolicy(p, nodes, edges) && Phase(d, dStart, p, touched, r)
      invariant if changed then Sum(nodes, d) < Sum(nodes, d0) - eps else d == d0
      invariant !changed ==> forall k :: 0 <= k < i ==> RelaxedBy(edges[k], d, r, eps)
    {
      var e := edges[i];
      EdgeInside(e, nodes, edges);
      assert e.source in NodeSet(nodes) && e.target in NodeSet(nodes);
      if d[e.source] > d[e.target] - e.cost as real - r * e.time as real + eps {
        ghost var d1, p1 := d, p;
        ghost var x := d[e.target] + Charge(e, r);
        ChargedValue(e, r, d[e.target]);
        SumLowered(nodes, d, e.source, x);
        UpdateKeepsPolicy(e, p, nodes, edges);
        d := d[e.source := d[e.target] - e.cost as real - r * e.time as real];
        p := p[e.source := e];
        assert d == d1[e.source := x] && Updates(e, d1, d, p1, p, r, eps);
        UpdateKeepsPhase(e, d1, d, dStart, p1, p, touched, r, eps);
        assert d.Keys == d1.Keys + {e.source};
        touched := touched + {e.source};
        changed := true;
      } else {
        NotLowered(e, d, r, eps);
      }
    }
    if !changed {
      AllRelaxed(edges, d, r, eps);
    }
  }

  lemma ChargedValue(e: Edge, r: real, v: real)
    ensures v - e.cost as real - r * e.time as real == v + Charge(e, r)
  {}

  lemma NotLowered(e: Edge, d: map<Node, real>, r: real, eps: real)
    requires e.source in d && e.target in d
    requires d[e.source] <= d[e.target] - e.cost as real - r * e.time as real + eps
    ensures RelaxedBy(e, d, r, eps)
  {}

  /** The cycle of the policy through `handle`. */
  method CollectCycle(handle: Node, p: map<Node, Edge>, ghost r: real, ghost edges: seq<Edge>)
    returns (cycle: seq<Edge>)
    requires Handles(handle, r, p, edges)
    ensures Closed(cycle) && Over(cycle, EdgeSet(edges)) && Time(cycle) > 0 && r == -Ratio(cycle)
  {
    ghost var c: seq<Edge> :| PolicyCycle(c, p) && DistinctSources(c) && Over(c, EdgeSet(edges)) &&
                              c[0].source == handle && Time(c) > 0 && r == -Ratio(c);
    var u := handle;
    cycle := [];
    while true
      invariant |cycle| < |c| && cycle == c[..|cycle|] && u == c[|cycle|].source
      decreases |c| - |cycle|
    {
      assert c[|cycle|].source in p && c[|cycle|] == p[c[|cycle|].source];
      cycle := cycle + [p[u]];
      u := p[u].target;
      assert |cycle| < |c| ==> c[|cycle| - 1].target == c[|cycle|].source;
      if u == handle {
        assert cycle == c;
        break;
      }
    }
  }

  /** The reported ratio belongs to the reported cycle. */
  ghost predicate Found(cycle: seq<Edge>, r: real, edges: seq<Edge>) {
    Closed(cycle) && Over(cycle, EdgeSet(edges)) && Time(cycle) > 0 && r == -Ratio(cycle)
  }

  /** No closed walk of `k` edges is better than `ratio` by more than `k` tolerances over its time. */
  ghost predicate WithinTolerance(edges: seq<Edge>, ratio: real, eps: real) {
    forall w :: Closed(w) && Over(w, EdgeSet(edges)) ==>
      Cost(w) as real <= ratio * Time(w) as real + |w| as real * eps
  }

  lemma NegatedProduct(r: real, t: real)
    ensures (-r) * t == -(r * t)
  {}

  lemma StableWithin(edges: seq<Edge>, d: map<Node, real>, r: real, eps: real)
    requires Relaxed(edges, d, r, eps)
    ensures WithinTolerance(edges, -r, eps)
  {
    hide Relaxed, Closed, Over;
    forall w | Closed(w) && Over(w, EdgeSet(edges))
      ensures Cost(w) as real <= (-r) * Time(w) as real + |w| as real * eps
    {
      WalkWithin(w, edges, d, r, eps);
    }
  }

  lemma WalkWithin(w: seq<Edge>, edges: seq<Edge>, d: map<Node, real>, r: real, eps: real)
    requires Relaxed(edges, d, r, eps) && Closed(w) && Over(w, EdgeSet(edges))
    ensures Cost(w) as real <= (-r) * Time(w) as real + |w| as real * eps
  {
    WalkStable(w, edges, d, r, eps);
    hide RelaxedBy, Relaxed, Over, Cost, Time;
    StableAlong(w, d, r, eps);
    NegatedProduct(r, Time(w) as real);
  }

  lemma WalkStable(w: seq<Edge>, edges: seq<Edge>, d: map<Node, real>, r: real, eps: real)
    requires Relaxed(edges, d, r, eps) && Closed(w) && Over(w, EdgeSet(edges))
    ensures Stable(w, d, r, eps)
  {
    forall i | 0 <= i < |w|
      ensures w[i] in edges && RelaxedBy(w[i], d, r, eps)
    {
      assert w[i] in EdgeSet(edges);
    }
  }

  lemma FoundMeans(cycle: seq<Edge>, r: real, edges: seq<Edge>, nodes: seq<Node>)
    requires Spans(nodes, edges) && (nodes != [] ==> r <= 0.0)
    requires r == MAX_SIZE as real || Found(cycle, r, edges)
    ensures Closed(cycle) && Over(cycle, EdgeSet(edges)) && Time(cycle) > 0 && -r == Ratio(cycle)
  {}

  lemma FoundNow(cycle: seq<Edge>, r: real, edges: seq<Edge>)
    requires Closed(cycle) && Over(cycle, EdgeSet(edges)) && Time(cycle) > 0 && r == -Ratio(cycle)
    ensures Found(cycle, r, edges)
  {}

  method MaximumCycleRatio(nodes: seq<Node>, edges: seq<Edge>, eps: real) returns (ratio: real, cycle: seq<Edge>)
    requires Spans(nodes, edges) && NonNegative(edges) && PositiveTimes(EdgeSet(edges)) && eps > 0.0
    ensures Closed(cycle) && Over(cycle, EdgeSet(edges)) && Time(cycle) > 0 && ratio == Ratio(cycle)
    ensures WithinTolerance(edges, ratio, eps)
  {
    hide *;
    var d, p := Initialize(nodes, edges);
    var r := MAX_SIZE as real;
    cycle := [];
    ghost var f, limit := Factorial(TimeLimit(nodes, edges)), CostLimit(nodes, edges);
    ghost var dStart, touched: set<Node> := d, {};
    FactorialPositive(TimeLimit(nodes, edges));
    MaxDiscrete(f);
    PhaseStarts(d, p, r);
    while true
      invariant d.Keys == NodeSet(nodes) && dStart.Keys == NodeSet(nodes) && IsPolicy(p, nodes, edges)
      invariant r == MAX_SIZE as real || Found(cycle, r, edges)
      invariant Phase(d, dStart, p, touched, r) && Discrete(r, f)
      decreases Rank(r, limit, f), Budget(Sum(nodes, d), PhaseBound(nodes, edges, dStart, r), eps)
    {
      ghost var rOld, sumOld := r, Sum(nodes, d);
      var handle;
      r, handle := FindRatio(nodes, r, p, edges);
      if handle.Some? {
        cycle := CollectCycle(handle.value, p, r, edges);
        FoundNow(cycle, r, edges);
        FoundRank(handle.value, r, p, nodes, edges);
        RankDecreases(r, rOld, limit, f);
        dStart, touched := d, {};
        PhaseStarts(d, p, r);
      } else {
        SumAboveBound(nodes, edges, d, dStart, p, touched, r);
      }
      var changed;
      d, p, changed, touched := Relax(nodes, edges, r, eps, d, p, dStart, touched);
      if !changed {
        StableWithin(edges, d, r, eps);
        FoundMeans(cycle, r, edges, nodes);
        ratio := -r;
        break;
      }
      if handle == None {
        BudgetDecreases(Sum(nodes, d), sumOld, PhaseBound(nodes, edges, dStart, r), eps);
      }
    }
  }
}

/** The latency graph of a loop body and the arithmetic of its walks.

    A node is an input operand of an instruction of the body. An edge says that the value read at `target` was
    produced from the value read at `source`, `cost` cycles later; `time` counts how often the edge crosses from one
    iteration of the body to the next.
 */
module LatencyGraph {
  import opened Wrappers

  /** The operands that take part in dependences. Registers carry their canonical 64-bit (or vector) name. */
  datatype Operand =
    | RegOp(reg: string)
    | FlagOp(flags: string)
    | MemOp(base: Option<string>, index: Option<string>, scale: int, disp: int)

  datatype Node = Node(instr: nat, operand: Operand)

  datatype Edge = Edge(source: Node, target: Node, cost: int, time: int)

  /** `edgesForNode` of the source: the outgoing edges of each node, in insertion order. */
  type Graph = map<Node, seq<Edge>>

  function OutEdges(g: Graph, n: Node): seq<Edge> {
    if n in g then g[n] else []
  }

  /** Edges are filed under their own source. */
  ghost predicate WellFiled(g: Graph) {
    forall n, e :: n in g && e in g[n] ==> e.source == n
  }

  ghost predicate IsEdge(g: Graph, e: Edge) {
    e.source in g && e in g[e.source]
  }

  ghost function AllEdges(g: Graph): iset<Edge> {
    iset e | IsEdge(g, e)
  }

  // Walks

  ghost predicate IsWalk(w: seq<Edge>) {
    forall i :: 0 <= i < |w| - 1 ==> w[i].target == w[i + 1].source
  }

  ghost predicate Over(w: seq<Edge>, edges: iset<Edge>) {
    forall i :: 0 <= i < |w| ==> w[i] in edges
  }

  /** A nonempty walk that ends where it started. */
  ghost predicate Closed(w: seq<Edge>) {
    |w| > 0 && IsWalk(w) && w[|w| - 1].target == w[0].source
  }

  ghost predicate DistinctSources(w: seq<Edge>) {
    forall i, j :: 0 <= i < j < |w| ==> w[i].source != w[j].source
  }

  /** A cycle: a closed walk that visits no node twice. */
  ghost predicate Cycle(w: seq<Edge>) {
    Closed(w) && DistinctSources(w)
  }

  function Cost(w: seq<Edge>): int {
    if w == [] then 0 else Cost(w[..|w| - 1]) + w[|w| - 1].cost
  }

  function Time(w: seq<Edge>): int {
    if w == [] then 0 else Time(w[..|w| - 1]) + w[|w| - 1].time
  }

  function Ratio(w: seq<Edge>): real
    requires Time(w) != 0
  {
    Cost(w) as real / Time(w) as real
  }

  /** `bound` is at least the ratio of `w`, in the form that also speaks of walks without time. */
  ghost predicate BoundedBy(w: seq<Edge>, bound: real) {
    Cost(w) as real <= bound * Time(w) as real
  }

  /** Every closed walk over `edges` crosses at least one iteration boundary. */
  ghost predicate PositiveTimes(edges: iset<Edge>) {
    forall w :: Closed(w) && Over(w, edges) ==> Time(w) > 0
  }

  ghost predicate MaximumRatio(edges: iset<Edge>, bound: real) {
    forall w :: Closed(w) && Over(w, edges) ==> BoundedBy(w, bound)
  }

  lemma {:induction false} CostTimeConcat(a: seq<Edge>, b: seq<Edge>)
    ensures Cost(a + b) == Cost(a) + Cost(b)
    ensures Time(a + b) == Time(a) + Time(b)
  {
    if b == [] {
      assert a + b == a;
    } else {
      CostTimeConcat(a, b[..|b| - 1]);
      assert (a + b)[..|a + b| - 1] == a + b[..|b| - 1];
    }
  }

  /** Cutting a closed walk at two visits of the same node leaves two shorter closed walks. */
  lemma SplitClosed(w: seq<Edge>, i: nat, j: nat, edges: iset<Edge>)
    requires Closed(w) && Over(w, edges) && i < j < |w| && w[i].source == w[j].source
    ensures Closed(w[i..j]) && Over(w[i..j], edges)
    ensures Closed(w[..i] + w[j..]) && Over(w[..i] + w[j..], edges)
  {
    var inner, outer := w[i..j], w[..i] + w[j..];
    assert forall k :: 0 <= k < |inner| ==> inner[k] == w[i + k];
    assert inner[|inner| - 1] == w[j - 1];
    forall k | 0 <= k < |outer| - 1
      ensures outer[k].target == outer[k + 1].source
    {
      if k + 1 < i {
      } else if k + 1 == i {
        assert outer[k] == w[i - 1] && outer[k + 1] == w[j];
      } else {
        assert outer[k] == w[k + (j - i)] && outer[k + 1] == w[k + 1 + (j - i)];
      }
    }
  }

  lemma SplitSums(w: seq<Edge>, i: nat, j: nat)
    requires i < j < |w|
    ensures Cost(w) == Cost(w[i..j]) + Cost(w[..i] + w[j..])
    ensures Time(w) == Time(w[i..j]) + Time(w[..i] + w[j..])
  {
    var a, b, c := w[..i], w[i..j], w[j..];
    CostTimeConcat(a, c);
    CostTimeConcat(a, b);
    CostTimeConcat(a + b, c);
    Reassemble(w, i, j);
  }

  lemma Reassemble(w: seq<Edge>, i: nat, j: nat)
    requires i < j < |w|
    ensures w == w[..i] + w[i..j] + w[j..]
  {}

  /** A bound on the cycles is a bound on every closed walk. */
  lemma {:induction false} CyclesDominate(w: seq<Edge>, edges: iset<Edge>, bound: real)
    requires forall c :: Cycle(c) && Over(c, edges) ==> BoundedBy(c, bound)
    requires Closed(w) && Over(w, edges)
    ensures BoundedBy(w, bound)
    decreases |w|
  {
    hide Cost, Time, Closed, Over;
    if !DistinctSources(w) {
      var i, j :| 0 <= i < j < |w| && w[i].source == w[j].source;
      var inner, outer := w[i..j], w[..i] + w[j..];
      SplitClosed(w, i, j, edges);
      SplitSums(w, i, j);
      CyclesDominate(inner, edges, bound);
      CyclesDominate(outer, edges, bound);
      BoundsAdd(Cost(inner), Cost(outer), Time(inner), Time(outer), bound);
    }
  }

  lemma BoundsAdd(c: int, d: int, t: int, u: int, bound: real)
    requires c as real <= bound * t as real && d as real <= bound * u as real
    ensures (c + d) as real <= bound * (t + u) as real
  {
    assert (t + u) as real == t as real + u as real;
  }

  lemma BoundFromRatio(w: seq<Edge>, bound: real)
    requires Time(w) > 0
    ensures BoundedBy(w, bound) <==> Ratio(w) <= bound
  {
    var c, t := Cost(w) as real, Time(w) as real;
    assert c == (c / t) * t;
    if c / t <= bound {
      assert (c / t) * t <= bound * t;
    }
    if c <= bound * t {
      assert c / t <= (bound * t) / t;
    }
  }

  /** Reading a walk from any later edge on gives the suffix's own cost and time back. */
  lemma CostTimeSnoc(w: seq<Edge>, e: Edge)
    ensures Cost(w + [e]) == Cost(w) + e.cost && Time(w + [e]) == Time(w) + e.time
  {
    assert (w + [e])[..|w|] == w;
  }

  lemma {:induction false} DistinctSourcesFit(w: seq<Edge>, nodes: set<Node>)
    requires DistinctSources(w) && forall i :: 0 <= i < |w| ==> w[i].source in nodes
    ensures |w| <= |nodes|
  {
    if w != [] {
      var last := w[|w| - 1].source;
      DistinctSourcesFit(w[..|w| - 1], nodes - {last});
    }
  }
}

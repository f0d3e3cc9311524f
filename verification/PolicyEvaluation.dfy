/** Evaluating a policy: one chosen out-edge for each node of a component (`findRatio`). */
module PolicyEvaluation {
  import opened Wrappers
  import opened LatencyGraph
  import opened CycleEnumeration

  /** Every node has a chosen out-edge that stays among the nodes. */
  ghost predicate IsPolicy(p: map<Node, Edge>, nodes: seq<Node>, edges: seq<Edge>) {
    && (forall n :: n in nodes ==> n in p)
    && (forall n {:trigger p[n]} :: n in nodes ==> p[n] in edges && p[n].source == n && p[n].target in nodes)
  }

  /** Latencies are never negative. */
  ghost predicate NonNegative(edges: seq<Edge>) {
    forall e :: e in edges ==> e.cost >= 0
  }

  /** A closed walk that follows the policy. */
  ghost predicate PolicyCycle(c: seq<Edge>, p: map<Node, Edge>) {
    Closed(c) && forall i :: 0 <= i < |c| ==> c[i].source in p && c[i] == p[c[i].source]
  }

  /** `-r` is the ratio of the policy's cycle through `handle`. */
  ghost predicate Handles(handle: Node, r: real, p: map<Node, Edge>, edges: seq<Edge>) {
    exists c: seq<Edge> :: PolicyCycle(c, p) && DistinctSources(c) && Over(c, EdgeSet(edges)) && c[0].source == handle &&
                Time(c) > 0 && r == -Ratio(c)
  }

  lemma {:induction false} CostNonNegative(w: seq<Edge>, edges: seq<Edge>)
    requires NonNegative(edges) && Over(w, EdgeSet(edges))
    ensures Cost(w) >= 0
  {
    if w != [] {
      CostNonNegative(w[..|w| - 1], edges);
    }
  }

  /** The edges chosen along a trail of nodes. */
  function Chosen(trail: seq<Node>, p: map<Node, Edge>): seq<Edge>
    requires forall n :: n in trail ==> n in p
  {
    seq(|trail|, i requires 0 <= i < |trail| => p[trail[i]])
  }

  /** A trail without repetition that follows the policy. */
  ghost predicate Trail(trail: seq<Node>, p: map<Node, Edge>, nodes: seq<Node>) {
    && trail != []
    && (forall n :: n in trail ==> n in nodes && n in p)
    && (forall i, j :: 0 <= i < j < |trail| ==> trail[i] != trail[j])
    && (forall i :: 0 <= i < |trail| - 1 ==> p[trail[i]].target == trail[i + 1])
  }

  /** The part of a trail that closes on itself is a cycle of the policy. */
  lemma TrailCycle(trail: seq<Node>, p: map<Node, Edge>, nodes: seq<Node>, edges: seq<Edge>, k: nat)
    requires IsPolicy(p, nodes, edges) && Trail(trail, p, nodes)
    requires k < |trail| && p[trail[|trail| - 1]].target == trail[k]
    ensures forall n :: n in trail[k..] ==> n in p
    ensures var c := Chosen(trail[k..], p);
            && PolicyCycle(c, p) && DistinctSources(c) && Over(c, EdgeSet(edges)) && c[0].source == trail[k]
  {
    var c := Chosen(trail[k..], p);
    forall i | 0 <= i < |c|
      ensures c[i] == p[trail[k + i]] && c[i].source == trail[k + i] && c[i] in edges
    {
      assert trail[k + i] in trail;
    }
    forall i | 0 <= i < |c| - 1
      ensures c[i].target == c[i + 1].source
    {
      assert p[trail[k + i]].target == trail[k + i + 1];
    }
  }

  lemma TrailGrows(trail: seq<Node>, p: map<Node, Edge>, nodes: seq<Node>, u: Node)
    requires Trail(trail, p, nodes) && u in nodes && u in p && u !in trail && p[trail[|trail| - 1]].target == u
    ensures Trail(trail + [u], p, nodes)
  {}

  /** `visited` with the trail marked as found on the pass from `v`. */
  ghost predicate Marked(visited: map<Node, Option<Node>>, visited0: map<Node, Option<Node>>, trail: seq<Node>,
                         v: Node) {
    && visited.Keys == visited0.Keys
    && (forall n :: n in visited0 ==> visited[n] == if n in trail then Some(v) else visited0[n])
    && (forall n :: n in trail ==> n in visited0 && visited0[n] == None)
  }

  lemma MarkedGrows(visited: map<Node, Option<Node>>, visited0: map<Node, Option<Node>>, trail: seq<Node>, v: Node,
                    u: Node)
    requires Marked(visited, visited0, trail, v) && u in visited && visited[u] == None
    ensures Marked(visited[u := Some(v)], visited0, trail + [u], v) && u !in trail
  {}

  ghost function Unmarked(visited: map<Node, Option<Node>>): set<Node> {
    set n | n in visited && visited[n] == None
  }

  lemma MarkedNone(visited0: map<Node, Option<Node>>, v: Node)
    ensures Marked(visited0, visited0, [], v)
  {}

  lemma MarkedKeys(visited: map<Node, Option<Node>>, visited0: map<Node, Option<Node>>, trail: seq<Node>, v: Node)
    requires Marked(visited, visited0, trail, v)
    ensures visited.Keys == visited0.Keys
  {}

  lemma PolicyStays(p: map<Node, Edge>, nodes: seq<Node>, edges: seq<Edge>, u: Node)
    requires IsPolicy(p, nodes, edges) && u in nodes
    ensures u in p && p[u].target in nodes
  {}

  lemma TrailFacts(trail: seq<Node>, p: map<Node, Edge>, nodes: seq<Node>)
    requires Trail(trail, p, nodes)
    ensures trail != [] && trail[|trail| - 1] in p && forall n :: n in trail ==> n in p
  {}

  /** Where a trail has led. */
  ghost predicate LedTo(trail: seq<Node>, p: map<Node, Edge>, nodes: seq<Node>, v: Node, u: Node) {
    if trail == [] then u == v
    else Trail(trail, p, nodes) && trail[0] == v && p[trail[|trail| - 1]].target == u
  }

  lemma LedFurther(trail: seq<Node>, p: map<Node, Edge>, nodes: seq<Node>, edges: seq<Edge>, v: Node, u: Node)
    requires IsPolicy(p, nodes, edges) && u in nodes && u !in trail && LedTo(trail, p, nodes, v, u)
    ensures u in p && LedTo(trail + [u], p, nodes, v, p[u].target)
  {
    TrailStep(trail, p, nodes, edges, u);
  }

  /** Follows the policy from `v` until a marked node comes up. */
  method Mark(v: Node, visited0: map<Node, Option<Node>>, p: map<Node, Edge>, nodes: seq<Node>, ghost edges: seq<Edge>)
    returns (u: Node, visited: map<Node, Option<Node>>, ghost trail: seq<Node>)
    requires IsPolicy(p, nodes, edges) && v in nodes && v in visited0 && visited0[v] == None
    requires visited0.Keys == NodeSet(nodes)
    ensures trail != [] && LedTo(trail, p, nodes, v, u) && u in nodes && u in visited
    ensures Marked(visited, visited0, trail, v) && visited[u] != None
  {
    hide Trail, Marked, LedTo, IsPolicy;
    u, visited, trail := v, visited0, [];
    MarkedNone(visited0, v);
    assert LedTo([], p, nodes, v, v) by { StartsThere(p, nodes, v); }
    while true
      invariant u in nodes && u in visited && visited[u] == None
      invariant LedTo(trail, p, nodes, v, u) && Marked(visited, visited0, trail, v)
      decreases Unmarked(visited)
    {
      MarkedKeys(visited, visited0, trail, v);
      MarkedGrows(visited, visited0, trail, v, u);
      LedFurther(trail, p, nodes, edges, v, u);
      PolicyStays(p, nodes, edges, u);
      ghost var open := Unmarked(visited);
      visited := visited[u := Some(v)];
      trail := trail + [u];
      assert Unmarked(visited) == open - {u};
      u := p[u].target;
      if visited[u] != None {
        break;
      }
    }
  }

  lemma StartsThere(p: map<Node, Edge>, nodes: seq<Node>, v: Node)
    ensures LedTo([], p, nodes, v, v)
  {}

  lemma TrailStep(trail: seq<Node>, p: map<Node, Edge>, nodes: seq<Node>, edges: seq<Edge>, u: Node)
    requires IsPolicy(p, nodes, edges) && u in nodes && u !in trail
    requires trail == [] || (Trail(trail, p, nodes) && p[trail[|trail| - 1]].target == u)
    ensures Trail(trail + [u], p, nodes)
  {
    if trail != [] {
      TrailGrows(trail, p, nodes, u);
    }
  }

  /** Adds up the policy's cycle through `x`. */
  method SumCycle(x: Node, p: map<Node, Edge>, ghost trail: seq<Node>, ghost nodes: seq<Node>)
    returns (sum: int, len: int)
    requires Trail(trail, p, nodes) && trail[0] == x && p[trail[|trail| - 1]].target == x
    ensures sum == -Cost(Chosen(trail, p)) && len == Time(Chosen(trail, p))
  {
    var u := x;
    sum, len := 0, 0;
    ghost var j := 0;
    while true
      invariant j < |trail| && u == trail[j]
      invariant sum == -Cost(Chosen(trail[..j], p)) && len == Time(Chosen(trail[..j], p))
      decreases |trail| - j
    {
      sum := sum - p[u].cost;
      len := len + p[u].time;
      CostTimeSnoc(Chosen(trail[..j], p), p[u]);
      assert Chosen(trail[..j], p) + [p[u]] == Chosen(trail[..j + 1], p);
      j := j + 1;
      u := p[u].target;
      assert j < |trail| ==> u == trail[j];
      if x == u {
        assert trail[..|trail|] == trail;
        assert j == |trail|;
        break;
      }
    }
  }

  /** A pass over the policy from `v` that comes back to a node it has itself marked has found a cycle. */
  lemma TrailCloses(trail: seq<Node>, p: map<Node, Edge>, nodes: seq<Node>, u: Node) returns (k: nat)
    requires Trail(trail, p, nodes) && u in trail
    ensures k < |trail| && trail[k] == u && Trail(trail[k..], p, nodes)
  {
    k :| 0 <= k < |trail| && trail[k] == u;
    var rest := trail[k..];
    assert forall i :: 0 <= i < |rest| ==> rest[i] == trail[k + i];
  }

  lemma RatioOfCycle(c: seq<Edge>, edges: seq<Edge>)
    requires Closed(c) && Over(c, EdgeSet(edges)) && NonNegative(edges) && PositiveTimes(EdgeSet(edges))
    ensures Time(c) > 0 && -Ratio(c) <= 0.0 && (-Cost(c)) as real / Time(c) as real == -Ratio(c)
  {
    CostNonNegative(c, edges);
    var x, t := Cost(c) as real, Time(c) as real;
    assert x / t >= 0.0;
    assert (-Cost(c)) as real == -x;
    assert ((-x) / t + x / t) * t == 0.0;
  }

  lemma FoundHandles(c: seq<Edge>, p: map<Node, Edge>, edges: seq<Edge>, u: Node)
    requires PolicyCycle(c, p) && DistinctSources(c) && Over(c, EdgeSet(edges)) && c[0].source == u
    requires NonNegative(edges) && PositiveTimes(EdgeSet(edges))
    ensures Time(c) > 0 && -Ratio(c) <= 0.0 && (-Cost(c)) as real / Time(c) as real == -Ratio(c)
    ensures Handles(u, -Ratio(c), p, edges)
  {
    RatioOfCycle(c, edges);
  }

  /** Every mark is the name of a node that is itself marked. */
  ghost predicate MarksMarked(visited: map<Node, Option<Node>>) {
    forall n :: n in visited && visited[n].Some? ==> visited[n].value in visited && visited[visited[n].value].Some?
  }

  lemma NewMark(visited: map<Node, Option<Node>>, visited0: map<Node, Option<Node>>, trail: seq<Node>, v: Node,
                u: Node)
    requires Marked(visited, visited0, trail, v) && MarksMarked(visited0) && v in trail && v in visited0
    requires visited0[v] == None && u in visited && visited[u] != None
    ensures MarksMarked(visited) && (visited[u] == Some(v) <==> u in trail)
  {}

  // Two cycles of a policy that share a node are rotations of each other

  lemma RotationSums(c: seq<Edge>, j: nat)
    requires j <= |c|
    ensures Cost(c[j..] + c[..j]) == Cost(c) && Time(c[j..] + c[..j]) == Time(c)
  {
    CostTimeConcat(c[j..], c[..j]);
    CostTimeConcat(c[..j], c[j..]);
    assert c[..j] + c[j..] == c;
  }

  lemma RotationCycles(c: seq<Edge>, p: map<Node, Edge>, j: nat)
    requires PolicyCycle(c, p) && DistinctSources(c) && j < |c|
    ensures PolicyCycle(c[j..] + c[..j], p) && (c[j..] + c[..j])[0].source == c[j].source
    ensures DistinctSources(c[j..] + c[..j])
  {
    var d := c[j..] + c[..j];
    forall i | 0 <= i < |d|
      ensures d[i] == c[if i < |c| - j then j + i else i - (|c| - j)]
    {}
    forall i | 0 <= i < |d| - 1
      ensures d[i].target == d[i + 1].source
    {
      if i == |c| - j - 1 {
        assert d[i] == c[|c| - 1] && d[i + 1] == c[0];
      }
    }
  }

  /** A cycle's prefix is determined by the policy and the node it starts at. */
  lemma {:induction false} PolicyWalk(a: seq<Edge>, b: seq<Edge>, p: map<Node, Edge>, i: nat)
    requires PolicyCycle(a, p) && PolicyCycle(b, p) && a[0].source == b[0].source && i < |a| && i < |b|
    ensures a[i] == b[i]
  {
    if i > 0 {
      PolicyWalk(a, b, p, i - 1);
      assert a[i - 1].target == a[i].source && b[i - 1].target == b[i].source;
    }
  }

  lemma NotLonger(a: seq<Edge>, b: seq<Edge>, p: map<Node, Edge>)
    requires PolicyCycle(a, p) && PolicyCycle(b, p) && DistinctSources(b) && a[0].source == b[0].source
    ensures |b| <= |a|
  {
    if |a| < |b| {
      var beyond := b[|a|];
      PolicyWalk(a, b, p, |a| - 1);
    }
  }

  lemma SameCycle(a: seq<Edge>, b: seq<Edge>, p: map<Node, Edge>)
    requires PolicyCycle(a, p) && DistinctSources(a) && PolicyCycle(b, p) && DistinctSources(b)
    requires a[0].source == b[0].source
    ensures a == b
  {
    NotLonger(a, b, p);
    NotLonger(b, a, p);
    forall i | 0 <= i < |a|
      ensures a[i] == b[i]
    {
      PolicyWalk(a, b, p, i);
    }
  }

  /** `found` bounds every cycle of the policy that goes through its first node. */
  lemma SharedNodeBounds(c: seq<Edge>, found: seq<Edge>, p: map<Node, Edge>, j: nat, bound: real)
    requires PolicyCycle(c, p) && DistinctSources(c) && PolicyCycle(found, p) && DistinctSources(found)
    requires j < |c| && c[j].source == found[0].source && BoundedBy(found, bound)
    ensures BoundedBy(c, bound)
  {
    RotationCycles(c, p, j);
    RotationSums(c, j);
    SameCycle(c[j..] + c[..j], found, p);
  }

  ghost predicate IsMarked(visited: map<Node, Option<Node>>, n: Node) {
    n in visited && visited[n] != None
  }

  /** The marked nodes are closed under the policy. */
  ghost predicate Swept(visited: map<Node, Option<Node>>, p: map<Node, Edge>) {
    && (forall n :: IsMarked(visited, n) ==> n in p)
    && (forall n {:trigger p[n]} :: IsMarked(visited, n) ==> IsMarked(visited, p[n].target))
  }

  /** `r` is at least as good as every cycle of the policy through a marked node. */
  ghost predicate Evaluated(visited: map<Node, Option<Node>>, p: map<Node, Edge>, r: real) {
    forall c: seq<Edge> {:trigger PolicyCycle(c, p)} ::
      PolicyCycle(c, p) && DistinctSources(c) && IsMarked(visited, c[0].source) ==> BoundedBy(c, -r)
  }

  /** A cycle with one marked node is marked all over. */
  lemma {:induction false} SweptCycle(c: seq<Edge>, visited: map<Node, Option<Node>>, p: map<Node, Edge>, i: nat,
                                      j: nat)
    requires PolicyCycle(c, p) && Swept(visited, p) && i <= j < |c| && IsMarked(visited, c[i].source)
    ensures IsMarked(visited, c[j].source)
    decreases j
  {
    if i < j {
      SweptCycle(c, visited, p, i, j - 1);
      assert c[j - 1].target == c[j].source;
    }
  }

  lemma SweptBack(c: seq<Edge>, visited: map<Node, Option<Node>>, p: map<Node, Edge>, i: nat)
    requires PolicyCycle(c, p) && Swept(visited, p) && i < |c| && IsMarked(visited, c[i].source)
    ensures IsMarked(visited, c[0].source)
  {
    SweptCycle(c, visited, p, i, |c| - 1);
    assert c[|c| - 1].target == c[0].source;
  }

  lemma MarkSweeps(visited: map<Node, Option<Node>>, visited0: map<Node, Option<Node>>, trail: seq<Node>, v: Node,
                   u: Node, p: map<Node, Edge>, nodes: seq<Node>)
    requires Marked(visited, visited0, trail, v) && Trail(trail, p, nodes) && Swept(visited0, p)
    requires p[trail[|trail| - 1]].target == u && IsMarked(visited, u)
    ensures Swept(visited, p)
    ensures forall n :: IsMarked(visited, n) <==> IsMarked(visited0, n) || n in trail
  {
    forall n | IsMarked(visited, n)
      ensures n in p && IsMarked(visited, p[n].target)
    {
      if n in trail {
        var i :| 0 <= i < |trail| && trail[i] == n;
        if i < |trail| - 1 {
          assert p[trail[i]].target == trail[i + 1];
          assert trail[i + 1] in trail;
        }
      } else {
        assert IsMarked(visited0, n);
      }
    }
  }

  /** A cycle through the trail of a pass runs along it to its end. */
  lemma {:induction false} CycleAlongTrail(c: seq<Edge>, trail: seq<Node>, p: map<Node, Edge>, nodes: seq<Node>,
                                           i: nat, u: Node) returns (j: nat)
    requires PolicyCycle(c, p) && Trail(trail, p, nodes) && i < |trail| && p[trail[|trail| - 1]].target == u
    requires exists a :: 0 <= a < |c| && c[a].source == trail[i]
    ensures j < |c| && c[j].source == u
    decreases |trail| - i
  {
    var a :| 0 <= a < |c| && c[a].source == trail[i];
    var next := if a == |c| - 1 then 0 else a + 1;
    assert c[a].target == c[next].source;
    if i == |trail| - 1 {
      j := next;
    } else {
      assert p[trail[i]].target == trail[i + 1];
      assert c[next].source == trail[i + 1];
      j := CycleAlongTrail(c, trail, p, nodes, i + 1, u);
    }
  }

  /** The cycle that a pass has closed, if it has closed one, is bounded by `bound`. */
  ghost predicate ClosedBounded(trail: seq<Node>, u: Node, p: map<Node, Edge>, bound: real) {
    exists k :: 0 <= k < |trail| && trail[k] == u && (forall n :: n in trail[k..] ==> n in p) &&
                BoundedBy(Chosen(trail[k..], p), bound)
  }

  lemma NewCycleBounded(c: seq<Edge>, visited0: map<Node, Option<Node>>, trail: seq<Node>, u: Node,
                        p: map<Node, Edge>, nodes: seq<Node>, edges: seq<Edge>, bound: real)
    requires IsPolicy(p, nodes, edges) && Trail(trail, p, nodes) && p[trail[|trail| - 1]].target == u
    requires Swept(visited0, p)
    requires if u in trail then ClosedBounded(trail, u, p, bound) else IsMarked(visited0, u)
    requires PolicyCycle(c, p) && DistinctSources(c) && c[0].source in trail && !IsMarked(visited0, c[0].source)
    ensures BoundedBy(c, bound)
  {
    var i :| 0 <= i < |trail| && trail[i] == c[0].source;
    assert 0 < |c| && c[0].source == trail[i];
    var j := CycleAlongTrail(c, trail, p, nodes, i, u);
    if u in trail {
      var k :| 0 <= k < |trail| && trail[k] == u && (forall n :: n in trail[k..] ==> n in p) &&
               BoundedBy(Chosen(trail[k..], p), bound);
      TrailCycle(trail, p, nodes, edges, k);
      hide BoundedBy, Trail, PolicyCycle, DistinctSources;
      SharedNodeBounds(c, Chosen(trail[k..], p), p, j, bound);
    } else {
      SweptBack(c, visited0, p, j);
    }
  }

  lemma ClosesBounded(trail: seq<Node>, u: Node, p: map<Node, Edge>, k: nat, r: real)
    requires k < |trail| && trail[k] == u && forall n :: n in trail[k..] ==> n in p
    requires Time(Chosen(trail[k..], p)) > 0 && r <= -Ratio(Chosen(trail[k..], p))
    ensures ClosedBounded(trail, u, p, -r)
  {
    BoundFromRatio(Chosen(trail[k..], p), -r);
  }

  /** After a pass the new nodes are evaluated, too: their only cycle is the one the pass has closed, if any. */
  lemma PassEvaluates(visited: map<Node, Option<Node>>, visited0: map<Node, Option<Node>>, trail: seq<Node>, u: Node,
                      p: map<Node, Edge>, nodes: seq<Node>, edges: seq<Edge>, r0: real, r: real)
    requires IsPolicy(p, nodes, edges) && Trail(trail, p, nodes) && p[trail[|trail| - 1]].target == u
    requires Swept(visited0, p) && Evaluated(visited0, p, r0) && r <= r0
    requires PositiveTimes(EdgeSet(edges)) && forall n :: IsMarked(visited0, n) ==> n in nodes
    requires forall n :: IsMarked(visited, n) <==> IsMarked(visited0, n) || n in trail
    requires if u in trail then ClosedBounded(trail, u, p, -r) else IsMarked(visited0, u)
    ensures Evaluated(visited, p, r)
  {
    hide BoundedBy, Trail, IsPolicy, Swept, PositiveTimes, ClosedBounded;
    forall c: seq<Edge> | PolicyCycle(c, p) && DistinctSources(c) && IsMarked(visited, c[0].source)
      ensures BoundedBy(c, -r)
    {
      if IsMarked(visited0, c[0].source) {
        SweptOver(c, visited0, p, nodes, edges);
        BoundGrows(c, -r0, -r);
      } else {
        NewCycleBounded(c, visited0, trail, u, p, nodes, edges, -r);
      }
    }
  }

  lemma SweptOver(c: seq<Edge>, visited: map<Node, Option<Node>>, p: map<Node, Edge>, nodes: seq<Node>,
                  edges: seq<Edge>)
    requires PolicyCycle(c, p) && Swept(visited, p) && IsMarked(visited, c[0].source)
    requires IsPolicy(p, nodes, edges) && PositiveTimes(EdgeSet(edges))
    requires forall n :: IsMarked(visited, n) ==> n in nodes
    ensures Over(c, EdgeSet(edges)) && Time(c) > 0
  {
    forall i | 0 <= i < |c|
      ensures c[i] in edges
    {
      SweptCycle(c, visited, p, 0, i);
    }
  }

  /** No cycle of the policy improves on `r`. */
  ghost predicate NoImprovement(p: map<Node, Edge>, nodes: seq<Node>, r: real) {
    forall c: seq<Edge> {:trigger PolicyCycle(c, p)} ::
      PolicyCycle(c, p) && DistinctSources(c) && c[0].source in nodes ==> BoundedBy(c, -r)
  }

  /** What a sequence of passes has established. */
  ghost predicate Passed(visited: map<Node, Option<Node>>, p: map<Node, Edge>, nodes: seq<Node>, edges: seq<Edge>,
                         r0: real, r: real, handle: Option<Node>) {
    && visited.Keys == NodeSet(nodes)
    && MarksMarked(visited) && Swept(visited, p) && Evaluated(visited, p, r)
    && (handle == None ==> r == r0)
    && (handle.Some? ==> r < r0 && handle.value in nodes && Handles(handle.value, r, p, edges))
    && ((exists n :: IsMarked(visited, n)) ==> r <= 0.0)
  }

  lemma PassedMarked(visited: map<Node, Option<Node>>, visited0: map<Node, Option<Node>>, trail: seq<Node>, v: Node,
                     u: Node, p: map<Node, Edge>, nodes: seq<Node>, edges: seq<Edge>, r0: real, r: real,
                     handle: Option<Node>, r': real)
    requires Passed(visited0, p, nodes, edges, r0, r, handle) && r' <= r
    requires IsPolicy(p, nodes, edges) && PositiveTimes(EdgeSet(edges))
    requires trail != [] && LedTo(trail, p, nodes, v, u) && v in visited0 && visited0[v] == None
    requires Marked(visited, visited0, trail, v) && u in visited && visited[u] != None
    requires u in trail ==> ClosedBounded(trail, u, p, -r')
    ensures visited.Keys == NodeSet(nodes)
    ensures MarksMarked(visited) && Swept(visited, p) && Evaluated(visited, p, r')
  {
    hide ClosedBounded, Evaluated, Handles, Trail, LedTo, MarksMarked, Swept, PositiveTimes, IsPolicy;
    MarkFacts(visited, visited0, trail, v, u, p, nodes);
    MarkSweeps(visited, visited0, trail, v, u, p, nodes);
    PassEvaluates(visited, visited0, trail, u, p, nodes, edges, r, r');
  }

  /** One pass of the policy evaluation, from a node that has not been marked yet. */
  method Pass(v: Node, visited0: map<Node, Option<Node>>, p: map<Node, Edge>, nodes: seq<Node>, ghost edges: seq<Edge>,
              ghost rStart: real, r0: real, handle0: Option<Node>)
    returns (visited: map<Node, Option<Node>>, r: real, handle: Option<Node>)
    requires IsPolicy(p, nodes, edges) && NonNegative(edges) && PositiveTimes(EdgeSet(edges))
    requires Passed(visited0, p, nodes, edges, rStart, r0, handle0) && v in nodes && visited0.Keys == NodeSet(nodes)
    requires v in visited0 && visited0[v] == None
    ensures visited.Keys == NodeSet(nodes) && Passed(visited, p, nodes, edges, rStart, r, handle)
    ensures IsMarked(visited, v) && forall n :: IsMarked(visited0, n) ==> IsMarked(visited, n)
  {
    hide Trail, MarksMarked, IsPolicy, LedTo, Handles, PositiveTimes, NonNegative, PolicyCycle, Swept, Evaluated,
         BoundedBy, ClosedBounded, Passed;
    r, handle := r0, handle0;
    ghost var trail;
    var u;
    u, visited, trail := Mark(v, visited0, p, nodes, edges);
    PassFacts(visited, visited0, trail, v, u, p, nodes, edges, rStart, r0, handle0);
    if visited[u] != Some(v) {
      PassedMarked(visited, visited0, trail, v, u, p, nodes, edges, rStart, r, handle, r);
    } else {
      ghost var k := TrailCloses(trail, p, nodes, u);
      TrailFacts(trail[k..], p, nodes);
      var sum, len := SumCycle(u, p, trail[k..], nodes);
      TrailCycle(trail, p, nodes, edges, k);
      FoundHandles(Chosen(trail[k..], p), p, edges, u);
      if r > sum as real / len as real {
        r := sum as real / len as real;
        handle := Some(u);
      }
      ClosesBounded(trail, u, p, k, r);
      PassedMarked(visited, visited0, trail, v, u, p, nodes, edges, rStart, r0, handle0, r);
    }
    PassKeeps(visited, visited0, p, nodes, edges, rStart, r0, handle0, r, handle);
  }

  lemma PassFacts(visited: map<Node, Option<Node>>, visited0: map<Node, Option<Node>>, trail: seq<Node>, v: Node,
                  u: Node, p: map<Node, Edge>, nodes: seq<Node>, edges: seq<Edge>, rStart: real, r0: real,
                  handle0: Option<Node>)
    requires Passed(visited0, p, nodes, edges, rStart, r0, handle0)
    requires trail != [] && LedTo(trail, p, nodes, v, u) && v in visited0 && visited0[v] == None
    requires Marked(visited, visited0, trail, v) && u in visited && visited[u] != None
    ensures Trail(trail, p, nodes) && (forall n :: n in trail ==> n in p) && p[trail[|trail| - 1]].target == u
    ensures visited[u] == Some(v) <==> u in trail
    ensures visited[u] != Some(v) ==> r0 <= 0.0
    ensures IsMarked(visited, v) && forall n :: IsMarked(visited0, n) ==> IsMarked(visited, n)
  {
    hide Swept, Evaluated, Handles;
    MarkFacts(visited, visited0, trail, v, u, p, nodes);
    if visited[u] != Some(v) {
      assert IsMarked(visited0, u);
    }
  }

  lemma PassKeeps(visited: map<Node, Option<Node>>, visited0: map<Node, Option<Node>>, p: map<Node, Edge>,
                  nodes: seq<Node>, edges: seq<Edge>, rStart: real, r0: real, handle0: Option<Node>, r: real,
                  handle: Option<Node>)
    requires Passed(visited0, p, nodes, edges, rStart, r0, handle0) && visited.Keys == NodeSet(nodes)
    requires MarksMarked(visited) && Swept(visited, p) && Evaluated(visited, p, r) && r <= 0.0
    requires (r == r0 && handle == handle0) ||
             (r < r0 && handle.Some? && handle.value in nodes && Handles(handle.value, r, p, edges))
    ensures Passed(visited, p, nodes, edges, rStart, r, handle)
  {
    hide MarksMarked, Swept, Evaluated, Handles, IsMarked;
  }

  /** Evaluates the policy: the best ratio among `r0` and those of the policy's cycles, and a node of the cycle that
      improves on `r0`, if one does. */
  method FindRatio(nodes: seq<Node>, r0: real, p: map<Node, Edge>, ghost edges: seq<Edge>)
    returns (r: real, handle: Option<Node>)
    requires IsPolicy(p, nodes, edges) && NonNegative(edges) && PositiveTimes(EdgeSet(edges))
    ensures handle == None ==> r == r0
    ensures handle.Some? ==> r < r0 && handle.value in nodes && Handles(handle.value, r, p, edges)
    ensures nodes != [] ==> r <= 0.0
    ensures NoImprovement(p, nodes, r)
  {
    hide MarksMarked, IsPolicy, Handles, PositiveTimes, NonNegative, PolicyCycle, Swept, Evaluated, BoundedBy, Passed,
         NoImprovement;
    var visited: map<Node, Option<Node>> := map n | n in nodes :: None;
    NoMarks(nodes, p, edges, r0);
    handle, r := None, r0;
    for i := 0 to |nodes|
      invariant visited.Keys == NodeSet(nodes) && Passed(visited, p, nodes, edges, r0, r, handle)
      invariant forall k :: 0 <= k < i ==> IsMarked(visited, nodes[k])
    {
      var v := nodes[i];
      if visited[v] != None {
        continue;
      }
      visited, r, handle := Pass(v, visited, p, nodes, edges, r0, r, handle);
    }
    AllPassed(visited, p, nodes, edges, r0, r, handle);
  }

  lemma AllPassed(visited: map<Node, Option<Node>>, p: map<Node, Edge>, nodes: seq<Node>, edges: seq<Edge>, r0: real,
                  r: real, handle: Option<Node>)
    requires Passed(visited, p, nodes, edges, r0, r, handle)
    requires forall k :: 0 <= k < |nodes| ==> IsMarked(visited, nodes[k])
    ensures handle == None ==> r == r0
    ensures handle.Some? ==> r < r0 && handle.value in nodes && Handles(handle.value, r, p, edges)
    ensures nodes != [] ==> r <= 0.0
    ensures NoImprovement(p, nodes, r)
  {
    hide Handles, MarksMarked, Swept;
    if nodes != [] {
      assert IsMarked(visited, nodes[0]);
    }
  }

  lemma NoMarks(nodes: seq<Node>, p: map<Node, Edge>, edges: seq<Edge>, r: real)
    ensures Passed(map n | n in nodes :: None, p, nodes, edges, r, r, None)
  {
    var visited: map<Node, Option<Node>> := map n | n in nodes :: None;
    assert visited.Keys == NodeSet(nodes);
  }

  lemma MarkFacts(visited: map<Node, Option<Node>>, visited0: map<Node, Option<Node>>, trail: seq<Node>, v: Node,
                  u: Node, p: map<Node, Edge>, nodes: seq<Node>)
    requires trail != [] && LedTo(trail, p, nodes, v, u) && v in visited0 && visited0[v] == None
    requires Marked(visited, visited0, trail, v) && MarksMarked(visited0) && u in visited && visited[u] != None
    ensures visited.Keys == visited0.Keys && MarksMarked(visited) && (visited[u] == Some(v) <==> u in trail)
    ensures Trail(trail, p, nodes) && (forall n :: n in trail ==> n in p) && p[trail[|trail| - 1]].target == u
    ensures (forall n :: n in visited0 ==> visited0[n] == None) ==> u in trail
  {
    NewMark(visited, visited0, trail, v, u);
  }
}

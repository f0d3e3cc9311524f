/** Why the rounds of the policy iteration end: between two improvements of the ratio every value stays above a bound,
    while each round lowers one of them by more than the tolerance. */
module PolicyPhase {
  import opened Wrappers
  import opened LatencyGraph
  import opened CycleEnumeration
  import opened PolicyEvaluation

  /** What following `e` costs when time is charged at `r`. */
  function Charge(e: Edge, r: real): real {
    -(e.cost as real) - r * e.time as real
  }

  function Charges(w: seq<Edge>, r: real): real {
    -(Cost(w) as real) - r * Time(w) as real
  }

  lemma ChargesSnoc(w: seq<Edge>, e: Edge, r: real)
    ensures Charges(w + [e], r) == Charges(w, r) + Charge(e, r)
  {
    CostTimeSnoc(w, e);
    assert r * (Time(w) + e.time) as real == r * Time(w) as real + r * e.time as real;
  }

  lemma ChargesBound(w: seq<Edge>, r: real)
    ensures BoundedBy(w, -r) <==> Charges(w, r) >= 0.0
  {
    assert (-r) * Time(w) as real == -(r * Time(w) as real);
  }

  /** `d` at the source of each edge of the walk is at least `d` at its target plus the charge. */
  ghost predicate Descends(w: seq<Edge>, d: map<Node, real>, r: real) {
    forall i :: 0 <= i < |w| ==>
      w[i].source in d && w[i].target in d && d[w[i].source] >= d[w[i].target] + Charge(w[i], r)
  }

  lemma {:induction false} DescendsAlong(w: seq<Edge>, d: map<Node, real>, r: real)
    requires w != [] && IsWalk(w) && Descends(w, d, r)
    ensures d[w[0].source] >= d[w[|w| - 1].target] + Charges(w, r)
  {
    var v, e := w[..|w| - 1], w[|w| - 1];
    assert w == v + [e];
    ChargesSnoc(v, e, r);
    if v != [] {
      DescendsAlong(v, d, r);
      assert v[|v| - 1].target == e.source;
    }
  }

  /** `d` at the source of each edge exceeds `d` at its target plus the charge by at most `eps`. */
  ghost predicate Stable(w: seq<Edge>, d: map<Node, real>, r: real, eps: real) {
    forall i :: 0 <= i < |w| ==>
      w[i].source in d && w[i].target in d && d[w[i].source] <= d[w[i].target] + Charge(w[i], r) + eps
  }

  lemma {:induction false} StableAlong(w: seq<Edge>, d: map<Node, real>, r: real, eps: real)
    requires w != [] && IsWalk(w) && Stable(w, d, r, eps)
    ensures d[w[0].source] <= d[w[|w| - 1].target] + Charges(w, r) + |w| as real * eps
  {
    var v, e := w[..|w| - 1], w[|w| - 1];
    assert w == v + [e];
    ChargesSnoc(v, e, r);
    assert |w| as real * eps == |v| as real * eps + eps;
    if v != [] {
      StableAlong(v, d, r, eps);
      assert v[|v| - 1].target == e.source;
    }
  }

  /** The policy's cycles among the nodes changed in this phase. */
  ghost predicate ChangedCycle(c: seq<Edge>, p: map<Node, Edge>, changed: set<Node>) {
    PolicyCycle(c, p) && DistinctSources(c) && forall i :: 0 <= i < |c| ==> c[i].source in changed
  }

  /** What a phase keeps: nodes not changed have their old value, changed ones descend along the policy, and a cycle
      of the policy among changed nodes would improve on `r`. */
  ghost predicate Phase(d: map<Node, real>, d0: map<Node, real>, p: map<Node, Edge>, changed: set<Node>, r: real) {
    && d.Keys == d0.Keys && changed <= d.Keys
    && (forall n :: n in d && n !in changed ==> d[n] == d0[n])
    && (forall n :: n in changed ==> n in p && p[n].target in d && d[n] >= d[p[n].target] + Charge(p[n], r))
    && (forall c: seq<Edge> {:trigger ChangedCycle(c, p, changed)} :: ChangedCycle(c, p, changed) ==> Charges(c, r) < 0.0)
  }

  /** The state after `e` has replaced its source's choice. */
  ghost predicate Updates(e: Edge, d: map<Node, real>, d': map<Node, real>, p: map<Node, Edge>, p': map<Node, Edge>,
                          r: real, eps: real) {
    && e.source in d && e.target in d
    && d[e.source] > d[e.target] + Charge(e, r) + eps
    && d' == d[e.source := d[e.target] + Charge(e, r)]
    && p' == p[e.source := e]
  }

  /** A cycle of the new policy through the updated node improves on `r`. */
  lemma NewCycleImproves(c: seq<Edge>, e: Edge, d: map<Node, real>, d': map<Node, real>, d0: map<Node, real>,
                         p: map<Node, Edge>, p': map<Node, Edge>, changed: set<Node>, r: real, eps: real)
    requires Phase(d, d0, p, changed, r) && Updates(e, d, d', p, p', r, eps) && eps > 0.0
    requires ChangedCycle(c, p', changed + {e.source}) && c[0].source == e.source
    ensures Charges(c, r) < 0.0
  {
    var rest := c[1..];
    assert c == [c[0]] + rest && c[0] == e;
    RestCharges(c, r);
    if rest != [] {
      forall i | 0 <= i < |rest|
        ensures rest[i].source in changed && rest[i] == p[rest[i].source]
      {
        assert rest[i] == c[i + 1];
      }
      assert Descends(rest, d, r);
      assert IsWalk(rest) by {
        assert forall i :: 0 <= i < |rest| ==> rest[i] == c[i + 1];
      }
      DescendsAlong(rest, d, r);
      assert rest[0].source == e.target && rest[|rest| - 1].target == e.source;
    }
  }

  lemma RestCharges(c: seq<Edge>, r: real)
    requires c != []
    ensures Charges(c, r) == Charge(c[0], r) + Charges(c[1..], r)
  {
    CostTimeConcat([c[0]], c[1..]);
    CostTimeSnoc([], c[0]);
    assert [] + [c[0]] == [c[0]];
    assert c == [c[0]] + c[1..];
    assert r * (c[0].time + Time(c[1..])) as real == r * c[0].time as real + r * Time(c[1..]) as real;
  }

  lemma TurnedChanged(c: seq<Edge>, p: map<Node, Edge>, changed: set<Node>, j: nat)
    requires ChangedCycle(c, p, changed) && j < |c|
    ensures ChangedCycle(c[j..] + c[..j], p, changed)
  {
    RotationCycles(c, p, j);
    hide PolicyCycle, DistinctSources;
    var turned := c[j..] + c[..j];
    forall i | 0 <= i < |turned|
      ensures turned[i].source in changed
    {
      assert turned[i] == c[if i < |c| - j then j + i else i - (|c| - j)];
    }
  }

  lemma UnturnedChanged(c: seq<Edge>, e: Edge, p: map<Node, Edge>, changed: set<Node>)
    requires ChangedCycle(c, p[e.source := e], changed + {e.source})
    requires forall j :: 0 <= j < |c| ==> c[j].source != e.source
    ensures ChangedCycle(c, p, changed)
  {}

  lemma UpdateCycles(c: seq<Edge>, e: Edge, d: map<Node, real>, d': map<Node, real>, d0: map<Node, real>,
                     p: map<Node, Edge>, p': map<Node, Edge>, changed: set<Node>, r: real, eps: real)
    requires Phase(d, d0, p, changed, r) && Updates(e, d, d', p, p', r, eps) && eps > 0.0
    requires ChangedCycle(c, p', changed + {e.source})
    ensures Charges(c, r) < 0.0
  {
    hide Charge, ChangedCycle;
    if j :| 0 <= j < |c| && c[j].source == e.source {
      TurnedStart(c, p', changed + {e.source}, j);
      RotationSums(c, j);
      NewCycleImproves(c[j..] + c[..j], e, d, d', d0, p, p', changed, r, eps);
    } else {
      UnturnedChanged(c, e, p, changed);
    }
  }

  lemma TurnedStart(c: seq<Edge>, p: map<Node, Edge>, changed: set<Node>, j: nat)
    requires ChangedCycle(c, p, changed) && j < |c|
    ensures ChangedCycle(c[j..] + c[..j], p, changed) && (c[j..] + c[..j])[0].source == c[j].source
  {
    TurnedChanged(c, p, changed, j);
  }

  lemma UpdateKeepsPhase(e: Edge, d: map<Node, real>, d': map<Node, real>, d0: map<Node, real>, p: map<Node, Edge>,
                         p': map<Node, Edge>, changed: set<Node>, r: real, eps: real)
    requires Phase(d, d0, p, changed, r) && Updates(e, d, d', p, p', r, eps) && eps > 0.0
    ensures Phase(d', d0, p', changed + {e.source}, r)
  {
    hide Charge, Charges, ChangedCycle;
    forall c: seq<Edge> | ChangedCycle(c, p', changed + {e.source})
      ensures Charges(c, r) < 0.0
    {
      UpdateCycles(c, e, d, d', d0, p, p', changed, r, eps);
    }
  }

  lemma PhaseStarts(d: map<Node, real>, p: map<Node, Edge>, r: real)
    ensures Phase(d, d, p, {}, r)
  {
    forall c: seq<Edge>
      ensures !ChangedCycle(c, p, {})
    {
      if |c| > 0 {
        var first := c[0].source;
      }
    }
  }

  // The lower bound of a phase

  ghost predicate ChargesAtLeast(edges: seq<Edge>, r: real, k: real) {
    k >= 0.0 && forall e :: e in edges ==> Charge(e, r) >= -k
  }

  lemma NotBackToTrail(n: Node, trail: seq<Node>, d: map<Node, real>, d0: map<Node, real>, p: map<Node, Edge>,
                       changed: set<Node>, r: real, nodes: seq<Node>, edges: seq<Edge>)
    requires Phase(d, d0, p, changed, r) && NoImprovement(p, nodes, r) && IsPolicy(p, nodes, edges)
    requires trail != [] && (forall x :: x in trail ==> x in changed) && LedTo(trail, p, nodes, trail[0], n)
    ensures n !in trail
  {
    if n in trail {
      var i := TrailCloses(trail, p, nodes, n);
      TrailCycle(trail, p, nodes, edges, i);
      ChargesBound(Chosen(trail[i..], p), r);
      TrailChanged(trail, p, nodes, edges, changed, i);
    }
  }

  lemma DescendsTo(n: Node, d: map<Node, real>, d0: map<Node, real>, p: map<Node, Edge>, changed: set<Node>, r: real,
                   nodes: seq<Node>, edges: seq<Edge>, k: real)
    requires Phase(d, d0, p, changed, r) && IsPolicy(p, nodes, edges) && ChargesAtLeast(edges, r, k)
    requires n in changed && n in nodes
    ensures n in p && p[n].target in nodes && p[n].target in d && n in d && d[n] >= d[p[n].target] - k
  {}

  /** What `ValueAbove` needs to know of the phase. */
  ghost predicate BoundSetting(d: map<Node, real>, d0: map<Node, real>, p: map<Node, Edge>, changed: set<Node>,
                               r: real, nodes: seq<Node>, edges: seq<Edge>, m: real, k: real) {
    && Phase(d, d0, p, changed, r) && NoImprovement(p, nodes, r) && IsPolicy(p, nodes, edges)
    && d.Keys == NodeSet(nodes) && ChargesAtLeast(edges, r, k)
    && forall x :: x in d0 ==> d0[x] >= m
  }

  lemma UnchangedAbove(n: Node, d: map<Node, real>, d0: map<Node, real>, p: map<Node, Edge>, changed: set<Node>,
                       r: real, nodes: seq<Node>, edges: seq<Edge>, m: real, k: real, left: nat)
    requires BoundSetting(d, d0, p, changed, r, nodes, edges, m, k) && n in nodes && n !in changed
    ensures n in d && d[n] >= m - left as real * k
  {
    MultipleNonNegative(left, k);
  }

  lemma ChangedStep(n: Node, trail: seq<Node>, d: map<Node, real>, d0: map<Node, real>, p: map<Node, Edge>,
                    changed: set<Node>, r: real, nodes: seq<Node>, edges: seq<Edge>, m: real, k: real)
    requires BoundSetting(d, d0, p, changed, r, nodes, edges, m, k) && n in nodes && n in changed
    requires (forall x :: x in trail ==> x in changed) && LedTo(trail, p, nodes, if trail == [] then n else trail[0], n)
    ensures n in p && p[n].target in nodes && p[n].target in d && n in d && d[n] >= d[p[n].target] - k
    ensures LedTo(trail + [n], p, nodes, (trail + [n])[0], p[n].target)
    ensures |trail| + 1 <= |NodeSet(nodes)|
  {
    hide IsPolicy, ChargesAtLeast, NoImprovement, LedTo, Trail, Charge, Charges, ChangedCycle, Phase;
    if trail != [] {
      NotBackToTrail(n, trail, d, d0, p, changed, r, nodes, edges);
    }
    LedFurther(trail, p, nodes, edges, if trail == [] then n else trail[0], n);
    DescendsTo(n, d, d0, p, changed, r, nodes, edges, k);
    assert (trail + [n])[0] == if trail == [] then n else trail[0];
    TrailFits(trail + [n], p, nodes, p[n].target);
  }

  /** Following the policy from `n` leaves the changed nodes, within as many steps as there are nodes. */
  lemma {:induction false} ValueAbove(n: Node, trail: seq<Node>, d: map<Node, real>, d0: map<Node, real>,
                                      p: map<Node, Edge>, changed: set<Node>, r: real, nodes: seq<Node>,
                                      edges: seq<Edge>, m: real, k: real)
    requires BoundSetting(d, d0, p, changed, r, nodes, edges, m, k) && n in nodes
    requires (forall x :: x in trail ==> x in changed) && LedTo(trail, p, nodes, if trail == [] then n else trail[0], n)
    ensures |trail| <= |NodeSet(nodes)| && n in d && d[n] >= m - (|NodeSet(nodes)| - |trail|) as real * k
    decreases |NodeSet(nodes)| - |trail|
  {
    hide BoundSetting, LedTo, NodeSet;
    TrailFits(trail, p, nodes, n);
    var left := |NodeSet(nodes)| - |trail|;
    if n !in changed {
      UnchangedAbove(n, d, d0, p, changed, r, nodes, edges, m, k, left);
    } else {
      ChangedStep(n, trail, d, d0, p, changed, r, nodes, edges, m, k);
      ValueAbove(p[n].target, trail + [n], d, d0, p, changed, r, nodes, edges, m, k);
      assert left as real * k == (left - 1) as real * k + k;
    }
  }

  lemma MultipleNonNegative(n: nat, k: real)
    requires k >= 0.0
    ensures n as real * k >= 0.0
  {}

  lemma TrailChanged(trail: seq<Node>, p: map<Node, Edge>, nodes: seq<Node>, edges: seq<Edge>, changed: set<Node>,
                     i: nat)
    requires IsPolicy(p, nodes, edges) && Trail(trail, p, nodes) && i < |trail|
    requires p[trail[|trail| - 1]].target == trail[i] && forall x :: x in trail ==> x in changed
    ensures (forall x :: x in trail[i..] ==> x in p) && ChangedCycle(Chosen(trail[i..], p), p, changed)
  {
    TrailCycle(trail, p, nodes, edges, i);
    hide PolicyCycle, DistinctSources;
    var c := Chosen(trail[i..], p);
    forall j | 0 <= j < |c|
      ensures c[j].source in changed
    {
      assert trail[i..][j] == trail[i + j];
      assert trail[i + j] in trail;
      assert trail[i + j] in nodes;
    }
  }

  lemma TrailFits(trail: seq<Node>, p: map<Node, Edge>, nodes: seq<Node>, u: Node)
    requires LedTo(trail, p, nodes, if trail == [] then u else trail[0], u)
    ensures |trail| <= |NodeSet(nodes)|
  {
    var members := set x | x in trail;
    DistinctSize(trail);
    if trail != [] {
      assert members <= NodeSet(nodes);
    } else {
      assert members == {};
    }
    SubsetSize(members, NodeSet(nodes));
  }

  lemma {:induction false} DistinctSize(s: seq<Node>)
    ensures (forall i, j :: 0 <= i < j < |s| ==> s[i] != s[j]) ==> |(set x | x in s)| == |s|
  {
    if s != [] {
      var v, x := s[..|s| - 1], s[|s| - 1];
      DistinctSize(v);
      assert (set y | y in s) == (set y | y in v) + {x};
    }
  }

  lemma SubsetSize(a: set<Node>, b: set<Node>)
    requires a <= b
    ensures |a| <= |b|
  {
    assert b == a + (b - a);
    assert |b| == |a| + |b - a|;
  }
}

/** Reachability in a latency graph, and what it means to be a strongly connected component. */
module Reachability {
  import opened LatencyGraph

  ghost predicate Adjacent(g: Graph, x: Node, y: Node) {
    exists e :: e in OutEdges(g, x) && e.target == y
  }

  ghost predicate IsPath(g: Graph, p: seq<Node>) {
    && |p| > 0
    && (|p| > 1 ==> IsPath(g, p[..|p| - 1]) && Adjacent(g, p[|p| - 2], p[|p| - 1]))
  }

  ghost predicate PathBetween(g: Graph, p: seq<Node>, x: Node, y: Node) {
    IsPath(g, p) && p[0] == x && p[|p| - 1] == y
  }

  ghost predicate Reaches(g: Graph, x: Node, y: Node) {
    exists p :: PathBetween(g, p, x, y)
  }

  ghost predicate Mutual(g: Graph, x: Node, y: Node) {
    Reaches(g, x, y) && Reaches(g, y, x)
  }

  /** A listing without repetition of all the nodes that are mutually reachable with any one of its members. */
  ghost predicate IsComponent(g: Graph, c: seq<Node>) {
    && c != []
    && (forall i, j :: 0 <= i < j < |c| ==> c[i] != c[j])
    && (forall x, y :: x in c ==> (y in c <==> Mutual(g, x, y)))
  }

  /** `components` lists every node of `domain` exactly once, grouped by mutual reachability. */
  ghost predicate IsComponentPartition(g: Graph, components: seq<seq<Node>>, domain: iset<Node>) {
    && (forall c :: c in components ==> IsComponent(g, c))
    && (forall i, j, x :: 0 <= i < j < |components| && x in components[i] ==> x !in components[j])
    && (forall x :: x in domain <==> exists c :: c in components && x in c)
  }

  ghost predicate ReachedFromRoots(g: Graph, roots: seq<Node>, x: Node) {
    exists r :: r in roots && Reaches(g, r, x)
  }

  ghost function ReachableFrom(g: Graph, roots: seq<Node>): iset<Node> {
    iset x | ReachedFromRoots(g, roots, x)
  }

  lemma ReachesSelf(g: Graph, x: Node)
    ensures Reaches(g, x, x)
  {
    assert PathBetween(g, [x], x, x);
  }

  lemma ReachesStep(g: Graph, x: Node, y: Node)
    requires Adjacent(g, x, y)
    ensures Reaches(g, x, y)
  {
    assert PathBetween(g, [x, y], x, y);
  }

  lemma PathEnds(g: Graph, p: seq<Node>)
    requires IsPath(g, p) && |p| > 1
    ensures IsPath(g, p[..|p| - 1]) && Adjacent(g, p[|p| - 2], p[|p| - 1])
  {}

  lemma {:induction false} PathConcat(g: Graph, p: seq<Node>, q: seq<Node>)
    requires IsPath(g, p) && IsPath(g, q) && p[|p| - 1] == q[0]
    ensures IsPath(g, p + q[1..])
  {
    if |q| == 1 {
      assert p + q[1..] == p;
    } else {
      var r := p + q[1..];
      PathConcat(g, p, q[..|q| - 1]);
      hide Adjacent;
      PathEnds(g, q);
      assert r[..|r| - 1] == p + q[..|q| - 1][1..];
      assert r[|r| - 2] == q[|q| - 2] && r[|r| - 1] == q[|q| - 1];
    }
  }

  lemma ReachesTrans(g: Graph, x: Node, y: Node, z: Node)
    requires Reaches(g, x, y) && Reaches(g, y, z)
    ensures Reaches(g, x, z)
  {
    var p :| PathBetween(g, p, x, y);
    var q :| PathBetween(g, q, y, z);
    PathConcat(g, p, q);
    assert PathBetween(g, p + q[1..], x, z);
  }

  ghost predicate ClosedUnder(g: Graph, s: iset<Node>) {
    forall x, y :: x in s && Adjacent(g, x, y) ==> y in s
  }

  lemma ReachesStaysIn(g: Graph, s: iset<Node>, x: Node, y: Node)
    requires ClosedUnder(g, s) && x in s && Reaches(g, x, y)
    ensures y in s
  {
    var p :| PathBetween(g, p, x, y);
    PathStaysIn(g, s, p);
  }

  lemma {:induction false} PathStaysIn(g: Graph, s: iset<Node>, p: seq<Node>)
    requires ClosedUnder(g, s) && IsPath(g, p) && p[0] in s
    ensures p[|p| - 1] in s
  {
    if |p| > 1 {
      PathStaysIn(g, s, p[..|p| - 1]);
    }
  }
}

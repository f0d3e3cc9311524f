/** The recursive search for strongly connected components (`find_strongly_connected_components`). */
module RecursiveTarjan {
  import opened Arithmetic
  import opened LatencyGraph
  import opened Reachability
  import opened TarjanSearch
  import opened ExplicitTarjan

  /** The call stack that the explicit search would have under the last frame. */
  ghost function CallsUnder(frames: seq<Frame>): (calls: seq<Call>)
    requires frames != []
    ensures CallsBelow(calls, frames)
  {
    seq(|frames| - 1, i requires 0 <= i < |frames| - 1 => (frames[i].node, frames[i].explored + 1))
  }

  /** What a completed call leaves to its caller. */
  ghost predicate CallDone(g: Graph, s: Search, frames: seq<Frame>) {
    if frames == [] then Invariant(g, s, [], 0) else Returned(g, s, Advance(frames))
  }

  lemma FramesAfterLeave(g: Graph, s: Search, frames: seq<Frame>, top: Frame)
    requires Between(g, s, CallsUnder(frames + [top]), Callers(frames + [top]))
    ensures CallDone(g, s, frames)
  {
    hide Invariant;
    var all := frames + [top];
    assert all[..|all| - 1] == frames;
    assert forall i :: 0 <= i < |frames| ==> all[i] == frames[i];
  }

  method StrongConnect(tables: Tables, node: Node, ghost roots: seq<Node>, ghost frames: seq<Frame>)
    requires Settles(tables.g, tables.State(), frames) && CanVisit(tables.g, tables.State(), frames, node)
    requires AllReached(tables.g, roots, tables.State())
    requires frames == [] ==> node in roots
    modifies tables
    ensures CallDone(tables.g, tables.State(), frames) && AllReached(tables.g, roots, tables.State())
    ensures node in tables.indexDict && old(tables.indexDict).Keys <= tables.indexDict.Keys
    decreases Universe(tables.g, roots) - tables.indexDict.Keys
  {
    hide Invariant, StackOrdered, FramesLinked, Numbered, Universe, ReachedFromRoots, Between, CanVisit, Settles;
    hide OutEdges, Harvest, Popped;
    var g := tables.g;
    Unvisited(g, tables.State(), frames, node);
    VisitStep(g, roots, tables.State(), frames, node);
    tables.Begin(node);
    ghost var own := frames + [Frame(node, 0)];
    var edges := OutEdges(g, node);
    for i := 0 to |edges|
      invariant Settles(g, tables.State(), own) && AllReached(g, roots, tables.State())
      invariant own == frames + [Frame(node, i)]
      invariant node in tables.indexDict && old(tables.indexDict).Keys <= tables.indexDict.Keys
    {
      var target := edges[i].target;
      SettledFacts(g, tables.State(), own);
      if target !in tables.indexDict {
        EdgeVisits(g, tables.State(), own);
        StrongConnect(tables, target, roots, own);
        ReturnStep(g, tables.State(), Advance(own), Min(tables.lowlinkDict[node], tables.lowlinkDict[target]));
        tables.TakeOver(node, target);
      } else {
        FollowStep(g, tables.State(), own);
        tables.LowerTo(node, target);
      }
      own := Advance(own);
    }
    SettledFacts(g, tables.State(), own);
    tables.Leave(node, CallsUnder(own), own);
    FramesAfterLeave(g, tables.State(), frames, Frame(node, |edges|));
  }

  lemma Unvisited(g: Graph, s: Search, frames: seq<Frame>, w: Node)
    requires CanVisit(g, s, frames, w)
    ensures w !in s.indices
  {}

  lemma EdgeVisits(g: Graph, s: Search, frames: seq<Frame>)
    requires frames != [] && frames[|frames| - 1].node in s.lowlinks
    requires var f := frames[|frames| - 1];
             f.explored < |OutEdges(g, f.node)| && OutEdges(g, f.node)[f.explored].target !in s.indices
    ensures CanVisit(g, s, frames, OutEdges(g, frames[|frames| - 1].node)[frames[|frames| - 1].explored].target)
  {}

  method FindStronglyConnectedComponents(nodes: seq<Node>, g: Graph) returns (components: seq<seq<Node>>)
    ensures IsComponentPartition(g, components, ReachableFrom(g, nodes))
  {
    hide Invariant, IsComponentPartition, ReachableFrom, ReachedFromRoots;
    var tables := new Tables(g);
    InitialInvariant(g);
    for r := 0 to |nodes|
      invariant Invariant(g, tables.State(), [], 0) && AllReached(g, nodes, tables.State())
      invariant forall k :: 0 <= k < r ==> nodes[k] in tables.indexDict
    {
      if nodes[r] !in tables.indexDict {
        StrongConnect(tables, nodes[r], nodes, []);
      }
    }
    AllHarvested(g, nodes, tables.State());
    components := tables.components;
  }
}

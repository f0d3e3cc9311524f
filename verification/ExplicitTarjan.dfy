/** The search for strongly connected components with an explicit call stack (`findStronglyConnectedComponents`). */
module ExplicitTarjan {
  import opened Arithmetic
  import opened LatencyGraph
  import opened Reachability
  import opened TarjanSearch

  /** A node and the position in its edge list at which to go on; position 0 means that it has not been visited. */
  type Call = (Node, nat)

  /** The calls below the top wait for the edge before their position. */
  ghost predicate CallsMatch(calls: seq<Call>, frames: seq<Frame>) {
    && |frames| <= |calls|
    && forall i :: 0 <= i < |frames| && i < |calls| - 1 ==> calls[i] == (frames[i].node, frames[i].explored + 1)
  }

  /** The state between two rounds of the search loop. */
  ghost predicate Between(g: Graph, s: Search, calls: seq<Call>, frames: seq<Frame>) {
    && CallsMatch(calls, frames)
    && if calls == [] then
         Invariant(g, s, [], 0)
       else if calls[|calls| - 1].1 == 0 then
         && |frames| == |calls| - 1
         && Settles(g, s, frames)
         && CanVisit(g, s, frames, calls[|calls| - 1].0)
       else
         var (v, pi) := calls[|calls| - 1];
         && |frames| == |calls|
         && frames[|frames| - 1] == Frame(v, pi)
         && Returned(g, s, frames)
  }

  /** The invariant holds and the last frame's lowlink is up to date. */
  ghost predicate Settles(g: Graph, s: Search, frames: seq<Frame>) {
    if frames == [] then Invariant(g, s, [], 0)
    else
      && frames[|frames| - 1].node in s.lowlinks
      && Invariant(g, s, frames, s.lowlinks[frames[|frames| - 1].node])
  }

  /** The last frame has just counted an edge whose target's lowlink it has yet to take over. */
  ghost predicate Returned(g: Graph, s: Search, frames: seq<Frame>)
    requires frames != []
  {
    var f := frames[|frames| - 1];
    && 0 < f.explored <= |OutEdges(g, f.node)|
    && f.node in s.lowlinks && OutEdges(g, f.node)[f.explored - 1].target in s.lowlinks
    && Invariant(g, s, frames, Min(s.lowlinks[f.node], s.lowlinks[OutEdges(g, f.node)[f.explored - 1].target]))
  }

  /** All nodes the search can meet. */
  ghost function Universe(g: Graph, roots: seq<Node>): set<Node> {
    (set r | r in roots) + set n, e | n in g && e in g[n] :: e.target
  }

  ghost predicate AllReached(g: Graph, roots: seq<Node>, s: Search) {
    && s.indices.Keys <= Universe(g, roots)
    && forall x {:trigger ReachedFromRoots(g, roots, x)} :: x in s.indices ==> ReachedFromRoots(g, roots, x)
  }

  lemma VisitReached(g: Graph, roots: seq<Node>, s: Search, frames: seq<Frame>, w: Node)
    requires AllReached(g, roots, s) && CanVisit(g, s, frames, w) && s.indices.Keys == s.lowlinks.Keys
    requires frames == [] ==> w in roots
    ensures AllReached(g, roots, Visit(s, w))
  {
    if frames == [] {
      ReachesSelf(g, w);
    } else {
      var f := frames[|frames| - 1];
      assert Adjacent(g, f.node, w);
      assert ReachedFromRoots(g, roots, f.node);
      var r :| r in roots && Reaches(g, r, f.node);
      ReachesStep(g, f.node, w);
      ReachesTrans(g, r, f.node, w);
    }
    assert ReachedFromRoots(g, roots, w);
    forall x | x in Visit(s, w).indices
      ensures ReachedFromRoots(g, roots, x)
    {
      assert x != w ==> x in s.indices;
    }
  }

  /** Edges left in the calls that have been started. */
  ghost function Remaining(g: Graph, calls: seq<Call>): nat {
    if calls == [] then 0
    else
      var (v, pi) := calls[|calls| - 1];
      var left := |OutEdges(g, v)| + 1 - pi;
      Remaining(g, calls[..|calls| - 1]) + if pi == 0 || left < 0 then 0 else left
  }

  /** With no frame left, the components found list the reachable nodes once all roots have been visited. */
  lemma AllHarvested(g: Graph, roots: seq<Node>, s: Search)
    requires Invariant(g, s, [], 0) && AllReached(g, roots, s)
    requires forall r :: r in roots ==> r in s.indices
    ensures IsComponentPartition(g, s.components, ReachableFrom(g, roots))
  {
    NothingOnStack(g, s);
    var done := iset x | Finished(s, x);
    forall x
      ensures x in ReachableFrom(g, roots) <==> InComponent(s, x)
    {
      if ReachedFromRoots(g, roots, x) {
        var r :| r in roots && Reaches(g, r, x);
        ReachesStaysIn(g, done, r, x);
      }
      if InComponent(s, x) {
        assert Finished(s, x);
        assert ReachedFromRoots(g, roots, x);
      }
    }
    assert forall x :: InComponent(s, x) <==> exists c :: c in s.components && x in c;
  }

  lemma NothingOnStack(g: Graph, s: Search)
    requires Invariant(g, s, [], 0)
    ensures s.onStack == {}
  {
    assert forall x :: x in s.onStack ==> ReachesFrameBelow(g, s, [], x);
  }

  // What each part of a round does

  lemma InitialInvariant(g: Graph)
    ensures Invariant(g, Empty, [], 0)
  {}

  lemma VisitStep(g: Graph, roots: seq<Node>, s: Search, frames: seq<Frame>, v: Node)
    requires Settles(g, s, frames) && CanVisit(g, s, frames, v) && AllReached(g, roots, s)
    requires frames == [] ==> v in roots
    ensures Settles(g, Visit(s, v), frames + [Frame(v, 0)]) && AllReached(g, roots, Visit(s, v))
  {
    var low := if frames == [] then 0 else s.lowlinks[frames[|frames| - 1].node];
    VisitKeeps(g, s, frames, low, v);
    VisitReached(g, roots, s, frames, v);
    hide Invariant;
    assert Settles(g, Visit(s, v), frames + [Frame(v, 0)]);
  }

  lemma BelowTop(g: Graph, s: Search, calls: seq<Call>, v: Node, pi: nat, frames: seq<Frame>)
    requires Between(g, s, calls + [(v, pi)], frames)
    ensures pi == 0 ==> CallsBelow(calls, frames + [Frame(v, 0)]) && Settles(g, s, frames) && CanVisit(g, s, frames, v)
    ensures pi > 0 ==> CallsBelow(calls, frames) && frames[|calls|] == Frame(v, pi) && Returned(g, s, frames)
  {
    hide Invariant;
    var all := calls + [(v, pi)];
    assert forall i :: 0 <= i < |calls| ==> calls[i] == all[i];
  }

  lemma ReturnStep(g: Graph, s: Search, frames: seq<Frame>, low: nat)
    requires frames != [] && Returned(g, s, frames)
    requires var f := frames[|frames| - 1];
             low == Min(s.lowlinks[f.node], s.lowlinks[OutEdges(g, f.node)[f.explored - 1].target])
    ensures Settles(g, SetLow(s, frames[|frames| - 1].node, low), frames)
  {
    hide Invariant;
    SetLowKeeps(g, s, frames, low);
  }

  lemma FollowStep(g: Graph, s: Search, frames: seq<Frame>)
    requires frames != [] && Settles(g, s, frames) && CanFollow(g, s, frames) && Numbered(s)
    ensures var v := frames[|frames| - 1].node;
            Settles(g, SetLow(s, v, FollowedLow(g, s, frames, s.lowlinks[v])), Advance(frames))
  {
    hide Invariant, FollowedLow;
    var low := s.lowlinks[frames[|frames| - 1].node];
    FollowKeeps(g, s, frames, low);
    SetLowKeeps(g, s, Advance(frames), FollowedLow(g, s, frames, low));
  }

  lemma SettledFacts(g: Graph, s: Search, frames: seq<Frame>)
    requires frames != [] && Settles(g, s, frames)
    ensures Numbered(s) && StackOrdered(s) && FramesLinked(g, s, frames)
    ensures frames[|frames| - 1].node in s.lowlinks && s.lowlinks.Keys == s.indices.Keys
    ensures s.lowlinks[frames[|frames| - 1].node] <= s.indices[frames[|frames| - 1].node]
    ensures frames[|frames| - 1].node in s.stack
    ensures forall i, j :: 0 <= i < j < |s.stack| ==> s.stack[i] != s.stack[j]
  {
    assert Low(s, frames, s.lowlinks[frames[|frames| - 1].node], |frames| - 1) ==
           s.lowlinks[frames[|frames| - 1].node];
  }

  /** The edge that the caller of the node being left was waiting for leads to that node. */
  lemma CallerCounted(g: Graph, s: Search, t: Search, frames: seq<Frame>, low: nat)
    requires |frames| > 1 && Numbered(s) && FramesLinked(g, s, frames) && s.lowlinks == t.lowlinks
    requires low == s.lowlinks[frames[|frames| - 1].node]
    requires Invariant(g, t, Callers(frames), ReturnLow(s, frames, low))
    ensures Returned(g, t, Callers(frames))
  {
    hide Invariant, FramesLinked, Numbered, Callers;
    CallersLast(frames);
    LastWaits(g, s, frames);
  }

  lemma CallersLast(frames: seq<Frame>)
    requires |frames| > 1
    ensures |Callers(frames)| == |frames| - 1
    ensures var f := frames[|frames| - 2]; Callers(frames)[|frames| - 2] == Frame(f.node, f.explored + 1)
  {}

  lemma LastWaits(g: Graph, s: Search, frames: seq<Frame>)
    requires |frames| > 1 && Numbered(s) && FramesLinked(g, s, frames)
    ensures frames[|frames| - 1].node in s.lowlinks && frames[|frames| - 2].node in s.lowlinks
    ensures var f := frames[|frames| - 2];
            && f.explored < |OutEdges(g, f.node)|
            && OutEdges(g, f.node)[f.explored].target == frames[|frames| - 1].node
  {
    hide OutEdges;
    assert Waits(g, s, frames, |frames| - 2);
  }

  lemma PushStep(g: Graph, s: Search, calls: seq<Call>, frames: seq<Frame>, w: Node)
    requires frames != [] && Settles(g, s, frames) && CallsBelow(calls, frames) && w !in s.indices
    requires var f := frames[|frames| - 1];
             f.explored < |OutEdges(g, f.node)| && OutEdges(g, f.node)[f.explored].target == w
    ensures var f := frames[|frames| - 1];
            Between(g, s, calls + [(f.node, f.explored + 1)] + [(w, 0)], frames)
  {
    hide Invariant;
    var f := frames[|frames| - 1];
    var pushed := calls + [(f.node, f.explored + 1)] + [(w, 0)];
    forall i | 0 <= i < |frames|
      ensures pushed[i] == (frames[i].node, frames[i].explored + 1)
    {
      assert i < |calls| ==> pushed[i] == calls[i];
    }
  }

  lemma LeaveStep(g: Graph, s: Search, calls: seq<Call>, frames: seq<Frame>)
    requires frames != [] && Settles(g, s, frames) && Explored(g, frames)
    requires s.lowlinks[frames[|frames| - 1].node] < s.indices[frames[|frames| - 1].node]
    requires |calls| == |frames| - 1 && CallsBelow(calls, frames)
    ensures Between(g, s, calls, Callers(frames))
  {
    var low := s.lowlinks[frames[|frames| - 1].node];
    ReturnKeeps(g, s, frames, low);
    hide Invariant;
    CallerCounted(g, s, s, frames, low);
    CallersMatch(calls, frames);
  }

  lemma HarvestStep(g: Graph, s: Search, calls: seq<Call>, frames: seq<Frame>, k: nat)
    requires frames != [] && Settles(g, s, frames)
    requires CanHarvest(g, s, frames, s.lowlinks[frames[|frames| - 1].node], k)
    requires |calls| == |frames| - 1 && CallsBelow(calls, frames)
    ensures Between(g, Harvest(s, k), calls, Callers(frames))
  {
    var low := s.lowlinks[frames[|frames| - 1].node];
    HarvestKeeps(g, s, frames, low, k);
    hide Invariant;
    if |frames| > 1 {
      CallerCounted(g, s, Harvest(s, k), frames, low);
    }
    CallersMatch(calls, frames);
  }

  /** The calls below the one being served. */
  ghost predicate CallsBelow(calls: seq<Call>, frames: seq<Frame>) {
    && |calls| == |frames| - 1
    && forall i :: 0 <= i < |calls| ==> calls[i] == (frames[i].node, frames[i].explored + 1)
  }

  lemma CallersMatch(calls: seq<Call>, frames: seq<Frame>)
    requires frames != [] && CallsBelow(calls, frames)
    ensures CallsMatch(calls, Callers(frames))
    ensures calls != [] ==> Callers(frames)[|calls| - 1] == Frame(calls[|calls| - 1].0, calls[|calls| - 1].1)
  {}

  /** The dictionaries, the stack and the result list that the search updates. */
  /** The nodes on the stack from a position on. */
  function TakenOff(s: Search, k: nat): set<Node>
    requires k <= |s.stack|
  {
    set x | x in s.stack[k..]
  }

  lemma TakenOffAll(s: Search, k: nat)
    requires k <= |s.stack|
    ensures Harvest(s, k) == s.(stack := s.stack[..k], onStack := s.onStack - TakenOff(s, k),
                                components := s.components + [Popped(s, k)])
  {}

  lemma NothingPopped(s: Search)
    ensures Popped(s, |s.stack|) == [] && TakenOff(s, |s.stack|) == {}
  {}

  lemma OneMorePopped(s: Search, k: nat)
    requires k < |s.stack|
    ensures Popped(s, k) == Popped(s, k + 1) + [s.stack[k]] && TakenOff(s, k) == TakenOff(s, k + 1) + {s.stack[k]}
  {
    assert s.stack[k..] == [s.stack[k]] + s.stack[k + 1..];
  }

  class Tables {
    const g: Graph
    var indexDict: map<Node, nat>
    var lowlinkDict: map<Node, nat>
    var onStackSet: set<Node>
    var S: seq<Node>
    var components: seq<seq<Node>>
    ghost var order: seq<Node>

    ghost function State(): Search
      reads this
    {
      Search(indexDict, lowlinkDict, order, S, onStackSet, components)
    }

    constructor (g: Graph)
      ensures this.g == g && State() == Empty
    {
      this.g := g;
      indexDict, lowlinkDict, onStackSet, S, components, order := map[], map[], {}, [], [], [];
    }

    method Begin(v: Node)
      modifies this
      ensures State() == TarjanSearch.Visit(old(State()), v)
    {
      var index := |indexDict|;
      lowlinkDict := lowlinkDict[v := index];
      indexDict := indexDict[v := index];
      S := S + [v];
      onStackSet := onStackSet + {v};
      order := order + [v];
    }

    /** Takes `prev`'s lowlink over into `v`'s. */
    method TakeOver(v: Node, prev: Node)
      requires v in lowlinkDict && prev in lowlinkDict
      modifies this
      ensures State() == SetLow(old(State()), v, Min(old(lowlinkDict[v]), old(lowlinkDict[prev])))
    {
      lowlinkDict := lowlinkDict[v := Min(lowlinkDict[v], lowlinkDict[prev])];
    }

    /** Lowers `v`'s lowlink to the number of the visited node `w` when `w` is on the stack. */
    method LowerTo(v: Node, w: Node)
      requires v in lowlinkDict && w in indexDict
      modifies this
      ensures State() == SetLow(old(State()), v,
                                if w in old(onStackSet) then Min(old(lowlinkDict[v]), old(indexDict[w]))
                                else old(lowlinkDict[v]))
    {
      if w in onStackSet {
        lowlinkDict := lowlinkDict[v := Min(lowlinkDict[v], indexDict[w])];
      }
      assert w !in onStackSet ==> lowlinkDict == lowlinkDict[v := lowlinkDict[v]];
    }

    /** Pops the stack down to and including `v` and records what was popped as a component. */
    method PopComponent(v: Node, ghost k: nat)
      requires k < |S| && S[k] == v
      requires forall i, j :: 0 <= i < j < |S| ==> S[i] != S[j]
      modifies `S, `onStackSet, `components
      ensures State() == Harvest(old(State()), k)
    {
      hide Popped, TakenOff;
      var comp := [];
      ghost var s := State();
      NothingPopped(s);
      while true
        invariant k < |S| <= |s.stack| && S == s.stack[..|S|] && components == s.components
        invariant comp == Popped(s, |S|) && onStackSet == s.onStack - TakenOff(s, |S|)
        decreases |S|
      {
        var w := S[|S| - 1];
        OneMorePopped(s, |S| - 1);
        S := S[..|S| - 1];
        onStackSet := onStackSet - {w};
        comp := comp + [w];
        if v == w {
          break;
        }
      }
      assert |S| == k && S == s.stack[..k];
      TakenOffAll(s, k);
      components := components + [comp];
    }

    /** Goes on from edge `pi` of `v` to the first edge whose target has not been visited. */
    method FollowVisited(v: Node, pi0: nat, ghost roots: seq<Node>, ghost calls: seq<Call>, ghost frames0: seq<Frame>)
      returns (pi: nat, ghost frames: seq<Frame>)
      requires Settles(g, State(), frames0) && AllReached(g, roots, State())
      requires frames0 != [] && frames0[|frames0| - 1] == Frame(v, pi0) && pi0 <= |OutEdges(g, v)|
      requires CallsBelow(calls, frames0)
      modifies this
      ensures Settles(g, State(), frames) && AllReached(g, roots, State())
      ensures frames != [] && frames[|frames| - 1] == Frame(v, pi) && pi0 <= pi <= |OutEdges(g, v)|
      ensures pi < |OutEdges(g, v)| ==> OutEdges(g, v)[pi].target !in indexDict
      ensures CallsBelow(calls, frames) && indexDict == old(indexDict)
    {
      hide Invariant, StackOrdered, FramesLinked, Universe, ReachedFromRoots;
      var edges := OutEdges(g, v);
      pi, frames := pi0, frames0;
      while pi < |edges| && edges[pi].target in indexDict
        invariant Settles(g, State(), frames) && AllReached(g, roots, State())
        invariant frames != [] && frames[|frames| - 1] == Frame(v, pi) && pi0 <= pi <= |edges|
        invariant CallsBelow(calls, frames) && indexDict == old(indexDict)
      {
        SettledFacts(g, State(), frames);
        FollowStep(g, State(), frames);
        LowerTo(v, edges[pi].target);
        frames := Advance(frames);
        pi := pi + 1;
      }
    }

    /** Visits `v` when it is first called, and otherwise takes over the lowlink of the target it called last. */
    method Enter(v: Node, pi: nat, ghost roots: seq<Node>, ghost calls: seq<Call>, ghost frames0: seq<Frame>)
      returns (ghost frames: seq<Frame>)
      requires Between(g, State(), calls + [(v, pi)], frames0) && AllReached(g, roots, State())
      requires frames0 == [] ==> v in roots
      modifies this
      ensures Settles(g, State(), frames) && AllReached(g, roots, State())
      ensures CallsBelow(calls, frames) && frames[|calls|] == Frame(v, pi) && pi <= |OutEdges(g, v)|
      ensures if pi == 0 then v in indexDict && old(indexDict).Keys < indexDict.Keys else indexDict == old(indexDict)
    {
      hide Invariant, StackOrdered, FramesLinked, Numbered, Universe, ReachedFromRoots;
      frames := frames0;
      BelowTop(g, State(), calls, v, pi, frames);
      if pi == 0 {
        VisitStep(g, roots, State(), frames, v);
        Begin(v);
        frames := frames + [Frame(v, 0)];
      } else {
        var prev := OutEdges(g, v)[pi - 1].target;
        ReturnStep(g, State(), frames, Min(lowlinkDict[v], lowlinkDict[prev]));
        TakeOver(v, prev);
      }
    }

    /** Harvests `v` with all that is above it on the stack when its lowlink is its number. */
    method Leave(v: Node, ghost calls: seq<Call>, ghost frames: seq<Frame>)
      requires Settles(g, State(), frames) && CallsBelow(calls, frames)
      requires frames[|calls|].node == v && Explored(g, frames) && v in lowlinkDict
      modifies this
      ensures Between(g, State(), calls, Callers(frames)) && indexDict == old(indexDict)
    {
      hide Invariant, StackOrdered, FramesLinked, Numbered, Between;
      SettledFacts(g, State(), frames);
      if lowlinkDict[v] == indexDict[v] {
        ghost var k :| 0 <= k < |S| && S[k] == v;
        HarvestStep(g, State(), calls, frames, k);
        PopComponent(v, k);
      } else {
        LeaveStep(g, State(), calls, frames);
      }
    }

    /** Serves the topmost call of the call stack. */
    method Serve(calls0: seq<Call>, ghost roots: seq<Node>, ghost frames0: seq<Frame>)
      returns (callStack: seq<Call>, ghost frames: seq<Frame>)
      requires calls0 != [] && Between(g, State(), calls0, frames0) && AllReached(g, roots, State())
      requires frames0 == [] ==> calls0[|calls0| - 1].0 in roots
      modifies this
      ensures Between(g, State(), callStack, frames) && AllReached(g, roots, State())
      ensures frames == [] ==> callStack == []
      ensures calls0[|calls0| - 1].1 == 0 ==> calls0[|calls0| - 1].0 in indexDict
      ensures old(indexDict).Keys < indexDict.Keys ||
              (old(indexDict) == indexDict && Remaining(g, callStack) < Remaining(g, calls0))
    {
      hide Invariant, StackOrdered, FramesLinked, Numbered, Universe, ReachedFromRoots, Remaining, Between;
      var (v, pi0) := calls0[|calls0| - 1];
      callStack := calls0[..|calls0| - 1];
      assert calls0 == callStack + [(v, pi0)];
      frames := Enter(v, pi0, roots, callStack, frames0);
      var pi;
      pi, frames := FollowVisited(v, pi0, roots, callStack, frames);
      if pi < |OutEdges(g, v)| {
        var w := OutEdges(g, v)[pi].target;
        RemainingAfterPush(g, callStack, v, pi0, pi, w);
        PushStep(g, State(), callStack, frames, w);
        callStack := callStack + [(v, pi + 1)];
        callStack := callStack + [(w, 0)];
      } else {
        Leave(v, callStack, frames);
        frames := Callers(frames);
        if pi0 > 0 {
          RemainingAfterPop(g, calls0);
        }
      }
    }
  }

  lemma RemainingAfterPush(g: Graph, calls: seq<Call>, v: Node, pi0: nat, pi: nat, w: Node)
    requires pi0 <= pi < |OutEdges(g, v)|
    ensures pi0 > 0 ==> Remaining(g, calls + [(v, pi + 1)] + [(w, 0)]) < Remaining(g, calls + [(v, pi0)])
  {
    assert (calls + [(v, pi + 1)] + [(w, 0)])[..|calls| + 1] == calls + [(v, pi + 1)];
    assert (calls + [(v, pi + 1)])[..|calls|] == calls;
    assert (calls + [(v, pi0)])[..|calls|] == calls;
  }

  lemma RemainingAfterPop(g: Graph, calls: seq<Call>)
    requires calls != []
    requires 0 < calls[|calls| - 1].1 <= |OutEdges(g, calls[|calls| - 1].0)|
    ensures Remaining(g, calls[..|calls| - 1]) < Remaining(g, calls)
  {}

  method FindStronglyConnectedComponents(roots: seq<Node>, g: Graph) returns (components: seq<seq<Node>>)
    ensures IsComponentPartition(g, components, ReachableFrom(g, roots))
  {
    hide Invariant, IsComponentPartition, ReachableFrom, ReachedFromRoots;
    var tables := new Tables(g);
    InitialInvariant(g);
    for r := 0 to |roots|
      invariant Invariant(g, tables.State(), [], 0) && AllReached(g, roots, tables.State())
      invariant forall k :: 0 <= k < r ==> roots[k] in tables.indexDict
    {
      if roots[r] !in tables.indexDict {
        var callStack: seq<Call> := [(roots[r], 0)];
        ghost var frames: seq<Frame> := [];
        while callStack != []
          invariant Between(g, tables.State(), callStack, frames) && AllReached(g, roots, tables.State())
          invariant frames == [] && callStack != [] ==> callStack == [(roots[r], 0)]
          invariant callStack == [(roots[r], 0)] || roots[r] in tables.indexDict
          invariant forall k :: 0 <= k < r ==> roots[k] in tables.indexDict
          decreases Universe(g, roots) - tables.indexDict.Keys, Remaining(g, callStack)
        {
          callStack, frames := tables.Serve(callStack, roots, frames);
        }
      }
    }
    AllHarvested(g, roots, tables.State());
    components := tables.components;
  }
}

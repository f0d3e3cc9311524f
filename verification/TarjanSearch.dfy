/** The state of Tarjan's search for strongly connected components and the invariant that each step of it keeps.

    The same invariant carries the search with an explicit call stack and the recursive one: `frames` lists the nodes
    whose edges are being explored, outermost first, whatever data structure remembers them.
 */
module TarjanSearch {
  import opened Arithmetic
  import opened LatencyGraph
  import opened Reachability

  /** `order` lists the visited nodes by number; `onStack` holds the members of `stack`. */
  datatype Search = Search(indices: map<Node, nat>, lowlinks: map<Node, nat>, order: seq<Node>, stack: seq<Node>,
                           onStack: set<Node>, components: seq<seq<Node>>)

  /** A node under exploration and how many of its edges have been dealt with. */
  datatype Frame = Frame(node: Node, explored: nat)

  const Empty := Search(map[], map[], [], [], {}, [])

  /** `frames` after the edge the last frame was waiting for has been dealt with. */
  function Advance(frames: seq<Frame>): seq<Frame>
    requires frames != []
  {
    var f := frames[|frames| - 1];
    frames[..|frames| - 1] + [Frame(f.node, f.explored + 1)]
  }

  /** The lowlink of frame `i`; that of the last frame may still have to be lowered to `low`. */
  function Low(s: Search, frames: seq<Frame>, low: nat, i: nat): nat
    requires i < |frames| && frames[i].node in s.lowlinks
  {
    if i == |frames| - 1 then low else s.lowlinks[frames[i].node]
  }

  ghost predicate Numbered(s: Search) {
    && s.lowlinks.Keys == s.indices.Keys
    && |s.order| == |s.indices|
    && (forall x :: x in s.indices ==> s.indices[x] < |s.order| && s.order[s.indices[x]] == x)
    && s.onStack <= s.indices.Keys
  }

  ghost predicate StackOrdered(s: Search)
    requires Numbered(s)
  {
    && (forall x :: x in s.stack <==> x in s.onStack)
    && (forall i, j :: 0 <= i < j < |s.stack| ==> s.indices[s.stack[i]] < s.indices[s.stack[j]])
  }

  /** Frame `i` is waiting for the edge to the next frame, which was visited later. */
  ghost predicate Waits(g: Graph, s: Search, frames: seq<Frame>, i: nat)
    requires i + 1 < |frames| && frames[i].node in s.indices && frames[i + 1].node in s.indices
  {
    var f, next := frames[i], frames[i + 1];
    && f.explored < |OutEdges(g, f.node)|
    && OutEdges(g, f.node)[f.explored].target == next.node
    && s.indices[f.node] < s.indices[next.node]
  }

  /** The frames are a path of the graph through nodes on the stack, oldest first. */
  ghost predicate FramesLinked(g: Graph, s: Search, frames: seq<Frame>)
    requires Numbered(s)
  {
    && (forall i :: 0 <= i < |frames| ==>
          frames[i].node in s.onStack && frames[i].explored <= |OutEdges(g, frames[i].node)|)
    && (forall i {:trigger Waits(g, s, frames, i)} :: 0 <= i < |frames| - 1 ==> Waits(g, s, frames, i))
  }

  lemma {:induction false} FramesIncrease(g: Graph, s: Search, frames: seq<Frame>, i: nat, j: nat)
    requires Numbered(s) && FramesLinked(g, s, frames) && i < j < |frames|
    ensures s.indices[frames[i].node] < s.indices[frames[j].node]
    decreases j - i
  {
    assert Waits(g, s, frames, j - 1);
    if i < j - 1 {
      FramesIncrease(g, s, frames, i, j - 1);
    }
  }

  /** `x` is at or above frame `i` on the stack and below the next frame. */
  ghost predicate InSegment(s: Search, frames: seq<Frame>, i: nat, x: Node)
    requires i < |frames| && frames[i].node in s.indices && x in s.indices
    requires i + 1 < |frames| ==> frames[i + 1].node in s.indices
  {
    && s.indices[frames[i].node] <= s.indices[x]
    && (i + 1 < |frames| ==> s.indices[x] < s.indices[frames[i + 1].node])
  }

  /** `y` has been visited and, if it is still on the stack, is numbered `low` or later. */
  ghost predicate NotBelow(s: Search, y: Node, low: nat) {
    y in s.indices && (y in s.onStack ==> low <= s.indices[y])
  }

  /** The edges that frame `f` has dealt with stay at or above `low`. */
  ghost predicate FollowedBounded(g: Graph, s: Search, f: Frame, low: nat)
    requires f.explored <= |OutEdges(g, f.node)|
  {
    forall k :: 0 <= k < f.explored ==> NotBelow(s, OutEdges(g, f.node)[k].target, low)
  }

  /** The edges of the completed nodes in frame `i`'s segment stay at or above `low`. */
  ghost predicate SegmentBounded(g: Graph, s: Search, frames: seq<Frame>, i: nat, low: nat)
    requires Numbered(s) && FramesLinked(g, s, frames) && i < |frames|
  {
    forall x, y {:trigger InSegment(s, frames, i, x), Adjacent(g, x, y)} ::
      x in s.onStack && x != frames[i].node && InSegment(s, frames, i, x) && Adjacent(g, x, y) ==> NotBelow(s, y, low)
  }

  /** Every edge already followed out of a frame's segment stays at or above the frame's lowlink. */
  ghost predicate LowBounds(g: Graph, s: Search, frames: seq<Frame>, low: nat)
    requires Numbered(s) && FramesLinked(g, s, frames)
  {
    forall i {:trigger Low(s, frames, low, i)} :: 0 <= i < |frames| ==>
      && FollowedBounded(g, s, frames[i], Low(s, frames, low, i))
      && SegmentBounded(g, s, frames, i, Low(s, frames, low, i))
  }

  /** `n` is the number of a stack node that `x` reaches. */
  ghost predicate Witnessed(g: Graph, s: Search, x: Node, n: nat)
    requires Numbered(s)
  {
    exists z :: z in s.onStack && s.indices[z] == n && Reaches(g, x, z)
  }

  /** The lowlink of a frame is the number of a stack node that the frame reaches. */
  ghost predicate LowWitnessed(g: Graph, s: Search, frames: seq<Frame>, low: nat)
    requires Numbered(s) && FramesLinked(g, s, frames)
  {
    forall i {:trigger Low(s, frames, low, i)} :: 0 <= i < |frames| ==>
      && Low(s, frames, low, i) <= s.indices[frames[i].node]
      && Witnessed(g, s, frames[i].node, Low(s, frames, low, i))
  }

  ghost predicate ReachesFrameBelow(g: Graph, s: Search, frames: seq<Frame>, x: Node)
    requires Numbered(s) && FramesLinked(g, s, frames) && x in s.indices
  {
    exists i :: 0 <= i < |frames| && s.indices[frames[i].node] <= s.indices[x] && Reaches(g, x, frames[i].node)
  }

  /** Frames reach everything above them on the stack. */
  ghost predicate FramesReachUp(g: Graph, s: Search, frames: seq<Frame>)
    requires Numbered(s) && FramesLinked(g, s, frames)
  {
    forall i, x {:trigger Reaches(g, frames[i].node, x)} ::
      0 <= i < |frames| && x in s.onStack && s.indices[frames[i].node] <= s.indices[x] ==>
      Reaches(g, frames[i].node, x)
  }

  /** Everything on the stack reaches a frame at or below it. */
  ghost predicate StackReachesDown(g: Graph, s: Search, frames: seq<Frame>)
    requires Numbered(s) && FramesLinked(g, s, frames)
  {
    forall x {:trigger ReachesFrameBelow(g, s, frames, x)} :: x in s.onStack ==> ReachesFrameBelow(g, s, frames, x)
  }

  ghost predicate Finished(s: Search, x: Node) {
    x in s.indices && x !in s.onStack
  }

  ghost predicate InComponent(s: Search, x: Node) {
    exists c :: c in s.components && x in c
  }

  /** The finished nodes are closed under edges and are exactly the nodes of the components found so far. */
  ghost predicate Harvested(g: Graph, s: Search) {
    && (forall x, y {:trigger Finished(s, x), Adjacent(g, x, y)} :: Finished(s, x) && Adjacent(g, x, y) ==> Finished(s, y))
    && (forall x :: Finished(s, x) <==> InComponent(s, x))
    && (forall c :: c in s.components ==> IsComponent(g, c))
    && (forall i, j, x :: 0 <= i < j < |s.components| && x in s.components[i] ==> x !in s.components[j])
  }

  ghost predicate Invariant(g: Graph, s: Search, frames: seq<Frame>, low: nat) {
    && Numbered(s)
    && StackOrdered(s)
    && FramesLinked(g, s, frames)
    && LowBounds(g, s, frames, low)
    && LowWitnessed(g, s, frames, low)
    && FramesReachUp(g, s, frames)
    && StackReachesDown(g, s, frames)
    && Harvested(g, s)
  }

  // Visiting a node for the first time

  function Visit(s: Search, w: Node): Search {
    s.(indices := s.indices[w := |s.indices|], lowlinks := s.lowlinks[w := |s.indices|], order := s.order + [w],
       stack := s.stack + [w], onStack := s.onStack + {w})
  }

  ghost predicate CanVisit(g: Graph, s: Search, frames: seq<Frame>, w: Node) {
    && w !in s.indices
    && (frames != [] ==>
          var f := frames[|frames| - 1];
          f.node in s.lowlinks && f.explored < |OutEdges(g, f.node)| && OutEdges(g, f.node)[f.explored].target == w)
  }

  /** What `low` must be when the last frame is not waiting for anything. */
  ghost predicate Settled(s: Search, frames: seq<Frame>, low: nat) {
    frames != [] ==> frames[|frames| - 1].node in s.lowlinks && low == s.lowlinks[frames[|frames| - 1].node]
  }

  lemma MapGrows(m: map<Node, nat>, x: Node, n: nat)
    requires x !in m
    ensures |m[x := n]| == |m| + 1
  {
    assert m[x := n].Keys == m.Keys + {x};
  }

  lemma VisitNumbers(s: Search, w: Node)
    requires Numbered(s) && w !in s.indices
    ensures Numbered(Visit(s, w))
  {
    var t := Visit(s, w);
    MapGrows(s.indices, w, |s.indices|);
    forall x | x in t.indices
      ensures t.indices[x] < |t.order| && t.order[t.indices[x]] == x
    {
      if x != w {
        assert s.order[s.indices[x]] == x;
      }
    }
  }

  lemma VisitOrders(s: Search, w: Node)
    requires Numbered(s) && Numbered(Visit(s, w)) && StackOrdered(s) && w !in s.indices
    ensures StackOrdered(Visit(s, w))
  {
    var t := Visit(s, w);
    forall i, j | 0 <= i < j < |t.stack|
      ensures t.indices[t.stack[i]] < t.indices[t.stack[j]]
    {
      assert t.stack[i] == s.stack[i] && s.stack[i] in s.onStack;
      if j < |s.stack| {
        assert t.stack[j] == s.stack[j] && s.stack[j] in s.onStack;
      }
    }
  }

  lemma VisitLinks(g: Graph, s: Search, frames: seq<Frame>, w: Node)
    requires Numbered(s) && FramesLinked(g, s, frames) && CanVisit(g, s, frames, w) && Numbered(Visit(s, w))
    ensures FramesLinked(g, Visit(s, w), frames + [Frame(w, 0)])
  {
    hide Adjacent;
    var t, fs := Visit(s, w), frames + [Frame(w, 0)];
    forall i | 0 <= i < |fs| - 1
      ensures Waits(g, t, fs, i)
    {
      assert fs[i] == frames[i];
      if i + 1 < |frames| {
        assert Waits(g, s, frames, i) && fs[i + 1] == frames[i + 1];
      }
    }
  }

  lemma VisitFollowed(g: Graph, s: Search, f: Frame, low: nat, w: Node)
    requires Numbered(s) && w !in s.indices && f.explored <= |OutEdges(g, f.node)| && FollowedBounded(g, s, f, low)
    ensures FollowedBounded(g, Visit(s, w), f, low)
  {
    forall k | 0 <= k < f.explored
      ensures NotBelow(Visit(s, w), OutEdges(g, f.node)[k].target, low)
    {
      assert NotBelow(s, OutEdges(g, f.node)[k].target, low);
    }
  }

  lemma VisitBounds(g: Graph, s: Search, frames: seq<Frame>, low: nat, w: Node)
    requires Numbered(s) && FramesLinked(g, s, frames) && LowBounds(g, s, frames, low)
    requires Settled(s, frames, low) && w !in s.indices
    requires Numbered(Visit(s, w)) && FramesLinked(g, Visit(s, w), frames + [Frame(w, 0)])
    ensures LowBounds(g, Visit(s, w), frames + [Frame(w, 0)], |s.indices|)
  {
    var t, fs := Visit(s, w), frames + [Frame(w, 0)];
    assert FollowedBounded(g, t, fs[|frames|], |s.indices|);
    VisitTopSegment(g, s, frames, w);
    forall i | 0 <= i < |frames|
      ensures FollowedBounded(g, t, fs[i], Low(t, fs, |s.indices|, i))
      ensures SegmentBounded(g, t, fs, i, Low(t, fs, |s.indices|, i))
    {
      VisitBoundsAt(g, s, frames, low, w, i);
    }
  }

  lemma VisitBoundsAt(g: Graph, s: Search, frames: seq<Frame>, low: nat, w: Node, i: nat)
    requires Numbered(s) && FramesLinked(g, s, frames) && LowBounds(g, s, frames, low)
    requires Settled(s, frames, low) && w !in s.indices && i < |frames|
    requires Numbered(Visit(s, w)) && FramesLinked(g, Visit(s, w), frames + [Frame(w, 0)])
    ensures var t, fs := Visit(s, w), frames + [Frame(w, 0)];
            && FollowedBounded(g, t, fs[i], Low(t, fs, |s.indices|, i))
            && SegmentBounded(g, t, fs, i, Low(t, fs, |s.indices|, i))
  {
    hide FollowedBounded, SegmentBounded, Waits, OutEdges;
    var l := Low(s, frames, low, i);
    assert Low(Visit(s, w), frames + [Frame(w, 0)], |s.indices|, i) == l;
    VisitFollowed(g, s, frames[i], l, w);
    VisitSegment(g, s, frames, i, l, w);
  }

  lemma VisitTopSegment(g: Graph, s: Search, frames: seq<Frame>, w: Node)
    requires Numbered(s) && w !in s.indices
    requires Numbered(Visit(s, w)) && FramesLinked(g, Visit(s, w), frames + [Frame(w, 0)])
    ensures SegmentBounded(g, Visit(s, w), frames + [Frame(w, 0)], |frames|, |s.indices|)
  {
    hide Adjacent, Waits;
    var t, fs := Visit(s, w), frames + [Frame(w, 0)];
    assert forall x :: x in t.onStack && x != w ==> t.indices[x] < |s.indices|;
  }

  lemma VisitSegment(g: Graph, s: Search, frames: seq<Frame>, i: nat, low: nat, w: Node)
    requires Numbered(s) && FramesLinked(g, s, frames) && w !in s.indices && i < |frames|
    requires SegmentBounded(g, s, frames, i, low)
    requires Numbered(Visit(s, w)) && FramesLinked(g, Visit(s, w), frames + [Frame(w, 0)])
    ensures SegmentBounded(g, Visit(s, w), frames + [Frame(w, 0)], i, low)
  {
    hide Adjacent;
    var t, fs := Visit(s, w), frames + [Frame(w, 0)];
    assert fs[i] == frames[i] && (i + 1 < |frames| ==> fs[i + 1] == frames[i + 1]);
    forall x, y | x in t.onStack && x != fs[i].node && InSegment(t, fs, i, x) && Adjacent(g, x, y)
      ensures NotBelow(t, y, low)
    {
      assert x in s.onStack && InSegment(s, frames, i, x);
      assert NotBelow(s, y, low);
    }
  }

  lemma VisitReached(g: Graph, s: Search, frames: seq<Frame>, w: Node, i: nat)
    requires Numbered(s) && FramesLinked(g, s, frames) && FramesReachUp(g, s, frames) && CanVisit(g, s, frames, w)
    requires i < |frames|
    ensures Reaches(g, frames[i].node, w)
  {
    hide Reaches;
    var f := frames[|frames| - 1];
    assert Adjacent(g, f.node, w);
    ReachesStep(g, f.node, w);
    if i < |frames| - 1 {
      FramesIncrease(g, s, frames, i, |frames| - 1);
    }
    assert Reaches(g, frames[i].node, f.node);
    ReachesTrans(g, frames[i].node, f.node, w);
  }

  lemma VisitReaches(g: Graph, s: Search, frames: seq<Frame>, w: Node)
    requires Numbered(s) && FramesLinked(g, s, frames) && FramesReachUp(g, s, frames) && CanVisit(g, s, frames, w)
    requires Numbered(Visit(s, w)) && FramesLinked(g, Visit(s, w), frames + [Frame(w, 0)])
    ensures FramesReachUp(g, Visit(s, w), frames + [Frame(w, 0)])
  {
    hide Reaches;
    var t, fs := Visit(s, w), frames + [Frame(w, 0)];
    forall i, x | 0 <= i < |fs| && x in t.onStack && t.indices[fs[i].node] <= t.indices[x]
      ensures Reaches(g, fs[i].node, x)
    {
      if i == |frames| {
        ReachesSelf(g, w);
        assert x == w;
      } else if x == w {
        VisitReached(g, s, frames, w, i);
      } else {
        assert Reaches(g, frames[i].node, x);
      }
    }
  }

  lemma VisitReachesDown(g: Graph, s: Search, frames: seq<Frame>, w: Node)
    requires Numbered(s) && FramesLinked(g, s, frames) && StackReachesDown(g, s, frames) && w !in s.indices
    requires Numbered(Visit(s, w)) && FramesLinked(g, Visit(s, w), frames + [Frame(w, 0)])
    ensures StackReachesDown(g, Visit(s, w), frames + [Frame(w, 0)])
  {
    hide Reaches, Waits;
    var t, fs := Visit(s, w), frames + [Frame(w, 0)];
    forall x | x in t.onStack
      ensures ReachesFrameBelow(g, t, fs, x)
    {
      if x == w {
        ReachesSelf(g, w);
        assert Reaches(g, w, fs[|frames|].node);
      } else {
        var i := FrameBelow(g, s, frames, x);
        BelowThrough(g, t, fs, x, i);
      }
    }
  }

  lemma VisitWitnesses(g: Graph, s: Search, frames: seq<Frame>, low: nat, w: Node)
    requires Numbered(s) && FramesLinked(g, s, frames) && LowWitnessed(g, s, frames, low)
    requires Settled(s, frames, low) && w !in s.indices
    requires Numbered(Visit(s, w)) && FramesLinked(g, Visit(s, w), frames + [Frame(w, 0)])
    ensures LowWitnessed(g, Visit(s, w), frames + [Frame(w, 0)], |s.indices|)
  {
    var t, fs := Visit(s, w), frames + [Frame(w, 0)];
    forall i | 0 <= i < |fs|
      ensures Low(t, fs, |s.indices|, i) <= t.indices[fs[i].node]
      ensures Witnessed(g, t, fs[i].node, Low(t, fs, |s.indices|, i))
    {
      if i < |frames| {
        assert Low(t, fs, |s.indices|, i) == Low(s, frames, low, i);
        var z :| z in s.onStack && s.indices[z] == Low(s, frames, low, i) && Reaches(g, frames[i].node, z);
        assert z in t.onStack && t.indices[z] == s.indices[z];
      } else {
        ReachesSelf(g, w);
        assert w in t.onStack && t.indices[w] == |s.indices|;
      }
    }
  }

  lemma VisitKeeps(g: Graph, s: Search, frames: seq<Frame>, low: nat, w: Node)
    requires Invariant(g, s, frames, low) && Settled(s, frames, low) && CanVisit(g, s, frames, w)
    ensures Invariant(g, Visit(s, w), frames + [Frame(w, 0)], |s.indices|)
  {
    VisitNumbers(s, w);
    VisitOrders(s, w);
    VisitLinks(g, s, frames, w);
    VisitBounds(g, s, frames, low, w);
    VisitReaches(g, s, frames, w);
    VisitReachesDown(g, s, frames, w);
    VisitWitnesses(g, s, frames, low, w);
    var t := Visit(s, w);
    assert forall x :: Finished(t, x) <==> Finished(s, x);
    assert forall x :: InComponent(t, x) <==> InComponent(s, x);
  }

  // Following an edge to a node that has been visited before

  ghost predicate CanFollow(g: Graph, s: Search, frames: seq<Frame>)
    requires frames != []
  {
    var f := frames[|frames| - 1];
    f.explored < |OutEdges(g, f.node)| && OutEdges(g, f.node)[f.explored].target in s.indices
  }

  function FollowedLow(g: Graph, s: Search, frames: seq<Frame>, low: nat): nat
    requires Numbered(s) && frames != [] && CanFollow(g, s, frames)
  {
    var f := frames[|frames| - 1];
    var y := OutEdges(g, f.node)[f.explored].target;
    if y in s.onStack then Min(low, s.indices[y]) else low
  }

  lemma AdvanceLinks(g: Graph, s: Search, frames: seq<Frame>)
    requires Numbered(s) && FramesLinked(g, s, frames)
    requires frames != [] && frames[|frames| - 1].explored < |OutEdges(g, frames[|frames| - 1].node)|
    ensures FramesLinked(g, s, Advance(frames))
  {
    var fs := Advance(frames);
    forall i | 0 <= i < |fs| - 1
      ensures Waits(g, s, fs, i)
    {
      assert Waits(g, s, frames, i) && fs[i] == frames[i] && fs[i + 1].node == frames[i + 1].node;
    }
  }

  lemma FollowBounds(g: Graph, s: Search, frames: seq<Frame>, low: nat)
    requires Numbered(s) && FramesLinked(g, s, frames) && LowBounds(g, s, frames, low)
    requires frames != [] && CanFollow(g, s, frames)
    requires FramesLinked(g, s, Advance(frames))
    ensures LowBounds(g, s, Advance(frames), FollowedLow(g, s, frames, low))
  {
    hide FollowedBounded, SegmentBounded, Waits, Adjacent;
    var fs, low' := Advance(frames), FollowedLow(g, s, frames, low);
    forall i | 0 <= i < |fs|
      ensures FollowedBounded(g, s, fs[i], Low(s, fs, low', i))
      ensures SegmentBounded(g, s, fs, i, Low(s, fs, low', i))
    {
      LowerLow(g, s, frames, low, i);
      FollowFollowed(g, s, frames, low, i);
      FollowSegment(g, s, frames, i, Low(s, frames, low, i), Low(s, fs, low', i));
    }
  }

  lemma LowerLow(g: Graph, s: Search, frames: seq<Frame>, low: nat, i: nat)
    requires Numbered(s) && FramesLinked(g, s, frames) && frames != [] && CanFollow(g, s, frames) && i < |frames|
    requires FramesLinked(g, s, Advance(frames))
    ensures Low(s, Advance(frames), FollowedLow(g, s, frames, low), i) <= Low(s, frames, low, i)
  {}

  lemma FollowFollowed(g: Graph, s: Search, frames: seq<Frame>, low: nat, i: nat)
    requires Numbered(s) && FramesLinked(g, s, frames) && frames != [] && CanFollow(g, s, frames) && i < |frames|
    requires FramesLinked(g, s, Advance(frames)) && FollowedBounded(g, s, frames[i], Low(s, frames, low, i))
    ensures FollowedBounded(g, s, Advance(frames)[i], Low(s, Advance(frames), FollowedLow(g, s, frames, low), i))
  {
    hide Waits;
    var fs := Advance(frames);
    var l, l' := Low(s, frames, low, i), Low(s, fs, FollowedLow(g, s, frames, low), i);
    LowerLow(g, s, frames, low, i);
    forall k | 0 <= k < fs[i].explored
      ensures NotBelow(s, OutEdges(g, fs[i].node)[k].target, l')
    {
      if k < frames[i].explored {
        assert NotBelow(s, OutEdges(g, frames[i].node)[k].target, l);
      }
    }
  }

  lemma FollowSegment(g: Graph, s: Search, frames: seq<Frame>, i: nat, l: nat, l': nat)
    requires Numbered(s) && FramesLinked(g, s, frames) && frames != [] && i < |frames| && l' <= l
    requires FramesLinked(g, s, Advance(frames)) && SegmentBounded(g, s, frames, i, l)
    ensures SegmentBounded(g, s, Advance(frames), i, l')
  {
    hide Adjacent, Waits;
    var fs := Advance(frames);
    assert fs[i].node == frames[i].node && (i < |fs| - 1 ==> fs[i + 1].node == frames[i + 1].node);
    forall x, y | x in s.onStack && x != fs[i].node && InSegment(s, fs, i, x) && Adjacent(g, x, y)
      ensures NotBelow(s, y, l')
    {
      assert InSegment(s, frames, i, x);
      assert NotBelow(s, y, l);
    }
  }

  lemma FollowWitnesses(g: Graph, s: Search, frames: seq<Frame>, low: nat)
    requires Numbered(s) && FramesLinked(g, s, frames) && LowWitnessed(g, s, frames, low)
    requires frames != [] && CanFollow(g, s, frames)
    requires FramesLinked(g, s, Advance(frames))
    ensures LowWitnessed(g, s, Advance(frames), FollowedLow(g, s, frames, low))
  {
    hide Reaches;
    var fs, low' := Advance(frames), FollowedLow(g, s, frames, low);
    forall i | 0 <= i < |fs|
      ensures Low(s, fs, low', i) <= s.indices[fs[i].node]
      ensures Witnessed(g, s, fs[i].node, Low(s, fs, low', i))
    {
      var l := Low(s, frames, low, i);
      assert fs[i].node == frames[i].node && Witnessed(g, s, frames[i].node, l);
      if Low(s, fs, low', i) != l {
        var y := OutEdges(g, fs[i].node)[frames[i].explored].target;
        assert Adjacent(g, fs[i].node, y);
        ReachesStep(g, fs[i].node, y);
        assert y in s.onStack && s.indices[y] == low';
      }
    }
  }

  lemma AdvanceReachesUp(g: Graph, s: Search, frames: seq<Frame>)
    requires Numbered(s) && frames != [] && FramesLinked(g, s, frames) && FramesLinked(g, s, Advance(frames))
    requires FramesReachUp(g, s, frames)
    ensures FramesReachUp(g, s, Advance(frames))
  {
    var fs := Advance(frames);
    forall i, x | 0 <= i < |fs| && x in s.onStack && s.indices[fs[i].node] <= s.indices[x]
      ensures Reaches(g, fs[i].node, x)
    {
      assert Reaches(g, frames[i].node, x);
    }
  }

  lemma AdvanceReachesDown(g: Graph, s: Search, frames: seq<Frame>)
    requires Numbered(s) && frames != [] && FramesLinked(g, s, frames) && FramesLinked(g, s, Advance(frames))
    requires StackReachesDown(g, s, frames)
    ensures StackReachesDown(g, s, Advance(frames))
  {
    hide Reaches;
    var fs := Advance(frames);
    forall x | x in s.onStack
      ensures ReachesFrameBelow(g, s, fs, x)
    {
      assert ReachesFrameBelow(g, s, frames, x);
      var i :| 0 <= i < |frames| && s.indices[frames[i].node] <= s.indices[x] && Reaches(g, x, frames[i].node);
      assert fs[i].node == frames[i].node;
    }
  }

  lemma FollowKeeps(g: Graph, s: Search, frames: seq<Frame>, low: nat)
    requires Invariant(g, s, frames, low) && frames != [] && CanFollow(g, s, frames)
    ensures Invariant(g, s, Advance(frames), FollowedLow(g, s, frames, low))
  {
    AdvanceLinks(g, s, frames);
    FollowBounds(g, s, frames, low);
    FollowWitnesses(g, s, frames, low);
    AdvanceReachesUp(g, s, frames);
    AdvanceReachesDown(g, s, frames);
  }

  // Recording the lowlink of the last frame

  function SetLow(s: Search, x: Node, low: nat): Search {
    s.(lowlinks := s.lowlinks[x := low])
  }

  lemma SetLowLinks(g: Graph, s: Search, frames: seq<Frame>, low: nat)
    requires Numbered(s) && FramesLinked(g, s, frames) && frames != []
    requires Numbered(SetLow(s, frames[|frames| - 1].node, low))
    ensures FramesLinked(g, SetLow(s, frames[|frames| - 1].node, low), frames)
  {
    var t := SetLow(s, frames[|frames| - 1].node, low);
    forall i | 0 <= i < |frames| - 1
      ensures Waits(g, t, frames, i)
    {
      assert Waits(g, s, frames, i);
    }
  }

  lemma SetLowSame(g: Graph, s: Search, frames: seq<Frame>, low: nat, i: nat)
    requires Numbered(s) && FramesLinked(g, s, frames) && i < |frames|
    ensures Low(SetLow(s, frames[|frames| - 1].node, low), frames, low, i) == Low(s, frames, low, i)
  {
    if i < |frames| - 1 {
      FramesIncrease(g, s, frames, i, |frames| - 1);
    }
  }

  lemma SetLowBounds(g: Graph, s: Search, frames: seq<Frame>, low: nat)
    requires Numbered(s) && FramesLinked(g, s, frames) && frames != [] && LowBounds(g, s, frames, low)
    requires Numbered(SetLow(s, frames[|frames| - 1].node, low))
    requires FramesLinked(g, SetLow(s, frames[|frames| - 1].node, low), frames)
    ensures LowBounds(g, SetLow(s, frames[|frames| - 1].node, low), frames, low)
  {
    var t := SetLow(s, frames[|frames| - 1].node, low);
    forall i | 0 <= i < |frames|
      ensures FollowedBounded(g, t, frames[i], Low(t, frames, low, i))
      ensures SegmentBounded(g, t, frames, i, Low(t, frames, low, i))
    {
      var l := Low(s, frames, low, i);
      SetLowSame(g, s, frames, low, i);
      assert FollowedBounded(g, s, frames[i], l) && SegmentBounded(g, s, frames, i, l);
      forall x, y | x in t.onStack && x != frames[i].node && InSegment(t, frames, i, x) && Adjacent(g, x, y)
        ensures NotBelow(t, y, l)
      {
        assert InSegment(s, frames, i, x);
        assert NotBelow(s, y, l);
      }
    }
  }

  lemma SetLowWitnesses(g: Graph, s: Search, frames: seq<Frame>, low: nat)
    requires Numbered(s) && FramesLinked(g, s, frames) && frames != [] && LowWitnessed(g, s, frames, low)
    requires Numbered(SetLow(s, frames[|frames| - 1].node, low))
    requires FramesLinked(g, SetLow(s, frames[|frames| - 1].node, low), frames)
    ensures LowWitnessed(g, SetLow(s, frames[|frames| - 1].node, low), frames, low)
  {
    var t := SetLow(s, frames[|frames| - 1].node, low);
    forall i | 0 <= i < |frames|
      ensures Low(t, frames, low, i) <= t.indices[frames[i].node]
      ensures Witnessed(g, t, frames[i].node, Low(t, frames, low, i))
    {
      SetLowSame(g, s, frames, low, i);
      var z :| z in s.onStack && s.indices[z] == Low(s, frames, low, i) && Reaches(g, frames[i].node, z);
      assert z in t.onStack;
    }
  }

  lemma SetLowConnects(g: Graph, s: Search, frames: seq<Frame>, low: nat)
    requires Numbered(s) && FramesLinked(g, s, frames) && frames != []
    requires FramesReachUp(g, s, frames) && StackReachesDown(g, s, frames)
    requires Numbered(SetLow(s, frames[|frames| - 1].node, low))
    requires FramesLinked(g, SetLow(s, frames[|frames| - 1].node, low), frames)
    ensures FramesReachUp(g, SetLow(s, frames[|frames| - 1].node, low), frames)
    ensures StackReachesDown(g, SetLow(s, frames[|frames| - 1].node, low), frames)
  {
    var t := SetLow(s, frames[|frames| - 1].node, low);
    forall x | x in t.onStack
      ensures ReachesFrameBelow(g, t, frames, x)
    {
      assert ReachesFrameBelow(g, s, frames, x);
    }
  }

  lemma SetLowKeeps(g: Graph, s: Search, frames: seq<Frame>, low: nat)
    requires Invariant(g, s, frames, low) && frames != []
    ensures Invariant(g, SetLow(s, frames[|frames| - 1].node, low), frames, low)
  {
    var t := SetLow(s, frames[|frames| - 1].node, low);
    assert t.lowlinks.Keys == s.lowlinks.Keys;
    SetLowLinks(g, s, frames, low);
    SetLowBounds(g, s, frames, low);
    SetLowWitnesses(g, s, frames, low);
    SetLowConnects(g, s, frames, low);
    assert forall x :: Finished(t, x) <==> Finished(s, x);
    assert forall x :: InComponent(t, x) <==> InComponent(s, x);
  }

  // Leaving a node that reaches something below it on the stack

  /** The last frame has no edges left. */
  ghost predicate Explored(g: Graph, frames: seq<Frame>)
    requires frames != []
  {
    frames[|frames| - 1].explored == |OutEdges(g, frames[|frames| - 1].node)|
  }

  function Callers(frames: seq<Frame>): seq<Frame>
    requires frames != []
  {
    if |frames| == 1 then [] else Advance(frames[..|frames| - 1])
  }

  function ReturnLow(s: Search, frames: seq<Frame>, low: nat): nat
    requires |frames| > 1 && frames[|frames| - 2].node in s.lowlinks
  {
    Min(s.lowlinks[frames[|frames| - 2].node], low)
  }

  lemma CallersNodes(frames: seq<Frame>)
    requires |frames| > 1
    ensures |Callers(frames)| == |frames| - 1
    ensures forall i :: 0 <= i < |frames| - 1 ==> Callers(frames)[i].node == frames[i].node
  {}

  lemma CallersLinks(g: Graph, s: Search, frames: seq<Frame>)
    requires Numbered(s) && FramesLinked(g, s, frames) && |frames| > 1
    ensures FramesLinked(g, s, Callers(frames))
  {
    var fs := Callers(frames);
    assert Waits(g, s, frames, |frames| - 2);
    CallersNodes(frames);
    forall i | 0 <= i < |fs| - 1
      ensures Waits(g, s, fs, i)
    {
      assert Waits(g, s, frames, i) && fs[i] == frames[i];
    }
  }

  lemma ReturnHasCaller(g: Graph, s: Search, frames: seq<Frame>, low: nat)
    requires Numbered(s) && FramesLinked(g, s, frames) && LowWitnessed(g, s, frames, low)
    requires StackReachesDown(g, s, frames)
    requires frames != [] && low < s.indices[frames[|frames| - 1].node]
    ensures exists i :: 0 <= i < |frames| - 1 && s.indices[frames[i].node] <= low &&
                        Reaches(g, frames[|frames| - 1].node, frames[i].node)
  {
    hide Reaches, IsPath;
    var v := frames[|frames| - 1].node;
    assert Low(s, frames, low, |frames| - 1) == low;
    var z :| z in s.onStack && s.indices[z] == low && Reaches(g, v, z);
    assert ReachesFrameBelow(g, s, frames, z);
    var i :| 0 <= i < |frames| && s.indices[frames[i].node] <= s.indices[z] && Reaches(g, z, frames[i].node);
    ReachesTrans(g, v, z, frames[i].node);
  }

  /** The segment of the node being left becomes part of its caller's segment. */
  lemma ReturnSegment(g: Graph, s: Search, frames: seq<Frame>, low: nat)
    requires Numbered(s) && FramesLinked(g, s, frames) && LowBounds(g, s, frames, low)
    requires |frames| > 1 && Explored(g, frames) && FramesLinked(g, s, Callers(frames))
    ensures SegmentBounded(g, s, Callers(frames), |frames| - 2, ReturnLow(s, frames, low))
  {
    CallersNodes(frames);
    hide Waits, Callers, Advance;
    var fs, low' := Callers(frames), ReturnLow(s, frames, low);
    var u, v := frames[|frames| - 2], frames[|frames| - 1];
    assert Low(s, frames, low, |frames| - 1) == low && Low(s, frames, low, |frames| - 2) == s.lowlinks[u.node];
    assert FollowedBounded(g, s, v, low) && SegmentBounded(g, s, frames, |frames| - 1, low);
    assert SegmentBounded(g, s, frames, |frames| - 2, s.lowlinks[u.node]);
    forall x, y | x in s.onStack && x != u.node && InSegment(s, fs, |frames| - 2, x) && Adjacent(g, x, y)
      ensures NotBelow(s, y, low')
    {
      if x == v.node {
        var e :| e in OutEdges(g, x) && e.target == y;
        var k :| 0 <= k < |OutEdges(g, x)| && OutEdges(g, x)[k] == e;
        assert NotBelow(s, OutEdges(g, v.node)[k].target, low);
      } else if s.indices[v.node] <= s.indices[x] {
        assert InSegment(s, frames, |frames| - 1, x);
        assert NotBelow(s, y, low);
      } else {
        assert InSegment(s, frames, |frames| - 2, x);
        assert NotBelow(s, y, s.lowlinks[u.node]);
      }
    }
  }

  /** The segments below the caller's are not affected. */
  lemma CallersSegment(g: Graph, s: Search, frames: seq<Frame>, i: nat, low: nat)
    requires Numbered(s) && FramesLinked(g, s, frames) && i < |frames| - 2 && SegmentBounded(g, s, frames, i, low)
    requires FramesLinked(g, s, Callers(frames))
    ensures SegmentBounded(g, s, Callers(frames), i, low)
  {
    var fs := Callers(frames);
    assert fs[i] == frames[i] && fs[i + 1].node == frames[i + 1].node;
    forall x, y | x in s.onStack && x != fs[i].node && InSegment(s, fs, i, x) && Adjacent(g, x, y)
      ensures NotBelow(s, y, low)
    {
      assert InSegment(s, frames, i, x);
    }
  }

  lemma ReturnFollowed(g: Graph, s: Search, frames: seq<Frame>, low: nat)
    requires Numbered(s) && FramesLinked(g, s, frames) && LowBounds(g, s, frames, low)
    requires |frames| > 1 && FramesLinked(g, s, Callers(frames))
    requires low <= s.indices[frames[|frames| - 1].node]
    ensures FollowedBounded(g, s, Callers(frames)[|frames| - 2], ReturnLow(s, frames, low))
  {
    var u := frames[|frames| - 2];
    assert Low(s, frames, low, |frames| - 2) == s.lowlinks[u.node];
    assert FollowedBounded(g, s, u, s.lowlinks[u.node]);
    assert Waits(g, s, frames, |frames| - 2);
  }

  lemma ReturnBounds(g: Graph, s: Search, frames: seq<Frame>, low: nat)
    requires Numbered(s) && FramesLinked(g, s, frames) && LowBounds(g, s, frames, low)
    requires |frames| > 1 && Explored(g, frames) && FramesLinked(g, s, Callers(frames))
    requires low <= s.indices[frames[|frames| - 1].node]
    ensures LowBounds(g, s, Callers(frames), ReturnLow(s, frames, low))
  {
    var fs, low' := Callers(frames), ReturnLow(s, frames, low);
    ReturnSegment(g, s, frames, low);
    ReturnFollowed(g, s, frames, low);
    forall i | 0 <= i < |fs|
      ensures FollowedBounded(g, s, fs[i], Low(s, fs, low', i))
      ensures SegmentBounded(g, s, fs, i, Low(s, fs, low', i))
    {
      if i < |fs| - 1 {
        var l := Low(s, frames, low, i);
        assert FollowedBounded(g, s, frames[i], l) && SegmentBounded(g, s, frames, i, l);
        CallersSegment(g, s, frames, i, l);
        assert fs[i] == frames[i] && Low(s, fs, low', i) == l;
      }
    }
  }

  lemma ReturnWitness(g: Graph, s: Search, frames: seq<Frame>, low: nat)
    requires Numbered(s) && FramesLinked(g, s, frames) && |frames| > 1 && FramesReachUp(g, s, frames)
    requires Witnessed(g, s, frames[|frames| - 1].node, low)
    ensures Witnessed(g, s, frames[|frames| - 2].node, low)
  {
    hide Reaches;
    var u, v := frames[|frames| - 2].node, frames[|frames| - 1].node;
    assert Waits(g, s, frames, |frames| - 2);
    var z :| z in s.onStack && s.indices[z] == low && Reaches(g, v, z);
    assert Reaches(g, frames[|frames| - 2].node, v);
    ReachesTrans(g, u, v, z);
  }

  lemma ReturnWitnesses(g: Graph, s: Search, frames: seq<Frame>, low: nat)
    requires Numbered(s) && FramesLinked(g, s, frames) && LowWitnessed(g, s, frames, low)
    requires FramesReachUp(g, s, frames)
    requires |frames| > 1 && FramesLinked(g, s, Callers(frames))
    ensures LowWitnessed(g, s, Callers(frames), ReturnLow(s, frames, low))
  {
    CallersNodes(frames);
    hide Callers, Advance;
    var fs, low' := Callers(frames), ReturnLow(s, frames, low);
    assert Low(s, frames, low, |frames| - 1) == low;
    ReturnWitness(g, s, frames, low);
    hide Reaches, Witnessed, FramesReachUp, Waits;
    forall i | 0 <= i < |fs|
      ensures Low(s, fs, low', i) <= s.indices[fs[i].node]
      ensures Witnessed(g, s, fs[i].node, Low(s, fs, low', i))
    {
      var l := Low(s, frames, low, i);
      assert fs[i].node == frames[i].node;
      assert l <= s.indices[frames[i].node] && Witnessed(g, s, frames[i].node, l);
    }
  }

  lemma CallersReachUp(g: Graph, s: Search, frames: seq<Frame>)
    requires Numbered(s) && FramesLinked(g, s, frames) && |frames| > 1 && FramesLinked(g, s, Callers(frames))
    requires FramesReachUp(g, s, frames)
    ensures FramesReachUp(g, s, Callers(frames))
  {
    var fs := Callers(frames);
    forall i, x | 0 <= i < |fs| && x in s.onStack && s.indices[fs[i].node] <= s.indices[x]
      ensures Reaches(g, fs[i].node, x)
    {
      assert Reaches(g, frames[i].node, x);
    }
  }

  lemma ReturnReachesBelow(g: Graph, s: Search, frames: seq<Frame>, c: nat, x: Node)
    requires Numbered(s) && FramesLinked(g, s, frames) && x in s.onStack && ReachesFrameBelow(g, s, frames, x)
    requires c < |frames| - 1 && s.indices[frames[c].node] < s.indices[frames[|frames| - 1].node]
    requires Reaches(g, frames[|frames| - 1].node, frames[c].node) && FramesLinked(g, s, Callers(frames))
    ensures ReachesFrameBelow(g, s, Callers(frames), x)
  {
    CallersNodes(frames);
    LinkedNode(g, s, frames, c);
    hide Reaches, Callers, FramesLinked, ReachesFrameBelow, Numbered;
    var i := FrameBelow(g, s, frames, x);
    if i == |frames| - 1 {
      ReachesTrans(g, x, frames[i].node, frames[c].node);
      i := c;
    }
    BelowThrough(g, s, Callers(frames), x, i);
  }

  lemma LinkedNode(g: Graph, s: Search, frames: seq<Frame>, i: nat)
    requires Numbered(s) && FramesLinked(g, s, frames) && i < |frames|
    ensures frames[i].node in s.indices
  {
    hide Waits;
  }

  lemma FrameBelow(g: Graph, s: Search, frames: seq<Frame>, x: Node) returns (i: nat)
    requires Numbered(s) && FramesLinked(g, s, frames) && x in s.indices && ReachesFrameBelow(g, s, frames, x)
    ensures i < |frames| && frames[i].node in s.indices && s.indices[frames[i].node] <= s.indices[x]
    ensures Reaches(g, x, frames[i].node)
  {
    hide Reaches, Waits;
    i :| 0 <= i < |frames| && s.indices[frames[i].node] <= s.indices[x] && Reaches(g, x, frames[i].node);
  }

  lemma BelowThrough(g: Graph, s: Search, frames: seq<Frame>, x: Node, i: nat)
    requires Numbered(s) && FramesLinked(g, s, frames) && x in s.indices && i < |frames|
    requires frames[i].node in s.indices && s.indices[frames[i].node] <= s.indices[x] && Reaches(g, x, frames[i].node)
    ensures ReachesFrameBelow(g, s, frames, x)
  {
    hide Reaches, Waits;
  }

  lemma ReturnReachesDown(g: Graph, s: Search, frames: seq<Frame>, c: nat)
    requires Numbered(s) && FramesLinked(g, s, frames) && StackReachesDown(g, s, frames)
    requires c < |frames| - 1 && s.indices[frames[c].node] < s.indices[frames[|frames| - 1].node]
    requires Reaches(g, frames[|frames| - 1].node, frames[c].node) && FramesLinked(g, s, Callers(frames))
    ensures StackReachesDown(g, s, Callers(frames))
  {
    forall x | x in s.onStack
      ensures ReachesFrameBelow(g, s, Callers(frames), x)
    {
      ReturnReachesBelow(g, s, frames, c, x);
    }
  }

  lemma ReturnKeeps(g: Graph, s: Search, frames: seq<Frame>, low: nat)
    requires Invariant(g, s, frames, low) && frames != [] && Explored(g, frames)
    requires low < s.indices[frames[|frames| - 1].node]
    ensures |frames| > 1
    ensures Invariant(g, s, Callers(frames), ReturnLow(s, frames, low))
  {
    ReturnHasCaller(g, s, frames, low);
    CallersLinks(g, s, frames);
    ReturnBounds(g, s, frames, low);
    ReturnWitnesses(g, s, frames, low);
    CallersReachUp(g, s, frames);
    var c :| 0 <= c < |frames| - 1 && s.indices[frames[c].node] <= low &&
             Reaches(g, frames[|frames| - 1].node, frames[c].node);
    ReturnReachesDown(g, s, frames, c);
  }

  // Leaving a node that is the oldest of its component

  function Popped(s: Search, k: nat): seq<Node>
    requires k <= |s.stack|
  {
    seq(|s.stack| - k, i requires 0 <= i < |s.stack| - k => s.stack[|s.stack| - 1 - i])
  }

  /** The stack cut off at position `k`, its upper part recorded as a component. */
  function Harvest(s: Search, k: nat): Search
    requires k <= |s.stack|
  {
    s.(stack := s.stack[..k], onStack := s.onStack - (set x | x in s.stack[k..]),
       components := s.components + [Popped(s, k)])
  }

  /** The last frame's node is at position `k` of the stack and is numbered `low`. */
  ghost predicate CanHarvest(g: Graph, s: Search, frames: seq<Frame>, low: nat, k: nat) {
    && frames != [] && Explored(g, frames)
    && k < |s.stack| && s.stack[k] == frames[|frames| - 1].node
    && frames[|frames| - 1].node in s.indices && low == s.indices[frames[|frames| - 1].node]
  }

  /** In a sequence that `number` orders strictly, the suffix from `k` holds the members numbered at least as high. */
  lemma SortedSuffix(stack: seq<Node>, number: map<Node, nat>, k: nat, x: Node)
    requires forall y :: y in stack ==> y in number
    requires forall i, j :: 0 <= i < j < |stack| ==> number[stack[i]] < number[stack[j]]
    requires k < |stack|
    ensures x in stack[k..] <==> x in stack && number[stack[k]] <= number[x]
  {
    if x in stack[k..] {
      var i :| 0 <= i < |stack[k..]| && stack[k..][i] == x;
      assert stack[k + i] == x;
    }
    if x in stack {
      var i :| 0 <= i < |stack| && stack[i] == x;
      if k <= i {
        assert stack[k..][i - k] == x;
      }
    }
  }

  lemma HarvestCut(s: Search, k: nat)
    requires Numbered(s) && StackOrdered(s) && k < |s.stack|
    ensures forall x :: x in s.stack[k..] <==> x in s.onStack && s.indices[s.stack[k]] <= s.indices[x]
  {
    forall x
      ensures x in s.stack[k..] <==> x in s.onStack && s.indices[s.stack[k]] <= s.indices[x]
    {
      SortedSuffix(s.stack, s.indices, k, x);
    }
  }

  lemma PoppedMembers(s: Search, k: nat)
    requires k <= |s.stack|
    ensures forall x :: x in Popped(s, k) <==> x in s.stack[k..]
  {
    forall x | x in s.stack[k..]
      ensures x in Popped(s, k)
    {
      var i :| 0 <= i < |s.stack[k..]| && s.stack[k..][i] == x;
      assert Popped(s, k)[|s.stack| - k - 1 - i] == x;
    }
    forall x | x in Popped(s, k)
      ensures x in s.stack[k..]
    {
      var i :| 0 <= i < |Popped(s, k)| && Popped(s, k)[i] == x;
      assert s.stack[k..][|s.stack| - k - 1 - i] == x;
    }
  }

  /** What is harvested, together with what is finished. */
  ghost function Gathered(s: Search, v: Node): iset<Node>
    requires v in s.indices
  {
    iset x | Finished(s, x) || (x in s.indices && x in s.onStack && s.indices[v] <= s.indices[x])
  }

  lemma GatheredClosed(g: Graph, s: Search, frames: seq<Frame>, low: nat)
    requires Numbered(s) && FramesLinked(g, s, frames) && LowBounds(g, s, frames, low) && Harvested(g, s)
    requires frames != [] && Explored(g, frames) && low == s.indices[frames[|frames| - 1].node]
    ensures ClosedUnder(g, Gathered(s, frames[|frames| - 1].node))
  {
    var last := |frames| - 1;
    var v := frames[last];
    assert Low(s, frames, low, last) == low;
    assert FollowedBounded(g, s, v, low) && SegmentBounded(g, s, frames, last, low);
    forall x, y | x in Gathered(s, v.node) && Adjacent(g, x, y)
      ensures y in Gathered(s, v.node)
    {
      if Finished(s, x) {
        assert Finished(s, y);
      } else if x == v.node {
        var e :| e in OutEdges(g, x) && e.target == y;
        var k :| 0 <= k < |OutEdges(g, x)| && OutEdges(g, x)[k] == e;
        assert NotBelow(s, OutEdges(g, v.node)[k].target, low);
      } else {
        assert InSegment(s, frames, last, x);
        assert NotBelow(s, y, low);
      }
    }
  }

  lemma HarvestedReachRoot(g: Graph, s: Search, frames: seq<Frame>, low: nat, x: Node)
    requires Numbered(s) && FramesLinked(g, s, frames) && StackReachesDown(g, s, frames)
    requires frames != [] && ClosedUnder(g, Gathered(s, frames[|frames| - 1].node))
    requires x in s.onStack && s.indices[frames[|frames| - 1].node] <= s.indices[x]
    ensures Reaches(g, x, frames[|frames| - 1].node)
  {
    var v := frames[|frames| - 1].node;
    assert ReachesFrameBelow(g, s, frames, x);
    var i :| 0 <= i < |frames| && s.indices[frames[i].node] <= s.indices[x] && Reaches(g, x, frames[i].node);
    if i < |frames| - 1 {
      FramesIncrease(g, s, frames, i, |frames| - 1);
      ReachesStaysIn(g, Gathered(s, v), x, frames[i].node);
      assert false;
    }
  }

  lemma HarvestMutual(g: Graph, s: Search, frames: seq<Frame>, low: nat, x: Node, y: Node)
    requires Numbered(s) && FramesLinked(g, s, frames) && FramesReachUp(g, s, frames)
    requires StackReachesDown(g, s, frames) && Harvested(g, s)
    requires frames != [] && ClosedUnder(g, Gathered(s, frames[|frames| - 1].node))
    requires x in s.onStack && s.indices[frames[|frames| - 1].node] <= s.indices[x]
    ensures (y in s.onStack && s.indices[frames[|frames| - 1].node] <= s.indices[y]) <==> Mutual(g, x, y)
  {
    var v := frames[|frames| - 1].node;
    HarvestedReachRoot(g, s, frames, low, x);
    assert Reaches(g, v, x);
    if y in s.onStack && s.indices[v] <= s.indices[y] {
      HarvestedReachRoot(g, s, frames, low, y);
      assert Reaches(g, v, y);
      ReachesTrans(g, x, v, y);
      ReachesTrans(g, y, v, x);
    }
    if Mutual(g, x, y) {
      ReachesStaysIn(g, Gathered(s, v), x, y);
      if Finished(s, y) {
        var done := iset z | Finished(s, z);
        ReachesStaysIn(g, done, y, x);
      }
    }
  }

  lemma PoppedDistinct(s: Search, k: nat)
    requires Numbered(s) && StackOrdered(s) && k <= |s.stack|
    ensures forall i, j :: 0 <= i < j < |Popped(s, k)| ==> Popped(s, k)[i] != Popped(s, k)[j]
  {}

  lemma HarvestComponent(g: Graph, s: Search, frames: seq<Frame>, low: nat, k: nat)
    requires Invariant(g, s, frames, low) && CanHarvest(g, s, frames, low, k)
    ensures IsComponent(g, Popped(s, k))
  {
    PoppedDistinct(s, k);
    PoppedMembers(s, k);
    HarvestCut(s, k);
    GatheredClosed(g, s, frames, low);
    forall x, y | x in Popped(s, k)
      ensures y in Popped(s, k) <==> Mutual(g, x, y)
    {
      HarvestMutual(g, s, frames, low, x, y);
    }
  }

  lemma HarvestHarvests(g: Graph, s: Search, frames: seq<Frame>, low: nat, k: nat)
    requires Numbered(s) && StackOrdered(s) && FramesLinked(g, s, frames) && LowBounds(g, s, frames, low)
    requires Harvested(g, s) && CanHarvest(g, s, frames, low, k) && IsComponent(g, Popped(s, k))
    ensures Harvested(g, Harvest(s, k))
  {
    var t := Harvest(s, k);
    var v := frames[|frames| - 1].node;
    PoppedMembers(s, k);
    HarvestCut(s, k);
    GatheredClosed(g, s, frames, low);
    forall x
      ensures Finished(t, x) <==> x in Gathered(s, v)
      ensures Finished(t, x) <==> InComponent(t, x)
    {
      assert t.components[|s.components|] == Popped(s, k);
      assert InComponent(t, x) <==> InComponent(s, x) || x in Popped(s, k);
      assert Finished(s, x) <==> InComponent(s, x);
    }
    forall i, j, x | 0 <= i < j < |t.components| && x in t.components[i]
      ensures x !in t.components[j]
    {
      assert t.components[i] == s.components[i];
      if j == |s.components| {
        assert InComponent(s, x);
        assert Finished(s, x);
      }
    }
  }

  lemma HarvestOrders(s: Search, k: nat)
    requires Numbered(s) && StackOrdered(s) && k < |s.stack|
    ensures Numbered(Harvest(s, k)) && StackOrdered(Harvest(s, k))
    ensures forall x :: x in Harvest(s, k).onStack <==> x in s.onStack && s.indices[x] < s.indices[s.stack[k]]
  {
    var t := Harvest(s, k);
    HarvestCut(s, k);
    forall x
      ensures x in t.stack <==> x in t.onStack
    {
      if x in t.onStack {
        var i :| 0 <= i < |s.stack| && s.stack[i] == x;
        assert i < k;
        assert t.stack[i] == x;
      }
      if x in t.stack {
        var i :| 0 <= i < k && s.stack[i] == x;
        assert x in s.stack;
      }
    }
  }

  /** `t` is `s` without the stack nodes numbered `n` or later. */
  ghost predicate Trimmed(s: Search, t: Search, n: nat)
    requires Numbered(s)
  {
    && Numbered(t) && t.indices == s.indices && t.lowlinks == s.lowlinks
    && (forall x :: x in t.onStack <==> x in s.onStack && s.indices[x] < n)
  }

  lemma TrimLinked(g: Graph, s: Search, t: Search, frames: seq<Frame>, n: nat)
    requires Numbered(s) && FramesLinked(g, s, frames) && Trimmed(s, t, n)
    requires forall i :: 0 <= i < |frames| ==> s.indices[frames[i].node] < n
    ensures FramesLinked(g, t, frames)
  {
    forall i | 0 <= i < |frames| - 1
      ensures Waits(g, t, frames, i)
    {
      assert Waits(g, s, frames, i);
    }
  }

  lemma TrimLinks(g: Graph, s: Search, t: Search, frames: seq<Frame>)
    requires Numbered(s) && FramesLinked(g, s, frames) && |frames| > 1
    requires Trimmed(s, t, s.indices[frames[|frames| - 1].node])
    ensures FramesLinked(g, t, Callers(frames))
  {
    var fs := Callers(frames);
    CallersLinks(g, s, frames);
    forall i | 0 <= i < |fs|
      ensures s.indices[fs[i].node] < s.indices[frames[|frames| - 1].node]
    {
      FramesIncrease(g, s, frames, i, |frames| - 1);
      assert fs[i].node == frames[i].node;
    }
    TrimLinked(g, s, t, fs, s.indices[frames[|frames| - 1].node]);
  }

  lemma TrimSegment(g: Graph, s: Search, t: Search, frames: seq<Frame>, i: nat, low: nat)
    requires Numbered(s) && FramesLinked(g, s, frames) && |frames| > 1
    requires Trimmed(s, t, s.indices[frames[|frames| - 1].node]) && FramesLinked(g, t, Callers(frames))
    requires i < |frames| - 1 && SegmentBounded(g, s, frames, i, low)
    ensures SegmentBounded(g, t, Callers(frames), i, low)
  {
    hide Adjacent;
    CallersNodes(frames);
    hide Callers, Advance, Waits;
    var fs := Callers(frames);
    assert fs[i].node == frames[i].node && (i + 1 < |fs| ==> fs[i + 1].node == frames[i + 1].node);
    forall x, y | x in t.onStack && x != fs[i].node && InSegment(t, fs, i, x) && Adjacent(g, x, y)
      ensures NotBelow(t, y, low)
    {
      assert InSegment(s, frames, i, x);
      assert NotBelow(s, y, low);
    }
  }

  lemma TrimFrame(g: Graph, s: Search, t: Search, f: Frame, n: nat, low: nat)
    requires Numbered(s) && Trimmed(s, t, n) && f.explored <= |OutEdges(g, f.node)| && FollowedBounded(g, s, f, low)
    ensures FollowedBounded(g, t, f, low)
  {
    forall k | 0 <= k < f.explored
      ensures NotBelow(t, OutEdges(g, f.node)[k].target, low)
    {
      assert NotBelow(s, OutEdges(g, f.node)[k].target, low);
    }
  }

  lemma FollowedOneMore(g: Graph, s: Search, f: Frame, low: nat)
    requires f.explored < |OutEdges(g, f.node)| && FollowedBounded(g, s, f, low)
    requires NotBelow(s, OutEdges(g, f.node)[f.explored].target, low)
    ensures FollowedBounded(g, s, Frame(f.node, f.explored + 1), low)
  {}

  lemma TrimFollowed(g: Graph, s: Search, t: Search, frames: seq<Frame>, i: nat, low: nat)
    requires Numbered(s) && FramesLinked(g, s, frames) && |frames| > 1
    requires Trimmed(s, t, s.indices[frames[|frames| - 1].node]) && FramesLinked(g, t, Callers(frames))
    requires i < |frames| - 1 && FollowedBounded(g, s, frames[i], low)
    ensures FollowedBounded(g, t, Callers(frames)[i], low)
  {
    var f := frames[i];
    TrimFrame(g, s, t, f, s.indices[frames[|frames| - 1].node], low);
    if i < |frames| - 2 {
      assert Callers(frames)[i] == f;
    } else {
      hide FollowedBounded;
      assert Waits(g, s, frames, i);
      FollowedOneMore(g, t, f, low);
      assert Callers(frames)[i] == Frame(f.node, f.explored + 1);
    }
  }

  lemma TrimBounds(g: Graph, s: Search, t: Search, frames: seq<Frame>, low: nat)
    requires Numbered(s) && FramesLinked(g, s, frames) && LowBounds(g, s, frames, low) && |frames| > 1
    requires Trimmed(s, t, s.indices[frames[|frames| - 1].node]) && FramesLinked(g, t, Callers(frames))
    ensures LowBounds(g, t, Callers(frames), s.lowlinks[frames[|frames| - 2].node])
  {
    hide Adjacent, FollowedBounded, SegmentBounded, Waits;
    CallersNodes(frames);
    hide Callers, Advance;
    var fs, low' := Callers(frames), s.lowlinks[frames[|frames| - 2].node];
    forall i | 0 <= i < |fs|
      ensures FollowedBounded(g, t, fs[i], Low(t, fs, low', i))
      ensures SegmentBounded(g, t, fs, i, Low(t, fs, low', i))
    {
      var l := Low(s, frames, low, i);
      assert fs[i].node == frames[i].node && Low(t, fs, low', i) == l;
      TrimSegment(g, s, t, frames, i, l);
      TrimFollowed(g, s, t, frames, i, l);
    }
  }

  lemma TrimWitness(g: Graph, s: Search, t: Search, frames: seq<Frame>, i: nat, low: nat)
    requires Numbered(s) && FramesLinked(g, s, frames) && i < |frames| - 1
    requires Trimmed(s, t, s.indices[frames[|frames| - 1].node])
    requires low <= s.indices[frames[i].node] && Witnessed(g, s, frames[i].node, low)
    ensures Witnessed(g, t, frames[i].node, low)
  {
    hide Reaches;
    var z :| z in s.onStack && s.indices[z] == low && Reaches(g, frames[i].node, z);
    FramesIncrease(g, s, frames, i, |frames| - 1);
    assert z in t.onStack;
  }

  lemma TrimWitnesses(g: Graph, s: Search, t: Search, frames: seq<Frame>, low: nat)
    requires Numbered(s) && FramesLinked(g, s, frames) && LowWitnessed(g, s, frames, low) && |frames| > 1
    requires Trimmed(s, t, s.indices[frames[|frames| - 1].node]) && FramesLinked(g, t, Callers(frames))
    ensures LowWitnessed(g, t, Callers(frames), s.lowlinks[frames[|frames| - 2].node])
  {
    hide Witnessed, Waits;
    CallersNodes(frames);
    hide Callers, Advance;
    var fs, low' := Callers(frames), s.lowlinks[frames[|frames| - 2].node];
    forall i | 0 <= i < |fs|
      ensures Low(t, fs, low', i) <= t.indices[fs[i].node]
      ensures Witnessed(g, t, fs[i].node, Low(t, fs, low', i))
    {
      var l := Low(s, frames, low, i);
      assert fs[i].node == frames[i].node && Low(t, fs, low', i) == l;
      TrimWitness(g, s, t, frames, i, l);
    }
  }

  lemma TrimReachesUp(g: Graph, s: Search, t: Search, frames: seq<Frame>)
    requires Numbered(s) && FramesLinked(g, s, frames) && FramesReachUp(g, s, frames) && |frames| > 1
    requires Trimmed(s, t, s.indices[frames[|frames| - 1].node]) && FramesLinked(g, t, Callers(frames))
    ensures FramesReachUp(g, t, Callers(frames))
  {
    var fs := Callers(frames);
    forall i, x | 0 <= i < |fs| && x in t.onStack && t.indices[fs[i].node] <= t.indices[x]
      ensures Reaches(g, fs[i].node, x)
    {
      assert Reaches(g, frames[i].node, x);
    }
  }

  lemma TrimReachesBelow(g: Graph, s: Search, t: Search, frames: seq<Frame>, x: Node)
    requires Numbered(s) && FramesLinked(g, s, frames) && |frames| > 1
    requires Trimmed(s, t, s.indices[frames[|frames| - 1].node]) && FramesLinked(g, t, Callers(frames))
    requires x in t.onStack && ReachesFrameBelow(g, s, frames, x)
    ensures ReachesFrameBelow(g, t, Callers(frames), x)
  {
    CallersNodes(frames);
    var i := FrameBelow(g, s, frames, x);
    hide Reaches, Callers, FramesLinked, ReachesFrameBelow;
    BelowThrough(g, t, Callers(frames), x, i);
  }

  lemma TrimReachesDown(g: Graph, s: Search, t: Search, frames: seq<Frame>)
    requires Numbered(s) && FramesLinked(g, s, frames) && StackReachesDown(g, s, frames) && |frames| > 1
    requires Trimmed(s, t, s.indices[frames[|frames| - 1].node]) && FramesLinked(g, t, Callers(frames))
    ensures StackReachesDown(g, t, Callers(frames))
  {
    forall x | x in t.onStack
      ensures ReachesFrameBelow(g, t, Callers(frames), x)
    {
      assert ReachesFrameBelow(g, s, frames, x);
      TrimReachesBelow(g, s, t, frames, x);
    }
  }

  /** With no frame left nothing is on the stack. */
  lemma HarvestEmpties(g: Graph, s: Search, frames: seq<Frame>, t: Search)
    requires Numbered(s) && FramesLinked(g, s, frames) && StackReachesDown(g, s, frames) && |frames| == 1
    requires Trimmed(s, t, s.indices[frames[0].node])
    ensures t.onStack == {}
  {
    forall x | x in s.onStack
      ensures s.indices[frames[0].node] <= s.indices[x]
    {
      assert ReachesFrameBelow(g, s, frames, x);
    }
  }

  lemma HarvestKeeps(g: Graph, s: Search, frames: seq<Frame>, low: nat, k: nat)
    requires Invariant(g, s, frames, low) && CanHarvest(g, s, frames, low, k)
    ensures |frames| == 1 ==> forall l :: Invariant(g, Harvest(s, k), [], l)
    ensures |frames| > 1 ==> Invariant(g, Harvest(s, k), Callers(frames), ReturnLow(s, frames, low))
  {
    var t := Harvest(s, k);
    HarvestComponent(g, s, frames, low, k);
    HarvestHarvests(g, s, frames, low, k);
    HarvestOrders(s, k);
    assert Trimmed(s, t, s.indices[frames[|frames| - 1].node]);
    if |frames| > 1 {
      TrimLinks(g, s, t, frames);
      HarvestLow(g, s, frames, low);
      TrimBounds(g, s, t, frames, low);
      TrimWitnesses(g, s, t, frames, low);
      TrimReachesUp(g, s, t, frames);
      TrimReachesDown(g, s, t, frames);
    } else {
      HarvestEmpties(g, s, frames, t);
    }
  }

  /** A harvested node's lowlink leaves its caller's lowlink alone. */
  lemma HarvestLow(g: Graph, s: Search, frames: seq<Frame>, low: nat)
    requires Numbered(s) && FramesLinked(g, s, frames) && LowWitnessed(g, s, frames, low)
    requires |frames| > 1 && low == s.indices[frames[|frames| - 1].node]
    ensures ReturnLow(s, frames, low) == s.lowlinks[frames[|frames| - 2].node]
  {
    assert Waits(g, s, frames, |frames| - 2);
    assert Low(s, frames, low, |frames| - 2) <= s.indices[frames[|frames| - 2].node];
  }
}

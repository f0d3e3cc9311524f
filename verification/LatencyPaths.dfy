/** How long the paths through the uops of an instruction are, in terms of the table of latencies. */
module LatencyPaths {
  import opened Arithmetic
  import opened LatencySplit

  /** The latency from an input to an output, one cycle if the table has none. */
  predicate IsLatency(lat: Latencies, i: nat, o: nat, n: nat) {
    if (i, o) in lat then lat[(i, o)] == n else n == 1
  }

  /** The largest latency from an input to any output. */
  ghost predicate IsWorst(lat: Latencies, outs: seq<nat>, i: nat, w: nat) {
    && (exists o: nat :: o in outs && IsLatency(lat, i, o, w))
    && (forall o: nat, n: nat :: o in outs && IsLatency(lat, i, o, n) ==> n <= w)
  }

  /** No input has a smaller largest latency. */
  ghost predicate IsQuickest(lat: Latencies, ins: seq<nat>, outs: seq<nat>, i: nat) {
    i in ins && forall j: nat, v: nat, w: nat :: j in ins && IsWorst(lat, outs, i, v) && IsWorst(lat, outs, j, w) ==> v <= w
  }

  /** The largest latency of an output from one of the quickest inputs. */
  ghost predicate IsBase(lat: Latencies, ins: seq<nat>, outs: seq<nat>, o: nat, b: nat) {
    && (exists i: nat :: IsQuickest(lat, ins, outs, i) && IsLatency(lat, i, o, b))
    && (forall i: nat, n: nat :: IsQuickest(lat, ins, outs, i) && IsLatency(lat, i, o, n) ==> n <= b)
  }

  lemma LatencyIs(lat: Latencies, i: nat, o: nat, n: nat)
    ensures IsLatency(lat, i, o, n) <==> Latency(lat, i, o) == n
  {}

  lemma WorstExactly(lat: Latencies, outs: seq<nat>, i: nat, w: nat)
    requires outs != []
    ensures IsWorst(lat, outs, i, w) <==> Worst(lat, i, outs) == w
  {
    WorstIsLargest(lat, i, outs);
    forall o: nat, n: nat
      ensures IsLatency(lat, i, o, n) <==> Latency(lat, i, o) == n
    {
      LatencyIs(lat, i, o, n);
    }
    hide IsLatency, Latency, Worst;
    var o :| o in outs && Latency(lat, i, o) == Worst(lat, i, outs);
    assert IsLatency(lat, i, o, Worst(lat, i, outs));
  }

  lemma LevelsAre(lat: Latencies, ins: seq<nat>, outs: seq<nat>, level: nat)
    ensures level in Levels(lat, ins, outs) <==> exists i: nat :: i in ins && Worst(lat, i, outs) == level
  {
    hide Worst, Levels;
    if level in Levels(lat, ins, outs) {
      var i := InputOf(lat, ins, outs, level);
    }
    if i: nat :| i in ins && Worst(lat, i, outs) == level {
      var k := LevelOf(lat, ins, outs, i);
    }
  }

  lemma QuickestWorst(lat: Latencies, ins: seq<nat>, outs: seq<nat>, i: nat)
    requires outs != []
    ensures IsQuickest(lat, ins, outs, i) <==>
            i in ins && forall j :: j in ins ==> Worst(lat, i, outs) <= Worst(lat, j, outs)
  {
    hide IsWorst, Worst;
    WorstExactly(lat, outs, i, Worst(lat, i, outs));
    if IsQuickest(lat, ins, outs, i) {
      forall j | j in ins
        ensures Worst(lat, i, outs) <= Worst(lat, j, outs)
      {
        WorstExactly(lat, outs, j, Worst(lat, j, outs));
      }
    }
    forall j: nat, w: nat | IsWorst(lat, outs, j, w)
      ensures Worst(lat, j, outs) == w
    {
      WorstExactly(lat, outs, j, w);
    }
  }

  lemma QuickestExactly(lat: Latencies, ins: seq<nat>, outs: seq<nat>, i: nat)
    requires outs != []
    ensures IsQuickest(lat, ins, outs, i) <==> i in Lowest(lat, ins, outs)
  {
    QuickestWorst(lat, ins, outs, i);
    hide IsQuickest, Worst, Levels, Class;
    if ins != [] {
      SomeLevel(lat, ins, outs);
      LeastLevel(lat, ins, outs);
      var k := InputOf(lat, ins, outs, Levels(lat, ins, outs)[0]);
    } else {
      NoLevels(lat, outs);
    }
  }

  lemma NoLevels(lat: Latencies, outs: seq<nat>)
    ensures Levels(lat, [], outs) == []
  {}

  lemma SomeLevel(lat: Latencies, ins: seq<nat>, outs: seq<nat>)
    requires ins != []
    ensures Levels(lat, ins, outs) != []
  {
    var k := LevelOf(lat, ins, outs, ins[0]);
  }

  lemma LeastLevel(lat: Latencies, ins: seq<nat>, outs: seq<nat>)
    requires Levels(lat, ins, outs) != []
    ensures forall i :: i in ins ==> Levels(lat, ins, outs)[0] <= Worst(lat, i, outs)
  {
    hide Levels, Worst;
    forall i | i in ins
      ensures Levels(lat, ins, outs)[0] <= Worst(lat, i, outs)
    {
      var k := LevelOf(lat, ins, outs, i);
    }
  }

  lemma {:induction false} BaseIsLargest(lat: Latencies, low: seq<nat>, o: nat)
    requires low != []
    ensures exists i: nat :: i in low && Latency(lat, i, o) == Base(lat, low, o)
    ensures forall i :: i in low ==> Latency(lat, i, o) <= Base(lat, low, o)
  {
    hide Latency;
    var front, last := low[..|low| - 1], low[|low| - 1];
    assert low == front + [last];
    if front != [] {
      BaseIsLargest(lat, front, o);
    }
  }

  lemma BaseExactly(lat: Latencies, ins: seq<nat>, outs: seq<nat>, o: nat, b: nat)
    requires outs != [] && Lowest(lat, ins, outs) != []
    ensures IsBase(lat, ins, outs, o, b) <==> Base(lat, Lowest(lat, ins, outs), o) == b
  {
    var low := Lowest(lat, ins, outs);
    BaseIsLargest(lat, low, o);
    forall i: nat
      ensures IsQuickest(lat, ins, outs, i) <==> i in low
    {
      QuickestExactly(lat, ins, outs, i);
    }
    forall i: nat, n: nat
      ensures IsLatency(lat, i, o, n) <==> Latency(lat, i, o) == n
    {
      LatencyIs(lat, i, o, n);
    }
    hide IsQuickest, IsLatency, Latency, Base, Lowest;
    var i :| i in low && Latency(lat, i, o) == Base(lat, low, o);
    assert IsQuickest(lat, ins, outs, i) && IsLatency(lat, i, o, Base(lat, low, o));
  }

  // How many uops an input can wait for

  /** The largest latencies of other inputs that are smaller. */
  ghost function Below(lat: Latencies, ins: seq<nat>, outs: seq<nat>, w: nat): set<nat> {
    set i | i in ins && Worst(lat, i, outs) < w :: Worst(lat, i, outs)
  }

  ghost function Elements(s: seq<nat>): set<nat> {
    set l | l in s
  }

  lemma {:induction false} Distinct(s: seq<nat>)
    requires Ascending(s)
    ensures |Elements(s)| == |s|
  {
    if s != [] {
      var front, last := s[..|s| - 1], s[|s| - 1];
      assert s == front + [last];
      Distinct(front);
      assert Elements(s) == Elements(front) + {last};
    } else {
      assert Elements(s) == {};
    }
  }

  lemma BelowCounted(lat: Latencies, ins: seq<nat>, outs: seq<nat>, i: nat, k: nat)
    requires AtLevel(lat, ins, outs, i, k)
    ensures |Below(lat, ins, outs, Worst(lat, i, outs))| == k
  {
    hide Worst, Levels;
    var levels, w := Levels(lat, ins, outs), Worst(lat, i, outs);
    Distinct(levels[..k]);
    forall l: nat
      ensures l in Below(lat, ins, outs, w) <==> l in levels[..k]
    {
      LevelsAre(lat, ins, outs, l);
      BelowLevel(levels, k, l);
    }
    assert Below(lat, ins, outs, w) == Elements(levels[..k]);
  }

  lemma BelowLevel(levels: seq<nat>, k: nat, l: nat)
    requires Ascending(levels) && k < |levels|
    ensures l in levels[..k] <==> l in levels && l < levels[k]
  {}

  /** For all inputs and outputs: the longest path between them is the base latency of the output, and for an input whose
      largest latency `w` exceeds that of the quickest inputs the difference, if there are more uops than smaller largest
      latencies. */
  lemma PathsExactly(lat: Latencies, ins: seq<nat>, outs: seq<nat>, n: nat, i: nat, o: nat, w: nat, j: nat, w0: nat,
                     b: nat)
    requires n > 0 && i in ins && o in outs && IsWorst(lat, outs, i, w)
    requires IsQuickest(lat, ins, outs, j) && IsWorst(lat, outs, j, w0) && IsBase(lat, ins, outs, o, b)
    ensures var p := PathsFrom(lat, ins, outs, n, i);
            && Out(o) in p && w >= w0
            && p[Out(o)] == b + if |Below(lat, ins, outs, w)| < n then w - w0 else 0
  {
    WorstExactly(lat, outs, i, w);
    WorstExactly(lat, outs, j, w0);
    QuickestExactly(lat, ins, outs, j);
    var k := LevelOf(lat, ins, outs, i);
    hide IsWorst, IsQuickest, IsBase, Worst, Levels, Lowest, Base, PathsFrom, Below;
    BaseExactly(lat, ins, outs, o, b);
    PathLengths(lat, ins, outs, i, k, n);
    BelowCounted(lat, ins, outs, i, k);
    DelayExactly(lat, ins, outs, n, i, k, j);
  }

  lemma DelayExactly(lat: Latencies, ins: seq<nat>, outs: seq<nat>, n: nat, i: nat, k: nat, j: nat)
    requires n > 0 && AtLevel(lat, ins, outs, i, k) && j in Lowest(lat, ins, outs)
    ensures Worst(lat, j, outs) <= Worst(lat, i, outs)
    ensures DelayOf(lat, ins, outs, n, k) == if k < n then Worst(lat, i, outs) - Worst(lat, j, outs) else 0
  {
    var levels := Levels(lat, ins, outs);
    assert levels[0] <= levels[k];
    hide Levels, Worst;
  }

  /** Uops for which there is no class read all inputs and produce nothing. */
  lemma SpareUops(lat: Latencies, ins: seq<nat>, outs: seq<nat>, n: nat, j: nat)
    requires |Levels(lat, ins, outs)| <= j && 0 < j < n
    ensures var u := SplitOf(lat, ins, outs, n)[j];
            && u.latencies == map[] && |u.inputs| == |ins| && forall k :: 0 <= k < |ins| ==> u.inputs[k] == In(ins[k])
  {
    hide Levels, ClassUops, BaseUop;
    assert SplitOf(lat, ins, outs, n)[j] == Extras(ins, n - 1 - Covered(lat, ins, outs, n))[0];
  }

  /** With no inputs every output takes one cycle. */
  lemma WithoutInputs(lat: Latencies, outs: seq<nat>, n: nat, o: nat)
    requires n > 0 && o in outs
    ensures var u := SplitOf(lat, [], outs, n)[0];
            u.inputs == [] && Out(o) in u.latencies && u.latencies[Out(o)] == 1
  {
    NoLevels(lat, outs);
  }
}

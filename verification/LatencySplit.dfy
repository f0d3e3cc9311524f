/** How the latencies of an instruction are split among its uops that do not access memory (`computeUopProperties`). */
module LatencySplit {
  import opened Arithmetic

  /** What uops read and write: operands of the instruction, and intermediate results. A register that is both read and
      written is two operands. */
  datatype Operand = In(id: nat) | Out(id: nat) | Mid(level: nat)

  datatype Uop = Uop(inputs: seq<Operand>, latencies: map<Operand, nat>)

  type Latencies = map<(nat, nat), nat>

  function Latency(lat: Latencies, i: nat, o: nat): nat {
    if (i, o) in lat then lat[(i, o)] else 1
  }

  // Paths through uops

  /** The latest of the operands that have arrived, if any has. */
  function Latest(ops: seq<Operand>, d: map<Operand, nat>): (r: (bool, nat)) {
    if ops == [] then (false, 0)
    else
      var (some, t) := Latest(ops[..|ops| - 1], d);
      var last := ops[|ops| - 1];
      if last !in d then (some, t) else (true, if some && d[last] < t then t else d[last])
  }

  /** When the results of a uop arrive. */
  function Step(u: Uop, d: map<Operand, nat>): map<Operand, nat> {
    var (some, t) := Latest(u.inputs, d);
    if some then d + map o | o in u.latencies :: t + u.latencies[o] else d
  }

  /** The length of the longest path through uops in order to each operand that can be reached. */
  function Arrive(us: seq<Uop>, d: map<Operand, nat>): map<Operand, nat> {
    if us == [] then d else Step(us[|us| - 1], Arrive(us[..|us| - 1], d))
  }

  lemma {:induction false} ArriveConcat(a: seq<Uop>, b: seq<Uop>, d: map<Operand, nat>)
    ensures Arrive(a + b, d) == Arrive(b, Arrive(a, d))
  {
    if b == [] {
      assert a + b == a;
    } else {
      assert (a + b)[..|a + b| - 1] == a + b[..|b| - 1];
      ArriveConcat(a, b[..|b| - 1], d);
    }
  }

  // Latency classes

  function MaxOf(a: nat, b: nat): nat {
    if a < b then b else a
  }

  /** The largest latency from an input to the outputs, 1 if there are none. */
  function Worst(lat: Latencies, i: nat, outs: seq<nat>): nat {
    if outs == [] then 1
    else if |outs| == 1 then Latency(lat, i, outs[0])
    else MaxOf(Worst(lat, i, outs[..|outs| - 1]), Latency(lat, i, outs[|outs| - 1]))
  }

  lemma {:induction false} WorstIsLargest(lat: Latencies, i: nat, outs: seq<nat>)
    requires outs != []
    ensures forall o :: o in outs ==> Latency(lat, i, o) <= Worst(lat, i, outs)
    ensures exists o :: o in outs && Latency(lat, i, o) == Worst(lat, i, outs)
  {
    var front, last := outs[..|outs| - 1], outs[|outs| - 1];
    assert outs == front + [last];
    if front != [] {
      WorstIsLargest(lat, i, front);
    }
  }

  /** The inputs with a given largest latency. */
  function Class(lat: Latencies, ins: seq<nat>, outs: seq<nat>, level: nat): (r: seq<nat>)
    ensures forall i :: i in r <==> i in ins && Worst(lat, i, outs) == level
  {
    if ins == [] then []
    else
      var front, last := ins[..|ins| - 1], ins[|ins| - 1];
      assert ins == front + [last];
      Class(lat, front, outs, level) + if Worst(lat, last, outs) == level then [last] else []
  }

  predicate Ascending(s: seq<nat>) {
    forall i, j :: 0 <= i < j < |s| ==> s[i] < s[j]
  }

  lemma AscendingSnoc(s: seq<nat>, x: nat)
    requires Ascending(s) && forall y :: y in s ==> y < x
    ensures Ascending(s + [x])
  {
    forall i, j | 0 <= i < j < |s| + 1
      ensures (s + [x])[i] < (s + [x])[j]
    {
      if j == |s| {
        assert s[i] in s;
      }
    }
  }

  function Insert(s: seq<nat>, x: nat): (r: seq<nat>)
    requires Ascending(s)
    ensures Ascending(r) && forall y :: y in r <==> y == x || y in s
  {
    if s == [] then [x]
    else if s[|s| - 1] < x then s + [x]
    else if s[|s| - 1] == x then s
    else
      var front, last := s[..|s| - 1], s[|s| - 1];
      assert s == front + [last];
      var r := Insert(front, x);
      AscendingSnoc(r, last);
      r + [last]
  }

  /** The distinct largest latencies, from the lowest. */
  function Levels(lat: Latencies, ins: seq<nat>, outs: seq<nat>): (r: seq<nat>)
    ensures Ascending(r)
  {
    if ins == [] then []
    else Insert(Levels(lat, ins[..|ins| - 1], outs), Worst(lat, ins[|ins| - 1], outs))
  }

  lemma {:induction false} LevelOf(lat: Latencies, ins: seq<nat>, outs: seq<nat>, i: nat) returns (k: nat)
    requires i in ins
    ensures k < |Levels(lat, ins, outs)| && Levels(lat, ins, outs)[k] == Worst(lat, i, outs)
  {
    hide Worst;
    var front, last := ins[..|ins| - 1], ins[|ins| - 1];
    assert ins == front + [last];
    if i != last {
      var j := LevelOf(lat, front, outs, i);
      assert Levels(lat, front, outs)[j] in Levels(lat, ins, outs);
    }
    assert Worst(lat, i, outs) in Levels(lat, ins, outs);
    k :| 0 <= k < |Levels(lat, ins, outs)| && Levels(lat, ins, outs)[k] == Worst(lat, i, outs);
  }

  lemma {:induction false} InputOf(lat: Latencies, ins: seq<nat>, outs: seq<nat>, level: nat) returns (i: nat)
    requires level in Levels(lat, ins, outs)
    ensures i in ins && Worst(lat, i, outs) == level
  {
    hide Worst;
    var front, last := ins[..|ins| - 1], ins[|ins| - 1];
    assert ins == front + [last];
    if Worst(lat, last, outs) == level {
      i := last;
    } else {
      i := InputOf(lat, front, outs, level);
    }
  }

  // Splitting

  function Wrap(ids: seq<nat>): (r: seq<Operand>)
    ensures |r| == |ids| && forall k :: 0 <= k < |r| ==> r[k] == In(ids[k])
  {
    seq(|ids|, k requires 0 <= k < |ids| => In(ids[k]))
  }

  /** The latency of an output from the inputs of the lowest class. */
  function Base(lat: Latencies, class_: seq<nat>, o: nat): nat {
    if class_ == [] then 1
    else if |class_| == 1 then Latency(lat, class_[0], o)
    else MaxOf(Base(lat, class_[..|class_| - 1], o), Latency(lat, class_[|class_| - 1], o))
  }

  /** How far a class lies above the lowest. */
  function Gap(lat: Latencies, ins: seq<nat>, outs: seq<nat>, k: nat): nat
    requires k < |Levels(lat, ins, outs)|
  {
    var levels := Levels(lat, ins, outs);
    assert levels[0] <= levels[k];
    levels[k] - levels[0]
  }

  /** The uop that delays the inputs of a class. */
  function ClassUop(lat: Latencies, ins: seq<nat>, outs: seq<nat>, k: nat): Uop
    requires k < |Levels(lat, ins, outs)|
  {
    Uop(Wrap(Class(lat, ins, outs, Levels(lat, ins, outs)[k])), map[Mid(k) := Gap(lat, ins, outs, k)])
  }

  /** The uops of the classes up to `k`, from the highest. */
  function ClassUops(lat: Latencies, ins: seq<nat>, outs: seq<nat>, k: nat): (us: seq<Uop>)
    requires k == 0 || k < |Levels(lat, ins, outs)|
    ensures |us| == k
  {
    if k == 0 then [] else [ClassUop(lat, ins, outs, k)] + ClassUops(lat, ins, outs, k - 1)
  }

  function Mids(k: nat): (r: seq<Operand>)
    ensures |r| == k && forall j :: 0 <= j < k ==> r[j] == Mid(j + 1)
  {
    seq(k, j requires 0 <= j < k => Mid(j + 1))
  }

  /** The inputs of the classes from `k` on. */
  function Leftover(lat: Latencies, ins: seq<nat>, outs: seq<nat>, k: nat): seq<Operand>
    requires k <= |Levels(lat, ins, outs)|
    decreases |Levels(lat, ins, outs)| - k
  {
    var levels := Levels(lat, ins, outs);
    if k == |levels| then []
    else Wrap(Class(lat, ins, outs, levels[k])) + Leftover(lat, ins, outs, k + 1)
  }

  function Lowest(lat: Latencies, ins: seq<nat>, outs: seq<nat>): seq<nat> {
    var levels := Levels(lat, ins, outs);
    if levels == [] then [] else Class(lat, ins, outs, levels[0])
  }

  function BaseLatencies(lat: Latencies, low: seq<nat>, outs: seq<nat>): map<Operand, nat> {
    map o | o in outs :: Out(o) := Base(lat, low, o)
  }

  /** How many classes get a uop of their own when there are `n` uops. */
  function Covered(lat: Latencies, ins: seq<nat>, outs: seq<nat>, n: nat): (c: nat)
    requires n > 0
  {
    var levels := Levels(lat, ins, outs);
    if levels == [] then 0 else Min(n - 1, |levels| - 1)
  }

  function BaseUop(lat: Latencies, ins: seq<nat>, outs: seq<nat>, n: nat): Uop
    requires n > 0
  {
    var c := Covered(lat, ins, outs, n);
    Uop(Wrap(Lowest(lat, ins, outs)) + Mids(c) +
        (if Levels(lat, ins, outs) == [] then [] else Leftover(lat, ins, outs, c + 1)), BaseLatencies(lat, Lowest(lat, ins, outs), outs))
  }

  function Extras(ins: seq<nat>, n: nat): seq<Uop> {
    seq(n, _ => Uop(Wrap(ins), map[]))
  }

  function SplitOf(lat: Latencies, ins: seq<nat>, outs: seq<nat>, n: nat): (us: seq<Uop>)
    requires n > 0
    ensures |us| == n
  {
    var c := Covered(lat, ins, outs, n);
    ClassUops(lat, ins, outs, c) + [BaseUop(lat, ins, outs, n)] + Extras(ins, n - 1 - c)
  }

  // The paths through the uops of a split

  lemma {:induction false} LatestAll(ops: seq<Operand>, d: map<Operand, nat>, t: nat)
    requires forall op :: op in ops && op in d ==> d[op] == t
    ensures Latest(ops, d).0 <==> exists op :: op in ops && op in d
    ensures Latest(ops, d).0 ==> Latest(ops, d).1 == t
  {
    if ops != [] {
      var front, last := ops[..|ops| - 1], ops[|ops| - 1];
      assert ops == front + [last];
      LatestAll(front, d, t);
    }
  }

  /** Of the inputs only `i` has arrived. */
  ghost predicate Only(d: map<Operand, nat>, i: nat) {
    && In(i) in d && d[In(i)] == 0
    && forall x :: In(x) in d ==> x == i
  }

  lemma WrapLatest(ids: seq<nat>, d: map<Operand, nat>, i: nat)
    requires Only(d, i)
    ensures Latest(Wrap(ids), d).0 <==> i in ids
    ensures Latest(Wrap(ids), d).0 ==> Latest(Wrap(ids), d).1 == 0
  {
    LatestAll(Wrap(ids), d, 0);
    if i in ids {
      var k :| 0 <= k < |ids| && ids[k] == i;
      assert Wrap(ids)[k] == In(i);
    }
  }

  /** The class of an input. */
  ghost predicate AtLevel(lat: Latencies, ins: seq<nat>, outs: seq<nat>, i: nat, k: nat) {
    i in ins && k < |Levels(lat, ins, outs)| && Levels(lat, ins, outs)[k] == Worst(lat, i, outs)
  }

  lemma ClassHolds(lat: Latencies, ins: seq<nat>, outs: seq<nat>, i: nat, k: nat, j: nat)
    requires AtLevel(lat, ins, outs, i, k) && j < |Levels(lat, ins, outs)|
    ensures i in Class(lat, ins, outs, Levels(lat, ins, outs)[j]) <==> j == k
  {
    hide Levels, Worst, Class;
  }

  lemma StepClass(lat: Latencies, ins: seq<nat>, outs: seq<nat>, i: nat, k: nat, j: nat, d: map<Operand, nat>)
    requires AtLevel(lat, ins, outs, i, k) && j < |Levels(lat, ins, outs)| && Only(d, i)
    ensures Only(Step(ClassUop(lat, ins, outs, j), d), i)
    ensures Step(ClassUop(lat, ins, outs, j), d) == if j == k then d[Mid(k) := Gap(lat, ins, outs, k)] else d
  {
    hide Levels, Worst, Class, Latest, Gap;
    ClassHolds(lat, ins, outs, i, k, j);
    WrapLatest(Class(lat, ins, outs, Levels(lat, ins, outs)[j]), d, i);
  }

  lemma ArriveFirst(u: Uop, us: seq<Uop>, d: map<Operand, nat>)
    ensures Arrive([u] + us, d) == Arrive(us, Step(u, d))
  {
    ArriveConcat([u], us, d);
    assert [u][..0] == [];
    assert Arrive([u], d) == Step(u, Arrive([], d));
  }

  /** The result of the class of an input arrives after the difference of its level and the lowest one. */
  lemma {:induction false} AfterClasses(lat: Latencies, ins: seq<nat>, outs: seq<nat>, i: nat, k: nat, n: nat,
                                        d: map<Operand, nat>)
    requires AtLevel(lat, ins, outs, i, k) && n < |Levels(lat, ins, outs)| && Only(d, i)
    ensures Arrive(ClassUops(lat, ins, outs, n), d) == if 1 <= k <= n then d[Mid(k) := Gap(lat, ins, outs, k)] else d
  {
    if n > 0 {
      hide Levels, Worst, Step, ClassUop, Gap, Only, Arrive;
      StepClass(lat, ins, outs, i, k, n, d);
      ArriveFirst(ClassUop(lat, ins, outs, n), ClassUops(lat, ins, outs, n - 1), d);
      AfterClasses(lat, ins, outs, i, k, n - 1, Step(ClassUop(lat, ins, outs, n), d));
    }
  }

  lemma {:induction false} InLeftover(lat: Latencies, ins: seq<nat>, outs: seq<nat>, i: nat, k: nat, n: nat)
    requires AtLevel(lat, ins, outs, i, k) && n <= |Levels(lat, ins, outs)|
    ensures In(i) in Leftover(lat, ins, outs, n) <==> n <= k
    ensures forall op :: op in Leftover(lat, ins, outs, n) ==> op.In?
    decreases |Levels(lat, ins, outs)| - n
  {
    hide Levels, Worst, Class;
    if n < |Levels(lat, ins, outs)| {
      InLeftover(lat, ins, outs, i, k, n + 1);
      ClassHolds(lat, ins, outs, i, k, n);
      WrapHolds(Class(lat, ins, outs, Levels(lat, ins, outs)[n]), i);
    }
  }

  lemma WrapHolds(ids: seq<nat>, i: nat)
    ensures In(i) in Wrap(ids) <==> i in ids
  {
    if i in ids {
      var k :| 0 <= k < |ids| && ids[k] == i;
      assert Wrap(ids)[k] == In(i);
    }
  }

  lemma MidsHold(c: nat, k: nat)
    ensures Mid(k) in Mids(c) <==> 1 <= k <= c
  {
    if 1 <= k <= c {
      assert Mids(c)[k - 1] == Mid(k);
    }
  }

  function DelayOf(lat: Latencies, ins: seq<nat>, outs: seq<nat>, n: nat, k: nat): nat
    requires n > 0 && k < |Levels(lat, ins, outs)|
  {
    if 1 <= k <= Covered(lat, ins, outs, n) then Gap(lat, ins, outs, k) else 0
  }

  /** The base uop waits for the result of a class that has a uop of its own, and for the inputs of the others. */
  lemma BaseInputs(lat: Latencies, ins: seq<nat>, outs: seq<nat>, i: nat, k: nat, n: nat)
    requires AtLevel(lat, ins, outs, i, k) && n > 0
    ensures var inputs, c := BaseUop(lat, ins, outs, n).inputs, Covered(lat, ins, outs, n);
            && c < |Levels(lat, ins, outs)|
            && (In(i) in inputs <==> !(1 <= k <= c)) && (Mid(k) in inputs <==> 1 <= k <= c)
  {
    hide Levels, Worst, Class, Leftover, Wrap, Mids;
    var c := Covered(lat, ins, outs, n);
    InLeftover(lat, ins, outs, i, k, c + 1);
    ClassHolds(lat, ins, outs, i, k, 0);
    WrapHolds(Lowest(lat, ins, outs), i);
    MidsHold(c, k);
    assert In(i) !in Mids(c) && Mid(k) !in Wrap(Lowest(lat, ins, outs));
  }

  lemma BaseWaits(lat: Latencies, ins: seq<nat>, outs: seq<nat>, i: nat, k: nat, n: nat)
    requires AtLevel(lat, ins, outs, i, k) && n > 0
    ensures var d := Arrive(ClassUops(lat, ins, outs, Covered(lat, ins, outs, n)), map[In(i) := 0]);
            Latest(BaseUop(lat, ins, outs, n).inputs, d) == (true, DelayOf(lat, ins, outs, n, k))
  {
    hide Levels, Worst, ClassUops, Latest, Arrive, BaseUop, Covered, Gap;
    var c := Covered(lat, ins, outs, n);
    var d0: map<Operand, nat> := map[In(i) := 0];
    BaseInputs(lat, ins, outs, i, k, n);
    AfterClasses(lat, ins, outs, i, k, c, d0);
    LatestAll(BaseUop(lat, ins, outs, n).inputs, Arrive(ClassUops(lat, ins, outs, c), d0), DelayOf(lat, ins, outs, n, k));
  }

  lemma {:induction false} ExtrasAddNothing(ins: seq<nat>, n: nat, d: map<Operand, nat>)
    ensures Arrive(Extras(ins, n), d) == d
  {
    if n > 0 {
      ExtrasAddNothing(ins, n - 1, d);
      assert Extras(ins, n)[..n - 1] == Extras(ins, n - 1);
    }
  }

  /** The length of the longest path from an input to each operand. */
  function PathsFrom(lat: Latencies, ins: seq<nat>, outs: seq<nat>, n: nat, i: nat): map<Operand, nat>
    requires n > 0
  {
    Arrive(SplitOf(lat, ins, outs, n), map[In(i) := 0])
  }

  lemma PathLengths(lat: Latencies, ins: seq<nat>, outs: seq<nat>, i: nat, k: nat, n: nat)
    requires AtLevel(lat, ins, outs, i, k) && n > 0
    ensures var p := PathsFrom(lat, ins, outs, n, i);
            forall o :: o in outs ==>
              && Out(o) in p
              && p[Out(o)] == DelayOf(lat, ins, outs, n, k) + Base(lat, Lowest(lat, ins, outs), o)
  {
    hide Levels, Worst, Lowest, Base, Latest, DelayOf, ClassUops, Extras;
    var c := Covered(lat, ins, outs, n);
    var classes, base, extras := ClassUops(lat, ins, outs, c), BaseUop(lat, ins, outs, n), Extras(ins, n - 1 - c);
    var d0: map<Operand, nat> := map[In(i) := 0];
    assert SplitOf(lat, ins, outs, n) == classes + ([base] + extras);
    ArriveConcat(classes, [base] + extras, d0);
    ArriveFirst(base, extras, Arrive(classes, d0));
    ExtrasAddNothing(ins, n - 1 - c, Step(base, Arrive(classes, d0)));
    BaseWaits(lat, ins, outs, i, k, n);
  }

  lemma {:induction false} BaseAtMost(lat: Latencies, low: seq<nat>, outs: seq<nat>, w: nat, o: nat)
    requires low != [] && o in outs && forall i :: i in low ==> Worst(lat, i, outs) == w
    ensures Latency(lat, low[|low| - 1], o) <= Base(lat, low, o) <= w
  {
    hide Worst, Latency;
    var front, last := low[..|low| - 1], low[|low| - 1];
    WorstIsLargest(lat, last, outs);
    if front != [] {
      BaseAtMost(lat, front, outs, w, o);
    }
  }

  lemma BaseIsLowest(lat: Latencies, low: seq<nat>, outs: seq<nat>, w: nat)
    requires low != [] && outs != [] && forall i :: i in low ==> Worst(lat, i, outs) == w
    ensures forall o :: o in outs ==> Base(lat, low, o) <= w
    ensures exists o :: o in outs && Base(lat, low, o) == w
  {
    hide Worst, Latency, Base;
    var last := low[|low| - 1];
    forall o | o in outs
      ensures Base(lat, low, o) <= w
    {
      BaseAtMost(lat, low, outs, w, o);
    }
    WorstIsLargest(lat, last, outs);
    var o :| o in outs && Latency(lat, last, o) == Worst(lat, last, outs);
    BaseAtMost(lat, low, outs, w, o);
  }

  /** The longest path from an input to any output is as long as the largest latency of the input. */
  ghost predicate KeepsWorst(lat: Latencies, ins: seq<nat>, outs: seq<nat>, n: nat, i: nat)
    requires n > 0
  {
    Longest(PathsFrom(lat, ins, outs, n, i), outs, Worst(lat, i, outs))
  }

  /** All outputs can be reached, and the longest path to one of them has length `w`. */
  ghost predicate Longest(p: map<Operand, nat>, outs: seq<nat>, w: nat) {
    && (forall o :: o in outs ==> Out(o) in p && p[Out(o)] <= w)
    && (exists o :: o in outs && Out(o) in p && p[Out(o)] == w)
  }

  lemma LongestIs(p: map<Operand, nat>, outs: seq<nat>, delay: nat, base: nat -> nat, l0: nat, w: nat)
    requires forall o :: o in outs ==> Out(o) in p && p[Out(o)] == delay + base(o) && base(o) <= l0
    requires exists o :: o in outs && base(o) == l0
    ensures Longest(p, outs, w) <==> delay + l0 == w
  {
    var o :| o in outs && base(o) == l0;
    assert Out(o) in p;
  }

  lemma Lowest0(lat: Latencies, ins: seq<nat>, outs: seq<nat>, i: nat, k: nat)
    requires AtLevel(lat, ins, outs, i, k) && outs != []
    ensures var l0 := Levels(lat, ins, outs)[0];
            && (forall o :: o in outs ==> Base(lat, Lowest(lat, ins, outs), o) <= l0)
            && (exists o :: o in outs && Base(lat, Lowest(lat, ins, outs), o) == l0)
  {
    hide Levels, Worst, Base;
    var l0 := Levels(lat, ins, outs)[0];
    var j := InputOf(lat, ins, outs, l0);
    BaseIsLowest(lat, Lowest(lat, ins, outs), outs, l0);
  }

  lemma DelayIsExact(lat: Latencies, ins: seq<nat>, outs: seq<nat>, n: nat, i: nat, k: nat)
    requires n > 0 && AtLevel(lat, ins, outs, i, k)
    ensures DelayOf(lat, ins, outs, n, k) + Levels(lat, ins, outs)[0] == Worst(lat, i, outs) <==>
            k <= Covered(lat, ins, outs, n)
  {
    var levels := Levels(lat, ins, outs);
    assert k > 0 ==> levels[0] < levels[k];
    hide Levels, Worst;
  }

  lemma KeptIfExact(lat: Latencies, ins: seq<nat>, outs: seq<nat>, n: nat, i: nat, k: nat)
    requires outs != [] && n > 0 && AtLevel(lat, ins, outs, i, k)
    ensures KeepsWorst(lat, ins, outs, n, i) <==>
            DelayOf(lat, ins, outs, n, k) + Levels(lat, ins, outs)[0] == Worst(lat, i, outs)
  {
    hide Levels, Worst, Base, Lowest, PathsFrom, Covered, DelayOf, Longest;
    PathLengths(lat, ins, outs, i, k, n);
    Lowest0(lat, ins, outs, i, k);
    LongestIs(PathsFrom(lat, ins, outs, n, i), outs, DelayOf(lat, ins, outs, n, k),
              o => Base(lat, Lowest(lat, ins, outs), o), Levels(lat, ins, outs)[0], Worst(lat, i, outs));
  }

  /** For one input: the worst latency is kept exactly if its class is the lowest or has a uop of its own. */
  lemma WorstKeptFor(lat: Latencies, ins: seq<nat>, outs: seq<nat>, n: nat, i: nat, k: nat)
    requires outs != [] && n > 0 && AtLevel(lat, ins, outs, i, k)
    ensures KeepsWorst(lat, ins, outs, n, i) <==> k <= Covered(lat, ins, outs, n)
  {
    hide Levels, Worst, KeepsWorst, DelayOf, Covered, AtLevel;
    KeptIfExact(lat, ins, outs, n, i, k);
    DelayIsExact(lat, ins, outs, n, i, k);
  }

  /** The worst latency of every input is kept exactly if there are at least as many uops as latency classes. */
  lemma WorstKept(lat: Latencies, ins: seq<nat>, outs: seq<nat>, n: nat)
    requires outs != [] && n > 0
    ensures (forall i :: i in ins ==> KeepsWorst(lat, ins, outs, n, i)) <==> |Levels(lat, ins, outs)| <= n
  {
    hide Levels, Worst, KeepsWorst;
    if |Levels(lat, ins, outs)| <= n {
      forall i | i in ins
        ensures KeepsWorst(lat, ins, outs, n, i)
      {
        var k := LevelOf(lat, ins, outs, i);
        WorstKeptFor(lat, ins, outs, n, i, k);
      }
    } else {
      NotKept(lat, ins, outs, n);
    }
  }

  lemma NotKept(lat: Latencies, ins: seq<nat>, outs: seq<nat>, n: nat)
    requires outs != [] && n > 0 && |Levels(lat, ins, outs)| > n
    ensures exists i :: i in ins && !KeepsWorst(lat, ins, outs, n, i)
  {
    hide Levels, Worst, KeepsWorst;
    var i := InputOf(lat, ins, outs, Levels(lat, ins, outs)[n]);
    WorstKeptFor(lat, ins, outs, n, i, n);
  }

  lemma BaseMids(lat: Latencies, ins: seq<nat>, outs: seq<nat>, n: nat, k: nat)
    requires n > 0 && Mid(k) in BaseUop(lat, ins, outs, n).inputs
    ensures 1 <= k <= Covered(lat, ins, outs, n) && Levels(lat, ins, outs) != []
  {
    hide Levels, Lowest;
    MidsHold(Covered(lat, ins, outs, n), k);
    if Levels(lat, ins, outs) != [] {
      LeftoverInputs(lat, ins, outs, Covered(lat, ins, outs, n) + 1);
    }
  }

  /** Intermediate results are produced by earlier uops than those that read them. */
  lemma ProducersFirst(lat: Latencies, ins: seq<nat>, outs: seq<nat>, n: nat, j: nat, k: nat)
    requires n > 0 && j < n && Mid(k) in SplitOf(lat, ins, outs, n)[j].inputs
    ensures exists m :: 0 <= m < j && Mid(k) in SplitOf(lat, ins, outs, n)[m].latencies
  {
    hide Levels, Class, BaseUop, ClassUops, Gap;
    var us, c := SplitOf(lat, ins, outs, n), Covered(lat, ins, outs, n);
    if j < c {
      ClassUopAt(lat, ins, outs, c, j);
    } else if j == c {
      BaseMids(lat, ins, outs, n, k);
      ClassUopAt(lat, ins, outs, c, c - k);
      assert us[c - k] == ClassUop(lat, ins, outs, k);
    }
  }

  lemma {:induction false} ClassUopAt(lat: Latencies, ins: seq<nat>, outs: seq<nat>, k: nat, j: nat)
    requires k == 0 || k < |Levels(lat, ins, outs)|
    requires j < k
    ensures ClassUops(lat, ins, outs, k)[j] == ClassUop(lat, ins, outs, k - j)
  {
    hide Levels;
    if j > 0 {
      ClassUopAt(lat, ins, outs, k - 1, j - 1);
    }
  }

  lemma {:induction false} LeftoverInputs(lat: Latencies, ins: seq<nat>, outs: seq<nat>, k: nat)
    requires k <= |Levels(lat, ins, outs)|
    ensures forall op :: op in Leftover(lat, ins, outs, k) ==> op.In?
    decreases |Levels(lat, ins, outs)| - k
  {
    hide Levels, Class;
    if k < |Levels(lat, ins, outs)| {
      LeftoverInputs(lat, ins, outs, k + 1);
    }
  }

  // The case of shifts and rotates by a register

  /** All latencies between two lists of operands. */
  ghost predicate Between(lat: Latencies, ins: seq<nat>, outs: seq<nat>, n: nat) {
    forall i, o :: i in ins && o in outs ==> (i, o) in lat && lat[(i, o)] == n
  }

  /** The pattern of latencies that three uops represent exactly. */
  ghost predicate ThreeUopPattern(lat: Latencies, regs: seq<nat>, flags: seq<nat>, outRegs: seq<nat>,
                                  outFlags: seq<nat>) {
    && Between(lat, regs, outRegs, 1) && Between(lat, regs, outFlags, 2)
    && Between(lat, flags, outRegs, 0) && Between(lat, flags, outFlags, 2)
  }

  function ThreeUops(regs: seq<nat>, flags: seq<nat>, outRegs: seq<nat>, outFlags: seq<nat>): seq<Uop> {
    [Uop(Wrap(regs), (map o | o in outRegs :: Out(o) := 1)[Mid(0) := 1]),
     Uop(Wrap(flags), map[Mid(1) := 1]),
     Uop([Mid(0), Mid(1)], map o | o in outFlags :: Out(o) := 1)]
  }

  lemma ArriveThree(a: Uop, b: Uop, c: Uop, d: map<Operand, nat>)
    ensures Arrive([a, b, c], d) == Step(c, Step(b, Step(a, d)))
  {
    hide Step;
    ArriveFirst(a, [b, c], d);
    ArriveFirst(b, [c], Step(a, d));
    ArriveFirst(c, [], Step(b, Step(a, d)));
    assert [a] + [b, c] == [a, b, c] && [b] + [c] == [b, c] && [c] + [] == [c];
  }

  /** For every pair of operands the longest path is as long as the latency; there is none where the latency is 0. */
  lemma ThreeUopsExact(lat: Latencies, regs: seq<nat>, flags: seq<nat>, outRegs: seq<nat>, outFlags: seq<nat>,
                       i: nat, o: nat)
    requires ThreeUopPattern(lat, regs, flags, outRegs, outFlags)
    requires (forall x :: x in regs ==> x !in flags) && (forall x :: x in outRegs ==> x !in outFlags)
    requires (i in regs || i in flags) && (o in outRegs || o in outFlags)
    ensures var p := Arrive(ThreeUops(regs, flags, outRegs, outFlags), map[In(i) := 0]);
            if Latency(lat, i, o) == 0 then Out(o) !in p else Out(o) in p && p[Out(o)] == Latency(lat, i, o)
  {
    var us := ThreeUops(regs, flags, outRegs, outFlags);
    var d0: map<Operand, nat> := map[In(i) := 0];
    ArriveThree(us[0], us[1], us[2], d0);
    if i in regs {
      FromRegister(us, regs, flags, outRegs, outFlags, i);
    } else {
      FromFlag(us, regs, flags, outRegs, outFlags, i);
    }
  }

  lemma LatestOfTwo(d: map<Operand, nat>)
    ensures Latest([Mid(0), Mid(1)], d) ==
            if Mid(1) in d then (true, if Mid(0) in d then MaxOf(d[Mid(1)], d[Mid(0)]) else d[Mid(1)])
            else if Mid(0) in d then (true, d[Mid(0)]) else (false, 0)
  {
    assert [Mid(0), Mid(1)][..1] == [Mid(0)];
    assert [Mid(0)][..0] == [];
    assert Latest([], d) == (false, 0);
    assert Latest([Mid(0)], d) == if Mid(0) in d then (true, d[Mid(0)]) else (false, 0);
  }

  lemma StepWrapped(ids: seq<nat>, latencies: map<Operand, nat>, d: map<Operand, nat>, i: nat)
    requires Only(d, i)
    ensures Step(Uop(Wrap(ids), latencies), d) == if i in ids then d + latencies else d
  {
    hide Latest;
    WrapLatest(ids, d, i);
    assert (map o | o in latencies :: 0 + latencies[o]) == latencies;
  }

  lemma FromRegister(us: seq<Uop>, regs: seq<nat>, flags: seq<nat>, outRegs: seq<nat>, outFlags: seq<nat>, i: nat)
    requires us == ThreeUops(regs, flags, outRegs, outFlags) && i in regs && i !in flags
    ensures var p := Step(us[2], Step(us[1], Step(us[0], map[In(i) := 0])));
            && (forall o :: o in outFlags ==> Out(o) in p && p[Out(o)] == 2)
            && (forall o :: o in outRegs && o !in outFlags ==> Out(o) in p && p[Out(o)] == 1)
  {
    hide Latest, Wrap, Step;
    var d0: map<Operand, nat> := map[In(i) := 0];
    StepWrapped(regs, us[0].latencies, d0, i);
    var d1 := d0 + us[0].latencies;
    StepWrapped(flags, us[1].latencies, d1, i);
    LastStep(us[2].latencies, d1, 1);
  }

  lemma LastStep(latencies: map<Operand, nat>, d: map<Operand, nat>, t: nat)
    requires Mid(0) in d || Mid(1) in d
    requires (Mid(0) in d ==> d[Mid(0)] == t) && (Mid(1) in d ==> d[Mid(1)] == t)
    ensures Step(Uop([Mid(0), Mid(1)], latencies), d) == d + map o | o in latencies :: t + latencies[o]
  {
    hide Latest;
    LatestOfTwo(d);
  }

  lemma FromFlag(us: seq<Uop>, regs: seq<nat>, flags: seq<nat>, outRegs: seq<nat>, outFlags: seq<nat>, i: nat)
    requires us == ThreeUops(regs, flags, outRegs, outFlags) && i in flags && i !in regs
    ensures var p := Step(us[2], Step(us[1], Step(us[0], map[In(i) := 0])));
            && (forall o :: o in outFlags ==> Out(o) in p && p[Out(o)] == 2)
            && (forall o :: o in outRegs && o !in outFlags ==> Out(o) !in p)
  {
    hide Latest, Wrap, Step;
    var d0: map<Operand, nat> := map[In(i) := 0];
    StepWrapped(regs, us[0].latencies, d0, i);
    StepWrapped(flags, us[1].latencies, d0, i);
    LastStep(us[2].latencies, d0 + us[1].latencies, 1);
  }

  // The imperative form

  /** The classes, as lists collected in a dictionary. */
  method Classify(lat: Latencies, ins: seq<nat>, outs: seq<nat>) returns (classes: map<nat, seq<nat>>)
    ensures forall l :: l in classes <==> l in Levels(lat, ins, outs)
    ensures forall l :: l in classes ==> classes[l] == Class(lat, ins, outs, l)
  {
    hide Levels, Class, Worst;
    classes := map[];
    NothingClassified(lat, ins, outs);
    for k := 0 to |ins|
      invariant forall l :: l in classes <==> l in Levels(lat, ins[..k], outs)
      invariant forall l :: l in classes ==> classes[l] == Class(lat, ins[..k], outs, l)
    {
      var level := Worst(lat, ins[k], outs);
      Classified(lat, ins, outs, k, classes);
      classes := classes[level := (if level in classes then classes[level] else []) + [ins[k]]];
    }
  }

  lemma NothingClassified(lat: Latencies, ins: seq<nat>, outs: seq<nat>)
    ensures Levels(lat, ins[..0], outs) == [] && ins[..|ins|] == ins
  {}

  lemma Classified(lat: Latencies, ins: seq<nat>, outs: seq<nat>, k: nat, classes: map<nat, seq<nat>>)
    requires k < |ins|
    requires forall l :: l in classes <==> l in Levels(lat, ins[..k], outs)
    requires forall l :: l in classes ==> classes[l] == Class(lat, ins[..k], outs, l)
    ensures var level := Worst(lat, ins[k], outs);
            && (forall l :: l == level || l in classes <==> l in Levels(lat, ins[..k + 1], outs))
            && (if level in classes then classes[level] else []) + [ins[k]] == Class(lat, ins[..k + 1], outs, level)
            && forall l :: l in classes && l != level ==> classes[l] == Class(lat, ins[..k + 1], outs, l)
  {
    hide Worst, Insert;
    var level := Worst(lat, ins[k], outs);
    assert ins[..k + 1][..k] == ins[..k];
    NoClass(lat, ins[..k], outs, level);
  }

  lemma {:induction false} NoClass(lat: Latencies, ins: seq<nat>, outs: seq<nat>, level: nat)
    ensures level !in Levels(lat, ins, outs) ==> Class(lat, ins, outs, level) == []
  {
    if level !in Levels(lat, ins, outs) && Class(lat, ins, outs, level) != [] {
      var i := Class(lat, ins, outs, level)[0];
      assert i in Class(lat, ins, outs, level);
      var k := LevelOf(lat, ins, outs, i);
    }
  }

  /** The remaining list of classes after `taken` of them above the lowest have got a uop. */
  function Above(levels: seq<nat>, taken: nat): seq<nat> {
    if taken < |levels| then levels[taken + 1..] else []
  }

  /** Gives a uop to one class after the other, as long as there are uops; further uops produce nothing. */
  method Distribute(lat: Latencies, ins: seq<nat>, outs: seq<nat>, n: nat, classes: map<nat, seq<nat>>,
                    levels: seq<nat>, lowest: seq<nat>)
    returns (before: seq<Uop>, baseInputs: seq<Operand>, after: seq<Uop>, remaining: seq<nat>)
    requires n > 0 && levels == Levels(lat, ins, outs)
    requires forall l :: l in levels ==> l in classes && classes[l] == Class(lat, ins, outs, l)
    ensures var c := Covered(lat, ins, outs, n);
            && before == ClassUops(lat, ins, outs, c) && baseInputs == Wrap(lowest) + Mids(c)
            && after == Extras(ins, n - 1 - c) && remaining == Above(levels, c)
  {
    hide Levels, Class, ClassUops, Mids, Wrap;
    before, baseInputs, after, remaining := [], Wrap(lowest), [], Above(levels, 0);
    var taken := 0;
    NoMids();
    NoClassUops(lat, ins, outs);
    for i := 1 to n
      invariant taken == if levels == [] then 0 else Min(i - 1, |levels| - 1)
      invariant remaining == Above(levels, taken) && (taken == 0 || taken < |levels|)
      invariant before == ClassUops(lat, ins, outs, taken) && baseInputs == Wrap(lowest) + Mids(taken)
      invariant taken < i && after == Extras(ins, i - 1 - taken)
    {
      if remaining != [] {
        taken := taken + 1;
        NextClass(lat, ins, outs, taken);
        MoreMids(taken - 1);
        assert remaining[0] == levels[taken] && levels[taken] in levels;
        baseInputs := baseInputs + [Mid(taken)];
        before := [Uop(Wrap(classes[remaining[0]]), map[Mid(taken) := remaining[0] - levels[0]])] + before;
        remaining := remaining[1..];
      } else {
        after := after + [Uop(Wrap(ins), map[])];
      }
    }
  }

  /** The uops of an instruction that do not access memory, `n` of them. */
  method SplitUops(lat: Latencies, ins: seq<nat>, outs: seq<nat>, n: nat) returns (us: seq<Uop>)
    requires n > 0
    ensures us == SplitOf(lat, ins, outs, n)
  {
    hide Levels, Class, Worst, Leftover, ClassUops, BaseLatencies, Mids, Wrap, SplitOf, Extras;
    var classes := Classify(lat, ins, outs);
    var levels := Levels(lat, ins, outs);
    var lowest := if levels == [] then [] else classes[levels[0]];
    var before, baseInputs, after, remaining := Distribute(lat, ins, outs, n, classes, levels, lowest);
    baseInputs := AddLeftover(lat, ins, outs, classes, baseInputs, Covered(lat, ins, outs, n) + 1, remaining);
    us := before + [Uop(baseInputs, BaseLatencies(lat, lowest, outs))] + after;
    SplitIs(lat, ins, outs, n, lowest, baseInputs);
  }

  lemma SplitIs(lat: Latencies, ins: seq<nat>, outs: seq<nat>, n: nat, lowest: seq<nat>, inputs: seq<Operand>)
    requires n > 0 && lowest == Lowest(lat, ins, outs)
    requires var levels, c := Levels(lat, ins, outs), Covered(lat, ins, outs, n);
             inputs == Wrap(lowest) + Mids(c) + if c + 1 <= |levels| then Leftover(lat, ins, outs, c + 1) else []
    ensures var c := Covered(lat, ins, outs, n);
            SplitOf(lat, ins, outs, n) ==
            ClassUops(lat, ins, outs, c) + [Uop(inputs, BaseLatencies(lat, lowest, outs))] +
            Extras(ins, n - 1 - c)
  {
    hide Levels, Leftover, Wrap, Mids, Lowest, ClassUops, Extras, BaseLatencies;
    assert BaseUop(lat, ins, outs, n).inputs == inputs;
  }

  lemma NoMids()
    ensures Mids(0) == []
  {}

  lemma NoClassUops(lat: Latencies, ins: seq<nat>, outs: seq<nat>)
    ensures ClassUops(lat, ins, outs, 0) == []
  {}

  lemma MoreMids(k: nat)
    ensures Mids(k + 1) == Mids(k) + [Mid(k + 1)]
  {}

  lemma NextClass(lat: Latencies, ins: seq<nat>, outs: seq<nat>, k: nat)
    requires 0 < k < |Levels(lat, ins, outs)|
    ensures var levels := Levels(lat, ins, outs);
            && levels[0] <= levels[k]
            && ClassUops(lat, ins, outs, k) ==
               [Uop(Wrap(Class(lat, ins, outs, levels[k])), map[Mid(k) := levels[k] - levels[0]])] +
               ClassUops(lat, ins, outs, k - 1)
  {}

  /** The inputs of classes without a uop of their own become inputs of the base uop. */
  method AddLeftover(lat: Latencies, ins: seq<nat>, outs: seq<nat>, classes: map<nat, seq<nat>>,
                     inputs: seq<Operand>, ghost k: nat, remaining: seq<nat>) returns (baseInputs: seq<Operand>)
    requires forall l :: l in Levels(lat, ins, outs) ==> l in classes && classes[l] == Class(lat, ins, outs, l)
    requires remaining == if k <= |Levels(lat, ins, outs)| then Levels(lat, ins, outs)[k..] else []
    ensures baseInputs ==
            inputs + if k <= |Levels(lat, ins, outs)| then Leftover(lat, ins, outs, k) else []
  {
    hide Levels, Class, Wrap;
    ghost var levels := Levels(lat, ins, outs);
    baseInputs := inputs;
    for j := 0 to |remaining|
      invariant k <= |levels| ==> baseInputs + Leftover(lat, ins, outs, k + j) == inputs + Leftover(lat, ins, outs, k)
      invariant remaining == [] ==> baseInputs == inputs
    {
      assert levels[k + j] == remaining[j] && levels[k + j] in levels;
      assert Leftover(lat, ins, outs, k + j) == Wrap(classes[remaining[j]]) + Leftover(lat, ins, outs, k + j + 1);
      assert baseInputs + (Wrap(classes[remaining[j]]) + Leftover(lat, ins, outs, k + j + 1)) ==
             baseInputs + Wrap(classes[remaining[j]]) + Leftover(lat, ins, outs, k + j + 1);
      baseInputs := baseInputs + Wrap(classes[remaining[j]]);
    }
  }
}

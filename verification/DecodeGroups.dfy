/** Decode groups: how the instructions of a repeated loop body fall into groups that are decoded in one cycle. */
module DecodeGroups {
  import opened Arithmetic

  datatype Instr = Instr(
    macroFusedWithPrev: bool,
    macroFusedWithNext: bool,
    macroFusible: bool,
    isBranch: bool,
    complexDecoder: bool,
    nAvailableSimpleDecoders: nat,
    uopsMS: nat)

  datatype Config = Config(nDecoders: nat, macroFusibleCanBeLast: bool, predecodeDecodeDelay: nat)

  /** The decoder that the last instruction went to and how many simple decoders are left in its group. */
  datatype State = State(curDec: nat, nAvail: nat)

  function Step(i: Instr, s: State, c: Config): State
    requires c.nDecoders > 0
  {
    var t :=
      if i.complexDecoder then State(0, i.nAvailableSimpleDecoders)
      else if s.nAvail == 0 || (s.curDec + 1 == c.nDecoders - 1 && i.macroFusible && !c.macroFusibleCanBeLast) then
        State(0, c.nDecoders - 1)
      else State(s.curDec + 1, s.nAvail - 1);
    if i.isBranch || i.macroFusedWithNext then t.(nAvail := 0) else t
  }

  /** The state before instruction `k` of the endlessly repeated body. */
  function StateAt(f: seq<Instr>, c: Config, k: nat): State
    requires f != [] && c.nDecoders > 0
  {
    if k == 0 then State(c.nDecoders - 1, 0) else Step(f[(k - 1) % |f|], StateAt(f, c, k - 1), c)
  }

  /** Instruction `k` of the repeated body opens a decode group. */
  predicate Starts(f: seq<Instr>, c: Config, k: nat)
    requires f != [] && c.nDecoders > 0
  {
    StateAt(f, c, k + 1).curDec == 0
  }

  /** The number of groups opened from instruction `a` up to instruction `b`. */
  function Groups(f: seq<Instr>, c: Config, a: nat, b: nat): nat
    requires f != [] && c.nDecoders > 0
  {
    if b <= a then 0 else Groups(f, c, a, b - 1) + if Starts(f, c, b - 1) then 1 else 0
  }

  lemma {:induction false} GroupsSplit(f: seq<Instr>, c: Config, a: nat, b: nat, d: nat)
    requires f != [] && c.nDecoders > 0 && a <= b <= d
    ensures Groups(f, c, a, d) == Groups(f, c, a, b) + Groups(f, c, b, d)
  {
    if b < d {
      GroupsSplit(f, c, a, b, d - 1);
    }
  }

  // A state is determined by the decoder that was used

  /** The simple decoders that the first instruction of a group leaves. */
  function Capacity(leader: Instr, c: Config): nat
    requires c.nDecoders > 0
  {
    if leader.complexDecoder then leader.nAvailableSimpleDecoders else c.nDecoders - 1
  }

  predicate Ends(i: Instr) {
    i.isBranch || i.macroFusedWithNext
  }

  /** The instruction that used decoder 0 in the group of instruction `k` lies `curDec` instructions back, and what is
      left of its capacity is left for the next instruction. */
  lemma {:induction false} LeaderDecides(f: seq<Instr>, c: Config, k: nat)
    requires f != [] && c.nDecoders > 0
    ensures var s := StateAt(f, c, k + 1);
            && s.curDec <= k
            && s.nAvail == if Ends(f[k % |f|]) then 0
                           else Capacity(f[(k - s.curDec) % |f|], c) - s.curDec
    ensures StateAt(f, c, k + 1).curDec <= Capacity(f[(k - StateAt(f, c, k + 1).curDec) % |f|], c)
    ensures StateAt(f, c, k + 1).curDec > 0 ==> StateAt(f, c, k).nAvail > 0
  {
    if k > 0 {
      LeaderDecides(f, c, k - 1);
    }
  }

  lemma ModAfterShift(k: nat, j: nat, d: nat, m: nat)
    requires m > 0 && d <= k && d <= j && k % m == j % m
    ensures (k - d) % m == (j - d) % m
  {
    SameRemainder(k, j, m);
    var q := k / m - j / m;
    assert (k - d) - (j - d) == q * m;
    RemainderFromDifference(k - d, j - d, q, m);
  }

  /** Two visits of the same instruction with the same decoder leave the same state. */
  lemma SameDecoderSameState(f: seq<Instr>, c: Config, k: nat, j: nat)
    requires f != [] && c.nDecoders > 0 && k % |f| == j % |f|
    requires StateAt(f, c, k + 1).curDec == StateAt(f, c, j + 1).curDec
    ensures StateAt(f, c, k + 1) == StateAt(f, c, j + 1)
  {
    LeaderDecides(f, c, k);
    LeaderDecides(f, c, j);
    ModAfterShift(k, j, StateAt(f, c, k + 1).curDec, |f|);
  }

  lemma ModAdd(k: nat, j: nat, i: nat, m: nat)
    requires m > 0 && k % m == j % m
    ensures (k + i) % m == (j + i) % m
  {
    SameRemainder(k, j, m);
    RemainderFromDifference(k + i, j + i, k / m - j / m, m);
  }

  /** From equal states on, the run repeats. */
  lemma {:induction false} RunRepeats(f: seq<Instr>, c: Config, k: nat, j: nat, i: nat)
    requires f != [] && c.nDecoders > 0 && k % |f| == j % |f|
    requires StateAt(f, c, k + 1).curDec == StateAt(f, c, j + 1).curDec
    ensures StateAt(f, c, k + 1 + i) == StateAt(f, c, j + 1 + i)
  {
    if i == 0 {
      SameDecoderSameState(f, c, k, j);
    } else {
      RunRepeats(f, c, k, j, i - 1);
      ModAdd(k, j, i, |f|);
    }
  }

  lemma {:induction false} GroupsRepeat(f: seq<Instr>, c: Config, k: nat, j: nat, a: nat, b: nat)
    requires f != [] && c.nDecoders > 0 && k % |f| == j % |f|
    requires StateAt(f, c, k + 1).curDec == StateAt(f, c, j + 1).curDec
    ensures Groups(f, c, k + a, k + b) == Groups(f, c, j + a, j + b)
    decreases b
  {
    if a < b {
      GroupsRepeat(f, c, k, j, a, b - 1);
      RunRepeats(f, c, k, j, b - 1);
    }
  }

  // Groups have a bounded size

  function Larger(a: nat, b: nat): nat {
    if a < b then b else a
  }

  /** The largest capacity of a group. */
  function Widest(f: seq<Instr>, c: Config): nat
    requires c.nDecoders > 0
  {
    if f == [] then c.nDecoders - 1
    else Larger(Capacity(f[|f| - 1], c), Widest(f[..|f| - 1], c))
  }

  lemma {:induction false} WidestBounds(f: seq<Instr>, c: Config, k: nat)
    requires c.nDecoders > 0 && k < |f|
    ensures Capacity(f[k], c) <= Widest(f, c)
  {
    if k < |f| - 1 {
      WidestBounds(f[..|f| - 1], c, k);
    }
  }

  lemma {:induction false} WidestAtLeast(f: seq<Instr>, c: Config)
    requires c.nDecoders > 0
    ensures c.nDecoders - 1 <= Widest(f, c)
  {
    if f != [] {
      WidestAtLeast(f[..|f| - 1], c);
    }
  }

  lemma DecoderBounded(f: seq<Instr>, c: Config, k: nat)
    requires f != [] && c.nDecoders > 0
    ensures StateAt(f, c, k).curDec <= Widest(f, c)
  {
    WidestAtLeast(f, c);
    if k > 0 {
      LeaderDecides(f, c, k - 1);
      WidestBounds(f, c, (k - 1 - StateAt(f, c, k).curDec) % |f|);
    }
  }

  /** The first instruction after `k` that opens a group. */
  function NextStart(f: seq<Instr>, c: Config, k: nat): (e: nat)
    requires f != [] && c.nDecoders > 0
    ensures k < e && Starts(f, c, e)
    ensures forall j :: k < j < e ==> !Starts(f, c, j)
    decreases Widest(f, c) - StateAt(f, c, k + 1).curDec
  {
    DecoderBounded(f, c, k + 1);
    DecoderBounded(f, c, k + 2);
    if Starts(f, c, k + 1) then k + 1
    else
      StepCounts(f, c, k + 1);
      NextStart(f, c, k + 1)
  }

  lemma StepCounts(f: seq<Instr>, c: Config, k: nat)
    requires f != [] && c.nDecoders > 0 && !Starts(f, c, k)
    ensures StateAt(f, c, k + 1).curDec == StateAt(f, c, k).curDec + 1
  {}

  /** A group has at most one instruction more than the widest capacity. */
  lemma {:induction false} GroupSize(f: seq<Instr>, c: Config, k: nat)
    requires f != [] && c.nDecoders > 0
    ensures NextStart(f, c, k) - k + StateAt(f, c, k + 1).curDec <= Widest(f, c) + 1
    decreases NextStart(f, c, k) - k
  {
    DecoderBounded(f, c, k + 1);
    if !Starts(f, c, k + 1) {
      StepCounts(f, c, k + 1);
      GroupSize(f, c, k + 1);
    }
  }

  lemma {:induction false} NoGroupBetween(f: seq<Instr>, c: Config, a: nat, b: nat)
    requires f != [] && c.nDecoders > 0 && a <= b && forall j :: a <= j < b ==> !Starts(f, c, j)
    ensures Groups(f, c, a, b) == 0
  {
    if a < b {
      NoGroupBetween(f, c, a, b - 1);
    }
  }

  /** One group lies between an opening instruction and the next one. */
  lemma OneGroup(f: seq<Instr>, c: Config, k: nat)
    requires f != [] && c.nDecoders > 0 && Starts(f, c, k)
    ensures Groups(f, c, k, NextStart(f, c, k)) == 1
  {
    var e := NextStart(f, c, k);
    NoGroupBetween(f, c, k + 1, e);
    GroupsSplit(f, c, k, k + 1, e);
  }

  /** From an opening instruction on, the groups hold the instructions passed. */
  lemma {:induction false} GroupsHold(f: seq<Instr>, c: Config, s: nat, b: nat)
    requires f != [] && c.nDecoders > 0 && Starts(f, c, s) && s < b
    ensures Groups(f, c, s, b) >= 1
    ensures b - s <= Product(Groups(f, c, s, b) - 1, Widest(f, c) + 1) + StateAt(f, c, b).curDec + 1
  {
    hide Product, Widest;
    if b > s + 1 {
      GroupsHold(f, c, s, b - 1);
      DecoderBounded(f, c, b - 1);
      if Starts(f, c, b - 1) {
        ProductNext(Groups(f, c, s, b - 1) - 1, Widest(f, c) + 1);
      } else {
        StepCounts(f, c, b - 1);
      }
    }
  }
}

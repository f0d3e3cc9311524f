/** The decoder bound of a repeated loop body (`compute_decoder_limit`, `computeDecLimit`). */
module DecodeLimit {
  import opened Wrappers
  import opened Arithmetic
  import opened DecodeGroups

  const MAX_ROUNDS: nat := 10000

  function Unfused(instrs: seq<Instr>): seq<Instr> {
    if instrs == [] then []
    else
      var last := instrs[|instrs| - 1];
      Unfused(instrs[..|instrs| - 1]) + if last.macroFusedWithPrev then [] else [last]
  }

  /** Two rounds in which the first instruction used the same decoder, and the groups opened from the one to the
      other. */
  datatype Period = Period(first: nat, last: nat, groups: nat)

  /** The index, in the repeated body, of the first instruction of a round. */
  function Round(r: nat, m: nat): nat {
    r * m
  }

  lemma RoundNext(r: nat, m: nat)
    ensures Round(r + 1, m) == Round(r, m) + m
  {}

  lemma {:induction false} RoundMonotone(a: nat, b: nat, m: nat)
    requires a <= b
    ensures Round(a, m) <= Round(b, m)
  {
    if a < b {
      RoundMonotone(a, b - 1, m);
      RoundNext(b - 1, m);
    }
  }

  lemma RoundIndex(r: nat, idx: nat, m: nat)
    requires idx < m
    ensures (Round(r, m) + idx) % m == idx
  {
    RemainderFromDifference(Round(r, m) + idx, idx, r, m);
    SmallRemainder(idx, m);
  }

  /** `p` is a period of the run: both its rounds see the first instruction at the same decoder. */
  ghost predicate IsPeriod(f: seq<Instr>, c: Config, p: Period) {
    && f != [] && c.nDecoders > 0 && p.first < p.last
    && StateAt(f, c, Round(p.first, |f|) + 1).curDec == StateAt(f, c, Round(p.last, |f|) + 1).curDec
    && p.groups == Groups(f, c, Round(p.first, |f|), Round(p.last, |f|))
  }

  function Rate(p: Period): real
    requires p.first < p.last
  {
    p.groups as real / (p.last - p.first) as real
  }

  /** The groups opened in the rounds from `a` to `b`, summed up round by round. */
  function SumRounds(complexPerRound: map<nat, nat>, a: nat, b: nat): nat {
    if b <= a then 0
    else SumRounds(complexPerRound, a, b - 1) + if b - 1 in complexPerRound then complexPerRound[b - 1] else 0
  }

  /** The counted rounds. */
  ghost predicate Counted(f: seq<Instr>, c: Config, complexPerRound: map<nat, nat>, rounds: nat)
    requires f != [] && c.nDecoders > 0
  {
    forall r :: 0 <= r < rounds ==>
      r in complexPerRound && complexPerRound[r] == Groups(f, c, Round(r, |f|), Round(r + 1, |f|))
  }

  lemma {:induction false} SumRoundsCounts(f: seq<Instr>, c: Config, complexPerRound: map<nat, nat>, a: nat, b: nat)
    requires f != [] && c.nDecoders > 0 && Counted(f, c, complexPerRound, b) && a <= b
    ensures SumRounds(complexPerRound, a, b) == Groups(f, c, Round(a, |f|), Round(b, |f|))
    decreases b
  {
    hide Round, Groups;
    NoGroups(f, c, Round(a, |f|));
    if a < b {
      SumRoundsCounts(f, c, complexPerRound, a, b - 1);
      RoundMonotone(a, b - 1, |f|);
      RoundNext(b - 1, |f|);
      GroupsSplit(f, c, Round(a, |f|), Round(b - 1, |f|), Round(b, |f|));
    }
  }

  /** Each decoder that the first instruction has used so far belongs to one earlier round. */
  ghost predicate FirstRounds(f: seq<Instr>, c: Config, firstOnDecoder: map<nat, nat>, rounds: nat)
    requires f != [] && c.nDecoders > 0
  {
    && (forall d :: d in firstOnDecoder ==>
          && firstOnDecoder[d] < rounds && d <= Widest(f, c)
          && StateAt(f, c, Round(firstOnDecoder[d], |f|) + 1).curDec == d)
    && |firstOnDecoder| == rounds
  }

  lemma {:induction false} SmallKeys(keys: set<nat>, limit: nat)
    requires forall d :: d in keys ==> d <= limit
    ensures |keys| <= limit + 1
  {
    var rest := keys - {limit};
    assert |keys| <= |rest| + 1 by {
      if limit in keys {
        assert keys == rest + {limit};
      } else {
        assert keys == rest;
      }
    }
    if limit == 0 {
      assert rest == {};
    } else {
      SmallKeys(rest, limit - 1);
    }
  }

  /** There are at most as many rounds without a repetition as there are decoders to use. */
  lemma RoundsBounded(f: seq<Instr>, c: Config, firstOnDecoder: map<nat, nat>, rounds: nat)
    requires f != [] && c.nDecoders > 0 && FirstRounds(f, c, firstOnDecoder, rounds)
    ensures rounds <= Widest(f, c) + 1
  {
    SmallKeys(firstOnDecoder.Keys, Widest(f, c));
    assert |firstOnDecoder| == |firstOnDecoder.Keys|;
  }

  /** One instruction of a round. */
  method Advance(f: seq<Instr>, c: Config, instr: Instr, curDec0: nat, nAvail0: nat)
    returns (curDec: nat, nAvail: nat)
    requires c.nDecoders > 0
    ensures State(curDec, nAvail) == Step(instr, State(curDec0, nAvail0), c)
  {
    curDec, nAvail := curDec0, nAvail0;
    if instr.complexDecoder {
      curDec := 0;
      nAvail := instr.nAvailableSimpleDecoders;
    } else if nAvail == 0 || (curDec + 1 == c.nDecoders - 1 && instr.macroFusible && !c.macroFusibleCanBeLast) {
      curDec := 0;
      nAvail := c.nDecoders - 1;
    } else {
      curDec := curDec + 1;
      nAvail := nAvail - 1;
    }
    if instr.isBranch || instr.macroFusedWithNext {
      nAvail := 0;
    }
  }

  lemma MapGrows(m: map<nat, nat>, k: nat, v: nat)
    requires k !in m
    ensures |m[k := v]| == |m| + 1
  {
    assert m[k := v].Keys == m.Keys + {k};
  }

  lemma FirstRecorded(f: seq<Instr>, c: Config, firstOnDecoder: map<nat, nat>, round: nat, curDec: nat)
    requires f != [] && c.nDecoders > 0 && FirstRounds(f, c, firstOnDecoder, round) && curDec !in firstOnDecoder
    requires StateAt(f, c, Round(round, |f|) + 1).curDec == curDec
    ensures FirstRounds(f, c, firstOnDecoder[curDec := round], round + 1)
  {
    hide Round, StateAt, Widest;
    DecoderBounded(f, c, Round(round, |f|) + 1);
    MapGrows(firstOnDecoder, curDec, round);
  }

  lemma PeriodFound(f: seq<Instr>, c: Config, complexPerRound: map<nat, nat>, firstOnDecoder: map<nat, nat>,
                    round: nat, curDec: nat)
    requires f != [] && c.nDecoders > 0 && Counted(f, c, complexPerRound, round)
    requires FirstRounds(f, c, firstOnDecoder, round) && curDec in firstOnDecoder
    requires StateAt(f, c, Round(round, |f|) + 1).curDec == curDec
    ensures firstOnDecoder[curDec] < round
    ensures IsPeriod(f, c, Period(firstOnDecoder[curDec], round, SumRounds(complexPerRound, firstOnDecoder[curDec], round)))
  {
    SumRoundsCounts(f, c, complexPerRound, firstOnDecoder[curDec], round);
  }

  /** The rate at which groups are opened per round, over the first two rounds that put the first instruction on the
      same decoder. There is none for an empty body or without decoders. */
  method ComputeDecoderLimit(allInstrs: seq<Instr>, c: Config) returns (result: Option<real>, ghost p: Period)
    ensures result.Some? ==> IsPeriod(Unfused(allInstrs), c, p) && result.value == Rate(p)
    ensures Unfused(allInstrs) == [] || c.nDecoders == 0 ==> result == None
    ensures Unfused(allInstrs) != [] && c.nDecoders > 0 && Widest(Unfused(allInstrs), c) + 1 < MAX_ROUNDS ==>
              result.Some?
  {
    hide Round, Counted, FirstRounds, IsPeriod, StateAt, Widest, Groups, Step;
    var instrs := Unfused(allInstrs);
    p := Period(0, 0, 0);
    if instrs == [] || c.nDecoders == 0 {
      return None, p;
    }
    var firstInstrOnDecoder: map<nat, nat> := map[];
    var nAvailSimpleDec: nat, curDec: nat := 0, c.nDecoders - 1;
    var complexPerRound: map<nat, nat> := map[];
    InitialFacts(instrs, c);
    for round := 0 to MAX_ROUNDS
      invariant State(curDec, nAvailSimpleDec) == StateAt(instrs, c, Round(round, |instrs|))
      invariant Counted(instrs, c, complexPerRound, round) && FirstRounds(instrs, c, firstInstrOnDecoder, round)
    {
      complexPerRound := KeepCounted(instrs, c, complexPerRound, round);
      for idx := 0 to |instrs|
        invariant State(curDec, nAvailSimpleDec) == StateAt(instrs, c, Round(round, |instrs|) + idx)
        invariant Counted(instrs, c, complexPerRound, round)
        invariant round in complexPerRound
        invariant complexPerRound[round] ==
                  Groups(instrs, c, Round(round, |instrs|), Round(round, |instrs|) + idx)
        invariant FirstRounds(instrs, c, firstInstrOnDecoder, if idx == 0 then round else round + 1)
      {
        curDec, nAvailSimpleDec := Advance(instrs, c, instrs[idx], curDec, nAvailSimpleDec);
        NextIndex(instrs, c, round, idx);
        if curDec == 0 {
          complexPerRound := AddOne(instrs, c, complexPerRound, round);
        }
        if idx == 0 {
          if curDec in firstInstrOnDecoder {
            var firstRound := firstInstrOnDecoder[curDec];
            PeriodFound(instrs, c, complexPerRound, firstInstrOnDecoder, round, curDec);
            var total := SumRounds(complexPerRound, firstRound, round);
            p := Period(firstRound, round, total);
            return Some(total as real / (round - firstRound) as real), p;
          }
          FirstRecorded(instrs, c, firstInstrOnDecoder, round, curDec);
          firstInstrOnDecoder := firstInstrOnDecoder[curDec := round];
        }
      }
      RoundDone(instrs, c, complexPerRound, round);
    }
    RoundsBounded(instrs, c, firstInstrOnDecoder, MAX_ROUNDS);
    result := None;
  }

  method KeepCounted(f: seq<Instr>, c: Config, complexPerRound0: map<nat, nat>, round: nat)
    returns (complexPerRound: map<nat, nat>)
    requires f != [] && c.nDecoders > 0 && Counted(f, c, complexPerRound0, round)
    ensures Counted(f, c, complexPerRound, round) && round in complexPerRound
    ensures complexPerRound[round] == Groups(f, c, Round(round, |f|), Round(round, |f|))
  {
    complexPerRound := complexPerRound0[round := 0];
  }

  method AddOne(f: seq<Instr>, c: Config, complexPerRound0: map<nat, nat>, round: nat)
    returns (complexPerRound: map<nat, nat>)
    requires f != [] && c.nDecoders > 0 && Counted(f, c, complexPerRound0, round) && round in complexPerRound0
    ensures Counted(f, c, complexPerRound, round) && round in complexPerRound
    ensures complexPerRound[round] == complexPerRound0[round] + 1
  {
    complexPerRound := complexPerRound0[round := complexPerRound0[round] + 1];
  }

  lemma InitialFacts(f: seq<Instr>, c: Config)
    requires f != [] && c.nDecoders > 0
    ensures StateAt(f, c, Round(0, |f|)) == State(c.nDecoders - 1, 0)
    ensures Counted(f, c, map[], 0) && FirstRounds(f, c, map[], 0)
  {}

  lemma NextIndex(f: seq<Instr>, c: Config, round: nat, idx: nat)
    requires f != [] && c.nDecoders > 0 && idx < |f|
    ensures var k := Round(round, |f|) + idx;
            && StateAt(f, c, k + 1) == Step(f[idx], StateAt(f, c, k), c)
            && Groups(f, c, Round(round, |f|), k + 1) ==
               Groups(f, c, Round(round, |f|), k) + if StateAt(f, c, k + 1).curDec == 0 then 1 else 0
  {
    RoundIndex(round, idx, |f|);
  }

  lemma RoundDone(f: seq<Instr>, c: Config, complexPerRound: map<nat, nat>, round: nat)
    requires f != [] && c.nDecoders > 0 && Counted(f, c, complexPerRound, round) && round in complexPerRound
    requires complexPerRound[round] == Groups(f, c, Round(round, |f|), Round(round, |f|) + |f|)
    ensures Counted(f, c, complexPerRound, round + 1) && Round(round + 1, |f|) == Round(round, |f|) + |f|
  {
    RoundNext(round, |f|);
  }

  // What the rate says about the endless run

  /** Every later stretch of as many rounds as the period has opens exactly as many groups. */
  lemma {:induction false} RateIsExact(f: seq<Instr>, c: Config, p: Period, times: nat)
    requires IsPeriod(f, c, p)
    ensures var len := p.last - p.first;
            Groups(f, c, Round(p.first + times * len, |f|), Round(p.first + (times + 1) * len, |f|)) == p.groups
    ensures StateAt(f, c, Round(p.first + times * (p.last - p.first), |f|) + 1).curDec ==
            StateAt(f, c, Round(p.first, |f|) + 1).curDec
  {
    hide StateAt, Groups;
    var len, m := p.last - p.first, |f|;
    if times == 0 {
      assert p.first + (times + 1) * len == p.last;
    } else {
      RateIsExact(f, c, p, times - 1);
      var a, b := p.first + (times - 1) * len, p.first + times * len;
      RoundNext(times - 1, len);
      RoundNext(times, len);
      assert b == a + len && p.first + (times + 1) * len == b + len;
      hide Round;
      ShiftedStretch(f, c, p, a);
      ShiftedStretch(f, c, p, b);
    }
  }

  /** From a round that puts the first instruction on the period's decoder on, the period's rounds repeat. */
  lemma ShiftedStretch(f: seq<Instr>, c: Config, p: Period, a: nat)
    requires IsPeriod(f, c, p)
    requires StateAt(f, c, Round(a, |f|) + 1).curDec == StateAt(f, c, Round(p.first, |f|) + 1).curDec
    ensures Groups(f, c, Round(a, |f|), Round(a + (p.last - p.first), |f|)) == p.groups
    ensures StateAt(f, c, Round(a + (p.last - p.first), |f|) + 1).curDec ==
            StateAt(f, c, Round(p.first, |f|) + 1).curDec
  {
    hide Round, StateAt, Groups, Starts;
    var len, m := p.last - p.first, |f|;
    RoundAligned(a, m);
    RoundAligned(p.first, m);
    RoundPlus(a, len, m);
    RoundPlus(p.first, len, m);
    GroupsRepeat(f, c, Round(p.first, m), Round(a, m), 0, Round(len, m));
    RunRepeats(f, c, Round(p.first, m), Round(a, m), Round(len, m));
  }

  lemma RoundPlus(a: nat, b: nat, m: nat)
    ensures Round(a + b, m) == Round(a, m) + Round(b, m)
  {}

  lemma RoundAligned(r: nat, m: nat)
    requires m > 0
    ensures Round(r, m) % m == 0
  {
    RoundIndex(r, 0, m);
  }

  /** A period's length after the start of a group, a group starts. */
  lemma PeriodStarts(f: seq<Instr>, c: Config, p: Period, k: nat)
    requires IsPeriod(f, c, p) && k >= Round(p.first, |f|)
    ensures Starts(f, c, k + Round(p.last - p.first, |f|)) <==> Starts(f, c, k)
  {
    hide Round, StateAt, Groups;
    PeriodFrom(f, c, p, k);
  }

  lemma {:induction false} ManyPeriods(f: seq<Instr>, c: Config, p: Period, k: nat, times: nat)
    requires IsPeriod(f, c, p) && k >= Round(p.first, |f|)
    ensures Groups(f, c, k, k + Round(times, Round(p.last - p.first, |f|))) == Round(times, p.groups)
    decreases times
  {
    hide StateAt, Groups, Starts;
    var len := Round(p.last - p.first, |f|);
    if times == 0 {
      NoGroups(f, c, k);
    } else {
      RoundNext(times - 1, len);
      RoundNext(times - 1, p.groups);
      hide Round;
      ManyPeriods(f, c, p, k, times - 1);
      PeriodFrom(f, c, p, k + Round(times - 1, len));
      GroupsSplit(f, c, k, k + Round(times - 1, len), k + Round(times, len));
    }
  }

  lemma NoGroups(f: seq<Instr>, c: Config, k: nat)
    requires f != [] && c.nDecoders > 0
    ensures Groups(f, c, k, k) == 0
  {}

  /** All periods of a run have the same rate. */
  lemma RateUnique(f: seq<Instr>, c: Config, p: Period, q: Period)
    requires IsPeriod(f, c, p) && IsPeriod(f, c, q)
    ensures Rate(p) == Rate(q)
  {
    hide StateAt, Groups, Round;
    var k := if Round(p.first, |f|) < Round(q.first, |f|) then Round(q.first, |f|) else Round(p.first, |f|);
    var a, b := p.last - p.first, q.last - q.first;
    ManyPeriods(f, c, p, k, b);
    ManyPeriods(f, c, q, k, a);
    RoundsCommute(a, b, |f|);
    SameQuotient(p.groups, q.groups, a, b);
  }

  lemma RoundsCommute(a: nat, b: nat, m: nat)
    ensures Round(b, Round(a, m)) == Round(a, Round(b, m))
  {
    assert b * (a * m) == a * (b * m);
  }

  lemma SameQuotient(x: nat, y: nat, a: nat, b: nat)
    requires a > 0 && b > 0 && Round(b, x) == Round(a, y)
    ensures x as real / a as real == y as real / b as real
  {
    var q := y as real / b as real;
    assert q * b as real == y as real;
    assert (b * x) as real == b as real * x as real && (a * y) as real == a as real * y as real;
    ProductCancels(q, x as real, a as real, b as real);
  }

  lemma ProductCancels(q: real, x: real, a: real, b: real)
    requires a > 0.0 && b > 0.0 && b * x == a * (q * b)
    ensures x / a == q
  {
    assert b * (x - a * q) == 0.0;
    assert x == q * a;
  }

  // The simple bounds

  /** Over a period the groups hold all the instructions passed. */
  lemma PeriodHolds(f: seq<Instr>, c: Config, p: Period)
    requires IsPeriod(f, c, p)
    ensures Round(p.last - p.first, |f|) <= Round(p.groups, Widest(f, c) + 1)
  {
    hide Round, StateAt, Groups, Widest, NextStart;
    var m, len := |f|, p.last - p.first;
    var k, n := Round(p.first, m), Round(len, m);
    var s := NextStart(f, c, k);
    PeriodFrom(f, c, p, s);
    RoundPositive(len, m);
    StretchHolds(f, c, s, n, p.groups);
  }

  lemma StretchHolds(f: seq<Instr>, c: Config, s: nat, n: nat, groups: nat)
    requires f != [] && c.nDecoders > 0 && Starts(f, c, s) && n > 0 && Groups(f, c, s, s + n) == groups
    ensures n <= Round(groups, Widest(f, c) + 1)
  {
    hide StateAt, Groups, Widest, Product;
    GroupsHold(f, c, s, s + n);
    DecoderBounded(f, c, s + n);
    HoldsArithmetic(n, Widest(f, c) + 1, groups, StateAt(f, c, s + n).curDec);
  }

  lemma HoldsArithmetic(n: nat, w: nat, g: nat, d: nat)
    requires g >= 1 && n <= Product(g - 1, w) + d + 1 && d + 1 <= w
    ensures n <= Round(g, w)
  {
    ProductNext(g - 1, w);
  }

  lemma RoundPositive(r: nat, m: nat)
    requires r > 0 && m > 0
    ensures Round(r, m) > 0
  {
    RoundMonotone(1, r, m);
  }

  /** Counted from any later instruction on, a period has the same groups. */
  lemma PeriodFrom(f: seq<Instr>, c: Config, p: Period, s: nat)
    requires IsPeriod(f, c, p) && s >= Round(p.first, |f|)
    ensures Groups(f, c, s, s + Round(p.last - p.first, |f|)) == p.groups
    ensures StateAt(f, c, s + 1 + Round(p.last - p.first, |f|)) == StateAt(f, c, s + 1)
  {
    hide Round, StateAt, Groups, NextStart, Widest, Starts;
    var m, len := |f|, p.last - p.first;
    var k, n := Round(p.first, m), Round(len, m);
    RoundPlus(p.first, len, m);
    RoundAligned(p.first, m);
    RoundAligned(p.last, m);
    if s <= k + n {
      GroupsSplit(f, c, k, s, k + n);
      GroupsSplit(f, c, s, k + n, s + n);
    } else {
      GroupsSplit(f, c, k, k + n, s);
      GroupsSplit(f, c, k, s, s + n);
      GroupsSplit(f, c, k, k + n, s + n);
    }
    GroupsRepeat(f, c, k, k + n, 0, s - k);
    RunRepeats(f, c, k, k + n, s - k);
  }

  function ComplexCount(f: seq<Instr>): nat {
    if f == [] then 0 else ComplexCount(f[..|f| - 1]) + if f[|f| - 1].complexDecoder then 1 else 0
  }

  /** Every instruction that needs the complex decoder opens a group. */
  lemma {:induction false} RoundOpensComplex(f: seq<Instr>, c: Config, r: nat, n: nat)
    requires f != [] && c.nDecoders > 0 && n <= |f|
    ensures Groups(f, c, Round(r, |f|), Round(r, |f|) + n) >= ComplexCount(f[..n])
  {
    if n > 0 {
      RoundOpensComplex(f, c, r, n - 1);
      RoundIndex(r, n - 1, |f|);
      assert f[..n][..n - 1] == f[..n - 1];
    }
  }

  lemma {:induction false} RoundsOpenComplex(f: seq<Instr>, c: Config, a: nat, b: nat)
    requires f != [] && c.nDecoders > 0 && a <= b
    ensures Groups(f, c, Round(a, |f|), Round(b, |f|)) >= (b - a) * ComplexCount(f)
    decreases b
  {
    hide Round, Groups, ComplexCount;
    NoGroups(f, c, Round(a, |f|));
    if a < b {
      RoundsOpenComplex(f, c, a, b - 1);
      RoundMonotone(a, b - 1, |f|);
      RoundNext(b - 1, |f|);
      GroupsSplit(f, c, Round(a, |f|), Round(b - 1, |f|), Round(b, |f|));
      RoundOpensComplex(f, c, b - 1, |f|);
      assert f[..|f|] == f;
      RoundNext(b - 1 - a, ComplexCount(f));
      RoundIs(b - a, ComplexCount(f));
      RoundIs(b - 1 - a, ComplexCount(f));
    } else {
      RoundIs(0, ComplexCount(f));
    }
  }

  lemma RoundIs(r: nat, m: nat)
    ensures Round(r, m) == r * m && Round(0, m) == 0
  {}

  lemma QuotientAtLeast(a: int, b: int, x: int, y: int)
    requires b > 0 && y > 0 && a * y >= x * b
    ensures a as real / b as real >= x as real / y as real
  {
    var ra, rb, rx, ry := a as real, b as real, x as real, y as real;
    assert (a * y) as real == ra * ry && (x * b) as real == rx * rb;
    CrossMultiply(ra, rb, rx, ry);
  }

  lemma QuarterAtLeast(groups: nat, len: nat, m: nat)
    requires len > 0 && Round(len, m) <= Round(groups, 4)
    ensures groups as real / len as real >= m as real / 4.0
  {
    QuotientAtLeast(groups, len, m, 4);
  }

  lemma WholeAtLeast(groups: nat, len: nat, n: nat)
    requires len > 0 && groups >= len * n
    ensures groups as real / len as real >= n as real
  {
    QuotientAtLeast(groups, len, n, 1);
  }

  lemma CrossMultiply(a: real, b: real, x: real, y: real)
    requires b > 0.0 && y > 0.0 && a * y >= x * b
    ensures a / b >= x / y
  {
    var q := x / y;
    assert x == q * y;
    assert (q * b) * y == x * b;
    if a < q * b {
      ScaledLess(a, q * b, y);
    }
    assert a / b >= (q * b) / b;
  }

  lemma ScaledLess(q: real, x: real, b: real)
    requires q < x && b > 0.0
    ensures q * b < x * b
  {}

  /** With four decoders, of which a complex instruction leaves at most three, the bound is at least the simple one:
      a quarter of the instructions, and one group for each complex instruction. */
  lemma AtLeastSimpleLimit(f: seq<Instr>, c: Config, p: Period)
    requires IsPeriod(f, c, p) && c.nDecoders == 4
    requires forall k :: 0 <= k < |f| && f[k].complexDecoder ==> f[k].nAvailableSimpleDecoders <= 3
    ensures Rate(p) >= |f| as real / 4.0
    ensures Rate(p) >= ComplexCount(f) as real
  {
    hide ComplexCount, Round, Widest, Groups, StateAt;
    PeriodHolds(f, c, p);
    WidestOfFour(f, c);
    QuarterAtLeast(p.groups, p.last - p.first, |f|);
    RoundsOpenComplex(f, c, p.first, p.last);
    WholeAtLeast(p.groups, p.last - p.first, ComplexCount(f));
  }

  lemma {:induction false} WidestOfFour(f: seq<Instr>, c: Config)
    requires c.nDecoders == 4
    requires forall k :: 0 <= k < |f| && f[k].complexDecoder ==> f[k].nAvailableSimpleDecoders <= 3
    ensures Widest(f, c) == 3
  {
    if f != [] {
      WidestOfFour(f[..|f| - 1], c);
    }
  }
}

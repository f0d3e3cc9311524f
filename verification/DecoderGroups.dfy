/** On a saturated queue the decoders form exactly the groups that the decoder bound counts. */
module DecoderGroups {
  import opened Wrappers
  import opened Arithmetic
  import opened DecodeGroups
  import opened Decoder
  import DecodeLimit

  /** What the decoders make of an instruction: it cannot leave more simple decoders than there are, and microcode ends
      the group. */
  function Clamp(i: Instr, c: Config): Instr
    requires c.nDecoders > 0
  {
    i.(nAvailableSimpleDecoders := Min(i.nAvailableSimpleDecoders, c.nDecoders - 1),
       macroFusedWithNext := i.macroFusedWithNext || i.uopsMS > 0)
  }

  function ClampAll(f: seq<Instr>, c: Config): (r: seq<Instr>)
    requires c.nDecoders > 0
    ensures |r| == |f| && forall k :: 0 <= k < |f| ==> r[k] == Clamp(f[k], c)
  {
    seq(|f|, k requires 0 <= k < |f| => Clamp(f[k], c))
  }

  /** An instruction that the decoders treat as the bound does: it ends the group anyway, or it leaves fewer simple
      decoders than there are decoders and, if it needs microcode, leaves none. */
  predicate Tame(i: Instr, c: Config) {
    Ends(i) || ((i.complexDecoder ==> i.nAvailableSimpleDecoders < c.nDecoders) &&
                (i.uopsMS > 0 ==> i.complexDecoder && i.nAvailableSimpleDecoders == 0))
  }

  /** For a body of tame instructions clamping changes no state. */
  lemma {:induction false} ClampingTame(f: seq<Instr>, c: Config, k: nat)
    requires f != [] && c.nDecoders > 0 && forall i :: i in f ==> Tame(i, c)
    ensures StateAt(ClampAll(f, c), c, k) == StateAt(f, c, k)
  {
    if k > 0 {
      ClampingTame(f, c, k - 1);
      assert f[(k - 1) % |f|] in f;
    }
  }

  lemma {:induction false} TameGroups(f: seq<Instr>, c: Config, a: nat, b: nat)
    requires f != [] && c.nDecoders > 0 && forall i :: i in f ==> Tame(i, c)
    ensures Groups(ClampAll(f, c), c, a, b) == Groups(f, c, a, b)
  {
    if a < b {
      TameGroups(f, c, a, b - 1);
      ClampingTame(f, c, b);
    }
  }

  /** The decodable instances of the queue are the repeated body from instruction `k` on. */
  ghost predicate Streams(u: seq<InstrInstance>, f: seq<Instr>, k: nat)
    requires f != []
  {
    forall j :: 0 <= j < |u| ==> u[j].instr == f[(k + j) % |f|]
  }

  ghost predicate AllReady(queue: seq<InstrInstance>, clock: nat, c: Config) {
    forall i :: i in queue ==> Ready(i, clock, c)
  }

  lemma DecodedHead(queue: seq<InstrInstance>, t: nat)
    requires queue != [] && t <= |queue| - 1
    ensures |Decoded(queue[..t + 1])| ==
            (if queue[0].instr.macroFusedWithPrev then 0 else 1) + |Decoded(queue[1..][..t])|
    ensures queue[0].instr.macroFusedWithPrev ==> Decoded(queue) == Decoded(queue[1..])
    ensures !queue[0].instr.macroFusedWithPrev ==> Decoded(queue) == [queue[0]] + Decoded(queue[1..])
  {
    assert queue[..t + 1][1..] == queue[1..][..t];
  }

  lemma StreamsTail(u: seq<InstrInstance>, f: seq<Instr>, k: nat)
    requires f != [] && u != [] && Streams(u, f, k)
    ensures Streams(u[1..], f, k + 1) && u[0].instr == f[k % |f|]
  {
    forall j | 0 <= j < |u[1..]|
      ensures u[1..][j].instr == f[(k + 1 + j) % |f|]
    {
      assert u[1..][j] == u[j + 1];
    }
    assert u[0].instr == f[(k + 0) % |f|];
  }

  /** Some instances of the queue are decodable. */
  lemma {:induction false} DecodedShorter(queue: seq<InstrInstance>)
    ensures |Decoded(queue)| <= |queue|
  {
    if queue != [] {
      DecodedShorter(queue[1..]);
    }
  }

  /** The rest of a group, from its instruction number `j` on. */
  lemma {:induction false} RestOfGroup(queue: seq<InstrInstance>, clock: nat, c: Config, f: seq<Instr>, k: nat, j: nat,
                                       remaining: nat)
    requires f != [] && c.nDecoders > 1 && AllReady(queue, clock, c) && Streams(Decoded(queue), f, k)
    requires k > 0 && j > 0 && remaining > 0
    requires StateAt(ClampAll(f, c), c, k) == State(j - 1, remaining)
    requires NextStart(ClampAll(f, c), c, k - 1) - k < |Decoded(queue)|
    ensures |Decoded(queue[..Taken(queue, clock, c, j, remaining)])| == NextStart(ClampAll(f, c), c, k - 1) - k
    decreases |queue|
  {
    hide StateAt, NextStart, Starts, Ready, Streams, Widest;
    var g, t := ClampAll(f, c), Taken(queue, clock, c, j, remaining);
    var i, rest := queue[0].instr, queue[1..];
    DecodedHead(queue, if t > 0 then t - 1 else 0);
    if i.macroFusedWithPrev {
      RestOfGroup(rest, clock, c, f, k, j, remaining);
    } else {
      StreamsTail(Decoded(queue), f, k);
      DecodedShorter(queue);
      if Starts(g, c, k) {
        StartsHere(g, c, k);
        HeadOfRest(queue, clock, c, f, k, j, remaining);
        assert queue[..0] == [];
      } else {
        StartsLater(g, c, k);
        HeadOfRest(queue, clock, c, f, k, j, remaining);
        RestJoins(queue, clock, c, f, k, j, remaining);
        if i.uopsMS > 0 || SlotsAfter(i, remaining) == 0 || i.isBranch || i.macroFusedWithNext {
          assert rest[..0] == [];
        } else {
          assert Decoded(queue)[1..] == Decoded(rest);
          RestOfGroup(rest, clock, c, f, k + 1, j + 1, remaining - 1);
        }
      }
    }
  }

  /** The next group starts after an instruction that uses the decoders up. */
  lemma RestJoins(queue: seq<InstrInstance>, clock: nat, c: Config, f: seq<Instr>, k: nat, j: nat, remaining: nat)
    requires f != [] && c.nDecoders > 1 && queue != [] && k > 0 && j > 0 && remaining > 0
    requires !Starts(ClampAll(f, c), c, k)
    requires var i := queue[0].instr;
             StateAt(ClampAll(f, c), c, k + 1) ==
             State(j, if i.uopsMS > 0 || i.isBranch || i.macroFusedWithNext then 0 else remaining - 1)
    requires SlotsAfter(queue[0].instr, remaining) == remaining - 1
    ensures var i := queue[0].instr;
            i.uopsMS > 0 || SlotsAfter(i, remaining) == 0 || i.isBranch || i.macroFusedWithNext ==>
              NextStart(ClampAll(f, c), c, k - 1) == k + 1
  {
    hide StateAt, NextStart, Starts;
    var g := ClampAll(f, c);
    StartsLater(g, c, k);
    if StateAt(g, c, k + 1).nAvail == 0 {
      ExhaustedStarts(g, c, k + 1);
      StartsHere(g, c, k + 1);
    }
  }

  lemma StartsHere(g: seq<Instr>, c: Config, k: nat)
    requires g != [] && c.nDecoders > 0 && k > 0 && Starts(g, c, k)
    ensures NextStart(g, c, k - 1) == k
  {}

  lemma StartsLater(g: seq<Instr>, c: Config, k: nat)
    requires g != [] && c.nDecoders > 0 && k > 0 && !Starts(g, c, k)
    ensures NextStart(g, c, k - 1) == NextStart(g, c, k) > k
  {}

  lemma ExhaustedStarts(g: seq<Instr>, c: Config, k: nat)
    requires g != [] && c.nDecoders > 0 && StateAt(g, c, k).nAvail == 0
    ensures Starts(g, c, k)
  {}

  /** Whether an instruction inside a group can be decoded is whether it opens no group of its own. */
  lemma HeadOfRest(queue: seq<InstrInstance>, clock: nat, c: Config, f: seq<Instr>, k: nat, j: nat, remaining: nat)
    requires f != [] && c.nDecoders > 1 && AllReady(queue, clock, c) && j > 0 && remaining > 0
    requires queue != [] && !queue[0].instr.macroFusedWithPrev && queue[0].instr == f[k % |f|]
    requires StateAt(ClampAll(f, c), c, k) == State(j - 1, remaining)
    requires !Starts(ClampAll(f, c), c, k) ==> |Decoded(queue)| > 1
    ensures CanDecode(queue, clock, c, j) <==> !Starts(ClampAll(f, c), c, k)
    ensures !Starts(ClampAll(f, c), c, k) ==>
              var i := queue[0].instr;
              && SlotsAfter(i, remaining) == remaining - 1
              && StateAt(ClampAll(f, c), c, k + 1) ==
                 State(j, if i.uopsMS > 0 || i.isBranch || i.macroFusedWithNext then 0 else remaining - 1)
  {
    DecodedShorter(queue);
  }

  /** One cycle on a saturated queue takes exactly one group of the bound's run. */
  lemma CycleTakesGroup(queue: seq<InstrInstance>, clock: nat, c: Config, f: seq<Instr>, k: nat)
    requires f != [] && c.nDecoders > 1 && AllReady(queue, clock, c) && Streams(Decoded(queue), f, k)
    requires Starts(ClampAll(f, c), c, k)
    requires NextStart(ClampAll(f, c), c, k) - k < |Decoded(queue)|
    ensures |Decoded(queue[..Taken(queue, clock, c, 0, c.nDecoders)])| == NextStart(ClampAll(f, c), c, k) - k
    decreases |queue|
  {
    hide StateAt, NextStart, Starts, Ready, Streams, Widest;
    var g, t := ClampAll(f, c), Taken(queue, clock, c, 0, c.nDecoders);
    var i, rest := queue[0].instr, queue[1..];
    DecodedHead(queue, if t > 0 then t - 1 else 0);
    if i.macroFusedWithPrev {
      CycleTakesGroup(rest, clock, c, f, k);
    } else {
      StreamsTail(Decoded(queue), f, k);
      DecodedShorter(queue);
      FirstOfGroup(queue, clock, c, f, k);
      if i.uopsMS > 0 || SlotsAfter(i, c.nDecoders) == 0 || i.isBranch || i.macroFusedWithNext {
        ExhaustedStarts(g, c, k + 1);
        StartsHere(g, c, k + 1);
        assert rest[..0] == [];
      } else {
        assert Decoded(queue)[1..] == Decoded(rest);
        RestOfGroup(rest, clock, c, f, k + 1, 1, SlotsAfter(i, c.nDecoders));
      }
    }
  }

  lemma FirstOfGroup(queue: seq<InstrInstance>, clock: nat, c: Config, f: seq<Instr>, k: nat)
    requires f != [] && c.nDecoders > 1 && AllReady(queue, clock, c) && |queue| > 1
    requires !queue[0].instr.macroFusedWithPrev && queue[0].instr == f[k % |f|]
    requires Starts(ClampAll(f, c), c, k)
    ensures CanDecode(queue, clock, c, 0)
    ensures var i := queue[0].instr;
            StateAt(ClampAll(f, c), c, k + 1) ==
            State(0, if i.uopsMS > 0 || i.isBranch || i.macroFusedWithNext then 0 else SlotsAfter(i, c.nDecoders))
  {}

  // Tameness is exactly what the bound needs of an instruction

  const PLAIN := Instr(false, false, false, false, false, 0, 0)
  const BRANCH := Instr(false, false, false, true, false, 0, 0)

  /** A body of an instruction, plain instructions and a branch, `n` of them after the first. */
  function UpToBranch(i: Instr, n: nat): seq<Instr>
    requires n > 0
  {
    [i] + seq(n - 1, _ => PLAIN) + [BRANCH]
  }

  ghost predicate IsUpToBranch(g: seq<Instr>, n: nat) {
    n > 0 && |g| == n + 1 && (forall k :: 1 <= k < n ==> g[k] == PLAIN) && g[n] == BRANCH
  }

  function LeftByFirst(g: seq<Instr>, c: Config): nat
    requires g != [] && c.nDecoders > 0
  {
    if Ends(g[0]) then 0 else Capacity(g[0], c)
  }

  /** Instruction `idx` of round `r`. */
  lemma InRound(g: seq<Instr>, r: nat, idx: nat)
    requires idx < |g|
    ensures g[(DecodeLimit.Round(r, |g|) + idx) % |g|] == g[idx]
  {
    DecodeLimit.RoundIndex(r, idx, |g|);
  }

  /** Within a round that begins with no decoder left, the plain instructions join the group of the first one. */
  lemma {:induction false} JoinsFirst(g: seq<Instr>, c: Config, n: nat, r: nat, j: nat)
    requires c.nDecoders > 0 && IsUpToBranch(g, n) && j < n && j <= LeftByFirst(g, c)
    requires StateAt(g, c, DecodeLimit.Round(r, n + 1)).nAvail == 0
    ensures var k := DecodeLimit.Round(r, n + 1);
            && StateAt(g, c, k + 1 + j) == State(j, LeftByFirst(g, c) - j)
            && Groups(g, c, k, k + 1 + j) == 1
  {
    var k := DecodeLimit.Round(r, n + 1);
    InRound(g, r, j);
    if j > 0 {
      JoinsFirst(g, c, n, r, j - 1);
    } else {
      assert Groups(g, c, k, k) == 0;
    }
  }

  /** The branch joins them, too, or opens a second group; either way the next round begins with no decoder left. */
  lemma RoundEnds(g: seq<Instr>, c: Config, n: nat, r: nat)
    requires c.nDecoders > 0 && IsUpToBranch(g, n) && n <= LeftByFirst(g, c) + 1
    requires StateAt(g, c, DecodeLimit.Round(r, n + 1)).nAvail == 0
    ensures var k, next := DecodeLimit.Round(r, n + 1), DecodeLimit.Round(r + 1, n + 1);
            && next == k + n + 1 && StateAt(g, c, next).nAvail == 0
            && Groups(g, c, k, next) == if n <= LeftByFirst(g, c) then 1 else 2
  {
    hide DecodeLimit.Round, LeftByFirst;
    DecodeLimit.RoundNext(r, n + 1);
    JoinsFirst(g, c, n, r, n - 1);
    InRound(g, r, n);
  }

  lemma {:induction false} RoundBegins(g: seq<Instr>, c: Config, n: nat, r: nat)
    requires c.nDecoders > 0 && IsUpToBranch(g, n) && n <= LeftByFirst(g, c) + 1
    ensures StateAt(g, c, DecodeLimit.Round(r, n + 1)).nAvail == 0
  {
    if r > 0 {
      RoundBegins(g, c, n, r - 1);
      RoundEnds(g, c, n, r - 1);
    }
  }

  lemma {:induction false} GroupsOfRounds(g: seq<Instr>, c: Config, n: nat, a: nat, b: nat)
    requires c.nDecoders > 0 && IsUpToBranch(g, n) && n <= LeftByFirst(g, c) + 1 && a <= b
    ensures Groups(g, c, DecodeLimit.Round(a, n + 1), DecodeLimit.Round(b, n + 1)) ==
            if n <= LeftByFirst(g, c) then b - a else 2 * (b - a)
  {
    hide DecodeLimit.Round, LeftByFirst;
    if a < b {
      GroupsOfRounds(g, c, n, a, b - 1);
      RoundBegins(g, c, n, b - 1);
      RoundEnds(g, c, n, b - 1);
      DecodeLimit.RoundMonotone(a, b - 1, n + 1);
      GroupsSplit(g, c, DecodeLimit.Round(a, n + 1), DecodeLimit.Round(b - 1, n + 1), DecodeLimit.Round(b, n + 1));
    } else {
      assert Groups(g, c, DecodeLimit.Round(a, n + 1), DecodeLimit.Round(a, n + 1)) == 0;
    }
  }

  lemma RateOfRounds(g: seq<Instr>, c: Config, n: nat, p: DecodeLimit.Period)
    requires c.nDecoders > 0 && IsUpToBranch(g, n) && n <= LeftByFirst(g, c) + 1 && DecodeLimit.IsPeriod(g, c, p)
    ensures DecodeLimit.Rate(p) == if n <= LeftByFirst(g, c) then 1.0 else 2.0
  {
    hide LeftByFirst, DecodeLimit.Round, Groups, StateAt, IsUpToBranch;
    Length(g, n);
    GroupsOfRounds(g, c, n, p.first, p.last);
    OneOrTwo(p.last - p.first);
  }

  lemma Length(g: seq<Instr>, n: nat)
    requires IsUpToBranch(g, n)
    ensures |g| == n + 1
  {}

  lemma OneOrTwo(n: nat)
    requires n > 0
    ensures n as real / n as real == 1.0 && (2 * n) as real / n as real == 2.0
  {
    Quotient(n as real, 1.0);
    Quotient(n as real, 2.0);
    assert (2 * n) as real == 2.0 * (n as real);
  }

  lemma Quotient(x: real, q: real)
    requires x > 0.0
    ensures (q * x) / x == q
  {}

  /** Any other instruction makes the bound wrong for some body: followed by plain instructions and a branch, it counts one
      cycle for each iteration where the decoders take two. */
  lemma UntameMiscounts(i: Instr, c: Config, p: DecodeLimit.Period, q: DecodeLimit.Period)
    requires c.nDecoders > 1 && !Tame(i, c)
    requires var f := UpToBranch(i, if i.uopsMS > 0 then 1 else c.nDecoders);
             DecodeLimit.IsPeriod(f, c, p) && DecodeLimit.IsPeriod(ClampAll(f, c), c, q)
    ensures DecodeLimit.Rate(p) == 1.0 && DecodeLimit.Rate(q) == 2.0
  {
    hide DecodeLimit.IsPeriod;
    var n := if i.uopsMS > 0 then 1 else c.nDecoders;
    var f := UpToBranch(i, n);
    RateOfRounds(f, c, n, p);
    RateOfRounds(ClampAll(f, c), c, n, q);
  }

  // Many cycles

  lemma StreamsDrop(u: seq<InstrInstance>, f: seq<Instr>, k: nat, d: nat)
    requires f != [] && Streams(u, f, k) && d <= |u|
    ensures Streams(u[d..], f, k + d)
  {
    forall j | 0 <= j < |u[d..]|
      ensures u[d..][j].instr == f[(k + d + j) % |f|]
    {
      assert u[d..][j] == u[d + j];
      assert k + (d + j) == k + d + j;
    }
  }

  lemma QueueAdvances(queue: seq<InstrInstance>, t: nat)
    requires t <= |queue|
    ensures Decoded(queue) == Decoded(queue[..t]) + Decoded(queue[t..])
    ensures Decoded(queue[t..]) == Decoded(queue)[|Decoded(queue[..t])|..]
  {
    assert queue[..t] + queue[t..] == queue;
    DecodedConcat(queue[..t], queue[t..]);
  }

  lemma ReadyLater(queue: seq<InstrInstance>, t: nat, clock: nat, later: nat, c: Config)
    requires t <= |queue| && AllReady(queue, clock, c) && clock <= later
    ensures AllReady(queue[t..], later, c)
  {
    forall i | i in queue[t..]
      ensures Ready(i, later, c)
    {
      assert i in queue;
    }
  }

  lemma EnoughAhead(cycles: nat, w: nat, have: nat, size: nat)
    requires cycles > 0 && have > cycles * w && size <= w
    ensures have > size && have - size > (cycles - 1) * w
  {
    assert cycles * w == (cycles - 1) * w + w;
    assert (cycles - 1) * w >= 0;
  }

  /** One cycle: what it takes is the group that the bound counts at this place of the run. */
  lemma CycleStep(q: seq<InstrInstance>, clock: nat, c: Config, f: seq<Instr>, k: nat, at: nat, cycles: nat)
    requires f != [] && c.nDecoders > 1 && k <= at && cycles > 0
    requires AllReady(q, clock, c) && Streams(Decoded(q), f, at)
    requires Starts(ClampAll(f, c), c, k) && Starts(ClampAll(f, c), c, at)
    requires |Decoded(q)| > cycles * (Widest(ClampAll(f, c), c) + 1)
    ensures var g, t := ClampAll(f, c), Taken(q, clock, c, 0, c.nDecoders);
            var n := |Decoded(q[..t])|;
            && Decoded(q) == Decoded(q[..t]) + Decoded(q[t..]) && AllReady(q[t..], clock + 1, c)
            && Streams(Decoded(q[t..]), f, at + n) && Starts(g, c, at + n)
            && Groups(g, c, k, at + n) == Groups(g, c, k, at) + 1
            && |Decoded(q[t..])| > (cycles - 1) * (Widest(g, c) + 1)
  {
    hide Taken, Widest, StateAt, Groups, NextStart, Starts;
    var g, w, t := ClampAll(f, c), Widest(ClampAll(f, c), c) + 1, Taken(q, clock, c, 0, c.nDecoders);
    GroupSize(g, c, at);
    EnoughAhead(cycles, w, |Decoded(q)|, NextStart(g, c, at) - at);
    CycleTakesGroup(q, clock, c, f, at);
    QueueAdvances(q, t);
    StreamsDrop(Decoded(q), f, at, NextStart(g, c, at) - at);
    ReadyLater(q, t, clock, clock + 1, c);
    OneGroup(g, c, at);
    GroupsSplit(g, c, k, at, NextStart(g, c, at));
  }

  /** Runs the decoders for some cycles on a queue that holds the repeated body from instruction `k` on and has been
      predecoded far enough ahead: what they decode in that many cycles are exactly that many groups of the run. */
  method DecodeCycles(decoders: Decoders, f: seq<Instr>, k: nat, clock0: nat, cycles: nat)
    returns (decoded: seq<InstrInstance>)
    requires f != [] && decoders.c.nDecoders > 1
    requires var c := decoders.c;
             && AllReady(decoders.instructionQueue, clock0, c)
             && Streams(Decoded(decoders.instructionQueue), f, k)
             && Starts(ClampAll(f, c), c, k)
             && |Decoded(decoders.instructionQueue)| > cycles * (Widest(ClampAll(f, c), c) + 1)
    modifies decoders
    ensures var c, g := decoders.c, ClampAll(f, decoders.c);
            && Groups(g, c, k, k + |decoded|) == cycles
            && Starts(g, c, k + |decoded|)
    ensures decoded + Decoded(decoders.instructionQueue) == Decoded(old(decoders.instructionQueue))
  {
    hide Taken, Widest, StateAt, Groups, NextStart, Starts, Decoded, AllReady, Streams, ClampAll;
    var c := decoders.c;
    ghost var g, w := ClampAll(f, c), Widest(ClampAll(f, c), c) + 1;
    decoded := [];
    var clock := clock0;
    GroupsEmpty(g, c, k);
    for n := 0 to cycles
      invariant clock == clock0 + n
      invariant AllReady(decoders.instructionQueue, clock, c)
      invariant decoded + Decoded(decoders.instructionQueue) == Decoded(old(decoders.instructionQueue))
      invariant Streams(Decoded(decoders.instructionQueue), f, k + |decoded|)
      invariant Starts(g, c, k + |decoded|) && Groups(g, c, k, k + |decoded|) == n
      invariant |Decoded(decoders.instructionQueue)| > (cycles - n) * w
    {
      CycleStep(decoders.instructionQueue, clock, c, f, k, k + |decoded|, cycles - n);
      var group := decoders.Cycle(clock);
      decoded := decoded + group;
      clock := clock + 1;
    }
  }

  lemma GroupsEmpty(g: seq<Instr>, c: Config, k: nat)
    requires g != [] && c.nDecoders > 0
    ensures Groups(g, c, k, k) == 0
  {}

  /** Whatever the body: as many cycles as a period of the decoders' run has groups decode exactly the iterations of that
      period, wherever in the run they begin. */
  lemma CyclesOfDecoders(f: seq<Instr>, c: Config, q: DecodeLimit.Period, k: nat, decoded: nat)
    requires f != [] && c.nDecoders > 0 && DecodeLimit.IsPeriod(ClampAll(f, c), c, q)
    requires k >= DecodeLimit.Round(q.first, |f|) && Starts(ClampAll(f, c), c, k)
    requires Starts(ClampAll(f, c), c, k + decoded) && Groups(ClampAll(f, c), c, k, k + decoded) == q.groups
    ensures decoded == DecodeLimit.Round(q.last - q.first, |f|)
  {
    hide StateAt, DecodeLimit.Round, Groups, Starts;
    var g, n := ClampAll(f, c), DecodeLimit.Round(q.last - q.first, |f|);
    DecodeLimit.PeriodFrom(g, c, q, k);
    DecodeLimit.PeriodStarts(g, c, q, k);
    StartDecides(g, c, k, decoded, n);
    StartDecides(g, c, k, n, decoded);
  }

  /** For a tame body this is so for the periods of the bound: the bound is the number of cycles per iteration. */
  lemma CyclesPerPeriod(f: seq<Instr>, c: Config, p: DecodeLimit.Period, k: nat, decoded: nat)
    requires DecodeLimit.IsPeriod(f, c, p) && forall i :: i in f ==> Tame(i, c)
    requires k >= DecodeLimit.Round(p.first, |f|) && Starts(ClampAll(f, c), c, k)
    requires Starts(ClampAll(f, c), c, k + decoded) && Groups(ClampAll(f, c), c, k, k + decoded) == p.groups
    ensures decoded == DecodeLimit.Round(p.last - p.first, |f|)
  {
    hide StateAt, DecodeLimit.Round, Groups, Starts, Tame;
    TamePeriod(f, c, p);
    CyclesOfDecoders(f, c, p, k, decoded);
  }

  lemma TamePeriod(f: seq<Instr>, c: Config, p: DecodeLimit.Period)
    requires f != [] && c.nDecoders > 0 && forall i :: i in f ==> Tame(i, c)
    ensures DecodeLimit.IsPeriod(ClampAll(f, c), c, p) <==> DecodeLimit.IsPeriod(f, c, p)
  {
    hide StateAt, DecodeLimit.Round, Groups, Tame;
    var a, b := DecodeLimit.Round(p.first, |f|), DecodeLimit.Round(p.last, |f|);
    ClampingTame(f, c, a + 1);
    ClampingTame(f, c, b + 1);
    TameGroups(f, c, a, b);
  }

  // When the bound is what the decoders do

  /** The rate that the bound reports is the rate of the decoders. */
  ghost predicate Agrees(f: seq<Instr>, c: Config)
    requires c.nDecoders > 0
  {
    forall p, q :: DecodeLimit.IsPeriod(f, c, p) && DecodeLimit.IsPeriod(ClampAll(f, c), c, q) ==>
      DecodeLimit.Rate(p) == DecodeLimit.Rate(q)
  }

  ghost predicate MadeOf(f: seq<Instr>, instrs: iset<Instr>) {
    f != [] && forall i :: i in f ==> i in instrs
  }

  ghost predicate AllAgree(instrs: iset<Instr>, c: Config)
    requires c.nDecoders > 0
  {
    forall f :: MadeOf(f, instrs) ==> Agrees(f, c)
  }

  lemma TameAgrees(f: seq<Instr>, c: Config)
    requires f != [] && c.nDecoders > 0 && forall i :: i in f ==> Tame(i, c)
    ensures Agrees(f, c)
  {
    hide StateAt, Groups, DecodeLimit.Round, Tame;
    forall p, q | DecodeLimit.IsPeriod(f, c, p) && DecodeLimit.IsPeriod(ClampAll(f, c), c, q)
      ensures p.first < p.last && q.first < q.last && DecodeLimit.Rate(p) == DecodeLimit.Rate(q)
    {
      TamePeriod(f, c, q);
      DecodeLimit.RateUnique(f, c, p, q);
    }
  }

  /** The body that shows an untame instruction has a period from the first round on. */
  lemma HasPeriod(g: seq<Instr>, c: Config, n: nat)
    requires c.nDecoders > 0 && IsUpToBranch(g, n) && n <= LeftByFirst(g, c) + 1
    ensures DecodeLimit.IsPeriod(g, c, DecodeLimit.Period(0, 1, Groups(g, c, DecodeLimit.Round(0, |g|),
                                                                       DecodeLimit.Round(1, |g|))))
  {
    hide LeftByFirst, Groups, DecodeLimit.Round;
    Length(g, n);
    RoundBegins(g, c, n, 0);
    RoundBegins(g, c, n, 1);
    Exhausted(g, c, DecodeLimit.Round(0, n + 1));
    Exhausted(g, c, DecodeLimit.Round(1, n + 1));
  }

  lemma Exhausted(g: seq<Instr>, c: Config, k: nat)
    requires g != [] && c.nDecoders > 0 && StateAt(g, c, k).nAvail == 0
    ensures StateAt(g, c, k + 1).curDec == 0
  {}

  lemma UntameDisagrees(i: Instr, c: Config)
    requires c.nDecoders > 1 && !Tame(i, c)
    ensures !Agrees(UpToBranch(i, if i.uopsMS > 0 then 1 else c.nDecoders), c)
  {
    hide DecodeLimit.IsPeriod, Tame, Groups, DecodeLimit.Round;
    var n := if i.uopsMS > 0 then 1 else c.nDecoders;
    var f := UpToBranch(i, n);
    var g := ClampAll(f, c);
    UntameBody(i, c);
    HasPeriod(f, c, n);
    HasPeriod(g, c, n);
    var p := DecodeLimit.Period(0, 1, Groups(f, c, DecodeLimit.Round(0, |f|), DecodeLimit.Round(1, |f|)));
    var q := DecodeLimit.Period(0, 1, Groups(g, c, DecodeLimit.Round(0, |g|), DecodeLimit.Round(1, |g|)));
    UntameMiscounts(i, c, p, q);
  }

  lemma UntameBody(i: Instr, c: Config)
    requires c.nDecoders > 1 && !Tame(i, c)
    ensures var n := if i.uopsMS > 0 then 1 else c.nDecoders;
            var f := UpToBranch(i, n);
            && IsUpToBranch(f, n) && n <= LeftByFirst(f, c) + 1
            && IsUpToBranch(ClampAll(f, c), n) && n <= LeftByFirst(ClampAll(f, c), c) + 1
  {}

  /** Over some instructions, a plain one and a branch among them, the bound reports the rate of the decoders for all
      bodies, exactly if every instruction is tame. */
  lemma BoundExactly(instrs: iset<Instr>, c: Config)
    requires c.nDecoders > 1 && PLAIN in instrs && BRANCH in instrs
    ensures AllAgree(instrs, c) <==> forall i :: i in instrs ==> Tame(i, c)
  {
    hide Agrees, Tame;
    if forall i :: i in instrs ==> Tame(i, c) {
      forall f | MadeOf(f, instrs)
        ensures Agrees(f, c)
      {
        TameAgrees(f, c);
      }
    } else {
      var i :| i in instrs && !Tame(i, c);
      UntameDisagrees(i, c);
      assert MadeOf(UpToBranch(i, if i.uopsMS > 0 then 1 else c.nDecoders), instrs);
    }
  }

  lemma StartDecides(f: seq<Instr>, c: Config, k: nat, a: nat, b: nat)
    requires f != [] && c.nDecoders > 0 && Starts(f, c, k + a) && Groups(f, c, k, k + a) == Groups(f, c, k, k + b)
    ensures b <= a
  {
    hide Starts;
    if a < b {
      GroupsSplit(f, c, k, k + a, k + b);
      GroupsSplit(f, c, k + a, k + a + 1, k + b);
    }
  }
}

/** What the predecoding bound counts, and how many cycles it adds for it. */
module PredecodeCounts {
  import opened Arithmetic
  import opened PredecodeLimit

  // The unrolling

  /** This many copies of the code fill whole 16-byte blocks. */
  predicate FillsBlocks(u: nat, length: nat) {
    u > 0 && (u * length) % 16 == 0
  }

  lemma MultipleOfRemainder(u: nat, n: nat)
    ensures (u * n) % 16 == (u * (n % 16)) % 16
  {
    var q, r := n / 16, n % 16;
    assert u * n == u * (16 * q + r);
    assert u * n - u * r == u * q * 16;
    var low := (u * r) % 16;
    assert u * r == (u * r / 16) * 16 + low;
    RemainderFromDifference(u * n, low, u * q + u * r / 16, 16);
    SmallRemainder(low, 16);
  }

  /** The greatest common divisor with 16, by the last four bits. */
  function LowDivisor(r: nat): nat
    requires r < 16
  {
    if r == 0 then 16 else if r == 8 then 8 else if r % 4 == 0 then 4 else if r % 2 == 0 then 2 else 1
  }

  lemma GcdWith16(n: nat)
    ensures Gcd(n, 16) == LowDivisor(n % 16)
  {
    var r := n % 16;
    assert Gcd(n, 16) == Gcd(16, r);
    GcdOf16(r);
  }

  lemma GcdOf16(r: nat)
    requires r < 16
    ensures Gcd(16, r) == LowDivisor(r)
  {
    if r == 0 {
      assert Gcd(16, 0) == 16;
    } else if r == 1 {
      assert Gcd(16, 1) == 1;
    } else if r == 2 {
      assert Gcd(16, 2) == 2;
    } else if r == 3 {
      assert Gcd(16, 3) == 1;
    } else if r == 4 {
      assert Gcd(16, 4) == 4;
    } else if r == 5 {
      assert Gcd(16, 5) == 1;
    } else if r == 6 {
      assert Gcd(16, 6) == 2;
    } else if r == 7 {
      assert Gcd(16, 7) == 1;
    } else if r == 8 {
      assert Gcd(16, 8) == 8;
    } else if r == 9 {
      assert Gcd(16, 9) == 1;
    } else if r == 10 {
      assert Gcd(16, 10) == 2;
    } else if r == 11 {
      assert Gcd(16, 11) == 1;
    } else if r == 12 {
      assert Gcd(16, 12) == 4;
    } else if r == 13 {
      assert Gcd(16, 13) == 1;
    } else if r == 14 {
      assert Gcd(16, 14) == 2;
    } else if r == 15 {
      assert Gcd(16, 15) == 1;
    }
  }

  lemma LowMultiples(r: nat, u: nat)
    requires r < 16 && 0 < u
    ensures u < 16 / LowDivisor(r) ==> (u * r) % 16 != 0
    ensures u == 16 / LowDivisor(r) ==> (u * r) % 16 == 0
  {
    if r == 0 {}
    else if r == 1 {} else if r == 2 {} else if r == 3 {} else if r == 4 {} else if r == 5 {}
    else if r == 6 {} else if r == 7 {} else if r == 8 {} else if r == 9 {} else if r == 10 {}
    else if r == 11 {} else if r == 12 {} else if r == 13 {} else if r == 14 {}
  }

  /** Straight code is unrolled as often as it takes to fill whole blocks, and no more. */
  lemma UnrolledLeast(code: seq<Code>, u: nat)
    ensures FillsBlocks(UnrollOf(code, false), Length(code))
    ensures FillsBlocks(u, Length(code)) ==> UnrollOf(code, false) <= u
  {
    var n := Length(code);
    GcdWith16(n);
    hide Gcd, Length;
    var v := 16 / LowDivisor(n % 16);
    LowMultiples(n % 16, v);
    MultipleOfRemainder(v, n);
    if u > 0 {
      LowMultiples(n % 16, u);
      MultipleOfRemainder(u, n);
    }
  }

  /** The first instruction is at most 15 bytes before the first block, at the alignment of the code. */
  lemma BaseExactly(alignmentOffset: nat, base: int)
    ensures BaseOf(alignmentOffset) == base <==> -16 < base <= 0 && (base - alignmentOffset) % 16 == 0
  {}

  // The counts

  function InstructionOf(code: seq<Code>, k: nat): Code
    requires code != []
  {
    code[k % |code|]
  }

  ghost predicate EndsIn(code: seq<Code>, base: int, b: nat, k: nat)
    requires code != []
  {
    16 * b <= Address(code, base, k) + InstructionOf(code, k).length - 1 < 16 * b + 16
  }

  ghost predicate OpcodeIn(code: seq<Code>, base: int, b: nat, k: nat)
    requires code != []
  {
    16 * b <= Address(code, base, k) + InstructionOf(code, k).posNominalOpcode < 16 * b + 16
  }

  ghost function EndingSet(code: seq<Code>, base: int, b: nat, n: nat): set<nat>
    requires code != []
  {
    set k: nat | k < n && EndsIn(code, base, b, k)
  }

  ghost function CrossingSet(code: seq<Code>, base: int, b: nat, n: nat): set<nat>
    requires code != []
  {
    set k: nat | k < n && OpcodeIn(code, base, b, k) && !EndsIn(code, base, b, k)
  }

  ghost function PrefixedSet(code: seq<Code>, base: int, b: nat, n: nat): set<nat>
    requires code != []
  {
    set k: nat | k < n && OpcodeIn(code, base, b, k) && InstructionOf(code, k).hasLCP
  }

  lemma Blocks16(x: int, b: nat)
    ensures x / 16 == b <==> 16 * b <= x < 16 * b + 16
  {}

  /** Of the first `n` instances, those counted for a block: the ones that end in it; the ones whose opcode begins in it
      and that end elsewhere; and the ones whose opcode begins in it and that have a length-changing prefix. */
  lemma {:induction false} CountsExactly(code: seq<Code>, base: int, b: nat, n: nat)
    requires code != []
    ensures BlockAt(code, base, b, n) ==
            Block(|EndingSet(code, base, b, n)|, |CrossingSet(code, base, b, n)|, |PrefixedSet(code, base, b, n)|)
  {
    if n == 0 {
      assert EndingSet(code, base, b, 0) == {} && CrossingSet(code, base, b, 0) == {};
      assert PrefixedSet(code, base, b, 0) == {};
    } else {
      var k := n - 1;
      CountsExactly(code, base, b, k);
      Blocks16(LastByte(code, base, k), b);
      Blocks16(Address(code, base, k) + InstructionOf(code, k).posNominalOpcode, b);
      BlockGrows(code, base, b, k);
      hide BlockAt, Address;
      EndingGrows(code, base, b, k);
      CrossingGrows(code, base, b, k);
      PrefixedGrows(code, base, b, k);
    }
  }

  lemma GrowsBy(before: set<nat>, after: set<nat>, k: nat, counted: bool)
    requires k !in before && after == before + (if counted then {k} else {})
    ensures |after| == |before| + AsNat(counted)
  {}

  lemma EndingGrows(code: seq<Code>, base: int, b: nat, k: nat)
    requires code != []
    ensures |EndingSet(code, base, b, k + 1)| == |EndingSet(code, base, b, k)| + AsNat(EndsIn(code, base, b, k))
  {
    hide EndsIn, OpcodeIn, AsNat, InstructionOf;
    var before, after := EndingSet(code, base, b, k), EndingSet(code, base, b, k + 1);
    forall j: nat
      ensures j in after <==> j in before || (j == k && EndsIn(code, base, b, k))
    {}
    GrowsBy(before, after, k, EndsIn(code, base, b, k));
  }

  lemma CrossingGrows(code: seq<Code>, base: int, b: nat, k: nat)
    requires code != []
    ensures |CrossingSet(code, base, b, k + 1)| == |CrossingSet(code, base, b, k)| + AsNat(OpcodeIn(code, base, b, k) && !EndsIn(code, base, b, k))
  {
    hide EndsIn, OpcodeIn, AsNat, InstructionOf;
    var before, after := CrossingSet(code, base, b, k), CrossingSet(code, base, b, k + 1);
    forall j: nat
      ensures j in after <==> j in before || (j == k && OpcodeIn(code, base, b, k) && !EndsIn(code, base, b, k))
    {}
    GrowsBy(before, after, k, OpcodeIn(code, base, b, k) && !EndsIn(code, base, b, k));
  }

  lemma PrefixedGrows(code: seq<Code>, base: int, b: nat, k: nat)
    requires code != []
    ensures |PrefixedSet(code, base, b, k + 1)| == |PrefixedSet(code, base, b, k)| + AsNat(OpcodeIn(code, base, b, k) && InstructionOf(code, k).hasLCP)
  {
    hide EndsIn, OpcodeIn, AsNat, InstructionOf;
    var before, after := PrefixedSet(code, base, b, k), PrefixedSet(code, base, b, k + 1);
    forall j: nat
      ensures j in after <==> j in before || (j == k && OpcodeIn(code, base, b, k) && InstructionOf(code, k).hasLCP)
    {}
    GrowsBy(before, after, k, OpcodeIn(code, base, b, k) && InstructionOf(code, k).hasLCP);
  }

  // The cycles

  /** The cycles in which five instructions each are predecoded. */
  predicate IsPredecoding(b: Block, cycles: int) {
    5 * (cycles - 1) < b.ending + b.crossing <= 5 * cycles
  }

  /** The cycles for a block: those for its instructions, and three for each of its prefixes, as far as the cycles of the
      block before, except the first of them, do not hide these. */
  ghost predicate IsCycles(b: Block, prev: Block, cycles: int) {
    exists own, other :: IsSum(b, prev, cycles, own, other)
  }

  predicate IsSum(b: Block, prev: Block, cycles: int, own: int, other: int) {
    && IsPredecoding(b, own) && IsPredecoding(prev, other)
    && cycles == if 3 * b.prefixed > other - 1 then own + 3 * b.prefixed - (other - 1) else own
  }

  function Sum(ns: seq<nat>): nat {
    if ns == [] then 0 else Sum(ns[..|ns| - 1]) + ns[|ns| - 1]
  }

  /** The block before, which is the last one for the first. */
  function Previous(bs: seq<Block>, i: nat): Block
    requires i < |bs|
  {
    bs[if i == 0 then |bs| - 1 else i - 1]
  }

  ghost predicate AllCycles(bs: seq<Block>, each: seq<nat>) {
    |each| <= |bs| && forall i :: 0 <= i < |each| ==> IsCycles(bs[i], Previous(bs, i), each[i])
  }

  lemma AllCyclesNext(bs: seq<Block>, front: seq<nat>, cycles: nat)
    requires |front| < |bs| && AllCycles(bs, front) && IsCycles(bs[|front|], Previous(bs, |front|), cycles)
    ensures AllCycles(bs, front + [cycles])
  {
    hide IsCycles, Previous;
  }

  lemma CyclesNext(bs: seq<Block>, n: nat) returns (cycles: nat)
    requires 0 < n <= |bs|
    ensures Cycles(bs, n) == Cycles(bs, n - 1) + cycles && IsCycles(bs[n - 1], Previous(bs, n - 1), cycles)
  {
    var b, prev := bs[n - 1], Previous(bs, n - 1);
    cycles := Predecoding(b) + Penalty(b, prev);
    assert IsSum(b, prev, cycles, Predecoding(b), Predecoding(prev));
    hide Predecoding, Penalty, IsSum;
  }

  lemma SumNext(front: seq<nat>, n: nat)
    ensures Sum(front + [n]) == Sum(front) + n
  {
    assert (front + [n])[..|front|] == front;
  }

  /** The cycles are the sum of those for each block, where the block before the first one is the last. */
  lemma {:induction false} CyclesExactly(bs: seq<Block>, n: nat) returns (each: seq<nat>)
    requires n <= |bs|
    ensures |each| == n && Cycles(bs, n) == Sum(each) && AllCycles(bs, each)
  {
    if n == 0 {
      return [];
    }
    hide *;
    var front := CyclesExactly(bs, n - 1);
    var cycles := CyclesNext(bs, n);
    SumNext(front, cycles);
    AllCyclesNext(bs, front, cycles);
    each := front + [cycles];
  }
}

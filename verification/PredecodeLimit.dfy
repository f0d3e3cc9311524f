/** The predecoding bound (`computePredecLimit`, `computePredecLimitSimple`): instructions are counted by the 16-byte
    blocks that hold their last byte, their opcode, or a length-changing prefix. */
module PredecodeLimit {
  import opened Arithmetic

  datatype Code = Code(length: nat, posNominalOpcode: nat, hasLCP: bool)

  function Length(code: seq<Code>): nat {
    if code == [] then 0 else Length(code[..|code| - 1]) + code[|code| - 1].length
  }

  /** Instructions have at least one byte and at most fifteen. */
  predicate WellSized(code: seq<Code>) {
    forall d :: d in code ==> 1 <= d.length <= 15
  }

  function Gcd(a: nat, b: nat): nat
    decreases b
  {
    if b == 0 then a else Gcd(b, a % b)
  }

  predicate Divides(d: nat, n: nat)
    requires d > 0
  {
    n % d == 0
  }

  lemma {:induction false} GcdDivides(a: nat, b: nat)
    requires a > 0 || b > 0
    ensures Gcd(a, b) > 0 && Divides(Gcd(a, b), a) && Divides(Gcd(a, b), b)
    decreases b
  {
    if b > 0 {
      GcdDivides(b, a % b);
      var g := Gcd(b, a % b);
      assert a == (a / b) * b + a % b;
      CombinationDivides(g, a / b, b, a % b);
    }
  }

  lemma CombinationDivides(g: nat, q: nat, b: nat, r: nat)
    requires g > 0 && Divides(g, b) && Divides(g, r)
    ensures Divides(g, q * b + r)
  {
    var s := q * (b / g) + r / g;
    assert q * b == q * (b / g) * g;
    assert q * b + r - 0 == s * g;
    RemainderFromDifference(q * b + r, 0, s, g);
  }

  /** Unrolled code fills whole 16-byte blocks. */
  lemma UnrolledIsAligned(n: nat)
    ensures Gcd(n, 16) > 0
    ensures var u := 16 / Gcd(n, 16); u > 0 && u * n == 16 * (n / Gcd(n, 16))
  {
    GcdDivides(n, 16);
    var g := Gcd(n, 16);
    hide Gcd;
    Quotients(n, 16, g);
  }

  lemma Quotients(n: nat, m: nat, g: nat)
    requires g > 0 && n % g == 0 && m % g == 0 && m > 0
    ensures m / g > 0 && m / g * n == m * (n / g) && m == (m / g) * g
  {
    var u, q := m / g, n / g;
    assert m == u * g && n == q * g;
    Associative(u, q, g);
  }

  lemma Associative(u: nat, q: nat, g: nat)
    ensures u * (q * g) == (u * g) * q
  {}

  // Where the instructions are

  /** The address of instance `k` when the code repeats from `base` on. */
  function Address(code: seq<Code>, base: int, k: nat): int
    requires code != []
  {
    if k == 0 then base else Address(code, base, k - 1) + code[(k - 1) % |code|].length
  }

  /** The address of the last byte of instance `k`. */
  function LastByte(code: seq<Code>, base: int, k: nat): int
    requires code != []
  {
    Address(code, base, k + 1) - 1
  }

  /** How many of the first `n` instances have their last byte in a range of addresses. */
  function EndingIn(code: seq<Code>, base: int, lo: int, hi: int, n: nat): nat
    requires code != []
  {
    if n == 0 then 0
    else EndingIn(code, base, lo, hi, n - 1) + AsNat(lo <= LastByte(code, base, n - 1) < hi)
  }

  lemma {:induction false} EndingSplit(code: seq<Code>, base: int, lo: int, mid: int, hi: int, n: nat)
    requires code != [] && lo <= mid <= hi
    ensures EndingIn(code, base, lo, hi, n) == EndingIn(code, base, lo, mid, n) + EndingIn(code, base, mid, hi, n)
  {
    if n > 0 {
      EndingSplit(code, base, lo, mid, hi, n - 1);
    }
  }

  lemma NextAddress(code: seq<Code>, base: int, k: nat)
    requires code != [] && WellSized(code)
    ensures Address(code, base, k) < Address(code, base, k + 1)
  {
    assert code[k % |code|] in code;
  }

  lemma {:induction false} Increasing(code: seq<Code>, base: int, j: nat, k: nat)
    requires code != [] && WellSized(code) && j <= k
    ensures Address(code, base, j) + (k - j) <= Address(code, base, k)
    decreases k
  {
    if j < k {
      hide Address, WellSized;
      Increasing(code, base, j, k - 1);
      NextAddress(code, base, k - 1);
    }
  }

  lemma {:induction false} Within(code: seq<Code>, base: int, k: nat)
    requires code != [] && k <= |code|
    ensures Address(code, base, k) == base + Length(code[..k])
  {
    if k > 0 {
      Within(code, base, k - 1);
      SmallRemainder(k - 1, |code|);
      assert code[..k][..k - 1] == code[..k - 1];
    } else {
      assert code[..0] == [];
    }
  }

  /** One repetition further on, addresses are larger by the length of the code. */
  lemma {:induction false} Repeats(code: seq<Code>, base: int, k: nat)
    requires code != []
    ensures Address(code, base, k + |code|) == Address(code, base, k) + Length(code)
  {
    if k == 0 {
      Within(code, base, |code|);
      assert code[..|code|] == code;
    } else {
      Repeats(code, base, k - 1);
      RemainderFromDifference(k - 1 + |code|, k - 1, 1, |code|);
    }
  }

  lemma {:induction false} RepeatsTimes(code: seq<Code>, base: int, k: nat, u: nat)
    requires code != []
    ensures Address(code, base, k + Product(u, |code|)) == Address(code, base, k) + Product(u, Length(code))
  {
    hide Product, Address, Length;
    if u == 0 {
      NoProduct(|code|);
      NoProduct(Length(code));
    } else {
      RepeatsTimes(code, base, k, u - 1);
      ProductNext(u - 1, |code|);
      ProductNext(u - 1, Length(code));
      Repeats(code, base, k + Product(u - 1, |code|));
    }
  }

  lemma NoProduct(b: nat)
    ensures Product(0, b) == 0
  {}

  /** The instance that holds an address. */
  lemma {:induction false} Holds(code: seq<Code>, base: int, x: int, n: nat) returns (k: nat)
    requires code != [] && WellSized(code) && base <= x < Address(code, base, n)
    ensures k < n && Address(code, base, k) <= x <= LastByte(code, base, k)
  {
    if x >= Address(code, base, n - 1) {
      k := n - 1;
    } else {
      k := Holds(code, base, x, n - 1);
    }
  }

  lemma {:induction false} CountsInterval(code: seq<Code>, base: int, lo: int, hi: int, from: nat, to: nat, n: nat)
    requires code != [] && from <= to
    requires forall k :: 0 <= k < n ==> (lo <= LastByte(code, base, k) < hi <==> from <= k < to)
    ensures EndingIn(code, base, lo, hi, n) == if n < from then 0 else if n < to then n - from else to - from
  {
    if n > 0 {
      CountsInterval(code, base, lo, hi, from, to, n - 1);
    }
  }

  /** The instances from the first one that ends at a positive address to its repetition. */
  lemma EndsWithin(code: seq<Code>, base: int, k0: nat, count: nat, size: nat, k: nat)
    requires code != [] && WellSized(code) && count > 0
    requires Address(code, base, k0) <= 0 < Address(code, base, k0 + 1)
    requires Address(code, base, k0 + count) == Address(code, base, k0) + size
    requires Address(code, base, k0 + 1 + count) == Address(code, base, k0 + 1) + size
    ensures 0 <= LastByte(code, base, k) < size <==> k0 <= k < k0 + count
  {
    hide Address, WellSized;
    if k < k0 {
      Increasing(code, base, k + 1, k0);
    } else if k < k0 + count {
      Increasing(code, base, k0 + 1, k + 1);
      Increasing(code, base, k + 1, k0 + count);
    } else {
      Increasing(code, base, k0 + count + 1, k + 1);
    }
  }

  /** In any stretch of addresses as long as a number of repetitions, exactly the instances of that many repetitions
      end. */
  lemma RepetitionsEnd(code: seq<Code>, base: int, u: nat, n: nat)
    requires code != [] && WellSized(code) && base <= 0 && u > 0
    requires Address(code, base, n) >= Product(u, Length(code))
    ensures EndingIn(code, base, 0, Product(u, Length(code)), n) == Product(u, |code|)
  {
    hide Product, EndingIn, Length, Address, WellSized;
    var size, count := Product(u, Length(code)), Product(u, |code|);
    Positive(code, u);
    var k0 := Holds(code, base, 0, n);
    RepeatsTimes(code, base, k0, u);
    RepeatsTimes(code, base, k0 + 1, u);
    if n < k0 + count {
      Increasing(code, base, n, k0 + count);
      assert false;
    }
    forall k | 0 <= k < n
      ensures 0 <= LastByte(code, base, k) < size <==> k0 <= k < k0 + count
    {
      EndsWithin(code, base, k0, count, size, k);
    }
    CountsInterval(code, base, 0, size, k0, k0 + count, n);
  }

  lemma {:induction false} Positive(code: seq<Code>, u: nat)
    requires code != [] && WellSized(code) && u > 0
    ensures Product(u, Length(code)) > 0 && Product(u, |code|) > 0
  {
    assert code[|code| - 1] in code;
  }

  /** Every 16-byte block of the code holds the last byte of an instruction. */
  lemma EveryBlock(code: seq<Code>, base: int, b: nat, n: nat)
    requires code != [] && WellSized(code) && base <= 0 && Address(code, base, n) > 16 * b
    ensures EndingIn(code, base, 16 * b, 16 * b + 16, n) > 0
  {
    var k := Holds(code, base, 16 * b, n);
    assert code[k % |code|] in code;
    AtLeastThis(code, base, 16 * b, 16 * b + 16, n, k);
  }

  lemma {:induction false} AtLeastThis(code: seq<Code>, base: int, lo: int, hi: int, n: nat, k: nat)
    requires code != [] && k < n && lo <= LastByte(code, base, k) < hi
    ensures EndingIn(code, base, lo, hi, n) > 0
  {
    if k < n - 1 {
      AtLeastThis(code, base, lo, hi, n - 1, k);
    }
  }

  // The counts

  function OpcodeBlock(code: seq<Code>, base: int, k: nat): int
    requires code != []
  {
    (Address(code, base, k) + code[k % |code|].posNominalOpcode) / 16
  }

  function EndBlock(code: seq<Code>, base: int, k: nat): int
    requires code != []
  {
    LastByte(code, base, k) / 16
  }

  /** How many of the first `n` instances end in block `b`. */
  function Ending(code: seq<Code>, base: int, b: nat, n: nat): nat
    requires code != []
  {
    EndingIn(code, base, 16 * b, 16 * b + 16, n)
  }

  /** How many of the first `n` instances have their opcode in block `b` and end elsewhere. */
  function Crossing(code: seq<Code>, base: int, b: nat, n: nat): nat
    requires code != []
  {
    if n == 0 then 0
    else Crossing(code, base, b, n - 1) +
         AsNat(OpcodeBlock(code, base, n - 1) == b && EndBlock(code, base, n - 1) != b)
  }

  /** How many of the first `n` instances have a length-changing prefix and their opcode in block `b`. */
  function Prefixed(code: seq<Code>, base: int, b: nat, n: nat): nat
    requires code != []
  {
    if n == 0 then 0
    else Prefixed(code, base, b, n - 1) +
         AsNat(OpcodeBlock(code, base, n - 1) == b && code[(n - 1) % |code|].hasLCP)
  }

  datatype Block = Block(ending: nat, crossing: nat, prefixed: nat)

  function BlockAt(code: seq<Code>, base: int, b: nat, n: nat): Block
    requires code != []
  {
    Block(Ending(code, base, b, n), Crossing(code, base, b, n), Prefixed(code, base, b, n))
  }

  function Blocks(code: seq<Code>, base: int, blocks: nat, n: nat): (r: seq<Block>)
    requires code != []
    ensures |r| == blocks
  {
    seq(blocks, b requires 0 <= b < blocks => BlockAt(code, base, b, n))
  }

  /** Five instructions a cycle. */
  function Predecoding(b: Block): nat {
    (b.ending + b.crossing + 4) / 5
  }

  /** Prefixes cost three cycles each, less those that pass while the block before is predecoded. */
  function Penalty(b: Block, prev: Block): nat {
    var p := 3 * b.prefixed - (Predecoding(prev) - 1);
    if p < 0 then 0 else p
  }

  function Cycles(bs: seq<Block>, n: nat): nat
    requires n <= |bs|
  {
    if n == 0 then 0
    else Cycles(bs, n - 1) + Predecoding(bs[n - 1]) + Penalty(bs[n - 1], bs[if n == 1 then |bs| - 1 else n - 2])
  }

  function SumEnding(bs: seq<Block>, n: nat): nat
    requires n <= |bs|
  {
    if n == 0 then 0 else SumEnding(bs, n - 1) + bs[n - 1].ending
  }

  lemma {:induction false} CyclesCover(bs: seq<Block>, n: nat)
    requires n <= |bs| && forall b :: b in bs ==> b.ending > 0
    ensures Cycles(bs, n) >= n && 5 * Cycles(bs, n) >= SumEnding(bs, n)
  {
    if n > 0 {
      CyclesCover(bs, n - 1);
      assert bs[n - 1] in bs;
      hide Penalty;
    }
  }

  lemma {:induction false} SumOfBlocks(code: seq<Code>, base: int, blocks: nat, n: nat, m: nat)
    requires code != [] && m <= blocks
    ensures SumEnding(Blocks(code, base, blocks, n), m) == EndingIn(code, base, 0, 16 * m, n)
  {
    hide EndingIn;
    if m > 0 {
      SumOfBlocks(code, base, blocks, n, m - 1);
      EndingSplit(code, base, 0, 16 * (m - 1), 16 * m, n);
    } else {
      NothingEnds(code, base, n);
    }
  }

  lemma {:induction false} NothingEnds(code: seq<Code>, base: int, n: nat)
    requires code != []
    ensures EndingIn(code, base, 0, 0, n) == 0
  {
    if n > 0 {
      NothingEnds(code, base, n - 1);
    }
  }

  /** Unrolled code, whatever its alignment: the instances that end in its blocks are exactly those of the unrolled
      code, each block has one, and so the cycles are at least one for each block and one for five instructions. */
  lemma UnrolledCycles(code: seq<Code>, base: int, u: nat, blocks: nat, n: nat)
    requires code != [] && WellSized(code) && base <= 0 && u > 0
    requires Product(u, Length(code)) == 16 * blocks && Address(code, base, n) >= 16 * blocks
    ensures var bs := Blocks(code, base, blocks, n);
            && SumEnding(bs, blocks) == Product(u, |code|) && (forall b :: b in bs ==> b.ending > 0)
            && Cycles(bs, blocks) >= blocks && 5 * Cycles(bs, blocks) >= Product(u, |code|)
  {
    hide Product, Cycles, SumEnding, EndingIn, Length;
    var bs := Blocks(code, base, blocks, n);
    SumOfBlocks(code, base, blocks, n, blocks);
    RepetitionsEnd(code, base, u, n);
    forall b | 0 <= b < blocks
      ensures bs[b].ending > 0
    {
      EveryBlock(code, base, b, n);
    }
    CyclesCover(bs, blocks);
  }

  /** The instances that the count looks at: those that start before the end of the code. */
  ghost predicate Looked(code: seq<Code>, base: int, end: nat, n: nat) {
    code != [] && Address(code, base, n) >= end && (n > 0 ==> Address(code, base, n - 1) < end)
  }

  function UnrollOf(code: seq<Code>, loop: bool): (u: nat)
    ensures u > 0
  {
    UnrolledIsAligned(Length(code));
    if loop then 1 else 16 / Gcd(Length(code), 16)
  }

  function BaseOf(alignmentOffset: nat): int {
    if alignmentOffset % 16 == 0 then 0 else -16 + alignmentOffset % 16
  }

  function SimpleLimit(code: seq<Code>): real {
    Length(code) as real / 16.0
  }

  /** Counts an instance. */
  function CountOne(bs: seq<Block>, endBlock: int, opcodeBlock: int, hasLCP: bool): seq<Block> {
    var ended := if 0 <= endBlock < |bs| then bs[endBlock := bs[endBlock].(ending := bs[endBlock].ending + 1)] else bs;
    if 0 <= opcodeBlock < |bs| then
      var b := ended[opcodeBlock];
      ended[opcodeBlock := b.(crossing := b.crossing + AsNat(opcodeBlock != endBlock),
                              prefixed := b.prefixed + AsNat(hasLCP))]
    else ended
  }

  function Added(b: Block, ends: bool, opcode: bool, hasLCP: bool): Block {
    Block(b.ending + AsNat(ends), b.crossing + AsNat(opcode && !ends), b.prefixed + AsNat(opcode && hasLCP))
  }

  lemma CountOneAt(bs: seq<Block>, endBlock: int, opcodeBlock: int, hasLCP: bool, b: nat)
    requires b < |bs|
    ensures |CountOne(bs, endBlock, opcodeBlock, hasLCP)| == |bs|
    ensures CountOne(bs, endBlock, opcodeBlock, hasLCP)[b] == Added(bs[b], endBlock == b, opcodeBlock == b, hasLCP)
  {}

  lemma BlockGrows(code: seq<Code>, base: int, b: nat, n: nat)
    requires code != []
    ensures BlockAt(code, base, b, n + 1) ==
            Added(BlockAt(code, base, b, n), EndBlock(code, base, n) == b, OpcodeBlock(code, base, n) == b,
                  code[n % |code|].hasLCP)
  {
    hide LastByte, OpcodeBlock;
  }

  lemma CountsOne(code: seq<Code>, base: int, blocks: nat, n: nat)
    requires code != []
    ensures CountOne(Blocks(code, base, blocks, n), EndBlock(code, base, n), OpcodeBlock(code, base, n),
                     code[n % |code|].hasLCP) == Blocks(code, base, blocks, n + 1)
  {
    hide EndBlock, OpcodeBlock, BlockAt, CountOne;
    var now, next := Blocks(code, base, blocks, n), Blocks(code, base, blocks, n + 1);
    var counted := CountOne(now, EndBlock(code, base, n), OpcodeBlock(code, base, n), code[n % |code|].hasLCP);
    if blocks == 0 {
      NoBlocks(EndBlock(code, base, n), OpcodeBlock(code, base, n), code[n % |code|].hasLCP);
    } else {
      CountOneAt(now, EndBlock(code, base, n), OpcodeBlock(code, base, n), code[n % |code|].hasLCP, 0);
    }
    forall b: nat | b < blocks
      ensures counted[b] == next[b]
    {
      CountOneAt(now, EndBlock(code, base, n), OpcodeBlock(code, base, n), code[n % |code|].hasLCP, b);
      BlockGrows(code, base, b, n);
    }
  }

  lemma NoBlocks(endBlock: int, opcodeBlock: int, hasLCP: bool)
    ensures CountOne([], endBlock, opcodeBlock, hasLCP) == []
  {}

  lemma NoneCounted(code: seq<Code>, base: int, blocks: nat)
    requires code != []
    ensures Blocks(code, base, blocks, 0) == seq(blocks, _ => Block(0, 0, 0))
  {}

  lemma NextIndex(n: nat, m: nat)
    requires m > 0
    ensures (n + 1) % m == if n % m + 1 == m then 0 else n % m + 1
  {
    var r := n % m;
    assert n == (n / m) * m + r;
    if r + 1 == m {
      assert n + 1 - 0 == (n / m + 1) * m;
      RemainderFromDifference(n + 1, 0, n / m + 1, m);
      SmallRemainder(0, m);
    } else {
      RemainderFromDifference(n + 1, r + 1, n / m, m);
      SmallRemainder(r + 1, m);
    }
  }

  /** Counts the instances by blocks. */
  method CountBlocks(code: seq<Code>, base: int, end: nat, blocks: nat) returns (bs: seq<Block>, ghost n: nat)
    requires code != [] && WellSized(code) && base <= 0
    ensures Looked(code, base, end, n) && bs == Blocks(code, base, blocks, n)
  {
    hide Crossing, Prefixed, Ending, CountOne;
    bs := seq(blocks, _ => Block(0, 0, 0));
    NoneCounted(code, base, blocks);
    var curAddr, i := base, 0;
    n := 0;
    while curAddr < end
      invariant i == n % |code| && curAddr == Address(code, base, n)
      invariant bs == Blocks(code, base, blocks, n) && (n > 0 ==> Address(code, base, n - 1) < end)
      decreases end - curAddr
    {
      var d := code[i];
      assert d in code;
      var nextAddr := curAddr + d.length;
      var endBlock, nominalOpcodeBlock := (nextAddr - 1) / 16, (curAddr + d.posNominalOpcode) / 16;
      CountsOne(code, base, blocks, n);
      bs := CountOne(bs, endBlock, nominalOpcodeBlock, d.hasLCP);
      NextIndex(n, |code|);
      curAddr := nextAddr;
      i := if i + 1 == |code| then 0 else i + 1;
      n := n + 1;
    }
  }

  /** Where the code, possibly unrolled, ends. */
  function EndOf(code: seq<Code>, loop: bool): nat {
    Product(UnrollOf(code, loop), Length(code))
  }

  function BlocksFor(code: seq<Code>, loop: bool): nat {
    (EndOf(code, loop) + 15) / 16
  }

  /** The bound in terms of the counts. */
  function LimitOf(code: seq<Code>, loop: bool, alignmentOffset: nat, n: nat): real
    requires code != []
  {
    var blocks := BlocksFor(code, loop);
    Cycles(Blocks(code, BaseOf(alignmentOffset), blocks, n), blocks) as real / UnrollOf(code, loop) as real
  }

  /** A block a cycle, and five instructions a cycle. */
  predicate AboveSimple(code: seq<Code>, limit: real) {
    limit >= SimpleLimit(code) && limit >= |code| as real / 5.0
  }

  /** Unrolled, the bound is at least a block and at least five instructions a cycle, whatever the alignment. */
  lemma AtLeastSimple(code: seq<Code>, alignmentOffset: nat, n: nat)
    requires code != [] && WellSized(code)
    requires Looked(code, BaseOf(alignmentOffset), EndOf(code, false), n)
    ensures AboveSimple(code, LimitOf(code, false, alignmentOffset, n))
  {
    hide Cycles, Blocks, Address, BaseOf, SumEnding, Length, UnrollOf, WellSized;
    var u, base, blocks := UnrollOf(code, false), BaseOf(alignmentOffset), BlocksFor(code, false);
    UnrolledFills(code);
    NotAfterZero(alignmentOffset);
    UnrolledCycles(code, base, u, blocks, n);
    Quotient(Cycles(Blocks(code, base, blocks, n), blocks), blocks, u, Length(code), |code|);
  }

  lemma NotAfterZero(alignmentOffset: nat)
    ensures BaseOf(alignmentOffset) <= 0
  {}

  lemma UnrolledFills(code: seq<Code>)
    ensures Product(UnrollOf(code, false), Length(code)) == 16 * BlocksFor(code, false)
  {
    UnrolledIsAligned(Length(code));
    hide Length, Gcd;
    WholeBlocks(UnrollOf(code, false) * Length(code), Length(code) / Gcd(Length(code), 16));
  }

  lemma WholeBlocks(n: nat, m: nat)
    requires n == 16 * m
    ensures (n + 15) / 16 == m
  {}

  lemma Quotient(cycles: nat, blocks: nat, u: nat, length: nat, n: nat)
    requires u > 0 && Product(u, length) == 16 * blocks && cycles >= blocks && 5 * cycles >= Product(u, n)
    ensures cycles as real / u as real >= length as real / 16.0
    ensures cycles as real / u as real >= n as real / 5.0
  {
    AtLeastQuotient(cycles, u, length, 16);
    AtLeastQuotient(cycles, u, n, 5);
  }

  lemma AtLeastQuotient(cycles: nat, u: nat, x: nat, d: nat)
    requires u > 0 && d > 0 && d * cycles >= u * x
    ensures cycles as real / u as real >= x as real / d as real
  {
    var c, v, y, e := cycles as real, u as real, x as real, d as real;
    assert e * c >= v * y;
    var q := c / v;
    assert q * v == c;
    Cancels(q, v, y, e);
  }

  lemma Cancels(q: real, v: real, y: real, e: real)
    requires v > 0.0 && e > 0.0 && e * (q * v) >= v * y
    ensures q >= y / e
  {
    var z := y / e;
    assert z * e == y;
    if q < z {
      assert (z - q) * (v * e) > 0.0;
    }
  }

  lemma NoCode()
    ensures AboveSimple([], 0.0)
  {}

  lemma IsLimit(code: seq<Code>, loop: bool, alignmentOffset: nat, n: nat, bs: seq<Block>, cycles: nat)
    requires code != [] && bs == Blocks(code, BaseOf(alignmentOffset), BlocksFor(code, loop), n)
    requires cycles == Cycles(bs, |bs|)
    ensures LimitOf(code, loop, alignmentOffset, n) == cycles as real / UnrollOf(code, loop) as real
  {}

  /** The bound, and the number of instances that it looked at. */
  method ComputePredecLimit(code: seq<Code>, loop: bool, alignmentOffset: nat) returns (limit: real, ghost n: nat)
    requires WellSized(code)
    ensures code == [] ==> limit == 0.0
    ensures code != [] ==>
              && Looked(code, BaseOf(alignmentOffset), EndOf(code, loop), n)
              && limit == LimitOf(code, loop, alignmentOffset, n)
    ensures !loop ==> AboveSimple(code, limit)
  {
    if code == [] {
      NoCode();
      return 0.0, 0;
    }
    hide Blocks, Looked, UnrollOf, Cycles, Penalty, Predecoding, Length, WellSized, Product, BaseOf, EndOf, BlocksFor, LimitOf;
    var unroll := UnrollOf(code, loop);
    ghost var base := BaseOf(alignmentOffset);
    NotAfterZero(alignmentOffset);
    var blocks := BlocksFor(code, loop);
    var bs;
    bs, n := CountBlocks(code, BaseOf(alignmentOffset), EndOf(code, loop), blocks);
    var cycles := SumCycles(bs);
    limit := cycles as real / unroll as real;
    IsLimit(code, loop, alignmentOffset, n, bs, cycles);
    if !loop {
      AtLeastSimple(code, alignmentOffset, n);
    }
  }

  method SumCycles(bs: seq<Block>) returns (cycles: nat)
    ensures cycles == Cycles(bs, |bs|)
  {
    cycles := 0;
    for bi := 0 to |bs|
      invariant cycles == Cycles(bs, bi)
    {
      cycles := cycles + Predecoding(bs[bi]);
      cycles := cycles + Penalty(bs[bi], bs[if bi == 0 then |bs| - 1 else bi - 1]);
    }
  }
}

/** The instances of an unrolled loop body, generated cache line by cache line and split into 16-byte blocks. */
module CacheBlocks {
  import opened Wrappers
  import opened Sequences
  import opened Arithmetic
  import opened Decoder
  import opened Predecoder

  /** Instance `k` of the body, at its address, without regard to when it is generated. */
  function Instance(body: seq<InstrInstance>, offset: nat, k: nat): InstrInstance
    requires body != []
  {
    body[k % |body|].(idx := k, address := AddressOf(body, offset, k), predecoded := None)
  }

  function AddressOf(body: seq<InstrInstance>, offset: nat, k: nat): nat
    requires body != []
  {
    if k == 0 then offset else AddressOf(body, offset, k - 1) + body[(k - 1) % |body|].size
  }

  /** The program order of the unrolled code from instance `a` up to `b`. */
  function Program(body: seq<InstrInstance>, offset: nat, a: nat, b: nat): seq<InstrInstance>
    requires body != []
    decreases b
  {
    if b <= a then [] else Program(body, offset, a, b - 1) + [Instance(body, offset, b - 1)]
  }

  lemma {:induction false} ProgramSplit(body: seq<InstrInstance>, offset: nat, a: nat, b: nat, c: nat)
    requires body != [] && a <= b <= c
    ensures Program(body, offset, a, c) == Program(body, offset, a, b) + Program(body, offset, b, c)
    decreases c
  {
    hide Instance, AddressOf;
    if b < c {
      ProgramSplit(body, offset, a, b, c - 1);
      var front, middle, last := Program(body, offset, a, b), Program(body, offset, b, c - 1), Instance(body, offset, c - 1);
      assert front + middle + [last] == front + (middle + [last]);
    } else {
      assert Program(body, offset, b, c) == [];
    }
  }

  /** All instances of a block start in one line of a size, at increasing addresses. */
  ghost predicate InLine(block: seq<InstrInstance>, size: nat)
    requires size > 0
  {
    forall i, j :: 0 <= i < j < |block| ==>
      block[i].address <= block[j].address && block[i].address / size == block[j].address / size
  }

  ghost predicate OneLine(block: seq<InstrInstance>) {
    InLine(block, 64)
  }

  lemma OneLineSnoc(block: seq<InstrInstance>, i: InstrInstance)
    requires OneLine(block)
    requires block != [] ==> && block[|block| - 1].address <= i.address
                             && block[|block| - 1].address / 64 == i.address / 64
    ensures OneLine(block + [i])
  {
    var after, last := block + [i], |block| - 1;
    forall j, k | 0 <= j < k < |after|
      ensures after[j].address <= after[k].address && after[j].address / 64 == after[k].address / 64
    {
      if k == |block| {
        assert j < last ==> block[j].address <= block[last].address;
        assert j < last ==> block[j].address / 64 == block[last].address / 64;
      }
    }
  }

  class CacheBlockGenerator {
    const instructions: seq<InstrInstance>
    const alignmentOffset: nat
    var nextAddr: nat
    var rnd: nat
    var idxInInstrList: nat
    var nextInstanceIdx: nat

    constructor (instructions: seq<InstrInstance>, alignmentOffset: nat)
      requires instructions != [] && forall i :: i in instructions ==> i.size > 0
      ensures this.instructions == instructions && this.alignmentOffset == alignmentOffset && nextInstanceIdx == 0 && Valid()
    {
      this.instructions, this.alignmentOffset := instructions, alignmentOffset;
      nextAddr, rnd, idxInInstrList, nextInstanceIdx := alignmentOffset, 0, 0, 0;
    }

    ghost predicate Valid()
      reads this
    {
      && instructions != [] && (forall i :: i in instructions ==> i.size > 0)
      && nextAddr == AddressOf(instructions, alignmentOffset, nextInstanceIdx)
      && idxInInstrList <= |instructions|
      && nextInstanceIdx == rnd * |instructions| + idxInInstrList
    }

    /** The next instance and its address. */
    method Generate() returns (i: InstrInstance)
      requires Valid()
      modifies this
      ensures Valid() && nextInstanceIdx == old(nextInstanceIdx) + 1
      ensures i == Instance(instructions, alignmentOffset, old(nextInstanceIdx))
      ensures nextAddr == i.address + i.size && i.size > 0
    {
      if idxInInstrList >= |instructions| {
        idxInInstrList := 0;
        rnd := rnd + 1;
      }
      BodyIndex(rnd, idxInInstrList, |instructions|, nextInstanceIdx);
      i := instructions[idxInInstrList].(idx := nextInstanceIdx, address := nextAddr, predecoded := None);
      assert instructions[idxInInstrList] in instructions;
      idxInInstrList := idxInInstrList + 1;
      nextAddr := nextAddr + i.size;
      nextInstanceIdx := nextInstanceIdx + 1;
    }

    /** The instances up to the end of the cache line in which the next one starts. */
    method Next() returns (block: seq<InstrInstance>)
      requires Valid()
      modifies this
      ensures Valid() && nextInstanceIdx > old(nextInstanceIdx) && OneLine(block)
      ensures block == Program(instructions, alignmentOffset, old(nextInstanceIdx), nextInstanceIdx)
      ensures block != [] && block[|block| - 1].address / 64 != nextAddr / 64
    {
      ghost var start := nextInstanceIdx;
      block := [];
      var done := false;
      while !done
        invariant Valid() && nextInstanceIdx >= start && OneLine(block)
        invariant block == Program(instructions, alignmentOffset, start, nextInstanceIdx)
        invariant done ==> nextInstanceIdx > start && block != [] && block[|block| - 1].address / 64 != nextAddr / 64
        invariant !done && block != [] ==> && block[|block| - 1].address <= nextAddr
                                           && block[|block| - 1].address / 64 == nextAddr / 64
        invariant block != [] ==> block[|block| - 1].address < nextAddr
        decreases if done then 0 else 1, 64 * (nextAddr / 64 + 1) - nextAddr
      {
        var i := Generate();
        OneLineSnoc(block, i);
        block := block + [i];
        done := i.address / 64 != nextAddr / 64;
      }
    }
  }

  lemma BodyIndex(rnd: nat, idx: nat, m: nat, k: nat)
    requires idx < m && k == rnd * m + idx
    ensures k % m == idx
  {
    RemainderFromDifference(k, idx, rnd, m);
    SmallRemainder(idx, m);
  }

  // Splitting a block

  predicate Within(i: InstrInstance, size: nat, from: nat, to: nat)
    requires size > 0
  {
    from <= i.address % size < to
  }

  /** The instances that start in a part of their line. */
  function Part(block: seq<InstrInstance>, size: nat, from: nat, to: nat): seq<InstrInstance>
    requires size > 0
  {
    if block == [] then []
    else
      var last := block[|block| - 1];
      Part(block[..|block| - 1], size, from, to) + if Within(last, size, from, to) then [last] else []
  }

  lemma OffsetsIncrease(a: nat, b: nat, size: nat)
    requires size > 0 && a <= b && a / size == b / size
    ensures a % size <= b % size
  {
    assert a == size * (a / size) + a % size && b == size * (b / size) + b % size;
  }

  lemma {:induction false} NothingBehind(block: seq<InstrInstance>, size: nat, limit: nat, from: nat, to: nat)
    requires size > 0 && limit <= from && forall k :: 0 <= k < |block| ==> block[k].address % size < limit
    ensures Part(block, size, from, to) == []
  {
    if block != [] {
      NothingBehind(block[..|block| - 1], size, limit, from, to);
    }
  }

  /** Two adjacent parts of a line are the joint part, in order. */
  lemma {:induction false} PartsJoin(block: seq<InstrInstance>, size: nat, from: nat, mid: nat, to: nat)
    requires size > 0 && InLine(block, size) && from <= mid <= to
    ensures Part(block, size, from, mid) + Part(block, size, mid, to) == Part(block, size, from, to)
  {
    if block != [] {
      var front, last := block[..|block| - 1], block[|block| - 1];
      PartsJoin(front, size, from, mid, to);
      if last.address % size < mid {
        forall k | 0 <= k < |front|
          ensures front[k].address % size < mid
        {
          assert block[k].address <= block[|block| - 1].address;
          OffsetsIncrease(front[k].address, last.address, size);
        }
        NothingBehind(front, size, mid, mid, to);
      }
    }
  }

  lemma {:induction false} WholeLine(block: seq<InstrInstance>, size: nat)
    requires size > 0
    ensures Part(block, size, 0, size) == block
  {
    if block != [] {
      WholeLine(block[..|block| - 1], size);
    }
  }

  /** The parts of a block, each `width` bytes wide. */
  function Parts(block: seq<InstrInstance>, size: nat, width: nat, n: nat): (r: seq<seq<InstrInstance>>)
    requires size > 0
    ensures |r| == n && forall b :: 0 <= b < n ==> r[b] == Part(block, size, b * width, (b + 1) * width)
  {
    seq(n, b requires 0 <= b < n => Part(block, size, b * width, (b + 1) * width))
  }

  /** Distributes the instances of a block over its parts (`split_64byte_block_to_16byte_blocks` and the like). */
  method Split(block: seq<InstrInstance>, size: nat, width: nat, n: nat) returns (parts: seq<seq<InstrInstance>>)
    requires width > 0 && size == width * n && size > 0
    ensures parts == Parts(block, size, width, n)
  {
    hide Within;
    parts := seq(n, _ => []);
    for k := 0 to |block|
      invariant |parts| == n
      invariant forall b :: 0 <= b < n ==> parts[b] == Part(block[..k], size, b * width, (b + 1) * width)
    {
      var i := block[k];
      var b := (i.address % size) / width;
      PartIndex(i, size, width, n);
      assert block[..k + 1][..k] == block[..k];
      parts := parts[b := parts[b] + [i]];
    }
    assert block[..|block|] == block;
  }

  lemma PartIndex(i: InstrInstance, size: nat, width: nat, n: nat)
    requires width > 0 && size == width * n && size > 0
    ensures var b := (i.address % size) / width;
            b < n && forall a :: 0 <= a < n ==> (Within(i, size, a * width, (a + 1) * width) <==> a == b)
  {
    var r := i.address % size;
    var b := r / width;
    assert r == width * b + r % width;
    InPart(r, width, b, n);
  }

  lemma InPart(r: nat, width: nat, b: nat, n: nat)
    requires width > 0 && width * b <= r < width * b + width && r < width * n
    ensures b < n && forall a :: 0 <= a < n ==> (a * width <= r < (a + 1) * width <==> a == b)
  {
    if b >= n {
      ProductMonotone(n, b, width);
    }
    forall a | 0 <= a < n
      ensures a * width <= r < (a + 1) * width <==> a == b
    {
      if a < b {
        ProductMonotone(a + 1, b, width);
      } else if a > b {
        ProductMonotone(b + 1, a, width);
      }
    }
  }

  lemma {:induction false} PartsFlat(block: seq<InstrInstance>, size: nat, width: nat, n: nat)
    requires size > 0 && InLine(block, size)
    ensures Flat(Parts(block, size, width, n)) == Part(block, size, 0, n * width)
  {
    hide Part;
    if n == 0 {
      NothingThere(block, size);
    } else {
      var front := Parts(block, size, width, n - 1);
      PartsFlat(block, size, width, n - 1);
      assert Parts(block, size, width, n) == front + [Part(block, size, (n - 1) * width, n * width)];
      FlatConcat(front, [Part(block, size, (n - 1) * width, n * width)]);
      assert (n - 1) * width + width == n * width;
      PartsJoin(block, size, 0, (n - 1) * width, n * width);
    }
  }

  lemma {:induction false} NothingThere(block: seq<InstrInstance>, size: nat)
    requires size > 0
    ensures Part(block, size, 0, 0) == []
  {
    if block != [] {
      NothingThere(block[..|block| - 1], size);
    }
  }

  /** Splitting a block in one line keeps its instances in order. */
  lemma SplitKeepsOrder(block: seq<InstrInstance>, size: nat, width: nat, n: nat)
    requires size > 0 && size == width * n && InLine(block, size)
    ensures Flat(Parts(block, size, width, n)) == block
  {
    hide Part, Parts, InLine;
    PartsFlat(block, size, width, n);
    WholeLine(block, size);
  }

  /** The instances of a part are instances of the block, in order. */
  lemma {:induction false} PartInLine(block: seq<InstrInstance>, size: nat, from: nat, to: nat)
    requires size > 0 && InLine(block, size)
    ensures InLine(Part(block, size, from, to), size)
    ensures forall k :: 0 <= k < |Part(block, size, from, to)| ==>
              var i := Part(block, size, from, to)[k];
              && Within(i, size, from, to) && i.address <= block[|block| - 1].address
              && i.address / size == block[|block| - 1].address / size
  {
    if |block| > 1 {
      PartInLine(block[..|block| - 1], size, from, to);
      assert block[|block| - 2].address <= block[|block| - 1].address;
    }
  }

  /** The instances of half a line are in one line of half the size. */
  lemma HalfInLine(block: seq<InstrInstance>, b: nat)
    requires InLine(block, 64) && b < 2
    ensures InLine(Part(block, 64, b * 32, (b + 1) * 32), 32)
  {
    hide Part, Within;
    PartInLine(block, 64, b * 32, (b + 1) * 32);
    var part := Part(block, 64, b * 32, (b + 1) * 32);
    forall i, j | 0 <= i < j < |part|
      ensures part[i].address <= part[j].address && part[i].address / 32 == part[j].address / 32
    {
      HalfLine(part[i], b);
      HalfLine(part[j], b);
    }
  }

  lemma HalfLine(i: InstrInstance, b: nat)
    requires b < 2 && Within(i, 64, b * 32, (b + 1) * 32)
    ensures i.address / 32 == 2 * (i.address / 64) + b
  {}
}

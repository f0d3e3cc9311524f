/** The predecoder (`PreDecoder::cycle`): it takes instructions from 16-byte blocks to the instruction queue, in order. */
module Predecoder {
  import opened Wrappers
  import opened Sequences
  import opened Decoder

  datatype Config = Config(predecodeWidth: nat, predecodeBlockSize: nat, iqWidth: nat)

  /** An instance without the cycle of its predecoding. */
  function Bare(i: InstrInstance): InstrInstance {
    i.(predecoded := None)
  }

  function BareAll(q: seq<InstrInstance>): (r: seq<InstrInstance>)
    ensures |r| == |q| && forall i :: 0 <= i < |q| ==> r[i] == Bare(q[i])
  {
    seq(|q|, i requires 0 <= i < |q| => Bare(q[i]))
  }

  lemma BareConcat(a: seq<InstrInstance>, b: seq<InstrInstance>)
    ensures BareAll(a + b) == BareAll(a) + BareAll(b)
  {}

  function AsSeq(o: Option<InstrInstance>): seq<InstrInstance> {
    if o.Some? then [o.value] else []
  }

  predicate CrossesBoundary(i: InstrInstance, blockSize: nat)
    requires blockSize > 0
  {
    i.address % blockSize + i.size > blockSize
  }

  function LcpStalls(q: seq<InstrInstance>): nat {
    if q == [] then 0 else LcpStalls(q[..|q| - 1]) + if q[|q| - 1].lcpStall then 1 else 0
  }

  /** How many instructions at the front of a block can be predecoded with `room` left. */
  function Whole(block: seq<InstrInstance>, blockSize: nat, room: nat): (n: nat)
    requires blockSize > 0
    ensures n <= room && n <= |block|
    ensures forall i :: 0 <= i < n ==> !CrossesBoundary(block[i], blockSize)
    ensures n < room && n < |block| ==> CrossesBoundary(block[n], blockSize)
  {
    if room == 0 || block == [] || CrossesBoundary(block[0], blockSize) then 0
    else 1 + Whole(block[1..], blockSize, room - 1)
  }

  function Minus(a: nat, b: nat): nat {
    if a < b then 0 else a - b
  }

  /** What the predecoder holds. */
  datatype Stage = Stage(blocks: seq<seq<InstrInstance>>, curBlock: seq<InstrInstance>, nonStalledCycles: nat,
                         queue: seq<InstrInstance>, stalled: nat, partialInstrI: Option<InstrInstance>)

  /** The next block is begun when the current one is used up; its length-changing prefixes stall the predecoder, except
      for the cycles that the previous block took. There must be enough 16-byte blocks. */
  function WithBlock(s: Stage, c: Config): Option<Stage>
    requires c.predecodeBlockSize >= 16
  {
    var n := c.predecodeBlockSize / 16;
    if s.curBlock != [] then Some(s)
    else if |s.blocks| < n then None
    else
      var block := Flat(s.blocks[..n]);
      Some(s.(blocks := s.blocks[n..], curBlock := block, nonStalledCycles := 0,
              stalled := Minus(3 * LcpStalls(block), Minus(s.nonStalledCycles, 1))))
  }

  /** The last instruction of a block is set aside if it ends in the next block, unless the predecode queue is full and
      its opcode still lies in this one. */
  predicate SetsAside(s: Stage, c: Config)
    requires c.predecodeBlockSize >= 16
  {
    && |s.curBlock| == 1 && CrossesBoundary(s.curBlock[0], c.predecodeBlockSize)
    && (|s.queue| < c.predecodeWidth || s.curBlock[0].address % 16 + s.curBlock[0].posNominalOpcode >= 16)
  }

  /** The predecode queue takes what ends in the current block. */
  function TakenIn(s: Stage, c: Config): Stage
    requires c.predecodeBlockSize >= 16 && |s.queue| <= c.predecodeWidth
  {
    var n := Whole(s.curBlock, c.predecodeBlockSize, c.predecodeWidth - |s.queue|);
    var t := s.(queue := s.queue + s.curBlock[..n], curBlock := s.curBlock[n..]);
    if SetsAside(t, c) then t.(partialInstrI := Some(t.curBlock[0]), curBlock := []) else t
  }

  /** The stage after filling the predecode queue, which fails if a block is missing. */
  function Filled(s: Stage, c: Config): (Stage, bool)
    requires c.predecodeBlockSize >= 16 && c.predecodeWidth > 0
  {
    var begun := s.(queue := AsSeq(s.partialInstrI), partialInstrI := None);
    match WithBlock(begun, c)
    case None => (begun, false)
    case Some(loaded) => var t := TakenIn(loaded, c); (t.(nonStalledCycles := t.nonStalledCycles + 1), true)
  }

  /** The predecode queue is filled when it is empty, there is something to fill it with, and the instruction queue has
      room for a full one. */
  predicate Fills(s: Stage, c: Config, queued: nat) {
    && s.queue == [] && (s.partialInstrI.Some? || s.blocks != []) && queued + c.predecodeWidth <= c.iqWidth
  }

  /** What a cycle does, and the instructions that it releases. */
  function Cycled(s: Stage, c: Config, queued: nat): (Stage, seq<InstrInstance>)
    requires c.predecodeBlockSize >= 16 && c.predecodeWidth > 0
  {
    var (t, ok) := if s.stalled == 0 && Fills(s, c, queued) then Filled(s, c) else (s, true);
    if !ok then (t, [])
    else if t.stalled > 0 then (t.(stalled := t.stalled - 1), [])
    else (t.(queue := []), t.queue)
  }

  class PreDecoder {
    const c: Config
    const decoders: Decoders
    var b16BlockQueue: seq<seq<InstrInstance>>
    var curBlock: seq<InstrInstance>
    var nonStalledPredecCyclesForCurBlock: nat
    var preDecQueue: seq<InstrInstance>
    var stalled: nat
    var partialInstrI: Option<InstrInstance>

    constructor (c: Config, decoders: Decoders)
      requires decoders.instructionQueue == []
      ensures this.c == c && this.decoders == decoders && Valid() && Pending() == []
      ensures b16BlockQueue == []
    {
      this.c, this.decoders := c, decoders;
      b16BlockQueue, curBlock, preDecQueue := [], [], [];
      nonStalledPredecCyclesForCurBlock, stalled, partialInstrI := 0, 0, None;
    }

    ghost function AsStage(): Stage
      reads this
    {
      Stage(b16BlockQueue, curBlock, nonStalledPredecCyclesForCurBlock, preDecQueue, stalled, partialInstrI)
    }

    /** The instructions that have not reached the instruction queue, in order. */
    ghost function Buffered(): seq<InstrInstance>
      reads this
    {
      preDecQueue + (AsSeq(partialInstrI) + (curBlock + Flat(b16BlockQueue)))
    }

    /** All instructions between the blocks and the decoders, in order. */
    ghost function Pending(): seq<InstrInstance>
      reads this, decoders
    {
      BareAll(decoders.instructionQueue) + BareAll(Buffered())
    }

    /** The instruction queue has room for the instructions that are being predecoded. */
    ghost predicate Valid()
      reads this, decoders
    {
      && (partialInstrI.Some? ==> curBlock == [])
      && |preDecQueue| <= c.predecodeWidth
      && |decoders.instructionQueue| + |preDecQueue| <= c.iqWidth
    }

    predicate CanFill()
      reads this, decoders
    {
      && preDecQueue == [] && (partialInstrI.Some? || b16BlockQueue != [])
      && |decoders.instructionQueue| + c.predecodeWidth <= c.iqWidth
    }

    /** Loads the next block, if enough 16-byte blocks are there. */
    method LoadBlock() returns (ok: bool)
      requires curBlock == [] && c.predecodeBlockSize >= 16 && stalled == 0
      modifies `b16BlockQueue, `curBlock, `stalled, `nonStalledPredecCyclesForCurBlock
      ensures ok <==> |old(b16BlockQueue)| >= c.predecodeBlockSize / 16
      ensures curBlock + Flat(b16BlockQueue) == old(curBlock + Flat(b16BlockQueue))
      ensures WithBlock(old(AsStage()), c) == if ok then Some(AsStage()) else None
      ensures !ok ==> AsStage() == old(AsStage())
    {
      var n := c.predecodeBlockSize / 16;
      ok := |b16BlockQueue| >= n;
      if ok {
        assert b16BlockQueue == b16BlockQueue[..n] + b16BlockQueue[n..];
        FlatConcat(b16BlockQueue[..n], b16BlockQueue[n..]);
        curBlock := Flat(b16BlockQueue[..n]);
        b16BlockQueue := b16BlockQueue[n..];
        stalled := Minus(3 * LcpStalls(curBlock), Minus(nonStalledPredecCyclesForCurBlock, 1));
        nonStalledPredecCyclesForCurBlock := 0;
      }
    }

    /** Takes the instructions at the front of the current block that end in it. */
    method TakeWhole()
      requires c.predecodeBlockSize >= 16 && |preDecQueue| <= c.predecodeWidth
      modifies `curBlock, `preDecQueue
      ensures var n := Whole(old(curBlock), c.predecodeBlockSize, c.predecodeWidth - |old(preDecQueue)|);
              preDecQueue == old(preDecQueue) + old(curBlock)[..n] && curBlock == old(curBlock)[n..]
    {
      hide CrossesBoundary;
      ghost var block0, queue0 := curBlock, preDecQueue;
      ghost var taken := 0;
      while curBlock != [] && |preDecQueue| < c.predecodeWidth
        invariant taken <= |block0| && curBlock == block0[taken..] && preDecQueue == queue0 + block0[..taken]
        invariant |preDecQueue| <= c.predecodeWidth
        invariant Whole(block0, c.predecodeBlockSize, c.predecodeWidth - |queue0|) ==
                  taken + Whole(curBlock, c.predecodeBlockSize, c.predecodeWidth - |preDecQueue|)
        decreases |curBlock|
      {
        if CrossesBoundary(curBlock[0], c.predecodeBlockSize) {
          break;
        }
        assert block0[..taken + 1] == block0[..taken] + [curBlock[0]];
        preDecQueue := preDecQueue + [curBlock[0]];
        curBlock := curBlock[1..];
        taken := taken + 1;
      }
    }

    /** The last instruction of a block is set aside if it ends in the next block. */
    method SetPartialAside()
      requires c.predecodeBlockSize >= 16 && partialInstrI == None
      modifies `curBlock, `partialInstrI
      ensures AsSeq(partialInstrI) + curBlock == old(curBlock) && (partialInstrI.Some? ==> curBlock == [])
      ensures partialInstrI.Some? <==>
                && |old(curBlock)| == 1 && CrossesBoundary(old(curBlock)[0], c.predecodeBlockSize)
                && (|preDecQueue| < c.predecodeWidth ||
                    old(curBlock)[0].address % 16 + old(curBlock)[0].posNominalOpcode >= 16)
    {
      hide CrossesBoundary;
      if |curBlock| == 1 && CrossesBoundary(curBlock[0], c.predecodeBlockSize) {
        if |preDecQueue| < c.predecodeWidth || curBlock[0].address % 16 + curBlock[0].posNominalOpcode >= 16 {
          partialInstrI, curBlock := Some(curBlock[0]), [];
        }
      }
    }

    /** The predecoded instructions enter the instruction queue. */
    method Release(clock: nat)
      modifies `preDecQueue, decoders
      ensures decoders.instructionQueue == old(decoders.instructionQueue) + Stamped(old(preDecQueue), clock)
      ensures preDecQueue == []
    {
      ghost var iq0, all := decoders.instructionQueue, Stamped(preDecQueue, clock);
      for k := 0 to |preDecQueue|
        invariant decoders.instructionQueue == iq0 + all[..k] && preDecQueue == old(preDecQueue)
      {
        assert all[..k + 1] == all[..k] + [all[k]];
        decoders.instructionQueue := decoders.instructionQueue + [preDecQueue[k].(predecoded := Some(clock))];
      }
      assert all[..|all|] == all;
      preDecQueue := [];
    }

    method TakePartial()
      requires preDecQueue == [] && c.predecodeWidth > 0 && (partialInstrI.Some? ==> curBlock == [])
      modifies `preDecQueue, `partialInstrI
      ensures Buffered() == old(Buffered()) && |preDecQueue| <= 1
      ensures AsStage() == old(AsStage()).(queue := AsSeq(old(partialInstrI)), partialInstrI := None)
    {
      hide Flat;
      if partialInstrI.Some? {
        preDecQueue, partialInstrI := [partialInstrI.value], None;
      }
    }

    method TakeFromBlock()
      requires c.predecodeBlockSize >= 16 && partialInstrI == None && |preDecQueue| <= c.predecodeWidth
      modifies `curBlock, `preDecQueue, `partialInstrI
      ensures Buffered() == old(Buffered()) && (partialInstrI.Some? ==> curBlock == [])
      ensures |preDecQueue| <= c.predecodeWidth && AsStage() == TakenIn(old(AsStage()), c)
    {
      hide Flat, CrossesBoundary, Whole;
      TakeWhole();
      SetPartialAside();
    }

    /** Fills the predecode queue from a partial instruction and the blocks. It fails if a block is missing. */
    method Fill() returns (ok: bool)
      requires Valid() && CanFill() && stalled == 0 && c.predecodeBlockSize >= 16 && c.predecodeWidth > 0
      modifies `b16BlockQueue, `curBlock, `stalled, `nonStalledPredecCyclesForCurBlock, `preDecQueue, `partialInstrI
      ensures Valid() && Buffered() == old(Buffered())
      ensures (AsStage(), ok) == Filled(old(AsStage()), c)
    {
      hide LcpStalls, Flat, Minus, TakenIn;
      TakePartial();
      ok := true;
      if curBlock == [] {
        ok := LoadBlock();
        if !ok {
          return;
        }
      }
      TakeFromBlock();
      nonStalledPredecCyclesForCurBlock := nonStalledPredecCyclesForCurBlock + 1;
    }

    /** One clock cycle. */
    method Cycle(clock: nat)
      requires Valid() && c.predecodeBlockSize >= 16 && c.predecodeWidth > 0
      modifies this, decoders
      ensures Valid() && Pending() == old(Pending())
      ensures var (stage, released) := Cycled(old(AsStage()), c, |old(decoders.instructionQueue)|);
              && AsStage() == stage
              && decoders.instructionQueue == old(decoders.instructionQueue) + Stamped(released, clock)
    {
      hide LcpStalls, Flat, Minus, Filled;
      if stalled == 0 {
        if CanFill() {
          var ok := Fill();
          if !ok {
            return;
          }
        }
        if stalled == 0 {
          ReleaseKeeps(decoders.instructionQueue, preDecQueue, AsSeq(partialInstrI) + (curBlock + Flat(b16BlockQueue)), clock);
          Release(clock);
        }
      }
      stalled := if stalled > 0 then stalled - 1 else 0;
    }
  }

  function Stamped(q: seq<InstrInstance>, clock: nat): (r: seq<InstrInstance>)
    ensures |r| == |q| && forall i :: 0 <= i < |q| ==> r[i] == q[i].(predecoded := Some(clock))
  {
    seq(|q|, i requires 0 <= i < |q| => q[i].(predecoded := Some(clock)))
  }

  /** What is released moves from the predecode queue to the end of the instruction queue. */
  lemma ReleaseKeeps(iq: seq<InstrInstance>, queue: seq<InstrInstance>, waiting: seq<InstrInstance>, clock: nat)
    ensures BareAll(iq + Stamped(queue, clock)) + BareAll([] + waiting) == BareAll(iq) + BareAll(queue + waiting)
  {
    BareConcat(queue, waiting);
    assert [] + waiting == waiting;
  }
}

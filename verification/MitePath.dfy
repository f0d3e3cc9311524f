/** The way of the uops of unrolled code from the instructions to the uop queue: predecoder, decoders and microcode
    sequencer (`FrontEnd.cycle`, `MicrocodeSequencer`). */
module MitePath {
  import opened Wrappers
  import opened Sequences
  import opened DecodeGroups
  import opened Decoder
  import opened Predecoder
  import opened CacheBlocks

  class MicrocodeSequencer {
    var uopQueue: seq<nat>
    var stalled: nat
    var postStall: nat
    const dsbMsStall: nat

    constructor (dsbMsStall: nat)
      ensures uopQueue == [] && stalled == 0
    {
      uopQueue, stalled, postStall, this.dsbMsStall := [], 0, 0, dsbMsStall;
    }

    predicate IsBusy()
      reads this
    {
      stalled > 0 || uopQueue != []
    }

    /** Up to four uops a cycle, unless stalled; when the queue runs empty the sequencer stalls for a while. */
    method Cycle() returns (uops: seq<nat>)
      modifies this
      ensures uops + uopQueue == old(uopQueue) && |uops| <= 4 && postStall == old(postStall)
      ensures old(stalled) > 0 ==> uops == [] && stalled == old(stalled) - 1
      ensures old(stalled) == 0 ==>
                && (|uops| == 4 || uopQueue == [])
                && stalled == if uops != [] && uopQueue == [] then old(postStall) else 0
    {
      uops := [];
      if stalled > 0 {
        stalled := stalled - 1;
      } else if uopQueue != [] {
        while uopQueue != [] && |uops| < 4
          invariant uops + uopQueue == old(uopQueue) && |uops| <= 4
          invariant stalled == 0 && postStall == old(postStall)
          decreases |uopQueue|
        {
          uops := uops + [uopQueue[0]];
          uopQueue := uopQueue[1..];
        }
        if uopQueue == [] {
          stalled := postStall;
        }
      }
    }

    method AddUops(uops: seq<nat>, fromMite: bool)
      modifies this
      ensures uopQueue == old(uopQueue) + uops
      ensures if fromMite then stalled == 1 && postStall == 1 else stalled == dsbMsStall && postStall == 0
    {
      uopQueue := uopQueue + uops;
      if fromMite {
        stalled, postStall := 1, 1;
      } else {
        stalled, postStall := dsbMsStall, 0;
      }
    }
  }

  // The uops of instructions

  /** The uops that an instance contributes: one that is fused with its predecessor has none of its own. */
  function UopsOf(i: InstrInstance): seq<nat> {
    if i.instr.macroFusedWithPrev then [] else i.uops
  }

  function Stream(ii: seq<InstrInstance>): seq<nat> {
    if ii == [] then [] else UopsOf(ii[0]) + Stream(ii[1..])
  }

  /** Uops that do not come from the decoders come from microcode. */
  predicate Complete(i: InstrInstance) {
    i.instr.macroFusedWithPrev || |i.uops| <= i.uopsMITE || i.instr.uopsMS > 0
  }

  predicate AllComplete(ii: seq<InstrInstance>) {
    forall i :: i in ii ==> Complete(i)
  }

  lemma {:induction false} StreamConcat(a: seq<InstrInstance>, b: seq<InstrInstance>)
    ensures Stream(a + b) == Stream(a) + Stream(b)
  {
    if a == [] {
      assert a + b == b;
    } else {
      assert (a + b)[1..] == a[1..] + b;
      StreamConcat(a[1..], b);
    }
  }

  lemma {:induction false} StreamBare(a: seq<InstrInstance>)
    ensures Stream(BareAll(a)) == Stream(a)
  {
    if a != [] {
      StreamBare(a[1..]);
      assert BareAll(a)[1..] == BareAll(a[1..]);
    }
  }

  /** Instances that are removed without being decoded have no uops. */
  lemma {:induction false} StreamDecoded(taken: seq<InstrInstance>)
    ensures Stream(Decoded(taken)) == Stream(taken)
  {
    if taken != [] {
      StreamDecoded(taken[1..]);
      DecodedFirst(taken);
      hide Decoded;
      if !taken[0].instr.macroFusedWithPrev {
        StreamFirst(taken[0], Decoded(taken[1..]));
      }
    }
  }

  lemma DecodedFirst(taken: seq<InstrInstance>)
    requires taken != []
    ensures Decoded(taken) ==
            if taken[0].instr.macroFusedWithPrev then Decoded(taken[1..]) else [taken[0]] + Decoded(taken[1..])
  {}

  lemma StreamFirst(i: InstrInstance, rest: seq<InstrInstance>)
    ensures Stream([i] + rest) == UopsOf(i) + Stream(rest)
  {
    assert ([i] + rest)[1..] == rest;
  }

  /** What a decoded instance gives to the uop queue at once, and what to the microcode sequencer. */
  function FromDecoder(i: InstrInstance): seq<nat> {
    if |i.uops| <= i.uopsMITE then i.uops else i.uops[..i.uopsMITE]
  }

  function FromMicrocode(i: InstrInstance): seq<nat> {
    if i.instr.uopsMS > 0 && |i.uops| > i.uopsMITE then i.uops[i.uopsMITE..] else []
  }

  /** What a decode group leaves to the microcode sequencer. */
  function LeftToMicrocode(decoded: seq<InstrInstance>): seq<nat> {
    if decoded == [] then [] else FromMicrocode(decoded[|decoded| - 1])
  }

  /** Only the last instance of a decode group needs microcode. */
  predicate OnlyLastMicrocoded(ii: seq<InstrInstance>) {
    forall k :: 0 <= k < |ii| - 1 ==> ii[k].instr.uopsMS == 0
  }

  lemma {:induction false} GroupMicrocode(queue: seq<InstrInstance>, clock: nat, c: DecodeGroups.Config, n: nat,
                                          remaining: nat)
    requires c.nDecoders > 0 && remaining > 0
    ensures OnlyLastMicrocoded(Decoded(queue[..Taken(queue, clock, c, n, remaining)]))
    ensures forall i :: i in Decoded(queue[..Taken(queue, clock, c, n, remaining)]) ==>
              i in queue && !i.instr.macroFusedWithPrev
    decreases |queue|
  {
    hide CanDecode;
    var t := Taken(queue, clock, c, n, remaining);
    if t > 0 {
      assert queue[..t][1..] == queue[1..][..t - 1] && queue[..t][0] == queue[0];
      var i := queue[0].instr;
      if i.macroFusedWithPrev {
        GroupMicrocode(queue[1..], clock, c, n, remaining);
      } else if i.uopsMS > 0 || SlotsAfter(i, remaining) == 0 || i.isBranch || i.macroFusedWithNext {
        assert queue[1..][..0] == [];
      } else {
        GroupMicrocode(queue[1..], clock, c, n + 1, SlotsAfter(i, remaining));
      }
    }
  }

  lemma {:induction false} BareComplete(ii: seq<InstrInstance>)
    ensures AllComplete(ii) <==> AllComplete(BareAll(ii))
  {
    if AllComplete(ii) {
      forall i | i in BareAll(ii)
        ensures Complete(i)
      {
        var k :| 0 <= k < |ii| && BareAll(ii)[k] == i;
        assert Complete(ii[k]);
      }
    }
    if AllComplete(BareAll(ii)) {
      forall i | i in ii
        ensures Complete(i)
      {
        var k :| 0 <= k < |ii| && ii[k] == i;
        assert Complete(BareAll(ii)[k]);
      }
    }
  }

  lemma {:induction false} CompleteProgram(body: seq<InstrInstance>, offset: nat, a: nat, b: nat)
    requires body != [] && AllComplete(body)
    ensures AllComplete(Program(body, offset, a, b))
    decreases b
  {
    if a < b {
      CompleteProgram(body, offset, a, b - 1);
      var base := body[(b - 1) % |body|];
      assert base in body && Complete(base);
      assert Complete(Instance(body, offset, b - 1));
    }
  }

  lemma CompleteConcat(a: seq<InstrInstance>, b: seq<InstrInstance>)
    ensures AllComplete(a + b) <==> AllComplete(a) && AllComplete(b)
  {
    hide Complete;
    if AllComplete(a + b) {
      forall i | i in a
        ensures Complete(i)
      {
        assert i in a + b;
      }
      forall i | i in b
        ensures Complete(i)
      {
        assert i in a + b;
      }
    }
  }

  lemma StreamDone(ii: seq<InstrInstance>, k: nat)
    requires k < |ii|
    ensures Stream(ii[..k + 1]) == Stream(ii[..k]) + UopsOf(ii[k])
  {
    assert ii[..k + 1] == ii[..k] + [ii[k]];
    StreamConcat(ii[..k], [ii[k]]);
    assert Stream([ii[k]]) == UopsOf(ii[k]) + Stream([]);
  }

  /** The front end while it decodes unrolled code. */
  class FrontEnd {
    const dsbBlockSize: nat
    const generator: CacheBlockGenerator
    const decoders: Decoders
    const preDecoder: PreDecoder
    const ms: MicrocodeSequencer
    ghost var appended: seq<nat>

    constructor (body: seq<InstrInstance>, offset: nat, dc: DecodeGroups.Config, pc: Predecoder.Config,
                 dsbBlockSize: nat, dsbMsStall: nat)
      requires body != [] && (forall i :: i in body ==> i.size > 0) && AllComplete(body) && dc.nDecoders > 0
      requires pc.predecodeBlockSize >= 16 && pc.predecodeWidth > 0 && (dsbBlockSize == 32 || dsbBlockSize == 64)
      ensures Valid() && appended == [] && generator.instructions == body && generator.alignmentOffset == offset
      ensures fresh(generator) && fresh(decoders) && fresh(preDecoder) && fresh(ms)
    {
      this.dsbBlockSize := dsbBlockSize;
      generator := new CacheBlockGenerator(body, offset);
      var d := new Decoders(dc);
      decoders := d;
      preDecoder := new PreDecoder(pc, d);
      ms := new MicrocodeSequencer(dsbMsStall);
      appended := [];
    }

    /** The instructions generated so far, in program order. */
    ghost function Generated(): seq<InstrInstance>
      requires generator.instructions != []
      reads this, generator
    {
      Program(generator.instructions, generator.alignmentOffset, 0, generator.nextInstanceIdx)
    }

    ghost predicate WellFormed()
      reads this, generator, decoders, preDecoder, ms
    {
      && preDecoder.decoders == decoders && preDecoder.Valid() && generator.Valid()
      && AllComplete(generator.instructions) && AllComplete(preDecoder.Pending())
      && decoders.c.nDecoders > 0 && preDecoder.c.predecodeBlockSize >= 16 && preDecoder.c.predecodeWidth > 0
      && (dsbBlockSize == 32 || dsbBlockSize == 64)
    }

    /** The uops appended so far, those queued in the microcode sequencer and those of the instructions on their way
        are the uops of the generated instructions, in program order. */
    ghost predicate Valid()
      reads this, generator, decoders, preDecoder, ms
    {
      && WellFormed()
      && appended + ms.uopQueue + Stream(preDecoder.Pending()) == Stream(Generated())
    }

    /** Queues the 16-byte blocks of a part of a cache line. An empty block follows a branch that ends in the next
        block. */
    method QueueBlocks(parts: seq<seq<InstrInstance>>)
      modifies preDecoder`b16BlockQueue
      ensures Flat(preDecoder.b16BlockQueue) == old(Flat(preDecoder.b16BlockQueue)) + Flat(parts)
      ensures old(preDecoder.b16BlockQueue) <= preDecoder.b16BlockQueue
      ensures Flat(parts) != [] ==> |preDecoder.b16BlockQueue| > |old(preDecoder.b16BlockQueue)|
    {
      hide Flat;
      ghost var q0 := preDecoder.b16BlockQueue;
      FlatEnds(q0, parts);
      for k := 0 to |parts|
        invariant Flat(preDecoder.b16BlockQueue) == Flat(q0) + Flat(parts[..k])
        invariant q0 <= preDecoder.b16BlockQueue && (Flat(parts[..k]) != [] ==> |preDecoder.b16BlockQueue| > |q0|)
      {
        var part := parts[k];
        FlatPrefix(parts, k);
        if part != [] {
          FlatSnoc(preDecoder.b16BlockQueue, part);
          preDecoder.b16BlockQueue := preDecoder.b16BlockQueue + [part];
          var last := part[|part| - 1];
          if last.instr.isBranch && last.address % 16 + last.size > 16 {
            FlatSnoc(preDecoder.b16BlockQueue, []);
            preDecoder.b16BlockQueue := preDecoder.b16BlockQueue + [[]];
          }
        }
      }
    }

    /** Queues the instances of a cache line. */
    method AddNewCacheBlock(block: seq<InstrInstance>)
      requires OneLine(block) && (dsbBlockSize == 32 || dsbBlockSize == 64)
      modifies preDecoder`b16BlockQueue
      ensures Flat(preDecoder.b16BlockQueue) == old(Flat(preDecoder.b16BlockQueue)) + block
      ensures old(preDecoder.b16BlockQueue) <= preDecoder.b16BlockQueue
      ensures block != [] ==> |preDecoder.b16BlockQueue| > |old(preDecoder.b16BlockQueue)|
    {
      hide InLine, Part, Flat;
      if dsbBlockSize == 32 {
        var halves := Split(block, 64, 32, 2);
        HalvesFlat(block, halves);
        HalfInLine(block, 0);
        HalfInLine(block, 1);
        var first := Split(halves[0], 32, 16, 2);
        SplitKeepsOrder(halves[0], 32, 16, 2);
        QueueBlocks(first);
        var second := Split(halves[1], 32, 16, 2);
        SplitKeepsOrder(halves[1], 32, 16, 2);
        QueueBlocks(second);
      } else {
        var parts := Split(block, 64, 16, 4);
        SplitKeepsOrder(block, 64, 16, 4);
        QueueBlocks(parts);
      }
    }

    /** Queues the instances of a cache line behind all that are still to be decoded. */
    method AddLine(block: seq<InstrInstance>)
      requires OneLine(block) && (dsbBlockSize == 32 || dsbBlockSize == 64)
      modifies preDecoder`b16BlockQueue
      ensures preDecoder.Pending() == old(preDecoder.Pending()) + BareAll(block)
      ensures old(preDecoder.b16BlockQueue) <= preDecoder.b16BlockQueue
      ensures block != [] ==> |preDecoder.b16BlockQueue| > |old(preDecoder.b16BlockQueue)|
    {
      hide Flat;
      ghost var queued, buffered := Flat(preDecoder.b16BlockQueue), preDecoder.Buffered();
      AddNewCacheBlock(block);
      JoinsBehind(preDecoder.preDecQueue, AsSeq(preDecoder.partialInstrI), preDecoder.curBlock, queued, block);
      BareConcat(buffered, block);
      JoinsPending(BareAll(preDecoder.decoders.instructionQueue), BareAll(buffered), BareAll(block));
    }

    /** Generates one more cache line. */
    method GenerateBlock()
      requires Valid()
      modifies generator, preDecoder`b16BlockQueue
      ensures Valid() && old(preDecoder.b16BlockQueue) <= preDecoder.b16BlockQueue
      ensures |preDecoder.b16BlockQueue| > |old(preDecoder.b16BlockQueue)|
    {
      hide Flat, Stream, Program, AllComplete, InLine, PreDecoder.Pending;
      ghost var n, before := generator.nextInstanceIdx, preDecoder.Pending();
      var block := generator.Next();
      AddLine(block);
      MoreGenerated(generator.instructions, generator.alignmentOffset, n, generator.nextInstanceIdx, before, block);
      Regroup(appended + ms.uopQueue, Stream(before), Stream(block));
    }

    /** Generates cache lines until four 16-byte blocks are queued. */
    method Refill()
      requires Valid()
      modifies generator, preDecoder`b16BlockQueue
      ensures Valid() && |preDecoder.b16BlockQueue| >= 4
      ensures old(preDecoder.b16BlockQueue) <= preDecoder.b16BlockQueue
      ensures |old(preDecoder.b16BlockQueue)| >= 4 ==> preDecoder.b16BlockQueue == old(preDecoder.b16BlockQueue)
    {
      hide Valid;
      while |preDecoder.b16BlockQueue| < 4
        invariant Valid() && old(preDecoder.b16BlockQueue) <= preDecoder.b16BlockQueue
        invariant |old(preDecoder.b16BlockQueue)| >= 4 ==> preDecoder.b16BlockQueue == old(preDecoder.b16BlockQueue)
        decreases 4 - |preDecoder.b16BlockQueue|
      {
        GenerateBlock();
      }
    }

    /** Hands out the uops of a decode group; those that come from microcode go to the sequencer. */
    method EmitGroup(decoded: seq<InstrInstance>) returns (newUops: seq<nat>)
      requires OnlyLastMicrocoded(decoded) && AllComplete(decoded) && ms.uopQueue == []
      requires forall i :: i in decoded ==> !i.instr.macroFusedWithPrev
      modifies ms
      ensures newUops + ms.uopQueue == Stream(decoded) && ms.uopQueue == LeftToMicrocode(decoded)
    {
      hide Stream, Complete, FromDecoder, FromMicrocode, UopsOf;
      newUops := [];
      StreamEnds(decoded);
      for k := 0 to |decoded|
        invariant newUops + ms.uopQueue == Stream(decoded[..k])
        invariant ms.uopQueue == LeftToMicrocode(decoded[..k]) && (ms.uopQueue != [] ==> k == |decoded|)
      {
        var i := decoded[k];
        assert i in decoded;
        StreamDone(decoded, k);
        SplitUops(i);
        assert newUops + [] == newUops;
        assert newUops + (FromDecoder(i) + FromMicrocode(i)) == newUops + FromDecoder(i) + FromMicrocode(i);
        newUops := newUops + FromDecoder(i);
        if i.instr.uopsMS > 0 {
          ms.AddUops(FromMicrocode(i), true);
        }
      }
    }

    /** Predecodes, and decodes one group from the front of the queue, `queue` being the instruction queue in between. */
    method DecodeGroup(clock: nat) returns (newUops: seq<nat>, ghost queue: seq<InstrInstance>)
      requires WellFormed() && ms.uopQueue == []
      modifies preDecoder, decoders, ms
      ensures WellFormed() && newUops + ms.uopQueue + Stream(preDecoder.Pending()) == Stream(old(preDecoder.Pending()))
      ensures Predecoded(old(preDecoder.AsStage()), old(decoders.instructionQueue), clock, queue)
      ensures GroupTaken(queue, clock, newUops)
    {
      hide Stream, AllComplete, Taken, Decoded, Flat, Complete;
      preDecoder.Cycle(clock);
      queue := decoders.instructionQueue;
      ghost var buffered := preDecoder.Buffered();
      ghost var k := Taken(queue, clock, decoders.c, 0, decoders.c.nDecoders);
      var decoded := decoders.Cycle(clock);
      GroupLeaves(queue, buffered, k);
      GroupOf(queue, clock, decoders.c, decoded);
      newUops := EmitGroup(decoded);
    }

    /** The instruction queue after predecoding. */
    ghost predicate Predecoded(before: Stage, iq: seq<InstrInstance>, clock: nat, queue: seq<InstrInstance>)
      reads preDecoder
      requires preDecoder.c.predecodeBlockSize >= 16 && preDecoder.c.predecodeWidth > 0
    {
      var (stage, released) := Cycled(before, preDecoder.c, |iq|);
      queue == iq + Stamped(released, clock) && preDecoder.AsStage() == stage
    }

    /** One decode group has been taken from the queue: its uops are new, apart from those left to microcode. */
    ghost predicate GroupTaken(queue: seq<InstrInstance>, clock: nat, newUops: seq<nat>)
      reads decoders, ms
      requires decoders.c.nDecoders > 0
    {
      var k := Taken(queue, clock, decoders.c, 0, decoders.c.nDecoders);
      var decoded := Decoded(queue[..k]);
      && decoders.instructionQueue == queue[k..]
      && newUops + ms.uopQueue == Stream(decoded) && ms.uopQueue == LeftToMicrocode(decoded)
    }

    method FromSequencer() returns (newUops: seq<nat>)
      requires Valid()
      modifies this, ms
      ensures Valid() && appended == old(appended) + newUops && appended <= Stream(Generated())
      ensures newUops + ms.uopQueue == old(ms.uopQueue)
      ensures if old(ms.stalled) > 0 then newUops == [] else |newUops| == 4 || ms.uopQueue == []
    {
      hide Stream, Program, AllComplete, Flat;
      ghost var waiting := ms.uopQueue;
      newUops := ms.Cycle();
      assert appended + newUops + ms.uopQueue == appended + waiting;
      appended := appended + newUops;
    }

    method FromDecoders(clock: nat) returns (newUops: seq<nat>, ghost queue: seq<InstrInstance>)
      requires Valid() && ms.uopQueue == []
      modifies this, preDecoder, decoders, ms
      ensures Valid() && appended == old(appended) + newUops && appended <= Stream(Generated())
      ensures Predecoded(old(preDecoder.AsStage()), old(decoders.instructionQueue), clock, queue)
      ensures GroupTaken(queue, clock, newUops)
    {
      hide Stream, Program, AllComplete, Flat, Predecoded, GroupTaken;
      ghost var before := Stream(preDecoder.Pending());
      newUops, queue := DecodeGroup(clock);
      Regroup(appended, [], before);
      Regroup(appended, newUops + ms.uopQueue, Stream(preDecoder.Pending()));
      Regroup(appended, newUops, ms.uopQueue);
      appended := appended + newUops;
    }

    /** One clock cycle. Uops come from the microcode sequencer while it is busy, and otherwise from one decode group of
        what has been predecoded. In every run what has been appended is a prefix of the uops in program order. */
    method Cycle(clock: nat) returns (newUops: seq<nat>, ghost refilled: Stage, ghost queue: seq<InstrInstance>)
      requires Valid()
      modifies this, generator, preDecoder, decoders, ms
      ensures Valid() && appended == old(appended) + newUops && appended <= Stream(Generated())
      ensures refilled == old(preDecoder.AsStage()).(blocks := refilled.blocks)
      ensures old(preDecoder.b16BlockQueue) <= refilled.blocks && |refilled.blocks| >= 4
      ensures if old(ms.stalled) > 0 || old(ms.uopQueue) != [] then
                && newUops + ms.uopQueue == old(ms.uopQueue)
                && (if old(ms.stalled) > 0 then newUops == [] else |newUops| == 4 || ms.uopQueue == [])
                && preDecoder.AsStage() == refilled && decoders.instructionQueue == old(decoders.instructionQueue)
              else
                && Predecoded(refilled, old(decoders.instructionQueue), clock, queue)
                && GroupTaken(queue, clock, newUops)
    {
      hide Valid, Predecoded, GroupTaken;
      Refill();
      refilled, queue := preDecoder.AsStage(), decoders.instructionQueue;
      if ms.IsBusy() {
        newUops := FromSequencer();
      } else {
        newUops, queue := FromDecoders(clock);
      }
    }
  }

  lemma GroupOf(q: seq<InstrInstance>, clock: nat, c: DecodeGroups.Config, decoded: seq<InstrInstance>)
    requires c.nDecoders > 0 && AllComplete(q)
    requires decoded == Decoded(q[..Taken(q, clock, c, 0, c.nDecoders)])
    ensures OnlyLastMicrocoded(decoded) && AllComplete(decoded)
    ensures forall i :: i in decoded ==> !i.instr.macroFusedWithPrev
  {
    hide Decoded, Taken, Complete;
    GroupMicrocode(q, clock, c, 0, c.nDecoders);
  }

  /** The program continues with the new cache line. */
  lemma JoinsBehind(a: seq<InstrInstance>, b: seq<InstrInstance>, c: seq<InstrInstance>, d: seq<InstrInstance>,
                    e: seq<InstrInstance>)
    ensures a + (b + (c + (d + e))) == a + (b + (c + d)) + e
  {}

  lemma JoinsPending(a: seq<InstrInstance>, b: seq<InstrInstance>, c: seq<InstrInstance>)
    ensures a + (b + c) == a + b + c
  {}

  lemma Regroup(a: seq<nat>, b: seq<nat>, c: seq<nat>)
    ensures a + (b + c) == a + b + c && a + [] == a
  {}

  lemma MoreGenerated(body: seq<InstrInstance>, offset: nat, n: nat, m: nat, before: seq<InstrInstance>,
                      block: seq<InstrInstance>)
    requires body != [] && n < m && AllComplete(body) && block == Program(body, offset, n, m)
    ensures block != []
    ensures Stream(Program(body, offset, 0, m)) == Stream(Program(body, offset, 0, n)) + Stream(block)
    ensures Stream(before + BareAll(block)) == Stream(before) + Stream(block)
    ensures AllComplete(before) ==> AllComplete(before + BareAll(block))
  {
    hide Stream, AllComplete, Instance;
    ProgramSplit(body, offset, 0, n, m);
    StreamConcat(Program(body, offset, 0, n), block);
    StreamConcat(before, BareAll(block));
    StreamBare(block);
    CompleteProgram(body, offset, n, m);
    BareComplete(block);
    CompleteConcat(before, BareAll(block));
  }

  /** A decode group takes its instances from the front of the pending ones. */
  lemma GroupLeaves(q: seq<InstrInstance>, buffered: seq<InstrInstance>, k: nat)
    requires k <= |q| && AllComplete(BareAll(q) + BareAll(buffered))
    ensures Stream(BareAll(q) + BareAll(buffered)) ==
            Stream(Decoded(q[..k])) + Stream(BareAll(q[k..]) + BareAll(buffered))
    ensures AllComplete(BareAll(q[k..]) + BareAll(buffered)) && AllComplete(q)
  {
    hide Stream, AllComplete, Complete, Decoded;
    var rest := BareAll(q[k..]) + BareAll(buffered);
    assert BareAll(q) + BareAll(buffered) == BareAll(q[..k]) + rest;
    StreamConcat(BareAll(q[..k]), rest);
    StreamBare(q[..k]);
    StreamDecoded(q[..k]);
    CompleteConcat(BareAll(q[..k]), rest);
    CompleteConcat(BareAll(q), BareAll(buffered));
    BareComplete(q);
  }

  lemma StreamEnds(ii: seq<InstrInstance>)
    ensures Stream(ii[..0]) == [] && ii[..|ii|] == ii
  {}

  lemma SplitUops(i: InstrInstance)
    requires Complete(i) && !i.instr.macroFusedWithPrev
    ensures UopsOf(i) == FromDecoder(i) + FromMicrocode(i)
    ensures i.instr.uopsMS == 0 ==> FromMicrocode(i) == []
  {}

  lemma FlatEnds(a: seq<seq<InstrInstance>>, b: seq<seq<InstrInstance>>)
    ensures Flat(b[..0]) == [] && b[..|b|] == b
  {}

  lemma FlatPrefix(parts: seq<seq<InstrInstance>>, k: nat)
    requires k < |parts|
    ensures Flat(parts[..k + 1]) == Flat(parts[..k]) + parts[k]
  {
    assert parts[..k + 1] == parts[..k] + [parts[k]];
    FlatSnoc(parts[..k], parts[k]);
  }

  lemma HalvesFlat(block: seq<InstrInstance>, halves: seq<seq<InstrInstance>>)
    requires OneLine(block) && halves == Parts(block, 64, 32, 2)
    ensures halves[0] + halves[1] == block
    ensures halves[0] == Part(block, 64, 0, 32) && halves[1] == Part(block, 64, 32, 64)
  {
    hide InLine, Part;
    SplitKeepsOrder(block, 64, 32, 2);
    assert halves == [] + [halves[0]] + [halves[1]];
    FlatSnoc([], halves[0]);
    FlatSnoc([] + [halves[0]], halves[1]);
  }
}

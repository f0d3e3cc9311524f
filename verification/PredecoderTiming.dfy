/** How long the predecoder keeps a block because of its length-changing prefixes, and what it then releases. */
module PredecoderTiming {
  import opened Wrappers
  import opened Sequences
  import opened Decoder
  import opened Predecoder

  /** The positions of the instructions with a length-changing prefix. */
  ghost function Prefixed(block: seq<InstrInstance>): set<nat> {
    set i: nat | i < |block| && block[i].lcpStall
  }

  lemma PrefixedNext(front: seq<InstrInstance>, last: InstrInstance)
    ensures Prefixed(front + [last]) == Prefixed(front) + (if last.lcpStall then {|front|} else {})
  {
    assert forall i: nat :: i < |front| ==> (front + [last])[i] == front[i];
  }

  lemma {:induction false} StallsCounted(block: seq<InstrInstance>)
    ensures LcpStalls(block) == |Prefixed(block)|
  {
    if block != [] {
      var front, last := block[..|block| - 1], block[|block| - 1];
      assert block == front + [last];
      StallsCounted(front);
      PrefixedNext(front, last);
      assert |front| !in Prefixed(front);
      hide Prefixed;
    }
  }

  /** The stage after some cycles, before each of which the instruction queue holds so many instructions. */
  function After(s: Stage, c: Config, queued: seq<nat>): Stage
    requires c.predecodeBlockSize >= 16 && c.predecodeWidth > 0
  {
    if queued == [] then s else Cycled(After(s, c, queued[..|queued| - 1]), c, queued[|queued| - 1]).0
  }

  function ReleasedIn(s: Stage, c: Config, queued: seq<nat>, k: nat): seq<InstrInstance>
    requires c.predecodeBlockSize >= 16 && c.predecodeWidth > 0 && k < |queued|
  {
    Cycled(After(s, c, queued[..k]), c, queued[k]).1
  }

  /** A cycle that begins a block. */
  predicate BeginsBlock(s: Stage, c: Config, queued: nat) {
    && s.stalled == 0 && s.curBlock == [] && s.queue == [] && s.blocks != []
    && c.predecodeBlockSize >= 16 && c.predecodeWidth > 0 && |s.blocks| >= c.predecodeBlockSize / 16
    && queued + c.predecodeWidth <= c.iqWidth
  }

  function BlockOf(s: Stage, c: Config): seq<InstrInstance>
    requires c.predecodeBlockSize / 16 <= |s.blocks|
  {
    Flat(s.blocks[..c.predecodeBlockSize / 16])
  }

  /** The delay: three cycles for each prefix, but the cycles after the first one in which instructions of the block before
      were taken hide as many. */
  ghost predicate IsDelay(s: Stage, block: seq<InstrInstance>, delay: int) {
    var hidden := if s.nonStalledCycles <= 1 then 0 else s.nonStalledCycles - 1;
    delay == if 3 * |Prefixed(block)| <= hidden then 0 else 3 * |Prefixed(block)| - hidden
  }

  lemma FilledDelay(s: Stage, c: Config, queued: nat, delay: int)
    requires BeginsBlock(s, c, queued) && IsDelay(s, BlockOf(s, c), delay)
    ensures Filled(s, c).0.stalled == delay
    ensures Cycled(s, c, queued) == if delay > 0 then (Filled(s, c).0.(stalled := delay - 1), [])
                                    else (Filled(s, c).0.(queue := []), Filled(s, c).0.queue)
  {
    StallsCounted(BlockOf(s, c));
    hide Whole, LcpStalls, SetsAside, TakenIn, Prefixed;
  }

  lemma StalledCycle(t: Stage, c: Config, queued: nat)
    requires t.stalled > 0 && c.predecodeBlockSize >= 16 && c.predecodeWidth > 0
    ensures Cycled(t, c, queued) == (t.(stalled := t.stalled - 1), [])
  {
    hide Filled;
  }

  lemma ReleasingCycle(t: Stage, c: Config, queued: nat)
    requires t.stalled == 0 && t.queue != [] && c.predecodeBlockSize >= 16 && c.predecodeWidth > 0
    ensures Cycled(t, c, queued) == (t.(queue := []), t.queue)
  {
    hide Filled;
  }

  lemma {:induction false} StallsDown(s: Stage, c: Config, queued: seq<nat>, delay: nat, k: nat)
    requires |queued| > 0 && BeginsBlock(s, c, queued[0]) && IsDelay(s, BlockOf(s, c), delay)
    requires 0 < k <= |queued| && k <= delay
    ensures After(s, c, queued[..k]) == Filled(s, c).0.(stalled := delay - k)
    ensures forall i :: 0 <= i < k ==> ReleasedIn(s, c, queued, i) == []
  {
    hide Filled, Cycled, IsDelay;
    assert queued[..k][..k - 1] == queued[..k - 1];
    FilledDelay(s, c, queued[0], delay);
    if k == 1 {
      assert queued[..0] == [];
    } else {
      StallsDown(s, c, queued, delay, k - 1);
      StalledCycle(After(s, c, queued[..k - 1]), c, queued[k - 1]);
    }
  }

  /** The instructions that the cycle takes in: one set aside before, and then those of the block, as many as the width
      allows, up to the first one that does not end in the block. */
  ghost predicate IsTaken(s: Stage, c: Config, block: seq<InstrInstance>, taken: seq<InstrInstance>) {
    var partial := AsSeq(s.partialInstrI);
    && c.predecodeBlockSize > 0
    && |partial| <= |taken| && taken[..|partial|] == partial && |taken| <= c.predecodeWidth
    && var n := |taken| - |partial|;
       && n <= |block| && taken[|partial|..] == block[..n]
       && (forall i :: 0 <= i < n ==> block[i].address % c.predecodeBlockSize + block[i].size <= c.predecodeBlockSize)
       && (n < |block| && |taken| < c.predecodeWidth ==>
             block[n].address % c.predecodeBlockSize + block[n].size > c.predecodeBlockSize)
  }

  lemma FilledTakes(s: Stage, c: Config, queued: nat)
    requires BeginsBlock(s, c, queued)
    ensures IsTaken(s, c, BlockOf(s, c), Filled(s, c).0.queue)
  {
    hide LcpStalls, SetsAside;
  }

  /** There is an instruction to take: one set aside before, or a first one of the block that ends in it. */
  predicate TakesOne(s: Stage, c: Config, block: seq<InstrInstance>) {
    || s.partialInstrI.Some?
    || (block != [] && c.predecodeBlockSize > 0 &&
        block[0].address % c.predecodeBlockSize + block[0].size <= c.predecodeBlockSize)
  }

  lemma OneTaken(s: Stage, c: Config, block: seq<InstrInstance>, taken: seq<InstrInstance>)
    requires IsTaken(s, c, block, taken) && TakesOne(s, c, block) && c.predecodeWidth > 0
    ensures taken != []
  {}

  /** The instructions at the front of a block leave the predecoder exactly `delay` cycles after the one that begins it. */
  lemma BlockDelayed(s: Stage, c: Config, queued: seq<nat>, delay: nat)
    requires |queued| > 0 && BeginsBlock(s, c, queued[0]) && IsDelay(s, BlockOf(s, c), delay)
    requires TakesOne(s, c, BlockOf(s, c))
    ensures forall k :: 0 <= k < |queued| && k < delay ==> ReleasedIn(s, c, queued, k) == []
    ensures delay < |queued| ==> IsTaken(s, c, BlockOf(s, c), ReleasedIn(s, c, queued, delay))
  {
    hide Filled, Cycled, IsDelay;
    FilledTakes(s, c, queued[0]);
    OneTaken(s, c, BlockOf(s, c), Filled(s, c).0.queue);
    FilledDelay(s, c, queued[0], delay);
    hide IsTaken, TakesOne;
    if delay == 0 {
      assert queued[..0] == [];
    } else {
      StallsDown(s, c, queued, delay, if delay <= |queued| then delay else |queued|);
      if delay < |queued| {
        ReleasingCycle(After(s, c, queued[..delay]), c, queued[delay]);
      }
    }
  }

  /** What is left of the block stays, but an instruction that is left alone and ends in the next block is set aside, unless
      the width is used up and its opcode still lies in this one. */
  ghost predicate IsLeft(c: Config, rest: seq<InstrInstance>, taken: nat, t: Stage) {
    if c.predecodeBlockSize > 0 && |rest| == 1
       && rest[0].address % c.predecodeBlockSize + rest[0].size > c.predecodeBlockSize
       && (taken < c.predecodeWidth || rest[0].address % 16 + rest[0].posNominalOpcode >= 16)
    then t.curBlock == [] && t.partialInstrI == Some(rest[0])
    else t.curBlock == rest && t.partialInstrI == None
  }

  lemma LeftExactly(s: Stage, c: Config, queued: nat)
    requires BeginsBlock(s, c, queued)
    ensures var t := Filled(s, c).0;
            var n := |t.queue| - |AsSeq(s.partialInstrI)|;
            0 <= n <= |BlockOf(s, c)| && IsLeft(c, BlockOf(s, c)[n..], |t.queue|, t)
  {
    hide LcpStalls;
  }

  /** Each cycle that takes instructions of a block counts for it. */
  lemma FillsCounted(s: Stage, c: Config, queued: nat)
    requires c.predecodeBlockSize >= 16 && c.predecodeWidth > 0 && s.stalled == 0 && Fills(s, c, queued)
    requires s.curBlock != [] || |s.blocks| >= c.predecodeBlockSize / 16
    ensures Cycled(s, c, queued).0.nonStalledCycles == if s.curBlock == [] then 1 else s.nonStalledCycles + 1
  {
    hide Whole, LcpStalls, SetsAside;
  }
}

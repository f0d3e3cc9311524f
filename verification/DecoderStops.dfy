/** What a cycle of the decoders takes, by the reasons to stop. */
module DecoderStops {
  import opened Wrappers
  import opened Arithmetic
  import opened DecodeGroups
  import opened Decoder

  predicate IsReady(i: InstrInstance, clock: nat, c: Config) {
    i.predecoded.Some? && clock - i.predecoded.value >= c.predecodeDecodeDelay
  }

  /** With these instructions decoded no decoder is left: all have been used, or all the simple ones that can work beside
      the complex instruction with which the cycle began. */
  predicate AllUsed(decoded: seq<InstrInstance>, c: Config) {
    || |decoded| >= c.nDecoders
    || (decoded != [] && decoded[0].instr.complexDecoder && |decoded| > decoded[0].instr.nAvailableSimpleDecoders)
  }

  /** The instruction just decoded is the last one of its cycle. */
  predicate EndsCycle(queue: seq<InstrInstance>, c: Config, k: nat)
    requires k <= |queue|
  {
    && k > 0 && !queue[k - 1].instr.macroFusedWithPrev
    && var i := queue[k - 1].instr;
       i.uopsMS > 0 || i.isBranch || i.macroFusedWithNext || AllUsed(Decoded(queue[..k]), c)
  }

  /** The next instruction has to wait: it is not predecoded yet, or it needs the complex decoder and is not the first, or
      it could fuse with the one after it, and is in the last decoder or that one is not predecoded yet. */
  predicate HasToWait(queue: seq<InstrInstance>, clock: nat, c: Config, k: nat)
    requires k < |queue|
  {
    var i, n := queue[k].instr, |Decoded(queue[..k])|;
    && !i.macroFusedWithPrev
    && (|| !IsReady(queue[k], clock, c)
        || (n > 0 && i.complexDecoder)
        || (i.macroFusible &&
            ((!c.macroFusibleCanBeLast && n == c.nDecoders - 1) ||
             k + 1 == |queue| || !IsReady(queue[k + 1], clock, c))))
  }

  predicate Stops(queue: seq<InstrInstance>, clock: nat, c: Config, k: nat)
    requires k <= |queue|
  {
    k == |queue| || EndsCycle(queue, c, k) || HasToWait(queue, clock, c, k)
  }

  /** The slots left. */
  function Slots(decoded: seq<InstrInstance>, c: Config): int {
    if decoded == [] then c.nDecoders
    else
      var simple := decoded[0].instr.nAvailableSimpleDecoders + 1 - |decoded|;
      var all := c.nDecoders - |decoded|;
      if decoded[0].instr.complexDecoder && simple < all then simple else all
  }

  lemma SlotsUsed(decoded: seq<InstrInstance>, c: Config)
    ensures Slots(decoded, c) > 0 <==> !AllUsed(decoded, c)
  {}

  lemma SlotsNext(decoded: seq<InstrInstance>, c: Config, i: InstrInstance)
    requires Slots(decoded, c) > 0 && (decoded != [] ==> !i.instr.complexDecoder)
    ensures Slots(decoded + [i], c) == SlotsAfter(i.instr, Slots(decoded, c)) as int
  {}

  ghost predicate NoStopBefore(queue: seq<InstrInstance>, clock: nat, c: Config, k: nat)
    requires k <= |queue|
  {
    forall j :: 0 <= j < k ==> !Stops(queue, clock, c, j)
  }

  lemma WaitsIs(queue: seq<InstrInstance>, clock: nat, c: Config, k: nat)
    requires k < |queue| && c.nDecoders > 0
    ensures HasToWait(queue, clock, c, k) <==>
            !queue[k].instr.macroFusedWithPrev && !CanDecode(queue[k..], clock, c, |Decoded(queue[..k])|)
  {
    hide Decoded;
  }

  lemma TakenNext(queue: seq<InstrInstance>, clock: nat, c: Config, t: nat, n: nat, remaining: nat)
    requires c.nDecoders > 0 && t < |queue| && remaining > 0
    ensures var i, slots := queue[t].instr, SlotsAfter(queue[t].instr, remaining);
            Taken(queue[t..], clock, c, n, remaining) ==
            if i.macroFusedWithPrev then 1 + Taken(queue[t + 1..], clock, c, n, remaining)
            else if !CanDecode(queue[t..], clock, c, n) then 0
            else if i.uopsMS > 0 || slots == 0 || i.isBranch || i.macroFusedWithNext then 1
            else 1 + Taken(queue[t + 1..], clock, c, n + 1, slots)
  {
    hide CanDecode, SlotsAfter;
    assert queue[t..][0] == queue[t] && queue[t..][1..] == queue[t + 1..];
  }

  lemma EndsIs(queue: seq<InstrInstance>, c: Config, t: nat)
    requires t < |queue|
    ensures var i, d := queue[t].instr, Decoded(queue[..t]);
            && (EndsCycle(queue, c, t + 1) <==>
                  !i.macroFusedWithPrev &&
                  (i.uopsMS > 0 || i.isBranch || i.macroFusedWithNext || AllUsed(d + [queue[t]], c)))
            && Decoded(queue[..t + 1]) == d + if i.macroFusedWithPrev then [] else [queue[t]]
  {
    hide Decoded, AllUsed;
    DecodedNext(queue, t);
  }

  lemma NotStoppedNext(queue: seq<InstrInstance>, clock: nat, c: Config, t: nat)
    requires t < |queue| && !EndsCycle(queue, c, t) && !HasToWait(queue, clock, c, t) && NoStopBefore(queue, clock, c, t)
    ensures NoStopBefore(queue, clock, c, t + 1)
  {
    hide EndsCycle, HasToWait;
  }

  /** From a position on, the cycle takes the instances up to the first reason to stop. */
  ghost predicate FoundFrom(queue: seq<InstrInstance>, clock: nat, c: Config, t: nat)
    requires c.nDecoders > 0 && t <= |queue| && Slots(Decoded(queue[..t]), c) > 0
  {
    var d := Decoded(queue[..t]);
    var k := t + Taken(queue[t..], clock, c, |d|, Slots(d, c));
    k <= |queue| && Stops(queue, clock, c, k) && NoStopBefore(queue, clock, c, k)
  }

  lemma FoundHere(queue: seq<InstrInstance>, clock: nat, c: Config, t: nat)
    requires c.nDecoders > 0 && t < |queue| && Slots(Decoded(queue[..t]), c) > 0
    requires NoStopBefore(queue, clock, c, t) && HasToWait(queue, clock, c, t)
    ensures FoundFrom(queue, clock, c, t)
  {
    hide Decoded, CanDecode, Slots, EndsCycle, HasToWait, NoStopBefore, Taken;
    TakenNext(queue, clock, c, t, |Decoded(queue[..t])|, Slots(Decoded(queue[..t]), c));
    WaitsIs(queue, clock, c, t);
  }

  lemma FoundSkipping(queue: seq<InstrInstance>, clock: nat, c: Config, t: nat)
    requires c.nDecoders > 0 && t < |queue| && Slots(Decoded(queue[..t]), c) > 0
    requires queue[t].instr.macroFusedWithPrev
    ensures Decoded(queue[..t + 1]) == Decoded(queue[..t])
    ensures FoundFrom(queue, clock, c, t + 1) ==> FoundFrom(queue, clock, c, t)
  {
    hide Decoded, CanDecode, Slots, Stops, NoStopBefore, Taken;
    DecodedNext(queue, t);
    assert Decoded(queue[..t]) + [] == Decoded(queue[..t]);
    TakenNext(queue, clock, c, t, |Decoded(queue[..t])|, Slots(Decoded(queue[..t]), c));
  }

  lemma FoundDecoding(queue: seq<InstrInstance>, clock: nat, c: Config, t: nat)
    requires c.nDecoders > 0 && t < |queue| && Slots(Decoded(queue[..t]), c) > 0
    requires !queue[t].instr.macroFusedWithPrev && !HasToWait(queue, clock, c, t)
    requires NoStopBefore(queue, clock, c, t + 1)
    ensures EndsCycle(queue, c, t + 1) ==> FoundFrom(queue, clock, c, t)
    ensures !EndsCycle(queue, c, t + 1) ==> Slots(Decoded(queue[..t + 1]), c) > 0
    ensures !EndsCycle(queue, c, t + 1) && FoundFrom(queue, clock, c, t + 1) ==> FoundFrom(queue, clock, c, t)
  {
    hide Decoded, CanDecode, Slots, SlotsAfter, AllUsed, HasToWait, EndsCycle, Taken, NoStopBefore;
    var d := Decoded(queue[..t]);
    TakenNext(queue, clock, c, t, |d|, Slots(d, c));
    WaitsIs(queue, clock, c, t);
    EndsIs(queue, c, t);
    FirstIfComplex(queue, clock, c, t);
    SlotsNext(d, c, queue[t]);
    SlotsUsed(d + [queue[t]], c);
  }

  lemma {:induction false} TakenFrom(queue: seq<InstrInstance>, clock: nat, c: Config, t: nat)
    requires c.nDecoders > 0 && t <= |queue| && Slots(Decoded(queue[..t]), c) > 0
    requires !EndsCycle(queue, c, t) && NoStopBefore(queue, clock, c, t)
    ensures FoundFrom(queue, clock, c, t)
    decreases |queue| - t
  {
    if t < |queue| {
      hide Decoded, Slots, AllUsed, HasToWait, NoStopBefore, FoundFrom;
      if HasToWait(queue, clock, c, t) {
        FoundHere(queue, clock, c, t);
      } else {
        NotStoppedNext(queue, clock, c, t);
        if queue[t].instr.macroFusedWithPrev {
          FoundSkipping(queue, clock, c, t);
          TakenFrom(queue, clock, c, t + 1);
        } else {
          FoundDecoding(queue, clock, c, t);
          if !EndsCycle(queue, c, t + 1) {
            TakenFrom(queue, clock, c, t + 1);
          }
        }
      }
    }
  }

  lemma FirstIfComplex(queue: seq<InstrInstance>, clock: nat, c: Config, k: nat)
    requires k < |queue| && !queue[k].instr.macroFusedWithPrev && !HasToWait(queue, clock, c, k)
    ensures Decoded(queue[..k]) != [] ==> !queue[k].instr.complexDecoder
  {
    hide Decoded;
  }

  /** A cycle takes the instances up to the first reason to stop. */
  lemma TakenExactly(queue: seq<InstrInstance>, clock: nat, c: Config, k: nat)
    requires c.nDecoders > 0
    ensures Taken(queue, clock, c, 0, c.nDecoders) == k <==>
            k <= |queue| && Stops(queue, clock, c, k) && forall j :: 0 <= j < k ==> !Stops(queue, clock, c, j)
  {
    assert queue[..0] == [] && queue[0..] == queue;
    TakenFrom(queue, clock, c, 0);
    hide Stops, Taken;
  }
}

/** The instruction decoders (`Decoder::cycle`) and the groups they form on a saturated queue. */
module Decoder {
  import opened Wrappers
  import opened Arithmetic
  import opened DecodeGroups

  /** An instance of an instruction in the front end. Its first `uopsMITE` uops come from the decoders, the others from
      the microcode sequencer. */
  datatype InstrInstance = InstrInstance(instr: Instr, predecoded: Option<nat>, idx: nat, address: nat, size: nat,
                                         posNominalOpcode: nat, lcpStall: bool, uopsMITE: nat, uops: seq<nat>)

  predicate Ready(i: InstrInstance, clock: nat, c: Config) {
    i.predecoded.Some? && i.predecoded.value + c.predecodeDecodeDelay <= clock
  }

  /** The head of the queue can be decoded as instruction number `n` of the cycle. */
  predicate CanDecode(queue: seq<InstrInstance>, clock: nat, c: Config, n: nat)
    requires queue != [] && c.nDecoders > 0
  {
    var i := queue[0];
    && Ready(i, clock, c)
    && !(n > 0 && i.instr.complexDecoder)
    && (i.instr.macroFusible ==>
          && !(!c.macroFusibleCanBeLast && n == c.nDecoders - 1)
          && |queue| > 1 && Ready(queue[1], clock, c))
  }

  /** The decoder slots left after an instruction. */
  function SlotsAfter(i: Instr, remaining: nat): nat
    requires remaining > 0
  {
    if i.complexDecoder then Min(remaining - 1, i.nAvailableSimpleDecoders) else remaining - 1
  }

  /** How many instances a cycle takes from the queue, given how many it has decoded and the slots it has left. */
  function Taken(queue: seq<InstrInstance>, clock: nat, c: Config, n: nat, remaining: nat): (k: nat)
    requires c.nDecoders > 0 && remaining > 0
    ensures k <= |queue|
  {
    if queue == [] then 0
    else
      var i := queue[0].instr;
      if i.macroFusedWithPrev then 1 + Taken(queue[1..], clock, c, n, remaining)
      else if !CanDecode(queue, clock, c, n) then 0
      else if i.uopsMS > 0 || SlotsAfter(i, remaining) == 0 || i.isBranch || i.macroFusedWithNext then 1
      else 1 + Taken(queue[1..], clock, c, n + 1, SlotsAfter(i, remaining))
  }

  /** The instances that are decoded: those fused with their predecessor are only removed. */
  function Decoded(taken: seq<InstrInstance>): seq<InstrInstance> {
    if taken == [] then []
    else (if taken[0].instr.macroFusedWithPrev then [] else [taken[0]]) + Decoded(taken[1..])
  }

  lemma {:induction false} DecodedConcat(a: seq<InstrInstance>, b: seq<InstrInstance>)
    ensures Decoded(a + b) == Decoded(a) + Decoded(b)
  {
    if a == [] {
      assert a + b == b;
    } else {
      assert (a + b)[1..] == a[1..] + b;
      DecodedConcat(a[1..], b);
    }
  }

  lemma DecodedNext(queue: seq<InstrInstance>, k: nat)
    requires k < |queue|
    ensures Decoded(queue[..k + 1]) ==
            Decoded(queue[..k]) + if queue[k].instr.macroFusedWithPrev then [] else [queue[k]]
  {
    assert queue[..k + 1] == queue[..k] + [queue[k]];
    DecodedConcat(queue[..k], [queue[k]]);
  }

  class Decoders {
    const c: Config
    var instructionQueue: seq<InstrInstance>

    constructor (c: Config)
      ensures this.c == c && instructionQueue == []
    {
      this.c := c;
      instructionQueue := [];
    }

    /** Decodes one group from the front of the queue. */
    method Cycle(clock: nat) returns (decoded: seq<InstrInstance>)
      requires c.nDecoders > 0
      modifies this
      ensures var k := Taken(old(instructionQueue), clock, c, 0, c.nDecoders);
              decoded == Decoded(old(instructionQueue)[..k]) && instructionQueue == old(instructionQueue)[k..]
    {
      assert Decoded([]) == [] && old(instructionQueue)[..0] == [];
      hide Decoded;
      decoded := [];
      var nDecodedInstrs, remainingDecoderSlots := 0, c.nDecoders;
      ghost var taken := 0;
      while instructionQueue != []
        invariant remainingDecoderSlots > 0 && taken <= |old(instructionQueue)|
        invariant instructionQueue == old(instructionQueue)[taken..]
        invariant decoded == Decoded(old(instructionQueue)[..taken])
        invariant nDecodedInstrs == |decoded|
        invariant Taken(old(instructionQueue), clock, c, 0, c.nDecoders) ==
                  taken + Taken(instructionQueue, clock, c, nDecodedInstrs, remainingDecoderSlots)
        decreases |instructionQueue|
      {
        var i := instructionQueue[0];
        var rest := instructionQueue[1..];
        DecodedNext(old(instructionQueue), taken);
        if i.instr.macroFusedWithPrev {
          instructionQueue, taken := rest, taken + 1;
          continue;
        }
        if i.predecoded == None || i.predecoded.value + c.predecodeDecodeDelay > clock {
          break;
        }
        if decoded != [] && i.instr.complexDecoder {
          break;
        }
        if i.instr.macroFusible {
          if !c.macroFusibleCanBeLast && nDecodedInstrs == c.nDecoders - 1 {
            break;
          }
          if |instructionQueue| <= 1 {
            break;
          }
          var next := instructionQueue[1];
          if next.predecoded == None || next.predecoded.value + c.predecodeDecodeDelay > clock {
            break;
          }
        }
        instructionQueue, taken := rest, taken + 1;
        decoded := decoded + [i];
        if i.instr.uopsMS > 0 {
          break;
        }
        var slots := if i.instr.complexDecoder
                     then Min(remainingDecoderSlots - 1, i.instr.nAvailableSimpleDecoders)
                     else remainingDecoderSlots - 1;
        nDecodedInstrs := nDecodedInstrs + 1;
        if slots == 0 {
          break;
        }
        remainingDecoderSlots := slots;
        if i.instr.isBranch || i.instr.macroFusedWithNext {
          break;
        }
      }
    }
  }
}

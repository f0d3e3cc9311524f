/** How instructions are packed into the blocks of the decoded stream buffer (`get_dsb_blocks`). */
module DsbPacking {
  import opened Wrappers
  import opened Arithmetic

  const BLOCK_SLOTS: nat := 6

  datatype Instance = Instance(
    macroFusedWithPrev: bool, uopsMITE: nat, uopsMS: nat, immediate: Option<int>, hasMemory: bool,
    address: nat, size: nat, isLastDecoded: bool, uops: seq<nat>)

  datatype Entry = Entry(slot: nat, instr: Instance, uop: Option<nat>, msUops: seq<nat>, requiresExtraEntry: bool)

  /** Large immediates take a slot of their own. */
  predicate RequiresExtraEntry(i: Instance) {
    i.immediate.Some? &&
    (!(-0x8000_0000 <= i.immediate.value < 0x8000_0000) ||
     (!(-0x8000 <= i.immediate.value < 0x8000) && i.hasMemory))
  }

  function Needed(i: Instance): nat {
    AtLeastOne(i.uopsMITE) + AsNat(RequiresExtraEntry(i))
  }

  function SlotsUsed(block: seq<Entry>): nat {
    if block == [] then 0
    else SlotsUsed(block[..|block| - 1]) + 1 + AsNat(block[|block| - 1].requiresExtraEntry)
  }

  function UopsOf(e: Entry): seq<nat> {
    (if e.uop.Some? then [e.uop.value] else []) + e.msUops
  }

  function EntryUops(es: seq<Entry>): seq<nat> {
    if es == [] then [] else EntryUops(es[..|es| - 1]) + UopsOf(es[|es| - 1])
  }

  function BlockUops(blocks: seq<seq<Entry>>): seq<nat> {
    if blocks == [] then [] else BlockUops(blocks[..|blocks| - 1]) + EntryUops(blocks[|blocks| - 1])
  }

  /** The uops of instructions that can be delivered from the buffer. */
  function InstanceUops(ii: seq<Instance>): seq<nat> {
    if ii == [] then []
    else InstanceUops(ii[..|ii| - 1]) + if ii[|ii| - 1].macroFusedWithPrev then [] else ii[|ii| - 1].uops
  }

  // Packing

  /** Uops that do not come from the decoders come from microcode, and there is at least one if the buffer is to hold
      any. */
  predicate Packable(i: Instance) {
    i.macroFusedWithPrev || ((|i.uops| <= i.uopsMITE || i.uopsMS > 0) && (i.uopsMITE > 0 ==> i.uops != []))
  }

  /** The entry of uop `j`; the last one from the decoders brings the microcode uops. */
  function EntryFor(i: Instance, slot: nat, j: nat): Entry
    requires j < i.uopsMITE && j < |i.uops|
  {
    var isLast := j == i.uopsMITE - 1;
    Entry(slot, i, Some(i.uops[j]), if isLast && i.uopsMS > 0 then i.uops[i.uopsMITE..] else [],
          isLast && RequiresExtraEntry(i))
  }

  /** The entries of an instruction from a slot on. */
  function EntriesOf(i: Instance, slot: nat, n: nat): (es: seq<Entry>)
    requires n <= i.uopsMITE && n <= |i.uops|
    ensures |es| == n
  {
    if n == 0 then [] else EntriesOf(i, slot, n - 1) + [EntryFor(i, slot + n - 1, n - 1)]
  }

  function AllEntriesOf(i: Instance, slot: nat): seq<Entry> {
    if i.uopsMITE > 0 then EntriesOf(i, slot, Min(i.uopsMITE, |i.uops|))
    else [Entry(slot, i, None, if i.uopsMS > 0 then i.uops else [], false)]
  }

  function MicrocodeUpTo(i: Instance, n: nat): seq<nat>
    requires n <= |i.uops|
  {
    if n == i.uopsMITE && n > 0 && i.uopsMS > 0 then i.uops[n..] else []
  }

  lemma EntriesSnoc(es: seq<Entry>, e: Entry)
    ensures EntryUops(es + [e]) == EntryUops(es) + UopsOf(e)
    ensures SlotsUsed(es + [e]) == SlotsUsed(es) + 1 + AsNat(e.requiresExtraEntry)
  {
    assert (es + [e])[..|es|] == es;
  }

  lemma {:induction false} EntriesUops(i: Instance, slot: nat, n: nat)
    requires n <= i.uopsMITE && n <= |i.uops|
    ensures EntryUops(EntriesOf(i, slot, n)) == i.uops[..n] + MicrocodeUpTo(i, n)
    ensures SlotsUsed(EntriesOf(i, slot, n)) == n + AsNat(n == i.uopsMITE && n > 0 && RequiresExtraEntry(i))
  {
    hide EntryUops, SlotsUsed, RequiresExtraEntry;
    if n > 0 {
      EntriesUops(i, slot, n - 1);
      EntriesSnoc(EntriesOf(i, slot, n - 1), EntryFor(i, slot + n - 1, n - 1));
      assert i.uops[..n] == i.uops[..n - 1] + [i.uops[n - 1]];
    } else {
      NoEntries();
    }
  }

  lemma NoEntries()
    ensures EntryUops([]) == [] && SlotsUsed([]) == 0
  {}

  lemma {:induction false} EntryAt(i: Instance, slot: nat, n: nat)
    requires n <= i.uopsMITE && n <= |i.uops|
    ensures forall k :: 0 <= k < n ==> EntriesOf(i, slot, n)[k] == EntryFor(i, slot + k, k)
  {
    hide EntryFor;
    if n > 0 {
      EntryAt(i, slot, n - 1);
    }
  }

  /** The entries of an instruction bring its uops in order and take no more slots than it needs. */
  /** What the entries of an instruction hold and how much room they take. */
  ghost predicate EntriesRight(i: Instance, es: seq<Entry>, slot: nat) {
    && EntryUops(es) == i.uops && es != [] && SlotsUsed(es) <= Needed(i) && |es| <= AtLeastOne(i.uopsMITE)
    && Numbered(es, slot) && (i.uopsMS == 0 ==> forall k :: 0 <= k < |es| ==> es[k].msUops == [])
  }

  lemma InstanceEntries(i: Instance, slot: nat)
    requires Packable(i) && !i.macroFusedWithPrev
    ensures EntriesRight(i, AllEntriesOf(i, slot), slot)
  {
    hide EntryUops, SlotsUsed, RequiresExtraEntry;
    if i.uopsMITE > 0 {
      EntriesUops(i, slot, Min(i.uopsMITE, |i.uops|));
      EntryAt(i, slot, Min(i.uopsMITE, |i.uops|));
    } else {
      MicrocodeEntry(i, slot);
    }
  }

  lemma MicrocodeEntry(i: Instance, slot: nat)
    requires Packable(i) && !i.macroFusedWithPrev && i.uopsMITE == 0
    ensures EntriesRight(i, AllEntriesOf(i, slot), slot)
  {
    hide EntryUops, SlotsUsed, RequiresExtraEntry;
    NoEntries();
    var e := Entry(slot, i, None, if i.uopsMS > 0 then i.uops else [], false);
    EntriesSnoc([], e);
    assert [] + [e] == [e];
  }

  lemma {:induction false} SlotsConcat(a: seq<Entry>, b: seq<Entry>)
    ensures SlotsUsed(a + b) == SlotsUsed(a) + SlotsUsed(b) && EntryUops(a + b) == EntryUops(a) + EntryUops(b)
  {
    hide EntryUops, SlotsUsed;
    if b == [] {
      NoEntries();
      assert a + b == a;
    } else {
      var front, last := b[..|b| - 1], b[|b| - 1];
      assert b == front + [last] && a + b == a + front + [last];
      SlotsConcat(a, front);
      EntriesSnoc(front, last);
      EntriesSnoc(a + front, last);
    }
  }

  /** A block that is packed well: at most six slots, numbered upwards, and microcode only at its end. */
  ghost predicate WellPacked(block: seq<Entry>) {
    && block != [] && SlotsUsed(block) <= BLOCK_SLOTS && Numbered(block, 0)
  }

  ghost predicate AllPacked(blocks: seq<seq<Entry>>) {
    forall b :: 0 <= b < |blocks| ==> WellPacked(blocks[b])
  }

  function Monus(a: nat, b: nat): nat {
    if a < b then 0 else a - b
  }

  /** The entries that an instruction leaves in its block. */
  function Remaining(before: nat, i: Instance): nat {
    if i.uopsMS > 0 then 0
    else Monus(Monus(before, if i.uopsMITE > 0 then Min(i.uopsMITE, |i.uops|) else 1), AsNat(RequiresExtraEntry(i)))
  }

  /** The block being filled has room for what remains, and takes nothing after microcode. */
  ghost predicate CanTake(block: seq<Entry>, remaining: nat) {
    && WellPacked(block) && SlotsUsed(block) + remaining <= BLOCK_SLOTS
    && (remaining > 0 ==> block[|block| - 1].msUops == [])
  }

  lemma StartsBlock(i: Instance)
    requires Packable(i) && !i.macroFusedWithPrev && Needed(i) <= BLOCK_SLOTS
    ensures CanTake(AllEntriesOf(i, 0), Remaining(BLOCK_SLOTS, i))
  {
    InstanceEntries(i, 0);
    LeavesRoom(BLOCK_SLOTS, i, 0);
    hide AllEntriesOf, SlotsUsed, Remaining, Needed;
  }

  lemma LeavesRoom(before: nat, i: Instance, slot: nat)
    requires Packable(i) && !i.macroFusedWithPrev && Needed(i) <= before
    ensures SlotsUsed(AllEntriesOf(i, slot)) + Remaining(before, i) <= before
    ensures Remaining(before, i) > 0 ==> i.uopsMS == 0
  {
    hide EntryUops, SlotsUsed, RequiresExtraEntry;
    if i.uopsMITE > 0 {
      EntriesUops(i, slot, Min(i.uopsMITE, |i.uops|));
    } else {
      var e := Entry(slot, i, None, if i.uopsMS > 0 then i.uops else [], false);
      NoEntries();
      EntriesSnoc([], e);
      assert [] + [e] == [e];
    }
  }

  /** The slots of the entries count upwards, and only the last brings microcode. */
  ghost predicate Numbered(es: seq<Entry>, slot: nat) {
    && (forall k :: 0 <= k < |es| ==> es[k].slot == slot + k)
    && (forall k :: 0 <= k < |es| - 1 ==> es[k].msUops == [])
  }

  lemma NumberedConcat(a: seq<Entry>, b: seq<Entry>)
    requires Numbered(a, 0) && Numbered(b, |a|) && (a != [] ==> a[|a| - 1].msUops == [])
    ensures Numbered(a + b, 0)
  {}

  lemma JoinsBlock(block: seq<Entry>, remaining: nat, i: Instance)
    requires Packable(i) && !i.macroFusedWithPrev && CanTake(block, remaining) && Needed(i) <= remaining
    requires i.uopsMS == 0
    ensures CanTake(block + AllEntriesOf(i, |block|), Remaining(remaining, i))
  {
    hide AllEntriesOf, SlotsUsed, Remaining, EntryUops, Packable, RequiresExtraEntry, AtLeastOne;
    var es := AllEntriesOf(i, |block|);
    InstanceEntries(i, |block|);
    LeavesRoom(remaining, i, |block|);
    SlotsConcat(block, es);
    NeedsSlots(i);
    NumberedConcat(block, es);
    assert i.uopsMS == 0 ==> es[|es| - 1].msUops == [];
  }

  lemma NeedsSlots(i: Instance)
    ensures Needed(i) > 0
  {}

  lemma BlockUopsSnoc(blocks: seq<seq<Entry>>, block: seq<Entry>)
    ensures BlockUops(blocks + [block]) == BlockUops(blocks) + EntryUops(block)
  {
    assert (blocks + [block])[..|blocks|] == blocks;
  }

  /** The blocks finished so far and the one being filled. */
  ghost predicate PackedSoFar(blocks: seq<seq<Entry>>, remaining: nat, uops: seq<nat>) {
    && AllPacked(blocks) && BlockUops(blocks) == uops
    && (remaining > 0 ==> blocks != []) && (blocks != [] ==> CanTake(blocks[|blocks| - 1], remaining))
  }

  lemma PackNew(blocks: seq<seq<Entry>>, remaining: nat, uops: seq<nat>, i: Instance)
    requires PackedSoFar(blocks, remaining, uops)
    requires Packable(i) && !i.macroFusedWithPrev && Needed(i) <= BLOCK_SLOTS
    ensures PackedSoFar(blocks + [AllEntriesOf(i, 0)], Remaining(BLOCK_SLOTS, i), uops + i.uops)
  {
    hide AllEntriesOf, Remaining, SlotsUsed, Needed, BlockUops, EntryUops;
    StartsBlock(i);
    InstanceEntries(i, 0);
    BlockUopsSnoc(blocks, AllEntriesOf(i, 0));
  }

  lemma PackOn(blocks: seq<seq<Entry>>, remaining: nat, uops: seq<nat>, i: Instance)
    requires PackedSoFar(blocks, remaining, uops) && Packable(i) && !i.macroFusedWithPrev
    requires Needed(i) <= remaining && i.uopsMS == 0
    ensures blocks != []
    ensures var last := blocks[|blocks| - 1];
            PackedSoFar(blocks[..|blocks| - 1] + [last + AllEntriesOf(i, |last|)], Remaining(remaining, i),
                        uops + i.uops)
  {
    hide AllEntriesOf, Remaining, SlotsUsed, BlockUops, EntryUops;
    assert Needed(i) > 0;
    hide Needed;
    var front, last := blocks[..|blocks| - 1], blocks[|blocks| - 1];
    assert blocks == front + [last];
    JoinsBlock(last, remaining, i);
    InstanceEntries(i, |last|);
    SlotsConcat(last, AllEntriesOf(i, |last|));
    BlockUopsSnoc(front, last);
    BlockUopsSnoc(front, last + AllEntriesOf(i, |last|));
  }

  /** The blocks filled so far, and how many entries are left in the last one. */
  datatype Packing = Packing(blocks: seq<seq<Entry>>, remaining: nat)

  /** An instruction goes into the last block if it has room for all that the instruction needs; otherwise, and if the
      instruction comes from microcode, it begins a block. */
  function PackedWith(p: Packing, i: Instance): Packing {
    if i.macroFusedWithPrev then p
    else if i.uopsMS > 0 || Needed(i) > p.remaining || p.blocks == [] then
      Packing(p.blocks + [AllEntriesOf(i, 0)], Remaining(BLOCK_SLOTS, i))
    else
      var last := p.blocks[|p.blocks| - 1];
      Packing(p.blocks[..|p.blocks| - 1] + [last + AllEntriesOf(i, |last|)], Remaining(p.remaining, i))
  }

  function Packed(ii: seq<Instance>): Packing {
    if ii == [] then Packing([], 0) else PackedWith(Packed(ii[..|ii| - 1]), ii[|ii| - 1])
  }

  ghost predicate AllPackable(ii: seq<Instance>) {
    forall i :: i in ii ==> Packable(i) && (i.macroFusedWithPrev || Needed(i) <= BLOCK_SLOTS)
  }

  lemma PackOne(p: Packing, uops: seq<nat>, i: Instance)
    requires PackedSoFar(p.blocks, p.remaining, uops) && Packable(i)
    requires i.macroFusedWithPrev || Needed(i) <= BLOCK_SLOTS
    ensures var q := PackedWith(p, i);
            PackedSoFar(q.blocks, q.remaining, uops + if i.macroFusedWithPrev then [] else i.uops)
  {
    hide PackedSoFar, AllEntriesOf, Remaining, Packable;
    if i.macroFusedWithPrev {
      assert uops + [] == uops;
    } else if i.uopsMS > 0 || Needed(i) > p.remaining || p.blocks == [] {
      PackNew(p.blocks, p.remaining, uops, i);
    } else {
      PackOn(p.blocks, p.remaining, uops, i);
    }
  }

  /** No block takes more than six slots or anything after microcode, and the uops stay in order. */
  lemma {:induction false} PackedWell(ii: seq<Instance>)
    requires AllPackable(ii)
    ensures PackedSoFar(Packed(ii).blocks, Packed(ii).remaining, InstanceUops(ii))
    ensures AllPacked(Packed(ii).blocks) && BlockUops(Packed(ii).blocks) == InstanceUops(ii)
  {
    hide PackedWith, AllPacked, Packable, Needed;
    if ii == [] {
      NothingPacked();
    } else {
      PackedWell(ii[..|ii| - 1]);
      PackOne(Packed(ii[..|ii| - 1]), InstanceUops(ii[..|ii| - 1]), ii[|ii| - 1]);
    }
    PackingDone(Packed(ii).blocks, Packed(ii).remaining, InstanceUops(ii));
  }

  /** Adds the entries of an instruction, one by one. */
  method AddEntries(i: Instance, slot: nat) returns (es: seq<Entry>)
    ensures es == AllEntriesOf(i, slot)
  {
    es := [];
    if i.uopsMITE > 0 {
      for j := 0 to Min(i.uopsMITE, |i.uops|)
        invariant es == EntriesOf(i, slot, j)
      {
        es := es + [EntryFor(i, slot + j, j)];
      }
    } else if i.uopsMS > 0 {
      es := [Entry(slot, i, None, i.uops, false)];
    } else {
      es := [Entry(slot, i, None, [], false)];
    }
  }

  /** Packs the instructions of a cache block. */
  method GetDsbBlocks(cacheBlock: seq<Instance>) returns (blocks: seq<seq<Entry>>)
    ensures blocks == Packed(cacheBlock).blocks
    ensures AllPackable(cacheBlock) ==> AllPacked(blocks) && BlockUops(blocks) == InstanceUops(cacheBlock)
  {
    hide Remaining, AllEntriesOf, Needed, AllPacked, BlockUops, AllPackable;
    blocks := [];
    var remainingEntriesInCurBlock := 0;
    for k := 0 to |cacheBlock|
      invariant Packed(cacheBlock[..k]) == Packing(blocks, remainingEntriesInCurBlock)
      invariant blocks == [] ==> remainingEntriesInCurBlock == 0
    {
      var i := cacheBlock[k];
      assert cacheBlock[..k + 1][..k] == cacheBlock[..k];
      NeedsSlots(i);
      if i.macroFusedWithPrev {
        continue;
      }
      if i.uopsMS > 0 || Needed(i) > remainingEntriesInCurBlock {
        var es := AddEntries(i, 0);
        blocks := blocks + [es];
        remainingEntriesInCurBlock := Remaining(BLOCK_SLOTS, i);
      } else {
        var last := blocks[|blocks| - 1];
        var es := AddEntries(i, |last|);
        blocks := blocks[..|blocks| - 1] + [last + es];
        remainingEntriesInCurBlock := Remaining(remainingEntriesInCurBlock, i);
      }
    }
    assert cacheBlock[..|cacheBlock|] == cacheBlock;
    if AllPackable(cacheBlock) {
      PackedWell(cacheBlock);
    }
  }

  lemma NothingPacked()
    ensures PackedSoFar([], 0, InstanceUops([]))
  {}

  lemma PackingDone(blocks: seq<seq<Entry>>, remaining: nat, uops: seq<nat>)
    requires PackedSoFar(blocks, remaining, uops)
    ensures AllPacked(blocks) && BlockUops(blocks) == uops
  {}
}

/** Which instructions share a block of the decoded stream buffer, and what its entries are. */
module DsbBlocks {
  import opened Wrappers
  import opened Arithmetic
  import opened DsbPacking

  /** An immediate that does not fit 32 bits, or not 16 bits beside a memory operand. */
  predicate IsLarge(i: Instance) {
    && i.immediate.Some?
    && var v := i.immediate.value;
       v < -0x8000_0000 || v > 0x7FFF_FFFF || (i.hasMemory && (v < -0x8000 || v > 0x7FFF))
  }

  lemma LargeIsExtra(i: Instance)
    ensures RequiresExtraEntry(i) <==> IsLarge(i)
  {}

  /** What entry `k` of an instruction is: its uop, if there are any from the decoders; the uops from microcode with the last
      of these, or alone; and whether it takes a second slot for an immediate. */
  predicate IsEntry(i: Instance, slot: nat, k: nat, e: Entry) {
    && e.slot == slot + k && e.instr == i
    && (if i.uopsMITE > 0 then k < |i.uops| && e.uop == Some(i.uops[k]) else e.uop == None)
    && (e.requiresExtraEntry <==> i.uopsMITE == k + 1 && IsLarge(i))
    && (e.msUops ==
          if i.uopsMS == 0 || (i.uopsMITE > 0 && k + 1 != i.uopsMITE) || i.uopsMITE > |i.uops| then []
          else i.uops[i.uopsMITE..])
  }

  /** How many entries an instruction has. */
  function EntryCount(i: Instance): nat {
    if i.uopsMITE == 0 then 1 else if i.uopsMITE <= |i.uops| then i.uopsMITE else |i.uops|
  }

  lemma EntriesExactly(i: Instance, slot: nat)
    ensures var es := AllEntriesOf(i, slot);
            |es| == EntryCount(i) && forall k :: 0 <= k < |es| ==> IsEntry(i, slot, k, es[k])
  {
    hide RequiresExtraEntry;
    LargeIsExtra(i);
    if i.uopsMITE > 0 {
      EntryAt(i, slot, EntryCount(i));
    } else {
      assert i.uops[0..] == i.uops;
    }
  }

  // Blocks

  /** The entries of the instructions from one to another, as one block. */
  function Segment(ii: seq<Instance>, s: nat, n: nat): seq<Entry>
    requires n <= |ii|
    decreases n
  {
    if n <= s then []
    else
      var front := Segment(ii, s, n - 1);
      front + if ii[n - 1].macroFusedWithPrev then [] else AllEntriesOf(ii[n - 1], |front|)
  }

  /** The slots that these instructions take. */
  function Used(ii: seq<Instance>, s: nat, n: nat): nat
    requires n <= |ii|
    decreases n
  {
    if n <= s then 0
    else
      Used(ii, s, n - 1) +
      if ii[n - 1].macroFusedWithPrev then 0 else EntryCount(ii[n - 1]) + AsNat(IsLarge(ii[n - 1]))
  }

  predicate AnyMicrocode(ii: seq<Instance>, s: nat, n: nat)
    requires n <= |ii|
  {
    exists k :: s <= k < n && !ii[k].macroFusedWithPrev && ii[k].uopsMS > 0
  }

  /** The last block is made of the instructions from this one on. */
  ghost predicate LastFrom(ii: seq<Instance>, s: nat) {
    && s < |ii| && !ii[s].macroFusedWithPrev
    && Packed(ii).blocks == Packed(ii[..s]).blocks + [Segment(ii, s, |ii|)]
  }

  lemma {:induction false} SegmentPrefix(ii: seq<Instance>, i: Instance, s: nat, n: nat)
    requires n <= |ii|
    ensures Segment(ii + [i], s, n) == Segment(ii, s, n) && Used(ii + [i], s, n) == Used(ii, s, n)
    ensures AnyMicrocode(ii + [i], s, n) <==> AnyMicrocode(ii, s, n)
    decreases n
  {
    hide AllEntriesOf, EntryCount, IsLarge;
    if n > s {
      SegmentPrefix(ii, i, s, n - 1);
      assert (ii + [i])[n - 1] == ii[n - 1];
    }
    forall k | s <= k < n
      ensures (ii + [i])[k] == ii[k]
    {}
  }

  lemma RemainingIs(before: nat, i: Instance)
    ensures Remaining(before, i) ==
            if i.uopsMS > 0 then 0 else Monus(before, EntryCount(i) + AsNat(IsLarge(i)))
  {
    LargeIsExtra(i);
    hide RequiresExtraEntry, IsLarge;
  }

  ghost predicate RoomLeft(ii: seq<Instance>, s: nat)
  {
    Packed(ii).remaining == if AnyMicrocode(ii, s, |ii|) then 0 else Monus(BLOCK_SLOTS, Used(ii, s, |ii|))
  }

  lemma LastStart(ii: seq<Instance>, i: Instance)
    requires !i.macroFusedWithPrev && (i.uopsMS > 0 || Needed(i) > Packed(ii).remaining || Packed(ii).blocks == [])
    ensures LastFrom(ii + [i], |ii|) && RoomLeft(ii + [i], |ii|)
  {
    hide *;
    NewPacking(ii, i);
    NewRoom(ii, i);
    SegmentOne(ii, i);
    assert |ii + [i]| == |ii| + 1;
    StartsLast(ii, i, ii + [i]);
  }

  lemma NewPacking(ii: seq<Instance>, i: Instance)
    requires !i.macroFusedWithPrev && (i.uopsMS > 0 || Needed(i) > Packed(ii).remaining || Packed(ii).blocks == [])
    ensures Packed(ii + [i]) == Packing(Packed(ii).blocks + [AllEntriesOf(i, 0)], Remaining(BLOCK_SLOTS, i))
  {
    hide Packed, AllEntriesOf, Remaining, Needed, PackedWith;
    PackedSnoc(ii, i);
    PackedAnew(Packed(ii), i);
  }

  lemma NewRoom(ii: seq<Instance>, i: Instance)
    requires !i.macroFusedWithPrev
    ensures var all, n := ii + [i], |ii|;
            Remaining(BLOCK_SLOTS, i) == if AnyMicrocode(all, n, n + 1) then 0 else Monus(BLOCK_SLOTS, Used(all, n, n + 1))
  {
    hide AllEntriesOf, EntryCount, IsLarge, Remaining, Segment, Used, AnyMicrocode, Monus;
    RemainingIs(BLOCK_SLOTS, i);
    SegmentOne(ii, i);
  }

  lemma StartsLast(ii: seq<Instance>, i: Instance, all: seq<Instance>)
    requires all == ii + [i] && !i.macroFusedWithPrev
    requires Packed(all) == Packing(Packed(ii).blocks + [AllEntriesOf(i, 0)], Remaining(BLOCK_SLOTS, i))
    requires Segment(all, |ii|, |all|) == AllEntriesOf(i, 0)
    requires Remaining(BLOCK_SLOTS, i) ==
             if AnyMicrocode(all, |ii|, |all|) then 0 else Monus(BLOCK_SLOTS, Used(all, |ii|, |all|))
    ensures LastFrom(all, |ii|) && RoomLeft(all, |ii|)
  {
    hide Packed, AllEntriesOf, Remaining, Segment, Used, AnyMicrocode, Monus;
    assert all[..|ii|] == ii;
  }

  lemma PackedAnew(p: Packing, i: Instance)
    requires !i.macroFusedWithPrev && (i.uopsMS > 0 || Needed(i) > p.remaining || p.blocks == [])
    ensures PackedWith(p, i) == Packing(p.blocks + [AllEntriesOf(i, 0)], Remaining(BLOCK_SLOTS, i))
  {
    hide AllEntriesOf, Remaining, Needed;
  }

  lemma SegmentOne(ii: seq<Instance>, i: Instance)
    requires !i.macroFusedWithPrev
    ensures var all, n := ii + [i], |ii|;
            && Segment(all, n, n + 1) == AllEntriesOf(i, 0)
            && Used(all, n, n + 1) == EntryCount(i) + AsNat(IsLarge(i))
            && (AnyMicrocode(all, n, n + 1) <==> i.uopsMS > 0)
  {
    hide AllEntriesOf, EntryCount, IsLarge;
    var all, n := ii + [i], |ii|;
    assert all[n] == i;
    assert Segment(all, n, n) == [] && Used(all, n, n) == 0;
    assert [] + AllEntriesOf(i, 0) == AllEntriesOf(i, 0);
  }

  lemma PackedSnoc(ii: seq<Instance>, i: Instance)
    ensures Packed(ii + [i]) == PackedWith(Packed(ii), i)
  {
    assert (ii + [i])[..|ii|] == ii;
  }

  lemma LastOn(ii: seq<Instance>, i: Instance, s: nat)
    requires LastFrom(ii, s) && RoomLeft(ii, s)
    requires i.macroFusedWithPrev || (i.uopsMS == 0 && Needed(i) <= Packed(ii).remaining)
    ensures LastFrom(ii + [i], s) && RoomLeft(ii + [i], s)
  {
    hide Packed, AllEntriesOf, EntryCount, IsLarge, Remaining, Needed, AnyMicrocode;
    var all, n := ii + [i], |ii|;
    PackedSnoc(ii, i);
    SegmentPrefix(ii, i, s, n);
    assert all[..s] == ii[..s] && all[n] == i;
    MicrocodeSnoc(ii, i, s);
    if !i.macroFusedWithPrev {
      RemainingIs(Packed(ii).remaining, i);
      NeedsSlots(i);
    } else {
      assert Segment(ii, s, n) + [] == Segment(ii, s, n);
    }
  }

  lemma MicrocodeSnoc(ii: seq<Instance>, i: Instance, s: nat)
    requires s <= |ii| && (i.macroFusedWithPrev || i.uopsMS == 0)
    ensures AnyMicrocode(ii + [i], s, |ii| + 1) <==> AnyMicrocode(ii, s, |ii|)
  {
    SegmentPrefix(ii, i, s, |ii|);
    assert (ii + [i])[|ii|] == i;
  }

  /** Where the last block begins. */
  lemma {:induction false} LastBlock(ii: seq<Instance>) returns (s: nat)
    requires Packed(ii).blocks != []
    ensures LastFrom(ii, s) && RoomLeft(ii, s)
  {
    hide PackedWith, LastFrom, RoomLeft, Needed;
    var front, i := ii[..|ii| - 1], ii[|ii| - 1];
    assert ii == front + [i];
    PackedSnoc(front, i);
    if !i.macroFusedWithPrev && (i.uopsMS > 0 || Needed(i) > Packed(front).remaining || Packed(front).blocks == []) {
      s := |front|;
      LastStart(front, i);
    } else {
      WasNotEmpty(Packed(front), i);
      s := LastBlock(front);
      LastOn(front, i, s);
    }
  }

  lemma WasNotEmpty(p: Packing, i: Instance)
    requires PackedWith(p, i).blocks != []
    ensures i.macroFusedWithPrev ==> p.blocks != []
  {
    hide AllEntriesOf, Remaining, Needed;
  }

  /** An instruction begins a block exactly if it is the first one, needs microcode, comes after microcode, or does not fit
      into what is left of six slots. */
  lemma BlockBegins(ii: seq<Instance>, i: Instance, s: nat)
    requires !i.macroFusedWithPrev && Packed(ii).blocks != [] && LastFrom(ii, s) && RoomLeft(ii, s)
    ensures var needed := (if i.uopsMITE > 0 then i.uopsMITE else 1) + AsNat(IsLarge(i));
            LastFrom(ii + [i], |ii|) <==>
            i.uopsMS > 0 || AnyMicrocode(ii, s, |ii|) || Used(ii, s, |ii|) + needed > 6
    ensures LastFrom(ii + [i], |ii|) || LastFrom(ii + [i], s)
  {
    hide Packed, RoomLeft, LastFrom, IsLarge;
    LargeIsExtra(i);
    RoomIs(ii, s);
    if i.uopsMS > 0 || Needed(i) > Packed(ii).remaining {
      LastStart(ii, i);
    } else {
      LastOn(ii, i, s);
      OneBlockMore(ii, i);
      SameBlocks(ii, i);
    }
  }

  lemma RoomIs(ii: seq<Instance>, s: nat)
    requires RoomLeft(ii, s)
    ensures Packed(ii).remaining == if AnyMicrocode(ii, s, |ii|) then 0 else Monus(6, Used(ii, s, |ii|))
  {}

  lemma OneBlockMore(ii: seq<Instance>, i: Instance)
    ensures LastFrom(ii + [i], |ii|) ==> |Packed(ii + [i]).blocks| == |Packed(ii).blocks| + 1
  {
    hide Packed, Segment;
    assert (ii + [i])[..|ii|] == ii;
  }

  lemma SameBlocks(ii: seq<Instance>, i: Instance)
    requires i.uopsMS == 0 && Needed(i) <= Packed(ii).remaining && Packed(ii).blocks != []
    ensures |Packed(ii + [i]).blocks| == |Packed(ii).blocks|
  {
    hide Packed, AllEntriesOf, Remaining, Needed;
    PackedSnoc(ii, i);
  }
}

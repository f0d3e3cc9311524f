/** The way of the uops from the decoded stream buffer to the uop queue (`FrontEnd.cycle`, `addNewCacheBlock`). */
module DsbPath {
  import opened Wrappers
  import opened Sequences
  import opened DsbPacking
  import opened Buffer = Dsb
  import MitePath

  lemma BlocksEntered(q: seq<seq<Entry>>, cacheBlock: seq<Instance>)
    requires AllPackable(cacheBlock)
    ensures var blocks := Packed(cacheBlock).blocks;
            [] !in blocks && EntryUops(Flat(q + blocks)) == EntryUops(Flat(q)) + InstanceUops(cacheBlock)
  {
    hide Flat, EntryUops, BlockUops, InstanceUops, Packed;
    var blocks := Packed(cacheBlock).blocks;
    PackedWell(cacheBlock);
    PackedUops(blocks);
    FlatConcat(q, blocks);
    SlotsConcat(Flat(q), Flat(blocks));
    forall b | 0 <= b < |blocks|
      ensures blocks[b] != []
    {
      assert WellPacked(blocks[b]);
    }
  }

  /** The front end while the uops come from the decoded stream buffer. */
  class FrontEnd {
    const dsb: Buffer.Dsb
    const ms: MitePath.MicrocodeSequencer
    ghost var entered: seq<nat>
    ghost var appended: seq<nat>

    constructor (c: Buffer.Config, dsbMsStall: nat)
      requires c.blockSize > 0
      ensures Valid() && entered == [] && appended == [] && fresh(dsb) && fresh(ms) && dsb.c == c
    {
      dsb := new Buffer.Dsb(c);
      ms := new MitePath.MicrocodeSequencer(dsbMsStall);
      entered, appended := [], [];
    }

    /** The uops appended so far, those queued in the microcode sequencer and those in the buffer are the uops of the
        instructions that have entered the buffer, in program order. */
    ghost predicate Valid()
      reads this, dsb, ms
    {
      dsb.Valid() && appended + ms.uopQueue + EntryUops(Flat(dsb.dsbBlockQueue)) == entered
    }

    /** Packs the instructions of a cache block into the buffer. */
    method AddNewCacheBlock(cacheBlock: seq<Instance>)
      requires Valid() && AllPackable(cacheBlock)
      modifies this, dsb`dsbBlockQueue
      ensures Valid() && entered == old(entered) + InstanceUops(cacheBlock) && appended == old(appended)
      ensures dsb.dsbBlockQueue == old(dsb.dsbBlockQueue) + Packed(cacheBlock).blocks
    {
      hide Flat, EntryUops, InstanceUops, AllPackable, Packed;
      BlocksEntered(dsb.dsbBlockQueue, cacheBlock);
      var blocks := GetDsbBlocks(cacheBlock);
      dsb.dsbBlockQueue := dsb.dsbBlockQueue + blocks;
      entered := entered + InstanceUops(cacheBlock);
    }

    /** One clock cycle. The next uops of the program are appended: those of the microcode sequencer while it is busy, and
        otherwise those that the buffer delivers. */
    method Cycle() returns (newUops: seq<nat>, ghost p: Position)
      requires Valid()
      modifies this, dsb, ms
      ensures Valid() && entered == old(entered) && appended == old(appended) + newUops && appended <= entered
      ensures if old(ms.stalled) > 0 || old(ms.uopQueue) != [] then
                && newUops + ms.uopQueue == old(ms.uopQueue) && dsb.dsbBlockQueue == old(dsb.dsbBlockQueue)
                && (if old(ms.stalled) > 0 then newUops == [] else |newUops| == 4 || ms.uopQueue == [])
              else
                && IsPosition(old(dsb.dsbBlockQueue), p) && p.block <= 2
                && dsb.dsbBlockQueue == Rest(old(dsb.dsbBlockQueue), p)
                && newUops == UopsOfAll(EmittedOf(Popped(old(dsb.dsbBlockQueue), p)))
                && ms.uopQueue == MicrocodeOf(Popped(old(dsb.dsbBlockQueue), p))
                && (old(dsb.dsbBlockQueue) != [] ==>
                      StopsFirst(dsb.c, old(dsb.dsbBlockQueue), old(dsb.delayInPrevCycle), p))
    {
      hide Flat, EntryUops, Popped, Rest, EmittedOf, MicrocodeOf, StopsFirst, OnlyLastEnds, UopsOfAll, IsPosition, TakesTwo;
      p := Position(0, 0);
      if ms.IsBusy() {
        newUops := ms.Cycle();
        assert appended + newUops + ms.uopQueue == appended + (newUops + ms.uopQueue);
      } else {
        ghost var q := dsb.dsbBlockQueue;
        var emitted;
        emitted, p := dsb.Cycle(ms);
        newUops := UopsOfAll(emitted);
        NothingLost(q, p);
        InOrder(appended, newUops, ms.uopQueue, EntryUops(Flat(dsb.dsbBlockQueue)));
      }
      appended := appended + newUops;
      assert appended + ms.uopQueue + EntryUops(Flat(dsb.dsbBlockQueue)) ==
             appended + (ms.uopQueue + EntryUops(Flat(dsb.dsbBlockQueue)));
    }
  }

  lemma InOrder(a: seq<nat>, b: seq<nat>, c: seq<nat>, d: seq<nat>)
    ensures a + [] + (b + c + d) == a + b + c + d
  {}
}

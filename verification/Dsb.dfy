/** The decoded stream buffer delivers the uops of at most two blocks a cycle (`Dsb::cycle`). */
module Dsb {
  import opened Wrappers
  import opened Sequences
  import opened Arithmetic
  import opened MitePath
  import opened DsbPacking

  datatype Config = Config(width: nat, blockSize: nat)

  datatype Delivered = Delivered(instr: Instance, uop: nat)

  /** How far the buffer has been read: all of the first `block` blocks and the first `entry` entries of the next. */
  datatype Position = Position(block: nat, entry: nat)

  function Last(block: seq<Entry>): Entry
    requires block != []
  {
    block[|block| - 1]
  }

  ghost predicate IsPosition(q: seq<seq<Entry>>, p: Position) {
    && p.block <= |q|
    && if p.block < |q| then p.entry < |q[p.block]| else p.entry == 0
  }

  function Popped(q: seq<seq<Entry>>, p: Position): seq<Entry>
    requires IsPosition(q, p)
  {
    Flat(q[..p.block]) + if p.block < |q| then q[p.block][..p.entry] else []
  }

  function Rest(q: seq<seq<Entry>>, p: Position): seq<seq<Entry>>
    requires IsPosition(q, p)
  {
    if p.block < |q| then [q[p.block][p.entry..]] + q[p.block + 1..] else []
  }

  /** What has been read and what is left is everything, in order. */
  lemma {:induction false} PositionSplits(q: seq<seq<Entry>>, p: Position)
    requires IsPosition(q, p)
    ensures Flat(q) == Popped(q, p) + Flat(Rest(q, p))
  {
    if p.block < |q| {
      var b := q[p.block];
      assert q == q[..p.block] + ([b] + q[p.block + 1..]);
      FlatConcat(q[..p.block], [b] + q[p.block + 1..]);
      assert b == b[..p.entry] + b[p.entry..];
      var tail := Flat(q[p.block + 1..]);
      assert b[..p.entry] + b[p.entry..] + tail == b[..p.entry] + (b[p.entry..] + tail);
    } else {
      assert q[..p.block] == q;
    }
  }

  function EmittedOf(popped: seq<Entry>): (r: seq<Delivered>)
    ensures |r| <= |popped|
  {
    if popped == [] then []
    else
      var last := Last(popped);
      EmittedOf(popped[..|popped| - 1]) + if last.uop.Some? then [Delivered(last.instr, last.uop.value)] else []
  }

  function MicrocodeOf(popped: seq<Entry>): seq<nat> {
    if popped == [] then [] else MicrocodeOf(popped[..|popped| - 1]) + Last(popped).msUops
  }

  function UopsOfAll(ds: seq<Delivered>): seq<nat> {
    seq(|ds|, k requires 0 <= k < |ds| => ds[k].uop)
  }

  /** An entry that ends the cycle: microcode follows it, or it takes a second slot. */
  predicate Ends(e: Entry) {
    e.msUops != [] || TakesTwo(e)
  }

  predicate TakesTwo(e: Entry) {
    e.uop.Some? && e.requiresExtraEntry
  }

  predicate Ended(popped: seq<Entry>) {
    popped != [] && Ends(Last(popped))
  }

  predicate OnlyLastEnds(popped: seq<Entry>) {
    forall k :: 0 <= k < |popped| - 1 ==> !Ends(popped[k])
  }

  lemma {:induction false} NoMicrocode(popped: seq<Entry>)
    requires forall e :: e in popped ==> e.msUops == []
    ensures MicrocodeOf(popped) == [] && UopsOfAll(EmittedOf(popped)) == EntryUops(popped)
  {
    if popped != [] {
      NoMicrocode(popped[..|popped| - 1]);
      assert Last(popped) in popped;
    }
  }

  /** The uops come out in order: those of the list first, then those that the microcode sequencer has taken over. */
  lemma {:induction false} DeliveredInOrder(popped: seq<Entry>)
    requires OnlyLastEnds(popped)
    ensures UopsOfAll(EmittedOf(popped)) + MicrocodeOf(popped) == EntryUops(popped)
  {
    if popped != [] {
      hide EmittedOf, MicrocodeOf, EntryUops;
      var front, last := popped[..|popped| - 1], Last(popped);
      assert popped == front + [last];
      NoMicrocode(front);
      PoppedOne(front, last);
      EntriesSnoc(front, last);
      assert UopsOfAll(EmittedOf(popped)) == EntryUops(front) + if last.uop.Some? then [last.uop.value] else [];
    }
  }

  /** Nothing is lost or reordered: the uops of the queue are those delivered, then those that the microcode sequencer has
      taken over, then those still in the queue. */
  lemma NothingLost(q: seq<seq<Entry>>, p: Position)
    requires IsPosition(q, p) && OnlyLastEnds(Popped(q, p))
    ensures EntryUops(Flat(q)) ==
            UopsOfAll(EmittedOf(Popped(q, p))) + MicrocodeOf(Popped(q, p)) + EntryUops(Flat(Rest(q, p)))
  {
    hide Popped, Rest, Flat, EntryUops;
    PositionSplits(q, p);
    DeliveredInOrder(Popped(q, p));
    SlotsConcat(Popped(q, p), Flat(Rest(q, p)));
  }

  /** A queue of the packed blocks of some instructions holds their uops in order. */
  lemma {:induction false} PackedUops(blocks: seq<seq<Entry>>)
    ensures EntryUops(Flat(blocks)) == BlockUops(blocks)
  {
    if blocks == [] {
      NoEntries();
    } else {
      hide EntryUops;
      var front, last := blocks[..|blocks| - 1], blocks[|blocks| - 1];
      assert blocks == front + [last];
      FlatConcat(front, [last]);
      assert Flat([last]) == last + Flat([]) == last;
      assert Flat(blocks) == Flat(front) + last;
      SlotsConcat(Flat(front), last);
      PackedUops(front);
      BlockUopsSnoc(front, last);
    }
  }

  /** The slots for the next block, by how much of this cycle the block just finished has taken. */
  function SlotsForNext(c: Config, newBlockStarted: bool, delayed: bool, last: Entry, next: Entry, emitted: nat,
                        remaining: nat): (r: nat)
    requires emitted + remaining <= c.width && c.blockSize > 0
    ensures emitted + r <= c.width
  {
    var sameLine := next.instr.address / c.blockSize == last.instr.address / c.blockSize;
    if c.width != 6 then remaining
    else if c.blockSize == 32 && sameLine && last.instr.isLastDecoded && !delayed then 0
    else if sameLine then remaining
    else if newBlockStarted then
      if emitted == 1 || emitted == 2 then 4
      else if emitted == 3 || emitted == 4 then 2
      else if emitted == 5 then 1
      else remaining
    else if last.instr.isLastDecoded then
      if emitted == 1 || (emitted == 2 && last.slot >= 4) then 4 else if remaining < 2 then remaining else 2
    else remaining
  }

  /** Whether a second block can be delivered in the same cycle. */
  predicate CanFollow(emitted: seq<Delivered>, block: seq<Entry>)
    requires block != []
  {
    && Last(block).msUops == []
    && (emitted == [] ||
        var prev := emitted[|emitted| - 1].instr;
        prev.address + prev.size == block[0].instr.address || prev.isLastDecoded)
  }

  /** The uops that a cycle may deliver up to a position in its second block. */
  function Budget(c: Config, q: seq<seq<Entry>>, delayed: bool, p: Position): (r: nat)
    requires [] !in q && c.blockSize > 0 && p.block <= 1 && q != []
  {
    if p.block == 0 || |q| == 1 || |EmittedOf(q[0])| > c.width then c.width
    else
      assert q[0] in q && q[1] in q;
      var e := |EmittedOf(q[0])|;
      e + SlotsForNext(c, q[0][0].slot == 0, delayed, Last(q[0]), q[1][0], e, c.width - e)
  }

  predicate SameLine(c: Config, a: Instance, b: Instance)
    requires c.blockSize > 0
  {
    a.address / c.blockSize == b.address / c.blockSize
  }

  /** How many uops a cycle of six slots delivers in all when its first block held `e` of them and its second block is of
      another line: all six only after 0, 2, 4, or at least 5 uops of a new block. */
  const AFTER_NEW_BLOCK: seq<nat> := [6, 5, 6, 5, 6, 6, 6]

  lemma BudgetExactly(c: Config, q: seq<seq<Entry>>, delayed: bool, p: Position)
    requires [] !in q && c.blockSize > 0 && p.block <= 1 && q != []
    ensures c.width != 6 || p.block == 0 || |q| == 1 ==> Budget(c, q, delayed, p) == c.width
    ensures c.width == 6 && p.block == 1 && |q| > 1 && |EmittedOf(q[0])| <= 6 ==>
              var e, last, next := |EmittedOf(q[0])|, Last(q[0]), q[1][0];
              Budget(c, q, delayed, p) ==
              if SameLine(c, last.instr, next.instr) then
                if c.blockSize == 32 && last.instr.isLastDecoded && !delayed then e else 6
              else if q[0][0].slot == 0 then AFTER_NEW_BLOCK[e]
              else if !last.instr.isLastDecoded || e >= 4 || (e == 2 && last.slot >= 4) then 6
              else if e == 0 then 2
              else if e == 2 then 4
              else 5
  {}

  /** Why a cycle delivers no more than up to a position. */
  ghost predicate Stopped(c: Config, q: seq<seq<Entry>>, delayed: bool, p: Position)
    requires [] !in q && c.blockSize > 0 && IsPosition(q, p) && p.block <= 2
  {
    var popped, rest := Popped(q, p), Rest(q, p);
    || rest == [] || p.block == 2 || Ended(popped)
    || |EmittedOf(popped)| == Budget(c, q, delayed, p)
    || (rest[0][0].requiresExtraEntry && |EmittedOf(popped)| + 1 == Budget(c, q, delayed, p))
    || (p == Position(1, 0) && !CanFollow(EmittedOf(popped), rest[0]))
  }

  predicate Precedes(n: Position, p: Position) {
    n.block < p.block || (n.block == p.block && n.entry < p.entry)
  }

  ghost predicate Passed(c: Config, q: seq<seq<Entry>>, delayed: bool, p: Position)
    requires [] !in q && c.blockSize > 0 && p.block <= 2
  {
    forall n :: IsPosition(q, n) && Precedes(n, p) ==> !Stopped(c, q, delayed, n)
  }

  /** The position is the first one at which a cycle has to stop. */
  ghost predicate StopsFirst(c: Config, q: seq<seq<Entry>>, delayed: bool, p: Position)
    requires [] !in q && c.blockSize > 0 && IsPosition(q, p) && p.block <= 2
  {
    Stopped(c, q, delayed, p) && Passed(c, q, delayed, p)
  }

  /** There is only one such position. */
  lemma StopsOnce(c: Config, q: seq<seq<Entry>>, delayed: bool, p: Position, n: Position)
    requires [] !in q && c.blockSize > 0 && IsPosition(q, p) && p.block <= 2 && IsPosition(q, n) && n.block <= 2
    requires StopsFirst(c, q, delayed, p) && StopsFirst(c, q, delayed, n)
    ensures p == n
  {
    hide Stopped, IsPosition;
  }

  lemma Progresses(c: Config, q: seq<seq<Entry>>, delayed: bool, p: Position)
    requires [] !in q && q != [] && c.blockSize > 0 && c.width >= 2 && IsPosition(q, p) && p.block <= 2
    requires Stopped(c, q, delayed, p)
    ensures Popped(q, p) != []
  {
    assert q[0] in q;
    if p.block == 0 {
      assert q[..0] == [];
    } else {
      assert q[..p.block][0] == q[0];
    }
  }

  function Next(q: seq<seq<Entry>>, p: Position): (n: Position)
    requires IsPosition(q, p) && p.block < |q|
    ensures n == Position(p.block + 1, 0) || (n == Position(p.block, p.entry + 1) && n.entry < |q[p.block]|)
  {
    if p.entry + 1 < |q[p.block]| then Position(p.block, p.entry + 1) else Position(p.block + 1, 0)
  }

  lemma AdvanceWithin(q: seq<seq<Entry>>, p: Position)
    requires IsPosition(q, p) && p.block < |q| && p.entry + 1 < |q[p.block]|
    ensures var n, rest := Position(p.block, p.entry + 1), Rest(q, p);
            && IsPosition(q, n) && Popped(q, n) == Popped(q, p) + [rest[0][0]]
            && Rest(q, n) == [rest[0][1..]] + rest[1..] && |rest[0]| > 1
  {
    hide Flat;
    var b := q[p.block];
    assert b[..p.entry + 1] == b[..p.entry] + [b[p.entry]];
    assert Flat(q[..p.block]) + (b[..p.entry] + [b[p.entry]]) == Flat(q[..p.block]) + b[..p.entry] + [b[p.entry]];
    assert b[p.entry..][1..] == b[p.entry + 1..];
  }

  lemma AdvanceBlock(q: seq<seq<Entry>>, p: Position)
    requires [] !in q && IsPosition(q, p) && p.block < |q| && p.entry + 1 == |q[p.block]|
    ensures var n, rest := Position(p.block + 1, 0), Rest(q, p);
            && IsPosition(q, n) && Popped(q, n) == Popped(q, p) + [rest[0][0]]
            && Rest(q, n) == rest[1..] && |rest[0]| == 1
  {
    var b, n := q[p.block], p.block + 1;
    FlatBlock(q, p.block);
    hide Flat;
    assert b == b[..p.entry] + [b[p.entry]];
    assert Flat(q[..p.block]) + (b[..p.entry] + [b[p.entry]]) == Flat(q[..p.block]) + b[..p.entry] + [b[p.entry]];
    if n < |q| {
      assert q[n] in q;
      assert q[n][..0] == [] && Flat(q[..n]) + [] == Flat(q[..n]);
      assert [q[n][0..]] + q[n + 1..] == q[n..];
    } else {
      assert q[n..] == [];
    }
  }

  lemma FlatBlock(q: seq<seq<Entry>>, k: nat)
    requires k < |q|
    ensures Flat(q[..k + 1]) == Flat(q[..k]) + q[k]
  {
    assert q[..k + 1] == q[..k] + [q[k]];
    FlatConcat(q[..k], [q[k]]);
    assert Flat([q[k]]) == q[k] + Flat([]);
  }

  lemma Advance(q: seq<seq<Entry>>, p: Position)
    requires [] !in q && IsPosition(q, p) && p.block < |q|
    ensures var n, rest := Next(q, p), Rest(q, p);
            && IsPosition(q, n) && Popped(q, n) == Popped(q, p) + [rest[0][0]]
            && Rest(q, n) == (if |rest[0]| > 1 then [rest[0][1..]] + rest[1..] else rest[1..])
            && rest[0] != [] && (|rest[0]| > 1 <==> n.block == p.block)
  {
    hide Popped, Flat;
    if p.entry + 1 < |q[p.block]| {
      AdvanceWithin(q, p);
    } else {
      AdvanceBlock(q, p);
    }
  }

  lemma PoppedOne(popped: seq<Entry>, e: Entry)
    requires OnlyLastEnds(popped) && !Ended(popped)
    ensures OnlyLastEnds(popped + [e]) && Last(popped + [e]) == e
    ensures EmittedOf(popped + [e]) ==
            EmittedOf(popped) + if e.uop.Some? then [Delivered(e.instr, e.uop.value)] else []
    ensures MicrocodeOf(popped + [e]) == MicrocodeOf(popped) + e.msUops
  {
    assert (popped + [e])[..|popped|] == popped;
  }

  /** What is known about a cycle that has come to a position. */
  ghost predicate UpTo(c: Config, q: seq<seq<Entry>>, delayed: bool, p: Position, emitted: seq<Delivered>,
                       remaining: nat, delay: bool)
    requires [] !in q && q != [] && c.blockSize > 0
  {
    && IsPosition(q, p) && p.block <= 2 && (p.block == 2 ==> p.entry == 0)
    && emitted == EmittedOf(Popped(q, p)) && OnlyLastEnds(Popped(q, p))
    && delay == (Popped(q, p) != [] && TakesTwo(Last(Popped(q, p))))
    && |emitted| + AsNat(delay) + remaining <= c.width
    && (remaining > 0 ==> !Ended(Popped(q, p)))
    && (p.block <= 1 && !Ended(Popped(q, p)) ==> |emitted| + remaining == Budget(c, q, delayed, p))
  }

  /** Whether a block has just been finished and the next one not been looked at. */
  ghost predicate Between(p: Position, remaining: nat, secondLoaded: bool, needLoad: bool) {
    && (remaining > 0 && p.block == 2 ==> secondLoaded && needLoad)
    && (p.block == 0 || p.entry > 0 ==> !needLoad)
    && (p.block == 0 ==> !secondLoaded)
    && (remaining > 0 && p == Position(1, 0) ==> needLoad && !secondLoaded)
    && (p.block == 1 && p.entry > 0 ==> secondLoaded)
  }

  lemma FirstBlock(q: seq<seq<Entry>>)
    requires [] !in q && q != []
    ensures IsPosition(q, Position(1, 0)) && Popped(q, Position(1, 0)) == q[0]
  {
    assert q[..1] == [q[0]];
    assert Flat([q[0]]) == q[0] + Flat([]);
    if |q| > 1 {
      assert q[1] in q;
    }
  }

  lemma StoppedBetween(c: Config, q: seq<seq<Entry>>, delayed: bool)
    requires [] !in q && c.blockSize > 0 && |q| > 1
    ensures IsPosition(q, Position(1, 0)) && q[0] != [] && q[1] != []
    ensures Stopped(c, q, delayed, Position(1, 0)) <==>
            || Ended(q[0]) || |EmittedOf(q[0])| == Budget(c, q, delayed, Position(1, 0))
            || (q[1][0].requiresExtraEntry && |EmittedOf(q[0])| + 1 == Budget(c, q, delayed, Position(1, 0)))
            || !CanFollow(EmittedOf(q[0]), q[1])
  {
    FirstBlock(q);
    assert q[0] in q && q[1] in q && q[1][0..] == q[1];
    hide Budget, CanFollow, EmittedOf, Popped;
  }

  /** A cycle that has delivered its first block and has slots left begins the next one exactly if that does not end in
      microcode and is of the next instruction in memory, or the last instruction delivered ends a decode group. */
  lemma SecondBlockExactly(c: Config, q: seq<seq<Entry>>, delayed: bool, p: Position)
    requires [] !in q && c.blockSize > 0 && |q| > 1 && IsPosition(q, p) && 1 <= p.block <= 2
    requires StopsFirst(c, q, delayed, p) && !Ended(q[0])
    requires var left := Budget(c, q, delayed, Position(1, 0)) - |EmittedOf(q[0])|;
             q[1] in q && left != 0 && (q[1][0].requiresExtraEntry ==> left != 1)
    ensures q[1] in q
    ensures p != Position(1, 0) <==>
            && q[1][|q[1]| - 1].msUops == []
            && forall last :: EmittedOf(q[0]) != [] && last == EmittedOf(q[0])[|EmittedOf(q[0])| - 1].instr ==>
                 last.isLastDecoded || last.address + last.size == q[1][0].instr.address
  {
    StoppedBetween(c, q, delayed);
    hide Stopped, Budget, EmittedOf;
  }

  /** The slots that are left after an entry, as long as its block goes on. */
  function SlotsAfter(e: Entry, remaining: nat): nat
    requires remaining > 0
  {
    if Ends(e) then 0 else if e.uop.Some? then remaining - 1 else remaining
  }

  lemma SameBlock(c: Config, q: seq<seq<Entry>>, delayed: bool, p: Position, emitted: seq<Delivered>, remaining: nat,
                  e: Entry)
    requires [] !in q && q != [] && c.blockSize > 0 && remaining > 0
    requires UpTo(c, q, delayed, p, emitted, remaining, false) && p.block < |q| && p.block <= 1
    requires e == q[p.block][p.entry] && (e.requiresExtraEntry ==> remaining >= 2)
    requires Next(q, p).block == p.block
    ensures UpTo(c, q, delayed, Next(q, p), emitted + (if e.uop.Some? then [Delivered(e.instr, e.uop.value)] else []),
                 SlotsAfter(e, remaining), TakesTwo(e))
  {
    hide Popped, Rest, EmittedOf, SlotsForNext, OnlyLastEnds, MicrocodeOf;
    Advance(q, p);
    RestFirst(q, p);
    PoppedOne(Popped(q, p), e);
    SameBudget(c, q, delayed, p);
  }

  lemma SameBudget(c: Config, q: seq<seq<Entry>>, delayed: bool, p: Position)
    requires [] !in q && q != [] && c.blockSize > 0 && IsPosition(q, p) && p.block < |q| && p.block <= 1
    ensures Next(q, p).block == p.block ==> Budget(c, q, delayed, Next(q, p)) == Budget(c, q, delayed, p)
  {}

  lemma RestFirst(q: seq<seq<Entry>>, p: Position)
    requires IsPosition(q, p) && p.block < |q|
    ensures Rest(q, p) != [] && Rest(q, p)[0] != [] && Rest(q, p)[0][0] == q[p.block][p.entry]
  {}

  /** The slots for the next block when an entry ends its block. */
  function SlotsAtEnd(c: Config, q: seq<seq<Entry>>, delayed: bool, block: nat, e: Entry, emitted: nat,
                      remaining: nat): nat
    requires [] !in q && block < |q| && c.blockSize > 0 && emitted + remaining <= c.width
  {
    if remaining > 0 && block + 1 < |q| then
      assert q[0] in q && q[block + 1] in q;
      SlotsForNext(c, q[0][0].slot == 0, delayed, e, q[block + 1][0], emitted, remaining)
    else remaining
  }

  lemma FirstBudget(c: Config, q: seq<seq<Entry>>, delayed: bool, emitted: seq<Delivered>, remaining: nat)
    requires [] !in q && q != [] && c.blockSize > 0
    requires emitted == EmittedOf(q[0]) && |emitted| + remaining == c.width
    ensures q[0] in q && |emitted| + SlotsAtEnd(c, q, delayed, 0, Last(q[0]), |emitted|, remaining) ==
                         Budget(c, q, delayed, Position(1, 0))
  {}

  lemma BlockDone(c: Config, q: seq<seq<Entry>>, delayed: bool, p: Position, emitted: seq<Delivered>, remaining: nat,
                  e: Entry)
    requires [] !in q && q != [] && c.blockSize > 0 && remaining > 0
    requires UpTo(c, q, delayed, p, emitted, remaining, false) && p.block < |q| && p.block <= 1
    requires e == q[p.block][p.entry] && (e.requiresExtraEntry ==> remaining >= 2)
    requires Next(q, p) == Position(p.block + 1, 0)
    ensures var em := emitted + if e.uop.Some? then [Delivered(e.instr, e.uop.value)] else [];
            && |em| + SlotsAfter(e, remaining) <= c.width
            && UpTo(c, q, delayed, Next(q, p), em,
                    SlotsAtEnd(c, q, delayed, p.block, e, |em|, SlotsAfter(e, remaining)), TakesTwo(e))
  {
    hide Popped, Rest, EmittedOf, OnlyLastEnds, MicrocodeOf, SlotsForNext, Budget;
    Advance(q, p);
    RestFirst(q, p);
    PoppedOne(Popped(q, p), e);
    var em := emitted + if e.uop.Some? then [Delivered(e.instr, e.uop.value)] else [];
    if p.block == 0 {
      FirstBlock(q);
      FullBudget(c, q, delayed, p);
      if !Ends(e) {
        FirstBudget(c, q, delayed, em, SlotsAfter(e, remaining));
      }
    }
  }

  lemma FullBudget(c: Config, q: seq<seq<Entry>>, delayed: bool, p: Position)
    requires [] !in q && q != [] && c.blockSize > 0 && p.block == 0
    ensures Budget(c, q, delayed, p) == c.width
  {}

  lemma AtStart(c: Config, q: seq<seq<Entry>>, delayed: bool)
    requires [] !in q && c.blockSize > 0
    ensures IsPosition(q, Position(0, 0)) && Popped(q, Position(0, 0)) == [] && Rest(q, Position(0, 0)) == q
    ensures EmittedOf([]) == [] && MicrocodeOf([]) == [] && OnlyLastEnds([])
    ensures q != [] ==> UpTo(c, q, delayed, Position(0, 0), [], c.width, false)
  {
    if q != [] {
      assert q[0] in q;
      assert [q[0][0..]] + q[1..] == q;
      assert q[..0] == [];
    }
  }

  lemma NotEnded(c: Config, q: seq<seq<Entry>>, delayed: bool, p: Position, emitted: seq<Delivered>, remaining: nat,
                 delay: bool)
    requires [] !in q && q != [] && c.blockSize > 0 && UpTo(c, q, delayed, p, emitted, remaining, delay)
    requires remaining > 0
    ensures !delay && !Ended(Popped(q, p)) && OnlyLastEnds(Popped(q, p)) && MicrocodeOf(Popped(q, p)) == []
    ensures p.block <= 2 && emitted == EmittedOf(Popped(q, p))
  {
    hide Popped, Budget, EmittedOf, MicrocodeOf;
    NoMicrocode(Popped(q, p));
  }

  lemma RestEmpty(q: seq<seq<Entry>>, p: Position)
    requires [] !in q && IsPosition(q, p)
    ensures Rest(q, p) == [] <==> p.block == |q|
    ensures Rest(q, p) != [] ==> Rest(q, p)[0] != []
  {}

  lemma NextFirst(q: seq<seq<Entry>>, p: Position)
    requires [] !in q && IsPosition(q, p) && p.block < |q| && Next(q, p).block != p.block
    ensures Next(q, p) == Position(p.block + 1, 0)
    ensures Rest(q, Next(q, p)) != [] <==> p.block + 1 < |q|
    ensures p.block + 1 < |q| ==> q[p.block + 1] != [] && Rest(q, Next(q, p))[0] == q[p.block + 1]
  {}

  lemma StopsBetween(c: Config, q: seq<seq<Entry>>, delayed: bool, p: Position, emitted: seq<Delivered>)
    requires [] !in q && c.blockSize > 0 && IsPosition(q, p) && p.block <= 2 && emitted == EmittedOf(Popped(q, p))
    requires p.block == 2 || Rest(q, p) == [] || (p == Position(1, 0) && Rest(q, p)[0] != [] &&
                                                  !CanFollow(emitted, Rest(q, p)[0]))
    ensures Stopped(c, q, delayed, p)
  {
    RestEmpty(q, p);
  }

  lemma StopsAtExtra(c: Config, q: seq<seq<Entry>>, delayed: bool, p: Position, emitted: seq<Delivered>)
    requires [] !in q && q != [] && c.blockSize > 0 && UpTo(c, q, delayed, p, emitted, 1, false) && p.block < |q|
    requires Rest(q, p) != [] && Rest(q, p)[0] != [] && Rest(q, p)[0][0].requiresExtraEntry
    ensures Stopped(c, q, delayed, p)
  {
    hide Popped, Rest, EmittedOf, Budget;
  }

  /** A cycle that delivers the entry at a position does not have to stop there. */
  lemma GoesOn(c: Config, q: seq<seq<Entry>>, delayed: bool, p: Position, emitted: seq<Delivered>, remaining: nat)
    requires [] !in q && q != [] && c.blockSize > 0 && UpTo(c, q, delayed, p, emitted, remaining, false)
    requires remaining > 0 && p.block < |q| && p.block <= 1
    requires q[p.block][p.entry].requiresExtraEntry ==> remaining >= 2
    requires p == Position(1, 0) ==> Rest(q, p) != [] && Rest(q, p)[0] != [] && CanFollow(emitted, Rest(q, p)[0])
    ensures !Stopped(c, q, delayed, p)
  {
    RestEmpty(q, p);
    RestFirst(q, p);
    hide Popped, Rest, EmittedOf, Budget, CanFollow, OnlyLastEnds;
  }

  lemma PassedNext(c: Config, q: seq<seq<Entry>>, delayed: bool, p: Position)
    requires [] !in q && c.blockSize > 0 && IsPosition(q, p) && p.block < |q| && p.block <= 1
    requires Passed(c, q, delayed, p) && !Stopped(c, q, delayed, p)
    ensures Passed(c, q, delayed, Next(q, p))
  {
    hide Stopped;
    forall n | IsPosition(q, n) && Precedes(n, Next(q, p))
      ensures !Stopped(c, q, delayed, n)
    {
      assert Precedes(n, p) || n == p;
    }
  }

  lemma NonePassed(c: Config, q: seq<seq<Entry>>, delayed: bool)
    requires [] !in q && c.blockSize > 0
    ensures Passed(c, q, delayed, Position(0, 0))
  {
    hide Stopped;
  }

  lemma StopsFull(c: Config, q: seq<seq<Entry>>, delayed: bool, p: Position, emitted: seq<Delivered>, delay: bool)
    requires [] !in q && q != [] && c.blockSize > 0 && UpTo(c, q, delayed, p, emitted, 0, delay)
    ensures p.block <= 2 && Stopped(c, q, delayed, p)
  {
    hide Popped, Rest, EmittedOf, Budget;
    RestEmpty(q, p);
  }

  lemma Summary(c: Config, q: seq<seq<Entry>>, delayed: bool, p: Position, emitted: seq<Delivered>, remaining: nat,
                delay: bool)
    requires [] !in q && q != [] && c.blockSize > 0 && UpTo(c, q, delayed, p, emitted, remaining, delay)
    ensures IsPosition(q, p) && p.block <= 2 && emitted == EmittedOf(Popped(q, p)) && OnlyLastEnds(Popped(q, p))
    ensures delay == (Popped(q, p) != [] && TakesTwo(Last(Popped(q, p))))
    ensures |emitted| + AsNat(delay) <= c.width
  {}

  class Dsb {
    const c: Config
    var dsbBlockQueue: seq<seq<Entry>>
    var delayInPrevCycle: bool

    constructor (c: Config)
      requires c.blockSize > 0
      ensures Valid() && dsbBlockQueue == [] && !delayInPrevCycle && this.c == c
    {
      this.c := c;
      dsbBlockQueue, delayInPrevCycle := [], false;
    }

    /** Blocks in the queue are not empty. */
    ghost predicate Valid()
      reads this
    {
      [] !in dsbBlockQueue && c.blockSize > 0
    }

    /** Takes the first entry; a block without entries leaves the queue. */
    method PopFront() returns (e: Entry)
      requires Valid() && dsbBlockQueue != []
      modifies this`dsbBlockQueue
      ensures old(dsbBlockQueue[0]) != [] && e == old(dsbBlockQueue[0][0])
      ensures dsbBlockQueue == if |old(dsbBlockQueue[0])| > 1 then [old(dsbBlockQueue[0])[1..]] + old(dsbBlockQueue)[1..]
                               else old(dsbBlockQueue)[1..]
    {
      assert dsbBlockQueue[0] in dsbBlockQueue;
      e := dsbBlockQueue[0][0];
      dsbBlockQueue := if |dsbBlockQueue[0]| > 1 then [dsbBlockQueue[0][1..]] + dsbBlockQueue[1..]
                       else dsbBlockQueue[1..];
    }

    /** Delivers an entry. The slots are those that are left for more entries of its block. */
    method Deliver(ms: MicrocodeSequencer, e: Entry, emitted: seq<Delivered>, remaining: nat)
      returns (newEmitted: seq<Delivered>, newRemaining: nat)
      requires remaining > 0 && !delayInPrevCycle
      modifies this`delayInPrevCycle, ms
      ensures newEmitted == emitted + if e.uop.Some? then [Delivered(e.instr, e.uop.value)] else []
      ensures newRemaining == SlotsAfter(e, remaining) && delayInPrevCycle == TakesTwo(e)
      ensures ms.uopQueue == old(ms.uopQueue) + e.msUops
      ensures if e.msUops == [] then ms.stalled == old(ms.stalled) && ms.postStall == old(ms.postStall)
              else ms.stalled == ms.dsbMsStall && ms.postStall == 0
    {
      newEmitted, newRemaining := emitted, remaining;
      if e.uop.Some? {
        newEmitted := newEmitted + [Delivered(e.instr, e.uop.value)];
        if e.requiresExtraEntry {
          newRemaining := 0;
          delayInPrevCycle := true;
        } else {
          newRemaining := newRemaining - 1;
        }
      }
      if e.msUops != [] {
        ms.AddUops(e.msUops, false);
        newRemaining := 0;
      }
    }

    /** Delivers the first entry, at position `p` of the queue as it was; if this ends a block, the slots are those for
        the next one. */
    method DeliverFront(ms: MicrocodeSequencer, newBlockStarted: bool, delayed: bool, emitted: seq<Delivered>,
                        remaining: nat, ghost q: seq<seq<Entry>>, ghost p: Position)
      returns (newEmitted: seq<Delivered>, newRemaining: nat, blockDone: bool)
      requires Valid() && [] !in q && q != [] && q[0] != [] && IsPosition(q, p) && p.block < |q| && p.block <= 1
      requires dsbBlockQueue == Rest(q, p) && dsbBlockQueue != [] && dsbBlockQueue[0] != []
      requires UpTo(c, q, delayed, p, emitted, remaining, false) && remaining > 0 && !delayInPrevCycle
      requires dsbBlockQueue[0][0].requiresExtraEntry ==> remaining >= 2
      requires newBlockStarted == (q[0][0].slot == 0)
      modifies this`dsbBlockQueue, this`delayInPrevCycle, ms
      ensures Valid() && dsbBlockQueue == Rest(q, Next(q, p))
      ensures UpTo(c, q, delayed, Next(q, p), newEmitted, newRemaining, delayInPrevCycle)
      ensures blockDone <==> Next(q, p).block > p.block
      ensures newRemaining > 0 ==> old(dsbBlockQueue[0][0]).msUops == []
      ensures MicrocodeOf(Popped(q, Next(q, p))) == old(dsbBlockQueue[0][0]).msUops
      ensures ms.uopQueue == old(ms.uopQueue) + old(dsbBlockQueue[0][0]).msUops
      ensures if old(dsbBlockQueue[0][0]).msUops == [] then
                ms.stalled == old(ms.stalled) && ms.postStall == old(ms.postStall)
              else ms.stalled == ms.dsbMsStall && ms.postStall == 0
    {
      hide Popped, Rest, EmittedOf, MicrocodeOf, SlotsForNext, OnlyLastEnds, Next, Budget, UpTo, Flat;
      NotEnded(c, q, delayed, p, emitted, remaining, false);
      Advance(q, p);
      RestFirst(q, p);
      blockDone := |dsbBlockQueue[0]| == 1;
      var e := PopFront();
      PoppedOne(Popped(q, p), e);
      newEmitted, newRemaining := Deliver(ms, e, emitted, remaining);
      if blockDone {
        NextFirst(q, p);
        BlockDone(c, q, delayed, p, emitted, remaining, e);
        if newRemaining > 0 && dsbBlockQueue != [] {
          newRemaining := SlotsForNext(c, newBlockStarted, delayed, e, dsbBlockQueue[0][0], |newEmitted|, newRemaining);
        }
      } else {
        SameBlock(c, q, delayed, p, emitted, remaining, e);
      }
    }

    /** One clock cycle. What is delivered is the front of the queue, from at most two blocks; it takes no more than the
        width allows, at most the last entry hands uops to the microcode sequencer, and it is as much as possible. */
    method Cycle(ms: MicrocodeSequencer) returns (emitted: seq<Delivered>, ghost p: Position)
      requires Valid()
      modifies this, ms
      ensures Valid() && IsPosition(old(dsbBlockQueue), p) && p.block <= 2
      ensures var q, popped := old(dsbBlockQueue), Popped(old(dsbBlockQueue), p);
              && dsbBlockQueue == Rest(q, p) && emitted == EmittedOf(popped) && OnlyLastEnds(popped)
              && ms.uopQueue == old(ms.uopQueue) + MicrocodeOf(popped)
              && (if MicrocodeOf(popped) == [] then ms.stalled == old(ms.stalled) && ms.postStall == old(ms.postStall)
                  else ms.stalled == ms.dsbMsStall && ms.postStall == 0)
              && (q != [] ==>
                    && |emitted| + AsNat(delayInPrevCycle) <= c.width
                    && delayInPrevCycle == (popped != [] && TakesTwo(Last(popped)))
                    && StopsFirst(c, q, old(delayInPrevCycle), p))
      ensures old(dsbBlockQueue) == [] ==> delayInPrevCycle == old(delayInPrevCycle)
    {
      hide Popped, Rest, EmittedOf, MicrocodeOf, SlotsForNext, OnlyLastEnds, Next, Budget, UpTo, Stopped, Flat, Ends;
      hide TakesTwo, Passed, CanFollow;
      ghost var q, delayed0 := dsbBlockQueue, delayInPrevCycle;
      emitted, p := [], Position(0, 0);
      AtStart(c, q, delayed0);
      NonePassed(c, q, delayed0);
      if dsbBlockQueue == [] {
        return;
      }
      assert q[0] in q;
      var newBlockStarted := dsbBlockQueue[0][0].slot == 0;
      var secondBlockLoaded, needLoadAfterEmpty, remainingSlots := false, false, c.width;
      var delayed := delayInPrevCycle;
      delayInPrevCycle := false;
      while remainingSlots > 0
        invariant Valid() && IsPosition(q, p) && dsbBlockQueue == Rest(q, p)
        invariant UpTo(c, q, delayed, p, emitted, remainingSlots, delayInPrevCycle)
        invariant p.block <= 2 && Passed(c, q, delayed, p)
        invariant Between(p, remainingSlots, secondBlockLoaded, needLoadAfterEmpty)
        invariant p.block < |q| || needLoadAfterEmpty || remainingSlots == 0
        invariant ms.uopQueue == old(ms.uopQueue) + MicrocodeOf(Popped(q, p))
        invariant if MicrocodeOf(Popped(q, p)) == [] then ms.stalled == old(ms.stalled) && ms.postStall == old(ms.postStall)
                  else ms.stalled == ms.dsbMsStall && ms.postStall == 0
        decreases |q| - p.block, if p.block < |q| then |q[p.block]| - p.entry else 0
      {
        NotEnded(c, q, delayed, p, emitted, remainingSlots, delayInPrevCycle);
        Summary(c, q, delayed, p, emitted, remainingSlots, delayInPrevCycle);
        RestEmpty(q, p);
        if needLoadAfterEmpty {
          if secondBlockLoaded || dsbBlockQueue == [] || !CanFollow(emitted, dsbBlockQueue[0]) {
            StopsBetween(c, q, delayed, p, emitted);
            return;
          }
          secondBlockLoaded, needLoadAfterEmpty := true, false;
        }
        RestFirst(q, p);
        if dsbBlockQueue[0][0].requiresExtraEntry && remainingSlots < 2 {
          StopsAtExtra(c, q, delayed, p, emitted);
          return;
        }
        GoesOn(c, q, delayed, p, emitted, remainingSlots);
        PassedNext(c, q, delayed, p);
        var blockDone;
        emitted, remainingSlots, blockDone := DeliverFront(ms, newBlockStarted, delayed, emitted, remainingSlots, q, p);
        needLoadAfterEmpty := blockDone && remainingSlots > 0;
        p := Next(q, p);
      }
      Summary(c, q, delayed, p, emitted, remainingSlots, delayInPrevCycle);
      StopsFull(c, q, delayed, p, emitted, delayInPrevCycle);
    }
  }
}

/** Numbers at their positions in bytes, and the positions of the fields of blobs. */
module BlobLayout {
  import opened Wrappers
  import opened Bytes
  import opened PackData
  import opened StringTable
  import opened Fields
  import opened Blobs

  // Numbers, the lowest byte first

  function U16At(b: seq<byte>, at: nat): int
    requires at + 2 <= |b|
  {
    b[at] as int + 0x100 * b[at + 1] as int
  }

  function U32At(b: seq<byte>, at: nat): (n: int)
    requires at + 4 <= |b|
    ensures 0 <= n < 0x1_0000_0000
  {
    b[at] as int + 0x100 * b[at + 1] as int + 0x1_0000 * b[at + 2] as int + 0x100_0000 * b[at + 3] as int
  }

  function U64At(b: seq<byte>, at: nat): int
    requires at + 8 <= |b|
  {
    U32At(b, at) + 0x1_0000_0000 * U32At(b, at + 4)
  }

  /** Two's complement. */
  function I32At(b: seq<byte>, at: nat): int
    requires at + 4 <= |b|
  {
    if U32At(b, at) < 0x8000_0000 then U32At(b, at) else U32At(b, at) - 0x1_0000_0000
  }

  function I64At(b: seq<byte>, at: nat): int
    requires at + 8 <= |b|
  {
    if U64At(b, at) < 0x8000_0000_0000_0000 then U64At(b, at) else U64At(b, at) - 0x1_0000_0000_0000_0000
  }

  lemma FromLeTwo(b: seq<byte>)
    requires |b| == 2
    ensures FromLe(b) == b[0] as int + 0x100 * b[1] as int
  {
    assert FromLe(b[1..][1..]) == 0;
    assert FromLe(b[1..]) == b[1];
  }

  lemma FromLeFour(b: seq<byte>)
    requires |b| == 4
    ensures FromLe(b) == b[0] as int + 0x100 * b[1] as int + 0x1_0000 * b[2] as int + 0x100_0000 * b[3] as int
  {
    FromLeTwo(b[2..]);
    assert b[1..][1..] == b[2..];
    assert FromLe(b[1..]) == b[1] as int + 0x100 * FromLe(b[2..]);
  }

  lemma FromLeEight(b: seq<byte>)
    requires |b| == 8
    ensures FromLe(b) == FromLe(b[..4]) + 0x1_0000_0000 * FromLe(b[4..])
  {
    FromLeFour(b[..4]);
    assert b[1..][1..] == b[2..] && b[2..][1..] == b[3..] && b[3..][1..] == b[4..];
    assert FromLe(b[3..]) == b[3] + 0x100 * FromLe(b[4..]);
    assert FromLe(b[2..]) == b[2] + 0x100 * FromLe(b[3..]);
    assert FromLe(b[1..]) == b[1] as int + 0x100 * FromLe(b[2..]);
  }

  lemma U16Is(b: seq<byte>, at: nat)
    requires at + 2 <= |b|
    ensures U16At(b, at) == FromLe(b[at..at + 2])
  {
    hide FromLe;
    FromLeTwo(b[at..at + 2]);
  }

  lemma U32Is(b: seq<byte>, at: nat)
    requires at + 4 <= |b|
    ensures U32At(b, at) == FromLe(b[at..at + 4])
  {
    hide FromLe;
    FromLeFour(b[at..at + 4]);
  }

  lemma U64Is(b: seq<byte>, at: nat)
    requires at + 8 <= |b|
    ensures U64At(b, at) == FromLe(b[at..at + 8])
  {
    hide FromLe;
    FromLeEight(b[at..at + 8]);
    U32Is(b, at);
    U32Is(b, at + 4);
    assert b[at..at + 8][..4] == b[at..at + 4] && b[at..at + 8][4..] == b[at + 4..at + 8];
  }

  // Numbers that have been written

  lemma NumberFirst(b: seq<byte>, at: nat, n: nat, width: nat, tail: seq<byte>)
    requires at <= |b| && n < Pow256(width) && b[at..] == Le(n, width) + tail
    ensures at + width <= |b| && FromLe(b[at..at + width]) == n && b[at + width..] == tail
  {
    Front(n, width, tail);
    hide Le, FromLe, Pow256;
    assert b[at..][..width] == b[at..at + width] && b[at..][width..] == b[at + width..];
  }

  lemma U32First(b: seq<byte>, at: nat, n: u32, tail: seq<byte>)
    requires at <= |b| && b[at..] == PutU32(n, tail)
    ensures at + 4 <= |b| && U32At(b, at) == n && b[at + 4..] == tail
  {
    hide Le, FromLe, Pow256, U32At;
    Widths();
    NumberFirst(b, at, n, 4, tail);
    U32Is(b, at);
  }

  lemma I32First(b: seq<byte>, at: nat, n: i32, tail: seq<byte>)
    requires at <= |b| && b[at..] == PutI32(n, tail)
    ensures at + 4 <= |b| && I32At(b, at) == n && b[at + 4..] == tail
  {
    hide Le, FromLe, Pow256, U32At;
    Widths();
    NumberFirst(b, at, Signed(n, 4), 4, tail);
    U32Is(b, at);
  }

  lemma U64First(b: seq<byte>, at: nat, n: u64, tail: seq<byte>)
    requires at <= |b| && b[at..] == PutU64(n, tail)
    ensures at + 8 <= |b| && U64At(b, at) == n && b[at + 8..] == tail
  {
    hide Le, FromLe, Pow256, U64At;
    Widths();
    NumberFirst(b, at, n, 8, tail);
    U64Is(b, at);
  }

  lemma I64First(b: seq<byte>, at: nat, n: i64, tail: seq<byte>)
    requires at <= |b| && b[at..] == PutI64(n, tail)
    ensures at + 8 <= |b| && I64At(b, at) == n && b[at + 8..] == tail
  {
    hide Le, FromLe, Pow256, U64At;
    Widths();
    NumberFirst(b, at, Signed(n, 8), 8, tail);
    U64Is(b, at);
  }

  // Numbers that are read

  lemma U32Reads(b: seq<byte>, at: nat)
    requires at + 4 <= |b|
    ensures GetU32(b[at..]) == Some(Parsed(U32At(b, at), b[at + 4..]))
  {
    hide FromLe;
    U32Is(b, at);
    assert b[at..][..4] == b[at..at + 4] && b[at..][4..] == b[at + 4..];
  }

  lemma U64Reads(b: seq<byte>, at: nat)
    requires at + 8 <= |b|
    ensures GetU64(b[at..]) == Some(Parsed(U64At(b, at), b[at + 8..]))
  {
    hide FromLe;
    U64Is(b, at);
    assert b[at..][..8] == b[at..at + 8] && b[at..][8..] == b[at + 8..];
  }

  lemma I32Reads(b: seq<byte>, at: nat)
    requires at + 4 <= |b|
    ensures GetI32(b[at..]) == Some(Parsed(I32At(b, at), b[at + 4..]))
  {
    hide FromLe;
    Widths();
    U32Is(b, at);
    assert b[at..][..4] == b[at..at + 4] && b[at..][4..] == b[at + 4..];
  }

  lemma WholeFrom(b: seq<byte>)
    ensures b[0..] == b
  {}

  // Strings and lists

  lemma StringFirst(b: seq<byte>, at: nat, t: Table, s: Str, tail: seq<byte>)
    requires at <= |b| && b[at..] == PutString(t, s, tail) && s in t.offsets
    ensures at + 4 <= |b| && U32At(b, at) == t.offsets[s] && b[at + 4..] == tail
  {
    hide PutU32, U32At;
    U32First(b, at, OffsetOf(t, s), tail);
  }

  /** The offset of a string, or all ones if there is none. */
  ghost predicate IsOptionalOffset(n: int, t: Table, s: Option<Str>) {
    if s.Some? then s.value in t.offsets && n == t.offsets[s.value] else n == 0xFFFF_FFFF
  }

  lemma OptionalStringFirst(b: seq<byte>, at: nat, t: Table, s: Option<Str>, tail: seq<byte>)
    requires at <= |b| && b[at..] == PutOptionalString(t, s, tail) && OptionInterned(t, s)
    ensures at + 4 <= |b| && IsOptionalOffset(U32At(b, at), t, s) && b[at + 4..] == tail
  {
    hide PutU32, U32At;
    U32First(b, at, if s.Some? then OffsetOf(t, s.value) else NONE_U32, tail);
  }

  /** A string section has the string's length and then its bytes at its offset. */
  lemma StringStored(strings: seq<byte>, offset: nat, s: Str)
    requires ReadString(strings, offset) == Some(s)
    ensures offset + 4 + |s| <= |strings|
    ensures U32At(strings, offset) == |s| && strings[offset + 4..offset + 4 + |s|] == s
  {
    hide U32At, FromLe;
    U32Is(strings, offset);
  }

  /** A list begins with the number of its elements. */
  lemma ListFirst<T>(b: seq<byte>, at: nat, xs: seq<T>, put: (T, seq<byte>) -> seq<byte>, tail: seq<byte>)
    requires at <= |b| && b[at..] == PutList(xs, put, tail) && |xs| < LIMIT
    ensures at + 4 <= |b| && U32At(b, at) == |xs| && b[at + 4..] == PutAll(xs, put, tail)
  {
    hide PutU32, U32At, PutAll;
    U32First(b, at, |xs|, PutAll(xs, put, tail));
  }

  lemma {:induction false} AllStringsAt(b: seq<byte>, at: nat, t: Table, ss: seq<Str>,
                                        put: (Str, seq<byte>) -> seq<byte>, tail: seq<byte>)
    requires put == ((s: Str, rest: seq<byte>) => PutString(t, s, rest))
    requires at <= |b| && b[at..] == PutAll(ss, put, tail) && forall s :: s in ss ==> s in t.offsets
    ensures at + 4 * |ss| <= |b| && b[at + 4 * |ss|..] == tail
    ensures forall i :: 0 <= i < |ss| ==> U32At(b, at + 4 * i) == t.offsets[ss[i]]
    decreases |ss|
  {
    hide U32At, PutString;
    if ss != [] {
      assert ss[0] in ss;
      var rest := PutAll(ss[1..], put, tail);
      assert put(ss[0], rest) == PutString(t, ss[0], rest);
      StringFirst(b, at, t, ss[0], rest);
      AllStringsAt(b, at + 4, t, ss[1..], put, tail);
      forall i | 0 <= i < |ss|
        ensures U32At(b, at + 4 * i) == t.offsets[ss[i]]
      {
        assert i > 0 ==> ss[i] == ss[1..][i - 1] && at + 4 + 4 * (i - 1) == at + 4 * i;
      }
    }
  }

  /** A list of strings: their number, and their offsets. */
  ghost predicate StringsAt(b: seq<byte>, at: nat, t: Table, ss: seq<Str>) {
    && at + 4 + 4 * |ss| <= |b| && U32At(b, at) == |ss|
    && forall i :: 0 <= i < |ss| ==> ss[i] in t.offsets && U32At(b, at + 4 + 4 * i) == t.offsets[ss[i]]
  }

  lemma StringsFirst(b: seq<byte>, at: nat, t: Table, ss: seq<Str>, tail: seq<byte>)
    requires at <= |b| && b[at..] == PutStrings(t, ss, tail) && AllInterned(t, ss)
    ensures StringsAt(b, at, t, ss) && b[at + 4 + 4 * |ss|..] == tail
  {
    hide U32At, PutList, PutAll, PutString;
    var put := (s: Str, rest: seq<byte>) => PutString(t, s, rest);
    ListFirst(b, at, ss, put, tail);
    AllStringsAt(b, at + 4, t, ss, put, tail);
  }

  // Elements of blobs

  /** A bit. */
  function One(f: bool): int {
    if f then 1 else 0
  }

  lemma BitsOfFour(a: bool, b: bool, c: bool, d: bool)
    ensures Bits([a, b, c, d]) == One(a) + 2 * One(b) + 4 * One(c) + 8 * One(d)
  {
    var bs := [a, b, c, d];
    assert bs[1..] == [b, c, d] && [b, c, d][1..] == [c, d] && [c, d][1..] == [d];
    assert Bits([d]) == One(d);
    assert Bits([c, d]) == One(c) + 2 * One(d);
    assert Bits([b, c, d]) == One(b) + 2 * One(c) + 4 * One(d);
  }

  /** The part of an operand after its flags takes 32 bytes. */
  ghost predicate MemoryAt(b: seq<byte>, at: nat, t: Table, o: OperandRecord) {
    && at + 32 <= |b| && IsOptionalOffset(U32At(b, at), t, o.memBase)
    && IsOptionalOffset(U32At(b, at + 4), t, o.memIndex)
    && U32At(b, at + 8) == (if o.memScale.Some? then 1 else 0)
    && I32At(b, at + 12) == (if o.memScale.Some? then o.memScale.value else 0)
    && U32At(b, at + 16) == (if o.memDisp.Some? then 1 else 0)
    && I64At(b, at + 20) == (if o.memDisp.Some? then o.memDisp.value else 0)
    && IsOptionalOffset(U32At(b, at + 28), t, o.memOperandRole)
  }

  lemma MemoryFirst(b: seq<byte>, at: nat, t: Table, o: OperandRecord, tail: seq<byte>)
    requires at <= |b| && b[at..] == PutMemory(t, o, tail)
    requires OptionInterned(t, o.memBase) && OptionInterned(t, o.memIndex) && OptionInterned(t, o.memOperandRole)
    ensures MemoryAt(b, at, t, o) && b[at + 32..] == tail
  {
    hide U32At, I32At, I64At, PutU32, PutI32, PutI64, PutOptionalString, IsOptionalOffset, OptionInterned;
    var b5 := PutOptionalString(t, o.memOperandRole, tail);
    var b4 := PutPresentI64(o.memDisp, b5);
    var b3 := PutPresentI32(o.memScale, b4);
    OptionalStringFirst(b, at, t, o.memBase, PutOptionalString(t, o.memIndex, b3));
    OptionalStringFirst(b, at + 4, t, o.memIndex, b3);
    U32First(b, at + 8, if o.memScale.Some? then 1 else 0, PutI32(ValueOr0(o.memScale), b4));
    I32First(b, at + 12, ValueOr0(o.memScale), b4);
    U32First(b, at + 16, if o.memDisp.Some? then 1 else 0, PutI64(ValueOr0(o.memDisp), b5));
    I64First(b, at + 20, ValueOr0(o.memDisp), b5);
    OptionalStringFirst(b, at + 28, t, o.memOperandRole, tail);
  }

  /** How many bytes an operand takes. */
  function OperandSize(o: OperandRecord): nat {
    56 + 4 * (|o.flags| + |o.flagsRead| + |o.flagsWrite|)
  }

  ghost predicate OperandAt(b: seq<byte>, at: nat, t: Table, o: OperandRecord) {
    && at + 12 <= |b| && o.name in t.offsets && o.typ in t.offsets
    && U32At(b, at) == t.offsets[o.name] && U32At(b, at + 4) == t.offsets[o.typ]
    && U32At(b, at + 8) == One(o.read) + 2 * One(o.write) + 4 * One(o.implicit) + 8 * One(o.isAgen)
    && StringsAt(b, at + 12, t, o.flags)
    && StringsAt(b, at + 16 + 4 * |o.flags|, t, o.flagsRead)
    && StringsAt(b, at + 20 + 4 * (|o.flags| + |o.flagsRead|), t, o.flagsWrite)
    && MemoryAt(b, at + 24 + 4 * (|o.flags| + |o.flagsRead| + |o.flagsWrite|), t, o)
  }

  lemma OperandFirst(b: seq<byte>, at: nat, t: Table, o: OperandRecord, tail: seq<byte>)
    requires at <= |b| && b[at..] == PutOperand(t, o, tail) && OperandInterned(t, o)
    ensures OperandAt(b, at, t, o) && at + OperandSize(o) <= |b| && b[at + OperandSize(o)..] == tail
  {
    hide U32At, PutU32, PutString, PutStrings, PutMemory, StringsAt, MemoryAt, AllInterned, OptionInterned;
    BitsOfFour(o.read, o.write, o.implicit, o.isAgen);
    assert OperandBits(o) == Bits([o.read, o.write, o.implicit, o.isAgen]);
    hide OperandBits, Bits, One;
    var b1 := PutMemory(t, o, tail);
    var a3 := PutStrings(t, o.flagsWrite, b1);
    var a2 := PutStrings(t, o.flagsRead, a3);
    var a1 := PutStrings(t, o.flags, a2);
    StringFirst(b, at, t, o.name, PutString(t, o.typ, PutU32(OperandBits(o), a1)));
    StringFirst(b, at + 4, t, o.typ, PutU32(OperandBits(o), a1));
    U32First(b, at + 8, OperandBits(o), a1);
    StringsEnd(b, at + 12, t, o.flags, a2);
    var at1 := at + 16 + 4 * |o.flags|;
    StringsEnd(b, at1, t, o.flagsRead, a3);
    var at2 := at1 + 4 + 4 * |o.flagsRead|;
    StringsEnd(b, at2, t, o.flagsWrite, b1);
    MemoryEnd(b, at2 + 4 + 4 * |o.flagsWrite|, t, o, tail);
  }

  lemma StringsEnd(b: seq<byte>, at: nat, t: Table, ss: seq<Str>, tail: seq<byte>)
    requires at <= |b| && b[at..] == PutStrings(t, ss, tail) && AllInterned(t, ss)
    ensures StringsAt(b, at, t, ss) && at + 4 + 4 * |ss| <= |b| && b[at + 4 + 4 * |ss|..] == tail
  {
    hide U32At, PutStrings;
    StringsFirst(b, at, t, ss, tail);
  }

  lemma MemoryEnd(b: seq<byte>, at: nat, t: Table, o: OperandRecord, tail: seq<byte>)
    requires at <= |b| && b[at..] == PutMemory(t, o, tail)
    requires OptionInterned(t, o.memBase) && OptionInterned(t, o.memIndex) && OptionInterned(t, o.memOperandRole)
    ensures MemoryAt(b, at, t, o) && at + 32 <= |b| && b[at + 32..] == tail
  {
    hide U32At, I32At, I64At, PutMemory;
    MemoryFirst(b, at, t, o, tail);
  }

  function OrZero(o: Option<int>): int {
    if o.Some? then o.value else 0
  }

  /** A latency takes 32 bytes. */
  ghost predicate LatencyAt(b: seq<byte>, at: nat, t: Table, l: LatencyRecord) {
    && at + 32 <= |b| && l.startOp in t.offsets && l.targetOp in t.offsets
    && U32At(b, at) == t.offsets[l.startOp] && U32At(b, at + 4) == t.offsets[l.targetOp]
    && I32At(b, at + 8) == l.cycles
    && U32At(b, at + 12) == One(l.cyclesAddr.Some?) + 2 * One(l.cyclesAddrIndex.Some?) +
                            4 * One(l.cyclesMem.Some?) + 8 * One(l.cyclesSameReg.Some?)
    && I32At(b, at + 16) == OrZero(l.cyclesAddr) && I32At(b, at + 20) == OrZero(l.cyclesAddrIndex)
    && I32At(b, at + 24) == OrZero(l.cyclesMem) && I32At(b, at + 28) == OrZero(l.cyclesSameReg)
  }

  lemma LatencyFirst(b: seq<byte>, at: nat, t: Table, l: LatencyRecord, tail: seq<byte>)
    requires at <= |b| && b[at..] == PutLatency(t, l, tail) && LatencyInterned(t, l)
    ensures LatencyAt(b, at, t, l) && b[at + 32..] == tail
  {
    hide U32At, I32At, PutU32, PutI32, PutString;
    BitsOfFour(l.cyclesAddr.Some?, l.cyclesAddrIndex.Some?, l.cyclesMem.Some?, l.cyclesSameReg.Some?);
    assert LatencyBits(l) == Bits(LatencyPresence(l));
    hide LatencyBits, Bits, One;
    var d3 := PutI32(ValueOr0(l.cyclesSameReg), tail);
    var d2 := PutI32(ValueOr0(l.cyclesMem), d3);
    var d1 := PutI32(ValueOr0(l.cyclesAddrIndex), d2);
    var d0 := PutI32(ValueOr0(l.cyclesAddr), d1);
    var c1 := PutU32(LatencyBits(l), d0);
    var c0 := PutI32(l.cycles, c1);
    StringFirst(b, at, t, l.startOp, PutString(t, l.targetOp, c0));
    StringFirst(b, at + 4, t, l.targetOp, c0);
    I32First(b, at + 8, l.cycles, c1);
    U32First(b, at + 12, LatencyBits(l), d0);
    I32First(b, at + 16, ValueOr0(l.cyclesAddr), d1);
    I32First(b, at + 20, ValueOr0(l.cyclesAddrIndex), d2);
    I32First(b, at + 24, ValueOr0(l.cyclesMem), d3);
    I32First(b, at + 28, ValueOr0(l.cyclesSameReg), tail);
  }

  /** The numbers of a variant follow its name and presence bits. */
  ghost predicate VariantAt(b: seq<byte>, at: nat, t: Table, name: Str, v: VariantRecord) {
    && at + 48 <= |b| && name in t.offsets && U32At(b, at) == t.offsets[name]
    && U32At(b, at + 4) == One(v.uops.Some?) + 2 * One(v.retireSlots.Some?) + 4 * One(v.uopsMite.Some?) +
                           8 * One(v.uopsMs.Some?) + 16 * One(v.tp.Some?) + 32 * One(v.ports.Some?) +
                           64 * One(v.divCycles.Some?) + 128 * One(v.complexDecoder.Some?) +
                           256 * One(v.nAvailableSimpleDecoders.Some?)
    && I32At(b, at + 8) == OrZero(v.uops) && I32At(b, at + 12) == OrZero(v.retireSlots)
    && I32At(b, at + 16) == OrZero(v.uopsMite) && I32At(b, at + 20) == OrZero(v.uopsMs)
    && U64At(b, at + 24) == OrZero(v.tp) && U32At(b, at + 32) == OrZero(v.divCycles)
    && U32At(b, at + 36) == One(v.complexDecoder == Some(true))
    && U32At(b, at + 40) == OrZero(v.nAvailableSimpleDecoders)
    && PortsIn(b, at + 44, t, v.ports)
  }

  lemma BitsOfNine(bs: seq<bool>)
    requires |bs| == 9
    ensures Bits(bs) == One(bs[0]) + 2 * One(bs[1]) + 4 * One(bs[2]) + 8 * One(bs[3]) +
                        16 * One(bs[4]) + 32 * One(bs[5]) + 64 * One(bs[6]) + 128 * One(bs[7]) +
                        256 * One(bs[8])
  {
    hide *;
    LastFour(bs);
    var b1, b2, b3, b4, b5 := Bits(bs[1..]), Bits(bs[2..]), Bits(bs[3..]), Bits(bs[4..]), Bits(bs[5..]);
    BitsNext(bs, 4);
    BitsNext(bs, 3);
    BitsNext(bs, 2);
    BitsNext(bs, 1);
    BitsNext(bs, 0);
    WholeBits(bs);
    FiveSteps(Bits(bs), b1, b2, b3, b4, b5, One(bs[0]), One(bs[1]), One(bs[2]), One(bs[3]), One(bs[4]));
  }

  lemma WholeBits(bs: seq<bool>)
    ensures Bits(bs[0..]) == Bits(bs)
  {
    assert bs[0..] == bs;
  }

  lemma LastFour(bs: seq<bool>)
    requires |bs| == 9
    ensures Bits(bs[5..]) == One(bs[5]) + 2 * One(bs[6]) + 4 * One(bs[7]) + 8 * One(bs[8])
  {
    BitsOfFour(bs[5], bs[6], bs[7], bs[8]);
    assert bs[5..] == [bs[5], bs[6], bs[7], bs[8]];
  }

  lemma FiveSteps(b0: int, b1: int, b2: int, b3: int, b4: int, b5: int, a0: int, a1: int, a2: int, a3: int, a4: int)
    requires b0 == a0 + 2 * b1 && b1 == a1 + 2 * b2 && b2 == a2 + 2 * b3 && b3 == a3 + 2 * b4 && b4 == a4 + 2 * b5
    ensures b0 == a0 + 2 * a1 + 4 * a2 + 8 * a3 + 16 * a4 + 32 * b5
  {}

  lemma BitsNext(bs: seq<bool>, k: nat)
    requires k < |bs|
    ensures Bits(bs[k..]) == One(bs[k]) + 2 * Bits(bs[k + 1..])
  {
    assert bs[k..][1..] == bs[k + 1..];
  }

  lemma NumbersFirst(b: seq<byte>, at: nat, v: VariantRecord, tail: seq<byte>)
    requires at <= |b| && b[at..] == PutNumbers(v, tail)
    ensures at + 36 <= |b| && b[at + 36..] == tail
    ensures I32At(b, at) == OrZero(v.uops) && I32At(b, at + 4) == OrZero(v.retireSlots)
    ensures I32At(b, at + 8) == OrZero(v.uopsMite) && I32At(b, at + 12) == OrZero(v.uopsMs)
    ensures U64At(b, at + 16) == OrZero(v.tp) && U32At(b, at + 24) == OrZero(v.divCycles)
    ensures U32At(b, at + 28) == One(v.complexDecoder == Some(true))
    ensures U32At(b, at + 32) == OrZero(v.nAvailableSimpleDecoders)
  {
    hide U32At, I32At, U64At, PutU32, PutI32, PutU64;
    var n7 := PutU32(ValueOr0(v.nAvailableSimpleDecoders), tail);
    var n6 := PutU32(Flag(v.complexDecoder), n7);
    var n5 := PutU32(ValueOr0(v.divCycles), n6);
    var n4 := PutU64(ValueOr0(v.tp), n5);
    var n3 := PutI32(ValueOr0(v.uopsMs), n4);
    var n2 := PutI32(ValueOr0(v.uopsMite), n3);
    var n1 := PutI32(ValueOr0(v.retireSlots), n2);
    I32First(b, at, ValueOr0(v.uops), n1);
    I32First(b, at + 4, ValueOr0(v.retireSlots), n2);
    I32First(b, at + 8, ValueOr0(v.uopsMite), n3);
    I32First(b, at + 12, ValueOr0(v.uopsMs), n4);
    U64First(b, at + 16, ValueOr0(v.tp), n5);
    U32First(b, at + 24, ValueOr0(v.divCycles), n6);
    U32First(b, at + 28, Flag(v.complexDecoder), n7);
    U32First(b, at + 32, ValueOr0(v.nAvailableSimpleDecoders), tail);
  }

  /** A port takes 8 bytes. */
  predicate PortIn(b: seq<byte>, at: nat, t: Table, e: (Str, i32)) {
    at + 8 <= |b| && e.0 in t.offsets && U32At(b, at) == t.offsets[e.0] && I32At(b, at + 4) == e.1
  }

  lemma PortFirst(b: seq<byte>, at: nat, t: Table, e: (Str, i32), tail: seq<byte>)
    requires at <= |b| && b[at..] == PutPort(t, e, tail) && e.0 in t.offsets
    ensures PortIn(b, at, t, e) && b[at + 8..] == tail
  {
    hide U32At, I32At, PutString, PutI32;
    StringFirst(b, at, t, e.0, PutI32(e.1, tail));
    I32First(b, at + 4, e.1, tail);
  }

  lemma {:induction false} AllPortsIn(b: seq<byte>, at: nat, t: Table, es: seq<(Str, i32)>,
                                      put: ((Str, i32), seq<byte>) -> seq<byte>, tail: seq<byte>)
    requires put == ((e: (Str, i32), rest: seq<byte>) => PutPort(t, e, rest))
    requires at <= |b| && b[at..] == PutAll(es, put, tail) && forall e :: e in es ==> e.0 in t.offsets
    ensures at + 8 * |es| <= |b| && b[at + 8 * |es|..] == tail
    ensures forall i :: 0 <= i < |es| ==> PortIn(b, at + 8 * i, t, es[i])
    decreases |es|
  {
    hide PutPort, PortIn;
    if es != [] {
      assert es[0] in es;
      var rest := PutAll(es[1..], put, tail);
      assert put(es[0], rest) == PutPort(t, es[0], rest);
      PortFirst(b, at, t, es[0], rest);
      PortFits(b, at, t, es[0]);
      AllPortsIn(b, at + 8, t, es[1..], put, tail);
      forall i | 0 <= i < |es|
        ensures PortIn(b, at + 8 * i, t, es[i])
      {
        assert i > 0 ==> es[i] == es[1..][i - 1] && at + 8 + 8 * (i - 1) == at + 8 * i;
      }
    }
  }

  lemma PortFits(b: seq<byte>, at: nat, t: Table, e: (Str, i32))
    requires PortIn(b, at, t, e)
    ensures at + 8 <= |b|
  {}

  /** The ports of a variant, in the order of their names: their number and the ports. */
  predicate PortsIn(b: seq<byte>, at: nat, t: Table, ports: Option<map<Str, i32>>) {
    && at + 4 <= |b|
    && if ports.Some? then
         && U32At(b, at) == |ports.value|
         && forall i :: 0 <= i < |ports.value| ==> PortIn(b, at + 4 + 8 * i, t, Entries(ports.value)[i])
       else U32At(b, at) == 0
  }

  function PortsSize(ports: Option<map<Str, i32>>): nat {
    if ports.Some? then 4 + 8 * |ports.value| else 4
  }

  lemma KeysInterned(t: Table, m: map<Str, i32>)
    requires PortsInterned(t, m)
    ensures forall e :: e in Entries(m) ==> e.0 in t.offsets
  {
    hide Entries;
    forall e | e in Entries(m)
      ensures e.0 in t.offsets
    {
      var i :| 0 <= i < |Entries(m)| && Entries(m)[i] == e;
      EntriesFromMap(m, i);
    }
  }

  lemma PortsFirst(b: seq<byte>, at: nat, t: Table, ports: Option<map<Str, i32>>, tail: seq<byte>)
    requires at <= |b| && b[at..] == PutOptionalPorts(t, ports, tail)
    requires ports.Some? ==> PortsInterned(t, ports.value)
    ensures PortsIn(b, at, t, ports) && at + PortsSize(ports) <= |b| && b[at + PortsSize(ports)..] == tail
  {
    hide U32At, PutU32, PutPort, Entries, PortIn;
    if ports.Some? {
      var put := (e: (Str, i32), rest: seq<byte>) => PutPort(t, e, rest);
      KeysInterned(t, ports.value);
      hide PutAll;
      ListFirst(b, at, Entries(ports.value), put, tail);
      AllPortsIn(b, at + 4, t, Entries(ports.value), put, tail);
    } else {
      U32First(b, at, 0, tail);
    }
  }

  function VariantSize(v: VariantRecord): nat {
    44 + PortsSize(v.ports)
  }

  lemma VariantFirst(b: seq<byte>, at: nat, t: Table, e: (Str, VariantRecord), tail: seq<byte>)
    requires at <= |b| && b[at..] == PutVariant(t, e, tail) && e.0 in t.offsets && VariantInterned(t, e.1)
    ensures VariantAt(b, at, t, e.0, e.1) && at + VariantSize(e.1) <= |b| && b[at + VariantSize(e.1)..] == tail
  {
    hide U32At, I32At, U64At, PutU32, PutString, PutNumbers, PutOptionalPorts, OrZero, PortsIn;
    BitsOfNine(VariantPresence(e.1));
    assert VariantBits(e.1) == Bits(VariantPresence(e.1));
    hide VariantBits, Bits, One, PortsInterned;
    var p := PutOptionalPorts(t, e.1.ports, tail);
    StringFirst(b, at, t, e.0, PutU32(VariantBits(e.1), PutNumbers(e.1, p)));
    U32First(b, at + 4, VariantBits(e.1), PutNumbers(e.1, p));
    NumbersFirst(b, at + 8, e.1, p);
    PortsFirst(b, at + 44, t, e.1.ports, tail);
  }

  /** A pair of strings takes 8 bytes. */
  predicate PairIn(b: seq<byte>, at: nat, t: Table, e: (Str, Str)) {
    && at + 8 <= |b| && e.0 in t.offsets && e.1 in t.offsets
    && U32At(b, at) == t.offsets[e.0] && U32At(b, at + 4) == t.offsets[e.1]
  }

  lemma PairFirst(b: seq<byte>, at: nat, t: Table, e: (Str, Str), tail: seq<byte>)
    requires at <= |b| && b[at..] == PutPair(t, e, tail) && e.0 in t.offsets && e.1 in t.offsets
    ensures PairIn(b, at, t, e) && b[at + 8..] == tail
  {
    hide U32At, PutString;
    StringFirst(b, at, t, e.0, PutString(t, e.1, tail));
    StringFirst(b, at + 4, t, e.1, tail);
  }

  // Whole blobs

  lemma {:induction false} AllLatenciesAt(b: seq<byte>, at: nat, t: Table, ls: seq<LatencyRecord>,
                                          put: (LatencyRecord, seq<byte>) -> seq<byte>)
    requires put == ((l: LatencyRecord, rest: seq<byte>) => PutLatency(t, l, rest))
    requires at <= |b| && b[at..] == PutAll(ls, put, []) && forall l :: l in ls ==> LatencyInterned(t, l)
    ensures at + 32 * |ls| == |b| && forall i :: 0 <= i < |ls| ==> LatencyAt(b, at + 32 * i, t, ls[i])
    decreases |ls|
  {
    hide PutLatency, LatencyAt, LatencyInterned;
    if ls != [] {
      assert ls[0] in ls;
      var rest := PutAll(ls[1..], put, []);
      assert put(ls[0], rest) == PutLatency(t, ls[0], rest);
      LatencyFirst(b, at, t, ls[0], rest);
      LatencyFits(b, at, t, ls[0]);
      AllLatenciesAt(b, at + 32, t, ls[1..], put);
      forall i | 0 <= i < |ls|
        ensures LatencyAt(b, at + 32 * i, t, ls[i])
      {
        assert i > 0 ==> ls[i] == ls[1..][i - 1] && at + 32 + 32 * (i - 1) == at + 32 * i;
      }
    }
  }

  lemma LatencyFits(b: seq<byte>, at: nat, t: Table, l: LatencyRecord)
    requires LatencyAt(b, at, t, l)
    ensures at + 32 <= |b|
  {}

  /** A latency blob: the number of latencies, and 32 bytes for each. */
  lemma LatencyBlob(t: Table, ls: seq<LatencyRecord>, b: seq<byte>)
    requires EncodeLatencies(t, ls) == Some(b)
    ensures |b| == 4 + 32 * |ls| && U32At(b, 0) == |ls|
    ensures forall i :: 0 <= i < |ls| ==> LatencyAt(b, 4 + 32 * i, t, ls[i])
  {
    hide U32At, PutAll, PutList, PutLatency, LatencyAt, LatencyInterned;
    var put := (l: LatencyRecord, rest: seq<byte>) => PutLatency(t, l, rest);
    assert b == PutList(ls, put, []);
    WholeFrom(b);
    ListFirst(b, 0, ls, put, []);
    AllLatenciesAt(b, 4, t, ls, put);
  }

  function OperandsSize(os: seq<OperandRecord>): nat {
    if os == [] then 0 else OperandsSize(os[..|os| - 1]) + OperandSize(os[|os| - 1])
  }

  lemma {:induction false} SizeOfFirst(os: seq<OperandRecord>, k: nat)
    requires 0 < k <= |os|
    ensures OperandsSize(os[..k]) == OperandSize(os[0]) + OperandsSize(os[1..][..k - 1])
  {
    hide OperandSize;
    if k == 1 {
      assert os[..1][..0] == [] && os[1..][..0] == [];
    } else {
      SizeOfFirst(os, k - 1);
      assert os[..k][..k - 1] == os[..k - 1] && os[1..][..k - 1][..k - 2] == os[1..][..k - 2];
    }
  }

  lemma {:induction false} AllOperandsAt(b: seq<byte>, at: nat, t: Table, os: seq<OperandRecord>,
                                         put: (OperandRecord, seq<byte>) -> seq<byte>)
    requires put == ((o: OperandRecord, rest: seq<byte>) => PutOperand(t, o, rest))
    requires at <= |b| && b[at..] == PutAll(os, put, []) && forall o :: o in os ==> OperandInterned(t, o)
    ensures at + OperandsSize(os) == |b|
    ensures forall i :: 0 <= i < |os| ==> OperandAt(b, at + OperandsSize(os[..i]), t, os[i])
    decreases |os|
  {
    hide PutOperand, OperandAt, OperandInterned, OperandSize, OperandsSize;
    if os != [] {
      assert os[0] in os;
      var rest := PutAll(os[1..], put, []);
      assert put(os[0], rest) == PutOperand(t, os[0], rest);
      OperandFirst(b, at, t, os[0], rest);
      AllOperandsAt(b, at + OperandSize(os[0]), t, os[1..], put);
      SizeOfAll(os);
      hide PutAll;
      forall i | 0 <= i < |os|
        ensures OperandAt(b, at + OperandsSize(os[..i]), t, os[i])
      {
        if i > 0 {
          LaterOperand(b, at, t, os, i);
        }
      }
    } else {
      SizeOfNone();
    }
  }

  lemma SizeOfNone()
    ensures OperandsSize([]) == 0
  {}

  lemma SizeOfAll(os: seq<OperandRecord>)
    requires os != []
    ensures OperandsSize(os) == OperandSize(os[0]) + OperandsSize(os[1..]) && OperandsSize(os[..0]) == 0
  {
    SizeOfFirst(os, |os|);
    assert os[..|os|] == os && os[1..][..|os| - 1] == os[1..] && os[..0] == [];
  }

  lemma LaterOperand(b: seq<byte>, at: nat, t: Table, os: seq<OperandRecord>, i: nat)
    requires 0 < i < |os|
    requires OperandAt(b, at + OperandSize(os[0]) + OperandsSize(os[1..][..i - 1]), t, os[1..][i - 1])
    ensures OperandAt(b, at + OperandsSize(os[..i]), t, os[i])
  {
    hide OperandAt, OperandSize, OperandsSize;
    SizeOfFirst(os, i);
  }

  lemma OperandBlobIs(t: Table, os: seq<OperandRecord>, b: seq<byte>, put: (OperandRecord, seq<byte>) -> seq<byte>)
    requires EncodeOperands(t, os) == Some(b) && put == ((o: OperandRecord, rest: seq<byte>) => PutOperand(t, o, rest))
    ensures b == PutList(os, put, []) && |os| < LIMIT && forall o :: o in os ==> OperandInterned(t, o)
  {
    hide PutList, PutOperand, OperandInterned;
  }

  /** An operand blob: the number of operands, and the operands one after the other. */
  lemma OperandBlob(t: Table, os: seq<OperandRecord>, b: seq<byte>)
    requires EncodeOperands(t, os) == Some(b)
    ensures |b| == 4 + OperandsSize(os) && U32At(b, 0) == |os|
    ensures forall i :: 0 <= i < |os| ==> OperandAt(b, 4 + OperandsSize(os[..i]), t, os[i])
  {
    hide U32At, PutAll, PutList, PutOperand, OperandAt, OperandInterned, OperandsSize, EncodeOperands;
    var put := (o: OperandRecord, rest: seq<byte>) => PutOperand(t, o, rest);
    OperandBlobIs(t, os, b, put);
    WholeFrom(b);
    ListFirst(b, 0, os, put, []);
    AllOperandsAt(b, 4, t, os, put);
  }

  function VariantsSize(es: seq<(Str, VariantRecord)>): nat {
    if es == [] then 0 else VariantsSize(es[..|es| - 1]) + VariantSize(es[|es| - 1].1)
  }

  lemma {:induction false} SizeOfFirstVariant(es: seq<(Str, VariantRecord)>, k: nat)
    requires 0 < k <= |es|
    ensures VariantsSize(es[..k]) == VariantSize(es[0].1) + VariantsSize(es[1..][..k - 1])
  {
    hide VariantSize;
    if k == 1 {
      assert es[..1][..0] == [] && es[1..][..0] == [];
    } else {
      SizeOfFirstVariant(es, k - 1);
      assert es[..k][..k - 1] == es[..k - 1] && es[1..][..k - 1][..k - 2] == es[1..][..k - 2];
    }
  }

  lemma {:induction false} AllVariantsAt(b: seq<byte>, at: nat, t: Table, es: seq<(Str, VariantRecord)>,
                                         put: ((Str, VariantRecord), seq<byte>) -> seq<byte>)
    requires put == ((e: (Str, VariantRecord), rest: seq<byte>) => PutVariant(t, e, rest))
    requires at <= |b| && b[at..] == PutAll(es, put, [])
    requires forall e :: e in es ==> e.0 in t.offsets && VariantInterned(t, e.1)
    ensures at + VariantsSize(es) == |b|
    ensures forall i :: 0 <= i < |es| ==> VariantAt(b, at + VariantsSize(es[..i]), t, es[i].0, es[i].1)
    decreases |es|
  {
    hide PutVariant, VariantAt, VariantInterned, VariantSize, VariantsSize;
    if es != [] {
      assert es[0] in es;
      var rest := PutAll(es[1..], put, []);
      assert put(es[0], rest) == PutVariant(t, es[0], rest);
      VariantFirst(b, at, t, es[0], rest);
      AllVariantsAt(b, at + VariantSize(es[0].1), t, es[1..], put);
      VariantSizeOfAll(es);
      hide PutAll;
      forall i | 0 <= i < |es|
        ensures VariantAt(b, at + VariantsSize(es[..i]), t, es[i].0, es[i].1)
      {
        if i > 0 {
          LaterVariant(b, at, t, es, i);
        }
      }
    } else {
      NoVariantSize();
    }
  }

  lemma NoVariantSize()
    ensures VariantsSize([]) == 0
  {}

  lemma VariantSizeOfAll(es: seq<(Str, VariantRecord)>)
    requires es != []
    ensures VariantsSize(es) == VariantSize(es[0].1) + VariantsSize(es[1..]) && VariantsSize(es[..0]) == 0
  {
    SizeOfFirstVariant(es, |es|);
    assert es[..|es|] == es && es[1..][..|es| - 1] == es[1..] && es[..0] == [];
  }

  lemma LaterVariant(b: seq<byte>, at: nat, t: Table, es: seq<(Str, VariantRecord)>, i: nat)
    requires 0 < i < |es|
    requires VariantAt(b, at + VariantSize(es[0].1) + VariantsSize(es[1..][..i - 1]), t, es[1..][i - 1].0,
                       es[1..][i - 1].1)
    ensures VariantAt(b, at + VariantsSize(es[..i]), t, es[i].0, es[i].1)
  {
    hide VariantAt, VariantSize, VariantsSize;
    SizeOfFirstVariant(es, i);
  }

  /** A variant blob: the number of variants, and the variants in the order of their names. */
  lemma VariantBlob(t: Table, m: map<Str, VariantRecord>, b: seq<byte>)
    requires EncodeVariants(t, m) == Some(b)
    ensures var es := Entries(m);
            && |b| == 4 + VariantsSize(es) && U32At(b, 0) == |m|
            && forall i :: 0 <= i < |es| ==> VariantAt(b, 4 + VariantsSize(es[..i]), t, es[i].0, es[i].1)
  {
    hide U32At, PutAll, PutList, PutVariant, VariantAt, VariantInterned, VariantsSize, Entries;
    var put := (e: (Str, VariantRecord), rest: seq<byte>) => PutVariant(t, e, rest);
    var es := Entries(m);
    forall e | e in es
      ensures e.0 in t.offsets && VariantInterned(t, e.1)
    {
      var i :| 0 <= i < |es| && es[i] == e;
      EntriesFromMap(m, i);
    }
    assert b == PutList(es, put, []);
    WholeFrom(b);
    ListFirst(b, 0, es, put, []);
    AllVariantsAt(b, 4, t, es, put);
  }

  lemma {:induction false} AllPairsIn(b: seq<byte>, at: nat, t: Table, es: seq<(Str, Str)>,
                                      put: ((Str, Str), seq<byte>) -> seq<byte>)
    requires put == ((e: (Str, Str), rest: seq<byte>) => PutPair(t, e, rest))
    requires at <= |b| && b[at..] == PutAll(es, put, [])
    requires forall e :: e in es ==> e.0 in t.offsets && e.1 in t.offsets
    ensures at + 8 * |es| == |b| && forall i :: 0 <= i < |es| ==> PairIn(b, at + 8 * i, t, es[i])
    decreases |es|
  {
    hide PutPair, PairIn;
    if es != [] {
      assert es[0] in es;
      var rest := PutAll(es[1..], put, []);
      assert put(es[0], rest) == PutPair(t, es[0], rest);
      PairFirst(b, at, t, es[0], rest);
      PairFits(b, at, t, es[0]);
      AllPairsIn(b, at + 8, t, es[1..], put);
      forall i | 0 <= i < |es|
        ensures PairIn(b, at + 8 * i, t, es[i])
      {
        assert i > 0 ==> es[i] == es[1..][i - 1] && at + 8 + 8 * (i - 1) == at + 8 * i;
      }
    }
  }

  lemma PairFits(b: seq<byte>, at: nat, t: Table, e: (Str, Str))
    requires PairIn(b, at, t, e)
    ensures at + 8 <= |b|
  {}

  /** A map of strings: the number of its entries, and the entries in the order of their keys. */
  lemma StringMapBlob(t: Table, m: map<Str, Str>, b: seq<byte>)
    requires EncodeStringMap(t, m) == Some(b)
    ensures |b| == 4 + 8 * |m| && U32At(b, 0) == |m|
    ensures forall i :: 0 <= i < |m| ==> PairIn(b, 4 + 8 * i, t, Entries(m)[i])
  {
    hide U32At, PutAll, PutList, PutPair, PairIn, Entries;
    var put := (e: (Str, Str), rest: seq<byte>) => PutPair(t, e, rest);
    var es := Entries(m);
    forall e | e in es
      ensures e.0 in t.offsets && e.1 in t.offsets
    {
      var i :| 0 <= i < |es| && es[i] == e;
      EntriesFromMap(m, i);
    }
    assert b == PutList(es, put, []);
    WholeFrom(b);
    ListFirst(b, 0, es, put, []);
    AllPairsIn(b, 4, t, es, put);
  }

  /** A list of strings: their number, and their offsets. */
  lemma StringListBlob(t: Table, ss: seq<Str>, b: seq<byte>)
    requires EncodeStringList(t, ss) == Some(b)
    ensures |b| == 4 + 4 * |ss| && StringsAt(b, 0, t, ss)
  {
    hide PutStrings, StringsAt, AllInterned;
    WholeFrom(b);
    StringsEnd(b, 0, t, ss, []);
  }
}

/** Strings that are interned later leave blobs that have been encoded alone. */
module BlobStability {
  import opened Wrappers
  import opened Bytes
  import opened PackData
  import opened StringTable
  import opened Fields
  import opened Blobs
  import opened PackRecords
  import opened PackFile
  import opened PackStrings

  lemma {:induction false} PutAllSame<T(!new)>(xs: seq<T>, put: (T, seq<byte>) -> seq<byte>,
                                               other: (T, seq<byte>) -> seq<byte>, tail: seq<byte>)
    requires forall x, rest :: x in xs ==> put(x, rest) == other(x, rest)
    ensures PutAll(xs, put, tail) == PutAll(xs, other, tail)
  {
    if xs != [] {
      PutAllSame(xs[1..], put, other, tail);
    }
  }

  lemma PutListSame<T(!new)>(xs: seq<T>, put: (T, seq<byte>) -> seq<byte>, other: (T, seq<byte>) -> seq<byte>,
                             tail: seq<byte>)
    requires forall x, rest :: x in xs ==> put(x, rest) == other(x, rest)
    ensures PutList(xs, put, tail) == PutList(xs, other, tail)
  {
    hide PutAll, PutU32;
    PutAllSame(xs, put, other, tail);
  }

  lemma StringSame(t: Table, u: Table, s: Str, tail: seq<byte>)
    requires Extends(t, u) && s in t.offsets
    ensures PutString(t, s, tail) == PutString(u, s, tail)
  {}

  lemma StringsSame(t: Table, u: Table, ss: seq<Str>, tail: seq<byte>)
    requires Extends(t, u) && AllInterned(t, ss)
    ensures PutStrings(t, ss, tail) == PutStrings(u, ss, tail)
  {
    hide PutList, PutString, Extends;
    var put, other := (s: Str, rest: seq<byte>) => PutString(t, s, rest),
                      (s: Str, rest: seq<byte>) => PutString(u, s, rest);
    forall s, rest | s in ss
      ensures put(s, rest) == other(s, rest)
    {
      StringSame(t, u, s, rest);
    }
    PutListSame(ss, put, other, tail);
  }

  lemma OptionalStringSame(t: Table, u: Table, s: Option<Str>, tail: seq<byte>)
    requires Extends(t, u) && OptionInterned(t, s)
    ensures PutOptionalString(t, s, tail) == PutOptionalString(u, s, tail)
  {}

  lemma OperandSame(t: Table, u: Table, o: OperandRecord, tail: seq<byte>)
    requires Extends(t, u) && OperandInterned(t, o)
    ensures PutOperand(t, o, tail) == PutOperand(u, o, tail)
  {
    hide PutString, PutStrings, PutOptionalString, PutU32, PutPresentI32, PutPresentI64, OperandBits, Extends;
    hide AllInterned, OptionInterned;
    var b5 := PutOptionalString(t, o.memOperandRole, tail);
    var b3 := PutPresentI32(o.memScale, PutPresentI64(o.memDisp, b5));
    OptionalStringSame(t, u, o.memOperandRole, tail);
    OptionalStringSame(t, u, o.memIndex, b3);
    OptionalStringSame(t, u, o.memBase, PutOptionalString(t, o.memIndex, b3));
    var b1 := PutMemory(t, o, tail);
    var a3 := PutStrings(t, o.flagsWrite, b1);
    var a2 := PutStrings(t, o.flagsRead, a3);
    var a1 := PutU32(OperandBits(o), PutStrings(t, o.flags, a2));
    StringsSame(t, u, o.flagsWrite, b1);
    StringsSame(t, u, o.flagsRead, a3);
    StringsSame(t, u, o.flags, a2);
    StringSame(t, u, o.typ, a1);
    StringSame(t, u, o.name, PutString(t, o.typ, a1));
  }

  lemma OperandsSame(t: Table, u: Table, os: seq<OperandRecord>)
    requires Extends(t, u) && EncodeOperands(t, os).Some? && EncodeOperands(u, os).Some?
    ensures EncodeOperands(t, os) == EncodeOperands(u, os)
  {
    hide PutList, PutOperand, Extends, OperandInterned;
    var put, other := (o: OperandRecord, rest: seq<byte>) => PutOperand(t, o, rest),
                      (o: OperandRecord, rest: seq<byte>) => PutOperand(u, o, rest);
    forall o, rest | o in os
      ensures put(o, rest) == other(o, rest)
    {
      OperandSame(t, u, o, rest);
    }
    PutListSame(os, put, other, []);
  }

  lemma LatencySame(t: Table, u: Table, l: LatencyRecord, tail: seq<byte>)
    requires Extends(t, u) && LatencyInterned(t, l)
    ensures PutLatency(t, l, tail) == PutLatency(u, l, tail)
  {
    hide PutString, PutU32, PutI32, LatencyBits, Extends;
    var c := PutI32(l.cycles, PutU32(LatencyBits(l),
               PutI32(ValueOr0(l.cyclesAddr), PutI32(ValueOr0(l.cyclesAddrIndex), PutI32(ValueOr0(l.cyclesMem),
                 PutI32(ValueOr0(l.cyclesSameReg), tail))))));
    StringSame(t, u, l.targetOp, c);
    StringSame(t, u, l.startOp, PutString(t, l.targetOp, c));
  }

  lemma LatenciesSame(t: Table, u: Table, ls: seq<LatencyRecord>)
    requires Extends(t, u) && EncodeLatencies(t, ls).Some? && EncodeLatencies(u, ls).Some?
    ensures EncodeLatencies(t, ls) == EncodeLatencies(u, ls)
  {
    hide PutList, PutLatency, Extends, LatencyInterned;
    var put, other := (l: LatencyRecord, rest: seq<byte>) => PutLatency(t, l, rest),
                      (l: LatencyRecord, rest: seq<byte>) => PutLatency(u, l, rest);
    forall l, rest | l in ls
      ensures put(l, rest) == other(l, rest)
    {
      LatencySame(t, u, l, rest);
    }
    PutListSame(ls, put, other, []);
  }

  lemma StringListSame(t: Table, u: Table, ss: seq<Str>)
    requires Extends(t, u) && EncodeStringList(t, ss).Some? && EncodeStringList(u, ss).Some?
    ensures EncodeStringList(t, ss) == EncodeStringList(u, ss)
  {
    StringsSame(t, u, ss, []);
  }

  lemma EntryIn<V>(m: map<Str, V>, e: (Str, V))
    requires e in Entries(m)
    ensures e.0 in m && m[e.0] == e.1
  {
    hide Entries;
    var i :| 0 <= i < |Entries(m)| && Entries(m)[i] == e;
    EntriesFromMap(m, i);
  }

  lemma StringMapSame(t: Table, u: Table, m: map<Str, Str>)
    requires Extends(t, u) && EncodeStringMap(t, m).Some? && EncodeStringMap(u, m).Some?
    ensures EncodeStringMap(t, m) == EncodeStringMap(u, m)
  {
    hide PutList, PutString, Extends, Entries;
    var put, other := (e: (Str, Str), rest: seq<byte>) => PutPair(t, e, rest),
                      (e: (Str, Str), rest: seq<byte>) => PutPair(u, e, rest);
    forall e, rest | e in Entries(m)
      ensures put(e, rest) == other(e, rest)
    {
      EntryIn(m, e);
      StringSame(t, u, e.1, rest);
      StringSame(t, u, e.0, PutString(t, e.1, rest));
    }
    PutListSame(Entries(m), put, other, []);
  }

  lemma PortSame(t: Table, u: Table, e: (Str, i32), tail: seq<byte>)
    requires Extends(t, u) && e.0 in t.offsets
    ensures PutPort(t, e, tail) == PutPort(u, e, tail)
  {
    hide PutString, PutI32, Extends;
    StringSame(t, u, e.0, PutI32(e.1, tail));
  }

  lemma PortsSame(t: Table, u: Table, m: map<Str, i32>, tail: seq<byte>)
    requires Extends(t, u) && PortsInterned(t, m)
    ensures PutPorts(t, m, tail) == PutPorts(u, m, tail)
  {
    hide PutList, PutPort, Extends, Entries;
    var put, other := (e: (Str, i32), rest: seq<byte>) => PutPort(t, e, rest),
                      (e: (Str, i32), rest: seq<byte>) => PutPort(u, e, rest);
    forall e, rest | e in Entries(m)
      ensures put(e, rest) == other(e, rest)
    {
      EntryIn(m, e);
      PortSame(t, u, e, rest);
    }
    PutListSame(Entries(m), put, other, tail);
  }

  lemma VariantSame(t: Table, u: Table, e: (Str, VariantRecord), tail: seq<byte>)
    requires Extends(t, u) && e.0 in t.offsets && VariantInterned(t, e.1)
    ensures PutVariant(t, e, tail) == PutVariant(u, e, tail)
  {
    hide PutString, PutU32, PutNumbers, PutPorts, VariantBits, Extends, PortsInterned;
    if e.1.ports.Some? {
      PortsSame(t, u, e.1.ports.value, tail);
    }
    StringSame(t, u, e.0, PutU32(VariantBits(e.1), PutNumbers(e.1, PutOptionalPorts(t, e.1.ports, tail))));
  }

  lemma VariantsSame(t: Table, u: Table, m: map<Str, VariantRecord>)
    requires Extends(t, u) && EncodeVariants(t, m).Some? && EncodeVariants(u, m).Some?
    ensures EncodeVariants(t, m) == EncodeVariants(u, m)
  {
    hide PutList, PutVariant, Extends, Entries, VariantInterned;
    var put, other := (e: (Str, VariantRecord), rest: seq<byte>) => PutVariant(t, e, rest),
                      (e: (Str, VariantRecord), rest: seq<byte>) => PutVariant(u, e, rest);
    forall e, rest | e in Entries(m)
      ensures put(e, rest) == other(e, rest)
    {
      EntryIn(m, e);
      VariantSame(t, u, e, rest);
    }
    PutListSame(Entries(m), put, other, []);
  }

  lemma HasMore(t: Table, u: Table, ss: seq<Str>)
    requires Extends(t, u) && Has(t, ss)
    ensures Has(u, ss)
  {}

  /** Once the strings of a record have been interned its blobs are what they will be at the end. */
  lemma RawSame(t: Table, u: Table, r: InstructionRecord)
    requires Extends(t, u) && Has(t, RecordStrings(r))
    ensures EncodeRaw(t, r) == EncodeRaw(u, r)
  {
    hide Small, RecordStrings, Extends, Has;
    HasMore(t, u, RecordStrings(r));
    EncodesSmall(t, r);
    EncodesSmall(u, r);
    hide EncodeOperands, EncodeLatencies, EncodeVariants, EncodeStringList, EncodeStringMap;
    if EncodeRaw(t, r).Some? {
      RawParts(t, r);
      RawParts(u, r);
      OperandsSame(t, u, r.perf.operands);
      LatenciesSame(t, u, r.perf.latencies);
      VariantsSame(t, u, r.perf.variants);
      StringListSame(t, u, r.perf.macroFusibleWith);
      StringMapSame(t, u, r.xmlAttrs);
    }
  }
}

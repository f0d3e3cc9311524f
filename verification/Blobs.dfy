/** The blobs of an instruction record: operands, latencies, variants, string lists and string maps. */
module Blobs {
  import opened Wrappers
  import opened Bytes
  import opened PackData
  import opened StringTable
  import opened Fields

  const MIN_OPERAND_BLOB_BYTES: nat := 56
  const MIN_LATENCY_BLOB_BYTES: nat := 32
  const MIN_VARIANT_BLOB_BYTES: nat := 48

  /** A blob is read completely. */
  function Whole<T>(p: Option<Parsed<T>>): Option<T> {
    if p.Some? && p.value.rest == [] then Some(p.value.value) else None
  }

  // String lists

  predicate AllInterned(t: Table, ss: seq<Str>) {
    |ss| < LIMIT && forall s :: s in ss ==> s in t.offsets
  }

  function PutStrings(t: Table, ss: seq<Str>, tail: seq<byte>): (r: seq<byte>)
    ensures |r| >= 4
  {
    PutList(ss, (s, rest) => PutString(t, s, rest), tail)
  }

  function GetStrings(strings: seq<byte>, b: seq<byte>): Option<Parsed<seq<Str>>> {
    GetList(rest => GetString(strings, rest), 4, b)
  }

  lemma StringsRoundTrip(t: Table, ss: seq<Str>, tail: seq<byte>)
    requires Usable(t) && AllInterned(t, ss)
    ensures GetStrings(t.bytes, PutStrings(t, ss, tail)) == Some(Parsed(ss, tail))
    ensures |PutStrings(t, ss, tail)| >= 4 + |tail|
  {
    hide PutString, GetString, PutList, GetList, Valid;
    var put, get := (s: Str, rest: seq<byte>) => PutString(t, s, rest), (b: seq<byte>) => GetString(t.bytes, b);
    forall s | s in ss
      ensures ReadsBack(s, put, get, 4)
    {
      forall rest: seq<byte>
        ensures get(put(s, rest)) == Some(Parsed(s, rest)) && |put(s, rest)| >= 4 + |rest|
      {
        StringRoundTrip(t, s, rest);
      }
    }
    ListRoundTrip(ss, put, get, 4, tail);
  }

  // Operands

  predicate OptionInterned(t: Table, s: Option<Str>) {
    s.Some? ==> s.value in t.offsets
  }

  predicate OperandInterned(t: Table, o: OperandRecord) {
    && o.name in t.offsets && o.typ in t.offsets
    && AllInterned(t, o.flags) && AllInterned(t, o.flagsRead) && AllInterned(t, o.flagsWrite)
    && OptionInterned(t, o.memBase) && OptionInterned(t, o.memIndex) && OptionInterned(t, o.memOperandRole)
  }

  function OperandBits(o: OperandRecord): u32 {
    BitsBounded([o.read, o.write, o.implicit, o.isAgen]);
    assert Pow2(4) == 16;
    Bits([o.read, o.write, o.implicit, o.isAgen])
  }

  /** The fields of an operand after its flags. */
  function PutMemory(t: Table, o: OperandRecord, tail: seq<byte>): (r: seq<byte>)
    ensures |r| == 32 + |tail|
  {
    PutOptionalString(t, o.memBase,
      PutOptionalString(t, o.memIndex,
        PutPresentI32(o.memScale, PutPresentI64(o.memDisp, PutOptionalString(t, o.memOperandRole, tail)))))
  }

  function PutOperand(t: Table, o: OperandRecord, tail: seq<byte>): seq<byte> {
    PutString(t, o.name, PutString(t, o.typ, PutU32(OperandBits(o),
      PutStrings(t, o.flags, PutStrings(t, o.flagsRead, PutStrings(t, o.flagsWrite, PutMemory(t, o, tail)))))))
  }

  function GetOperand(strings: seq<byte>, b: seq<byte>): Option<Parsed<OperandRecord>> {
    var name :- GetString(strings, b);
    var typ :- GetString(strings, name.rest);
    var bits :- GetU32(typ.rest);
    if bits.value >= 16 then None
    else
      var flags :- GetStrings(strings, bits.rest);
      var flagsRead :- GetStrings(strings, flags.rest);
      var flagsWrite :- GetStrings(strings, flagsRead.rest);
      var memBase :- GetOptionalString(strings, flagsWrite.rest);
      var memIndex :- GetOptionalString(strings, memBase.rest);
      var memScale :- GetPresentI32(memIndex.rest);
      var memDisp :- GetPresentI64(memScale.rest);
      var role :- GetOptionalString(strings, memDisp.rest);
      Some(Parsed(OperandRecord(name.value, typ.value, Bit(bits.value, 0), Bit(bits.value, 1), Bit(bits.value, 2),
                                flags.value, flagsRead.value, flagsWrite.value, memBase.value, memIndex.value,
                                memScale.value, memDisp.value, Bit(bits.value, 3), role.value),
                  role.rest))
  }

  lemma OperandBitsRead(o: OperandRecord)
    ensures var bits := OperandBits(o);
            bits < 16 && Bit(bits, 0) == o.read && Bit(bits, 1) == o.write && Bit(bits, 2) == o.implicit &&
            Bit(bits, 3) == o.isAgen
  {
    var bs := [o.read, o.write, o.implicit, o.isAgen];
    BitsBounded(bs);
    assert Pow2(4) == 16;
    BitOf(bs, 0);
    BitOf(bs, 1);
    BitOf(bs, 2);
    BitOf(bs, 3);
  }

  lemma OperandRoundTrip(t: Table, o: OperandRecord, tail: seq<byte>)
    requires Usable(t) && OperandInterned(t, o)
    ensures GetOperand(t.bytes, PutOperand(t, o, tail)) == Some(Parsed(o, tail))
    ensures |PutOperand(t, o, tail)| >= MIN_OPERAND_BLOB_BYTES + |tail|
  {
    hide PutString, GetString, PutOptionalString, GetOptionalString, PutU32, GetU32, PutStrings, GetStrings;
    hide PutPresentI32, GetPresentI32, PutPresentI64, GetPresentI64, OperandBits, Bit, Valid, AllInterned;
    var b5 := PutOptionalString(t, o.memOperandRole, tail);
    var b4 := PutPresentI64(o.memDisp, b5);
    var b3 := PutPresentI32(o.memScale, b4);
    var b2 := PutOptionalString(t, o.memIndex, b3);
    var b1 := PutMemory(t, o, tail);
    var a3 := PutStrings(t, o.flagsWrite, b1);
    var a2 := PutStrings(t, o.flagsRead, a3);
    var a1 := PutStrings(t, o.flags, a2);
    OptionalStringRoundTrip(t, o.memOperandRole, tail);
    PresentI64RoundTrip(o.memDisp, b5);
    PresentI32RoundTrip(o.memScale, b4);
    OptionalStringRoundTrip(t, o.memIndex, b3);
    OptionalStringRoundTrip(t, o.memBase, b2);
    StringsRoundTrip(t, o.flagsWrite, b1);
    StringsRoundTrip(t, o.flagsRead, a3);
    StringsRoundTrip(t, o.flags, a2);
    OperandBitsRead(o);
    U32RoundTrip(OperandBits(o), a1);
    StringRoundTrip(t, o.typ, PutU32(OperandBits(o), a1));
    StringRoundTrip(t, o.name, PutString(t, o.typ, PutU32(OperandBits(o), a1)));
  }

  /** The operands of a record, if all their strings are interned and no list is too long. */
  function EncodeOperands(t: Table, os: seq<OperandRecord>): (r: Option<seq<byte>>)
    ensures r.Some? ==> |r.value| >= 4
  {
    if |os| < LIMIT && forall o :: o in os ==> OperandInterned(t, o)
    then Some(PutList(os, (o, rest) => PutOperand(t, o, rest), []))
    else None
  }

  function DecodeOperands(strings: seq<byte>, b: seq<byte>): Option<seq<OperandRecord>> {
    Whole(GetList(rest => GetOperand(strings, rest), MIN_OPERAND_BLOB_BYTES, b))
  }

  lemma OperandsRoundTrip(t: Table, os: seq<OperandRecord>)
    requires Usable(t) && EncodeOperands(t, os).Some?
    ensures DecodeOperands(t.bytes, EncodeOperands(t, os).value) == Some(os)
  {
    hide PutOperand, GetOperand, PutList, GetList, Valid, OperandInterned;
    var put, get := (o: OperandRecord, rest: seq<byte>) => PutOperand(t, o, rest),
                    (b: seq<byte>) => GetOperand(t.bytes, b);
    forall o | o in os
      ensures ReadsBack(o, put, get, MIN_OPERAND_BLOB_BYTES)
    {
      forall rest: seq<byte>
        ensures get(put(o, rest)) == Some(Parsed(o, rest)) && |put(o, rest)| >= MIN_OPERAND_BLOB_BYTES + |rest|
      {
        OperandRoundTrip(t, o, rest);
      }
    }
    ListRoundTrip(os, put, get, MIN_OPERAND_BLOB_BYTES, []);
  }

  // Latencies

  predicate LatencyInterned(t: Table, l: LatencyRecord) {
    l.startOp in t.offsets && l.targetOp in t.offsets
  }

  function LatencyPresence(l: LatencyRecord): seq<bool> {
    [l.cyclesAddr.Some?, l.cyclesAddrIndex.Some?, l.cyclesMem.Some?, l.cyclesSameReg.Some?]
  }

  function LatencyBits(l: LatencyRecord): (r: u32)
    ensures r < 16
  {
    BitsBounded(LatencyPresence(l));
    assert Pow2(4) == 16;
    Bits(LatencyPresence(l))
  }

  function PutLatency(t: Table, l: LatencyRecord, tail: seq<byte>): (r: seq<byte>)
    ensures |r| == MIN_LATENCY_BLOB_BYTES + |tail|
  {
    PutString(t, l.startOp, PutString(t, l.targetOp, PutI32(l.cycles, PutU32(LatencyBits(l),
      PutI32(ValueOr0(l.cyclesAddr), PutI32(ValueOr0(l.cyclesAddrIndex), PutI32(ValueOr0(l.cyclesMem),
        PutI32(ValueOr0(l.cyclesSameReg), tail))))))))
  }

  function LatencyFrom(start: Str, target: Str, cycles: i32, bits: nat, addr: i32, index: i32, mem: i32,
                       same: i32): Option<LatencyRecord> {
    var cyclesAddr :- Optional(bits, 0, addr);
    var cyclesAddrIndex :- Optional(bits, 1, index);
    var cyclesMem :- Optional(bits, 2, mem);
    var cyclesSameReg :- Optional(bits, 3, same);
    Some(LatencyRecord(start, target, cycles, cyclesAddr, cyclesAddrIndex, cyclesMem, cyclesSameReg))
  }

  function GetLatency(strings: seq<byte>, b: seq<byte>): Option<Parsed<LatencyRecord>> {
    var start :- GetString(strings, b);
    var target :- GetString(strings, start.rest);
    var cycles :- GetI32(target.rest);
    var bits :- GetU32(cycles.rest);
    if bits.value >= 16 then None
    else
      var addr :- GetI32(bits.rest);
      var index :- GetI32(addr.rest);
      var mem :- GetI32(index.rest);
      var same :- GetI32(mem.rest);
      var l :- LatencyFrom(start.value, target.value, cycles.value, bits.value, addr.value, index.value, mem.value,
                           same.value);
      Some(Parsed(l, same.rest))
  }

  lemma LatencyBitsRead(l: LatencyRecord)
    ensures var bits := LatencyBits(l);
            && Optional(bits, 0, ValueOr0(l.cyclesAddr)) == Some(l.cyclesAddr)
            && Optional(bits, 1, ValueOr0(l.cyclesAddrIndex)) == Some(l.cyclesAddrIndex)
            && Optional(bits, 2, ValueOr0(l.cyclesMem)) == Some(l.cyclesMem)
            && Optional(bits, 3, ValueOr0(l.cyclesSameReg)) == Some(l.cyclesSameReg)
  {
    hide Bits, Bit;
    var bs := LatencyPresence(l);
    BitOf(bs, 0);
    BitOf(bs, 1);
    BitOf(bs, 2);
    BitOf(bs, 3);
  }

  lemma LatencyRoundTrip(t: Table, l: LatencyRecord, tail: seq<byte>)
    requires Usable(t) && LatencyInterned(t, l)
    ensures GetLatency(t.bytes, PutLatency(t, l, tail)) == Some(Parsed(l, tail))
  {
    hide PutString, GetString, PutU32, GetU32, PutI32, GetI32, LatencyBits, Optional, Valid;
    var d3 := PutI32(ValueOr0(l.cyclesSameReg), tail);
    var d2 := PutI32(ValueOr0(l.cyclesMem), d3);
    var d1 := PutI32(ValueOr0(l.cyclesAddrIndex), d2);
    var d0 := PutI32(ValueOr0(l.cyclesAddr), d1);
    var c1 := PutU32(LatencyBits(l), d0);
    var c0 := PutI32(l.cycles, c1);
    I32RoundTrip(ValueOr0(l.cyclesSameReg), tail);
    I32RoundTrip(ValueOr0(l.cyclesMem), d3);
    I32RoundTrip(ValueOr0(l.cyclesAddrIndex), d2);
    I32RoundTrip(ValueOr0(l.cyclesAddr), d1);
    U32RoundTrip(LatencyBits(l), d0);
    I32RoundTrip(l.cycles, c1);
    StringRoundTrip(t, l.targetOp, c0);
    StringRoundTrip(t, l.startOp, PutString(t, l.targetOp, c0));
    LatencyBitsRead(l);
  }

  function EncodeLatencies(t: Table, ls: seq<LatencyRecord>): (r: Option<seq<byte>>)
    ensures r.Some? ==> |r.value| >= 4
  {
    if |ls| < LIMIT && forall l :: l in ls ==> LatencyInterned(t, l)
    then Some(PutList(ls, (l, rest) => PutLatency(t, l, rest), []))
    else None
  }

  function DecodeLatencies(strings: seq<byte>, b: seq<byte>): Option<seq<LatencyRecord>> {
    Whole(GetList(rest => GetLatency(strings, rest), MIN_LATENCY_BLOB_BYTES, b))
  }

  lemma LatenciesRoundTrip(t: Table, ls: seq<LatencyRecord>)
    requires Usable(t) && EncodeLatencies(t, ls).Some?
    ensures DecodeLatencies(t.bytes, EncodeLatencies(t, ls).value) == Some(ls)
  {
    hide PutLatency, GetLatency, PutList, GetList, Valid, LatencyInterned;
    var put, get := (l: LatencyRecord, rest: seq<byte>) => PutLatency(t, l, rest),
                    (b: seq<byte>) => GetLatency(t.bytes, b);
    forall l | l in ls
      ensures ReadsBack(l, put, get, MIN_LATENCY_BLOB_BYTES)
    {
      forall rest: seq<byte>
        ensures get(put(l, rest)) == Some(Parsed(l, rest)) && |put(l, rest)| >= MIN_LATENCY_BLOB_BYTES + |rest|
      {
        LatencyRoundTrip(t, l, rest);
      }
    }
    ListRoundTrip(ls, put, get, MIN_LATENCY_BLOB_BYTES, []);
  }

  // String lists and string maps of a record

  function EncodeStringList(t: Table, ss: seq<Str>): (r: Option<seq<byte>>)
    ensures r.Some? ==> |r.value| >= 4
  {
    if AllInterned(t, ss) then Some(PutStrings(t, ss, [])) else None
  }

  function DecodeStringList(strings: seq<byte>, b: seq<byte>): Option<seq<Str>> {
    Whole(GetStrings(strings, b))
  }

  lemma StringListRoundTrip(t: Table, ss: seq<Str>)
    requires Usable(t) && EncodeStringList(t, ss).Some?
    ensures DecodeStringList(t.bytes, EncodeStringList(t, ss).value) == Some(ss)
  {
    StringsRoundTrip(t, ss, []);
  }

  function PutPair(t: Table, e: (Str, Str), tail: seq<byte>): (r: seq<byte>)
    ensures |r| == 8 + |tail|
  {
    PutString(t, e.0, PutString(t, e.1, tail))
  }

  function GetPair(strings: seq<byte>, b: seq<byte>): Option<Parsed<(Str, Str)>> {
    var key :- GetString(strings, b);
    var value :- GetString(strings, key.rest);
    Some(Parsed((key.value, value.value), value.rest))
  }

  predicate MapInterned(t: Table, m: map<Str, Str>) {
    |m| < LIMIT && forall k :: k in m ==> k in t.offsets && m[k] in t.offsets
  }

  function EncodeStringMap(t: Table, m: map<Str, Str>): (r: Option<seq<byte>>)
    ensures r.Some? ==> |r.value| >= 4
  {
    if MapInterned(t, m) then Some(PutList(Entries(m), (e, rest) => PutPair(t, e, rest), [])) else None
  }

  /** The entries, none of whose keys may occur twice. */
  function DecodeStringMap(strings: seq<byte>, b: seq<byte>): Option<map<Str, Str>> {
    var es :- Whole(GetList(rest => GetPair(strings, rest), 8, b));
    InsertAll(map[], es)
  }

  lemma PairReadsBack(t: Table, e: (Str, Str), put: ((Str, Str), seq<byte>) -> seq<byte>,
                      get: seq<byte> -> Option<Parsed<(Str, Str)>>)
    requires Usable(t) && e.0 in t.offsets && e.1 in t.offsets
    requires put == ((e: (Str, Str), rest: seq<byte>) => PutPair(t, e, rest))
    requires get == ((b: seq<byte>) => GetPair(t.bytes, b))
    ensures ReadsBack(e, put, get, 8)
  {
    hide PutString, GetString, Valid;
    forall rest: seq<byte>
      ensures get(put(e, rest)) == Some(Parsed(e, rest)) && |put(e, rest)| >= 8 + |rest|
    {
      StringRoundTrip(t, e.1, rest);
      StringRoundTrip(t, e.0, PutString(t, e.1, rest));
    }
  }

  lemma StringMapRoundTrip(t: Table, m: map<Str, Str>)
    requires Usable(t) && EncodeStringMap(t, m).Some?
    ensures DecodeStringMap(t.bytes, EncodeStringMap(t, m).value) == Some(m)
  {
    hide PutPair, GetPair, PutList, GetList, Valid, Entries, InsertAll;
    var put, get := (e: (Str, Str), rest: seq<byte>) => PutPair(t, e, rest), (b: seq<byte>) => GetPair(t.bytes, b);
    var es := Entries(m);
    forall e | e in es
      ensures ReadsBack(e, put, get, 8)
    {
      var i :| 0 <= i < |es| && es[i] == e;
      EntriesFromMap(m, i);
      PairReadsBack(t, e, put, get);
    }
    ListRoundTrip(es, put, get, 8, []);
    EntriesRebuild(map[], m);
    assert map[] + m == m;
  }

  // Ports

  predicate PortsInterned(t: Table, m: map<Str, i32>) {
    |m| < LIMIT && forall k :: k in m ==> k in t.offsets
  }

  function PutPort(t: Table, e: (Str, i32), tail: seq<byte>): (r: seq<byte>)
    ensures |r| == PORT_ENTRY_SIZE + |tail|
  {
    PutString(t, e.0, PutI32(e.1, tail))
  }

  function GetPort(strings: seq<byte>, b: seq<byte>): Option<Parsed<(Str, i32)>> {
    var key :- GetString(strings, b);
    var count :- GetI32(key.rest);
    Some(Parsed((key.value, count.value), count.rest))
  }

  lemma PortReadsBack(t: Table, e: (Str, i32), put: ((Str, i32), seq<byte>) -> seq<byte>,
                      get: seq<byte> -> Option<Parsed<(Str, i32)>>)
    requires Usable(t) && e.0 in t.offsets
    requires put == ((e: (Str, i32), rest: seq<byte>) => PutPort(t, e, rest))
    requires get == ((b: seq<byte>) => GetPort(t.bytes, b))
    ensures ReadsBack(e, put, get, PORT_ENTRY_SIZE)
  {
    hide PutString, GetString, PutI32, GetI32, Valid;
    forall rest: seq<byte>
      ensures get(put(e, rest)) == Some(Parsed(e, rest)) && |put(e, rest)| >= PORT_ENTRY_SIZE + |rest|
    {
      I32RoundTrip(e.1, rest);
      StringRoundTrip(t, e.0, PutI32(e.1, rest));
    }
  }

  function PutPorts(t: Table, m: map<Str, i32>, tail: seq<byte>): seq<byte> {
    PutList(Entries(m), (e, rest) => PutPort(t, e, rest), tail)
  }

  function GetPorts(strings: seq<byte>, b: seq<byte>): Option<Parsed<map<Str, i32>>> {
    var es :- GetList(rest => GetPort(strings, rest), PORT_ENTRY_SIZE, b);
    var m :- InsertAll(map[], es.value);
    Some(Parsed(m, es.rest))
  }

  lemma PortsRoundTrip(t: Table, m: map<Str, i32>, tail: seq<byte>)
    requires Usable(t) && PortsInterned(t, m)
    ensures GetPorts(t.bytes, PutPorts(t, m, tail)) == Some(Parsed(m, tail))
    ensures |PutPorts(t, m, tail)| >= 4 + |tail|
  {
    hide PutPort, GetPort, PutList, GetList, Valid, Entries, InsertAll;
    var put, get := (e: (Str, i32), rest: seq<byte>) => PutPort(t, e, rest), (b: seq<byte>) => GetPort(t.bytes, b);
    var es := Entries(m);
    forall e | e in es
      ensures ReadsBack(e, put, get, PORT_ENTRY_SIZE)
    {
      var i :| 0 <= i < |es| && es[i] == e;
      EntriesFromMap(m, i);
      PortReadsBack(t, e, put, get);
    }
    ListRoundTrip(es, put, get, PORT_ENTRY_SIZE, tail);
    EntriesRebuild(map[], m);
    assert map[] + m == m;
  }

  // Variants

  predicate VariantInterned(t: Table, v: VariantRecord) {
    v.ports.Some? ==> PortsInterned(t, v.ports.value)
  }

  function VariantPresence(v: VariantRecord): seq<bool> {
    [v.uops.Some?, v.retireSlots.Some?, v.uopsMite.Some?, v.uopsMs.Some?, v.tp.Some?, v.ports.Some?,
     v.divCycles.Some?, v.complexDecoder.Some?, v.nAvailableSimpleDecoders.Some?]
  }

  function VariantBits(v: VariantRecord): (r: u32)
    ensures r < 512
  {
    BitsBounded(VariantPresence(v));
    assert Pow2(4) == 16 && Pow2(9) == 512;
    Bits(VariantPresence(v))
  }

  function Flag(o: Option<bool>): u32 {
    if o.Some? && o.value then 1 else 0
  }

  function GetFlag(bits: nat, k: nat, value: int): Option<Option<bool>> {
    var o :- Optional(bits, k, value);
    if o.None? then Some(None)
    else if o.value == 0 then Some(Some(false))
    else if o.value == 1 then Some(Some(true))
    else None
  }

  function PutOptionalPorts(t: Table, ports: Option<map<Str, i32>>, tail: seq<byte>): seq<byte> {
    if ports.Some? then PutPorts(t, ports.value, tail) else PutU32(0, tail)
  }

  function GetOptionalPorts(strings: seq<byte>, present: bool, b: seq<byte>): Option<Parsed<Option<map<Str, i32>>>> {
    if present then
      var m :- GetPorts(strings, b);
      Some(Parsed(Some(m.value), m.rest))
    else
      var n :- GetU32(b);
      if n.value == 0 then Some(Parsed(None, n.rest)) else None
  }

  lemma OptionalPortsRoundTrip(t: Table, ports: Option<map<Str, i32>>, tail: seq<byte>)
    requires Usable(t) && (ports.Some? ==> PortsInterned(t, ports.value))
    ensures GetOptionalPorts(t.bytes, ports.Some?, PutOptionalPorts(t, ports, tail)) == Some(Parsed(ports, tail))
    ensures |PutOptionalPorts(t, ports, tail)| >= 4 + |tail|
  {
    hide PutPorts, GetPorts, PutU32, GetU32, Valid, PortsInterned;
    if ports.Some? {
      PortsRoundTrip(t, ports.value, tail);
    } else {
      U32RoundTrip(0, tail);
    }
  }

  /** The numbers of a variant. */
  function PutNumbers(v: VariantRecord, tail: seq<byte>): (r: seq<byte>)
    ensures |r| == 36 + |tail|
  {
    PutI32(ValueOr0(v.uops), PutI32(ValueOr0(v.retireSlots), PutI32(ValueOr0(v.uopsMite), PutI32(ValueOr0(v.uopsMs),
      PutU64(ValueOr0(v.tp), PutU32(ValueOr0(v.divCycles), PutU32(Flag(v.complexDecoder),
        PutU32(ValueOr0(v.nAvailableSimpleDecoders), tail))))))))
  }

  datatype Numbers = Numbers(uops: i32, retireSlots: i32, uopsMite: i32, uopsMs: i32, tp: u64, divCycles: u32,
                             complexDecoder: u32, nAvailableSimpleDecoders: u32)

  function GetNumbers(b: seq<byte>): Option<Parsed<Numbers>> {
    var uops :- GetI32(b);
    var retireSlots :- GetI32(uops.rest);
    var uopsMite :- GetI32(retireSlots.rest);
    var uopsMs :- GetI32(uopsMite.rest);
    var tp :- GetU64(uopsMs.rest);
    var divCycles :- GetU32(tp.rest);
    var complexDecoder :- GetU32(divCycles.rest);
    var nAvailable :- GetU32(complexDecoder.rest);
    Some(Parsed(Numbers(uops.value, retireSlots.value, uopsMite.value, uopsMs.value, tp.value, divCycles.value,
                        complexDecoder.value, nAvailable.value), nAvailable.rest))
  }

  function NumbersOf(v: VariantRecord): Numbers {
    Numbers(ValueOr0(v.uops), ValueOr0(v.retireSlots), ValueOr0(v.uopsMite), ValueOr0(v.uopsMs), ValueOr0(v.tp),
            ValueOr0(v.divCycles), Flag(v.complexDecoder), ValueOr0(v.nAvailableSimpleDecoders))
  }

  lemma NumbersRoundTrip(v: VariantRecord, tail: seq<byte>)
    ensures GetNumbers(PutNumbers(v, tail)) == Some(Parsed(NumbersOf(v), tail))
  {
    hide PutU32, GetU32, PutI32, GetI32, PutU64, GetU64, Flag;
    var n7 := PutU32(ValueOr0(v.nAvailableSimpleDecoders), tail);
    var n6 := PutU32(Flag(v.complexDecoder), n7);
    var n5 := PutU32(ValueOr0(v.divCycles), n6);
    var n4 := PutU64(ValueOr0(v.tp), n5);
    var n3 := PutI32(ValueOr0(v.uopsMs), n4);
    var n2 := PutI32(ValueOr0(v.uopsMite), n3);
    U32RoundTrip(ValueOr0(v.nAvailableSimpleDecoders), tail);
    U32RoundTrip(Flag(v.complexDecoder), n7);
    U32RoundTrip(ValueOr0(v.divCycles), n6);
    U64RoundTrip(ValueOr0(v.tp), n5);
    I32RoundTrip(ValueOr0(v.uopsMs), n4);
    I32RoundTrip(ValueOr0(v.uopsMite), n3);
    I32RoundTrip(ValueOr0(v.retireSlots), n2);
    I32RoundTrip(ValueOr0(v.uops), PutI32(ValueOr0(v.retireSlots), n2));
  }

  function PutVariant(t: Table, e: (Str, VariantRecord), tail: seq<byte>): seq<byte> {
    PutString(t, e.0, PutU32(VariantBits(e.1), PutNumbers(e.1, PutOptionalPorts(t, e.1.ports, tail))))
  }

  function VariantFrom(bits: nat, n: Numbers, ports: Option<map<Str, i32>>): Option<VariantRecord> {
    var uops :- Optional(bits, 0, n.uops);
    var retireSlots :- Optional(bits, 1, n.retireSlots);
    var uopsMite :- Optional(bits, 2, n.uopsMite);
    var uopsMs :- Optional(bits, 3, n.uopsMs);
    var tp :- Optional(bits, 4, n.tp);
    var divCycles :- Optional(bits, 6, n.divCycles);
    var complexDecoder :- GetFlag(bits, 7, n.complexDecoder);
    var nAvailable :- Optional(bits, 8, n.nAvailableSimpleDecoders);
    Some(VariantRecord(uops, retireSlots, uopsMite, uopsMs, tp, ports, divCycles, complexDecoder, nAvailable))
  }

  function GetVariant(strings: seq<byte>, b: seq<byte>): Option<Parsed<(Str, VariantRecord)>> {
    var name :- GetString(strings, b);
    var bits :- GetU32(name.rest);
    if bits.value >= 512 then None
    else
      var numbers :- GetNumbers(bits.rest);
      var ports :- GetOptionalPorts(strings, Bit(bits.value, 5), numbers.rest);
      var v :- VariantFrom(bits.value, numbers.value, ports.value);
      Some(Parsed((name.value, v), ports.rest))
  }

  lemma PresentIn(v: VariantRecord, k: nat, o: Option<int>)
    requires k < 9 && VariantPresence(v)[k] == o.Some?
    ensures Optional(VariantBits(v), k, ValueOr0(o)) == Some(o) && Bit(VariantBits(v), k) == o.Some?
  {
    hide Bits, Bit;
    BitOf(VariantPresence(v), k);
  }

  lemma FlagIn(v: VariantRecord)
    ensures GetFlag(VariantBits(v), 7, Flag(v.complexDecoder)) == Some(v.complexDecoder)
  {
    hide VariantBits;
    PresentIn(v, 7, if v.complexDecoder.Some? then Some(Flag(v.complexDecoder)) else None);
  }

  lemma VariantFromBits(v: VariantRecord)
    ensures VariantFrom(VariantBits(v), NumbersOf(v), v.ports) == Some(v) && Bit(VariantBits(v), 5) == v.ports.Some?
  {
    hide Bit, VariantBits, Optional, GetFlag, ValueOr0, Flag;
    PresentIn(v, 0, v.uops);
    PresentIn(v, 1, v.retireSlots);
    PresentIn(v, 2, v.uopsMite);
    PresentIn(v, 3, v.uopsMs);
    PresentIn(v, 4, v.tp);
    PresentIn(v, 5, if v.ports.Some? then Some(0) else None);
    PresentIn(v, 6, v.divCycles);
    FlagIn(v);
    PresentIn(v, 8, v.nAvailableSimpleDecoders);
  }

  lemma VariantReadsBack(t: Table, e: (Str, VariantRecord), put: ((Str, VariantRecord), seq<byte>) -> seq<byte>,
                         get: seq<byte> -> Option<Parsed<(Str, VariantRecord)>>)
    requires Usable(t) && e.0 in t.offsets && VariantInterned(t, e.1)
    requires put == ((e: (Str, VariantRecord), rest: seq<byte>) => PutVariant(t, e, rest))
    requires get == ((b: seq<byte>) => GetVariant(t.bytes, b))
    ensures ReadsBack(e, put, get, MIN_VARIANT_BLOB_BYTES)
  {
    hide PutString, GetString, PutU32, GetU32, PutNumbers, GetNumbers, PutOptionalPorts, GetOptionalPorts, Valid;
    hide VariantBits, VariantFrom, Bit, NumbersOf, PortsInterned;
    VariantFromBits(e.1);
    forall rest: seq<byte>
      ensures get(put(e, rest)) == Some(Parsed(e, rest)) && |put(e, rest)| >= MIN_VARIANT_BLOB_BYTES + |rest|
    {
      var p := PutOptionalPorts(t, e.1.ports, rest);
      OptionalPortsRoundTrip(t, e.1.ports, rest);
      NumbersRoundTrip(e.1, p);
      U32RoundTrip(VariantBits(e.1), PutNumbers(e.1, p));
      StringRoundTrip(t, e.0, PutU32(VariantBits(e.1), PutNumbers(e.1, p)));
    }
  }

  function EncodeVariants(t: Table, m: map<Str, VariantRecord>): (r: Option<seq<byte>>)
    ensures r.Some? ==> |r.value| >= 4
  {
    if |m| < LIMIT && forall k :: k in m ==> k in t.offsets && VariantInterned(t, m[k])
    then Some(PutList(Entries(m), (e, rest) => PutVariant(t, e, rest), []))
    else None
  }

  function DecodeVariants(strings: seq<byte>, b: seq<byte>): Option<map<Str, VariantRecord>> {
    var es :- Whole(GetList(rest => GetVariant(strings, rest), MIN_VARIANT_BLOB_BYTES, b));
    InsertAll(map[], es)
  }

  lemma VariantsRoundTrip(t: Table, m: map<Str, VariantRecord>)
    requires Usable(t) && EncodeVariants(t, m).Some?
    ensures DecodeVariants(t.bytes, EncodeVariants(t, m).value) == Some(m)
  {
    hide PutVariant, GetVariant, PutList, GetList, Valid, Entries, InsertAll, VariantInterned;
    var put, get := (e: (Str, VariantRecord), rest: seq<byte>) => PutVariant(t, e, rest),
                    (b: seq<byte>) => GetVariant(t.bytes, b);
    var es := Entries(m);
    forall e | e in es
      ensures ReadsBack(e, put, get, MIN_VARIANT_BLOB_BYTES)
    {
      var i :| 0 <= i < |es| && es[i] == e;
      EntriesFromMap(m, i);
      VariantReadsBack(t, e, put, get);
    }
    ListRoundTrip(es, put, get, MIN_VARIANT_BLOB_BYTES, []);
    EntriesRebuild(map[], m);
    assert map[] + m == m;
  }
}

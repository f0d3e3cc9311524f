/** Whole UIPack files: how a data pack is encoded, how a file is loaded, and that the one undoes the other. */
module PackFile {
  import opened Wrappers
  import opened Arithmetic
  import opened Bytes
  import opened PackData
  import opened StringTable
  import opened Fields
  import opened Blobs
  import opened PackRecords
  import opened PackHeader
  import opened PortLists
  import Checksum

  // The strings of a pack, in the order in which they are interned

  function Optionally(s: Option<Str>): seq<Str> {
    if s.Some? then [s.value] else []
  }

  function StringsOfOperand(o: OperandRecord): seq<Str> {
    [o.name, o.typ] + o.flags + o.flagsRead + o.flagsWrite +
    Optionally(o.memBase) + Optionally(o.memIndex) + Optionally(o.memOperandRole)
  }

  function OperandStrings(os: seq<OperandRecord>): seq<Str> {
    if os == [] then [] else OperandStrings(os[..|os| - 1]) + StringsOfOperand(os[|os| - 1])
  }

  function LatencyStrings(ls: seq<LatencyRecord>): seq<Str> {
    if ls == [] then []
    else LatencyStrings(ls[..|ls| - 1]) + [ls[|ls| - 1].startOp, ls[|ls| - 1].targetOp]
  }

  function Keys<V>(es: seq<(Str, V)>): seq<Str> {
    if es == [] then [] else Keys(es[..|es| - 1]) + [es[|es| - 1].0]
  }

  function VariantStrings(es: seq<(Str, VariantRecord)>): seq<Str> {
    if es == [] then []
    else
      var e := es[|es| - 1];
      VariantStrings(es[..|es| - 1]) + [e.0] + if e.1.ports.Some? then Keys(Entries(e.1.ports.value)) else []
  }

  function PairStrings(es: seq<(Str, Str)>): seq<Str> {
    if es == [] then [] else PairStrings(es[..|es| - 1]) + [es[|es| - 1].0, es[|es| - 1].1]
  }

  function RecordStrings(r: InstructionRecord): seq<Str> {
    [r.iform, r.str] + Keys(Entries(r.perf.ports)) + OperandStrings(r.perf.operands) +
    LatencyStrings(r.perf.latencies) + VariantStrings(Entries(r.perf.variants)) + r.perf.macroFusibleWith +
    PairStrings(Entries(r.xmlAttrs))
  }

  function AllRecordStrings(rs: seq<InstructionRecord>): seq<Str> {
    if rs == [] then [] else AllRecordStrings(rs[..|rs| - 1]) + RecordStrings(rs[|rs| - 1])
  }

  function StringsOfPack(p: DataPack, arch: Str): seq<Str> {
    [p.schemaVersion, arch, Join(p.allPorts), Join(p.aluPorts)] + AllRecordStrings(p.instructions)
  }

  // The sections

  function EncodeRaws(t: Table, rs: seq<InstructionRecord>): (ws: Option<seq<Raw>>)
    ensures ws.Some? ==> |ws.value| == |rs|
  {
    if rs == [] then Some([])
    else
      var ws :- EncodeRaws(t, rs[..|rs| - 1]);
      var w :- EncodeRaw(t, rs[|rs| - 1]);
      Some(ws + [w])
  }

  lemma {:induction false} RawsEach(t: Table, rs: seq<InstructionRecord>, i: nat)
    requires EncodeRaws(t, rs).Some? && i < |rs|
    ensures EncodeRaw(t, rs[i]) == Some(EncodeRaws(t, rs).value[i])
  {
    hide EncodeRaw;
    if i < |rs| - 1 {
      RawsEach(t, rs[..|rs| - 1], i);
    }
  }

  function PortsOf(rs: seq<InstructionRecord>): seq<(Str, i32)> {
    if rs == [] then [] else PortsOf(rs[..|rs| - 1]) + Entries(rs[|rs| - 1].perf.ports)
  }

  function BlobsOf(ws: seq<Raw>): seq<byte> {
    if ws == [] then [] else BlobsOf(ws[..|ws| - 1]) + RawBytes(ws[|ws| - 1])
  }

  predicate EntriesFit(rs: seq<InstructionRecord>, ws: seq<Raw>, base: nat)
    requires |rs| == |ws|
  {
    forall i :: 0 <= i < |rs| ==> EntryFits(rs[i], ws[i], |PortsOf(rs[..i])|, base + |BlobsOf(ws[..i])|)
  }

  function EntryAt(t: Table, rs: seq<InstructionRecord>, ws: seq<Raw>, base: nat, i: nat): RecordEntry
    requires |rs| == |ws| && EntriesFit(rs, ws, base) && i < |rs|
  {
    EntryOf(t, rs[i], ws[i], |PortsOf(rs[..i])|, base + |BlobsOf(ws[..i])|)
  }

  function RecordSection(t: Table, rs: seq<InstructionRecord>, ws: seq<Raw>, base: nat, n: nat): (b: seq<byte>)
    requires |rs| == |ws| && EntriesFit(rs, ws, base) && n <= |rs|
    ensures |b| == RECORD_SIZE * n
  {
    if n == 0 then [] else RecordSection(t, rs, ws, base, n - 1) + PutRecord(EntryAt(t, rs, ws, base, n - 1))
  }

  function PortSection(t: Table, ps: seq<(Str, i32)>): (b: seq<byte>)
    ensures |b| == PORT_ENTRY_SIZE * |ps|
  {
    if ps == [] then [] else PortSection(t, ps[..|ps| - 1]) + PutPort(t, ps[|ps| - 1], [])
  }

  function Zeros(n: nat): (b: seq<byte>)
    ensures |b| == n
  {
    seq(n, _ => 0)
  }

  function AlignUp(value: nat): (r: nat)
    ensures value <= r < value + ALIGNMENT && r % ALIGNMENT == 0
  {
    if value % ALIGNMENT == 0 then value else value + (ALIGNMENT - value % ALIGNMENT)
  }

  /** Where the sections of a file begin. */
  datatype Layout = Layout(records: nat, ports: nat, blobs: nat)

  function LayoutOf(strings: nat, records: nat, ports: nat): Layout {
    var r := AlignUp(HEADER_SIZE + strings);
    var p := AlignUp(r + RECORD_SIZE * records);
    Layout(r, p, AlignUp(p + PORT_ENTRY_SIZE * ports))
  }

  function Body(strings: seq<byte>, records: seq<byte>, ports: seq<byte>, blobs: seq<byte>, l: Layout): seq<byte>
    requires HEADER_SIZE + |strings| <= l.records && l.records + |records| <= l.ports && l.ports + |ports| <= l.blobs
  {
    strings + Zeros(l.records - HEADER_SIZE - |strings|) +
    (records + Zeros(l.ports - l.records - |records|) + (ports + Zeros(l.blobs - l.ports - |ports|) + blobs))
  }

  /** Everything that the writer computes, if nothing is too large for the format. */
  datatype Plan = Plan(t: Table, ws: seq<Raw>, l: Layout)

  function PlanOf(p: DataPack, arch: Str): Option<Plan> {
    if exists r :: r in p.instructions && r.arch != arch then None
    else
      var t :- InternedAll(EMPTY, StringsOfPack(p, arch));
      var ws :- EncodeRaws(t, p.instructions);
      var l := LayoutOf(|t.bytes|, |ws|, |PortsOf(p.instructions)|);
      if l.records < LIMIT && l.ports < LIMIT && EntriesFit(p.instructions, ws, l.blobs) && |t.bytes| < LIMIT &&
         |ws| < LIMIT && |PortsOf(p.instructions)| < LIMIT && l.blobs + |BlobsOf(ws)| < Checksum.MODULUS
      then Some(Plan(t, ws, l))
      else None
  }

  function HeaderOf(p: DataPack, arch: Str, plan: Plan): Header
    requires PlanOf(p, arch) == Some(plan)
  {
    Header(VERSION, HEADER_SIZE, CHECKSUM_FNV1A64, plan.l.blobs + |BlobsOf(plan.ws)|, 0, OffsetOf(plan.t, arch),
           HEADER_SIZE, |plan.t.bytes|, plan.l.records, |plan.ws|, plan.l.ports, |PortsOf(p.instructions)|,
           OffsetOf(plan.t, p.schemaVersion), OffsetOf(plan.t, Join(p.allPorts)), OffsetOf(plan.t, Join(p.aluPorts)))
  }

  lemma PlanFits(p: DataPack, arch: Str, plan: Plan)
    requires PlanOf(p, arch) == Some(plan)
    ensures |plan.ws| == |p.instructions| && EntriesFit(p.instructions, plan.ws, plan.l.blobs)
    ensures HEADER_SIZE + |plan.t.bytes| <= plan.l.records
    ensures plan.l.records + RECORD_SIZE * |plan.ws| <= plan.l.ports
    ensures plan.l.ports + PORT_ENTRY_SIZE * |PortsOf(p.instructions)| <= plan.l.blobs
  {
    hide InternedAll, EntriesFit, PortsOf, StringsOfPack;
  }

  function BodyOf(p: DataPack, arch: Str, plan: Plan): seq<byte>
    requires PlanOf(p, arch) == Some(plan)
  {
    PlanFits(p, arch, plan);
    Body(plan.t.bytes, RecordSection(plan.t, p.instructions, plan.ws, plan.l.blobs, |plan.ws|),
         PortSection(plan.t, PortsOf(p.instructions)), BlobsOf(plan.ws), plan.l)
  }

  /** The file of a pack: header and body, and the checksum of them with the checksum left out. */
  function Encode(p: DataPack, arch: Str): Option<seq<byte>> {
    var plan :- PlanOf(p, arch);
    var h, body := HeaderOf(p, arch, plan), BodyOf(p, arch, plan);
    Some(PutHeader(h.(checksum := Checksum.Value(PutHeader(h, body))), body))
  }

  // Loading

  datatype View = View(bytes: seq<byte>, h: Header, strings: seq<byte>, arch: Str, schemaVersion: Str,
                       allPorts: seq<Str>, aluPorts: seq<Str>)

  function Slice(b: seq<byte>, from: nat, size: nat): seq<byte> {
    if from + size <= |b| then b[from..from + size] else []
  }

  function ViewOf(bytes: seq<byte>, verify: bool): Option<View> {
    var h :- ReadHeader(bytes, verify);
    var strings := Slice(bytes, h.stringsOffset, h.stringsSize);
    var arch :- ReadString(strings, h.archOffset);
    var schema :- ReadString(strings, h.schemaOffset);
    var allPorts :- ReadString(strings, h.allPortsOffset);
    var aluPorts :- ReadString(strings, h.aluPortsOffset);
    Some(View(bytes, h, strings, arch, schema, Split(allPorts), Split(aluPorts)))
  }

  /** The port entries from `start` on. */
  function ReadPorts(v: View, start: nat, count: nat): Option<seq<(Str, i32)>>
    decreases count
  {
    if count == 0 then Some([])
    else
      var e :- GetPort(v.strings, Slice(v.bytes, v.h.portsOffset + PORT_ENTRY_SIZE * start, PORT_ENTRY_SIZE));
      var others :- ReadPorts(v, start + 1, count - 1);
      Some([e.value] + others)
  }

  function RecordFrom(v: View, e: RecordEntry, iform: Str, str: Str, ports: map<Str, i32>, d: Decoded):
    InstructionRecord
  {
    InstructionRecord(v.arch, iform, str, v.allPorts, v.aluPorts, Bit(e.flags, 9), d.xmlAttrs, Bit(e.flags, 8),
      PerfRecord(e.uops, e.retireSlots, e.uopsMite, e.uopsMs, if Bit(e.flags, 0) then Some(e.tpBits) else None,
                 ports, d.variants, e.divCycles, Bit(e.flags, 1), Bit(e.flags, 2), e.nAvailableSimpleDecoders,
                 Bit(e.flags, 3), e.implicitRspChange, Bit(e.flags, 4), Bit(e.flags, 5), Bit(e.flags, 6),
                 Bit(e.flags, 7), d.macroFusibleWith, d.operands, d.latencies))
  }

  function EntryFrom(v: View, i: nat): Option<RecordEntry> {
    GetRecord(Slice(v.bytes, v.h.recordsOffset + RECORD_SIZE * i, RECORD_SIZE))
  }

  function ReadRecord(v: View, i: nat): Option<InstructionRecord> {
    var e :- EntryFrom(v, i);
    var iform :- ReadString(v.strings, e.iformOffset);
    var str :- ReadString(v.strings, e.stringOffset);
    if e.portsStart + e.portsCount > v.h.portsCount then None
    else
      var es :- ReadPorts(v, e.portsStart, e.portsCount);
      var ports :- InsertAll(map[], es);
      var d :- DecodeBlobs(v.strings, v.bytes, e);
      Some(RecordFrom(v, e, iform, str, ports, d))
  }

  function ReadRecords(v: View, n: nat): Option<seq<InstructionRecord>> {
    if n == 0 then Some([])
    else
      var rs :- ReadRecords(v, n - 1);
      var r :- ReadRecord(v, n - 1);
      Some(rs + [r])
  }

  function Load(bytes: seq<byte>, verify: bool): Option<DataPack> {
    var v :- ViewOf(bytes, verify);
    var rs :- ReadRecords(v, v.h.recordsCount);
    Some(DataPack(v.schemaVersion, v.allPorts, v.aluPorts, rs))
  }
}

/** What a written UIPack file has where: the bytes of every file, in terms of the data it was written from. */
module FileLayout {
  import opened Wrappers
  import opened Arithmetic
  import opened Bytes
  import opened PackData
  import opened StringTable
  import opened Fields
  import opened Blobs
  import opened PackRecords
  import opened PackHeader
  import opened PortLists
  import opened PackFile
  import opened PackRoundTrip
  import opened BlobLayout
  import opened PackLayout
  import Checksum

  // Strings

  /** The string lies at this offset of the string section: its length, and its bytes. */
  predicate StringIn(f: seq<byte>, offset: int, s: Str) {
    && 0 <= offset && 72 + offset + 4 + |s| <= |f|
    && U32At(f, 72 + offset) == |s| && f[72 + offset + 4..72 + offset + 4 + |s|] == s
  }

  lemma U32In(f: seq<byte>, b: seq<byte>, base: nat, at: nat)
    requires base + |b| <= |f| && f[base..base + |b|] == b && at + 4 <= |b|
    ensures U32At(f, base + at) == U32At(b, at)
  {
    var part := f[base..base + |b|];
    assert part[at] == f[base + at] && part[at + 1] == f[base + at + 1] && part[at + 2] == f[base + at + 2];
    assert part[at + 3] == f[base + at + 3];
  }

  lemma I32In(f: seq<byte>, b: seq<byte>, base: nat, at: nat)
    requires base + |b| <= |f| && f[base..base + |b|] == b && at + 4 <= |b|
    ensures I32At(f, base + at) == I32At(b, at)
  {
    U32In(f, b, base, at);
    hide U32At;
  }

  lemma StringLies(f: seq<byte>, t: Table, s: Str)
    requires Usable(t) && s in t.offsets && 72 + |t.bytes| <= |f| && f[72..72 + |t.bytes|] == t.bytes
    ensures StringIn(f, OffsetOf(t, s), s)
  {
    hide U32At, ReadString;
    StringReads(t, s);
    StringStored(t.bytes, t.offsets[s], s);
    var at := t.offsets[s];
    U32In(f, t.bytes, 72, at);
    PartOf(f, t.bytes, 72, at + 4, at + 4 + |s|, s);
  }

  // Records

  /** What a record says of its instruction. */
  predicate InstructionAt(f: seq<byte>, at: nat, r: InstructionRecord) {
    && at + 96 <= |f|
    && StringIn(f, U32At(f, at), r.iform) && StringIn(f, U32At(f, at + 4), r.str)
    && U32At(f, at + 12) == |r.perf.ports|
    && I32At(f, at + 16) == r.perf.uops && I32At(f, at + 20) == r.perf.retireSlots
    && I32At(f, at + 24) == r.perf.uopsMite && I32At(f, at + 28) == r.perf.uopsMs
    && U64At(f, at + 32) == OrZero(r.perf.tp)
    && U32At(f, at + 40) ==
       One(r.perf.tp.Some?) + 2 * One(r.perf.mayBeEliminated) + 4 * One(r.perf.complexDecoder) +
       8 * One(r.perf.lcpStall) + 16 * One(r.perf.canBeUsedByLsd) + 32 * One(r.perf.cannotBeInDsbDueToJccErratum) +
       64 * One(r.perf.noMicroFusion) + 128 * One(r.perf.noMacroFusion) + 256 * One(r.immZero) + 512 * One(r.locked)
    && U32At(f, at + 60) == r.perf.divCycles && U32At(f, at + 64) == r.perf.nAvailableSimpleDecoders
    && I32At(f, at + 68) == r.perf.implicitRspChange
  }

  lemma TenBits(bs: seq<bool>)
    requires |bs| == 10
    ensures Bits(bs) == One(bs[0]) + 2 * One(bs[1]) + 4 * One(bs[2]) + 8 * One(bs[3]) + 16 * One(bs[4]) +
                        32 * One(bs[5]) + 64 * One(bs[6]) + 128 * One(bs[7]) + 256 * One(bs[8]) + 512 * One(bs[9])
  {
    hide Bits, One;
    BitsOfNine(bs[1..]);
    BitsNext(bs, 0);
    WholeBits(bs);
  }

  lemma TenFlags(r: InstructionRecord)
    ensures FlagBits(r) ==
            One(r.perf.tp.Some?) + 2 * One(r.perf.mayBeEliminated) + 4 * One(r.perf.complexDecoder) +
            8 * One(r.perf.lcpStall) + 16 * One(r.perf.canBeUsedByLsd) +
            32 * One(r.perf.cannotBeInDsbDueToJccErratum) + 64 * One(r.perf.noMicroFusion) +
            128 * One(r.perf.noMacroFusion) + 256 * One(r.immZero) + 512 * One(r.locked)
  {
    TenBits(RecordFlags(r));
    hide Bits, One;
  }

  /** The fields of an entry that come from the instruction itself. */
  lemma EntryDescribes(t: Table, r: InstructionRecord, w: Raw, portsStart: nat, base: nat)
    requires EntryFits(r, w, portsStart, base)
    ensures var e := EntryOf(t, r, w, portsStart, base);
            && e.iformOffset == OffsetOf(t, r.iform) && e.stringOffset == OffsetOf(t, r.str)
            && e.portsCount == |r.perf.ports| && e.uops == r.perf.uops && e.retireSlots == r.perf.retireSlots
            && e.uopsMite == r.perf.uopsMite && e.uopsMs == r.perf.uopsMs && e.tpBits == OrZero(r.perf.tp)
            && e.flags == FlagBits(r) && e.divCycles == r.perf.divCycles
            && e.nAvailableSimpleDecoders == r.perf.nAvailableSimpleDecoders
            && e.implicitRspChange == r.perf.implicitRspChange
  {
    hide FlagBits, OffsetOf;
  }

  lemma RecordLies(f: seq<byte>, b: seq<byte>, at: nat, e: RecordEntry)
    requires at + |b| <= |f| && f[at..at + |b|] == b && EntryIn(b, 0, e)
    ensures EntryIn(f, at, e)
  {
    hide U32At, I32At, U64At, RefsAt;
    U32In(f, b, at, 0);
    U32In(f, b, at, 4);
    U32In(f, b, at, 8);
    U32In(f, b, at, 12);
    I32In(f, b, at, 16);
    I32In(f, b, at, 20);
    I32In(f, b, at, 24);
    I32In(f, b, at, 28);
    U64In(f, b, at, 32);
    U32In(f, b, at, 40);
    RefsLie(f, b, at, e);
  }

  lemma U64In(f: seq<byte>, b: seq<byte>, base: nat, at: nat)
    requires base + |b| <= |f| && f[base..base + |b|] == b && at + 8 <= |b|
    ensures U64At(f, base + at) == U64At(b, at)
  {
    hide U32At;
    U32In(f, b, base, at);
    U32In(f, b, base, at + 4);
  }

  lemma RefsLie(f: seq<byte>, b: seq<byte>, at: nat, e: RecordEntry)
    requires at + |b| <= |f| && f[at..at + |b|] == b && RefsAt(b, 44, e)
    ensures RefsAt(f, at + 44, e)
  {
    hide U32At, I32At;
    U32In(f, b, at, 44);
    U32In(f, b, at, 48);
    U32In(f, b, at, 52);
    U32In(f, b, at, 56);
    U32In(f, b, at, 60);
    U32In(f, b, at, 64);
    I32In(f, b, at, 68);
    U32In(f, b, at, 72);
    U32In(f, b, at, 76);
    U32In(f, b, at, 80);
    U32In(f, b, at, 84);
    U32In(f, b, at, 88);
    U32In(f, b, at, 92);
  }

  /** A blob of a record: its offset and size, and its bytes. */
  predicate BlobLies(f: seq<byte>, offset: int, size: int, blob: Option<seq<byte>>) {
    blob.Some? && 0 <= offset && size == |blob.value| && offset + size <= |f| && f[offset..offset + size] == blob.value
  }

  /** The blobs of a record, by the offsets and sizes in it. */
  predicate BlobsLie(f: seq<byte>, at: nat, t: Table, r: InstructionRecord) {
    && at + 96 <= |f|
    && BlobLies(f, U32At(f, at + 44), U32At(f, at + 48), EncodeOperands(t, r.perf.operands))
    && BlobLies(f, U32At(f, at + 52), U32At(f, at + 56), EncodeLatencies(t, r.perf.latencies))
    && BlobLies(f, U32At(f, at + 72), U32At(f, at + 76), EncodeVariants(t, r.perf.variants))
    && BlobLies(f, U32At(f, at + 80), U32At(f, at + 84), EncodeStringList(t, r.perf.macroFusibleWith))
    && BlobLies(f, U32At(f, at + 88), U32At(f, at + 92), EncodeStringMap(t, r.xmlAttrs))
  }

  /** The blobs one by one. */
  predicate EachEncodes(t: Table, r: InstructionRecord, w: Raw) {
    && EncodeOperands(t, r.perf.operands) == Some(w.operands)
    && EncodeLatencies(t, r.perf.latencies) == Some(w.latencies)
    && EncodeVariants(t, r.perf.variants) == Some(w.variants)
    && EncodeStringList(t, r.perf.macroFusibleWith) == Some(w.macroFusibleWith)
    && EncodeStringMap(t, r.xmlAttrs) == Some(w.xmlAttrs)
  }

  lemma BlobsFrom(f: seq<byte>, t: Table, r: InstructionRecord, w: Raw, e: RecordEntry, base: nat, at: nat)
    requires at + 96 <= |f| && RefsAt(f, at + 44, e) && RefersTo(e, w, base) && HasPieces(f, w, base)
    requires EachEncodes(t, r, w)
    ensures BlobsLie(f, at, t, r)
  {
    hide EncodeOperands, EncodeLatencies, EncodeVariants, EncodeStringList, EncodeStringMap, U32At, I32At;
  }

  lemma EntryBlobs(f: seq<byte>, t: Table, r: InstructionRecord, w: Raw, portsStart: nat, base: nat, at: nat)
    requires EntryFits(r, w, portsStart, base) && EncodeRaw(t, r) == Some(w) && HasPieces(f, w, base)
    requires EntryIn(f, at, EntryOf(t, r, w, portsStart, base))
    ensures BlobsLie(f, at, t, r)
  {
    var e := EntryOf(t, r, w, portsStart, base);
    hide EncodeRaw, EncodeOperands, EncodeLatencies, EncodeVariants, EncodeStringList, EncodeStringMap, EntryOf;
    hide U32At, I32At, U64At, RefsAt, HasPieces, RefersTo, BlobsLie, EntryFits;
    EntryRefers(t, r, w, portsStart, base);
    RawParts(t, r);
    BlobsFrom(f, t, r, w, e, base, at);
  }

  // Ports

  /** The ports of a record in the section of all ports, in the order of their names. */
  predicate PortsLie(f: seq<byte>, at: nat, r: InstructionRecord) {
    && at + 96 <= |f| && 72 <= |f|
    && forall k :: 0 <= k < |r.perf.ports| ==>
         PortLies(f, U32At(f, 52) + 8 * (U32At(f, at + 8) + k), Entries(r.perf.ports)[k])
  }

  predicate PortLies(f: seq<byte>, at: int, e: (Str, i32)) {
    0 <= at && at + 8 <= |f| && StringIn(f, U32At(f, at), e.0) && I32At(f, at + 4) == e.1
  }

  lemma PortWritten(f: seq<byte>, at: nat, t: Table, e: (Str, i32))
    requires Usable(t) && e.0 in t.offsets && 72 + |t.bytes| <= |f| && f[72..72 + |t.bytes|] == t.bytes
    requires at + 8 <= |f| && f[at..at + 8] == PutPort(t, e, [])
    ensures PortLies(f, at, e)
  {
    hide U32At, I32At, PutPort, StringIn, Usable;
    var b := f[at..at + 8];
    WholeFrom(b);
    PortFirst(b, 0, t, e, []);
    U32In(f, b, at, 0);
    I32In(f, b, at, 4);
    StringLies(f, t, e.0);
  }

  lemma PortPlaced(file: seq<byte>, p: DataPack, plan: Plan, j: nat)
    requires |plan.ws| == |p.instructions| && EntriesFit(p.instructions, plan.ws, plan.l.blobs)
    requires Holds(file, p, plan) && j < |PortsOf(p.instructions)|
    ensures plan.l.ports + 8 * j + 8 <= |file|
    ensures file[plan.l.ports + 8 * j..plan.l.ports + 8 * j + 8] == PutPort(plan.t, PortsOf(p.instructions)[j], [])
  {
    hide EntriesFit, RecordSection, PutPort, BlobsOf, PortsOf;
    var ps := PortsOf(p.instructions);
    var section := PortSection(plan.t, ps);
    hide PortSection;
    PortAt(plan.t, ps, j);
    ProductMonotone(j + 1, |ps|, 8);
    PartOf(file, section, plan.l.ports, 8 * j, 8 * j + 8, PutPort(plan.t, ps[j], []));
  }

  lemma RecordPlaced(file: seq<byte>, p: DataPack, plan: Plan, i: nat)
    requires |plan.ws| == |p.instructions| && EntriesFit(p.instructions, plan.ws, plan.l.blobs)
    requires Holds(file, p, plan) && i < |plan.ws|
    ensures EntryIn(file, plan.l.records + 96 * i, EntryAt(plan.t, p.instructions, plan.ws, plan.l.blobs, i))
  {
    hide EntriesFit, EntryAt, PutRecord, PortsOf, BlobsOf, PortSection;
    var e := EntryAt(plan.t, p.instructions, plan.ws, plan.l.blobs, i);
    var section := RecordSection(plan.t, p.instructions, plan.ws, plan.l.blobs, |plan.ws|);
    RecordAt(plan.t, p.instructions, plan.ws, plan.l.blobs, |plan.ws|, i);
    hide RecordSection;
    ProductMonotone(i + 1, |plan.ws|, 96);
    PartOf(file, section, plan.l.records, 96 * i, 96 * i + 96, PutRecord(e));
    RecordWrittenAt(e);
    hide EntryIn;
    RecordLies(file, PutRecord(e), plan.l.records + 96 * i, e);
  }

  // Whole files

  /** The first multiple of eight that is not smaller. */
  predicate NextMultiple(n: int, at: int) {
    n <= at < n + 8 && at % 8 == 0
  }

  function PortCount(rs: seq<InstructionRecord>): nat {
    if rs == [] then 0 else PortCount(rs[..|rs| - 1]) + |rs[|rs| - 1].perf.ports|
  }

  lemma {:induction false} PortsCounted(rs: seq<InstructionRecord>)
    ensures |PortsOf(rs)| == PortCount(rs)
  {
    hide Entries;
    if rs != [] {
      PortsCounted(rs[..|rs| - 1]);
    }
  }

  /** The header of a file: version 9, 72 bytes, the checksum, and where strings, records and ports lie. */
  predicate HeadOf(f: seq<byte>, p: DataPack, arch: Str) {
    && |f| >= 72 && HasMagic(f) && U16At(f, 8) == 9 && U16At(f, 10) == 72 && U16At(f, 12) == 1
    && U64At(f, 16) == |f| && U64At(f, 24) == Checksum.Value(f)
    && U32At(f, 36) == 72
    && NextMultiple(72 + U32At(f, 40), U32At(f, 44)) && U32At(f, 48) == |p.instructions|
    && NextMultiple(U32At(f, 44) + 96 * |p.instructions|, U32At(f, 52)) && U32At(f, 56) == PortCount(p.instructions)
    && StringIn(f, U32At(f, 32), arch) && StringIn(f, U32At(f, 60), p.schemaVersion)
    && StringIn(f, U32At(f, 64), Join(p.allPorts)) && StringIn(f, U32At(f, 68), Join(p.aluPorts))
  }

  lemma LayoutPlaces(strings: nat, records: nat, ports: nat)
    ensures var l := LayoutOf(strings, records, ports);
            NextMultiple(72 + strings, l.records) && NextMultiple(l.records + 96 * records, l.ports)
  {
    hide AlignUp;
  }

  lemma PlanPlaces(p: DataPack, arch: Str, plan: Plan)
    requires PlanOf(p, arch) == Some(plan)
    ensures NextMultiple(72 + |plan.t.bytes|, plan.l.records)
    ensures NextMultiple(plan.l.records + 96 * |plan.ws|, plan.l.ports)
  {
    hide StringsOfPack, EncodeRaws, EntriesFit, PortsOf, BlobsOf, InternedAll, LayoutOf, NextMultiple;
    LayoutPlaces(|plan.t.bytes|, |plan.ws|, |PortsOf(p.instructions)|);
  }

  /** The file of a pack. */
  function FileOf(p: DataPack, arch: Str, plan: Plan): seq<byte>
    requires PlanOf(p, arch) == Some(plan)
  {
    var h := HeaderOf(p, arch, plan);
    PutHeader(h.(checksum := Checksum.Value(PutHeader(h, BodyOf(p, arch, plan)))), BodyOf(p, arch, plan))
  }

  lemma FileIs(p: DataPack, arch: Str, plan: Plan)
    requires PlanOf(p, arch) == Some(plan)
    ensures Encode(p, arch) == Some(FileOf(p, arch, plan))
    ensures |plan.ws| == |p.instructions| && EntriesFit(p.instructions, plan.ws, plan.l.blobs)
    ensures Holds(FileOf(p, arch, plan), p, plan)
    ensures HeaderAt(FileOf(p, arch, plan),
                     HeaderOf(p, arch, plan).(checksum := Checksum.Value(FileOf(p, arch, plan))))
  {
    hide PlanOf, HeaderOf, BodyOf, PutHeader, HeaderAt, EntriesFit, Holds, Checksum.Value;
    var h, body := HeaderOf(p, arch, plan), BodyOf(p, arch, plan);
    var sum := Checksum.Value(PutHeader(h, body));
    FileHolds(p, arch, plan, sum);
    HeaderWrittenAt(h.(checksum := sum), body);
    ChecksumIgnoresItself(h, sum, body);
  }

  lemma HeadNumbers(p: DataPack, arch: Str, plan: Plan)
    requires PlanOf(p, arch) == Some(plan)
    ensures var f, h := FileOf(p, arch, plan), HeaderOf(p, arch, plan);
            && HeaderAt(f, h.(checksum := Checksum.Value(f)))
            && h.version == 9 && h.headerSize == 72 && h.checksumKind == 1 && h.fileLen == |f| && h.stringsOffset == 72
            && NextMultiple(72 + h.stringsSize, h.recordsOffset) && h.recordsCount == |p.instructions|
            && NextMultiple(h.recordsOffset + 96 * |p.instructions|, h.portsOffset)
            && h.portsCount == PortCount(p.instructions)
  {
    hide PlanOf, FileOf, HeaderOf, PortsOf, BlobsOf, HeaderAt, Checksum.Value, PortCount, OffsetOf, NextMultiple;
    FileIsHeaded(p, arch, plan);
    PlanPlaces(p, arch, plan);
    HeaderFields(p, arch, plan);
    PortsCounted(p.instructions);
  }

  lemma FileIsHeaded(p: DataPack, arch: Str, plan: Plan)
    requires PlanOf(p, arch) == Some(plan)
    ensures var f := FileOf(p, arch, plan);
            && |f| == plan.l.blobs + |BlobsOf(plan.ws)| && |plan.ws| == |p.instructions|
            && HeaderAt(f, HeaderOf(p, arch, plan).(checksum := Checksum.Value(f)))
  {
    hide PlanOf, FileOf, HeaderOf, EntriesFit, Holds, HeaderAt, Checksum.Value;
    FileIs(p, arch, plan);
    FileSize(FileOf(p, arch, plan), p, plan);
  }

  predicate TextsOf(f: seq<byte>, h: Header, p: DataPack, arch: Str) {
    && StringIn(f, h.archOffset, arch) && StringIn(f, h.schemaOffset, p.schemaVersion)
    && StringIn(f, h.allPortsOffset, Join(p.allPorts)) && StringIn(f, h.aluPortsOffset, Join(p.aluPorts))
  }

  lemma SectionLies(file: seq<byte>, p: DataPack, plan: Plan)
    requires |plan.ws| == |p.instructions| && EntriesFit(p.instructions, plan.ws, plan.l.blobs)
    requires Holds(file, p, plan)
    ensures 72 + |plan.t.bytes| <= |file| && file[72..72 + |plan.t.bytes|] == plan.t.bytes
  {
    hide EntriesFit, RecordSection, PortSection, PortsOf, BlobsOf;
  }

  lemma PlanUsable(p: DataPack, arch: Str, plan: Plan)
    requires PlanOf(p, arch) == Some(plan)
    ensures Usable(plan.t) && forall s :: s in StringsOfPack(p, arch) ==> s in plan.t.offsets
  {
    PlanStrings(p, arch, plan);
    hide PlanOf, StringsOfPack, EncodeRaws, EntriesFit, Usable;
  }

  lemma StringsLie(p: DataPack, arch: Str, plan: Plan, s: Str)
    requires PlanOf(p, arch) == Some(plan) && s in StringsOfPack(p, arch)
    ensures StringIn(FileOf(p, arch, plan), OffsetOf(plan.t, s), s)
  {
    hide PlanOf, FileOf, HeaderOf, StringsOfPack, EntriesFit, Holds, HeaderAt, StringIn, Usable, Checksum.Value, OffsetOf;
    FileIs(p, arch, plan);
    PlanUsable(p, arch, plan);
    SectionLies(FileOf(p, arch, plan), p, plan);
    StringLies(FileOf(p, arch, plan), plan.t, s);
  }

  lemma HeadTexts(p: DataPack, arch: Str, plan: Plan)
    requires PlanOf(p, arch) == Some(plan)
    ensures TextsOf(FileOf(p, arch, plan), HeaderOf(p, arch, plan), p, arch)
  {
    HeadStrings(p, arch);
    HeaderFields(p, arch, plan);
    hide PlanOf, FileOf, HeaderOf, StringsOfPack, StringIn, Join, OffsetOf;
    StringsLie(p, arch, plan, arch);
    StringsLie(p, arch, plan, p.schemaVersion);
    StringsLie(p, arch, plan, Join(p.allPorts));
    StringsLie(p, arch, plan, Join(p.aluPorts));
  }

  lemma HeadLies(p: DataPack, arch: Str, plan: Plan)
    requires PlanOf(p, arch) == Some(plan)
    ensures HeadOf(FileOf(p, arch, plan), p, arch)
  {
    hide PlanOf, FileOf, HeaderOf, StringIn, Join, HasMagic, U16At, U32At, U64At, Checksum.Value, PortCount;
    HeadNumbers(p, arch, plan);
    HeadTexts(p, arch, plan);
  }

  /** Every instruction has its record: the fields of the record, its ports and its blobs. */
  predicate RecordsOf(f: seq<byte>, p: DataPack, t: Table) {
    && |f| >= 72
    && forall i :: 0 <= i < |p.instructions| ==> RecordOf(f, U32At(f, 44) + 96 * i, p.instructions[i], t)
  }

  predicate RecordOf(f: seq<byte>, at: int, r: InstructionRecord, t: Table) {
    0 <= at && InstructionAt(f, at, r) && PortsLie(f, at, r) && BlobsLie(f, at, t, r)
  }

  /** What is known of a file and its plan. */
  ghost predicate Made(f: seq<byte>, p: DataPack, arch: Str, plan: Plan) {
    && |plan.ws| == |p.instructions| && EntriesFit(p.instructions, plan.ws, plan.l.blobs) && Holds(f, p, plan)
    && Usable(plan.t) && (forall s :: s in StringsOfPack(p, arch) ==> s in plan.t.offsets)
    && EncodeRaws(plan.t, p.instructions) == Some(plan.ws)
    && |f| >= 72 && U32At(f, 44) == plan.l.records && U32At(f, 52) == plan.l.ports
  }

  lemma FileMade(p: DataPack, arch: Str, plan: Plan)
    requires PlanOf(p, arch) == Some(plan)
    ensures Made(FileOf(p, arch, plan), p, arch, plan)
  {
    FileIs(p, arch, plan);
    PlanUsable(p, arch, plan);
    PlanStrings(p, arch, plan);
    HeaderFields(p, arch, plan);
    hide PlanOf, FileOf, HeaderOf, StringsOfPack, EncodeRaws, EntriesFit, PortsOf, BlobsOf, Usable, Holds, OffsetOf;
    hide U16At, U32At, U64At, HasMagic, Checksum.Value;
  }

  lemma MadeHolds(f: seq<byte>, p: DataPack, arch: Str, plan: Plan)
    requires Made(f, p, arch, plan)
    ensures |plan.ws| == |p.instructions| && EntriesFit(p.instructions, plan.ws, plan.l.blobs) && Holds(f, p, plan)
    ensures EncodeRaws(plan.t, p.instructions) == Some(plan.ws)
    ensures |f| >= 72 && U32At(f, 44) == plan.l.records && U32At(f, 52) == plan.l.ports
  {
    hide EntriesFit, Holds, Usable, StringsOfPack, EncodeRaws, U32At;
  }

  lemma MadeStrings(f: seq<byte>, p: DataPack, arch: Str, plan: Plan)
    requires Made(f, p, arch, plan)
    ensures Usable(plan.t) && forall s :: s in StringsOfPack(p, arch) ==> s in plan.t.offsets
    ensures 72 + |plan.t.bytes| <= |f| && f[72..72 + |plan.t.bytes|] == plan.t.bytes
  {
    hide EntriesFit, Holds, Usable, StringsOfPack, EncodeRaws, U32At;
    SectionLies(f, p, plan);
  }

  lemma EntryPlaced(f: seq<byte>, p: DataPack, arch: Str, plan: Plan, i: nat)
    requires Made(f, p, arch, plan) && i < |p.instructions|
    ensures |plan.ws| == |p.instructions|
    ensures var rs := p.instructions;
            var start, base := |PortsOf(rs[..i])|, plan.l.blobs + |BlobsOf(plan.ws[..i])|;
            && EntryFits(rs[i], plan.ws[i], start, base)
            && EntryIn(f, plan.l.records + 96 * i, EntryOf(plan.t, rs[i], plan.ws[i], start, base))
  {
    hide Made, EntriesFit, PortsOf, BlobsOf, Holds, EntryOf, EntryIn, EntryFits, EncodeRaws, U32At;
    MadeHolds(f, p, arch, plan);
    RecordPlaced(f, p, plan, i);
    FitsAt(p.instructions, plan.ws, plan.l.blobs, i);
  }

  lemma InstructionFrom(f: seq<byte>, at: nat, t: Table, r: InstructionRecord, w: Raw, start: nat, base: nat)
    requires EntryFits(r, w, start, base) && EntryIn(f, at, EntryOf(t, r, w, start, base))
    requires StringIn(f, OffsetOf(t, r.iform), r.iform) && StringIn(f, OffsetOf(t, r.str), r.str)
    ensures InstructionAt(f, at, r)
  {
    hide EntryOf, EntryFits, OffsetOf, FlagBits, StringIn, U32At, I32At, U64At, One, OrZero;
    EntryDescribes(t, r, w, start, base);
    TenFlags(r);
    assert RefsAt(f, at + 44, EntryOf(t, r, w, start, base));
    RefsDescribe(f, at, t, r, w, start, base);
    hide RefsAt;
  }

  lemma RefsDescribe(f: seq<byte>, at: nat, t: Table, r: InstructionRecord, w: Raw, start: nat, base: nat)
    requires EntryFits(r, w, start, base) && RefsAt(f, at + 44, EntryOf(t, r, w, start, base))
    ensures U32At(f, at + 60) == r.perf.divCycles && U32At(f, at + 64) == r.perf.nAvailableSimpleDecoders
    ensures I32At(f, at + 68) == r.perf.implicitRspChange
  {
    hide EntryOf, EntryFits, U32At, I32At;
    EntryDescribes(t, r, w, start, base);
  }

  lemma RecordKeys(p: DataPack, arch: Str, i: nat)
    requires i < |p.instructions|
    ensures p.instructions[i].iform in StringsOfPack(p, arch) && p.instructions[i].str in StringsOfPack(p, arch)
  {
    HeadKeys(p.instructions, i);
    hide AllRecordStrings, Join;
  }

  lemma InstructionLies(f: seq<byte>, p: DataPack, arch: Str, plan: Plan, i: nat)
    requires Made(f, p, arch, plan) && i < |p.instructions|
    ensures InstructionAt(f, plan.l.records + 96 * i, p.instructions[i])
  {
    hide Made, PortsOf, BlobsOf, EntryOf, EntryIn, EntryFits, StringsOfPack, StringIn, OffsetOf, InstructionAt, Usable;
    var rs := p.instructions;
    EntryPlaced(f, p, arch, plan, i);
    RecordKeys(p, arch, i);
    MadeStrings(f, p, arch, plan);
    StringLies(f, plan.t, rs[i].iform);
    StringLies(f, plan.t, rs[i].str);
    InstructionFrom(f, plan.l.records + 96 * i, plan.t, rs[i], plan.ws[i], |PortsOf(rs[..i])|,
                    plan.l.blobs + |BlobsOf(plan.ws[..i])|);
  }

  lemma FitsAt(rs: seq<InstructionRecord>, ws: seq<Raw>, base: nat, i: nat)
    requires |rs| == |ws| && EntriesFit(rs, ws, base) && i < |rs|
    ensures EntryFits(rs[i], ws[i], |PortsOf(rs[..i])|, base + |BlobsOf(ws[..i])|)
  {
    hide EntryFits, PortsOf, BlobsOf;
  }

  lemma BlobsOfInstruction(f: seq<byte>, p: DataPack, arch: Str, plan: Plan, i: nat)
    requires Made(f, p, arch, plan) && i < |p.instructions|
    ensures |plan.ws| == |p.instructions|
    ensures EncodeRaw(plan.t, p.instructions[i]) == Some(plan.ws[i])
    ensures HasPieces(f, plan.ws[i], plan.l.blobs + |BlobsOf(plan.ws[..i])|)
  {
    hide Made, EntriesFit, BlobsOf, Holds, HasPieces, RawBytes, EncodeRaw, EncodeRaws, U32At;
    MadeHolds(f, p, arch, plan);
    RawsEach(plan.t, p.instructions, i);
    BlobSlice(f, p, plan, i);
    PiecesOfRaw(f, plan.ws[i], plan.l.blobs + |BlobsOf(plan.ws[..i])|);
  }

  lemma BlobsLieAt(f: seq<byte>, p: DataPack, arch: Str, plan: Plan, i: nat)
    requires Made(f, p, arch, plan) && i < |p.instructions|
    ensures BlobsLie(f, plan.l.records + 96 * i, plan.t, p.instructions[i])
  {
    hide Made, PortsOf, BlobsOf, EntryOf, EntryIn, EntryFits, BlobsLie, HasPieces, EncodeRaw;
    EntryPlaced(f, p, arch, plan, i);
    BlobsOfInstruction(f, p, arch, plan, i);
    EntryBlobs(f, plan.t, p.instructions[i], plan.ws[i], |PortsOf(p.instructions[..i])|,
               plan.l.blobs + |BlobsOf(plan.ws[..i])|, plan.l.records + 96 * i);
  }

  lemma OnePortLies(f: seq<byte>, p: DataPack, arch: Str, plan: Plan, j: nat)
    requires Made(f, p, arch, plan) && j < |PortsOf(p.instructions)|
    ensures PortLies(f, plan.l.ports + 8 * j, PortsOf(p.instructions)[j])
  {
    hide Made, EntriesFit, PortsOf, BlobsOf, Holds, StringsOfPack, Usable, PortLies, PutPort, EncodeRaws, U32At;
    MadeHolds(f, p, arch, plan);
    MadeStrings(f, p, arch, plan);
    PortPlaced(f, p, plan, j);
    KeyInPack(p, arch, PortsOf(p.instructions)[j]);
    PortWritten(f, plan.l.ports + 8 * j, plan.t, PortsOf(p.instructions)[j]);
  }

  lemma KeyInPack(p: DataPack, arch: Str, e: (Str, i32))
    requires e in PortsOf(p.instructions)
    ensures e.0 in StringsOfPack(p, arch)
  {
    hide AllRecordStrings, Join, PortsOf;
    PortKeys(p.instructions, e);
  }

  lemma PortsOfInstruction(f: seq<byte>, p: DataPack, arch: Str, plan: Plan, i: nat)
    requires Made(f, p, arch, plan) && i < |p.instructions|
    ensures PortsLie(f, plan.l.records + 96 * i, p.instructions[i])
  {
    hide Made, PortsOf, U32At, PortLies, Entries;
    PortsStart(f, p, arch, plan, i);
    var rs := p.instructions;
    var start, es := |PortsOf(rs[..i])|, Entries(rs[i].perf.ports);
    PortsAt(rs, i);
    forall k | 0 <= k < |es|
      ensures PortLies(f, plan.l.ports + 8 * (start + k), es[k])
    {
      OnePortLies(f, p, arch, plan, start + k);
      assert PortsOf(rs)[start..start + |es|][k] == es[k];
    }
  }

  lemma PortsStart(f: seq<byte>, p: DataPack, arch: Str, plan: Plan, i: nat)
    requires Made(f, p, arch, plan) && i < |p.instructions|
    ensures var at := plan.l.records + 96 * i;
            at + 96 <= |f| && |f| >= 72 && U32At(f, 52) == plan.l.ports && U32At(f, 44) == plan.l.records &&
            U32At(f, at + 8) == |PortsOf(p.instructions[..i])|
  {
    hide Made, PortsOf, BlobsOf, EntryFits, OffsetOf, FlagBits, U32At, I32At, U64At, RefsAt, EntriesFit, Holds, EncodeRaws;
    EntryPlaced(f, p, arch, plan, i);
    MadeHolds(f, p, arch, plan);
  }

  lemma RecordLiesAt(f: seq<byte>, p: DataPack, arch: Str, plan: Plan, i: nat)
    requires Made(f, p, arch, plan) && i < |p.instructions|
    ensures |f| >= 72 && RecordOf(f, U32At(f, 44) + 96 * i, p.instructions[i], plan.t)
  {
    hide Made, U32At, InstructionAt, PortsLie, BlobsLie, PortsOf;
    PortsStart(f, p, arch, plan, i);
    InstructionLies(f, p, arch, plan, i);
    PortsOfInstruction(f, p, arch, plan, i);
    BlobsLieAt(f, p, arch, plan, i);
  }

  /** The file of every pack has the header that belongs to it, and a record for every instruction, with its strings, its
      ports and its blobs. */
  lemma WrittenFile(p: DataPack, arch: Str, f: seq<byte>)
    requires Encode(p, arch) == Some(f)
    ensures HeadOf(f, p, arch)
    ensures InternedAll(EMPTY, StringsOfPack(p, arch)).Some?
    ensures RecordsOf(f, p, InternedAll(EMPTY, StringsOfPack(p, arch)).value)
  {
    hide PlanOf, FileOf, Encode, HeadOf, InternedAll, StringsOfPack, Made, U32At, RecordOf;
    var plan := HasPlan(p, arch);
    EncodedIs(p, arch, plan);
    HeadLies(p, arch, plan);
    PlanTable(p, arch, plan);
    FileMade(p, arch, plan);
    HeadLong(f, p, arch);
    forall i | 0 <= i < |p.instructions|
      ensures RecordOf(f, U32At(f, 44) + 96 * i, p.instructions[i], plan.t)
    {
      RecordLiesAt(f, p, arch, plan, i);
    }
  }

  lemma EncodedIs(p: DataPack, arch: Str, plan: Plan)
    requires PlanOf(p, arch) == Some(plan)
    ensures Encode(p, arch) == Some(FileOf(p, arch, plan))
  {
    hide PlanOf, FileOf, Encode, EntriesFit, Holds, HeaderAt, HeaderOf;
    FileIs(p, arch, plan);
  }

  lemma HeadLong(f: seq<byte>, p: DataPack, arch: Str)
    requires HeadOf(f, p, arch)
    ensures |f| >= 72
  {}

  lemma PlanTable(p: DataPack, arch: Str, plan: Plan)
    requires PlanOf(p, arch) == Some(plan)
    ensures InternedAll(EMPTY, StringsOfPack(p, arch)) == Some(plan.t)
  {
    hide InternedAll, StringsOfPack, EncodeRaws, LayoutOf, EntriesFit, PortsOf, BlobsOf;
  }
}

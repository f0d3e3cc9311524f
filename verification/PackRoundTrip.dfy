/** Loading the file of a pack gives the data pack back. */
module PackRoundTrip {
  import opened Wrappers
  import opened Arithmetic
  import opened Bytes
  import opened PackData
  import opened StringTable
  import opened Fields
  import opened Blobs
  import opened PackRecords
  import opened PackHeader
  import opened PortLists
  import opened PackFile
  import Checksum

  // The sections of a file

  lemma BodySize(strings: seq<byte>, records: seq<byte>, ports: seq<byte>, blobs: seq<byte>, l: Layout)
    requires HEADER_SIZE + |strings| <= l.records && l.records + |records| <= l.ports && l.ports + |ports| <= l.blobs
    ensures |Body(strings, records, ports, blobs, l)| == l.blobs - HEADER_SIZE + |blobs|
  {}

  lemma Sections(file: seq<byte>, strings: seq<byte>, records: seq<byte>, ports: seq<byte>, blobs: seq<byte>, l: Layout)
    requires HEADER_SIZE + |strings| <= l.records && l.records + |records| <= l.ports && l.ports + |ports| <= l.blobs
    requires |file| >= HEADER_SIZE && file[HEADER_SIZE..] == Body(strings, records, ports, blobs, l)
    ensures |file| == l.blobs + |blobs|
    ensures file[HEADER_SIZE..HEADER_SIZE + |strings|] == strings
    ensures file[l.records..l.records + |records|] == records
    ensures file[l.ports..l.ports + |ports|] == ports
    ensures file[l.blobs..] == blobs
  {
    hide Zeros;
    BodySize(strings, records, ports, blobs, l);
    var z1 := Zeros(l.records - HEADER_SIZE - |strings|);
    var z2 := Zeros(l.ports - l.records - |records|);
    var z3 := Zeros(l.blobs - l.ports - |ports|);
    var tail2 := ports + z3 + blobs;
    var tail1 := records + z2 + tail2;
    Cut(file, HEADER_SIZE, strings, z1, tail1);
    assert l.records == HEADER_SIZE + |strings| + |z1|;
    Cut(file, l.records, records, z2, tail2);
    assert l.ports == l.records + |records| + |z2|;
    Cut(file, l.ports, ports, z3, blobs);
  }

  lemma Cut(file: seq<byte>, from: nat, a: seq<byte>, z: seq<byte>, rest: seq<byte>)
    requires from <= |file| && file[from..] == a + z + rest
    ensures file[from..from + |a|] == a && file[from + |a| + |z|..] == rest
  {
    var all := a + z + rest;
    assert all[..|a|] == a && all[|a| + |z|..] == rest;
    assert file[from..][..|a|] == file[from..from + |a|];
    assert file[from..][|a| + |z|..] == file[from + |a| + |z|..];
  }

  lemma InFront(front: seq<byte>, last: seq<byte>, from: nat, size: nat)
    requires from + size <= |front|
    ensures (front + last)[from..from + size] == front[from..from + size]
  {}

  lemma AtEnd(front: seq<byte>, last: seq<byte>)
    ensures (front + last)[|front|..|front| + |last|] == last
  {}

  lemma {:induction false} RecordAt(t: Table, rs: seq<InstructionRecord>, ws: seq<Raw>, base: nat, n: nat, i: nat)
    requires |rs| == |ws| && EntriesFit(rs, ws, base) && i < n <= |rs|
    ensures RecordSection(t, rs, ws, base, n)[RECORD_SIZE * i..RECORD_SIZE * i + RECORD_SIZE] ==
            PutRecord(EntryAt(t, rs, ws, base, i))
  {
    hide EntriesFit, EntryAt, PutRecord;
    var front := RecordSection(t, rs, ws, base, n - 1);
    if i < n - 1 {
      RecordAt(t, rs, ws, base, n - 1, i);
      InFront(front, PutRecord(EntryAt(t, rs, ws, base, n - 1)), RECORD_SIZE * i, RECORD_SIZE);
    } else {
      AtEnd(front, PutRecord(EntryAt(t, rs, ws, base, n - 1)));
    }
  }

  lemma {:induction false} PortAt(t: Table, ps: seq<(Str, i32)>, j: nat)
    requires j < |ps|
    ensures PortSection(t, ps)[PORT_ENTRY_SIZE * j..PORT_ENTRY_SIZE * j + PORT_ENTRY_SIZE] == PutPort(t, ps[j], [])
  {
    hide PutPort;
    var front, last := PortSection(t, ps[..|ps| - 1]), PutPort(t, ps[|ps| - 1], []);
    if j < |ps| - 1 {
      PortAt(t, ps[..|ps| - 1], j);
      InFront(front, last, PORT_ENTRY_SIZE * j, PORT_ENTRY_SIZE);
    } else {
      AtEnd(front, last);
    }
  }

  lemma {:induction false} BlobsAt(ws: seq<Raw>, i: nat)
    requires i < |ws|
    ensures |BlobsOf(ws[..i])| + |RawBytes(ws[i])| <= |BlobsOf(ws)|
    ensures BlobsOf(ws)[|BlobsOf(ws[..i])|..|BlobsOf(ws[..i])| + |RawBytes(ws[i])|] == RawBytes(ws[i])
  {
    hide RawBytes;
    var front := ws[..|ws| - 1];
    if i < |ws| - 1 {
      BlobsAt(front, i);
      assert front[..i] == ws[..i];
    }
  }

  lemma {:induction false} PortsAt(rs: seq<InstructionRecord>, i: nat)
    requires i < |rs|
    ensures var start, es := |PortsOf(rs[..i])|, Entries(rs[i].perf.ports);
            start + |es| <= |PortsOf(rs)| && PortsOf(rs)[start..start + |es|] == es
  {
    hide Entries;
    var front := rs[..|rs| - 1];
    if i < |rs| - 1 {
      PortsAt(front, i);
      assert front[..i] == rs[..i];
    }
  }

  // The plan of a file

  /** All strings of the data pack are interned, in a section that is usable. */
  lemma PlanStrings(p: DataPack, arch: Str, plan: Plan)
    requires PlanOf(p, arch) == Some(plan)
    ensures Usable(plan.t) && forall s :: s in StringsOfPack(p, arch) ==> s in plan.t.offsets
    ensures EncodeRaws(plan.t, p.instructions) == Some(plan.ws) && |plan.ws| == |p.instructions|
    ensures EntriesFit(p.instructions, plan.ws, plan.l.blobs)
    ensures forall r :: r in p.instructions ==> r.arch == arch
  {
    hide Valid, StringsOfPack, EncodeRaws, LayoutOf, EntriesFit;
    EmptyValid();
    InternAllValid(EMPTY, StringsOfPack(p, arch));
  }

  lemma EmptyValid()
    ensures Valid(EMPTY)
  {}

  lemma PlanLayout(p: DataPack, arch: Str, plan: Plan)
    requires PlanOf(p, arch) == Some(plan)
    ensures var l, strings := plan.l, |plan.t.bytes|;
            && HEADER_SIZE + strings <= l.records && l.records + RECORD_SIZE * |plan.ws| <= l.ports
            && l.ports + PORT_ENTRY_SIZE * |PortsOf(p.instructions)| <= l.blobs
            && l.records % ALIGNMENT == 0 && l.ports % ALIGNMENT == 0
  {
    hide InternedAll, StringsOfPack, EncodeRaws, EntriesFit, PortsOf;
  }

  lemma HeaderAccepted(p: DataPack, arch: Str, plan: Plan, sum: u64)
    requires PlanOf(p, arch) == Some(plan)
    ensures Accepts(HeaderOf(p, arch, plan).(checksum := sum), plan.l.blobs + |BlobsOf(plan.ws)|)
  {
    hide PlanOf, StringsOfPack, EncodeRaws, EntriesFit, PortsOf, BlobsOf, HeaderOf, Valid;
    PlanStrings(p, arch, plan);
    PlanLayout(p, arch, plan);
    HeadStrings(p, arch);
    InSection(plan.t, arch);
    InSection(plan.t, p.schemaVersion);
    HeaderFields(p, arch, plan);
  }

  lemma HeadStrings(p: DataPack, arch: Str)
    ensures var ss := StringsOfPack(p, arch);
            p.schemaVersion in ss && arch in ss && Join(p.allPorts) in ss && Join(p.aluPorts) in ss
  {
    hide AllRecordStrings, Join;
    var ss := StringsOfPack(p, arch);
    assert ss[0] == p.schemaVersion && ss[1] == arch && ss[2] == Join(p.allPorts) && ss[3] == Join(p.aluPorts);
  }

  lemma HeaderFields(p: DataPack, arch: Str, plan: Plan)
    requires PlanOf(p, arch) == Some(plan)
    ensures var h := HeaderOf(p, arch, plan);
            && h.version == VERSION && h.headerSize == HEADER_SIZE && h.checksumKind == CHECKSUM_FNV1A64
            && h.fileLen == plan.l.blobs + |BlobsOf(plan.ws)|
            && h.archOffset == OffsetOf(plan.t, arch) && h.schemaOffset == OffsetOf(plan.t, p.schemaVersion)
            && h.stringsOffset == HEADER_SIZE && h.stringsSize == |plan.t.bytes|
            && h.recordsOffset == plan.l.records && h.recordsCount == |plan.ws|
            && h.portsOffset == plan.l.ports && h.portsCount == |PortsOf(p.instructions)|
            && h.allPortsOffset == OffsetOf(plan.t, Join(p.allPorts))
            && h.aluPortsOffset == OffsetOf(plan.t, Join(p.aluPorts))
  {
    hide PlanOf;
  }

  lemma InSection(t: Table, s: Str)
    requires Valid(t) && s in t.offsets
    ensures OffsetOf(t, s) < |t.bytes|
  {}

  /** What is known of the bytes of an encoded file. */
  ghost predicate Holds(file: seq<byte>, p: DataPack, plan: Plan)
    requires |plan.ws| == |p.instructions| && EntriesFit(p.instructions, plan.ws, plan.l.blobs)
  {
    var n, m := |plan.ws|, |PortsOf(p.instructions)|;
    && |file| == plan.l.blobs + |BlobsOf(plan.ws)|
    && HEADER_SIZE + |plan.t.bytes| <= |file| && plan.l.records + RECORD_SIZE * n <= |file|
    && plan.l.ports + PORT_ENTRY_SIZE * m <= |file|
    && file[HEADER_SIZE..HEADER_SIZE + |plan.t.bytes|] == plan.t.bytes
    && file[plan.l.records..plan.l.records + RECORD_SIZE * n] ==
       RecordSection(plan.t, p.instructions, plan.ws, plan.l.blobs, n)
    && file[plan.l.ports..plan.l.ports + PORT_ENTRY_SIZE * m] == PortSection(plan.t, PortsOf(p.instructions))
    && file[plan.l.blobs..] == BlobsOf(plan.ws)
  }

  lemma FileHolds(p: DataPack, arch: Str, plan: Plan, sum: u64)
    requires PlanOf(p, arch) == Some(plan)
    ensures |plan.ws| == |p.instructions| && EntriesFit(p.instructions, plan.ws, plan.l.blobs)
    ensures Holds(PutHeader(HeaderOf(p, arch, plan).(checksum := sum), BodyOf(p, arch, plan)), p, plan)
  {
    hide PlanOf, EncodeRaws, EntriesFit, PortsOf, BlobsOf, RecordSection, PortSection, Body, PutHeader, Usable;
    hide StringsOfPack, HeaderOf;
    PlanStrings(p, arch, plan);
    PlanLayout(p, arch, plan);
    var file := PutHeader(HeaderOf(p, arch, plan).(checksum := sum), BodyOf(p, arch, plan));
    HeaderTail(HeaderOf(p, arch, plan).(checksum := sum), BodyOf(p, arch, plan));
    Sections(file, plan.t.bytes, RecordSection(plan.t, p.instructions, plan.ws, plan.l.blobs, |plan.ws|),
             PortSection(plan.t, PortsOf(p.instructions)), BlobsOf(plan.ws), plan.l);
  }

  /** The header of an encoded file is read, whether its checksum is verified or not. */
  lemma HeaderReads(p: DataPack, arch: Str, plan: Plan, verify: bool)
    requires PlanOf(p, arch) == Some(plan)
    ensures var h, body := HeaderOf(p, arch, plan), BodyOf(p, arch, plan);
            var g := h.(checksum := Checksum.Value(PutHeader(h, body)));
            Encode(p, arch) == Some(PutHeader(g, body)) && ReadHeader(PutHeader(g, body), verify) == Some(g)
  {
    hide PlanOf, HeaderOf, BodyOf, PutHeader, GetHeader, Accepts, Checksum.Value, EntriesFit, RecordSection;
    hide PortSection, PortsOf, BlobsOf, Holds;
    var h, body := HeaderOf(p, arch, plan), BodyOf(p, arch, plan);
    var sum := Checksum.Value(PutHeader(h, body));
    var g := h.(checksum := sum);
    FileHolds(p, arch, plan, sum);
    FileSize(PutHeader(g, body), p, plan);
    HeaderAccepted(p, arch, plan, sum);
    HeaderRoundTrip(g, body);
    ChecksumIgnoresItself(h, sum, body);
  }

  lemma FileSize(file: seq<byte>, p: DataPack, plan: Plan)
    requires |plan.ws| == |p.instructions| && EntriesFit(p.instructions, plan.ws, plan.l.blobs)
    requires Holds(file, p, plan)
    ensures |file| == plan.l.blobs + |BlobsOf(plan.ws)|
  {}

  // The view of an encoded file

  ghost predicate Viewed(v: View, p: DataPack, arch: Str, plan: Plan)
    requires |plan.ws| == |p.instructions| && EntriesFit(p.instructions, plan.ws, plan.l.blobs)
  {
    && Holds(v.bytes, p, plan)
    && v.strings == plan.t.bytes && v.arch == arch && v.schemaVersion == p.schemaVersion
    && v.allPorts == Split(Join(p.allPorts)) && v.aluPorts == Split(Join(p.aluPorts))
    && v.h.recordsOffset == plan.l.records && v.h.recordsCount == |plan.ws|
    && v.h.portsOffset == plan.l.ports && v.h.portsCount == |PortsOf(p.instructions)|
  }

  lemma StringReads(t: Table, s: Str)
    requires Usable(t) && s in t.offsets
    ensures ReadString(t.bytes, OffsetOf(t, s)) == Some(s)
  {
    hide ReadString;
  }

  lemma HeadStringsRead(p: DataPack, arch: Str, plan: Plan)
    requires PlanOf(p, arch) == Some(plan)
    ensures var t := plan.t;
            && ReadString(t.bytes, OffsetOf(t, arch)) == Some(arch)
            && ReadString(t.bytes, OffsetOf(t, p.schemaVersion)) == Some(p.schemaVersion)
            && ReadString(t.bytes, OffsetOf(t, Join(p.allPorts))) == Some(Join(p.allPorts))
            && ReadString(t.bytes, OffsetOf(t, Join(p.aluPorts))) == Some(Join(p.aluPorts))
  {
    hide PlanOf, StringsOfPack, Join, ReadString, Usable, OffsetOf, EncodeRaws, EntriesFit;
    PlanStrings(p, arch, plan);
    HeadStrings(p, arch);
    StringReads(plan.t, arch);
    StringReads(plan.t, p.schemaVersion);
    StringReads(plan.t, Join(p.allPorts));
    StringReads(plan.t, Join(p.aluPorts));
  }

  lemma StringSection(file: seq<byte>, p: DataPack, plan: Plan)
    requires |plan.ws| == |p.instructions| && EntriesFit(p.instructions, plan.ws, plan.l.blobs)
    requires Holds(file, p, plan)
    ensures Slice(file, HEADER_SIZE, |plan.t.bytes|) == plan.t.bytes
  {
    hide EntriesFit, RecordSection, PortSection, PortsOf, BlobsOf;
  }

  lemma ViewReads(p: DataPack, arch: Str, plan: Plan, verify: bool) returns (v: View)
    requires PlanOf(p, arch) == Some(plan)
    ensures |plan.ws| == |p.instructions| && EntriesFit(p.instructions, plan.ws, plan.l.blobs)
    ensures Encode(p, arch).Some? && ViewOf(Encode(p, arch).value, verify) == Some(v) && Viewed(v, p, arch, plan)
  {
    hide PlanOf, HeaderOf, BodyOf, PutHeader, ReadHeader, Checksum.Value, EntriesFit, RecordSection, Encode;
    hide PortSection, PortsOf, BlobsOf, Holds, ReadString, OffsetOf, Join, Split, Slice;
    var h, body := HeaderOf(p, arch, plan), BodyOf(p, arch, plan);
    var sum := Checksum.Value(PutHeader(h, body));
    var file := PutHeader(h.(checksum := sum), body);
    HeaderReads(p, arch, plan, verify);
    FileHolds(p, arch, plan, sum);
    StringSection(file, p, plan);
    HeadStringsRead(p, arch, plan);
    HeaderFields(p, arch, plan);
    v := View(file, h.(checksum := sum), plan.t.bytes, arch, p.schemaVersion, Split(Join(p.allPorts)),
              Split(Join(p.aluPorts)));
  }

  // The records

  lemma SliceOfPart(file: seq<byte>, part: seq<byte>, base: nat, from: nat, size: nat)
    requires base + |part| <= |file| && file[base..base + |part|] == part && from + size <= |part|
    ensures Slice(file, base + from, size) == part[from..from + size]
  {
    PartOf(file, part, base, from, from + size, part[from..from + size]);
  }

  lemma EntryReads(v: View, p: DataPack, arch: Str, plan: Plan, i: nat)
    requires |plan.ws| == |p.instructions| && EntriesFit(p.instructions, plan.ws, plan.l.blobs)
    requires Viewed(v, p, arch, plan) && i < |plan.ws|
    ensures EntryFrom(v, i) == Some(EntryAt(plan.t, p.instructions, plan.ws, plan.l.blobs, i))
  {
    hide EntriesFit, EntryAt, GetRecord, PutRecord, PortsOf, BlobsOf, Slice, Join, Split;
    var section := RecordSection(plan.t, p.instructions, plan.ws, plan.l.blobs, |plan.ws|);
    hide RecordSection;
    RecordAt(plan.t, p.instructions, plan.ws, plan.l.blobs, |plan.ws|, i);
    ProductMonotone(i + 1, |plan.ws|, RECORD_SIZE);
    SliceOfPart(v.bytes, section, plan.l.records, RECORD_SIZE * i, RECORD_SIZE);
    RecordRoundTrip(EntryAt(plan.t, p.instructions, plan.ws, plan.l.blobs, i));
  }

  lemma PortReads(t: Table, e: (Str, i32))
    requires Usable(t) && e.0 in t.offsets
    ensures GetPort(t.bytes, PutPort(t, e, [])) == Some(Parsed(e, []))
  {
    hide PutString, GetString, PutI32, GetI32, Valid;
    I32RoundTrip(e.1, []);
    StringRoundTrip(t, e.0, PutI32(e.1, []));
  }

  lemma PortSlice(v: View, p: DataPack, arch: Str, plan: Plan, j: nat)
    requires |plan.ws| == |p.instructions| && EntriesFit(p.instructions, plan.ws, plan.l.blobs)
    requires Viewed(v, p, arch, plan) && j < |PortsOf(p.instructions)|
    ensures Slice(v.bytes, v.h.portsOffset + PORT_ENTRY_SIZE * j, PORT_ENTRY_SIZE) ==
            PutPort(plan.t, PortsOf(p.instructions)[j], [])
  {
    hide EntriesFit, RecordSection, PutPort, BlobsOf, Slice, Join, Split, PortsOf;
    var ps := PortsOf(p.instructions);
    var section := PortSection(plan.t, ps);
    hide PortSection;
    PortAt(plan.t, ps, j);
    ProductMonotone(j + 1, |ps|, PORT_ENTRY_SIZE);
    SliceOfPart(v.bytes, section, plan.l.ports, PORT_ENTRY_SIZE * j, PORT_ENTRY_SIZE);
  }

  lemma {:induction false} PortsRead(v: View, p: DataPack, arch: Str, plan: Plan, start: nat, count: nat)
    requires |plan.ws| == |p.instructions| && EntriesFit(p.instructions, plan.ws, plan.l.blobs)
    requires Viewed(v, p, arch, plan) && Usable(plan.t) && start + count <= |PortsOf(p.instructions)|
    requires forall e :: e in PortsOf(p.instructions) ==> e.0 in plan.t.offsets
    ensures ReadPorts(v, start, count) == Some(PortsOf(p.instructions)[start..start + count])
    decreases count
  {
    hide EntriesFit, Holds, PutPort, GetPort, PortsOf, Usable, Slice, Join, Split;
    var ps := PortsOf(p.instructions);
    if count > 0 {
      PortSlice(v, p, arch, plan, start);
      PortReads(plan.t, ps[start]);
      PortsRead(v, p, arch, plan, start + 1, count - 1);
      assert ps[start..start + count] == [ps[start]] + ps[start + 1..start + count];
    }
  }

  lemma {:induction false} KeysOfEntries<V>(es: seq<(Str, V)>, e: (Str, V))
    requires e in es
    ensures e.0 in Keys(es)
  {
    var last := |es| - 1;
    if e != es[last] {
      assert e in es[..last];
      KeysOfEntries(es[..last], e);
    }
  }

  lemma {:induction false} PortKeys(rs: seq<InstructionRecord>, e: (Str, i32))
    requires e in PortsOf(rs)
    ensures e.0 in AllRecordStrings(rs)
  {
    hide Entries, OperandStrings, LatencyStrings, VariantStrings, PairStrings;
    var last := |rs| - 1;
    if e in PortsOf(rs[..last]) {
      PortKeys(rs[..last], e);
    } else {
      KeysOfEntries(Entries(rs[last].perf.ports), e);
    }
  }

  lemma {:induction false} HeadKeys(rs: seq<InstructionRecord>, i: nat)
    requires i < |rs|
    ensures rs[i].iform in AllRecordStrings(rs) && rs[i].str in AllRecordStrings(rs)
  {
    hide Entries, OperandStrings, LatencyStrings, VariantStrings, PairStrings, Keys;
    var last := |rs| - 1;
    if i < last {
      HeadKeys(rs[..last], i);
    } else {
      assert RecordStrings(rs[i])[0] == rs[i].iform && RecordStrings(rs[i])[1] == rs[i].str;
    }
  }

  /** A record whose port lists are those of the data pack, as the file keeps them. */
  function Relisted(r: InstructionRecord, allPorts: seq<Str>, aluPorts: seq<Str>): InstructionRecord {
    r.(allPorts := allPorts, aluPorts := aluPorts)
  }

  lemma RecordRebuilt(v: View, t: Table, r: InstructionRecord, w: Raw, portsStart: nat, base: nat)
    requires EntryFits(r, w, portsStart, base) && v.arch == r.arch
    ensures RecordFrom(v, EntryOf(t, r, w, portsStart, base), r.iform, r.str, r.perf.ports, DecodedOf(r)) ==
            Relisted(r, v.allPorts, v.aluPorts)
  {
    FlagBitsRead(r);
    hide Bit, FlagBits, OffsetOf;
    var e := EntryOf(t, r, w, portsStart, base);
    var flags := RecordFlags(r);
    assert Bit(e.flags, 0) == flags[0] && Bit(e.flags, 1) == flags[1] && Bit(e.flags, 2) == flags[2];
    assert Bit(e.flags, 3) == flags[3] && Bit(e.flags, 4) == flags[4] && Bit(e.flags, 5) == flags[5];
    assert Bit(e.flags, 6) == flags[6] && Bit(e.flags, 7) == flags[7] && Bit(e.flags, 8) == flags[8];
    assert Bit(e.flags, 9) == flags[9];
  }

  /** What an entry says about its strings and ports. */
  lemma EntryStrings(t: Table, rs: seq<InstructionRecord>, ws: seq<Raw>, base: nat, i: nat)
    requires |rs| == |ws| && EntriesFit(rs, ws, base) && i < |rs|
    ensures var e := EntryAt(t, rs, ws, base, i);
            && e.iformOffset == OffsetOf(t, rs[i].iform) && e.stringOffset == OffsetOf(t, rs[i].str)
            && e.portsStart == |PortsOf(rs[..i])| && e.portsCount == |Entries(rs[i].perf.ports)|
    ensures EntryFits(rs[i], ws[i], |PortsOf(rs[..i])|, base + |BlobsOf(ws[..i])|)
  {
    hide FlagBits, OffsetOf, PortsOf, BlobsOf;
  }

  lemma BlobSlice(file: seq<byte>, p: DataPack, plan: Plan, i: nat)
    requires |plan.ws| == |p.instructions| && EntriesFit(p.instructions, plan.ws, plan.l.blobs)
    requires Holds(file, p, plan) && i < |plan.ws|
    ensures var base := plan.l.blobs + |BlobsOf(plan.ws[..i])|;
            && base + |RawBytes(plan.ws[i])| <= |file|
            && file[base..base + |RawBytes(plan.ws[i])|] == RawBytes(plan.ws[i])
  {
    hide EntriesFit, RecordSection, PortSection, PortsOf, BlobsOf, RawBytes;
    BlobsAt(plan.ws, i);
    var all, from, size := BlobsOf(plan.ws), |BlobsOf(plan.ws[..i])|, |RawBytes(plan.ws[i])|;
    PartOf(file, all, plan.l.blobs, from, from + size, RawBytes(plan.ws[i]));
  }

  /** The strings and ports of record `i` are read. */
  lemma RecordParts(v: View, p: DataPack, arch: Str, plan: Plan, i: nat)
    requires PlanOf(p, arch) == Some(plan) && |plan.ws| == |p.instructions|
    requires EntriesFit(p.instructions, plan.ws, plan.l.blobs) && Viewed(v, p, arch, plan) && i < |plan.ws|
    ensures var r, start := p.instructions[i], |PortsOf(p.instructions[..i])|;
            var es := Entries(r.perf.ports);
            && ReadString(v.strings, OffsetOf(plan.t, r.iform)) == Some(r.iform)
            && ReadString(v.strings, OffsetOf(plan.t, r.str)) == Some(r.str)
            && start + |es| <= v.h.portsCount
            && ReadPorts(v, start, |es|) == Some(es) && InsertAll(map[], es) == Some(r.perf.ports)
  {
    hide PlanOf, EntriesFit, Holds, PortsOf, Entries, InsertAll, ReadPorts, ReadString, OffsetOf, AllRecordStrings;
    hide Join, Split, EncodeRaws, Usable;
    var r, rs := p.instructions[i], p.instructions;
    PlanStrings(p, arch, plan);
    HeadKeys(rs, i);
    StringReads(plan.t, r.iform);
    StringReads(plan.t, r.str);
    PortsAt(rs, i);
    forall e | e in PortsOf(rs)
      ensures e.0 in plan.t.offsets
    {
      PortKeys(rs, e);
    }
    PortsRead(v, p, arch, plan, |PortsOf(rs[..i])|, |Entries(r.perf.ports)|);
    EntriesRebuild(map[], r.perf.ports);
    assert map[] + r.perf.ports == r.perf.ports;
  }

  lemma RecordReads(v: View, p: DataPack, arch: Str, plan: Plan, i: nat)
    requires PlanOf(p, arch) == Some(plan) && |plan.ws| == |p.instructions|
    requires EntriesFit(p.instructions, plan.ws, plan.l.blobs) && Viewed(v, p, arch, plan) && i < |plan.ws|
    ensures ReadRecord(v, i) == Some(Relisted(p.instructions[i], v.allPorts, v.aluPorts))
  {
    hide PlanOf, EntriesFit, Holds, PortsOf, Entries, InsertAll, ReadPorts, ReadString, OffsetOf, EntryFrom;
    hide DecodeBlobs, RecordFrom, EntryFits, Relisted, BlobsOf, RawBytes, EncodeRaw, EncodeRaws, Join, Split, EntryOf;
    hide StringsOfPack, Usable;
    var rs := p.instructions;
    var r, w, start, base := rs[i], plan.ws[i], |PortsOf(rs[..i])|, plan.l.blobs + |BlobsOf(plan.ws[..i])|;
    PlanStrings(p, arch, plan);
    EntryReads(v, p, arch, plan, i);
    EntryStrings(plan.t, rs, plan.ws, plan.l.blobs, i);
    RecordParts(v, p, arch, plan, i);
    RawsEach(plan.t, rs, i);
    BlobSlice(v.bytes, p, plan, i);
    BlobsRoundTrip(plan.t, r, w, v.bytes, start, base);
    RecordRebuilt(v, plan.t, r, w, start, base);
  }

  lemma {:induction false} RecordsRead(v: View, p: DataPack, arch: Str, plan: Plan, n: nat)
    requires PlanOf(p, arch) == Some(plan) && |plan.ws| == |p.instructions|
    requires EntriesFit(p.instructions, plan.ws, plan.l.blobs) && Viewed(v, p, arch, plan) && n <= |plan.ws|
    ensures ReadRecords(v, n).Some? && |ReadRecords(v, n).value| == n
    ensures forall i :: 0 <= i < n ==>
              ReadRecords(v, n).value[i] == Relisted(p.instructions[i], v.allPorts, v.aluPorts)
  {
    hide PlanOf, EntriesFit, Viewed, ReadRecord, Relisted;
    if n > 0 {
      RecordsRead(v, p, arch, plan, n - 1);
      RecordReads(v, p, arch, plan, n - 1);
    }
  }

  /** A pack as a file keeps it: its records have the port lists of the data pack. */
  function Kept(p: DataPack, allPorts: seq<Str>, aluPorts: seq<Str>): DataPack {
    DataPack(p.schemaVersion, allPorts, aluPorts,
             seq(|p.instructions|, i requires 0 <= i < |p.instructions| =>
               Relisted(p.instructions[i], allPorts, aluPorts)))
  }

  /** Every encoded file is loaded, verified or not, to the data pack with its port lists joined and split. */
  lemma Loads(p: DataPack, arch: Str, verify: bool)
    requires Encode(p, arch).Some?
    ensures Load(Encode(p, arch).value, verify) == Some(Kept(p, Split(Join(p.allPorts)), Split(Join(p.aluPorts))))
  {
    hide *;
    var plan := HasPlan(p, arch);
    var v := ViewReads(p, arch, plan, verify);
    PlanStrings(p, arch, plan);
    RecordsRead(v, p, arch, plan, |plan.ws|);
    LoadFrom(v, p, arch, plan, verify);
  }

  lemma HasPlan(p: DataPack, arch: Str) returns (plan: Plan)
    requires Encode(p, arch).Some?
    ensures PlanOf(p, arch) == Some(plan)
  {
    hide PlanOf;
    plan := PlanOf(p, arch).value;
  }

  lemma LoadFrom(v: View, p: DataPack, arch: Str, plan: Plan, verify: bool)
    requires |plan.ws| == |p.instructions| && EntriesFit(p.instructions, plan.ws, plan.l.blobs)
    requires Encode(p, arch).Some? && ViewOf(Encode(p, arch).value, verify) == Some(v) && Viewed(v, p, arch, plan)
    requires ReadRecords(v, |plan.ws|).Some? && |ReadRecords(v, |plan.ws|).value| == |plan.ws|
    requires forall i :: 0 <= i < |plan.ws| ==>
               ReadRecords(v, |plan.ws|).value[i] == Relisted(p.instructions[i], v.allPorts, v.aluPorts)
    ensures Load(Encode(p, arch).value, verify) == Some(Kept(p, Split(Join(p.allPorts)), Split(Join(p.aluPorts))))
  {
    hide Encode, EntriesFit, Holds, Relisted, ReadRecords, ViewOf, Join, Split, PortsOf;
    assert ReadRecords(v, |plan.ws|).value == Kept(p, v.allPorts, v.aluPorts).instructions;
  }

  /** Loading gives the data pack back exactly if its port lists can be kept. */
  lemma RoundTrip(p: DataPack, arch: Str, verify: bool)
    requires Encode(p, arch).Some?
    ensures Load(Encode(p, arch).value, verify) == Some(Kept(p, p.allPorts, p.aluPorts)) <==>
            Plain(p.allPorts) && Plain(p.aluPorts)
  {
    hide Encode, Load, Join, Split, Plain;
    Loads(p, arch, verify);
    SplitJoin(p.allPorts);
    SplitJoin(p.aluPorts);
    KeptDecides(p, Split(Join(p.allPorts)), Split(Join(p.aluPorts)), p.allPorts, p.aluPorts);
  }

  lemma KeptDecides(p: DataPack, a: seq<Str>, b: seq<Str>, c: seq<Str>, d: seq<Str>)
    ensures Kept(p, a, b) == Kept(p, c, d) <==> a == c && b == d
  {}
}

/** `encode_uipack`: the sections of a file are written into a buffer of zeros, the checksum last. */
module PackEncoder {
  import opened Wrappers
  import opened Arithmetic
  import opened Bytes
  import opened PackData
  import opened StringTable
  import opened Fields
  import opened Blobs
  import opened PackRecords
  import opened PackHeader
  import opened PortLists
  import opened PackFile
  import opened PackWriter
  import Checksum

  /** The buffer holds `w` and zeros after it. */
  ghost predicate Written(buffer: seq<byte>, w: seq<byte>) {
    |w| <= |buffer| && buffer == w + Zeros(|buffer| - |w|)
  }

  lemma Pad(buffer: seq<byte>, w: seq<byte>, n: nat)
    requires Written(buffer, w) && |w| + n <= |buffer|
    ensures Written(buffer, w + Zeros(n))
  {
    assert Zeros(|buffer| - |w|) == Zeros(n) + Zeros(|buffer| - |w| - n);
    assert w + (Zeros(n) + Zeros(|buffer| - |w| - n)) == w + Zeros(n) + Zeros(|buffer| - |w| - n);
  }

  lemma Over(before: seq<byte>, w: seq<byte>, data: seq<byte>)
    requires Written(before, w) && |w| + |data| <= |before|
    ensures Written(before[..|w|] + data + before[|w| + |data|..], w + data)
  {
    assert before[..|w|] == w;
    assert before[|w| + |data|..] == Zeros(|before| - |w| - |data|);
  }

  method CopyAt(a: array<byte>, start: nat, data: seq<byte>)
    requires start + |data| <= a.Length
    modifies a
    ensures a[..] == old(a[..])[..start] + data + old(a[..])[start + |data|..]
  {
    for i := 0 to |data|
      invariant forall k :: start <= k < start + i ==> a[k] == data[k - start]
      invariant forall k :: 0 <= k < start || start + i <= k < a.Length ==> a[k] == old(a[k])
    {
      a[start + i] := data[i];
    }
  }

  /** Writes behind what has been written. */
  method Append(a: array<byte>, start: nat, data: seq<byte>, ghost w: seq<byte>)
    requires Written(a[..], w) && start == |w| && |w| + |data| <= a.Length
    modifies a
    ensures Written(a[..], w + data)
  {
    hide Written;
    Over(a[..], w, data);
    CopyAt(a, start, data);
  }

  function RecordBytes(es: seq<RecordEntry>): (b: seq<byte>)
    ensures |b| == RECORD_SIZE * |es|
  {
    if es == [] then [] else RecordBytes(es[..|es| - 1]) + PutRecord(es[|es| - 1])
  }

  function PortBytes(ports: seq<PortRef>): (b: seq<byte>)
    ensures |b| == PORT_ENTRY_SIZE * |ports|
  {
    if ports == [] then []
    else
      var last := ports[|ports| - 1];
      PortBytes(ports[..|ports| - 1]) + PutU32(last.keyOffset, PutI32(last.count, []))
  }

  lemma RecordBytesNext(es: seq<RecordEntry>, i: nat)
    requires i < |es|
    ensures RecordBytes(es[..i + 1]) == RecordBytes(es[..i]) + PutRecord(es[i])
  {
    assert es[..i + 1][..i] == es[..i];
  }

  lemma PortBytesNext(ports: seq<PortRef>, i: nat)
    requires i < |ports|
    ensures PortBytes(ports[..i + 1]) == PortBytes(ports[..i]) + PutU32(ports[i].keyOffset, PutI32(ports[i].count, []))
  {
    assert ports[..i + 1][..i] == ports[..i];
  }

  method WriteRecords(a: array<byte>, base: nat, es: seq<RecordEntry>, ghost w: seq<byte>)
    requires Written(a[..], w) && base == |w| && |w| + RECORD_SIZE * |es| <= a.Length
    modifies a
    ensures Written(a[..], w + RecordBytes(es))
  {
    hide Written, PutRecord, RecordBytes;
    NoBytes(w, es, []);
    for idx := 0 to |es|
      invariant Written(a[..], w + RecordBytes(es[..idx]))
    {
      RecordBytesNext(es, idx);
      var start := base + idx * RECORD_SIZE;
      Append(a, start, PutRecord(es[idx]), w + RecordBytes(es[..idx]));
      assert w + (RecordBytes(es[..idx]) + PutRecord(es[idx])) == w + RecordBytes(es[..idx]) + PutRecord(es[idx]);
    }
  }

  lemma NoBytes(w: seq<byte>, es: seq<RecordEntry>, ports: seq<PortRef>)
    ensures w + RecordBytes(es[..0]) == w && w + PortBytes(ports[..0]) == w
    ensures es[..|es|] == es && ports[..|ports|] == ports
  {}

  method WritePorts(a: array<byte>, base: nat, ports: seq<PortRef>, ghost w: seq<byte>)
    requires Written(a[..], w) && base == |w| && |w| + PORT_ENTRY_SIZE * |ports| <= a.Length
    modifies a
    ensures Written(a[..], w + PortBytes(ports))
  {
    hide Written, PutU32, PutI32, PortBytes;
    NoBytes(w, [], ports);
    for idx := 0 to |ports|
      invariant Written(a[..], w + PortBytes(ports[..idx]))
    {
      PortBytesNext(ports, idx);
      var start, data := base + idx * PORT_ENTRY_SIZE, PutU32(ports[idx].keyOffset, PutI32(ports[idx].count, []));
      Append(a, start, data, w + PortBytes(ports[..idx]));
      assert w + (PortBytes(ports[..idx]) + data) == w + PortBytes(ports[..idx]) + data;
    }
  }

  /** The sections in their places. */
  predicate Fits(strings: seq<byte>, records: nat, ports: nat, l: Layout) {
    && HEADER_SIZE + |strings| <= l.records && l.records + RECORD_SIZE * records <= l.ports
    && l.ports + PORT_ENTRY_SIZE * ports <= l.blobs
  }

  lemma Assembled(h: Header, strings: seq<byte>, records: seq<byte>, ports: seq<byte>, blobs: seq<byte>, l: Layout)
    requires HEADER_SIZE + |strings| <= l.records && l.records + |records| <= l.ports && l.ports + |ports| <= l.blobs
    ensures FrontOf(h, strings, records, l) + Zeros(l.ports - l.records - |records|) + ports +
            Zeros(l.blobs - l.ports - |ports|) + blobs ==
            PutHeader(h, Body(strings, records, ports, blobs, l))
  {
    HeaderFirst(h, Body(strings, records, ports, blobs, l));
    hide PutHeader, Zeros;
    Regroup(PutHeader(h, []), strings, Zeros(l.records - HEADER_SIZE - |strings|), records,
            Zeros(l.ports - l.records - |records|), ports, Zeros(l.blobs - l.ports - |ports|), blobs);
  }

  /** The file up to its records. */
  function FrontOf(h: Header, strings: seq<byte>, records: seq<byte>, l: Layout): (r: seq<byte>)
    requires HEADER_SIZE + |strings| <= l.records
    ensures |r| == l.records + |records|
  {
    PutHeader(h, []) + strings + Zeros(l.records - HEADER_SIZE - |strings|) + records
  }

  lemma Regroup(h: seq<byte>, a: seq<byte>, b: seq<byte>, c: seq<byte>, d: seq<byte>, e: seq<byte>, f: seq<byte>,
                g: seq<byte>)
    ensures h + a + b + c + d + e + f + g == h + (a + b + (c + d + (e + f + g)))
  {}

  lemma HeaderFirst(h: Header, tail: seq<byte>)
    ensures PutHeader(h, tail) == PutHeader(h, []) + tail
  {
    hide Start, PutOffsets;
    OffsetsTail(h, tail);
  }

  /** Writes the header, the strings and the records. */
  method WriteFront(a: array<byte>, h: Header, strings: seq<byte>, es: seq<RecordEntry>, l: Layout)
    requires HEADER_SIZE + |strings| <= l.records && l.records + RECORD_SIZE * |es| <= a.Length
    requires Written(a[..], [])
    modifies a
    ensures Written(a[..], FrontOf(h, strings, RecordBytes(es), l))
  {
    hide Written, PutHeader, RecordBytes;
    Append(a, 0, PutHeader(h, []), []);
    assert [] + PutHeader(h, []) == PutHeader(h, []);
    ghost var w := PutHeader(h, []);
    Append(a, HEADER_SIZE, strings, w);
    w := w + strings;
    Pad(a[..], w, l.records - |w|);
    WriteRecords(a, l.records, es, w + Zeros(l.records - |w|));
  }

  /** Writes the ports and the blobs. */
  method WriteBack(a: array<byte>, ports: seq<PortRef>, blobs: seq<byte>, l: Layout, ghost front: seq<byte>)
    requires |front| <= l.ports && l.ports + PORT_ENTRY_SIZE * |ports| <= l.blobs && l.blobs + |blobs| == a.Length
    requires Written(a[..], front)
    modifies a
    ensures a[..] == front + Zeros(l.ports - |front|) + PortBytes(ports) +
                     Zeros(l.blobs - l.ports - |PortBytes(ports)|) + blobs
  {
    hide Written, PortBytes;
    Pad(a[..], front, l.ports - |front|);
    ghost var w := front + Zeros(l.ports - |front|);
    WritePorts(a, l.ports, ports, w);
    w := w + PortBytes(ports);
    Pad(a[..], w, l.blobs - |w|);
    w := w + Zeros(l.blobs - |w|);
    Append(a, l.blobs, blobs, w);
    Full(a[..], w + blobs);
  }

  /** Writes the sections of a file without its checksum. */
  method WriteSections(h: Header, strings: seq<byte>, es: seq<RecordEntry>, ports: seq<PortRef>, blobs: seq<byte>,
                       l: Layout) returns (a: array<byte>)
    requires Fits(strings, |es|, |ports|, l)
    ensures fresh(a) && a[..] == PutHeader(h, Body(strings, RecordBytes(es), PortBytes(ports), blobs, l))
  {
    hide Written, PutHeader, RecordBytes, PortBytes, FrontOf, Body;
    a := new byte[l.blobs + |blobs|](_ => 0);
    AllZeros(a[..]);
    WriteFront(a, h, strings, es, l);
    WriteBack(a, ports, blobs, l, FrontOf(h, strings, RecordBytes(es), l));
    Assembled(h, strings, RecordBytes(es), PortBytes(ports), blobs, l);
  }

  lemma AllZeros(buffer: seq<byte>)
    requires forall k :: 0 <= k < |buffer| ==> buffer[k] == 0
    ensures Written(buffer, [])
  {
    assert [] + Zeros(|buffer|) == buffer;
  }

  lemma Full(buffer: seq<byte>, w: seq<byte>)
    requires Written(buffer, w) && |w| == |buffer|
    ensures buffer == w
  {}

  // The whole file

  lemma {:induction false} SameRecords(t: Table, rs: seq<InstructionRecord>, ws: seq<Raw>, base: nat,
                                       es: seq<RecordEntry>, n: nat)
    requires |rs| == |ws| == |es| && EntriesFit(rs, ws, base) && n <= |rs|
    requires forall i :: 0 <= i < |rs| ==> es[i] == EntryAt(t, rs, ws, base, i)
    ensures RecordBytes(es[..n]) == RecordSection(t, rs, ws, base, n)
  {
    hide EntryAt, PutRecord, EntriesFit;
    if n > 0 {
      SameRecords(t, rs, ws, base, es, n - 1);
      RecordBytesNext(es, n - 1);
    } else {
      assert es[..0] == [];
    }
  }

  lemma {:induction false} SamePorts(t: Table, ps: seq<(Str, i32)>)
    ensures PortBytes(PortRefs(t, ps)) == PortSection(t, ps)
  {
    hide PutU32, PutI32, OffsetOf;
    if ps != [] {
      var refs, last := PortRefs(t, ps), |ps| - 1;
      SamePorts(t, ps[..last]);
      assert refs[..last] == PortRefs(t, ps[..last]);
    }
  }

  /** The checksum is the last thing to be written. */
  method WriteChecksum(a: array<byte>, ghost h: Header, ghost body: seq<byte>)
    requires a[..] == PutHeader(h, body) && h.checksum == 0
    modifies a
    ensures a[..] == PutHeader(h.(checksum := Checksum.Value(PutHeader(h, body))), body)
  {
    var checksum := Checksum.Compute(a[..]);
    SealHeader(h, checksum, body);
    CopyAt(a, Checksum.CHECKSUM_OFFSET, Le(checksum, 8));
  }

  lemma SealHeader(h: Header, sum: u64, body: seq<byte>)
    ensures PutHeader(h.(checksum := sum), body) ==
            PutHeader(h, body)[..24] + Le(sum, 8) + PutHeader(h, body)[32..]
  {
    var g := h.(checksum := sum);
    assert Start(g) == Start(h) && PutOffsets(g, body) == PutOffsets(h, body);
    hide Start, PutOffsets, Le;
    Spliced(Start(h), Le(h.checksum, 8), Le(sum, 8), PutOffsets(h, body));
  }

  lemma Spliced(start: seq<byte>, a: seq<byte>, b: seq<byte>, end: seq<byte>)
    requires |start| == 24 && |a| == |b| == 8
    ensures start + (b + end) == (start + (a + end))[..24] + b + (start + (a + end))[32..]
  {}

  predicate OneArch(p: DataPack, arch: Str) {
    forall r :: r in p.instructions ==> r.arch == arch
  }

  /** Everything that the format limits to 32 bits, and the length of the file to 64. */
  predicate WithinLimits(strings: seq<byte>, records: nat, ports: nat, blobs: nat, l: Layout) {
    && l.records < LIMIT && l.ports < LIMIT && |strings| < LIMIT && records < LIMIT && ports < LIMIT
    && l.blobs + blobs < Checksum.MODULUS
  }

  lemma PlanIs(p: DataPack, arch: Str, t: Table, ws: seq<Raw>, l: Layout)
    requires InternedAll(EMPTY, StringsOfPack(p, arch)) == Some(t) && EncodeRaws(t, p.instructions) == Some(ws)
    requires l == LayoutOf(|t.bytes|, |ws|, |PortsOf(p.instructions)|)
    ensures PlanOf(p, arch) ==
            if OneArch(p, arch) && EntriesFit(p.instructions, ws, l.blobs) &&
               WithinLimits(t.bytes, |ws|, |PortsOf(p.instructions)|, |BlobsOf(ws)|, l)
            then Some(Plan(t, ws, l)) else None
  {
    hide InternedAll, EncodeRaws, StringsOfPack, LayoutOf, EntriesFit, BlobsOf, PortsOf;
  }

  lemma LayoutFits(t: Table, records: nat, ports: nat)
    ensures Fits(t.bytes, records, ports, LayoutOf(|t.bytes|, records, ports))
  {}

  lemma EncodeIs(p: DataPack, arch: Str, plan: Plan, h: Header, body: seq<byte>)
    requires PlanOf(p, arch) == Some(plan) && h == HeaderOf(p, arch, plan) && body == BodyOf(p, arch, plan)
    ensures Encode(p, arch) == Some(PutHeader(h.(checksum := Checksum.Value(PutHeader(h, body))), body))
  {
    hide PlanOf, HeaderOf, BodyOf, PutHeader;
  }

  method CheckArch(p: DataPack, arch: Str) returns (ok: bool)
    ensures ok <==> OneArch(p, arch)
  {
    for i := 0 to |p.instructions|
      invariant forall j :: 0 <= j < i ==> p.instructions[j].arch == arch
    {
      if p.instructions[i].arch != arch {
        assert p.instructions[i] in p.instructions;
        return false;
      }
    }
    return true;
  }

  lemma ManyArchs(p: DataPack, arch: Str)
    requires !OneArch(p, arch)
    ensures Encode(p, arch) == None
  {}

  /** What has been collected and placed is what the plan of the file says. */
  lemma Planned(p: DataPack, arch: Str, t: Table, raws: seq<RawRecord>, ports: seq<PortRef>, l: Layout)
    requires OneArch(p, arch) && InternedAll(EMPTY, StringsOfPack(p, arch)) == Some(t)
    requires Collected(t, p.instructions, raws, ports) && l == LayoutOf(|t.bytes|, |raws|, |ports|)
    ensures var ws := RawsOf(raws);
            && |ports| == |PortsOf(p.instructions)| && PortBytes(ports) == PortSection(t, PortsOf(p.instructions))
            && PlanOf(p, arch) ==
               if EntriesFit(p.instructions, ws, l.blobs) &&
                  WithinLimits(t.bytes, |ws|, |ports|, |BlobsOf(ws)|, l)
               then Some(Plan(t, ws, l)) else None
  {
    hide InternedAll, StringsOfPack, PlanOf, EntriesFit, WithinLimits, LayoutOf, Matches;
    EachEncodes(t, p.instructions, raws);
    SamePorts(t, PortsOf(p.instructions));
    PlanIs(p, arch, t, RawsOf(raws), l);
  }

  lemma BodyIs(p: DataPack, arch: Str, plan: Plan, es: seq<RecordEntry>, ports: seq<PortRef>)
    requires PlanOf(p, arch) == Some(plan) && |es| == |p.instructions| == |plan.ws|
    requires EntriesFit(p.instructions, plan.ws, plan.l.blobs)
    requires forall i :: 0 <= i < |es| ==> es[i] == EntryAt(plan.t, p.instructions, plan.ws, plan.l.blobs, i)
    requires PortBytes(ports) == PortSection(plan.t, PortsOf(p.instructions))
    requires Fits(plan.t.bytes, |es|, |ports|, plan.l)
    ensures Body(plan.t.bytes, RecordBytes(es), PortBytes(ports), BlobsOf(plan.ws), plan.l) == BodyOf(p, arch, plan)
  {
    hide PlanOf, EntryAt, EntriesFit, Body;
    SameRecords(plan.t, p.instructions, plan.ws, plan.l.blobs, es, |es|);
    assert es[..|es|] == es;
  }

  /** The file of a data pack. It is the one that the format prescribes, although strings are interned while records are
      encoded: what is interned later changes nothing that has been encoded. */
  method EncodeUiPack(p: DataPack, arch: Str) returns (r: Option<seq<byte>>)
    ensures r == Encode(p, arch)
  {
    hide PlanOf, Encode, Collected, StringsOfPack, InternedAll, EntriesFit, WithinLimits, LayoutOf, Valid, BlobsOf;
    hide HeaderOf, BodyOf, Body, PutHeader, PortBytes, RecordBytes, PortsOf, AllMatch, OneArch, Fits;
    var ok := CheckArch(p, arch);
    if !ok {
      ManyArchs(p, arch);
      return None;
    }
    NoPlanNoFile(p, arch);
    var strings := new StringTable();
    var collected :- Collect(strings, p, arch);
    var raws, ports := collected.0, collected.1;
    ghost var t := strings.AsTable();
    var l := LayoutOf(|strings.bytes|, |raws|, |ports|);
    Planned(p, arch, t, raws, ports, l);
    CollectedMatch(t, p.instructions, raws, ports);
    var placed :- PlaceBlobs(t, p.instructions, raws, l.blobs);
    var es, blobs := placed.0, placed.1;
    if !WithinLimits(strings.bytes, |es|, |ports|, |blobs|, l) {
      return None;
    }
    ghost var plan := Plan(t, RawsOf(raws), l);
    AllPlaced(t, p.instructions, RawsOf(raws), l.blobs, es);
    LayoutFits(t, |es|, |ports|);
    var h := HeaderOf(p, arch, Plan(Table(strings.offsets, strings.bytes), RawsOf(raws), l));
    BodyIs(p, arch, plan, es, ports);
    EncodeIs(p, arch, plan, h, BodyOf(p, arch, plan));
    HeaderUnsealed(p, arch, plan);
    var a := WriteSections(h, strings.bytes, es, ports, blobs, l);
    WriteChecksum(a, h, BodyOf(p, arch, plan));
    return Some(a[..]);
  }

  lemma HeaderUnsealed(p: DataPack, arch: Str, plan: Plan)
    requires PlanOf(p, arch) == Some(plan)
    ensures HeaderOf(p, arch, plan).checksum == 0
  {
    hide PlanOf, PortsOf, BlobsOf, OffsetOf;
  }

  lemma NoPlanNoFile(p: DataPack, arch: Str)
    ensures PlanOf(p, arch) == None ==> Encode(p, arch) == None
  {
    hide PlanOf, HeaderOf, BodyOf;
  }

  lemma CollectedMatch(t: Table, rs: seq<InstructionRecord>, raws: seq<RawRecord>, ports: seq<PortRef>)
    requires Collected(t, rs, raws, ports)
    ensures |raws| == |rs| && AllMatch(t, rs, raws)
  {}
}

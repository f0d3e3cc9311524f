/** The writer of UIPack files as it works: strings are interned while records are encoded, and the sections are then
    written into a buffer of zeros (`encode_uipack`). */
module PackWriter {
  import opened Wrappers
  import opened Arithmetic
  import opened Bytes
  import opened PackData
  import opened StringTable
  import opened Fields
  import opened Blobs
  import opened PackRecords
  import opened PackHeader
  import opened PortLists
  import opened PackFile
  import opened PackStrings
  import opened BlobStability
  import BlobWriter
  import Checksum

  datatype PortRef = PortRef(keyOffset: u32, count: i32)

  /** A record whose strings have been interned and whose blobs have been encoded, but not placed yet. */
  datatype RawRecord = RawRecord(iformOffset: u32, stringOffset: u32, portsStart: u32, portsCount: u32,
                                 record: InstructionRecord, raw: Raw)

  function PortRefs(t: Table, es: seq<(Str, i32)>): (r: seq<PortRef>)
    ensures |r| == |es|
  {
    seq(|es|, k requires 0 <= k < |es| => PortRef(OffsetOf(t, es[k].0), es[k].1))
  }

  /** The strings that the blobs of a record refer to. */
  function BlobStrings(r: InstructionRecord): seq<Str> {
    OperandStrings(r.perf.operands) + LatencyStrings(r.perf.latencies) + VariantStrings(Entries(r.perf.variants)) +
    r.perf.macroFusibleWith + PairStrings(Entries(r.xmlAttrs))
  }

  lemma RecordStringsAre(r: InstructionRecord)
    ensures RecordStrings(r) == [r.iform, r.str] + Keys(Entries(r.perf.ports)) + BlobStrings(r)
  {
    hide OperandStrings, LatencyStrings, VariantStrings, PairStrings, Keys, Entries;
    var front := [r.iform, r.str] + Keys(Entries(r.perf.ports));
    Regroup(front, OperandStrings(r.perf.operands), LatencyStrings(r.perf.latencies),
            VariantStrings(Entries(r.perf.variants)), r.perf.macroFusibleWith, PairStrings(Entries(r.xmlAttrs)));
  }

  lemma Regroup(f: seq<Str>, a: seq<Str>, b: seq<Str>, c: seq<Str>, d: seq<Str>, e: seq<Str>)
    ensures f + a + b + c + d + e == f + (a + b + c + d + e)
  {}

  // Interning and encoding a record

  lemma InternTwo(t: Table, a: Str, b: Str)
    ensures InternedAll(t, [a, b]) == var u :- Interned(t, a); Interned(u, b)
  {
    hide Interned;
    assert [a, b][..1] == [a] && [a][..0] == [];
    assert InternedAll(t, []) == Some(t);
    assert InternedAll(t, [a]) == Interned(t, a);
  }

  lemma KeysNext<V>(es: seq<(Str, V)>, k: nat)
    requires k < |es|
    ensures Keys(es[..k + 1]) == Keys(es[..k]) + [es[k].0]
  {
    assert es[..k + 1][..k] == es[..k];
  }

  lemma InternNext(t: Table, ss: seq<Str>, s: Str)
    requires InternedAll(t, ss).Some?
    ensures InternedAll(t, ss + [s]) == Interned(InternedAll(t, ss).value, s)
  {
    assert (ss + [s])[..|ss|] == ss;
  }

  lemma PortRefsGrow(t: Table, u: Table, es: seq<(Str, i32)>, k: nat)
    requires Extends(t, u) && k < |es| && (forall j :: 0 <= j < k ==> es[j].0 in t.offsets)
    ensures PortRefs(u, es[..k + 1]) == PortRefs(t, es[..k]) + [PortRef(OffsetOf(u, es[k].0), es[k].1)]
  {}

  lemma PortRefsStay(t: Table, u: Table, es: seq<(Str, i32)>)
    requires Extends(t, u) && forall k :: 0 <= k < |es| ==> es[k].0 in t.offsets
    ensures PortRefs(u, es) == PortRefs(t, es)
  {}

  /** Interns the port names of a record. */
  method InternPorts(strings: StringTable, es: seq<(Str, i32)>) returns (r: Option<seq<PortRef>>)
    requires Valid(strings.AsTable())
    modifies strings
    ensures r.Some? <==> InternedAll(old(strings.AsTable()), Keys(es)).Some?
    ensures r.Some? ==> && InternedAll(old(strings.AsTable()), Keys(es)) == Some(strings.AsTable())
                        && r.value == PortRefs(strings.AsTable(), es)
  {
    hide Interned, Keys, Extends, Valid;
    ghost var t := strings.AsTable();
    var refs := [];
    PortsBegin(t, es);
    for k := 0 to |es|
      invariant InternedAll(t, Keys(es[..k])) == Some(strings.AsTable()) && Valid(strings.AsTable())
      invariant refs == PortRefs(strings.AsTable(), es[..k])
      invariant forall j :: 0 <= j < k ==> es[j].0 in strings.AsTable().offsets
    {
      ghost var before := strings.AsTable();
      KeysNext(es, k);
      InternNext(t, Keys(es[..k]), es[k].0);
      var offset := strings.Intern(es[k].0);
      if offset == None {
        KeysFail(t, es, k);
        return None;
      }
      InternValid(before, es[k].0);
      PortRefsGrow(before, strings.AsTable(), es, k);
      KeysStay(before, strings.AsTable(), es, k);
      refs := refs + [PortRef(offset.value, es[k].1)];
    }
    return Some(refs);
  }

  lemma PortsBegin(t: Table, es: seq<(Str, i32)>)
    ensures InternedAll(t, Keys(es[..0])) == Some(t) && es[..|es|] == es
  {}

  lemma KeysStay(t: Table, u: Table, es: seq<(Str, i32)>, k: nat)
    requires Extends(t, u) && k < |es| && forall j :: 0 <= j < k ==> es[j].0 in t.offsets
    ensures forall j :: 0 <= j < k ==> es[j].0 in u.offsets
  {}

  lemma {:induction false} KeysOf<V>(es: seq<(Str, V)>, k: nat)
    requires k <= |es|
    ensures exists more :: Keys(es) == Keys(es[..k]) + more
  {
    if k == |es| {
      assert es[..k] == es;
      assert Keys(es) == Keys(es[..k]) + [];
    } else {
      var front := es[..|es| - 1];
      KeysOf(front, k);
      assert front[..k] == es[..k];
      var more :| Keys(front) == Keys(es[..k]) + more;
      assert Keys(es) == Keys(es[..k]) + (more + [es[|es| - 1].0]);
    }
  }

  lemma KeysFail(t: Table, es: seq<(Str, i32)>, k: nat)
    requires k < |es| && InternedAll(t, Keys(es[..k + 1])) == None
    ensures InternedAll(t, Keys(es)) == None
  {
    hide Keys, Interned;
    KeysOf(es, k + 1);
    var more :| Keys(es) == Keys(es[..k + 1]) + more;
    if InternedAll(t, Keys(es)).Some? {
      InternAllPrefix(t, Keys(es[..k + 1]), more);
    }
  }

  method EncodeBlobs(t: Table, r: InstructionRecord) returns (w: Option<Raw>)
    ensures w == EncodeRaw(t, r)
  {
    hide EncodeOperands, EncodeLatencies, EncodeVariants, EncodeStringList, EncodeStringMap;
    var operands :- BlobWriter.EncodeOperandBlob(t, r.perf.operands);
    var latencies :- BlobWriter.EncodeLatencyBlob(t, r.perf.latencies);
    var variants :- BlobWriter.EncodeVariantBlob(t, r.perf.variants);
    var macroFusibleWith :- BlobWriter.EncodeStringListBlob(t, r.perf.macroFusibleWith);
    var xmlAttrs :- BlobWriter.EncodeStringMapBlob(t, r.xmlAttrs);
    return Some(Raw(operands, latencies, variants, macroFusibleWith, xmlAttrs));
  }

  /** A collected record says what the final table says of it. */
  ghost predicate Matches(t: Table, r: InstructionRecord, portsStart: nat, raw: RawRecord) {
    && raw.record == r && EncodeRaw(t, r) == Some(raw.raw)
    && raw.iformOffset == OffsetOf(t, r.iform) && raw.stringOffset == OffsetOf(t, r.str)
    && raw.portsStart == portsStart && raw.portsCount == |r.perf.ports|
  }

  /** Why a record cannot be written. */
  ghost predicate Refused(t: Option<Table>, r: InstructionRecord, portsStart: nat) {
    t == None || EncodeRaw(t.value, r) == None || portsStart >= LIMIT || |r.perf.ports| >= LIMIT
  }

  method InternHeading(strings: StringTable, r: InstructionRecord) returns (offsets: Option<(u32, u32)>)
    requires Valid(strings.AsTable())
    modifies strings
    ensures offsets.Some? <==> InternedAll(old(strings.AsTable()), [r.iform, r.str]).Some?
    ensures offsets.Some? ==>
              && InternedAll(old(strings.AsTable()), [r.iform, r.str]) == Some(strings.AsTable())
              && Valid(strings.AsTable())
              && r.iform in strings.AsTable().offsets && r.str in strings.AsTable().offsets
              && offsets.value == (OffsetOf(strings.AsTable(), r.iform), OffsetOf(strings.AsTable(), r.str))
  {
    hide Interned, Extends, Valid, InternedAll;
    ghost var t0 := strings.AsTable();
    InternTwo(t0, r.iform, r.str);
    var iform := strings.Intern(r.iform);
    if iform == None {
      return None;
    }
    ghost var t1 := strings.AsTable();
    InternValid(t0, r.iform);
    var str := strings.Intern(r.str);
    if str == None {
      return None;
    }
    InternValid(t1, r.str);
    OffsetStays(t1, strings.AsTable(), r.iform);
    return Some((iform.value, str.value));
  }

  lemma OffsetStays(t: Table, u: Table, s: Str)
    requires Extends(t, u) && s in t.offsets
    ensures s in u.offsets && OffsetOf(u, s) == OffsetOf(t, s)
  {}

  lemma AfterAll(t: Table, a: seq<Str>, b: seq<Str>, c: seq<Str>)
    ensures InternedAll(t, a) == None ==> InternedAll(t, a + b + c) == None
    ensures InternedAll(t, a).Some? && InternedAll(InternedAll(t, a).value, b) == None ==>
              InternedAll(t, a + b + c) == None
    ensures InternedAll(t, a).Some? && InternedAll(InternedAll(t, a).value, b).Some? ==>
              InternedAll(t, a + b + c) == InternedAll(InternedAll(InternedAll(t, a).value, b).value, c)
  {
    hide InternedAll;
    if InternedAll(t, a + b + c).Some? {
      InternAllPrefix(t, a + b, c);
      InternAllPrefix(t, a, b);
    }
    if InternedAll(t, a).Some? {
      InternAllConcat(t, a, b);
      if InternedAll(t, a + b).Some? {
        InternAllConcat(t, a + b, c);
      }
    }
  }

  /** Interns the strings of a record and encodes its blobs. */
  method CollectRecord(strings: StringTable, r: InstructionRecord, ports: seq<PortRef>)
    returns (res: Option<(RawRecord, seq<PortRef>)>)
    requires Valid(strings.AsTable())
    modifies strings
    ensures res.None? ==> Refused(InternedAll(old(strings.AsTable()), RecordStrings(r)), r, |ports|)
    ensures res.Some? ==>
              && InternedAll(old(strings.AsTable()), RecordStrings(r)) == Some(strings.AsTable())
              && |ports| < LIMIT && |r.perf.ports| < LIMIT
              && Matches(strings.AsTable(), r, |ports|, res.value.0)
              && res.value.1 == ports + PortRefs(strings.AsTable(), Entries(r.perf.ports))
  {
    hide Interned, InternedAll, Extends, Valid, EncodeRaw, BlobStrings, RecordStrings, Entries, Keys, PortRefs, Has;
    ghost var t0 := strings.AsTable();
    var es := Entries(r.perf.ports);
    RecordStringsAre(r);
    AfterAll(t0, [r.iform, r.str], Keys(es), BlobStrings(r));
    var heading :- InternHeading(strings, r);
    if |ports| >= LIMIT {
      return None;
    }
    ghost var t1 := strings.AsTable();
    var refs :- InternPorts(strings, es);
    if |r.perf.ports| >= LIMIT {
      return None;
    }
    ghost var t2 := strings.AsTable();
    InternAllValid(t1, Keys(es));
    HasAll(t2, Keys(es));
    var interned := strings.InternEach(BlobStrings(r));
    if !interned {
      return None;
    }
    ghost var t := strings.AsTable();
    InternAllValid(t2, BlobStrings(r));
    OffsetStays(t1, t2, r.iform);
    OffsetStays(t1, t2, r.str);
    OffsetStays(t2, t, r.iform);
    OffsetStays(t2, t, r.str);
    KeysAll(t2, es);
    PortRefsStay(t2, t, es);
    var w :- EncodeBlobs(Table(strings.offsets, strings.bytes), r);
    return Some((RawRecord(heading.0, heading.1, |ports|, |r.perf.ports|, r, w), ports + refs));
  }

  lemma HasAll(t: Table, ss: seq<Str>)
    requires forall s :: s in ss ==> s in t.offsets
    ensures Has(t, ss)
  {}

  lemma KeysAll<V>(t: Table, es: seq<(Str, V)>)
    requires Has(t, Keys(es))
    ensures forall k :: 0 <= k < |es| ==> es[k].0 in t.offsets
  {
    hide Has, Keys;
    forall k | 0 <= k < |es|
      ensures es[k].0 in t.offsets
    {
      KeysHave(t, es, k);
    }
  }

  // All records

  ghost predicate AllMatch(t: Table, rs: seq<InstructionRecord>, raws: seq<RawRecord>)
    requires |raws| == |rs|
  {
    forall j :: 0 <= j < |rs| ==>
      Matches(t, rs[j], |PortsOf(rs[..j])|, raws[j]) && |PortsOf(rs[..j])| < LIMIT && |rs[j].perf.ports| < LIMIT
  }

  ghost predicate Collected(t: Table, rs: seq<InstructionRecord>, raws: seq<RawRecord>, ports: seq<PortRef>) {
    && |raws| == |rs| && Has(t, AllRecordStrings(rs)) && AllMatch(t, rs, raws) && ports == PortRefs(t, PortsOf(rs))
  }

  lemma {:induction false} RecordHas(t: Table, rs: seq<InstructionRecord>, j: nat)
    requires Has(t, AllRecordStrings(rs)) && j < |rs|
    ensures Has(t, RecordStrings(rs[j]))
  {
    hide RecordStrings, Has;
    var last := |rs| - 1;
    HasParts(t, AllRecordStrings(rs[..last]), RecordStrings(rs[last]));
    if j < last {
      RecordHas(t, rs[..last], j);
    }
  }

  lemma HeadingHas(t: Table, r: InstructionRecord)
    requires Has(t, RecordStrings(r))
    ensures r.iform in t.offsets && r.str in t.offsets && Has(t, Keys(Entries(r.perf.ports)))
  {
    hide Has, Keys, Entries;
    RecordStringsAre(r);
    HasParts(t, [r.iform, r.str] + Keys(Entries(r.perf.ports)), BlobStrings(r));
    HasParts(t, [r.iform, r.str], Keys(Entries(r.perf.ports)));
    assert [r.iform, r.str] == [r.iform] + [r.str];
    HasParts(t, [r.iform], [r.str]);
    HasOne(t, r.iform);
    HasOne(t, r.str);
  }

  lemma {:induction false} PortsHaveKeys(t: Table, rs: seq<InstructionRecord>)
    requires Has(t, AllRecordStrings(rs))
    ensures forall k :: 0 <= k < |PortsOf(rs)| ==> PortsOf(rs)[k].0 in t.offsets
  {
    hide RecordStrings, Has, Entries, Keys;
    if rs != [] {
      var last := |rs| - 1;
      HasParts(t, AllRecordStrings(rs[..last]), RecordStrings(rs[last]));
      PortsHaveKeys(t, rs[..last]);
      HeadingHas(t, rs[last]);
      KeysAll(t, Entries(rs[last].perf.ports));
    }
  }

  lemma MatchStays(t: Table, u: Table, r: InstructionRecord, portsStart: nat, raw: RawRecord)
    requires Extends(t, u) && Has(t, RecordStrings(r)) && Matches(t, r, portsStart, raw)
    ensures Matches(u, r, portsStart, raw)
  {
    hide EncodeRaw, RecordStrings, Extends, Has, OffsetOf;
    RawSame(t, u, r);
    HeadingHas(t, r);
    OffsetStays(t, u, r.iform);
    OffsetStays(t, u, r.str);
  }

  lemma CollectedStays(t: Table, u: Table, rs: seq<InstructionRecord>, raws: seq<RawRecord>, ports: seq<PortRef>)
    requires Extends(t, u) && Collected(t, rs, raws, ports)
    ensures Collected(u, rs, raws, ports)
  {
    hide Extends, Matches, PortsOf, AllRecordStrings, Has, PortRefs;
    HasMore(t, u, AllRecordStrings(rs));
    PortsHaveKeys(t, rs);
    PortRefsStay(t, u, PortsOf(rs));
    forall j | 0 <= j < |rs|
      ensures Matches(u, rs[j], |PortsOf(rs[..j])|, raws[j])
    {
      RecordHas(t, rs, j);
      MatchStays(t, u, rs[j], |PortsOf(rs[..j])|, raws[j]);
    }
  }

  lemma RecordsSnoc(front: seq<InstructionRecord>, r: InstructionRecord)
    ensures PortsOf(front + [r]) == PortsOf(front) + Entries(r.perf.ports)
    ensures AllRecordStrings(front + [r]) == AllRecordStrings(front) + RecordStrings(r)
  {
    hide Entries, RecordStrings;
    assert (front + [r])[..|front|] == front;
  }

  lemma MatchNext(t: Table, front: seq<InstructionRecord>, r: InstructionRecord, raws: seq<RawRecord>, raw: RawRecord)
    requires |raws| == |front| && AllMatch(t, front, raws)
    requires Matches(t, r, |PortsOf(front)|, raw) && |PortsOf(front)| < LIMIT && |r.perf.ports| < LIMIT
    ensures AllMatch(t, front + [r], raws + [raw])
  {
    hide Matches, PortsOf;
    var rs := front + [r];
    forall j | 0 <= j < |rs|
      ensures Matches(t, rs[j], |PortsOf(rs[..j])|, (raws + [raw])[j])
      ensures |PortsOf(rs[..j])| < LIMIT && |rs[j].perf.ports| < LIMIT
    {
      assert rs[..j] == front[..j];
      assert front[..|front|] == front;
    }
  }

  lemma CollectedNext(t: Table, front: seq<InstructionRecord>, r: InstructionRecord, raws: seq<RawRecord>,
                      ports: seq<PortRef>, raw: RawRecord)
    requires Collected(t, front, raws, ports) && Has(t, RecordStrings(r))
    requires Matches(t, r, |ports|, raw) && |ports| < LIMIT && |r.perf.ports| < LIMIT
    ensures Collected(t, front + [r], raws + [raw], ports + PortRefs(t, Entries(r.perf.ports)))
  {
    hide Matches, Has, Entries, RecordStrings, AllMatch, PortsOf, AllRecordStrings, OffsetOf;
    RecordsSnoc(front, r);
    MatchNext(t, front, r, raws, raw);
    HasBoth(t, AllRecordStrings(front), RecordStrings(r));
  }

  lemma HasBoth(t: Table, a: seq<Str>, b: seq<Str>)
    requires Has(t, a) && Has(t, b)
    ensures Has(t, a + b)
  {}

  lemma {:induction false} RecordStringsSplit(rs: seq<InstructionRecord>, i: nat)
    requires i <= |rs|
    ensures exists more :: AllRecordStrings(rs) == AllRecordStrings(rs[..i]) + more
  {
    hide RecordStrings;
    if i == |rs| {
      assert rs[..i] == rs;
      assert AllRecordStrings(rs) == AllRecordStrings(rs[..i]) + [];
    } else {
      var front := rs[..|rs| - 1];
      RecordStringsSplit(front, i);
      assert front[..i] == rs[..i];
      var more :| AllRecordStrings(front) == AllRecordStrings(rs[..i]) + more;
      assert AllRecordStrings(rs) == AllRecordStrings(rs[..i]) + (more + RecordStrings(rs[|rs| - 1]));
    }
  }

  function HeadStrings(p: DataPack, arch: Str): seq<Str> {
    [p.schemaVersion, arch, Join(p.allPorts), Join(p.aluPorts)]
  }

  /** The table after the first records. */
  function TableAfter(p: DataPack, arch: Str, i: nat): Option<Table>
    requires i <= |p.instructions|
  {
    InternedAll(EMPTY, HeadStrings(p, arch) + AllRecordStrings(p.instructions[..i]))
  }

  lemma FirstTable(p: DataPack, arch: Str)
    ensures TableAfter(p, arch, 0) == InternedAll(EMPTY, HeadStrings(p, arch))
  {
    assert HeadStrings(p, arch) + [] == HeadStrings(p, arch);
  }

  lemma NextTable(p: DataPack, arch: Str, i: nat)
    requires i < |p.instructions| && TableAfter(p, arch, i).Some?
    ensures TableAfter(p, arch, i + 1) ==
            InternedAll(TableAfter(p, arch, i).value, RecordStrings(p.instructions[i]))
  {
    hide InternedAll, RecordStrings;
    var rs := p.instructions;
    assert rs[..i + 1] == rs[..i] + [rs[i]];
    RecordsSnoc(rs[..i], rs[i]);
    var head, all := HeadStrings(p, arch), AllRecordStrings(rs[..i]);
    assert head + (all + RecordStrings(rs[i])) == head + all + RecordStrings(rs[i]);
    if InternedAll(EMPTY, head + all).Some? {
      InternAllConcat(EMPTY, head + all, RecordStrings(rs[i]));
    }
  }

  lemma LastTable(p: DataPack, arch: Str)
    ensures TableAfter(p, arch, |p.instructions|) == InternedAll(EMPTY, StringsOfPack(p, arch))
  {
    assert p.instructions[..|p.instructions|] == p.instructions;
  }

  lemma EmptyValid()
    ensures Valid(EMPTY)
  {}

  /** All tables up to the last are part of it. */
  lemma PartOfLast(p: DataPack, arch: Str, i: nat)
    requires i <= |p.instructions| && InternedAll(EMPTY, StringsOfPack(p, arch)).Some?
    ensures TableAfter(p, arch, i).Some? && Valid(TableAfter(p, arch, i).value)
    ensures Extends(TableAfter(p, arch, i).value, InternedAll(EMPTY, StringsOfPack(p, arch)).value)
    ensures Has(TableAfter(p, arch, i).value, AllRecordStrings(p.instructions[..i]))
  {
    hide InternedAll, Extends, Valid, AllRecordStrings;
    var rs := p.instructions;
    RecordStringsSplit(rs, i);
    var more :| AllRecordStrings(rs) == AllRecordStrings(rs[..i]) + more;
    var front := HeadStrings(p, arch) + AllRecordStrings(rs[..i]);
    assert StringsOfPack(p, arch) == front + more;
    InternAllPrefix(EMPTY, front, more);
    InternAllConcat(EMPTY, front, more);
    EmptyValid();
    InternAllValid(EMPTY, front);
    InternAllValid(InternedAll(EMPTY, front).value, more);
    HasAll(InternedAll(EMPTY, front).value, front);
    HasParts(InternedAll(EMPTY, front).value, HeadStrings(p, arch), AllRecordStrings(rs[..i]));
  }

  /** If a record is refused while strings are still being interned, the data pack cannot be written. */
  lemma RefusedStops(p: DataPack, arch: Str, i: nat)
    requires i < |p.instructions| && TableAfter(p, arch, i).Some?
    requires Refused(InternedAll(TableAfter(p, arch, i).value, RecordStrings(p.instructions[i])), p.instructions[i],
                     |PortsOf(p.instructions[..i])|)
    ensures PlanOf(p, arch) == None
  {
    if PlanOf(p, arch).Some? {
      var plan := PlanOf(p, arch).value;
      hide InternedAll, RecordStrings, EncodeRaw, StringsOfPack, AllRecordStrings, PlanOf, LayoutOf, Extends, Has;
      PlanParts(p, arch, plan);
      var rs := p.instructions;
      NextTable(p, arch, i);
      PartOfLast(p, arch, i + 1);
      RecordHas(TableAfter(p, arch, i + 1).value, rs[..i + 1], i);
      RawSame(TableAfter(p, arch, i + 1).value, plan.t, rs[i]);
      RawsEach(plan.t, rs, i);
    }
  }

  lemma PlanParts(p: DataPack, arch: Str, plan: Plan)
    requires PlanOf(p, arch) == Some(plan)
    ensures (forall r :: r in p.instructions ==> r.arch == arch)
    ensures InternedAll(EMPTY, StringsOfPack(p, arch)) == Some(plan.t)
    ensures EncodeRaws(plan.t, p.instructions) == Some(plan.ws)
    ensures |plan.ws| == |p.instructions| && EntriesFit(p.instructions, plan.ws, plan.l.blobs)
  {
    hide InternedAll, EncodeRaws, StringsOfPack, LayoutOf, EntriesFit, BlobsOf;
  }

  /** Interns the strings at the head of a file. */
  method InternHead(strings: StringTable, p: DataPack, arch: Str) returns (ok: bool)
    requires strings.AsTable() == EMPTY
    modifies strings
    ensures ok <==> InternedAll(EMPTY, HeadStrings(p, arch)).Some?
    ensures ok ==> InternedAll(EMPTY, HeadStrings(p, arch)) == Some(strings.AsTable()) && Valid(strings.AsTable())
  {
    hide InternedAll, Valid;
    ok := strings.InternEach(HeadStrings(p, arch));
    if ok {
      EmptyValid();
      InternAllValid(EMPTY, HeadStrings(p, arch));
    }
  }

  lemma NoPlan(p: DataPack, arch: Str)
    requires InternedAll(EMPTY, HeadStrings(p, arch)) == None
    ensures PlanOf(p, arch) == None
  {
    hide InternedAll, AllRecordStrings;
    if InternedAll(EMPTY, StringsOfPack(p, arch)).Some? {
      InternAllPrefix(EMPTY, HeadStrings(p, arch), AllRecordStrings(p.instructions));
    }
  }

  lemma NothingCollected(t: Table)
    ensures Collected(t, [], [], [])
  {}

  lemma CollectStep(p: DataPack, arch: Str, i: nat, t: Table, u: Table, raws: seq<RawRecord>, ports: seq<PortRef>,
                    raw: RawRecord)
    requires i < |p.instructions| && TableAfter(p, arch, i) == Some(t) && Valid(t)
    requires Collected(t, p.instructions[..i], raws, ports)
    requires InternedAll(t, RecordStrings(p.instructions[i])) == Some(u)
    requires Matches(u, p.instructions[i], |ports|, raw) && |ports| < LIMIT
    requires |p.instructions[i].perf.ports| < LIMIT
    ensures TableAfter(p, arch, i + 1) == Some(u) && Valid(u)
    ensures Collected(u, p.instructions[..i + 1], raws + [raw],
                      ports + PortRefs(u, Entries(p.instructions[i].perf.ports)))
  {
    hide InternedAll, RecordStrings, Matches, Collected, Has, Valid, Extends, TableAfter, Entries, PortRefs;
    var rs := p.instructions;
    NextTable(p, arch, i);
    InternAllValid(t, RecordStrings(rs[i]));
    HasAll(u, RecordStrings(rs[i]));
    CollectedStays(t, u, rs[..i], raws, ports);
    assert rs[..i + 1] == rs[..i] + [rs[i]];
    CollectedNext(u, rs[..i], rs[i], raws, ports, raw);
  }

  lemma PortCount(t: Table, rs: seq<InstructionRecord>, raws: seq<RawRecord>, ports: seq<PortRef>)
    requires Collected(t, rs, raws, ports)
    ensures |ports| == |PortsOf(rs)|
  {}

  /** Interns all strings and encodes all blobs. */
  method Collect(strings: StringTable, p: DataPack, arch: Str) returns (r: Option<(seq<RawRecord>, seq<PortRef>)>)
    requires strings.AsTable() == EMPTY
    modifies strings
    ensures r.None? ==> PlanOf(p, arch) == None
    ensures r.Some? ==> && InternedAll(EMPTY, StringsOfPack(p, arch)) == Some(strings.AsTable())
                        && Valid(strings.AsTable())
                        && Collected(strings.AsTable(), p.instructions, r.value.0, r.value.1)
  {
    hide InternedAll, PlanOf, Collected, Valid, TableAfter, RecordStrings, Refused, PortsOf, Matches, PortRefs, Entries;
    hide StringsOfPack, HeadStrings;
    var ok := InternHead(strings, p, arch);
    if !ok {
      NoPlan(p, arch);
      return None;
    }
    var raws, ports := [], [];
    FirstTable(p, arch);
    LastTable(p, arch);
    NothingCollected(strings.AsTable());
    assert p.instructions[..0] == [] && p.instructions[..|p.instructions|] == p.instructions;
    for i := 0 to |p.instructions|
      invariant TableAfter(p, arch, i) == Some(strings.AsTable()) && Valid(strings.AsTable())
      invariant Collected(strings.AsTable(), p.instructions[..i], raws, ports)
    {
      ghost var t := strings.AsTable();
      PortCount(t, p.instructions[..i], raws, ports);
      var collected := CollectRecord(strings, p.instructions[i], ports);
      if collected.None? {
        RefusedStops(p, arch, i);
        return None;
      }
      CollectStep(p, arch, i, t, strings.AsTable(), raws, ports, collected.value.0);
      raws, ports := raws + [collected.value.0], collected.value.1;
    }
    return Some((raws, ports));
  }

  // Placing the blobs

  function RawsOf(raws: seq<RawRecord>): (ws: seq<Raw>)
    ensures |ws| == |raws| && forall i :: 0 <= i < |raws| ==> ws[i] == raws[i].raw
  {
    seq(|raws|, i requires 0 <= i < |raws| => raws[i].raw)
  }

  lemma FrontMatches(t: Table, rs: seq<InstructionRecord>, raws: seq<RawRecord>)
    requires |raws| == |rs| && rs != [] && AllMatch(t, rs, raws)
    ensures AllMatch(t, rs[..|rs| - 1], raws[..|rs| - 1])
  {
    hide Matches, PortsOf;
    var front, rawsFront := rs[..|rs| - 1], raws[..|rs| - 1];
    forall j | 0 <= j < |front|
      ensures Matches(t, front[j], |PortsOf(front[..j])|, rawsFront[j])
      ensures |PortsOf(front[..j])| < LIMIT && |front[j].perf.ports| < LIMIT
    {
      assert front[..j] == rs[..j];
      assert Matches(t, rs[j], |PortsOf(rs[..j])|, raws[j]);
    }
  }

  lemma {:induction false} EachEncodes(t: Table, rs: seq<InstructionRecord>, raws: seq<RawRecord>)
    requires |raws| == |rs| && AllMatch(t, rs, raws)
    ensures EncodeRaws(t, rs) == Some(RawsOf(raws))
  {
    hide EncodeRaw, PortsOf;
    if rs != [] {
      var last := |rs| - 1;
      var front, rawsFront := rs[..last], raws[..last];
      assert Matches(t, rs[last], |PortsOf(rs[..last])|, raws[last]);
      FrontMatches(t, rs, raws);
      hide AllMatch;
      EachEncodes(t, front, rawsFront);
      assert RawsOf(raws) == RawsOf(rawsFront) + [raws[last].raw];
    }
  }

  predicate RawFits(w: Raw, base: nat) {
    base + |w.operands| + |w.latencies| + |w.variants| + |w.macroFusibleWith| < LIMIT && |w.xmlAttrs| < LIMIT
  }

  /** The entry of a record whose blobs begin at `base`. */
  function PlacedEntry(raw: RawRecord, base: nat): RecordEntry
    requires RawFits(raw.raw, base)
  {
    var r, w := raw.record, raw.raw;
    var latencies := base + |w.operands|;
    var variants := latencies + |w.latencies|;
    var macros := variants + |w.variants|;
    var xml := macros + |w.macroFusibleWith|;
    RecordEntry(raw.iformOffset, raw.stringOffset, raw.portsStart, raw.portsCount,
                r.perf.uops, r.perf.retireSlots, r.perf.uopsMite, r.perf.uopsMs, ValueOr0(r.perf.tp), FlagBits(r),
                base, |w.operands|, latencies, |w.latencies|,
                r.perf.divCycles, r.perf.nAvailableSimpleDecoders, r.perf.implicitRspChange,
                variants, |w.variants|, macros, |w.macroFusibleWith|, xml, |w.xmlAttrs|)
  }

  /** Appends the blobs of a record, if their offsets and sizes have 32 bits. */
  method PlaceRecord(raw: RawRecord, blobsOffset: nat, blobs: seq<byte>)
    returns (r: Option<(RecordEntry, seq<byte>)>)
    ensures r.Some? <==> RawFits(raw.raw, blobsOffset + |blobs|)
    ensures r.Some? ==> r.value == (PlacedEntry(raw, blobsOffset + |blobs|), blobs + RawBytes(raw.raw))
  {
    hide FlagBits;
    var w, out := raw.raw, blobs;
    if !RawFits(w, blobsOffset + |out|) {
      return None;
    }
    var e := PlacedEntry(raw, blobsOffset + |out|);
    out := out + w.operands;
    out := out + w.latencies;
    out := out + w.variants;
    out := out + w.macroFusibleWith;
    out := out + w.xmlAttrs;
    assert out == blobs + RawBytes(w);
    return Some((e, out));
  }

  lemma PlacedIs(t: Table, r: InstructionRecord, portsStart: nat, raw: RawRecord, base: nat)
    requires Matches(t, r, portsStart, raw) && portsStart < LIMIT && |r.perf.ports| < LIMIT
    ensures EntryFits(r, raw.raw, portsStart, base) <==> RawFits(raw.raw, base)
    ensures RawFits(raw.raw, base) ==> PlacedEntry(raw, base) == EntryOf(t, r, raw.raw, portsStart, base)
  {
    hide FlagBits, EncodeRaw, OffsetOf;
  }

  /** The first entries are those of the plan. */
  ghost predicate Placed(t: Table, rs: seq<InstructionRecord>, ws: seq<Raw>, base: nat, es: seq<RecordEntry>) {
    && |es| <= |rs| == |ws|
    && forall i :: 0 <= i < |es| ==>
         EntryFits(rs[i], ws[i], |PortsOf(rs[..i])|, base + |BlobsOf(ws[..i])|) &&
         es[i] == EntryOf(t, rs[i], ws[i], |PortsOf(rs[..i])|, base + |BlobsOf(ws[..i])|)
  }

  lemma PlacedNext(t: Table, rs: seq<InstructionRecord>, raws: seq<RawRecord>, base: nat, es: seq<RecordEntry>)
    requires |raws| == |rs| && AllMatch(t, rs, raws) && |es| < |rs| && Placed(t, rs, RawsOf(raws), base, es)
    ensures var i, ws := |es|, RawsOf(raws);
            var at := base + |BlobsOf(ws[..i])|;
            && BlobsOf(ws[..i + 1]) == BlobsOf(ws[..i]) + RawBytes(ws[i])
            && (if RawFits(ws[i], at) then Placed(t, rs, ws, base, es + [PlacedEntry(raws[i], at)])
                else !EntriesFit(rs, ws, base))
  {
    hide BlobsOf, EntryOf, EntryFits, PortsOf, PlacedEntry, RawFits, Matches;
    var i, ws := |es|, RawsOf(raws);
    BlobsNext(ws, i);
    PlacedIs(t, rs[i], |PortsOf(rs[..i])|, raws[i], base + |BlobsOf(ws[..i])|);
  }

  lemma BlobsNext(ws: seq<Raw>, i: nat)
    requires i < |ws|
    ensures BlobsOf(ws[..i + 1]) == BlobsOf(ws[..i]) + RawBytes(ws[i])
  {
    assert ws[..i + 1][..i] == ws[..i];
  }

  /** Places the blobs of all records one after the other. */
  method PlaceBlobs(ghost t: Table, ghost rs: seq<InstructionRecord>, raws: seq<RawRecord>, base: nat)
    returns (r: Option<(seq<RecordEntry>, seq<byte>)>)
    requires |raws| == |rs| && AllMatch(t, rs, raws)
    ensures r.Some? <==> EntriesFit(rs, RawsOf(raws), base)
    ensures r.Some? ==> |r.value.0| == |rs| && Placed(t, rs, RawsOf(raws), base, r.value.0)
                        && r.value.1 == BlobsOf(RawsOf(raws))
  {
    hide AllMatch, BlobsOf, PlacedEntry, RawFits, Placed, EntriesFit, RawsOf;
    ghost var ws := RawsOf(raws);
    var entries, blobs := [], [];
    NothingPlaced(t, rs, ws, base);
    for i := 0 to |raws|
      invariant |entries| == i && Placed(t, rs, ws, base, entries) && blobs == BlobsOf(ws[..i])
    {
      PlacedNext(t, rs, raws, base, entries);
      var placed :- PlaceRecord(raws[i], base, blobs);
      entries, blobs := entries + [placed.0], placed.1;
    }
    AllPlaced(t, rs, ws, base, entries);
    return Some((entries, blobs));
  }

  lemma NothingPlaced(t: Table, rs: seq<InstructionRecord>, ws: seq<Raw>, base: nat)
    requires |ws| == |rs|
    ensures BlobsOf(ws[..0]) == [] && ws[..|ws|] == ws && Placed(t, rs, ws, base, [])
  {}

  lemma AllPlaced(t: Table, rs: seq<InstructionRecord>, ws: seq<Raw>, base: nat, es: seq<RecordEntry>)
    requires Placed(t, rs, ws, base, es) && |es| == |rs|
    ensures EntriesFit(rs, ws, base) && forall i :: 0 <= i < |rs| ==> es[i] == EntryAt(t, rs, ws, base, i)
  {
    hide EntryOf, EntryFits, PortsOf, BlobsOf;
  }
}

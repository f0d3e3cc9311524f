/** The indexes of instruction records by mnemonic: over a loaded pack and over the bytes of a file. */
module PackIndex {
  import opened Wrappers
  import opened Bytes
  import opened PackData
  import opened StringTable
  import opened PackRecords
  import opened PackFile
  import opened PackHeader
  import PackRoundTrip

  // Mnemonics

  const OPEN_PAREN: byte := 0x28
  const UNDERSCORE: byte := 0x5F

  predicate IsSpace(b: byte) {
    b == 0x20 || 9 <= b <= 13
  }

  predicate Separates(b: byte) {
    IsSpace(b) || b == OPEN_PAREN
  }

  function UpperByte(b: byte): byte {
    if 0x61 <= b <= 0x7A then b - 0x20 else b
  }

  function Upper(s: Str): (r: Str)
    ensures |r| == |s| && forall i :: 0 <= i < |s| ==> r[i] == UpperByte(s[i])
  {
    seq(|s|, i requires 0 <= i < |s| => UpperByte(s[i]))
  }

  /** The first piece between separators that is not empty. */
  function FirstWord(s: Str): Str {
    if s == [] then []
    else if Separates(s[0]) then FirstWord(s[1..])
    else Word(s)
  }

  function Word(s: Str): Str {
    if s == [] || Separates(s[0]) then [] else [s[0]] + Word(s[1..])
  }

  predicate StartsWith(s: Str, p: Str) {
    |p| <= |s| && s[..|p|] == p
  }

  predicate EndsWith(s: Str, p: Str) {
    |p| <= |s| && s[|s| - |p|..] == p
  }

  const CMP: Str := [0x43, 0x4D, 0x50]
  const VCMP: Str := [0x56, 0x43, 0x4D, 0x50]
  const PS: Str := [0x50, 0x53]
  const PD: Str := [0x50, 0x44]
  const SS: Str := [0x53, 0x53]
  const SD: Str := [0x53, 0x44]
  const JE: Str := [0x4A, 0x45]
  const JZ: Str := [0x4A, 0x5A]
  const JNE: Str := [0x4A, 0x4E, 0x45]
  const JNZ: Str := [0x4A, 0x4E, 0x5A]
  const CMOVNLE: Str := [0x43, 0x4D, 0x4F, 0x56, 0x4E, 0x4C, 0x45]
  const CMOVG: Str := [0x43, 0x4D, 0x4F, 0x56, 0x47]
  const SETZ: Str := [0x53, 0x45, 0x54, 0x5A]
  const SETE: Str := [0x53, 0x45, 0x54, 0x45]

  /** The comparisons with a condition in their name are one instruction each. */
  function Comparison(prefix: Str, s: Str): Option<Str> {
    if !StartsWith(s, prefix) then None
    else if EndsWith(s, PS) then Some(prefix + PS)
    else if EndsWith(s, PD) then Some(prefix + PD)
    else if EndsWith(s, SS) then Some(prefix + SS)
    else if EndsWith(s, SD) then Some(prefix + SD)
    else None
  }

  function Alias(s: Str): Str {
    match Comparison(VCMP, s)
    case Some(a) => a
    case None =>
      match Comparison(CMP, s)
      case Some(a) => a
      case None =>
        if s == JE then JZ
        else if s == JNE then JNZ
        else if s == CMOVNLE then CMOVG
        else if s == SETZ then SETE
        else s
  }

  function NormalizeMnemonic(s: Str): Str {
    Alias(Upper(FirstWord(s)))
  }

  function BeforeUnderscore(s: Str): Str {
    if s == [] || s[0] == UNDERSCORE then [] else [s[0]] + BeforeUnderscore(s[1..])
  }

  function NormalizeIformPrefix(iform: Str): Str {
    NormalizeMnemonic(BeforeUnderscore(iform))
  }

  // Normalizing twice is normalizing once

  predicate Clean(s: Str) {
    forall b :: b in s ==> !Separates(b) && UpperByte(b) == b
  }

  lemma {:induction false} WordClean(s: Str)
    ensures forall b :: b in Word(s) ==> !Separates(b)
  {
    if s != [] && !Separates(s[0]) {
      WordClean(s[1..]);
    }
  }

  lemma {:induction false} FirstWordClean(s: Str)
    ensures forall b :: b in FirstWord(s) ==> !Separates(b)
  {
    if s != [] {
      FirstWordClean(s[1..]);
      WordClean(s);
    }
  }

  lemma UpperClean(s: Str)
    requires forall b :: b in s ==> !Separates(b)
    ensures Clean(Upper(s))
  {
    forall b | b in Upper(s)
      ensures !Separates(b) && UpperByte(b) == b
    {
      var i :| 0 <= i < |s| && Upper(s)[i] == b;
      assert s[i] in s;
    }
  }

  lemma {:induction false} CleanWord(s: Str)
    requires Clean(s)
    ensures Word(s) == s && FirstWord(s) == s && Upper(s) == s
  {
    if s != [] {
      assert s[0] in s && forall b :: b in s[1..] ==> b in s;
      CleanWord(s[1..]);
      assert s == [s[0]] + s[1..];
    }
    assert forall i :: 0 <= i < |s| ==> s[i] in s;
  }

  lemma ComparisonStays(prefix: Str, s: Str)
    requires Comparison(prefix, s).Some?
    ensures Comparison(prefix, Comparison(prefix, s).value) == Comparison(prefix, s)
  {
    var a := Comparison(prefix, s).value;
    var suffix := if EndsWith(s, PS) then PS else if EndsWith(s, PD) then PD else if EndsWith(s, SS) then SS else SD;
    assert a[..|prefix|] == prefix && a[|a| - 2..] == suffix;
  }

  lemma ConstantsClean()
    ensures Clean(VCMP) && Clean(CMP) && Clean(JZ) && Clean(JNZ) && Clean(CMOVG) && Clean(SETE)
    ensures Clean(PS) && Clean(PD) && Clean(SS) && Clean(SD)
  {}

  lemma CleanJoin(a: Str, b: Str)
    requires Clean(a) && Clean(b)
    ensures Clean(a + b)
  {}

  lemma ComparisonClean(prefix: Str, s: Str)
    requires Clean(prefix) && Comparison(prefix, s).Some?
    ensures Clean(Comparison(prefix, s).value)
  {
    hide StartsWith, EndsWith, Clean;
    ConstantsClean();
    CleanJoin(prefix, PS);
    CleanJoin(prefix, PD);
    CleanJoin(prefix, SS);
    CleanJoin(prefix, SD);
  }

  /** What the alias of a mnemonic that is no comparison can be. */
  lemma OtherAlias(s: Str)
    requires Comparison(VCMP, s) == None && Comparison(CMP, s) == None
    ensures Alias(s) == JZ || Alias(s) == JNZ || Alias(s) == CMOVG || Alias(s) == SETE || Alias(s) == s
    ensures s != JE && s != JNE && s != CMOVNLE && s != SETZ ==> Alias(s) == s
  {
    hide Comparison;
  }

  lemma AliasClean(s: Str)
    requires Clean(s)
    ensures Clean(Alias(s))
  {
    hide Comparison, Clean;
    ConstantsClean();
    if Comparison(VCMP, s).Some? {
      ComparisonClean(VCMP, s);
    } else if Comparison(CMP, s).Some? {
      ComparisonClean(CMP, s);
    } else {
      OtherAlias(s);
    }
  }

  lemma DifferentByte(s: Str, p: Str, i: nat)
    requires i < |s| && i < |p| && s[i] != p[i]
    ensures !StartsWith(s, p) && s != p
  {
    assert |p| <= |s| ==> s[..|p|][i] == s[i];
  }

  lemma AliasOfOther(s: Str)
    requires !StartsWith(s, VCMP) && !StartsWith(s, CMP) && s != JE && s != JNE && s != CMOVNLE && s != SETZ
    ensures Alias(s) == s
  {
    hide StartsWith, EndsWith;
    assert Comparison(VCMP, s) == None && Comparison(CMP, s) == None;
    hide Comparison;
    OtherAlias(s);
  }

  lemma OthersStay()
    ensures Alias(JZ) == JZ && Alias(JNZ) == JNZ && Alias(CMOVG) == CMOVG && Alias(SETE) == SETE
  {
    hide Alias;
    DifferentByte(JZ, VCMP, 0);
    DifferentByte(JZ, CMP, 0);
    DifferentByte(JZ, JE, 1);
    AliasOfOther(JZ);
    DifferentByte(JNZ, VCMP, 0);
    DifferentByte(JNZ, CMP, 0);
    DifferentByte(JNZ, JNE, 2);
    AliasOfOther(JNZ);
    DifferentByte(CMOVG, VCMP, 0);
    DifferentByte(CMOVG, CMP, 2);
    AliasOfOther(CMOVG);
    DifferentByte(SETE, VCMP, 0);
    DifferentByte(SETE, CMP, 0);
    DifferentByte(SETE, SETZ, 3);
    AliasOfOther(SETE);
  }

  lemma ComparisonAlias(s: Str)
    requires Comparison(VCMP, s) == None && Comparison(CMP, s).Some?
    ensures var a := Comparison(CMP, s).value; Alias(s) == a && Alias(a) == a
  {
    var a := Comparison(CMP, s).value;
    ComparisonStays(CMP, s);
    assert a[0] == 0x43;
    DifferentByte(a, VCMP, 0);
    assert Comparison(VCMP, a) == None;
    hide Comparison;
  }

  lemma AliasStays(s: Str)
    ensures Alias(Alias(s)) == Alias(s)
  {
    hide Comparison;
    if Comparison(VCMP, s).Some? {
      ComparisonStays(VCMP, s);
    } else if Comparison(CMP, s).Some? {
      ComparisonAlias(s);
    } else {
      hide Alias;
      OthersStay();
      OtherAlias(s);
    }
  }

  lemma NormalizationIdempotent(s: Str)
    ensures NormalizeMnemonic(NormalizeMnemonic(s)) == NormalizeMnemonic(s)
  {
    hide Alias, FirstWord, Word;
    FirstWordClean(s);
    UpperClean(FirstWord(s));
    AliasClean(Upper(FirstWord(s)));
    CleanWord(NormalizeMnemonic(s));
    AliasStays(Upper(FirstWord(s)));
  }

  // The indexed names of a record

  datatype Names = Names(iform: Str, str: Str)

  predicate Matches(n: Names, mnemonic: Str) {
    NormalizeMnemonic(n.str) == mnemonic || NormalizeIformPrefix(n.iform) == mnemonic
  }

  /** The indices of the records with a normalized mnemonic, in order. */
  function Scan(ns: seq<Names>, mnemonic: Str): seq<nat> {
    if ns == [] then []
    else
      var last := |ns| - 1;
      Scan(ns[..last], mnemonic) + if Matches(ns[last], mnemonic) then [last] else []
  }

  /** The scan lists exactly the matching records, each once and in increasing order. */
  lemma {:induction false} ScanExact(ns: seq<Names>, mnemonic: Str)
    ensures forall i: nat :: i in Scan(ns, mnemonic) <==> i < |ns| && Matches(ns[i], mnemonic)
    ensures forall j, k :: 0 <= j < k < |Scan(ns, mnemonic)| ==> Scan(ns, mnemonic)[j] < Scan(ns, mnemonic)[k]
  {
    hide Matches;
    if ns != [] {
      ScanExact(ns[..|ns| - 1], mnemonic);
      var front := Scan(ns[..|ns| - 1], mnemonic);
      assert forall j :: 0 <= j < |front| ==> front[j] in front;
    }
  }

  function Listed<K>(m: map<K, seq<nat>>, k: K): seq<nat> {
    if k in m then m[k] else []
  }

  function Pushed<K>(m: map<K, seq<nat>>, k: K, i: nat): map<K, seq<nat>> {
    m[k := Listed(m, k) + [i]]
  }

  lemma ListedPushed<K>(m: map<K, seq<nat>>, k: K, i: nat, q: K)
    ensures Listed(Pushed(m, k, i), q) == if q == k then Listed(m, k) + [i] else Listed(m, q)
  {}

  /** The index lists what the scan finds, under every key. */
  ghost predicate Indexes(m: map<Str, seq<nat>>, ns: seq<Names>) {
    forall k :: Listed(m, k) == Scan(ns, k)
  }

  function IformScan(ns: seq<Names>, iform: Str): seq<nat> {
    if ns == [] then []
    else
      var last := |ns| - 1;
      IformScan(ns[..last], iform) + if Upper(ns[last].iform) == iform then [last] else []
  }

  ghost predicate IndexesIforms(m: map<Str, seq<nat>>, ns: seq<Names>) {
    forall k :: Listed(m, k) == IformScan(ns, k)
  }

  /** A record is listed under its mnemonic and under the prefix of its iform, once if they are the same. */
  function Added(m: map<Str, seq<nat>>, n: Names, i: nat): map<Str, seq<nat>> {
    var mnemonic, prefix := NormalizeMnemonic(n.str), NormalizeIformPrefix(n.iform);
    var once := Pushed(m, mnemonic, i);
    if mnemonic != prefix then Pushed(once, prefix, i) else once
  }

  lemma AddedIndexes(m: map<Str, seq<nat>>, ns: seq<Names>, n: Names)
    requires Indexes(m, ns)
    ensures Indexes(Added(m, n, |ns|), ns + [n])
  {
    hide NormalizeMnemonic, NormalizeIformPrefix, Scan, Listed, Pushed;
    forall k: Str
      ensures Listed(Added(m, n, |ns|), k) == Scan(ns + [n], k)
    {
      ScanSnoc(ns, n, k);
      AddedAt(m, n, |ns|, k);
      assert Listed(m, k) == Scan(ns, k);
    }
  }

  lemma ScanSnoc(ns: seq<Names>, n: Names, k: Str)
    ensures Scan(ns + [n], k) == Scan(ns, k) + if Matches(n, k) then [|ns|] else []
  {
    assert (ns + [n])[..|ns|] == ns;
  }

  lemma AddedAt(m: map<Str, seq<nat>>, n: Names, i: nat, k: Str)
    ensures Listed(Added(m, n, i), k) == Listed(m, k) + if Matches(n, k) then [i] else []
  {
    hide NormalizeMnemonic, NormalizeIformPrefix;
  }

  lemma AddedIform(m: map<Str, seq<nat>>, ns: seq<Names>, n: Names)
    requires IndexesIforms(m, ns)
    ensures IndexesIforms(Pushed(m, Upper(n.iform), |ns|), ns + [n])
  {
    hide Upper;
    forall k: Str
      ensures Listed(Pushed(m, Upper(n.iform), |ns|), k) == IformScan(ns + [n], k)
    {
      assert (ns + [n])[..|ns|] == ns;
      assert Listed(m, k) == IformScan(ns, k);
    }
  }

  // The index over the bytes of a file

  /** The names of a record, if its strings and its range of ports are in order. */
  function NamesAt(v: View, i: nat): Option<Names> {
    var e :- EntryFrom(v, i);
    var iform :- ReadString(v.strings, e.iformOffset);
    var str :- ReadString(v.strings, e.stringOffset);
    if e.portsStart + e.portsCount > v.h.portsCount then None else Some(Names(iform, str))
  }

  function AllNames(v: View, n: nat): (ns: Option<seq<Names>>)
    ensures ns.Some? ==> |ns.value| == n
  {
    if n == 0 then Some([])
    else
      var ns :- AllNames(v, n - 1);
      var last :- NamesAt(v, n - 1);
      Some(ns + [last])
  }

  lemma {:induction false} AllNamesPrefix(v: View, i: nat, n: nat)
    requires i <= n && AllNames(v, i) == None
    ensures AllNames(v, n) == None
  {
    hide NamesAt;
    if i < n {
      AllNamesPrefix(v, i, n - 1);
    }
  }

  class ViewIndex {
    var byMnemonic: map<Str, seq<nat>>
    var byIform: map<Str, seq<nat>>

    constructor ()
      ensures byMnemonic == map[] && byIform == map[]
    {
      byMnemonic, byIform := map[], map[];
    }

    /** Indexes one more record. */
    method Add(names: Names, i: nat, ghost ns: seq<Names>)
      requires Indexes(byMnemonic, ns) && IndexesIforms(byIform, ns) && i == |ns|
      modifies this
      ensures Indexes(byMnemonic, ns + [names]) && IndexesIforms(byIform, ns + [names])
    {
      hide Indexes, IndexesIforms;
      AddedIndexes(byMnemonic, ns, names);
      AddedIform(byIform, ns, names);
      byMnemonic := Added(byMnemonic, names, i);
      byIform := Pushed(byIform, Upper(names.iform), i);
    }

    /** Indexes all records of a view; it fails if one of them cannot be read. */
    method Build(v: View) returns (ok: bool)
      requires byMnemonic == map[] && byIform == map[]
      modifies this
      ensures ok <==> AllNames(v, v.h.recordsCount).Some?
      ensures ok ==> Of(v)
      ensures ok ==> forall mnemonic :: RecordIndicesForMnemonic(mnemonic) ==
                                        Scan(AllNames(v, v.h.recordsCount).value, NormalizeMnemonic(mnemonic))
      ensures ok ==> forall iform :: RecordIndicesForIform(iform) ==
                                     IformScan(AllNames(v, v.h.recordsCount).value, Upper(iform))
    {
      hide NamesAt, Indexes, IndexesIforms, NormalizeMnemonic, Upper, Scan, IformScan;
      NothingIndexed();
      for i := 0 to v.h.recordsCount
        invariant AllNames(v, i).Some?
        invariant Indexes(byMnemonic, AllNames(v, i).value) && IndexesIforms(byIform, AllNames(v, i).value)
      {
        var names := NamesAt(v, i);
        if names == None {
          AllNamesPrefix(v, i + 1, v.h.recordsCount);
          return false;
        }
        Add(names.value, i, AllNames(v, i).value);
      }
      ok := true;
      Finds(AllNames(v, v.h.recordsCount).value);
    }

    /** The index is that of the view. */
    ghost predicate Of(v: View)
      reads this
    {
      && AllNames(v, v.h.recordsCount).Some?
      && Indexes(byMnemonic, AllNames(v, v.h.recordsCount).value)
      && IndexesIforms(byIform, AllNames(v, v.h.recordsCount).value)
    }

    function RecordIndicesForMnemonic(mnemonic: Str): seq<nat>
      reads this
    {
      Listed(byMnemonic, NormalizeMnemonic(mnemonic))
    }

    function RecordIndicesForIform(iform: Str): seq<nat>
      reads this
    {
      Listed(byIform, Upper(iform))
    }

    /** A lookup finds what a scan of the records would. */
    lemma Finds(ns: seq<Names>)
      ensures Indexes(byMnemonic, ns) ==>
                forall mnemonic :: RecordIndicesForMnemonic(mnemonic) == Scan(ns, NormalizeMnemonic(mnemonic))
      ensures IndexesIforms(byIform, ns) ==>
                forall iform :: RecordIndicesForIform(iform) == IformScan(ns, Upper(iform))
    {
      hide NormalizeMnemonic, Upper, Scan, IformScan, Listed;
    }
  }

  lemma NothingIndexed()
    ensures Indexes(map[], []) && IndexesIforms(map[], [])
  {}

  // The index over a pack

  function NamesOf(rs: seq<InstructionRecord>): (ns: seq<Names>)
    ensures |ns| == |rs| && forall i :: 0 <= i < |rs| ==> ns[i] == Names(rs[i].iform, rs[i].str)
  {
    seq(|rs|, i requires 0 <= i < |rs| => Names(rs[i].iform, rs[i].str))
  }

  /** The indices of the records of an architecture with a normalized mnemonic, in order. */
  function ArchScan(rs: seq<InstructionRecord>, arch: Str, mnemonic: Str): seq<nat> {
    if rs == [] then []
    else
      var last := |rs| - 1;
      ArchScan(rs[..last], arch, mnemonic) +
      if Upper(rs[last].arch) == arch && Matches(Names(rs[last].iform, rs[last].str), mnemonic) then [last] else []
  }

  ghost predicate IndexesPack(m: map<(Str, Str), seq<nat>>, rs: seq<InstructionRecord>) {
    forall a, k :: Listed(m, (a, k)) == ArchScan(rs, a, k)
  }

  function AddedRecord(m: map<(Str, Str), seq<nat>>, r: InstructionRecord, i: nat): map<(Str, Str), seq<nat>> {
    var arch, mnemonic, prefix := Upper(r.arch), NormalizeMnemonic(r.str), NormalizeIformPrefix(r.iform);
    var once := Pushed(m, (arch, mnemonic), i);
    if mnemonic != prefix then Pushed(once, (arch, prefix), i) else once
  }

  lemma AddedIndexesPack(m: map<(Str, Str), seq<nat>>, rs: seq<InstructionRecord>, i: nat)
    requires i < |rs| && IndexesPack(m, rs[..i])
    ensures IndexesPack(AddedRecord(m, rs[i], i), rs[..i + 1])
  {
    hide NormalizeMnemonic, NormalizeIformPrefix, Upper, Listed, Pushed;
    assert rs[..i + 1][..i] == rs[..i];
    var arch, mnemonic, prefix := Upper(rs[i].arch), NormalizeMnemonic(rs[i].str), NormalizeIformPrefix(rs[i].iform);
    forall a: Str, k: Str
      ensures Listed(AddedRecord(m, rs[i], i), (a, k)) == ArchScan(rs[..i + 1], a, k)
    {
      ListedPushed(m, (arch, mnemonic), i, (a, k));
      ListedPushed(Pushed(m, (arch, mnemonic), i), (arch, prefix), i, (a, k));
      assert Listed(m, (a, k)) == ArchScan(rs[..i], a, k);
    }
  }

  class DataPackIndex {
    const pack: DataPack
    var byArchAndMnemonic: map<(Str, Str), seq<nat>>

    constructor (pack: DataPack)
      ensures this.pack == pack && Valid()
      ensures forall arch, mnemonic ::
                CandidatesFor(arch, mnemonic) == ArchScan(pack.instructions, Upper(arch), NormalizeMnemonic(mnemonic))
    {
      this.pack := pack;
      byArchAndMnemonic := map[];
      new;
      var rs := pack.instructions;
      assert rs[..|rs|] == rs && IndexesPack(map[], rs[..0]);
      hide AddedRecord, NormalizeMnemonic, Upper;
      for i := 0 to |rs|
        invariant this.pack == pack && IndexesPack(byArchAndMnemonic, rs[..i])
      {
        AddedIndexesPack(byArchAndMnemonic, rs, i);
        byArchAndMnemonic := AddedRecord(byArchAndMnemonic, rs[i], i);
      }
      Finds();
    }

    ghost predicate Valid()
      reads this
    {
      IndexesPack(byArchAndMnemonic, pack.instructions)
    }

    lemma Finds()
      requires Valid()
      ensures forall arch, mnemonic ::
                CandidatesFor(arch, mnemonic) == ArchScan(pack.instructions, Upper(arch), NormalizeMnemonic(mnemonic))
    {
      hide NormalizeMnemonic, Upper, ArchScan, Listed;
    }

    /** The indices of the records that `candidates_for` yields. */
    function CandidatesFor(arch: Str, mnemonic: Str): seq<nat>
      reads this
    {
      Listed(byArchAndMnemonic, (Upper(arch), NormalizeMnemonic(mnemonic)))
    }
  }

  /** In a pack of one architecture every record matches it. */
  lemma {:induction false} OneArch(rs: seq<InstructionRecord>, arch: Str, mnemonic: Str)
    requires forall r :: r in rs ==> r.arch == arch
    ensures ArchScan(rs, Upper(arch), mnemonic) == Scan(NamesOf(rs), mnemonic)
  {
    hide Matches, Upper;
    if rs != [] {
      var last := |rs| - 1;
      OneArch(rs[..last], arch, mnemonic);
      assert NamesOf(rs)[..last] == NamesOf(rs[..last]);
      assert rs[last] in rs;
    }
  }

  // The indexes agree

  lemma {:induction false} FileNames(v: View, p: DataPack, arch: Str, plan: Plan, n: nat)
    requires PlanOf(p, arch) == Some(plan) && |plan.ws| == |p.instructions|
    requires EntriesFit(p.instructions, plan.ws, plan.l.blobs) && PackRoundTrip.Viewed(v, p, arch, plan)
    requires n <= |p.instructions|
    ensures AllNames(v, n) == Some(NamesOf(p.instructions)[..n])
  {
    hide PlanOf, EntriesFit, PackRoundTrip.Viewed, NamesAt;
    if n > 0 {
      FileNames(v, p, arch, plan, n - 1);
      NameReads(v, p, arch, plan, n - 1);
      assert NamesOf(p.instructions)[..n] == NamesOf(p.instructions)[..n - 1] + [NamesOf(p.instructions)[n - 1]];
    }
  }

  lemma NameReads(v: View, p: DataPack, arch: Str, plan: Plan, i: nat)
    requires PlanOf(p, arch) == Some(plan) && |plan.ws| == |p.instructions|
    requires EntriesFit(p.instructions, plan.ws, plan.l.blobs) && PackRoundTrip.Viewed(v, p, arch, plan)
    requires i < |plan.ws|
    ensures NamesAt(v, i) == Some(Names(p.instructions[i].iform, p.instructions[i].str))
  {
    hide PlanOf, EntriesFit, PackRoundTrip.Viewed, EntryFrom, EntryAt, ReadString, ReadPorts, InsertAll, Entries;
    hide EntryFits, PortsOf, BlobsOf;
    PackRoundTrip.EntryReads(v, p, arch, plan, i);
    PackRoundTrip.EntryStrings(plan.t, p.instructions, plan.ws, plan.l.blobs, i);
    PackRoundTrip.RecordParts(v, p, arch, plan, i);
  }

  /** On a written file, the index over the bytes is built and finds, for every mnemonic, exactly the records that the
      index over the data finds, in the same order; and for every iform those that have it. */
  lemma IndexesAgree(p: DataPack, arch: Str, verify: bool, index: ViewIndex, packIndex: DataPackIndex, mnemonic: Str,
                     iform: Str)
    requires Encode(p, arch).Some? && packIndex.pack == p && packIndex.Valid()
    requires var v := ViewOf(Encode(p, arch).value, verify);
             v.Some? && AllNames(v.value, v.value.h.recordsCount).Some? ==> index.Of(v.value)
    ensures ViewOf(Encode(p, arch).value, verify).Some?
    ensures var v := ViewOf(Encode(p, arch).value, verify).value;
            AllNames(v, v.h.recordsCount) == Some(NamesOf(p.instructions))
    ensures index.RecordIndicesForMnemonic(mnemonic) == packIndex.CandidatesFor(arch, mnemonic)
    ensures index.RecordIndicesForIform(iform) == IformScan(NamesOf(p.instructions), Upper(iform))
  {
    hide Encode, ViewOf, AllNames, NamesOf, Indexes, IndexesIforms, NormalizeMnemonic, Upper, Scan, IformScan, ArchScan;
    hide EntriesFit, PackRoundTrip.Viewed, PlanOf, ViewIndex.RecordIndicesForMnemonic, ViewIndex.RecordIndicesForIform;
    hide DataPackIndex.CandidatesFor, DataPackIndex.Valid;
    var plan := PackRoundTrip.HasPlan(p, arch);
    var v := PackRoundTrip.ViewReads(p, arch, plan, verify);
    PackRoundTrip.PlanStrings(p, arch, plan);
    FileNames(v, p, arch, plan, |p.instructions|);
    RecordCount(v, p, arch, plan);
    OneArch(p.instructions, arch, NormalizeMnemonic(mnemonic));
    index.Finds(NamesOf(p.instructions));
    packIndex.Finds();
  }

  lemma RecordCount(v: View, p: DataPack, arch: Str, plan: Plan)
    requires |plan.ws| == |p.instructions| && EntriesFit(p.instructions, plan.ws, plan.l.blobs)
    requires PackRoundTrip.Viewed(v, p, arch, plan)
    ensures v.h.recordsCount == |p.instructions|
    ensures NamesOf(p.instructions)[..|p.instructions|] == NamesOf(p.instructions)
  {}
}

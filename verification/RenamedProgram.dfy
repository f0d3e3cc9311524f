/** What renaming makes of a program: each uop gets its renamed operands and, if it loads or stores, its entry of the
    store buffer (`Renamer.cycle` in uiCA.py). The result is what the back end counts on. */
module RenamedProgram {
  import opened Wrappers
  import opened Uops
  import opened SchedulerTokens
  import opened SchedulerSteps
  import opened BackEndRuns
  import Renaming
  import Renamer

  /** A uop of the program: what is renamed of it, and the properties that it keeps. The key of a memory access is its
      abstract address. */
  datatype ProgramUop = ProgramUop(
    uop: Renaming.Uop,
    latencies: seq<int>,
    possiblePorts: seq<string>,
    isLoad: bool,
    isStoreAddress: bool,
    isStoreData: bool,
    isFirstOfInstr: bool,
    isLoadSerializing: bool,
    isStoreSerializing: bool,
    isM256: bool,
    instr: string,
    tp: Option<nat>,
    divCycles: nat,
    key: Option<Address>)

  predicate AccessesMemory(p: ProgramUop) {
    p.isLoad || p.isStoreAddress || p.isStoreData
  }

  /** Only uops with ports write operands; a uop that loads, stores an address or stores data does one of these, has a
      port and is no move; and fences do not load. */
  predicate SoundUop(p: ProgramUop) {
    && |p.latencies| == |p.uop.outputs|
    && (p.uop.hasUops && p.uop.outputs != [] ==> p.possiblePorts != [])
    && (AccessesMemory(p) ==> p.uop.hasUops && p.uop.move.None? && p.possiblePorts != [])
    && !(p.isLoad && p.isStoreAddress) && !(p.isLoad && p.isStoreData) && !(p.isStoreAddress && p.isStoreData)
    && (p.isLoadSerializing || p.isStoreSerializing ==> !p.isLoad)
  }

  predicate IsSequenced(p: ProgramUop) {
    AccessesMemory(p) || (p.isFirstOfInstr && (p.isLoadSerializing || p.isStoreSerializing))
  }

  function Indices(ps: seq<ProgramUop>): (us: seq<nat>)
    ensures |us| == |ps|
  {
    seq(|ps|, i requires 0 <= i < |ps| => ps[i].uop.idx)
  }

  ghost predicate NumberedAt(ps: seq<ProgramUop>, i: nat, j: nat)
    requires i < |ps| && j < |ps|
  {
    i < j && IsSequenced(ps[i]) && IsSequenced(ps[j]) ==> ps[i].uop.idx < ps[j].uop.idx
  }

  ghost predicate PairedAt(ps: seq<ProgramUop>, i: nat)
    requires i < |ps|
  {
    ps[i].isStoreData <==> i > 0 && ps[i - 1].isStoreAddress
  }

  /** The uops of a program: those that store data directly follow those that store their addresses, and loads, stores
      and fences are numbered in order. */
  ghost predicate IsProgram(ps: seq<ProgramUop>) {
    && (forall i :: 0 <= i < |ps| ==> SoundUop(ps[i]))
    && (forall i :: 0 <= i < |ps| ==> PairedAt(ps, i))
    && (forall i, j :: 0 <= i < |ps| && 0 <= j < |ps| ==> NumberedAt(ps, i, j))
    && NoDuplicates(Indices(ps))
  }

  lemma ProgramPrefix(ps: seq<ProgramUop>, qs: seq<ProgramUop>)
    requires IsProgram(ps + qs)
    ensures IsProgram(ps)
  {
    hide SoundUop;
    var all := ps + qs;
    forall i | 0 <= i < |ps|
      ensures PairedAt(ps, i) && SoundUop(ps[i])
    {
      assert PairedAt(all, i) && SoundUop(all[i]);
    }
    forall i, j | 0 <= i < |ps| && 0 <= j < |ps|
      ensures NumberedAt(ps, i, j)
    {
      assert NumberedAt(all, i, j);
    }
    forall i, j | 0 <= i < j < |ps|
      ensures Indices(ps)[i] != Indices(ps)[j]
    {
      assert Indices(all)[i] != Indices(all)[j];
    }
  }

  lemma IndicesJoined(ps: seq<ProgramUop>, qs: seq<ProgramUop>)
    ensures Indices(ps + qs) == Indices(ps) + Indices(qs)
  {}

  // The store buffer

  /** The entry of the latest store, and the latest entry under each key. */
  datatype StoreTables = StoreTables(cur: Option<StoreBufferEntry>, dict: map<Option<Address>, StoreBufferEntry>)

  const NO_STORES := StoreTables(None, map[])

  /** A uop that stores an address opens an entry. */
  function Stored(b: StoreTables, p: ProgramUop, eliminated: bool): StoreTables {
    if eliminated || !p.uop.hasUops || !p.isStoreAddress then b
    else
      var e := StoreBufferEntry(p.uop.idx, p.key);
      StoreTables(Some(e), b.dict[p.key := e])
  }

  /** Stores get the latest entry, loads the latest one under their key. */
  function EntryOf(b: StoreTables, p: ProgramUop, eliminated: bool): Option<StoreBufferEntry> {
    if eliminated || !p.uop.hasUops then None
    else if p.isLoad then (if p.key in b.dict then Some(b.dict[p.key]) else None)
    else if p.isStoreAddress || p.isStoreData then b.cur
    else None
  }

  // Renamed uops

  /** A renamed operand as the back end sees it: ready from the beginning if no uop of the program writes it. */
  function Meaning(info: map<nat, Info>, o: Renaming.Operand): Operand {
    match o
    case Initial(_) => Known(-1)
    case Output(w, slot) =>
      if w in info && slot < |info[w].outputs| then info[w].outputs[slot] else Known(-1)
  }

  function InputsOf(info: map<nat, Info>, ins: seq<Renaming.Operand>): (r: seq<Operand>)
    ensures |r| == |ins| && forall i :: 0 <= i < |ins| ==> r[i] == Meaning(info, ins[i])
  {
    seq(|ins|, i requires 0 <= i < |ins| => Meaning(info, ins[i]))
  }

  function OutputsOf(p: ProgramUop, eliminated: bool): (r: seq<Operand>)
    ensures forall op :: op in r ==> op.Written? && op.uop == p.uop.idx
    ensures r != [] ==> !eliminated && p.uop.hasUops && p.uop.outputs != []
  {
    if eliminated || !p.uop.hasUops || |p.latencies| != |p.uop.outputs| then []
    else seq(|p.latencies|, slot requires 0 <= slot < |p.latencies| => Written(p.uop.idx, slot, p.latencies[slot]))
  }

  function InfoOf(info: map<nat, Info>, b: StoreTables, p: ProgramUop, eliminated: bool, ins: seq<Renaming.Operand>)
    : Info
  {
    Info(p.possiblePorts, eliminated, p.isLoad, p.isStoreAddress, p.isStoreData, p.isFirstOfInstr, p.isLoadSerializing,
         p.isStoreSerializing, p.isM256, p.instr, p.tp, p.divCycles, EntryOf(b, p, eliminated), InputsOf(info, ins),
         OutputsOf(p, eliminated))
  }

  /** What is known of the uops once one more has been renamed. */
  function WithUop(info: map<nat, Info>, b: StoreTables, p: ProgramUop, eliminated: bool, ins: seq<Renaming.Operand>)
    : map<nat, Info>
  {
    info[p.uop.idx := InfoOf(info, Stored(b, p, eliminated), p, eliminated, ins)]
  }

  function InfosAfter(info: map<nat, Info>, b: StoreTables, ps: seq<ProgramUop>, eliminated: seq<bool>,
                      ins: seq<seq<Renaming.Operand>>): map<nat, Info>
    requires |eliminated| == |ins| == |ps|
    decreases |ps|
  {
    if ps == [] then info
    else
      InfosAfter(WithUop(info, b, ps[0], eliminated[0], ins[0]), Stored(b, ps[0], eliminated[0]), ps[1..],
                 eliminated[1..], ins[1..])
  }

  function StoresAfter(b: StoreTables, ps: seq<ProgramUop>, eliminated: seq<bool>): StoreTables
    requires |eliminated| == |ps|
    decreases |ps|
  {
    if ps == [] then b else StoresAfter(Stored(b, ps[0], eliminated[0]), ps[1..], eliminated[1..])
  }

  // What holds of the renamed uops

  /** Operands are written by the uop that has them as outputs, which has a port. */
  ghost predicate OwnOutputs(info: map<nat, Info>) {
    forall w, op :: w in info && op in info[w].outputs ==> op.Written? && op.uop == w && PortBound(info[w])
  }

  ghost predicate KnownOperand(info: map<nat, Info>, o: Renaming.Operand) {
    o.Output? ==> o.uop in info
  }

  /** The tables of the renamer hold outputs of known uops. */
  ghost predicate KnownTables(info: map<nat, Info>, t: Renaming.Tables) {
    && (forall k :: k in t.dict ==> KnownOperand(info, t.dict[k]))
    && (forall k :: k in t.cur ==> KnownOperand(info, t.cur[k]))
    && (forall k :: k in t.pseudo ==> KnownOperand(info, t.pseudo[k]))
  }

  /** The address of an entry is stored by one of the uops. */
  ghost predicate AddressStored(info: map<nat, Info>, us: seq<nat>, e: nat) {
    exists a :: a in us && a in info && StoresTo(info[a], e) && info[a].isStoreAddress
  }

  ghost predicate DataStored(info: map<nat, Info>, us: seq<nat>, e: nat) {
    exists d :: d in us && d in info && StoresTo(info[d], e) && info[d].isStoreData
  }

  predicate OpensEntry(ps: seq<ProgramUop>) {
    ps != [] && ps[|ps| - 1].isStoreAddress
  }

  /** Of every entry but the one that was opened last both address and data are stored. */
  ghost predicate EntriesStored(info: map<nat, Info>, ps: seq<ProgramUop>, b: StoreTables) {
    && (OpensEntry(ps) ==> b.cur.Some?)
    && forall k :: k in b.dict ==>
         && AddressStored(info, Indices(ps), b.dict[k].id)
         && (DataStored(info, Indices(ps), b.dict[k].id) || (OpensEntry(ps) && b.cur == Some(b.dict[k])))
  }

  ghost predicate Flagged(info: map<nat, Info>, p: ProgramUop) {
    && p.uop.idx in info
    && var i := info[p.uop.idx];
       && i.isLoad == p.isLoad && i.isStoreAddress == p.isStoreAddress && i.isStoreData == p.isStoreData
       && i.isFirstOfInstr == p.isFirstOfInstr && i.isLoadSerializing == p.isLoadSerializing
       && i.isStoreSerializing == p.isStoreSerializing
  }

  ghost predicate AllFlagged(info: map<nat, Info>, ps: seq<ProgramUop>) {
    forall i :: 0 <= i < |ps| ==> Flagged(info, ps[i])
  }

  ghost predicate LoadsAfterStores(info: map<nat, Info>, us: seq<nat>) {
    forall u :: u in us && u in info && ForwardedFrom(info[u]).Some? ==>
      StoredEarlier(info, us, ForwardedFrom(info[u]).value, u)
  }

  ghost predicate WellRenamed(ps: seq<ProgramUop>, info: map<nat, Info>, t: Renaming.Tables, b: StoreTables) {
    && IsProgram(ps) && info.Keys == SetOf(Indices(ps)) && OwnOutputs(info) && KnownTables(info, t)
    && EntriesStored(info, ps, b) && AllFlagged(info, ps) && LoadsAfterStores(info, Indices(ps))
  }

  lemma NothingRenamed()
    ensures WellRenamed([], map[], Renaming.Tables(map[], map[], map[]), NO_STORES)
  {
    assert SetOf(Indices([])) == {};
  }

  /** The renamed uops are in the order that the back end counts on. */
  lemma RenamedOrderly(ps: seq<ProgramUop>, info: map<nat, Info>, t: Renaming.Tables, b: StoreTables)
    requires WellRenamed(ps, info, t, b)
    ensures Orderly(info, Indices(ps))
  {
    hide OwnOutputs, KnownTables, EntriesStored, StoredEarlier, NoDuplicates;
    var us := Indices(ps);
    forall u | u in us && u in info
      ensures FencesDirect(info[u])
    {
      var i :| 0 <= i < |us| && us[i] == u;
      assert Flagged(info, ps[i]) && SoundUop(ps[i]);
    }
    forall i, j | 0 <= i < |us| && 0 <= j < |us|
      ensures OrderedAt(info, us, i, j)
    {
      assert Flagged(info, ps[i]) && Flagged(info, ps[j]) && NumberedAt(ps, i, j);
    }
  }

  // One more uop

  /** Nothing that was known changes. */
  ghost predicate Knows(info: map<nat, Info>, info': map<nat, Info>) {
    forall u :: u in info ==> u in info' && info'[u] == info[u]
  }

  lemma KnownLater(info: map<nat, Info>, info': map<nat, Info>, t: Renaming.Tables)
    requires KnownTables(info, t) && Knows(info, info')
    ensures KnownTables(info', t)
  {}

  lemma {:induction false} EnteredKnown(info: map<nat, Info>, t: Renaming.Tables, inputs: seq<Renaming.Source>)
    requires KnownTables(info, t)
    ensures KnownTables(info, t.(dict := Renaming.EnteredAll(t.dict, inputs)))
  {
    if inputs != [] {
      EnteredKnown(info, t, inputs[..|inputs| - 1]);
    }
  }

  lemma {:induction false} WriteKnown(info: map<nat, Info>, t: Renaming.Tables, u: nat, outputs: seq<Renaming.Source>)
    requires KnownTables(info, t) && u in info
    ensures KnownTables(info, Renaming.Write(t, u, outputs))
  {
    if outputs != [] {
      WriteKnown(info, t, u, outputs[..|outputs| - 1]);
    }
  }

  lemma UopKnown(info: map<nat, Info>, t: Renaming.Tables, u: Renaming.Uop, eliminated: bool)
    requires KnownTables(info, t) && u.idx in info && Renaming.CanRename(t, u, eliminated)
    ensures KnownTables(info, Renaming.AfterUop(t, u, eliminated))
  {
    if !eliminated {
      if u.hasUops {
        EnteredKnown(info, t, u.inputs);
        WriteKnown(info, t.(dict := Renaming.EnteredAll(t.dict, u.inputs)), u.idx, u.outputs);
      } else {
        WriteKnown(info, t, u.idx, Renaming.NamedAll(u.zeroed));
      }
    }
    assert KnownTables(info, Renaming.Renamed(t, u, eliminated));
    hide Renaming.Renamed, Renaming.CanRename;
  }

  lemma StoredStays(info: map<nat, Info>, info': map<nat, Info>, us: seq<nat>, u: nat, e: nat)
    requires Knows(info, info')
    ensures AddressStored(info, us, e) ==> AddressStored(info', us + [u], e)
    ensures DataStored(info, us, e) ==> DataStored(info', us + [u], e)
  {
    hide StoresTo;
    if AddressStored(info, us, e) {
      var a :| a in us && a in info && StoresTo(info[a], e) && info[a].isStoreAddress;
      assert a in us + [u] && a in info';
    }
    if DataStored(info, us, e) {
      var d :| d in us && d in info && StoresTo(info[d], e) && info[d].isStoreData;
      assert d in us + [u] && d in info';
    }
  }

  /** What the program says about the uop that comes next. */
  lemma NextUop(ps: seq<ProgramUop>, p: ProgramUop)
    requires IsProgram(ps + [p])
    ensures SoundUop(p) && p.uop.idx !in Indices(ps) && (p.isStoreData <==> OpensEntry(ps))
    ensures Indices(ps + [p]) == Indices(ps) + [p.uop.idx]
  {
    var all := ps + [p];
    assert SoundUop(all[|ps|]) && PairedAt(all, |ps|);
    hide SoundUop;
    forall i | 0 <= i < |ps|
      ensures Indices(ps)[i] != p.uop.idx
    {
      assert Indices(all)[i] != Indices(all)[|ps|];
    }
  }

  /** The uop stores to the entry that was opened last. */
  lemma NewStore(info: map<nat, Info>, b: StoreTables, p: ProgramUop, ins: seq<Renaming.Operand>)
    requires SoundUop(p) && (p.isStoreAddress || p.isStoreData) && (p.isStoreData ==> b.cur.Some?)
    ensures var b', info' := Stored(b, p, false), WithUop(info, b, p, false, ins);
            && b'.cur.Some? && p.uop.idx in info' && StoresTo(info'[p.uop.idx], b'.cur.value.id)
            && info'[p.uop.idx].isStoreAddress == p.isStoreAddress && info'[p.uop.idx].isStoreData == p.isStoreData
  {}

  lemma EntriesKept(ps: seq<ProgramUop>, info: map<nat, Info>, info': map<nat, Info>, b: StoreTables, p: ProgramUop)
    requires EntriesStored(info, ps, b) && Knows(info, info') && !OpensEntry(ps) && !p.isStoreAddress
    ensures EntriesStored(info', ps + [p], b)
  {
    hide AddressStored, DataStored, Knows;
    IndicesJoined(ps, [p]);
    assert Indices([p]) == [p.uop.idx];
    forall k | k in b.dict
      ensures AddressStored(info', Indices(ps + [p]), b.dict[k].id) && DataStored(info', Indices(ps + [p]), b.dict[k].id)
    {
      StoredStays(info, info', Indices(ps), p.uop.idx, b.dict[k].id);
    }
  }

  lemma EntryOpened(ps: seq<ProgramUop>, info: map<nat, Info>, info': map<nat, Info>, b: StoreTables, p: ProgramUop,
                    e: StoreBufferEntry)
    requires EntriesStored(info, ps, b) && Knows(info, info') && !OpensEntry(ps) && p.isStoreAddress
    requires AddressStored(info', Indices(ps + [p]), e.id)
    ensures EntriesStored(info', ps + [p], StoreTables(Some(e), b.dict[p.key := e]))
  {
    hide AddressStored, DataStored, Knows;
    IndicesJoined(ps, [p]);
    assert Indices([p]) == [p.uop.idx];
    forall k | k in b.dict
      ensures AddressStored(info', Indices(ps + [p]), b.dict[k].id) && DataStored(info', Indices(ps + [p]), b.dict[k].id)
    {
      StoredStays(info, info', Indices(ps), p.uop.idx, b.dict[k].id);
    }
  }

  lemma EntryFilled(ps: seq<ProgramUop>, info: map<nat, Info>, info': map<nat, Info>, b: StoreTables, p: ProgramUop)
    requires EntriesStored(info, ps, b) && Knows(info, info') && OpensEntry(ps) && !p.isStoreAddress
    requires DataStored(info', Indices(ps + [p]), b.cur.value.id)
    ensures EntriesStored(info', ps + [p], b)
  {
    hide AddressStored, DataStored, Knows;
    IndicesJoined(ps, [p]);
    assert Indices([p]) == [p.uop.idx];
    forall k | k in b.dict
      ensures AddressStored(info', Indices(ps + [p]), b.dict[k].id) && DataStored(info', Indices(ps + [p]), b.dict[k].id)
    {
      StoredStays(info, info', Indices(ps), p.uop.idx, b.dict[k].id);
    }
  }

  lemma EntriesMore(ps: seq<ProgramUop>, info: map<nat, Info>, b: StoreTables, p: ProgramUop, eliminated: bool,
                    ins: seq<Renaming.Operand>)
    requires EntriesStored(info, ps, b) && SoundUop(p) && (p.isStoreData <==> OpensEntry(ps)) && p.uop.idx !in info
    requires eliminated ==> p.uop.move.Some?
    ensures EntriesStored(WithUop(info, b, p, eliminated, ins), ps + [p], Stored(b, p, eliminated))
  {
    var info' := WithUop(info, b, p, eliminated, ins);
    assert Indices(ps + [p])[|ps|] == p.uop.idx;
    if p.isStoreAddress || p.isStoreData {
      NewStore(info, b, p, ins);
    }
    hide InfoOf, StoresTo, EntriesStored, AddressStored, DataStored;
    NewlyStored(info', Indices(ps + [p]), p.uop.idx);
    if p.isStoreAddress {
      EntryOpened(ps, info, info', b, p, StoreBufferEntry(p.uop.idx, p.key));
    } else if p.isStoreData {
      EntryFilled(ps, info, info', b, p);
    } else {
      EntriesKept(ps, info, info', b, p);
    }
  }

  /** What a uop that stores to an entry does for it. */
  lemma NewlyStored(info: map<nat, Info>, us: seq<nat>, u: nat)
    requires u in us && u in info
    ensures forall e :: StoresTo(info[u], e) && info[u].isStoreAddress ==> AddressStored(info, us, e)
    ensures forall e :: StoresTo(info[u], e) && info[u].isStoreData ==> DataStored(info, us, e)
  {
    hide StoresTo;
  }

  lemma EarlierMore(us: seq<nat>, v: nat, w: nat, u: nat)
    ensures Earlier(us, v, w) ==> Earlier(us + [u], v, w)
    ensures v in us ==> Earlier(us + [u], v, u)
  {
    EarlierJoined(us, [u], v, w);
    EarlierJoined(us, [u], v, u);
  }

  lemma StoredEarlierLater(info: map<nat, Info>, info': map<nat, Info>, us: seq<nat>, e: nat, v: nat, u: nat)
    requires StoredEarlier(info, us, e, v) && Knows(info, info')
    ensures StoredEarlier(info', us + [u], e, v)
  {
    hide StoresTo, Earlier;
    var a :| Earlier(us, a, v) && a in info && StoresTo(info[a], e) && info[a].isStoreAddress;
    var d :| Earlier(us, d, v) && d in info && StoresTo(info[d], e) && info[d].isStoreData;
    EarlierMore(us, a, v, u);
    EarlierMore(us, d, v, u);
    assert info'[a] == info[a] && info'[d] == info[d];
  }

  /** A load reads from an entry whose address and data are stored by uops before it. */
  lemma LoadFollows(info: map<nat, Info>, info': map<nat, Info>, us: seq<nat>, e: nat, u: nat)
    requires AddressStored(info, us, e) && DataStored(info, us, e) && Knows(info, info')
    ensures StoredEarlier(info', us + [u], e, u)
  {
    hide StoresTo, Earlier;
    var a :| a in us && a in info && StoresTo(info[a], e) && info[a].isStoreAddress;
    var d :| d in us && d in info && StoresTo(info[d], e) && info[d].isStoreData;
    EarlierMore(us, a, a, u);
    EarlierMore(us, d, d, u);
    assert info'[a] == info[a] && info'[d] == info[d];
  }

  /** The entry that a load gets is one of those in the tables. */
  lemma LoadEntry(info: map<nat, Info>, b: StoreTables, p: ProgramUop, eliminated: bool, ins: seq<Renaming.Operand>)
    requires SoundUop(p)
    ensures var i := InfoOf(info, Stored(b, p, eliminated), p, eliminated, ins);
            ForwardedFrom(i).Some? ==> p.isLoad && p.key in b.dict && ForwardedFrom(i).value == b.dict[p.key].id
  {}

  lemma LoadsMore(ps: seq<ProgramUop>, info: map<nat, Info>, b: StoreTables, p: ProgramUop, eliminated: bool,
                  ins: seq<Renaming.Operand>)
    requires EntriesStored(info, ps, b) && LoadsAfterStores(info, Indices(ps)) && info.Keys == SetOf(Indices(ps))
    requires SoundUop(p) && (p.isStoreData <==> OpensEntry(ps)) && p.uop.idx !in info
    ensures LoadsAfterStores(WithUop(info, b, p, eliminated, ins), Indices(ps) + [p.uop.idx])
  {
    var info', u, us := WithUop(info, b, p, eliminated, ins), p.uop.idx, Indices(ps);
    LoadEntry(info, b, p, eliminated, ins);
    assert Knows(info, info');
    hide InfoOf, SoundUop, StoredEarlier, AddressStored, DataStored, ForwardedFrom;
    forall v | v in us + [u] && v in info' && ForwardedFrom(info'[v]).Some?
      ensures StoredEarlier(info', us + [u], ForwardedFrom(info'[v]).value, v)
    {
      if v == u {
        LoadFollows(info, info', us, ForwardedFrom(info'[v]).value, u);
      } else {
        assert v in us && v in SetOf(us) && info'[v] == info[v];
        StoredEarlierLater(info, info', us, ForwardedFrom(info'[v]).value, v, u);
      }
    }
  }

  lemma FlagsMore(ps: seq<ProgramUop>, info: map<nat, Info>, b: StoreTables, p: ProgramUop, eliminated: bool,
                  ins: seq<Renaming.Operand>)
    requires AllFlagged(info, ps) && p.uop.idx !in info
    ensures AllFlagged(WithUop(info, b, p, eliminated, ins), ps + [p])
  {
    hide Stored, EntryOf, InputsOf, OutputsOf;
    var info' := WithUop(info, b, p, eliminated, ins);
    forall i | 0 <= i < |ps + [p]|
      ensures Flagged(info', (ps + [p])[i])
    {
      if i < |ps| {
        assert Flagged(info, ps[i]);
      }
    }
  }

  lemma OutputsMore(info: map<nat, Info>, b: StoreTables, p: ProgramUop, eliminated: bool, ins: seq<Renaming.Operand>)
    requires OwnOutputs(info) && SoundUop(p)
    ensures OwnOutputs(WithUop(info, b, p, eliminated, ins))
  {
    hide Stored, EntryOf, InputsOf;
    var info' := WithUop(info, b, p, eliminated, ins);
    forall w, op | w in info' && op in info'[w].outputs
      ensures op.Written? && op.uop == w && PortBound(info'[w])
    {
      if w == p.uop.idx {
        assert op in OutputsOf(p, eliminated) && OutputsOf(p, eliminated) != [];
      }
    }
  }

  /** Renaming one more uop keeps what holds of the renamed uops. */
  lemma UopRenamed(ps: seq<ProgramUop>, info: map<nat, Info>, t: Renaming.Tables, b: StoreTables, p: ProgramUop,
                   eliminated: bool)
    requires WellRenamed(ps, info, t, b) && IsProgram(ps + [p]) && Renaming.CanRename(t, p.uop, eliminated)
    ensures var ins := Renaming.RenamedInputs(t, p.uop, eliminated);
            WellRenamed(ps + [p], WithUop(info, b, p, eliminated, ins), Renaming.AfterUop(t, p.uop, eliminated),
                        Stored(b, p, eliminated))
    ensures p.uop.idx !in info
  {
    var ins := Renaming.RenamedInputs(t, p.uop, eliminated);
    var info' := WithUop(info, b, p, eliminated, ins);
    NextUop(ps, p);
    assert p.uop.idx !in SetOf(Indices(ps)) && Knows(info, info');
    assert eliminated ==> p.uop.move.Some?;
    hide IsProgram, OwnOutputs, EntriesStored, AllFlagged, LoadsAfterStores, SoundUop, InfoOf, OpensEntry, KnownTables;
    hide Renaming.AfterUop, Renaming.CanRename, Renaming.RenamedInputs;
    OutputsMore(info, b, p, eliminated, ins);
    KnownLater(info, info', t);
    UopKnown(info', t, p.uop, eliminated);
    EntriesMore(ps, info, b, p, eliminated, ins);
    FlagsMore(ps, info, b, p, eliminated, ins);
    LoadsMore(ps, info, b, p, eliminated, ins);
    assert SetOf(Indices(ps) + [p.uop.idx]) == SetOf(Indices(ps)) + {p.uop.idx};
  }

  // What the back end is offered

  /** The uops that have ports. */
  ghost function Bound(info: map<nat, Info>): set<nat> {
    set w | w in info && PortBound(info[w])
  }

  /** A renamed uop reads from uops before it that have ports. */
  lemma LinkedNow(ps: seq<ProgramUop>, info: map<nat, Info>, b: StoreTables, p: ProgramUop, eliminated: bool,
                  ins: seq<Renaming.Operand>)
    requires OwnOutputs(info) && EntriesStored(info, ps, b) && IsProgram(ps + [p]) && p.uop.idx !in info
    requires PortBound(WithUop(info, b, p, eliminated, ins)[p.uop.idx])
    ensures LinkedTo(WithUop(info, b, p, eliminated, ins), Bound(info), p.uop.idx)
  {
    NextUop(ps, p);
    var info', u := WithUop(info, b, p, eliminated, ins), p.uop.idx;
    if p.isStoreAddress || p.isStoreData {
      NewStore(info, b, p, ins);
    }
    InputsWritten(info, ins);
    hide IsProgram, EntriesStored, Meaning, PortBound, OpensEntry, InputsOf, OutputsOf;
    forall op | op in info'[u].inputs && op.Written?
      ensures op.uop in Bound(info) && op.uop in info' && op in info'[op.uop].outputs
    {}
  }

  /** An operand that is not ready from the beginning is an output of a uop with a port. */
  lemma InputsWritten(info: map<nat, Info>, ins: seq<Renaming.Operand>)
    requires OwnOutputs(info)
    ensures forall op :: op in InputsOf(info, ins) && op.Written? ==>
              op.uop in Bound(info) && op.uop in info && op in info[op.uop].outputs
  {
    hide PortBound;
    forall op | op in InputsOf(info, ins) && op.Written?
      ensures op.uop in Bound(info) && op.uop in info && op in info[op.uop].outputs
    {
      var i :| 0 <= i < |ins| && InputsOf(info, ins)[i] == op;
      assert op == Meaning(info, ins[i]);
      assert op in info[ins[i].uop].outputs;
    }
  }

  lemma LinkedLater(info: map<nat, Info>, info': map<nat, Info>, known: set<nat>, u: nat)
    requires Knows(info, info') && u in info && LinkedTo(info, known, u)
    ensures LinkedTo(info', known, u)
  {}

  function UopsOf(ps: seq<ProgramUop>): (us: seq<Renaming.Uop>)
    ensures |us| == |ps| && forall i :: 0 <= i < |ps| ==> us[i] == ps[i].uop
  {
    seq(|ps|, i requires 0 <= i < |ps| => ps[i].uop)
  }

  /** Every uop has one of its possible ports chosen for it. */
  predicate PortsChosen(ps: seq<ProgramUop>, choice: map<nat, string>, ports: set<string>) {
    forall i :: 0 <= i < |ps| && ps[i].possiblePorts != [] ==>
      var u := ps[i].uop.idx;
      u in choice && choice[u] in ps[i].possiblePorts && choice[u] in ports
  }

  lemma BoundMore(info: map<nat, Info>, u: nat, i: Info)
    requires u !in info
    ensures Bound(info[u := i]) == if PortBound(i) then Bound(info) + {u} else Bound(info)
  {
    hide PortBound;
  }

  lemma SuppliedNext(info: map<nat, Info>, known: set<nat>, u: nat, us: seq<nat>, choice: map<nat, string>,
                     ports: set<string>)
    requires u in info && Supplied(info, if PortBound(info[u]) then known + {u} else known, us, choice, ports)
    requires PortBound(info[u]) ==>
               && u !in known && LinkedTo(info, known, u)
               && u in choice && choice[u] in info[u].possiblePorts && choice[u] in ports
    ensures Supplied(info, known, [u] + us, choice, ports)
  {
    hide LinkedTo;
    assert ([u] + us)[1..] == us;
  }

  lemma NoUops(info: map<nat, Info>, t: Renaming.Tables, b: StoreTables)
    ensures Renaming.CanRenameAll(t, UopsOf([]), []) && Renamer.InputsOfAll(t, UopsOf([]), []) == []
    ensures InfosAfter(info, b, [], [], []) == info && StoresAfter(b, [], []) == b
    ensures Renaming.AfterAll(t, UopsOf([]), []) == t && SetOf(Indices([])) == {}
  {
    assert UopsOf([]) == [];
  }

  lemma FirstRenamed(info: map<nat, Info>, t: Renaming.Tables, b: StoreTables, ps: seq<ProgramUop>,
                     eliminated: seq<bool>)
    requires ps != [] && |eliminated| == |ps| && Renaming.CanRenameAll(t, UopsOf(ps), eliminated)
    ensures Renaming.CanRename(t, ps[0].uop, eliminated[0])
    ensures var t', b' := Renaming.AfterUop(t, ps[0].uop, eliminated[0]), Stored(b, ps[0], eliminated[0]);
            && Renaming.CanRenameAll(t', UopsOf(ps[1..]), eliminated[1..])
            && Renaming.AfterAll(t, UopsOf(ps), eliminated) == Renaming.AfterAll(t', UopsOf(ps[1..]), eliminated[1..])
            && StoresAfter(b, ps, eliminated) == StoresAfter(b', ps[1..], eliminated[1..])
            && var ins := Renamer.InputsOfAll(t, UopsOf(ps), eliminated);
               && ins[0] == Renaming.RenamedInputs(t, ps[0].uop, eliminated[0])
               && ins[1..] == Renamer.InputsOfAll(t', UopsOf(ps[1..]), eliminated[1..])
               && InfosAfter(info, b, ps, eliminated, ins) ==
                  InfosAfter(WithUop(info, b, ps[0], eliminated[0], ins[0]), b', ps[1..], eliminated[1..], ins[1..])
  {
    hide Renaming.AfterUop, Renaming.CanRename, Renaming.RenamedInputs, WithUop, Stored;
    assert UopsOf(ps)[1..] == UopsOf(ps[1..]) && UopsOf(ps)[0] == ps[0].uop;
  }

  /** What a cycle offers: the uops renamed in it, as the scheduler asks for them. */
  ghost predicate Offered(info: map<nat, Info>, ps: seq<ProgramUop>, info': map<nat, Info>, choice: map<nat, string>,
                          ports: set<string>)
  {
    && Knows(info, info') && info'.Keys == info.Keys + SetOf(Indices(ps)) && info.Keys !! SetOf(Indices(ps))
    && Supplied(info', Bound(info), Indices(ps), choice, ports)
  }

  lemma NothingOffered(info: map<nat, Info>, choice: map<nat, string>, ports: set<string>)
    ensures Offered(info, [], info, choice, ports)
  {}

  lemma KeysNext(info: map<nat, Info>, info1: map<nat, Info>, info': map<nat, Info>, u: nat, us: seq<nat>)
    requires u in info1 && info1 == info[u := info1[u]] && u !in info
    requires Knows(info1, info') && info'.Keys == info1.Keys + SetOf(us) && info1.Keys !! SetOf(us)
    ensures Knows(info, info') && info'.Keys == info.Keys + SetOf([u] + us) && info.Keys !! SetOf([u] + us)
    ensures u in info' && info'[u] == info1[u] && Knows(info, info1)
  {
    assert SetOf([u] + us) == {u} + SetOf(us);
  }

  lemma FirstChosen(p: ProgramUop, qs: seq<ProgramUop>, choice: map<nat, string>, ports: set<string>)
    requires PortsChosen([p] + qs, choice, ports) && p.possiblePorts != []
    ensures p.uop.idx in choice && choice[p.uop.idx] in p.possiblePorts && choice[p.uop.idx] in ports
  {
    assert ([p] + qs)[0] == p;
  }

  /** One uop before others. */
  lemma OfferedNext(info: map<nat, Info>, info1: map<nat, Info>, info': map<nat, Info>, p: ProgramUop,
                    qs: seq<ProgramUop>, choice: map<nat, string>, ports: set<string>)
    requires p.uop.idx in info1 && info1 == info[p.uop.idx := info1[p.uop.idx]] && p.uop.idx !in info
    requires Offered(info1, qs, info', choice, ports) && info1[p.uop.idx].possiblePorts == p.possiblePorts
    requires PortBound(info1[p.uop.idx]) ==> LinkedTo(info1, Bound(info), p.uop.idx)
    requires PortsChosen([p] + qs, choice, ports)
    ensures Offered(info, [p] + qs, info', choice, ports)
  {
    var u := p.uop.idx;
    IndicesJoined([p], qs);
    assert Indices([p]) == [u];
    KeysNext(info, info1, info', u, Indices(qs));
    BoundMore(info, u, info1[u]);
    if p.possiblePorts != [] {
      FirstChosen(p, qs, choice, ports);
    }
    if PortBound(info1[u]) {
      hide Bound, Knows;
      LinkedLater(info1, info', Bound(info), u);
      assert u !in Bound(info) by {
        BoundKnown(info);
      }
    }
    hide LinkedTo, Supplied, PortsChosen, Knows, SetOf, Bound;
    SuppliedNext(info', Bound(info), u, Indices(qs), choice, ports);
  }

  lemma BoundKnown(info: map<nat, Info>)
    ensures Bound(info) <= info.Keys
  {}

  /** The uops of a cycle, renamed one after the other, are supplied as the scheduler asks for, and what holds of the
      renamed uops is kept. */
  lemma {:induction false} BatchRenamed(all: seq<ProgramUop>, info: map<nat, Info>, t: Renaming.Tables, b: StoreTables,
                                        ps: seq<ProgramUop>, eliminated: seq<bool>, choice: map<nat, string>,
                                        ports: set<string>)
    requires WellRenamed(all, info, t, b) && IsProgram(all + ps) && PortsChosen(ps, choice, ports)
    requires |eliminated| == |ps| && Renaming.CanRenameAll(t, UopsOf(ps), eliminated)
    ensures var info' := InfosAfter(info, b, ps, eliminated, Renamer.InputsOfAll(t, UopsOf(ps), eliminated));
            && WellRenamed(all + ps, info', Renaming.AfterAll(t, UopsOf(ps), eliminated), StoresAfter(b, ps, eliminated))
            && Offered(info, ps, info', choice, ports)
    decreases |ps|
  {
    hide WellRenamed, IsProgram, PortsChosen, WithUop, Stored, Offered, Renaming.AfterUop, Renaming.CanRename;
    hide Renaming.RenamedInputs, InfosAfter, StoresAfter, Renaming.AfterAll, Renaming.CanRenameAll, Renamer.InputsOfAll;
    if ps == [] {
      NoUops(info, t, b);
      NothingOffered(info, choice, ports);
      assert all + ps == all && eliminated == [];
    } else {
      var p, qs, e := ps[0], ps[1..], eliminated[0];
      FirstRenamed(info, t, b, ps, eliminated);
      var ins := Renaming.RenamedInputs(t, p.uop, e);
      var info1, t1, b1 := WithUop(info, b, p, e, ins), Renaming.AfterUop(t, p.uop, e), Stored(b, p, e);
      assert all + [p] + qs == all + ps && [p] + qs == ps;
      ProgramPrefix(all + [p], qs);
      UopRenamed(all, info, t, b, p, e);
      LaterChosen(p, qs, choice, ports);
      BatchRenamed(all + [p], info1, t1, b1, qs, eliminated[1..], choice, ports);
      NewLinked(all, info, t, b, p, e, ins);
      var later := Renamer.InputsOfAll(t1, UopsOf(qs), eliminated[1..]);
      OfferedNext(info, info1, InfosAfter(info1, b1, qs, eliminated[1..], later), p, qs, choice, ports);
    }
  }

  lemma LaterChosen(p: ProgramUop, qs: seq<ProgramUop>, choice: map<nat, string>, ports: set<string>)
    requires PortsChosen([p] + qs, choice, ports)
    ensures PortsChosen(qs, choice, ports)
  {
    assert ([p] + qs)[1..] == qs;
  }

  lemma NewLinked(ps: seq<ProgramUop>, info: map<nat, Info>, t: Renaming.Tables, b: StoreTables, p: ProgramUop,
                  eliminated: bool, ins: seq<Renaming.Operand>)
    requires WellRenamed(ps, info, t, b) && IsProgram(ps + [p]) && p.uop.idx !in info
    ensures var info', u := WithUop(info, b, p, eliminated, ins), p.uop.idx;
            && u in info' && info' == info[u := info'[u]] && info'[u].possiblePorts == p.possiblePorts
            && (PortBound(info'[u]) ==> LinkedTo(info', Bound(info), u))
  {
    hide IsProgram, EntriesStored, OwnOutputs, LinkedTo;
    if PortBound(WithUop(info, b, p, eliminated, ins)[p.uop.idx]) {
      LinkedNow(ps, info, b, p, eliminated, ins);
    }
  }
}

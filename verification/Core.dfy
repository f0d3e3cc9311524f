/** Renamer and back end together (the first part of `FrontEnd.cycle` in uiCA.py): what is asked of a run is a program,
    and everything that the back end counts on follows from renaming it. */
module Core {
  import opened Wrappers
  import opened Uops
  import opened SchedulerTokens
  import opened SchedulerSteps
  import opened BackEnd
  import opened BackEndRuns
  import opened BackEndProgress
  import opened RenamedProgram
  import UopSteps
  import SchedulerChoices
  import Scheduler
  import Reorder = ReorderBuffer
  import Renaming
  import Renamer

  /** A uop of the fused domain, before it is renamed. */
  datatype Bundle = Bundle(idx: nat, uops: seq<ProgramUop>)

  function UopsIn(bs: seq<Bundle>): seq<ProgramUop> {
    if bs == [] then [] else bs[0].uops + UopsIn(bs[1..])
  }

  function Fused(bs: seq<Bundle>): (fs: seq<FusedUop>)
    ensures |fs| == |bs| && forall i :: 0 <= i < |bs| ==> fs[i] == FusedUop(bs[i].idx, Indices(bs[i].uops))
  {
    seq(|bs|, i requires 0 <= i < |bs| => FusedUop(bs[i].idx, Indices(bs[i].uops)))
  }

  lemma {:induction false} UnfusedIs(bs: seq<Bundle>)
    ensures Unfused(Fused(bs)) == Indices(UopsIn(bs))
  {
    if bs != [] {
      UnfusedIs(bs[1..]);
      assert Fused(bs)[1..] == Fused(bs[1..]);
      IndicesJoined(bs[0].uops, UopsIn(bs[1..]));
    }
  }

  // A cycle as a relation on values

  /** What renamer and back end hold between two cycles, and the uops renamed so far. */
  datatype CoreState = CoreState(program: seq<ProgramUop>, tables: Renaming.Tables, stores: StoreTables, back: Snapshot)

  /** What the program gives in a cycle: the uops that come next, with a port for each of those that have any. */
  ghost predicate Given(m: Machine, s: CoreState, bs: seq<Bundle>, choice: map<nat, string>) {
    && IsProgram(s.program + UopsIn(bs)) && PortsChosen(UopsIn(bs), choice, s.back.usage.Keys)
    && Reorder.DistinctIdx(s.back.issued + Fused(bs)) && |bs| <= m.rc.issueWidth
  }

  /** Uops are renamed unless a buffer behind the renamer is full. */
  function Taken(m: Machine, s: CoreState, bs: seq<Bundle>): seq<Bundle> {
    if RoomFor(m, s.back) then bs else []
  }

  /** What the renamed uops are for the back end. */
  function OfferOf(s: CoreState, bs: seq<Bundle>, eliminated: seq<bool>, ins: seq<seq<Renaming.Operand>>,
                   choice: map<nat, string>): Offer
    requires |eliminated| == |ins| == |UopsIn(bs)|
  {
    var info := s.back.t.info;
    Offer(Fused(bs), InfosAfter(info, s.stores, UopsIn(bs), eliminated, ins) - info.Keys, choice)
  }

  /** What renaming determines in a cycle. */
  ghost predicate RenamesTo(s: CoreState, bs: seq<Bundle>, eliminated: seq<bool>, s': CoreState) {
    var ps := UopsIn(bs);
    && |eliminated| == |ps| && Renaming.CanRenameAll(s.tables, UopsOf(ps), eliminated)
    && s'.program == s.program + ps && s'.tables == Renaming.AfterAll(s.tables, UopsOf(ps), eliminated)
    && s'.stores == StoresAfter(s.stores, ps, eliminated)
  }

  ghost function Renamed(s: CoreState, bs: seq<Bundle>, eliminated: seq<bool>, choice: map<nat, string>): Offer
    requires |eliminated| == |UopsIn(bs)| && Renaming.CanRenameAll(s.tables, UopsOf(UopsIn(bs)), eliminated)
  {
    OfferOf(s, bs, eliminated, Renamer.InputsOfAll(s.tables, UopsOf(UopsIn(bs)), eliminated), choice)
  }

  /** A cycle of renamer and back end. */
  ghost predicate Turns(m: Machine, s: CoreState, bs: seq<Bundle>, choice: map<nat, string>, s': CoreState, clock: nat,
                        eliminated: seq<bool>, course: SchedulerChoices.Course)
  {
    var a := Taken(m, s, bs);
    && Given(m, s, bs, choice) && RenamesTo(s, a, eliminated, s')
    && Holds(m, s.back, clock) && Holds(m, s'.back, clock + 1)
    && Takes(m, s.back, Renamed(s, a, eliminated, choice), s'.back, clock, course)
  }

  ghost predicate CoreStarts(m: Machine, s: CoreState) {
    s.program == [] && s.tables == Renaming.NO_TABLES && s.stores == NO_STORES && Starts(m, s.back)
  }

  /** The back end has just the renamed uops, with what renaming has made of them. */
  ghost predicate Coherent(s: CoreState) {
    && WellRenamed(s.program, s.back.t.info, s.tables, s.stores) && Kept(s.back)
    && All(s.back) == Indices(s.program)
  }

  lemma StartCoherent(m: Machine, s: CoreState)
    requires CoreStarts(m, s)
    ensures Coherent(s)
  {
    StartKeeps(m, s.back);
    NothingRenamed();
    hide Kept, Holds;
    assert Indices([]) == [];
  }

  // What is offered is what the back end asks for

  lemma TakenGiven(m: Machine, s: CoreState, bs: seq<Bundle>, choice: map<nat, string>)
    requires Given(m, s, bs, choice)
    ensures Given(m, s, Taken(m, s, bs), choice)
  {
    hide IsProgram;
    ProgramPrefix(s.program, UopsIn(bs));
    assert s.program + [] == s.program;
    assert forall i :: 0 <= i < |s.back.issued| ==> s.back.issued[i] == (s.back.issued + Fused(bs))[i];
  }

  /** The uops with ports are those that have been bound to one. */
  lemma BoundIs(m: Machine, s: Snapshot, next: nat)
    requires Holds(m, s, next) && Kept(s)
    ensures Bound(s.t.info) == s.t.actualPort.Keys
  {
    HoldsSound(m, s, next);
    EnrolledKeys(s.t, All(s));
    hide Holds, InDataflowOrder, AllStored, Guarded, AllExecuted, PortBound;
    forall w | w in s.t.info && PortBound(s.t.info[w])
      ensures w in s.t.actualPort
    {
      assert w in SetOf(All(s)) && PortOrDone(s.t, w);
    }
  }

  lemma OfferWellFormed(o: Offer, t: Table, issued: seq<FusedUop>, ports: set<string>, ps: seq<ProgramUop>,
                        info': map<nat, Info>)
    requires Offered(t.info, ps, info', o.choice, ports) && o.infos == info' - t.info.Keys
    requires Unfused(o.fused) == Indices(ps) && NoDuplicates(Indices(ps)) && Reorder.DistinctIdx(issued + o.fused)
    requires Bound(t.info) == t.actualPort.Keys && t.issued.Keys == t.info.Keys && t.executed.Keys <= t.info.Keys
    ensures WellFormed(o, t, issued, ports) && t.info + o.infos == info'
  {
    hide Supplied, NoDuplicates, Reorder.DistinctIdx, Bound;
    assert t.info + o.infos == info';
    assert o.infos.Keys == SetOf(Indices(ps));
  }

  lemma LaterDistinct(ps: seq<ProgramUop>, qs: seq<ProgramUop>)
    requires IsProgram(ps + qs)
    ensures NoDuplicates(Indices(qs))
  {
    hide SoundUop;
    IndicesJoined(ps, qs);
    var all := Indices(ps + qs);
    forall i, j | 0 <= i < j < |qs|
      ensures Indices(qs)[i] != Indices(qs)[j]
    {
      assert all[|ps| + i] == Indices(qs)[i] && all[|ps| + j] == Indices(qs)[j];
    }
  }

  /** Renaming meets what the back end asks of an offer. */
  lemma RenamedFits(m: Machine, s: CoreState, bs: seq<Bundle>, choice: map<nat, string>, eliminated: seq<bool>,
                    s': CoreState, clock: nat)
    requires Coherent(s) && Holds(m, s.back, clock) && Given(m, s, bs, choice) && RenamesTo(s, bs, eliminated, s')
    ensures var o := Renamed(s, bs, eliminated, choice);
            && WellFormed(o, s.back.t, s.back.issued, s.back.usage.Keys)
            && WellRenamed(s'.program, s.back.t.info + o.infos, s'.tables, s'.stores)
  {
    var ps, t := UopsIn(bs), s.back.t;
    BoundIs(m, s.back, clock);
    EnrolledKeys(t, All(s.back));
    UnfusedIs(bs);
    LaterDistinct(s.program, ps);
    hide Holds, Kept, IsProgram, WellRenamed, WellFormed, Offered, Bound, InfosAfter, StoresAfter, PortsChosen;
    hide NoDuplicates, Reorder.DistinctIdx, Renamer.InputsOfAll, Renaming.AfterAll, Renaming.CanRenameAll, UopsIn;
    hide Unfused;
    BatchRenamed(s.program, t.info, s.tables, s.stores, ps, eliminated, choice, s.back.usage.Keys);
    OfferWellFormed(Renamed(s, bs, eliminated, choice), t, s.back.issued, s.back.usage.Keys, ps,
                    InfosAfter(t.info, s.stores, ps, eliminated,
                               Renamer.InputsOfAll(s.tables, UopsOf(ps), eliminated)));
  }

  // Runs of both are runs of the back end

  /** What the back end takes is what was offered, be it that nothing was renamed. */
  lemma TakenAccepted(m: Machine, s: CoreState, bs: seq<Bundle>, choice: map<nat, string>, eliminated: seq<bool>,
                      s': CoreState)
    requires RenamesTo(s, Taken(m, s, bs), eliminated, s')
    ensures var o := Renamed(s, Taken(m, s, bs), eliminated, choice);
            && Accepted(m, s.back, o).fused == o.fused && Accepted(m, s.back, o).infos == o.infos
  {
    hide InfosAfter, Renaming.CanRenameAll, Renamer.InputsOfAll;
    if !RoomFor(m, s.back) {
      var ins := Renamer.InputsOfAll(s.tables, UopsOf(UopsIn([])), eliminated);
      assert InfosAfter(s.back.t.info, s.stores, [], eliminated, ins) == s.back.t.info by {
        NothingAdded(s.back.t.info, s.stores, eliminated, ins);
      }
      assert s.back.t.info - s.back.t.info.Keys == map[];
    }
  }

  lemma NothingAdded(info: map<nat, Info>, b: StoreTables, eliminated: seq<bool>, ins: seq<seq<Renaming.Operand>>)
    requires |eliminated| == |ins| == 0
    ensures InfosAfter(info, b, [], eliminated, ins) == info
  {}

  /** A cycle of both is a cycle of the back end, and keeps both coherent. */
  lemma TurnKeeps(m: Machine, s: CoreState, bs: seq<Bundle>, choice: map<nat, string>, s': CoreState, clock: nat,
                  eliminated: seq<bool>, course: SchedulerChoices.Course)
    requires Turns(m, s, bs, choice, s', clock, eliminated, course) && Coherent(s)
    ensures Steps(m, s.back, Renamed(s, Taken(m, s, bs), eliminated, choice), s'.back, clock, course)
    ensures Coherent(s')
  {
    var a := Taken(m, s, bs);
    var o := Renamed(s, a, eliminated, choice);
    TakenGiven(m, s, bs, choice);
    RenamedFits(m, s, a, choice, eliminated, s', clock);
    TakenAccepted(m, s, bs, choice, eliminated, s');
    assert |o.fused| <= m.rc.issueWidth;
    hide Given, Renamed, WellRenamed, WellFormed, Holds, Takes, Kept, Taken;
    UnfusedIs(a);
    IndicesJoined(s.program, UopsIn(a));
    BackCoherent(m, s, o, s', clock, course);
  }

  lemma BackCoherent(m: Machine, s: CoreState, o: Offer, s': CoreState, clock: nat, course: SchedulerChoices.Course)
    requires Steps(m, s.back, o, s'.back, clock, course) && Coherent(s)
    requires Accepted(m, s.back, o).fused == o.fused && Accepted(m, s.back, o).infos == o.infos
    requires WellRenamed(s'.program, s.back.t.info + o.infos, s'.tables, s'.stores)
    requires Indices(s'.program) == Indices(s.program) + Unfused(o.fused)
    ensures Coherent(s')
  {
    hide WellRenamed, Kept, Accepted, Steps, Orderly;
    CycleInfos(m, s.back, o, s'.back, clock, course);
    RenamedOrderly(s'.program, s'.back.t.info, s'.tables, s'.stores);
    CycleKeeps(m, s.back, o, s'.back, clock, course);
  }

  lemma CycleInfos(m: Machine, s: Snapshot, o: Offer, s': Snapshot, clock: nat, course: SchedulerChoices.Course)
    requires Steps(m, s, o, s', clock, course)
    ensures s'.t.info == s.t.info + Accepted(m, s, o).infos && All(s') == All(s) + Arrivals(m, s, o)
  {
    CycleConnects(m, s, o, s', clock, course);
    CycleArrives(m, s, o, s', clock, course);
    hide Steps, Accepted, Arrivals, Later;
  }

  // Whole runs

  /** A run of renamer and back end on a program: in every cycle it is given bundles of uops and ports for them. */
  datatype Run = Run(state: nat -> CoreState, bundles: nat -> seq<Bundle>, choice: nat -> map<nat, string>,
                     eliminated: nat -> seq<bool>, course: nat -> SchedulerChoices.Course)

  ghost predicate TurnsAt(m: Machine, r: Run, n: nat) {
    Turns(m, r.state(n), r.bundles(n), r.choice(n), r.state(n + 1), n, r.eliminated(n), r.course(n))
  }

  ghost predicate IsCoreRun(m: Machine, r: Run) {
    CoreStarts(m, r.state(0)) && forall n :: TurnsAt(m, r, n)
  }

  ghost function OfferAt(m: Machine, r: Run, n: nat): Offer {
    var s := r.state(n);
    var a := Taken(m, s, r.bundles(n));
    if |r.eliminated(n)| == |UopsIn(a)| && Renaming.CanRenameAll(s.tables, UopsOf(UopsIn(a)), r.eliminated(n))
    then Renamed(s, a, r.eliminated(n), r.choice(n)) else NO_OFFER
  }

  lemma {:induction false} RunCoherent(m: Machine, r: Run, n: nat)
    requires IsCoreRun(m, r)
    ensures Coherent(r.state(n))
  {
    hide Coherent, Turns, CoreStarts;
    if n == 0 {
      StartCoherent(m, r.state(0));
    } else {
      RunCoherent(m, r, n - 1);
      assert TurnsAt(m, r, n - 1);
      TurnKeeps(m, r.state(n - 1), r.bundles(n - 1), r.choice(n - 1), r.state(n), n - 1, r.eliminated(n - 1),
                r.course(n - 1));
    }
  }

  ghost function BackStates(r: Run): nat -> Snapshot {
    (n: nat) => r.state(n).back
  }

  ghost function Offers(m: Machine, r: Run): nat -> Offer {
    (n: nat) => OfferAt(m, r, n)
  }

  lemma StepsAt(m: Machine, r: Run, n: nat)
    requires IsCoreRun(m, r)
    ensures Steps(m, r.state(n).back, OfferAt(m, r, n), r.state(n + 1).back, n, r.course(n))
    ensures Orderly(r.state(n).back.t.info, All(r.state(n).back))
  {
    RunCoherent(m, r, n);
    hide Steps, Orderly, Kept, WellRenamed, Given, Holds, Takes;
    assert TurnsAt(m, r, n);
    TurnKeeps(m, r.state(n), r.bundles(n), r.choice(n), r.state(n + 1), n, r.eliminated(n), r.course(n));
    RenamedOrderly(r.state(n).program, r.state(n).back.t.info, r.state(n).tables, r.state(n).stores);
  }

  /** The back end of a run of both runs, and what it is offered is a program. */
  lemma RunsBackEnd(m: Machine, r: Run)
    requires IsCoreRun(m, r)
    ensures IsRun(m, BackStates(r), Offers(m, r), r.course) && OfProgram(BackStates(r))
  {
    hide Steps, Orderly, OfferAt, TurnsAt;
    forall n: nat
      ensures Steps(m, BackStates(r)(n), Offers(m, r)(n), BackStates(r)(n + 1), n, r.course(n))
      ensures Orderly(BackStates(r)(n).t.info, All(BackStates(r)(n)))
    {
      StepsAt(m, r, n);
    }
  }

  /** Whatever the program and its ports, every renamed uop retires in the end. */
  lemma EveryRenamedUopRetires(m: Machine, r: Run, n: nat, i: nat)
    requires IsCoreRun(m, r) && "0" in m.sc.ports && m.rc.retireWidth > 0 && i < |r.state(n).back.issued|
    ensures exists k :: n <= k && i < |r.state(k).back.retired| &&
                        r.state(k).back.retired[i] == r.state(n).back.issued[i]
  {
    RunsBackEnd(m, r);
    hide IsCoreRun, IsRun, OfProgram;
    EveryUopRetires(m, BackStates(r), Offers(m, r), r.course, n, i);
    var k :| n <= k && i < |BackStates(r)(k).retired| && BackStates(r)(k).retired[i] == BackStates(r)(n).issued[i];
    assert n <= k && i < |r.state(k).back.retired| && r.state(k).back.retired[i] == r.state(n).back.issued[i];
  }

  /** And every one is executed, after it has been dispatched if it is bound to a port. */
  lemma EveryRenamedUopIsExecuted(m: Machine, r: Run, n: nat, p: ProgramUop)
    requires IsCoreRun(m, r) && "0" in m.sc.ports && m.rc.retireWidth > 0 && p in r.state(n).program
    ensures exists k :: IsDone(r.state(k).back.t, p.uop.idx)
  {
    RunsBackEnd(m, r);
    RunCoherent(m, r, n);
    hide IsCoreRun, IsRun, OfProgram;
    UopKnownHere(r.state(n), p);
    hide Coherent;
    var u := p.uop.idx;
    EveryUopIsExecuted(m, BackStates(r), Offers(m, r), r.course, n, u);
    var k :| u in BackStates(r)(k).t.executed &&
             (u in BackStates(r)(k).t.actualPort ==> u in BackStates(r)(k).t.dispatched);
    assert IsDone(r.state(k).back.t, u);
  }

  lemma UopKnownHere(s: CoreState, p: ProgramUop)
    requires Coherent(s) && p in s.program
    ensures p.uop.idx in s.back.t.info
  {
    hide Kept, IsProgram, OwnOutputs, KnownTables, EntriesStored, AllFlagged, LoadsAfterStores;
    var i :| 0 <= i < |s.program| && s.program[i] == p;
    assert Indices(s.program)[i] == p.uop.idx && p.uop.idx in SetOf(Indices(s.program));
  }

  /** Again and again uops are renamed, so that a program gets through as a whole. */
  lemma RenamedAgain(m: Machine, r: Run, n: nat)
    requires IsCoreRun(m, r) && "0" in m.sc.ports && m.rc.retireWidth > 0
    requires m.rc.issueWidth <= m.rc.rbWidth && m.sc.issueWidth <= m.sc.rsWidth
    ensures exists k :: n <= k && Taken(m, r.state(k), r.bundles(k)) == r.bundles(k)
  {
    RunsBackEnd(m, r);
    hide IsCoreRun, IsRun, OfProgram, RoomFor;
    RoomAgain(m, BackStates(r), Offers(m, r), r.course, n);
    var k :| n <= k && RoomFor(m, BackStates(r)(k));
    assert Taken(m, r.state(k), r.bundles(k)) == r.bundles(k);
  }

  /** The uop has been executed, after it has been dispatched if it is bound to a port. */
  ghost predicate IsDone(t: Table, u: nat) {
    u in t.executed && (u in t.actualPort ==> u in t.dispatched)
  }

  lemma InfosNext(info: map<nat, Info>, b: StoreTables, ps: seq<ProgramUop>, eliminated: seq<bool>,
                  ins: seq<seq<Renaming.Operand>>, i: nat)
    requires |eliminated| == |ins| == |ps| && i < |ps|
    ensures var b' := Stored(b, ps[i], eliminated[i]);
            && InfosAfter(info, b, ps[i..], eliminated[i..], ins[i..]) ==
               InfosAfter(WithUop(info, b, ps[i], eliminated[i], ins[i]), b', ps[i + 1..], eliminated[i + 1..],
                          ins[i + 1..])
            && StoresAfter(b, ps[i..], eliminated[i..]) == StoresAfter(b', ps[i + 1..], eliminated[i + 1..])
  {
    hide WithUop, Stored;
    assert ps[i..][1..] == ps[i + 1..] && eliminated[i..][1..] == eliminated[i + 1..] && ins[i..][1..] == ins[i + 1..];
  }

  lemma NothingTaken(s: CoreState, choice: map<nat, string>)
    ensures RenamesTo(s, [], [], s) && Renamed(s, [], [], choice) == Offer([], map[], choice)
  {
    var ins := Renamer.InputsOfAll(s.tables, UopsOf(UopsIn([])), []);
    NothingAdded(s.back.t.info, s.stores, [], ins);
    assert UopsOf([]) == [] && s.program + [] == s.program;
    assert s.back.t.info - s.back.t.info.Keys == map[];
  }

  lemma RenamedFused(s: CoreState, bs: seq<Bundle>, choice: map<nat, string>, eliminated: seq<bool>, s': CoreState)
    requires RenamesTo(s, bs, eliminated, s')
    ensures Renamed(s, bs, eliminated, choice).fused == Fused(bs)
  {
    hide InfosAfter, StoresAfter, UopsIn, Renaming.CanRenameAll, Renaming.AfterAll, Renamer.InputsOfAll;
  }

  lemma SameRenamed(s: CoreState, bs: seq<Bundle>, eliminated: seq<bool>, t: CoreState, s': CoreState)
    requires RenamesTo(s, bs, eliminated, t) && s' == t.(back := s'.back)
    ensures RenamesTo(s, bs, eliminated, s')
  {
    hide InfosAfter, StoresAfter, UopsIn, Renaming.CanRenameAll, Renaming.AfterAll, Renamer.InputsOfAll;
  }

  lemma RoomTaken(m: Machine, s: CoreState, bs: seq<Bundle>)
    ensures Taken(m, s, bs) == if RoomFor(m, s.back) then bs else []
  {}

  class Core {
    const renamer: Renamer.Renamer
    const backEnd: BackEnd
    var curStoreBufferEntry: Option<StoreBufferEntry>
    var storeBufferEntryDict: map<Option<Address>, StoreBufferEntry>
    ghost var program: seq<ProgramUop>

    constructor (nc: Renamer.Config, rc: Reorder.Config, sc: Scheduler.Config)
      requires SchedulerChoices.Distinct(sc.ports)
      ensures Valid(0) && backEnd.Parts() == Machine(rc, sc) && CoreStarts(backEnd.Parts(), State())
    {
      hide Starts, BackEnd.Valid, Renamer.Renamer.Valid, Coherent, SchedulerChoices.Distinct;
      renamer := new Renamer.Renamer(nc);
      backEnd := new BackEnd(rc, sc);
      curStoreBufferEntry, storeBufferEntryDict, program := None, map[], [];
      new;
      StartCoherent(backEnd.Parts(), State());
    }

    function Stores(): StoreTables
      reads `curStoreBufferEntry, `storeBufferEntryDict
    {
      StoreTables(curStoreBufferEntry, storeBufferEntryDict)
    }

    ghost function State(): CoreState
      reads this, renamer, backEnd, backEnd.storage, backEnd.reorderBuffer, backEnd.scheduler
    {
      CoreState(program, renamer.Tables(), Stores(), backEnd.Snap())
    }

    ghost predicate Valid(next: nat)
      reads this, renamer, backEnd, backEnd.storage, backEnd.reorderBuffer, backEnd.scheduler
    {
      renamer.Valid() && backEnd.Valid(next) && Coherent(State())
    }

    /** Gives renamed uops their operands and their entries of the store buffer. */
    method RenameOperands(known: map<nat, Info>, ps: seq<ProgramUop>, eliminated: seq<bool>,
                          ins: seq<seq<Renaming.Operand>>)
      returns (info: map<nat, Info>)
      requires |eliminated| == |ins| == |ps|
      modifies `curStoreBufferEntry, `storeBufferEntryDict
      ensures info == InfosAfter(known, old(Stores()), ps, eliminated, ins)
      ensures Stores() == StoresAfter(old(Stores()), ps, eliminated)
    {
      hide InfosAfter, StoresAfter, InfoOf;
      info := known;
      assert ps[0..] == ps && eliminated[0..] == eliminated && ins[0..] == ins;
      for i := 0 to |ps|
        invariant InfosAfter(info, Stores(), ps[i..], eliminated[i..], ins[i..]) ==
                  InfosAfter(known, old(Stores()), ps, eliminated, ins)
        invariant StoresAfter(Stores(), ps[i..], eliminated[i..]) == StoresAfter(old(Stores()), ps, eliminated)
      {
        var p := ps[i];
        InfosNext(info, Stores(), ps, eliminated, ins, i);
        if !eliminated[i] && p.uop.hasUops && p.isStoreAddress {
          curStoreBufferEntry := Some(StoreBufferEntry(p.uop.idx, p.key));
          storeBufferEntryDict := storeBufferEntryDict[p.key := curStoreBufferEntry.value];
        }
        info := info[p.uop.idx := InfoOf(info, Stores(), p, eliminated[i], ins[i])];
      }
      NoneLeft(info, Stores(), ps, eliminated, ins);
    }

    /** Renames the uops that come next. */
    method Rename(bs: seq<Bundle>, choice: map<nat, string>) returns (offer: Offer, eliminated: seq<bool>)
      requires renamer.Valid()
      requires Renamer.WellFormed(UopsOf(UopsIn(bs)), renamer.curInstrPseudoOpDict.Keys, renamer.atStart, renamer.seen)
      modifies this, renamer
      ensures renamer.Valid() && RenamesTo(old(State()), bs, eliminated, State())
      ensures offer == Renamed(old(State()), bs, eliminated, choice)
    {
      hide Renamer.Renamer.Valid, Renamer.WellFormed, Renaming.CanRenameAll, Renaming.AfterAll, Renamer.InputsOfAll;
      hide InfosAfter, StoresAfter, UopsIn;
      var ps := UopsIn(bs);
      var ins;
      eliminated, ins := renamer.Cycle(UopsOf(ps));
      var known := backEnd.storage.t.info;
      var info := RenameOperands(known, ps, eliminated, ins);
      program := program + ps;
      offer := Offer(Fused(bs), info - known.Keys, choice);
    }

    /** One clock cycle: unless a buffer is full the uops that come next are renamed; then the back end goes through a
        cycle with them. */
    method Cycle(clock: nat, bs: seq<Bundle>, choice: map<nat, string>)
      returns (issued: seq<FusedUop>, ghost eliminated: seq<bool>, ghost course: SchedulerChoices.Course)
      requires Valid(clock) && Given(backEnd.Parts(), State(), bs, choice)
      requires Renamer.WellFormed(UopsOf(UopsIn(bs)), renamer.curInstrPseudoOpDict.Keys, renamer.atStart, renamer.seen)
      modifies this, renamer, backEnd.storage, backEnd.reorderBuffer, backEnd.scheduler
      ensures Valid(clock + 1) && issued == Fused(Taken(backEnd.Parts(), old(State()), bs))
      ensures Turns(backEnd.Parts(), old(State()), bs, choice, State(), clock, eliminated, course)
    {
      hide Renamer.Renamer.Valid, Renamer.WellFormed, BackEnd.Valid, RenamesTo, Renamed, Coherent, WellFormed;
      hide Holds, Takes, Taken, IsProgram, PortsChosen, Reorder.DistinctIdx, UopsIn;
      ghost var m, s := backEnd.Parts(), State();
      backEnd.SnapHolds(clock);
      TakenGiven(m, s, bs, choice);
      NothingTaken(s, choice);
      var offer := Offer([], map[], choice);
      eliminated := [];
      if backEnd.CanIssue() {
        offer, eliminated := Rename(bs, choice);
      }
      ghost var t := State();
      RoomTaken(m, s, bs);
      RenamedFused(s, Taken(m, s, bs), choice, eliminated, t);
      RenamedFits(m, s, Taken(m, s, bs), choice, eliminated, t, clock);
      TakenAccepted(m, s, bs, choice, eliminated, t);
      issued, course := backEnd.Cycle(clock, offer);
      SameRenamed(s, Taken(m, s, bs), eliminated, t, State());
      TurnKeeps(m, s, bs, choice, State(), clock, eliminated, course);
    }
  }

  lemma NoneLeft(info: map<nat, Info>, b: StoreTables, ps: seq<ProgramUop>, eliminated: seq<bool>,
                 ins: seq<seq<Renaming.Operand>>)
    requires |eliminated| == |ins| == |ps|
    ensures InfosAfter(info, b, ps[|ps|..], eliminated[|ps|..], ins[|ps|..]) == info
    ensures StoresAfter(b, ps[|ps|..], eliminated[|ps|..]) == b
  {}
}

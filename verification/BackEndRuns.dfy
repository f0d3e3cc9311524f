/** What holds throughout the runs of the back end of a program whose uops are numbered and paired as `Renamer` and
    `generateUops` do it. */
module BackEndRuns {
  import opened Wrappers
  import opened Uops
  import opened UopSteps
  import opened SchedulerTokens
  import opened SchedulerState
  import opened SchedulerSteps
  import opened SchedulerDispatch
  import opened SchedulerExecution
  import opened SchedulerChoices
  import opened BackEnd
  import Reorder = ReorderBuffer

  // The program

  /** Loads wait for load fences, stores for store fences. */
  datatype Side = Loads | Stores

  predicate IsFence(i: Info, d: Side) {
    i.isFirstOfInstr && if d == Loads then i.isLoadSerializing else i.isStoreSerializing
  }

  predicate IsAccess(i: Info, d: Side) {
    if d == Loads then i.isLoad else i.isStoreData || i.isStoreAddress
  }

  /** The uop reads from the store buffer. */
  predicate Forwarded(i: Info) {
    ForwardedFrom(i).Some?
  }

  /** The uops of fences may load and store, but they do not read from the store buffer. */
  predicate FencesDirect(i: Info) {
    i.isLoadSerializing || i.isStoreSerializing ==> !Forwarded(i)
  }

  predicate InProgramOrder(i: Info) {
    IsFence(i, Loads) || IsFence(i, Stores) || IsAccess(i, Loads) || IsAccess(i, Stores)
  }

  ghost predicate Earlier(us: seq<nat>, v: nat, u: nat) {
    exists i, j :: 0 <= i < j < |us| && us[i] == v && us[j] == u
  }

  /** The uop stores the address or the data of an entry of the store buffer. */
  predicate StoresTo(i: Info, e: nat) {
    PortBound(i) && i.entry.Some? && i.entry.value.id == e
  }

  ghost predicate StoredEarlier(info: map<nat, Info>, us: seq<nat>, e: nat, u: nat) {
    && (exists a :: Earlier(us, a, u) && a in info && StoresTo(info[a], e) && info[a].isStoreAddress)
    && (exists d :: Earlier(us, d, u) && d in info && StoresTo(info[d], e) && info[d].isStoreData)
  }

  ghost predicate OrderedAt(info: map<nat, Info>, us: seq<nat>, i: nat, j: nat)
    requires i < |us| && j < |us|
  {
    us[i] in info && us[j] in info && InProgramOrder(info[us[i]]) && InProgramOrder(info[us[j]]) && i < j ==>
      us[i] < us[j]
  }

  ghost predicate AllOrdered(info: map<nat, Info>, us: seq<nat>) {
    forall i, j :: 0 <= i < |us| && 0 <= j < |us| ==> OrderedAt(info, us, i, j)
  }

  /** What the renamer makes of a program: memory uops and fences are numbered in program order, and a load that reads
      from an entry of the store buffer comes after the uops that store its address and its data. */
  ghost predicate Orderly(info: map<nat, Info>, us: seq<nat>) {
    && (forall u :: u in us && u in info ==> FencesDirect(info[u]))
    && (forall u :: u in us && u in info && ForwardedFrom(info[u]).Some? ==>
          StoredEarlier(info, us, ForwardedFrom(info[u]).value, u))
    && AllOrdered(info, us)
  }

  // What holds throughout a run

  function All(s: Snapshot): seq<nat> {
    Unfused(s.issued)
  }

  /** A uop with a port is bound to one, any other is executed at once. */
  ghost predicate PortOrDone(t: Table, u: nat) {
    u in t.info && if PortBound(t.info[u]) then u in t.actualPort else u in t.executed
  }

  /** The known uops are the issued ones. */
  ghost predicate Enrolled(t: Table, us: seq<nat>) {
    && NoDuplicates(us) && t.issued.Keys == t.info.Keys == SetOf(us) && t.executed.Keys <= t.info.Keys
    && forall u :: u in us ==> PortOrDone(t, u)
  }

  /** Every uop comes after the uops that it reads from. */
  ghost predicate InDataflowOrder(t: Table, us: seq<nat>) {
    forall u, op :: u in t.actualPort && u in t.info && op in t.info[u].inputs && op.Written? ==> Earlier(us, op.uop, u)
  }

  ghost predicate AllStored(t: Table) {
    forall u :: u in t.executed && u in t.actualPort ==> u in t.info && StoredBy(t, u)
  }

  function Fences(g: Guards, d: Side): seq<nat> {
    if d == Loads then g.loadFences else g.storeFences
  }

  function Accesses(g: Guards, d: Side): seq<nat> {
    if d == Loads then g.loads else g.stores
  }

  predicate Ascending(us: seq<nat>) {
    forall i, j :: 0 <= i < j < |us| ==> us[i] < us[j]
  }

  ghost predicate FenceIn(t: Table, f: nat, d: Side) {
    f in t.actualPort && f in t.info && IsFence(t.info[f], d)
  }

  ghost predicate AccessIn(t: Table, v: nat, d: Side) {
    v in t.readyForDispatch && v in t.actualPort && v in t.info && IsAccess(t.info[v], d)
  }

  ghost predicate AccessBefore(t: Table, v: nat, f: nat) {
    v in t.info && Forwarded(t.info[v]) ==> v < f
  }

  /** The pending fences are in program order, the noted loads or stores have become ready, and those that read from the
      store buffer come before the fences. */
  ghost predicate GuardedBy(t: Table, fences: seq<nat>, accesses: seq<nat>, d: Side) {
    && Ascending(fences) && (forall f :: f in fences ==> FenceIn(t, f, d))
    && (forall v :: v in accesses ==> AccessIn(t, v, d))
    && forall v, f :: v in accesses && f in fences ==> AccessBefore(t, v, f)
  }

  ghost predicate Guarded(t: Table, g: Guards, d: Side) {
    GuardedBy(t, Fences(g, d), Accesses(g, d), d)
  }

  /** The uops that have retired have been executed. */
  ghost predicate AllExecuted(t: Table, us: seq<nat>) {
    forall u :: u in us ==> u in t.executed
  }

  ghost predicate Kept(s: Snapshot) {
    && Enrolled(s.t, All(s)) && InDataflowOrder(s.t, All(s)) && AllStored(s.t)
    && Guarded(s.t, s.g, Loads) && Guarded(s.t, s.g, Stores) && AllExecuted(s.t, Unfused(s.retired))
  }

  // A cycle

  /** The uops that are issued in a cycle. */
  ghost function Arrivals(m: Machine, s: Snapshot, o: Offer): seq<nat> {
    Unfused(Accepted(m, s, o).fused)
  }

  /** How the tables of a cycle are connected. */
  ghost predicate Connected(t: Table, infos: map<nat, Info>, us: seq<nat>, k: Course, t': Table, clock: nat) {
    && k.bound.info == k.dispatched.info == k.executed.info == t'.info == t.info + infos
    && t'.issued.Keys == t.issued.Keys + infos.Keys
    && t'.actualPort == k.bound.actualPort && k.bound.dispatched == t.dispatched
    && k.dispatched.dispatched == t'.dispatched && k.executed.executed == t'.executed
    && k.dispatched.executed == k.bound.executed && k.dispatched.addressReady == t.addressReady
    && k.dispatched.dataReady == t.dataReady && k.executed.readyForDispatch == t.readyForDispatch
    && Later(t, t') && Later(k.executed, t') && t.actualPort.Keys <= t'.actualPort.Keys
    && t.executed.Keys <= k.bound.executed.Keys <= t'.executed.Keys
    && (forall u :: u in k.bound.executed ==>
          u in t.executed || (u in us && u in t'.info && !PortBound(t'.info[u])))
    && (forall u :: u in us && u in t'.info && !PortBound(t'.info[u]) ==> u in k.bound.executed)
  }

  lemma CycleConnects(m: Machine, s: Snapshot, o: Offer, s': Snapshot, clock: nat, k: Course)
    requires Steps(m, s, o, s', clock, k)
    ensures Connected(s.t, Accepted(m, s, o).infos, Arrivals(m, s, o), k, s'.t, clock)
  {
    hide Holds, WellFormed, Released, BoundAsChosen, Chosen, PortsOut, DispatchedThese, PendingExact, AllUnknown;
    hide FinishedRight, SameReady, ReadiedRightly, Sorted, Ended, WithFences, OccupiedAll, Retiring, Reorder.Admitted;
    var a := Accepted(m, s, o);
    Reorder.AdmittedOnly(Issued(s.t, a.infos, clock), Unfused(a.fused), clock);
    hide Later;
    LaterKeys(s.t, s'.t);
    LaterKeys(k.dispatched, k.executed);
  }

  lemma LaterKeys(t: Table, s: Table)
    requires Later(t, s)
    ensures t.actualPort.Keys <= s.actualPort.Keys && t.executed.Keys <= s.executed.Keys
    ensures t.dispatched.Keys <= s.dispatched.Keys && t.readyForDispatch.Keys <= s.readyForDispatch.Keys
  {}

  lemma {:induction false} UnfusedAppend(fs: seq<FusedUop>, more: seq<FusedUop>)
    ensures Unfused(fs + more) == Unfused(fs) + Unfused(more)
  {
    if fs == [] {
      assert fs + more == more;
    } else {
      UnfusedAppend(fs[1..], more);
      assert (fs + more)[1..] == fs[1..] + more;
      var first, rest, last := fs[0].uops, Unfused(fs[1..]), Unfused(more);
      assert first + (rest + last) == first + rest + last;
    }
  }

  /** A uop with a port has the operand written by another uop among its inputs. */
  predicate Reads(infos: map<nat, Info>, u: nat, op: Operand) {
    u in infos && PortBound(infos[u]) && op in infos[u].inputs && op.Written?
  }

  /** What arrives: distinct new uops, each after those that it reads from. */
  ghost predicate Arriving(t: Table, infos: map<nat, Info>, us: seq<nat>, all: seq<nat>, all': seq<nat>) {
    && all' == all + us && NoDuplicates(us) && SetOf(us) == infos.Keys && infos.Keys !! t.info.Keys
    && forall i, op :: 0 <= i < |us| && Reads(infos, us[i], op) ==> op.uop in t.actualPort || op.uop in us[..i]
  }

  lemma {:induction false} SuppliedFrom(info: map<nat, Info>, known: set<nat>, us: seq<nat>, choice: map<nat, string>,
                                        ports: set<string>, i: nat, op: Operand)
    requires Supplied(info, known, us, choice, ports) && i < |us| && us[i] in info && PortBound(info[us[i]])
    requires op in info[us[i]].inputs && op.Written?
    ensures op.uop in known || op.uop in us[..i]
    decreases i
  {
    if i > 0 {
      var u := us[0];
      SuppliedFrom(info, if PortBound(info[u]) then known + {u} else known, us[1..], choice, ports, i - 1, op);
      assert us[..i] == [u] + us[1..][..i - 1];
    }
  }

  lemma AcceptedFits(m: Machine, s: Snapshot, o: Offer, clock: nat)
    requires Holds(m, s, clock) && WellFormed(o, s.t, s.issued, s.usage.Keys)
    ensures WellFormed(Accepted(m, s, o), s.t, s.issued, s.usage.Keys)
  {
    hide WellFormed, Consistent, FencesPending, BooksKept, PendingExact, DivisionsApart, DividerFree, RoomFor;
    NothingOffered(s.t, s.issued, s.usage.Keys);
  }

  lemma CycleArrives(m: Machine, s: Snapshot, o: Offer, s': Snapshot, clock: nat, k: Course)
    requires Steps(m, s, o, s', clock, k)
    ensures Arriving(s.t, Accepted(m, s, o).infos, Arrivals(m, s, o), All(s), All(s'))
  {
    hide Holds, SchedulerChoices.Follows, Later, Retiring;
    var a, us := Accepted(m, s, o), Arrivals(m, s, o);
    UnfusedAppend(s.issued, a.fused);
    AcceptedFits(m, s, o, clock);
    forall i, op | 0 <= i < |us| && Reads(a.infos, us[i], op)
      ensures op.uop in s.t.actualPort || op.uop in us[..i]
    {
      SuppliedFrom(s.t.info + a.infos, s.t.actualPort.Keys, us, a.choice, s.usage.Keys, i, op);
    }
  }

  // What a cycle keeps

  lemma NoDuplicatesJoined(us: seq<nat>, vs: seq<nat>)
    requires NoDuplicates(us) && NoDuplicates(vs) && SetOf(us) !! SetOf(vs)
    ensures NoDuplicates(us + vs) && SetOf(us + vs) == SetOf(us) + SetOf(vs)
  {
    forall i, j | 0 <= i < |us| && 0 <= j < |vs|
      ensures us[i] != vs[j]
    {
      assert us[i] in SetOf(us) && vs[j] in SetOf(vs);
    }
  }

  lemma EnrolledMore(t: Table, infos: map<nat, Info>, us: seq<nat>, k: Course, t': Table, clock: nat, all: seq<nat>,
                     all': seq<nat>)
    requires Connected(t, infos, us, k, t', clock) && Arriving(t, infos, us, all, all') && Enrolled(t, all)
    requires forall u :: u in us && u in k.bound.info && PortBound(k.bound.info[u]) ==> u in k.bound.actualPort
    requires forall u :: u in t'.executed && u !in k.bound.executed ==> u in t'.info
    ensures Enrolled(t', all')
  {
    hide Later, NoDuplicates, PortBound;
    NoDuplicatesJoined(all, us);
    forall u | u in all'
      ensures PortOrDone(t', u)
    {
      if u in us {
        assert u in SetOf(us);
      } else {
        assert u in all && PortOrDone(t, u) && u in SetOf(all);
      }
    }
    hide SetOf;
  }

  lemma EarlierJoined(us: seq<nat>, vs: seq<nat>, v: nat, u: nat)
    ensures Earlier(us, v, u) ==> Earlier(us + vs, v, u)
    ensures v in us && u in vs ==> Earlier(us + vs, v, u)
  {
    if Earlier(us, v, u) {
      var i, j :| 0 <= i < j < |us| && us[i] == v && us[j] == u;
      assert (us + vs)[i] == v && (us + vs)[j] == u;
    }
    if v in us && u in vs {
      var i :| 0 <= i < |us| && us[i] == v;
      var j :| 0 <= j < |vs| && vs[j] == u;
      assert (us + vs)[i] == v && (us + vs)[|us| + j] == u;
    }
  }

  /** Where a new uop reads from. */
  lemma NewReads(t: Table, infos: map<nat, Info>, us: seq<nat>, all: seq<nat>, all': seq<nat>, u: nat, op: Operand)
    requires Arriving(t, infos, us, all, all') && u in us && Reads(infos, u, op) && t.actualPort.Keys <= SetOf(all)
    ensures Earlier(all', op.uop, u)
  {
    var i :| 0 <= i < |us| && us[i] == u;
    if op.uop in us[..i] {
      var j :| 0 <= j < i && us[j] == op.uop;
      assert all'[|all| + j] == op.uop && all'[|all| + i] == u;
    } else {
      assert op.uop in SetOf(all);
      EarlierJoined(all, us, op.uop, u);
    }
  }

  lemma DataflowMore(t: Table, infos: map<nat, Info>, us: seq<nat>, k: Course, t': Table, clock: nat, all: seq<nat>,
                     all': seq<nat>)
    requires Connected(t, infos, us, k, t', clock) && Arriving(t, infos, us, all, all') && InDataflowOrder(t, all)
    requires Registered(t) && Registered(t') && Enrolled(t, all)
    requires forall u :: u in k.bound.actualPort ==> u in t.actualPort || u in us
    ensures InDataflowOrder(t', all')
  {
    hide Later, Earlier, PortBound, NoDuplicates, PortOrDone;
    forall u, op | u in t'.actualPort && u in t'.info && op in t'.info[u].inputs && op.Written?
      ensures Earlier(all', op.uop, u)
    {
      if u in t.actualPort {
        assert t'.info[u] == t.info[u];
        EarlierJoined(all, us, op.uop, u);
      } else {
        assert u in SetOf(us);
        NewReads(t, infos, us, all, all', u, op);
      }
    }
  }

  lemma RegisteredPort(t: Table)
    requires Registered(t)
    ensures forall u :: u in t.actualPort ==> u in t.info && PortBound(t.info[u])
  {}

  lemma WithPortBefore(t: Table, t': Table, all: seq<nat>, u: nat)
    requires Enrolled(t, all) && u in t.executed && u in t'.actualPort && Registered(t') && Later(t, t')
    ensures u in t.actualPort
  {
    assert u in SetOf(all) && PortOrDone(t, u);
  }

  lemma StoredMore(t: Table, infos: map<nat, Info>, us: seq<nat>, k: Course, t': Table, clock: nat, all: seq<nat>)
    requires Connected(t, infos, us, k, t', clock) && AllStored(t) && Registered(t') && Enrolled(t, all)
    requires FinishedRight(k.dispatched, k.executed)
    ensures AllStored(t')
  {
    hide Later, StoredBy, Finishes, AllSettled, PortBound, Enrolled, Registered;
    RegisteredPort(t');
    forall u | u in t'.executed && u in t'.actualPort
      ensures u in t'.info && StoredBy(t', u)
    {
      if u in k.dispatched.executed {
        WithPortBefore(t, t', all, u);
        StoredLater(t, t', u);
      } else {
        assert FinishedIn(k.executed, u);
        StoredLater(k.executed, t', u);
      }
    }
  }

  // Fences

  function NewFences(t: Table, us: seq<nat>, d: Side): seq<nat> {
    if d == Loads then LoadFencesIn(t, us) else StoreFencesIn(t, us)
  }

  lemma OrderedPart(info: map<nat, Info>, us: seq<nat>, i: nat, j: nat)
    requires i <= j <= |us| && AllOrdered(info, us)
    ensures AllOrdered(info, us[i..j])
  {
    forall a, b | 0 <= a < j - i && 0 <= b < j - i
      ensures OrderedAt(info, us[i..j], a, b)
    {
      assert OrderedAt(info, us, i + a, i + b);
    }
  }

  lemma AscendMore(us: seq<nat>, vs: seq<nat>)
    requires Ascending(us) && Ascending(vs) && forall u, v :: u in us && v in vs ==> u < v
    ensures Ascending(us + vs)
  {
    forall i, j | 0 <= i < j < |us + vs|
      ensures (us + vs)[i] < (us + vs)[j]
    {
      if i < |us| <= j {
        assert us[i] in us && vs[j - |us|] in vs;
      }
    }
  }

  lemma {:induction false} NewFencesAscend(t: Table, us: seq<nat>, d: Side)
    requires AllOrdered(t.info, us)
    ensures Ascending(NewFences(t, us, d))
    ensures forall f :: f in NewFences(t, us, d) ==>
              f in us && f in t.info && PortBound(t.info[f]) && IsFence(t.info[f], d)
  {
    hide PortBound;
    if us != [] {
      var front, u := us[..|us| - 1], us[|us| - 1];
      OrderedPart(t.info, us, 0, |us| - 1);
      NewFencesAscend(t, front, d);
      if NewFences(t, us, d) != NewFences(t, front, d) {
        forall f | f in NewFences(t, front, d)
          ensures f < u
        {
          var i :| 0 <= i < |front| && front[i] == f;
          assert OrderedAt(t.info, us, i, |us| - 1);
        }
        AscendMore(NewFences(t, front, d), [u]);
      }
    }
  }

  lemma NumberedLater(info: map<nat, Info>, us: seq<nat>, vs: seq<nat>, u: nat, v: nat)
    requires AllOrdered(info, us + vs) && u in us && v in vs && u in info && v in info
    requires InProgramOrder(info[u]) && InProgramOrder(info[v])
    ensures u < v
  {
    hide InProgramOrder;
    var i :| 0 <= i < |us| && us[i] == u;
    var j :| 0 <= j < |vs| && vs[j] == v;
    assert OrderedAt(info, us + vs, i, |us| + j);
  }

  /** What guards stays known, and was issued before. */
  lemma GuardsStay(t: Table, t': Table, fences: seq<nat>, accesses: seq<nat>, d: Side, all: seq<nat>)
    requires GuardedBy(t, fences, accesses, d) && t.actualPort.Keys <= SetOf(all) && Later(t, t')
    ensures GuardedBy(t', fences, accesses, d) && forall u :: u in fences + accesses ==> u in all
  {
    LaterKeys(t, t');
    forall u | u in fences
      ensures FenceIn(t', u, d) && u in SetOf(all)
    {
      assert FenceIn(t, u, d);
    }
    forall u | u in accesses
      ensures AccessIn(t', u, d) && u in SetOf(all)
    {
      assert AccessIn(t, u, d);
    }
    forall v, f | v in accesses && f in fences
      ensures AccessBefore(t', v, f)
    {
      assert AccessBefore(t, v, f) && AccessIn(t, v, d);
    }
  }

  /** New fences come after all that guards already. */
  lemma FencesJoin(t: Table, fences: seq<nat>, accesses: seq<nat>, more: seq<nat>, d: Side, all: seq<nat>, us: seq<nat>)
    requires GuardedBy(t, fences, accesses, d) && AllOrdered(t.info, all + us) && Ascending(more)
    requires (forall u :: u in fences + accesses ==> u in all) && (forall f :: f in more ==> f in us && FenceIn(t, f, d))
    ensures GuardedBy(t, fences + more, accesses, d)
  {
    hide AllOrdered;
    forall v, f | v in fences + accesses && f in more
      ensures v < f
    {
      assert FenceIn(t, v, d) || AccessIn(t, v, d);
      assert FenceIn(t, f, d);
      NumberedLater(t.info, all, us, v, f);
    }
    forall v, f | v in accesses && f in more
      ensures AccessBefore(t, v, f)
    {
      assert v in fences + accesses;
    }
    forall v, f | v in fences && f in more
      ensures v < f
    {
      assert v in fences + accesses;
    }
    AscendMore(fences, more);
  }

  lemma GuardedMore(t: Table, infos: map<nat, Info>, us: seq<nat>, k: Course, t': Table, clock: nat, all: seq<nat>,
                    g: Guards, d: Side)
    requires Connected(t, infos, us, k, t', clock) && Guarded(t, g, d) && AllOrdered(t'.info, all + us)
    requires t.actualPort.Keys <= SetOf(all)
    requires forall u :: u in us && u in k.bound.info && PortBound(k.bound.info[u]) ==> u in k.bound.actualPort
    ensures Guarded(t', WithFences(g, k.bound, us), d)
  {
    var fences, more := Fences(g, d), NewFences(k.bound, us, d);
    NewOrdered(t'.info, all, us);
    NewFencesAscend(k.bound, us, d);
    hide AllOrdered, PortBound, Later, GuardedBy, LoadFencesIn, StoreFencesIn, FencesDirect, Ascending;
    GuardsStay(t, t', fences, Accesses(g, d), d, all);
    FencesJoin(t', fences, Accesses(g, d), more, d, all, us);
  }

  lemma NewOrdered(info: map<nat, Info>, us: seq<nat>, vs: seq<nat>)
    requires AllOrdered(info, us + vs)
    ensures AllOrdered(info, vs)
  {
    OrderedPart(info, us + vs, |us|, |us + vs|);
    assert (us + vs)[|us|..|us + vs|] == vs;
  }

  /** A uop that reads from the store buffer and is not held back comes before the pending fences. */
  lemma BeforeFences(t: Table, u: nat, clock: nat, g: Guards, d: Side)
    requires u in t.info && !IsHeld(t, u, clock, g) && IsAccess(t.info[u], d) && FencesDirect(t.info[u])
    requires Forwarded(t.info[u])
    ensures Fences(g, d) != [] ==> u <= Fences(g, d)[0]
  {
    hide ExecutedBy;
  }

  lemma AccessJoins(t: Table, fences: seq<nat>, accesses: seq<nat>, u: nat, d: Side)
    requires GuardedBy(t, fences, accesses, d) && AccessIn(t, u, d) && FencesDirect(t.info[u])
    requires Forwarded(t.info[u]) && fences != [] ==> u <= fences[0]
    ensures GuardedBy(t, fences, accesses + [u], d)
  {
    hide Forwarded;
    forall f | f in fences
      ensures AccessBefore(t, u, f)
    {
      var i :| 0 <= i < |fences| && fences[i] == f;
      assert FenceIn(t, fences[0], d) && fences[0] <= fences[i];
    }
  }

  lemma NotedSide(g: Guards, i: Info, u: nat, d: Side)
    ensures Fences(Noted(g, i, u), d) == Fences(g, d)
    ensures Accesses(Noted(g, i, u), d) == if IsAccess(i, d) then Accesses(g, d) + [u] else Accesses(g, d)
  {}

  /** The uops that become ready in a cycle and read from the store buffer come before the pending fences. */
  lemma {:induction false} NotedGuarded(t: Table, t': Table, g: Guards, us: seq<nat>, i: nat, ready: set<nat>,
                                        clock: nat, h: Guards, d: Side)
    requires Sorted(t, t', us, ready, clock, g, h) && Guarded(t', g, d) && i <= |us|
    requires forall u :: u in ready ==> u in t'.actualPort && u in t'.info && FencesDirect(t'.info[u])
    ensures Guarded(t', NotedAll(g, t, us[..i], ready), d)
    ensures Fences(NotedAll(g, t, us[..i], ready), d) == Fences(g, d)
  {
    hide IsHeld, FencesDirect, GuardedBy, Forwarded;
    if i > 0 {
      NotedGuarded(t, t', g, us, i - 1, ready, clock, h, d);
      var before, u := NotedAll(g, t, us[..i - 1], ready), us[i - 1];
      assert us[..i] == us[..i - 1] + [u];
      NotedNext(g, t, us[..i - 1], ready, u);
      if u in ready {
        NotedSide(before, t.info[u], u, d);
      }
      hide Noted, NotedAll;
      if u in ready && IsAccess(t.info[u], d) {
        assert InTurn(t, us, ready, clock, g, i - 1);
        if Forwarded(t.info[u]) {
          BeforeFences(t, u, clock, before, d);
        }
        AccessJoins(t', Fences(g, d), Accesses(before, d), u, d);
      }
    }
  }

  lemma EndedGuarded(t: Table, g: Guards, clock: nat, d: Side)
    requires Guarded(t, g, d)
    ensures Guarded(t, Ended(g, t, clock), d)
  {}

  lemma HoldsSound(m: Machine, s: Snapshot, next: nat)
    requires Holds(m, s, next)
    ensures Registered(s.t) && Phased(s.t) && s.t.actualPort.Keys <= s.t.info.Keys
    ensures s.t.readyForDispatch.Keys <= s.t.actualPort.Keys
  {
    hide Linked, Causal, Tokens, Placed, FencesPending, BooksKept, DividerFree, DivisionsApart, PortBound;
  }

  lemma CycleBinds(m: Machine, s: Snapshot, o: Offer, s': Snapshot, clock: nat, k: Course)
    requires Steps(m, s, o, s', clock, k)
    ensures var us := Arrivals(m, s, o);
            && (forall u :: u in us && u in k.bound.info && PortBound(k.bound.info[u]) ==> u in k.bound.actualPort)
            && (forall u :: u in k.bound.actualPort ==> u in s.t.actualPort || u in us)
            && FinishedRight(k.dispatched, k.executed)
            && (forall u :: u in s'.t.executed && u !in k.bound.executed ==> u in s'.t.info)
            && k.before.(blocked := s.g.blocked) == WithFences(s.g, k.bound, us)
            && Sorted(k.executed, s'.t, k.waiting, k.readied, clock, k.before, k.after)
            && s'.g == Ended(k.after, s'.t, clock)
  {
    CycleConnects(m, s, o, s', clock, k);
    hide Holds, WellFormed, Released, Chosen, PortsOut, DispatchedThese, PendingExact, AllUnknown, Later, PortBound;
    hide SameReady, ReadiedRightly, Sorted, Ended, LoadFencesIn, StoreFencesIn, OccupiedAll, Retiring, Finishes, StoredBy;
    var a := Accepted(m, s, o);
    Reorder.AdmittedOnly(Issued(s.t, a.infos, clock), Unfused(a.fused), clock);
    hide Reorder.Admitted;
    forall u | u in s'.t.executed && u !in k.bound.executed
      ensures u in s'.t.info
    {
      assert FinishedIn(k.executed, u);
    }
  }

  lemma {:induction false} AllFusedExecuted(t: Table, fs: seq<FusedUop>)
    requires forall i :: 0 <= i < |fs| ==> AllExecuted(t, fs[i].uops)
    ensures AllExecuted(t, Unfused(fs))
  {
    if fs != [] {
      assert AllExecuted(t, fs[0].uops);
      AllFusedExecuted(t, fs[1..]);
    }
  }

  lemma RetiredMore(m: Machine, s: Snapshot, o: Offer, s': Snapshot, clock: nat, k: Course)
    requires Steps(m, s, o, s', clock, k) && AllExecuted(s.t, Unfused(s.retired))
    ensures AllExecuted(s'.t, Unfused(s'.retired))
  {
    hide Holds, WellFormed, SchedulerChoices.Follows, Reorder.Retirable;
    var a := Accepted(m, s, o);
    var n := Retiring(m, s.t, s.buffer, a.infos, clock);
    LaterKeys(s.t, s'.t);
    forall i | 0 <= i < n
      ensures AllExecuted(s'.t, s.buffer[..n][i].uops)
    {
      assert Reorder.CanRetire(Issued(s.t, a.infos, clock), s.buffer[i], clock);
    }
    hide Later, Retiring;
    AllFusedExecuted(s'.t, s.buffer[..n]);
    UnfusedAppend(s.retired, s.buffer[..n]);
  }

  lemma FencesTaken(m: Machine, s: Snapshot, o: Offer, s': Snapshot, clock: nat, k: Course, d: Side)
    requires Steps(m, s, o, s', clock, k) && Guarded(s.t, s.g, d) && SetOf(All(s)) == s.t.info.Keys
    requires AllOrdered(s'.t.info, All(s'))
    ensures Guarded(s'.t, k.before, d)
  {
    CycleConnects(m, s, o, s', clock, k);
    CycleArrives(m, s, o, s', clock, k);
    CycleBinds(m, s, o, s', clock, k);
    HoldsSound(m, s, clock);
    var a, us := Accepted(m, s, o), Arrivals(m, s, o);
    hide Steps, Connected, GuardedBy, AllOrdered, StoredEarlier, PortBound, WithFences, Ended, Sorted;
    hide Registered, Phased;
    GuardedMore(s.t, a.infos, us, k, s'.t, clock, All(s), s.g, d);
    var h := WithFences(s.g, k.bound, us);
    assert Fences(k.before, d) == Fences(h, d) && Accesses(k.before, d) == Accesses(h, d);
  }

  lemma ReadyingGuards(t: Table, t': Table, us: seq<nat>, ready: set<nat>, clock: nat, g: Guards, h: Guards, d: Side,
                       all: seq<nat>)
    requires Sorted(t, t', us, ready, clock, g, h) && Guarded(t', g, d) && Orderly(t'.info, all)
    requires SetOf(all) == t'.info.Keys && t'.readyForDispatch.Keys <= t'.actualPort.Keys <= t'.info.Keys
    ensures Guarded(t', Ended(h, t', clock), d)
  {
    assert us[..|us|] == us;
    assert ready <= t'.readyForDispatch.Keys && h == NotedAll(g, t, us, ready);
    hide GuardedBy, AllOrdered, StoredEarlier, FencesDirect, Ended, InTurn, NotedAll;
    forall u | u in ready
      ensures u in t'.actualPort && u in t'.info && FencesDirect(t'.info[u])
    {
      assert u in SetOf(all);
    }
    NotedGuarded(t, t', g, us, |us|, ready, clock, h, d);
    EndedGuarded(t', h, clock, d);
  }

  lemma GuardsKept(m: Machine, s: Snapshot, o: Offer, s': Snapshot, clock: nat, k: Course, d: Side)
    requires Steps(m, s, o, s', clock, k) && Guarded(s.t, s.g, d) && SetOf(All(s)) == s.t.info.Keys
    requires Orderly(s'.t.info, All(s')) && SetOf(All(s')) == s'.t.info.Keys
    ensures Guarded(s'.t, s'.g, d)
  {
    FencesTaken(m, s, o, s', clock, k, d);
    CycleBinds(m, s, o, s', clock, k);
    HoldsSound(m, s', clock + 1);
    hide Steps, GuardedBy, StoredEarlier, PortBound, WithFences, Ended, Sorted, Registered, Phased, Orderly;
    ReadyingGuards(k.executed, s'.t, k.waiting, k.readied, clock, k.before, k.after, d, All(s'));
  }

  /** Every cycle keeps what holds throughout a run. */
  lemma CycleKeeps(m: Machine, s: Snapshot, o: Offer, s': Snapshot, clock: nat, k: Course)
    requires Steps(m, s, o, s', clock, k) && Kept(s) && Orderly(s'.t.info, All(s'))
    ensures Kept(s')
  {
    CycleConnects(m, s, o, s', clock, k);
    CycleArrives(m, s, o, s', clock, k);
    CycleBinds(m, s, o, s', clock, k);
    HoldsSound(m, s, clock);
    HoldsSound(m, s', clock + 1);
    RetiredMore(m, s, o, s', clock, k);
    var a, us := Accepted(m, s, o), Arrivals(m, s, o);
    EnrolledKeys(s.t, All(s));
    hide Steps, Connected, Guarded, Orderly, PortBound, WithFences, Ended, Sorted, Enrolled, InDataflowOrder, AllStored;
    hide Registered, Phased, FinishedRight, Arriving, AllExecuted;
    EnrolledMore(s.t, a.infos, us, k, s'.t, clock, All(s), All(s'));
    DataflowMore(s.t, a.infos, us, k, s'.t, clock, All(s), All(s'));
    StoredMore(s.t, a.infos, us, k, s'.t, clock, All(s));
    EnrolledKeys(s'.t, All(s'));
    GuardsKept(m, s, o, s', clock, k, Loads);
    GuardsKept(m, s, o, s', clock, k, Stores);
  }

  lemma EnrolledKeys(t: Table, us: seq<nat>)
    requires Enrolled(t, us)
    ensures t.issued.Keys == t.info.Keys == SetOf(us) && t.executed.Keys <= t.info.Keys
  {}
}

/** What the scheduler respects over whole runs: loads and stores wait for the fences before them, instructions keep their
    throughput, and the divider and port 4 are busy for as long as they are used, and no longer. */
module SchedulerRuns {
  import opened Wrappers
  import opened Uops
  import opened UopSteps
  import opened SchedulerTokens
  import opened SchedulerState
  import opened SchedulerSteps
  import opened SchedulerDispatch
  import opened SchedulerExecution
  import opened SchedulerChoices
  import opened BackEnd
  import opened BackEndRuns
  import opened BackEndProgress

  // Fences

  /** A load or store of an instruction that is no fence. */
  ghost predicate PlainAccess(t: Table, u: nat, d: Side) {
    && u in t.readyForDispatch && u in t.actualPort && u in t.info && IsAccess(t.info[u], d)
    && !t.info[u].isLoadSerializing && !t.info[u].isStoreSerializing
  }

  /** Every fence is pending or has been executed before the next cycle. */
  ghost predicate FencesKept(t: Table, g: Guards, d: Side, next: nat) {
    forall f :: FenceIn(t, f, d) && f !in Fences(g, d) ==> f in t.executed && t.executed[f] < next
  }

  ghost predicate WaitedFor(t: Table, f: nat, u: nat) {
    f in t.executed && u in t.readyForDispatch && t.executed[f] < t.readyForDispatch[u]
  }

  /** The loads or stores that have become ready have waited for all fences before them. */
  ghost predicate FencesRespected(t: Table, d: Side) {
    forall f, u :: FenceIn(t, f, d) && PlainAccess(t, u, d) && f < u ==> WaitedFor(t, f, u)
  }

  /** The fences among new uops become pending. */
  lemma {:induction false} AllNewFences(t: Table, us: seq<nat>, d: Side, f: nat)
    requires f in us && FenceIn(t, f, d) && PortBound(t.info[f])
    ensures f in NewFences(t, us, d)
  {
    hide PortBound;
    var front, u := us[..|us| - 1], us[|us| - 1];
    assert us == front + [u];
    if f in front {
      AllNewFences(t, front, d, f);
    }
  }

  lemma CycleSorts(m: Machine, s: Snapshot, o: Offer, s': Snapshot, clock: nat, k: Course)
    requires Steps(m, s, o, s', clock, k)
    ensures Sorted(k.executed, s'.t, k.waiting, k.readied, clock, k.before, k.after)
  {
    CycleBinds(m, s, o, s', clock, k);
    hide Steps, Arrivals, WithFences, Ended, Sorted, FinishedRight, PortBound;
  }

  lemma CycleFences(m: Machine, s: Snapshot, o: Offer, s': Snapshot, clock: nat, k: Course)
    requires Steps(m, s, o, s', clock, k)
    ensures k.before.(blocked := s.g.blocked) == WithFences(s.g, k.bound, Arrivals(m, s, o))
  {
    CycleBinds(m, s, o, s', clock, k);
    hide Steps, Arrivals, WithFences, Ended, Sorted, FinishedRight, PortBound;
  }

  lemma FencesNow(m: Machine, s: Snapshot, o: Offer, s': Snapshot, clock: nat, k: Course, d: Side)
    requires Steps(m, s, o, s', clock, k)
    ensures Fences(k.before, d) == Fences(s.g, d) + NewFences(k.bound, Arrivals(m, s, o), d)
    ensures Fences(k.after, d) == Fences(k.before, d)
  {
    hide Steps, Arrivals, Sorted, LoadFencesIn, StoreFencesIn, NotedAll;
    CycleFences(m, s, o, s', clock, k);
    CycleSorts(m, s, o, s', clock, k);
    NotedAtLast(k.executed, s'.t, k.waiting, k.readied, clock, k.before, k.after);
    NotedFences(k.before, k.executed, k.waiting, k.readied);
  }

  lemma FencesAdded(t: Table, bound: Table, t': Table, us: seq<nat>, fences: seq<nat>, d: Side, clock: nat)
    requires forall f :: FenceIn(t, f, d) && f !in fences ==> f in t.executed && t.executed[f] < clock
    requires bound.info == t'.info && bound.actualPort == t'.actualPort && Later(t, t') && Registered(t) && Registered(t')
    requires forall u :: u in t'.actualPort ==> u in t.actualPort || u in us
    ensures forall f :: FenceIn(t', f, d) && f !in fences + NewFences(bound, us, d) ==>
              f in t'.executed && t'.executed[f] < clock
  {
    RegisteredPort(t');
    hide PortBound, NewFences;
    forall f | FenceIn(t', f, d) && f !in fences + NewFences(bound, us, d)
      ensures f in t'.executed && t'.executed[f] < clock
    {
      if f in t.actualPort {
        assert FenceIn(t, f, d);
      } else {
        AllNewFences(bound, us, d, f);
      }
    }
  }

  /** What a cycle adds to the tables. */
  lemma CycleAdds(m: Machine, s: Snapshot, o: Offer, s': Snapshot, clock: nat, k: Course)
    requires Steps(m, s, o, s', clock, k)
    ensures k.bound.info == s'.t.info && k.bound.actualPort == s'.t.actualPort && Later(s.t, s'.t)
    ensures forall u :: u in s'.t.actualPort ==> u in s.t.actualPort || u in Arrivals(m, s, o)
  {
    CycleConnects(m, s, o, s', clock, k);
    CycleBinds(m, s, o, s', clock, k);
    hide Steps, Arrivals, WithFences, Ended, Sorted, FinishedRight, PortBound, Later;
  }

  lemma CycleRegisters(m: Machine, s: Snapshot, o: Offer, s': Snapshot, clock: nat, k: Course)
    requires Steps(m, s, o, s', clock, k)
    ensures Registered(s.t) && Registered(s'.t)
  {
    hide Steps, Holds;
    StepHolds(m, s, o, s', clock, k);
    HoldsSound(m, s, clock);
    HoldsSound(m, s', clock + 1);
    hide Registered;
  }

  /** When the uops that wait for none are looked at, every fence is pending or has been executed earlier. */
  lemma FencesPendingNow(m: Machine, s: Snapshot, o: Offer, s': Snapshot, clock: nat, k: Course, d: Side)
    requires Steps(m, s, o, s', clock, k) && FencesKept(s.t, s.g, d, clock)
    ensures FencesKept(s'.t, k.before, d, clock)
  {
    hide Steps, Arrivals, NewFences, Registered, Later, FenceIn;
    CycleAdds(m, s, o, s', clock, k);
    CycleRegisters(m, s, o, s', clock, k);
    FencesNow(m, s, o, s', clock, k, d);
    FencesAdded(s.t, k.bound, s'.t, Arrivals(m, s, o), Fences(s.g, d), d, clock);
  }

  /** The fences that pass have been executed. */
  lemma FencesPassed(t: Table, g: Guards, d: Side, clock: nat)
    requires FencesKept(t, g, d, clock)
    ensures FencesKept(t, Ended(g, t, clock), d, clock + 1)
  {
    var fences := Fences(g, d);
    if Passes(t, fences, clock) {
      assert fences == [fences[0]] + fences[1..] && fences[0] in [fences[0]];
    }
  }

  lemma PendingKept(m: Machine, s: Snapshot, o: Offer, s': Snapshot, clock: nat, k: Course, d: Side)
    requires Steps(m, s, o, s', clock, k) && FencesKept(s.t, s.g, d, clock)
    ensures FencesKept(s'.t, s'.g, d, clock + 1)
  {
    hide Steps, Arrivals, WithFences, Ended, Sorted, FinishedRight, PortBound, NewFences, FenceIn;
    FencesPendingNow(m, s, o, s', clock, k, d);
    FencesNow(m, s, o, s', clock, k, d);
    CycleBinds(m, s, o, s', clock, k);
    FencesPassed(s'.t, k.after, d, clock);
  }

  /** A uop that becomes ready is dispatched in a later cycle. */
  lemma ReadiedLater(m: Machine, s: Snapshot, o: Offer, s': Snapshot, clock: nat, k: Course, u: nat)
    requires Steps(m, s, o, s', clock, k) && u in s'.t.readyForDispatch && u !in s.t.readyForDispatch
    ensures u in k.readied && s'.t.readyForDispatch[u] > clock
  {
    CycleConnects(m, s, o, s', clock, k);
    hide Holds, WellFormed, BindsAndDispatches, OnlyExecuted, AllUnknown, FinishedRight, PendingExact, Ended, Without;
    hide OnlyReadied, SameReady, NotedAll, InTurn, Later, LatestReady, AllAnswered, Connected;
    assert u !in k.executed.readyForDispatch by {
      SameReadyBefore(s.t, Accepted(m, s, o).infos, Arrivals(m, s, o), k, s'.t, clock);
    }
  }

  lemma SameReadyBefore(t: Table, infos: map<nat, Info>, us: seq<nat>, k: Course, t': Table, clock: nat)
    requires Connected(t, infos, us, k, t', clock)
    ensures k.executed.readyForDispatch == t.readyForDispatch
  {}

  lemma PlainBefore(t: Table, u: nat, clock: nat, g: Guards, d: Side)
    requires u in t.info && !IsHeld(t, u, clock, g) && IsAccess(t.info[u], d)
    requires !t.info[u].isLoadSerializing && !t.info[u].isStoreSerializing
    ensures Fences(g, d) != [] ==> u <= Fences(g, d)[0]
  {
    hide ExecutedBy;
  }

  /** A load or store that becomes ready comes before all pending fences. */
  lemma ReadiedBefore(t: Table, t': Table, us: seq<nat>, ready: set<nat>, clock: nat, g: Guards, h: Guards, u: nat,
                      d: Side)
    requires Sorted(t, t', us, ready, clock, g, h) && u in ready && PlainAccess(t', u, d)
    ensures Fences(g, d) != [] ==> u <= Fences(g, d)[0]
  {
    hide IsHeld;
    var i :| 0 <= i < |us| && us[i] == u;
    assert InTurn(t, us, ready, clock, g, i);
    NotedFences(g, t, us[..i], ready);
    hide NotedAll;
    PlainBefore(t, u, clock, NotedAll(g, t, us[..i], ready), d);
  }

  /** The uop was ready before. */
  lemma OldWaited(t: Table, t': Table, all: seq<nat>, us: seq<nat>, f: nat, u: nat, d: Side)
    requires FencesRespected(t, d) && Later(t, t') && FenceIn(t', f, d) && PlainAccess(t', u, d) && f < u
    requires u in t.readyForDispatch && t.readyForDispatch.Keys <= t.actualPort.Keys <= t.info.Keys
    requires forall w :: w in t'.actualPort ==> w in t.actualPort || w in us
    requires t.info.Keys == SetOf(all) && AllOrdered(t'.info, all + us)
    ensures WaitedFor(t', f, u)
  {
    hide AllOrdered;
    assert u in all;
    if f in t.actualPort {
      assert FenceIn(t, f, d) && PlainAccess(t, u, d);
    } else {
      NumberedLater(t'.info, all, us, u, f);
    }
  }

  lemma RespectedIs(t: Table, d: Side)
    requires forall f, u :: FenceIn(t, f, d) && PlainAccess(t, u, d) && f < u ==> WaitedFor(t, f, u)
    ensures FencesRespected(t, d)
  {
    hide FenceIn, PlainAccess, WaitedFor;
  }

  /** The uop becomes ready in this cycle. */
  lemma NewWaited(t: Table, t': Table, us: seq<nat>, ready: set<nat>, clock: nat, g: Guards, h: Guards, f: nat, u: nat,
                  d: Side)
    requires Sorted(t, t', us, ready, clock, g, h) && FenceIn(t', f, d) && PlainAccess(t', u, d) && f < u
    requires u in ready && t'.readyForDispatch[u] > clock && FencesKept(t', g, d, clock) && Guarded(t', g, d)
    ensures WaitedFor(t', f, u)
  {
    ReadiedBefore(t, t', us, ready, clock, g, h, u, d);
    hide Sorted, AccessIn, AccessBefore, FenceIn, Ascending;
    if f in Fences(g, d) {
      FirstIsLeast(Fences(g, d), f);
    }
  }

  lemma FirstIsLeast(us: seq<nat>, u: nat)
    requires Ascending(us) && u in us
    ensures us != [] && us[0] <= u
  {
    var i :| 0 <= i < |us| && us[i] == u;
    assert us[0] <= us[i];
  }

  /** What was there before a cycle. */
  ghost predicate Grown(t: Table, t': Table, all: seq<nat>, us: seq<nat>) {
    && Later(t, t') && t.readyForDispatch.Keys <= t.actualPort.Keys <= t.info.Keys && t.info.Keys == SetOf(all)
    && (forall w :: w in t'.actualPort ==> w in t.actualPort || w in us) && AllOrdered(t'.info, all + us)
  }

  lemma CycleGrows(m: Machine, s: Snapshot, o: Offer, s': Snapshot, clock: nat, k: Course)
    requires Steps(m, s, o, s', clock, k) && SetOf(All(s)) == s.t.info.Keys && AllOrdered(s'.t.info, All(s'))
    ensures Grown(s.t, s'.t, All(s), Arrivals(m, s, o))
  {
    hide Steps, Arrivals, WithFences, Ended, Sorted, FinishedRight, PortBound, AllOrdered, Registered, Phased, Later;
    CycleConnects(m, s, o, s', clock, k);
    CycleArrives(m, s, o, s', clock, k);
    CycleBinds(m, s, o, s', clock, k);
    StepHolds(m, s, o, s', clock, k);
    HoldsSound(m, s, clock);

  }

  lemma OneWaited(m: Machine, s: Snapshot, o: Offer, s': Snapshot, clock: nat, k: Course, f: nat, u: nat, d: Side)
    requires Steps(m, s, o, s', clock, k) && FencesRespected(s.t, d) && FenceIn(s'.t, f, d) && PlainAccess(s'.t, u, d)
    requires f < u && Grown(s.t, s'.t, All(s), Arrivals(m, s, o))
    requires FencesKept(s'.t, k.before, d, clock) && Guarded(s'.t, k.before, d)
    ensures WaitedFor(s'.t, f, u)
  {
    assert u in s'.t.readyForDispatch;
    if u in s.t.readyForDispatch {
      hide Steps, Arrivals, FencesKept, Guarded, FencesRespected, FenceIn, PlainAccess, AllOrdered, Later;
      OldWaited(s.t, s'.t, All(s), Arrivals(m, s, o), f, u, d);
    } else {
      ReadiedLater(m, s, o, s', clock, k, u);
      CycleSorts(m, s, o, s', clock, k);
      hide Steps, Arrivals, FencesKept, Guarded, FencesRespected, FenceIn, PlainAccess, Sorted, Grown;
      NewWaited(k.executed, s'.t, k.waiting, k.readied, clock, k.before, k.after, f, u, d);
    }
  }

  lemma FencesStillRespected(m: Machine, s: Snapshot, o: Offer, s': Snapshot, clock: nat, k: Course, d: Side)
    requires Steps(m, s, o, s', clock, k) && FencesRespected(s.t, d) && FencesKept(s.t, s.g, d, clock)
    requires Guarded(s.t, s.g, d) && SetOf(All(s)) == s.t.info.Keys && AllOrdered(s'.t.info, All(s'))
    ensures FencesRespected(s'.t, d)
  {
    hide Steps, FencesRespected, FenceIn, PlainAccess, WaitedFor, Grown, FencesKept, Guarded, AllOrdered;
    CycleGrows(m, s, o, s', clock, k);
    FencesPendingNow(m, s, o, s', clock, k, d);
    FencesTaken(m, s, o, s', clock, k, d);
    forall f, u | FenceIn(s'.t, f, d) && PlainAccess(s'.t, u, d) && f < u
      ensures WaitedFor(s'.t, f, u)
    {
      OneWaited(m, s, o, s', clock, k, f, u, d);
    }
    RespectedIs(s'.t, d);
  }

  /** What a cycle of a program keeps. */
  lemma CycleRespects(m: Machine, s: Snapshot, o: Offer, s': Snapshot, clock: nat, k: Course, d: Side)
    requires Steps(m, s, o, s', clock, k) && FencesRespected(s.t, d) && FencesKept(s.t, s.g, d, clock)
    requires Guarded(s.t, s.g, d) && Enrolled(s.t, All(s)) && Orderly(s'.t.info, All(s'))
    ensures FencesRespected(s'.t, d) && FencesKept(s'.t, s'.g, d, clock + 1)
  {
    hide Steps, FencesRespected, FencesKept, Guarded, Enrolled, AllOrdered, Orderly;
    EnrolledKeys(s.t, All(s));
    OrderlyIs(s'.t.info, All(s'));
    PendingKept(m, s, o, s', clock, k, d);
    FencesStillRespected(m, s, o, s', clock, k, d);
  }

  lemma KeptAt(m: Machine, run: nat -> Snapshot, offers: nat -> Offer, courses: nat -> Course, n: nat, d: Side)
    requires IsRun(m, run, offers, courses) && OfProgram(run)
    ensures Guarded(run(n).t, run(n).g, d) && Enrolled(run(n).t, All(run(n)))
    ensures Orderly(run(n + 1).t.info, All(run(n + 1)))
  {
    hide Steps, Orderly, Guarded, Enrolled, Starts, IsRun;
    RunKeeps(m, run, offers, courses, n);
    assert Guarded(run(n).t, run(n).g, d);
  }

  lemma BeginsRespecting(m: Machine, run: nat -> Snapshot, offers: nat -> Offer, courses: nat -> Course, d: Side)
    requires IsRun(m, run, offers, courses)
    ensures FencesRespected(run(0).t, d) && FencesKept(run(0).t, run(0).g, d, 0)
  {
    hide Steps, FencesRespected, FencesKept, Starts;
    NothingRespected(m, run(0), d);
  }

  lemma {:induction false} RunRespects(m: Machine, run: nat -> Snapshot, offers: nat -> Offer, courses: nat -> Course,
                                       n: nat, d: Side)
    requires IsRun(m, run, offers, courses) && OfProgram(run)
    ensures FencesRespected(run(n).t, d) && FencesKept(run(n).t, run(n).g, d, n)
  {
    hide *;
    if n == 0 {
      BeginsRespecting(m, run, offers, courses, d);
    } else {
      RunRespects(m, run, offers, courses, n - 1, d);
      KeptAt(m, run, offers, courses, n - 1, d);
      InRun(m, run, offers, courses, n - 1);
      CycleRespects(m, run(n - 1), offers(n - 1), run(n), n - 1, courses(n - 1), d);
    }
  }

  lemma OrderlyIs(info: map<nat, Info>, us: seq<nat>)
    requires Orderly(info, us)
    ensures AllOrdered(info, us)
  {}

  lemma NothingRespected(m: Machine, s: Snapshot, d: Side)
    requires Starts(m, s)
    ensures FencesRespected(s.t, d) && FencesKept(s.t, s.g, d, 0)
  {
    hide Holds;
  }

  /** In every run a load is dispatched only after every load fence before it has been executed, and a store only after
      every store fence. */
  lemma AccessesWaitForFences(m: Machine, run: nat -> Snapshot, offers: nat -> Offer, courses: nat -> Course, n: nat,
                              d: Side, f: nat, u: nat)
    requires IsRun(m, run, offers, courses) && OfProgram(run) && FenceIn(run(n).t, f, d) && f < u
    requires u in run(n).t.dispatched && u in run(n).t.info && IsAccess(run(n).t.info[u], d)
    requires !run(n).t.info[u].isLoadSerializing && !run(n).t.info[u].isStoreSerializing
    ensures f in run(n).t.executed && run(n).t.executed[f] < run(n).t.dispatched[u]
  {
    RunRespects(m, run, offers, courses, n, d);
    InRun(m, run, offers, courses, n);
    StepHolds(m, run(n), offers(n), run(n + 1), n, courses(n));
    ReadyBeforeDispatch(m, run(n), n, u);
    hide IsRun, OfProgram, Steps, FencesKept, FenceIn, IsAccess, Holds;
    RespectedSo(run(n).t, d, f, u);
  }

  lemma RespectedSo(t: Table, d: Side, f: nat, u: nat)
    requires FencesRespected(t, d) && FenceIn(t, f, d) && PlainAccess(t, u, d) && f < u
    ensures WaitedFor(t, f, u)
  {
    hide FenceIn, PlainAccess, WaitedFor;
  }

  lemma ReadyBeforeDispatch(m: Machine, s: Snapshot, next: nat, u: nat)
    requires Holds(m, s, next) && u in s.t.dispatched
    ensures u in s.t.actualPort && u in s.t.readyForDispatch && s.t.readyForDispatch[u] <= s.t.dispatched[u]
  {
    hide Tokens, Placed, FencesPending, BooksKept, PendingExact, DivisionsApart, DividerFree, Linked, Registered;
    hide ReadyInTime, ExecutedInTime, Remembered;
  }

  // Throughput

  /** The uop is the first of an instruction with this name. */
  predicate Begins(t: Table, u: nat, instr: string) {
    u in t.info && t.info[u].isFirstOfInstr && t.info[u].instr == instr
  }

  function Remaining(g: Guards, r: Resource): nat {
    if r in g.blocked then g.blocked[r] else 0
  }

  lemma NotedBusy(g: Guards, i: Info, u: nat, r: Resource)
    requires r.Instr? ==> !(i.isFirstOfInstr && i.instr == r.name)
    ensures Remaining(Noted(g, i, u), r) == Remaining(g, r)
  {}

  /** A fence that becomes ready is pending. */
  ghost predicate FencesListed(t: Table, ready: set<nat>, g: Guards) {
    forall u :: u in ready && u in t.info && t.info[u].isFirstOfInstr ==>
      && (t.info[u].isLoadSerializing ==> g.loadFences != []) && (t.info[u].isStoreSerializing ==> g.storeFences != [])
  }

  /** While an instruction is busy none becomes ready. */
  lemma {:induction false} BusyStays(t: Table, t': Table, us: seq<nat>, i: nat, ready: set<nat>, clock: nat, g: Guards,
                                     h: Guards, instr: string)
    requires Sorted(t, t', us, ready, clock, g, h) && i <= |us| && Remaining(g, Instr(instr)) > 0
    requires FencesListed(t, ready, g)
    ensures Remaining(NotedAll(g, t, us[..i], ready), Instr(instr)) == Remaining(g, Instr(instr))
    ensures forall j :: 0 <= j < i && us[j] in ready ==> !Begins(t, us[j], instr)
  {
    hide HeldBack, Noted;
    if i > 0 {
      BusyStays(t, t', us, i - 1, ready, clock, g, h, instr);
      var before, u := NotedAll(g, t, us[..i - 1], ready), us[i - 1];
      assert us[..i] == us[..i - 1] + [u];
      NotedNext(g, t, us[..i - 1], ready, u);
      NotedFences(g, t, us[..i - 1], ready);
      assert InTurn(t, us, ready, clock, g, i - 1);
      hide NotedAll;
      if u in ready && u in t.info {
        NotBusy(t, u, clock, before);
        NotedBusy(before, t.info[u], u, Instr(instr));
      }
    }
  }

  /** A uop that is not held back begins no busy instruction. */
  lemma NotBusy(t: Table, u: nat, clock: nat, g: Guards)
    requires u in t.info && !IsHeld(t, u, clock, g)
    requires t.info[u].isFirstOfInstr && t.info[u].isLoadSerializing ==> g.loadFences != []
    requires t.info[u].isFirstOfInstr && t.info[u].isStoreSerializing ==> g.storeFences != []
    ensures forall instr :: Begins(t, u, instr) ==> Remaining(g, Instr(instr)) == 0
  {
    hide ExecutedBy;
  }

  /** After a uop has become ready its instruction is busy for its throughput. */
  lemma {:induction false} MadeBusy(t: Table, t': Table, us: seq<nat>, i: nat, ready: set<nat>, clock: nat, g: Guards,
                                    h: Guards, u: nat, j: nat)
    requires Sorted(t, t', us, ready, clock, g, h) && j < i <= |us| && us[j] == u && u in ready && NoDuplicates(us)
    requires FencesListed(t, ready, g) && u in t.info && t.info[u].isFirstOfInstr && t.info[u].tp.Some?
    ensures t.info[u].tp.value > 0 ==>
              && Remaining(NotedAll(g, t, us[..i], ready), Instr(t.info[u].instr)) == t.info[u].tp.value
              && forall l :: j < l < i && us[l] in ready ==> !Begins(t, us[l], t.info[u].instr)
  {
    hide HeldBack, Noted;
    var last, before := us[i - 1], NotedAll(g, t, us[..i - 1], ready);
    assert us[..i] == us[..i - 1] + [last];
    NotedNext(g, t, us[..i - 1], ready, last);
    if i - 1 == j {
      NowBusy(before, t.info[u], u);
    } else {
      MadeBusy(t, t', us, i - 1, ready, clock, g, h, u, j);
      NotedFences(g, t, us[..i - 1], ready);
      assert InTurn(t, us, ready, clock, g, i - 1);
      hide NotedAll;
      if last in ready && last in t.info && t.info[u].tp.value > 0 {
        NotBusy(t, last, clock, before);
        NotedBusy(before, t.info[last], last, Instr(t.info[u].instr));
      }
    }
  }

  lemma NowBusy(g: Guards, i: Info, u: nat)
    requires i.isFirstOfInstr && i.tp.Some?
    ensures Remaining(Noted(g, i, u), Instr(i.instr)) == i.tp.value
  {}

  lemma OccupiedOther(t: Table, slow256BitMemAcc: bool, blocked: map<Resource, nat>, us: seq<nat>, instr: string)
    ensures var b := OccupiedAll(t, slow256BitMemAcc, blocked, us);
            && (Instr(instr) in b <==> Instr(instr) in blocked)
            && (Instr(instr) in b ==> b[Instr(instr)] == blocked[Instr(instr)])
  {
    if us != [] {
      OccupiedOther(t, slow256BitMemAcc, blocked, us[..|us| - 1], instr);
    }
  }

  /** An executed uop was dispatched at least two cycles before. */
  lemma ExecutedAfterReady(m: Machine, s: Snapshot, next: nat, u: nat)
    requires Holds(m, s, next) && u in s.t.executed && u in s.t.actualPort && u in s.t.readyForDispatch
    ensures s.t.readyForDispatch[u] + 2 <= s.t.executed[u]
  {
    hide Tokens, Placed, FencesPending, BooksKept, PendingExact, DivisionsApart, DividerFree, Linked, Registered;
    hide ReadyInTime, Remembered, AllSettled;
    assert CausalExecuted(s.t, u);
  }

  lemma SortedReady(t: Table, t': Table, us: seq<nat>, ready: set<nat>, clock: nat, g: Guards, h: Guards)
    requires Sorted(t, t', us, ready, clock, g, h)
    ensures t'.info == t.info && forall u :: u in ready ==> u in us && u in t'.readyForDispatch && u !in t.readyForDispatch
  {
    hide InTurn, NotedAll;
    forall u | u in ready
      ensures u in us && u in t'.readyForDispatch && u !in t.readyForDispatch
    {
      assert u in t'.readyForDispatch.Keys;
    }
  }

  /** The uops that become ready in a cycle. */
  lemma CycleReadies(m: Machine, s: Snapshot, o: Offer, s': Snapshot, clock: nat, k: Course)
    requires Steps(m, s, o, s', clock, k)
    ensures k.executed.info == s'.t.info
    ensures forall u :: u in k.readied ==>
              u in k.waiting && u in s'.t.readyForDispatch && u !in s.t.readyForDispatch
  {
    hide Steps, Sorted, Accepted, Arrivals;
    CycleSorts(m, s, o, s', clock, k);
    CycleConnects(m, s, o, s', clock, k);
    SameReadyBefore(s.t, Accepted(m, s, o).infos, Arrivals(m, s, o), k, s'.t, clock);
    hide Connected;
    SortedReady(k.executed, s'.t, k.waiting, k.readied, clock, k.before, k.after);
  }

  lemma ReadyBound(m: Machine, s: Snapshot, next: nat)
    requires Holds(m, s, next)
    ensures s.t.readyForDispatch.Keys <= s.t.actualPort.Keys
  {
    hide Tokens, Placed, FencesPending, BooksKept, PendingExact, DivisionsApart, DividerFree, Linked, Registered;
    hide ReadyInTime, ExecutedInTime, Remembered;
  }

  /** A fence that becomes ready in a cycle is pending. */
  lemma ReadiedFence(m: Machine, s: Snapshot, next: nat, u: nat, g: Guards, d: Side)
    requires Holds(m, s, next) && FencesKept(s.t, g, d, next) && u in s.t.readyForDispatch && u in s.t.info
    requires next <= s.t.readyForDispatch[u]
    ensures IsFence(s.t.info[u], d) ==> Fences(g, d) != []
  {
    ReadyBound(m, s, next);
    if u in s.t.executed {
      ExecutedAfterReady(m, s, next, u);
    }
    hide Holds;
    assert IsFence(s.t.info[u], d) ==> FenceIn(s.t, u, d);
  }

  lemma CycleReadiesLater(m: Machine, s: Snapshot, o: Offer, s': Snapshot, clock: nat, k: Course)
    requires Steps(m, s, o, s', clock, k)
    ensures k.executed.info == s'.t.info
    ensures forall u :: u in k.readied ==> u in s'.t.readyForDispatch && s'.t.readyForDispatch[u] > clock
  {
    hide Steps;
    CycleReadies(m, s, o, s', clock, k);
    forall u | u in k.readied
      ensures s'.t.readyForDispatch[u] > clock
    {
      ReadiedLater(m, s, o, s', clock, k, u);
    }

  }

  lemma AllListed(m: Machine, s: Snapshot, next: nat, t: Table, ready: set<nat>, g: Guards)
    requires Holds(m, s, next) && FencesKept(s.t, g, Loads, next) && FencesKept(s.t, g, Stores, next)
    requires t.info == s.t.info
    requires forall u :: u in ready ==> u in s.t.readyForDispatch && s.t.readyForDispatch[u] >= next
    ensures FencesListed(t, ready, g)
  {
    hide Holds, FencesKept;
    forall u | u in ready && u in s.t.info && s.t.info[u].isFirstOfInstr
      ensures (s.t.info[u].isLoadSerializing ==> g.loadFences != [])
              && (s.t.info[u].isStoreSerializing ==> g.storeFences != [])
    {
      ReadiedFence(m, s, next, u, g, Loads);
      ReadiedFence(m, s, next, u, g, Stores);
    }
  }

  lemma ReadiedListed(m: Machine, s: Snapshot, o: Offer, s': Snapshot, clock: nat, k: Course)
    requires Steps(m, s, o, s', clock, k)
    requires FencesKept(s.t, s.g, Loads, clock) && FencesKept(s.t, s.g, Stores, clock)
    ensures FencesListed(k.executed, k.readied, k.before)
  {
    hide Steps, Holds, FencesKept, FencesListed;
    FencesPendingNow(m, s, o, s', clock, k, Loads);
    FencesPendingNow(m, s, o, s', clock, k, Stores);
    CycleReadiesLater(m, s, o, s', clock, k);
    StepHolds(m, s, o, s', clock, k);
    FencesKeptOn(s'.t, k.before, clock);
    AllListed(m, s', clock + 1, k.executed, k.readied, k.before);
  }

  lemma FencesKeptOn(t: Table, g: Guards, next: nat)
    ensures forall d :: FencesKept(t, g, d, next) ==> FencesKept(t, g, d, next + 1)
  {}

  /** What a cycle leaves of the time for which an instruction is busy. */
  lemma BusyNext(m: Machine, s: Snapshot, o: Offer, s': Snapshot, clock: nat, k: Course, instr: string)
    requires Steps(m, s, o, s', clock, k)
    ensures Remaining(k.before, Instr(instr)) == Remaining(s.g, Instr(instr))
    ensures Remaining(s'.g, Instr(instr)) == OneLess(Remaining(k.after, Instr(instr)))
  {
    hide Steps;
    CycleOccupies(m, s, o, s', clock, k);
    CycleEnds(m, s, o, s', clock, k);
    OccupiedOther(k.bound, m.sc.slow256BitMemAcc, s.g.blocked, s'.prev, instr);
    hide OccupiedAll;
    EndedBusy(k.after, s'.t, clock, Instr(instr));
  }

  lemma EndedBusy(g: Guards, t: Table, clock: nat, r: Resource)
    ensures Remaining(Ended(g, t, clock), r) == OneLess(Remaining(g, r))
  {}

  lemma CycleOccupies(m: Machine, s: Snapshot, o: Offer, s': Snapshot, clock: nat, k: Course)
    requires Steps(m, s, o, s', clock, k)
    ensures k.before.blocked == OccupiedAll(k.bound, m.sc.slow256BitMemAcc, s.g.blocked, s'.prev)
  {
    CycleMoves(m, s, o, s', clock, k);
    hide Steps, Released, Chosen, PortsOut, TableIssued, PendingExact, AllUnknown, Without, DispatchedThese, OccupiedAll;
  }

  lemma CycleEnds(m: Machine, s: Snapshot, o: Offer, s': Snapshot, clock: nat, k: Course)
    requires Steps(m, s, o, s', clock, k)
    ensures s'.g == Ended(k.after, s'.t, clock)
  {
    CycleBinds(m, s, o, s', clock, k);
    hide Steps, Arrivals, WithFences, Ended, Sorted, FinishedRight, PortBound;
  }

  /** A uop that begins an instruction becomes ready in the cycle. */
  ghost predicate BeginsIn(s': Snapshot, k: Course, u: nat, instr: string) {
    u in k.readied && Begins(s'.t, u, instr)
  }

  /** No uop that begins the instruction becomes ready in the cycle. */
  ghost predicate NoneBegins(s': Snapshot, k: Course, instr: string) {
    forall u :: !BeginsIn(s', k, u, instr)
  }

  lemma BusyNone(t: Table, t': Table, us: seq<nat>, ready: set<nat>, clock: nat, g: Guards, h: Guards, instr: string)
    requires Sorted(t, t', us, ready, clock, g, h) && FencesListed(t, ready, g) && Remaining(g, Instr(instr)) > 0
    ensures Remaining(h, Instr(instr)) == Remaining(g, Instr(instr))
    ensures forall u :: u in ready ==> !Begins(t', u, instr)
  {
    hide InTurn, NotedAll, Remaining, FencesListed;
    assert us[..|us|] == us;
    BusyStays(t, t', us, |us|, ready, clock, g, h, instr);
    forall u | u in ready
      ensures !Begins(t', u, instr)
    {
      var j :| 0 <= j < |us| && us[j] == u;
      assert !Begins(t, us[j], instr);
    }
  }

  lemma BusyFrom(t: Table, t': Table, us: seq<nat>, ready: set<nat>, clock: nat, g: Guards, h: Guards, u: nat)
    requires Sorted(t, t', us, ready, clock, g, h) && FencesListed(t, ready, g) && u in ready && u in t'.info
    requires t'.info[u].isFirstOfInstr && t'.info[u].tp.Some? && t'.info[u].tp.value > 0
    ensures Remaining(h, Instr(t'.info[u].instr)) == t'.info[u].tp.value
  {
    hide InTurn, NotedAll, Remaining, FencesListed, Begins;
    assert us[..|us|] == us;
    var j :| 0 <= j < |us| && us[j] == u;
    MadeBusy(t, t', us, |us|, ready, clock, g, h, u, j);
  }

  /** In a cycle in which an instruction is busy none becomes ready, and it stays busy for one cycle less. */
  lemma BusyCycle(m: Machine, s: Snapshot, o: Offer, s': Snapshot, clock: nat, k: Course, instr: string)
    requires Steps(m, s, o, s', clock, k) && FencesListed(k.executed, k.readied, k.before)
    requires Remaining(s.g, Instr(instr)) > 0
    ensures Remaining(s'.g, Instr(instr)) == Remaining(s.g, Instr(instr)) - 1
    ensures NoneBegins(s', k, instr)
  {
    hide Steps, Sorted, Remaining, FencesListed, Begins;
    BusyNext(m, s, o, s', clock, k, instr);
    CycleSorts(m, s, o, s', clock, k);
    BusyNone(k.executed, s'.t, k.waiting, k.readied, clock, k.before, k.after, instr);
  }

  /** When a uop that begins an instruction becomes ready, the instruction stays busy for its throughput. */
  lemma BeginsCycle(m: Machine, s: Snapshot, o: Offer, s': Snapshot, clock: nat, k: Course, u: nat, instr: string)
    requires Steps(m, s, o, s', clock, k) && FencesListed(k.executed, k.readied, k.before)
    requires BeginsIn(s', k, u, instr) && s'.t.info[u].tp.Some? && s'.t.info[u].tp.value > 0
    ensures Remaining(s'.g, Instr(instr)) == s'.t.info[u].tp.value - 1
  {
    hide Steps, Sorted, Remaining, FencesListed;
    BusyNext(m, s, o, s', clock, k, instr);
    CycleSorts(m, s, o, s', clock, k);
    BusyFrom(k.executed, s'.t, k.waiting, k.readied, clock, k.before, k.after, u);
  }

  lemma {:induction false} StaysBusy(m: Machine, run: nat -> Snapshot, offers: nat -> Offer, courses: nat -> Course,
                                     n: nat, l: nat, instr: string)
    requires IsRun(m, run, offers, courses) && OfProgram(run) && n <= l
    requires Remaining(run(n).g, Instr(instr)) > l - n
    ensures Remaining(run(l).g, Instr(instr)) == Remaining(run(n).g, Instr(instr)) - (l - n)
    ensures NoneBegins(run(l + 1), courses(l), instr)
    decreases l
  {
    hide *;
    if n < l {
      StaysBusy(m, run, offers, courses, n, l - 1, instr);
      BusyAt(m, run, offers, courses, l - 1, instr);
    }
    BusyAt(m, run, offers, courses, l, instr);
  }

  lemma ListedAt(m: Machine, run: nat -> Snapshot, offers: nat -> Offer, courses: nat -> Course, n: nat)
    requires IsRun(m, run, offers, courses) && OfProgram(run)
    ensures Steps(m, run(n), offers(n), run(n + 1), n, courses(n))
    ensures FencesListed(courses(n).executed, courses(n).readied, courses(n).before)
  {
    hide Steps, Orderly, FencesRespected, FencesKept, FencesListed;
    InRun(m, run, offers, courses, n);
    RunRespects(m, run, offers, courses, n, Loads);
    RunRespects(m, run, offers, courses, n, Stores);
    ReadiedListed(m, run(n), offers(n), run(n + 1), n, courses(n));
  }

  lemma BusyAt(m: Machine, run: nat -> Snapshot, offers: nat -> Offer, courses: nat -> Course, n: nat, instr: string)
    requires IsRun(m, run, offers, courses) && OfProgram(run) && Remaining(run(n).g, Instr(instr)) > 0
    ensures Remaining(run(n + 1).g, Instr(instr)) == Remaining(run(n).g, Instr(instr)) - 1
    ensures NoneBegins(run(n + 1), courses(n), instr)
  {
    hide Steps, Orderly, Remaining, NoneBegins, FencesListed;
    ListedAt(m, run, offers, courses, n);
    BusyCycle(m, run(n), offers(n), run(n + 1), n, courses(n), instr);
  }

  /** The uop becomes ready in cycle `n` and begins an instruction with this throughput. */
  ghost predicate BeginsAt(run: nat -> Snapshot, courses: nat -> Course, n: nat, u: nat, instr: string, tp: nat) {
    BeginsIn(run(n + 1), courses(n), u, instr) && run(n + 1).t.info[u].tp == Some(tp)
  }

  lemma BusyAfter(m: Machine, run: nat -> Snapshot, offers: nat -> Offer, courses: nat -> Course, n: nat, u: nat,
                  instr: string, tp: nat)
    requires IsRun(m, run, offers, courses) && OfProgram(run) && BeginsAt(run, courses, n, u, instr, tp) && tp > 0
    ensures Remaining(run(n + 1).g, Instr(instr)) == tp - 1
  {
    hide Steps, Orderly, Remaining, FencesListed, FencesKept, FencesRespected;
    ListedAt(m, run, offers, courses, n);
    BeginsCycle(m, run(n), offers(n), run(n + 1), n, courses(n), u, instr);
  }

  /** In every run, after a uop that begins an instruction has become ready, none that begins the same instruction does
      until the throughput of the instruction has passed. */
  lemma ThroughputRespected(m: Machine, run: nat -> Snapshot, offers: nat -> Offer, courses: nat -> Course, n: nat,
                            l: nat, u: nat, instr: string, tp: nat)
    requires IsRun(m, run, offers, courses) && OfProgram(run) && BeginsAt(run, courses, n, u, instr, tp)
    requires n < l < n + tp
    ensures NoneBegins(run(l + 1), courses(l), instr)
  {
    hide *;
    BusyAfter(m, run, offers, courses, n, u, instr, tp);
    StaysBusy(m, run, offers, courses, n + 1, l, instr);
  }

  /** And it holds none back for longer: with nothing else that begins the instruction it is free again when its throughput
      has passed. */
  lemma ThroughputPasses(m: Machine, run: nat -> Snapshot, offers: nat -> Offer, courses: nat -> Course, n: nat, u: nat,
                         instr: string, tp: nat)
    requires IsRun(m, run, offers, courses) && OfProgram(run) && BeginsAt(run, courses, n, u, instr, tp) && tp > 0
    ensures Remaining(run(n + tp).g, Instr(instr)) == 0
  {
    hide *;
    BusyAfter(m, run, offers, courses, n, u, instr, tp);
    if tp > 1 {
      StaysBusy(m, run, offers, courses, n + 1, n + tp - 1, instr);
      BusyAt(m, run, offers, courses, n + tp - 1, instr);
    }
  }

  // The divider and port 4

  function DivCyclesOf(t: Table, us: seq<nat>): nat {
    if us == [] then 0 else DivCyclesOf(t, us[..|us| - 1]) + DivCycles(t, us[|us| - 1])
  }

  /** A uop with a 256-bit access on port 4. */
  predicate IsWideStore(t: Table, u: nat) {
    PortIs(t, u, "4") && u in t.info && t.info[u].isM256 && t.info[u].divCycles == 0
  }

  lemma {:induction false} OccupiedDivider(t: Table, slow256BitMemAcc: bool, blocked: map<Resource, nat>, us: seq<nat>,
                                           g: Guards, h: Guards)
    requires g.blocked == blocked && h.blocked == OccupiedAll(t, slow256BitMemAcc, blocked, us)
    ensures Remaining(h, Divider) == Remaining(g, Divider) + DivCyclesOf(t, us)
    decreases us
  {
    if us != [] {
      var front := us[..|us| - 1];
      OccupiedDivider(t, slow256BitMemAcc, blocked, front, g, h.(blocked := OccupiedAll(t, slow256BitMemAcc, blocked, front)));
    }
  }

  lemma {:induction false} OccupiedPort(t: Table, slow256BitMemAcc: bool, blocked: map<Resource, nat>, us: seq<nat>,
                                        g: Guards, h: Guards)
    requires g.blocked == blocked && h.blocked == OccupiedAll(t, slow256BitMemAcc, blocked, us)
    ensures Remaining(h, StorePort("4")) ==
            if slow256BitMemAcc && exists u :: u in us && IsWideStore(t, u) then 2 else Remaining(g, StorePort("4"))
    decreases us
  {
    if us != [] {
      var front, last := us[..|us| - 1], us[|us| - 1];
      OccupiedPort(t, slow256BitMemAcc, blocked, front, g, h.(blocked := OccupiedAll(t, slow256BitMemAcc, blocked, front)));
      assert us == front + [last];
      assert forall u :: u in us <==> u in front || u == last;
      OccupiedOne(t, slow256BitMemAcc, OccupiedAll(t, slow256BitMemAcc, blocked, front), last);
    }
  }

  lemma OccupiedOne(t: Table, slow256BitMemAcc: bool, blocked: map<Resource, nat>, u: nat)
    ensures var b := Occupied(t, slow256BitMemAcc, blocked, u);
            && (slow256BitMemAcc && IsWideStore(t, u) ==> StorePort("4") in b && b[StorePort("4")] == 2)
            && (!(slow256BitMemAcc && IsWideStore(t, u)) ==>
                  && (StorePort("4") in b <==> StorePort("4") in blocked)
                  && (StorePort("4") in b ==> b[StorePort("4")] == blocked[StorePort("4")]))
  {}

  lemma NotedKeepsBusy(g: Guards, t: Table, us: seq<nat>, ready: set<nat>, r: Resource)
    requires !r.Instr?
    ensures Remaining(NotedAll(g, t, us, ready), r) == Remaining(g, r)
  {
    if us != [] {
      NotedKeepsBusy(g, t, us[..|us| - 1], ready, r);
    }
  }

  lemma CycleKeepsBusy(m: Machine, s: Snapshot, o: Offer, s': Snapshot, clock: nat, k: Course, r: Resource)
    requires Steps(m, s, o, s', clock, k) && !r.Instr?
    ensures Remaining(s'.g, r) == OneLess(Remaining(k.before, r))
  {
    hide Steps, Sorted, NotedAll;
    CycleEnds(m, s, o, s', clock, k);
    CycleSorts(m, s, o, s', clock, k);
    NotedAtLast(k.executed, s'.t, k.waiting, k.readied, clock, k.before, k.after);
    NotedKeepsBusy(k.before, k.executed, k.waiting, k.readied, r);
    EndedBusy(k.after, s'.t, clock, r);
  }

  /** The divider stays busy for the cycles of the divisions dispatched, each cycle one less. */
  lemma DividerNext(m: Machine, s: Snapshot, o: Offer, s': Snapshot, clock: nat, k: Course)
    requires Steps(m, s, o, s', clock, k)
    ensures Remaining(s'.g, Divider) == OneLess(Remaining(s.g, Divider) + DivCyclesOf(k.bound, s'.prev))
  {
    hide Steps, OccupiedAll, DivCyclesOf;
    CycleKeepsBusy(m, s, o, s', clock, k, Divider);
    CycleOccupies(m, s, o, s', clock, k);
    OccupiedDivider(k.bound, m.sc.slow256BitMemAcc, s.g.blocked, s'.prev, s.g, k.before);
  }

  /** Port 4 is busy in the cycle after a slow 256-bit store, and in no other. */
  lemma PortFourNext(m: Machine, s: Snapshot, o: Offer, s': Snapshot, clock: nat, k: Course)
    requires Steps(m, s, o, s', clock, k)
    ensures Remaining(s'.g, StorePort("4")) ==
            if m.sc.slow256BitMemAcc && exists u :: u in s'.prev && IsWideStore(k.bound, u) then 1
            else OneLess(Remaining(s.g, StorePort("4")))
  {
    hide Steps, OccupiedAll, IsWideStore;
    CycleKeepsBusy(m, s, o, s', clock, k, StorePort("4"));
    CycleOccupies(m, s, o, s', clock, k);
    OccupiedPort(k.bound, m.sc.slow256BitMemAcc, s.g.blocked, s'.prev, s.g, k.before);
  }
}

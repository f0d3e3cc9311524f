/** The back end of the pipeline (the first part of `FrontEnd.cycle` in uiCA.py): uops are issued to the reorder buffer
    and the scheduler, executed out of order and retired in order. */
module BackEnd {
  import opened Wrappers
  import opened Uops
  import opened UopSteps
  import opened SchedulerTokens
  import opened SchedulerState
  import opened SchedulerSteps
  import opened SchedulerDispatch
  import opened SchedulerExecution
  import SchedulerChoices
  import Reorder = ReorderBuffer
  import Scheduler

  /** What the renamer offers to the back end: new uops in program order, each with what is known of it, and for each
      uop the port that the scheduler chooses. */
  datatype Offer = Offer(fused: seq<FusedUop>, infos: map<nat, Info>, choice: map<nat, string>)

  ghost predicate WellFormed(o: Offer, t: Table, issued: seq<FusedUop>, ports: set<string>) {
    var us := Unfused(o.fused);
    && NoDuplicates(us) && SetOf(us) == o.infos.Keys && New(t, o.infos)
    && Supplied(t.info + o.infos, t.actualPort.Keys, us, o.choice, ports)
    && Reorder.DistinctIdx(issued + o.fused)
  }

  /** Nothing of what the scheduler looks at changes when uops without a port are executed at issue. */
  ghost predicate OutsideScheduler(t: Table, s: Table) {
    && s == t.(info := s.info, issued := s.issued, executed := s.executed) && Later(t, s)
    && forall u :: u in t.actualPort ==> (u in s.executed <==> u in t.executed)
  }

  lemma PlacedOutside(t: Table, s: Table, place: map<nat, Place>, before: nat, due: nat)
    requires Placed(t, place, before, due) && OutsideScheduler(t, s)
    ensures Placed(s, place, before, due)
  {
    hide ReadyCycle, AllAnswered, Later, InPlace;
    forall u | u in place
      ensures InPlace(s, u, place[u], before, due)
    {
      WaitedFor(t, u, place[u], before, due);
      StaysInPlace(t, s, u, place[u], before, due);
    }
  }

  lemma WaitedFor(t: Table, u: nat, w: Place, before: nat, due: nat)
    requires InPlace(t, u, w, before, due)
    ensures u !in t.dispatched
    ensures w.Waits? ==> w.producer in t.actualPort && w.producer !in t.executed
  {}

  /** Uops without a port have no place in the scheduler, so that executing them at issue leaves it as it is. */
  lemma SchedulerUnaware(t: Table, s: Table, q: Queues, place: map<nat, Place>, next: nat, delay: nat,
                         uops: set<nat>, usage: map<string, int>, prev: seq<nat>, pending: set<nat>, free: nat,
                         loadFences: seq<nat>, storeFences: seq<nat>)
    requires Consistent(t, q, place, next, next, delay) && BooksKept(t, uops, place, usage, prev)
    requires FencesPending(t, place, loadFences, storeFences) && PendingExact(t, pending)
    requires DividerFree(t, free) && DivisionsApart(t)
    requires OutsideScheduler(t, s) && Sound(s, delay)
    ensures Consistent(s, q, place, next, next, delay) && BooksKept(s, uops, place, usage, prev)
    ensures FencesPending(s, place, loadFences, storeFences) && PendingExact(s, pending)
    ensures DividerFree(s, free) && DivisionsApart(s)
  {
    PlacedOutside(t, s, place, next, next);
    PendingOutside(t, s, delay, pending);
    DividerOutside(t, s, free, delay);
    FencesOutside(t, s, place, next, loadFences, storeFences);
    hide Sound, Tokens, Placed, FencesPending, DividerFree, DivisionsApart, PendingExact;
    SameBooks(t, s, uops, place, place, usage, prev);
  }

  lemma PendingOutside(t: Table, s: Table, delay: nat, pending: set<nat>)
    requires PendingExact(t, pending) && OutsideScheduler(t, s) && Sound(t, delay)
    ensures PendingExact(s, pending)
  {
    hide Later, Causal, Linked;
  }

  lemma DividerOutside(t: Table, s: Table, free: nat, delay: nat)
    requires DividerFree(t, free) && DivisionsApart(t) && OutsideScheduler(t, s) && Sound(t, delay)
    ensures DividerFree(s, free) && DivisionsApart(s)
  {
    hide Causal, Linked;
    forall u | u in t.dispatched
      ensures DivCycles(s, u) == DivCycles(t, u)
    {
      assert u in t.actualPort;
    }
    forall u, v | u in s.dispatched && v in s.dispatched
      ensures Apart(s, u, v)
    {
      assert Apart(t, u, v);
    }
  }

  lemma FencesOutside(t: Table, s: Table, place: map<nat, Place>, next: nat, loadFences: seq<nat>,
                      storeFences: seq<nat>)
    requires FencesPending(t, place, loadFences, storeFences) && OutsideScheduler(t, s)
    requires Placed(t, place, next, next)
    ensures FencesPending(s, place, loadFences, storeFences)
  {
    hide ReadyCycle, AllAnswered;
    forall u | u in place
      ensures u in t.info && u in s.info && s.info[u] == t.info[u]
    {
      assert InPlace(t, u, place[u], next, next);
    }
  }

  /** The uops of an offer, once they have been issued and those without a port have been executed. */
  lemma OfferIssued(t: Table, delay: nat, o: Offer, issued: seq<FusedUop>, ports: set<string>, clock: nat)
    requires Sound(t, delay) && WellFormed(o, t, issued, ports)
    ensures var us, s := Unfused(o.fused), Issued(t, o.infos, clock);
            var r := Reorder.Admitted(s, us, clock);
            && Sound(r, delay) && OutsideScheduler(t, r) && Extends(s.executed, r.executed) && JustIssued(r, us)
            && Supplied(r.info, r.actualPort.Keys, us, o.choice, ports) && Later(t, s)
  {
    hide Supplied, Reorder.Admitted, Sound, Later, Extends, New;
    var us, s := Unfused(o.fused), Issued(t, o.infos, clock);
    var r := Reorder.Admitted(s, us, clock);
    NewUops(t, delay, o, issued, ports);
    IssuedSound(t, delay, o.infos, clock);
    Reorder.AdmittedSound(s, delay, us, clock);
    Reorder.AdmittedOnly(s, us, clock);
    LaterTrans(t, s, r);
    LaterExecuted(s, r);
    LaterExecuted(t, r);
    NewIssued(t, o.infos, us, clock, r);
  }

  lemma NewIssued(t: Table, infos: map<nat, Info>, us: seq<nat>, clock: nat, r: Table)
    requires forall u :: u in us ==> u in infos && u !in t.executed && u !in t.actualPort
    requires var s := Issued(t, infos, clock);
             && r == s.(executed := r.executed)
             && (forall u :: u in r.executed ==>
                   u in s.executed || (u in us && u in s.info && !PortBound(s.info[u]) && r.executed[u] == clock))
    requires Extends(t.executed, r.executed)
    ensures JustIssued(r, us)
    ensures forall u :: u in t.actualPort ==> (u in r.executed <==> u in t.executed)
  {}

  lemma LaterExecuted(t: Table, s: Table)
    requires Later(t, s)
    ensures Extends(t.executed, s.executed)
  {}

  lemma NewUops(t: Table, delay: nat, o: Offer, issued: seq<FusedUop>, ports: set<string>)
    requires Sound(t, delay) && WellFormed(o, t, issued, ports)
    ensures forall u :: u in Unfused(o.fused) ==> u in o.infos && u !in t.executed && u !in t.actualPort
  {
    hide Supplied, Causal, Linked;
    forall u | u in Unfused(o.fused)
      ensures u in o.infos
    {
      assert u in SetOf(Unfused(o.fused));
    }
  }

  const NO_OFFER := Offer([], map[], map[])

  lemma NothingOffered(t: Table, issued: seq<FusedUop>, ports: set<string>)
    requires Reorder.DistinctIdx(issued)
    ensures WellFormed(NO_OFFER, t, issued, ports)
  {
    assert issued + [] == issued;
    assert t.info + map[] == t.info;
  }

  lemma OfferFits(t: Table, delay: nat, q: Queues, place: map<nat, Place>, clock: nat, o: Offer, issued: seq<FusedUop>,
                  ports: set<string>)
    requires Consistent(t, q, place, clock, clock, delay) && WellFormed(o, t, issued, ports)
    ensures var us, s := Unfused(o.fused), Issued(t, o.infos, clock);
            var r := Reorder.Admitted(s, us, clock);
            && Sound(r, delay) && OutsideScheduler(t, r) && Extends(s.executed, r.executed) && JustIssued(r, us)
            && Supplied(r.info, r.actualPort.Keys, us, o.choice, ports) && Later(t, s)
            && Extends(t.executed, s.executed) && Reorder.DistinctIdx(issued + o.fused) && Later(t, r)
  {
    OfferIssued(t, delay, o, issued, ports, clock);
    LaterExecuted(t, Issued(t, o.infos, clock));
  }

  /** The uops dispatched in a cycle are dispatched in that cycle. */
  ghost predicate DispatchedNow(t: Table, s: Table, clock: nat) {
    forall u :: u in s.dispatched && u !in t.dispatched ==> s.dispatched[u] == clock
  }

  lemma CycleLater(t: Table, s: Table, r: Table, clock: nat)
    requires Later(t, s) && CycleSteps(s, r, clock) && s.dispatched == t.dispatched
    ensures Later(t, r) && DispatchedNow(t, r, clock)
  {
    LaterTrans(t, s, r);
  }

  lemma StillRetired(s: Table, r: Table, retireOrder: seq<FusedUop>, retired: map<nat, Reorder.Retirement>, clock: nat)
    requires CycleSteps(s, r, clock) && Reorder.RetiredAfterExecution(s, retireOrder, retired)
    ensures Reorder.RetiredAfterExecution(r, retireOrder, retired)
  {
    Reorder.RetiredLater(s, r, retireOrder, retired);
  }

  // The state as a value

  datatype Machine = Machine(rc: Reorder.Config, sc: Scheduler.Config)

  /** What the back end holds between two cycles. */
  datatype Snapshot = Snapshot(
    t: Table, q: Queues, place: map<nat, Place>, g: SchedulerChoices.Guards, pending: set<nat>, uops: set<nat>,
    usage: map<string, int>, prev: seq<nat>, buffer: seq<FusedUop>, retired: seq<FusedUop>, issued: seq<FusedUop>)

  predicate RoomFor(m: Machine, s: Snapshot) {
    |s.buffer| + m.rc.issueWidth <= m.rc.rbWidth && |s.uops| + m.sc.issueWidth <= m.sc.rsWidth
  }

  /** What is issued: unless a buffer is full, all that is offered. */
  function Accepted(m: Machine, s: Snapshot, o: Offer): Offer {
    if RoomFor(m, s) then o else NO_OFFER
  }

  /** All that is offered is issued if reorder buffer and scheduler both have room for as many uops as can be issued in a
      cycle, and nothing otherwise. */
  lemma AcceptedExactly(m: Machine, s: Snapshot, o: Offer)
    ensures m.rc.rbWidth - |s.buffer| >= m.rc.issueWidth && m.sc.rsWidth - |s.uops| >= m.sc.issueWidth ==>
              Accepted(m, s, o) == o
    ensures m.rc.rbWidth - |s.buffer| < m.rc.issueWidth || m.sc.rsWidth - |s.uops| < m.sc.issueWidth ==>
              Accepted(m, s, o).fused == [] && Accepted(m, s, o).infos == map[]
  {}

  /** The table when the scheduler begins its cycle: the accepted uops have been issued, those without a port executed. */
  ghost function TableIssued(t: Table, o: Offer, clock: nat): Table {
    Reorder.Admitted(Issued(t, o.infos, clock), Unfused(o.fused), clock)
  }

  /** How many uops retire in a cycle. */
  ghost function Retiring(m: Machine, t: Table, buffer: seq<FusedUop>, infos: map<nat, Info>, clock: nat): (n: nat)
    ensures n <= |buffer|
  {
    Reorder.Retirable(Issued(t, infos, clock), buffer, clock, m.rc.retireWidth)
  }

  ghost function Begins(m: Machine, s: Snapshot, o: Offer, clock: nat): SchedulerChoices.Beginning {
    SchedulerChoices.Beginning(TableIssued(s.t, o, clock), At(s.q.calendar, clock), s.q.ready, s.q.readyDiv, s.g,
                               Unfused(o.fused), o.choice, m.sc.ports, m.sc.slow256BitMemAcc,
                               m.sc.issueDispatchDelay, clock)
  }

  ghost function Ends(s: Snapshot): SchedulerChoices.Ending {
    SchedulerChoices.Ending(s.t, s.prev, s.pending, s.q.nonReady, s.g)
  }

  /** A cycle: the finished uops at the front of the reorder buffer retire, the accepted uops join it, and the scheduler
      takes the course that its queues and the chosen ports determine. */
  ghost predicate Takes(m: Machine, s: Snapshot, o: Offer, s': Snapshot, clock: nat, course: SchedulerChoices.Course) {
    var a := Accepted(m, s, o);
    var n := Retiring(m, s.t, s.buffer, a.infos, clock);
    && s'.buffer == s.buffer[n..] + a.fused && s'.retired == s.retired + s.buffer[..n]
    && s'.issued == s.issued + a.fused && s'.usage.Keys == s.usage.Keys
    && SchedulerChoices.Follows(Begins(m, s, a, clock), course, Ends(s'))
    && Later(s.t, s'.t) && DispatchedNow(s.t, s'.t, clock)
  }

  /** What holds of the state when cycle `next` begins. */
  ghost predicate Holds(m: Machine, s: Snapshot, next: nat) {
    && s.q.checking == [] && Consistent(s.t, s.q, s.place, next, next, m.sc.issueDispatchDelay)
    && FencesPending(s.t, s.place, s.g.loadFences, s.g.storeFences)
    && BooksKept(s.t, s.uops, s.place, s.usage, s.prev)
    && PendingExact(s.t, s.pending) && Divider in s.g.blocked && DivisionsApart(s.t)
    && DividerFree(s.t, next + s.g.blocked[Divider])
    && s.q.ready.Keys == s.usage.Keys == (set p | p in m.sc.ports) && SchedulerChoices.Distinct(m.sc.ports)
    && s.issued == s.retired + s.buffer && Reorder.DistinctIdx(s.issued)
    && |s.buffer| <= m.rc.rbWidth
  }

  ghost predicate Starts(m: Machine, s: Snapshot) {
    Holds(m, s, 0) && s.t == NO_UOPS && s.issued == [] && s.g == SchedulerChoices.NO_GUARDS
  }

  /** A cycle with all that holds before and after it. */
  ghost predicate Steps(m: Machine, s: Snapshot, o: Offer, s': Snapshot, clock: nat, course: SchedulerChoices.Course) {
    && Holds(m, s, clock) && Holds(m, s', clock + 1) && |o.fused| <= m.rc.issueWidth
    && WellFormed(o, s.t, s.issued, s.usage.Keys) && Takes(m, s, o, s', clock, course)
  }

  class BackEnd {
    const storage: UopStorage
    const reorderBuffer: Reorder.ReorderBuffer
    const scheduler: Scheduler.Scheduler

    constructor (rc: Reorder.Config, sc: Scheduler.Config)
      requires SchedulerChoices.Distinct(sc.ports)
      ensures Valid(0) && fresh(storage) && fresh(reorderBuffer) && fresh(scheduler)
      ensures Parts() == Machine(rc, sc) && Starts(Parts(), Snap())
    {
      hide Holds, Scheduler.Scheduler.Valid, Reorder.ReorderBuffer.Valid;
      var s := new UopStorage();
      storage := s;
      reorderBuffer := new Reorder.ReorderBuffer(rc, s);
      scheduler := new Scheduler.Scheduler(sc, s);
      new;
      SnapHolds(0);
    }

    /** What holds whenever a cycle begins, in every run. */
    ghost predicate Valid(next: nat)
      reads this, storage, reorderBuffer, scheduler
    {
      && reorderBuffer.storage == storage && scheduler.storage == storage
      && reorderBuffer.Valid(next) && scheduler.Valid(next)
      && scheduler.portUsage.Keys == (set p | p in scheduler.c.ports)
      && |reorderBuffer.uops| <= reorderBuffer.c.rbWidth
    }

    function Parts(): Machine {
      Machine(reorderBuffer.c, scheduler.c)
    }

    ghost function Snap(): Snapshot
      reads this, storage, reorderBuffer, scheduler
    {
      Snapshot(storage.t, scheduler.Queues([], scheduler.nonReadyUops), scheduler.place, scheduler.Guarding(),
               scheduler.pendingUops, scheduler.uops, scheduler.portUsage, scheduler.uopsDispatchedInPrevCycle,
               reorderBuffer.uops, reorderBuffer.retireOrder, reorderBuffer.issueOrder)
    }

    lemma SnapHolds(next: nat)
      requires Valid(next)
      ensures Holds(Parts(), Snap(), next)
    {
      hide Consistent, FencesPending, BooksKept, PendingExact, DivisionsApart, DividerFree, Reorder.DistinctIdx;
      hide Reorder.InOrder, Reorder.RetiredAfterExecution, SchedulerChoices.Distinct;
    }

    predicate CanIssue()
      reads reorderBuffer, scheduler
      ensures CanIssue() <==> RoomFor(Parts(), Snap())
    {
      !reorderBuffer.IsFull() && !scheduler.IsFull()
    }

    /** Issues uops: they are entered into the reorder buffer after others have been retired from it. */
    method IssueInOrder(clock: nat, fused: seq<FusedUop>, infos: map<nat, Info>)
      requires reorderBuffer.storage == storage && reorderBuffer.Valid(clock)
      requires Reorder.DistinctIdx(reorderBuffer.issueOrder + fused)
      requires var s := Issued(storage.t, infos, clock);
               && Extends(storage.t.executed, s.executed)
               && Extends(s.executed, Reorder.Admitted(s, Unfused(fused), clock).executed)
      modifies storage, reorderBuffer
      ensures reorderBuffer.Valid(clock + 1)
      ensures storage.t == Reorder.Admitted(Issued(old(storage.t), infos, clock), Unfused(fused), clock)
      ensures reorderBuffer.issueOrder == old(reorderBuffer.issueOrder) + fused
      ensures var n := Retiring(Parts(), old(storage.t), old(reorderBuffer.uops), infos, clock);
              && reorderBuffer.uops == old(reorderBuffer.uops)[n..] + fused
              && reorderBuffer.retireOrder == old(reorderBuffer.retireOrder) + old(reorderBuffer.uops)[..n]
    {
      hide Reorder.InOrder, Reorder.RetiredAfterExecution, Reorder.Admitted, Reorder.Retirable, Extends, Issued;
      hide Reorder.DistinctIdx;
      ghost var t := storage.t;
      storage.t := Issued(storage.t, infos, clock);
      Reorder.RetiredLater(t, storage.t, reorderBuffer.retireOrder, reorderBuffer.retired);
      reorderBuffer.Cycle(clock, fused);
    }

    method Issue(clock: nat, offer: Offer)
      requires Valid(clock)
      requires WellFormed(offer, storage.t, reorderBuffer.issueOrder, scheduler.portUsage.Keys)
      modifies storage, reorderBuffer
      ensures reorderBuffer.Valid(clock + 1) && scheduler.Valid(clock)
      ensures storage.t == TableIssued(old(storage.t), offer, clock)
      ensures reorderBuffer.issueOrder == old(reorderBuffer.issueOrder) + offer.fused
      ensures var n := Retiring(Parts(), old(storage.t), old(reorderBuffer.uops), offer.infos, clock);
              && reorderBuffer.uops == old(reorderBuffer.uops)[n..] + offer.fused
              && reorderBuffer.retireOrder == old(reorderBuffer.retireOrder) + old(reorderBuffer.uops)[..n]
      ensures JustIssued(storage.t, Unfused(offer.fused)) && Later(old(storage.t), storage.t)
      ensures Supplied(storage.t.info, storage.t.actualPort.Keys, Unfused(offer.fused), offer.choice,
                       scheduler.portUsage.Keys)
      ensures storage.t.dispatched == old(storage.t.dispatched)
    {
      hide Consistent, BooksKept, FencesPending, PendingExact, DividerFree, DivisionsApart, Supplied, JustIssued, Later;
      hide Extends, New, Issued, Reorder.Admitted, WellFormed, Sound;
      hide Reorder.ReorderBuffer.Valid, Reorder.DistinctIdx;
      ghost var t, sch := storage.t, scheduler;
      OfferFits(t, sch.c.issueDispatchDelay, sch.Queues([], sch.nonReadyUops), sch.place, clock, offer,
                reorderBuffer.issueOrder, sch.portUsage.Keys);
      IssueInOrder(clock, offer.fused, offer.infos);
      SchedulerUnaware(t, storage.t, sch.Queues([], sch.nonReadyUops), sch.place, clock, sch.c.issueDispatchDelay,
                       sch.uops, sch.portUsage, sch.uopsDispatchedInPrevCycle, sch.pendingUops,
                       clock + sch.blockedResources[Divider], sch.pendingLoadFenceUops, sch.pendingStoreFenceUops);
    }

    /** One clock cycle: the finished uops at the front of the reorder buffer retire, unless a buffer is full the offered
        uops are issued, and the scheduler goes through a cycle. */
    method Cycle(clock: nat, offer: Offer) returns (issued: seq<FusedUop>, ghost course: SchedulerChoices.Course)
      requires Valid(clock) && |offer.fused| <= reorderBuffer.c.issueWidth
      requires WellFormed(offer, storage.t, reorderBuffer.issueOrder, scheduler.portUsage.Keys)
      modifies storage, reorderBuffer, scheduler
      ensures Valid(clock + 1) && Steps(Parts(), old(Snap()), offer, Snap(), clock, course)
      ensures issued == Accepted(Parts(), old(Snap()), offer).fused
    {
      hide WellFormed, Supplied, JustIssued, Later, CycleSteps, SchedulerChoices.Follows, Retiring, TableIssued, Holds;
      hide RoomFor, DispatchedNow, Reorder.DistinctIdx, Reorder.RetiredAfterExecution, Reorder.InOrder;
      ghost var t := storage.t;
      SnapHolds(clock);
      var accepted := NO_OFFER;
      NothingOffered(t, reorderBuffer.issueOrder, scheduler.portUsage.Keys);
      if CanIssue() {
        accepted := offer;
      }
      Issue(clock, accepted);
      ghost var s := storage.t;
      course := scheduler.Cycle(clock, accepted.fused, accepted.choice);
      StillRetired(s, storage.t, reorderBuffer.retireOrder, reorderBuffer.retired, clock);
      CycleLater(t, s, storage.t, clock);
      SnapHolds(clock + 1);
      issued := accepted.fused;
    }
  }
}

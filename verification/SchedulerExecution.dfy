/** What finishing the execution of uops keeps: nobody is left waiting for a uop that has been executed. */
module SchedulerExecution {
  import opened Wrappers
  import opened Uops
  import opened UopSteps
  import opened SchedulerTokens
  import opened SchedulerState
  import opened SchedulerSteps
  import opened SchedulerDispatch

  /** The cycle before which a dispatched uop cannot finish, whatever it writes. */
  function EarliestFinish(i: Info, dispatched: nat): int {
    if i.isFirstOfInstr && i.tp.Some? then Max(dispatched + 2, dispatched + i.tp.value) else dispatched + 2
  }

  lemma EarliestIsLate(i: Info, dispatched: nat)
    ensures dispatched + 2 <= EarliestFinish(i, dispatched)
  {}

  lemma SettledInStore(t: Table, s: Table, ops: seq<Operand>, a: int, b: int)
    requires OnlyStored(t, s) && AllSettled(t, ops, a) && a <= b
    ensures AllSettled(s, ops, b)
  {
    hide AllSettled;
    SettledFrom(t, ops, a, b);
    assert Extends(t.ready, s.ready);
    SettledLater(t, s, ops, b);
  }

  /** Some more store buffer entries are known to be ready. */
  ghost predicate OnlyStored(t: Table, s: Table) {
    && s == t.(addressReady := s.addressReady, dataReady := s.dataReady)
    && t.addressReady.Keys <= s.addressReady.Keys && t.dataReady.Keys <= s.dataReady.Keys
  }

  lemma Stores(t: Table, s: Table, q: Queues, place: map<nat, Place>, before: nat, due: nat, delay: nat)
    requires Consistent(t, q, place, before, due, delay) && OnlyStored(t, s)
    ensures Consistent(s, q, place, before, due, delay) && Later(t, s)
  {
    EntrySound(t, s, delay);
    hide Sound, Tokens, Placed, Later;
    PlacedLater(t, s, place, before, due);
  }

  /** The uops that wait for `w` are to be checked again. */
  lemma Wakes(t: Table, q: Queues, place: map<nat, Place>, before: nat, due: nat, delay: nat, w: nat)
    requires Consistent(t, q, place, before, due, delay) && q.checking == []
    ensures Consistent(t, q.(checking := At(q.dependent, w), dependent := q.dependent - {w}), Woken(place, w),
                       before, due, delay)
    ensures Woken(place, w).Keys == place.Keys
  {
    WakeUp(q, place, w);
    PlacedWoken(t, place, before, due, w);
  }

  /** A uop whose outputs are known gets no new waiters. */
  lemma NoNewWaiters(t: Table, q: Queues, place: map<nat, Place>, before: nat, due: nat, delay: nat, w: nat, u: nat,
                     cycle: int)
    requires Consistent(t, q, place, before, due, delay) && u in place
    requires w in t.info && AllSettled(t, t.info[w].outputs, cycle)
    ensures u in t.info && forall op :: op in t.info[u].inputs && op.Written? && op.uop == w ==> Answered(t, op)
  {
    assert InPlace(t, u, place[u], before, due);
    assert LinkedUop(t, u);
    forall op | op in t.info[u].inputs && op.Written? && op.uop == w
      ensures Answered(t, op)
    {
      assert Settled(t, op, cycle);
    }
  }

  lemma WaitersGone(t: Table, place: map<nat, Place>, before: nat, due: nat, w: nat, cycle: int)
    requires Placed(t, place, before, due) && Later(t, Executed(t, w, cycle))
    requires forall u :: u in place ==> place[u] != Waits(w)
    requires w in t.dispatched
    ensures Placed(Executed(t, w, cycle), place, before, due)
  {
    hide ReadyCycle, AllAnswered, Later, InPlace;
    var s := Executed(t, w, cycle);
    forall u | u in place
      ensures InPlace(s, u, place[u], before, due)
    {
      NotDispatched(t, place[u], u, before, due);
      StaysInPlace(t, s, u, place[u], before, due);
    }
  }

  lemma NobodyWaits(q: Queues, place: map<nat, Place>, w: nat)
    requires Tokens(q, place) && w !in q.dependent
    ensures forall u :: u in place ==> place[u] != Waits(w)
  {
    assert OnList(At(q.dependent, w), place, Waits(w));
  }

  /** A uop that nobody waits for is executed. */
  lemma Executes(t: Table, q: Queues, place: map<nat, Place>, before: nat, due: nat, delay: nat, w: nat, cycle: int)
    requires Consistent(t, q, place, before, due, delay) && w !in q.dependent
    requires w in t.dispatched && w in t.info && w !in t.executed
    requires t.dispatched[w] + 2 <= cycle && AllSettled(t, t.info[w].outputs, cycle)
    ensures Consistent(Executed(t, w, cycle), q, place, before, due, delay) && Later(t, Executed(t, w, cycle))
  {
    NobodyWaits(q, place, w);
    hide Sound, Tokens, Placed, Later, AllSettled;
    ExecutedSound(t, delay, w, cycle);
    WaitersGone(t, place, before, due, w, cycle);
  }

  lemma PendingExecuted(t: Table, pending: set<nat>, w: nat, cycle: int)
    requires PendingExact(t, pending)
    ensures PendingExact(Executed(t, w, cycle), pending - {w})
  {}

  /** Uops have been executed, and what goes with it. */
  ghost predicate OnlyExecuted(t: Table, s: Table) {
    && s == t.(ready := s.ready, addressReady := s.addressReady, dataReady := s.dataReady, executed := s.executed)
    && Later(t, s)
  }

  lemma NoneExecuted(t: Table)
    ensures OnlyExecuted(t, t)
  {}

  lemma ExecutedSame(t: Table, s: Table)
    requires OnlyExecuted(t, s)
    ensures s == t.(ready := s.ready, addressReady := s.addressReady, dataReady := s.dataReady, executed := s.executed)
  {}

  lemma ExecutedTrans(t: Table, s: Table, r: Table)
    requires OnlyExecuted(t, s) && OnlyExecuted(s, r)
    ensures OnlyExecuted(t, r)
  {
    hide Later;
    LaterTrans(t, s, r);
  }

  lemma RecalledIsExecuted(t: Table, s: Table, delay: nat)
    requires Recalled(t, s, delay)
    ensures OnlyExecuted(t, s)
  {}

  lemma PendingDispatched(t: Table, delay: nat, pending: set<nat>, w: nat)
    requires Sound(t, delay) && PendingExact(t, pending) && w in pending
    ensures w in t.dispatched && w in t.info && w !in t.executed && w in t.actualPort
  {}

  // Fences

  /** The first pending fence has been executed. */
  lemma FencePassed(t: Table, q: Queues, place: map<nat, Place>, next: nat, delay: nat, loadFences: seq<nat>,
                    storeFences: seq<nat>, passLoad: bool, passStore: bool)
    requires Consistent(t, q, place, next, next, delay) && FencesPending(t, place, loadFences, storeFences)
    requires passLoad ==> loadFences != [] && loadFences[0] in t.executed
    requires passStore ==> storeFences != [] && storeFences[0] in t.executed
    ensures FencesPending(t, place, if passLoad then loadFences[1..] else loadFences,
                          if passStore then storeFences[1..] else storeFences)
  {
    forall u | u in place && u in t.info && t.info[u].isFirstOfInstr
      ensures passLoad && t.info[u].isLoadSerializing ==> u in loadFences[1..]
      ensures passStore && t.info[u].isStoreSerializing ==> u in storeFences[1..]
    {
      assert InPlace(t, u, place[u], next, next);
      assert u !in t.executed;
    }
  }

  /** The pending uop that is looked at. */
  lemma PendingUop(t: Table, q: Queues, place: map<nat, Place>, before: nat, due: nat, delay: nat, pending: set<nat>,
                   w: nat)
    requires Consistent(t, q, place, before, due, delay) && PendingExact(t, pending) && w in pending
    ensures w in t.dispatched && w in t.info && w !in t.executed
    ensures t.info[w].isStoreAddress || t.info[w].isStoreData ==> t.info[w].entry.Some?
  {
    PendingDispatched(t, delay, pending, w);
    assert LinkedUop(t, w);
  }

  /** A uop is executed after its outputs have become known and its waiters have been woken. */
  lemma ExecutedOnly(t: Table, s: Table, r: Table, w: nat, cycle: int, delay: nat)
    requires OnlyExecuted(t, s) && Recalled(s, r, delay) && Later(r, Executed(r, w, cycle))
    ensures OnlyExecuted(t, Executed(r, w, cycle))
  {
    hide Sound, ReadyCycle, Later;
    LaterTrans(t, s, r);
    LaterTrans(t, r, Executed(r, w, cycle));
  }

  lemma StoredAfterRecall(t: Table, s: Table, r: Table, delay: nat)
    requires Recalled(t, s, delay) && OnlyStored(s, r) && Later(s, r)
    ensures OnlyExecuted(t, r)
  {
    hide Sound, ReadyCycle, Later;
    LaterTrans(t, s, r);
  }

  // The beginning

  lemma EmptyQueues(q: Queues)
    requires q.checking == [] && q.dependent == map[] && q.nonReady == [] && q.calendar == map[] && q.readyDiv == {}
    requires forall p :: p in q.ready ==> q.ready[p] == {}
    ensures Tokens(q, map[])
  {}

  lemma Empty(q: Queues, delay: nat, usage: map<string, int>)
    requires q.checking == [] && q.dependent == map[] && q.nonReady == [] && q.calendar == map[] && q.readyDiv == {}
    requires forall p :: p in q.ready ==> q.ready[p] == {}
    requires forall p :: p in usage ==> usage[p] == 0
    ensures Consistent(NO_UOPS, q, map[], 0, 0, delay) && BooksKept(NO_UOPS, {}, map[], usage, [])
    ensures FencesPending(NO_UOPS, map[], [], []) && PendingExact(NO_UOPS, {})
    ensures DivisionsApart(NO_UOPS) && DividerFree(NO_UOPS, 0)
  {
    EmptyQueues(q);
    hide Tokens;
    forall p: string
      ensures OnPort(NO_UOPS, {}, p) == {}
    {}
    assert SetOf([]) == {};
  }

  // A whole cycle

  /** What a cycle does to the uops: those that it dispatches are dispatched in this cycle, and only uops that have
      been dispatched are executed. */
  ghost predicate CycleSteps(t: Table, s: Table, clock: nat) {
    && Later(t, s) && s.info == t.info && s.issued == t.issued
    && (forall u :: u in s.dispatched && u !in t.dispatched ==> s.dispatched[u] == clock)
  }

  ghost predicate BoundThenDispatched(t: Table, s: Table, clock: nat) {
    exists m :: OnlyBound(t, m) && OnlyDispatched(m, s, clock)
  }

  ghost predicate ExecutedThenReadied(t: Table, s: Table) {
    exists m :: OnlyExecuted(t, m) && OnlyReadied(m, s)
  }

  lemma AllSteps(t0: Table, t2: Table, t4: Table, clock: nat)
    requires BoundThenDispatched(t0, t2, clock) && ExecutedThenReadied(t2, t4)
    ensures CycleSteps(t0, t4, clock)
  {
    hide Later;
    var t1 :| OnlyBound(t0, t1) && OnlyDispatched(t1, t2, clock);
    var t3 :| OnlyExecuted(t2, t3) && OnlyReadied(t3, t4);
    LaterTrans(t0, t1, t2);
    LaterTrans(t0, t2, t3);
    LaterTrans(t0, t3, t4);
  }

  function OneLess(n: nat): nat {
    if n > 0 then n - 1 else 0
  }

  lemma KeepsBusy1(t: Table, s: Table, pending: set<nat>, free: nat)
    requires OnlyBound(t, s) && PendingExact(t, pending) && DividerFree(t, free) && DivisionsApart(t)
    ensures PendingExact(s, pending) && DividerFree(s, free) && DivisionsApart(s)
  {
    hide Later;
    SamePending(t, s, pending);
    SameDivider(t, s, free, free);
  }

  lemma KeepsBusy2(t: Table, s: Table, free: nat)
    requires OnlyExecuted(t, s) && DividerFree(t, free) && DivisionsApart(t)
    ensures DividerFree(s, free) && DivisionsApart(s)
  {
    hide Later;
    SameDivider(t, s, free, free);
  }

  lemma KeepsBooks(t: Table, s: Table, uops: set<nat>, place: map<nat, Place>, after: map<nat, Place>,
                   usage: map<string, int>, prev: seq<nat>, loadFences: seq<nat>, storeFences: seq<nat>)
    requires OnlyExecuted(t, s) && BooksKept(t, uops, place, usage, prev) && after.Keys == place.Keys
    requires FencesPending(t, place, loadFences, storeFences)
    ensures BooksKept(s, uops, after, usage, prev) && FencesPending(s, after, loadFences, storeFences)
  {
    hide Later, BooksKept, FencesPending;
    SameBooks(t, s, uops, place, after, usage, prev);
    SameFences(t, s, place, after, loadFences, storeFences);
  }

  lemma KeepsBusy3(t: Table, s: Table, pending: set<nat>, free: nat, uops: set<nat>, place: map<nat, Place>,
                   after: map<nat, Place>, usage: map<string, int>, prev: seq<nat>)
    requires OnlyReadied(t, s) && PendingExact(t, pending) && DividerFree(t, free) && DivisionsApart(t)
    requires BooksKept(t, uops, place, usage, prev) && after.Keys == place.Keys
    ensures PendingExact(s, pending) && DividerFree(s, free) && DivisionsApart(s)
    ensures BooksKept(s, uops, after, usage, prev)
  {
    hide Later, BooksKept;
    SamePending(t, s, pending);
    SameDivider(t, s, free, free);
    SameBooks(t, s, uops, place, after, usage, prev);
  }
}

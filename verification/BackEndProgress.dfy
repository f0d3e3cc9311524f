/** The back end never stops: in every run of a program each issued uop retires in the end. */
module BackEndProgress {
  import opened Wrappers
  import opened Uops
  import opened UopSteps
  import opened SchedulerTokens
  import opened SchedulerState
  import opened SchedulerSteps
  import opened SchedulerDispatch
  import opened SchedulerExecution
  import opened SchedulerChoices
  import opened BackEnd
  import opened BackEndRuns
  import Reorder = ReorderBuffer

  // A cycle in which nothing happens

  /** Nothing is issued, retired, dispatched, executed or entered into the calendar, and no fence is passed. */
  ghost predicate Idle(s: Snapshot, s': Snapshot) {
    && s'.issued == s.issued && |s'.retired| == |s.retired|
    && s'.t.executed.Keys == s.t.executed.Keys && s'.t.dispatched.Keys == s.t.dispatched.Keys
    && s'.t.readyForDispatch.Keys == s.t.readyForDispatch.Keys
    && |s'.g.loadFences| == |s.g.loadFences| && |s'.g.storeFences| == |s.g.storeFences|
  }

  /** All that has been determined so far lies in the past. */
  ghost predicate Late(s: Snapshot, clock: nat) {
    && (forall u :: u in s.t.executed ==> s.t.executed[u] < clock)
    && (forall u :: u in s.t.readyForDispatch ==> s.t.readyForDispatch[u] < clock)
    && forall r :: r in s.g.blocked ==> s.g.blocked[r] == 0
  }

  lemma NothingArrives(m: Machine, s: Snapshot, o: Offer, s': Snapshot, clock: nat, k: Course)
    requires Steps(m, s, o, s', clock, k) && s'.issued == s.issued
    ensures Arrivals(m, s, o) == [] && Accepted(m, s, o).infos == map[]
  {
    CycleArrives(m, s, o, s', clock, k);
    hide Holds, WellFormed, SchedulerChoices.Follows, Later, Retiring;
    assert |s'.issued| == |s.issued| + |Accepted(m, s, o).fused|;
  }

  lemma {:induction false} NoneNoted(g: Guards, t: Table, us: seq<nat>)
    ensures NotedAll(g, t, us, {}) == g
  {
    if us != [] {
      NoneNoted(g, t, us[..|us| - 1]);
    }
  }

  /** What the course of an idle cycle tells. */
  ghost predicate Idling(m: Machine, t: Table, q: Queues, g: Guards, k: Course, s': Snapshot, clock: nat) {
    && Released(t, At(q.calendar, clock), q.ready, q.readyDiv, k.ready, k.div)
    && Chosen(m.sc.ports, PortsOut(k.bound, m.sc.ports, m.sc.slow256BitMemAcc, k.ready), k.ready, k.div, g.blocked) == []
    && k.bound.info == k.dispatched.info == k.executed.info == s'.t.info == t.info && s'.t.actualPort == t.actualPort
    && k.executed.executed == s'.t.executed == t.executed && k.executed.dispatched == s'.t.dispatched == t.dispatched
    && k.dispatched.dispatched == t.dispatched
    && k.dispatched.addressReady == t.addressReady && k.dispatched.dataReady == t.dataReady
    && PendingExact(k.executed, s'.pending) && AllUnknown(k.dispatched, s'.pending)
    && s'.q.nonReady == Without(k.waiting, {}) && Sorted(k.executed, s'.t, k.waiting, {}, clock, g, g)
    && s'.g == Ended(g, s'.t, clock)
  }

  lemma SameMap<K, V>(m: map<K, V>, n: map<K, V>)
    requires Extends(m, n) && n.Keys <= m.Keys
    ensures m == n
  {}

  lemma LaterActual(t: Table, t': Table)
    requires Later(t, t')
    ensures Extends(t.actualPort, t'.actualPort) && Extends(t.executed, t'.executed)
    ensures Extends(t.dispatched, t'.dispatched) && Extends(t.readyForDispatch, t'.readyForDispatch)
  {}

  lemma NoneChosenNow(t: Table, t': Table, us: seq<nat>, clock: nat)
    requires DispatchedThese(t, t', us, clock) && t'.dispatched.Keys == t.dispatched.Keys
    ensures us == []
  {
    if us != [] {
      HasFirst(us);
    }
  }

  lemma HasFirst(us: seq<nat>)
    requires us != []
    ensures exists u :: u in us
  {
    assert us[0] in us;
  }

  lemma IssuedNothing(t: Table, o: Offer, clock: nat)
    requires o.infos == map[] && Unfused(o.fused) == []
    ensures TableIssued(t, o, clock) == t
  {
    assert t.info + map[] == t.info && t.issued + map[] == t.issued;
  }

  /** The dispatch and the execution in a cycle. */
  lemma CycleMoves(m: Machine, s: Snapshot, o: Offer, s': Snapshot, clock: nat, k: Course)
    requires Steps(m, s, o, s', clock, k)
    ensures var t := TableIssued(s.t, Accepted(m, s, o), clock);
            && Released(t, At(s.q.calendar, clock), s.q.ready, s.q.readyDiv, k.ready, k.div)
            && DispatchedThese(k.bound, k.dispatched, s'.prev, clock)
            && s'.prev == Chosen(m.sc.ports, PortsOut(k.bound, m.sc.ports, m.sc.slow256BitMemAcc, k.ready), k.ready, k.div,
                                 s.g.blocked)
            && k.before.blocked == OccupiedAll(k.bound, m.sc.slow256BitMemAcc, s.g.blocked, s'.prev)
            && PendingExact(k.executed, s'.pending) && AllUnknown(k.dispatched, s'.pending)
            && s'.q.nonReady == Without(k.waiting, k.readied)
  {
    hide Holds, WellFormed, Later, Retiring, Released, Chosen, PendingExact, AllUnknown, Sorted, Ended, Without;
    hide FinishedRight, RightSoFar, PortsOut, OccupiedAll, DispatchedThese, BoundAsChosen, TableIssued, LoadFencesIn;
    hide StoreFencesIn;
  }

  lemma NoneReadiedNow(t: Table, t': Table, us: seq<nat>, ready: set<nat>, clock: nat, g: Guards, h: Guards)
    requires Sorted(t, t', us, ready, clock, g, h) && t'.readyForDispatch.Keys == t.readyForDispatch.Keys
    ensures ready == {} && h == g
  {
    hide InTurn, NotedAll;
    assert forall v :: v in ready ==> v in t'.readyForDispatch.Keys;
    NoneNoted(g, t, us);
  }

  lemma IdleCourse(m: Machine, s: Snapshot, o: Offer, s': Snapshot, clock: nat, k: Course)
    requires Steps(m, s, o, s', clock, k) && Idle(s, s')
    ensures Idling(m, s.t, s.q, s.g, k, s', clock)
  {
    var a := Accepted(m, s, o);
    CycleConnects(m, s, o, s', clock, k);
    CycleBinds(m, s, o, s', clock, k);
    CycleMoves(m, s, o, s', clock, k);
    NothingArrives(m, s, o, s', clock, k);
    hide Steps, Accepted, Released, Chosen, PendingExact, AllUnknown, Sorted, Ended, Without, Later, FinishedRight;
    hide PortsOut, TableIssued, WithFences, OccupiedAll, DispatchedThese;
    IssuedNothing(s.t, a, clock);
    LaterActual(s.t, s'.t);
    SameMap(s.t.actualPort, s'.t.actualPort);
    assert s.t.info + map[] == s.t.info;
    SameMap(s.t.executed, s'.t.executed);
    SameMap(s.t.dispatched, s'.t.dispatched);
    NoneChosenNow(k.bound, k.dispatched, s'.prev, clock);
    WithNoFences(s.g, k.bound);
    NoneOccupied(k.bound, m.sc.slow256BitMemAcc, s.g.blocked);
    NoneReadiedNow(k.executed, s'.t, k.waiting, k.readied, clock, k.before, k.after);
  }

  // Ready uops are dispatched

  lemma {:induction false} ChosenSome(ports: seq<string>, out: set<string>, ready: map<string, set<nat>>, div: set<nat>,
                                      blocked: map<Resource, nat>, p: string)
    requires p in ports && p !in out && ChoiceOf(ready, div, blocked, p).Some?
    ensures Chosen(ports, out, ready, div, blocked) != []
  {
    hide ChoiceOf;
    var front, last := ports[..|ports| - 1], ports[|ports| - 1];
    if p != last {
      assert ports == front + [last];
      ChosenSome(front, out, ready, div, blocked, p);
    }
  }

  predicate NothingBlocked(blocked: map<Resource, nat>) {
    forall r :: r in blocked ==> blocked[r] == 0
  }

  lemma PortChooses(ready: map<string, set<nat>>, div: set<nat>, blocked: map<Resource, nat>, p: string)
    requires NothingBlocked(blocked) && (QueueAt(ready, p) != {} || (p == "0" && div != {}))
    ensures ChoiceOf(ready, div, blocked, p).Some?
  {
    hide Least;
  }

  /** At most one of two paired ports is shut. */
  lemma SomePortOpen(t: Table, ports: seq<string>, slow256BitMemAcc: bool, ready: map<string, set<nat>>, p: string)
    returns (open: string)
    requires QueueAt(ready, p) != {} && ready.Keys == set p | p in ports
    ensures open in ports && open !in PortsOut(t, ports, slow256BitMemAcc, ready) && QueueAt(ready, open) != {}
  {
    hide Least, AddressOf, IsWideLoadPair, SameLine;
    open := if p !in PortsOut(t, ports, slow256BitMemAcc, ready) then p
            else if p == "4" then "9" else if p == "9" then "4" else if p == "2" then "3" else "2";
  }

  /** When nothing is busy, a cycle that dispatches nothing finds no uop ready. */
  lemma NothingReady(t: Table, ports: seq<string>, slow256BitMemAcc: bool, ready: map<string, set<nat>>, div: set<nat>,
                     blocked: map<Resource, nat>)
    requires Chosen(ports, PortsOut(t, ports, slow256BitMemAcc, ready), ready, div, blocked) == []
    requires NothingBlocked(blocked) && "0" in ports && ready.Keys == set p | p in ports
    ensures div == {} && forall p :: QueueAt(ready, p) == {}
  {
    hide Chosen, ChoiceOf, NothingBlocked;
    var out := PortsOut(t, ports, slow256BitMemAcc, ready);
    if div != {} {
      assert "0" !in out;
      PortChooses(ready, div, blocked, "0");
      ChosenSome(ports, out, ready, div, blocked, "0");
    }
    hide PortsOut;
    forall p: string
      ensures QueueAt(ready, p) == {}
    {
      if QueueAt(ready, p) != {} {
        var open := SomePortOpen(t, ports, slow256BitMemAcc, ready, p);
        PortChooses(ready, div, blocked, open);
        ChosenSome(ports, out, ready, div, blocked, open);
      }
    }
  }

  lemma QueuesEmpty(m: Machine, s: Snapshot, k: Course, s': Snapshot, clock: nat)
    requires Holds(m, s, clock) && Idling(m, s.t, s.q, s.g, k, s', clock) && Late(s, clock) && "0" in m.sc.ports
    ensures s.q.readyDiv == {} && forall p :: QueueAt(s.q.ready, p) == {}
  {
    hide Consistent, FencesPending, BooksKept, PendingExact, DivisionsApart, DividerFree, Chosen, PortsOut, Without;
    hide Sorted, AllUnknown, Ended, DivCycles;
    NothingReady(k.bound, m.sc.ports, m.sc.slow256BitMemAcc, k.ready, k.div, s.g.blocked);
    forall p: string
      ensures QueueAt(s.q.ready, p) == {}
    {
      assert QueueAt(k.ready, p) == {};
    }
  }

  lemma NoneQueued(q: Queues, place: map<nat, Place>)
    requires Tokens(q, place) && q.readyDiv == {} && forall p :: QueueAt(q.ready, p) == {}
    ensures forall u :: u in place ==> !place[u].Ready? && !place[u].ReadyDiv?
  {
    hide OnList;
    forall p: string
      ensures forall u :: u in place ==> place[u] != Ready(p)
    {
      assert OnSet(QueueAt(q.ready, p), place, Ready(p));
    }
    forall u | u in place && place[u].Ready?
      ensures place[u] == Ready(place[u].port)
    {}
  }

  lemma ReadyPlace(t: Table, place: map<nat, Place>, clock: nat, u: nat)
    requires Placed(t, place, clock, clock) && Phased(t) && u in t.readyForDispatch && u !in t.dispatched
    ensures u in place
    ensures place[u].Ready? || place[u].ReadyDiv? || clock <= t.readyForDispatch[u]
  {
    assert u in place && InPlace(t, u, place[u], clock, clock);
  }

  /** Then every uop that has become ready has been dispatched. */
  lemma ReadyIsDispatched(m: Machine, s: Snapshot, k: Course, s': Snapshot, clock: nat, u: nat)
    requires Holds(m, s, clock) && Idling(m, s.t, s.q, s.g, k, s', clock) && Late(s, clock) && "0" in m.sc.ports
    requires u in s.t.readyForDispatch
    ensures u in s.t.dispatched
  {
    QueuesEmpty(m, s, k, s', clock);
    NoneQueued(s.q, s.place);
    hide Idling, FencesPending, BooksKept, PendingExact, DivisionsApart, DividerFree, Registered, Linked, Causal;
    hide Placed, InPlace, Tokens;
    if u !in s.t.dispatched {
      ReadyPlace(s.t, s.place, clock, u);
    }
  }

  // Dispatched uops are executed

  /** A dispatched uop is executed, unless it is a load from a store buffer entry that is not ready yet. */
  lemma DispatchedIsExecuted(m: Machine, s: Snapshot, k: Course, s': Snapshot, clock: nat, u: nat)
    requires Holds(m, s, clock) && Idling(m, s.t, s.q, s.g, k, s', clock) && u in s.t.dispatched
    requires u in s.t.info && ForwardedFrom(s.t.info[u]).Some? ==>
               var e := ForwardedFrom(s.t.info[u]).value; e in s.t.addressReady && e in s.t.dataReady
    ensures u in s.t.executed
  {
    hide Released, Chosen, PortsOut, Without, Sorted, Ended;
    if u !in s.t.executed {
      OutputsKnown(m, s, clock, k.dispatched, u);
    }
  }

  lemma OutputsKnown(m: Machine, s: Snapshot, clock: nat, t: Table, u: nat)
    requires Holds(m, s, clock) && u in s.t.dispatched && t.info == s.t.info && t.dispatched == s.t.dispatched
    requires t.addressReady == s.t.addressReady && t.dataReady == s.t.dataReady
    requires u in s.t.info && ForwardedFrom(s.t.info[u]).Some? ==>
               var e := ForwardedFrom(s.t.info[u]).value; e in s.t.addressReady && e in s.t.dataReady
    ensures u in t.info && AllAnswered(t, t.info[u].outputs)
  {
    hide FencesPending, BooksKept, PendingExact, DivisionsApart, DividerFree, Tokens, Placed, Causal;
    assert LinkedUop(s.t, u);
  }

  // The first uop that has not been executed

  /** All uops before the i-th have been executed. */
  ghost predicate DoneBefore(t: Table, us: seq<nat>, i: nat) {
    forall j :: 0 <= j < i && j < |us| ==> us[j] in t.executed
  }

  lemma EarlierDone(t: Table, us: seq<nat>, i: nat, v: nat)
    requires DoneBefore(t, us, i) && i < |us| && NoDuplicates(us) && Earlier(us, v, us[i])
    ensures v in t.executed
  {}

  /** The store that a load reads from has been executed. */
  lemma StoreDone(t: Table, us: seq<nat>, i: nat)
    requires Enrolled(t, us) && AllStored(t) && Orderly(t.info, us) && DoneBefore(t, us, i) && i < |us|
    requires us[i] in t.info && ForwardedFrom(t.info[us[i]]).Some?
    ensures var e := ForwardedFrom(t.info[us[i]]).value; e in t.addressReady && e in t.dataReady
  {
    hide AllOrdered, FencesDirect, DoneBefore, PortBound, NoDuplicates;
    var u, e := us[i], ForwardedFrom(t.info[us[i]]).value;
    var a :| Earlier(us, a, u) && a in t.info && StoresTo(t.info[a], e) && t.info[a].isStoreAddress;
    var d :| Earlier(us, d, u) && d in t.info && StoresTo(t.info[d], e) && t.info[d].isStoreData;
    EarlierDone(t, us, i, a);
    EarlierDone(t, us, i, d);
    assert a in us && d in us && PortOrDone(t, a) && PortOrDone(t, d);
  }

  /** Of two uops in program order the one with the smaller number comes first. */
  lemma SmallerDone(t: Table, us: seq<nat>, i: nat, v: nat)
    requires AllOrdered(t.info, us) && DoneBefore(t, us, i) && i < |us| && v in us && v < us[i]
    requires v in t.info && us[i] in t.info && InProgramOrder(t.info[v]) && InProgramOrder(t.info[us[i]])
    ensures v in t.executed
  {
    hide InProgramOrder;
    var j :| 0 <= j < |us| && us[j] == v;
    assert OrderedAt(t.info, us, i, j);
  }

  // It is not held back

  /** The first pending fence has not been executed. */
  ghost predicate FenceWaits(t: Table, fences: seq<nat>) {
    fences != [] ==> fences[0] !in t.executed
  }

  lemma FenceStays(t: Table, g: Guards, clock: nat, d: Side)
    requires |Fences(Ended(g, t, clock), d)| == |Fences(g, d)|
    requires forall u :: u in t.executed ==> t.executed[u] < clock
    ensures FenceWaits(t, Fences(g, d))
  {}

  lemma NoFenceBefore(t: Table, us: seq<nat>, i: nat, g: Guards, d: Side)
    requires AllOrdered(t.info, us) && DoneBefore(t, us, i) && i < |us| && SetOf(us) == t.info.Keys
    requires Guarded(t, g, d) && FenceWaits(t, Fences(g, d)) && us[i] in t.info && InProgramOrder(t.info[us[i]])
    ensures Fences(g, d) != [] ==> us[i] <= Fences(g, d)[0]
  {
    hide AllOrdered, DoneBefore;
    if Fences(g, d) != [] && Fences(g, d)[0] < us[i] {
      var f := Fences(g, d)[0];
      assert FenceIn(t, f, d) && f in SetOf(us);
      SmallerDone(t, us, i, f);
    }
  }

  /** Those of some uops that do not read from the store buffer have been executed. */
  ghost predicate DirectDone(t: Table, us: seq<nat>) {
    forall v :: v in us && v in t.info && !Forwarded(t.info[v]) ==> v in t.executed
  }

  /** When a fence is the first uop that has not been executed, it is the first pending one, and all that it waits for
      has been executed. */
  lemma FenceIsFirst(t: Table, us: seq<nat>, i: nat, clock: nat, g: Guards, d: Side)
    requires AllOrdered(t.info, us) && DoneBefore(t, us, i) && i < |us| && SetOf(us) == t.info.Keys
    requires Guarded(t, g, d) && FenceWaits(t, Fences(g, d)) && us[i] in t.info && us[i] in Fences(g, d)
    requires DirectDone(t, Accesses(g, d)) && forall u :: u in t.executed ==> t.executed[u] < clock
    ensures Fences(g, d)[0] == us[i] && ExecutedBy(t, Accesses(g, d), clock)
  {
    var u := us[i];
    assert FenceIn(t, u, d);
    NoFenceBefore(t, us, i, g, d);
    hide AllOrdered, DoneBefore, FenceWaits, Forwarded;
    forall v | v in Accesses(g, d)
      ensures v in t.executed
    {
      assert AccessIn(t, v, d) && AccessBefore(t, v, u) && v in SetOf(us);
      if Forwarded(t.info[v]) {
        SmallerDone(t, us, i, v);
      }
    }
  }

  lemma NotHeld(t: Table, us: seq<nat>, i: nat, clock: nat, g: Guards)
    requires Orderly(t.info, us) && DoneBefore(t, us, i) && i < |us| && SetOf(us) == t.info.Keys && us[i] in t.info
    requires forall d :: Guarded(t, g, d) && FenceWaits(t, Fences(g, d)) && DirectDone(t, Accesses(g, d))
    requires forall d :: IsFence(t.info[us[i]], d) ==> us[i] in Fences(g, d)
    requires NothingBlocked(g.blocked) && forall u :: u in t.executed ==> t.executed[u] < clock
    ensures !IsHeld(t, us[i], clock, g)
  {
    hide AllOrdered, DoneBefore, FenceWaits, StoredEarlier, ExecutedBy, GuardedBy, DirectDone, FencesDirect;
    var u := us[i];
    forall d: Side
      ensures InProgramOrder(t.info[u]) && Fences(g, d) != [] ==> u <= Fences(g, d)[0]
      ensures IsFence(t.info[u], d) ==> Fences(g, d)[0] == u && ExecutedBy(t, Accesses(g, d), clock)
    {
      assert Guarded(t, g, d) && FenceWaits(t, Fences(g, d)) && DirectDone(t, Accesses(g, d));
      if InProgramOrder(t.info[u]) {
        NoFenceBefore(t, us, i, g, d);
      }
      if IsFence(t.info[u], d) {
        FenceIsFirst(t, us, i, clock, g, d);
      }
    }
    assert Fences(g, Loads) == g.loadFences && Fences(g, Stores) == g.storeFences;
  }

  lemma {:induction false} WithoutNobody(us: seq<nat>)
    ensures Without(us, {}) == us
  {
    if us != [] {
      WithoutNobody(us[..|us| - 1]);
      assert us == us[..|us| - 1] + [us[|us| - 1]];
    }
  }

  lemma StillHeld(t: Table, t': Table, us: seq<nat>, clock: nat, g: Guards, u: nat)
    requires Sorted(t, t', us, {}, clock, g, g) && u in us
    ensures IsHeld(t, u, clock, g)
  {
    hide IsHeld;
    var i :| 0 <= i < |us| && us[i] == u;
    assert InTurn(t, us, {}, clock, g, i);
    NoneNoted(g, t, us[..i]);
  }

  /** A uop that has not become ready waits for another one, or for none. */
  lemma UnreadyPlace(t: Table, q: Queues, place: map<nat, Place>, next: nat, u: nat)
    requires Tokens(q, place) && q.checking == [] && Placed(t, place, next, next)
    requires u in t.actualPort && u !in t.dispatched && u !in t.readyForDispatch
    ensures u in place
    ensures u in q.nonReady || exists p :: u in t.info && ReadsFrom(t, u, p) && p !in t.executed
  {
    hide Waiting, Scheduled, Queued, OnSet;
    assert u in place && InPlace(t, u, place[u], next, next);
    if place[u].Waits? {
      assert ReadsFrom(t, u, place[u].producer);
    }
  }

  lemma ProducersDone(t: Table, us: seq<nat>, i: nat)
    requires InDataflowOrder(t, us) && DoneBefore(t, us, i) && i < |us| && NoDuplicates(us)
    requires us[i] in t.actualPort && us[i] in t.info
    ensures forall p :: ReadsFrom(t, us[i], p) ==> p in t.executed
  {
    hide DoneBefore, Earlier;
    forall p | ReadsFrom(t, us[i], p)
      ensures p in t.executed
    {
      var op :| op in t.info[us[i]].inputs && op.Written? && op.uop == p;
      EarlierDone(t, us, i, p);
    }
  }

  /** A cycle in which nothing happens any more. */
  ghost predicate Stuck(m: Machine, s: Snapshot, k: Course, s': Snapshot, clock: nat) {
    && Holds(m, s, clock) && Holds(m, s', clock + 1) && Idle(s, s') && Late(s, clock) && Kept(s)
    && Idling(m, s.t, s.q, s.g, k, s', clock) && Orderly(s.t.info, All(s)) && "0" in m.sc.ports
  }

  lemma StuckFences(m: Machine, s: Snapshot, k: Course, s': Snapshot, clock: nat, d: Side)
    requires Stuck(m, s, k, s', clock)
    ensures Guarded(s.t, s.g, d) && FenceWaits(s.t, Fences(s.g, d))
  {
    hide Holds, Released, Chosen, PortsOut, PendingExact, AllUnknown, Without, Sorted, Orderly, GuardedBy, Enrolled;
    FenceStays(s'.t, s.g, clock, d);
  }

  /** The noted loads and stores have been dispatched, and executed unless they read from the store buffer. */
  lemma StuckAccesses(m: Machine, s: Snapshot, k: Course, s': Snapshot, clock: nat, d: Side)
    requires Stuck(m, s, k, s', clock)
    ensures DirectDone(s.t, Accesses(s.g, d))
  {
    assert Guarded(s.t, s.g, d);
    hide Holds, Idling, Idle, Late, Enrolled, InDataflowOrder, AllStored, Orderly;
    forall v | v in Accesses(s.g, d) && v in s.t.info && !Forwarded(s.t.info[v])
      ensures v in s.t.executed
    {
      assert AccessIn(s.t, v, d);
      ReadyIsDispatched(m, s, k, s', clock, v);
      DispatchedIsExecuted(m, s, k, s', clock, v);
    }
  }

  lemma StuckFenceListed(m: Machine, s: Snapshot, k: Course, s': Snapshot, clock: nat, u: nat, d: Side)
    requires Stuck(m, s, k, s', clock) && u in s.t.actualPort && u !in s.t.dispatched && u in s.t.info
    requires IsFence(s.t.info[u], d)
    ensures u in Fences(s.g, d)
  {
    hide Idling, Idle, Late, Kept, Sound, Tokens, BooksKept, PendingExact, DivisionsApart, DividerFree, InPlace;
  }

  lemma StuckNotHeld(m: Machine, s: Snapshot, k: Course, s': Snapshot, clock: nat, i: nat)
    requires Stuck(m, s, k, s', clock) && DoneBefore(s.t, All(s), i) && i < |All(s)|
    requires All(s)[i] in s.t.actualPort && All(s)[i] !in s.t.dispatched && All(s)[i] in s.t.info
    ensures !IsHeld(s.t, All(s)[i], clock, s.g)
  {
    forall d: Side
      ensures Guarded(s.t, s.g, d) && FenceWaits(s.t, Fences(s.g, d)) && DirectDone(s.t, Accesses(s.g, d))
      ensures IsFence(s.t.info[All(s)[i]], d) ==> All(s)[i] in Fences(s.g, d)
    {
      StuckFences(m, s, k, s', clock, d);
      StuckAccesses(m, s, k, s', clock, d);
      if IsFence(s.t.info[All(s)[i]], d) {
        StuckFenceListed(m, s, k, s', clock, All(s)[i], d);
      }
    }
    EnrolledKeys(s.t, All(s));
    hide Holds, Idling, Idle, Kept, DoneBefore, Guarded, FenceWaits, IsFence, IsHeld, Orderly, Fences, DirectDone;
    NotHeld(s.t, All(s), i, clock, s.g);
  }

  /** All uops before it having been executed, the next uop with a port has been dispatched. */
  lemma NextIsDispatched(m: Machine, s: Snapshot, k: Course, s': Snapshot, clock: nat, i: nat)
    requires Stuck(m, s, k, s', clock) && DoneBefore(s.t, All(s), i) && i < |All(s)|
    requires All(s)[i] in s.t.actualPort && All(s)[i] in s.t.info
    ensures All(s)[i] in s.t.dispatched
  {
    ProducersDone(s.t, All(s), i);
    hide Stuck, DoneBefore, IsHeld, ReadsFrom;
    if All(s)[i] !in s.t.dispatched {
      StuckNotHeld(m, s, k, s', clock, i);
      NextWaits(m, s, k, s', clock, All(s)[i]);
    }
  }

  /** An undispatched uop is held back, or it waits for an unexecuted one. */
  lemma NextWaits(m: Machine, s: Snapshot, k: Course, s': Snapshot, clock: nat, u: nat)
    requires Stuck(m, s, k, s', clock) && u in s.t.actualPort && u in s.t.info && u !in s.t.dispatched
    ensures IsHeld(s.t, u, clock, s.g) || exists p :: ReadsFrom(s.t, u, p) && p !in s.t.executed
  {
    if u in s.t.readyForDispatch {
      ReadyIsDispatched(m, s, k, s', clock, u);
    }
    hide Kept, Released, Chosen, PortsOut, AllUnknown, Orderly, Late, Sound, FencesPending, BooksKept;
    hide DivisionsApart, DividerFree, Tokens, Placed, PendingExact, Sorted, IsHeld;
    UnreadyPlace(s'.t, s'.q, s'.place, clock + 1, u);
    if u in s'.q.nonReady {
      WithoutNobody(k.waiting);
      StillHeld(k.executed, s'.t, k.waiting, clock, s.g, u);
      HeldSame(k.executed, s.t, u, clock, s.g);
    }
  }

  /** When nothing happens any more, all uops have been executed. */
  lemma {:induction false} StuckIsDone(m: Machine, s: Snapshot, k: Course, s': Snapshot, clock: nat, i: nat)
    requires Stuck(m, s, k, s', clock) && i <= |All(s)|
    ensures DoneBefore(s.t, All(s), i)
  {
    hide Stuck, All;
    if i > 0 {
      StuckIsDone(m, s, k, s', clock, i - 1);
      NextIsDone(m, s, k, s', clock, i - 1);
    }
  }

  lemma NextIsDone(m: Machine, s: Snapshot, k: Course, s': Snapshot, clock: nat, i: nat)
    requires Stuck(m, s, k, s', clock) && DoneBefore(s.t, All(s), i) && i < |All(s)|
    ensures All(s)[i] in s.t.executed
  {
    var u := All(s)[i];
    assert PortOrDone(s.t, u);
    if PortBound(s.t.info[u]) {
      NextIsDispatched(m, s, k, s', clock, i);
      if ForwardedFrom(s.t.info[u]).Some? {
        StoreDone(s.t, All(s), i);
      }
      hide Kept, Holds, Idling, Idle, Late, Orderly, DoneBefore, ForwardedFrom;
      DispatchedIsExecuted(m, s, k, s', clock, u);
    }
  }

  lemma {:induction false} InUnfused(fs: seq<FusedUop>, i: nat)
    requires i < |fs|
    ensures forall u :: u in fs[i].uops ==> u in Unfused(fs)
  {
    if i > 0 {
      InUnfused(fs[1..], i - 1);
    }
  }

  /** Nothing happens any more only if everything that has been issued has retired. */
  lemma StuckIsEmpty(m: Machine, s: Snapshot, o: Offer, s': Snapshot, clock: nat, k: Course)
    requires Steps(m, s, o, s', clock, k) && Idle(s, s') && Late(s, clock) && Kept(s) && Orderly(s.t.info, All(s))
    requires "0" in m.sc.ports && m.rc.retireWidth > 0
    ensures s.buffer == []
  {
    IdleCourse(m, s, o, s', clock, k);
    StuckIsDone(m, s, k, s', clock, |All(s)|);
    if s.buffer != [] {
      FrontRetires(m, s, o, clock);
      hide Holds, WellFormed, Kept, Orderly, Idling, SchedulerChoices.Follows, Late, Retiring, Later;
    }
  }

  lemma FrontRetires(m: Machine, s: Snapshot, o: Offer, clock: nat)
    requires Holds(m, s, clock) && Late(s, clock) && DoneBefore(s.t, All(s), |All(s)|)
    requires s.buffer != [] && m.rc.retireWidth > 0
    ensures Retiring(m, s.t, s.buffer, Accepted(m, s, o).infos, clock) > 0
  {
    hide Consistent, FencesPending, BooksKept, PendingExact, DivisionsApart, DividerFree, Reorder.DistinctIdx;
    var t := Issued(s.t, Accepted(m, s, o).infos, clock);
    InUnfused(s.issued, |s.retired|);
    assert s.issued[|s.retired|] == s.buffer[0];
    assert Reorder.CanRetire(t, s.buffer[0], clock);
  }

  // Runs

  /** An infinite run of the back end: in every cycle it takes an offer and follows a course. */
  ghost predicate IsRun(m: Machine, run: nat -> Snapshot, offers: nat -> Offer, courses: nat -> Course) {
    Starts(m, run(0)) && forall n: nat {:trigger offers(n)} :: Steps(m, run(n), offers(n), run(n + 1), n, courses(n))
  }

  /** What is issued in the run is a program. */
  ghost predicate OfProgram(run: nat -> Snapshot) {
    forall n :: Orderly(run(n).t.info, All(run(n)))
  }

  lemma StartKeeps(m: Machine, s: Snapshot)
    requires Starts(m, s)
    ensures Kept(s)
  {
    hide Consistent, FencesPending, BooksKept, PendingExact, DivisionsApart, DividerFree;
    assert s.retired == [];
  }

  lemma {:induction false} RunKeeps(m: Machine, run: nat -> Snapshot, offers: nat -> Offer, courses: nat -> Course,
                                    n: nat)
    requires IsRun(m, run, offers, courses) && OfProgram(run)
    ensures Kept(run(n))
  {
    hide Kept, Steps, Orderly, Starts;
    if n == 0 {
      StartKeeps(m, run(0));
    } else {
      RunKeeps(m, run, offers, courses, n - 1);
      assert Steps(m, run(n - 1), offers(n - 1), run(n), n - 1, courses(n - 1));
      CycleKeeps(m, run(n - 1), offers(n - 1), run(n), n - 1, courses(n - 1));
    }
  }

  // What only grows and is bounded stops growing

  ghost predicate GrowsAt(f: nat -> int, i: nat) {
    f(i) <= f(i + 1)
  }

  ghost predicate Grows(f: nat -> int, n: nat) {
    forall i :: n <= i ==> GrowsAt(f, i)
  }

  lemma {:induction false} GrowsTo(f: nat -> int, n: nat, i: nat, j: nat)
    requires Grows(f, n) && n <= i <= j
    ensures f(i) <= f(j)
    decreases j
  {
    if i < j {
      GrowsTo(f, n, i, j - 1);
      assert GrowsAt(f, j - 1);
    }
  }

  lemma {:induction false} Settles(f: nat -> int, bound: int, n: nat) returns (k: nat)
    requires Grows(f, n) && forall i :: n <= i ==> f(i) <= bound
    ensures n <= k && forall i :: k <= i ==> f(i) == f(k)
    decreases bound - f(n)
  {
    hide GrowsAt;
    if i :| n <= i && f(i) > f(n) {
      k := Settles(f, bound, i);
    } else {
      k := n;
      forall i | k <= i
        ensures f(i) == f(k)
      {
        GrowsTo(f, n, n, i);
      }
    }
  }

  lemma SameCard<K>(a: set<K>, b: set<K>)
    requires a <= b
    ensures |a| <= |b| && (|a| == |b| ==> a == b)
  {
    var rest := b - a;
    assert b == a + rest;
    if |a| == |b| {
      assert rest == {};
    }
  }

  /** What grows in every cycle in which something happens while no more uops are issued. */
  ghost function Progress(s: Snapshot): int {
    |s.retired| + |s.t.executed.Keys| + |s.t.dispatched.Keys| + |s.t.readyForDispatch.Keys|
    - |s.g.loadFences| - |s.g.storeFences|
  }

  lemma {:induction false} NotedFences(g: Guards, t: Table, us: seq<nat>, ready: set<nat>)
    ensures NotedAll(g, t, us, ready).loadFences == g.loadFences
    ensures NotedAll(g, t, us, ready).storeFences == g.storeFences
  {
    if us != [] {
      NotedFences(g, t, us[..|us| - 1], ready);
    }
  }

  lemma NotedAtLast(t: Table, t': Table, us: seq<nat>, ready: set<nat>, clock: nat, g: Guards, h: Guards)
    requires Sorted(t, t', us, ready, clock, g, h)
    ensures h == NotedAll(g, t, us, ready)
  {}

  lemma FewerFences(m: Machine, s: Snapshot, o: Offer, s': Snapshot, clock: nat, k: Course)
    requires Steps(m, s, o, s', clock, k) && Arrivals(m, s, o) == []
    ensures |s'.g.loadFences| <= |s.g.loadFences| && |s'.g.storeFences| <= |s.g.storeFences|
  {
    CycleBinds(m, s, o, s', clock, k);
    NotedAtLast(k.executed, s'.t, k.waiting, k.readied, clock, k.before, k.after);
    NotedFences(k.before, k.executed, k.waiting, k.readied);
    WithNoFences(s.g, k.bound);
    hide Steps, Sorted, NotedAll, WithFences, Arrivals, PortBound, FinishedRight;
  }

  lemma StepLater(m: Machine, s: Snapshot, o: Offer, s': Snapshot, clock: nat, k: Course)
    requires Steps(m, s, o, s', clock, k)
    ensures s.t.executed.Keys <= s'.t.executed.Keys && s.t.dispatched.Keys <= s'.t.dispatched.Keys
    ensures s.t.readyForDispatch.Keys <= s'.t.readyForDispatch.Keys
  {
    hide Holds, WellFormed, SchedulerChoices.Follows, Retiring, Accepted;
    LaterKeys(s.t, s'.t);
  }

  lemma ProgressSplit(s: Snapshot, s': Snapshot)
    requires |s.retired| <= |s'.retired| && s'.issued == s.issued
    requires s.t.executed.Keys <= s'.t.executed.Keys && s.t.dispatched.Keys <= s'.t.dispatched.Keys
    requires s.t.readyForDispatch.Keys <= s'.t.readyForDispatch.Keys
    requires |s'.g.loadFences| <= |s.g.loadFences| && |s'.g.storeFences| <= |s.g.storeFences|
    ensures Progress(s) <= Progress(s') && (Progress(s) == Progress(s') ==> Idle(s, s'))
  {
    SameCard(s.t.executed.Keys, s'.t.executed.Keys);
    SameCard(s.t.dispatched.Keys, s'.t.dispatched.Keys);
    SameCard(s.t.readyForDispatch.Keys, s'.t.readyForDispatch.Keys);
  }

  /** Something happens, or nothing. */
  lemma ProgressOrIdle(m: Machine, s: Snapshot, o: Offer, s': Snapshot, clock: nat, k: Course)
    requires Steps(m, s, o, s', clock, k) && s'.issued == s.issued
    ensures Progress(s) <= Progress(s') && (Progress(s) == Progress(s') ==> Idle(s, s'))
  {
    NothingArrives(m, s, o, s', clock, k);
    FewerFences(m, s, o, s', clock, k);
    StepIssues(m, s, o, s', clock, k);
    StepLater(m, s, o, s', clock, k);
    hide Steps, Arrivals, Accepted, Progress, Idle;
    ProgressSplit(s, s');
  }

  lemma ProgressBounded(m: Machine, s: Snapshot, next: nat)
    requires Holds(m, s, next) && Kept(s)
    ensures Progress(s) <= |s.issued| + 3 * |SetOf(All(s))|
  {
    EnrolledKeys(s.t, All(s));
    HoldsSound(m, s, next);
    hide Consistent, FencesPending, BooksKept, PendingExact, DivisionsApart, DividerFree, Kept, SetOf, All;
    SameCard(s.t.executed.Keys, s.t.info.Keys);
    SameCard(s.t.readyForDispatch.Keys, s.t.info.Keys);
    SameCard(s.t.dispatched.Keys, s.t.info.Keys);
  }

  /** In an idle cycle nothing new is determined, and what is busy comes closer to being free. */
  lemma IdleDecays(m: Machine, s: Snapshot, o: Offer, s': Snapshot, clock: nat, k: Course)
    requires Steps(m, s, o, s', clock, k) && Idle(s, s')
    ensures s'.t.executed == s.t.executed && s'.t.readyForDispatch == s.t.readyForDispatch
    ensures s'.g.blocked == map r | r in s.g.blocked :: OneLess(s.g.blocked[r])
  {
    IdleCourse(m, s, o, s', clock, k);
    hide Holds, WellFormed, SchedulerChoices.Follows, Retiring, Released, Chosen, PortsOut, Sorted, Without, AllUnknown;
    LaterActual(s.t, s'.t);
    hide Later;
    SameMap(s.t.readyForDispatch, s'.t.readyForDispatch);
  }

  lemma {:induction false} ValuesBelow<K>(m: map<K, int>) returns (c: nat)
    ensures forall k :: k in m ==> m[k] < c
    decreases |m|
  {
    c := 0;
    if m != map[] {
      var k :| k in m;
      var rest := m - {k};
      assert m == rest[k := m[k]];
      assert |rest| < |m| by {
        assert rest.Keys == m.Keys - {k};
      }
      var d := ValuesBelow(rest);
      c := Max(d, m[k] + 1);
    }
  }

  lemma InRun(m: Machine, run: nat -> Snapshot, offers: nat -> Offer, courses: nat -> Course, n: nat)
    requires IsRun(m, run, offers, courses)
    ensures Steps(m, run(n), offers(n), run(n + 1), n, courses(n))
  {}

  ghost predicate SameIssued(run: nat -> Snapshot, n: nat) {
    run(n + 1).issued == run(n).issued
  }

  ghost predicate IdleAt(run: nat -> Snapshot, n: nat) {
    Idle(run(n), run(n + 1))
  }

  lemma StepIssues(m: Machine, s: Snapshot, o: Offer, s': Snapshot, clock: nat, k: Course)
    requires Steps(m, s, o, s', clock, k)
    ensures s.issued <= s'.issued && s.retired <= s'.retired
    ensures |s.issued| <= |s.retired| + m.rc.rbWidth
  {
    hide WellFormed, SchedulerChoices.Follows, Retiring, Consistent, FencesPending, BooksKept, PendingExact, Later;
    hide DivisionsApart, DividerFree, Reorder.DistinctIdx, Accepted;
  }

  /** If few uops retire, then few are issued. */
  lemma IssueEnds(m: Machine, run: nat -> Snapshot, offers: nat -> Offer, courses: nat -> Course, bound: nat)
    returns (k: nat)
    requires IsRun(m, run, offers, courses) && forall n :: |run(n).retired| <= bound
    ensures forall n :: k <= n ==> SameIssued(run, n)
  {
    hide Steps;
    var f := (n: nat) => |run(n).issued| as int;
    forall n: nat
      ensures GrowsAt(f, n) && f(n) <= bound + m.rc.rbWidth && run(n).issued <= run(n + 1).issued
    {
      InRun(m, run, offers, courses, n);
      StepIssues(m, run(n), offers(n), run(n + 1), n, courses(n));
    }
    hide IsRun;
    k := Settles(f, bound + m.rc.rbWidth, 0);
    forall n | k <= n
      ensures SameIssued(run, n)
    {
      assert f(n) == f(k) && f(n + 1) == f(k);
    }
  }

  lemma {:induction false} StillIssuedSame(run: nat -> Snapshot, k: nat, n: nat)
    requires k <= n && forall i :: k <= i ==> SameIssued(run, i)
    ensures run(n).issued == run(k).issued
    decreases n
  {
    if k < n {
      StillIssuedSame(run, k, n - 1);
      assert SameIssued(run, n - 1);
    }
  }

  /** If no more uops are issued, then nothing happens in the end. */
  lemma AllEnds(m: Machine, run: nat -> Snapshot, offers: nat -> Offer, courses: nat -> Course, k: nat)
    returns (l: nat)
    requires IsRun(m, run, offers, courses) && OfProgram(run) && forall n :: k <= n ==> SameIssued(run, n)
    ensures k <= l && forall n :: l <= n ==> IdleAt(run, n)
  {
    hide Steps, Idle, Progress, Kept, Holds, Orderly;
    var f := (n: nat) => Progress(run(n));
    var bound := |run(k).issued| + 3 * |SetOf(All(run(k)))|;
    forall n: nat | k <= n
      ensures GrowsAt(f, n) && f(n) <= bound && (f(n) == f(n + 1) ==> IdleAt(run, n))
    {
      assert SameIssued(run, n);
      StillIssuedSame(run, k, n);
      InRun(m, run, offers, courses, n);
      ProgressOrIdle(m, run(n), offers(n), run(n + 1), n, courses(n));
      RunKeeps(m, run, offers, courses, n);
      StepHolds(m, run(n), offers(n), run(n + 1), n, courses(n));
      ProgressBounded(m, run(n), n);
    }
    hide IsRun, IdleAt;
    l := Settles(f, bound, k);
    forall n | l <= n
      ensures IdleAt(run, n)
    {
      assert f(n) == f(l) && f(n + 1) == f(l);
    }
  }

  lemma StepHolds(m: Machine, s: Snapshot, o: Offer, s': Snapshot, clock: nat, k: Course)
    requires Steps(m, s, o, s', clock, k)
    ensures Holds(m, s, clock) && Holds(m, s', clock + 1)
  {}

  function MinusUpTo(a: nat, b: nat): nat {
    if a < b then 0 else a - b
  }

  /** After n idle cycles nothing new has been determined, and what is busy has come closer to being free. */
  ghost predicate Decayed(s: Snapshot, s': Snapshot, n: nat) {
    && s'.t.executed == s.t.executed && s'.t.readyForDispatch == s.t.readyForDispatch
    && s'.g.blocked == map r | r in s.g.blocked :: MinusUpTo(s.g.blocked[r], n)
  }

  lemma NoneDecayed(s: Snapshot)
    ensures Decayed(s, s, 0)
  {}

  lemma DecaysMore(first: Snapshot, s: Snapshot, s': Snapshot, n: nat)
    requires Decayed(first, s, n)
    requires s'.t.executed == s.t.executed && s'.t.readyForDispatch == s.t.readyForDispatch
    requires s'.g.blocked == map r | r in s.g.blocked :: OneLess(s.g.blocked[r])
    ensures Decayed(first, s', n + 1)
  {}

  lemma {:induction false} IdleOn(m: Machine, run: nat -> Snapshot, offers: nat -> Offer, courses: nat -> Course,
                                  l: nat, n: nat)
    requires IsRun(m, run, offers, courses) && forall i :: l <= i ==> IdleAt(run, i)
    ensures Decayed(run(l), run(l + n), n)
  {
    hide Steps, Idle, Starts, Decayed;
    if n == 0 {
      NoneDecayed(run(l));
    } else {
      var i := l + (n - 1);
      IdleOn(m, run, offers, courses, l, n - 1);
      InRun(m, run, offers, courses, i);
      assert IdleAt(run, i);
      IdleDecays(m, run(i), offers(i), run(i + 1), i, courses(i));
      DecaysMore(run(l), run(i), run(i + 1), n - 1);
    }
  }

  /** A bound on the cycles in the past and on how long resources are busy. */
  ghost predicate Below(s: Snapshot, c: nat) {
    && (forall u :: u in s.t.executed ==> s.t.executed[u] < c)
    && (forall u :: u in s.t.readyForDispatch ==> s.t.readyForDispatch[u] < c)
    && forall r :: r in s.g.blocked ==> s.g.blocked[r] < c
  }

  lemma BelowIsLate(s: Snapshot, s': Snapshot, c: nat, clock: nat)
    requires Below(s, c) && c <= clock && Decayed(s, s', c)
    ensures Late(s', clock)
  {}

  function AsInts<K(!new)>(m: map<K, nat>): map<K, int> {
    map k | k in m :: m[k]
  }

  lemma AllBelow(s: Snapshot) returns (c: nat)
    ensures Below(s, c)
  {
    var a := ValuesBelow(s.t.executed);
    var ready := AsInts(s.t.readyForDispatch);
    var b := ValuesBelow(ready);
    var busy := AsInts(s.g.blocked);
    var d := ValuesBelow(busy);
    c := a + b + d;
    forall u | u in s.t.readyForDispatch
      ensures s.t.readyForDispatch[u] < c
    {
      assert u in ready;
    }
    forall r | r in s.g.blocked
      ensures s.g.blocked[r] < c
    {
      assert r in busy;
    }
  }

  lemma LateIn(m: Machine, run: nat -> Snapshot, offers: nat -> Offer, courses: nat -> Course, l: nat) returns (n: nat)
    requires IsRun(m, run, offers, courses) && forall i :: l <= i ==> IdleAt(run, i)
    ensures l <= n && Late(run(n), n)
  {
    var s := run(l);
    var c := AllBelow(s);
    hide IsRun, IdleAt, Below, Decayed, Late;
    n := l + c;
    IdleOn(m, run, offers, courses, l, c);
    BelowIsLate(s, run(n), c, n);
  }

  // Everything retires

  /** If few uops retire, then the reorder buffer runs empty. */
  lemma RunsEmpty(m: Machine, run: nat -> Snapshot, offers: nat -> Offer, courses: nat -> Course, n: nat, bound: nat)
    returns (k: nat)
    requires IsRun(m, run, offers, courses) && OfProgram(run) && "0" in m.sc.ports && m.rc.retireWidth > 0
    requires forall j :: |run(j).retired| <= bound
    ensures n <= k && run(k).buffer == []
  {
    hide Late, IdleAt, SameIssued;
    var quiet := IssueEnds(m, run, offers, courses, bound);
    var idle := AllEnds(m, run, offers, courses, if n < quiet then quiet else n);
    k := LateIn(m, run, offers, courses, idle);
    EndsEmpty(m, run, offers, courses, k);
  }

  lemma RetiresMore(m: Machine, run: nat -> Snapshot, offers: nat -> Offer, courses: nat -> Course, n: nat, i: nat)
    returns (k: nat)
    requires IsRun(m, run, offers, courses) && OfProgram(run) && "0" in m.sc.ports && m.rc.retireWidth > 0
    requires i < |run(n).issued|
    ensures i < |run(k).retired|
  {
    k := n;
    if forall j :: |run(j).retired| <= i {
      k := RunsEmpty(m, run, offers, courses, n, i);
      RetiredIssued(m, run, offers, courses, k);
      hide IsRun, OfProgram;
      GrownBy(m, run, offers, courses, n, k);
    } else {
      k :| |run(k).retired| > i;
    }
  }

  /** Every issued uop retires in the end: nothing waits forever for a port, for an operand, for a fence, for a busy
      resource or for a uop before it in the reorder buffer. */
  lemma EveryUopRetires(m: Machine, run: nat -> Snapshot, offers: nat -> Offer, courses: nat -> Course, n: nat, i: nat)
    requires IsRun(m, run, offers, courses) && OfProgram(run) && "0" in m.sc.ports && m.rc.retireWidth > 0
    requires i < |run(n).issued|
    ensures exists k :: n <= k && i < |run(k).retired| && run(k).retired[i] == run(n).issued[i]
  {
    var k := RetiresMore(m, run, offers, courses, n, i);
    var l := if n < k then k else n;
    RetiredIssued(m, run, offers, courses, l);
    hide IsRun, OfProgram;
    GrownBy(m, run, offers, courses, n, l);
    GrownBy(m, run, offers, courses, k, l);
    assert n <= l && i < |run(l).retired| && run(l).retired[i] == run(n).issued[i];
  }

  lemma EndsEmpty(m: Machine, run: nat -> Snapshot, offers: nat -> Offer, courses: nat -> Course, n: nat)
    requires IsRun(m, run, offers, courses) && OfProgram(run) && "0" in m.sc.ports && m.rc.retireWidth > 0
    requires IdleAt(run, n) && Late(run(n), n)
    ensures run(n).buffer == []
  {
    hide Steps, Idle, Late, Kept, Orderly;
    RunKeeps(m, run, offers, courses, n);
    InRun(m, run, offers, courses, n);
    StuckIsEmpty(m, run(n), offers(n), run(n + 1), n, courses(n));
  }

  lemma RetiredIssued(m: Machine, run: nat -> Snapshot, offers: nat -> Offer, courses: nat -> Course, n: nat)
    requires IsRun(m, run, offers, courses)
    ensures run(n).issued == run(n).retired + run(n).buffer
  {
    InRun(m, run, offers, courses, n);
    StepHolds(m, run(n), offers(n), run(n + 1), n, courses(n));
    hide IsRun, Steps, Consistent, FencesPending, BooksKept, PendingExact, DivisionsApart, DividerFree;
    hide Reorder.DistinctIdx;
  }

  lemma {:induction false} GrownBy(m: Machine, run: nat -> Snapshot, offers: nat -> Offer, courses: nat -> Course,
                                   n: nat, l: nat)
    requires IsRun(m, run, offers, courses) && n <= l
    ensures run(n).issued <= run(l).issued && run(n).retired <= run(l).retired
    decreases l
  {
    hide Steps;
    if n < l {
      GrownBy(m, run, offers, courses, n, l - 1);
      InRun(m, run, offers, courses, l - 1);
      StepIssues(m, run(l - 1), offers(l - 1), run(l), l - 1, courses(l - 1));
    }
  }

  lemma RetiredIsDone(m: Machine, s: Snapshot, next: nat, issued: seq<FusedUop>, u: nat)
    requires Holds(m, s, next) && Kept(s) && issued <= s.retired && u in Unfused(issued)
    ensures u in s.t.executed && (u in s.t.actualPort ==> u in s.t.dispatched)
  {
    HoldsSound(m, s, next);
    hide Holds, Enrolled, InDataflowOrder, AllStored, Guarded, Registered, Unfused;
    var more := s.retired[|issued|..];
    assert s.retired == issued + more;
    UnfusedAppend(issued, more);
  }

  /** Every uop is executed in the end, after it has been dispatched if it has a port. */
  lemma EveryUopIsExecuted(m: Machine, run: nat -> Snapshot, offers: nat -> Offer, courses: nat -> Course, n: nat,
                           u: nat)
    requires IsRun(m, run, offers, courses) && OfProgram(run) && "0" in m.sc.ports && m.rc.retireWidth > 0
    requires u in run(n).t.info
    ensures exists k :: u in run(k).t.executed && (u in run(k).t.actualPort ==> u in run(k).t.dispatched)
  {
    hide Kept, Steps, Holds, SetOf;
    Issues(m, run, offers, courses, n, u);
    var i := |run(n).issued| - 1;
    EveryUopRetires(m, run, offers, courses, n, i);
    var l :| n <= l && i < |run(l).retired| && run(l).retired[i] == run(n).issued[i];
    RunKeeps(m, run, offers, courses, l);
    InRun(m, run, offers, courses, l);
    StepHolds(m, run(l), offers(l), run(l + 1), l, courses(l));
    RetiredIssued(m, run, offers, courses, l);
    GrownBy(m, run, offers, courses, n, l);
    RetiredIsDone(m, run(l), l, run(n).issued, u);
  }

  lemma Issues(m: Machine, run: nat -> Snapshot, offers: nat -> Offer, courses: nat -> Course, n: nat, u: nat)
    requires IsRun(m, run, offers, courses) && OfProgram(run) && u in run(n).t.info
    ensures u in Unfused(run(n).issued) && run(n).issued != []
  {
    RunKeeps(m, run, offers, courses, n);
    hide IsRun, OfProgram, InDataflowOrder, AllStored, Guarded, AllExecuted;
    EnrolledKeys(run(n).t, All(run(n)));
    assert u in SetOf(All(run(n)));
  }

  // The back end takes uops again and again

  lemma FullIssuesNothing(m: Machine, s: Snapshot, o: Offer, s': Snapshot, clock: nat, k: Course)
    requires Steps(m, s, o, s', clock, k) && !RoomFor(m, s)
    ensures s'.issued == s.issued
  {
    hide Holds, WellFormed, SchedulerChoices.Follows, Retiring, Later, RoomFor;
  }

  lemma PlacedUndispatched(t: Table, place: map<nat, Place>, next: nat)
    requires Placed(t, place, next, next)
    ensures place.Keys <= t.actualPort.Keys - t.dispatched.Keys
  {
    forall u | u in place
      ensures u in t.actualPort && u !in t.dispatched
    {
      assert InPlace(t, u, place[u], next, next);
    }
  }

  lemma AllDispatched(m: Machine, s: Snapshot, next: nat)
    requires Holds(m, s, next) && Kept(s) && s.buffer == []
    ensures s.t.actualPort.Keys <= s.t.dispatched.Keys
  {
    HoldsSound(m, s, next);
    EnrolledKeys(s.t, All(s));
    assert s.issued == s.retired;
    hide Holds, InDataflowOrder, AllStored, Guarded, Enrolled, Registered;
    forall u | u in s.t.actualPort
      ensures u in s.t.dispatched
    {
      assert u in SetOf(All(s));
    }
  }

  /** When everything has retired, the scheduler is empty, too. */
  lemma EmptyHasRoom(m: Machine, s: Snapshot, next: nat)
    requires Holds(m, s, next) && Kept(s) && s.buffer == []
    requires m.rc.issueWidth <= m.rc.rbWidth && m.sc.issueWidth <= m.sc.rsWidth
    ensures RoomFor(m, s)
  {
    AllDispatched(m, s, next);
    hide Kept, FencesPending, PendingExact, DivisionsApart, DividerFree, Sound, Tokens, Placed, UsageCounts;
    hide Reorder.DistinctIdx;
    PlacedUndispatched(s.t, s.place, next);
    assert s.uops == {};
  }

  /** Again and again there is room for more uops. */
  lemma RoomAgain(m: Machine, run: nat -> Snapshot, offers: nat -> Offer, courses: nat -> Course, n: nat)
    requires IsRun(m, run, offers, courses) && OfProgram(run) && "0" in m.sc.ports && m.rc.retireWidth > 0
    requires m.rc.issueWidth <= m.rc.rbWidth && m.sc.issueWidth <= m.sc.rsWidth
    ensures exists k :: n <= k && RoomFor(m, run(k))
  {
    hide Late, IdleAt, Steps, Kept, Holds, RoomFor;
    if forall k :: n <= k ==> !RoomFor(m, run(k)) {
      forall k | n <= k
        ensures SameIssued(run, k)
      {
        InRun(m, run, offers, courses, k);
        FullIssuesNothing(m, run(k), offers(k), run(k + 1), k, courses(k));
      }
      var idle := AllEnds(m, run, offers, courses, n);
      var k := LateIn(m, run, offers, courses, idle);
      EndsEmpty(m, run, offers, courses, k);
      RunKeeps(m, run, offers, courses, k);
      InRun(m, run, offers, courses, k);
      StepHolds(m, run(k), offers(k), run(k + 1), k, courses(k));
      EmptyHasRoom(m, run(k), k);
    }
  }
}

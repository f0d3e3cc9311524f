/** What dispatching uops keeps: the books of the scheduler, the pending uops and the use of the divider. */
module SchedulerDispatch {
  import opened Wrappers
  import opened Uops
  import opened UopSteps
  import opened SchedulerTokens
  import opened SchedulerState
  import opened SchedulerSteps

  lemma {:induction false} FindLeast(s: set<nat>) returns (m: nat)
    requires s != {}
    ensures m in s && forall x :: x in s ==> m <= x
  {
    var some :| some in s;
    var rest := s - {some};
    assert forall x :: x in s ==> x == some || x in rest;
    if rest == {} {
      m := some;
    } else {
      var n := FindLeast(rest);
      m := if n < some then n else some;
    }
  }

  predicate IsLeast(m: nat, s: set<nat>) {
    m in s && forall x :: x in s ==> m <= x
  }

  lemma HasLeast(s: set<nat>)
    requires s != {}
    ensures exists m :: IsLeast(m, s)
  {
    var m := FindLeast(s);
    assert IsLeast(m, s);
  }

  /** The oldest uop of a queue. */
  function Least(s: set<nat>): (m: nat)
    requires s != {}
    ensures IsLeast(m, s)
  {
    HasLeast(s);
    var m :| m in s && IsLeast(m, s);
    m
  }

  lemma LeastIn(s: set<nat>)
    requires s != {}
    ensures Least(s) in s
  {}

  // The books

  /** While uops are dispatched, those dispatched in the previous cycle are still counted. */
  ghost predicate BooksOpen(t: Table, uops: set<nat>, place: map<nat, Place>, usage: map<string, int>, now: seq<nat>,
                            prev: seq<nat>)
  {
    && uops == place.Keys && NoDuplicates(now) && NoDuplicates(prev)
    && UsageDuring(t, usage, uops, SetOf(now), SetOf(prev))
    && (forall u :: u in now ==> u in t.dispatched && u in t.actualPort && u !in uops)
    && (forall u :: u in prev ==> u in t.dispatched && u in t.actualPort)
    && (forall u :: u in t.actualPort ==> t.actualPort[u] in usage)
  }

  ghost predicate UsageDuring(t: Table, usage: map<string, int>, uops: set<nat>, now: set<nat>, prev: set<nat>) {
    forall p :: p in usage ==> usage[p] == |OnPort(t, uops, p)| + |OnPort(t, now, p)| + |OnPort(t, prev, p)|
  }

  lemma OpenBooks(t: Table, uops: set<nat>, place: map<nat, Place>, usage: map<string, int>, prev: seq<nat>)
    requires BooksKept(t, uops, place, usage, prev)
    ensures BooksOpen(t, uops, place, usage, [], prev)
  {
    assert SetOf([]) == {};
    forall p: string
      ensures OnPort(t, {}, p) == {}
    {}
  }

  lemma CloseBooks(t: Table, uops: set<nat>, place: map<nat, Place>, usage: map<string, int>, now: seq<nat>)
    requires BooksOpen(t, uops, place, usage, now, [])
    ensures BooksKept(t, uops, place, usage, now)
  {
    assert SetOf([]) == {};
    forall p: string
      ensures OnPort(t, {}, p) == {}
    {}
  }

  lemma UsageDispatched(t: Table, s: Table, usage: map<string, int>, uops: set<nat>, now: set<nat>, prev: set<nat>,
                        u: nat)
    requires UsageDuring(t, usage, uops, now, prev) && u in uops && u !in now && u in t.actualPort
    requires s.actualPort == t.actualPort
    ensures UsageDuring(s, usage, uops - {u}, now + {u}, prev)
  {
    UsageMoved(t, usage, uops, now, u);
    forall p: string
      ensures OnPort(s, uops - {u}, p) == OnPort(t, uops - {u}, p) && OnPort(s, prev, p) == OnPort(t, prev, p)
      ensures OnPort(s, now + {u}, p) == OnPort(t, now + {u}, p)
    {}
  }

  lemma UopCounted(t: Table, uops: set<nat>, place: map<nat, Place>, usage: map<string, int>, now: seq<nat>,
                   prev: seq<nat>, u: nat)
    requires BooksOpen(t, uops, place, usage, now, prev) && u in place
    ensures u in uops
  {}

  /** A dispatched uop stays counted. */
  lemma BooksDispatched(t: Table, uops: set<nat>, place: map<nat, Place>, usage: map<string, int>, now: seq<nat>,
                        prev: seq<nat>, u: nat, clock: nat)
    requires BooksOpen(t, uops, place, usage, now, prev) && u in uops && u in t.actualPort
    ensures BooksOpen(Dispatched(t, u, clock), uops - {u}, place - {u}, usage, now + [u], prev)
  {
    hide UsageDuring;
    assert SetOf(now + [u]) == SetOf(now) + {u};
    UsageDispatched(t, Dispatched(t, u, clock), usage, uops, SetOf(now), SetOf(prev), u);
    assert u !in now;
    OneMore(now, u);
    hide NoDuplicates, SetOf;
    assert (place - {u}).Keys == place.Keys - {u};
  }

  lemma OneMore(us: seq<nat>, u: nat)
    requires NoDuplicates(us) && u !in us
    ensures NoDuplicates(us + [u])
  {}

  /** One cycle later it is not counted any more. */
  lemma BooksReleased(t: Table, uops: set<nat>, place: map<nat, Place>, usage: map<string, int>, now: seq<nat>,
                      prev: seq<nat>)
    requires BooksOpen(t, uops, place, usage, now, prev) && prev != []
    ensures var u := prev[0];
            && u in t.actualPort && t.actualPort[u] in usage
            && BooksOpen(t, uops, place, usage[t.actualPort[u] := usage[t.actualPort[u]] - 1], now, prev[1..])
  {
    var u := prev[0];
    var rest := SetOf(prev[1..]);
    assert prev == [u] + prev[1..];
    assert SetOf(prev) == rest + {u};
    forall p: string
      ensures |OnPort(t, rest + {u}, p)| == |OnPort(t, rest, p)| + if t.actualPort[u] == p then 1 else 0
    {
      OnPortAdd(t, rest, u, p);
    }
  }

  // Pending uops

  /** The pending uops are those that have been dispatched but not executed. */
  ghost predicate PendingExact(t: Table, pending: set<nat>) {
    forall u :: u in pending <==> u in t.dispatched && u !in t.executed
  }

  lemma SamePending(t: Table, s: Table, pending: set<nat>)
    requires PendingExact(t, pending) && s.dispatched == t.dispatched && s.executed == t.executed
    ensures PendingExact(s, pending)
  {}

  lemma OneMorePending(t: Table, pending: set<nat>, u: nat, clock: nat)
    requires PendingExact(t, pending) && u !in t.executed
    ensures PendingExact(Dispatched(t, u, clock), pending + {u})
  {}

  // The divider

  lemma SameDivider(t: Table, s: Table, free: nat, later: nat)
    requires DividerFree(t, free) && DivisionsApart(t) && free <= later
    requires s.info == t.info && s.dispatched == t.dispatched
    ensures DividerFree(s, later) && DivisionsApart(s)
  {
    forall u, v | u in s.dispatched && v in s.dispatched
      ensures Apart(s, u, v)
    {
      assert Apart(t, u, v);
    }
  }

  /** A division is dispatched to the free divider. */
  lemma DividerTaken(t: Table, free: nat, u: nat, clock: nat)
    requires DividerFree(t, free) && DivisionsApart(t) && u !in t.dispatched && clock <= free
    requires DivCycles(t, u) > 0 ==> free == clock
    ensures DividerFree(Dispatched(t, u, clock), free + DivCycles(t, u)) && DivisionsApart(Dispatched(t, u, clock))
  {
    var s := Dispatched(t, u, clock);
    forall v, w | v in s.dispatched && w in s.dispatched
      ensures Apart(s, v, w)
    {
      if v != u && w != u {
        assert Apart(t, v, w);
      }
    }
  }

  // Dispatch

  /** The places of the other uops stay right when a ready uop leaves. */
  lemma PlacedDispatched(t: Table, place: map<nat, Place>, before: nat, due: nat, u: nat, clock: nat)
    requires Placed(t, place, before, due) && u in place && Later(t, Dispatched(t, u, clock))
    ensures Placed(Dispatched(t, u, clock), place - {u}, before, due)
  {
    hide ReadyCycle, AllAnswered, Later, InPlace;
    var s := Dispatched(t, u, clock);
    forall v | v in place - {u}
      ensures InPlace(s, v, (place - {u})[v], before, due)
    {
      NotDispatched(t, place[v], v, before, due);
      StaysInPlace(t, s, v, place[v], before, due);
    }
  }

  lemma NotDispatched(t: Table, w: Place, v: nat, before: nat, due: nat)
    requires InPlace(t, v, w, before, due)
    ensures v !in t.dispatched && (w.Waits? ==> w.producer !in t.executed)
  {}

  lemma ReadyUop(t: Table, u: nat, w: Place, before: nat, due: nat)
    requires InPlace(t, u, w, before, due) && (w.Ready? || w.ReadyDiv?)
    ensures u in t.readyForDispatch && t.readyForDispatch[u] < before && u !in t.dispatched
    ensures u in t.info && u in t.actualPort && (w.ReadyDiv? <==> DivCycles(t, u) > 0)
  {}

  lemma UndispatchedUnexecuted(t: Table, delay: nat, u: nat)
    requires Sound(t, delay) && u in t.actualPort && u !in t.dispatched
    ensures u !in t.executed
  {}

  /** The queue that a uop is dispatched from: that of the divider or that of a port. */
  datatype Source = FromDivider | FromPort(port: string)

  predicate InSource(q: Queues, source: Source, u: nat) {
    match source
    case FromDivider => u in q.readyDiv
    case FromPort(p) => p in q.ready && u in q.ready[p]
  }

  function TakenFrom(q: Queues, source: Source, u: nat): Queues {
    match source
    case FromDivider => q.(readyDiv := q.readyDiv - {u})
    case FromPort(p) => if p in q.ready then q.(ready := q.ready[p := q.ready[p] - {u}]) else q
  }

  lemma SourceToken(q: Queues, place: map<nat, Place>, source: Source, u: nat)
    requires Tokens(q, place) && InSource(q, source, u)
    ensures u in place && (if source.FromDivider? then place[u] == ReadyDiv else place[u] == Ready(source.port))
    ensures Tokens(TakenFrom(q, source, u), place - {u})
  {
    hide OnList, OnSet, Waiting, Scheduled, Queued;
    match source {
      case FromDivider => {
        LeaveDiv(q, place, u);
      }
      case FromPort(p) => {
        Leave(q, place, p, u);
      }
    }
  }

  /** A ready uop is dispatched. */
  lemma Dispatches(t: Table, q: Queues, place: map<nat, Place>, clock: nat, delay: nat, source: Source, u: nat)
    requires Consistent(t, q, place, clock + 1, clock + 1, delay) && InSource(q, source, u)
    ensures u in place && u in t.info && u in t.actualPort && u !in t.dispatched && u !in t.executed
    ensures source.FromDivider? <==> DivCycles(t, u) > 0
    ensures Later(t, Dispatched(t, u, clock))
    ensures Consistent(Dispatched(t, u, clock), TakenFrom(q, source, u), place - {u}, clock + 1, clock + 1, delay)
  {
    SourceToken(q, place, source, u);
    ReadyUop(t, u, place[u], clock + 1, clock + 1);
    UndispatchedUnexecuted(t, delay, u);
    hide Sound, Tokens, Placed, Later;
    DispatchedSound(t, delay, u, clock);
    PlacedDispatched(t, place, clock + 1, clock + 1, u, clock);
  }

  /** Uops have been dispatched in this cycle. */
  ghost predicate OnlyDispatched(t: Table, s: Table, clock: nat) {
    && s == t.(dispatched := s.dispatched) && Later(t, s)
    && forall u :: u in s.dispatched && u !in t.dispatched ==> s.dispatched[u] == clock
  }

  lemma NoneDispatched(t: Table, clock: nat)
    ensures OnlyDispatched(t, t, clock)
  {}

  lemma OneMoreDispatched(t: Table, s: Table, u: nat, clock: nat)
    requires OnlyDispatched(t, s, clock) && Later(s, Dispatched(s, u, clock))
    ensures OnlyDispatched(t, Dispatched(s, u, clock), clock)
  {
    LaterTrans(t, s, Dispatched(s, u, clock));
    hide Later;
  }

  lemma DispatchedSame(t: Table, s: Table, clock: nat)
    requires OnlyDispatched(t, s, clock)
    ensures s == t.(dispatched := s.dispatched)
  {}
}

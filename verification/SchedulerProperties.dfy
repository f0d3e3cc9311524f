/** What the invariants of the scheduler say about a single uop. */
module SchedulerProperties {
  import opened Uops
  import opened SchedulerTokens
  import opened SchedulerState
  import opened SchedulerSteps
  import opened SchedulerDispatch

  /** The uop is found in the queue of a place. */
  predicate IsIn(q: Queues, w: Place, u: nat) {
    match w
    case Checking => u in q.checking
    case Waits(p) => u in At(q.dependent, p)
    case NonReady => u in q.nonReady
    case Due(c) => u in At(q.calendar, c)
    case Ready(p) => u in QueueAt(q.ready, p)
    case ReadyDiv => u in q.readyDiv
  }

  lemma IsInPlace(q: Queues, place: map<nat, Place>, w: Place, u: nat)
    requires Tokens(q, place)
    ensures IsIn(q, w, u) <==> u in place && place[u] == w
  {
    match w {
      case Waits(p) => {
        assert OnList(At(q.dependent, p), place, w);
      }
      case Due(c) => {
        assert OnList(At(q.calendar, c), place, w);
      }
      case Ready(p) => {
        assert OnSet(QueueAt(q.ready, p), place, w);
      }
      case _ => {}
    }
  }

  /** An undispatched uop is in exactly one queue; a dispatched one is in none. */
  lemma OnePlace(t: Table, q: Queues, place: map<nat, Place>, next: nat, delay: nat, u: nat)
    requires Consistent(t, q, place, next, next, delay) && u in t.actualPort
    ensures u !in t.dispatched <==> exists w :: IsIn(q, w, u)
    ensures forall v, w :: IsIn(q, v, u) && IsIn(q, w, u) ==> v == w
  {
    hide IsIn, Tokens, Sound;
    forall w: Place
      ensures IsIn(q, w, u) <==> u in place && place[u] == w
    {
      IsInPlace(q, place, w, u);
    }
    if u in place {
      assert InPlace(t, u, place[u], next, next);
      assert IsIn(q, place[u], u);
    }
  }

  /** No wakeup is lost: a uop waits for a uop that writes an operand of it and has not been executed, so that it is
      itself undispatched or pending. */
  lemma NoLostWakeup(t: Table, q: Queues, place: map<nat, Place>, next: nat, delay: nat, pending: set<nat>, u: nat,
                     p: nat)
    requires Consistent(t, q, place, next, next, delay) && PendingExact(t, pending) && u in At(q.dependent, p)
    ensures p in t.actualPort && p !in t.executed && (p in place || p in pending)
    ensures u in t.info && ReadsFrom(t, u, p)
  {
    IsInPlace(q, place, Waits(p), u);
    assert InPlace(t, u, Waits(p), next, next);
  }

  /** The calendar holds uops for later cycles only, each for the cycle in which it can be dispatched. */
  lemma CalendarAhead(t: Table, q: Queues, place: map<nat, Place>, next: nat, delay: nat, u: nat, c: nat)
    requires Consistent(t, q, place, next, next, delay) && u in At(q.calendar, c)
    ensures next <= c && u in t.readyForDispatch && t.readyForDispatch[u] == c
  {
    IsInPlace(q, place, Due(c), u);
    assert InPlace(t, u, Due(c), next, next);
  }

  /** A uop that waits for no other one knows when its operands are ready. */
  lemma NonReadyKnows(t: Table, q: Queues, place: map<nat, Place>, next: nat, delay: nat, u: nat)
    requires Consistent(t, q, place, next, next, delay) && u in q.nonReady
    ensures u in t.info && AllAnswered(t, t.info[u].inputs)
  {
    IsInPlace(q, place, NonReady, u);
    assert InPlace(t, u, NonReady, next, next);
  }
}

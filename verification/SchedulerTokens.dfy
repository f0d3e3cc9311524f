/** Where the scheduler keeps the uops that it has not dispatched: each of them is in exactly one place. */
module SchedulerTokens {

  /** The places. `Checking` is the place of a uop that is just about to be put somewhere. */
  datatype Place = Checking | Waits(producer: nat) | NonReady | Due(cycle: nat) | Ready(port: string) | ReadyDiv

  /** The queues of the scheduler. */
  datatype Queues = Queues(
    checking: seq<nat>,
    dependent: map<nat, seq<nat>>,
    nonReady: seq<nat>,
    calendar: map<nat, seq<nat>>,
    ready: map<string, set<nat>>,
    readyDiv: set<nat>)

  function At(m: map<nat, seq<nat>>, k: nat): seq<nat> {
    if k in m then m[k] else []
  }

  function QueueAt(m: map<string, set<nat>>, p: string): set<nat> {
    if p in m then m[p] else {}
  }

  predicate NoDuplicates(s: seq<nat>) {
    forall i, j :: 0 <= i < j < |s| ==> s[i] != s[j]
  }

  /** The list holds exactly the uops with that place, each of them once. */
  ghost predicate OnList(s: seq<nat>, place: map<nat, Place>, w: Place) {
    NoDuplicates(s) && forall u: nat :: u in s <==> u in place && place[u] == w
  }

  ghost predicate OnSet(s: set<nat>, place: map<nat, Place>, w: Place) {
    forall u: nat :: u in s <==> u in place && place[u] == w
  }

  ghost predicate Waiting(dependent: map<nat, seq<nat>>, place: map<nat, Place>) {
    forall p :: OnList(At(dependent, p), place, Waits(p))
  }

  ghost predicate Scheduled(calendar: map<nat, seq<nat>>, place: map<nat, Place>) {
    forall c :: OnList(At(calendar, c), place, Due(c))
  }

  ghost predicate Queued(ready: map<string, set<nat>>, place: map<nat, Place>) {
    forall p :: OnSet(QueueAt(ready, p), place, Ready(p))
  }

  /** Every uop with a place is in exactly the queue of that place. */
  ghost predicate Tokens(q: Queues, place: map<nat, Place>) {
    && OnList(q.checking, place, Checking)
    && Waiting(q.dependent, place)
    && OnList(q.nonReady, place, NonReady)
    && Scheduled(q.calendar, place)
    && Queued(q.ready, place)
    && OnSet(q.readyDiv, place, ReadyDiv)
  }

  // Moving one uop leaves the other queues alone

  lemma OtherList(s: seq<nat>, place: map<nat, Place>, w: Place, u: nat, b: Place)
    requires OnList(s, place, w) && b != w && (u in place ==> place[u] != w)
    ensures OnList(s, place[u := b], w)
  {}

  lemma OtherSet(s: set<nat>, place: map<nat, Place>, w: Place, u: nat, b: Place)
    requires OnSet(s, place, w) && b != w && (u in place ==> place[u] != w)
    ensures OnSet(s, place[u := b], w)
  {}

  lemma OtherWaiting(dependent: map<nat, seq<nat>>, place: map<nat, Place>, u: nat, b: Place)
    requires Waiting(dependent, place) && !b.Waits? && (u in place ==> !place[u].Waits?)
    ensures Waiting(dependent, place[u := b])
  {
    hide OnList;
    forall p: nat
      ensures OnList(At(dependent, p), place[u := b], Waits(p))
    {
      OtherList(At(dependent, p), place, Waits(p), u, b);
    }
  }

  lemma OtherScheduled(calendar: map<nat, seq<nat>>, place: map<nat, Place>, u: nat, b: Place)
    requires Scheduled(calendar, place) && !b.Due? && (u in place ==> !place[u].Due?)
    ensures Scheduled(calendar, place[u := b])
  {
    hide OnList;
    forall c: nat
      ensures OnList(At(calendar, c), place[u := b], Due(c))
    {
      OtherList(At(calendar, c), place, Due(c), u, b);
    }
  }

  lemma OtherQueued(ready: map<string, set<nat>>, place: map<nat, Place>, u: nat, b: Place)
    requires Queued(ready, place) && !b.Ready? && (u in place ==> !place[u].Ready?)
    ensures Queued(ready, place[u := b])
  {
    hide OnSet;
    forall p: string
      ensures OnSet(QueueAt(ready, p), place[u := b], Ready(p))
    {
      OtherSet(QueueAt(ready, p), place, Ready(p), u, b);
    }
  }

  // Adding one uop to a queue and taking one from it

  lemma Append(s: seq<nat>, place: map<nat, Place>, w: Place, u: nat)
    requires OnList(s, place, w) && (u in place ==> place[u] != w)
    ensures OnList(s + [u], place[u := w], w)
  {}

  lemma Insert(s: set<nat>, place: map<nat, Place>, w: Place, u: nat)
    requires OnSet(s, place, w) && (u in place ==> place[u] != w)
    ensures OnSet(s + {u}, place[u := w], w)
  {}

  lemma TakeOut(s: seq<nat>, i: nat, place: map<nat, Place>, w: Place, b: Place)
    requires OnList(s, place, w) && i < |s| && b != w
    ensures s[i] in place && place[s[i]] == w
    ensures OnList(s[..i] + s[i + 1..], place[s[i] := b], w)
  {
    var r := s[..i] + s[i + 1..];
    forall v: nat | v in s && v != s[i]
      ensures v in r
    {
      var j :| 0 <= j < |s| && s[j] == v;
      assert r[if j < i then j else j - 1] == v;
    }
  }

  lemma AppendWaiting(dependent: map<nat, seq<nat>>, place: map<nat, Place>, u: nat, p: nat)
    requires Waiting(dependent, place) && (u in place ==> !place[u].Waits?)
    ensures Waiting(dependent[p := At(dependent, p) + [u]], place[u := Waits(p)])
  {
    hide OnList;
    forall k: nat
      ensures OnList(At(dependent[p := At(dependent, p) + [u]], k), place[u := Waits(p)], Waits(k))
    {
      if k == p {
        Append(At(dependent, p), place, Waits(p), u);
      } else {
        OtherList(At(dependent, k), place, Waits(k), u, Waits(p));
      }
    }
  }

  lemma AppendScheduled(calendar: map<nat, seq<nat>>, place: map<nat, Place>, u: nat, c: nat)
    requires Scheduled(calendar, place) && (u in place ==> !place[u].Due?)
    ensures Scheduled(calendar[c := At(calendar, c) + [u]], place[u := Due(c)])
  {
    hide OnList;
    forall k: nat
      ensures OnList(At(calendar[c := At(calendar, c) + [u]], k), place[u := Due(c)], Due(k))
    {
      if k == c {
        Append(At(calendar, c), place, Due(c), u);
      } else {
        OtherList(At(calendar, k), place, Due(k), u, Due(c));
      }
    }
  }

  lemma InsertQueued(ready: map<string, set<nat>>, place: map<nat, Place>, u: nat, p: string)
    requires Queued(ready, place) && p in ready && (u in place ==> !place[u].Ready?)
    ensures Queued(ready[p := ready[p] + {u}], place[u := Ready(p)])
  {
    hide OnSet;
    forall k: string
      ensures OnSet(QueueAt(ready[p := ready[p] + {u}], k), place[u := Ready(p)], Ready(k))
    {
      if k == p {
        Insert(ready[p], place, Ready(p), u);
      } else {
        OtherSet(QueueAt(ready, k), place, Ready(k), u, Ready(p));
      }
    }
  }

  // The moves of the scheduler

  /** A new uop. */
  lemma Enter(q: Queues, place: map<nat, Place>, u: nat)
    requires Tokens(q, place) && u !in place
    ensures Tokens(q.(checking := q.checking + [u]), place[u := Checking])
  {
    hide OnList, OnSet, Waiting, Scheduled, Queued;
    Append(q.checking, place, Checking, u);
    OtherWaiting(q.dependent, place, u, Checking);
    OtherList(q.nonReady, place, NonReady, u, Checking);
    OtherScheduled(q.calendar, place, u, Checking);
    OtherQueued(q.ready, place, u, Checking);
    OtherSet(q.readyDiv, place, ReadyDiv, u, Checking);
  }

  lemma FirstOut(s: seq<nat>, place: map<nat, Place>, w: Place, b: Place)
    requires OnList(s, place, w) && s != [] && b != w
    ensures s[0] in place && place[s[0]] == w && OnList(s[1..], place[s[0] := b], w)
  {
    TakeOut(s, 0, place, w, b);
    assert s[..0] + s[0 + 1..] == s[1..];
  }

  /** A checked uop waits for a uop that it depends on. */
  lemma StartWaiting(q: Queues, place: map<nat, Place>, p: nat)
    requires Tokens(q, place) && q.checking != []
    ensures Tokens(q.(checking := q.checking[1..],
                      dependent := q.dependent[p := At(q.dependent, p) + [q.checking[0]]]),
                   place[q.checking[0] := Waits(p)])
  {
    hide OnList, OnSet, Waiting, Scheduled, Queued;
    var u := q.checking[0];
    FirstOut(q.checking, place, Checking, Waits(p));
    AppendWaiting(q.dependent, place, u, p);
    OtherList(q.nonReady, place, NonReady, u, Waits(p));
    OtherScheduled(q.calendar, place, u, Waits(p));
    OtherQueued(q.ready, place, u, Waits(p));
    OtherSet(q.readyDiv, place, ReadyDiv, u, Waits(p));
  }

  /** A checked uop waits for nothing but its own dispatch conditions. */
  lemma BecomeNonReady(q: Queues, place: map<nat, Place>)
    requires Tokens(q, place) && q.checking != []
    ensures Tokens(q.(checking := q.checking[1..], nonReady := q.nonReady + [q.checking[0]]),
                   place[q.checking[0] := NonReady])
  {
    hide OnList, OnSet, Waiting, Scheduled, Queued;
    var u := q.checking[0];
    FirstOut(q.checking, place, Checking, NonReady);
    OtherWaiting(q.dependent, place, u, NonReady);
    Append(q.nonReady, place, NonReady, u);
    OtherScheduled(q.calendar, place, u, NonReady);
    OtherQueued(q.ready, place, u, NonReady);
    OtherSet(q.readyDiv, place, ReadyDiv, u, NonReady);
  }

  /** A uop is entered into the calendar. */
  lemma Schedule(q: Queues, place: map<nat, Place>, i: nat, c: nat)
    requires Tokens(q, place) && i < |q.nonReady|
    ensures Tokens(q.(nonReady := q.nonReady[..i] + q.nonReady[i + 1..],
                      calendar := q.calendar[c := At(q.calendar, c) + [q.nonReady[i]]]),
                   place[q.nonReady[i] := Due(c)])
  {
    hide OnList, OnSet, Waiting, Scheduled, Queued;
    var u := q.nonReady[i];
    TakeOut(q.nonReady, i, place, NonReady, Due(c));
    OtherList(q.checking, place, Checking, u, Due(c));
    OtherWaiting(q.dependent, place, u, Due(c));
    AppendScheduled(q.calendar, place, u, c);
    OtherQueued(q.ready, place, u, Due(c));
    OtherSet(q.readyDiv, place, ReadyDiv, u, Due(c));
  }

  lemma FirstDueOut(calendar: map<nat, seq<nat>>, place: map<nat, Place>, c: nat, b: Place)
    requires Scheduled(calendar, place) && At(calendar, c) != [] && !b.Due?
    ensures var u := At(calendar, c)[0];
            && u in place && place[u] == Due(c)
            && Scheduled(calendar[c := At(calendar, c)[1..]], place[u := b])
  {
    hide OnList;
    var u := At(calendar, c)[0];
    assert OnList(At(calendar, c), place, Due(c));
    FirstOut(At(calendar, c), place, Due(c), b);
    forall k: nat
      ensures OnList(At(calendar[c := At(calendar, c)[1..]], k), place[u := b], Due(k))
    {
      if k != c {
        OtherList(At(calendar, k), place, Due(k), u, b);
      }
    }
  }

  /** A uop that is due goes to the queue of its port. */
  lemma BecomeReady(q: Queues, place: map<nat, Place>, c: nat, p: string)
    requires Tokens(q, place) && At(q.calendar, c) != [] && p in q.ready
    ensures var u := At(q.calendar, c)[0];
            && u in place && place[u] == Due(c)
            && Tokens(q.(calendar := q.calendar[c := At(q.calendar, c)[1..]],
                         ready := q.ready[p := q.ready[p] + {u}]), place[u := Ready(p)])
  {
    hide OnList, OnSet, Waiting, Scheduled, Queued;
    var u := At(q.calendar, c)[0];
    FirstDueOut(q.calendar, place, c, Ready(p));
    OtherList(q.checking, place, Checking, u, Ready(p));
    OtherWaiting(q.dependent, place, u, Ready(p));
    OtherList(q.nonReady, place, NonReady, u, Ready(p));
    InsertQueued(q.ready, place, u, p);
    OtherSet(q.readyDiv, place, ReadyDiv, u, Ready(p));
  }

  /** A division that is due goes to the queue of the divider. */
  lemma BecomeReadyDiv(q: Queues, place: map<nat, Place>, c: nat)
    requires Tokens(q, place) && At(q.calendar, c) != []
    ensures var u := At(q.calendar, c)[0];
            && u in place && place[u] == Due(c)
            && Tokens(q.(calendar := q.calendar[c := At(q.calendar, c)[1..]], readyDiv := q.readyDiv + {u}),
                      place[u := ReadyDiv])
  {
    hide OnList, OnSet, Waiting, Scheduled, Queued;
    var u := At(q.calendar, c)[0];
    FirstDueOut(q.calendar, place, c, ReadyDiv);
    OtherList(q.checking, place, Checking, u, ReadyDiv);
    OtherWaiting(q.dependent, place, u, ReadyDiv);
    OtherList(q.nonReady, place, NonReady, u, ReadyDiv);
    OtherQueued(q.ready, place, u, ReadyDiv);
    Insert(q.readyDiv, place, ReadyDiv, u);
  }

  /** An entry of the calendar that has become empty is deleted. */
  lemma DeleteDay(q: Queues, place: map<nat, Place>, c: nat)
    requires Tokens(q, place) && At(q.calendar, c) == []
    ensures Tokens(q.(calendar := q.calendar - {c}), place)
  {
    hide OnList, OnSet, Waiting, Queued;
    forall k: nat
      ensures OnList(At(q.calendar - {c}, k), place, Due(k))
    {
      assert At(q.calendar - {c}, k) == At(q.calendar, k);
    }
  }

  function Woken(place: map<nat, Place>, p: nat): map<nat, Place> {
    map u | u in place :: if place[u] == Waits(p) then Checking else place[u]
  }

  /** The uops that wait for a uop are all taken to be checked again. */
  lemma WakeUp(q: Queues, place: map<nat, Place>, p: nat)
    requires Tokens(q, place) && q.checking == []
    ensures Tokens(q.(checking := At(q.dependent, p), dependent := q.dependent - {p}), Woken(place, p))
  {
    var after := Woken(place, p);
    assert OnList(At(q.dependent, p), place, Waits(p));
    forall k: nat
      ensures OnList(At(q.dependent - {p}, k), after, Waits(k))
    {
      assert OnList(At(q.dependent, k), place, Waits(k));
    }
    forall c: nat
      ensures OnList(At(q.calendar, c), after, Due(c))
    {
      assert OnList(At(q.calendar, c), place, Due(c));
    }
    forall k: string
      ensures OnSet(QueueAt(q.ready, k), after, Ready(k))
    {
      assert OnSet(QueueAt(q.ready, k), place, Ready(k));
    }
  }

  // Dispatch

  lemma LeaveList(s: seq<nat>, place: map<nat, Place>, w: Place, u: nat)
    requires OnList(s, place, w) && (u in place ==> place[u] != w)
    ensures OnList(s, place - {u}, w)
  {}

  lemma LeaveOthers(q: Queues, place: map<nat, Place>, u: nat)
    requires Tokens(q, place) && (u in place ==> place[u].Ready? || place[u].ReadyDiv?)
    ensures OnList(q.checking, place - {u}, Checking) && OnList(q.nonReady, place - {u}, NonReady)
    ensures Waiting(q.dependent, place - {u}) && Scheduled(q.calendar, place - {u})
  {
    hide OnList, OnSet;
    LeaveList(q.checking, place, Checking, u);
    LeaveList(q.nonReady, place, NonReady, u);
    forall p: nat
      ensures OnList(At(q.dependent, p), place - {u}, Waits(p))
    {
      LeaveList(At(q.dependent, p), place, Waits(p), u);
    }
    forall c: nat
      ensures OnList(At(q.calendar, c), place - {u}, Due(c))
    {
      LeaveList(At(q.calendar, c), place, Due(c), u);
    }
  }

  /** A uop leaves the queue of its port. */
  lemma Leave(q: Queues, place: map<nat, Place>, p: string, u: nat)
    requires Tokens(q, place) && p in q.ready && u in q.ready[p]
    ensures u in place && place[u] == Ready(p)
    ensures Tokens(q.(ready := q.ready[p := q.ready[p] - {u}]), place - {u})
  {
    assert OnSet(QueueAt(q.ready, p), place, Ready(p));
    LeaveOthers(q, place, u);
    hide OnList, Waiting, Scheduled;
    forall k: string
      ensures OnSet(QueueAt(q.ready[p := q.ready[p] - {u}], k), place - {u}, Ready(k))
    {
      assert OnSet(QueueAt(q.ready, k), place, Ready(k));
    }
  }

  /** A division leaves the queue of the divider. */
  lemma LeaveDiv(q: Queues, place: map<nat, Place>, u: nat)
    requires Tokens(q, place) && u in q.readyDiv
    ensures u in place && place[u] == ReadyDiv
    ensures Tokens(q.(readyDiv := q.readyDiv - {u}), place - {u})
  {
    LeaveOthers(q, place, u);
    hide OnList, Waiting, Scheduled;
    forall k: string
      ensures OnSet(QueueAt(q.ready, k), place - {u}, Ready(k))
    {
      assert OnSet(QueueAt(q.ready, k), place, Ready(k));
    }
  }
}

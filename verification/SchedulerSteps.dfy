/** The steps of the scheduler keep its uops in their places. */
module SchedulerSteps {
  import opened Wrappers
  import opened Uops
  import opened UopSteps
  import opened SchedulerTokens
  import opened SchedulerState

  /** The scheduler's queues, the places of its uops and the table of all uops agree. */
  ghost predicate Consistent(t: Table, q: Queues, place: map<nat, Place>, before: nat, due: nat, delay: nat) {
    Sound(t, delay) && Tokens(q, place) && Placed(t, place, before, due)
  }

  lemma SameQueues(t: Table, s: Table, q: Queues, place: map<nat, Place>, before: nat, due: nat, delay: nat)
    requires Consistent(t, q, place, before, due, delay) && Recalled(t, s, delay)
    ensures Consistent(s, q, place, before, due, delay)
  {
    hide Sound, Tokens, Placed, Later, ReadyCycle;
    PlacedLater(t, s, place, before, due);
  }

  /** The uop to be checked. */
  lemma Checked(t: Table, q: Queues, place: map<nat, Place>, before: nat, due: nat, delay: nat)
    requires Consistent(t, q, place, before, due, delay) && q.checking != []
    ensures var u := q.checking[0];
            && u in place && place[u] == Checking && InPlace(t, u, Checking, before, due) && LinkedUop(t, u)
  {
    var u := q.checking[0];
    assert u in q.checking;
    assert InPlace(t, u, Checking, before, due);
  }

  /** A uop that has been executed leaves no operand unknown. */
  lemma UnknownUnexecuted(t: Table, q: Queues, place: map<nat, Place>, before: nat, due: nat, delay: nat, op: Operand)
    requires Consistent(t, q, place, before, due, delay) && q.checking != []
    requires var u := q.checking[0]; u in t.info && op in t.info[u].inputs
    ensures !Answered(t, op) ==> op.Written? && op.uop !in t.executed
  {
    var u := q.checking[0];
    Checked(t, q, place, before, due, delay);
    if op.Written? && op.uop in t.executed {
      ExecutedAnswered(t, delay, u, op);
    }
  }

  /** A uop with an unknown operand waits for the uop that writes it, which has not been executed. */
  lemma WaitsForOperand(t: Table, q: Queues, place: map<nat, Place>, before: nat, due: nat, delay: nat, op: Operand)
    requires Consistent(t, q, place, before, due, delay) && q.checking != []
    requires var u := q.checking[0]; u in t.info && op in t.info[u].inputs && op.Written? && !Answered(t, op)
    ensures var u := q.checking[0];
            Consistent(t, q.(checking := q.checking[1..],
                             dependent := q.dependent[op.uop := At(q.dependent, op.uop) + [u]]),
                       place[u := Waits(op.uop)], before, due, delay)
  {
    var u := q.checking[0];
    Checked(t, q, place, before, due, delay);
    StartWaiting(q, place, op.uop);
    UnknownUnexecuted(t, q, place, before, due, delay, op);
    hide Sound, Tokens, ReadyCycle;
    assert ReadsFrom(t, u, op.uop);
    assert InPlace(t, u, Waits(op.uop), before, due);
    PlacedMove(t, place, before, due, u, Waits(op.uop));
  }

  lemma KnowsOperands(t: Table, q: Queues, place: map<nat, Place>, before: nat, due: nat, delay: nat)
    requires Consistent(t, q, place, before, due, delay) && q.checking != []
    requires var u := q.checking[0]; u in t.info && AllAnswered(t, t.info[u].inputs)
    ensures var u := q.checking[0];
            Consistent(t, q.(checking := q.checking[1..], nonReady := q.nonReady + [u]), place[u := NonReady],
                       before, due, delay)
  {
    var u := q.checking[0];
    Checked(t, q, place, before, due, delay);
    BecomeNonReady(q, place);
    hide Sound, Tokens, ReadyCycle;
    assert InPlace(t, u, NonReady, before, due);
    PlacedMove(t, place, before, due, u, NonReady);
  }

  /** A uop that waits for none: it is not ready yet and knows its operands. */
  lemma NonReadyUop(t: Table, q: Queues, place: map<nat, Place>, before: nat, due: nat, delay: nat, i: nat)
    requires Consistent(t, q, place, before, due, delay) && i < |q.nonReady|
    ensures var u := q.nonReady[i];
            u in place && place[u] == NonReady && InPlace(t, u, NonReady, before, due) && u in t.issued
  {
    assert q.nonReady[i] in q.nonReady;
  }

  lemma PlacedReadyFrom(t: Table, place: map<nat, Place>, before: nat, due: nat, u: nat, cycle: nat)
    requires Placed(t, place, before, due) && u in t.actualPort && u !in t.readyForDispatch
    requires u in t.info && due <= cycle && u !in t.dispatched && Later(t, ReadyFrom(t, u, cycle))
    ensures Placed(ReadyFrom(t, u, cycle), place[u := Due(cycle)], before, due)
  {
    hide ReadyCycle, AllAnswered, InPlace, Later;
    var s := ReadyFrom(t, u, cycle);
    DueInPlace(t, before, due, u, cycle);
    forall v | v in place && v != u
      ensures InPlace(s, v, place[v], before, due)
    {
      OthersInPlace(t, v, place[v], before, due, u, cycle);
    }
  }

  lemma DueInPlace(t: Table, before: nat, due: nat, u: nat, cycle: nat)
    requires u in t.actualPort && u in t.info && due <= cycle && u !in t.dispatched
    ensures InPlace(ReadyFrom(t, u, cycle), u, Due(cycle), before, due)
  {}

  lemma OthersInPlace(t: Table, v: nat, w: Place, before: nat, due: nat, u: nat, cycle: nat)
    requires InPlace(t, v, w, before, due) && v != u && Later(t, ReadyFrom(t, u, cycle))
    ensures InPlace(ReadyFrom(t, u, cycle), v, w, before, due)
  {
    hide Later;
    StaysInPlace(t, ReadyFrom(t, u, cycle), v, w, before, due);
  }

  /** A uop is entered into the calendar for a cycle in which its operands are ready. */
  lemma EntersCalendar(t: Table, q: Queues, place: map<nat, Place>, before: nat, due: nat, delay: nat, i: nat,
                       cycle: nat)
    requires Consistent(t, q, place, before, due, delay) && i < |q.nonReady| && due <= cycle
    requires var u := q.nonReady[i];
             u in t.info && u in t.issued && t.issued[u] + delay <= cycle && AllSettled(t, t.info[u].inputs, cycle)
    ensures var u := q.nonReady[i];
            Consistent(ReadyFrom(t, u, cycle),
                       q.(nonReady := q.nonReady[..i] + q.nonReady[i + 1..],
                          calendar := q.calendar[cycle := At(q.calendar, cycle) + [u]]),
                       place[u := Due(cycle)], before, due, delay)
  {
    var u := q.nonReady[i];
    NonReadyUop(t, q, place, before, due, delay, i);
    Schedule(q, place, i, cycle);
    hide Sound, Tokens, Placed, AllSettled, Later;
    ReadyFromSound(t, delay, u, cycle);
    PlacedReadyFrom(t, place, before, due, u, cycle);
  }

  /** A uop has been entered into the calendar for the cycle in which it can be dispatched; otherwise ready cycles have
      been asked for only. */
  ghost predicate Entered(t: Table, s: Table, place: map<nat, Place>, after: map<nat, Place>, u: nat, delay: nat,
                          clock: nat)
  {
    && u in t.info && u in t.issued && AllAnswered(t, t.info[u].inputs)
    && var cycle := DispatchCycle(LatestReady(t, t.info[u].inputs), t.issued[u], delay, clock);
       s == ReadyFrom(t.(ready := s.ready), u, cycle) && after == place[u := Due(cycle)] && Later(t, s)
  }

  lemma EnteredNow(t: Table, s: Table, place: map<nat, Place>, u: nat, delay: nat, clock: nat)
    requires u in t.info && u in t.issued && AllAnswered(t, t.info[u].inputs) && u !in t.readyForDispatch
    requires s == t.(ready := s.ready) && Later(t, s)
    ensures var cycle := DispatchCycle(LatestReady(t, t.info[u].inputs), t.issued[u], delay, clock);
            Entered(t, ReadyFrom(s, u, cycle), place, place[u := Due(cycle)], u, delay, clock)
  {
    hide AllAnswered, LatestReady, DispatchCycle, ReadyCycle, Later;
    var cycle := DispatchCycle(LatestReady(t, t.info[u].inputs), t.issued[u], delay, clock);
    ReadyFromLater(t, s, u, cycle);
  }

  lemma EnteredFields(t: Table, s: Table, place: map<nat, Place>, after: map<nat, Place>, u: nat, delay: nat, clock: nat)
    requires Entered(t, s, place, after, u, delay, clock)
    ensures s == t.(ready := s.ready, readyForDispatch := s.readyForDispatch) && Later(t, s)
    ensures u in s.readyForDispatch && after == place[u := Due(s.readyForDispatch[u])]
    ensures s.readyForDispatch.Keys == t.readyForDispatch.Keys + {u}
  {}

  /** Some uops have become ready, and ready cycles have been asked for. */
  ghost predicate OnlyReadied(t: Table, s: Table) {
    s == t.(ready := s.ready, readyForDispatch := s.readyForDispatch) && Later(t, s)
  }

  lemma NoneReadied(t: Table)
    ensures OnlyReadied(t, t)
  {}

  lemma FencesKept(t: Table, s: Table, place: map<nat, Place>, after: map<nat, Place>, u: nat, delay: nat, clock: nat,
                   loadFences: seq<nat>, storeFences: seq<nat>)
    requires FencesPending(t, place, loadFences, storeFences) && u in place
    requires Entered(t, s, place, after, u, delay, clock) || (Recalled(t, s, delay) && after == place)
    ensures FencesPending(s, after, loadFences, storeFences) && after.Keys == place.Keys
  {
    hide Later, Sound, LatestReady, DispatchCycle, AllAnswered, ReadyCycle;
  }

  /** The uops of a list that have not become ready. */
  function Without(us: seq<nat>, ready: set<nat>): seq<nat> {
    if us == [] then []
    else
      var last := us[|us| - 1];
      Without(us[..|us| - 1], ready) + if last in ready then [] else [last]
  }

  lemma WithoutNone(us: seq<nat>)
    ensures Without(us[..0], {}) + us[0..] == us
  {}

  lemma WithoutAll(us: seq<nat>, ready: set<nat>)
    ensures Without(us[..|us|], ready) + us[|us|..] == Without(us, ready)
  {
    assert us[..|us|] == us;
  }

  lemma WithoutSnoc(us: seq<nat>, i: nat, ready: set<nat>)
    requires i < |us|
    ensures Without(us[..i + 1], ready) == Without(us[..i], ready) + if us[i] in ready then [] else [us[i]]
  {
    assert us[..i + 1][..i] == us[..i];
  }

  lemma {:induction false} WithoutNew(us: seq<nat>, ready: set<nat>, u: nat)
    requires u !in us
    ensures Without(us, ready + {u}) == Without(us, ready)
  {
    if us != [] {
      WithoutNew(us[..|us| - 1], ready, u);
    }
  }

  /** What is left of the list when one more uop has been looked at. */
  lemma WithoutStep(us: seq<nat>, i: nat, ready: set<nat>)
    requires i < |us| && NoDuplicates(us) && us[i] !in ready
    ensures var left := Without(us[..i], ready) + us[i..];
            var k := |Without(us[..i], ready)|;
            && k < |left| && left[k] == us[i]
            && left == Without(us[..i + 1], ready) + us[i + 1..]
            && left[..k] + left[k + 1..] == Without(us[..i + 1], ready + {us[i]}) + us[i + 1..]
  {
    WithoutSnoc(us, i, ready);
    WithoutSnoc(us, i, ready + {us[i]});
    WithoutNew(us[..i], ready, us[i]);
    hide Without, NoDuplicates;
    assert us[i..] == [us[i]] + us[i + 1..];
    OneInBetween(Without(us[..i], ready), us[i], us[i + 1..]);
  }

  lemma OneInBetween(front: seq<nat>, u: nat, rest: seq<nat>)
    ensures var all, k := front + ([u] + rest), |front|;
            k < |all| && all[k] == u && all == front + [u] + rest && all[..k] + all[k + 1..] == front + [] + rest
  {}

  lemma NonReadyOnce(t: Table, q: Queues, place: map<nat, Place>, before: nat, due: nat, delay: nat)
    requires Consistent(t, q, place, before, due, delay)
    ensures NoDuplicates(q.nonReady)
  {}

  // New uops

  lemma NewInPlace(t: Table, s: Table, place: map<nat, Place>, before: nat, due: nat, u: nat)
    requires Placed(t, place, before, due) && Later(t, s) && u !in t.actualPort
    requires s == t.(actualPort := s.actualPort) && s.actualPort.Keys == t.actualPort.Keys + {u}
    requires u in t.info && u !in t.dispatched && u !in t.readyForDispatch
    ensures Placed(s, place[u := Checking], before, due) && u !in place
  {
    hide ReadyCycle, AllAnswered, Later, InPlace;
    UnboundNowhere(t, place, before, due, u);
    CheckingInPlace(s, before, due, u);
    forall v | v in place
      ensures InPlace(s, v, place[v], before, due)
    {
      KeptInPlace(t, s, v, place[v], before, due);
    }
  }

  lemma UnboundNowhere(t: Table, place: map<nat, Place>, before: nat, due: nat, u: nat)
    requires Placed(t, place, before, due) && u !in t.actualPort
    ensures u !in place
  {}

  lemma CheckingInPlace(t: Table, before: nat, due: nat, u: nat)
    requires u in t.info && u in t.actualPort && u !in t.dispatched && u !in t.readyForDispatch
    ensures InPlace(t, u, Checking, before, due)
  {}

  /** A uop that enters the scheduler is to be checked. */
  lemma EntersScheduler(t: Table, q: Queues, place: map<nat, Place>, before: nat, due: nat, delay: nat, u: nat,
                        port: string)
    requires Consistent(t, q, place, before, due, delay) && q.checking == []
    requires u in t.info && u in t.issued && PortBound(t.info[u]) && port in t.info[u].possiblePorts
    requires u !in t.actualPort && u !in t.executed && LinkedUop(t, u)
    ensures Consistent(Bound(t, u, port), q.(checking := [u]), place[u := Checking], before, due, delay)
    ensures u !in place && u !in t.dispatched && Later(t, Bound(t, u, port))
  {
    UnboundUnphased(t, delay, u);
    BoundSound(t, delay, u, port);
    hide Sound, Tokens, Placed, Later, LinkedUop;
    NewInPlace(t, Bound(t, u, port), place, before, due, u);
    Enter(q, place, u);
    assert q.checking + [u] == [u];
  }

  lemma UnboundUnphased(t: Table, delay: nat, u: nat)
    requires Sound(t, delay) && u !in t.actualPort
    ensures u !in t.readyForDispatch && u !in t.dispatched
  {}

  // The books of the scheduler

  function SetOf(us: seq<nat>): set<nat> {
    set u | u in us
  }

  /** The counted uops are the undispatched ones, and the port usage counts them and the uops just dispatched. */
  ghost predicate BooksKept(t: Table, uops: set<nat>, place: map<nat, Place>, usage: map<string, int>,
                            prev: seq<nat>)
  {
    && uops == place.Keys && UsageCounts(t, usage, uops, SetOf(prev)) && NoDuplicates(prev)
    && (forall u :: u in prev ==> u in t.dispatched && u in t.actualPort)
    && (forall u :: u in t.actualPort ==> t.actualPort[u] in usage)
  }

  lemma BooksBound(t: Table, uops: set<nat>, place: map<nat, Place>, usage: map<string, int>, prev: seq<nat>, u: nat,
                   port: string)
    requires BooksKept(t, uops, place, usage, prev) && u !in t.actualPort && u !in place && port in usage
    requires u !in t.dispatched
    ensures BooksKept(Bound(t, u, port), uops + {u}, place[u := Checking], usage[port := usage[port] + 1], prev)
  {
    UsageBound(t, Bound(t, u, port), usage, uops, SetOf(prev), u, port);
    hide UsageCounts;
  }

  /** The books depend on the ports and the keys only. */
  lemma SameBooks(t: Table, s: Table, uops: set<nat>, place: map<nat, Place>, after: map<nat, Place>,
                  usage: map<string, int>, prev: seq<nat>)
    requires BooksKept(t, uops, place, usage, prev) && s.actualPort == t.actualPort
    requires t.dispatched.Keys <= s.dispatched.Keys && after.Keys == place.Keys
    ensures BooksKept(s, uops, after, usage, prev)
  {
    SameUsage(t, s, usage, uops, SetOf(prev));
    hide UsageCounts;
  }

  /** A uop has been bound to a port, and ready cycles have been asked for. */
  ghost predicate OnlyBound(t: Table, s: Table) {
    s == t.(ready := s.ready, actualPort := s.actualPort) && Later(t, s)
  }

  lemma BoundAndRecalled(t: Table, u: nat, port: string, s: Table, delay: nat)
    requires Recalled(Bound(t, u, port), s, delay) && Later(t, Bound(t, u, port))
    ensures OnlyBound(t, s) && s.actualPort == t.actualPort[u := port]
  {
    hide Sound, ReadyCycle, Later;
    LaterTrans(t, Bound(t, u, port), s);
  }

  /** A new fence joins the pending ones. */
  lemma FenceJoins(t: Table, s: Table, place: map<nat, Place>, after: map<nat, Place>, u: nat, loadFences: seq<nat>,
                   storeFences: seq<nat>)
    requires FencesPending(t, place, loadFences, storeFences) && u in t.info && s.info == t.info
    requires after.Keys == place.Keys + {u}
    ensures var i := t.info[u];
            FencesPending(s, after,
                          loadFences + (if i.isFirstOfInstr && i.isLoadSerializing then [u] else []),
                          storeFences + (if i.isFirstOfInstr && i.isStoreSerializing then [u] else []))
  {}

  /** The new uops come in program order, each after the uops that it depends on, and those that have ports get one of
      their possible ports (`choice`). */
  ghost predicate Supplied(info: map<nat, Info>, known: set<nat>, us: seq<nat>, choice: map<nat, string>,
                           ports: set<string>)
    decreases |us|
  {
    us == [] ||
    var u := us[0];
    && u in info
    && (PortBound(info[u]) ==>
          && u !in known && LinkedTo(info, known, u)
          && u in choice && choice[u] in info[u].possiblePorts && choice[u] in ports)
    && Supplied(info, if PortBound(info[u]) then known + {u} else known, us[1..], choice, ports)
  }

  /** Uops that have just been issued. */
  ghost predicate JustIssued(t: Table, us: seq<nat>) {
    forall u :: u in us ==> u in t.info && u in t.issued && (PortBound(t.info[u]) ==> u !in t.executed)
  }

  lemma NextIssued(t: Table, us: seq<nat>)
    requires JustIssued(t, us) && us != []
    ensures us[0] in t.info && us[0] in t.issued && (PortBound(t.info[us[0]]) ==> us[0] !in t.executed)
    ensures JustIssued(t, us[1..])
  {}

  lemma StillIssued(t: Table, s: Table, us: seq<nat>)
    requires JustIssued(t, us) && s.info == t.info && s.issued == t.issued && s.executed == t.executed
    ensures JustIssued(s, us)
  {}

  lemma BoundFields(t: Table, s: Table)
    requires OnlyBound(t, s)
    ensures s == t.(ready := s.ready, actualPort := s.actualPort)
  {}

  lemma NoneBound(t: Table)
    ensures OnlyBound(t, t)
  {}

  lemma BoundTrans(t: Table, s: Table, r: Table)
    requires OnlyBound(t, s) && OnlyBound(s, r)
    ensures OnlyBound(t, r)
  {
    hide Later;
    LaterTrans(t, s, r);
  }

  // A new cycle

  /** A uop is due in this cycle. */
  lemma IsDue(t: Table, q: Queues, place: map<nat, Place>, before: nat, due: nat, delay: nat, c: nat)
    requires Consistent(t, q, place, before, due, delay) && At(q.calendar, c) != []
    ensures var u := At(q.calendar, c)[0];
            u in place && place[u] == Due(c) && InPlace(t, u, Due(c), before, due)
  {
    var u := At(q.calendar, c)[0];
    assert OnList(At(q.calendar, c), place, Due(c));
    assert u in At(q.calendar, c);
  }

  lemma DueToReady(t: Table, u: nat, c: nat, before: nat, due: nat)
    requires InPlace(t, u, Due(c), before, due) && c < before
    ensures t.info[u].divCycles == 0 ==> InPlace(t, u, Ready(t.actualPort[u]), before, due)
    ensures t.info[u].divCycles > 0 ==> InPlace(t, u, ReadyDiv, before, due)
  {}

  /** It goes to the queue of its port, or to that of the divider. */
  lemma BecomesReady(t: Table, q: Queues, place: map<nat, Place>, before: nat, due: nat, delay: nat, c: nat)
    requires Consistent(t, q, place, before, due, delay) && At(q.calendar, c) != [] && c < before
    requires forall u :: u in t.actualPort ==> t.actualPort[u] in q.ready
    ensures var u := At(q.calendar, c)[0];
            && u in t.info && u in t.actualPort
            && var later := q.(calendar := q.calendar[c := At(q.calendar, c)[1..]]);
               if t.info[u].divCycles > 0
               then Consistent(t, later.(readyDiv := q.readyDiv + {u}), place[u := ReadyDiv], before, due, delay)
               else var p := t.actualPort[u];
                    Consistent(t, later.(ready := q.ready[p := q.ready[p] + {u}]), place[u := Ready(p)],
                               before, due, delay)
  {
    var u := At(q.calendar, c)[0];
    IsDue(t, q, place, before, due, delay, c);
    DueToReady(t, u, c, before, due);
    hide Sound, Tokens;
    if t.info[u].divCycles > 0 {
      BecomeReadyDiv(q, place, c);
      PlacedMove(t, place, before, due, u, ReadyDiv);
    } else {
      BecomeReady(q, place, c, t.actualPort[u]);
      PlacedMove(t, place, before, due, u, Ready(t.actualPort[u]));
    }
  }

  /** The queues with other uops due in cycle `c`. */
  function DueInstead(q: Queues, c: nat, us: seq<nat>): Queues {
    q.(calendar := q.calendar[c := us])
  }

  lemma StartOfCycle(t: Table, q: Queues, place: map<nat, Place>, clock: nat, delay: nat)
    requires Consistent(t, q, place, clock, clock, delay) && clock in q.calendar
    ensures Consistent(t, DueInstead(q, clock, q.calendar[clock]), place, clock + 1, clock, delay)
  {
    hide Sound, Tokens;
    PlacedRelax(t, place, clock, clock, clock + 1);
    assert q.calendar[clock := q.calendar[clock]] == q.calendar;
  }

  /** When all of them have become ready, the cycle is taken off the calendar. */
  lemma CycleTakenOff(t: Table, q: Queues, place: map<nat, Place>, clock: nat, delay: nat)
    requires Consistent(t, DueInstead(q, clock, []), place, clock + 1, clock, delay)
    ensures Consistent(t, q.(calendar := q.calendar - {clock}), place, clock + 1, clock + 1, delay)
  {
    var r := DueInstead(q, clock, []);
    NothingDue(r, place, clock);
    DeleteDay(r, place, clock);
    assert r.calendar - {clock} == q.calendar - {clock};
    hide Sound, Tokens;
    PlacedNextDay(t, place, clock + 1, clock);
  }

  lemma NothingDue(q: Queues, place: map<nat, Place>, clock: nat)
    requires Tokens(q, place) && At(q.calendar, clock) == []
    ensures forall u :: u in place ==> place[u] != Due(clock)
  {
    assert OnList(At(q.calendar, clock), place, Due(clock));
  }

  lemma NothingDueAtAll(t: Table, q: Queues, place: map<nat, Place>, clock: nat, delay: nat)
    requires Consistent(t, q, place, clock, clock, delay) && clock !in q.calendar
    ensures Consistent(t, q, place, clock + 1, clock + 1, delay)
  {
    NothingDue(q, place, clock);
    hide Sound, Tokens;
    PlacedRelax(t, place, clock, clock, clock + 1);
    PlacedNextDay(t, place, clock + 1, clock);
  }

  lemma KeyOf(t: Table, q: Queues, place: map<nat, Place>, before: nat, due: nat, delay: nat, c: nat)
    requires Consistent(t, q, place, before, due, delay) && At(q.calendar, c) != []
    ensures At(q.calendar, c)[0] in place
  {
    IsDue(t, q, place, before, due, delay, c);
  }

  lemma PortsHaveQueues(t: Table, uops: set<nat>, place: map<nat, Place>, usage: map<string, int>, prev: seq<nat>)
    requires BooksKept(t, uops, place, usage, prev)
    ensures forall u :: u in t.actualPort ==> t.actualPort[u] in usage
  {}

  lemma SameFences(t: Table, s: Table, place: map<nat, Place>, after: map<nat, Place>, loadFences: seq<nat>,
                   storeFences: seq<nat>)
    requires FencesPending(t, place, loadFences, storeFences) && s.info == t.info && after.Keys <= place.Keys
    ensures FencesPending(s, after, loadFences, storeFences)
  {}
}

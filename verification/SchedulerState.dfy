/** What holds of the uops in each place of the scheduler. */
module SchedulerState {
  import opened Wrappers
  import opened Uops
  import opened SchedulerTokens

  // Asking for ready cycles

  /** Between the two tables, ready cycles have been asked for only. */
  ghost predicate Recalled(t: Table, s: Table, delay: nat) {
    && s == t.(ready := s.ready) && Later(t, s) && (Sound(t, delay) ==> Sound(s, delay))
    && forall op :: ReadyCycle(s, op) == ReadyCycle(t, op)
  }

  lemma RecallsItself(t: Table, delay: nat)
    ensures Recalled(t, t, delay)
  {
    hide ReadyCycle, Sound;
  }

  lemma RecallsOneMore(t: Table, s: Table, delay: nat, op: Operand)
    requires Recalled(t, s, delay)
    ensures Recalled(t, Memorized(s, op), delay)
  {
    hide ReadyCycle, Sound, Memorized, Later;
    var r := Memorized(s, op);
    MemorizedExtends(s, op);
    MemorizingLater(s, op);
    LaterTrans(t, s, r);
    forall other: Operand
      ensures ReadyCycle(r, other) == ReadyCycle(t, other)
    {
      MemorizingHidden(s, op, other);
    }
    if Sound(t, delay) {
      MemorizedSound(s, delay, op);
    }
  }

  lemma RecallsTrans(t: Table, s: Table, r: Table, delay: nat)
    requires Recalled(t, s, delay) && Recalled(s, r, delay)
    ensures Recalled(t, r, delay)
  {
    hide ReadyCycle, Sound, Later;
    LaterTrans(t, s, r);
  }

  lemma RecalledFields(t: Table, s: Table, delay: nat)
    requires Recalled(t, s, delay)
    ensures s == t.(ready := s.ready)
  {}

  lemma SettledStays(t: Table, s: Table, delay: nat, ops: seq<Operand>, cycle: int)
    requires Recalled(t, s, delay) && AllSettled(t, ops, cycle)
    ensures AllSettled(s, ops, cycle)
  {
    hide Sound, ReadyCycle, AllSettled;
    SettledLater(t, s, ops, cycle);
  }

  lemma RecalledLater(t: Table, s: Table, delay: nat)
    requires Recalled(t, s, delay)
    ensures Later(t, s)
  {}

  lemma RecalledCycle(t: Table, s: Table, delay: nat, op: Operand)
    requires Recalled(t, s, delay)
    ensures ReadyCycle(s, op) == ReadyCycle(t, op)
  {}

  lemma RecalledAnswers(t: Table, s: Table, delay: nat, ops: seq<Operand>)
    requires Recalled(t, s, delay)
    ensures AllAnswered(s, ops) <==> AllAnswered(t, ops)
  {
    hide ReadyCycle, Later, Sound;
    assert forall op :: Answered(s, op) <==> Answered(t, op);
  }

  predicate Answered(t: Table, op: Operand) {
    ReadyCycle(t, op).Some?
  }

  predicate AllAnswered(t: Table, ops: seq<Operand>) {
    forall op :: op in ops ==> Answered(t, op)
  }

  lemma AllAnsweredLater(t: Table, s: Table, ops: seq<Operand>)
    requires Later(t, s) && AllAnswered(t, ops)
    ensures AllAnswered(s, ops)
  {
    hide ReadyCycle, Later;
    forall op | op in ops
      ensures Answered(s, op)
    {
      assert Answered(t, op);
      AnsweredLater(t, s, op);
    }
  }

  // The places

  ghost predicate ReadsFrom(t: Table, u: nat, p: nat)
    requires u in t.info
  {
    exists op :: op in t.info[u].inputs && op.Written? && op.uop == p
  }

  /** What holds of a uop in a place: `before` bounds the ready cycles of the uops in the ready queues, `due` those of
      the uops in the calendar. A uop that waits for another one waits for one that has been bound to a port and has
      not been executed; a uop that is not ready although it waits for none knows the ready cycles of its operands. */
  ghost predicate InPlace(t: Table, u: nat, w: Place, before: nat, due: nat) {
    && u in t.info && u in t.actualPort && u !in t.dispatched
    && match w {
         case Checking => u !in t.readyForDispatch
         case Waits(p) =>
           u !in t.readyForDispatch && p in t.actualPort && p !in t.executed && ReadsFrom(t, u, p)
         case NonReady => u !in t.readyForDispatch && AllAnswered(t, t.info[u].inputs)
         case Due(c) => u in t.readyForDispatch && t.readyForDispatch[u] == c && due <= c
         case Ready(port) =>
           && u in t.readyForDispatch && t.readyForDispatch[u] < before
           && t.actualPort[u] == port && t.info[u].divCycles == 0
         case ReadyDiv =>
           u in t.readyForDispatch && t.readyForDispatch[u] < before && t.info[u].divCycles > 0
       }
  }

  /** The uops that have a port and have not been dispatched all are in some place, and nothing else is. */
  ghost predicate Placed(t: Table, place: map<nat, Place>, before: nat, due: nat) {
    && (forall u :: u in place ==> InPlace(t, u, place[u], before, due))
    && (forall u :: u in t.actualPort && u !in t.dispatched ==> u in place)
  }

  lemma StaysInPlace(t: Table, s: Table, u: nat, w: Place, before: nat, due: nat)
    requires InPlace(t, u, w, before, due) && Later(t, s)
    requires u !in s.dispatched && (u in s.readyForDispatch ==> u in t.readyForDispatch)
    requires w.Waits? ==> w.producer !in s.executed
    ensures InPlace(s, u, w, before, due)
  {
    hide ReadyCycle, AllAnswered;
    if w == NonReady {
      AllAnsweredLater(t, s, t.info[u].inputs);
    }
  }

  /** Places are kept while no uop is bound, readied, dispatched or executed. */
  lemma PlacedLater(t: Table, s: Table, place: map<nat, Place>, before: nat, due: nat)
    requires Placed(t, place, before, due) && Later(t, s) && s.actualPort == t.actualPort
    requires s.readyForDispatch == t.readyForDispatch && s.dispatched == t.dispatched && s.executed == t.executed
    ensures Placed(s, place, before, due)
  {
    hide InPlace, Later;
    forall u | u in place
      ensures InPlace(s, u, place[u], before, due)
    {
      KeptInPlace(t, s, u, place[u], before, due);
    }
  }

  lemma KeptInPlace(t: Table, s: Table, u: nat, w: Place, before: nat, due: nat)
    requires InPlace(t, u, w, before, due) && Later(t, s)
    requires s.readyForDispatch == t.readyForDispatch && s.dispatched == t.dispatched && s.executed == t.executed
    ensures InPlace(s, u, w, before, due)
  {
    hide ReadyCycle, AllAnswered, Later;
    StaysInPlace(t, s, u, w, before, due);
  }

  /** One uop moves. */
  lemma PlacedMove(t: Table, place: map<nat, Place>, before: nat, due: nat, u: nat, w: Place)
    requires Placed(t, place, before, due) && InPlace(t, u, w, before, due)
    ensures Placed(t, place[u := w], before, due)
  {
    hide InPlace;
  }

  /** Later cycles give more room to the uops that are ready. */
  lemma PlacedRelax(t: Table, place: map<nat, Place>, before: nat, due: nat, later: nat)
    requires Placed(t, place, before, due) && before <= later
    ensures Placed(t, place, later, due)
  {
    forall u | u in place
      ensures InPlace(t, u, place[u], later, due)
    {
      assert InPlace(t, u, place[u], before, due);
    }
  }

  /** When no uop is due in a cycle the remaining ones are due later. */
  lemma PlacedNextDay(t: Table, place: map<nat, Place>, before: nat, due: nat)
    requires Placed(t, place, before, due) && forall u :: u in place ==> place[u] != Due(due)
    ensures Placed(t, place, before, due + 1)
  {
    forall u | u in place
      ensures InPlace(t, u, place[u], before, due + 1)
    {
      assert InPlace(t, u, place[u], before, due);
    }
  }

  lemma PlacedWoken(t: Table, place: map<nat, Place>, before: nat, due: nat, p: nat)
    requires Placed(t, place, before, due)
    ensures Placed(t, Woken(place, p), before, due)
    ensures forall u :: u in Woken(place, p) ==> Woken(place, p)[u] != Waits(p)
  {
    forall u | u in Woken(place, p)
      ensures InPlace(t, u, Woken(place, p)[u], before, due)
    {
      assert InPlace(t, u, place[u], before, due);
    }
  }

  // Fences and busy resources

  datatype Resource = Divider | StorePort(port: string) | Instr(name: string)

  /** A fence that has not been dispatched is among the pending ones. */
  ghost predicate FencesPending(t: Table, place: map<nat, Place>, loadFences: seq<nat>, storeFences: seq<nat>) {
    forall u :: u in place && u in t.info && t.info[u].isFirstOfInstr ==>
      && (t.info[u].isLoadSerializing ==> u in loadFences)
      && (t.info[u].isStoreSerializing ==> u in storeFences)
  }

  lemma FencesThere(t: Table, place: map<nat, Place>, loadFences: seq<nat>, storeFences: seq<nat>, u: nat)
    requires FencesPending(t, place, loadFences, storeFences) && u in place && u in t.info
    ensures t.info[u].isFirstOfInstr && t.info[u].isLoadSerializing ==> loadFences != []
    ensures t.info[u].isFirstOfInstr && t.info[u].isStoreSerializing ==> storeFences != []
  {}

  predicate ExecutedBy(t: Table, us: seq<nat>, clock: nat) {
    forall v :: v in us ==> v in t.executed && t.executed[v] <= clock
  }

  /** Fences and busy resources hold a uop back although its operands are known (`checkUopReady`). */
  predicate HeldBack(t: Table, u: nat, clock: nat, loadFences: seq<nat>, loads: seq<nat>, storeFences: seq<nat>,
                     stores: seq<nat>, blocked: map<Resource, nat>)
    requires u in t.info
    requires t.info[u].isFirstOfInstr && t.info[u].isLoadSerializing ==> loadFences != []
    requires t.info[u].isFirstOfInstr && t.info[u].isStoreSerializing ==> storeFences != []
  {
    var i := t.info[u];
    || (if i.isLoadSerializing then i.isFirstOfInstr && (loadFences[0] != u || !ExecutedBy(t, loads, clock))
        else if i.isStoreSerializing then i.isFirstOfInstr && (storeFences[0] != u || !ExecutedBy(t, stores, clock))
        else || (i.isLoad && loadFences != [] && loadFences[0] < u)
             || ((i.isStoreData || i.isStoreAddress) && storeFences != [] && storeFences[0] < u))
    || (i.isFirstOfInstr && Instr(i.instr) in blocked && blocked[Instr(i.instr)] > 0)
  }

  // Ready cycles of uops

  function LatestReady(t: Table, ops: seq<Operand>): (c: int)
    requires AllAnswered(t, ops)
    ensures c >= -1
    ensures forall op :: op in ops ==> ReadyCycle(t, op).Some? && ReadyCycle(t, op).value <= c
    ensures c == -1 || exists op :: op in ops && ReadyCycle(t, op) == Some(c)
  {
    if ops == [] then -1
    else
      var last := ops[|ops| - 1];
      assert Answered(t, last);
      Max(LatestReady(t, ops[..|ops| - 1]), ReadyCycle(t, last).value)
  }

  /** The uop can be dispatched in cycle `n`. */
  predicate DispatchAllowed(n: int, operands: int, issued: nat, delay: nat, clock: nat) {
    && clock < n && issued + delay <= n && operands <= n
    && (operands == issued + delay || operands == issued + delay + 1 ==> operands < n)
  }

  /** The cycle in which a uop can be dispatched whose operands are all ready in cycle `operands`: the first one after
      the current one in which they are ready and the delay after issue has passed; but operands that become ready just
      when it passes, or one cycle later, take a cycle more. */
  function DispatchCycle(operands: int, issued: nat, delay: nat, clock: nat): (c: nat)
    requires operands >= -1
    ensures c > clock && c >= issued + delay && c >= operands
    ensures 0 <= operands - (issued + delay) <= 1 ==> c > operands
    ensures c == clock + 1 || c == issued + delay || c == operands ||
            (0 <= operands - (issued + delay) <= 1 && c == operands + 1)
  {
    var cycle := if operands < issued + delay then issued + delay
                 else if operands == issued + delay || operands == issued + delay + 1 then operands + 1
                 else operands;
    Max(clock + 1, cycle)
  }

  lemma LatestReadySnoc(t: Table, ops: seq<Operand>, i: nat)
    requires i < |ops| && AllAnswered(t, ops[..i + 1])
    ensures AllAnswered(t, ops[..i]) && Answered(t, ops[i])
    ensures LatestReady(t, ops[..i + 1]) == Max(LatestReady(t, ops[..i]), ReadyCycle(t, ops[i]).value)
  {
    assert ops[..i + 1][..i] == ops[..i];
    assert ops[i] in ops[..i + 1];
    forall op | op in ops[..i]
      ensures Answered(t, op)
    {
      assert op in ops[..i + 1];
    }
  }

  lemma AnsweredSnoc(t: Table, ops: seq<Operand>, i: nat)
    requires i < |ops| && AllAnswered(t, ops[..i]) && Answered(t, ops[i])
    ensures AllAnswered(t, ops[..i + 1])
  {}

  /** An operand that was asked for is settled. */
  lemma MemorizedSettles(t: Table, op: Operand)
    requires Answered(t, op)
    ensures Settled(Memorized(t, op), op, ReadyCycle(t, op).value)
  {
    hide WriteCycle;
  }

  lemma SettledByLater(t: Table, s: Table, op: Operand, a: int, b: int)
    requires Settled(t, op, a) && a <= b && Extends(t.ready, s.ready)
    ensures Settled(s, op, b)
  {}

  lemma SettledSnoc(t: Table, s: Table, ops: seq<Operand>, i: nat, a: int, b: int)
    requires i < |ops| && AllSettled(t, ops[..i], a) && a <= b && Extends(t.ready, s.ready) && Settled(s, ops[i], b)
    ensures AllSettled(s, ops[..i + 1], b)
  {
    hide Settled;
    forall op | op in ops[..i + 1]
      ensures Settled(s, op, b)
    {
      if op in ops[..i] {
        SettledByLater(t, s, op, a, b);
      }
    }
  }

  lemma NothingAsked(t: Table)
    ensures AllAnswered(t, []) && LatestReady(t, []) == -1 && AllSettled(t, [], -1)
  {}

  lemma SettledFrom(t: Table, ops: seq<Operand>, a: int, b: int)
    requires AllSettled(t, ops, a) && a <= b
    ensures AllSettled(t, ops, b)
  {}

  /** What the next operand answers. */
  lemma AskedCycle(t0: Table, t: Table, delay: nat, ops: seq<Operand>, i: nat)
    requires i < |ops| && Recalled(t0, t, delay)
    ensures ReadyCycle(t, ops[i]) == ReadyCycle(t0, ops[i])
    ensures Answered(t0, ops[i]) <==> ReadyCycle(t0, ops[i]).Some?
    ensures !Answered(t0, ops[i]) ==> !AllAnswered(t0, ops)
  {
    hide ReadyCycle;
  }

  /** One more operand has been asked for. */
  lemma AskedSnoc(t0: Table, t: Table, delay: nat, ops: seq<Operand>, i: nat, latest: int)
    requires i < |ops| && Recalled(t0, t, delay) && AllAnswered(t0, ops[..i]) && Answered(t0, ops[i])
    requires latest == LatestReady(t0, ops[..i]) && AllSettled(t, ops[..i], latest)
    ensures var s, ready := Memorized(t, ops[i]), Max(latest, ReadyCycle(t0, ops[i]).value);
            && Recalled(t0, s, delay) && AllAnswered(t0, ops[..i + 1])
            && ready == LatestReady(t0, ops[..i + 1]) && AllSettled(s, ops[..i + 1], ready)
  {
    hide Recalled, ReadyCycle, AllSettled, Settled, Memorized, LatestReady, AllAnswered;
    var op, ready := ops[i], Max(latest, ReadyCycle(t0, ops[i]).value);
    RecalledCycle(t0, t, delay, op);
    RecallsOneMore(t0, t, delay, op);
    AnsweredSnoc(t0, ops, i);
    LatestReadySnoc(t0, ops, i);
    MemorizedSettles(t, op);
    SettledByLater(Memorized(t, op), Memorized(t, op), op, ReadyCycle(t, op).value, ready);
    MemorizedExtends(t, op);
    SettledSnoc(t, Memorized(t, op), ops, i, latest, ready);
  }

  // Port usage

  ghost function OnPort(t: Table, us: set<nat>, p: string): set<nat> {
    set u | u in us && u in t.actualPort && t.actualPort[u] == p
  }

  /** The usage of a port is the number of the undispatched uops and of the uops just dispatched that are bound to it. */
  ghost predicate UsageCounts(t: Table, usage: map<string, int>, waiting: set<nat>, justDispatched: set<nat>) {
    forall p :: p in usage ==> usage[p] == |OnPort(t, waiting, p)| + |OnPort(t, justDispatched, p)|
  }

  lemma OnPortAdd(t: Table, us: set<nat>, u: nat, p: string)
    requires u !in us && u in t.actualPort
    ensures |OnPort(t, us + {u}, p)| == |OnPort(t, us, p)| + if t.actualPort[u] == p then 1 else 0
  {
    if t.actualPort[u] == p {
      assert OnPort(t, us + {u}, p) == OnPort(t, us, p) + {u};
    } else {
      assert OnPort(t, us + {u}, p) == OnPort(t, us, p);
    }
  }

  /** A uop is bound to a port. */
  lemma UsageBound(t: Table, s: Table, usage: map<string, int>, waiting: set<nat>, justDispatched: set<nat>, u: nat,
                   port: string)
    requires UsageCounts(t, usage, waiting, justDispatched) && port in usage
    requires u !in t.actualPort && u !in waiting + justDispatched && s.actualPort == t.actualPort[u := port]
    ensures UsageCounts(s, usage[port := usage[port] + 1], waiting + {u}, justDispatched)
  {
    forall p | p in usage
      ensures |OnPort(s, waiting + {u}, p)| == |OnPort(t, waiting, p)| + if p == port then 1 else 0
      ensures OnPort(s, justDispatched, p) == OnPort(t, justDispatched, p)
    {
      assert OnPort(s, waiting, p) == OnPort(t, waiting, p);
      OnPortAdd(s, waiting, u, p);
    }
  }

  /** A uop is dispatched: it counts for one cycle more. */
  lemma UsageMoved(t: Table, usage: map<string, int>, waiting: set<nat>, dispatched: set<nat>, u: nat)
    requires u in waiting && u !in dispatched && u in t.actualPort
    ensures forall p :: |OnPort(t, waiting, p)| + |OnPort(t, dispatched, p)| ==
                        |OnPort(t, waiting - {u}, p)| + |OnPort(t, dispatched + {u}, p)|
  {
    forall p: string
      ensures |OnPort(t, waiting, p)| + |OnPort(t, dispatched, p)| ==
              |OnPort(t, waiting - {u}, p)| + |OnPort(t, dispatched + {u}, p)|
    {
      OnPortAdd(t, dispatched, u, p);
      OnPortAdd(t, waiting - {u}, u, p);
      assert waiting - {u} + {u} == waiting;
    }
  }

  lemma SameUsage(t: Table, s: Table, usage: map<string, int>, waiting: set<nat>, justDispatched: set<nat>)
    requires UsageCounts(t, usage, waiting, justDispatched) && s.actualPort == t.actualPort
    ensures UsageCounts(s, usage, waiting, justDispatched)
  {
    forall p | p in usage
      ensures OnPort(s, waiting, p) == OnPort(t, waiting, p)
      ensures OnPort(s, justDispatched, p) == OnPort(t, justDispatched, p)
    {}
  }

  // The divider

  function DivCycles(t: Table, u: nat): nat {
    if u in t.info then t.info[u].divCycles else 0
  }

  /** The divider is busy until every division dispatched so far has ended, and no two divisions overlap. */
  ghost predicate DividerFree(t: Table, free: nat) {
    forall u :: u in t.dispatched && DivCycles(t, u) > 0 ==> t.dispatched[u] + DivCycles(t, u) <= free
  }

  ghost predicate DivisionsApart(t: Table) {
    forall u, v :: u in t.dispatched && v in t.dispatched ==> Apart(t, u, v)
  }

  ghost predicate Apart(t: Table, u: nat, v: nat)
    requires u in t.dispatched && v in t.dispatched
  {
    u != v && DivCycles(t, u) > 0 && DivCycles(t, v) > 0 && t.dispatched[u] <= t.dispatched[v] ==>
      t.dispatched[u] + DivCycles(t, u) <= t.dispatched[v]
  }
}

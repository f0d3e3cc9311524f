/** What the scheduler chooses in a cycle: the uops that are released, dispatched and entered into the calendar. */
module SchedulerChoices {
  import opened Wrappers
  import opened Uops
  import opened UopSteps
  import opened SchedulerTokens
  import opened SchedulerState
  import opened SchedulerSteps
  import opened SchedulerDispatch
  import opened SchedulerExecution

  /** What may hold a uop back: fences, the loads and stores before them, and busy resources. */
  datatype Guards = Guards(loadFences: seq<nat>, loads: seq<nat>, storeFences: seq<nat>, stores: seq<nat>,
                           blocked: map<Resource, nat>)

  const NO_GUARDS := Guards([], [], [], [], map[Divider := 0])

  // New uops

  /** The new uops have the ports chosen for them; no other uop has got one. */
  ghost predicate BoundAsChosen(t: Table, s: Table, us: seq<nat>, choice: map<nat, string>) {
    && (forall u :: u in us && u in s.info && PortBound(s.info[u]) ==>
          u in choice && u in s.actualPort && s.actualPort[u] == choice[u])
    && (forall u :: u in s.actualPort ==> u in t.actualPort || u in us)
  }

  lemma BoundOneMore(t: Table, s: Table, r: Table, us: seq<nat>, choice: map<nat, string>, u: nat)
    requires BoundAsChosen(t, s, us, choice) && r.info == s.info
    requires if u in s.info && PortBound(s.info[u]) then
               u in choice && u !in s.actualPort && r.actualPort == s.actualPort[u := choice[u]]
             else r.actualPort == s.actualPort
    ensures BoundAsChosen(t, r, us + [u], choice)
  {}

  function LoadFence(t: Table, u: nat): seq<nat> {
    if u in t.info && PortBound(t.info[u]) && t.info[u].isFirstOfInstr && t.info[u].isLoadSerializing then [u] else []
  }

  function StoreFence(t: Table, u: nat): seq<nat> {
    if u in t.info && PortBound(t.info[u]) && t.info[u].isFirstOfInstr && t.info[u].isStoreSerializing then [u] else []
  }

  function LoadFencesIn(t: Table, us: seq<nat>): seq<nat> {
    if us == [] then [] else LoadFencesIn(t, us[..|us| - 1]) + LoadFence(t, us[|us| - 1])
  }

  function StoreFencesIn(t: Table, us: seq<nat>): seq<nat> {
    if us == [] then [] else StoreFencesIn(t, us[..|us| - 1]) + StoreFence(t, us[|us| - 1])
  }

  lemma FencesNext(t: Table, us: seq<nat>, u: nat)
    ensures LoadFencesIn(t, us + [u]) == LoadFencesIn(t, us) + LoadFence(t, u)
    ensures StoreFencesIn(t, us + [u]) == StoreFencesIn(t, us) + StoreFence(t, u)
  {
    assert (us + [u])[..|us|] == us;
  }

  /** The guards with the new fences. */
  function WithFences(g: Guards, t: Table, us: seq<nat>): Guards {
    g.(loadFences := g.loadFences + LoadFencesIn(t, us), storeFences := g.storeFences + StoreFencesIn(t, us))
  }

  lemma WithFencesNext(g: Guards, t: Table, us: seq<nat>, u: nat, h: Guards)
    requires h == WithFences(g, t, us)
    ensures WithFences(g, t, us + [u]) ==
            h.(loadFences := h.loadFences + LoadFence(t, u), storeFences := h.storeFences + StoreFence(t, u))
  {
    hide LoadFencesIn, StoreFencesIn, LoadFence, StoreFence;
    FencesNext(t, us, u);
    ThreeParts(g.loadFences, LoadFencesIn(t, us), LoadFence(t, u));
    ThreeParts(g.storeFences, StoreFencesIn(t, us), StoreFence(t, u));
  }

  lemma ThreeParts(a: seq<nat>, b: seq<nat>, c: seq<nat>)
    ensures a + (b + c) == a + b + c
  {}

  lemma WithNoFences(g: Guards, t: Table)
    ensures WithFences(g, t, []) == g
  {}

  /** A fence that has been executed guards no longer. */
  predicate Passes(t: Table, fences: seq<nat>, clock: nat) {
    fences != [] && ExecutedBy(t, [fences[0]], clock)
  }

  /** The guards at the end of a cycle. */
  function Ended(g: Guards, t: Table, clock: nat): Guards {
    Guards(if Passes(t, g.loadFences, clock) then g.loadFences[1..] else g.loadFences,
           if Passes(t, g.loadFences, clock) then [] else g.loads,
           if Passes(t, g.storeFences, clock) then g.storeFences[1..] else g.storeFences,
           if Passes(t, g.storeFences, clock) then [] else g.stores,
           map r | r in g.blocked :: OneLess(g.blocked[r]))
  }

  // Release

  /** The uops due go to the queue of the divider or to that of their port. */
  ghost predicate Released(t: Table, due: seq<nat>, ready: map<string, set<nat>>, div: set<nat>,
                           ready': map<string, set<nat>>, div': set<nat>)
  {
    && div' == div + (set u | u in due && DivCycles(t, u) > 0) && ready'.Keys == ready.Keys
    && forall p :: p in ready ==>
         ready'[p] == ready[p] + (set u | u in due && DivCycles(t, u) == 0 && PortIs(t, u, p))
  }

  predicate PortIs(t: Table, u: nat, p: string) {
    u in t.actualPort && t.actualPort[u] == p
  }

  lemma ReleasedNone(t: Table, ready: map<string, set<nat>>, div: set<nat>)
    ensures Released(t, [], ready, div, ready, div)
  {}

  lemma ReleasedOneMore(t: Table, due: seq<nat>, ready0: map<string, set<nat>>, div0: set<nat>,
                        ready: map<string, set<nat>>, div: set<nat>, u: nat)
    requires Released(t, due, ready0, div0, ready, div) && u in t.actualPort && t.actualPort[u] in ready
    ensures var p := t.actualPort[u];
            if DivCycles(t, u) > 0 then Released(t, due + [u], ready0, div0, ready, div + {u})
            else Released(t, due + [u], ready0, div0, ready[p := ready[p] + {u}], div)
  {
    hide DivCycles;
  }

  // Dispatch

  predicate TakesDivision(ready: map<string, set<nat>>, div: set<nat>, blocked: map<Resource, nat>, port: string) {
    && port == "0" && !(Divider in blocked && blocked[Divider] > 0) && div != {}
    && (port in ready && ready[port] != {} ==> Least(div) < Least(ready[port]))
  }

  predicate PortBlocked(blocked: map<Resource, nat>, port: string) {
    StorePort(port) in blocked && blocked[StorePort(port)] > 0
  }

  /** The uop that a port dispatches: its oldest ready one, unless the port is blocked; port 0 also serves the divider
      while that is free. */
  function ChoiceOf(ready: map<string, set<nat>>, div: set<nat>, blocked: map<Resource, nat>, port: string): Option<nat>
  {
    if PortBlocked(blocked, port) then None
    else if TakesDivision(ready, div, blocked, port) then Some(Least(div))
    else if QueueAt(ready, port) == {} then None
    else Some(Least(ready[port]))
  }

  /** The uops dispatched from some ports, in order. */
  function Chosen(ports: seq<string>, out: set<string>, ready: map<string, set<nat>>, div: set<nat>,
                  blocked: map<Resource, nat>): seq<nat>
  {
    if ports == [] then []
    else
      var front, last := ports[..|ports| - 1], ports[|ports| - 1];
      var choice := ChoiceOf(ready, div, blocked, last);
      Chosen(front, out, ready, div, blocked) + if last !in out && choice.Some? then [choice.value] else []
  }

  lemma ChosenNext(ports: seq<string>, k: nat, out: set<string>, ready: map<string, set<nat>>, div: set<nat>,
                   blocked: map<Resource, nat>)
    requires k < |ports|
    ensures var choice := ChoiceOf(ready, div, blocked, ports[k]);
            Chosen(ports[..k + 1], out, ready, div, blocked) ==
            Chosen(ports[..k], out, ready, div, blocked) +
            if ports[k] !in out && choice.Some? then [choice.value] else []
  {
    hide ChoiceOf;
    assert ports[..k + 1][..k] == ports[..k];
  }

  /** What one port does leaves the choice of another port alone. */
  ghost predicate OthersKept(port: string, ready: map<string, set<nat>>, div: set<nat>, blocked: map<Resource, nat>,
                             ready': map<string, set<nat>>, div': set<nat>, blocked': map<Resource, nat>)
  {
    forall p :: p != port ==> ChoiceOf(ready', div', blocked', p) == ChoiceOf(ready, div, blocked, p)
  }

  lemma KeepsOthers(port: string, ready: map<string, set<nat>>, div: set<nat>, blocked: map<Resource, nat>,
                    ready': map<string, set<nat>>, div': set<nat>, blocked': map<Resource, nat>)
    requires forall p :: p != port ==> QueueAt(ready', p) == QueueAt(ready, p) && (p in ready <==> p in ready')
    requires port != "0" ==> div' == div
    requires forall r: Resource :: r != StorePort(port) && (port != "0" || r != Divider) ==>
               (r in blocked <==> r in blocked') && (r in blocked ==> blocked'[r] == blocked[r])
    ensures OthersKept(port, ready, div, blocked, ready', div', blocked')
  {
    forall p | p != port
      ensures ChoiceOf(ready', div', blocked', p) == ChoiceOf(ready, div, blocked, p)
    {
      assert PortBlocked(blocked', p) <==> PortBlocked(blocked, p);
      if p in ready {
        assert ready'[p] == QueueAt(ready', p) == ready[p];
      }
      if p == "0" {
        assert TakesDivision(ready', div', blocked', p) <==> TakesDivision(ready, div, blocked, p);
      }
    }
  }

  /** The ports from the k-th on still choose what they would have chosen at first. */
  ghost predicate StillChoose(ports: seq<string>, k: nat, ready0: map<string, set<nat>>, div0: set<nat>,
                              blocked0: map<Resource, nat>, ready: map<string, set<nat>>, div: set<nat>,
                              blocked: map<Resource, nat>)
  {
    forall j :: k <= j < |ports| ==> ChoiceOf(ready, div, blocked, ports[j]) == ChoiceOf(ready0, div0, blocked0, ports[j])
  }

  predicate Distinct(ports: seq<string>) {
    forall i, j :: 0 <= i < j < |ports| ==> ports[i] != ports[j]
  }

  lemma StillChooseNext(ports: seq<string>, k: nat, ready0: map<string, set<nat>>, div0: set<nat>,
                        blocked0: map<Resource, nat>, ready: map<string, set<nat>>, div: set<nat>,
                        blocked: map<Resource, nat>, ready': map<string, set<nat>>, div': set<nat>,
                        blocked': map<Resource, nat>)
    requires k < |ports| && Distinct(ports) && StillChoose(ports, k, ready0, div0, blocked0, ready, div, blocked)
    requires OthersKept(ports[k], ready, div, blocked, ready', div', blocked')
    ensures StillChoose(ports, k + 1, ready0, div0, blocked0, ready', div', blocked')
  {
    hide ChoiceOf;
  }

  lemma ChoosesNow(ports: seq<string>, k: nat, ready0: map<string, set<nat>>, div0: set<nat>,
                   blocked0: map<Resource, nat>, ready: map<string, set<nat>>, div: set<nat>,
                   blocked: map<Resource, nat>)
    requires k < |ports| && StillChoose(ports, k, ready0, div0, blocked0, ready, div, blocked)
    ensures ChoiceOf(ready, div, blocked, ports[k]) == ChoiceOf(ready0, div0, blocked0, ports[k])
  {}

  lemma NothingChanged(port: string, ready: map<string, set<nat>>, div: set<nat>, blocked: map<Resource, nat>)
    ensures OthersKept(port, ready, div, blocked, ready, div, blocked)
  {}

  /** What dispatching from a port does to the busy resources. */
  ghost predicate ReadyChanged(port: string, blocked: map<Resource, nat>, blocked': map<Resource, nat>, cycles: nat) {
    && Divider in blocked && Divider in blocked' && blocked'[Divider] == blocked[Divider] + cycles
    && forall r: Resource :: r != Divider && r != StorePort(port) ==>
         (r in blocked <==> r in blocked') && (r in blocked ==> blocked'[r] == blocked[r])
  }

  lemma ChangedOnly(port: string, q: Queues, q': Queues, blocked: map<Resource, nat>, blocked': map<Resource, nat>,
                    source: Source, u: nat, cycles: nat)
    requires q' == TakenFrom(q, source, u) && ReadyChanged(port, blocked, blocked', cycles)
    requires source == FromPort(port) || (source == FromDivider && port == "0")
    requires source == FromPort(port) ==> cycles == 0
    ensures OthersKept(port, q.ready, q.readyDiv, blocked, q'.ready, q'.readyDiv, blocked')
  {
    KeepsOthers(port, q.ready, q.readyDiv, blocked, q'.ready, q'.readyDiv, blocked');
  }

  lemma NothingChosen(ports: seq<string>, out: set<string>, ready: map<string, set<nat>>, div: set<nat>,
                      blocked: map<Resource, nat>, t: Table, clock: nat)
    ensures Chosen(ports[..0], out, ready, div, blocked) == [] && DispatchedThese(t, t, [], clock)
    ensures StillChoose(ports, 0, ready, div, blocked, ready, div, blocked)
  {}

  function AddressOf(t: Table, u: nat): Option<Address> {
    if u in t.info && t.info[u].entry.Some? then t.info[u].entry.value.address else None
  }

  predicate IsWideLoadPair(t: Table, u: nat, v: nat) {
    && u in t.info && v in t.info && t.info[u].isLoad && t.info[v].isLoad
    && (t.info[u].isM256 || t.info[v].isM256)
  }

  /** Two stores leave in the same cycle only if they may be to the same cache line. */
  function StorePortOut(t: Table, ports: seq<string>, ready: map<string, set<nat>>): set<string> {
    if "4" in ports && "9" in ports && QueueAt(ready, "4") != {} && QueueAt(ready, "9") != {} then
      var u, v := Least(ready["4"]), Least(ready["9"]);
      if AddressOf(t, u).Some? && AddressOf(t, v).Some? && !SameLine(AddressOf(t, u).value, AddressOf(t, v).value) then
        if u <= v then {"9"} else {"4"}
      else {}
    else {}
  }

  /** With slow 256-bit memory accesses, two loads one of which is that wide do not leave in the same cycle. */
  function LoadPortOut(t: Table, slow256BitMemAcc: bool, ready: map<string, set<nat>>): set<string> {
    if slow256BitMemAcc && QueueAt(ready, "2") != {} && QueueAt(ready, "3") != {} then
      var u, v := Least(ready["2"]), Least(ready["3"]);
      if IsWideLoadPair(t, u, v) then (if u < v then {"3"} else {"2"}) else {}
    else {}
  }

  /** The ports that dispatch nothing in this cycle. */
  function PortsOut(t: Table, ports: seq<string>, slow256BitMemAcc: bool, ready: map<string, set<nat>>): set<string> {
    StorePortOut(t, ports, ready) + LoadPortOut(t, slow256BitMemAcc, ready)
  }

  /** Exactly the listed uops have been dispatched, in this cycle. */
  ghost predicate DispatchedThese(t: Table, s: Table, us: seq<nat>, clock: nat) {
    && (forall u :: u in us ==> u in s.dispatched && u !in t.dispatched && s.dispatched[u] == clock)
    && (forall u :: u in s.dispatched ==> u in t.dispatched || u in us)
  }

  lemma DispatchedMore(t: Table, s: Table, us: seq<nat>, u: nat, clock: nat)
    requires DispatchedThese(t, s, us, clock) && u !in s.dispatched && OnlyDispatched(t, s, clock)
    ensures DispatchedThese(t, Dispatched(s, u, clock), us + [u], clock)
  {}

  /** The busy resources after a uop has been dispatched. */
  function Occupied(t: Table, slow256BitMemAcc: bool, blocked: map<Resource, nat>, u: nat): map<Resource, nat> {
    var b := blocked[Divider := (if Divider in blocked then blocked[Divider] else 0) + DivCycles(t, u)];
    if slow256BitMemAcc && DivCycles(t, u) == 0 && PortIs(t, u, "4") && u in t.info && t.info[u].isM256
    then b[StorePort("4") := 2] else b
  }

  function OccupiedAll(t: Table, slow256BitMemAcc: bool, blocked: map<Resource, nat>, us: seq<nat>): map<Resource, nat> {
    if us == [] then blocked
    else Occupied(t, slow256BitMemAcc, OccupiedAll(t, slow256BitMemAcc, blocked, us[..|us| - 1]), us[|us| - 1])
  }

  lemma NoneOccupied(t: Table, slow256BitMemAcc: bool, blocked: map<Resource, nat>)
    ensures OccupiedAll(t, slow256BitMemAcc, blocked, []) == blocked
  {}

  lemma {:induction false} OccupiedMore(t: Table, s: Table, slow256BitMemAcc: bool, blocked: map<Resource, nat>,
                                        us: seq<nat>, u: nat)
    requires s.info == t.info && s.actualPort == t.actualPort
    ensures OccupiedAll(t, slow256BitMemAcc, blocked, us + [u]) ==
            Occupied(s, slow256BitMemAcc, OccupiedAll(t, slow256BitMemAcc, blocked, us), u)
  {
    assert (us + [u])[..|us|] == us;
  }

  // Execution

  /** The cycle in which a uop is finished whose outputs are all ready in cycle `written`: stores also wait until their
      address and their data are in the store buffer. */
  function FinishCycle(i: Info, dispatched: nat, written: int): int {
    var finish := Max(EarliestFinish(i, dispatched), written);
    Max(finish, Max(if i.isStoreAddress then dispatched + 5 else finish, if i.isStoreData then dispatched + 1 else finish))
  }

  /** The cycle in which a uop is finished, whose outputs are known. */
  function Finishes(t: Table, u: nat): int {
    if u in t.info && u in t.dispatched && AllAnswered(t, t.info[u].outputs)
    then FinishCycle(t.info[u], t.dispatched[u], LatestReady(t, t.info[u].outputs))
    else 0
  }

  lemma FinishesThen(t: Table, u: nat, finish: int)
    requires u in t.info && u in t.dispatched && AllAnswered(t, t.info[u].outputs)
    requires finish == Max(EarliestFinish(t.info[u], t.dispatched[u]), LatestReady(t, t.info[u].outputs))
    ensures var i, d := t.info[u], t.dispatched[u];
            Finishes(t, u) == Max(finish, Max(if i.isStoreAddress then d + 5 else finish,
                                              if i.isStoreData then d + 1 else finish))
  {
    hide AllAnswered, LatestReady, EarliestFinish;
  }

  lemma {:induction false} SameLatest(t: Table, s: Table, ops: seq<Operand>)
    requires AllAnswered(t, ops) && AllAnswered(s, ops)
    requires forall op :: op in ops ==> ReadyCycle(s, op) == ReadyCycle(t, op)
    ensures LatestReady(s, ops) == LatestReady(t, ops)
  {
    hide ReadyCycle;
    if ops != [] {
      SameLatest(t, s, ops[..|ops| - 1]);
    }
  }

  /** The uop has been executed in the cycle in which it is finished, all its outputs being ready by then. */
  ghost predicate FinishedIn(t: Table, u: nat) {
    && u in t.info && u in t.dispatched && u in t.executed
    && AllSettled(t, t.info[u].outputs, t.executed[u]) && t.executed[u] == Finishes(t, u)
    && StoredBy(t, u)
  }

  /** A store has made its address or its data ready. */
  predicate StoredBy(t: Table, u: nat)
    requires u in t.info
  {
    var i := t.info[u];
    && (i.isStoreAddress ==> i.entry.Some? && i.entry.value.id in t.addressReady)
    && (i.isStoreData ==> i.entry.Some? && i.entry.value.id in t.dataReady)
  }

  /** All uops executed since `t` have been executed in the cycles in which they are finished. */
  ghost predicate FinishedRight(t: Table, s: Table) {
    forall u :: u in s.executed && u !in t.executed ==> FinishedIn(s, u)
  }

  lemma SettledSame(t: Table, s: Table, ops: seq<Operand>, cycle: int)
    requires AllSettled(t, ops, cycle) && Extends(t.ready, s.ready)
    ensures AllAnswered(t, ops) && AllAnswered(s, ops) && LatestReady(s, ops) == LatestReady(t, ops)
  {
    forall op | op in ops
      ensures Answered(t, op) && Answered(s, op) && ReadyCycle(s, op) == ReadyCycle(t, op)
    {
      assert Settled(t, op, cycle);
    }
    SameLatest(t, s, ops);
  }

  /** Outputs once known to be ready stay so, and with them the cycle in which the uop is finished. */
  lemma FinishedStays(t: Table, s: Table, u: nat, cycle: int)
    requires u in t.info && u in t.dispatched && AllSettled(t, t.info[u].outputs, cycle)
    requires Later(t, s)
    ensures u in s.info && AllSettled(s, s.info[u].outputs, cycle) && Finishes(s, u) == Finishes(t, u)
  {
    hide ReadyCycle, AllAnswered, LatestReady, FinishCycle;
    SettledLater(t, s, t.info[u].outputs, cycle);
    SettledSame(t, s, t.info[u].outputs, cycle);
  }

  lemma FinishedLater(t: Table, s: Table, u: nat)
    requires FinishedIn(t, u) && Later(t, s)
    ensures FinishedIn(s, u)
  {
    hide Finishes, AllSettled, StoredBy;
    FinishedStays(t, s, u, t.executed[u]);
    StoredLater(t, s, u);
  }

  lemma StoredLater(t: Table, s: Table, u: nat)
    requires Later(t, s) && u in t.info && StoredBy(t, u)
    ensures u in s.info && StoredBy(s, u)
  {}

  /** A uop is finished in the cycle that its outputs' ready cycles gave when they were asked for. */
  lemma FinishedNow(t: Table, asked: Table, s: Table, delay: nat, u: nat, settled: int)
    requires Recalled(t, asked, delay) && Later(asked, s) && u in t.info && u in t.dispatched
    requires AllSettled(asked, asked.info[u].outputs, settled)
    requires u in s.executed && s.executed[u] == Finishes(t, u) && AllSettled(s, s.info[u].outputs, s.executed[u])
    requires StoredBy(s, u)
    ensures FinishedIn(s, u)
  {
    hide Finishes, AllSettled, Later, Recalled;
    RecalledFields(t, asked, delay);
    FinishedStays(asked, s, u, settled);
    SameFinish(t, asked, delay, u);
    ExtendsFields(asked, s);
  }

  lemma ExtendsFields(t: Table, s: Table)
    requires Later(t, s)
    ensures t.info.Keys <= s.info.Keys && t.dispatched.Keys <= s.dispatched.Keys
  {}

  lemma SameFinish(t: Table, s: Table, delay: nat, u: nat)
    requires Recalled(t, s, delay) && u in t.info
    ensures Finishes(s, u) == Finishes(t, u)
  {
    hide ReadyCycle, AllAnswered, LatestReady, FinishCycle, Later, Sound;
    RecalledAnswers(t, s, delay, t.info[u].outputs);
    if AllAnswered(t, t.info[u].outputs) {
      SameLatest(t, s, t.info[u].outputs);
    }
  }

  /** Executing a uop changes nothing else. */
  lemma ExecutingKeeps(t: Table, s: Table, delay: nat, u: nat, cycle: int, ops: seq<Operand>)
    requires Recalled(t, s, delay) && u !in s.executed && AllSettled(s, ops, cycle) && cycle >= 0
    ensures Later(t, Executed(s, u, cycle)) && AllSettled(Executed(s, u, cycle), ops, cycle)
  {
    hide ReadyCycle, Sound;
    SettledLater(s, Executed(s, u, cycle), ops, cycle);
  }

  lemma StoringLater(t: Table, s: Table, r: Table)
    requires OnlyStored(t, s) && Later(s, r)
    ensures Later(t, r)
  {}

  lemma NoneFinished(t: Table)
    ensures FinishedRight(t, t)
  {}

  lemma OneMoreFinished(t: Table, s: Table, r: Table, u: nat)
    requires FinishedRight(t, s) && Later(s, r) && (forall v :: v in r.executed ==> v in s.executed || v == u)
    requires u in r.executed && u !in s.executed ==> FinishedIn(r, u)
    ensures FinishedRight(t, r)
  {
    hide FinishedIn;
    forall v | v in r.executed && v !in t.executed
      ensures FinishedIn(r, v)
    {
      if v in s.executed {
        FinishedLater(s, r, v);
      }
    }
  }

  lemma NoneUnknown(t: Table)
    ensures AllUnknown(t, {})
  {}

  /** The uops in the set had an output that was not known. */
  ghost predicate AllUnknown(t: Table, us: set<nat>) {
    forall u :: u in us ==> u in t.info && !AllAnswered(t, t.info[u].outputs)
  }

  lemma UnknownBefore(t: Table, s: Table, us: set<nat>, u: nat)
    requires OnlyExecuted(t, s) && u in s.info && !AllAnswered(s, s.info[u].outputs) && AllUnknown(t, us)
    ensures AllUnknown(t, us + {u})
  {
    hide AllAnswered, Later;
    if AllAnswered(t, t.info[u].outputs) {
      AllAnsweredLater(t, s, t.info[u].outputs);
    }
  }

  // Readiness

  ghost predicate IsHeld(t: Table, u: nat, clock: nat, g: Guards) {
    && u in t.info
    && (t.info[u].isFirstOfInstr && t.info[u].isLoadSerializing ==> g.loadFences != [])
    && (t.info[u].isFirstOfInstr && t.info[u].isStoreSerializing ==> g.storeFences != [])
    && HeldBack(t, u, clock, g.loadFences, g.loads, g.storeFences, g.stores, g.blocked)
  }

  /** Ready cycles are as before. */
  ghost predicate SameReady(t: Table, s: Table) {
    forall op :: ReadyCycle(s, op) == ReadyCycle(t, op)
  }

  lemma {:induction false} LatestSame(t: Table, s: Table, ops: seq<Operand>)
    requires SameReady(t, s)
    ensures AllAnswered(s, ops) <==> AllAnswered(t, ops)
    ensures AllAnswered(t, ops) ==> LatestReady(s, ops) == LatestReady(t, ops)
  {
    hide ReadyCycle;
    assert forall op :: Answered(s, op) <==> Answered(t, op);
    if ops != [] && AllAnswered(t, ops) {
      var front := ops[..|ops| - 1];
      assert AllAnswered(t, front) && AllAnswered(s, front) && AllAnswered(s, ops);
      LatestSame(t, s, front);
    }
  }

  /** Every uop that has become ready can be dispatched from the cycle on that its operands and its issue determine. */
  ghost predicate ReadiedRightly(t: Table, s: Table, delay: nat, clock: nat) {
    forall u :: u in s.readyForDispatch && u !in t.readyForDispatch ==>
      && u in t.info && u in t.issued && AllAnswered(t, t.info[u].inputs)
      && s.readyForDispatch[u] == DispatchCycle(LatestReady(t, t.info[u].inputs), t.issued[u], delay, clock)
  }

  lemma RecalledSameReady(t: Table, s: Table, delay: nat, u: nat, cycle: nat)
    requires Recalled(t, s, delay)
    ensures SameReady(t, s) && SameReady(t, ReadyFrom(s, u, cycle))
  {
    hide Sound, Later, ReadyCycle;
    forall op: Operand
      ensures ReadyCycle(ReadyFrom(s, u, cycle), op) == ReadyCycle(s, op)
    {
      ReadyFromKeeps(s, u, cycle, op);
    }
  }

  lemma ReadyFromKeeps(t: Table, u: nat, cycle: nat, op: Operand)
    ensures ReadyCycle(ReadyFrom(t, u, cycle), op) == ReadyCycle(t, op)
  {}

  lemma SameReadyTrans(t: Table, s: Table, r: Table)
    requires SameReady(t, s) && SameReady(s, r)
    ensures SameReady(t, r)
  {
    hide ReadyCycle;
  }

  /** The readiness found so far. */
  ghost predicate RightSoFar(t0: Table, t: Table, delay: nat, clock: nat) {
    OnlyReadied(t0, t) && SameReady(t0, t) && ReadiedRightly(t0, t, delay, clock)
  }

  lemma RightItself(t: Table, delay: nat, clock: nat)
    ensures RightSoFar(t, t, delay, clock)
  {
    hide ReadyCycle;
    NoneReadied(t);
  }

  lemma RightRecalled(t0: Table, t: Table, s: Table, delay: nat, clock: nat)
    requires RightSoFar(t0, t, delay, clock) && Recalled(t, s, delay)
    ensures RightSoFar(t0, s, delay, clock)
  {
    hide ReadyCycle, Sound, Later, SameReady;
    RecalledSameReady(t, s, delay, 0, 0);
    SameReadyTrans(t0, t, s);
    LaterTrans(t0, t, s);
  }

  lemma RightEntered(t0: Table, t: Table, s: Table, place: map<nat, Place>, after: map<nat, Place>, u: nat, delay: nat,
                     clock: nat)
    requires RightSoFar(t0, t, delay, clock) && Entered(t, s, place, after, u, delay, clock) && SameReady(t, s)
    ensures RightSoFar(t0, s, delay, clock)
  {
    hide ReadyCycle, Sound, Later, SameReady, LatestReady, AllAnswered, DispatchCycle;
    SameReadyTrans(t0, t, s);
    LaterTrans(t0, t, s);
    LatestSame(t0, t, t.info[u].inputs);
  }

  /** The guards after a uop has become ready. */
  function Noted(g: Guards, i: Info, u: nat): Guards {
    g.(blocked := if i.isFirstOfInstr && i.tp.Some? then g.blocked[Instr(i.instr) := i.tp.value] else g.blocked,
       loads := g.loads + if i.isLoad then [u] else [],
       stores := g.stores + if i.isStoreData || i.isStoreAddress then [u] else [])
  }

  /** The guards after some uops have been looked at, of which those in `ready` have become ready. */
  function NotedAll(g: Guards, t: Table, us: seq<nat>, ready: set<nat>): Guards {
    if us == [] then g
    else
      var h, u := NotedAll(g, t, us[..|us| - 1], ready), us[|us| - 1];
      if u in ready && u in t.info then Noted(h, t.info[u], u) else h
  }

  /** The uops were looked at in order, and each has become ready exactly if the guards did not hold it in its turn. */
  ghost predicate Sorted(t0: Table, t: Table, us: seq<nat>, ready: set<nat>, clock: nat, g0: Guards, g: Guards) {
    && g == NotedAll(g0, t0, us, ready) && t.info == t0.info && t.executed == t0.executed
    && t.readyForDispatch.Keys == t0.readyForDispatch.Keys + ready
    && (forall v :: v in ready ==> v in us && v !in t0.readyForDispatch) && NoDuplicates(us)
    && forall i :: 0 <= i < |us| ==> InTurn(t0, us, ready, clock, g0, i)
  }

  ghost predicate InTurn(t: Table, us: seq<nat>, ready: set<nat>, clock: nat, g: Guards, i: nat)
    requires i < |us|
  {
    us[i] in ready <==> !IsHeld(t, us[i], clock, NotedAll(g, t, us[..i], ready))
  }

  lemma SortedNone(t: Table, clock: nat, g: Guards)
    ensures Sorted(t, t, [], {}, clock, g, g)
  {}

  lemma {:induction false} NotedSame(g: Guards, t: Table, us: seq<nat>, ready: set<nat>, u: nat)
    requires u !in us
    ensures NotedAll(g, t, us, ready + {u}) == NotedAll(g, t, us, ready)
  {
    hide Noted;
    if us != [] {
      assert us[|us| - 1] in us;
      NotedSame(g, t, us[..|us| - 1], ready, u);
    }
  }

  lemma TurnKept(t: Table, us: seq<nat>, ready: set<nat>, ready': set<nat>, clock: nat, g: Guards, u: nat, i: nat)
    requires i < |us| && u !in us && InTurn(t, us, ready, clock, g, i) && (ready' == ready || ready' == ready + {u})
    ensures InTurn(t, us + [u], ready', clock, g, i)
  {
    hide IsHeld, NotedAll;
    assert (us + [u])[..i] == us[..i] && us[i] in us;
    NotedSame(g, t, us[..i], ready, u);
  }

  lemma NotedNext(g: Guards, t: Table, us: seq<nat>, ready: set<nat>, u: nat)
    ensures NotedAll(g, t, us + [u], ready) ==
            if u in ready && u in t.info then Noted(NotedAll(g, t, us, ready), t.info[u], u) else NotedAll(g, t, us, ready)
  {
    assert (us + [u])[..|us|] == us;
  }

  /** One more uop has been looked at. */
  lemma SortedNext(t0: Table, t: Table, s: Table, us: seq<nat>, ready: set<nat>, u: nat, clock: nat, g0: Guards,
                   g: Guards, h: Guards)
    requires Sorted(t0, t, us, ready, clock, g0, g) && u !in us && s.info == t.info && s.executed == t.executed
    requires u in t.info && h == if IsHeld(t0, u, clock, g) then g else Noted(g, t.info[u], u)
    requires u !in t.readyForDispatch
    requires s.readyForDispatch.Keys == t.readyForDispatch.Keys + if IsHeld(t0, u, clock, g) then {} else {u}
    ensures Sorted(t0, s, us + [u], if IsHeld(t0, u, clock, g) then ready else ready + {u}, clock, g0, h)
  {
    hide IsHeld, Noted, NotedAll;
    var ready' := if IsHeld(t0, u, clock, g) then ready else ready + {u};
    NotedSame(g0, t0, us, ready, u);
    NotedNext(g0, t0, us, ready', u);
    forall i | 0 <= i < |us + [u]|
      ensures InTurn(t0, us + [u], ready', clock, g0, i)
    {
      if i < |us| {
        assert InTurn(t0, us, ready, clock, g0, i);
        TurnKept(t0, us, ready, ready', clock, g0, u, i);
      } else {
        assert (us + [u])[..i] == us;
      }
    }
  }

  lemma HeldSame(t: Table, s: Table, u: nat, clock: nat, g: Guards)
    requires s.info == t.info && s.executed == t.executed
    ensures IsHeld(s, u, clock, g) <==> IsHeld(t, u, clock, g)
  {}

  // A whole cycle

  /** The course of a cycle: the table when the new uops have been bound, the ready uops from which is chosen, the table
      after dispatch and the uops that are then pending, the table after execution, the uops that then wait for none,
      those of them that become ready, and what holds uops back before and afterwards. */
  datatype Course = Course(bound: Table, ready: map<string, set<nat>>, div: set<nat>, dispatched: Table,
                           pending: set<nat>, executed: Table, waiting: seq<nat>, readied: set<nat>, before: Guards,
                           after: Guards)

  /** What a cycle starts from. */
  datatype Beginning = Beginning(t: Table, due: seq<nat>, ready: map<string, set<nat>>, div: set<nat>, g: Guards,
                                 us: seq<nat>, choice: map<nat, string>, ports: seq<string>, slow256BitMemAcc: bool,
                                 delay: nat, clock: nat)

  /** What a cycle ends with. */
  datatype Ending = Ending(t: Table, dispatched: seq<nat>, pending: set<nat>, nonReady: seq<nat>, g: Guards)

  /** The uops due have been released, the new ones bound to their ports, and each port has dispatched its choice. */
  ghost predicate BindsAndDispatches(b: Beginning, k: Course, dispatched: seq<nat>) {
    && Released(b.t, b.due, b.ready, b.div, k.ready, k.div)
    && OnlyBound(b.t, k.bound) && BoundAsChosen(b.t, k.bound, b.us, b.choice)
    && dispatched ==
       Chosen(b.ports, PortsOut(k.bound, b.ports, b.slow256BitMemAcc, k.ready), k.ready, k.div, b.g.blocked)
    && OnlyDispatched(k.bound, k.dispatched, b.clock) && DispatchedThese(k.bound, k.dispatched, dispatched, b.clock)
    && PendingExact(k.dispatched, k.pending)
    && k.before == WithFences(b.g, k.bound, b.us)
                   .(blocked := OccupiedAll(k.bound, b.slow256BitMemAcc, b.g.blocked, dispatched))
  }

  /** The pending uops whose outputs were known have been executed, in the cycles in which they are finished, and the
      uops that wait for none and are not held back have become ready. */
  ghost predicate ExecutesAndReadies(b: Beginning, k: Course, e: Ending) {
    && OnlyExecuted(k.dispatched, k.executed) && e.pending <= k.pending && AllUnknown(k.dispatched, e.pending)
    && FinishedRight(k.dispatched, k.executed) && PendingExact(k.executed, e.pending)
    && RightSoFar(k.executed, e.t, b.delay, b.clock) && e.nonReady == Without(k.waiting, k.readied)
    && Sorted(k.executed, e.t, k.waiting, k.readied, b.clock, k.before, k.after)
    && e.g == Ended(k.after, e.t, b.clock)
  }

  ghost predicate Follows(b: Beginning, k: Course, e: Ending) {
    BindsAndDispatches(b, k, e.dispatched) && ExecutesAndReadies(b, k, e)
  }

  lemma CourseSteps(b: Beginning, k: Course, e: Ending)
    requires Follows(b, k, e)
    ensures CycleSteps(b.t, e.t, b.clock)
  {
    hide Released, BoundAsChosen, Chosen, PortsOut, DispatchedThese, AllUnknown, Without, Sorted, SameReady;
    hide ReadiedRightly, OnlyBound, OnlyDispatched, OnlyExecuted, OnlyReadied, CycleSteps, WithFences, Ended;
    hide PendingExact, FinishedRight;
    AllSteps(b.t, k.dispatched, e.t, b.clock);
  }

  lemma IsReadied(t: Table, s: Table, delay: nat, clock: nat)
    requires RightSoFar(t, s, delay, clock)
    ensures OnlyReadied(t, s)
  {}
}

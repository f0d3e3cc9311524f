/** When and from where the scheduler dispatches, and when a uop and its results are ready: each in terms of what may and
    what may not be earlier. */
module SchedulerTiming {
  import opened Wrappers
  import opened Uops
  import opened SchedulerTokens
  import opened SchedulerState
  import opened SchedulerDispatch
  import opened SchedulerExecution
  import opened SchedulerChoices

  // What a port dispatches

  /** The uop is ready on the port; port 0 also serves the divider while that is free. */
  predicate IsCandidate(ready: map<string, set<nat>>, div: set<nat>, blocked: map<Resource, nat>, port: string, u: nat) {
    || (port in ready && u in ready[port])
    || (port == "0" && u in div && !(Divider in blocked && blocked[Divider] > 0))
  }

  /** A port that is not blocked dispatches the oldest of its candidates, if it has any. No uop is a candidate twice. */
  lemma ChoiceExactly(ready: map<string, set<nat>>, div: set<nat>, blocked: map<Resource, nat>, port: string, u: nat)
    requires port in ready ==> ready[port] !! div
    ensures ChoiceOf(ready, div, blocked, port) == Some(u) <==>
            && !(StorePort(port) in blocked && blocked[StorePort(port)] > 0)
            && IsCandidate(ready, div, blocked, port, u)
            && forall v :: IsCandidate(ready, div, blocked, port, v) ==> u <= v
  {
    hide Least;
    if port in ready && ready[port] != {} {
      assert IsLeast(Least(ready[port]), ready[port]);
      assert IsCandidate(ready, div, blocked, port, Least(ready[port]));
    }
    if div != {} {
      assert IsLeast(Least(div), div);
      if port == "0" && !(Divider in blocked && blocked[Divider] > 0) {
        assert IsCandidate(ready, div, blocked, port, Least(div));
      }
    }
  }

  // Ports that are shut

  predicate IsOldest(ready: map<string, set<nat>>, port: string, u: nat) {
    port in ready && u in ready[port] && forall v :: v in ready[port] ==> u <= v
  }

  /** The two stores have known addresses that are not less than a cache line apart. */
  predicate LinesApart(t: Table, u: nat, v: nat) {
    && u in t.info && v in t.info && t.info[u].entry.Some? && t.info[v].entry.Some?
    && t.info[u].entry.value.address.Some? && t.info[v].entry.value.address.Some?
    && var a, b := t.info[u].entry.value.address.value, t.info[v].entry.value.address.value;
       a.base != b.base || a.index != b.index || a.scale != b.scale || a.disp >= b.disp + 64 || b.disp >= a.disp + 64
  }

  lemma OldestIs(ready: map<string, set<nat>>, port: string)
    ensures QueueAt(ready, port) != {} ==> IsOldest(ready, port, Least(ready[port]))
    ensures forall u :: IsOldest(ready, port, u) ==> QueueAt(ready, port) != {} && u == Least(ready[port])
  {
    hide Least;
    if QueueAt(ready, port) != {} {
      assert IsLeast(Least(ready[port]), ready[port]);
    }
  }

  /** Of ports 4 and 9 one is shut exactly if the oldest stores ready on them are to different lines, and it is that of
      the younger store; no other port is shut for a store. */
  lemma StorePortsExactly(t: Table, ports: seq<string>, ready: map<string, set<nat>>, p: string)
    ensures p in StorePortOut(t, ports, ready) <==>
            && "4" in ports && "9" in ports
            && exists u, v :: IsOldest(ready, "4", u) && IsOldest(ready, "9", v) && LinesApart(t, u, v) &&
                              p == (if u <= v then "9" else "4")
  {
    OldestIs(ready, "4");
    OldestIs(ready, "9");
    hide Least, IsOldest;
  }

  /** Two loads one of which is 256 bits wide. */
  predicate WideLoads(t: Table, u: nat, v: nat) {
    u in t.info && v in t.info && t.info[u].isLoad && t.info[v].isLoad && (t.info[u].isM256 || t.info[v].isM256)
  }

  /** Of ports 2 and 3 one is shut exactly if 256-bit accesses are slow and one of the oldest loads ready on them is that
      wide, and it is that of the younger load. */
  lemma LoadPortsExactly(t: Table, slow256BitMemAcc: bool, ready: map<string, set<nat>>, p: string)
    ensures p in LoadPortOut(t, slow256BitMemAcc, ready) <==>
            && slow256BitMemAcc
            && exists u, v :: IsOldest(ready, "2", u) && IsOldest(ready, "3", v) && WideLoads(t, u, v) &&
                              p == (if u < v then "3" else "2")
  {
    OldestIs(ready, "2");
    OldestIs(ready, "3");
    hide Least, IsOldest;
  }

  /** These are the ports that are shut. */
  lemma ShutExactly(t: Table, ports: seq<string>, slow256BitMemAcc: bool, ready: map<string, set<nat>>, p: string)
    ensures p in PortsOut(t, ports, slow256BitMemAcc, ready) <==>
            p in StorePortOut(t, ports, ready) || p in LoadPortOut(t, slow256BitMemAcc, ready)
  {
    hide StorePortOut, LoadPortOut;
  }

  // What is dispatched in a cycle

  /** A uop is dispatched exactly if some port that is not shut dispatches it. */
  lemma {:induction false} ChosenExactly(ports: seq<string>, out: set<string>, ready: map<string, set<nat>>, div: set<nat>,
                                         blocked: map<Resource, nat>, u: nat)
    ensures u in Chosen(ports, out, ready, div, blocked) <==>
            exists p :: p in ports && p !in out && ChoiceOf(ready, div, blocked, p) == Some(u)
  {
    hide ChoiceOf;
    if ports != [] {
      var front, last := ports[..|ports| - 1], ports[|ports| - 1];
      ChosenExactly(front, out, ready, div, blocked, u);
      assert ports == front + [last];
    }
  }

  // What is held back

  /** A fence has its turn: it is the oldest pending one, and all accesses noted since the last one have been executed. */
  ghost predicate HasTurn(t: Table, u: nat, clock: nat, fences: seq<nat>, accesses: seq<nat>) {
    fences != [] && fences[0] == u && forall v :: v in accesses ==> v in t.executed && t.executed[v] <= clock
  }

  ghost predicate OlderFence(fences: seq<nat>, u: nat) {
    fences != [] && fences[0] < u
  }

  /** Although its operands are known, a uop is held back exactly if it begins an instruction that is busy or a fence whose
      turn has not come, or it is an access and a fence before it is pending. A fence for both loads and stores counts as
      one for loads. */
  lemma HeldExactly(t: Table, u: nat, clock: nat, g: Guards)
    requires u in t.info
    requires t.info[u].isFirstOfInstr && t.info[u].isLoadSerializing ==> g.loadFences != []
    requires t.info[u].isFirstOfInstr && t.info[u].isStoreSerializing ==> g.storeFences != []
    ensures var i := t.info[u];
            IsHeld(t, u, clock, g) <==>
            || (i.isFirstOfInstr && Instr(i.instr) in g.blocked && g.blocked[Instr(i.instr)] > 0)
            || (i.isFirstOfInstr && i.isLoadSerializing && !HasTurn(t, u, clock, g.loadFences, g.loads))
            || (i.isFirstOfInstr && i.isStoreSerializing && !i.isLoadSerializing &&
                !HasTurn(t, u, clock, g.storeFences, g.stores))
            || (!i.isLoadSerializing && !i.isStoreSerializing &&
                ((i.isLoad && OlderFence(g.loadFences, u)) ||
                 ((i.isStoreData || i.isStoreAddress) && OlderFence(g.storeFences, u))))
  {}

  // When a uop is ready

  /** A cycle in which the uop can be dispatched: it comes after the current one, the delay after issue has passed and the
      operands are ready; if these become ready just when the delay has passed or in the cycle after, it comes later. */
  predicate IsLateEnough(n: int, operands: int, issued: nat, delay: nat, clock: nat) {
    && n > clock && n >= issued + delay && n >= operands
    && (0 <= operands - (issued + delay) <= 1 ==> n > operands)
  }

  /** The uop becomes ready in the first such cycle. */
  lemma DispatchExactly(operands: int, issued: nat, delay: nat, clock: nat, c: nat)
    requires operands >= -1
    ensures DispatchCycle(operands, issued, delay, clock) == c <==>
            && IsLateEnough(c, operands, issued, delay, clock)
            && forall n :: IsLateEnough(n, operands, issued, delay, clock) ==> c <= n
    ensures forall n :: DispatchAllowed(n, operands, issued, delay, clock) <==>
                        IsLateEnough(n, operands, issued, delay, clock)
  {
    assert IsLateEnough(DispatchCycle(operands, issued, delay, clock), operands, issued, delay, clock);
  }

  // When results are ready

  /** An operand that nobody has asked for yet: a dispatched uop writes it after its latency, but a load that reads from the
      store buffer not earlier than four cycles after address and data of its entry are ready. */
  lemma WrittenExactly(t: Table, u: nat, slot: nat, latency: int, cycle: int)
    requires u in t.info && Written(u, slot, latency) !in t.ready
    ensures var i := t.info[u];
            var forwarded := i.isLoad && i.entry.Some?;
            ReadyCycle(t, Written(u, slot, latency)) == Some(cycle) <==>
            && u in t.dispatched && t.dispatched[u] + latency <= cycle
            && (forwarded ==>
                  && i.entry.value.id in t.addressReady && t.addressReady[i.entry.value.id] + 4 <= cycle
                  && i.entry.value.id in t.dataReady && t.dataReady[i.entry.value.id] + 4 <= cycle)
            && (cycle == t.dispatched[u] + latency ||
                (forwarded && (cycle == t.addressReady[i.entry.value.id] + 4 || cycle == t.dataReady[i.entry.value.id] + 4)))
  {}

  // When a uop is finished

  /** A uop whose outputs are ready in cycle `written` may be finished: two cycles have passed since its dispatch, or the
      throughput of its instruction for the first uop, five cycles for a store address, one for store data. */
  predicate MayFinish(i: Info, dispatched: nat, written: int, cycle: int) {
    && dispatched + 2 <= cycle && written <= cycle
    && (i.isFirstOfInstr && i.tp.Some? ==> dispatched + i.tp.value <= cycle)
    && (i.isStoreAddress ==> dispatched + 5 <= cycle) && (i.isStoreData ==> dispatched + 1 <= cycle)
  }

  /** It is finished in the first cycle in which it may. */
  lemma FinishExactly(i: Info, dispatched: nat, written: int)
    ensures MayFinish(i, dispatched, written, FinishCycle(i, dispatched, written))
    ensures forall cycle :: MayFinish(i, dispatched, written, cycle) ==> FinishCycle(i, dispatched, written) <= cycle
  {}
}

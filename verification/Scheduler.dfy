/** The scheduler (`Scheduler` in uiCA.py): it binds uops to ports, waits for their operands and dispatches them. */
module Scheduler {
  import opened Wrappers
  import opened Uops
  import opened UopSteps
  import opened SchedulerTokens
  import opened SchedulerState
  import opened SchedulerSteps
  import opened SchedulerDispatch
  import opened SchedulerExecution
  import opened SchedulerChoices

  datatype Config = Config(issueWidth: nat, rsWidth: nat, issueDispatchDelay: nat, ports: seq<string>,
                           slow256BitMemAcc: bool)

  class Scheduler {
    const c: Config
    const storage: UopStorage
    var uops: set<nat>
    var portUsage: map<string, int>
    var uopsDispatchedInPrevCycle: seq<nat>
    var readyQueue: map<string, set<nat>>
    var readyDivUops: set<nat>
    var uopsReadyInCycle: map<nat, seq<nat>>
    var nonReadyUops: seq<nat>
    var pendingUops: set<nat>
    var pendingStoreFenceUops: seq<nat>
    var storeUopsSinceLastStoreFence: seq<nat>
    var pendingLoadFenceUops: seq<nat>
    var loadUopsSinceLastLoadFence: seq<nat>
    var blockedResources: map<Resource, nat>
    var dependentUops: map<nat, seq<nat>>
    ghost var place: map<nat, Place>

    constructor (c: Config, storage: UopStorage)
      requires storage.t == NO_UOPS && Distinct(c.ports)
      ensures this.c == c && this.storage == storage && Valid(0) && portUsage.Keys == set p | p in c.ports
      ensures Guarding() == NO_GUARDS
    {
      this.c := c;
      this.storage := storage;
      uops, uopsDispatchedInPrevCycle, readyDivUops, uopsReadyInCycle := {}, [], {}, map[];
      portUsage := map p | p in c.ports :: 0;
      readyQueue := map p | p in c.ports :: {};
      nonReadyUops, pendingUops, dependentUops := [], {}, map[];
      pendingStoreFenceUops, storeUopsSinceLastStoreFence := [], [];
      pendingLoadFenceUops, loadUopsSinceLastLoadFence := [], [];
      blockedResources := map[Divider := 0];
      place := map[];
      new;
      Empty(Queues([], []), c.issueDispatchDelay, portUsage);
    }

    predicate IsFull()
      reads this
    {
      |uops| + c.issueWidth > c.rsWidth
    }

    ghost function Queues(checking: seq<nat>, nonReady: seq<nat>): Queues
      reads `dependentUops, `uopsReadyInCycle, `readyQueue, `readyDivUops
    {
      SchedulerTokens.Queues(checking, dependentUops, nonReady, uopsReadyInCycle, readyQueue, readyDivUops)
    }

    /** The queues, the places and the table agree. `next` is the cycle that comes next. */
    ghost predicate Agree(checking: seq<nat>, nonReady: seq<nat>, before: nat, due: nat)
      reads `dependentUops, `uopsReadyInCycle, `readyQueue, `readyDivUops, `place, storage
    {
      Consistent(storage.t, Queues(checking, nonReady), place, before, due, c.issueDispatchDelay)
    }

    /** Puts a uop whose operands may all be known where it belongs: it waits for a uop that writes one of its unknown
        operands, or it knows when its operands become ready. */
    method CheckDependingUopsExecuted(u: nat, ghost checking: seq<nat>, ghost before: nat, ghost due: nat)
      requires checking != [] && checking[0] == u && Agree(checking, nonReadyUops, before, due)
      modifies storage, `dependentUops, `nonReadyUops, `place
      ensures Agree(checking[1..], nonReadyUops, before, due)
      ensures Recalled(old(storage.t), storage.t, c.issueDispatchDelay)
      ensures place.Keys == old(place).Keys && u in place && u in storage.t.info
      ensures place[u] == NonReady <==> AllAnswered(storage.t, storage.t.info[u].inputs)
      ensures forall p :: p in dependentUops && p !in old(dependentUops) ==>
                exists op :: op in storage.t.info[u].inputs && op.Written? && op.uop == p && !Answered(storage.t, op)
    {
      hide Consistent, Recalled, ReadyCycle;
      RecallsItself(storage.t, c.issueDispatchDelay);
      Checked(storage.t, Queues(checking, nonReadyUops), place, before, due, c.issueDispatchDelay);
      var inputs := storage.t.info[u].inputs;
      ghost var q := Queues(checking, nonReadyUops);
      ghost var t0, places := storage.t, place;
      for i := 0 to |inputs|
        invariant Recalled(t0, storage.t, c.issueDispatchDelay) && AllAnswered(t0, inputs[..i])
        invariant Queues(checking, nonReadyUops) == q && place == places
      {
        var op := inputs[i];
        UnknownUnexecuted(t0, q, places, before, due, c.issueDispatchDelay, op);
        RecallsOneMore(t0, storage.t, c.issueDispatchDelay, op);
        RecalledCycle(t0, storage.t, c.issueDispatchDelay, op);
        var cycle := storage.GetReadyCycle(op);
        RecalledFields(t0, storage.t, c.issueDispatchDelay);
        if cycle == None && op.Written? && op.uop !in storage.t.executed {
          SameQueues(t0, storage.t, q, places, before, due, c.issueDispatchDelay);
          RecalledCycle(t0, storage.t, c.issueDispatchDelay, op);
          WaitsForOperand(storage.t, q, places, before, due, c.issueDispatchDelay, op);
          dependentUops := dependentUops[op.uop := At(dependentUops, op.uop) + [u]];
          place := place[u := Waits(op.uop)];
          return;
        }
      }
      RecalledFields(t0, storage.t, c.issueDispatchDelay);
      RecalledAnswers(t0, storage.t, c.issueDispatchDelay, inputs);
      SameQueues(t0, storage.t, q, places, before, due, c.issueDispatchDelay);
      KnowsOperands(storage.t, q, places, before, due, c.issueDispatchDelay);
      nonReadyUops := nonReadyUops + [u];
      place := place[u := NonReady];
    }

    /** Asks for the ready cycles of some operands until one is unknown; the latest of them, if all are known. */
    method LatestReadyCycle(ops: seq<Operand>) returns (latest: Option<int>)
      modifies storage
      ensures Recalled(old(storage.t), storage.t, c.issueDispatchDelay)
      ensures latest == None <==> !AllAnswered(old(storage.t), ops)
      ensures latest.Some? ==>
                latest.value == LatestReady(old(storage.t), ops) && AllSettled(storage.t, ops, latest.value)
    {
      hide Recalled, ReadyCycle, AllSettled, AllAnswered, LatestReady, Answered;
      ghost var t0, delay := storage.t, c.issueDispatchDelay;
      RecallsItself(t0, delay);
      NothingAsked(t0);
      var cycle := -1;
      for i := 0 to |ops|
        invariant Recalled(t0, storage.t, delay) && AllAnswered(t0, ops[..i])
        invariant cycle == LatestReady(t0, ops[..i]) && AllSettled(storage.t, ops[..i], cycle)
      {
        var op := ops[i];
        AskedCycle(t0, storage.t, delay, ops, i);
        if Answered(t0, op) {
          AskedSnoc(t0, storage.t, delay, ops, i, cycle);
        }
        RecallsOneMore(t0, storage.t, delay, op);
        var ready := storage.GetReadyCycle(op);
        if ready == None {
          return None;
        }
        cycle := Max(cycle, ready.value);
      }
      assert ops[..|ops|] == ops;
      return Some(cycle);
    }

    /** The cycle from which a uop can be dispatched: its operands are ready, its issue delay has passed, and it comes
        after the current cycle. */
    method GetReadyForDispatchCycle(clock: nat, u: nat) returns (cycle: Option<nat>)
      requires u in storage.t.info && u in storage.t.issued
      modifies storage
      ensures Recalled(old(storage.t), storage.t, c.issueDispatchDelay)
      ensures cycle == None <==> !AllAnswered(old(storage.t), old(storage.t).info[u].inputs)
      ensures cycle.Some? ==>
                var latest, issued := LatestReady(old(storage.t), old(storage.t).info[u].inputs), old(storage.t).issued[u];
                var delay := c.issueDispatchDelay;
                && DispatchAllowed(cycle.value, latest, issued, delay, clock)
                && (forall n :: DispatchAllowed(n, latest, issued, delay, clock) ==> cycle.value <= n)
                && cycle.value == DispatchCycle(latest, issued, delay, clock)
                && AllSettled(storage.t, old(storage.t).info[u].inputs, cycle.value)
    {
      hide Recalled, ReadyCycle, AllSettled, AllAnswered, LatestReady;
      var inputs, issued, delay := storage.t.info[u].inputs, storage.t.issued[u], c.issueDispatchDelay;
      var opReadyCycle := LatestReadyCycle(inputs);
      if opReadyCycle == None {
        return None;
      }
      var readyCycle := opReadyCycle.value;
      if opReadyCycle.value < issued + delay {
        readyCycle := issued + delay;
      } else if opReadyCycle.value == issued + delay || opReadyCycle.value == issued + delay + 1 {
        readyCycle := opReadyCycle.value + 1;
      }
      SettledFrom(storage.t, inputs, opReadyCycle.value, Max(clock + 1, readyCycle));
      return Some(Max(clock + 1, readyCycle));
    }

    predicate Held(u: nat, clock: nat)
      requires u in storage.t.info
      requires storage.t.info[u].isFirstOfInstr && storage.t.info[u].isLoadSerializing ==> pendingLoadFenceUops != []
      requires storage.t.info[u].isFirstOfInstr && storage.t.info[u].isStoreSerializing ==> pendingStoreFenceUops != []
      reads this, storage
    {
      HeldBack(storage.t, u, clock, pendingLoadFenceUops, loadUopsSinceLastLoadFence, pendingStoreFenceUops,
               storeUopsSinceLastStoreFence, blockedResources)
    }

    ghost predicate FencesKnown()
      reads `place, `pendingLoadFenceUops, `pendingStoreFenceUops, storage
    {
      FencesPending(storage.t, place, pendingLoadFenceUops, pendingStoreFenceUops)
    }

    /** What may hold a uop back. */
    function Guarding(): Guards
      reads `pendingLoadFenceUops, `loadUopsSinceLastLoadFence, `pendingStoreFenceUops, `storeUopsSinceLastStoreFence,
            `blockedResources
    {
      Guards(pendingLoadFenceUops, loadUopsSinceLastLoadFence, pendingStoreFenceUops, storeUopsSinceLastStoreFence,
             blockedResources)
    }

    /** Enters a uop that waits for none into the calendar, unless fences or busy resources hold it back. */
    method CheckUopReady(clock: nat, u: nat, ghost nonReady: seq<nat>, ghost i: nat) returns (ready: bool)
      requires i < |nonReady| && nonReady[i] == u && Agree([], nonReady, clock + 1, clock + 1) && FencesKnown()
      requires u in storage.t.info && u in storage.t.issued && u in place && u !in storage.t.readyForDispatch
      modifies storage, `uopsReadyInCycle, `blockedResources, `loadUopsSinceLastLoadFence,
               `storeUopsSinceLastStoreFence, `place
      ensures ready <==> !old(Held(u, clock)) && old(AllAnswered(storage.t, storage.t.info[u].inputs))
      ensures if ready then
                && Entered(old(storage.t), storage.t, old(place), place, u, c.issueDispatchDelay, clock)
                && Agree([], nonReady[..i] + nonReady[i + 1..], clock + 1, clock + 1)
              else
                && Recalled(old(storage.t), storage.t, c.issueDispatchDelay) && place == old(place)
                && Agree([], nonReady, clock + 1, clock + 1)
      ensures SameReady(old(storage.t), storage.t)
      ensures Guarding() == if ready then Noted(old(Guarding()), old(storage.t).info[u], u) else old(Guarding())
      ensures Divider in old(blockedResources) ==>
                Divider in blockedResources && blockedResources[Divider] == old(blockedResources)[Divider]
    {
      hide Consistent, Recalled, ReadyCycle, AllSettled, AllAnswered, LatestReady, HeldBack, DispatchCycle, Later;
      hide FencesPending, SameReady, Sound, InPlace, OnList, DispatchAllowed;
      ghost var t0, q, delay := storage.t, Queues([], nonReady), c.issueDispatchDelay;
      RecallsItself(t0, delay);
      FencesThere(t0, place, pendingLoadFenceUops, pendingStoreFenceUops, u);
      RecalledSameReady(t0, t0, delay, u, 0);
      if Held(u, clock) {
        return false;
      }
      var cycle := GetReadyForDispatchCycle(clock, u);
      RecalledSameReady(t0, storage.t, delay, u, if cycle.Some? then cycle.value else 0);
      RecalledFields(t0, storage.t, delay);
      SameQueues(t0, storage.t, q, place, clock + 1, clock + 1, delay);
      RecalledLater(t0, storage.t, delay);
      if cycle == None {
        return false;
      }
      EntersCalendar(storage.t, q, place, clock + 1, clock + 1, delay, i, cycle.value);
      EnteredNow(t0, storage.t, place, u, delay, clock);
      hide Entered;
      storage.t := ReadyFrom(storage.t, u, cycle.value);
      uopsReadyInCycle := uopsReadyInCycle[cycle.value := At(uopsReadyInCycle, cycle.value) + [u]];
      place := place[u := Due(cycle.value)];
      NoteReady(u);
      return true;
    }

    /** A uop that has become ready keeps its instruction busy, and fences have to wait for it. */
    method NoteReady(u: nat)
      requires u in storage.t.info
      modifies `blockedResources, `loadUopsSinceLastLoadFence, `storeUopsSinceLastStoreFence
      ensures var i := storage.t.info[u];
              && blockedResources == (if i.isFirstOfInstr && i.tp.Some?
                                      then old(blockedResources)[Instr(i.instr) := i.tp.value]
                                      else old(blockedResources))
              && loadUopsSinceLastLoadFence == old(loadUopsSinceLastLoadFence) + (if i.isLoad then [u] else [])
              && storeUopsSinceLastStoreFence ==
                 old(storeUopsSinceLastStoreFence) + (if i.isStoreData || i.isStoreAddress then [u] else [])
    {
      var info := storage.t.info[u];
      if info.isFirstOfInstr && info.tp.Some? {
        blockedResources := blockedResources[Instr(info.instr) := info.tp.value];
      }
      if info.isLoad {
        loadUopsSinceLastLoadFence := loadUopsSinceLastLoadFence + [u];
      }
      if info.isStoreData || info.isStoreAddress {
        storeUopsSinceLastStoreFence := storeUopsSinceLastStoreFence + [u];
      }
    }

    /** Looks at the next of the uops that wait for none; `left` are those that still have to be kept. */
    method LookAt(clock: nat, u: nat, ghost left: seq<nat>, ghost k: nat, ghost t0: Table, ghost looked: seq<nat>,
                  ghost readied: set<nat>, ghost g0: Guards) returns (ready: bool)
      requires k < |left| && left[k] == u && Agree([], left, clock + 1, clock + 1) && FencesKnown()
      requires RightSoFar(t0, storage.t, c.issueDispatchDelay, clock) && u !in looked
      requires Sorted(t0, storage.t, looked, readied, clock, g0, Guarding())
      modifies storage, `uopsReadyInCycle, `blockedResources, `loadUopsSinceLastLoadFence,
               `storeUopsSinceLastStoreFence, `place
      ensures Agree([], if ready then left[..k] + left[k + 1..] else left, clock + 1, clock + 1) && FencesKnown()
      ensures RightSoFar(t0, storage.t, c.issueDispatchDelay, clock) && place.Keys == old(place).Keys
      ensures Sorted(t0, storage.t, looked + [u], if ready then readied + {u} else readied, clock, g0, Guarding())
      ensures Divider in old(blockedResources) ==>
                Divider in blockedResources && blockedResources[Divider] == old(blockedResources)[Divider]
    {
      hide Consistent, FencesPending, AllAnswered, Entered, HeldBack, RightSoFar, Recalled, Sorted, SameReady, InPlace;
      ghost var t, p, delay, g := storage.t, place, c.issueDispatchDelay, Guarding();
      NonReadyUop(t, Queues([], left), p, clock + 1, clock + 1, delay, k);
      KnowsInputs(t, u, clock + 1, clock + 1);
      FencesThere(t, place, pendingLoadFenceUops, pendingStoreFenceUops, u);
      ready := CheckUopReady(clock, u, left, k);
      if ready {
        RightEntered(t0, t, storage.t, p, place, u, delay, clock);
        EnteredFields(t, storage.t, p, place, u, delay, clock);
      } else {
        RightRecalled(t0, t, storage.t, delay, clock);
        RecalledFields(t, storage.t, delay);
      }
      SortedFields(t0, t, looked, readied, clock, g0, g);
      HeldSame(t0, t, u, clock, g);
      SortedNext(t0, t, storage.t, looked, readied, u, clock, g0, g, Guarding());
      FencesKept(t, storage.t, p, place, u, delay, clock, pendingLoadFenceUops, pendingStoreFenceUops);
    }

    /** Looks at some uops that wait for none, in order; those that have become ready. */
    method LookAtAll(clock: nat, us: seq<nat>) returns (newReadyUops: set<nat>)
      requires Agree([], us, clock + 1, clock + 1) && FencesKnown() && NoDuplicates(us)
      modifies storage, `uopsReadyInCycle, `blockedResources, `loadUopsSinceLastLoadFence,
               `storeUopsSinceLastStoreFence, `place
      ensures Agree([], Without(us, newReadyUops), clock + 1, clock + 1) && FencesKnown()
      ensures RightSoFar(old(storage.t), storage.t, c.issueDispatchDelay, clock) && place.Keys == old(place).Keys
      ensures Sorted(old(storage.t), storage.t, us, newReadyUops, clock, old(Guarding()), Guarding())
      ensures Divider in old(blockedResources) ==>
                Divider in blockedResources && blockedResources[Divider] == old(blockedResources)[Divider]
    {
      hide Agree, FencesKnown, Without, RightSoFar, Sorted, NoDuplicates;
      ghost var t0, delay, g0 := storage.t, c.issueDispatchDelay, Guarding();
      RightItself(t0, delay, clock);
      SortedNone(t0, clock, g0);
      newReadyUops := {};
      WithoutNone(us);
      WithoutAll(us, newReadyUops);
      assert us[..0] == [] && us[..|us|] == us;
      for i := 0 to |us|
        invariant Agree([], Without(us[..i], newReadyUops) + us[i..], clock + 1, clock + 1) && FencesKnown()
        invariant RightSoFar(t0, storage.t, delay, clock) && place.Keys == old(place).Keys
        invariant Sorted(t0, storage.t, us[..i], newReadyUops, clock, g0, Guarding())
        invariant Divider in old(blockedResources) ==>
                    Divider in blockedResources && blockedResources[Divider] == old(blockedResources)[Divider]
      {
        ghost var left, k := Without(us[..i], newReadyUops) + us[i..], |Without(us[..i], newReadyUops)|;
        SortedSeen(t0, storage.t, us, i, newReadyUops, clock, g0, Guarding());
        WithoutStep(us, i, newReadyUops);
        assert us[..i + 1] == us[..i] + [us[i]];
        var ready := LookAt(clock, us[i], left, k, t0, us[..i], newReadyUops, g0);
        if ready {
          newReadyUops := newReadyUops + {us[i]};
        }
      }
      WithoutAll(us, newReadyUops);
    }

    /** Looks at the uops that wait for none and keeps those that have not become ready. What is kept is held back at the
        end; what has become ready was not held back at first, and it can be dispatched from the right cycle on. */
    method ProcessNonReadyUops(clock: nat) returns (ghost ready: set<nat>)
      requires Agree([], nonReadyUops, clock + 1, clock + 1) && FencesKnown()
      modifies storage, `uopsReadyInCycle, `blockedResources, `loadUopsSinceLastLoadFence,
               `storeUopsSinceLastStoreFence, `place, `nonReadyUops
      ensures Agree([], nonReadyUops, clock + 1, clock + 1) && FencesKnown()
      ensures RightSoFar(old(storage.t), storage.t, c.issueDispatchDelay, clock) && place.Keys == old(place).Keys
      ensures nonReadyUops == Without(old(nonReadyUops), ready)
      ensures Sorted(old(storage.t), storage.t, old(nonReadyUops), ready, clock, old(Guarding()), Guarding())
      ensures Divider in old(blockedResources) ==>
                Divider in blockedResources && blockedResources[Divider] == old(blockedResources)[Divider]
    {
      hide Consistent, FencesPending, Without, RightSoFar, Sorted;
      NonReadyOnce(storage.t, Queues([], nonReadyUops), place, clock + 1, clock + 1, c.issueDispatchDelay);
      var newReadyUops := LookAtAll(clock, nonReadyUops);
      nonReadyUops := Without(nonReadyUops, newReadyUops);
      ready := newReadyUops;
    }

    ghost predicate Books()
      reads `uops, `place, `portUsage, `uopsDispatchedInPrevCycle, storage
    {
      BooksKept(storage.t, uops, place, portUsage, uopsDispatchedInPrevCycle)
    }

    /** Binds a new uop to a port; it is to be checked next. */
    method BindUop(u: nat, port: string, ghost next: nat)
      requires Agree([], nonReadyUops, next, next) && Books() && port in portUsage
      requires var t := storage.t;
               && u in t.info && u in t.issued && PortBound(t.info[u]) && port in t.info[u].possiblePorts
               && u !in t.actualPort && u !in t.executed && LinkedUop(t, u)
      modifies storage, `portUsage, `uops, `place
      ensures Agree([u], nonReadyUops, next, next) && Books() && Later(old(storage.t), storage.t)
      ensures storage.t == Bound(old(storage.t), u, port) && place == old(place)[u := Checking]
      ensures uops == old(uops) + {u} && portUsage == old(portUsage)[port := old(portUsage)[port] + 1]
    {
      hide Consistent, LinkedUop, BooksKept, Later;
      EntersScheduler(storage.t, Queues([], nonReadyUops), place, next, next, c.issueDispatchDelay, u, port);
      BooksBound(storage.t, uops, place, portUsage, uopsDispatchedInPrevCycle, u, port);
      storage.t := Bound(storage.t, u, port);
      portUsage := portUsage[port := portUsage[port] + 1];
      uops := uops + {u};
      place := place[u := Checking];
    }

    /** A fence joins the pending ones. */
    method NoteFence(u: nat)
      requires u in storage.t.info
      modifies `pendingLoadFenceUops, `pendingStoreFenceUops
      ensures var i := storage.t.info[u];
              && pendingLoadFenceUops ==
                 old(pendingLoadFenceUops) + (if i.isFirstOfInstr && i.isLoadSerializing then [u] else [])
              && pendingStoreFenceUops ==
                 old(pendingStoreFenceUops) + (if i.isFirstOfInstr && i.isStoreSerializing then [u] else [])
    {
      var info := storage.t.info[u];
      if info.isFirstOfInstr {
        if info.isStoreSerializing {
          pendingStoreFenceUops := pendingStoreFenceUops + [u];
        }
        if info.isLoadSerializing {
          pendingLoadFenceUops := pendingLoadFenceUops + [u];
        }
      }
    }

    /** Binds a new uop to a port and puts it where it belongs. */
    method AddUop(u: nat, port: string, ghost next: nat)
      requires Agree([], nonReadyUops, next, next) && FencesKnown() && Books() && port in portUsage
      requires var t := storage.t;
               && u in t.info && u in t.issued && PortBound(t.info[u]) && port in t.info[u].possiblePorts
               && u !in t.actualPort && u !in t.executed && LinkedUop(t, u)
      modifies storage, `portUsage, `uops, `dependentUops, `nonReadyUops, `pendingLoadFenceUops,
               `pendingStoreFenceUops, `place
      ensures Agree([], nonReadyUops, next, next) && FencesKnown() && Books()
      ensures OnlyBound(old(storage.t), storage.t) && storage.t.actualPort == old(storage.t.actualPort)[u := port]
      ensures uops == old(uops) + {u} && portUsage == old(portUsage)[port := old(portUsage)[port] + 1]
      ensures pendingLoadFenceUops == old(pendingLoadFenceUops) + LoadFence(old(storage.t), u)
      ensures pendingStoreFenceUops == old(pendingStoreFenceUops) + StoreFence(old(storage.t), u)
    {
      hide Consistent, LinkedUop, Recalled, ReadyCycle, AllAnswered, BooksKept, OnlyBound, FencesPending, Later;
      ghost var t0, place0, delay := storage.t, place, c.issueDispatchDelay;
      BindUop(u, port, next);
      ghost var t1, place1 := storage.t, place;
      CheckDependingUopsExecuted(u, [u], next, next);
      assert [u][1..] == [];
      BoundAndRecalled(t0, u, port, storage.t, delay);
      RecalledFields(t1, storage.t, delay);
      SameBooks(t1, storage.t, uops, place1, place, portUsage, uopsDispatchedInPrevCycle);
      FenceJoins(t0, storage.t, place0, place, u, pendingLoadFenceUops, pendingStoreFenceUops);
      NoteFence(u);
    }

    /** Takes over one new uop. A uop without a port, or whose move has been eliminated, is not scheduled. */
    method AddNewUop(u: nat, choice: map<nat, string>, ghost next: nat, ghost later: seq<nat>, ghost t0: Table,
                     ghost done: seq<nat>, ghost g0: Guards)
      requires Agree([], nonReadyUops, next, next) && FencesKnown() && Books()
      requires Guarding() == WithFences(g0, t0, done)
      requires JustIssued(storage.t, [u] + later)
      requires Supplied(storage.t.info, storage.t.actualPort.Keys, [u] + later, choice, portUsage.Keys)
      requires OnlyBound(t0, storage.t) && BoundAsChosen(t0, storage.t, done, choice)
      modifies storage, `portUsage, `uops, `dependentUops, `nonReadyUops, `pendingLoadFenceUops,
               `pendingStoreFenceUops, `place
      ensures Agree([], nonReadyUops, next, next) && FencesKnown() && Books()
      ensures JustIssued(storage.t, later)
      ensures Supplied(storage.t.info, storage.t.actualPort.Keys, later, choice, portUsage.Keys)
      ensures OnlyBound(t0, storage.t) && BoundAsChosen(t0, storage.t, done + [u], choice)
      ensures Guarding() == WithFences(g0, t0, done + [u])
      ensures portUsage.Keys == old(portUsage).Keys
    {
      hide Consistent, LinkedTo, BooksKept, OnlyBound, FencesPending, JustIssued, Unfused, BoundAsChosen, WithFences;
      ghost var t := storage.t;
      BoundFields(t0, t);
      WithFencesNext(g0, t0, done, u, Guarding());
      ghost var known := t.actualPort.Keys;
      assert ([u] + later)[1..] == later;
      NextIssued(t, [u] + later);
      assert Supplied(t.info, if PortBound(t.info[u]) then known + {u} else known, later, choice, portUsage.Keys);
      hide Supplied;
      if PortBound(storage.t.info[u]) {
        AddUop(u, choice[u], next);
        BoundFields(t, storage.t);
        BoundTrans(t0, t, storage.t);
        StillIssued(t, storage.t, later);
        assert storage.t.actualPort.Keys == known + {u} && portUsage.Keys == old(portUsage).Keys;
      }
      BoundOneMore(t0, t, storage.t, done, choice, u);
    }

    /** Takes over the new uops in order. */
    method AddNewUops(newUops: seq<FusedUop>, choice: map<nat, string>, ghost next: nat)
      requires Agree([], nonReadyUops, next, next) && FencesKnown() && Books()
      requires JustIssued(storage.t, Unfused(newUops))
      requires Supplied(storage.t.info, storage.t.actualPort.Keys, Unfused(newUops), choice, portUsage.Keys)
      modifies storage, `portUsage, `uops, `dependentUops, `nonReadyUops, `pendingLoadFenceUops,
               `pendingStoreFenceUops, `place
      ensures Agree([], nonReadyUops, next, next) && FencesKnown() && Books()
      ensures OnlyBound(old(storage.t), storage.t) && portUsage.Keys == old(portUsage).Keys
      ensures BoundAsChosen(old(storage.t), storage.t, Unfused(newUops), choice)
      ensures Guarding() == WithFences(old(Guarding()), old(storage.t), Unfused(newUops))
    {
      hide WithFences, Consistent, Supplied, BooksKept, OnlyBound, FencesPending, JustIssued, Unfused, BoundAsChosen;
      ghost var t0 := storage.t;
      ghost var done: seq<nat> := [];
      NoneBound(t0);
      NoneChosen(t0, newUops, choice);
      WithNoFences(Guarding(), t0);
      for f := 0 to |newUops|
        invariant Agree([], nonReadyUops, next, next) && FencesKnown() && Books()
        invariant OnlyBound(t0, storage.t) && portUsage.Keys == old(portUsage).Keys
        invariant JustIssued(storage.t, Unfused(newUops[f..]))
        invariant Supplied(storage.t.info, storage.t.actualPort.Keys, Unfused(newUops[f..]), choice, portUsage.Keys)
        invariant BoundAsChosen(t0, storage.t, done, choice) && done + Unfused(newUops[f..]) == Unfused(newUops)
        invariant Guarding() == WithFences(old(Guarding()), t0, done)
      {
        var us := newUops[f].uops;
        ghost var later := Unfused(newUops[f + 1..]);
        NextFused(newUops, f);
        for i := 0 to |us|
          invariant Agree([], nonReadyUops, next, next) && FencesKnown() && Books()
          invariant OnlyBound(t0, storage.t) && portUsage.Keys == old(portUsage).Keys
          invariant JustIssued(storage.t, us[i..] + later)
          invariant Supplied(storage.t.info, storage.t.actualPort.Keys, us[i..] + later, choice, portUsage.Keys)
          invariant BoundAsChosen(t0, storage.t, done, choice) && done + (us[i..] + later) == Unfused(newUops)
          invariant Guarding() == WithFences(old(Guarding()), t0, done)
        {
          assert us[i..] + later == [us[i]] + (us[i + 1..] + later);
          AddNewUop(us[i], choice, next, us[i + 1..] + later, t0, done, old(Guarding()));
          done := done + [us[i]];
        }
        assert us[|us|..] + later == later;
      }
      AllChosen(newUops, done);
    }

    /** Moves a uop that is due, the first of those not moved, to the queue of its port. */
    method ReleaseOne(u: nat, clock: nat, ghost due: seq<nat>)
      requires due != [] && due[0] == u && clock in uopsReadyInCycle && readyQueue.Keys == portUsage.Keys && Books()
      requires Consistent(storage.t, DueInstead(Queues([], nonReadyUops), clock, due), place, clock + 1, clock,
                          c.issueDispatchDelay)
      modifies `readyQueue, `readyDivUops, `place
      ensures Consistent(storage.t, DueInstead(Queues([], nonReadyUops), clock, due[1..]), place, clock + 1, clock,
                         c.issueDispatchDelay)
      ensures readyQueue.Keys == old(readyQueue).Keys && place.Keys == old(place).Keys && Books()
      ensures u in storage.t.actualPort && storage.t.actualPort[u] in readyQueue
      ensures if DivCycles(storage.t, u) > 0 then readyDivUops == old(readyDivUops) + {u} && readyQueue == old(readyQueue)
              else var port := storage.t.actualPort[u];
                && readyQueue == old(readyQueue)[port := old(readyQueue)[port] + {u}]
                && readyDivUops == old(readyDivUops)
    {
      hide Consistent, BooksKept;
      ghost var t, delay, place0 := storage.t, c.issueDispatchDelay, place;
      ghost var q := DueInstead(Queues([], nonReadyUops), clock, due);
      PortsHaveQueues(t, uops, place, portUsage, uopsDispatchedInPrevCycle);
      BecomesReady(t, q, place, clock + 1, clock, delay, clock);
      KeyOf(t, q, place, clock + 1, clock, delay, clock);
      assert q.calendar[clock := due[1..]] == uopsReadyInCycle[clock := due[1..]];
      if storage.t.info[u].divCycles > 0 {
        readyDivUops := readyDivUops + {u};
        place := place[u := ReadyDiv];
      } else {
        var port := storage.t.actualPort[u];
        readyQueue := readyQueue[port := readyQueue[port] + {u}];
        place := place[u := Ready(port)];
      }
      SameBooks(t, t, uops, place0, place, portUsage, uopsDispatchedInPrevCycle);
    }

    method ReleaseAll(due: seq<nat>, clock: nat)
      requires clock in uopsReadyInCycle && readyQueue.Keys == portUsage.Keys && Books()
      requires Consistent(storage.t, DueInstead(Queues([], nonReadyUops), clock, due), place, clock + 1, clock,
                          c.issueDispatchDelay)
      modifies `readyQueue, `readyDivUops, `place
      ensures Consistent(storage.t, DueInstead(Queues([], nonReadyUops), clock, []), place, clock + 1, clock,
                         c.issueDispatchDelay)
      ensures readyQueue.Keys == old(readyQueue).Keys && place.Keys == old(place).Keys && Books()
      ensures Released(storage.t, due, old(readyQueue), old(readyDivUops), readyQueue, readyDivUops)
    {
      hide Consistent, BooksKept, Released, DueInstead, DivCycles;
      ghost var t, delay := storage.t, c.issueDispatchDelay;
      ReleasedNone(t, readyQueue, readyDivUops);
      assert due[0..] == due && due[..|due|] == due;
      for i := 0 to |due|
        invariant readyQueue.Keys == portUsage.Keys && place.Keys == old(place).Keys && Books()
        invariant Consistent(t, DueInstead(Queues([], nonReadyUops), clock, due[i..]), place, clock + 1, clock, delay)
        invariant Released(t, due[..i], old(readyQueue), old(readyDivUops), readyQueue, readyDivUops)
      {
        ghost var ready, div := readyQueue, readyDivUops;
        assert due[i..][1..] == due[i + 1..];
        ReleaseOne(due[i], clock, due[i..]);
        ReleasedOneMore(t, due[..i], old(readyQueue), old(readyDivUops), ready, div, due[i]);
        assert due[..i + 1] == due[..i] + [due[i]];
      }
      assert due[|due|..] == [];
    }

    /** Moves the uops that are due in this cycle to the queues of their ports. */
    method ReleaseDue(clock: nat)
      requires Agree([], nonReadyUops, clock, clock) && FencesKnown() && Books() && readyQueue.Keys == portUsage.Keys
      modifies `readyQueue, `readyDivUops, `uopsReadyInCycle, `place
      ensures Agree([], nonReadyUops, clock + 1, clock + 1) && FencesKnown() && Books()
      ensures readyQueue.Keys == portUsage.Keys && uopsReadyInCycle == old(uopsReadyInCycle) - {clock}
      ensures Released(storage.t, At(old(uopsReadyInCycle), clock), old(readyQueue), old(readyDivUops), readyQueue,
                       readyDivUops)
    {
      hide Consistent, BooksKept, FencesPending, Released, DueInstead;
      ghost var t, q0, delay, place0 := storage.t, Queues([], nonReadyUops), c.issueDispatchDelay, place;
      if clock in uopsReadyInCycle {
        var due := uopsReadyInCycle[clock];
        StartOfCycle(t, q0, place, clock, delay);
        ReleaseAll(due, clock);
        CycleTakenOff(t, Queues([], nonReadyUops), place, clock, delay);
        uopsReadyInCycle := uopsReadyInCycle - {clock};
      } else {
        ReleasedNone(t, readyQueue, readyDivUops);
        NothingDueAtAll(t, q0, place, clock, delay);
        assert uopsReadyInCycle == uopsReadyInCycle - {clock};
      }
      SameFences(t, t, place0, place, pendingLoadFenceUops, pendingStoreFenceUops);
    }

    ghost predicate OpenedBooks(now: seq<nat>)
      reads `uops, `place, `portUsage, `uopsDispatchedInPrevCycle, storage
    {
      BooksOpen(storage.t, uops, place, portUsage, now, uopsDispatchedInPrevCycle)
    }

    /** What is pending, and the use of the divider up to the cycle `clock`. */
    ghost predicate Busy(clock: nat)
      reads `pendingUops, `blockedResources, storage
    {
      && PendingExact(storage.t, pendingUops)
      && Divider in blockedResources && DivisionsApart(storage.t)
      && DividerFree(storage.t, clock + blockedResources[Divider])
    }

    /** Dispatches the uop that a port chooses. */
    method DispatchFrom(port: string, clock: nat, ghost now: seq<nat>) returns (dispatched: Option<nat>)
      requires port in readyQueue && Agree([], nonReadyUops, clock + 1, clock + 1) && OpenedBooks(now) && Busy(clock)
      modifies storage, `uops, `pendingUops, `readyQueue, `readyDivUops, `blockedResources, `place
      ensures Agree([], nonReadyUops, clock + 1, clock + 1) && Busy(clock) && readyQueue.Keys == old(readyQueue).Keys
      ensures dispatched == ChoiceOf(old(readyQueue), old(readyDivUops), old(blockedResources), port)
      ensures OthersKept(port, old(readyQueue), old(readyDivUops), old(blockedResources), readyQueue, readyDivUops,
                         blockedResources)
      ensures match dispatched
              case None =>
                && OpenedBooks(now) && storage.t == old(storage.t) && place == old(place)
                && blockedResources == old(blockedResources)
              case Some(u) =>
                && OpenedBooks(now + [u]) && u in old(place) && place == old(place) - {u} && u !in old(storage.t.dispatched)
                && storage.t == Dispatched(old(storage.t), u, clock) && Later(old(storage.t), storage.t)
                && blockedResources == Occupied(old(storage.t), c.slow256BitMemAcc, old(blockedResources), u)
    {
      hide Consistent, BooksOpen, DividerFree, DivisionsApart, IsLeast, Later, OthersKept, ReadyChanged;
      NothingChanged(port, readyQueue, readyDivUops, blockedResources);
      var fromDivider := TakesDivision(readyQueue, readyDivUops, blockedResources, port);
      if PortBlocked(blockedResources, port) || (!fromDivider && readyQueue[port] == {}) {
        return None;
      }
      var source := if fromDivider then FromDivider else FromPort(port);
      var u := Least(if fromDivider then readyDivUops else readyQueue[port]);
      ghost var t, q := storage.t, Queues([], nonReadyUops);
      assert InSource(q, source, u) by {
        LeastIn(if fromDivider then readyDivUops else readyQueue[port]);
      }
      SourceMeans(t, q, place, clock + 1, clock + 1, c.issueDispatchDelay, source, u);
      Dispatches(t, q, place, clock, c.issueDispatchDelay, source, u);
      UopCounted(t, uops, place, portUsage, now, uopsDispatchedInPrevCycle, u);
      BooksDispatched(t, uops, place, portUsage, now, uopsDispatchedInPrevCycle, u, clock);
      DividerTaken(t, clock + blockedResources[Divider], u, clock);
      Dispatch(u, source, port, clock);
      ChangedOnly(port, q, Queues([], nonReadyUops), old(blockedResources), blockedResources, source, u,
                  DivCycles(storage.t, u));
      return Some(u);
    }

    /** Takes a uop from its queue and makes it pending. */
    method Dispatch(u: nat, source: Source, port: string, clock: nat)
      requires u in storage.t.info && InSource(Queues([], []), source, u) && Divider in blockedResources
      requires PendingExact(storage.t, pendingUops) && u !in storage.t.executed
      modifies storage, `uops, `pendingUops, `readyQueue, `readyDivUops, `blockedResources, `place
      ensures storage.t == Dispatched(old(storage.t), u, clock) && place == old(place) - {u} && uops == old(uops) - {u}
      ensures PendingExact(storage.t, pendingUops)
      ensures Queues([], nonReadyUops) == TakenFrom(old(Queues([], nonReadyUops)), source, u)
      ensures Divider in blockedResources &&
              blockedResources[Divider] == old(blockedResources)[Divider] + DivCycles(storage.t, u)
      ensures ReadyChanged(port, old(blockedResources), blockedResources, DivCycles(storage.t, u))
      ensures blockedResources ==
              var b := old(blockedResources)[Divider := old(blockedResources)[Divider] + DivCycles(storage.t, u)];
              if c.slow256BitMemAcc && port == "4" && storage.t.info[u].isM256 then b[StorePort(port) := 2] else b
    {
      hide IsLeast, PendingExact;
      OneMorePending(storage.t, pendingUops, u, clock);
      var info := storage.t.info[u];
      match source {
        case FromDivider => {
          readyDivUops := readyDivUops - {u};
        }
        case FromPort(p) => {
          readyQueue := readyQueue[p := readyQueue[p] - {u}];
        }
      }
      storage.t := Dispatched(storage.t, u, clock);
      uops := uops - {u};
      pendingUops := pendingUops + {u};
      place := place - {u};
      Occupy(info, port);
    }

    /** The divider is busy for the cycles of a division, and port 4 for a cycle more with slow 256-bit accesses. */
    method Occupy(info: Info, port: string)
      requires Divider in blockedResources
      modifies `blockedResources
      ensures blockedResources ==
              var b := old(blockedResources)[Divider := old(blockedResources)[Divider] + info.divCycles];
              if c.slow256BitMemAcc && port == "4" && info.isM256 then b[StorePort(port) := 2] else b
    {
      blockedResources := blockedResources[Divider := blockedResources[Divider] + info.divCycles];
      if c.slow256BitMemAcc && port == "4" && info.isM256 {
        blockedResources := blockedResources[StorePort(port) := 2];
      }
    }

    ghost predicate PortsServed()
      reads `readyQueue, `portUsage
    {
      readyQueue.Keys == portUsage.Keys && Distinct(c.ports) && forall p :: p in c.ports ==> p in readyQueue
    }

    /** The ports that dispatch nothing. */
    function Out(): set<string>
      reads `readyQueue, storage
    {
      PortsOut(storage.t, c.ports, c.slow256BitMemAcc, readyQueue)
    }

    /** Dispatches one uop from each port that has one to dispatch. */
    method DispatchUops(clock: nat)
      requires Agree([], nonReadyUops, clock + 1, clock + 1) && FencesKnown() && Books() && Busy(clock) && PortsServed()
      modifies storage, `uops, `pendingUops, `readyQueue, `readyDivUops, `blockedResources, `place, `portUsage,
               `uopsDispatchedInPrevCycle
      ensures Agree([], nonReadyUops, clock + 1, clock + 1) && FencesKnown() && Books() && Busy(clock) && PortsServed()
      ensures OnlyDispatched(old(storage.t), storage.t, clock) && portUsage.Keys == old(portUsage).Keys
      ensures uopsDispatchedInPrevCycle ==
              Chosen(c.ports, old(Out()), old(readyQueue), old(readyDivUops), old(blockedResources))
      ensures DispatchedThese(old(storage.t), storage.t, uopsDispatchedInPrevCycle, clock)
      ensures blockedResources ==
              OccupiedAll(old(storage.t), c.slow256BitMemAcc, old(blockedResources), uopsDispatchedInPrevCycle)
    {
      hide Agree, BooksKept, BooksOpen, FencesPending, IsLeast, OnlyDispatched, Later, StillChoose, ChoiceOf;
      hide OccupiedAll, Occupied, Busy;
      hide DividerFree, DivisionsApart, PendingExact, Dispatched, PortsOut, OthersKept, Chosen, DispatchedThese, Distinct;
      ghost var t0, place0, ready0, div0, blocked0 := storage.t, place, readyQueue, readyDivUops, blockedResources;
      var out := Out();
      var uopsDispatched := [];
      OpenBooks(t0, uops, place, portUsage, uopsDispatchedInPrevCycle);
      NoneDispatched(t0, clock);
      NothingChosen(c.ports, out, ready0, div0, blocked0, t0, clock);
      NoneOccupied(t0, c.slow256BitMemAcc, blocked0);
      for k := 0 to |c.ports|
        invariant Agree([], nonReadyUops, clock + 1, clock + 1) && OpenedBooks(uopsDispatched) && Busy(clock)
        invariant PortsServed() && OnlyDispatched(t0, storage.t, clock) && place.Keys <= place0.Keys
        invariant portUsage.Keys == old(portUsage).Keys
        invariant StillChoose(c.ports, k, ready0, div0, blocked0, readyQueue, readyDivUops, blockedResources)
        invariant uopsDispatched == Chosen(c.ports[..k], out, ready0, div0, blocked0)
        invariant DispatchedThese(t0, storage.t, uopsDispatched, clock)
        invariant blockedResources == OccupiedAll(t0, c.slow256BitMemAcc, blocked0, uopsDispatched)
      {
        var port := c.ports[k];
        ghost var t, ready, div, blocked := storage.t, readyQueue, readyDivUops, blockedResources;
        ChosenNext(c.ports, k, out, ready0, div0, blocked0);
        ChoosesNow(c.ports, k, ready0, div0, blocked0, ready, div, blocked);
        if port !in out {
          var dispatched := DispatchFrom(port, clock, uopsDispatched);
          if dispatched.Some? {
            DispatchedMore(t0, t, uopsDispatched, dispatched.value, clock);
            DispatchedFields(t0, t, clock);
            OccupiedMore(t0, t, c.slow256BitMemAcc, blocked0, uopsDispatched, dispatched.value);
            uopsDispatched := uopsDispatched + [dispatched.value];
            OneMoreDispatched(t0, t, dispatched.value, clock);
          }
        } else {
          NothingChanged(port, ready, div, blocked);
        }
        StillChooseNext(c.ports, k, ready0, div0, blocked0, ready, div, blocked, readyQueue, readyDivUops,
                        blockedResources);
      }
      assert c.ports[..|c.ports|] == c.ports;
      ReleasePorts(uopsDispatched);
      DispatchedSame(t0, storage.t, clock);
      SameFences(t0, storage.t, place0, place, pendingLoadFenceUops, pendingStoreFenceUops);
    }

    /** The uops dispatched in the previous cycle are no longer counted for their ports. */
    method ReleasePorts(uopsDispatched: seq<nat>)
      requires OpenedBooks(uopsDispatched)
      modifies `portUsage, `uopsDispatchedInPrevCycle
      ensures Books() && portUsage.Keys == old(portUsage).Keys && uopsDispatchedInPrevCycle == uopsDispatched
    {
      hide BooksKept, BooksOpen;
      var us := uopsDispatchedInPrevCycle;
      for i := 0 to |us|
        invariant BooksOpen(storage.t, uops, place, portUsage, uopsDispatched, us[i..])
        invariant portUsage.Keys == old(portUsage).Keys
      {
        BooksReleased(storage.t, uops, place, portUsage, uopsDispatched, us[i..]);
        var port := storage.t.actualPort[us[i]];
        portUsage := portUsage[port := portUsage[port] - 1];
      }
      CloseBooks(storage.t, uops, place, portUsage, uopsDispatched);
      uopsDispatchedInPrevCycle := uopsDispatched;
    }

    /** The cycle in which a uop has finished, if it is known when all its outputs are ready. */
    method FinishTime(u: nat) returns (finish: Option<int>)
      requires u in storage.t.info && u in storage.t.dispatched
      modifies storage
      ensures Recalled(old(storage.t), storage.t, c.issueDispatchDelay)
      ensures finish == None <==> !AllAnswered(old(storage.t), old(storage.t).info[u].outputs)
      ensures finish.Some? ==>
                && finish.value == Max(EarliestFinish(old(storage.t).info[u], old(storage.t).dispatched[u]),
                                       LatestReady(old(storage.t), old(storage.t).info[u].outputs))
                && AllSettled(storage.t, old(storage.t).info[u].outputs, finish.value)
    {
      hide Recalled, ReadyCycle, AllSettled, AllAnswered, LatestReady;
      var info, dispatched := storage.t.info[u], storage.t.dispatched[u];
      var finishTime: int := dispatched + 2;
      if info.isFirstOfInstr && info.tp.Some? {
        finishTime := Max(finishTime, dispatched + info.tp.value);
      }
      var written := LatestReadyCycle(info.outputs);
      if written == None {
        return None;
      }
      SettledFrom(storage.t, info.outputs, written.value, Max(finishTime, written.value));
      return Some(Max(finishTime, written.value));
    }

    /** An executed store makes the address or the data of its store buffer entry ready. */
    method UpdateStoreBuffer(u: nat, finish0: int) returns (finish: int)
      requires u in storage.t.info && u in storage.t.dispatched
      requires var i := storage.t.info[u]; i.isStoreAddress || i.isStoreData ==> i.entry.Some?
      modifies storage
      ensures OnlyStored(old(storage.t), storage.t)
      ensures var i, d := storage.t.info[u], storage.t.dispatched[u];
              && finish == Max(finish0, Max(if i.isStoreAddress then d + 5 else finish0,
                                            if i.isStoreData then d + 1 else finish0))
              && (i.isStoreAddress ==> storage.t.addressReady == old(storage.t.addressReady)[i.entry.value.id := d + 5])
              && (i.isStoreData ==> storage.t.dataReady == old(storage.t.dataReady)[i.entry.value.id := d + 1])
    {
      finish := finish0;
      var info, dispatched := storage.t.info[u], storage.t.dispatched[u];
      if info.isStoreAddress {
        storage.t := AddressReady(storage.t, info.entry.value.id, dispatched + 5);
        finish := Max(finish, dispatched + 5);
      }
      if info.isStoreData {
        storage.t := DataReady(storage.t, info.entry.value.id, dispatched + 1);
        finish := Max(finish, dispatched + 1);
      }
    }

    /** Checks again the uops that wait for a uop whose outputs have become known. */
    method WakeDependents(w: nat, ghost next: nat, ghost cycle: int)
      requires Agree([], nonReadyUops, next, next) && w in storage.t.info
      requires AllSettled(storage.t, storage.t.info[w].outputs, cycle)
      modifies storage, `dependentUops, `nonReadyUops, `place
      ensures Agree([], nonReadyUops, next, next) && w !in dependentUops && place.Keys == old(place).Keys
      ensures Recalled(old(storage.t), storage.t, c.issueDispatchDelay)
      ensures w in storage.t.info && AllSettled(storage.t, storage.t.info[w].outputs, cycle)
    {
      hide Consistent, Recalled, ReadyCycle, AllSettled, AllAnswered, Answered, Woken;
      ghost var t0, delay, place0 := storage.t, c.issueDispatchDelay, place;
      Wakes(t0, Queues([], nonReadyUops), place, next, next, delay, w);
      RecallsItself(t0, delay);
      var deps := At(dependentUops, w);
      dependentUops := dependentUops - {w};
      place := Woken(place, w);
      for i := 0 to |deps|
        invariant Agree(deps[i..], nonReadyUops, next, next) && w !in dependentUops && place.Keys == place0.Keys
        invariant Recalled(t0, storage.t, delay)
        invariant w in storage.t.info && AllSettled(storage.t, storage.t.info[w].outputs, cycle)
      {
        var u := deps[i];
        ghost var t := storage.t;
        CheckDependingUopsExecuted(u, deps[i..], next, next);
        assert deps[i..][1..] == deps[i + 1..];
        RecallsTrans(t0, t, storage.t, delay);
        RecalledFields(t, storage.t, delay);
        SettledStays(t, storage.t, delay, storage.t.info[w].outputs, cycle);
        NoNewWaiters(storage.t, Queues(deps[i + 1..], nonReadyUops), place, next, next, delay, w, u, cycle);
      }
    }

    /** Finishes a pending uop if all its outputs are known: its waiters are checked again. */
    method ProcessPendingUop(u: nat, ghost next: nat) returns (finished: bool)
      requires Agree([], nonReadyUops, next, next) && PendingExact(storage.t, pendingUops) && u in pendingUops
      modifies storage, `dependentUops, `nonReadyUops, `pendingUops, `place
      ensures Agree([], nonReadyUops, next, next) && PendingExact(storage.t, pendingUops)
      ensures OnlyExecuted(old(storage.t), storage.t) && place.Keys == old(place).Keys
      ensures u in old(storage.t).info && (finished <==> AllAnswered(old(storage.t), old(storage.t).info[u].outputs))
      ensures pendingUops == (if finished then old(pendingUops) - {u} else old(pendingUops))
      ensures finished ==> u !in dependentUops && FinishedIn(storage.t, u)
      ensures storage.t.executed == if finished then old(storage.t.executed)[u := Finishes(old(storage.t), u)]
                                    else old(storage.t.executed)
    {
      hide Consistent, Recalled, ReadyCycle, AllSettled, AllAnswered, LatestReady, PendingExact, OnlyExecuted, Later;
      hide Max, EarliestFinish;
      ghost var t0, delay := storage.t, c.issueDispatchDelay;
      PendingUop(t0, Queues([], nonReadyUops), place, next, next, delay, pendingUops, u);
      var finish := FinishTime(u);
      ghost var t1 := storage.t;
      RecalledFields(t0, t1, delay);
      SameQueues(t0, t1, Queues([], nonReadyUops), place, next, next, delay);
      if finish == None {
        RecalledIsExecuted(t0, t1, delay);
        SamePending(t0, t1, pendingUops);
        return false;
      }
      EarliestIsLate(t0.info[u], t0.dispatched[u]);
      var finishTime := UpdateStoreBuffer(u, finish.value);
      ghost var t2 := storage.t;
      Stores(t1, t2, Queues([], nonReadyUops), place, next, next, delay);
      StoredAfterRecall(t0, t1, t2, delay);
      SettledInStore(t1, t2, t1.info[u].outputs, finish.value, finishTime);
      FinishesThen(t0, u, finish.value);
      WakeDependents(u, next, finishTime);
      Finish(u, next, finishTime, t0, t2);
      StoringLater(t1, t2, storage.t);
      StoredLater(t2, storage.t, u);
      FinishedNow(t0, t1, storage.t, delay, u, finish.value);
      return true;
    }

    method Finish(u: nat, ghost next: nat, finishTime: int, ghost t0: Table, ghost t2: Table)
      requires Agree([], nonReadyUops, next, next) && u !in dependentUops && PendingExact(t0, pendingUops)
      requires OnlyExecuted(t0, t2) && Recalled(t2, storage.t, c.issueDispatchDelay)
      requires t2.executed == t0.executed && u in t0.dispatched && u !in t0.executed
      requires u in storage.t.info && AllSettled(storage.t, storage.t.info[u].outputs, finishTime)
      requires t0.dispatched[u] + 2 <= finishTime
      modifies storage, `pendingUops
      ensures Agree([], nonReadyUops, next, next) && PendingExact(storage.t, pendingUops)
      ensures OnlyExecuted(t0, storage.t) && storage.t.executed == t0.executed[u := finishTime]
      ensures pendingUops == old(pendingUops) - {u}
      ensures Later(t2, storage.t) && AllSettled(storage.t, storage.t.info[u].outputs, finishTime)
    {
      hide Consistent, Recalled, AllSettled, PendingExact, OnlyExecuted, Later;
      ghost var t, delay := storage.t, c.issueDispatchDelay;
      RecalledFields(t2, t, delay);
      ExecutedSame(t0, t2);
      SamePending(t0, t, pendingUops);
      Executes(t, Queues([], nonReadyUops), place, next, next, delay, u, finishTime);
      ExecutedOnly(t0, t2, t, u, finishTime, delay);
      PendingExecuted(t, pendingUops, u, finishTime);
      ExecutingKeeps(t2, t, delay, u, finishTime, t.info[u].outputs);
      pendingUops := pendingUops - {u};
      storage.t := Executed(storage.t, u, finishTime);
    }

    /** Looks at a pending uop; `left` are those whose outputs turned out not to be known. */
    method ProcessNext(u: nat, ghost next: nat, ghost t0: Table, ghost left: set<nat>) returns (ghost left': set<nat>)
      requires Agree([], nonReadyUops, next, next) && PendingExact(storage.t, pendingUops) && u in pendingUops
      requires OnlyExecuted(t0, storage.t) && AllUnknown(t0, left) && FinishedRight(t0, storage.t)
      modifies storage, `dependentUops, `nonReadyUops, `pendingUops, `place
      ensures Agree([], nonReadyUops, next, next) && PendingExact(storage.t, pendingUops)
      ensures OnlyExecuted(t0, storage.t) && AllUnknown(t0, left') && place.Keys == old(place).Keys
      ensures FinishedRight(t0, storage.t)
      ensures (left' == left + {u} && pendingUops == old(pendingUops)) ||
              (left' == left && pendingUops == old(pendingUops) - {u})
    {
      hide Consistent, PendingExact, AllAnswered, AllUnknown, Finishes, FinishedRight, FinishedIn, Later;
      ghost var t := storage.t;
      left' := left;
      var finished := ProcessPendingUop(u, next);
      if !finished {
        UnknownBefore(t0, t, left, u);
        left' := left + {u};
      }
      ExecutedTrans(t0, t, storage.t);
      OneMoreFinished(t0, t, storage.t, u);
    }

    /** Finishes the pending uops whose outputs are known, in any order; no uop whose outputs were known at first is
        left. */
    method ProcessPendingUops(ghost next: nat)
      requires Agree([], nonReadyUops, next, next) && PendingExact(storage.t, pendingUops)
      modifies storage, `dependentUops, `nonReadyUops, `pendingUops, `place
      ensures Agree([], nonReadyUops, next, next) && PendingExact(storage.t, pendingUops)
      ensures OnlyExecuted(old(storage.t), storage.t) && place.Keys == old(place).Keys
      ensures pendingUops <= old(pendingUops) && AllUnknown(old(storage.t), pendingUops)
      ensures FinishedRight(old(storage.t), storage.t)
    {
      hide Agree, PendingExact, OnlyExecuted, AllUnknown, FinishedRight;
      ghost var t0, pending0, places := storage.t, pendingUops, place.Keys;
      NoneFinished(t0);
      NoneExecuted(t0);
      NoneUnknown(t0);
      var todo := pendingUops;
      ghost var left: set<nat> := {};
      while todo != {}
        invariant Agree([], nonReadyUops, next, next) && PendingExact(storage.t, pendingUops)
        invariant OnlyExecuted(t0, storage.t) && place.Keys == places
        invariant pendingUops == todo + left && todo !! left && pendingUops <= pending0
        invariant AllUnknown(t0, left) && FinishedRight(t0, storage.t)
        decreases |todo|
      {
        var u :| u in todo;
        left := ProcessNext(u, next, t0, left);
        todo := todo - {u};
      }
      assert pendingUops == left;
    }

    /** A fence that has been executed no longer holds other uops back. */
    method ProcessPendingFences(clock: nat, ghost next: nat)
      requires Agree([], nonReadyUops, next, next) && FencesKnown()
      modifies `pendingLoadFenceUops, `pendingStoreFenceUops, `loadUopsSinceLastLoadFence,
               `storeUopsSinceLastStoreFence
      ensures FencesKnown()
      ensures var pass := old(pendingLoadFenceUops != [] && ExecutedBy(storage.t, [pendingLoadFenceUops[0]], clock));
              && pendingLoadFenceUops == (if pass then old(pendingLoadFenceUops)[1..] else old(pendingLoadFenceUops))
              && loadUopsSinceLastLoadFence == (if pass then [] else old(loadUopsSinceLastLoadFence))
      ensures var pass := old(pendingStoreFenceUops != [] && ExecutedBy(storage.t, [pendingStoreFenceUops[0]], clock));
              && pendingStoreFenceUops == (if pass then old(pendingStoreFenceUops)[1..] else old(pendingStoreFenceUops))
              && storeUopsSinceLastStoreFence == (if pass then [] else old(storeUopsSinceLastStoreFence))
    {
      hide Consistent, FencesPending;
      var passLoad := pendingLoadFenceUops != [] && ExecutedBy(storage.t, [pendingLoadFenceUops[0]], clock);
      var passStore := pendingStoreFenceUops != [] && ExecutedBy(storage.t, [pendingStoreFenceUops[0]], clock);
      assert passLoad ==> pendingLoadFenceUops[0] in [pendingLoadFenceUops[0]];
      assert passStore ==> pendingStoreFenceUops[0] in [pendingStoreFenceUops[0]];
      FencePassed(storage.t, Queues([], nonReadyUops), place, next, c.issueDispatchDelay, pendingLoadFenceUops,
                  pendingStoreFenceUops, passLoad, passStore);
      if passLoad {
        pendingLoadFenceUops, loadUopsSinceLastLoadFence := pendingLoadFenceUops[1..], [];
      }
      if passStore {
        pendingStoreFenceUops, storeUopsSinceLastStoreFence := pendingStoreFenceUops[1..], [];
      }
    }

    method UpdateBlockedResources(clock: nat)
      requires Busy(clock)
      modifies `blockedResources
      ensures Busy(clock + 1)
      ensures blockedResources.Keys == old(blockedResources).Keys
      ensures forall r :: r in blockedResources ==> blockedResources[r] == OneLess(old(blockedResources)[r])
    {
      ghost var free := clock + blockedResources[Divider];
      blockedResources := map r | r in blockedResources :: OneLess(blockedResources[r]);
      SameDivider(storage.t, storage.t, free, clock + 1 + blockedResources[Divider]);
    }

    /** What holds of the scheduler when cycle `next` begins: every undispatched uop is in exactly one place, a uop that
        waits for another one waits for one that is still to be executed, no cycle of the calendar has been missed, the
        port usage and the pending uops are right, and the divider has not been used twice at a time. */
    ghost predicate Valid(next: nat)
      reads this, storage
    {
      Agree([], nonReadyUops, next, next) && FencesKnown() && Books() && Busy(next) && PortsServed()
    }

    /** Releases the uops due and takes over new ones. */
    method TakeOver(clock: nat, newUops: seq<FusedUop>, choice: map<nat, string>)
      requires Valid(clock) && JustIssued(storage.t, Unfused(newUops))
      requires Supplied(storage.t.info, storage.t.actualPort.Keys, Unfused(newUops), choice, portUsage.Keys)
      modifies storage, `portUsage, `uops, `dependentUops, `nonReadyUops, `pendingLoadFenceUops,
               `pendingStoreFenceUops, `place, `readyQueue, `readyDivUops, `uopsReadyInCycle
      ensures Agree([], nonReadyUops, clock + 1, clock + 1) && FencesKnown() && Books() && Busy(clock) && PortsServed()
      ensures portUsage.Keys == old(portUsage).Keys && OnlyBound(old(storage.t), storage.t)
      ensures Released(old(storage.t), At(old(uopsReadyInCycle), clock), old(readyQueue), old(readyDivUops), readyQueue,
                       readyDivUops)
      ensures BoundAsChosen(old(storage.t), storage.t, Unfused(newUops), choice)
      ensures Guarding() == WithFences(old(Guarding()), storage.t, Unfused(newUops))
    {
      hide Agree, FencesKnown, Books, PendingExact, DividerFree, DivisionsApart, OnlyBound, Supplied, JustIssued;
      hide Released, BoundAsChosen, WithFences;
      ghost var t0 := storage.t;
      ReleaseDue(clock);
      AddNewUops(newUops, choice, clock + 1);
      KeepsBusy1(t0, storage.t, pendingUops, clock + blockedResources[Divider]);
      SameFencesIn(old(Guarding()), t0, storage.t, Unfused(newUops));
    }

    /** Takes over new uops and dispatches ready ones. */
    method BindAndDispatch(clock: nat, newUops: seq<FusedUop>, choice: map<nat, string>)
      returns (ghost bound: Table, ghost ready: map<string, set<nat>>, ghost div: set<nat>)
      requires Valid(clock) && JustIssued(storage.t, Unfused(newUops))
      requires Supplied(storage.t.info, storage.t.actualPort.Keys, Unfused(newUops), choice, portUsage.Keys)
      modifies this, storage
      ensures Agree([], nonReadyUops, clock + 1, clock + 1) && FencesKnown() && Books() && Busy(clock) && PortsServed()
      ensures portUsage.Keys == old(portUsage).Keys
      ensures Released(old(storage.t), At(old(uopsReadyInCycle), clock), old(readyQueue), old(readyDivUops), ready, div)
      ensures OnlyBound(old(storage.t), bound) && BoundAsChosen(old(storage.t), bound, Unfused(newUops), choice)
      ensures uopsDispatchedInPrevCycle ==
              Chosen(c.ports, PortsOut(bound, c.ports, c.slow256BitMemAcc, ready), ready, div, old(blockedResources))
      ensures OnlyDispatched(bound, storage.t, clock)
      ensures DispatchedThese(bound, storage.t, uopsDispatchedInPrevCycle, clock)
      ensures Guarding() == WithFences(old(Guarding()), bound, Unfused(newUops))
                            .(blocked := OccupiedAll(bound, c.slow256BitMemAcc, old(blockedResources),
                                                     uopsDispatchedInPrevCycle))
    {
      hide OccupiedAll, Valid, Agree, FencesKnown, Books, Busy, PortsServed, OnlyBound, OnlyDispatched, Supplied, JustIssued;
      hide Released, BoundAsChosen, Chosen, PortsOut, DispatchedThese, WithFences;
      TakeOver(clock, newUops, choice);
      bound, ready, div := storage.t, readyQueue, readyDivUops;
      DispatchUops(clock);
    }

    /** Finishes dispatched uops. */
    method ExecutePending(clock: nat)
      requires Agree([], nonReadyUops, clock + 1, clock + 1) && FencesKnown() && Books() && Busy(clock) && PortsServed()
      modifies storage, `dependentUops, `nonReadyUops, `pendingUops, `place
      ensures Agree([], nonReadyUops, clock + 1, clock + 1) && FencesKnown() && Books() && Busy(clock) && PortsServed()
      ensures OnlyExecuted(old(storage.t), storage.t) && FinishedRight(old(storage.t), storage.t)
      ensures pendingUops <= old(pendingUops) && AllUnknown(old(storage.t), pendingUops)
    {
      hide Agree, FencesPending, BooksKept, PendingExact, DividerFree, DivisionsApart, OnlyExecuted, AllUnknown;
      hide FinishedRight;
      ghost var t2, place2 := storage.t, place;
      ProcessPendingUops(clock + 1);
      KeepsBusy2(t2, storage.t, clock + blockedResources[Divider]);
      KeepsBooks(t2, storage.t, uops, place2, place, portUsage, uopsDispatchedInPrevCycle, pendingLoadFenceUops,
                 pendingStoreFenceUops);
    }

    /** Enters uops into the calendar. */
    method ReadyUops(clock: nat) returns (ghost ready: set<nat>)
      requires Agree([], nonReadyUops, clock + 1, clock + 1) && FencesKnown() && Books() && Busy(clock)
      modifies storage, `uopsReadyInCycle, `blockedResources, `loadUopsSinceLastLoadFence,
               `storeUopsSinceLastStoreFence, `place, `nonReadyUops
      ensures Agree([], nonReadyUops, clock + 1, clock + 1) && FencesKnown() && Books() && Busy(clock)
      ensures RightSoFar(old(storage.t), storage.t, c.issueDispatchDelay, clock)
      ensures nonReadyUops == Without(old(nonReadyUops), ready)
      ensures Sorted(old(storage.t), storage.t, old(nonReadyUops), ready, clock, old(Guarding()), Guarding())
    {
      hide Agree, FencesKnown, BooksKept, PendingExact, DividerFree, DivisionsApart, OnlyReadied, RightSoFar;
      hide Sorted, Without;
      ghost var t3, place3 := storage.t, place;
      ready := ProcessNonReadyUops(clock);
      IsReadied(t3, storage.t, c.issueDispatchDelay, clock);
      KeepsBusy3(t3, storage.t, pendingUops, clock + blockedResources[Divider], uops, place3, place, portUsage,
                 uopsDispatchedInPrevCycle);
    }

    /** Enters uops into the calendar, and ends the cycle. */
    method ReadyAndEnd(clock: nat) returns (ghost ready: set<nat>, ghost guards: Guards)
      requires Agree([], nonReadyUops, clock + 1, clock + 1) && FencesKnown() && Books() && Busy(clock) && PortsServed()
      modifies storage, `uopsReadyInCycle, `blockedResources, `loadUopsSinceLastLoadFence,
               `storeUopsSinceLastStoreFence, `place, `nonReadyUops, `pendingLoadFenceUops, `pendingStoreFenceUops
      ensures Valid(clock + 1)
      ensures RightSoFar(old(storage.t), storage.t, c.issueDispatchDelay, clock)
      ensures nonReadyUops == Without(old(nonReadyUops), ready)
      ensures Sorted(old(storage.t), storage.t, old(nonReadyUops), ready, clock, old(Guarding()), guards)
      ensures Guarding() == Ended(guards, storage.t, clock)
    {
      hide Agree, FencesKnown, Books, Busy, PortsServed, RightSoFar, Sorted, Without;
      ready := ReadyUops(clock);
      guards := Guarding();
      ProcessPendingFences(clock, clock + 1);
      UpdateBlockedResources(clock);
    }

    /** What a cycle starts from. */
    ghost function Begins(newUops: seq<FusedUop>, choice: map<nat, string>, clock: nat): Beginning
      reads this, storage
    {
      Beginning(storage.t, At(uopsReadyInCycle, clock), readyQueue, readyDivUops, Guarding(), Unfused(newUops), choice,
                c.ports, c.slow256BitMemAcc, c.issueDispatchDelay, clock)
    }

    ghost function Ends(): Ending
      reads this, storage
    {
      Ending(storage.t, uopsDispatchedInPrevCycle, pendingUops, nonReadyUops, Guarding())
    }

    /** One clock cycle. It keeps the invariant, and takes the course that the queues and the chosen ports determine. */
    method Cycle(clock: nat, newUops: seq<FusedUop>, choice: map<nat, string>) returns (ghost course: Course)
      requires Valid(clock) && JustIssued(storage.t, Unfused(newUops))
      requires Supplied(storage.t.info, storage.t.actualPort.Keys, Unfused(newUops), choice, portUsage.Keys)
      modifies this, storage
      ensures Valid(clock + 1) && portUsage.Keys == old(portUsage).Keys
      ensures Follows(old(Begins(newUops, choice, clock)), course, Ends())
      ensures CycleSteps(old(storage.t), storage.t, clock)
    {
      hide Valid, Agree, FencesKnown, Books, Busy, PortsServed, CycleSteps, Supplied, JustIssued, Released, Sorted;
      hide OnlyBound, BoundAsChosen, Chosen, PortsOut, OnlyDispatched, DispatchedThese, OnlyExecuted, AllUnknown;
      hide RightSoFar, Without, WithFences, Ended, PendingExact, FinishedRight, OccupiedAll;
      ghost var beginning := Begins(newUops, choice, clock);
      ghost var bound, ready, div := BindAndDispatch(clock, newUops, choice);
      ghost var dispatched, pending := storage.t, pendingUops;
      BusyPending(clock);
      ExecutePending(clock);
      ghost var executed, waiting, before := storage.t, nonReadyUops, Guarding();
      BusyPending(clock);
      ghost var readied, after := ReadyAndEnd(clock);
      course := Course(bound, ready, div, dispatched, pending, executed, waiting, readied, before, after);
      assert BindsAndDispatches(beginning, course, uopsDispatchedInPrevCycle);
      assert ExecutesAndReadies(beginning, course, Ends());
      CourseSteps(beginning, course, Ends());
    }

    lemma BusyPending(clock: nat)
      requires Busy(clock)
      ensures PendingExact(storage.t, pendingUops)
    {}
  }

  lemma SameFencesIn(g: Guards, t: Table, s: Table, us: seq<nat>)
    requires OnlyBound(t, s)
    ensures WithFences(g, s, us) == WithFences(g, t, us)
  {
    BoundFields(t, s);
    SameFenceLists(t, s, us);
  }

  lemma {:induction false} SameFenceLists(t: Table, s: Table, us: seq<nat>)
    requires s.info == t.info
    ensures LoadFencesIn(s, us) == LoadFencesIn(t, us) && StoreFencesIn(s, us) == StoreFencesIn(t, us)
  {
    if us != [] {
      SameFenceLists(t, s, us[..|us| - 1]);
    }
  }

  lemma NoneChosen(t: Table, newUops: seq<FusedUop>, choice: map<nat, string>)
    ensures BoundAsChosen(t, t, [], choice) && [] + Unfused(newUops[0..]) == Unfused(newUops)
  {
    assert newUops[0..] == newUops;
  }

  lemma AllChosen(newUops: seq<FusedUop>, done: seq<nat>)
    requires done + Unfused(newUops[|newUops|..]) == Unfused(newUops)
    ensures done == Unfused(newUops)
  {}

  lemma KnowsInputs(t: Table, u: nat, before: nat, due: nat)
    requires InPlace(t, u, NonReady, before, due)
    ensures u in t.info && AllAnswered(t, t.info[u].inputs) && u !in t.readyForDispatch
  {}

  lemma SortedSeen(t0: Table, t: Table, us: seq<nat>, i: nat, ready: set<nat>, clock: nat, g0: Guards, g: Guards)
    requires i < |us| && NoDuplicates(us) && Sorted(t0, t, us[..i], ready, clock, g0, g)
    ensures us[i] !in ready && us[i] !in us[..i]
  {
    hide IsHeld, NotedAll;
    assert us[i] !in us[..i];
  }

  /** What the queue of a ready uop says about it. */
  lemma SourceMeans(t: Table, q: Queues, place: map<nat, Place>, before: nat, due: nat, delay: nat, source: Source,
                    u: nat)
    requires Consistent(t, q, place, before, due, delay) && InSource(q, source, u)
    ensures match source
            case FromPort(p) => PortIs(t, u, p) && DivCycles(t, u) == 0
            case FromDivider => DivCycles(t, u) > 0
  {
    hide Sound;
    match source {
      case FromPort(p) => {
        assert OnSet(QueueAt(q.ready, p), place, Ready(p));
        assert InPlace(t, u, Ready(p), before, due);
      }
      case FromDivider => {
        assert InPlace(t, u, ReadyDiv, before, due);
      }
    }
  }

  lemma SortedFields(t0: Table, t: Table, us: seq<nat>, ready: set<nat>, clock: nat, g0: Guards, g: Guards)
    requires Sorted(t0, t, us, ready, clock, g0, g)
    ensures t.info == t0.info && t.executed == t0.executed
  {}

  lemma DispatchedFields(t: Table, s: Table, clock: nat)
    requires OnlyDispatched(t, s, clock)
    ensures s.info == t.info && s.actualPort == t.actualPort
  {}
}

/** The renamer (`Renamer.cycle` in uiCA.py): it decides which moves are eliminated and renames the uops of a cycle. */
module Renamer {
  import opened Wrappers
  import opened Renaming
  import opened MultiUse
  import opened MoveElimination

  /** No number of slots means that there is no limit. */
  datatype Config = Config(gprSlots: Option<nat>, simdSlots: Option<nat>, pipelineLength: nat,
                           gprAllAliasesMustBeOverwritten: bool)

  /** The class of the register that a move reads, if moves of such registers can be eliminated. */
  function ClassOf(u: Uop): Option<Class> {
    if u.move.None? then None
    else if u.move.value.src.Gpr? then Some(GprClass)
    else if u.move.value.src.Simd? then Some(SimdClass)
    else None
  }

  function Count(us: seq<Uop>, eliminated: seq<bool>, c: Class): nat
    requires |us| == |eliminated|
  {
    if us == [] then 0
    else
      var last := |us| - 1;
      Count(us[..last], eliminated[..last], c) + if eliminated[last] && ClassOf(us[last]) == Some(c) then 1 else 0
  }

  lemma CountSnoc(us: seq<Uop>, eliminated: seq<bool>, i: nat, e: bool, c: Class)
    requires i < |us| && |eliminated| == i
    ensures Count(us[..i + 1], eliminated + [e], c) ==
            Count(us[..i], eliminated, c) + if e && ClassOf(us[i]) == Some(c) then 1 else 0
  {
    assert us[..i + 1][..i] == us[..i] && (eliminated + [e])[..i] == eliminated;
  }

  /** How many moves can be eliminated in a cycle. */
  function Allowed(n: map<int, nat>, used: map<int, nat>, cycle: nat, slots: Option<nat>, length: nat): int {
    if slots.None? then 1 else Possible(n, used, cycle, length, slots.value)
  }

  /** Whether one more move can be eliminated after `n` of them in the same cycle. */
  predicate SlotLeft(slots: Option<nat>, possible: int, n: nat) {
    slots == None || possible - n > 0
  }

  /** The moves of a class are eliminated in order while there are slots. */
  ghost predicate Greedy(us: seq<Uop>, eliminated: seq<bool>, c: Class, slots: Option<nat>, possible: int)
    requires |us| == |eliminated|
  {
    forall i :: 0 <= i < |us| && ClassOf(us[i]) == Some(c) ==>
      (eliminated[i] <==> SlotLeft(slots, possible, Count(us[..i], eliminated[..i], c)))
  }

  /** The uops of the instructions, in order: the values passed within an instruction have been written in it, and an
      instruction that may be eliminated is a single uop that writes a register of the class of its input. */
  ghost predicate WellFormed(us: seq<Uop>, passed: set<nat>, start: bool, seen: set<nat>)
    decreases |us|
  {
    us == [] ||
    var u := us[0];
    && u.idx !in seen
    && (u.hasUops ==> forall i :: i in u.inputs && i.Pseudo? ==> i.id in passed)
    && (u.move.Some? ==>
          && start && u.endsInstr && u.hasUops
          && (u.move.value.src.Gpr? <==> u.move.value.dst.Gpr?)
          && (u.move.value.src.Simd? <==> u.move.value.dst.Simd?))
    && WellFormed(us[1..], if u.endsInstr then {} else PassedAfter(u, passed), u.endsInstr, seen + {u.idx})
  }

  function PassedAfter(u: Uop, passed: set<nat>): set<nat> {
    if u.hasUops then passed + set o | o in u.outputs && o.Pseudo? :: o.id else passed
  }

  lemma {:induction false} WriteKeys(t: Tables, uop: nat, outputs: seq<Source>)
    ensures Write(t, uop, outputs).pseudo.Keys == t.pseudo.Keys + set o | o in outputs && o.Pseudo? :: o.id
  {
    if outputs == [] {
    } else {
      var front, last := outputs[..|outputs| - 1], outputs[|outputs| - 1];
      WriteKeys(t, uop, front);
      assert outputs == front + [last];
    }
  }

  // What one uop does to the users of operands

  function UsesAfterRename(uses: Uses, t: Tables, u: Uop, eliminated: bool, c: Class): Uses
    requires eliminated ==> u.move.Some?
  {
    if eliminated && ClassOf(u) == Some(c) then Shared(uses, Lookup(t.dict, u.move.value.src), u.move.value) else uses
  }

  function UsesAfterUop(uses: Uses, t: Tables, u: Uop, eliminated: bool, c: Class): Uses
    requires CanRename(t, u, eliminated)
  {
    var s := Renamed(t, u, eliminated);
    var after := UsesAfterRename(uses, t, u, eliminated, c);
    if u.endsInstr then Dropped(after, s.dict, s.cur, eliminated, c) else after
  }

  /** The users of operands after the uops of a cycle. */
  function UsesAfterAll(uses: Uses, t: Tables, us: seq<Uop>, eliminated: seq<bool>, c: Class): Uses
    requires |us| == |eliminated| && CanRenameAll(t, us, eliminated)
    decreases |us|
  {
    if us == [] then uses
    else
      UsesAfterAll(UsesAfterUop(uses, t, us[0], eliminated[0], c), AfterUop(t, us[0], eliminated[0]), us[1..],
                   eliminated[1..], c)
  }

  /** Operands with few users are forgotten before a cycle without eliminated moves, those without users after it. */
  function UsesAfterCycle(uses: Uses, t: Tables, us: seq<Uop>, eliminated: seq<bool>, c: Class, forget: bool): Uses
    requires |us| == |eliminated| && CanRenameAll(t, us, eliminated)
  {
    Pruned(UsesAfterAll(if forget then Pruned(uses, 1) else uses, t, us, eliminated, c), 0)
  }

  /** The number of shared operands is recorded unless there are none. */
  function UsesRecorded(used: map<int, nat>, cycle: nat, uses: Uses): map<int, nat> {
    if uses == map[] then used else used[cycle as int := |uses|]
  }

  /** The users of the operands of a class are exact, apart from what the current instruction has written. */
  ghost predicate Tracks(t: Tables, uses: Uses, c: Class, earlier: set<nat>, seen: set<nat>) {
    && Exact(uses, t.dict, c) && KnownOperands(uses, t.dict, earlier)
    && FreshWrites(t.cur, earlier, seen) && earlier <= seen
  }

  lemma KnownLater(uses: Uses, dict: map<Key, Operand>, seen: set<nat>, later: set<nat>)
    requires KnownOperands(uses, dict, seen) && seen <= later
    ensures KnownOperands(uses, dict, later)
  {
    assert forall o: Operand :: KnownOperand(o, dict, seen) ==> KnownOperand(o, dict, later);
  }

  lemma WrittenTracks(t: Tables, uses: Uses, c: Class, earlier: set<nat>, seen: set<nat>, u: Uop)
    requires Tracks(t, uses, c, earlier, seen) && u.idx !in seen && CanRename(t, u, false)
    ensures Tracks(Renamed(t, u, false), uses, c, earlier, seen + {u.idx})
  {
    hide Exact, KnownOperands, FreshWrites;
    if u.hasUops {
      EnteredAllExact(uses, t.dict, c, earlier, u.inputs);
      WriteFresh(t.(dict := EnteredAll(t.dict, u.inputs)), u.idx, u.outputs, earlier, seen);
    } else {
      WriteFresh(t, u.idx, NamedAll(u.zeroed), earlier, seen);
    }
  }

  lemma NothingWritten(seen: set<nat>)
    ensures FreshWrites(map[], seen, seen)
  {}

  /** Renaming a uop keeps the users exact. */
  lemma RenamingTracks(t: Tables, uses: Uses, c: Class, earlier: set<nat>, seen: set<nat>, u: Uop, eliminated: bool)
    requires Tracks(t, uses, c, earlier, seen) && u.idx !in seen && CanRename(t, u, eliminated)
    requires eliminated ==>
               && t.cur == map[] && u.endsInstr && ClassOf(u).Some?
               && (u.move.value.src.Gpr? <==> u.move.value.dst.Gpr?)
               && (u.move.value.src.Simd? <==> u.move.value.dst.Simd?)
    ensures var after := seen + {u.idx};
            Tracks(AfterUop(t, u, eliminated), UsesAfterUop(uses, t, u, eliminated, c), c,
                   if u.endsInstr then after else earlier, after)
  {
    hide Exact, KnownOperands, FreshWrites;
    var after := seen + {u.idx};
    NothingWritten(after);
    if eliminated {
      KnownLater(uses, t.dict, earlier, after);
      EliminationTracks(t, uses, c, after, u);
    } else {
      WrittenTracks(t, uses, c, earlier, seen, u);
      var s := Renamed(t, u, false);
      if u.endsInstr {
        CommitFresh(uses, s.dict, s.cur, c, earlier, after);
      }
    }
  }

  lemma EliminationTracks(t: Tables, uses: Uses, c: Class, seen: set<nat>, u: Uop)
    requires Exact(uses, t.dict, c) && KnownOperands(uses, t.dict, seen) && u.move.Some?
    requires t.cur == map[] && u.endsInstr && ClassOf(u).Some?
    requires u.move.value.src.Gpr? <==> u.move.value.dst.Gpr?
    requires u.move.value.src.Simd? <==> u.move.value.dst.Simd?
    ensures var s := Renamed(t, u, true);
            var after := Dropped(UsesAfterRename(uses, t, u, true, c), s.dict, s.cur, true, c);
            Exact(after, s.dict + s.cur, c) && KnownOperands(after, s.dict + s.cur, seen)
  {
    hide Exact, KnownOperands, Dropped, Shared;
    if ClassOf(u) == Some(c) {
      CommitMove(uses, t.dict, u.move.value, c, seen);
    } else {
      CommitOther(uses, t.dict, u.move.value, c, seen);
    }
  }

  lemma CurAfter(t: Tables, u: Uop, eliminated: bool)
    requires CanRename(t, u, eliminated) && u.endsInstr
    ensures AfterUop(t, u, eliminated).cur == map[] && AfterUop(t, u, eliminated).pseudo == map[]
  {}

  lemma PassedKeys(t: Tables, u: Uop)
    requires CanRename(t, u, false) && !u.endsInstr
    ensures AfterUop(t, u, false).pseudo.Keys == PassedAfter(u, t.pseudo.Keys)
  {
    if u.hasUops {
      WriteKeys(t.(dict := EnteredAll(t.dict, u.inputs)), u.idx, u.outputs);
    } else {
      WriteKeys(t, u.idx, NamedAll(u.zeroed));
      assert forall o :: o in NamedAll(u.zeroed) ==> o.Named?;
    }
  }

  /** In no window of the pipeline's length up to the last active cycle were more moves eliminated than there are slots.
  */
  ghost predicate SlotsKeptOf(n: map<int, nat>, used: map<int, nat>, slots: Option<nat>, length: nat, active: nat) {
    && (slots.Some? ==> WithinSlots(n, length, slots.value))
    && (slots.Some? && length > 0 ==> SharedWithin(n, used, length, slots.value))
    && forall t :: t in n ==> t <= active
  }

  lemma SlotsRecorded(n: map<int, nat>, used: map<int, nat>, slots: Option<nat>, length: nat, active: nat, x: nat,
                      used': map<int, nat>)
    requires SlotsKeptOf(n, used, slots, length, active)
    requires slots.None? || x == 0 || x <= Allowed(n, used, active + 1, slots, length)
    requires forall c :: c != active + 1 ==> Recorded(used', c) == Recorded(used, c)
    ensures SlotsKeptOf(n[(active + 1) as int := x], used', slots, length, active + 1)
  {
    if slots.Some? {
      RecordKeeps(n, used, active + 1, length, slots.value, x);
      if length > 0 {
        SharedKeeps(n, used, used', active + 1, length, slots.value, x);
      }
    }
  }

  /** A move is eliminated exactly if those of its class before it in the cycle, those of the cycles before that still
      count and the operands that were shared when these began leave a slot. */
  lemma GreedyMeans(us: seq<Uop>, eliminated: seq<bool>, c: Class, slots: Option<nat>, n: map<int, nat>,
                    used: map<int, nat>, cycle: nat, length: nat)
    requires |us| == |eliminated| && Greedy(us, eliminated, c, slots, Allowed(n, used, cycle, slots, length))
    ensures forall i :: 0 <= i < |us| && ClassOf(us[i]) == Some(c) ==>
              (eliminated[i] <==>
                 slots == None ||
                 Count(us[..i], eliminated[..i], c) + Window(n, cycle - 1, if length == 0 then 0 else length - 1)
                 + Recorded(used, cycle - length) < slots.value)
  {
    hide Count, Window, Recorded, ClassOf;
  }

  lemma UsesRecordedNow(used: map<int, nat>, cycle: nat, uses: Uses)
    ensures forall c :: c != cycle ==> Recorded(UsesRecorded(used, cycle, uses), c) == Recorded(used, c)
  {}

  lemma RunContinues(us: seq<Uop>, eliminated: seq<bool>, u: Uop, e: bool)
    requires |us| == |eliminated| && CanRenameAll(NO_TABLES, us, eliminated)
    requires CanRename(AfterAll(NO_TABLES, us, eliminated), u, e) && NewUops(us, {}) && u.idx !in Indices(us)
    ensures CanRenameAll(NO_TABLES, us + [u], eliminated + [e])
    ensures AfterAll(NO_TABLES, us + [u], eliminated + [e]) == AfterUop(AfterAll(NO_TABLES, us, eliminated), u, e)
    ensures NewUops(us + [u], {}) && Indices(us + [u]) == Indices(us) + {u.idx}
  {
    hide AfterUop, CanRename;
    var t := AfterAll(NO_TABLES, us, eliminated);
    assert [u][1..] == [] && [e][1..] == [];
    assert CanRenameAll(t, [u], [e]) && AfterAll(t, [u], [e]) == AfterUop(t, u, e);
    RenamingContinues(NO_TABLES, us, eliminated, [u], [e]);
    NewUopsContinue(us, u, {});
  }

  lemma PrunedTracks(t: Renaming.Tables, uses: Uses, c: Class, earlier: set<nat>, seen: set<nat>, most: nat)
    requires Tracks(t, uses, c, earlier, seen) && most <= 1
    ensures Tracks(t, Pruned(uses, most), c, earlier, seen)
  {
    hide Exact, KnownOperands;
    PrunedExact(uses, t.dict, c, most);
    PrunedKnown(uses, t.dict, earlier, most);
  }

  class Renamer {
    const c: Config
    var renameDict: map<Key, Operand>
    var curInstrRndRenameDict: map<Key, Operand>
    var curInstrPseudoOpDict: map<nat, Operand>
    var nGPRMoveElimInCycle: map<int, nat>
    var multiUseGPRDict: Uses
    var multiUseGPRDictUseInCycle: map<int, nat>
    var nSIMDMoveElimInCycle: map<int, nat>
    var multiUseSIMDDict: Uses
    var multiUseSIMDDictUseInCycle: map<int, nat>
    var renamerActiveCycle: nat
    ghost var earlier: set<nat>
    ghost var seen: set<nat>
    ghost var atStart: bool
    ghost var history: seq<Uop>
    ghost var eliminations: seq<bool>

    constructor (c: Config)
      ensures this.c == c && Valid() && Tables() == Renaming.Tables(map[], map[], map[]) && seen == {} && atStart
      ensures history == []
    {
      this.c := c;
      renameDict, curInstrRndRenameDict, curInstrPseudoOpDict := map[], map[], map[];
      nGPRMoveElimInCycle, multiUseGPRDict, multiUseGPRDictUseInCycle := map[], map[], map[];
      nSIMDMoveElimInCycle, multiUseSIMDDict, multiUseSIMDDictUseInCycle := map[], map[], map[];
      renamerActiveCycle, earlier, seen, atStart, history, eliminations := 0, {}, {}, true, [], [];
      new;
      NothingRecorded(c.pipelineLength);
    }

    ghost function Tables(): Tables
      reads `renameDict, `curInstrRndRenameDict, `curInstrPseudoOpDict
    {
      Renaming.Tables(renameDict, curInstrRndRenameDict, curInstrPseudoOpDict)
    }

    /** The users of shared operands are known exactly. */
    ghost predicate Exactly()
      reads `renameDict, `curInstrRndRenameDict, `curInstrPseudoOpDict, `multiUseGPRDict, `multiUseSIMDDict,
            `earlier, `seen, `atStart
    {
      && Tracks(Tables(), multiUseGPRDict, GprClass, earlier, seen)
      && Tracks(Tables(), multiUseSIMDDict, SimdClass, earlier, seen)
      && (atStart ==> curInstrRndRenameDict == map[] && curInstrPseudoOpDict == map[])
    }

    ghost predicate SlotsKept()
      reads `nGPRMoveElimInCycle, `nSIMDMoveElimInCycle, `renamerActiveCycle, `multiUseGPRDictUseInCycle,
            `multiUseSIMDDictUseInCycle
    {
      && SlotsKeptOf(nGPRMoveElimInCycle, multiUseGPRDictUseInCycle, c.gprSlots, c.pipelineLength, renamerActiveCycle)
      && SlotsKeptOf(nSIMDMoveElimInCycle, multiUseSIMDDictUseInCycle, c.simdSlots, c.pipelineLength, renamerActiveCycle)
    }

    ghost predicate Valid()
      reads this
    {
      Exactly() && SlotsKept() && FromBeginning()
    }

    /** The tables are those after renaming all uops so far. */
    ghost predicate FromBeginning()
      reads `renameDict, `curInstrRndRenameDict, `curInstrPseudoOpDict, `seen, `history, `eliminations
    {
      && |eliminations| == |history| && CanRenameAll(NO_TABLES, history, eliminations)
      && Tables() == AfterAll(NO_TABLES, history, eliminations)
      && NewUops(history, {}) && seen == Indices(history)
    }

    /** Between any two cycles, every register is renamed to an operand that has the value the register has when all
        uops so far are executed one instruction after the other, whatever they compute. */
    lemma RegistersAsExecuted(f: Computation, regs: Key -> int) returns (val: Operand -> int)
      requires Valid() && MovesCopy(history, eliminations, f)
      ensures FlowsAll(val, NO_TABLES, history, eliminations, f) && forall k :: val(Initial(k)) == regs(k)
      ensures var v := Values(regs, map[], map[]);
              Executable(v, history, f) && Means(val, Tables(), ExecutedAll(v, history, f))
    {
      hide Exactly, SlotsKept, CanRenameAll, AfterAll, NewUops, MovesCopy, FlowsAll, Executable, ExecutedAll, Means;
      val := RunsAgree(history, eliminations, f, regs);
    }

    function PossibleGPR(): int
      reads `nGPRMoveElimInCycle, `multiUseGPRDictUseInCycle, `renamerActiveCycle
    {
      Allowed(nGPRMoveElimInCycle, multiUseGPRDictUseInCycle, renamerActiveCycle, c.gprSlots, c.pipelineLength)
    }

    function PossibleSIMD(): int
      reads `nSIMDMoveElimInCycle, `multiUseSIMDDictUseInCycle, `renamerActiveCycle
    {
      Allowed(nSIMDMoveElimInCycle, multiUseSIMDDictUseInCycle, renamerActiveCycle, c.simdSlots, c.pipelineLength)
    }

    /** Goes through the moves in order and eliminates them while there are slots. */
    method EliminateInOrder(us: seq<Uop>) returns (eliminated: seq<bool>, nGPRMoveElim: nat, nSIMDMoveElim: nat)
      ensures |eliminated| == |us|
      ensures nGPRMoveElim == Count(us, eliminated, GprClass) && nSIMDMoveElim == Count(us, eliminated, SimdClass)
      ensures Greedy(us, eliminated, GprClass, c.gprSlots, PossibleGPR())
      ensures Greedy(us, eliminated, SimdClass, c.simdSlots, PossibleSIMD())
      ensures c.gprSlots.None? || nGPRMoveElim == 0 || nGPRMoveElim <= PossibleGPR()
      ensures c.simdSlots.None? || nSIMDMoveElim == 0 || nSIMDMoveElim <= PossibleSIMD()
      ensures forall i :: 0 <= i < |us| && eliminated[i] ==> ClassOf(us[i]).Some?
    {
      hide Allowed;
      eliminated, nGPRMoveElim, nSIMDMoveElim := [], 0, 0;
      for i := 0 to |us|
        invariant |eliminated| == i
        invariant nGPRMoveElim == Count(us[..i], eliminated, GprClass)
        invariant nSIMDMoveElim == Count(us[..i], eliminated, SimdClass)
        invariant Greedy(us[..i], eliminated, GprClass, c.gprSlots, PossibleGPR())
        invariant Greedy(us[..i], eliminated, SimdClass, c.simdSlots, PossibleSIMD())
        invariant c.gprSlots.None? || nGPRMoveElim == 0 || nGPRMoveElim <= PossibleGPR()
        invariant c.simdSlots.None? || nSIMDMoveElim == 0 || nSIMDMoveElim <= PossibleSIMD()
        invariant forall j :: 0 <= j < i && eliminated[j] ==> ClassOf(us[j]).Some?
      {
        var e := match ClassOf(us[i])
          case None => false
          case Some(GprClass) => SlotLeft(c.gprSlots, PossibleGPR(), nGPRMoveElim)
          case Some(SimdClass) => SlotLeft(c.simdSlots, PossibleSIMD(), nSIMDMoveElim);
        CountSnoc(us, eliminated, i, e, GprClass);
        CountSnoc(us, eliminated, i, e, SimdClass);
        GreedySnoc(us, eliminated, i, e, GprClass, c.gprSlots, PossibleGPR());
        GreedySnoc(us, eliminated, i, e, SimdClass, c.simdSlots, PossibleSIMD());
        if e {
          if us[i].move.value.src.Gpr? {
            nGPRMoveElim := nGPRMoveElim + 1;
          } else {
            nSIMDMoveElim := nSIMDMoveElim + 1;
          }
        }
        eliminated := eliminated + [e];
      }
      assert us[..|us|] == us;
    }

    /** Decides which moves are eliminated. */
    method DecideEliminations(us: seq<Uop>) returns (eliminated: seq<bool>, nGPRMoveElim: nat, nSIMDMoveElim: nat)
      ensures |eliminated| == |us|
      ensures nGPRMoveElim == Count(us, eliminated, GprClass) && nSIMDMoveElim == Count(us, eliminated, SimdClass)
      ensures Greedy(us, eliminated, GprClass, c.gprSlots, PossibleGPR())
      ensures Greedy(us, eliminated, SimdClass, c.simdSlots, PossibleSIMD())
      ensures c.gprSlots.None? || nGPRMoveElim == 0 || nGPRMoveElim <= PossibleGPR()
      ensures c.simdSlots.None? || nSIMDMoveElim == 0 || nSIMDMoveElim <= PossibleSIMD()
      ensures forall i :: 0 <= i < |us| && eliminated[i] ==> ClassOf(us[i]).Some?
      ensures forall i :: 0 <= i < |us| && ClassOf(us[i]) == Some(GprClass) ==>
                (eliminated[i] <==>
                   c.gprSlots == None ||
                   Count(us[..i], eliminated[..i], GprClass)
                   + Window(nGPRMoveElimInCycle, renamerActiveCycle - 1,
                            if c.pipelineLength == 0 then 0 else c.pipelineLength - 1)
                   + Recorded(multiUseGPRDictUseInCycle, renamerActiveCycle - c.pipelineLength)
                   < c.gprSlots.value)
      ensures forall i :: 0 <= i < |us| && ClassOf(us[i]) == Some(SimdClass) ==>
                (eliminated[i] <==>
                   c.simdSlots == None ||
                   Count(us[..i], eliminated[..i], SimdClass)
                   + Window(nSIMDMoveElimInCycle, renamerActiveCycle - 1,
                            if c.pipelineLength == 0 then 0 else c.pipelineLength - 1)
                   + Recorded(multiUseSIMDDictUseInCycle, renamerActiveCycle - c.pipelineLength)
                   < c.simdSlots.value)
    {
      hide Allowed, Greedy, Count, Window, Recorded, ClassOf;
      eliminated, nGPRMoveElim, nSIMDMoveElim := EliminateInOrder(us);
      GreedyMeans(us, eliminated, GprClass, c.gprSlots, nGPRMoveElimInCycle, multiUseGPRDictUseInCycle,
                  renamerActiveCycle, c.pipelineLength);
      GreedyMeans(us, eliminated, SimdClass, c.simdSlots, nSIMDMoveElimInCycle, multiUseSIMDDictUseInCycle,
                  renamerActiveCycle, c.pipelineLength);
    }

    /** Looks up the operands that a uop reads. */
    method RenameInputs(u: Uop) returns (inputs: seq<Operand>)
      requires Readable(curInstrPseudoOpDict, u.inputs)
      modifies `renameDict
      ensures inputs == Read(old(Tables()), u.inputs) && renameDict == EnteredAll(old(renameDict), u.inputs)
    {
      inputs := [];
      ghost var t := Tables();
      assert u.inputs[..0] == [];
      for i := 0 to |u.inputs|
        invariant |inputs| == i && forall j :: 0 <= j < i ==> inputs[j] == ReadOne(t, u.inputs[j])
        invariant renameDict == EnteredAll(t.dict, u.inputs[..i])
      {
        var input := u.inputs[i];
        assert u.inputs[..i + 1][..i] == u.inputs[..i];
        match input {
          case Pseudo(id) => {
            inputs := inputs + [curInstrPseudoOpDict[id]];
          }
          case Named(k) => {
            EnteringHidden(t.dict, u.inputs[..i], k);
            inputs := inputs + [Lookup(renameDict, k)];
            renameDict := Entered(renameDict, k);
          }
        }
      }
      assert u.inputs[..|u.inputs|] == u.inputs;
    }

    /** Gives every output of a uop an operand of its own. */
    method RenameOutputs(uop: nat, outputs: seq<Source>)
      modifies `curInstrRndRenameDict, `curInstrPseudoOpDict
      ensures Tables() == Write(old(Tables()), uop, outputs)
    {
      ghost var t := Tables();
      assert outputs[..0] == [];
      for slot := 0 to |outputs|
        invariant Tables() == Write(t, uop, outputs[..slot])
      {
        assert outputs[..slot + 1][..slot] == outputs[..slot];
        match outputs[slot] {
          case Pseudo(id) => {
            curInstrPseudoOpDict := curInstrPseudoOpDict[id := Output(uop, slot)];
          }
          case Named(k) => {
            curInstrRndRenameDict := curInstrRndRenameDict[k := Output(uop, slot)];
          }
        }
      }
      assert outputs[..|outputs|] == outputs;
    }

    /** An eliminated move makes its output share the operand of its input. */
    method EliminateMove(m: Move)
      requires m.src.Gpr? || m.src.Simd?
      modifies `renameDict, `curInstrRndRenameDict, `multiUseGPRDict, `multiUseSIMDDict
      ensures var r := Lookup(old(renameDict), m.src);
              && renameDict == Entered(old(renameDict), m.src)
              && curInstrRndRenameDict == old(curInstrRndRenameDict)[m.dst := r]
              && multiUseGPRDict ==
                 (if m.src.Gpr? then Shared(old(multiUseGPRDict), r, m) else old(multiUseGPRDict))
              && multiUseSIMDDict ==
                 (if m.src.Simd? then Shared(old(multiUseSIMDDict), r, m) else old(multiUseSIMDDict))
    {
      var r := Lookup(renameDict, m.src);
      renameDict := Entered(renameDict, m.src);
      curInstrRndRenameDict := curInstrRndRenameDict[m.dst := r];
      if m.src.Gpr? {
        multiUseGPRDict := Shared(multiUseGPRDict, r, m);
      } else {
        multiUseSIMDDict := Shared(multiUseSIMDDict, r, m);
      }
    }

    /** The registers that the instruction has written no longer use their old operands. */
    method DropOldUses(eliminated: bool)
      modifies `multiUseGPRDict, `multiUseSIMDDict
      ensures multiUseGPRDict ==
              Dropped(old(multiUseGPRDict), renameDict, curInstrRndRenameDict, eliminated, GprClass)
      ensures multiUseSIMDDict ==
              Dropped(old(multiUseSIMDDict), renameDict, curInstrRndRenameDict, eliminated, SimdClass)
    {
      ghost var g, s := multiUseGPRDict, multiUseSIMDDict;
      var keys := curInstrRndRenameDict.Keys;
      ghost var d, cur := renameDict, curInstrRndRenameDict;
      NothingDropped(g, d, eliminated, GprClass, cur, keys);
      NothingDropped(s, d, eliminated, SimdClass, cur, keys);
      while keys != {}
        invariant keys <= cur.Keys
        invariant multiUseGPRDict == DroppedBut(g, d, cur, eliminated, GprClass, keys)
        invariant multiUseSIMDDict == DroppedBut(s, d, cur, eliminated, SimdClass, keys)
        decreases |keys|
      {
        hide DroppedBut;
        var k :| k in keys;
        assert keys - {k} + {k} == keys;
        keys := keys - {k};
        DropOneMore(g, d, cur, eliminated, GprClass, keys, k);
        DropOneMore(s, d, cur, eliminated, SimdClass, keys, k);
        if k in renameDict {
          var prev := renameDict[k];
          if !eliminated || prev != curInstrRndRenameDict[k] {
            if k.Gpr? && prev in multiUseGPRDict {
              multiUseGPRDict := multiUseGPRDict[prev := multiUseGPRDict[prev] - {k}];
            } else if k.Simd? && prev in multiUseSIMDDict {
              multiUseSIMDDict := multiUseSIMDDict[prev := multiUseSIMDDict[prev] - {k}];
            }
          }
        }
      }
      AllDropped(g, d, cur, eliminated, GprClass);
      AllDropped(s, d, cur, eliminated, SimdClass);
    }

    /** Renames a uop; at the end of its instruction the written registers become visible. */
    method RenameUop(u: Uop, eliminated: bool) returns (inputs: seq<Operand>)
      requires CanRename(Tables(), u, eliminated) && (eliminated ==> ClassOf(u).Some?)
      modifies `renameDict, `curInstrRndRenameDict, `curInstrPseudoOpDict, `multiUseGPRDict, `multiUseSIMDDict
      ensures Tables() == AfterUop(old(Tables()), u, eliminated)
      ensures inputs == RenamedInputs(old(Tables()), u, eliminated)
      ensures multiUseGPRDict == UsesAfterUop(old(multiUseGPRDict), old(Tables()), u, eliminated, GprClass)
      ensures multiUseSIMDDict == UsesAfterUop(old(multiUseSIMDDict), old(Tables()), u, eliminated, SimdClass)
    {
      hide Dropped, Shared, Write, EnteredAll, Lookup;
      inputs := [];
      if eliminated {
        EliminateMove(u.move.value);
      } else if u.hasUops {
        inputs := RenameInputs(u);
        RenameOutputs(u.idx, u.outputs);
      } else {
        RenameOutputs(u.idx, NamedAll(u.zeroed));
      }
      if u.endsInstr {
        DropOldUses(eliminated);
        renameDict := renameDict + curInstrRndRenameDict;
        curInstrRndRenameDict, curInstrPseudoOpDict := map[], map[];
      }
    }

    /** Renames the next uop of a cycle. */
    method RenameNext(u: Uop, eliminated: bool) returns (inputs: seq<Operand>)
      requires Exactly() && FromBeginning() && CanRename(Tables(), u, eliminated) && u.idx !in seen
      requires eliminated ==>
                 && ClassOf(u).Some? && atStart && u.endsInstr
                 && (u.move.value.src.Gpr? <==> u.move.value.dst.Gpr?)
                 && (u.move.value.src.Simd? <==> u.move.value.dst.Simd?)
      modifies `renameDict, `curInstrRndRenameDict, `curInstrPseudoOpDict, `multiUseGPRDict, `multiUseSIMDDict,
               `earlier, `seen, `atStart, `history, `eliminations
      ensures Exactly() && FromBeginning() && Tables() == AfterUop(old(Tables()), u, eliminated)
      ensures inputs == RenamedInputs(old(Tables()), u, eliminated)
      ensures seen == old(seen) + {u.idx} && atStart == u.endsInstr
      ensures history == old(history) + [u] && eliminations == old(eliminations) + [eliminated]
      ensures multiUseGPRDict == UsesAfterUop(old(multiUseGPRDict), old(Tables()), u, eliminated, GprClass)
      ensures multiUseSIMDDict == UsesAfterUop(old(multiUseSIMDDict), old(Tables()), u, eliminated, SimdClass)
    {
      hide Tracks, AfterUop, UsesAfterUop, RenamedInputs, CanRename, CanRenameAll, AfterAll, NewUops, Indices;
      ghost var t := Tables();
      RenamingTracks(t, multiUseGPRDict, GprClass, earlier, seen, u, eliminated);
      RenamingTracks(t, multiUseSIMDDict, SimdClass, earlier, seen, u, eliminated);
      NextPassed(t, u, eliminated);
      RunContinues(history, eliminations, u, eliminated);
      inputs := RenameUop(u, eliminated);
      seen := seen + {u.idx};
      earlier, atStart := if u.endsInstr then seen else earlier, u.endsInstr;
      history, eliminations := history + [u], eliminations + [eliminated];
    }

    /** Renames the uops of a cycle in order. */
    method RenameAll(us: seq<Uop>, eliminated: seq<bool>) returns (inputs: seq<seq<Operand>>)
      requires |eliminated| == |us| && forall i :: 0 <= i < |us| && eliminated[i] ==> ClassOf(us[i]).Some?
      requires Exactly() && FromBeginning() && WellFormed(us, curInstrPseudoOpDict.Keys, atStart, seen)
      modifies `renameDict, `curInstrRndRenameDict, `curInstrPseudoOpDict, `multiUseGPRDict, `multiUseSIMDDict,
               `earlier, `seen, `atStart, `history, `eliminations
      ensures Exactly() && CanRenameAll(old(Tables()), us, eliminated)
      ensures Tables() == AfterAll(old(Tables()), us, eliminated)
      ensures inputs == InputsOfAll(old(Tables()), us, eliminated)
      ensures FromBeginning() && history == old(history) + us && eliminations == old(eliminations) + eliminated
      ensures multiUseGPRDict == UsesAfterAll(old(multiUseGPRDict), old(Tables()), us, eliminated, GprClass)
      ensures multiUseSIMDDict == UsesAfterAll(old(multiUseSIMDDict), old(Tables()), us, eliminated, SimdClass)
    {
      hide Exactly, AfterUop, RenamedInputs, CanRename, PassedAfter, FromBeginning, WellFormed, CanRenameAll, AfterAll,
           InputsOfAll, UsesAfterAll, UsesAfterUop;
      ghost var t0, g, s := Tables(), multiUseGPRDict, multiUseSIMDDict;
      ghost var run, decided := history, eliminations;
      WellFormedRenames(t0, us, eliminated, atStart, seen);
      assert us[0..] == us && eliminated[0..] == eliminated;
      inputs := [];
      for i := 0 to |us|
        invariant |inputs| == i && Exactly() && WellFormed(us[i..], curInstrPseudoOpDict.Keys, atStart, seen)
        invariant CanRenameAll(Tables(), us[i..], eliminated[i..])
        invariant AfterAll(Tables(), us[i..], eliminated[i..]) == AfterAll(t0, us, eliminated)
        invariant FromBeginning() && history == run + us[..i] && eliminations == decided + eliminated[..i]
        invariant UsesAfterAll(multiUseGPRDict, Tables(), us[i..], eliminated[i..], GprClass) ==
                  UsesAfterAll(g, t0, us, eliminated, GprClass)
        invariant UsesAfterAll(multiUseSIMDDict, Tables(), us[i..], eliminated[i..], SimdClass) ==
                  UsesAfterAll(s, t0, us, eliminated, SimdClass)
        invariant inputs + InputsOfAll(Tables(), us[i..], eliminated[i..]) == InputsOfAll(t0, us, eliminated)
      {
        NextInRun(Tables(), us, eliminated, i, atStart, seen);
        NextUses(multiUseGPRDict, Tables(), us, eliminated, i, GprClass);
        NextUses(multiUseSIMDDict, Tables(), us, eliminated, i, SimdClass);
        assert us[..i + 1] == us[..i] + [us[i]] && eliminated[..i + 1] == eliminated[..i] + [eliminated[i]];
        var renamed := RenameNext(us[i], eliminated[i]);
        inputs := inputs + [renamed];
      }
      assert us[..|us|] == us && eliminated[..|us|] == eliminated;
      NoneLeft(Tables(), us, eliminated);
      NoUsesLeft(multiUseGPRDict, Tables(), us, eliminated, GprClass);
      NoUsesLeft(multiUseSIMDDict, Tables(), us, eliminated, SimdClass);
    }

    /** Operands with few users are forgotten when no move was eliminated. */
    method PruneUses(nGPRMoveElim: nat, nSIMDMoveElim: nat)
      requires Exactly()
      modifies `multiUseGPRDict, `multiUseSIMDDict
      ensures Exactly()
      ensures multiUseGPRDict == (if nGPRMoveElim == 0 && !c.gprAllAliasesMustBeOverwritten
                                  then Pruned(old(multiUseGPRDict), 1) else old(multiUseGPRDict))
      ensures multiUseSIMDDict ==
              (if nSIMDMoveElim == 0 then Pruned(old(multiUseSIMDDict), 1) else old(multiUseSIMDDict))
    {
      hide Tracks, Pruned;
      PrunedTracks(Tables(), multiUseGPRDict, GprClass, earlier, seen, 1);
      PrunedTracks(Tables(), multiUseSIMDDict, SimdClass, earlier, seen, 1);
      if nGPRMoveElim == 0 && !c.gprAllAliasesMustBeOverwritten {
        multiUseGPRDict := Pruned(multiUseGPRDict, 1);
      }
      if nSIMDMoveElim == 0 {
        multiUseSIMDDict := Pruned(multiUseSIMDDict, 1);
      }
    }

    /** Records the eliminated moves and the shared operands of the cycle. */
    method RecordEliminations(nGPRMoveElim: nat, nSIMDMoveElim: nat)
      requires Exactly()
      modifies `nGPRMoveElimInCycle, `nSIMDMoveElimInCycle, `multiUseGPRDict, `multiUseSIMDDict,
               `multiUseGPRDictUseInCycle, `multiUseSIMDDictUseInCycle
      ensures Exactly()
      ensures nGPRMoveElimInCycle == old(nGPRMoveElimInCycle)[renamerActiveCycle := nGPRMoveElim]
      ensures nSIMDMoveElimInCycle == old(nSIMDMoveElimInCycle)[renamerActiveCycle := nSIMDMoveElim]
      ensures multiUseGPRDict == Pruned(old(multiUseGPRDict), 0)
      ensures multiUseSIMDDict == Pruned(old(multiUseSIMDDict), 0)
      ensures multiUseGPRDictUseInCycle ==
              UsesRecorded(old(multiUseGPRDictUseInCycle), renamerActiveCycle, multiUseGPRDict)
      ensures multiUseSIMDDictUseInCycle ==
              UsesRecorded(old(multiUseSIMDDictUseInCycle), renamerActiveCycle, multiUseSIMDDict)
    {
      hide Exactly, UsesRecorded, Pruned;
      nGPRMoveElimInCycle := nGPRMoveElimInCycle[renamerActiveCycle := nGPRMoveElim];
      nSIMDMoveElimInCycle := nSIMDMoveElimInCycle[renamerActiveCycle := nSIMDMoveElim];
      RecordUses();
    }

    /** Records the shared operands of the cycle. */
    method RecordUses()
      requires Exactly()
      modifies `multiUseGPRDict, `multiUseSIMDDict, `multiUseGPRDictUseInCycle, `multiUseSIMDDictUseInCycle
      ensures Exactly()
      ensures multiUseGPRDict == Pruned(old(multiUseGPRDict), 0)
      ensures multiUseSIMDDict == Pruned(old(multiUseSIMDDict), 0)
      ensures multiUseGPRDictUseInCycle ==
              UsesRecorded(old(multiUseGPRDictUseInCycle), renamerActiveCycle, multiUseGPRDict)
      ensures multiUseSIMDDictUseInCycle ==
              UsesRecorded(old(multiUseSIMDDictUseInCycle), renamerActiveCycle, multiUseSIMDDict)
    {
      hide Tracks, Pruned;
      PrunedTracks(Tables(), multiUseGPRDict, GprClass, earlier, seen, 0);
      PrunedTracks(Tables(), multiUseSIMDDict, SimdClass, earlier, seen, 0);
      multiUseGPRDict := Pruned(multiUseGPRDict, 0);
      if multiUseGPRDict != map[] {
        multiUseGPRDictUseInCycle := multiUseGPRDictUseInCycle[renamerActiveCycle := |multiUseGPRDict|];
      }
      multiUseSIMDDict := Pruned(multiUseSIMDDict, 0);
      if multiUseSIMDDict != map[] {
        multiUseSIMDDictUseInCycle := multiUseSIMDDictUseInCycle[renamerActiveCycle := |multiUseSIMDDict|];
      }
    }

    /** Renames the uops of a cycle, given which of their moves are eliminated. */
    method RenameAndRecord(us: seq<Uop>, eliminated: seq<bool>, nGPRMoveElim: nat, nSIMDMoveElim: nat)
      returns (inputs: seq<seq<Operand>>)
      requires |eliminated| == |us| && forall i :: 0 <= i < |us| && eliminated[i] ==> ClassOf(us[i]).Some?
      requires Exactly() && FromBeginning() && WellFormed(us, curInstrPseudoOpDict.Keys, atStart, seen)
      modifies `renameDict, `curInstrRndRenameDict, `curInstrPseudoOpDict, `multiUseGPRDict, `multiUseSIMDDict,
               `earlier, `seen, `atStart, `history, `eliminations, `nGPRMoveElimInCycle, `nSIMDMoveElimInCycle,
               `multiUseGPRDictUseInCycle, `multiUseSIMDDictUseInCycle
      ensures Exactly() && FromBeginning() && history == old(history) + us
      ensures eliminations == old(eliminations) + eliminated && CanRenameAll(old(Tables()), us, eliminated)
      ensures Tables() == AfterAll(old(Tables()), us, eliminated)
      ensures inputs == InputsOfAll(old(Tables()), us, eliminated)
      ensures nGPRMoveElimInCycle == old(nGPRMoveElimInCycle)[renamerActiveCycle := nGPRMoveElim]
      ensures nSIMDMoveElimInCycle == old(nSIMDMoveElimInCycle)[renamerActiveCycle := nSIMDMoveElim]
      ensures multiUseGPRDict ==
              UsesAfterCycle(old(multiUseGPRDict), old(Tables()), us, eliminated, GprClass,
                             nGPRMoveElim == 0 && !c.gprAllAliasesMustBeOverwritten)
      ensures multiUseSIMDDict ==
              UsesAfterCycle(old(multiUseSIMDDict), old(Tables()), us, eliminated, SimdClass, nSIMDMoveElim == 0)
      ensures multiUseGPRDictUseInCycle ==
              UsesRecorded(old(multiUseGPRDictUseInCycle), renamerActiveCycle, multiUseGPRDict)
      ensures multiUseSIMDDictUseInCycle ==
              UsesRecorded(old(multiUseSIMDDictUseInCycle), renamerActiveCycle, multiUseSIMDDict)
    {
      hide Exactly, WellFormed, CanRenameAll, Pruned, AfterAll, InputsOfAll, FromBeginning, UsesAfterAll, UsesRecorded,
           ClassOf;
      PruneUses(nGPRMoveElim, nSIMDMoveElim);
      inputs := RenameAll(us, eliminated);
      RecordEliminations(nGPRMoveElim, nSIMDMoveElim);
    }

    /** Renames the uops of an active cycle. */
    method Cycle(us: seq<Uop>) returns (eliminated: seq<bool>, inputs: seq<seq<Operand>>)
      requires Valid() && WellFormed(us, curInstrPseudoOpDict.Keys, atStart, seen)
      modifies this
      ensures Valid() && renamerActiveCycle == old(renamerActiveCycle) + 1 && |eliminated| == |us|
      ensures forall i :: 0 <= i < |us| && ClassOf(us[i]) == Some(GprClass) ==>
                (eliminated[i] <==>
                   c.gprSlots == None ||
                   Count(us[..i], eliminated[..i], GprClass)
                   + Window(old(nGPRMoveElimInCycle), old(renamerActiveCycle), if c.pipelineLength == 0 then 0 else c.pipelineLength - 1)
                   + Recorded(old(multiUseGPRDictUseInCycle), old(renamerActiveCycle) + 1 - c.pipelineLength)
                   < c.gprSlots.value)
      ensures forall i :: 0 <= i < |us| && ClassOf(us[i]) == Some(SimdClass) ==>
                (eliminated[i] <==>
                   c.simdSlots == None ||
                   Count(us[..i], eliminated[..i], SimdClass)
                   + Window(old(nSIMDMoveElimInCycle), old(renamerActiveCycle), if c.pipelineLength == 0 then 0 else c.pipelineLength - 1)
                   + Recorded(old(multiUseSIMDDictUseInCycle), old(renamerActiveCycle) + 1 - c.pipelineLength)
                   < c.simdSlots.value)
      ensures forall i :: 0 <= i < |us| && eliminated[i] ==> ClassOf(us[i]).Some?
      ensures CanRenameAll(old(Tables()), us, eliminated) && Tables() == AfterAll(old(Tables()), us, eliminated)
      ensures inputs == InputsOfAll(old(Tables()), us, eliminated)
      ensures nGPRMoveElimInCycle == old(nGPRMoveElimInCycle)[renamerActiveCycle := Count(us, eliminated, GprClass)]
      ensures nSIMDMoveElimInCycle == old(nSIMDMoveElimInCycle)[renamerActiveCycle := Count(us, eliminated, SimdClass)]
      ensures multiUseGPRDict ==
              UsesAfterCycle(old(multiUseGPRDict), old(Tables()), us, eliminated, GprClass,
                             Count(us, eliminated, GprClass) == 0 && !c.gprAllAliasesMustBeOverwritten)
      ensures multiUseSIMDDict ==
              UsesAfterCycle(old(multiUseSIMDDict), old(Tables()), us, eliminated, SimdClass,
                             Count(us, eliminated, SimdClass) == 0)
      ensures multiUseGPRDictUseInCycle ==
              UsesRecorded(old(multiUseGPRDictUseInCycle), renamerActiveCycle, multiUseGPRDict)
      ensures multiUseSIMDDictUseInCycle ==
              UsesRecorded(old(multiUseSIMDDictUseInCycle), renamerActiveCycle, multiUseSIMDDict)
      ensures history == old(history) + us && eliminations == old(eliminations) + eliminated
    {
      hide Exactly, Tracks, Greedy, WellFormed, CanRenameAll, SlotsKeptOf, Count, Allowed, Pruned, AfterAll, InputsOfAll,
           FromBeginning, UsesAfterCycle, UsesRecorded;
      ghost var active := renamerActiveCycle;
      renamerActiveCycle := renamerActiveCycle + 1;
      var nGPRMoveElim, nSIMDMoveElim;
      eliminated, nGPRMoveElim, nSIMDMoveElim := DecideEliminations(us);
      ghost var n, used, m, shared := nGPRMoveElimInCycle, multiUseGPRDictUseInCycle, nSIMDMoveElimInCycle,
                                      multiUseSIMDDictUseInCycle;
      GreedyMeans(us, eliminated, GprClass, c.gprSlots, n, used, renamerActiveCycle, c.pipelineLength);
      GreedyMeans(us, eliminated, SimdClass, c.simdSlots, m, shared, renamerActiveCycle, c.pipelineLength);
      inputs := RenameAndRecord(us, eliminated, nGPRMoveElim, nSIMDMoveElim);
      UsesRecordedNow(used, renamerActiveCycle, multiUseGPRDict);
      UsesRecordedNow(shared, renamerActiveCycle, multiUseSIMDDict);
      SlotsRecorded(n, used, c.gprSlots, c.pipelineLength, active, nGPRMoveElim, multiUseGPRDictUseInCycle);
      SlotsRecorded(m, shared, c.simdSlots, c.pipelineLength, active, nSIMDMoveElim, multiUseSIMDDictUseInCycle);
    }
  }

  lemma NothingRecorded(length: nat)
    ensures forall slots: nat :: WithinSlots(map[], length, slots)
  {
    forall last: int
      ensures Window(map[], last, length) == 0
    {
      EmptyWindow(last, length);
    }
  }

  lemma {:induction false} EmptyWindow(last: int, length: nat)
    ensures Window(map[], last, length) == 0
    decreases length
  {
    if length > 0 {
      EmptyWindow(last - 1, length - 1);
    }
  }

  lemma GreedySnoc(us: seq<Uop>, eliminated: seq<bool>, i: nat, e: bool, c: Class, slots: Option<nat>, possible: int)
    requires i < |us| && |eliminated| == i && Greedy(us[..i], eliminated, c, slots, possible)
    requires ClassOf(us[i]) == Some(c) ==> (e <==> SlotLeft(slots, possible, Count(us[..i], eliminated, c)))
    ensures Greedy(us[..i + 1], eliminated + [e], c, slots, possible)
  {
    var vs, el := us[..i + 1], eliminated + [e];
    forall k | 0 <= k < i + 1 && ClassOf(vs[k]) == Some(c)
      ensures el[k] <==> SlotLeft(slots, possible, Count(vs[..k], el[..k], c))
    {
      assert vs[..k] == us[..i][..k] == us[..k];
      if k < i {
        assert el[..k] == eliminated[..k] && us[..i][k] == us[k];
      } else {
        assert el[..k] == eliminated;
      }
    }
  }

  /** The old uses dropped so far, `todo` being the written registers not looked at. */
  function DroppedBut(uses: Uses, dict: map<Key, Operand>, cur: map<Key, Operand>, eliminated: bool, c: Class,
                      todo: set<Key>): Uses
  {
    map r | r in uses :: set k | k in uses[r] && (k in todo || !Drops(dict, cur, eliminated, c, r, k))
  }

  lemma NothingDropped(uses: Uses, dict: map<Key, Operand>, eliminated: bool, c: Class, cur: map<Key, Operand>,
                       keys: set<Key>)
    requires keys == cur.Keys
    ensures DroppedBut(uses, dict, cur, eliminated, c, keys) == uses
  {
    forall r | r in uses
      ensures DroppedBut(uses, dict, cur, eliminated, c, keys)[r] == uses[r]
    {}
  }

  lemma AllDropped(uses: Uses, dict: map<Key, Operand>, cur: map<Key, Operand>, eliminated: bool, c: Class)
    ensures DroppedBut(uses, dict, cur, eliminated, c, {}) == Dropped(uses, dict, cur, eliminated, c)
  {
    forall r | r in uses
      ensures DroppedBut(uses, dict, cur, eliminated, c, {})[r] == Dropped(uses, dict, cur, eliminated, c)[r]
    {}
  }

  lemma DropOneMore(uses: Uses, dict: map<Key, Operand>, cur: map<Key, Operand>, eliminated: bool, c: Class,
                    keys: set<Key>, k: Key)
    requires k !in keys && k in cur
    ensures var before := DroppedBut(uses, dict, cur, eliminated, c, keys + {k});
            var after := DroppedBut(uses, dict, cur, eliminated, c, keys);
            if k in dict && InClass(k, c) && (!eliminated || dict[k] != cur[k]) && dict[k] in before
            then after == before[dict[k] := before[dict[k]] - {k}]
            else after == before
  {
    var before := DroppedBut(uses, dict, cur, eliminated, c, keys + {k});
    var after := DroppedBut(uses, dict, cur, eliminated, c, keys);
    forall r | r in uses
      ensures after[r] == if Drops(dict, cur, eliminated, c, r, k) then before[r] - {k} else before[r]
    {}
  }

  /** The first of the uops that are left, and what is left after it. */
  lemma NextInRun(t: Renaming.Tables, us: seq<Uop>, eliminated: seq<bool>, i: nat, start: bool, seen: set<nat>)
    requires |us| == |eliminated| && i < |us| && CanRenameAll(t, us[i..], eliminated[i..])
    requires WellFormed(us[i..], t.pseudo.Keys, start, seen) && (eliminated[i] ==> ClassOf(us[i]).Some?)
    ensures us[i].idx !in seen && CanRename(t, us[i], eliminated[i])
    ensures eliminated[i] ==>
              && start && us[i].endsInstr
              && (us[i].move.value.src.Gpr? <==> us[i].move.value.dst.Gpr?)
              && (us[i].move.value.src.Simd? <==> us[i].move.value.dst.Simd?)
    ensures var next := AfterUop(t, us[i], eliminated[i]);
            && WellFormed(us[i + 1..], next.pseudo.Keys, us[i].endsInstr, seen + {us[i].idx})
            && CanRenameAll(next, us[i + 1..], eliminated[i + 1..])
            && AfterAll(next, us[i + 1..], eliminated[i + 1..]) == AfterAll(t, us[i..], eliminated[i..])
            && InputsOfAll(t, us[i..], eliminated[i..]) ==
               [RenamedInputs(t, us[i], eliminated[i])] + InputsOfAll(next, us[i + 1..], eliminated[i + 1..])
  {
    hide AfterUop, RenamedInputs, PassedAfter, CanRename;
    assert us[i..][1..] == us[i + 1..] && eliminated[i..][1..] == eliminated[i + 1..];
    MoveOfClass(us[i]);
    assert eliminated[i] ==> us[i].endsInstr;
    NextPassed(t, us[i], eliminated[i]);
  }

  lemma NextUses(uses: Uses, t: Renaming.Tables, us: seq<Uop>, eliminated: seq<bool>, i: nat, c: Class)
    requires |us| == |eliminated| && i < |us| && CanRenameAll(t, us[i..], eliminated[i..])
    requires CanRename(t, us[i], eliminated[i])
    requires CanRenameAll(AfterUop(t, us[i], eliminated[i]), us[i + 1..], eliminated[i + 1..])
    ensures UsesAfterAll(uses, t, us[i..], eliminated[i..], c) ==
            UsesAfterAll(UsesAfterUop(uses, t, us[i], eliminated[i], c), AfterUop(t, us[i], eliminated[i]),
                         us[i + 1..], eliminated[i + 1..], c)
  {
    hide AfterUop, UsesAfterUop, CanRename;
    assert us[i..][1..] == us[i + 1..] && eliminated[i..][1..] == eliminated[i + 1..];
  }

  lemma NoUsesLeft(uses: Uses, t: Renaming.Tables, us: seq<Uop>, eliminated: seq<bool>, c: Class)
    requires |us| == |eliminated| && CanRenameAll(t, us[|us|..], eliminated[|us|..])
    ensures UsesAfterAll(uses, t, us[|us|..], eliminated[|us|..], c) == uses
  {}

  lemma NoneLeft(t: Renaming.Tables, us: seq<Uop>, eliminated: seq<bool>)
    requires |us| == |eliminated|
    ensures var n := |us|;
            && CanRenameAll(t, us[n..], eliminated[n..]) && AfterAll(t, us[n..], eliminated[n..]) == t
            && InputsOfAll(t, us[n..], eliminated[n..]) == []
  {}

  lemma MoveOfClass(u: Uop)
    ensures ClassOf(u).Some? ==> u.move.Some?
  {}

  /** The renamed operands that the uops of a run read. */
  function InputsOfAll(t: Renaming.Tables, us: seq<Uop>, eliminated: seq<bool>): (r: seq<seq<Operand>>)
    requires |us| == |eliminated| && CanRenameAll(t, us, eliminated)
    ensures |r| == |us|
    decreases |us|
  {
    if us == [] then []
    else
      [RenamedInputs(t, us[0], eliminated[0])] +
      InputsOfAll(AfterUop(t, us[0], eliminated[0]), us[1..], eliminated[1..])
  }

  lemma NextPassed(t: Renaming.Tables, u: Uop, eliminated: bool)
    requires CanRename(t, u, eliminated) && (eliminated ==> u.endsInstr)
    ensures AfterUop(t, u, eliminated).pseudo.Keys == if u.endsInstr then {} else PassedAfter(u, t.pseudo.Keys)
    ensures u.endsInstr ==> AfterUop(t, u, eliminated).cur == map[] && AfterUop(t, u, eliminated).pseudo == map[]
  {
    if u.endsInstr {
      CurAfter(t, u, eliminated);
    } else {
      PassedKeys(t, u);
    }
  }

  /** Well-formed uops can be renamed, whichever of their moves are eliminated. */
  lemma {:induction false} WellFormedRenames(t: Renaming.Tables, us: seq<Uop>, eliminated: seq<bool>, start: bool,
                                             seen: set<nat>)
    requires |us| == |eliminated| && WellFormed(us, t.pseudo.Keys, start, seen)
    requires forall i :: 0 <= i < |us| && eliminated[i] ==> us[i].move.Some?
    ensures CanRenameAll(t, us, eliminated)
    decreases |us|
  {
    hide AfterUop, PassedAfter;
    if us != [] {
      NextPassed(t, us[0], eliminated[0]);
      WellFormedRenames(AfterUop(t, us[0], eliminated[0]), us[1..], eliminated[1..], us[0].endsInstr,
                        seen + {us[0].idx});
    }
  }
}

/** Register renaming as a function on the renaming tables, and what it means: the uops compute through their renamed
    operands what the instructions compute one after the other on the registers. */
module Renaming {
  import opened Wrappers

  /** The key of a register, canonical, or of flags. */
  datatype Key = Gpr(name: string) | Simd(name: string) | Flags(name: string)

  /** An operand of a uop: a register or flags, or a value passed between the uops of one instruction. */
  datatype Source = Pseudo(id: nat) | Named(key: Key)

  datatype Move = Move(src: Key, dst: Key)

  /** A uop. One of an instruction without uops, as `xor rax, rax`, only writes the registers `zeroed`; `move` tells
      that it may be eliminated. */
  datatype Uop = Uop(idx: nat, hasUops: bool, inputs: seq<Source>, outputs: seq<Source>, zeroed: seq<Key>,
                     move: Option<Move>, endsInstr: bool)

  /** Who writes a renamed operand: nobody, or an output of a uop. */
  datatype Operand = Initial(key: Key) | Output(uop: nat, slot: nat)

  /** The tables of the renamer: the registers, and what the uops of the current instruction have written. */
  datatype Tables = Tables(dict: map<Key, Operand>, cur: map<Key, Operand>, pseudo: map<nat, Operand>)

  function Lookup(dict: map<Key, Operand>, k: Key): Operand {
    if k in dict then dict[k] else Initial(k)
  }

  /** Looking a register up enters it (`setdefault`). */
  function Entered(dict: map<Key, Operand>, k: Key): map<Key, Operand> {
    dict[k := Lookup(dict, k)]
  }

  function EnteredAll(dict: map<Key, Operand>, inputs: seq<Source>): map<Key, Operand> {
    if inputs == [] then dict
    else
      var last := inputs[|inputs| - 1];
      var d := EnteredAll(dict, inputs[..|inputs| - 1]);
      if last.Named? then Entered(d, last.key) else d
  }

  /** The values that are passed within an instruction have been written before. */
  predicate Readable(pseudo: map<nat, Operand>, inputs: seq<Source>) {
    forall i :: i in inputs && i.Pseudo? ==> i.id in pseudo
  }

  function ReadOne(t: Tables, input: Source): Operand
    requires input.Pseudo? ==> input.id in t.pseudo
  {
    match input
    case Pseudo(id) => t.pseudo[id]
    case Named(k) => Lookup(t.dict, k)
  }

  function Read(t: Tables, inputs: seq<Source>): (r: seq<Operand>)
    requires Readable(t.pseudo, inputs)
    ensures |r| == |inputs|
  {
    seq(|inputs|, i requires 0 <= i < |inputs| => ReadOne(t, inputs[i]))
  }

  function Write(t: Tables, uop: nat, outputs: seq<Source>): Tables {
    if outputs == [] then t
    else
      var slot := |outputs| - 1;
      var s := Write(t, uop, outputs[..slot]);
      match outputs[slot]
      case Pseudo(id) => s.(pseudo := s.pseudo[id := Output(uop, slot)])
      case Named(k) => s.(cur := s.cur[k := Output(uop, slot)])
  }

  function NamedAll(keys: seq<Key>): (r: seq<Source>)
    ensures |r| == |keys| && forall i :: 0 <= i < |keys| ==> r[i] == Named(keys[i])
  {
    seq(|keys|, i requires 0 <= i < |keys| => Named(keys[i]))
  }

  /** At the end of an instruction, what its uops have written becomes visible. */
  function Committed(t: Tables): Tables {
    Tables(t.dict + t.cur, map[], map[])
  }

  predicate CanRename(t: Tables, u: Uop, eliminated: bool) {
    (eliminated ==> u.move.Some?) && (!eliminated && u.hasUops ==> Readable(t.pseudo, u.inputs))
  }

  function RenamedInputs(t: Tables, u: Uop, eliminated: bool): seq<Operand>
    requires CanRename(t, u, eliminated)
  {
    if eliminated || !u.hasUops then [] else Read(t, u.inputs)
  }

  /** The tables after a uop, before the end of its instruction is considered. */
  function Renamed(t: Tables, u: Uop, eliminated: bool): Tables
    requires CanRename(t, u, eliminated)
  {
    if eliminated then
      var m := u.move.value;
      t.(dict := Entered(t.dict, m.src), cur := t.cur[m.dst := Lookup(t.dict, m.src)])
    else if u.hasUops then Write(t.(dict := EnteredAll(t.dict, u.inputs)), u.idx, u.outputs)
    else Write(t, u.idx, NamedAll(u.zeroed))
  }

  function AfterUop(t: Tables, u: Uop, eliminated: bool): Tables
    requires CanRename(t, u, eliminated)
  {
    var s := Renamed(t, u, eliminated);
    if u.endsInstr then Committed(s) else s
  }

  // The sequential meaning of the uops

  /** The registers, and what the uops of the current instruction have computed. */
  datatype Values = Values(regs: Key -> int, written: map<Key, int>, passed: map<nat, int>)

  /** What the uops compute: the value of an output of a uop, given those of its inputs. */
  type Computation = (nat, nat, seq<int>) -> int

  predicate Known(v: Values, inputs: seq<Source>) {
    forall i :: i in inputs && i.Pseudo? ==> i.id in v.passed
  }

  function ValueOf(v: Values, input: Source): int
    requires input.Pseudo? ==> input.id in v.passed
  {
    match input
    case Pseudo(id) => v.passed[id]
    case Named(k) => v.regs(k)
  }

  function Fetch(v: Values, inputs: seq<Source>): (r: seq<int>)
    requires Known(v, inputs)
    ensures |r| == |inputs|
  {
    seq(|inputs|, i requires 0 <= i < |inputs| => ValueOf(v, inputs[i]))
  }

  function Store(v: Values, uop: nat, outputs: seq<Source>, f: Computation, ins: seq<int>): Values {
    if outputs == [] then v
    else
      var slot := |outputs| - 1;
      var w := Store(v, uop, outputs[..slot], f, ins);
      match outputs[slot]
      case Pseudo(id) => w.(passed := w.passed[id := f(uop, slot, ins)])
      case Named(k) => w.(written := w.written[k := f(uop, slot, ins)])
  }

  function Finished(v: Values): Values {
    Values(k => if k in v.written then v.written[k] else v.regs(k), map[], map[])
  }

  /** All uops of an instruction read the registers as they were before it. */
  function Executed(v: Values, u: Uop, f: Computation): Values
    requires u.hasUops ==> Known(v, u.inputs)
  {
    var w := if u.hasUops then Store(v, u.idx, u.outputs, f, Fetch(v, u.inputs))
             else Store(v, u.idx, NamedAll(u.zeroed), f, []);
    if u.endsInstr then Finished(w) else w
  }

  // Renaming preserves the meaning

  /** The value of an operand is what the uop that writes it computes from the values of its renamed inputs. */
  ghost predicate Flows(val: Operand -> int, t: Tables, u: Uop, eliminated: bool, f: Computation)
    requires CanRename(t, u, eliminated)
  {
    eliminated ||
    forall slot: nat :: val(Output(u.idx, slot)) == f(u.idx, slot, Valued(val, RenamedInputs(t, u, eliminated)))
  }

  function Valued(val: Operand -> int, ops: seq<Operand>): (r: seq<int>)
    ensures |r| == |ops|
  {
    seq(|ops|, i requires 0 <= i < |ops| => val(ops[i]))
  }

  /** An eliminated move would have copied its input. */
  ghost predicate MovesValue(u: Uop, f: Computation) {
    ReadsAndWrites(u) && forall v: int :: f(u.idx, 0, [v]) == v
  }

  /** A move is one uop that reads its source and writes its destination. */
  predicate ReadsAndWrites(u: Uop) {
    u.move.Some? ==>
      u.hasUops && u.inputs == [Named(u.move.value.src)] && u.outputs == [Named(u.move.value.dst)]
  }

  ghost predicate AgreeOn<K(!new)>(val: Operand -> int, ops: map<K, Operand>, values: map<K, int>) {
    ops.Keys == values.Keys && forall k :: k in ops ==> val(ops[k]) == values[k]
  }

  /** The renamed operands have the values that the registers have in the sequential execution. */
  ghost predicate Means(val: Operand -> int, t: Tables, v: Values) {
    && (forall k :: val(Lookup(t.dict, k)) == v.regs(k))
    && AgreeOn(val, t.cur, v.written) && AgreeOn(val, t.pseudo, v.passed)
  }

  lemma {:induction false} EnteringHidden(dict: map<Key, Operand>, inputs: seq<Source>, k: Key)
    ensures Lookup(EnteredAll(dict, inputs), k) == Lookup(dict, k)
  {
    if inputs != [] {
      EnteringHidden(dict, inputs[..|inputs| - 1], k);
    }
  }

  lemma {:induction false} WriteMeans(val: Operand -> int, t: Tables, v: Values, uop: nat, outputs: seq<Source>,
                                      f: Computation, ins: seq<int>)
    requires Means(val, t, v) && forall slot: nat :: val(Output(uop, slot)) == f(uop, slot, ins)
    ensures Means(val, Write(t, uop, outputs), Store(v, uop, outputs, f, ins))
  {
    if outputs != [] {
      WriteMeans(val, t, v, uop, outputs[..|outputs| - 1], f, ins);
    }
  }

  lemma ReadMeans(val: Operand -> int, t: Tables, v: Values, inputs: seq<Source>)
    requires Means(val, t, v) && Readable(t.pseudo, inputs)
    ensures Known(v, inputs) && Valued(val, Read(t, inputs)) == Fetch(v, inputs)
  {
    assert t.pseudo.Keys == v.passed.Keys;
  }

  lemma CommitMeans(val: Operand -> int, t: Tables, v: Values)
    requires Means(val, t, v)
    ensures Means(val, Committed(t), Finished(v))
  {
    forall k: Key
      ensures val(Lookup(Committed(t).dict, k)) == Finished(v).regs(k)
    {
      assert val(Lookup(t.dict, k)) == v.regs(k);
    }
  }

  /** Renaming a uop, whether it is eliminated or not, keeps the meaning of the tables. */
  lemma RenamingMeans(val: Operand -> int, t: Tables, v: Values, u: Uop, eliminated: bool, f: Computation)
    requires Means(val, t, v) && CanRename(t, u, eliminated) && Flows(val, t, u, eliminated, f)
    requires eliminated ==> MovesValue(u, f)
    ensures u.hasUops ==> Known(v, u.inputs)
    ensures Means(val, AfterUop(t, u, eliminated), Executed(v, u, f))
  {
    var s := Renamed(t, u, eliminated);
    if eliminated {
      EliminatedMeans(val, t, v, u, f);
    } else if u.hasUops {
      ReadMeans(val, t, v, u.inputs);
      var d := t.(dict := EnteredAll(t.dict, u.inputs));
      EnteredMeans(val, t, v, u.inputs);
      WriteMeans(val, d, v, u.idx, u.outputs, f, Fetch(v, u.inputs));
    } else {
      assert Valued(val, []) == [];
      WriteMeans(val, t, v, u.idx, NamedAll(u.zeroed), f, []);
    }
    hide Means, Write, Store;
    var w := if u.hasUops then Store(v, u.idx, u.outputs, f, Fetch(v, u.inputs))
             else Store(v, u.idx, NamedAll(u.zeroed), f, []);
    assert Means(val, s, w);
    CommitMeans(val, s, w);
  }

  lemma EnteredMeans(val: Operand -> int, t: Tables, v: Values, inputs: seq<Source>)
    requires Means(val, t, v)
    ensures Means(val, t.(dict := EnteredAll(t.dict, inputs)), v)
  {
    forall k: Key
      ensures val(Lookup(EnteredAll(t.dict, inputs), k)) == v.regs(k)
    {
      EnteringHidden(t.dict, inputs, k);
      assert val(Lookup(t.dict, k)) == v.regs(k);
    }
  }

  lemma EliminatedMeans(val: Operand -> int, t: Tables, v: Values, u: Uop, f: Computation)
    requires Means(val, t, v) && u.move.Some? && MovesValue(u, f)
    ensures Means(val, Renamed(t, u, true), Store(v, u.idx, u.outputs, f, Fetch(v, u.inputs)))
  {
    var m := u.move.value;
    var x := v.regs(m.src);
    assert Fetch(v, u.inputs) == [x];
    assert u.outputs[..0] == [];
    assert Store(v, u.idx, u.outputs, f, [x]) == v.(written := v.written[m.dst := x]);
    forall k: Key
      ensures val(Lookup(Entered(t.dict, m.src), k)) == v.regs(k)
    {
      assert val(Lookup(t.dict, k)) == v.regs(k);
    }
  }

  // Whole runs

  /** All uops of a run can be renamed with the given eliminations. */
  ghost predicate CanRenameAll(t: Tables, us: seq<Uop>, eliminated: seq<bool>)
    requires |us| == |eliminated|
    decreases |us|
  {
    us == [] ||
    (CanRename(t, us[0], eliminated[0]) && CanRenameAll(AfterUop(t, us[0], eliminated[0]), us[1..], eliminated[1..]))
  }

  function AfterAll(t: Tables, us: seq<Uop>, eliminated: seq<bool>): Tables
    requires |us| == |eliminated| && CanRenameAll(t, us, eliminated)
    decreases |us|
  {
    if us == [] then t else AfterAll(AfterUop(t, us[0], eliminated[0]), us[1..], eliminated[1..])
  }

  ghost predicate FlowsAll(val: Operand -> int, t: Tables, us: seq<Uop>, eliminated: seq<bool>, f: Computation)
    requires |us| == |eliminated| && CanRenameAll(t, us, eliminated)
    decreases |us|
  {
    us == [] ||
    (Flows(val, t, us[0], eliminated[0], f) &&
     FlowsAll(val, AfterUop(t, us[0], eliminated[0]), us[1..], eliminated[1..], f))
  }

  predicate Executable(v: Values, us: seq<Uop>, f: Computation)
    decreases |us|
  {
    us == [] ||
    ((us[0].hasUops ==> Known(v, us[0].inputs)) && Executable(Executed(v, us[0], f), us[1..], f))
  }

  function ExecutedAll(v: Values, us: seq<Uop>, f: Computation): Values
    requires Executable(v, us, f)
    decreases |us|
  {
    if us == [] then v else ExecutedAll(Executed(v, us[0], f), us[1..], f)
  }

  /** Every eliminated move would have copied its input. */
  ghost predicate MovesCopy(us: seq<Uop>, eliminated: seq<bool>, f: Computation)
    requires |us| == |eliminated|
  {
    forall i :: 0 <= i < |us| && eliminated[i] ==> MovesValue(us[i], f)
  }

  /** Renaming refines the sequential execution: whatever the uops compute and whichever moves are eliminated, after any
      run every register is renamed to an operand that has the value of the register. */
  lemma {:induction false} RenamingRefines(val: Operand -> int, t: Tables, v: Values, us: seq<Uop>,
                                           eliminated: seq<bool>, f: Computation)
    requires |us| == |eliminated| && CanRenameAll(t, us, eliminated) && FlowsAll(val, t, us, eliminated, f)
    requires Means(val, t, v) && MovesCopy(us, eliminated, f)
    ensures Executable(v, us, f)
    ensures Means(val, AfterAll(t, us, eliminated), ExecutedAll(v, us, f))
    decreases |us|
  {
    hide Means, AfterUop, Executed, Flows, MovesValue, CanRename, Known;
    if us != [] {
      RenamingMeans(val, t, v, us[0], eliminated[0], f);
      RenamingRefines(val, AfterUop(t, us[0], eliminated[0]), Executed(v, us[0], f), us[1..], eliminated[1..], f);
    }
  }

  /** Renaming more uops after a run continues the run. */
  lemma {:induction false} RenamingContinues(t: Tables, us: seq<Uop>, eliminated: seq<bool>, more: seq<Uop>,
                                             moreEliminated: seq<bool>)
    requires |us| == |eliminated| && |more| == |moreEliminated| && CanRenameAll(t, us, eliminated)
    requires CanRenameAll(AfterAll(t, us, eliminated), more, moreEliminated)
    ensures CanRenameAll(t, us + more, eliminated + moreEliminated)
    ensures AfterAll(t, us + more, eliminated + moreEliminated) ==
            AfterAll(AfterAll(t, us, eliminated), more, moreEliminated)
    decreases |us|
  {
    hide AfterUop, CanRename;
    if us == [] {
      assert us + more == more && eliminated + moreEliminated == moreEliminated;
    } else {
      assert (us + more)[1..] == us[1..] + more;
      assert (eliminated + moreEliminated)[1..] == eliminated[1..] + moreEliminated;
      RenamingContinues(AfterUop(t, us[0], eliminated[0]), us[1..], eliminated[1..], more, moreEliminated);
    }
  }

  // The uops determine the values of their operands

  /** An operand that nobody writes or that a uop already seen writes. */
  predicate SeenOperand(o: Operand, seen: set<nat>) {
    o.Output? ==> o.uop in seen
  }

  ghost predicate SeenOnly(t: Tables, seen: set<nat>) {
    && (forall k :: k in t.dict ==> SeenOperand(t.dict[k], seen))
    && (forall k :: k in t.cur ==> SeenOperand(t.cur[k], seen))
    && (forall id :: id in t.pseudo ==> SeenOperand(t.pseudo[id], seen))
  }

  /** Every uop of the run is a new one. */
  ghost predicate NewUops(us: seq<Uop>, seen: set<nat>)
    decreases |us|
  {
    us == [] || (us[0].idx !in seen && NewUops(us[1..], seen + {us[0].idx}))
  }

  function Indices(us: seq<Uop>): set<nat> {
    set u | u in us :: u.idx
  }

  lemma {:induction false} NewUopsContinue(us: seq<Uop>, u: Uop, seen: set<nat>)
    requires NewUops(us, seen) && u.idx !in seen + Indices(us)
    ensures NewUops(us + [u], seen) && Indices(us + [u]) == Indices(us) + {u.idx}
    decreases |us|
  {
    if us == [] {
      assert us + [u] == [u] && [u][1..] == [];
    } else {
      assert (us + [u])[1..] == us[1..] + [u];
      NewUopsContinue(us[1..], u, seen + {us[0].idx});
    }
  }

  lemma {:induction false} WriteSeen(t: Tables, uop: nat, outputs: seq<Source>, seen: set<nat>)
    requires SeenOnly(t, seen) && uop in seen
    ensures SeenOnly(Write(t, uop, outputs), seen)
  {
    if outputs != [] {
      WriteSeen(t, uop, outputs[..|outputs| - 1], seen);
    }
  }

  lemma {:induction false} EnteredSeen(t: Tables, inputs: seq<Source>, seen: set<nat>)
    requires SeenOnly(t, seen)
    ensures SeenOnly(t.(dict := EnteredAll(t.dict, inputs)), seen)
  {
    if inputs != [] {
      EnteredSeen(t, inputs[..|inputs| - 1], seen);
    }
  }

  lemma UopSeen(t: Tables, u: Uop, eliminated: bool, seen: set<nat>)
    requires SeenOnly(t, seen) && CanRename(t, u, eliminated)
    ensures SeenOnly(AfterUop(t, u, eliminated), seen + {u.idx})
    ensures forall o :: o in RenamedInputs(t, u, eliminated) ==> SeenOperand(o, seen)
  {
    var more := seen + {u.idx};
    assert SeenOnly(t, more);
    if !eliminated {
      if u.hasUops {
        EnteredSeen(t, u.inputs, more);
        WriteSeen(t.(dict := EnteredAll(t.dict, u.inputs)), u.idx, u.outputs, more);
      } else {
        WriteSeen(t, u.idx, NamedAll(u.zeroed), more);
      }
    }
  }

  ghost predicate SameOn(val: Operand -> int, other: Operand -> int, seen: set<nat>) {
    forall o :: SeenOperand(o, seen) ==> val(o) == other(o)
  }

  function Computed(val: Operand -> int, u: Uop, f: Computation, ins: seq<int>): Operand -> int {
    (o: Operand) => if o.Output? && o.uop == u.idx then f(u.idx, o.slot, ins) else val(o)
  }

  lemma ValuedSame(val: Operand -> int, before: Operand -> int, u: Uop, f: Computation, ins: seq<Operand>,
                   seen: set<nat>)
    requires SameOn(val, Computed(before, u, f, Valued(before, ins)), seen + {u.idx}) && u.idx !in seen
    requires forall o :: o in ins ==> SeenOperand(o, seen)
    ensures Valued(val, ins) == Valued(before, ins)
  {
    forall i | 0 <= i < |ins|
      ensures val(ins[i]) == before(ins[i])
    {
      assert ins[i] in ins && SeenOperand(ins[i], seen);
      assert SeenOperand(ins[i], seen + {u.idx});
    }
  }

  /** Whatever the values of the operands before a run, the uops of the run give values to the others. */
  lemma {:induction false} SomeValuation(t: Tables, us: seq<Uop>, eliminated: seq<bool>, f: Computation, seen: set<nat>,
                                         before: Operand -> int) returns (val: Operand -> int)
    requires |us| == |eliminated| && CanRenameAll(t, us, eliminated) && SeenOnly(t, seen) && NewUops(us, seen)
    ensures FlowsAll(val, t, us, eliminated, f) && SameOn(val, before, seen)
    decreases |us|
  {
    hide AfterUop, RenamedInputs, SeenOnly, CanRename;
    if us == [] {
      val := before;
    } else {
      var u := us[0];
      UopSeen(t, u, eliminated[0], seen);
      var ins := RenamedInputs(t, u, eliminated[0]);
      var next := Computed(before, u, f, Valued(before, ins));
      val := SomeValuation(AfterUop(t, u, eliminated[0]), us[1..], eliminated[1..], f, seen + {u.idx}, next);
      ValuedSame(val, before, u, f, ins, seen);
      forall slot: nat
        ensures val(Output(u.idx, slot)) == f(u.idx, slot, Valued(val, ins))
      {
        assert SeenOperand(Output(u.idx, slot), seen + {u.idx});
      }
      forall o: Operand | SeenOperand(o, seen)
        ensures val(o) == before(o)
      {
        assert SeenOperand(o, seen + {u.idx});
      }
    }
  }

  const NO_TABLES := Tables(map[], map[], map[])

  /** From the beginning, a run of new uops computes through its renamed operands what it computes on the registers. */
  lemma RunsAgree(us: seq<Uop>, eliminated: seq<bool>, f: Computation, regs: Key -> int) returns (val: Operand -> int)
    requires |us| == |eliminated| && CanRenameAll(NO_TABLES, us, eliminated) && NewUops(us, {})
    requires MovesCopy(us, eliminated, f)
    ensures FlowsAll(val, NO_TABLES, us, eliminated, f) && forall k :: val(Initial(k)) == regs(k)
    ensures var v := Values(regs, map[], map[]);
            Executable(v, us, f) && Means(val, AfterAll(NO_TABLES, us, eliminated), ExecutedAll(v, us, f))
  {
    val := SomeValuation(NO_TABLES, us, eliminated, f, {},
                         (o: Operand) => if o.Initial? then regs(o.key) else 0);
    forall k: Key
      ensures val(Initial(k)) == regs(k)
    {
      assert SeenOperand(Initial(k), {});
    }
    RenamingRefines(val, NO_TABLES, Values(regs, map[], map[]), us, eliminated, f);
  }

  /** Whatever the registers are, the renamed operands have their values after the uops. */
  ghost predicate AlwaysMeans(us: seq<Uop>, eliminated: seq<bool>, f: Computation)
    requires |us| == |eliminated| && CanRenameAll(NO_TABLES, us, eliminated)
  {
    forall regs: Key -> int :: MeansFrom(regs, us, eliminated, f)
  }

  ghost predicate MeansFrom(regs: Key -> int, us: seq<Uop>, eliminated: seq<bool>, f: Computation)
    requires |us| == |eliminated| && CanRenameAll(NO_TABLES, us, eliminated)
  {
    var v := Values(regs, map[], map[]);
    && Executable(v, us, f)
    && exists val: Operand -> int ::
         && FlowsAll(val, NO_TABLES, us, eliminated, f) && (forall k :: val(Initial(k)) == regs(k))
         && Means(val, AfterAll(NO_TABLES, us, eliminated), ExecutedAll(v, us, f))
  }

  /** The registers are right after an eliminated move, whatever they hold, if and only if the move copies all of its
      input: a 32-bit move, which clears the upper half, is not such a move. */
  lemma EliminatedMoveExact(u: Uop, f: Computation)
    requires u.move.Some? && ReadsAndWrites(u) && u.endsInstr
    ensures CanRenameAll(NO_TABLES, [u], [true])
    ensures AlwaysMeans([u], [true], f) <==> forall v: int :: f(u.idx, 0, [v]) == v
  {
    var us, eliminated := [u], [true];
    assert us[1..] == [] && eliminated[1..] == [];
    if forall v: int :: f(u.idx, 0, [v]) == v {
      forall regs: Key -> int
        ensures MeansFrom(regs, us, eliminated, f)
      {
        var val := RunsAgree(us, eliminated, f, regs);
      }
    }
    if AlwaysMeans(us, eliminated, f) {
      forall x: int
        ensures f(u.idx, 0, [x]) == x
      {
        MoveCopies(u, f, x);
      }
    }
  }

  lemma MoveCopies(u: Uop, f: Computation, x: int)
    requires u.move.Some? && ReadsAndWrites(u) && u.endsInstr && CanRenameAll(NO_TABLES, [u], [true])
    requires AlwaysMeans([u], [true], f)
    ensures f(u.idx, 0, [x]) == x
  {
    var m := u.move.value;
    var regs := (k: Key) => x;
    assert MeansFrom(regs, [u], [true], f);
    ExecutedMove(u, f, regs);
    assert AfterAll(NO_TABLES, [u], [true]) == AfterUop(NO_TABLES, u, true);
    assert Lookup(AfterUop(NO_TABLES, u, true).dict, m.dst) == Initial(m.src);
  }

  lemma ExecutedMove(u: Uop, f: Computation, regs: Key -> int)
    requires u.move.Some? && ReadsAndWrites(u) && u.endsInstr
    ensures var v := Values(regs, map[], map[]);
            Executable(v, [u], f) && ExecutedAll(v, [u], f).regs(u.move.value.dst) == f(u.idx, 0, [regs(u.move.value.src)])
  {
    var v := Values(regs, map[], map[]);
    assert Fetch(v, u.inputs) == [regs(u.move.value.src)];
    assert u.outputs[..0] == [] && [u][1..] == [];
    assert ExecutedAll(v, [u], f) == Executed(v, u, f);
  }
}

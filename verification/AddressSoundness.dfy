/** Whether equal symbolic register values mean equal numbers, for instructions with a semantics of their own: what an
    instruction does is not read off its name. */
module AddressSoundness {
  import opened Wrappers
  import opened Arithmetic
  import opened AbstractValues

  // The machine: registers of 64 bits

  const MODULUS: int := 0x1_0000_0000_0000_0000

  type Word = x: int | 0 <= x < MODULUS

  type Registers = string -> Word

  function Pow2(n: nat): (p: nat)
    ensures p > 0
  {
    if n == 0 then 1 else 2 * Pow2(n - 1)
  }

  /** What an instruction leaves in a register, given its first input register and what the register held before: all 64
      bits of the input plus a constant; the lowest bits of that, extended with zeros or with the sign; the lowest bits of
      that with the other bits of the register kept; or anything. */
  datatype Operation =
    | Wide(amount: int)
    | ZeroExtended(bits: nat, amount: int)
    | SignExtended(bits: nat, amount: int)
    | Merged(bits: nat, amount: int)
    | Anything

  /** Narrow operations have fewer than 64 bits. */
  predicate ValidOperation(op: Operation) {
    op.ZeroExtended? || op.SignExtended? || op.Merged? ==> 1 <= op.bits <= 63
  }

  lemma {:induction false} Pow2Between(n: nat)
    requires n <= 63
    ensures 1 <= Pow2(n) <= 0x8000_0000_0000_0000
  {
    Pow2At(63, n);
  }

  lemma {:induction false} Pow2At(m: nat, n: nat)
    requires n <= m <= 63
    ensures Pow2(n) * Pow2(m - n) == Pow2(m)
    ensures Pow2(63) == 0x8000_0000_0000_0000
    ensures Pow2(n) <= Pow2(m)
  {
    TheLargest();
    if n < m {
      Pow2At(m - 1, n);
      Doubling(Pow2(n), Pow2(m - 1 - n));
    }
  }

  lemma Doubling(a: nat, b: nat)
    ensures a * (2 * b) == 2 * (a * b)
  {}

  lemma TheLargest()
    ensures Pow2(63) == 0x8000_0000_0000_0000
  {
    assert Pow2(8) == 256;
    assert Pow2(16) == 0x1_0000;
    assert Pow2(24) == 0x100_0000;
    assert Pow2(32) == 0x1_0000_0000;
    assert Pow2(40) == 0x100_0000_0000;
    assert Pow2(48) == 0x1_0000_0000_0000;
    assert Pow2(56) == 0x100_0000_0000_0000;
  }

  /** The lowest bits of a number. */
  function Low(x: int, bits: nat): (r: nat)
    ensures r < Pow2(bits)
  {
    x % Pow2(bits)
  }

  /** The possible results of an operation. */
  predicate Yields(op: Operation, src: Word, old_: Word, result: Word) {
    match op
    case Wide(n) => result == (src + n) % MODULUS
    case ZeroExtended(b, n) => result == Low(src + n, b)
    case SignExtended(b, n) =>
      result == if 2 * Low(src + n, b) < Pow2(b) then Low(src + n, b) else Low(src + n, b) + MODULUS - Pow2(b)
    case Merged(b, n) => result == old_ - Low(old_, b) + Low(src + n, b)
    case Anything => true
  }

  /** An instruction with the registers that it writes. */
  datatype Instruction = Instruction(info: WriteInfo, writes: seq<(string, Operation)>)

  function Outputs(i: Instruction): (r: seq<string>)
    ensures |r| == |i.writes| && forall k :: 0 <= k < |r| ==> r[k] == i.writes[k].0
  {
    seq(|i.writes|, k requires 0 <= k < |i.writes| => i.writes[k].0)
  }

  /** All writes use the registers as they were before the instruction. */
  ghost predicate Executes(i: Instruction, before: Registers, after: Registers) {
    && (forall reg :: reg !in Outputs(i) ==> after(reg) == before(reg))
    && (forall k :: 0 <= k < |i.writes| ==>
          i.info.firstInput == None ||
          Yields(i.writes[k].1, before(i.info.firstInput.value), before(i.writes[k].0), after(i.writes[k].0)))
  }

  ghost predicate Fits(policy: InitPolicy, regs: Registers) {
    match policy
    case Diff => true
    case Same => forall a, b :: regs(a) == regs(b)
    case Stack => forall a, b :: a !in {"RSP", "RBP"} && b !in {"RSP", "RBP"} ==> regs(a) == regs(b)
  }

  /** Steps of a run: a lookup of a register's value between instructions, or an instruction. */
  datatype Event = Look(reg: string) | Exec(instr: Instruction)

  function {:tailrecursion false} SetAll(g: Generator, w: WriteInfo, outputs: seq<string>): Generator {
    if outputs == [] then g
    else SetForCurInstr(SetAll(g, w, outputs[..|outputs| - 1]), outputs[|outputs| - 1], w)
  }

  function Apply(g: Generator, e: Event): Generator {
    match e
    case Look(reg) => Get(g, reg).1
    case Exec(i) => Finish(SetAll(g, i.info, Outputs(i)))
  }

  ghost predicate Runs(e: Event, before: Registers, after: Registers) {
    match e
    case Look(_) => after == before
    case Exec(i) => Executes(i, before, after)
  }

  function ApplyAll(g: Generator, events: seq<Event>): Generator {
    if events == [] then g else Apply(ApplyAll(g, events[..|events| - 1]), events[|events| - 1])
  }

  ghost predicate IsRun(events: seq<Event>, states: seq<Registers>) {
    && |states| == |events| + 1
    && forall k :: 0 <= k < |events| ==> Runs(events[k], states[k], states[k + 1])
  }

  // Forms of instructions

  /** The form of an instruction that writes a register: how the generator sees it, what it does, and whether the register
      must be its first input, as it is for `ADD` and `INC`. */
  datatype Form = Form(instrStr: string, hasInput: bool, immediate: Option<int>, op: Operation, inPlace: bool)

  function InfoOf(f: Form, input: string): WriteInfo {
    WriteInfo(f.instrStr, if f.hasInput then Some(input) else None, f.immediate)
  }

  /** Writing `reg` with the operation is a write of the form. */
  predicate WritesAs(w: WriteInfo, reg: string, op: Operation, f: Form) {
    && f == Form(w.instrStr, w.firstInput.Some?, w.immediate, op, f.inPlace)
    && (f.inPlace ==> w.firstInput == Some(reg))
  }

  /** The constant by which the generator takes the result to differ from the first input, if it does. */
  function TakenAs(f: Form): Option<int> {
    match EffectOf(InfoOf(f, ""))
    case Copy => Some(0)
    case Add(n) => Some(n)
    case Other => None
  }

  /** The low bits are replaced by those of the input: nothing changes if input and output are one register. */
  predicate Merges(op: Operation) {
    op.Merged? && op.amount % Pow2(op.bits) == 0
  }

  /** The operation gives the first input plus `n` in all 64 bits. */
  predicate Gives(op: Operation, inPlace: bool, n: int) {
    (op.Wide? && op.amount % MODULUS == n % MODULUS) || (inPlace && Merges(op) && n % MODULUS == 0)
  }

  /** The form does what the generator takes it to do, unless its result is taken to be a new value. */
  predicate Faithful(f: Form) {
    TakenAs(f).Some? ==> Gives(f.op, f.inPlace, TakenAs(f).value)
  }

  ghost predicate AllFaithful(forms: iset<Form>) {
    forall f :: f in forms ==> Faithful(f)
  }

  /** All writes of the instruction are of some forms. */
  ghost predicate IsOf(i: Instruction, forms: iset<Form>) {
    && (forall j, k :: 0 <= j < k < |i.writes| ==> i.writes[j].0 != i.writes[k].0)
    && (forall k :: 0 <= k < |i.writes| ==> HasForm(i.info, i.writes[k].0, i.writes[k].1, forms))
  }

  ghost predicate HasForm(w: WriteInfo, reg: string, op: Operation, forms: iset<Form>) {
    exists f :: f in forms && WritesAs(w, reg, op, f)
  }

  ghost predicate AreOf(events: seq<Event>, forms: iset<Form>) {
    forall k :: 0 <= k < |events| && events[k].Exec? ==> IsOf(events[k].instr, forms)
  }

  // The invariant: some assignment of numbers to bases explains every value

  type Meaning = map<nat, int>

  ghost predicate Means(v: AbstractValue, x: int, m: Meaning) {
    v.base in m && x % MODULUS == (m[v.base] + v.offset) % MODULUS
  }

  /** `values` describes the registers at the start of the instruction, `pending` what it has written so far. */
  ghost predicate Explains(g: Generator, regs: Registers, m: Meaning) {
    && (forall b :: b in m <==> 0 <= b < g.next)
    && (forall reg :: reg in g.values ==> Means(g.values[reg], regs(reg), m))
    && (g.policy != Diff ==> g.initValue.base in m &&
                             forall reg :: reg !in g.values ==> Means(g.initValue, regs(reg), m))
  }

  ghost predicate Extends(m': Meaning, m: Meaning) {
    forall b :: b in m ==> b in m' && m'[b] == m[b]
  }

  ghost predicate ExplainsPending(g: Generator, after: Registers, m: Meaning) {
    forall reg :: reg in g.pending ==> Means(g.pending[reg], after(reg), m)
  }

  /** Two numbers that agree modulo 2^64 still do after adding the same amount. */
  lemma ModAdd(x: int, y: int, n: int)
    requires x % MODULUS == y % MODULUS
    ensures (x + n) % MODULUS == (y + n) % MODULUS
  {
    SameResidue(x + n, y + n, x / MODULUS - y / MODULUS);
  }

  lemma SameResidue(a: int, b: int, q: int)
    requires a - b == q * MODULUS
    ensures a % MODULUS == b % MODULUS
  {}

  lemma FreshKeeps(g: Generator, regs: Registers, after: Registers, m: Meaning, x: int) returns (m': Meaning)
    requires Explains(g, regs, m) && ExplainsPending(g, after, m)
    ensures Extends(m', m) && Explains(Fresh(g).1, regs, m') && ExplainsPending(Fresh(g).1, after, m')
    ensures Means(Fresh(g).0, x, m')
  {
    m' := m[g.next := x];
  }

  lemma GetKeeps(g: Generator, regs: Registers, after: Registers, m: Meaning, reg: string) returns (m': Meaning)
    requires Explains(g, regs, m) && ExplainsPending(g, after, m)
    ensures Extends(m', m) && Explains(Get(g, reg).1, regs, m') && ExplainsPending(Get(g, reg).1, after, m')
    ensures Means(Get(g, reg).0, regs(reg), m')
    ensures Get(g, reg).1.pending == g.pending
  {
    if reg !in g.values && g.policy == Diff {
      m' := FreshKeeps(g, regs, after, m, regs(reg));
    } else {
      m' := m;
    }
  }

  lemma ShiftMeans(v: AbstractValue, x: int, y: int, n: int, m: Meaning)
    requires Means(v, x, m) && y % MODULUS == (x + n) % MODULUS
    ensures Means(AbstractValue(v.base, v.offset + n), y, m)
  {
    ModAdd(x, m[v.base] + v.offset, n);
  }

  // Faithful forms

  /** What the generator takes a write to do. */
  ghost predicate Agrees(i: Instruction, before: Registers, after: Registers, reg: string) {
    match EffectOf(i.info)
    case Copy => i.info.firstInput.Some? && after(reg) % MODULUS == before(i.info.firstInput.value) % MODULUS
    case Add(n) =>
      i.info.firstInput.Some? && after(reg) % MODULUS == (before(i.info.firstInput.value) + n) % MODULUS
    case Other => true
  }

  lemma FaithfulAgrees(i: Instruction, before: Registers, after: Registers, forms: iset<Form>, reg: string)
    requires Executes(i, before, after) && IsOf(i, forms) && AllFaithful(forms) && reg in Outputs(i)
    ensures Agrees(i, before, after, reg)
  {
    hide EffectOf, Yields;
    var k :| 0 <= k < |i.writes| && Outputs(i)[k] == reg;
    assert HasForm(i.info, reg, i.writes[k].1, forms);
    var f :| f in forms && WritesAs(i.info, reg, i.writes[k].1, f);
    SameEffect(i.info, f);
    if TakenAs(f).Some? {
      var input := i.info.firstInput.value;
      GivesSum(f.op, f.inPlace, TakenAs(f).value, before(input), before(reg), after(reg));
    }
  }

  lemma GivesSum(op: Operation, inPlace: bool, n: int, src: Word, old_: Word, result: Word)
    requires Gives(op, inPlace, n) && Yields(op, src, old_, result) && (inPlace ==> src == old_)
    ensures result % MODULUS == (src + n) % MODULUS
  {
    hide Pow2, Low;
    if op.Wide? {
      ModAdd2(src, op.amount, n);
    } else {
      MergedUnchanged(op.bits, op.amount, src, result);
      ModAdd2(src, 0, n);
    }
  }

  lemma MergedUnchanged(bits: nat, m: int, x: Word, result: Word)
    requires m % Pow2(bits) == 0 && Yields(Merged(bits, m), x, x, result)
    ensures result == x
  {
    hide Pow2;
    LowUnchanged(x, m, bits);
  }

  lemma LowUnchanged(x: int, m: int, bits: nat)
    requires m % Pow2(bits) == 0
    ensures Low(x + m, bits) == Low(x, bits)
  {
    var p := Pow2(bits);
    Residues(x + m, x, m / p, p);
  }

  lemma Residues(a: int, b: int, q: int, p: nat)
    requires p > 0 && a - b == q * p
    ensures a % p == b % p
  {
    assert a == b / p * p + b % p + q * p;
    RemainderFromDifference(a, b % p, b / p + q, p);
    SmallRemainder(b % p, p);
  }

  lemma SameEffect(w: WriteInfo, f: Form)
    requires f.instrStr == w.instrStr && f.hasInput == w.firstInput.Some? && f.immediate == w.immediate
    ensures EffectOf(InfoOf(f, "")) == EffectOf(w)
    ensures EffectOf(w) != Other ==> w.firstInput.Some?
  {
    hide Contains;
  }

  lemma ModAdd2(x: int, n: int, m: int)
    requires n % MODULUS == m % MODULUS
    ensures ((x + n) % MODULUS) % MODULUS == (x + m) % MODULUS
  {
    SameResidue(x + n, x + m, n / MODULUS - m / MODULUS);
  }

  /** The value computed for an output describes what the instruction leaves in it. */
  lemma SetKeeps(g: Generator, i: Instruction, key: string, before: Registers, after: Registers, m: Meaning)
    returns (m': Meaning)
    requires Explains(g, before, m) && ExplainsPending(g, after, m) && Agrees(i, before, after, key)
    ensures Extends(m', m) && Explains(SetForCurInstr(g, key, i.info), before, m')
    ensures ExplainsPending(SetForCurInstr(g, key, i.info), after, m')
    ensures SetForCurInstr(g, key, i.info).pending.Keys == g.pending.Keys + {key}
  {
    hide Explains, Contains;
    if i.info.firstInput == None {
      m' := FreshKeeps(g, before, after, m, after(key));
      SetExplains(g, i, key, before, after, m');
    } else {
      var input := i.info.firstInput.value;
      m' := GetKeeps(g, before, after, m, input);
      var (v, g1) := Get(g, input);
      match EffectOf(i.info) {
        case Copy =>
          ShiftMeans(v, before(input), after(key), 0, m');
        case Add(n) =>
          ShiftMeans(v, before(input), after(key), n, m');
        case Other =>
          m' := FreshKeeps(g1, before, after, m', after(key));
      }
      SetExplains(g, i, key, before, after, m');
    }
  }

  lemma SetExplains(g: Generator, i: Instruction, key: string, before: Registers, after: Registers, m: Meaning)
    requires Explains(Compute(g, i.info).1, before, m) && ExplainsPending(Compute(g, i.info).1, after, m)
    requires Compute(g, i.info).1.pending == g.pending && Means(Compute(g, i.info).0, after(key), m)
    ensures Explains(SetForCurInstr(g, key, i.info), before, m)
    ensures ExplainsPending(SetForCurInstr(g, key, i.info), after, m)
    ensures SetForCurInstr(g, key, i.info).pending.Keys == g.pending.Keys + {key}
  {}

  lemma {:induction false} SetAllKeeps(g: Generator, i: Instruction, outputs: seq<string>, before: Registers,
                                       after: Registers, m: Meaning) returns (m': Meaning)
    requires Explains(g, before, m) && ExplainsPending(g, after, m)
    requires forall o :: o in outputs ==> Agrees(i, before, after, o)
    ensures Extends(m', m) && Explains(SetAll(g, i.info, outputs), before, m')
    ensures ExplainsPending(SetAll(g, i.info, outputs), after, m')
    ensures SetAll(g, i.info, outputs).pending.Keys == g.pending.Keys + (set o | o in outputs)
  {
    hide Explains, Agrees, SetForCurInstr, Extends, ExplainsPending;
    m' := m;
    SameMeaning(m);
    if outputs != [] {
      var rest, last := outputs[..|outputs| - 1], outputs[|outputs| - 1];
      m' := SetAllKeeps(g, i, rest, before, after, m');
      ghost var m1 := m';
      m' := SetKeeps(SetAll(g, i.info, rest), i, last, before, after, m');
      MoreMeaning(m, m1, m');
      assert (set o | o in outputs) == (set o | o in rest) + {last};
    }
  }

  lemma SameMeaning(m: Meaning)
    ensures Extends(m, m)
  {}

  lemma MoreMeaning(m: Meaning, m1: Meaning, m2: Meaning)
    requires Extends(m1, m) && Extends(m2, m1)
    ensures Extends(m2, m)
  {}

  /** Writes become visible together, after all of them have been computed from the old values. */
  lemma FinishKeeps(g: Generator, i: Instruction, before: Registers, after: Registers, m: Meaning)
    requires Explains(g, before, m) && ExplainsPending(g, after, m) && Executes(i, before, after)
    requires g.pending.Keys == set o | o in Outputs(i)
    ensures Explains(Finish(g), after, m)
  {
    forall reg
      ensures reg in Finish(g).values ==> Means(Finish(g).values[reg], after(reg), m)
      ensures g.policy != Diff && reg !in Finish(g).values ==> Means(g.initValue, after(reg), m)
    {
      if reg !in Outputs(i) {
        assert after(reg) == before(reg);
      }
    }
  }

  lemma ApplyKeeps(g: Generator, e: Event, before: Registers, after: Registers, m: Meaning, forms: iset<Form>)
    returns (m': Meaning)
    requires Explains(g, before, m) && g.pending == map[] && Runs(e, before, after)
    requires AllFaithful(forms) && (e.Exec? ==> IsOf(e.instr, forms))
    ensures Explains(Apply(g, e), after, m') && Apply(g, e).pending == map[]
  {
    hide Explains, Executes, IsOf, AllFaithful, Agrees;
    match e
    case Look(reg) =>
      NothingPending(g, after, m);
      m' := GetKeeps(g, before, after, m, reg);
    case Exec(i) =>
      NothingPending(g, after, m);
      forall o | o in Outputs(i)
        ensures Agrees(i, before, after, o)
      {
        FaithfulAgrees(i, before, after, forms, o);
      }
      m' := SetAllKeeps(g, i, Outputs(i), before, after, m);
      FinishKeeps(SetAll(g, i.info, Outputs(i)), i, before, after, m');
  }

  lemma NothingPending(g: Generator, after: Registers, m: Meaning)
    requires g.pending == map[]
    ensures ExplainsPending(g, after, m)
  {}

  lemma NewExplains(policy: InitPolicy, regs: Registers) returns (m: Meaning)
    requires Fits(policy, regs)
    ensures Explains(New(policy), regs, m) && New(policy).pending == map[]
  {
    m := if policy == Stack then map[0 := regs("RAX"), 1 := regs("RSP"), 2 := regs("RBP")] else map[0 := regs("RAX")];
  }

  lemma RunPrefix(events: seq<Event>, states: seq<Registers>, forms: iset<Form>)
    requires IsRun(events, states) && AreOf(events, forms) && events != []
    ensures var n := |events| - 1;
            && |states| == n + 2 && states[..n + 1][0] == states[0]
            && IsRun(events[..n], states[..n + 1]) && AreOf(events[..n], forms)
            && Runs(events[n], states[n], states[n + 1]) && (events[n].Exec? ==> IsOf(events[n].instr, forms))
  {
    hide Runs, IsOf;
    var n := |events| - 1;
    assert forall k :: 0 <= k < n ==> Runs(events[..n][k], states[..n + 1][k], states[..n + 1][k + 1]);
  }

  lemma {:induction false} RunExplained(policy: InitPolicy, events: seq<Event>, states: seq<Registers>,
                                        forms: iset<Form>) returns (m: Meaning)
    requires IsRun(events, states) && Fits(policy, states[0]) && AreOf(events, forms) && AllFaithful(forms)
    ensures Explains(ApplyAll(New(policy), events), states[|events|], m)
    ensures ApplyAll(New(policy), events).pending == map[]
    decreases |events|
  {
    if events == [] {
      m := NewExplains(policy, states[0]);
    } else {
      hide Explains, Runs, IsOf, AllFaithful, Fits, New, Apply, IsRun, AreOf;
      var n := |events| - 1;
      RunPrefix(events, states, forms);
      m := RunExplained(policy, events[..n], states[..n + 1], forms);
      m := ApplyKeeps(ApplyAll(New(policy), events[..n]), events[n], states[n], states[n + 1], m, forms);
    }
  }

  // Addresses

  function RegOrZero(regs: Registers, reg: Option<string>): int {
    if reg == None then 0 else regs(reg.value)
  }

  function EffectiveAddress(a: Address, regs: Registers): int {
    (RegOrZero(regs, a.base) + RegOrZero(regs, a.index) * a.scale + a.disp) % MODULUS
  }

  ghost predicate MeansOptional(v: Option<AbstractValue>, reg: Option<string>, regs: Registers, m: Meaning) {
    (v == None <==> reg == None) && (reg.Some? && v.Some? ==> Means(v.value, regs(reg.value), m))
  }

  lemma OptionalKeeps(g: Generator, regs: Registers, m: Meaning, reg: Option<string>) returns (m': Meaning)
    requires Explains(g, regs, m) && g.pending == map[]
    ensures var (v, g') := GetOptional(g, reg);
            Extends(m', m) && Explains(g', regs, m') && g'.pending == map[] && MeansOptional(v, reg, regs, m')
  {
    if reg == None {
      m' := m;
    } else {
      m' := GetKeeps(g, regs, regs, m, reg.value);
    }
  }

  lemma KeyKeeps(g: Generator, regs: Registers, m: Meaning, a: Address) returns (m': Meaning)
    requires Explains(g, regs, m) && g.pending == map[]
    ensures var (k, g') := KeyOf(g, a);
            && Extends(m', m) && Explains(g', regs, m') && g'.pending == map[]
            && MeansOptional(k.base, a.base, regs, m') && MeansOptional(k.index, a.index, regs, m')
            && k.scale == a.scale && k.disp == a.disp
  {
    m' := OptionalKeeps(g, regs, m, a.base);
    m' := OptionalKeeps(GetOptional(g, a.base).1, regs, m', a.index);
  }

  lemma SameOptional(v: Option<AbstractValue>, a: Option<string>, b: Option<string>, regs: Registers, m: Meaning)
    requires MeansOptional(v, a, regs, m) && MeansOptional(v, b, regs, m)
    ensures RegOrZero(regs, a) % MODULUS == RegOrZero(regs, b) % MODULUS
  {}

  lemma SumModulo(a: int, a': int, b: int, b': int, scale: int, disp: int)
    requires a % MODULUS == a' % MODULUS && b % MODULUS == b' % MODULUS
    ensures (a + b * scale + disp) % MODULUS == (a' + b' * scale + disp) % MODULUS
  {
    var p, q := a / MODULUS - a' / MODULUS, b / MODULUS - b' / MODULUS;
    assert b - b' == q * MODULUS;
    assert b * scale - b' * scale == q * scale * MODULUS by {
      assert (b - b') * scale == (q * MODULUS) * scale;
    }
    SameResidue(a + b * scale + disp, a' + b' * scale + disp, p + q * scale);
  }

  /** In every run over some forms, from every initial state that fits the policy, operands with equal keys have equal
      addresses. */
  ghost predicate KeysAreSound(policy: InitPolicy, forms: iset<Form>) {
    forall events, states, a, b ::
      IsRun(events, states) && AreOf(events, forms) && Fits(policy, states[0]) && EqualKeys(policy, events, a, b) ==>
        EffectiveAddress(a, states[|events|]) == EffectiveAddress(b, states[|events|])
  }

  /** The keys of two operands looked up one after the other at the end of a run. */
  ghost predicate EqualKeys(policy: InitPolicy, events: seq<Event>, a: Address, b: Address) {
    var (k, g) := KeyOf(ApplyAll(New(policy), events), a);
    k == KeyOf(g, b).0
  }

  /** With faithful forms only, equal keys mean equal addresses, at every point of every run. */
  lemma EqualKeysMeanEqualAddresses(policy: InitPolicy, forms: iset<Form>, events: seq<Event>, states: seq<Registers>,
                                    a: Address, b: Address)
    requires IsRun(events, states) && AreOf(events, forms) && Fits(policy, states[0])
    requires AllFaithful(forms) && EqualKeys(policy, events, a, b)
    ensures EffectiveAddress(a, states[|events|]) == EffectiveAddress(b, states[|events|])
  {
    hide Explains, New, ApplyAll, KeyOf, Fits, Runs, AreOf, AllFaithful;
    var m := RunExplained(policy, events, states, forms);
    var g, regs := ApplyAll(New(policy), events), states[|events|];
    m := KeyKeeps(g, regs, m, a);
    var m' := KeyKeeps(KeyOf(g, a).1, regs, m, b);
    hide MeansOptional;
    var k := KeyOf(g, a).0;
    SameOptional(k.base, a.base, b.base, regs, m');
    SameOptional(k.index, a.index, b.index, regs, m');
    SumModulo(RegOrZero(regs, a.base), RegOrZero(regs, b.base), RegOrZero(regs, a.index), RegOrZero(regs, b.index),
              a.scale, a.disp);
  }

  // Unfaithful forms

  /** A 64-bit move between registers. */
  const Move := Form("MOV (R64, R64)", true, None, Wide(0), false)

  /** An addition to all 64 bits of a register. */
  function Addition(n: int): Form {
    Form("ADD (R64, I32)", true, Some(n), Wide(n), true)
  }

  /** A copy from one register to another shows by itself whether it is one; but a merging move does not when the registers
      are equal. */
  predicate ShowsItself(policy: InitPolicy, f: Form) {
    TakenAs(f) == None || (TakenAs(f) == Some(0) && !f.inPlace && (policy == Same ==> !Merges(f.op)))
  }

  /** The others are accompanied, as in instruction sets they are: there are a 64-bit move and a 64-bit increment, and what
      they are taken to add can be added to a 64-bit register. */
  ghost predicate Accompanied(forms: iset<Form>, f: Form) {
    && Move in forms && Addition(1) in forms
    && (TakenAs(f).Some? && TakenAs(f).value != 0 ==> Addition(TakenAs(f).value) in forms)
  }

  lemma NoPart(name: string, part: string)
    requires part != "" && forall k :: 0 <= k < |name| ==> name[k] != part[0]
    ensures !Contains(name, part)
  {
    forall i | 0 <= i <= |name|
      ensures !(part <= name[i..])
    {
      assert i < |name| ==> name[i..][0] == name[i];
    }
  }

  lemma HasPart(name: string, part: string)
    requires part <= name
    ensures Contains(name, part)
  {
    assert name[0..] == name;
  }

  lemma AdditionTakenAs(n: int)
    ensures TakenAs(Addition(n)) == Some(n)
  {
    hide Contains;
    var name := "ADD (R64, I32)";
    HasPart(name, "ADD");
    NoPart(name, "MOV");
  }

  lemma MoveTakenAs()
    ensures TakenAs(Move) == Some(0)
  {
    hide Contains;
    var name := "MOV (R64, R64)";
    HasPart(name, "MOV");
    NoPart(name, "CMOV");
  }

  /** An unfaithful operation gives some input a result other than the one it is taken to give, even if input and output
      hold the same; but for merging moves. */
  lemma Distinguishes(op: Operation, n: int) returns (x: Word, result: Word)
    requires ValidOperation(op) && !Gives(op, true, n)
    ensures Yields(op, x, x, result) && result != (x + n) % MODULUS
  {
    var half := 0x8000_0000_0000_0000;
    match op {
      case Wide(m) =>
        x, result := 0, m % MODULUS;
      case ZeroExtended(b, m) =>
        Pow2Between(b);
        x := (half - n) % MODULUS;
        Reaches(half, n);
        result := Low(x + m, b);
      case SignExtended(b, m) =>
        Pow2Between(b);
        x := (half - n) % MODULUS;
        Reaches(half, n);
        result := if 2 * Low(x + m, b) < Pow2(b) then Low(x + m, b) else Low(x + m, b) + MODULUS - Pow2(b);
        SignLimits(b, Low(x + m, b));
      case Merged(b, m) =>
        x, result := MergedDiffers(b, m, n);
      case Anything =>
        x := 0;
        result := if n % MODULUS == 0 then 1 else 0;
    }
  }

  /** An addition to the lower bits differs from one to all bits: for zero, or else for the largest value of these bits. */
  lemma MergedDiffers(b: nat, m: int, n: int) returns (x: Word, result: Word)
    requires 1 <= b <= 63 && !(m % Pow2(b) == 0 && n % MODULUS == 0)
    ensures Yields(Merged(b, m), x, x, result) && result != (x + n) % MODULUS
  {
    hide Pow2;
    Pow2Between(b);
    var d := Low(m, b);
    LowOfSmall(0, b);
    if d != n % MODULUS {
      x, result := 0, d;
    } else {
      x, result := Pow2(b) - 1, d - 1;
      LowOfSmall(x, b);
      LowOverflows(m, b);
      SumBelow(x, n, d);
    }
  }

  lemma LowOfSmall(x: nat, b: nat)
    requires x < Pow2(b)
    ensures Low(x, b) == x
  {
    SmallRemainder(x, Pow2(b));
  }

  lemma LowOverflows(m: int, b: nat)
    requires Low(m, b) > 0
    ensures Low(Pow2(b) - 1 + m, b) == Low(m, b) - 1
  {
    hide Pow2;
    var p, d := Pow2(b), Low(m, b);
    DivMod(m, p);
    Residues(p - 1 + m, d - 1, m / p + 1, p);
    LowOfSmall(d - 1, b);
  }

  lemma SumBelow(x: nat, n: int, d: nat)
    requires d == n % MODULUS && x + d < MODULUS
    ensures (x + n) % MODULUS == x + d
  {
    SameResidue(x + n, x + d, n / MODULUS);
  }

  lemma DivMod(m: int, p: nat)
    requires p > 0
    ensures m - m % p == m / p * p && (m / p + 1) * p == m / p * p + p
  {
    DistributeOne(m / p, p);
  }

  lemma DistributeOne(q: int, p: int)
    ensures (q + 1) * p == q * p + p
  {}

  lemma Reaches(t: Word, n: int)
    ensures ((t - n) % MODULUS + n) % MODULUS == t
  {
    var x := t - n;
    SameResidue(x % MODULUS + n, t, -(x / MODULUS));
  }

  lemma SignLimits(b: nat, low: nat)
    requires 1 <= b <= 63 && low < Pow2(b)
    ensures var r := if 2 * low < Pow2(b) then low else low + MODULUS - Pow2(b);
            0 <= r < MODULUS && r != 0x8000_0000_0000_0000
  {
    Pow2Between(b);
    Pow2Between(b - 1);
    assert Pow2(b) == 2 * Pow2(b - 1);
    assert b < 63 || Pow2(b) == 0x8000_0000_0000_0000 by {
      TheLargest();
    }
  }

  /** A merging move keeps the upper bits of the old value. */
  lemma MergingDiffers(b: nat, m: int) returns (src: Word, old_: Word, result: Word)
    requires 1 <= b <= 63 && m % Pow2(b) == 0
    ensures Yields(Merged(b, m), src, old_, result) && result != src && old_ == (src + 1) % MODULUS
  {
    Pow2Between(b);
    var p := Pow2(b);
    src, old_, result := p - 1, p, p + p - 1;
    LowUnchanged(src, m, b);
    SmallRemainder(p - 1, p);
    Residues(p, 0, 1, p);
    SmallRemainder(0, p);
  }

  // Runs of single writes

  /** What the generator makes of an instruction that writes one register from another or from itself. */
  lemma OneWrite(g: Generator, w: WriteInfo, input: string, reg: string, op: Operation, n: int)
    requires g.pending == map[] && w.firstInput == Some(input)
    requires EffectOf(w) == Add(n) || (EffectOf(w) == Copy && n == 0)
    ensures var h, v := Apply(g, Exec(Instruction(w, [(reg, op)]))), Get(g, input).0;
            && h.pending == map[]
            && reg in h.values && h.values[reg] == AbstractValue(v.base, v.offset + n)
            && (input != reg ==> input in h.values && h.values[input] == v)
            && forall r :: r in g.values && r != reg ==> r in h.values && h.values[r] == g.values[r]
  {
    hide EffectOf;
    var i := Instruction(w, [(reg, op)]);
    assert Outputs(i) == [reg] && [reg][..0] == [];
    assert SetAll(g, w, [reg]) == SetForCurInstr(SetAll(g, w, []), reg, w);
  }

  function With(regs: Registers, reg: string, x: Word): Registers {
    r => if r == reg then x else regs(r)
  }

  /** A run over the forms, what it leaves in the registers, and what the generator knows of them. */
  ghost predicate Reached(policy: InitPolicy, forms: iset<Form>, events: seq<Event>, states: seq<Registers>,
                          regs: Registers, g: Generator) {
    && IsRun(events, states) && AreOf(events, forms) && Fits(policy, states[0]) && states[|events|] == regs
    && ApplyAll(New(policy), events) == g && g.pending == map[]
  }

  lemma Starts(policy: InitPolicy, forms: iset<Form>, regs: Registers)
    requires Fits(policy, regs)
    ensures Reached(policy, forms, [], [regs], regs, New(policy))
  {}

  /** One more instruction of a form. */
  lemma Goes(policy: InitPolicy, forms: iset<Form>, events: seq<Event>, states: seq<Registers>, regs: Registers,
             g: Generator, f: Form, input: string, reg: string, x: Word)
    returns (events': seq<Event>, states': seq<Registers>, g': Generator)
    requires Reached(policy, forms, events, states, regs, g) && f in forms && TakenAs(f).Some?
    requires (f.inPlace ==> input == reg) && Yields(f.op, regs(input), regs(reg), x)
    ensures Reached(policy, forms, events', states', With(regs, reg, x), g')
    ensures var v := Get(g, input).0;
            && reg in g'.values && g'.values[reg] == AbstractValue(v.base, v.offset + TakenAs(f).value)
            && (input != reg ==> input in g'.values && g'.values[input] == v)
            && forall r :: r in g.values && r != reg ==> r in g'.values && g'.values[r] == g.values[r]
  {
    hide Yields, EffectOf, Fits, New, Get;
    var w := InfoOf(f, input);
    SameEffect(InfoOf(f, ""), f);
    SameEffect(w, f);
    var e := Exec(Instruction(w, [(reg, f.op)]));
    events', states', g' := events + [e], states + [With(regs, reg, x)], Apply(g, e);
    OneWrite(g, w, input, reg, f.op, TakenAs(f).value);
    OneStep(e.instr, regs, input, reg, f.op, x);
    RunExtended(events, states, e, With(regs, reg, x));
    OfForm(w, reg, f, forms);
    AllOf(events, e, forms);
    assert events'[..|events|] == events;
  }

  lemma OneStep(i: Instruction, before: Registers, input: string, reg: string, op: Operation, x: Word)
    requires i.writes == [(reg, op)] && i.info.firstInput == Some(input)
    requires Yields(op, before(input), before(reg), x)
    ensures Executes(i, before, With(before, reg, x))
  {
    hide Yields;
    assert Outputs(i) == [reg];
  }

  lemma RunExtended(events: seq<Event>, states: seq<Registers>, e: Event, after: Registers)
    requires IsRun(events, states) && Runs(e, states[|events|], after)
    ensures IsRun(events + [e], states + [after])
  {
    hide Runs;
  }

  lemma OfForm(w: WriteInfo, reg: string, f: Form, forms: iset<Form>)
    requires f in forms && WritesAs(w, reg, f.op, f)
    ensures IsOf(Instruction(w, [(reg, f.op)]), forms)
  {
    assert HasForm(w, reg, f.op, forms);
  }

  lemma AllOf(events: seq<Event>, e: Event, forms: iset<Form>)
    requires AreOf(events, forms) && (e.Exec? ==> IsOf(e.instr, forms))
    ensures AreOf(events + [e], forms)
  {
    hide IsOf;
  }

  /** Two registers with equal values and different numbers break the keys. */
  lemma Breaks(policy: InitPolicy, forms: iset<Form>, events: seq<Event>, states: seq<Registers>, regs: Registers,
               g: Generator, a: string, b: string)
    requires Reached(policy, forms, events, states, regs, g)
    requires a in g.values && b in g.values && g.values[a] == g.values[b] && regs(a) != regs(b)
    ensures !KeysAreSound(policy, forms)
  {
    hide IsRun, AreOf, Fits, ApplyAll, New;
    var p, q := Address(Some(a), None, 1, 0), Address(Some(b), None, 1, 0);
    KeysOfValues(g, a, b);
    assert EqualKeys(policy, events, p, q);
    assert EffectiveAddress(p, regs) == regs(a) && EffectiveAddress(q, regs) == regs(b);
  }

  lemma KeysOfValues(g: Generator, a: string, b: string)
    requires a in g.values && b in g.values && g.values[a] == g.values[b]
    ensures var (k, h) := KeyOf(g, Address(Some(a), None, 1, 0));
            k == KeyOf(h, Address(Some(b), None, 1, 0)).0
  {}

  function Everywhere(x: Word): Registers {
    _ => x
  }

  /** Three registers. */
  predicate Three(a: string, b: string, c: string) {
    a != b && b != c && a != c
  }

  /** After `b` and `c` have got the value of `a`, `b` holds what an unfaithful form leaves there. */
  ghost predicate Shown(policy: InitPolicy, forms: iset<Form>, events: seq<Event>, states: seq<Registers>,
                        regs: Registers, g: Generator, n: int, a: string, b: string, c: string) {
    && Reached(policy, forms, events, states, regs, g)
    && a in g.values && b in g.values && c in g.values && g.values[c] == g.values[a]
    && g.values[b] == AbstractValue(g.values[a].base, g.values[a].offset + n)
    && regs(c) == regs(a) && regs(b) != (regs(a) + n) % MODULUS
  }

  /** `b` and `c` have the value and the number of `a`. */
  ghost predicate Moved(policy: InitPolicy, forms: iset<Form>, events: seq<Event>, states: seq<Registers>,
                        regs: Registers, g: Generator, x: Word, a: string, b: string, c: string) {
    && Reached(policy, forms, events, states, regs, g) && regs(a) == regs(b) == regs(c) == x
    && a in g.values && b in g.values && c in g.values && g.values[b] == g.values[a] == g.values[c]
  }

  lemma MovedTwice(policy: InitPolicy, forms: iset<Form>, x: Word, a: string, b: string, c: string)
    returns (events: seq<Event>, states: seq<Registers>, regs: Registers, g: Generator)
    requires Move in forms && Three(a, b, c)
    ensures Moved(policy, forms, events, states, regs, g, x, a, b, c)
  {
    hide Reached, TakenAs, New;
    MoveTakenAs();
    regs := Everywhere(x);
    Starts(policy, forms, regs);
    events, states, g := Goes(policy, forms, [], [regs], regs, New(policy), Move, a, b, x);
    regs := With(regs, b, x);
    events, states, g := Goes(policy, forms, events, states, regs, g, Move, a, c, x);
    regs := With(regs, c, x);
  }

  /** What makes the form show itself: the input, what the register holds before, which is the same or, for a merging move,
      one more, and what it holds after. */
  ghost predicate Chosen(f: Form, x: Word, old_: Word, result: Word) {
    && TakenAs(f).Some? && Yields(f.op, x, old_, result) && result != (x + TakenAs(f).value) % MODULUS
    && (old_ == x || (!f.inPlace && old_ == (x + 1) % MODULUS && Merges(f.op)))
  }

  lemma Choice(f: Form) returns (x: Word, old_: Word, result: Word)
    requires ValidOperation(f.op) && !Faithful(f)
    ensures Chosen(f, x, old_, result)
    ensures !(Merges(f.op) && TakenAs(f).value % MODULUS == 0 && !f.inPlace) ==> old_ == x
  {
    hide TakenAs, Yields, Gives, Merges, Chosen;
    NotFaithful(f);
    if Gives(f.op, true, TakenAs(f).value) {
      x, old_, result := MergingChoice(f);
    } else {
      x, result := OtherChoice(f);
      old_ := x;
    }
  }

  lemma MergingChoice(f: Form) returns (x: Word, old_: Word, result: Word)
    requires ValidOperation(f.op) && !Faithful(f) && TakenAs(f).Some? && Gives(f.op, true, TakenAs(f).value)
    ensures Chosen(f, x, old_, result) && Merges(f.op) && TakenAs(f).value % MODULUS == 0 && !f.inPlace
  {
    hide TakenAs, Yields, Gives, Merges;
    var n := TakenAs(f).value;
    NotFaithful(f);
    MergingMove(f, n);
    BitsOf(f.op);
    x, old_, result := MergingDiffers(f.op.bits, f.op.amount);
    ModAdd2(x, 0, n);
  }

  lemma OtherChoice(f: Form) returns (x: Word, result: Word)
    requires ValidOperation(f.op) && TakenAs(f).Some? && !Gives(f.op, true, TakenAs(f).value)
    ensures Chosen(f, x, x, result)
  {
    hide TakenAs, Yields, Gives, Merges;
    x, result := Distinguishes(f.op, TakenAs(f).value);
  }

  /** Before the form, `b` is counted up if that is needed. */
  lemma Prepared(policy: InitPolicy, forms: iset<Form>, x: Word, old_: Word, a: string, b: string, c: string)
    returns (events: seq<Event>, states: seq<Registers>, regs: Registers, g: Generator)
    requires Move in forms && Addition(1) in forms && Three(a, b, c) && (old_ == x || old_ == (x + 1) % MODULUS)
    ensures Reached(policy, forms, events, states, regs, g) && regs(a) == regs(c) == x && regs(b) == old_
    ensures a in g.values && c in g.values && g.values[a] == g.values[c]
    ensures b in g.values && (old_ == x ==> g.values[b] == g.values[a])
  {
    hide Reached, TakenAs, Yields;
    events, states, regs, g := MovedTwice(policy, forms, x, a, b, c);
    if old_ != x {
      AdditionTakenAs(1);
      WideYields(1, x, x, old_);
      events, states, g := Goes(policy, forms, events, states, regs, g, Addition(1), b, b, old_);
      regs := With(regs, b, old_);
    }
  }

  lemma Shows(policy: InitPolicy, forms: iset<Form>, f: Form, a: string, b: string, c: string)
    returns (events: seq<Event>, states: seq<Registers>, regs: Registers, g: Generator)
    requires Move in forms && Addition(1) in forms && Three(a, b, c)
    requires f in forms && ValidOperation(f.op) && !Faithful(f)
    ensures TakenAs(f).Some? && Shown(policy, forms, events, states, regs, g, TakenAs(f).value, a, b, c)
  {
    hide Reached, TakenAs, Yields, Gives, ValidOperation, Merges, Faithful;
    var x, old_, result := Choice(f);
    events, states, regs, g := Prepared(policy, forms, x, old_, a, b, c);
    events, states, g := Goes(policy, forms, events, states, regs, g, f, if f.inPlace then b else a, b, result);
    regs := With(regs, b, result);
  }

  lemma MergingMove(f: Form, n: int)
    requires TakenAs(f) == Some(n) && Gives(f.op, true, n) && !Faithful(f)
    ensures !f.inPlace && Merges(f.op) && n % MODULUS == 0
  {}

  lemma WideYields(n: int, src: Word, old_: Word, result: Word)
    requires result == (src + n) % MODULUS
    ensures Yields(Wide(n), src, old_, result)
  {}

  /** Accompanied, an unfaithful form lets equal keys mean different addresses. */
  lemma UnfaithfulBreaksKeys(policy: InitPolicy, forms: iset<Form>, f: Form)
    requires Accompanied(forms, f) && f in forms && ValidOperation(f.op) && !Faithful(f)
    ensures !KeysAreSound(policy, forms)
  {
    hide Reached, TakenAs, Yields, Gives, KeysAreSound, ValidOperation;
    NotFaithful(f);
    var n := TakenAs(f).value;
    var a, b, c := "RSP", "RBX", "RCX";
    var events, states, regs, g := Shows(policy, forms, f, a, b, c);
    if n != 0 {
      AdditionTakenAs(n);
      var x := (regs(c) + n) % MODULUS;
      WideYields(n, regs(c), regs(c), x);
      events, states, g := Goes(policy, forms, events, states, regs, g, Addition(n), c, c, x);
      regs := With(regs, c, x);
    }
    Breaks(policy, forms, events, states, regs, g, b, c);
  }

  lemma FaithfulKeysSound(policy: InitPolicy, forms: iset<Form>)
    requires AllFaithful(forms)
    ensures KeysAreSound(policy, forms)
  {
    hide EqualKeys, Runs, AreOf, Fits, EffectiveAddress, Faithful;
    forall events, states, a, b | IsRun(events, states) && AreOf(events, forms) && Fits(policy, states[0]) &&
                                  EqualKeys(policy, events, a, b)
      ensures EffectiveAddress(a, states[|events|]) == EffectiveAddress(b, states[|events|])
    {
      EqualKeysMeanEqualAddresses(policy, forms, events, states, a, b);
    }
  }

  /** A register-to-register form that is taken for a copy but is none breaks the keys by itself: one instruction from
      registers that are all equal, or, if it merges, from registers that differ. */
  lemma CopyBreaksKeys(policy: InitPolicy, forms: iset<Form>, f: Form)
    requires f in forms && ValidOperation(f.op) && !Faithful(f) && TakenAs(f) == Some(0) && !f.inPlace
    requires policy == Same ==> !Merges(f.op)
    ensures !KeysAreSound(policy, forms)
  {
    hide Reached, TakenAs, Yields, KeysAreSound, Merges, Faithful, ValidOperation;
    var a, b := "RSP", "RAX";
    var events, states, regs, g := ShowsAtOnce(policy, forms, f, a, b);
    Breaks(policy, forms, events, states, regs, g, b, a);
  }

  /** From registers that hold what the form needs to show itself, it does so at once. */
  lemma ShowsAtOnce(policy: InitPolicy, forms: iset<Form>, f: Form, a: string, b: string)
    returns (events: seq<Event>, states: seq<Registers>, regs: Registers, g: Generator)
    requires f in forms && ValidOperation(f.op) && !Faithful(f) && !f.inPlace && a == "RSP" && b == "RAX"
    requires policy == Same ==> !Merges(f.op)
    ensures TakenAs(f).Some? && Reached(policy, forms, events, states, regs, g) && a in g.values && b in g.values
    ensures g.values[b] == AbstractValue(g.values[a].base, g.values[a].offset + TakenAs(f).value)
    ensures regs(b) != (regs(a) + TakenAs(f).value) % MODULUS
  {
    hide Reached, TakenAs, Yields, New, Merges, Faithful, ValidOperation, Fits;
    var x, old_, result := Choice(f);
    assert a != b;
    regs := With(Everywhere(old_), a, x);
    Fitting(policy, x, old_);
    Starts(policy, forms, regs);
    events, states, g := Goes(policy, forms, [], [regs], regs, New(policy), f, a, b, result);
    regs := With(regs, b, result);
  }

  lemma Fitting(policy: InitPolicy, x: Word, old_: Word)
    requires policy == Same ==> old_ == x
    ensures Fits(policy, With(Everywhere(old_), "RSP", x))
  {}

  /** Equal keys mean equal addresses, in all runs over some forms and from all initial states that fit the policy, exactly
      if every form does what it is taken to do. */
  lemma KeysSoundExactly(policy: InitPolicy, forms: iset<Form>)
    requires forall f :: f in forms ==> ValidOperation(f.op)
    requires forall f :: f in forms ==> ShowsItself(policy, f) || Accompanied(forms, f)
    ensures KeysAreSound(policy, forms) <==> AllFaithful(forms)
  {
    hide KeysAreSound, Faithful, Accompanied, ValidOperation, TakenAs, Merges;
    if AllFaithful(forms) {
      FaithfulKeysSound(policy, forms);
    } else {
      var f :| f in forms && !Faithful(f);
      NotFaithful(f);
      if ShowsItself(policy, f) {
        CopyBreaksKeys(policy, forms, f);
      } else {
        UnfaithfulBreaksKeys(policy, forms, f);
      }
    }
  }

  /** A 32-bit register move is taken for a copy but clears the upper half of its register. */
  const NarrowMove := Form("MOV (R32, R32)", true, None, ZeroExtended(32, 0), false)

  /** Among whatever other forms, and whatever is assumed of the initial registers. */
  lemma NarrowMoveBreaksKeys(policy: InitPolicy, forms: iset<Form>)
    requires NarrowMove in forms
    ensures !Faithful(NarrowMove) && !KeysAreSound(policy, forms)
  {
    hide KeysAreSound, Gives, ValidOperation, Merges, TakenAs;
    NarrowTakenAs();
    NotWide();
    CopyBreaksKeys(policy, forms, NarrowMove);
  }

  lemma NarrowTakenAs()
    ensures TakenAs(NarrowMove) == Some(0)
  {
    hide Contains;
    var name := "MOV (R32, R32)";
    HasPart(name, "MOV");
    NoPart(name, "CMOV");
  }

  lemma NotWide()
    ensures !Gives(NarrowMove.op, NarrowMove.inPlace, 0) && ValidOperation(NarrowMove.op) && !Merges(NarrowMove.op)
  {}

  // Differences between registers

  /** The values of two registers, looked up one after the other at the end of a run. */
  function ValuesOf(policy: InitPolicy, events: seq<Event>, a: string, b: string): (AbstractValue, AbstractValue) {
    var (v, g) := Get(ApplyAll(New(policy), events), a);
    (v, Get(g, b).0)
  }

  /** In every run, two registers whose values have the same base differ by the difference of the offsets. */
  ghost predicate DifferencesAreSound(policy: InitPolicy, forms: iset<Form>) {
    forall events, states, a, b ::
      IsRun(events, states) && AreOf(events, forms) && Fits(policy, states[0]) ==>
        var (v, w) := ValuesOf(policy, events, a, b);
        v.base == w.base ==> Differ(states[|events|], a, b, v.offset - w.offset)
  }

  predicate Differ(regs: Registers, a: string, b: string, n: int) {
    regs(a) == (regs(b) + n) % MODULUS
  }

  lemma DifferencesExplained(policy: InitPolicy, forms: iset<Form>, events: seq<Event>, states: seq<Registers>,
                             a: string, b: string)
    requires IsRun(events, states) && AreOf(events, forms) && Fits(policy, states[0]) && AllFaithful(forms)
    ensures var (v, w) := ValuesOf(policy, events, a, b);
            v.base == w.base ==> Differ(states[|events|], a, b, v.offset - w.offset)
  {
    hide Explains, New, ApplyAll, Fits, Runs, AreOf, AllFaithful;
    var m := RunExplained(policy, events, states, forms);
    var g, regs := ApplyAll(New(policy), events), states[|events|];
    m := GetKeeps(g, regs, regs, m, a);
    var m' := GetKeeps(Get(g, a).1, regs, regs, m, b);
    var (v, w) := ValuesOf(policy, events, a, b);
    if v.base == w.base {
      ModAdd(regs(b), m'[w.base] + w.offset, v.offset - w.offset);
    }
  }

  lemma FaithfulDifferencesSound(policy: InitPolicy, forms: iset<Form>)
    requires AllFaithful(forms)
    ensures DifferencesAreSound(policy, forms)
  {
    hide AreOf, Faithful, ValuesOf, Differ, Fits, Runs;
    forall events, states, a, b | IsRun(events, states) && AreOf(events, forms) && Fits(policy, states[0])
      ensures var (v, w) := ValuesOf(policy, events, a, b);
              v.base == w.base ==> Differ(states[|events|], a, b, v.offset - w.offset)
    {
      DifferencesExplained(policy, forms, events, states, a, b);
    }
  }

  /** Two registers that differ by another number than their values do. */
  lemma BreaksDifferences(policy: InitPolicy, forms: iset<Form>, events: seq<Event>, states: seq<Registers>,
                          regs: Registers, g: Generator, a: string, b: string, n: int)
    requires Reached(policy, forms, events, states, regs, g) && a in g.values && b in g.values
    requires g.values[a] == AbstractValue(g.values[b].base, g.values[b].offset + n)
    requires regs(a) != (regs(b) + n) % MODULUS
    ensures !DifferencesAreSound(policy, forms)
  {
    hide AreOf, Fits, ApplyAll, New, Runs;
    assert ValuesOf(policy, events, a, b) == (g.values[a], g.values[b]);
    assert !Differ(states[|events|], a, b, n);
  }

  /** Unless all registers are taken to be equal at first, a form that need not work in place shows itself. */
  lemma BreaksAtOnce(policy: InitPolicy, forms: iset<Form>, f: Form)
    requires policy != Same && f in forms && ValidOperation(f.op) && !Faithful(f) && !f.inPlace
    ensures !DifferencesAreSound(policy, forms)
  {
    hide Reached, TakenAs, DifferencesAreSound, ValidOperation, Faithful, Merges;
    var a, b := "RSP", "RAX";
    var events, states, regs, g := ShowsAtOnce(policy, forms, f, a, b);
    BreaksDifferences(policy, forms, events, states, regs, g, b, a, TakenAs(f).value);
  }

  lemma BitsOf(op: Operation)
    requires ValidOperation(op) && Merges(op)
    ensures 1 <= op.bits <= 63
  {}

  lemma NotFaithful(f: Form)
    requires !Faithful(f)
    ensures TakenAs(f).Some?
  {}

  /** After a move, and an increment if need be, every form does. */
  lemma BreaksMoved(policy: InitPolicy, forms: iset<Form>, f: Form)
    requires Move in forms && Addition(1) in forms && f in forms && ValidOperation(f.op) && !Faithful(f)
    ensures !DifferencesAreSound(policy, forms)
  {
    hide Reached, TakenAs, DifferencesAreSound, ValidOperation, Faithful;
    var a, b, c := "RSP", "RBX", "RCX";
    var events, states, regs, g := Shows(policy, forms, f, a, b, c);
    BreaksDifferences(policy, forms, events, states, regs, g, b, a, TakenAs(f).value);
  }

  /** Registers differ by the difference of their offsets, in all runs and from all initial states that fit the policy,
      exactly if every form is faithful. Only forms that work in place need a 64-bit move and increment beside them, and
      all forms do if the registers are taken to be equal at first. */
  lemma DifferencesSoundExactly(policy: InitPolicy, forms: iset<Form>)
    requires forall f :: f in forms ==> ValidOperation(f.op)
    requires forall f :: f in forms ==> (policy != Same && !f.inPlace) || (Move in forms && Addition(1) in forms)
    ensures DifferencesAreSound(policy, forms) <==> AllFaithful(forms)
  {
    hide DifferencesAreSound, Faithful, ValidOperation;
    if AllFaithful(forms) {
      FaithfulDifferencesSound(policy, forms);
    } else {
      var f :| f in forms && !Faithful(f);
      if policy != Same && !f.inPlace {
        BreaksAtOnce(policy, forms, f);
      } else {
        BreaksMoved(policy, forms, f);
      }
    }
  }
}

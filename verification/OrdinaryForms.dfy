/** The generator takes the ordinary 64-bit instructions for what they do, so that over them equal keys always mean equal
    addresses. */
module OrdinaryForms {
  import opened Wrappers
  import opened AbstractValues
  import opened AddressSoundness

  predicate IsAdd(name: string) {
    name == "ADD (R64, I8)" || name == "ADD (R64, I32)" || name == "ADD (RAX, I32)"
  }

  predicate IsSub(name: string) {
    name == "SUB (R64, I8)" || name == "SUB (R64, I32)" || name == "SUB (RAX, I32)"
  }

  /** A 64-bit addition of a constant, a subtraction of one, an increment and a decrement, each with what the processor
      does. */
  function AddForm(name: string, n: int): Form {
    Form(name, true, Some(n), Wide(n), true)
  }

  function SubForm(name: string, n: int): Form {
    Form(name, true, Some(n), Wide(-n), true)
  }

  const IncForm := Form("INC (R64)", true, None, Wide(1), true)
  const DecForm := Form("DEC (R64)", true, None, Wide(-1), true)

  ghost predicate IsOrdinary(f: Form) {
    || f == Form("MOV (R64, R64)", true, None, Wide(0), false) || f == IncForm || f == DecForm
    || (exists name, n :: IsAdd(name) && f == AddForm(name, n))
    || (exists name, n :: IsSub(name) && f == SubForm(name, n))
  }

  /** A part is not in a name that lacks its second letter. */
  lemma NoSecond(name: string, part: string)
    requires |part| >= 2 && forall k :: 0 <= k < |name| ==> name[k] != part[1]
    ensures !Contains(name, part)
  {
    forall i | 0 <= i <= |name|
      ensures !(part <= name[i..])
    {
      assert i + 1 < |name| ==> name[i..][1] == name[i + 1];
    }
  }

  lemma AddName(name: string)
    requires IsAdd(name)
    ensures Contains(name, "ADD") && !Contains(name, "MOV")
  {
    hide Contains;
    HasPart(name, "ADD");
    NoPart(name, "MOV");
  }

  lemma SubName(name: string)
    requires IsSub(name)
    ensures Contains(name, "SUB") && !Contains(name, "MOV") && !Contains(name, "ADD")
  {
    hide Contains;
    assert Lacks(name, {'M', 'D'}) && "SUB" <= name;
    hide IsSub;
    HasPart(name, "SUB");
    LackedPart(name, "MOV", {'M', 'D'});
    NoSecond(name, "ADD");
  }

  /** What is written by an instruction with such a name, an immediate and a register as its first input. */
  lemma NamedEffect(name: string, reg: string, n: int)
    ensures !Contains(name, "MOV") && Contains(name, "ADD") ==> EffectOf(WriteInfo(name, Some(reg), Some(n))) == Add(n)
    ensures !Contains(name, "MOV") && !Contains(name, "ADD") && Contains(name, "SUB") ==>
              EffectOf(WriteInfo(name, Some(reg), Some(n))) == Add(-n)
  {
    hide Contains;
  }

  lemma Taken(f: Form, n: int)
    requires EffectOf(InfoOf(f, "")) == Add(n) && f.op == Wide(n)
    ensures TakenAs(f) == Some(n) && Faithful(f)
  {
    hide EffectOf;
  }

  lemma AddTaken(name: string, n: int)
    requires IsAdd(name)
    ensures TakenAs(AddForm(name, n)) == Some(n) && Faithful(AddForm(name, n))
  {
    AddName(name);
    hide IsAdd, TakenAs, Faithful, Contains, EffectOf;
    NamedEffect(name, "", n);
    Taken(AddForm(name, n), n);
  }

  lemma SubTaken(name: string, n: int)
    requires IsSub(name)
    ensures TakenAs(SubForm(name, n)) == Some(-n) && Faithful(SubForm(name, n))
  {
    SubName(name);
    hide IsSub, TakenAs, Faithful, Contains;
    NamedSub(name, n);
  }

  lemma NamedSub(name: string, n: int)
    requires !Contains(name, "MOV") && !Contains(name, "ADD") && Contains(name, "SUB")
    ensures TakenAs(SubForm(name, n)) == Some(-n) && Faithful(SubForm(name, n))
  {
    hide TakenAs, Faithful, Contains, EffectOf;
    NamedEffect(name, "", n);
    Taken(SubForm(name, n), -n);
  }

  /** A name has none of some letters. */
  predicate Lacks(name: string, letters: set<char>) {
    forall k :: 0 <= k < |name| ==> name[k] !in letters
  }

  lemma LackedPart(name: string, part: string, letters: set<char>)
    requires Lacks(name, letters) && part != "" && part[0] in letters
    ensures !Contains(name, part)
  {
    NoPart(name, part);
  }

  lemma IncTaken()
    ensures TakenAs(IncForm) == Some(1) && Faithful(IncForm)
  {
    IncEffect("INC (R64)");
    hide EffectOf;
    Taken(IncForm, 1);
  }

  lemma IncEffect(name: string)
    requires name == "INC (R64)"
    ensures EffectOf(WriteInfo(name, Some(""), None)) == Add(1)
  {
    assert Lacks(name, {'M', 'A', 'S'});
    HasPart(name, "INC");
    hide Contains, Lacks;
    LackedPart(name, "MOV", {'M', 'A', 'S'});
  }

  lemma DecTaken()
    ensures TakenAs(DecForm) == Some(-1) && Faithful(DecForm)
  {
    DecEffect("DEC (R64)");
    hide EffectOf;
    Taken(DecForm, -1);
  }

  lemma DecLetters(name: string)
    requires name == "DEC (R64)"
    ensures Lacks(name, {'M', 'A', 'S', 'I'})
  {}

  lemma DecEffect(name: string)
    requires name == "DEC (R64)"
    ensures EffectOf(WriteInfo(name, Some(""), None)) == Add(-1)
  {
    hide Contains, Lacks;
    DecLetters(name);
    HasPart(name, "DEC");
    LackedPart(name, "MOV", {'M', 'A', 'S', 'I'});
    LackedPart(name, "INC", {'M', 'A', 'S', 'I'});
  }

  /** Every ordinary form is taken for a copy or an addition, rightly. */
  lemma OrdinaryTaken(f: Form)
    requires IsOrdinary(f)
    ensures TakenAs(f).Some? && Faithful(f)
  {
    hide TakenAs;
    MoveTakenAs();
    IncTaken();
    DecTaken();
    if name, n :| IsAdd(name) && f == AddForm(name, n) {
      AddTaken(name, n);
    } else if name, n :| IsSub(name) && f == SubForm(name, n) {
      SubTaken(name, n);
    }
  }

  ghost function Ordinary(): iset<Form> {
    iset f | IsOrdinary(f)
  }

  /** Over the ordinary forms equal keys mean equal addresses, in all runs. */
  lemma OrdinaryKeysSound(policy: InitPolicy)
    ensures KeysAreSound(policy, Ordinary())
  {
    hide IsOrdinary, Faithful, AreOf, Fits, EqualKeys, EffectiveAddress;
    forall f | f in Ordinary()
      ensures Faithful(f)
    {
      OrdinaryTaken(f);
    }
    forall events, states, a, b |
      IsRun(events, states) && AreOf(events, Ordinary()) && Fits(policy, states[0]) && EqualKeys(policy, events, a, b)
      ensures EffectiveAddress(a, states[|events|]) == EffectiveAddress(b, states[|events|])
    {
      EqualKeysMeanEqualAddresses(policy, Ordinary(), events, states, a, b);
    }
  }

  // What the other instructions are taken for

  /** Additions of registers, conditional moves and instructions without inputs give new values. */
  lemma OthersNew(reg: string)
    ensures EffectOf(WriteInfo("ADD (R64, R64)", Some(reg), None)) == Other
    ensures EffectOf(WriteInfo("CMOVZ (R64, R64)", Some(reg), None)) == Other
    ensures forall name, immediate :: EffectOf(WriteInfo(name, None, immediate)) == Other
  {
    hide Contains;
    RegisterAddName("ADD (R64, R64)");
    ConditionalName("CMOVZ (R64, R64)");
  }

  lemma RegisterAddName(name: string)
    requires name == "ADD (R64, R64)"
    ensures !Contains(name, "MOV") && !Contains(name, "INC") && !Contains(name, "DEC")
  {
    hide Contains;
    NoPart(name, "MOV");
    NoPart(name, "INC");
    NoSecond(name, "DEC");
  }

  lemma ConditionalName(name: string)
    requires name == "CMOVZ (R64, R64)"
    ensures Contains(name, "CMOV") && !Contains(name, "INC") && !Contains(name, "DEC")
  {
    hide Contains;
    HasPart(name, "CMOV");
    NoPart(name, "INC");
    NoPart(name, "DEC");
  }

  // What becomes of a register

  /** The value of a register after an instruction that writes it from itself. */
  function After(g: Generator, reg: string, name: string, n: int): Generator {
    Finish(SetForCurInstr(g, reg, WriteInfo(name, Some(reg), Some(n))))
  }

  /** A subtraction and an addition of the same amount give the old value back, and the subtraction lowers the offset. */
  lemma SubThenAdd(g: Generator, reg: string, sub: string, add: string, n: int)
    requires IsSub(sub) && IsAdd(add) && g.pending == map[]
    ensures var v := Get(g, reg).0;
            && After(g, reg, sub, n).values[reg] == AbstractValue(v.base, v.offset - n)
            && After(After(g, reg, sub, n), reg, add, n).values[reg] == v
  {
    SubName(sub);
    AddName(add);
    NamedEffect(sub, reg, n);
    NamedEffect(add, reg, n);
    hide EffectOf, Contains, IsAdd, IsSub;
    AfterAdding(g, reg, sub, n, -n);
    AfterAdding(After(g, reg, sub, n), reg, add, n, n);
  }

  lemma AfterAdding(g: Generator, reg: string, name: string, n: int, d: int)
    requires EffectOf(WriteInfo(name, Some(reg), Some(n))) == Add(d) && g.pending == map[]
    ensures var v, h := Get(g, reg).0, After(g, reg, name, n);
            h.pending == map[] && reg in h.values && h.values[reg] == AbstractValue(v.base, v.offset + d) == Get(h, reg).0
  {
    hide EffectOf;
  }

  /** At first two registers have the same value exactly if the policy says so. */
  lemma InitialValues(policy: InitPolicy, a: string, b: string)
    requires a != b
    ensures var (v, g) := Get(New(policy), a);
            v == Get(g, b).0 <==>
            policy == Same || (policy == Stack && a !in {"RSP", "RBP"} && b !in {"RSP", "RBP"})
  {}

  /** Other instructions give a value that no register had. */
  lemma NewValue(g: Generator, reg: string, w: WriteInfo, other: string)
    requires EffectOf(w) == Other && g.pending == map[] && other != reg && other in g.values
    requires g.values[other].base < g.next && g.initValue.base < g.next
    ensures var h := Finish(SetForCurInstr(g, reg, w));
            h.values[reg].base != h.values[other].base
  {
    hide EffectOf;
  }
}

/** Symbolic register values `base + offset` (`AbstractValueGenerator`), the keys under which memory operands are
    looked up. */
module AbstractValues {
  import opened Wrappers

  datatype AbstractValue = AbstractValue(base: nat, offset: int)

  /** What is assumed of registers that have not been written: `Diff` nothing, `Same` that they are all equal, `Stack`
      that they are all equal but for the two stack registers. */
  datatype InitPolicy = Diff | Same | Stack

  /** The fields of the generator. */
  datatype Generator = Generator(policy: InitPolicy, next: nat, initValue: AbstractValue,
                                 values: map<string, AbstractValue>, pending: map<string, AbstractValue>)

  /** What the value of a register written by an instruction depends on. */
  datatype WriteInfo = WriteInfo(instrStr: string, firstInput: Option<string>, immediate: Option<int>)

  datatype Effect = Copy | Add(amount: int) | Other

  predicate Contains(s: string, part: string) {
    exists i :: 0 <= i <= |s| && part <= s[i..]
  }

  function EffectOf(w: WriteInfo): Effect {
    if w.firstInput == None then Other
    else if Contains(w.instrStr, "MOV") && !Contains(w.instrStr, "CMOV") then Copy
    else if Contains(w.instrStr, "ADD") && w.immediate.Some? then Add(w.immediate.value)
    else if Contains(w.instrStr, "SUB") && w.immediate.Some? then Add(-w.immediate.value)
    else if Contains(w.instrStr, "INC") then Add(1)
    else if Contains(w.instrStr, "DEC") then Add(-1)
    else Other
  }

  function Fresh(g: Generator): (AbstractValue, Generator) {
    (AbstractValue(g.next, 0), g.(next := g.next + 1))
  }

  function New(policy: InitPolicy): Generator {
    var (init, g) := Fresh(Generator(policy, 0, AbstractValue(0, 0), map[], map[]));
    var g := g.(initValue := init);
    if policy == Stack then
      var (rsp, g) := Fresh(g);
      var (rbp, g) := Fresh(g);
      g.(values := map["RSP" := rsp, "RBP" := rbp])
    else
      g
  }

  function Get(g: Generator, reg: string): (AbstractValue, Generator) {
    if reg in g.values then (g.values[reg], g)
    else
      var (v, g) := if g.policy == Diff then Fresh(g) else (g.initValue, g);
      (v, g.(values := g.values[reg := v]))
  }

  function Compute(g: Generator, w: WriteInfo): (AbstractValue, Generator) {
    if w.firstInput == None then Fresh(g)
    else
      var (v, g) := Get(g, w.firstInput.value);
      match EffectOf(w)
      case Copy => (v, g)
      case Add(n) => (AbstractValue(v.base, v.offset + n), g)
      case Other => Fresh(g)
  }

  function SetForCurInstr(g: Generator, key: string, w: WriteInfo): Generator {
    var (v, g) := Compute(g, w);
    g.(pending := g.pending[key := v])
  }

  function Finish(g: Generator): Generator {
    g.(values := g.values + g.pending, pending := map[])
  }

  class AbstractValueGenerator {
    var initPolicy: InitPolicy
    var nextValue: nat
    var initValue: AbstractValue
    var values: map<string, AbstractValue>
    var curInstrValues: map<string, AbstractValue>

    ghost function State(): Generator
      reads this
    {
      Generator(initPolicy, nextValue, initValue, values, curInstrValues)
    }

    constructor (policy: InitPolicy)
      ensures State() == New(policy)
    {
      initPolicy, nextValue, initValue := policy, 0, AbstractValue(0, 0);
      values, curInstrValues := map[], map[];
      new;
      initValue := GenerateFresh();
      if policy == Stack {
        var rsp := GenerateFresh();
        var rbp := GenerateFresh();
        values := map["RSP" := rsp, "RBP" := rbp];
      }
    }

    method GenerateFresh() returns (v: AbstractValue)
      modifies this`nextValue
      ensures (v, State()) == Fresh(old(State()))
    {
      v := AbstractValue(nextValue, 0);
      nextValue := nextValue + 1;
    }

    method GetForReg(reg: string) returns (v: AbstractValue)
      modifies this`nextValue, this`values
      ensures (v, State()) == Get(old(State()), reg)
    {
      if reg !in values {
        var initial := initValue;
        if initPolicy == Diff {
          initial := GenerateFresh();
        }
        values := values[reg := initial];
      }
      v := values[reg];
    }

    method SetForCurrentInstr(key: string, w: WriteInfo)
      modifies this
      ensures State() == SetForCurInstr(old(State()), key, w)
    {
      var v;
      if w.firstInput.Some? {
        v := GetForReg(w.firstInput.value);
        match EffectOf(w)
        case Copy =>
        case Add(n) => v := AbstractValue(v.base, v.offset + n);
        case Other => v := GenerateFresh();
      } else {
        v := GenerateFresh();
      }
      curInstrValues := curInstrValues[key := v];
    }

    method FinishCurInstr()
      modifies this
      ensures State() == Finish(old(State()))
    {
      values := values + curInstrValues;
      curInstrValues := map[];
    }
  }

  // Memory operands

  datatype Address = Address(base: Option<string>, index: Option<string>, scale: int, disp: int)

  /** The key under which a memory operand is looked up. */
  datatype AddressKey = AddressKey(base: Option<AbstractValue>, index: Option<AbstractValue>, scale: int, disp: int)

  function GetOptional(g: Generator, reg: Option<string>): (Option<AbstractValue>, Generator) {
    match reg
    case None => (None, g)
    case Some(r) => var (v, g) := Get(g, r); (Some(v), g)
  }

  function KeyOf(g: Generator, a: Address): (AddressKey, Generator) {
    var (base, g) := GetOptional(g, a.base);
    var (index, g) := GetOptional(g, a.index);
    (AddressKey(base, index, a.scale, a.disp), g)
  }
}

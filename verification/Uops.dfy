/** Micro-operations in flight: what the back end knows of each of them and when their operands become ready. */
module Uops {
  import opened Wrappers

  /** A renamed operand: it is ready in a known cycle, or it is the output number `slot` of a uop. */
  datatype Operand = Known(cycle: int) | Written(uop: nat, slot: nat, latency: int)

  datatype Address = Address(base: Option<nat>, index: Option<nat>, scale: int, disp: int)

  /** Two abstract addresses that may lie in the same cache line. */
  predicate SameLine(a: Address, b: Address) {
    a.base == b.base && a.index == b.index && a.scale == b.scale && -64 < a.disp - b.disp < 64
  }

  datatype StoreBufferEntry = StoreBufferEntry(id: nat, address: Option<Address>)

  datatype Info = Info(
    possiblePorts: seq<string>,
    eliminated: bool,
    isLoad: bool,
    isStoreAddress: bool,
    isStoreData: bool,
    isFirstOfInstr: bool,
    isLoadSerializing: bool,
    isStoreSerializing: bool,
    isM256: bool,
    instr: string,
    tp: Option<nat>,
    divCycles: nat,
    entry: Option<StoreBufferEntry>,
    inputs: seq<Operand>,
    outputs: seq<Operand>)

  /** The fields of all uops: a uop has a field once it is a key of the map of that name. `ready` holds the ready
      cycles that operands have memorized. */
  datatype Table = Table(
    info: map<nat, Info>,
    issued: map<nat, nat>,
    actualPort: map<nat, string>,
    readyForDispatch: map<nat, nat>,
    dispatched: map<nat, nat>,
    executed: map<nat, int>,
    addressReady: map<nat, int>,
    dataReady: map<nat, int>,
    ready: map<Operand, int>)

  const NO_UOPS := Table(map[], map[], map[], map[], map[], map[], map[], map[], map[])

  /** A uop of the fused domain: it takes one slot of the reorder buffer. */
  datatype FusedUop = FusedUop(idx: nat, uops: seq<nat>)

  function Unfused(fused: seq<FusedUop>): seq<nat> {
    if fused == [] then [] else fused[0].uops + Unfused(fused[1..])
  }

  lemma NextFused(fused: seq<FusedUop>, f: nat)
    requires f < |fused|
    ensures Unfused(fused[f..]) == fused[f].uops + Unfused(fused[f + 1..])
    ensures fused[f].uops[0..] == fused[f].uops
  {
    assert fused[f..][1..] == fused[f + 1..];
  }

  predicate PortBound(i: Info) {
    i.possiblePorts != [] && !i.eliminated
  }

  function Max(a: int, b: int): (m: int)
    ensures a <= m && b <= m
  {
    if a < b then b else a
  }

  /** The store buffer entry that a load reads from. */
  function ForwardedFrom(i: Info): Option<nat> {
    if i.isLoad && i.entry.Some? then Some(i.entry.value.id) else None
  }

  /** The cycle in which a uop with a given latency writes its operand. */
  function WriteCycle(t: Table, w: nat, latency: int): Option<int> {
    if w !in t.dispatched || w !in t.info then None
    else
      match ForwardedFrom(t.info[w])
      case None => Some(t.dispatched[w] + latency)
      case Some(e) =>
        if e !in t.addressReady || e !in t.dataReady then None
        else Some(Max(t.dispatched[w] + latency, Max(t.addressReady[e], t.dataReady[e]) + 4))
  }

  /** The cycle in which an operand becomes ready, if it is known yet (`RenamedOperand.getReadyCycle`). */
  function ReadyCycle(t: Table, op: Operand): Option<int> {
    match op
    case Known(cycle) => Some(cycle)
    case Written(w, _, latency) => if op in t.ready then Some(t.ready[op]) else WriteCycle(t, w, latency)
  }

  function Memorized(t: Table, op: Operand): Table {
    if op.Written? && ReadyCycle(t, op).Some? then t.(ready := t.ready[op := ReadyCycle(t, op).value]) else t
  }

  ghost predicate Extends<K, V>(m: map<K, V>, n: map<K, V>) {
    forall k :: k in m ==> k in n && n[k] == m[k]
  }

  /** Fields are set once; only the ready cycles of a store buffer entry may be set again. */
  ghost predicate Later(t: Table, u: Table) {
    && Extends(t.info, u.info) && Extends(t.issued, u.issued) && Extends(t.actualPort, u.actualPort)
    && Extends(t.readyForDispatch, u.readyForDispatch) && Extends(t.dispatched, u.dispatched)
    && Extends(t.executed, u.executed) && Extends(t.ready, u.ready)
    && t.addressReady.Keys <= u.addressReady.Keys && t.dataReady.Keys <= u.dataReady.Keys
  }

  lemma LaterItself(t: Table)
    ensures Later(t, t)
  {}

  lemma LaterTrans(t: Table, u: Table, v: Table)
    requires Later(t, u) && Later(u, v)
    ensures Later(t, v)
  {}

  lemma WriteCycleLater(t: Table, u: Table, w: nat, latency: int)
    requires Later(t, u) && WriteCycle(t, w, latency).Some?
    ensures WriteCycle(u, w, latency).Some?
  {
    hide Max;
  }

  /** What is known about an operand stays known. */
  lemma AnsweredLater(t: Table, u: Table, op: Operand)
    requires Later(t, u) && ReadyCycle(t, op).Some?
    ensures ReadyCycle(u, op).Some?
  {
    hide WriteCycle;
    if op.Written? && op !in t.ready {
      WriteCycleLater(t, u, op.uop, op.latency);
    }
  }

  lemma WriteCycleUnchanged(t: Table, op: Operand, w: nat, latency: int)
    ensures WriteCycle(Memorized(t, op), w, latency) == WriteCycle(t, w, latency)
  {
    hide Max, ReadyCycle;
  }

  /** Memorizing the ready cycle of an operand changes no operand's ready cycle. */
  lemma MemorizingHidden(t: Table, op: Operand, other: Operand)
    ensures ReadyCycle(Memorized(t, op), other) == ReadyCycle(t, other)
  {
    hide WriteCycle;
    if other.Written? {
      WriteCycleUnchanged(t, op, other.uop, other.latency);
    }
  }

  lemma ExtendsItself<K, V>(m: map<K, V>)
    ensures Extends(m, m)
  {}

  /** Only a memorized ready cycle was added. */
  lemma ReadyLater(t: Table, u: Table)
    requires u == t.(ready := u.ready) && Extends(t.ready, u.ready)
    ensures Later(t, u)
  {
    ExtendsItself(t.info);
    ExtendsItself(t.issued);
    ExtendsItself(t.actualPort);
    ExtendsItself(t.readyForDispatch);
    ExtendsItself(t.dispatched);
    ExtendsItself(t.executed);
    hide Extends;
  }

  lemma MemorizedExtends(t: Table, op: Operand)
    ensures Extends(t.ready, Memorized(t, op).ready)
    ensures Memorized(t, op) == t.(ready := Memorized(t, op).ready)
  {
    hide WriteCycle;
  }

  lemma MemorizingLater(t: Table, op: Operand)
    ensures Later(t, Memorized(t, op))
  {
    hide Memorized, Extends;
    MemorizedExtends(t, op);
    ReadyLater(t, Memorized(t, op));
  }

  // What holds of the table in every run

  /** A uop with a port has been issued and is bound to one of its possible ports. */
  ghost predicate Registered(t: Table) {
    forall u :: u in t.actualPort ==>
      u in t.info && PortBound(t.info[u]) && t.actualPort[u] in t.info[u].possiblePorts && u in t.issued
  }

  /** The phases of a uop follow each other. */
  ghost predicate Phased(t: Table) {
    && t.readyForDispatch.Keys <= t.actualPort.Keys && t.dispatched.Keys <= t.readyForDispatch.Keys
    && forall u :: u in t.executed && u in t.actualPort ==> u in t.dispatched
  }

  /** The operands of a uop come from the uops in `known`, and it writes its own. */
  ghost predicate LinkedTo(info: map<nat, Info>, known: set<nat>, u: nat)
    requires u in info
  {
    && (forall op :: op in info[u].inputs && op.Written? ==>
          op.uop in known && op.uop in info && op in info[op.uop].outputs)
    && (forall op :: op in info[u].outputs ==> op.Written? && op.uop == u)
    && (info[u].isStoreAddress || info[u].isStoreData ==> info[u].entry.Some?)
  }

  ghost predicate LinkedUop(t: Table, u: nat)
    requires u in t.info
  {
    LinkedTo(t.info, t.actualPort.Keys, u)
  }

  /** Operands connect a uop with uops that have a port themselves. */
  ghost predicate Linked(t: Table) {
    forall u :: u in t.actualPort ==> u in t.info && LinkedUop(t, u)
  }

  /** The ready cycle of an operand is fixed and is at most `cycle`. */
  predicate Settled(t: Table, op: Operand, cycle: int) {
    match op
    case Known(c) => c <= cycle
    case Written(_, _, _) => op in t.ready && t.ready[op] <= cycle
  }

  predicate AllSettled(t: Table, ops: seq<Operand>, cycle: int) {
    forall op :: op in ops ==> Settled(t, op, cycle)
  }

  ghost predicate CausalReady(t: Table, delay: nat, u: nat) {
    && u in t.info && u in t.issued && u in t.readyForDispatch
    && t.issued[u] + delay <= t.readyForDispatch[u]
    && AllSettled(t, t.info[u].inputs, t.readyForDispatch[u])
  }

  ghost predicate CausalExecuted(t: Table, u: nat) {
    && u in t.info && u in t.dispatched && u in t.executed
    && t.dispatched[u] + 2 <= t.executed[u] && AllSettled(t, t.info[u].outputs, t.executed[u])
  }

  /** A memorized ready cycle is no earlier than the latency of the uop allows. */
  ghost predicate Remembered(t: Table) {
    forall op :: op in t.ready ==>
      op.Written? && op.uop in t.dispatched && t.dispatched[op.uop] + op.latency <= t.ready[op]
  }

  ghost predicate ReadyInTime(t: Table, delay: nat) {
    forall u :: u in t.readyForDispatch ==> CausalReady(t, delay, u)
  }

  ghost predicate DispatchedInTime(t: Table) {
    forall u :: u in t.dispatched ==> u in t.readyForDispatch && t.readyForDispatch[u] <= t.dispatched[u]
  }

  ghost predicate ExecutedInTime(t: Table) {
    forall u :: u in t.dispatched && u in t.executed ==> CausalExecuted(t, u)
  }

  ghost predicate Causal(t: Table, delay: nat) {
    ReadyInTime(t, delay) && DispatchedInTime(t) && ExecutedInTime(t) && Remembered(t)
  }

  ghost predicate Sound(t: Table, delay: nat) {
    Registered(t) && Phased(t) && Linked(t) && Causal(t, delay)
  }

  /** No uop is dispatched before the latency of a uop that it depends on has passed, nor before its own issue delay,
      and it takes two cycles or more to execute. */
  lemma DataflowRespected(t: Table, delay: nat, u: nat, op: Operand)
    requires Sound(t, delay) && u in t.dispatched && u in t.info && op in t.info[u].inputs && op.Written?
    ensures op.uop in t.dispatched && t.dispatched[op.uop] + op.latency <= t.dispatched[u]
    ensures u in t.issued && t.issued[u] + delay <= t.dispatched[u]
    ensures u in t.executed ==> t.dispatched[u] + 2 <= t.executed[u]
  {
    assert CausalReady(t, delay, u);
    assert Settled(t, op, t.readyForDispatch[u]);
  }

  /** What an executed uop has written is known. */
  lemma ExecutedAnswered(t: Table, delay: nat, u: nat, op: Operand)
    requires Sound(t, delay) && u in t.actualPort && op in t.info[u].inputs && op.Written? && op.uop in t.executed
    ensures ReadyCycle(t, op).Some?
  {
    assert LinkedUop(t, u);
    assert CausalExecuted(t, op.uop);
    assert Settled(t, op, t.executed[op.uop]);
  }

  // The steps of the table

  lemma SettledLater(t: Table, u: Table, ops: seq<Operand>, cycle: int)
    requires Extends(t.ready, u.ready) && AllSettled(t, ops, cycle)
    ensures AllSettled(u, ops, cycle)
  {
    forall op | op in ops
      ensures Settled(u, op, cycle)
    {
      assert Settled(t, op, cycle);
    }
  }

  lemma MemorizedSound(t: Table, delay: nat, op: Operand)
    requires Sound(t, delay)
    ensures Sound(Memorized(t, op), delay)
  {
    var s := Memorized(t, op);
    hide Settled, ReadyCycle, Memorized;
    MemorizedExtends(t, op);
    assert Registered(s) && Phased(s);
    MemorizedLinked(t, op);
    MemorizedRemembered(t, op);
    MemorizedCausal(t, delay, op);
  }

  lemma MemorizedLinked(t: Table, op: Operand)
    requires Linked(t)
    ensures Linked(Memorized(t, op))
  {
    hide ReadyCycle;
    var s := Memorized(t, op);
    forall u | u in s.actualPort
      ensures LinkedUop(s, u)
    {
      assert LinkedUop(t, u);
    }
  }

  lemma MemorizedCausal(t: Table, delay: nat, op: Operand)
    requires Causal(t, delay) && Extends(t.ready, Memorized(t, op).ready) && Remembered(Memorized(t, op))
    ensures Causal(Memorized(t, op), delay)
  {
    var s := Memorized(t, op);
    hide Settled, ReadyCycle, Remembered, Memorized, AllSettled;
    MemorizedExtends(t, op);
    forall u | u in s.readyForDispatch
      ensures CausalReady(s, delay, u)
    {
      assert CausalReady(t, delay, u);
      SettledLater(t, s, t.info[u].inputs, t.readyForDispatch[u]);
    }
    forall u | u in s.dispatched && u in s.executed
      ensures CausalExecuted(s, u)
    {
      assert CausalExecuted(t, u);
      SettledLater(t, s, t.info[u].outputs, t.executed[u]);
    }
  }

  lemma MemorizedRemembered(t: Table, op: Operand)
    requires Remembered(t)
    ensures Remembered(Memorized(t, op))
  {}

  class UopStorage {
    var t: Table

    constructor ()
      ensures t == NO_UOPS
    {
      t := NO_UOPS;
    }

    method GetReadyCycle(op: Operand) returns (cycle: Option<int>)
      modifies this
      ensures cycle == ReadyCycle(old(t), op)
      ensures t == Memorized(old(t), op)
    {
      match op {
        case Known(c) => {
          return Some(c);
        }
        case Written(w, _, latency) => {
          if op in t.ready {
            return Some(t.ready[op]);
          }
          if w !in t.dispatched || w !in t.info {
            return None;
          }
          var ready := t.dispatched[w] + latency;
          match ForwardedFrom(t.info[w]) {
            case Some(e) => {
              if e !in t.addressReady || e !in t.dataReady {
                return None;
              }
              ready := Max(ready, Max(t.addressReady[e], t.dataReady[e]) + 4);
            }
            case None => {}
          }
          t := t.(ready := t.ready[op := ready]);
          return Some(ready);
        }
      }
    }
  }
}

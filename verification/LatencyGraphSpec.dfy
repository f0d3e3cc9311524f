/** What the latency graph of a loop body is: which value each operand of an instruction reads in the steady state of the
    loop, and how many cycles after the values from which that one was produced. */
module LatencyGraphSpec {
  import opened Wrappers
  import opened LatencyGraph
  import opened AbstractValues

  datatype Instr = Instr(
    instrStr: string,
    uops: int,
    inputs: seq<Operand>,
    abstractValueInputs: seq<string>,
    outputs: seq<Operand>,
    inputMems: seq<Address>,
    memAddrLatencyPairs: set<(Operand, Operand)>,
    latencies: map<(Operand, Operand), int>,
    implicitRspChange: int,
    nonImplicitInputs: set<Operand>,
    mayBeEliminated: bool,
    eliminatedMoveInput: Option<Operand>,
    eliminatedMoveOutputIs32Bit: bool,
    immediate: Option<int>)

  /** The key under which an operand's last write is remembered. */
  datatype Key = NameKey(name: Operand) | MemKey(address: AddressKey)

  datatype Write = Write(instr: nat, output: Operand, fastPtrChasing: bool, iteration: nat)

  const RSP := RegOp("RSP")

  function InfoOf(i: Instr): WriteInfo {
    WriteInfo(i.instrStr, if i.abstractValueInputs == [] then None else Some(i.abstractValueInputs[0]), i.immediate)
  }

  // Fast pointer chasing: the base register must come straight from a load

  /** The writer, in the previous or the same round, of each move's input. */
  function PrevWriteForMove(instrs: seq<Instr>, steps: nat): (map<Operand, nat>, map<nat, Option<nat>>)
    requires steps <= 2 * |instrs|
  {
    if steps == 0 then (map[], map[])
    else
      var (toReg, forMove) := PrevWriteForMove(instrs, steps - 1);
      var idx := if steps - 1 < |instrs| then steps - 1 else steps - 1 - |instrs|;
      var i := instrs[idx];
      var prev := match i.eliminatedMoveInput
        case None => None
        case Some(input) => if input in toReg then Some(toReg[input]) else None;
      (toReg + (map o | o in i.outputs :: idx), if i.mayBeEliminated then forMove[idx := prev] else forMove)
  }

  function IndexSet(n: nat): (r: set<nat>)
    ensures forall k :: k in r <==> 0 <= k < n
  {
    if n == 0 then {} else IndexSet(n - 1) + {n - 1}
  }

  /** Follows eliminated moves back to the instruction that really wrote the value; the flag tells whether a 32-bit
      move was on the way. */
  function NonEliminatedWriter(instrs: seq<Instr>, forMove: map<nat, Option<nat>>, idx: nat, seen: set<nat>,
                               by32Bit: bool): Option<(nat, bool)>
    decreases IndexSet(|instrs|) - seen
  {
    if idx in seen || idx >= |instrs| then None
    else if !instrs[idx].mayBeEliminated then Some((idx, by32Bit))
    else if idx !in forMove || forMove[idx] == None then None
    else NonEliminatedWriter(instrs, forMove, forMove[idx].value, seen + {idx},
                             by32Bit || instrs[idx].eliminatedMoveOutputIs32Bit)
  }

  const FAST_LOADS: set<string> :=
    {"MOV (R64, M64)", "MOV (RAX, M64)", "MOV (R32, M32)", "MOV (EAX, M32)", "MOVSXD (R64, M32)", "POP (R64)"}

  function WriterOf(instrs: seq<Instr>, forMove: map<nat, Option<nat>>, prevWrite: map<Key, Write>,
                    reg: string): Option<(nat, bool)>
  {
    var key := NameKey(RegOp(reg));
    if key in prevWrite then NonEliminatedWriter(instrs, forMove, prevWrite[key].instr, {}, false) else None
  }

  predicate FastPtrChasing(instrs: seq<Instr>, forMove: map<nat, Option<nat>>, prevWrite: map<Key, Write>, i: Instr,
                           enabled: bool)
  {
    if i.inputMems == [] then false
    else
      var mem := i.inputMems[0];
      if !enabled || mem.disp < 0 || mem.disp >= 2048 || mem.base == None then false
      else
        match WriterOf(instrs, forMove, prevWrite, mem.base.value)
        case None => false
        case Some((base, by32Bit)) =>
          if by32Bit || base >= |instrs| || instrs[base].instrStr !in FAST_LOADS then false
          else if mem.index == None then true
          else
            match WriterOf(instrs, forMove, prevWrite, mem.index.value)
            case None => false
            case Some((index, _)) => index < |instrs| && instrs[index].uops == 0
  }

  // What the instructions write, in order

  /** The key of an operand: its name, or the abstract address of a memory operand. */
  function KeyFor(g: Generator, o: Operand): (Key, Generator) {
    match o
    case MemOp(base, index, scale, disp) =>
      var (k, g) := KeyOf(g, Address(base, index, scale, disp));
      (MemKey(k), g)
    case _ => (NameKey(o), g)
  }

  type Trace = seq<(Key, Write)>

  /** What a dictionary of last writes holds after some writes. */
  function Dictionary(trace: Trace): map<Key, Write> {
    if trace == [] then map[] else Dictionary(trace[..|trace| - 1])[trace[|trace| - 1].0 := trace[|trace| - 1].1]
  }

  /** The last write under a key. */
  function LastWith(trace: Trace, key: Key): Option<Write> {
    if trace == [] then None
    else if trace[|trace| - 1].0 == key then Some(trace[|trace| - 1].1)
    else LastWith(trace[..|trace| - 1], key)
  }

  lemma {:induction false} DictionaryHoldsLast(trace: Trace, key: Key)
    ensures LastWith(trace, key) == if key in Dictionary(trace) then Some(Dictionary(trace)[key]) else None
  {
    if trace != [] {
      DictionaryHoldsLast(trace[..|trace| - 1], key);
    }
  }

  lemma DictionaryNext(trace: Trace, key: Key, w: Write)
    ensures Dictionary(trace + [(key, w)]) == Dictionary(trace)[key := w]
  {
    assert (trace + [(key, w)])[..|trace|] == trace;
  }

  /** The loop body, whether fast pointer chasing is possible, and what is assumed of the initial registers. */
  datatype Loop = Loop(instrs: seq<Instr>, fast: bool, policy: InitPolicy)

  /** How far the loop has been followed: the writes so far, whether the stack pointer was last changed implicitly, and
      the abstract register values. */
  datatype Progress = Progress(trace: Trace, rspChanged: bool, gen: Generator)

  function Moves(x: Loop): map<nat, Option<nat>> {
    PrevWriteForMove(x.instrs, 2 * |x.instrs|).1
  }

  /** After the first `k` outputs of an instruction. */
  function WriteOutputs(i: Instr, idx: nat, fast: bool, iteration: nat, k: nat, trace: Trace, gen: Generator):
    (Trace, Generator)
    requires k <= |i.outputs|
  {
    if k == 0 then (trace, gen)
    else
      var (t, g) := WriteOutputs(i, idx, fast, iteration, k - 1, trace, gen);
      var output := i.outputs[k - 1];
      var (key, g) := KeyFor(g, output);
      (t + [(key, Write(idx, output, fast, iteration))],
       if output.RegOp? then SetForCurInstr(g, output.reg, InfoOf(i)) else g)
  }

  function IsFast(x: Loop, idx: nat, p: Progress): bool
    requires idx < |x.instrs|
  {
    FastPtrChasing(x.instrs, Moves(x), Dictionary(p.trace), x.instrs[idx], x.fast)
  }

  function RspChanged(i: Instr, before: bool): bool {
    if i.implicitRspChange != 0 then true
    else if RSP in i.nonImplicitInputs || RSP in i.outputs then false
    else before
  }

  /** After an instruction. */
  function Processed(x: Loop, idx: nat, iteration: nat, p: Progress): Progress
    requires idx < |x.instrs|
  {
    var i := x.instrs[idx];
    var (t, g) := WriteOutputs(i, idx, IsFast(x, idx, p), iteration, |i.outputs|, p.trace, p.gen);
    Progress(t, RspChanged(i, p.rspChanged), Finish(g))
  }

  function Beginning(x: Loop): Progress {
    Progress([], false, New(x.policy))
  }

  /** After `m` instructions of the two iterations that come before the one whose operands are looked at. */
  function Priming(x: Loop, m: nat): Progress
    requires m <= 2 * |x.instrs|
  {
    if m == 0 then Beginning(x)
    else Processed(x, if m - 1 < |x.instrs| then m - 1 else m - 1 - |x.instrs|, 0, Priming(x, m - 1))
  }

  /** After the keys of the first `k` inputs have been looked up. */
  function LookedUp(g: Generator, inputs: seq<Operand>, k: nat): Generator
    requires k <= |inputs|
  {
    if k == 0 then g else KeyFor(LookedUp(g, inputs, k - 1), inputs[k - 1]).1
  }

  /** Before instruction `i` of the iteration whose operands are looked at. */
  function Before(x: Loop, i: nat): Progress
    requires i <= |x.instrs|
  {
    if i == 0 then Priming(x, 2 * |x.instrs|)
    else
      var p, inputs := Before(x, i - 1), x.instrs[i - 1].inputs;
      Processed(x, i - 1, 1, p.(gen := LookedUp(p.gen, inputs, |inputs|)))
  }

  /** The write that input `k` of instruction `i` reads: the last one under the key of the operand. */
  function ReadFrom(x: Loop, i: nat, k: nat): Option<Write>
    requires i < |x.instrs| && k < |x.instrs[i].inputs|
  {
    var p, inputs := Before(x, i), x.instrs[i].inputs;
    LastWith(p.trace, KeyFor(LookedUp(p.gen, inputs, k), inputs[k]).0)
  }

  // The edges

  /** The latency of the edge from an input of the producer to an operand that reads the producer's output. */
  function EdgeLatency(instrs: seq<Instr>, w: Write, idx: nat, input: Operand, prevInput: Operand,
                       rspChanged: bool): (lat: Option<int>)
    requires w.instr < |instrs| && idx < |instrs|
    ensures lat.Some? ==> lat.value >= 0
  {
    var prev := instrs[w.instr];
    if prev.mayBeEliminated then Some(0)
    else if !prevInput.MemOp? && input.MemOp? then Some(0)
    else if (prevInput, w.output) !in prev.latencies || prev.latencies[(prevInput, w.output)] <= 0 then None
    else
      var lat := prev.latencies[(prevInput, w.output)];
      if w.fastPtrChasing && (prevInput, w.output) in prev.memAddrLatencyPairs && prev.inputMems != [] then
        Some(lat - 1)
      else if rspChanged && w.instr == idx && prevInput in instrs[idx].nonImplicitInputs && prevInput == RSP then
        Some(lat + 1)
      else
        Some(lat)
  }

  /** The edge that an input of the producer contributes. */
  ghost predicate Contributes(instrs: seq<Instr>, w: Write, idx: nat, input: Operand, rspChanged: bool,
                              prevInput: Operand, e: Edge)
    requires w.instr < |instrs| && idx < |instrs|
  {
    var lat := EdgeLatency(instrs, w, idx, input, prevInput, rspChanged);
    lat.Some? &&
    e == Edge(Node(w.instr, prevInput), Node(idx, input), lat.value, if w.iteration != 0 then 0 else 1)
  }

  ghost predicate ContributedBy(instrs: seq<Instr>, w: Write, idx: nat, input: Operand, rspChanged: bool,
                                ps: seq<Operand>, e: Edge)
    requires w.instr < |instrs| && idx < |instrs|
  {
    exists p :: p in ps && Contributes(instrs, w, idx, input, rspChanged, p, e)
  }

  lemma ContributedNext(instrs: seq<Instr>, w: Write, idx: nat, input: Operand, rspChanged: bool, ps: seq<Operand>,
                        k: nat, e: Edge)
    requires w.instr < |instrs| && idx < |instrs| && k < |ps|
    ensures ContributedBy(instrs, w, idx, input, rspChanged, ps[..k + 1], e) <==>
            ContributedBy(instrs, w, idx, input, rspChanged, ps[..k], e) ||
            Contributes(instrs, w, idx, input, rspChanged, ps[k], e)
  {
    hide Contributes;
    assert ps[..k + 1] == ps[..k] + [ps[k]];
    assert ps[k] in ps[..k + 1];
  }

  /** An edge into input `k` of instruction `i`, from an input of the instruction that wrote the value read there. */
  ghost predicate EdgeInto(x: Loop, i: nat, k: nat, e: Edge) {
    && i < |x.instrs| && k < |x.instrs[i].inputs| && ReadFrom(x, i, k).Some?
    && var w := ReadFrom(x, i, k).value;
       && w.instr < |x.instrs|
       && ContributedBy(x.instrs, w, i, x.instrs[i].inputs[k], Before(x, i).rspChanged, x.instrs[w.instr].inputs, e)
  }

  ghost predicate IsLoopEdge(x: Loop, e: Edge) {
    exists i: nat, k: nat :: EdgeInto(x, i, k, e)
  }

  /** The graph has exactly the edges of the loop, each with its cost and the iterations it takes. */
  ghost predicate IsLatencyGraph(x: Loop, g: Graph) {
    WellFiled(g) && forall e :: IsEdge(g, e) <==> IsLoopEdge(x, e)
  }

  // The steady state

  /** An edge of the graph: it starts at an input of the producer, never costs less than nothing, and stays within an
      iteration only if it goes forward in the program. */
  ghost predicate SoundEdge(instrs: seq<Instr>, e: Edge) {
    && e.source.instr < |instrs| && e.source.operand in instrs[e.source.instr].inputs
    && e.target.instr < |instrs| && e.target.operand in instrs[e.target.instr].inputs
    && e.cost >= 0
    && (e.time == 1 || (e.time == 0 && e.source.instr < e.target.instr))
  }

  /** The last instruction before `i` that writes `o`. */
  function LastWriter(instrs: seq<Instr>, o: Operand, i: nat): (j: Option<nat>)
    requires i <= |instrs|
    ensures j.Some? ==> j.value < i
  {
    if i == 0 then None
    else if o in instrs[i - 1].outputs then Some(i - 1)
    else LastWriter(instrs, o, i - 1)
  }

  /** Where a read of `o` by instruction `i` gets its value in the steady state: from the last write before it in the
      same iteration, or else from the last write of the iteration before. */
  function Producer(instrs: seq<Instr>, o: Operand, i: nat): (r: Option<(nat, int)>)
    requires i <= |instrs|
    ensures r.Some? ==> r.value.0 < |instrs| && 0 <= r.value.1 <= 1
  {
    match LastWriter(instrs, o, i)
    case Some(j) => Some((j, 0))
    case None =>
      match LastWriter(instrs, o, |instrs|)
      case Some(j) => Some((j, 1))
      case None => None
  }

  /** `later` is `earlier` overwritten with the outputs of instruction `idx`. */
  ghost predicate Overwritten(earlier: map<Key, Write>, later: map<Key, Write>, outputs: seq<Operand>, idx: nat,
                              fast: bool, iteration: nat)
  {
    && (forall o: Operand {:trigger NameKey(o)} :: !o.MemOp? ==>
          if o in outputs then
            && NameKey(o) in later
            && later[NameKey(o)].instr == idx && later[NameKey(o)].output == o
            && later[NameKey(o)].iteration == iteration && later[NameKey(o)].fastPtrChasing == fast
          else (NameKey(o) in later <==> NameKey(o) in earlier) &&
               (NameKey(o) in earlier ==> later[NameKey(o)] == earlier[NameKey(o)]))
    && (forall k :: k in later ==>
          || (k in earlier && later[k] == earlier[k])
          || (later[k].instr == idx && later[k].output in outputs && later[k].iteration == iteration))
  }

  /** The remembered writes at instruction `i` of the last pass. */
  ghost predicate Remembers(instrs: seq<Instr>, prevWrite: map<Key, Write>, i: nat)
    requires i <= |instrs|
  {
    && (forall k :: k in prevWrite ==>
          var w := prevWrite[k];
          w.instr < |instrs| && w.output in instrs[w.instr].outputs && w.iteration <= 1 &&
          (w.iteration == 1 ==> w.instr < i))
    && (forall o: Operand {:trigger NameKey(o)} :: !o.MemOp? ==>
          match Producer(instrs, o, i)
          case None => NameKey(o) !in prevWrite
          case Some((j, time)) =>
            NameKey(o) in prevWrite && prevWrite[NameKey(o)].instr == j && prevWrite[NameKey(o)].output == o &&
            prevWrite[NameKey(o)].iteration == 1 - time)
  }

  /** The remembered writes after `i` instructions of a priming pass, the first one or a later one. */
  ghost predicate Primed(instrs: seq<Instr>, prevWrite: map<Key, Write>, i: nat, again: bool)
    requires i <= |instrs|
  {
    && (forall k :: k in prevWrite ==>
          var w := prevWrite[k];
          w.instr < |instrs| && w.output in instrs[w.instr].outputs && w.iteration == 0)
    && (forall o: Operand {:trigger NameKey(o)} :: !o.MemOp? ==>
          var last := if LastWriter(instrs, o, i) == None && again then LastWriter(instrs, o, |instrs|)
                      else LastWriter(instrs, o, i);
          match last
          case None => NameKey(o) !in prevWrite
          case Some(j) => NameKey(o) in prevWrite && prevWrite[NameKey(o)].instr == j &&
                          prevWrite[NameKey(o)].output == o)
  }

  lemma PrimedNext(instrs: seq<Instr>, before: map<Key, Write>, after: map<Key, Write>, i: nat, again: bool,
                   fast: bool)
    requires i < |instrs| && Primed(instrs, before, i, again)
    requires Overwritten(before, after, instrs[i].outputs, i, fast, 0)
    ensures Primed(instrs, after, i + 1, again)
  {}

  lemma RemembersNext(instrs: seq<Instr>, before: map<Key, Write>, after: map<Key, Write>, i: nat,
                      fast: bool)
    requires i < |instrs| && Remembers(instrs, before, i)
    requires Overwritten(before, after, instrs[i].outputs, i, fast, 1)
    ensures Remembers(instrs, after, i + 1)
  {}

  lemma PrimedAgain(instrs: seq<Instr>, prevWrite: map<Key, Write>, again: bool)
    requires Primed(instrs, prevWrite, |instrs|, again)
    ensures Primed(instrs, prevWrite, 0, true) && Remembers(instrs, prevWrite, 0)
  {}

  lemma {:induction false} OutputsOverwrite(i: Instr, idx: nat, fast: bool, iteration: nat, k: nat, trace: Trace,
                                            gen: Generator)
    requires k <= |i.outputs|
    ensures Overwritten(Dictionary(trace), Dictionary(WriteOutputs(i, idx, fast, iteration, k, trace, gen).0),
                        i.outputs[..k], idx, fast, iteration)
  {
    hide Dictionary, KeyFor;
    if k > 0 {
      OutputsOverwrite(i, idx, fast, iteration, k - 1, trace, gen);
      var (t, g) := WriteOutputs(i, idx, fast, iteration, k - 1, trace, gen);
      var output := i.outputs[k - 1];
      var key := KeyFor(g, output).0;
      KeyOfOperand(g, output);
      DictionaryNext(t, key, Write(idx, output, fast, iteration));
      assert i.outputs[..k] == i.outputs[..k - 1] + [output];
    }
  }

  lemma KeyOfOperand(g: Generator, o: Operand)
    ensures if o.MemOp? then KeyFor(g, o).0.MemKey? else KeyFor(g, o) == (NameKey(o), g)
  {}

  lemma ProcessedOverwrites(x: Loop, idx: nat, iteration: nat, p: Progress)
    requires idx < |x.instrs|
    ensures Overwritten(Dictionary(p.trace), Dictionary(Processed(x, idx, iteration, p).trace), x.instrs[idx].outputs,
                        idx, IsFast(x, idx, p), iteration)
  {
    hide Overwritten, WriteOutputs, IsFast;
    var i := x.instrs[idx];
    OutputsOverwrite(i, idx, IsFast(x, idx, p), iteration, |i.outputs|, p.trace, p.gen);
    assert i.outputs[..|i.outputs|] == i.outputs;
  }

  lemma {:induction false} PrimedAt(x: Loop, m: nat)
    requires m <= 2 * |x.instrs|
    ensures if m < |x.instrs| then Primed(x.instrs, Dictionary(Priming(x, m).trace), m, false)
            else Primed(x.instrs, Dictionary(Priming(x, m).trace), m - |x.instrs|, true)
  {
    hide Processed, Overwritten, Dictionary, Primed;
    var n := |x.instrs|;
    if m == 0 {
      NothingPrimed(x.instrs);
      if n == 0 {
        PrimedAgain(x.instrs, Dictionary([]), false);
      }
    } else {
      PrimedAt(x, m - 1);
      var idx := if m - 1 < n then m - 1 else m - 1 - n;
      var p := Priming(x, m - 1);
      ProcessedOverwrites(x, idx, 0, p);
      PrimedNext(x.instrs, Dictionary(p.trace), Dictionary(Priming(x, m).trace), idx, m - 1 >= n, IsFast(x, idx, p));
      if m == n {
        PrimedAgain(x.instrs, Dictionary(Priming(x, m).trace), false);
      }
    }
  }

  lemma NothingPrimed(instrs: seq<Instr>)
    ensures Primed(instrs, Dictionary([]), 0, false)
  {}

  lemma {:induction false} RemembersAt(x: Loop, i: nat)
    requires i <= |x.instrs|
    ensures Remembers(x.instrs, Dictionary(Before(x, i).trace), i)
  {
    hide Processed, Overwritten, Dictionary, Primed, Remembers, Priming;
    if i == 0 {
      PrimedAt(x, 2 * |x.instrs|);
      PrimedAgain(x.instrs, Dictionary(Before(x, 0).trace), true);
    } else {
      RemembersAt(x, i - 1);
      var p, inputs := Before(x, i - 1), x.instrs[i - 1].inputs;
      var q := p.(gen := LookedUp(p.gen, inputs, |inputs|));
      ProcessedOverwrites(x, i - 1, 1, q);
      RemembersNext(x.instrs, Dictionary(p.trace), Dictionary(Before(x, i).trace), i - 1, IsFast(x, i - 1, q));
    }
  }
  /** What is read is what the dictionary of last writes holds under the key of the operand. */
  lemma ReadIsRemembered(x: Loop, i: nat, k: nat)
    requires i < |x.instrs| && k < |x.instrs[i].inputs|
    ensures var input, d, r := x.instrs[i].inputs[k], Dictionary(Before(x, i).trace), ReadFrom(x, i, k);
            && (r.Some? ==>
                  var w := r.value;
                  && w.instr < |x.instrs| && w.output in x.instrs[w.instr].outputs && w.iteration <= 1
                  && (w.iteration == 1 ==> w.instr < i))
            && (!input.MemOp? ==> r == if NameKey(input) in d then Some(d[NameKey(input)]) else None)
  {
    hide Before, KeyFor, Dictionary;
    var p, inputs := Before(x, i), x.instrs[i].inputs;
    var g := LookedUp(p.gen, inputs, k);
    RemembersAt(x, i);
    KeyOfOperand(g, inputs[k]);
    DictionaryHoldsLast(p.trace, KeyFor(g, inputs[k]).0);
  }

  lemma LoopEdgesSound(x: Loop, e: Edge)
    requires IsLoopEdge(x, e)
    ensures SoundEdge(x.instrs, e)
  {
    hide ReadFrom, Before;
    var i: nat, k: nat :| EdgeInto(x, i, k, e);
    var w := ReadFrom(x, i, k).value;
    ReadIsRemembered(x, i, k);
    var p :| p in x.instrs[w.instr].inputs &&
             Contributes(x.instrs, w, i, x.instrs[i].inputs[k], Before(x, i).rspChanged, p, e);
  }

  // Whether a load that produces an address is a fast one, in the iteration itself and in the one before

  function FastIn(x: Loop, j: nat, time: int): bool
    requires j < |x.instrs|
  {
    IsFast(x, j, if time == 0 then Before(x, j) else Priming(x, |x.instrs| + j))
  }

  /** The remembered writes of the last priming iteration tell whether they were fast. */
  ghost predicate FlagsPrimed(x: Loop, d: map<Key, Write>, m: nat)
    requires m <= |x.instrs|
  {
    forall o: Operand {:trigger NameKey(o)} :: !o.MemOp? && LastWriter(x.instrs, o, m).Some? ==>
      && NameKey(o) in d
      && d[NameKey(o)].fastPtrChasing == FastIn(x, LastWriter(x.instrs, o, m).value, 1)
  }

  lemma FlagsPrimedNext(x: Loop, before: map<Key, Write>, after: map<Key, Write>, m: nat)
    requires m < |x.instrs| && FlagsPrimed(x, before, m)
    requires Overwritten(before, after, x.instrs[m].outputs, m, FastIn(x, m, 1), 0)
    ensures FlagsPrimed(x, after, m + 1)
  {
    hide FastIn;
  }

  lemma {:induction false} FlagsPrimedAt(x: Loop, m: nat)
    requires m <= |x.instrs|
    ensures FlagsPrimed(x, Dictionary(Priming(x, |x.instrs| + m).trace), m)
  {
    hide Processed, Overwritten, Dictionary, FlagsPrimed, IsFast;
    if m == 0 {
      NoFlags(x, Dictionary(Priming(x, |x.instrs|).trace));
    } else {
      FlagsPrimedAt(x, m - 1);
      var p := Priming(x, |x.instrs| + m - 1);
      ProcessedOverwrites(x, m - 1, 0, p);
      FlagsPrimedNext(x, Dictionary(p.trace), Dictionary(Priming(x, |x.instrs| + m).trace), m - 1);
    }
  }

  lemma NoFlags(x: Loop, d: map<Key, Write>)
    ensures FlagsPrimed(x, d, 0)
  {}

  ghost predicate Flags(x: Loop, d: map<Key, Write>, i: nat)
    requires i <= |x.instrs|
  {
    forall o: Operand {:trigger NameKey(o)} :: !o.MemOp? ==>
      match Producer(x.instrs, o, i)
      case None => true
      case Some((j, time)) => NameKey(o) in d && d[NameKey(o)].fastPtrChasing == FastIn(x, j, time)
  }

  lemma FlagsNext(x: Loop, before: map<Key, Write>, after: map<Key, Write>, i: nat, fast: bool)
    requires i < |x.instrs| && Flags(x, before, i) && fast == FastIn(x, i, 0)
    requires Overwritten(before, after, x.instrs[i].outputs, i, fast, 1)
    ensures Flags(x, after, i + 1)
  {
    hide FastIn;
  }

  lemma FlagsBegin(x: Loop, d: map<Key, Write>)
    requires FlagsPrimed(x, d, |x.instrs|)
    ensures Flags(x, d, 0)
  {
    hide FastIn;
  }

  lemma {:induction false} FlagsAt(x: Loop, i: nat)
    requires i <= |x.instrs|
    ensures Flags(x, Dictionary(Before(x, i).trace), i)
  {
    hide Processed, Overwritten, Dictionary, FlagsPrimed, Flags, Priming, FastPtrChasing;
    if i == 0 {
      FlagsPrimedAt(x, |x.instrs|);
      FlagsBegin(x, Dictionary(Before(x, 0).trace));
    } else {
      FlagsAt(x, i - 1);
      var p, inputs := Before(x, i - 1), x.instrs[i - 1].inputs;
      var q := p.(gen := LookedUp(p.gen, inputs, |inputs|));
      ProcessedOverwrites(x, i - 1, 1, q);
      FlagsNext(x, Dictionary(p.trace), Dictionary(Before(x, i).trace), i - 1, IsFast(x, i - 1, q));
    }
  }

  // Whether the stack pointer was last changed implicitly

  /** What an instruction says about the last change of the stack pointer. */
  function RspEffect(i: Instr): Option<bool> {
    if i.implicitRspChange != 0 then Some(true)
    else if RSP in i.nonImplicitInputs || RSP in i.outputs then Some(false)
    else None
  }

  function LastRspEffect(instrs: seq<Instr>, i: nat): Option<bool>
    requires i <= |instrs|
  {
    if i == 0 then None
    else if RspEffect(instrs[i - 1]).Some? then RspEffect(instrs[i - 1])
    else LastRspEffect(instrs, i - 1)
  }

  /** Whether the last instruction that says so, in the same iteration or the one before, changed the stack pointer
      implicitly. */
  function RspChangedAt(instrs: seq<Instr>, i: nat): bool
    requires i <= |instrs|
  {
    match LastRspEffect(instrs, i)
    case Some(b) => b
    case None => LastRspEffect(instrs, |instrs|) == Some(true)
  }

  lemma RspNext(instrs: seq<Instr>, i: nat)
    requires i < |instrs|
    ensures RspChanged(instrs[i], LastRspEffect(instrs, i) == Some(true)) == (LastRspEffect(instrs, i + 1) == Some(true))
    ensures RspChanged(instrs[i], RspChangedAt(instrs, i)) == RspChangedAt(instrs, i + 1)
  {}

  lemma FirstRsp(instrs: seq<Instr>)
    ensures LastRspEffect(instrs, 0) == None
    ensures RspChangedAt(instrs, 0) == (LastRspEffect(instrs, |instrs|) == Some(true))
  {}

  lemma AroundRsp(instrs: seq<Instr>)
    ensures RspChangedAt(instrs, |instrs|) == RspChangedAt(instrs, 0)
  {}

  lemma {:induction false} RspPrimed(x: Loop, m: nat)
    requires m <= 2 * |x.instrs|
    ensures Priming(x, m).rspChanged ==
            if m <= |x.instrs| then LastRspEffect(x.instrs, m) == Some(true)
            else RspChangedAt(x.instrs, m - |x.instrs|)
  {
    hide WriteOutputs, IsFast, RspChangedAt, RspChanged, LastRspEffect;
    var n := |x.instrs|;
    FirstRsp(x.instrs);
    if m > 0 {
      RspPrimed(x, m - 1);
      RspNext(x.instrs, if m - 1 < n then m - 1 else m - 1 - n);
    }
  }

  lemma {:induction false} RspAt(x: Loop, i: nat)
    requires i <= |x.instrs|
    ensures Before(x, i).rspChanged == RspChangedAt(x.instrs, i)
  {
    hide WriteOutputs, IsFast, Priming, LookedUp, RspChangedAt, RspChanged, LastRspEffect;
    FirstRsp(x.instrs);
    if i == 0 {
      RspPrimed(x, 2 * |x.instrs|);
      AroundRsp(x.instrs);
    } else {
      RspAt(x, i - 1);
      RspNext(x.instrs, i - 1);
    }
  }

  // The edges into register and flag operands

  /** The producer is a fast load, and the pair is one of an address and what is loaded from there. */
  predicate IsChased(prev: Instr, fast: bool, p: Operand, output: Operand) {
    fast && (p, output) in prev.memAddrLatencyPairs && prev.inputMems != []
  }

  /** The stack pointer was changed implicitly since the same instruction explicitly read it the last time. */
  predicate StackAdjusted(instrs: seq<Instr>, j: nat, i: nat, p: Operand)
    requires i < |instrs|
  {
    RspChangedAt(instrs, i) && j == i && p == RSP && RSP in instrs[i].nonImplicitInputs
  }

  /** An edge into a register or flag operand: from an input of the instruction that wrote it last, in the same iteration
      or else in the one before. It costs the latency of that instruction from the input to the operand, less a cycle
      when a fast load produces an address, and otherwise a cycle more for a stack pointer that was changed implicitly; a
      move that may be eliminated costs nothing. */
  ghost predicate NamedEdge(x: Loop, e: Edge) {
    var (j, i, p, o) := (e.source.instr, e.target.instr, e.source.operand, e.target.operand);
    && i < |x.instrs| && o in x.instrs[i].inputs && j < |x.instrs| && p in x.instrs[j].inputs
    && Producer(x.instrs, o, i) == Some((j, e.time)) && 0 <= e.time <= 1
    && if x.instrs[j].mayBeEliminated then e.cost == 0
       else
         && (p, o) in x.instrs[j].latencies && x.instrs[j].latencies[(p, o)] > 0
         && e.cost == (if IsChased(x.instrs[j], FastIn(x, j, e.time), p, o) then x.instrs[j].latencies[(p, o)] - 1
                       else if StackAdjusted(x.instrs, j, i, p) then x.instrs[j].latencies[(p, o)] + 1
                       else x.instrs[j].latencies[(p, o)])
  }

  /** An edge into a memory operand: from an input of the instruction that wrote last under its key. It costs nothing if
      the instruction is a move that may be eliminated or if the input is none of memory, and otherwise the latency of
      the instruction from the input to what it wrote, less a cycle when a fast load produces an address. */
  ghost predicate MemoryEdge(x: Loop, k: nat, e: Edge) {
    var (j, i, p, o) := (e.source.instr, e.target.instr, e.source.operand, e.target.operand);
    && i < |x.instrs| && k < |x.instrs[i].inputs| && x.instrs[i].inputs[k] == o
    && ReadFrom(x, i, k).Some?
    && var w := ReadFrom(x, i, k).value;
       && w.instr == j && j < |x.instrs| && p in x.instrs[j].inputs && e.time == (if w.iteration == 0 then 1 else 0)
       && if x.instrs[j].mayBeEliminated || !p.MemOp? then e.cost == 0
          else
            && (p, w.output) in x.instrs[j].latencies && x.instrs[j].latencies[(p, w.output)] > 0
            && e.cost == x.instrs[j].latencies[(p, w.output)] -
                         (if IsChased(x.instrs[j], w.fastPtrChasing, p, w.output) then 1 else 0)
  }

  /** What is read through a register or flag operand. */
  lemma NamedRead(x: Loop, i: nat, k: nat)
    requires i < |x.instrs| && k < |x.instrs[i].inputs| && !x.instrs[i].inputs[k].MemOp?
    ensures var o := x.instrs[i].inputs[k];
            match Producer(x.instrs, o, i)
            case None => ReadFrom(x, i, k) == None
            case Some((j, time)) =>
              && j < |x.instrs| && 0 <= time <= 1
              && ReadFrom(x, i, k) == Some(Write(j, o, FastIn(x, j, time), 1 - time))
  {
    hide ReadFrom, Before, Dictionary, FastIn, Producer;
    ReadIsRemembered(x, i, k);
    RemembersAt(x, i);
    FlagsAt(x, i);
  }

  /** The latency of an edge into a register or flag operand. */
  lemma NamedLatency(instrs: seq<Instr>, w: Write, i: nat, o: Operand, p: Operand, rspChanged: bool, cost: int)
    requires w.instr < |instrs| && i < |instrs| && !o.MemOp? && w.output == o && rspChanged == RspChangedAt(instrs, i)
    ensures EdgeLatency(instrs, w, i, o, p, rspChanged) == Some(cost) <==>
            var prev := instrs[w.instr];
            if prev.mayBeEliminated then cost == 0
            else
              && (p, o) in prev.latencies && prev.latencies[(p, o)] > 0
              && cost == (if IsChased(prev, w.fastPtrChasing, p, o) then prev.latencies[(p, o)] - 1
                          else if StackAdjusted(instrs, w.instr, i, p) then prev.latencies[(p, o)] + 1
                          else prev.latencies[(p, o)])
  {
    hide RspChangedAt;
  }

  /** The edges of the loop into register and flag operands, in terms of the program alone. */
  lemma NamedEdges(x: Loop, e: Edge)
    requires !e.target.operand.MemOp?
    ensures IsLoopEdge(x, e) <==> NamedEdge(x, e)
  {
    hide ReadFrom, Before, Producer, FastIn, RspChangedAt, EdgeLatency, IsChased, StackAdjusted;
    var i, o := e.target.instr, e.target.operand;
    if IsLoopEdge(x, e) {
      var i': nat, k: nat :| EdgeInto(x, i', k, e);
      var w := ReadFrom(x, i', k).value;
      var p :| p in x.instrs[w.instr].inputs &&
               Contributes(x.instrs, w, i', x.instrs[i'].inputs[k], Before(x, i').rspChanged, p, e);
      NamedRead(x, i', k);
      RspAt(x, i');
      NamedLatency(x.instrs, w, i, o, p, Before(x, i').rspChanged, e.cost);
    }
    if NamedEdge(x, e) {
      var k :| 0 <= k < |x.instrs[i].inputs| && x.instrs[i].inputs[k] == o;
      NamedRead(x, i, k);
      RspAt(x, i);
      var w := ReadFrom(x, i, k).value;
      NamedLatency(x.instrs, w, i, o, e.source.operand, Before(x, i).rspChanged, e.cost);
      assert Contributes(x.instrs, w, i, o, Before(x, i).rspChanged, e.source.operand, e);
      assert EdgeInto(x, i, k, e);
    }
  }

  lemma MemoryLatency(instrs: seq<Instr>, w: Write, i: nat, o: Operand, p: Operand, rspChanged: bool, cost: int)
    requires w.instr < |instrs| && i < |instrs| && o.MemOp?
    ensures EdgeLatency(instrs, w, i, o, p, rspChanged) == Some(cost) <==>
            var prev := instrs[w.instr];
            if prev.mayBeEliminated || !p.MemOp? then cost == 0
            else
              && (p, w.output) in prev.latencies && prev.latencies[(p, w.output)] > 0
              && cost == prev.latencies[(p, w.output)] - (if IsChased(prev, w.fastPtrChasing, p, w.output) then 1 else 0)
  {}

  /** The edges of the loop into memory operands. */
  lemma MemoryEdges(x: Loop, e: Edge)
    requires e.target.operand.MemOp?
    ensures IsLoopEdge(x, e) <==> exists k :: MemoryEdge(x, k, e)
  {
    hide ReadFrom, Before, EdgeLatency, IsChased;
    var i, o := e.target.instr, e.target.operand;
    if IsLoopEdge(x, e) {
      var i': nat, k: nat :| EdgeInto(x, i', k, e);
      var w := ReadFrom(x, i', k).value;
      var p :| p in x.instrs[w.instr].inputs &&
               Contributes(x.instrs, w, i', x.instrs[i'].inputs[k], Before(x, i').rspChanged, p, e);
      MemoryLatency(x.instrs, w, i, o, p, Before(x, i').rspChanged, e.cost);
      assert MemoryEdge(x, k, e);
    }
    if k :| MemoryEdge(x, k, e) {
      var w := ReadFrom(x, i, k).value;
      MemoryLatency(x.instrs, w, i, o, e.source.operand, Before(x, i).rspChanged, e.cost);
      assert Contributes(x.instrs, w, i, o, Before(x, i).rspChanged, e.source.operand, e);
      assert EdgeInto(x, i, k, e);
    }
  }

  function NodesOf(i: nat, inputs: seq<Operand>): seq<Node> {
    seq(|inputs|, k requires 0 <= k < |inputs| => Node(i, inputs[k]))
  }
}

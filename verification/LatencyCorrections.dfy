/** What fast pointer chasing and the stack pointer change about the edges of the latency graph, and when they do. */
module LatencyCorrections {
  import opened Wrappers
  import opened LatencyGraph
  import opened AbstractValues
  import opened LatencyGraphSpec

  // The loop without fast pointer chasing

  function Slow(x: Loop): Loop {
    x.(fast := false)
  }

  function Unflagged(w: Write): Write {
    w.(fastPtrChasing := false)
  }

  function UnflaggedTrace(trace: Trace): (t: Trace)
    ensures |t| == |trace|
    ensures forall i :: 0 <= i < |trace| ==> t[i] == (trace[i].0, Unflagged(trace[i].1))
  {
    seq(|trace|, i requires 0 <= i < |trace| => (trace[i].0, Unflagged(trace[i].1)))
  }

  ghost predicate SameButFlags(p: Progress, q: Progress) {
    q == Progress(UnflaggedTrace(p.trace), p.rspChanged, p.gen)
  }

  lemma {:induction false} WriteOutputsSame(i: Instr, idx: nat, fast: bool, iteration: nat, k: nat, trace: Trace,
                                            gen: Generator)
    requires k <= |i.outputs|
    ensures var (t, g) := WriteOutputs(i, idx, fast, iteration, k, trace, gen);
            WriteOutputs(i, idx, false, iteration, k, UnflaggedTrace(trace), gen) == (UnflaggedTrace(t), g)
  {
    hide KeyFor, SetForCurInstr;
    if k > 0 {
      WriteOutputsSame(i, idx, fast, iteration, k - 1, trace, gen);
      var (t, g) := WriteOutputs(i, idx, fast, iteration, k - 1, trace, gen);
      var w := Write(idx, i.outputs[k - 1], fast, iteration);
      assert UnflaggedTrace(t + [(KeyFor(g, i.outputs[k - 1]).0, w)]) ==
             UnflaggedTrace(t) + [(KeyFor(g, i.outputs[k - 1]).0, Unflagged(w))];
    }
  }

  lemma ProcessedSame(x: Loop, idx: nat, iteration: nat, p: Progress, q: Progress)
    requires idx < |x.instrs| && SameButFlags(p, q)
    ensures SameButFlags(Processed(x, idx, iteration, p), Processed(Slow(x), idx, iteration, q))
  {
    var i := x.instrs[idx];
    SlowIsNotFast(x, idx, q);
    hide WriteOutputs, IsFast, RspChanged, Finish;
    WriteOutputsSame(i, idx, IsFast(x, idx, p), iteration, |i.outputs|, p.trace, p.gen);
  }

  lemma SlowIsNotFast(x: Loop, idx: nat, p: Progress)
    requires idx < |x.instrs|
    ensures !IsFast(Slow(x), idx, p)
  {}

  lemma {:induction false} PrimingSame(x: Loop, m: nat)
    requires m <= 2 * |x.instrs|
    ensures SameButFlags(Priming(x, m), Priming(Slow(x), m))
  {
    hide Processed;
    if m > 0 {
      PrimingSame(x, m - 1);
      ProcessedSame(x, if m - 1 < |x.instrs| then m - 1 else m - 1 - |x.instrs|, 0, Priming(x, m - 1),
                    Priming(Slow(x), m - 1));
    }
  }

  lemma {:induction false} BeforeSame(x: Loop, i: nat)
    requires i <= |x.instrs|
    ensures SameButFlags(Before(x, i), Before(Slow(x), i))
  {
    hide Processed, Priming;
    if i == 0 {
      PrimingSame(x, 2 * |x.instrs|);
    } else {
      BeforeSame(x, i - 1);
      var p, q, inputs := Before(x, i - 1), Before(Slow(x), i - 1), x.instrs[i - 1].inputs;
      var g := LookedUp(p.gen, inputs, |inputs|);
      ProcessedSame(x, i - 1, 1, p.(gen := g), q.(gen := g));
    }
  }

  lemma {:induction false} LastSame(trace: Trace, key: Key)
    ensures LastWith(UnflaggedTrace(trace), key) ==
            match LastWith(trace, key) case None => None case Some(w) => Some(Unflagged(w))
  {
    if trace != [] {
      var last := |trace| - 1;
      assert UnflaggedTrace(trace)[..last] == UnflaggedTrace(trace[..last]);
      LastSame(trace[..last], key);
    }
  }

  /** Every operand reads the same write; only that it was fast is not noted. */
  lemma ReadSame(x: Loop, i: nat, k: nat)
    requires i < |x.instrs| && k < |x.instrs[i].inputs|
    ensures ReadFrom(Slow(x), i, k) ==
            match ReadFrom(x, i, k) case None => None case Some(w) => Some(Unflagged(w))
  {
    hide Before, KeyFor, LookedUp;
    BeforeSame(x, i);
    var p, inputs := Before(x, i), x.instrs[i].inputs;
    LastSame(p.trace, KeyFor(LookedUp(p.gen, inputs, k), inputs[k]).0);
  }

  /** How much sooner a fast load makes the edge: a cycle, and one more if otherwise the stack pointer's change would have
      cost a cycle. */
  function Saved(x: Loop, i: nat, w: Write, p: Operand): int
    requires i < |x.instrs| && w.instr < |x.instrs|
  {
    var prev, o := x.instrs[w.instr], w.output;
    if prev.mayBeEliminated || !w.fastPtrChasing || (p, o) !in prev.memAddrLatencyPairs || prev.inputMems == [] then 0
    else if RspChangedAt(x.instrs, i) && w.instr == i && p == RSP && RSP in x.instrs[i].nonImplicitInputs then 2
    else 1
  }

  lemma LatencySaved(x: Loop, i: nat, w: Write, o: Operand, p: Operand)
    requires i < |x.instrs| && w.instr < |x.instrs|
    ensures var rsp := RspChangedAt(x.instrs, i);
            var fast, slow := EdgeLatency(x.instrs, w, i, o, p, rsp), EdgeLatency(x.instrs, Unflagged(w), i, o, p, rsp);
            && (fast == None <==> slow == None)
            && (fast.Some? ==> slow.value == fast.value + if o.MemOp? && !p.MemOp? then 0 else Saved(x, i, w, p))
  {
    hide RspChangedAt;
  }

  /** With and without fast pointer chasing the loop has the same edges, except that those from an address of a fast load
      to what it loads cost less by what is saved. */
  lemma FastSaves(x: Loop, i: nat, k: nat, w: Write, e: Edge)
    requires i < |x.instrs| && k < |x.instrs[i].inputs| && ReadFrom(x, i, k) == Some(w) && w.instr < |x.instrs|
    requires e.target == Node(i, x.instrs[i].inputs[k])
    ensures var o, p := x.instrs[i].inputs[k], e.source.operand;
            var saved := if o.MemOp? && !p.MemOp? then 0 else Saved(x, i, w, p);
            EdgeInto(x, i, k, e) <==> EdgeInto(Slow(x), i, k, e.(cost := e.cost + saved))
  {
    hide ReadFrom, Before, EdgeLatency, Saved;
    ReadSame(x, i, k);
    RspAt(x, i);
    RspAt(Slow(x), i);
    var o, p := x.instrs[i].inputs[k], e.source.operand;
    var rsp, saved := RspChangedAt(x.instrs, i), if o.MemOp? && !p.MemOp? then 0 else Saved(x, i, w, p);
    hide RspChangedAt;
    LatencySaved(x, i, w, o, p);
    assert Contributes(x.instrs, w, i, o, rsp, p, e) <==>
           Contributes(x.instrs, Unflagged(w), i, o, rsp, p, e.(cost := e.cost + saved));
    FromOperand(x.instrs, w, i, o, rsp, e);
    FromOperand(x.instrs, Unflagged(w), i, o, rsp, e.(cost := e.cost + saved));
  }

  lemma FromOperand(instrs: seq<Instr>, w: Write, i: nat, o: Operand, rsp: bool, e: Edge)
    requires w.instr < |instrs| && i < |instrs|
    ensures ContributedBy(instrs, w, i, o, rsp, instrs[w.instr].inputs, e) <==>
            e.source.operand in instrs[w.instr].inputs && Contributes(instrs, w, i, o, rsp, e.source.operand, e)
  {
    hide EdgeLatency;
  }

  // The stack pointer

  /** If an instruction explicitly reads the stack pointer that it wrote itself an iteration before, this costs its latency,
      and exactly one cycle more if the stack pointer was last changed implicitly. */
  lemma StackPointerAddsOne(x: Loop, i: nat, latency: int, cost: int)
    requires i < |x.instrs| && !x.instrs[i].mayBeEliminated && RSP in x.instrs[i].inputs
    requires RSP in x.instrs[i].nonImplicitInputs && Producer(x.instrs, RSP, i) == Some((i, 1))
    requires (RSP, RSP) in x.instrs[i].latencies && x.instrs[i].latencies[(RSP, RSP)] == latency > 0
    requires (RSP, RSP) !in x.instrs[i].memAddrLatencyPairs
    ensures IsLoopEdge(x, Edge(Node(i, RSP), Node(i, RSP), cost, 1)) <==>
            cost == if RspChangedAt(x.instrs, i) then latency + 1 else latency
  {
    hide RspChangedAt, IsLoopEdge, FastIn, Producer;
    NamedEdges(x, Edge(Node(i, RSP), Node(i, RSP), cost, 1));
  }

  /** The instruction neither changes the stack pointer implicitly nor reads or writes it explicitly. */
  predicate LeavesStack(i: Instr) {
    i.implicitRspChange == 0 && RSP !in i.nonImplicitInputs && RSP !in i.outputs
  }

  /** The last instruction before `i` that does anything with the stack pointer changes it implicitly. */
  ghost predicate ChangedBefore(instrs: seq<Instr>, i: nat)
    requires i <= |instrs|
  {
    exists k :: 0 <= k < i && instrs[k].implicitRspChange != 0 && forall m :: k < m < i ==> LeavesStack(instrs[m])
  }

  ghost predicate Untouched(instrs: seq<Instr>, i: nat)
    requires i <= |instrs|
  {
    forall m :: 0 <= m < i ==> LeavesStack(instrs[m])
  }

  lemma {:induction false} LastEffectIs(instrs: seq<Instr>, i: nat)
    requires i <= |instrs|
    ensures LastRspEffect(instrs, i) == Some(true) <==> ChangedBefore(instrs, i)
    ensures LastRspEffect(instrs, i) == None <==> Untouched(instrs, i)
  {
    if i > 0 {
      LastEffectIs(instrs, i - 1);
      if ChangedBefore(instrs, i - 1) && LeavesStack(instrs[i - 1]) {
        var k :| 0 <= k < i - 1 && instrs[k].implicitRspChange != 0 && forall m :: k < m < i - 1 ==> LeavesStack(instrs[m]);
        assert forall m :: k < m < i ==> LeavesStack(instrs[m]);
      }
      if ChangedBefore(instrs, i) && LeavesStack(instrs[i - 1]) {
        var k :| 0 <= k < i && instrs[k].implicitRspChange != 0 && forall m :: k < m < i ==> LeavesStack(instrs[m]);
        assert k < i - 1;
      }
      if instrs[i - 1].implicitRspChange != 0 {
        assert ChangedBefore(instrs, i);
      }
    }
  }

  /** The stack pointer counts as changed implicitly exactly if the last instruction that does anything with it, in the
      same iteration or else in the one before, changes it implicitly. */
  lemma RspChangedExactly(instrs: seq<Instr>, i: nat)
    requires i <= |instrs|
    ensures RspChangedAt(instrs, i) <==>
            ChangedBefore(instrs, i) || (Untouched(instrs, i) && ChangedBefore(instrs, |instrs|))
  {
    hide LastRspEffect;
    LastEffectIs(instrs, i);
    LastEffectIs(instrs, |instrs|);
  }

  // When a load is fast

  /** The register was written last by such an instruction, moves aside, or by none. */
  ghost predicate ReallyWritten(instrs: seq<Instr>, forMove: map<nat, Option<nat>>, prevWrite: map<Key, Write>,
                                reg: string, j: nat, by32Bit: bool)
  {
    j < |instrs| && WriterOf(instrs, forMove, prevWrite, reg) == Some((j, by32Bit))
  }

  /** An address is chased exactly if this is possible, its displacement is small, its base comes straight from a load
      without a 32-bit move, and its index, if it has one, from an instruction without uops. */
  lemma ChasedExactly(instrs: seq<Instr>, forMove: map<nat, Option<nat>>, prevWrite: map<Key, Write>, i: Instr,
                      enabled: bool)
    ensures FastPtrChasing(instrs, forMove, prevWrite, i, enabled) <==>
            && enabled && i.inputMems != [] && 0 <= i.inputMems[0].disp <= 2047 && i.inputMems[0].base.Some?
            && (exists j: nat :: ReallyWritten(instrs, forMove, prevWrite, i.inputMems[0].base.value, j, false) &&
                            IsFastLoad(instrs[j].instrStr))
            && (i.inputMems[0].index.Some? ==>
                  exists j: nat, b :: ReallyWritten(instrs, forMove, prevWrite, i.inputMems[0].index.value, j, b) &&
                                 instrs[j].uops == 0)
  {
    hide WriterOf;
    forall name: string
      ensures name in FAST_LOADS <==> IsFastLoad(name)
    {}
    hide FAST_LOADS, IsFastLoad;
    if i.inputMems != [] && i.inputMems[0].base.Some? {
      var base := i.inputMems[0].base.value;
      if WriterOf(instrs, forMove, prevWrite, base).Some? {
        var (j, b) := WriterOf(instrs, forMove, prevWrite, base).value;
        assert j < |instrs| && !b ==> ReallyWritten(instrs, forMove, prevWrite, base, j, false);
      }
    }
    if i.inputMems != [] && i.inputMems[0].index.Some? {
      var index := i.inputMems[0].index.value;
      if WriterOf(instrs, forMove, prevWrite, index).Some? {
        var (j, b) := WriterOf(instrs, forMove, prevWrite, index).value;
        assert j < |instrs| ==> ReallyWritten(instrs, forMove, prevWrite, index, j, b);
      }
    }
  }

  predicate IsFastLoad(instrStr: string) {
    || instrStr == "MOV (R64, M64)" || instrStr == "MOV (RAX, M64)" || instrStr == "MOV (R32, M32)"
    || instrStr == "MOV (EAX, M32)" || instrStr == "MOVSXD (R64, M32)" || instrStr == "POP (R64)"
  }

  /** The instructions from one on to the one that really wrote its value: each move reads what the next one wrote. */
  ghost predicate IsMovePath(instrs: seq<Instr>, forMove: map<nat, Option<nat>>, path: seq<nat>) {
    && path != [] && (forall k :: 0 <= k < |path| ==> path[k] < |instrs|)
    && (forall k, l :: 0 <= k < l < |path| ==> path[k] != path[l])
    && !instrs[path[|path| - 1]].mayBeEliminated
    && forall k :: 0 <= k < |path| - 1 ==> MovesFrom(instrs, forMove, path[k], path[k + 1])
  }

  predicate MovesFrom(instrs: seq<Instr>, forMove: map<nat, Option<nat>>, j: nat, next: nat)
    requires j < |instrs|
  {
    instrs[j].mayBeEliminated && j in forMove && forMove[j] == Some(next)
  }

  ghost predicate Has32Bit(instrs: seq<Instr>, path: seq<nat>) {
    exists k :: 0 <= k < |path| - 1 && path[k] < |instrs| && instrs[path[k]].eliminatedMoveOutputIs32Bit
  }

  /** The path leads from `idx` to the writer. */
  ghost predicate LeadsTo(instrs: seq<Instr>, forMove: map<nat, Option<nat>>, idx: nat, path: seq<nat>, writer: nat,
                          by32Bit: bool)
  {
    && IsMovePath(instrs, forMove, path) && path[0] == idx && path[|path| - 1] == writer
    && (by32Bit <==> Has32Bit(instrs, path))
  }

  lemma {:induction false} FindsPath(instrs: seq<Instr>, forMove: map<nat, Option<nat>>, idx: nat, seen: set<nat>,
                                     before: bool) returns (path: seq<nat>)
    requires NonEliminatedWriter(instrs, forMove, idx, seen, before).Some?
    ensures var r := NonEliminatedWriter(instrs, forMove, idx, seen, before).value;
            && IsMovePath(instrs, forMove, path) && path[0] == idx && path[|path| - 1] == r.0
            && (r.1 <==> before || Has32Bit(instrs, path)) && forall k :: 0 <= k < |path| ==> path[k] !in seen
    decreases IndexSet(|instrs|) - seen
  {
    if !instrs[idx].mayBeEliminated {
      path := [idx];
    } else {
      var next, b := forMove[idx].value, before || instrs[idx].eliminatedMoveOutputIs32Bit;
      var rest := FindsPath(instrs, forMove, next, seen + {idx}, b);
      path := [idx] + rest;
      PathExtended(instrs, forMove, idx, rest);
    }
  }

  lemma PathExtended(instrs: seq<Instr>, forMove: map<nat, Option<nat>>, idx: nat, rest: seq<nat>)
    requires IsMovePath(instrs, forMove, rest) && idx < |instrs| && MovesFrom(instrs, forMove, idx, rest[0]) && idx !in rest
    ensures IsMovePath(instrs, forMove, [idx] + rest)
    ensures Has32Bit(instrs, [idx] + rest) <==> instrs[idx].eliminatedMoveOutputIs32Bit || Has32Bit(instrs, rest)
  {
    var path := [idx] + rest;
    forall k | 0 <= k < |path| - 1
      ensures MovesFrom(instrs, forMove, path[k], path[k + 1])
    {
      if k > 0 {
        assert MovesFrom(instrs, forMove, rest[k - 1], rest[k]);
      }
    }
    if Has32Bit(instrs, rest) {
      var k :| 0 <= k < |rest| - 1 && rest[k] < |instrs| && instrs[rest[k]].eliminatedMoveOutputIs32Bit;
      assert path[k + 1] == rest[k];
    }
    if Has32Bit(instrs, path) {
      var k :| 0 <= k < |path| - 1 && path[k] < |instrs| && instrs[path[k]].eliminatedMoveOutputIs32Bit;
      assert k > 0 ==> rest[k - 1] == path[k];
    }
    if instrs[idx].eliminatedMoveOutputIs32Bit {
      assert path[0] == idx;
    }
  }

  lemma {:induction false} FollowsPath(instrs: seq<Instr>, forMove: map<nat, Option<nat>>, path: seq<nat>,
                                       seen: set<nat>, before: bool)
    requires IsMovePath(instrs, forMove, path) && forall k :: 0 <= k < |path| ==> path[k] !in seen
    ensures NonEliminatedWriter(instrs, forMove, path[0], seen, before) ==
            Some((path[|path| - 1], before || Has32Bit(instrs, path)))
    decreases |path|
  {
    if |path| > 1 {
      var idx, rest := path[0], path[1..];
      assert MovesFrom(instrs, forMove, path[0], path[1]);
      forall k | 0 <= k < |rest| - 1
        ensures MovesFrom(instrs, forMove, rest[k], rest[k + 1])
      {
        assert MovesFrom(instrs, forMove, path[k + 1], path[k + 2]);
      }
      assert path == [idx] + rest;
      PathExtended(instrs, forMove, idx, rest);
      FollowsPath(instrs, forMove, rest, seen + {idx}, before || instrs[idx].eliminatedMoveOutputIs32Bit);
    }
  }

  /** The instruction that really wrote a value is the end of the path through the moves before it, exactly if there is
      such a path. */
  lemma WriterExactly(instrs: seq<Instr>, forMove: map<nat, Option<nat>>, idx: nat, writer: nat, by32Bit: bool)
    ensures NonEliminatedWriter(instrs, forMove, idx, {}, false) == Some((writer, by32Bit)) <==>
            exists path :: LeadsTo(instrs, forMove, idx, path, writer, by32Bit)
  {
    hide IsMovePath, Has32Bit, NonEliminatedWriter;
    if NonEliminatedWriter(instrs, forMove, idx, {}, false) == Some((writer, by32Bit)) {
      var path := FindsPath(instrs, forMove, idx, {}, false);
      assert LeadsTo(instrs, forMove, idx, path, writer, by32Bit);
    }
    if path :| LeadsTo(instrs, forMove, idx, path, writer, by32Bit) {
      FollowsPath(instrs, forMove, path, {}, false);
    }
  }

  /** Who wrote the input of a move last, in the same iteration or the one before. */
  function MoveWriter(instrs: seq<Instr>, i: Instr, k: nat): Option<nat>
    requires k <= |instrs|
  {
    match i.eliminatedMoveInput
    case None => None
    case Some(input) =>
      match Producer(instrs, input, k)
      case None => None
      case Some((j, _)) => Some(j)
  }

  /** After `steps` instructions of two iterations every register has its last writer so far. */
  ghost predicate WritersKnown(instrs: seq<Instr>, toReg: map<Operand, nat>, steps: nat)
    requires steps <= 2 * |instrs|
  {
    forall o: Operand ::
      var last := if steps <= |instrs| then LastWriter(instrs, o, steps)
                  else if LastWriter(instrs, o, steps - |instrs|).Some? then LastWriter(instrs, o, steps - |instrs|)
                  else LastWriter(instrs, o, |instrs|);
      if last.Some? then o in toReg && toReg[o] == last.value else o !in toReg
  }

  lemma {:induction false} WritersAt(instrs: seq<Instr>, steps: nat)
    requires steps <= 2 * |instrs|
    ensures WritersKnown(instrs, PrevWriteForMove(instrs, steps).0, steps)
  {
    if steps > 0 {
      WritersAt(instrs, steps - 1);
      WritersNext(instrs, PrevWriteForMove(instrs, steps - 1).0, steps - 1);
    }
  }

  lemma WritersNext(instrs: seq<Instr>, toReg: map<Operand, nat>, steps: nat)
    requires steps < 2 * |instrs| && WritersKnown(instrs, toReg, steps)
    ensures var idx := if steps < |instrs| then steps else steps - |instrs|;
            WritersKnown(instrs, toReg + (map o | o in instrs[idx].outputs :: idx), steps + 1)
  {}

  /** The moves before `m` are noted with the writers of their inputs. */
  ghost predicate MovesNoted(instrs: seq<Instr>, forMove: map<nat, Option<nat>>, m: nat)
    requires m <= |instrs|
  {
    forall idx :: 0 <= idx < m && instrs[idx].mayBeEliminated ==>
      idx in forMove && forMove[idx] == MoveWriter(instrs, instrs[idx], idx)
  }

  lemma NotedNext(instrs: seq<Instr>, forMove: map<nat, Option<nat>>, after: map<nat, Option<nat>>, m: nat)
    requires m < |instrs| && MovesNoted(instrs, forMove, m)
    requires after == if instrs[m].mayBeEliminated then forMove[m := MoveWriter(instrs, instrs[m], m)] else forMove
    ensures MovesNoted(instrs, after, m + 1)
  {
    hide MoveWriter;
  }

  /** In the second iteration each move is noted with the writer of its input. */
  lemma {:induction false} MovesAt(instrs: seq<Instr>, m: nat)
    requires m <= |instrs|
    ensures MovesNoted(instrs, PrevWriteForMove(instrs, |instrs| + m).1, m)
  {
    hide *;
    if m > 0 {
      MovesAt(instrs, m - 1);
      MoveNext(instrs, m - 1);
      NotedNext(instrs, PrevWriteForMove(instrs, |instrs| + (m - 1)).1, PrevWriteForMove(instrs, |instrs| + m).1, m - 1);
    } else {
      NoneNoted(instrs, PrevWriteForMove(instrs, |instrs| + m).1);
    }
  }

  lemma NoneNoted(instrs: seq<Instr>, forMove: map<nat, Option<nat>>)
    ensures MovesNoted(instrs, forMove, 0)
  {}

  lemma MoveNext(instrs: seq<Instr>, m: nat)
    requires m < |instrs|
    ensures var before := PrevWriteForMove(instrs, |instrs| + m).1;
            PrevWriteForMove(instrs, |instrs| + (m + 1)).1 ==
            if instrs[m].mayBeEliminated then before[m := MoveWriter(instrs, instrs[m], m)] else before
  {
    hide *;
    WritersAt(instrs, |instrs| + m);
    MoveNoted(instrs, PrevWriteForMove(instrs, |instrs| + m).0, m);
    PrevNext(instrs, m);
  }

  lemma PrevNext(instrs: seq<Instr>, m: nat)
    requires m < |instrs|
    ensures var (toReg, forMove) := PrevWriteForMove(instrs, |instrs| + m);
            var i := instrs[m];
            var prev := match i.eliminatedMoveInput
              case None => None
              case Some(input) => if input in toReg then Some(toReg[input]) else None;
            PrevWriteForMove(instrs, |instrs| + (m + 1)).1 == if i.mayBeEliminated then forMove[m := prev] else forMove
  {}

  lemma MoveNoted(instrs: seq<Instr>, toReg: map<Operand, nat>, m: nat)
    requires m < |instrs| && WritersKnown(instrs, toReg, |instrs| + m)
    ensures MoveWriter(instrs, instrs[m], m) ==
            match instrs[m].eliminatedMoveInput
            case None => None
            case Some(input) => if input in toReg then Some(toReg[input]) else None
  {
    if instrs[m].eliminatedMoveInput.Some? {
      var input := instrs[m].eliminatedMoveInput.value;
      if m == 0 {
        assert LastWriter(instrs, input, 0) == None;
      }
    }
  }

  /** Each move that may be eliminated is noted with the instruction that wrote its input last. */
  lemma MovesExactly(x: Loop, idx: nat)
    requires idx < |x.instrs| && x.instrs[idx].mayBeEliminated
    ensures idx in Moves(x) && Moves(x)[idx] == MoveWriter(x.instrs, x.instrs[idx], idx)
  {
    MovesAt(x.instrs, |x.instrs|);
    assert |x.instrs| + |x.instrs| == 2 * |x.instrs|;
  }

  /** The last writer is an instruction before `i` that writes the operand, and none after it does. */
  lemma {:induction false} LastWriterExactly(instrs: seq<Instr>, o: Operand, i: nat, j: nat)
    requires i <= |instrs|
    ensures LastWriter(instrs, o, i) == Some(j) <==>
            j < i && o in instrs[j].outputs && forall k :: j < k < i ==> o !in instrs[k].outputs
  {
    if i > 0 {
      LastWriterExactly(instrs, o, i - 1, j);
    }
  }
}

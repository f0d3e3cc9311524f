/** Building the latency graph of a loop body (`generate_latency_graph`). */
module LatencyGraphBuilder {
  import opened Wrappers
  import opened LatencyGraph
  import opened AbstractValues
  import opened LatencyGraphSpec

  method LookupKey(gen: AbstractValueGenerator, o: Operand) returns (key: Key)
    modifies gen
    ensures (key, gen.State()) == KeyFor(old(gen.State()), o)
    ensures if o.MemOp? then key.MemKey? else key == NameKey(o)
  {
    match o
    case MemOp(base, index, scale, disp) =>
      var b, i := None, None;
      if base.Some? {
        var v := gen.GetForReg(base.value);
        b := Some(v);
      }
      if index.Some? {
        var v := gen.GetForReg(index.value);
        i := Some(v);
      }
      key := MemKey(AddressKey(b, i, scale, disp));
    case _ =>
      key := NameKey(o);
  }

  /** Records what an instruction writes. */
  method ProcessOutputs(x: Loop, forMove: map<nat, Option<nat>>, idx: nat, iteration: nat,
                        prevWrite0: map<Key, Write>, rspChanged0: bool, gen: AbstractValueGenerator,
                        ghost p: Progress)
    returns (prevWrite: map<Key, Write>, rspChanged: bool)
    requires idx < |x.instrs| && forMove == Moves(x)
    requires prevWrite0 == Dictionary(p.trace) && rspChanged0 == p.rspChanged && gen.State() == p.gen
    modifies gen
    ensures var q := Processed(x, idx, iteration, p);
            prevWrite == Dictionary(q.trace) && rspChanged == q.rspChanged && gen.State() == q.gen
  {
    hide FastPtrChasing, Moves, KeyFor, SetForCurInstr, Dictionary;
    var i := x.instrs[idx];
    var fast := FastPtrChasing(x.instrs, forMove, prevWrite0, i, x.fast);
    rspChanged := rspChanged0;
    if i.implicitRspChange != 0 {
      rspChanged := true;
    } else if RSP in i.nonImplicitInputs || RSP in i.outputs {
      rspChanged := false;
    }
    prevWrite := prevWrite0;
    for k := 0 to |i.outputs|
      invariant var (t, g) := WriteOutputs(i, idx, fast, iteration, k, p.trace, p.gen);
                prevWrite == Dictionary(t) && gen.State() == g
    {
      var output := i.outputs[k];
      ghost var t := WriteOutputs(i, idx, fast, iteration, k, p.trace, p.gen).0;
      var key := LookupKey(gen, output);
      DictionaryNext(t, key, Write(idx, output, fast, iteration));
      prevWrite := prevWrite[key := Write(idx, output, fast, iteration)];
      if output.RegOp? {
        gen.SetForCurrentInstr(output.reg, InfoOf(i));
      }
    }
    gen.FinishCurInstr();
  }

  function AddEdge(g: Graph, e: Edge): Graph {
    g[e.source := OutEdges(g, e.source) + [e]]
  }

  lemma AddEdgeAdds(g: Graph, e: Edge)
    requires WellFiled(g)
    ensures WellFiled(AddEdge(g, e))
    ensures forall x :: IsEdge(AddEdge(g, e), x) <==> IsEdge(g, x) || x == e
  {}

  /** The edges into operand `input` of instruction `idx` from the inputs of the instruction that wrote it. */
  method AddEdgesInto(instrs: seq<Instr>, w: Write, idx: nat, input: Operand, rspChanged: bool, g0: Graph)
    returns (g: Graph)
    requires w.instr < |instrs| && idx < |instrs| && WellFiled(g0)
    ensures WellFiled(g)
    ensures forall e :: IsEdge(g, e) <==>
              IsEdge(g0, e) || ContributedBy(instrs, w, idx, input, rspChanged, instrs[w.instr].inputs, e)
  {
    hide ContributedBy, WellFiled;
    g := g0;
    var inputs := instrs[w.instr].inputs;
    forall e ensures !ContributedBy(instrs, w, idx, input, rspChanged, inputs[..0], e) {
      NothingContributed(instrs, w, idx, input, rspChanged, e);
      assert inputs[..0] == [];
    }
    for k := 0 to |inputs|
      invariant WellFiled(g)
      invariant forall e :: IsEdge(g, e) <==>
                  IsEdge(g0, e) || ContributedBy(instrs, w, idx, input, rspChanged, inputs[..k], e)
    {
      var lat := EdgeLatency(instrs, w, idx, input, inputs[k], rspChanged);
      forall e {
        ContributedNext(instrs, w, idx, input, rspChanged, inputs, k, e);
      }
      if lat.Some? {
        var e := Edge(Node(w.instr, inputs[k]), Node(idx, input), lat.value, if w.iteration != 0 then 0 else 1);
        AddEdgeAdds(g, e);
        g := AddEdge(g, e);
      }
    }
    assert inputs[..|inputs|] == inputs;
  }

  lemma NothingContributed(instrs: seq<Instr>, w: Write, idx: nat, input: Operand, rspChanged: bool, e: Edge)
    requires w.instr < |instrs| && idx < |instrs|
    ensures !ContributedBy(instrs, w, idx, input, rspChanged, [], e)
  {}

  /** The edges into the operands of the instructions before `i`, and into the first `k` inputs of `i`. */
  ghost predicate EdgesUpTo(x: Loop, g: Graph, i: nat, k: nat) {
    WellFiled(g) && forall e :: IsEdge(g, e) <==> EdgeBefore(x, i, k, e)
  }

  ghost predicate EdgeBefore(x: Loop, i: nat, k: nat, e: Edge) {
    exists i': nat, k': nat :: (i' < i || (i' == i && k' < k)) && EdgeInto(x, i', k', e)
  }

  lemma EdgeBeforeNext(x: Loop, i: nat, k: nat, e: Edge)
    ensures EdgeBefore(x, i, k + 1, e) <==> EdgeBefore(x, i, k, e) || EdgeInto(x, i, k, e)
  {
    hide EdgeInto;
  }

  lemma NextInstr(x: Loop, g: Graph, i: nat)
    requires i < |x.instrs| && EdgesUpTo(x, g, i, |x.instrs[i].inputs|)
    ensures EdgesUpTo(x, g, i + 1, 0)
  {
    hide ReadFrom, ContributedBy, IsEdge;
    forall e
      ensures EdgeBefore(x, i + 1, 0, e) <==> EdgeBefore(x, i, |x.instrs[i].inputs|, e)
    {}
  }

  lemma NoEdges(x: Loop)
    ensures EdgesUpTo(x, map[], 0, 0)
  {
    hide EdgeInto;
  }

  lemma AllEdgesAdded(x: Loop, g: Graph)
    requires EdgesUpTo(x, g, |x.instrs|, 0)
    ensures IsLatencyGraph(x, g)
  {
    hide ReadFrom, ContributedBy, IsEdge;
    forall e
      ensures EdgeBefore(x, |x.instrs|, 0, e) <==> IsLoopEdge(x, e)
    {}
  }

  /** Input `k` of instruction `i` reads what the dictionary remembers; its edges have been added. */
  lemma InputAdded(x: Loop, i: nat, k: nat, g0: Graph, g: Graph)
    requires i < |x.instrs| && k < |x.instrs[i].inputs| && EdgesUpTo(x, g0, i, k) && WellFiled(g)
    requires var r := ReadFrom(x, i, k);
             if r.None? then g == g0
             else r.value.instr < |x.instrs| && forall e :: IsEdge(g, e) <==>
                    IsEdge(g0, e) || ContributedBy(x.instrs, r.value, i, x.instrs[i].inputs[k], Before(x, i).rspChanged,
                                                   x.instrs[r.value.instr].inputs, e)
    ensures EdgesUpTo(x, g, i, k + 1)
  {
    hide ReadFrom, ContributedBy, IsEdge, Before, EdgeBefore, WellFiled;
    forall e
      ensures IsEdge(g, e) <==> EdgeBefore(x, i, k + 1, e)
    {
      EdgeBeforeNext(x, i, k, e);
      assert IsEdge(g0, e) <==> EdgeBefore(x, i, k, e);
      assert IsEdge(g, e) <==> IsEdge(g0, e) || EdgeInto(x, i, k, e);
    }
  }

  /** The edges into the operands of one instruction. */
  method AddEdgesOfInstr(x: Loop, i: nat, prevWrite: map<Key, Write>, rspChanged: bool, gen: AbstractValueGenerator,
                         g0: Graph)
    returns (g: Graph)
    requires i < |x.instrs| && EdgesUpTo(x, g0, i, 0)
    requires prevWrite == Dictionary(Before(x, i).trace) && rspChanged == Before(x, i).rspChanged
    requires gen.State() == Before(x, i).gen
    modifies gen
    ensures EdgesUpTo(x, g, i + 1, 0)
    ensures gen.State() == LookedUp(Before(x, i).gen, x.instrs[i].inputs, |x.instrs[i].inputs|)
  {
    hide EdgesUpTo, ContributedBy, IsEdge, KeyFor, Before, Dictionary, WellFiled;
    g := g0;
    var inputs := x.instrs[i].inputs;
    for k := 0 to |inputs|
      invariant EdgesUpTo(x, g, i, k) && gen.State() == LookedUp(Before(x, i).gen, inputs, k)
    {
      var key := LookupKey(gen, inputs[k]);
      ghost var g1 := g;
      DictionaryHoldsLast(Before(x, i).trace, key);
      ReadIsRemembered(x, i, k);
      FiledSoFar(x, g, i, k);
      if key in prevWrite {
        g := AddEdgesInto(x.instrs, prevWrite[key], i, inputs[k], rspChanged, g);
      }
      InputAdded(x, i, k, g1, g);
    }
    NextInstr(x, g, i);
  }

  lemma FiledSoFar(x: Loop, g: Graph, i: nat, k: nat)
    requires EdgesUpTo(x, g, i, k)
    ensures WellFiled(g)
  {}

  /** The nodes of the latency graph, instruction by instruction, and the graph. */
  method GenerateLatencyGraph(x: Loop) returns (nodesForInstr: seq<seq<Node>>, g: Graph)
    ensures |nodesForInstr| == |x.instrs|
    ensures forall i :: 0 <= i < |x.instrs| ==> nodesForInstr[i] == NodesOf(i, x.instrs[i].inputs)
    ensures IsLatencyGraph(x, g)
  {
    hide EdgesUpTo, IsLatencyGraph, Processed, PrevWriteForMove, LookedUp;
    var n := |x.instrs|;
    var forMove := Moves(x);
    var gen := new AbstractValueGenerator(x.policy);
    var prevWrite: map<Key, Write> := map[];
    var rspChanged := false;
    for pass := 0 to 2
      invariant fresh(gen)
      invariant var p := Priming(x, pass * n);
                prevWrite == Dictionary(p.trace) && rspChanged == p.rspChanged && gen.State() == p.gen
    {
      for i := 0 to n
        invariant fresh(gen)
        invariant var p := Priming(x, pass * n + i);
                  prevWrite == Dictionary(p.trace) && rspChanged == p.rspChanged && gen.State() == p.gen
      {
        prevWrite, rspChanged :=
          ProcessOutputs(x, forMove, i, 0, prevWrite, rspChanged, gen, Priming(x, pass * n + i));
      }
    }

    nodesForInstr, g := [], map[];
    NoEdges(x);
    for i := 0 to n
      invariant fresh(gen)
      invariant prevWrite == Dictionary(Before(x, i).trace) && rspChanged == Before(x, i).rspChanged
      invariant gen.State() == Before(x, i).gen
      invariant |nodesForInstr| == i && forall k :: 0 <= k < i ==> nodesForInstr[k] == NodesOf(k, x.instrs[k].inputs)
      invariant EdgesUpTo(x, g, i, 0)
    {
      nodesForInstr := nodesForInstr + [NodesOf(i, x.instrs[i].inputs)];
      g := AddEdgesOfInstr(x, i, prevWrite, rspChanged, gen, g);
      ghost var p := Before(x, i);
      ghost var looked := LookedUp(p.gen, x.instrs[i].inputs, |x.instrs[i].inputs|);
      prevWrite, rspChanged :=
        ProcessOutputs(x, forMove, i, 1, prevWrite, rspChanged, gen, p.(gen := looked));
    }
    AllEdgesAdded(x, g);
  }
}

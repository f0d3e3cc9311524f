/** Which registers share an operand because moves between them have been eliminated (`multiUseGPRDict` and
    `multiUseSIMDDict` of the renamer). */
module MultiUse {
  import opened Wrappers
  import opened Renaming

  datatype Class = GprClass | SimdClass

  predicate InClass(k: Key, c: Class) {
    if c == GprClass then k.Gpr? else k.Simd?
  }

  type Uses = map<Operand, set<Key>>

  function UsesOf(uses: Uses, r: Operand): set<Key> {
    if r in uses then uses[r] else {}
  }

  /** An eliminated move makes both its registers users of the operand. */
  function Shared(uses: Uses, r: Operand, m: Move): Uses {
    uses[r := UsesOf(uses, r) + {m.src, m.dst}]
  }

  /** A register that the instruction gives another operand no longer uses its old one. An eliminated move that gives it
      the operand it had leaves it. */
  predicate Drops(dict: map<Key, Operand>, cur: map<Key, Operand>, eliminated: bool, c: Class, r: Operand, k: Key) {
    k in cur && InClass(k, c) && k in dict && dict[k] == r && (!eliminated || cur[k] != r)
  }

  function Dropped(uses: Uses, dict: map<Key, Operand>, cur: map<Key, Operand>, eliminated: bool, c: Class): Uses {
    map r | r in uses :: set k | k in uses[r] && !Drops(dict, cur, eliminated, c, r, k)
  }

  /** Operands with at most `most` users are not kept. */
  function Pruned(uses: Uses, most: nat): Uses {
    map r | r in uses && |uses[r]| > most :: uses[r]
  }

  /** Every operand that is kept has exactly the registers that are renamed to it as users, and no operand that is not
      kept is shared. */
  ghost predicate Exact(uses: Uses, dict: map<Key, Operand>, c: Class) {
    && (forall r, k :: r in uses ==> (k in uses[r] <==> InClass(k, c) && k in dict && dict[k] == r))
    && (forall j, k :: j in dict && k in dict && InClass(j, c) && InClass(k, c) && j != k && dict[j] == dict[k] ==>
          dict[j] in uses)
  }

  /** The operands that a table mentions come from uops already seen, and an initial operand has been entered. */
  ghost predicate KnownOperand(o: Operand, dict: map<Key, Operand>, seen: set<nat>) {
    match o
    case Initial(k) => k in dict
    case Output(u, _) => u in seen
  }

  ghost predicate KnownOperands(uses: Uses, dict: map<Key, Operand>, seen: set<nat>) {
    && (forall k :: k in dict ==> KnownOperand(dict[k], dict, seen))
    && (forall r :: r in uses ==> KnownOperand(r, dict, seen))
  }

  lemma PrunedExact(uses: Uses, dict: map<Key, Operand>, c: Class, most: nat)
    requires Exact(uses, dict, c) && most <= 1
    ensures Exact(Pruned(uses, most), dict, c)
  {
    forall j, k | j in dict && k in dict && InClass(j, c) && InClass(k, c) && j != k && dict[j] == dict[k]
      ensures dict[j] in Pruned(uses, most)
    {
      TwoUsers(uses[dict[j]], j, k);
    }
  }

  lemma TwoUsers(s: set<Key>, j: Key, k: Key)
    requires j in s && k in s && j != k
    ensures |s| > 1
  {
    assert s == {j, k} + (s - {j, k});
  }

  // The uops of an instruction

  /** Entering a register that nobody has looked up changes no users. */
  lemma EnteredExact(uses: Uses, dict: map<Key, Operand>, c: Class, seen: set<nat>, k: Key)
    requires Exact(uses, dict, c) && KnownOperands(uses, dict, seen)
    ensures Exact(uses, Entered(dict, k), c) && KnownOperands(uses, Entered(dict, k), seen)
  {}

  lemma {:induction false} EnteredAllExact(uses: Uses, dict: map<Key, Operand>, c: Class, seen: set<nat>,
                                           inputs: seq<Source>)
    requires Exact(uses, dict, c) && KnownOperands(uses, dict, seen)
    ensures Exact(uses, EnteredAll(dict, inputs), c) && KnownOperands(uses, EnteredAll(dict, inputs), seen)
  {
    hide Exact, KnownOperands;
    if inputs != [] {
      var last := inputs[|inputs| - 1];
      EnteredAllExact(uses, dict, c, seen, inputs[..|inputs| - 1]);
      if last.Named? {
        EnteredExact(uses, EnteredAll(dict, inputs[..|inputs| - 1]), c, seen, last.key);
      }
    }
  }

  /** What the uops of an instruction have written so far: every register its own operand, of a uop not seen before the
      instruction. */
  ghost predicate FreshWrites(cur: map<Key, Operand>, earlier: set<nat>, seen: set<nat>) {
    && (forall k :: k in cur ==> cur[k].Output? && cur[k].uop in seen && cur[k].uop !in earlier)
    && (forall j, k :: j in cur && k in cur && j != k ==> cur[j] != cur[k])
  }

  ghost predicate SlotsBelow(cur: map<Key, Operand>, uop: nat, slots: nat) {
    forall k :: k in cur && cur[k].Output? && cur[k].uop == uop ==> cur[k].slot < slots
  }

  lemma {:induction false} WriteFresh(t: Tables, uop: nat, outputs: seq<Source>, earlier: set<nat>, seen: set<nat>)
    requires FreshWrites(t.cur, earlier, seen) && uop !in seen && uop !in earlier
    ensures var s := Write(t, uop, outputs);
            s.dict == t.dict && FreshWrites(s.cur, earlier, seen + {uop}) && SlotsBelow(s.cur, uop, |outputs|)
  {
    if outputs != [] {
      WriteFresh(t, uop, outputs[..|outputs| - 1], earlier, seen);
    }
  }

  /** An instruction that is not eliminated gives its registers operands of their own. */
  lemma CommitFresh(uses: Uses, dict: map<Key, Operand>, cur: map<Key, Operand>, c: Class, earlier: set<nat>,
                    seen: set<nat>)
    requires Exact(uses, dict, c) && KnownOperands(uses, dict, earlier) && earlier <= seen
    requires FreshWrites(cur, earlier, seen)
    ensures Exact(Dropped(uses, dict, cur, false, c), dict + cur, c)
    ensures KnownOperands(Dropped(uses, dict, cur, false, c), dict + cur, seen)
  {
    var after, d := Dropped(uses, dict, cur, false, c), dict + cur;
    forall r, k | r in after
      ensures k in after[r] <==> InClass(k, c) && k in d && d[k] == r
    {
      assert KnownOperand(r, dict, earlier);
      assert k in uses[r] <==> InClass(k, c) && k in dict && dict[k] == r;
    }
    forall j, k | j in d && k in d && InClass(j, c) && InClass(k, c) && j != k && d[j] == d[k]
      ensures d[j] in after
    {
      if j !in cur {
        assert KnownOperand(dict[j], dict, earlier);
      }
      if k !in cur {
        assert KnownOperand(dict[k], dict, earlier);
      }
    }
  }

  /** An eliminated move that is an instruction of its own. */
  lemma CommitMove(uses: Uses, dict: map<Key, Operand>, m: Move, c: Class, seen: set<nat>)
    requires Exact(uses, dict, c) && KnownOperands(uses, dict, seen) && InClass(m.src, c) && InClass(m.dst, c)
    ensures var d, r := Entered(dict, m.src), Lookup(dict, m.src);
            var cur := map[m.dst := r];
            var after := Dropped(Shared(uses, r, m), d, cur, true, c);
            Exact(after, d + cur, c) && KnownOperands(after, d + cur, seen)
  {
    var d, r := Entered(dict, m.src), Lookup(dict, m.src);
    var cur := map[m.dst := r];
    var shared := Shared(uses, r, m);
    var after, e := Dropped(shared, d, cur, true, c), d + cur;
    EnteredExact(uses, dict, c, seen, m.src);
    forall o, k | o in after
      ensures k in after[o] <==> InClass(k, c) && k in e && e[k] == o
    {
      if o in uses {
        assert k in uses[o] <==> InClass(k, c) && k in d && d[k] == o;
      }
    }
    forall j, k | j in e && k in e && InClass(j, c) && InClass(k, c) && j != k && e[j] == e[k]
      ensures e[j] in after
    {
      if j != m.dst && k != m.dst {
        assert d[j] == d[k];
      }
    }
  }

  /** A move between registers of the other class. */
  lemma CommitOther(uses: Uses, dict: map<Key, Operand>, m: Move, c: Class, seen: set<nat>)
    requires Exact(uses, dict, c) && KnownOperands(uses, dict, seen) && !InClass(m.src, c) && !InClass(m.dst, c)
    ensures var d, cur := Entered(dict, m.src), map[m.dst := Lookup(dict, m.src)];
            var after := Dropped(uses, d, cur, true, c);
            Exact(after, d + cur, c) && KnownOperands(after, d + cur, seen)
  {
    EnteredExact(uses, dict, c, seen, m.src);
  }

  lemma PrunedKnown(uses: Uses, dict: map<Key, Operand>, seen: set<nat>, most: nat)
    requires KnownOperands(uses, dict, seen)
    ensures KnownOperands(Pruned(uses, most), dict, seen)
  {}
}

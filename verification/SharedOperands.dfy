/** Which operands the renamer counts as shared: those that eliminated moves have made so, as long as they have users and,
    where the last user is enough to forget them, more than one. */
module SharedOperands {
  import opened Wrappers
  import opened Renaming
  import opened MultiUse
  import opened MoveElimination
  import opened Renamer

  /** A register of the class is renamed to the operand. */
  predicate HasUser(dict: map<Key, Operand>, c: Class, r: Operand) {
    exists k :: k in dict && InClass(k, c) && dict[k] == r
  }

  predicate HasTwoUsers(dict: map<Key, Operand>, c: Class, r: Operand) {
    exists j, k :: j in dict && k in dict && j != k && InClass(j, c) && InClass(k, c) && dict[j] == r && dict[k] == r
  }

  /** An eliminated move of the class gives its register the operand. */
  ghost predicate MadeShared(t: Tables, us: seq<Uop>, eliminated: seq<bool>, c: Class, r: Operand)
    requires |us| == |eliminated| && CanRenameAll(t, us, eliminated)
    decreases |us|
  {
    us != [] &&
    ((eliminated[0] && ClassOf(us[0]) == Some(c) && r == Lookup(t.dict, us[0].move.value.src)) ||
     MadeShared(AfterUop(t, us[0], eliminated[0]), us[1..], eliminated[1..], c, r))
  }

  lemma DroppedKeys(uses: Uses, dict: map<Key, Operand>, cur: map<Key, Operand>, eliminated: bool, c: Class, r: Operand)
    ensures r in Dropped(uses, dict, cur, eliminated, c) <==> r in uses
  {}

  lemma UopKeys(uses: Uses, t: Tables, u: Uop, eliminated: bool, c: Class, r: Operand)
    requires CanRename(t, u, eliminated)
    ensures r in UsesAfterUop(uses, t, u, eliminated, c) <==>
            r in uses || (eliminated && ClassOf(u) == Some(c) && r == Lookup(t.dict, u.move.value.src))
  {
    hide Dropped, Renamed, UsesOf;
    var s := Renamed(t, u, eliminated);
    DroppedKeys(UsesAfterRename(uses, t, u, eliminated, c), s.dict, s.cur, eliminated, c, r);
  }

  /** Operands come to be counted only by eliminated moves. */
  lemma {:induction false} AllKeys(uses: Uses, t: Tables, us: seq<Uop>, eliminated: seq<bool>, c: Class, r: Operand)
    requires |us| == |eliminated| && CanRenameAll(t, us, eliminated)
    ensures r in UsesAfterAll(uses, t, us, eliminated, c) <==> r in uses || MadeShared(t, us, eliminated, c, r)
    decreases |us|
  {
    if us != [] {
      hide AfterUop, UsesAfterUop, ClassOf, Lookup;
      UopKeys(uses, t, us[0], eliminated[0], c, r);
      AllKeys(UsesAfterUop(uses, t, us[0], eliminated[0], c), AfterUop(t, us[0], eliminated[0]), us[1..],
              eliminated[1..], c, r);
    }
  }

  // The users stay exact

  /** What is known of the tables between two uops. */
  ghost predicate Ready(t: Tables, uses: Uses, c: Class, us: seq<Uop>, eliminated: seq<bool>, earlier: set<nat>,
                        seen: set<nat>, passed: set<nat>, start: bool)
  {
    && |us| == |eliminated| && CanRenameAll(t, us, eliminated) && Tracks(t, uses, c, earlier, seen)
    && WellFormed(us, passed, start, seen) && (start ==> t.cur == map[])
    && forall i :: 0 <= i < |us| && eliminated[i] ==> ClassOf(us[i]).Some?
  }

  lemma StaysReady(t: Tables, uses: Uses, c: Class, us: seq<Uop>, eliminated: seq<bool>, earlier: set<nat>,
                   seen: set<nat>, passed: set<nat>, start: bool)
    requires us != [] && Ready(t, uses, c, us, eliminated, earlier, seen, passed, start)
    ensures var u, after := us[0], seen + {us[0].idx};
            Ready(AfterUop(t, u, eliminated[0]), UsesAfterUop(uses, t, u, eliminated[0], c), c, us[1..], eliminated[1..],
                  if u.endsInstr then after else earlier, after, if u.endsInstr then {} else PassedAfter(u, passed),
                  u.endsInstr)
  {
    var u := us[0];
    RenamingTracks(t, uses, c, earlier, seen, u, eliminated[0]);
    if u.endsInstr {
      CurAfter(t, u, eliminated[0]);
    }
    hide AfterUop, UsesAfterUop, Tracks, ClassOf, CanRename, PassedAfter;
  }

  lemma {:induction false} StaysExact(t: Tables, uses: Uses, c: Class, us: seq<Uop>, eliminated: seq<bool>,
                                      earlier: set<nat>, seen: set<nat>, passed: set<nat>, start: bool)
    requires Ready(t, uses, c, us, eliminated, earlier, seen, passed, start)
    ensures Exact(UsesAfterAll(uses, t, us, eliminated, c), AfterAll(t, us, eliminated).dict, c)
    decreases |us|
  {
    if us != [] {
      var u, after := us[0], seen + {us[0].idx};
      StaysReady(t, uses, c, us, eliminated, earlier, seen, passed, start);
      hide AfterUop, UsesAfterUop, Exact, Ready;
      StaysExact(AfterUop(t, u, eliminated[0]), UsesAfterUop(uses, t, u, eliminated[0], c), c, us[1..], eliminated[1..],
                 if u.endsInstr then after else earlier, after, if u.endsInstr then {} else PassedAfter(u, passed),
                 u.endsInstr);
    }
  }

  // What is counted

  lemma PrunedKeeps(uses: Uses, dict: map<Key, Operand>, c: Class, r: Operand)
    requires Exact(uses, dict, c)
    ensures r in Pruned(uses, 0) <==> r in uses && HasUser(dict, c, r)
    ensures r in Pruned(uses, 1) <==> r in uses && HasTwoUsers(dict, c, r)
  {
    if r in uses {
      var users := uses[r];
      assert forall k :: k in users <==> InClass(k, c) && k in dict && dict[k] == r;
      Cardinalities(users);
      hide InClass;
    }
  }

  lemma Cardinalities(s: set<Key>)
    ensures |s| > 0 <==> exists k :: k in s
    ensures |s| > 1 <==> exists j, k :: j in s && k in s && j != k
  {
    if j, k :| j in s && k in s && j != k {
      TwoUsers(s, j, k);
    }
    if |s| > 1 {
      var j :| j in s;
      assert |s - {j}| > 0;
      var k :| k in s - {j};
    }
  }

  /** After a cycle exactly those operands count as shared to which a register is renamed and which counted before, or have
      been given to a register by a move that the cycle eliminated; in a cycle that forgets, those that counted before need
      two registers. */
  lemma KeptExactly(t: Tables, uses: Uses, c: Class, us: seq<Uop>, eliminated: seq<bool>, earlier: set<nat>,
                    seen: set<nat>, passed: set<nat>, start: bool, forget: bool, r: Operand)
    requires Ready(t, uses, c, us, eliminated, earlier, seen, passed, start)
    ensures r in UsesAfterCycle(uses, t, us, eliminated, c, forget) <==>
            && HasUser(AfterAll(t, us, eliminated).dict, c, r)
            && ((r in uses && (forget ==> HasTwoUsers(t.dict, c, r))) || MadeShared(t, us, eliminated, c, r))
  {
    var before := if forget then Pruned(uses, 1) else uses;
    PrunedTracks(t, uses, c, earlier, seen, 1);
    PrunedKeeps(uses, t.dict, c, r);
    hide Tracks, WellFormed, Pruned, ClassOf, CanRenameAll, HasUser, HasTwoUsers, MadeShared, UsesAfterAll, AfterAll;
    assert Ready(t, before, c, us, eliminated, earlier, seen, passed, start);
    hide Ready, Exact;
    StaysExact(t, before, c, us, eliminated, earlier, seen, passed, start);
    AllKeys(before, t, us, eliminated, c, r);
    PrunedKeeps(UsesAfterAll(before, t, us, eliminated, c), AfterAll(t, us, eliminated).dict, c, r);
  }

  /** The number recorded for a cycle is that of the operands that count as shared after it. */
  lemma RecordedExactly(used: map<int, nat>, cycle: nat, uses: Uses)
    requires cycle as int !in used
    ensures Recorded(UsesRecorded(used, cycle, uses), cycle) == |uses|
  {}
}

/** How many moves the renamer eliminates: the slots of the last cycles are shared. */
module MoveElimination {
  import opened Wrappers

  /** What was recorded for a cycle; nothing counts as none. */
  function Recorded(n: map<int, nat>, cycle: int): nat {
    if cycle in n then n[cycle] else 0
  }

  /** The sum over the `length` cycles up to `last`. */
  function Window(n: map<int, nat>, last: int, length: nat): nat
    decreases length
  {
    if length == 0 then 0 else Recorded(n, last) + Window(n, last - 1, length - 1)
  }

  /** An entry of one of the `length` cycles up to `last`, numbered within its cycle. */
  predicate InWindow(n: map<int, nat>, last: int, length: nat, e: (int, nat)) {
    last - length < e.0 <= last && e.0 in n && e.1 < n[e.0]
  }

  ghost predicate Collects(s: set<(int, nat)>, n: map<int, nat>, last: int, length: nat) {
    forall e :: e in s <==> InWindow(n, last, length, e)
  }

  function Pairs(c: int, k: nat): (s: set<(int, nat)>)
    ensures |s| == k && forall e :: e in s <==> e.0 == c && e.1 < k
  {
    if k == 0 then {} else Pairs(c, k - 1) + {(c, k - 1)}
  }

  /** The window counts what was recorded for these cycles. */
  lemma {:induction false} WindowCounts(n: map<int, nat>, last: int, length: nat) returns (s: set<(int, nat)>)
    ensures Collects(s, n, last, length) && Window(n, last, length) == |s|
    decreases length
  {
    if length == 0 {
      s := Pairs(last, 0);
    } else {
      var earlier := WindowCounts(n, last - 1, length - 1);
      var now := Pairs(last, Recorded(n, last));
      assert earlier !! now;
      s := earlier + now;
    }
  }

  lemma {:induction false} WindowUnchanged(n: map<int, nat>, last: int, length: nat, cycle: int, x: nat)
    requires last < cycle
    ensures Window(n[cycle := x], last, length) == Window(n, last, length)
    decreases length
  {
    if length > 0 {
      WindowUnchanged(n, last - 1, length - 1, cycle, x);
    }
  }

  lemma {:induction false} ShorterWindow(n: map<int, nat>, last: int, a: nat, b: nat)
    requires a <= b
    ensures Window(n, last, a) <= Window(n, last, b)
    decreases a
  {
    if a > 0 {
      ShorterWindow(n, last - 1, a - 1, b - 1);
    }
  }

  /** In no `length` consecutive cycles were more moves eliminated than there are slots. */
  ghost predicate WithinSlots(n: map<int, nat>, length: nat, slots: nat) {
    forall last :: Window(n, last, length) <= slots
  }

  /** The moves that can be eliminated in a cycle: those that the slots leave after the previous cycles and the operands
      that were shared when they began. */
  function Possible(n: map<int, nat>, used: map<int, nat>, cycle: int, length: nat, slots: nat): int {
    slots - Window(n, cycle - 1, if length == 0 then 0 else length - 1) - Recorded(used, cycle - length)
  }

  /** In every cycle that eliminated moves, these and those of the cycles before that count, together with the operands
      shared when the first of those cycles began, are at most as many as the slots. */
  ghost predicate SharedWithin(n: map<int, nat>, used: map<int, nat>, length: nat, slots: nat) {
    forall t :: t in n && n[t] > 0 ==> Window(n, t, length) + Recorded(used, t - length) <= slots
  }

  lemma SharedKeeps(n: map<int, nat>, used: map<int, nat>, used': map<int, nat>, cycle: int, length: nat, slots: nat,
                    x: nat)
    requires SharedWithin(n, used, length, slots) && length > 0 && forall c :: c in n ==> c < cycle
    requires x == 0 || x <= Possible(n, used, cycle, length, slots)
    requires forall c :: c != cycle ==> Recorded(used', c) == Recorded(used, c)
    ensures SharedWithin(n[cycle := x], used', length, slots)
  {
    var m := n[cycle := x];
    forall t | t in m && m[t] > 0
      ensures Window(m, t, length) + Recorded(used', t - length) <= slots
    {
      if t == cycle {
        WindowUnchanged(n, cycle - 1, length - 1, cycle, x);
      } else {
        WindowUnchanged(n, t, length, cycle, x);
      }
    }
  }

  /** Windows that reach past the last recorded cycle hold nothing more. */
  lemma {:induction false} WindowPast(n: map<int, nat>, cycle: int, last: int, length: nat, slots: nat)
    requires (forall c :: c in n ==> c <= cycle) && last >= cycle && Window(n, cycle, length) <= slots
    ensures Window(n, last, length) <= slots
    decreases last - cycle
  {
    if last > cycle {
      if length == 0 {
      } else {
        ShorterWindow(n, last - 1, length - 1, length);
        WindowPast(n, cycle, last - 1, length, slots);
      }
    }
  }

  /** A cycle that eliminates no more moves than is possible keeps all windows within the slots. */
  lemma RecordKeeps(n: map<int, nat>, used: map<int, nat>, cycle: int, length: nat, slots: nat, x: nat)
    requires WithinSlots(n, length, slots) && forall c :: c in n ==> c < cycle
    requires x == 0 || x <= Possible(n, used, cycle, length, slots)
    ensures WithinSlots(n[cycle := x], length, slots)
  {
    var m := n[cycle := x];
    forall last: int
      ensures Window(m, last, length) <= slots
    {
      if last < cycle {
        WindowUnchanged(n, last, length, cycle, x);
      } else {
        if length > 0 {
          WindowUnchanged(n, cycle - 1, length - 1, cycle, x);
          ShorterWindow(n, cycle - 1, length - 1, length);
        }
        WindowPast(m, cycle, last, length, slots);
      }
    }
  }
}

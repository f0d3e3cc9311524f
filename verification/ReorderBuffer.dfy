/** The reorder buffer (`ReorderBuffer` in uiCA.py, reorder_buffer.rs): uops retire in the order of their issue. */
module ReorderBuffer {
  import opened Wrappers
  import opened Uops
  import opened UopSteps

  datatype Config = Config(issueWidth: nat, rbWidth: nat, retireWidth: nat)

  /** When a uop of the fused domain was retired, and how many were before it in the same cycle. */
  datatype Retirement = Retirement(cycle: nat, idx: nat)

  predicate Before(a: Retirement, b: Retirement) {
    a.cycle < b.cycle || (a.cycle == b.cycle && a.idx < b.idx)
  }

  /** All unfused uops of a uop have been executed before the cycle. */
  predicate ExecutedBefore(t: Table, us: seq<nat>, clock: nat) {
    forall u :: u in us ==> u in t.executed && t.executed[u] < clock
  }

  predicate CanRetire(t: Table, f: FusedUop, clock: nat) {
    ExecutedBefore(t, f.uops, clock)
  }

  /** How many uops retire in a cycle: the longest retirable front of the buffer, up to the retire width. */
  function Retirable(t: Table, uops: seq<FusedUop>, clock: nat, width: nat): (n: nat)
    ensures n <= width && n <= |uops|
    ensures forall i :: 0 <= i < n ==> CanRetire(t, uops[i], clock)
    ensures n == width || n == |uops| || !CanRetire(t, uops[n], clock)
  {
    if width == 0 || uops == [] || !CanRetire(t, uops[0], clock) then 0
    else 1 + Retirable(t, uops[1..], clock, width - 1)
  }

  lemma {:induction false} RetirableFrom(t: Table, uops: seq<FusedUop>, clock: nat, width: nat, n: nat)
    requires n <= width && n <= |uops| && forall i :: 0 <= i < n ==> CanRetire(t, uops[i], clock)
    ensures Retirable(t, uops, clock, width) == n + Retirable(t, uops[n..], clock, width - n)
  {
    if n == 0 {
      assert uops[0..] == uops;
    } else {
      RetirableFrom(t, uops[1..], clock, width - 1, n - 1);
      assert uops[1..][n - 1..] == uops[n..];
    }
  }

  /** As many uops retire as are executed in an earlier cycle from the front on, up to the width. */
  lemma RetirableExactly(t: Table, uops: seq<FusedUop>, clock: nat, width: nat, n: nat)
    ensures Retirable(t, uops, clock, width) == n <==>
            && n <= width && n <= |uops|
            && (forall i, u :: 0 <= i < n && u in uops[i].uops ==> u in t.executed && t.executed[u] + 1 <= clock)
            && (n < width && n < |uops| ==>
                  exists u :: u in uops[n].uops && (u in t.executed ==> t.executed[u] >= clock))
  {
    var r := Retirable(t, uops, clock, width);
    hide Retirable;
    assert forall i :: 0 <= i < r ==> CanRetire(t, uops[i], clock);
  }

  // Retirement in order

  predicate DistinctIdx(fs: seq<FusedUop>) {
    forall i, j :: 0 <= i < j < |fs| ==> fs[i].idx != fs[j].idx
  }

  /** Retired uops have a retirement; later ones in the list retired later. */
  ghost predicate InOrder(retired: seq<FusedUop>, at: map<nat, Retirement>, width: nat, next: nat) {
    && (forall i :: 0 <= i < |retired| ==>
          retired[i].idx in at && at[retired[i].idx].idx < width && at[retired[i].idx].cycle < next)
    && (forall i, j :: 0 <= i < j < |retired| ==> Before(at[retired[i].idx], at[retired[j].idx]))
  }

  ghost predicate RetiredAfterExecution(t: Table, retired: seq<FusedUop>, at: map<nat, Retirement>) {
    forall i :: 0 <= i < |retired| ==>
      retired[i].idx in at && ExecutedBefore(t, retired[i].uops, at[retired[i].idx].cycle)
  }

  lemma ExecutedBeforeLater(t: Table, s: Table, us: seq<nat>, clock: nat)
    requires Extends(t.executed, s.executed) && ExecutedBefore(t, us, clock)
    ensures ExecutedBefore(s, us, clock)
  {}

  lemma RetiredLater(t: Table, s: Table, retired: seq<FusedUop>, at: map<nat, Retirement>)
    requires RetiredAfterExecution(t, retired, at) && Extends(t.executed, s.executed)
    ensures RetiredAfterExecution(s, retired, at)
  {
    forall i | 0 <= i < |retired|
      ensures retired[i].idx in at && ExecutedBefore(s, retired[i].uops, at[retired[i].idx].cycle)
    {
      ExecutedBeforeLater(t, s, retired[i].uops, at[retired[i].idx].cycle);
    }
  }

  /** In a run of retirements at most `width` fall into one cycle: those from `i` to `j` are numbered upwards. */
  lemma {:induction false} FewPerCycle(retired: seq<FusedUop>, at: map<nat, Retirement>, width: nat, next: nat, i: nat,
                                       j: nat)
    requires InOrder(retired, at, width, next) && i <= j < |retired|
    requires at[retired[i].idx].cycle == at[retired[j].idx].cycle
    ensures j - i <= at[retired[j].idx].idx - at[retired[i].idx].idx && j - i < width
  {
    if i < j {
      assert Before(at[retired[i].idx], at[retired[j - 1].idx]) || i == j - 1;
      assert Before(at[retired[j - 1].idx], at[retired[j].idx]);
      FewPerCycle(retired, at, width, next, i, j - 1);
    }
  }

  // New uops

  /** Uops without a port are executed when they are issued. */
  function Admitted(t: Table, us: seq<nat>, clock: nat): Table {
    if us == [] then t
    else
      var s := Admitted(t, us[..|us| - 1], clock);
      var u := us[|us| - 1];
      if u in s.info && !PortBound(s.info[u]) then ExecutedAtIssue(s, u, clock) else s
  }

  lemma {:induction false} AdmittedOnly(t: Table, us: seq<nat>, clock: nat)
    ensures var s := Admitted(t, us, clock);
            && s == t.(executed := s.executed) && t.executed.Keys <= s.executed.Keys
            && (forall u :: u in s.executed ==>
                  u in t.executed || (u in us && u in t.info && !PortBound(t.info[u]) && s.executed[u] == clock))
            && (forall u :: u in us && u in t.info && !PortBound(t.info[u]) ==> u in s.executed)
  {
    hide PortBound;
    if us != [] {
      var front, u := us[..|us| - 1], us[|us| - 1];
      AdmittedOnly(t, front, clock);
      assert us == front + [u];
      hide Admitted;
      AdmittedSnoc(t, front, u, clock);
    }
  }

  lemma NoneUnfused(fs: seq<FusedUop>)
    ensures fs[0..] == fs && fs[..|fs|] == fs && Unfused(fs[|fs|..]) == []
  {}

  lemma NoneAdmitted(t: Table, clock: nat)
    ensures Admitted(t, [], clock) == t
  {}

  lemma AdmittedSnoc(t: Table, us: seq<nat>, u: nat, clock: nat)
    ensures var s := Admitted(t, us, clock);
            Admitted(t, us + [u], clock) ==
            if u in s.info && !PortBound(s.info[u]) then ExecutedAtIssue(s, u, clock) else s
  {
    assert (us + [u])[..|us|] == us;
  }

  lemma {:induction false} AdmittedSound(t: Table, delay: nat, us: seq<nat>, clock: nat)
    requires Sound(t, delay) && (forall u :: u in us ==> u !in t.executed && u !in t.actualPort)
    requires forall i, j :: 0 <= i < j < |us| ==> us[i] != us[j]
    ensures Sound(Admitted(t, us, clock), delay) && Later(t, Admitted(t, us, clock))
  {
    if us == [] {
      LaterItself(t);
    } else {
      var front, u := us[..|us| - 1], us[|us| - 1];
      var s := Admitted(t, front, clock);
      AdmittedSound(t, delay, front, clock);
      AdmittedOnly(t, front, clock);
      hide Sound, Later;
      if u in s.info && !PortBound(s.info[u]) {
        ExecutedAtIssueSound(s, delay, u, clock);
        LaterTrans(t, s, ExecutedAtIssue(s, u, clock));
      }
    }
  }

  class ReorderBuffer {
    const c: Config
    const storage: UopStorage
    var uops: seq<FusedUop>
    var retireQueue: seq<FusedUop>
    var retired: map<nat, Retirement>
    ghost var issueOrder: seq<FusedUop>
    ghost var retireOrder: seq<FusedUop>

    constructor (c: Config, storage: UopStorage)
      ensures this.c == c && this.storage == storage && Valid(0) && uops == [] && issueOrder == []
    {
      this.c, this.storage := c, storage;
      uops, retireQueue, retired, issueOrder, retireOrder := [], [], map[], [], [];
    }

    predicate IsFull() reads this {
      |uops| + c.issueWidth > c.rbWidth
    }

    /** The retired uops and the buffered ones are the issued ones in order; the retired ones have retired in that
        order, each after its uops had been executed. */
    ghost predicate Valid(next: nat)
      reads this, storage
    {
      && issueOrder == retireOrder + uops && DistinctIdx(issueOrder)
      && InOrder(retireOrder, retired, c.retireWidth, next)
      && RetiredAfterExecution(storage.t, retireOrder, retired)
    }

    method RetireUops(clock: nat)
      requires Valid(clock)
      modifies `uops, `retireQueue, `retired, `retireOrder
      ensures Valid(clock + 1)
      ensures var n := Retirable(storage.t, old(uops), clock, c.retireWidth);
              && uops == old(uops)[n..] && retireQueue == old(retireQueue) + old(uops)[..n]
              && retireOrder == old(retireOrder) + old(uops)[..n]
    {
      var nRetiredInSameCycle := 0;
      ghost var uops0, retired0, t := uops, retireOrder, storage.t;
      assert InOrder(retireOrder, retired, c.retireWidth, clock + 1);
      while nRetiredInSameCycle < c.retireWidth && uops != [] && CanRetire(storage.t, uops[0], clock)
        invariant nRetiredInSameCycle <= c.retireWidth && nRetiredInSameCycle <= |uops0|
        invariant uops == uops0[nRetiredInSameCycle..] && Valid(clock + 1)
        invariant retireQueue == old(retireQueue) + uops0[..nRetiredInSameCycle]
        invariant retireOrder == retired0 + uops0[..nRetiredInSameCycle]
        invariant forall i :: 0 <= i < nRetiredInSameCycle ==> CanRetire(t, uops0[i], clock)
        invariant forall i :: 0 <= i < |retireOrder| ==>
                    Before(retired[retireOrder[i].idx], Retirement(clock, nRetiredInSameCycle))
        decreases |uops|
      {
        var f := uops[0];
        RetireOne(clock, nRetiredInSameCycle);
        assert uops0[..nRetiredInSameCycle + 1] == uops0[..nRetiredInSameCycle] + [f];
        nRetiredInSameCycle := nRetiredInSameCycle + 1;
      }
      RetirableFrom(t, uops0, clock, c.retireWidth, nRetiredInSameCycle);
    }

    /** Retires the first uop of the buffer. */
    method RetireOne(clock: nat, idx: nat)
      requires Valid(clock + 1) && uops != [] && CanRetire(storage.t, uops[0], clock) && idx < c.retireWidth
      requires forall i :: 0 <= i < |retireOrder| ==> Before(retired[retireOrder[i].idx], Retirement(clock, idx))
      modifies `uops, `retireQueue, `retired, `retireOrder
      ensures Valid(clock + 1) && uops == old(uops)[1..] && retireQueue == old(retireQueue) + [old(uops)[0]]
      ensures retireOrder == old(retireOrder) + [old(uops)[0]]
      ensures forall i :: 0 <= i < |retireOrder| ==> Before(retired[retireOrder[i].idx], Retirement(clock, idx + 1))
    {
      var f := uops[0];
      ghost var k := |retireOrder|;
      assert issueOrder[k] == f;
      assert forall i :: 0 <= i < k ==> issueOrder[i] == retireOrder[i] && retireOrder[i].idx != f.idx;
      uops := uops[1..];
      retireQueue := retireQueue + [f];
      retired := retired[f.idx := Retirement(clock, idx)];
      retireOrder := retireOrder + [f];
    }

    /** Executes those of some uops that have no port or have been eliminated. */
    method ExecutePortless(us: seq<nat>, clock: nat, ghost t: Table, ghost done: seq<nat>)
      requires storage.t == Admitted(t, done, clock)
      modifies storage
      ensures storage.t == Admitted(t, done + us, clock)
    {
      hide Admitted;
      assert done + us[..0] == done && us[..|us|] == us;
      for i := 0 to |us|
        invariant storage.t == Admitted(t, done + us[..i], clock)
      {
        var u := us[i];
        AdmittedSnoc(t, done + us[..i], u, clock);
        assert done + us[..i + 1] == done + us[..i] + [u];
        if u in storage.t.info && !PortBound(storage.t.info[u]) {
          storage.t := ExecutedAtIssue(storage.t, u, clock);
        }
      }
    }

    /** Takes over newly issued uops. */
    method AddUops(clock: nat, newUops: seq<FusedUop>)
      modifies `uops, `issueOrder, storage
      ensures uops == old(uops) + newUops && issueOrder == old(issueOrder) + newUops
      ensures storage.t == Admitted(old(storage.t), Unfused(newUops), clock)
    {
      hide Admitted, Unfused;
      ghost var t := storage.t;
      ghost var done: seq<nat> := [];
      NoneAdmitted(t, clock);
      NoneUnfused(newUops);
      for f := 0 to |newUops|
        invariant uops == old(uops) + newUops[..f] && issueOrder == old(issueOrder)
        invariant storage.t == Admitted(t, done, clock) && done + Unfused(newUops[f..]) == Unfused(newUops)
      {
        assert newUops[..f + 1] == newUops[..f] + [newUops[f]];
        NextFused(newUops, f);
        uops := uops + [newUops[f]];
        ExecutePortless(newUops[f].uops, clock, t, done);
        assert done + (newUops[f].uops + Unfused(newUops[f + 1..])) ==
               done + newUops[f].uops + Unfused(newUops[f + 1..]);
        done := done + newUops[f].uops;
      }
      assert done + [] == done;
      issueOrder := issueOrder + newUops;
    }

    /** Retires uops, then takes over new ones. */
    method Cycle(clock: nat, newUops: seq<FusedUop>)
      requires Valid(clock) && DistinctIdx(issueOrder + newUops)
      requires Extends(storage.t.executed, Admitted(storage.t, Unfused(newUops), clock).executed)
      modifies `uops, `retireQueue, `retired, `retireOrder, `issueOrder, storage
      ensures Valid(clock + 1) && storage.t == Admitted(old(storage.t), Unfused(newUops), clock)
      ensures var n := Retirable(old(storage.t), old(uops), clock, c.retireWidth);
              && uops == old(uops)[n..] + newUops && retireQueue == old(retireQueue) + old(uops)[..n]
              && retireOrder == old(retireOrder) + old(uops)[..n] && issueOrder == old(issueOrder) + newUops
    {
      hide Admitted, InOrder, RetiredAfterExecution, Extends, DistinctIdx, Retirable;
      ghost var t := storage.t;
      RetireUops(clock);
      AddUops(clock, newUops);
      RetiredLater(t, storage.t, retireOrder, retired);
    }
  }
}

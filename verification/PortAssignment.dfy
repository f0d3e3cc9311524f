/** The best assignment of uops to ports: it loads no port with more than the largest density of a set of ports. */
module PortAssignment {
  import opened PortUsage

  /** No set of ports has a larger density, and some set has this one unless it is zero. */
  ghost predicate IsLargestDensity(items: seq<Item>, m: real) {
    && m >= 0.0 && (forall c :: Density(items, c) <= m)
    && (m == 0.0 || exists c :: c != {} && Density(items, c) == m)
  }

  ghost predicate AllHavePorts(items: seq<Item>) {
    forall i :: i in items ==> i.ports != {}
  }

  type Capacity = Port -> real

  /** Within the ports `all`, no set is in greater demand than its ports have capacity. */
  ghost predicate Suffices(items: seq<Item>, cap: Capacity, all: set<Port>) {
    && (forall p :: cap(p) >= 0.0)
    && forall c :: c <= all ==> Demand(items, c) <= SumOver(c, cap)
  }

  // Sums

  lemma {:induction false} SumUnion(a: set<Port>, b: set<Port>, w: Capacity)
    ensures SumOver(a + b, w) + SumOver(a * b, w) == SumOver(a, w) + SumOver(b, w)
  {
    if a == {} {
      assert a + b == b && a * b == {};
    } else {
      var p :| p in a;
      var rest := a - {p};
      SumUnion(rest, b, w);
      SumPick(a, w, p);
      SumPick(a + b, w, p);
      if p in b {
        SumPick(b, w, p);
        SumPick(a * b, w, p);
        assert a * b - {p} == rest * b && a + b - {p} == (rest + b) - {p};
        SumPick(rest + b, w, p);
      } else {
        assert a * b == rest * b && a + b - {p} == rest + b;
      }
    }
  }

  lemma {:induction false} SumSame(s: set<Port>, v: Capacity, w: Capacity)
    requires forall p :: p in s ==> v(p) == w(p)
    ensures SumOver(s, v) == SumOver(s, w)
  {
    if s != {} {
      var p :| p in s;
      SumPick(s, v, p);
      SumPick(s, w, p);
      SumSame(s - {p}, v, w);
    }
  }

  /** The weight `x` on port `p`. */
  function Only(p: Port, x: real): Capacity {
    q => if q == p then x else 0.0
  }

  function Less(cap: Capacity, w: Capacity): Capacity {
    q => cap(q) - w(q)
  }

  function Plus(v: Capacity, w: Capacity): Capacity {
    q => v(q) + w(q)
  }

  lemma {:induction false} SumZero(s: set<Port>, w: Capacity)
    requires forall p :: p in s ==> w(p) == 0.0
    ensures SumOver(s, w) == 0.0
  {
    if s != {} {
      var p :| p in s;
      SumPick(s, w, p);
      SumZero(s - {p}, w);
    }
  }

  lemma SumOnly(s: set<Port>, p: Port, x: real)
    ensures SumOver(s, Only(p, x)) == if p in s then x else 0.0
  {
    if p in s {
      SumPick(s, Only(p, x), p);
      SumZero(s - {p}, Only(p, x));
    } else {
      SumZero(s, Only(p, x));
    }
  }

  lemma SumLess(s: set<Port>, cap: Capacity, p: Port, x: real)
    ensures SumOver(s, Less(cap, Only(p, x))) == SumOver(s, cap) - if p in s then x else 0.0
  {
    SumOnly(s, p, x);
    SumAdd(s, Less(cap, Only(p, x)), Only(p, x), cap);
  }

  // Demand

  lemma DemandLast(rest: seq<Item>, i: Item, c: set<Port>)
    ensures Demand(rest + [i], c) == Demand(rest, c) + Share(i, c)
  {
    assert (rest + [i])[..|rest|] == rest;
  }

  lemma {:induction false} DemandNonNegative(items: seq<Item>, c: set<Port>)
    requires NonNegative(items)
    ensures Demand(items, c) >= 0.0
  {
    if items != [] {
      DemandNonNegative(items[..|items| - 1], c);
      assert items[|items| - 1] in items;
    }
  }

  /** Demand is supermodular. */
  lemma {:induction false} DemandUnion(items: seq<Item>, a: set<Port>, b: set<Port>)
    requires NonNegative(items)
    ensures Demand(items, a + b) + Demand(items, a * b) >= Demand(items, a) + Demand(items, b)
  {
    if items != [] {
      var i := items[|items| - 1];
      DemandUnion(items[..|items| - 1], a, b);
      assert i in items;
      assert i.ports <= a && i.ports <= b ==> i.ports <= a * b;
    }
  }

  // Placing the uops of one item

  ghost function Slack(items: seq<Item>, cap: Capacity, c: set<Port>): real {
    SumOver(c, cap) - Demand(items, c)
  }

  lemma {:induction false} LeastSlack(sets: set<set<Port>>, items: seq<Item>, cap: Capacity) returns (c: set<Port>)
    requires sets != {}
    ensures c in sets && forall d :: d in sets ==> Slack(items, cap, c) <= Slack(items, cap, d)
  {
    hide Slack;
    var some :| some in sets;
    var others := sets - {some};
    assert forall d :: d in sets ==> d == some || d in others;
    if others == {} {
      c := some;
    } else {
      var other := LeastSlack(others, items, cap);
      c := if Slack(items, cap, some) <= Slack(items, cap, other) then some else other;
    }
  }

  /** A set whose capacity is used up. */
  ghost predicate Tight(items: seq<Item>, cap: Capacity, c: set<Port>) {
    SumOver(c, cap) == Demand(items, c)
  }

  /** Two tight sets that do not hold the item have a tight union that does not hold it, either. */
  lemma TightUnion(rest: seq<Item>, i: Item, cap: Capacity, all: set<Port>, a: set<Port>, b: set<Port>)
    requires Suffices(rest + [i], cap, all) && NonNegative(rest) && i.uops > 0.0 && i.ports != {}
    requires a <= all && b <= all && Tight(rest + [i], cap, a) && Tight(rest + [i], cap, b)
    requires !(i.ports <= a) && !(i.ports <= b)
    ensures Tight(rest + [i], cap, a + b) && !(i.ports <= a + b)
  {
    SumUnion(a, b, cap);
    DemandUnion(rest, a, b);
    DemandLast(rest, i, a);
    DemandLast(rest, i, b);
    DemandLast(rest, i, a + b);
    DemandLast(rest, i, a * b);
    assert !(i.ports <= a * b);
    hide SumOver, Demand;
    assert a + b <= all && a * b <= all;
  }

  /** As many uops of the item as can be placed on one of its ports, before some set that does not hold it becomes
      tight. */
  lemma Push(rest: seq<Item>, i: Item, cap: Capacity, all: set<Port>, p: Port) returns (x: real, c: set<Port>)
    requires Suffices(rest + [i], cap, all) && NonNegative(rest) && i.uops >= 0.0 && p in i.ports && i.ports <= all
    ensures 0.0 <= x <= i.uops
    ensures Suffices(rest + [Item(i.ports, i.uops - x)], Less(cap, Only(p, x)), all)
    ensures x < i.uops ==>
              && c <= all && p in c && !(i.ports <= c)
              && Tight(rest + [Item(i.ports, i.uops - x)], Less(cap, Only(p, x)), c)
  {
    hide SumOver, Demand;
    var without := set d | d <= all && p in d && !(i.ports <= d);
    x, c := i.uops, {};
    if without != {} {
      c := LeastSlack(without, rest + [i], cap);
      if Slack(rest + [i], cap, c) < i.uops {
        x := Slack(rest + [i], cap, c);
      }
    }
    var j := Item(i.ports, i.uops - x);
    forall d | d <= all
      ensures Demand(rest + [j], d) <= SumOver(d, Less(cap, Only(p, x)))
    {
      SumLess(d, cap, p, x);
      DemandLast(rest, i, d);
      DemandLast(rest, j, d);
      if p in d && !(i.ports <= d) {
        assert d in without;
      }
    }
    forall d | d <= all && p in d && !(i.ports <= d)
      ensures x <= Slack(rest + [i], cap, d)
    {
      assert d in without;
    }
    EnoughAt(rest, i, cap, all, p, x);
    if x < i.uops {
      SumLess(c, cap, p, x);
      DemandLast(rest, i, c);
      DemandLast(rest, j, c);
    }
  }

  lemma EnoughAt(rest: seq<Item>, i: Item, cap: Capacity, all: set<Port>, p: Port, x: real)
    requires Suffices(rest + [i], cap, all) && NonNegative(rest) && i.uops >= 0.0 && p in i.ports && i.ports <= all
    requires x <= i.uops && forall d :: d <= all && p in d && !(i.ports <= d) ==> x <= Slack(rest + [i], cap, d)
    ensures forall q :: Less(cap, Only(p, x))(q) >= 0.0
  {
    SumPick({p}, cap, p);
    assert {p} - {p} == {};
    DemandNonNegative(rest, {p});
    DemandLast(rest, i, {p});
    hide SumOver, Demand;
    assert {p} <= all && SumOver({p}, cap) == cap(p) by {
      assert SumOver({}, cap) == 0.0 by {
        SumZero({}, cap);
      }
    }
    if !(i.ports <= {p}) {
      assert x <= Slack(rest + [i], cap, {p});
    }
  }

  /** Places the uops of an item so that the other items still have enough capacity. `tight` holds the ports that have
      been tried. */
  lemma {:induction false} Place(rest: seq<Item>, i: Item, cap: Capacity, all: set<Port>, tight: set<Port>)
    returns (w: Capacity)
    requires Suffices(rest + [i], cap, all) && NonNegative(rest) && i.uops >= 0.0 && i.ports <= all && tight <= all
    requires Tight(rest + [i], cap, tight) && !(i.ports <= tight)
    ensures ServesItem(i, w) && Suffices(rest, Less(cap, w), all)
    decreases |i.ports - tight|
  {
    hide SumOver, Demand, Tight, Suffices, Less, Only, Plus, ServesItem;
    var p :| p in i.ports && p !in tight;
    var x, c := Push(rest, i, cap, all, p);
    var j, less := Item(i.ports, i.uops - x), Less(cap, Only(p, x));
    if x == i.uops {
      w := Only(p, x);
      PlacedAll(i, p);
      NothingLeft(rest, j, less, all);
    } else {
      StillTight(rest, i, cap, p, x, tight);
      TightUnion(rest, j, less, all, tight, c);
      assert i.ports - (tight + c) <= i.ports - tight - {p};
      Fewer(i.ports - (tight + c), i.ports - tight, p);
      var v := Place(rest, j, less, all, tight + c);
      w := Plus(v, Only(p, x));
      PlacedMore(i, p, x, v);
      SameCapacity(rest, cap, v, p, x, all);
    }
  }

  lemma PlacedAll(i: Item, p: Port)
    requires p in i.ports && i.uops >= 0.0
    ensures ServesItem(i, Only(p, i.uops))
  {
    SumOnly(i.ports, p, i.uops);
  }

  lemma PlacedMore(i: Item, p: Port, x: real, v: Capacity)
    requires p in i.ports && x >= 0.0 && ServesItem(Item(i.ports, i.uops - x), v)
    ensures ServesItem(i, Plus(v, Only(p, x)))
  {
    hide SumOver;
    SumOnly(i.ports, p, x);
    SumAdd(i.ports, v, Only(p, x), Plus(v, Only(p, x)));
  }

  lemma Fewer(s: set<Port>, t: set<Port>, p: Port)
    requires s <= t - {p} && p in t
    ensures |s| < |t|
  {
    assert s + {p} <= t;
    SmallerSet(s + {p}, t);
  }

  lemma {:induction false} SmallerSet(s: set<Port>, t: set<Port>)
    requires s <= t
    ensures |s| <= |t|
  {
    if s != {} {
      var p :| p in s;
      SmallerSet(s - {p}, t - {p});
    }
  }

  lemma NothingLeft(rest: seq<Item>, j: Item, cap: Capacity, all: set<Port>)
    requires Suffices(rest + [j], cap, all) && j.uops == 0.0
    ensures Suffices(rest, cap, all)
  {
    hide SumOver, Demand;
    forall c | c <= all
      ensures Demand(rest, c) <= SumOver(c, cap)
    {
      DemandLast(rest, j, c);
    }
  }

  lemma StillTight(rest: seq<Item>, i: Item, cap: Capacity, p: Port, x: real, c: set<Port>)
    requires Tight(rest + [i], cap, c) && p !in c && p in i.ports
    ensures Tight(rest + [Item(i.ports, i.uops - x)], Less(cap, Only(p, x)), c)
  {
    hide SumOver, Demand;
    SumLess(c, cap, p, x);
    DemandLast(rest, i, c);
    DemandLast(rest, Item(i.ports, i.uops - x), c);
  }

  lemma SameCapacity(rest: seq<Item>, cap: Capacity, v: Capacity, p: Port, x: real, all: set<Port>)
    requires Suffices(rest, Less(Less(cap, Only(p, x)), v), all)
    ensures Suffices(rest, Less(cap, Plus(v, Only(p, x))), all)
  {
    var a, b := Less(Less(cap, Only(p, x)), v), Less(cap, Plus(v, Only(p, x)));
    assert forall q :: a(q) == b(q);
    hide SumOver, Demand;
    forall c | c <= all
      ensures Demand(rest, c) <= SumOver(c, b)
    {
      SumSame(c, a, b);
    }
  }

  // Placing all items

  lemma {:induction false} Assign(items: seq<Item>, cap: Capacity, all: set<Port>)
    returns (assignment: seq<Port -> real>)
    requires Suffices(items, cap, all) && NonNegative(items) && AllHavePorts(items)
    requires forall i :: i in items ==> i.ports <= all
    ensures Serves(items, assignment) && forall p :: Load(assignment)(p) <= cap(p)
  {
    hide SumOver, Demand, Tight;
    if items == [] {
      assignment := [];
    } else {
      var rest, i := items[..|items| - 1], items[|items| - 1];
      assert items == rest + [i] && i in items;
      NothingTight(items, cap);
      var w := Place(rest, i, cap, all, {});
      var front := Assign(rest, Less(cap, w), all);
      assignment := front + [w];
      assert assignment[..|front|] == front;
    }
  }

  lemma NothingTight(items: seq<Item>, cap: Capacity)
    requires AllHavePorts(items)
    ensures Tight(items, cap, {})
  {
    NoDemand(items);
  }

  lemma {:induction false} NoDemand(items: seq<Item>)
    ensures Demand(items, {}) == 0.0
  {
    if items != [] {
      NoDemand(items[..|items| - 1]);
    }
  }

  // The optimum

  function AllPorts(items: seq<Item>): (r: set<Port>)
    ensures forall i :: i in items ==> i.ports <= r
  {
    if items == [] then {}
    else
      var front, last := items[..|items| - 1], items[|items| - 1];
      assert items == front + [last];
      AllPorts(front) + last.ports
  }

  lemma {:induction false} SumConstant(s: set<Port>, x: real)
    ensures SumOver(s, (_: Port) => x) == Times(|s|, x)
  {
    hide Times;
    if s == {} {
      TimesZero(x);
    } else {
      var p :| p in s;
      SumPick(s, (_: Port) => x, p);
      SumConstant(s - {p}, x);
      TimesNext(|s| - 1, x);
    }
  }

  lemma DemandBelow(items: seq<Item>, c: set<Port>, m: real)
    requires Density(items, c) <= m
    ensures Demand(items, c) <= Times(|c|, m)
  {
    if c == {} {
      NoDemand(items);
    } else {
      DensityDemand(items, c);
      assert |c| as real * Density(items, c) <= |c| as real * m;
    }
  }

  /** Some assignment loads no port with more than the largest density of a set of ports. */
  lemma BestAssignment(items: seq<Item>, m: real) returns (assignment: seq<Port -> real>)
    requires NonNegative(items) && AllHavePorts(items) && IsLargestDensity(items, m)
    ensures Serves(items, assignment) && forall p :: Load(assignment)(p) <= m
  {
    hide SumOver, Demand, Density, Times;
    var cap: Capacity := _ => m;
    forall c | c <= AllPorts(items)
      ensures Demand(items, c) <= SumOver(c, cap)
    {
      SumConstant(c, m);
      SumSame(c, cap, (_: Port) => m);
      DemandBelow(items, c, m);
    }
    assignment := Assign(items, cap, AllPorts(items));
  }

  /** And every assignment loads some port with at least that. */
  lemma NoBetterAssignment(items: seq<Item>, m: real, assignment: seq<Port -> real>) returns (p: Port)
    requires IsLargestDensity(items, m) && Serves(items, assignment)
    ensures Load(assignment)(p) >= m
  {
    hide Density, Load, Serves;
    if m == 0.0 {
      p := '0';
      LoadNonNegative(items, assignment, p);
    } else {
      var c :| c != {} && Density(items, c) == m;
      p := SomePortCarries(items, c, assignment);
    }
  }
}

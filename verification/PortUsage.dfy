/** The port-usage bound (`compute_port_usage_limit`, `computePortUsageLimit`): a bound that no assignment of uops to
    ports can beat. */
module PortUsage {
  type Port = char

  /** Some uops that can each go to any of the ports of a set. */
  datatype Item = Item(ports: set<Port>, uops: real)

  function AllItems(instructions: seq<seq<Item>>): seq<Item> {
    if instructions == [] then [] else AllItems(instructions[..|instructions| - 1]) + instructions[|instructions| - 1]
  }

  function Share(i: Item, c: set<Port>): real {
    if i.ports != {} && i.ports <= c then i.uops else 0.0
  }

  /** The uops that cannot leave the ports of a set. */
  function Demand(items: seq<Item>, c: set<Port>): real {
    if items == [] then 0.0 else Demand(items[..|items| - 1], c) + Share(items[|items| - 1], c)
  }

  ghost predicate NonNegative(items: seq<Item>) {
    forall i :: i in items ==> i.uops >= 0.0
  }

  predicate HasPorts(items: seq<Item>, s: set<Port>) {
    s != {} && exists i :: i in items && i.ports == s
  }

  function Density(items: seq<Item>, c: set<Port>): real {
    if c == {} then 0.0 else Demand(items, c) / |c| as real
  }

  /** The largest density of the union of two of the port sets, or zero. */
  ghost predicate IsLimit(items: seq<Item>, limit: real) {
    && limit >= 0.0
    && (forall a, b :: HasPorts(items, a) && HasPorts(items, b) ==> Density(items, a + b) <= limit)
    && (limit == 0.0 || exists a, b :: Attains(items, a, b, limit))
  }

  predicate Attains(items: seq<Item>, a: set<Port>, b: set<Port>, limit: real) {
    HasPorts(items, a) && HasPorts(items, b) && Density(items, a + b) == limit
  }

  // Merging items with equal port sets

  lemma {:induction false} DemandConcat(a: seq<Item>, b: seq<Item>, c: set<Port>)
    ensures Demand(a + b, c) == Demand(a, c) + Demand(b, c)
  {
    if b == [] {
      assert a + b == a;
    } else {
      assert (a + b)[..|a + b| - 1] == a + b[..|b| - 1];
      DemandConcat(a, b[..|b| - 1], c);
    }
  }

  lemma {:induction false} DemandUpdate(items: seq<Item>, k: nat, i: Item, c: set<Port>)
    requires k < |items|
    ensures Demand(items[k := i], c) == Demand(items, c) - Share(items[k], c) + Share(i, c)
  {
    var last := |items| - 1;
    if k == last {
      assert items[k := i][..last] == items[..last];
    } else {
      assert items[k := i][..last] == items[..last][k := i];
      DemandUpdate(items[..last], k, i, c);
    }
  }

  /** The merged list says the same about every set of ports. */
  ghost predicate Merged(usage: seq<Item>, items: seq<Item>) {
    && (forall c :: Demand(usage, c) == Demand(items, c))
    && (forall s :: HasPorts(usage, s) <==> HasPorts(items, s))
    && (forall i :: i in usage ==> i.ports != {})
  }

  lemma DensitySame(a: seq<Item>, b: seq<Item>, c: set<Port>)
    requires Demand(a, c) == Demand(b, c)
    ensures Density(a, c) == Density(b, c)
  {}

  lemma MergedSame(usage: seq<Item>, items: seq<Item>, limit: real)
    requires Merged(usage, items) && IsLimit(usage, limit)
    ensures IsLimit(items, limit)
  {
    hide Demand, HasPorts, Density;
    forall a, b | HasPorts(items, a) && HasPorts(items, b)
      ensures Density(items, a + b) <= limit
    {
      DensitySame(usage, items, a + b);
    }
    if limit != 0.0 {
      var a, b :| Attains(usage, a, b, limit);
      DensitySame(usage, items, a + b);
      assert Attains(items, a, b, limit);
    }
  }

  lemma MergeInto(usage: seq<Item>, items: seq<Item>, i: Item, k: nat)
    requires Merged(usage, items) && k < |usage| && usage[k].ports == i.ports && i.ports != {}
    ensures Merged(usage[k := Item(i.ports, usage[k].uops + i.uops)], items + [i])
  {
    var after := usage[k := Item(i.ports, usage[k].uops + i.uops)];
    forall c: set<Port>
      ensures Demand(after, c) == Demand(items + [i], c)
    {
      DemandUpdate(usage, k, after[k], c);
      assert (items + [i])[..|items|] == items;
    }
    forall s: set<Port>
      ensures HasPorts(after, s) <==> HasPorts(items + [i], s)
    {
      SamePorts(usage, after, k, s);
      PortsSnoc(items, i, s);
      assert usage[k] in usage;
    }
    assert forall j :: j in after ==> j == after[k] || j in usage;
  }

  lemma SamePorts(usage: seq<Item>, after: seq<Item>, k: nat, s: set<Port>)
    requires k < |usage| == |after| && after == usage[k := after[k]] && after[k].ports == usage[k].ports
    ensures HasPorts(after, s) <==> HasPorts(usage, s)
  {
    forall j | 0 <= j < |usage|
      ensures after[j].ports == usage[j].ports && after[j] in after && usage[j] in usage
    {}
    if i :| i in usage && i.ports == s {
      var j :| 0 <= j < |usage| && usage[j] == i;
      assert after[j] in after;
    }
    if i :| i in after && i.ports == s {
      var j :| 0 <= j < |after| && after[j] == i;
      assert usage[j] in usage;
    }
  }

  lemma PortsSnoc(items: seq<Item>, i: Item, s: set<Port>)
    ensures HasPorts(items + [i], s) <==> HasPorts(items, s) || (s != {} && s == i.ports)
  {
    assert i in items + [i];
    if HasPorts(items, s) {
      var j :| j in items && j.ports == s;
      assert j in items + [i];
    }
  }

  lemma MergeNew(usage: seq<Item>, items: seq<Item>, i: Item)
    requires Merged(usage, items) && i.ports != {}
    ensures Merged(usage + [i], items + [i])
  {
    hide HasPorts;
    forall c: set<Port>
      ensures Demand(usage + [i], c) == Demand(items + [i], c)
    {
      assert (usage + [i])[..|usage|] == usage && (items + [i])[..|items|] == items;
    }
    forall s: set<Port>
      ensures HasPorts(usage + [i], s) <==> HasPorts(items + [i], s)
    {
      PortsSnoc(items, i, s);
      PortsSnoc(usage, i, s);
    }
  }

  lemma MergeEmpty(usage: seq<Item>, items: seq<Item>, i: Item)
    requires Merged(usage, items) && i.ports == {}
    ensures Merged(usage, items + [i])
  {
    hide HasPorts;
    forall c: set<Port>
      ensures Demand(usage, c) == Demand(items + [i], c)
    {
      assert (items + [i])[..|items|] == items;
    }
    forall s: set<Port>
      ensures HasPorts(usage, s) <==> HasPorts(items + [i], s)
    {
      PortsSnoc(items, i, s);
    }
  }

  /** Adds an item to the list, merged with an earlier one that has the same ports. */
  method Add(usage0: seq<Item>, i: Item, ghost items: seq<Item>) returns (usage: seq<Item>)
    requires Merged(usage0, items)
    ensures Merged(usage, items + [i])
  {
    hide Merged;
    usage := usage0;
    if i.ports == {} {
      MergeEmpty(usage, items, i);
      return;
    }
    for k := 0 to |usage|
      invariant usage == usage0
    {
      if usage[k].ports == i.ports {
        MergeInto(usage, items, i, k);
        usage := usage[k := Item(i.ports, usage[k].uops + i.uops)];
        return;
      }
    }
    MergeNew(usage, items, i);
    usage := usage + [i];
  }

  method Merge(instructions: seq<seq<Item>>) returns (usage: seq<Item>)
    ensures Merged(usage, AllItems(instructions))
  {
    hide Merged;
    usage := [];
    NothingMerged();
    assert instructions[..0] == [];
    for n := 0 to |instructions|
      invariant Merged(usage, AllItems(instructions[..n]))
    {
      var portData := instructions[n];
      ghost var before := AllItems(instructions[..n]);
      assert instructions[..n + 1][..n] == instructions[..n];
      assert before + portData[..0] == before;
      for k := 0 to |portData|
        invariant Merged(usage, before + portData[..k])
      {
        assert before + portData[..k + 1] == before + portData[..k] + [portData[k]];
        usage := Add(usage, portData[k], before + portData[..k]);
      }
      assert portData[..|portData|] == portData;
    }
    assert instructions[..|instructions|] == instructions;
  }

  lemma NothingMerged()
    ensures Merged([], [])
  {}

  method ComputeDemand(usage: seq<Item>, c: set<Port>) returns (total: real)
    requires forall i :: i in usage ==> i.ports != {}
    ensures total == Demand(usage, c)
  {
    total := 0.0;
    assert usage[..|usage|] == usage;
    for k := 0 to |usage|
      invariant total == Demand(usage[..k], c)
    {
      assert usage[..k + 1][..k] == usage[..k];
      if usage[k].ports <= c {
        total := total + usage[k].uops;
      }
    }
  }

  /** The limit over the pairs looked at so far. */
  ghost predicate LimitSoFar(usage: seq<Item>, limit: real, m: nat, n: nat) {
    && limit >= 0.0 && m <= |usage| && n <= |usage|
    && (forall j, k :: 0 <= j < |usage| && 0 <= k < |usage| && (j < m || (j == m && k < n)) ==>
          Density(usage, usage[j].ports + usage[k].ports) <= limit)
    && (limit == 0.0 || exists a, b :: Attains(usage, a, b, limit))
  }

  lemma FirstPair(usage: seq<Item>)
    ensures LimitSoFar(usage, 0.0, 0, 0)
  {}

  lemma NextPair(usage: seq<Item>, limit: real, m: nat, n: nat)
    requires LimitSoFar(usage, limit, m, n) && m < |usage| && n < |usage| && forall i :: i in usage ==> i.ports != {}
    ensures var d := Density(usage, usage[m].ports + usage[n].ports);
            LimitSoFar(usage, if d > limit then d else limit, m, n + 1)
  {
    hide Density;
    var d := Density(usage, usage[m].ports + usage[n].ports);
    if d > limit {
      assert usage[m] in usage && usage[n] in usage;
      assert Attains(usage, usage[m].ports, usage[n].ports, d);
    }
  }

  lemma NextRow(usage: seq<Item>, limit: real, m: nat)
    requires LimitSoFar(usage, limit, m, |usage|) && m < |usage|
    ensures LimitSoFar(usage, limit, m + 1, 0)
  {
    hide Density, Attains;
  }

  lemma AllPairs(usage: seq<Item>, limit: real)
    requires LimitSoFar(usage, limit, |usage|, 0)
    ensures IsLimit(usage, limit)
  {
    hide Density, Attains;
    forall a, b | HasPorts(usage, a) && HasPorts(usage, b)
      ensures Density(usage, a + b) <= limit
    {
      var i, j :| i in usage && j in usage && i.ports == a && j.ports == b;
      var m :| 0 <= m < |usage| && usage[m] == i;
      var n :| 0 <= n < |usage| && usage[n] == j;
    }
  }

  method ComputePortUsageLimit(instructions: seq<seq<Item>>) returns (limit: real)
    ensures IsLimit(AllItems(instructions), limit)
  {
    hide Density, LimitSoFar, IsLimit;
    var usage := Merge(instructions);
    limit := 0.0;
    FirstPair(usage);
    for m := 0 to |usage|
      invariant LimitSoFar(usage, limit, m, 0)
    {
      for n := 0 to |usage|
        invariant LimitSoFar(usage, limit, m, n)
      {
        var candidate := usage[m].ports + usage[n].ports;
        var total := ComputeDemand(usage, candidate);
        NextPair(usage, limit, m, n);
        TotalDensity(usage, usage[m].ports, usage[n].ports);
        if total / |candidate| as real > limit {
          limit := total / |candidate| as real;
        }
      }
      NextRow(usage, limit, m);
    }
    AllPairs(usage, limit);
    MergedSame(usage, AllItems(instructions), limit);
  }

  lemma TotalDensity(usage: seq<Item>, a: set<Port>, b: set<Port>)
    requires a != {}
    ensures |a + b| > 0 && Density(usage, a + b) == Demand(usage, a + b) / |a + b| as real
  {
    var p :| p in a;
    assert p in a + b;
  }

  // No assignment beats the bound

  /** The sum of weights over a set of ports. */
  ghost function SumOver(s: set<Port>, w: Port -> real): real {
    if s == {} then 0.0
    else
      var p :| p in s;
      w(p) + SumOver(s - {p}, w)
  }

  lemma {:induction false} SumPick(s: set<Port>, w: Port -> real, x: Port)
    requires x in s
    ensures SumOver(s, w) == w(x) + SumOver(s - {x}, w)
  {
    var p :| p in s && SumOver(s, w) == w(p) + SumOver(s - {p}, w);
    if p != x {
      SumPick(s - {p}, w, x);
      SumPick(s - {x}, w, p);
      assert s - {p} - {x} == s - {x} - {p};
    }
  }

  lemma {:induction false} SumAdd(s: set<Port>, u: Port -> real, v: Port -> real, w: Port -> real)
    requires forall p :: w(p) == u(p) + v(p)
    ensures SumOver(s, w) == SumOver(s, u) + SumOver(s, v)
  {
    if s != {} {
      var p :| p in s;
      SumPick(s, u, p);
      SumPick(s, v, p);
      SumPick(s, w, p);
      SumAdd(s - {p}, u, v, w);
    }
  }

  lemma {:induction false} SumNonNegative(s: set<Port>, w: Port -> real)
    requires forall p :: w(p) >= 0.0
    ensures SumOver(s, w) >= 0.0
  {
    if s != {} {
      var p :| p in s;
      SumPick(s, w, p);
      SumNonNegative(s - {p}, w);
    }
  }

  lemma {:induction false} SumSubset(s: set<Port>, t: set<Port>, w: Port -> real)
    requires s <= t && forall p :: w(p) >= 0.0
    ensures SumOver(s, w) <= SumOver(t, w)
  {
    if s == {} {
      SumNonNegative(t, w);
    } else {
      var p :| p in s;
      SumPick(s, w, p);
      SumPick(t, w, p);
      SumSubset(s - {p}, t - {p}, w);
    }
  }

  function Times(n: nat, x: real): real {
    n as real * x
  }

  lemma TimesNext(n: nat, x: real)
    ensures Times(n + 1, x) == Times(n, x) + x
  {}

  lemma {:induction false} SumBelow(s: set<Port>, w: Port -> real, bound: real)
    requires s != {} && forall p :: p in s ==> w(p) < bound
    ensures SumOver(s, w) < Times(|s|, bound)
  {
    hide Times;
    var p :| p in s;
    SumPick(s, w, p);
    TimesNext(|s| - 1, bound);
    if s == {p} {
      assert s - {p} == {};
      assert Times(0, bound) == 0.0 by {
        TimesZero(bound);
      }
    } else {
      assert s - {p} != {};
      SumBelow(s - {p}, w, bound);
    }
  }

  lemma TimesZero(x: real)
    ensures Times(0, x) == 0.0
  {}

  /** An assignment gives all uops of each item to ports of the item. */
  ghost predicate Serves(items: seq<Item>, assignment: seq<Port -> real>) {
    |assignment| == |items| &&
    forall k :: 0 <= k < |items| ==> ServesItem(items[k], assignment[k])
  }

  ghost predicate ServesItem(i: Item, w: Port -> real) {
    (forall p :: w(p) >= 0.0) && SumOver(i.ports, w) == i.uops
  }

  ghost function Load(assignment: seq<Port -> real>): Port -> real {
    if assignment == [] then ((_: Port) => 0.0)
    else
      var front, last := Load(assignment[..|assignment| - 1]), assignment[|assignment| - 1];
      (p: Port) => front(p) + last(p)
  }

  lemma {:induction false} LoadCoversDemand(items: seq<Item>, assignment: seq<Port -> real>, c: set<Port>)
    requires Serves(items, assignment)
    ensures SumOver(c, Load(assignment)) >= Demand(items, c)
  {
    if items == [] {
      SumNonNegative(c, Load(assignment));
    } else {
      var n := |items| - 1;
      LoadCoversDemand(items[..n], assignment[..n], c);
      SumAdd(c, Load(assignment[..n]), assignment[n], Load(assignment));
      assert ServesItem(items[n], assignment[n]);
      if items[n].ports <= c {
        SumSubset(items[n].ports, c, assignment[n]);
      }
      SumNonNegative(c, assignment[n]);
    }
  }

  lemma DensityDemand(items: seq<Item>, c: set<Port>)
    requires c != {}
    ensures |c| > 0 && Times(|c|, Density(items, c)) == Demand(items, c)
  {}

  lemma {:induction false} LoadNonNegative(items: seq<Item>, assignment: seq<Port -> real>, p: Port)
    requires Serves(items, assignment)
    ensures Load(assignment)(p) >= 0.0
  {
    if items != [] {
      var n := |items| - 1;
      LoadNonNegative(items[..n], assignment[..n], p);
      assert ServesItem(items[n], assignment[n]);
    }
  }

  /** Whatever the assignment, some port of a set receives at least the density of the set. */
  lemma SomePortCarries(items: seq<Item>, c: set<Port>, assignment: seq<Port -> real>) returns (p: Port)
    requires Serves(items, assignment) && c != {}
    ensures p in c && Load(assignment)(p) >= Density(items, c)
  {
    hide Density, Demand, Load, Times, SumOver, Serves;
    var d := Density(items, c);
    LoadCoversDemand(items, assignment, c);
    DensityDemand(items, c);
    if forall q :: q in c ==> Load(assignment)(q) < d {
      SumBelow(c, Load(assignment), d);
      assert false;
    }
    p :| p in c && Load(assignment)(p) >= d;
  }

  /** Whatever the assignment, some port receives at least as many uops as the limit says. */
  lemma NoAssignmentBeatsLimit(items: seq<Item>, limit: real, assignment: seq<Port -> real>) returns (p: Port)
    requires IsLimit(items, limit) && Serves(items, assignment)
    ensures Load(assignment)(p) >= limit
  {
    hide Density, Demand, Load, Serves;
    if limit == 0.0 {
      p := '0';
      LoadNonNegative(items, assignment, p);
    } else {
      var a, b :| Attains(items, a, b, limit);
      TotalDensity(items, a, b);
      p := SomePortCarries(items, a + b, assignment);
    }
  }

  // The order of the instructions does not matter

  lemma Cancel(x: multiset<Item>, y: multiset<Item>, i: Item, z: multiset<Item>)
    requires x + multiset{i} == y + multiset{i} + z
    ensures x == y + z
  {
    forall e: Item
      ensures x[e] == (y + z)[e]
    {
      assert (x + multiset{i})[e] == (y + multiset{i} + z)[e];
    }
  }

  lemma OneDemand(i: Item, c: set<Port>)
    ensures Demand([i], c) == Share(i, c)
  {
    assert [i][..0] == [];
  }

  lemma {:induction false} DemandReordered(a: seq<Item>, b: seq<Item>, c: set<Port>)
    requires multiset(a) == multiset(b)
    ensures Demand(a, c) == Demand(b, c)
  {
    if a == [] {
      assert |multiset(a)| == |a| && |multiset(b)| == |b|;
    } else {
      var front, last := a[..|a| - 1], a[|a| - 1];
      assert a == front + [last];
      assert last in multiset(b);
      var j :| 0 <= j < |b| && b[j] == last;
      assert b == b[..j] + ([last] + b[j + 1..]);
      assert multiset(b) == multiset(b[..j]) + multiset([last]) + multiset(b[j + 1..]);
      assert multiset(a) == multiset(front) + multiset([last]);
      Cancel(multiset(front), multiset(b[..j]), last, multiset(b[j + 1..]));
      assert multiset(b[..j] + b[j + 1..]) == multiset(b[..j]) + multiset(b[j + 1..]);
      DemandReordered(front, b[..j] + b[j + 1..], c);
      DemandConcat(b[..j], [last] + b[j + 1..], c);
      DemandConcat([last], b[j + 1..], c);
      DemandConcat(b[..j], b[j + 1..], c);
      OneDemand(last, c);
    }
  }

  /** The limit depends neither on the order of the items nor on how they are merged. */
  lemma LimitReordered(a: seq<Item>, b: seq<Item>, limit: real, other: real)
    requires multiset(a) == multiset(b) && IsLimit(a, limit) && IsLimit(b, other)
    ensures limit == other
  {
    hide Demand, HasPorts, Density;
    forall s: set<Port>
      ensures HasPorts(a, s) <==> HasPorts(b, s)
      ensures Density(a, s) == Density(b, s)
    {
      DemandReordered(a, b, s);
      DensitySame(a, b, s);
      PortsReordered(a, b, s);
    }
    if limit != 0.0 {
      var x, y :| Attains(a, x, y, limit);
    }
    if other != 0.0 {
      var x, y :| Attains(b, x, y, other);
    }
  }

  lemma PortsReordered(a: seq<Item>, b: seq<Item>, s: set<Port>)
    requires multiset(a) == multiset(b)
    ensures HasPorts(a, s) <==> HasPorts(b, s)
  {
    assert forall i :: i in a <==> i in multiset(a);
    assert forall i :: i in b <==> i in multiset(b);
  }
}

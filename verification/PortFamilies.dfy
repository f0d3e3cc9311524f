/** When the port-usage bound, which looks at the unions of two port sets only, is the optimum. */
module PortFamilies {
  import opened PortUsage
  import opened PortAssignment
  import opened PortScaling

  type Family = set<set<Port>>

  function Union(g: Family): set<Port> {
    set s, p | s in g && p in s :: p
  }

  /** The sets hang together: however they are divided in two, the parts share a port. */
  ghost predicate Linked(g: Family) {
    g != {} && forall a: Family, b: Family :: Divides(a, b, g) ==> Union(a) * Union(b) != {}
  }

  predicate Divides(a: Family, b: Family, g: Family) {
    a + b == g && a * b == {} && a != {} && b != {}
  }

  /** The union of linked sets of the family is always the union of at most two of its sets. */
  ghost predicate PairsSuffice(f: Family) {
    forall g: Family :: g <= f && Linked(g) ==> IsPair(f, Union(g))
  }

  ghost predicate IsPair(f: Family, c: set<Port>) {
    exists a, b :: a in f && b in f && a + b == c
  }

  /** Items whose port sets are those of the family. */
  ghost predicate Over(items: seq<Item>, f: Family) {
    NonNegative(items) && AllHavePorts(items) && forall s :: HasPorts(items, s) <==> s in f
  }

  // Demand of a part of the family

  function DemandIn(items: seq<Item>, g: Family): real {
    if items == [] then 0.0
    else DemandIn(items[..|items| - 1], g) + if items[|items| - 1].ports in g then items[|items| - 1].uops else 0.0
  }

  lemma {:induction false} DemandInSplit(items: seq<Item>, a: Family, b: Family, g: Family)
    requires a + b == g && a * b == {}
    ensures DemandIn(items, g) == DemandIn(items, a) + DemandIn(items, b)
  {
    if items != [] {
      DemandInSplit(items[..|items| - 1], a, b, g);
      var s := items[|items| - 1].ports;
      assert s in g <==> s in a || s in b;
      assert s in a * b <==> s in a && s in b;
    }
  }

  lemma {:induction false} DemandInBelow(items: seq<Item>, g: Family, c: set<Port>)
    requires NonNegative(items) && AllHavePorts(items) && forall s :: s in g ==> s <= c
    ensures DemandIn(items, g) <= Demand(items, c)
  {
    if items != [] {
      DemandInBelow(items[..|items| - 1], g, c);
      assert items[|items| - 1] in items;
    }
  }

  lemma {:induction false} DemandIsIn(items: seq<Item>, g: Family, c: set<Port>)
    requires AllHavePorts(items) && forall i :: i in items ==> (i.ports in g <==> i.ports <= c)
    ensures DemandIn(items, g) == Demand(items, c)
  {
    if items != [] {
      DemandIsIn(items[..|items| - 1], g, c);
      assert items[|items| - 1] in items;
    }
  }

  function Ratio(items: seq<Item>, g: Family): real {
    if Union(g) == {} then 0.0 else DemandIn(items, g) / |Union(g)| as real
  }

  /** One of two parts is at least as dense as both together. */
  lemma Mediant(x: real, y: real, m: real, n: real)
    requires m > 0.0 && n > 0.0
    ensures x / m >= (x + y) / (m + n) || y / n >= (x + y) / (m + n)
  {
    var q, r, t := x / m, y / n, (x + y) / (m + n);
    assert x == q * m && y == r * n && x + y == t * (m + n);
    NotBothBelow(q, r, t, m, n);
  }

  lemma NotBothBelow(q: real, r: real, t: real, m: real, n: real)
    requires m > 0.0 && n > 0.0 && q * m + r * n == t * (m + n)
    ensures q >= t || r >= t
  {
    Distribute(t, m, n);
    if q < t && r < t {
      Smaller(q, t, m);
      Smaller(r, t, n);
    }
  }

  lemma Distribute(t: real, m: real, n: real)
    ensures t * (m + n) == t * m + t * n
  {}

  lemma Smaller(a: real, b: real, m: real)
    requires a < b && m > 0.0
    ensures a * m < b * m
  {}

  lemma UnionParts(a: Family, b: Family, g: Family)
    requires a + b == g && Union(a) * Union(b) == {}
    ensures Union(g) == Union(a) + Union(b) && |Union(g)| == |Union(a)| + |Union(b)|
  {
    assert Union(g) == Union(a) + Union(b);
  }

  lemma PartSmaller(a: Family, b: Family, g: Family)
    requires Divides(a, b, g)
    ensures |a| < |g| && |b| < |g| && a <= g && b <= g
  {
    assert |a + b| == |a| + |b|;
  }

  lemma UnionNotEmpty(g: Family)
    requires g != {} && {} !in g
    ensures Union(g) != {}
  {
    var s :| s in g;
    assert s != {};
    var p :| p in s;
    assert p in Union(g);
  }

  /** Some linked part is at least as dense as the whole. */
  lemma {:induction false} DenseLinkedPart(items: seq<Item>, g: Family) returns (h: Family)
    requires g != {} && {} !in g
    ensures h <= g && Linked(h) && Ratio(items, h) >= Ratio(items, g)
    decreases |g|
  {
    hide DemandIn, Ratio, Union;
    if Linked(g) {
      h := g;
    } else {
      var a: Family, b: Family :| Divides(a, b, g) && Union(a) * Union(b) == {};
      PartSmaller(a, b, g);
      var denser := DenserPart(items, a, b, g);
      h := DenseLinkedPart(items, denser);
    }
  }

  lemma DenserPart(items: seq<Item>, a: Family, b: Family, g: Family) returns (h: Family)
    requires Divides(a, b, g) && Union(a) * Union(b) == {} && {} !in g
    ensures (h == a || h == b) && Ratio(items, h) >= Ratio(items, g)
  {
    hide DemandIn;
    DemandInSplit(items, a, b, g);
    UnionParts(a, b, g);
    UnionNotEmpty(a);
    UnionNotEmpty(b);
    hide Union;
    Mediant(DemandIn(items, a), DemandIn(items, b), |Union(a)| as real, |Union(b)| as real);
    h := if Ratio(items, a) >= Ratio(items, g) then a else b;
  }

  lemma RatioBelow(items: seq<Item>, g: Family, c: set<Port>)
    requires NonNegative(items) && AllHavePorts(items) && c == Union(g) && c != {}
    ensures Ratio(items, g) <= Density(items, c)
  {
    DemandInBelow(items, g, c);
    hide DemandIn, Demand, Union;
    Scaled(DemandIn(items, g), Demand(items, c), |c| as real);
  }

  lemma Scaled(x: real, y: real, n: real)
    requires x <= y && n > 0.0
    ensures x / n <= y / n
  {
    var q, r := x / n, y / n;
    assert q * n == x && r * n == y;
    if q > r {
      Smaller(r, q, n);
    }
  }

  lemma Divided(x: real, m: real, n: real)
    requires x >= 0.0 && 0.0 < m <= n
    ensures x / n <= x / m
  {
    var q, r := x / n, x / m;
    assert q * n == x && r * m == x && q >= 0.0;
    MoreTimes(q, m, n);
    if q > r {
      Smaller(r, q, m);
    }
  }

  lemma MoreTimes(q: real, m: real, n: real)
    requires q >= 0.0 && m <= n
    ensures q * m <= q * n
  {
  }

  // Enough pairs

  lemma DensestPair(items: seq<Item>, f: Family, limit: real, c: set<Port>)
    requires Over(items, f) && {} !in f && PairsSuffice(f) && IsLimit(items, limit) && c != {}
    ensures Density(items, c) <= limit
  {
    var g := set s | s in f && s <= c;
    SetsOfItems(items, f, g, c);
    DemandIsIn(items, g, c);
    hide Demand, DemandIn;
    if g == {} {
      NothingIn(items);
    } else {
      var h := DenseLinkedPart(items, g);
      UnionNotEmpty(g);
      UnionNotEmpty(h);
      UnionInside(g, c);
      assert IsPair(f, Union(h));
      var a, b :| a in f && b in f && a + b == Union(h);
      RatioBelow(items, h, Union(h));
      hide Union;
      DemandNonNegative(items, c);
      SmallerSet(Union(g), c);
      Divided(Demand(items, c), |Union(g)| as real, |c| as real);
    }
  }

  lemma SetsOfItems(items: seq<Item>, f: Family, g: Family, c: set<Port>)
    requires Over(items, f) && g == set s | s in f && s <= c
    ensures forall i :: i in items ==> (i.ports in g <==> i.ports <= c)
  {
    forall i | i in items
      ensures i.ports in f
    {
      assert HasPorts(items, i.ports);
    }
  }

  lemma {:induction false} NothingIn(items: seq<Item>)
    ensures DemandIn(items, {}) == 0.0
  {
    if items != [] {
      NothingIn(items[..|items| - 1]);
    }
  }

  lemma UnionInside(g: Family, c: set<Port>)
    requires forall s :: s in g ==> s <= c
    ensures Union(g) <= c
  {}

  // Too few pairs

  /** How many of the listed sets are in the part `g`, hold the port, and lie within `c`. */
  function Count(sets: seq<set<Port>>, g: Family, c: set<Port>, p: Port): nat {
    if sets == [] then 0
    else
      var s := sets[|sets| - 1];
      Count(sets[..|sets| - 1], g, c, p) + if s in g && s <= c && p in s then 1 else 0
  }

  function Inverse(n: nat): real {
    if n == 0 then 0.0 else 1.0 / n as real
  }

  /** The weight with which a set of `g` counts at each of its ports: all sets that hold a port share it evenly. */
  function Part(sets: seq<set<Port>>, g: Family): Capacity {
    p => Inverse(Count(sets, g, Union(g), p))
  }

  ghost function Weighted(sets: seq<set<Port>>, all: seq<set<Port>>, g: Family): seq<Item> {
    if sets == [] then []
    else
      var s := sets[|sets| - 1];
      Weighted(sets[..|sets| - 1], all, g) + [Item(s, if s in g then SumOver(s, Part(all, g)) else 0.0)]
  }

  /** What the sets of `g` within `c` put on each port. */
  function LoadWithin(sets: seq<set<Port>>, all: seq<set<Port>>, g: Family, c: set<Port>): Capacity {
    p => Times(Count(sets, g, c, p), Part(all, g)(p))
  }

  lemma {:induction false} DemandIsLoad(sets: seq<set<Port>>, all: seq<set<Port>>, g: Family, c: set<Port>)
    requires {} !in sets
    ensures Demand(Weighted(sets, all, g), c) == SumOver(c, LoadWithin(sets, all, g, c))
  {
    hide SumOver, Part, Times;
    if sets == [] {
      forall p ensures LoadWithin(sets, all, g, c)(p) == 0.0 {
        TimesZero(Part(all, g)(p));
      }
      SumZero(c, LoadWithin(sets, all, g, c));
    } else {
      var front, s := sets[..|sets| - 1], sets[|sets| - 1];
      DemandIsLoad(front, all, g, c);
      var x := if s in g then SumOver(s, Part(all, g)) else 0.0;
      DemandLast(Weighted(front, all, g), Item(s, x), c);
      assert s in sets;
      OneMoreLoad(front, s, sets, all, g, c);
    }
  }

  lemma OneMoreLoad(front: seq<set<Port>>, s: set<Port>, sets: seq<set<Port>>, all: seq<set<Port>>, g: Family,
                    c: set<Port>)
    requires sets == front + [s] && s != {}
    ensures SumOver(c, LoadWithin(sets, all, g, c)) ==
            SumOver(c, LoadWithin(front, all, g, c)) +
            if s <= c && s in g then SumOver(s, Part(all, g)) else 0.0
  {
    hide SumOver, Part, Times;
    assert sets[..|sets| - 1] == front;
    var more: Capacity := p => if s in g && s <= c && p in s then Part(all, g)(p) else 0.0;
    forall p
      ensures LoadWithin(sets, all, g, c)(p) == LoadWithin(front, all, g, c)(p) + more(p)
    {
      TimesNext(Count(front, g, c, p), Part(all, g)(p));
    }
    SumAdd(c, LoadWithin(front, all, g, c), more, LoadWithin(sets, all, g, c));
    if s <= c && s in g {
      SumWithin(s, c, Part(all, g), more);
    } else {
      SumZero(c, more);
    }
  }

  lemma SumWithin(s: set<Port>, c: set<Port>, w: Capacity, more: Capacity)
    requires s <= c && forall p :: more(p) == if p in s then w(p) else 0.0
    ensures SumOver(c, more) == SumOver(s, w)
  {
    hide SumOver;
    SumUnion(s, c - s, more);
    assert s + (c - s) == c && s * (c - s) == {};
    SumZero({}, more);
    SumZero(c - s, more);
    SumSame(s, more, w);
  }

  lemma {:induction false} CountWithin(sets: seq<set<Port>>, g: Family, c: set<Port>, p: Port)
    ensures Count(sets, g, c, p) <= Count(sets, g, Union(g), p)
    ensures Count(sets, g, c, p) == Count(sets, g, Union(g), p) ==>
              forall s :: s in sets && s in g && p in s ==> s <= c
  {
    hide Union;
    if sets != [] {
      var front, last := sets[..|sets| - 1], sets[|sets| - 1];
      assert sets == front + [last];
      CountWithin(front, g, c, p);
      if last in g {
        MemberInside(g, last);
      }
    }
  }

  lemma MemberInside(g: Family, s: set<Port>)
    requires s in g
    ensures s <= Union(g)
  {}

  lemma {:induction false} CountPositive(sets: seq<set<Port>>, g: Family, p: Port, s: set<Port>)
    requires s in sets && s in g && p in s
    ensures Count(sets, g, Union(g), p) > 0
  {
    hide Union;
    MemberInside(g, s);
    var front, last := sets[..|sets| - 1], sets[|sets| - 1];
    assert sets == front + [last];
    if s != last {
      CountPositive(front, g, p, s);
    }
  }

  lemma {:induction false} CountOne(sets: seq<set<Port>>, g: Family, c: set<Port>, p: Port)
    ensures Count(sets, g, c, p) > 0 ==> exists s :: s in sets && s in g && s <= c && p in s
  {
    if sets != [] {
      var front, last := sets[..|sets| - 1], sets[|sets| - 1];
      assert sets == front + [last];
      CountOne(front, g, c, p);
    }
  }

  lemma FullAt(n: nat, m: nat)
    requires n <= m
    ensures Times(n, Inverse(m)) <= 1.0
    ensures Times(n, Inverse(m)) == 1.0 <==> n == m && m > 0
  {
    if m > 0 {
      var x := Inverse(m);
      assert x * m as real == 1.0 && x > 0.0;
      assert Times(m, x) == 1.0;
      if n < m {
        Smaller(n as real, m as real, x);
      }
    }
  }

  /** No set of ports has a density of more than one, and only the union of `g` has a density of one. */
  lemma OnlyUnionDense(sets: seq<set<Port>>, f: Family, g: Family, c: set<Port>)
    requires (forall s :: s in sets <==> s in f) && g <= f && {} !in f && Linked(g) && c != {}
    ensures Density(Weighted(sets, sets, g), c) <= 1.0
    ensures Density(Weighted(sets, sets, g), c) == 1.0 <==> c == Union(g)
  {
    hide Demand, SumOver, Count, Times, Density, Inverse, Linked, Weighted;
    var items, load := Weighted(sets, sets, g), LoadWithin(sets, sets, g, c);
    DemandIsLoad(sets, sets, g, c);
    forall p
      ensures load(p) <= 1.0
      ensures load(p) == 1.0 <==> FullPort(sets, g, c, p)
    {
      CountWithin(sets, g, c, p);
      assert Part(sets, g)(p) == Inverse(Count(sets, g, Union(g), p));
      assert load(p) == Times(Count(sets, g, c, p), Part(sets, g)(p));
      FullAt(Count(sets, g, c, p), Count(sets, g, Union(g), p));
    }
    SumAtMostOne(c, load);
    FullEverywhere(sets, f, g, c);
    OneDensity(items, c);
  }

  ghost predicate FullPort(sets: seq<set<Port>>, g: Family, c: set<Port>, p: Port) {
    Count(sets, g, c, p) == Count(sets, g, Union(g), p) && Count(sets, g, Union(g), p) > 0
  }

  lemma {:induction false} SumAtMostOne(c: set<Port>, w: Capacity)
    requires forall p :: w(p) <= 1.0
    ensures SumOver(c, w) <= |c| as real
    ensures SumOver(c, w) == |c| as real <==> forall p :: p in c ==> w(p) == 1.0
  {
    if c != {} {
      var p :| p in c;
      SumPick(c, w, p);
      SumAtMostOne(c - {p}, w);
      assert forall q :: q in c ==> q == p || q in c - {p};
    }
  }

  lemma OneDensity(items: seq<Item>, c: set<Port>)
    requires c != {} && Demand(items, c) <= |c| as real
    ensures Density(items, c) <= 1.0 && (Density(items, c) == 1.0 <==> Demand(items, c) == |c| as real)
  {
    hide Demand;
    var n, d := |c| as real, Density(items, c);
    assert d * n == Demand(items, c);
    if d > 1.0 {
      Smaller(1.0, d, n);
    }
  }

  /** All ports of a set are full exactly if it is the union of `g`: its sets hang together. */
  lemma FullEverywhere(sets: seq<set<Port>>, f: Family, g: Family, c: set<Port>)
    requires (forall s :: s in sets <==> s in f) && g <= f && {} !in f && Linked(g) && c != {}
    ensures (forall p :: p in c ==> FullPort(sets, g, c, p)) <==> c == Union(g)
  {
    hide Count;
    if c == Union(g) {
      forall p | p in c
        ensures FullPort(sets, g, c, p)
      {
        var s :| s in g && p in s;
        CountPositive(sets, g, p, s);
      }
    }
    if forall p :: p in c ==> FullPort(sets, g, c, p) {
      var within := set s | s in g && s <= c;
      var outside := g - within;
      forall p | p in c
        ensures exists s :: s in within && p in s
        ensures forall s :: s in g && p in s ==> s <= c
      {
        assert FullPort(sets, g, c, p);
        CountWithin(sets, g, c, p);
        CountOne(sets, g, c, p);
      }
      NothingOutside(g, within, outside, c);
    }
  }

  lemma NothingOutside(g: Family, within: Family, outside: Family, c: set<Port>)
    requires Linked(g) && c != {} && within == (set s | s in g && s <= c) && outside == g - within
    requires forall p :: p in c ==> exists s :: s in within && p in s
    requires forall p, s :: p in c && s in g && p in s ==> s <= c
    ensures c == Union(g)
  {
    var p :| p in c;
    assert within != {};
    assert within + outside == g && within * outside == {};
    assert Divides(within, outside, g) <==> outside != {};
  }

  lemma {:induction false} Listed(f: Family) returns (sets: seq<set<Port>>)
    ensures forall s :: s in sets <==> s in f
  {
    if f == {} {
      sets := [];
    } else {
      var s :| s in f;
      var others := Listed(f - {s});
      sets := others + [s];
    }
  }

  lemma {:induction false} WeightedOver(sets: seq<set<Port>>, all: seq<set<Port>>, g: Family)
    requires {} !in sets
    ensures NonNegative(Weighted(sets, all, g)) && AllHavePorts(Weighted(sets, all, g))
    ensures forall s :: HasPorts(Weighted(sets, all, g), s) <==> s in sets
  {
    hide SumOver;
    if sets != [] {
      var front, last := sets[..|sets| - 1], sets[|sets| - 1];
      assert sets == front + [last];
      WeightedOver(front, all, g);
      PartsNonNegative(all, g);
      SumNonNegative(last, Part(all, g));
      var i := Item(last, if last in g then SumOver(last, Part(all, g)) else 0.0);
      forall s: set<Port>
        ensures HasPorts(Weighted(sets, all, g), s) <==> s in sets
      {
        PortsSnoc(Weighted(front, all, g), i, s);
      }
    }
  }

  lemma PartsNonNegative(all: seq<set<Port>>, g: Family)
    ensures forall p :: Part(all, g)(p) >= 0.0
  {
    hide Count;
  }

  // The bound and the optimum exist

  lemma {:induction false} MaximumOver(items: seq<Item>, sets: set<set<Port>>) returns (m: real)
    ensures m >= 0.0 && (forall c :: c in sets ==> Density(items, c) <= m)
    ensures m == 0.0 || exists c :: c in sets && Density(items, c) == m
  {
    hide Density;
    if sets == {} {
      m := 0.0;
    } else {
      var c :| c in sets;
      var others := MaximumOver(items, sets - {c});
      m := if Density(items, c) > others then Density(items, c) else others;
      assert forall d :: d in sets ==> d == c || d in sets - {c};
    }
  }

  lemma LimitExists(items: seq<Item>, f: Family) returns (limit: real)
    requires Over(items, f)
    ensures IsLimit(items, limit)
  {
    hide Density;
    limit := MaximumOver(items, set a, b | a in f && b in f :: a + b);
    if limit != 0.0 {
      var c :| c in (set a, b | a in f && b in f :: a + b) && Density(items, c) == limit;
      var a, b :| a in f && b in f && a + b == c;
      assert Attains(items, a, b, limit);
    }
  }

  // Exactly when

  /** Whatever the numbers of uops, the bound is the largest density of any set of ports. */
  ghost predicate AlwaysOptimal(f: Family) {
    forall items, limit :: Over(items, f) && IsLimit(items, limit) ==> IsLargestDensity(items, limit)
  }

  /** The same for all whole numbers of uops. */
  ghost predicate OptimalForWhole(f: Family) {
    forall items, limit :: Over(items, f) && Whole(items) && IsLimit(items, limit) ==> IsLargestDensity(items, limit)
  }

  lemma PairsAreOptimal(f: Family, items: seq<Item>, limit: real)
    requires {} !in f && PairsSuffice(f) && Over(items, f) && IsLimit(items, limit)
    ensures IsLargestDensity(items, limit)
  {
    hide Density, PairsSuffice, Over;
    forall c
      ensures Density(items, c) <= limit
    {
      if c == {} {
        NoDensity(items);
      } else {
        DensestPair(items, f, limit, c);
      }
    }
    if limit != 0.0 {
      var a, b :| Attains(items, a, b, limit);
      TotalDensity(items, a, b);
      assert a + b != {};
    }
  }

  lemma NoDensity(items: seq<Item>)
    ensures Density(items, {}) == 0.0
  {}

  lemma InverseRational(n: nat)
    ensures Rational(Inverse(n))
  {
    if n == 0 {
      ZeroRational();
    } else {
      InverseTimes(n);
      WholeIs(Multiplied(n, Inverse(n)), 1);
      hide Multiplied, Inverse, IsWhole;
      assert Denominates(n, Inverse(n));
    }
  }

  lemma InverseTimes(n: nat)
    requires n > 0
    ensures Multiplied(n, Inverse(n)) == 1.0
  {}

  lemma {:induction false} WeightedRational(sets: seq<set<Port>>, all: seq<set<Port>>, g: Family)
    ensures forall i :: i in Weighted(sets, all, g) ==> Rational(i.uops)
  {
    hide Rational, SumOver, Inverse, Count;
    if sets != [] {
      var front, s := sets[..|sets| - 1], sets[|sets| - 1];
      WeightedRational(front, all, g);
      forall p | p in s
        ensures Rational(Part(all, g)(p))
      {
        InverseRational(Count(all, g, Union(g), p));
      }
      RationalSumOver(s, Part(all, g));
      ZeroRational();
    }
  }

  /** If the union of some linked sets is not the union of two, the bound misses it for some quotients of uops. */
  lemma SomePairsMiss(f: Family, g: Family) returns (items: seq<Item>, limit: real)
    requires {} !in f && g <= f && Linked(g) && !IsPair(f, Union(g))
    ensures Over(items, f) && IsLimit(items, limit) && !IsLargestDensity(items, limit)
    ensures forall i :: i in items ==> Rational(i.uops)
  {
    hide Density, Linked, Union, Weighted, Rational;
    var sets := Listed(f);
    items := Weighted(sets, sets, g);
    WeightedOver(sets, sets, g);
    WeightedRational(sets, sets, g);
    limit := LimitExists(items, f);
    LinkedNotEmpty(f, g);
    OnlyUnionDense(sets, f, g, Union(g));
    if limit >= 1.0 {
      var a, b :| Attains(items, a, b, limit);
      TotalDensity(items, a, b);
      assert a + b != {};
      OnlyUnionDense(sets, f, g, a + b);
    }
  }

  lemma ScaledOver(items: seq<Item>, d: int, f: Family)
    requires Over(items, f) && d > 0
    ensures Over(AllTimes(items, d), f)
  {
    hide HasPorts;
    ScaledPorts(items, d);
    ScaledNonNegative(items, d);
  }

  /** It also misses it for some whole numbers. */
  lemma TooFewPairs(f: Family, g: Family)
    requires {} !in f && g <= f && Linked(g) && !IsPair(f, Union(g))
    ensures !OptimalForWhole(f) && !AlwaysOptimal(f)
  {
    hide Linked, IsPair, Over, IsLimit, IsLargestDensity, Rational, Whole;
    var items, limit := SomePairsMiss(f, g);
    var d := CommonDenominator(items);
    ScaledOver(items, d, f);
    ScaledLimit(items, d, limit);
    if IsLargestDensity(AllTimes(items, d), Multiplied(d, limit)) {
      ScaledLargest(items, d, limit);
    }
  }

  lemma LinkedNotEmpty(f: Family, g: Family)
    requires {} !in f && g <= f && Linked(g)
    ensures Union(g) != {}
  {
    UnionNotEmpty(g);
  }

  /** For all numbers of uops, or for all whole ones, the bound is the largest density of any set of ports, exactly if the
      union of any linked port sets is the union of at most two of the port sets. */
  lemma OptimalExactly(f: Family)
    requires {} !in f
    ensures AlwaysOptimal(f) <==> PairsSuffice(f)
    ensures OptimalForWhole(f) <==> PairsSuffice(f)
  {
    hide IsLimit, IsLargestDensity, Over, Linked, IsPair, Whole;
    if PairsSuffice(f) {
      forall items, limit | Over(items, f) && IsLimit(items, limit)
        ensures IsLargestDensity(items, limit)
      {
        PairsAreOptimal(f, items, limit);
      }
    } else {
      var g: Family :| g <= f && Linked(g) && !IsPair(f, Union(g));
      TooFewPairs(f, g);
    }
  }

  /** Some assignment of the uops loads no port with more than the bound. */
  ghost predicate CanAttain(items: seq<Item>, limit: real) {
    exists assignment: seq<Port -> real> :: Serves(items, assignment) && forall p :: Load(assignment)(p) <= limit
  }

  /** Whatever the numbers of uops, the bound is what the best assignment loads its busiest port with. */
  ghost predicate AlwaysAttained(f: Family) {
    forall items, limit :: Over(items, f) && IsLimit(items, limit) ==> CanAttain(items, limit)
  }

  ghost predicate AttainedForWhole(f: Family) {
    forall items, limit :: Over(items, f) && Whole(items) && IsLimit(items, limit) ==> CanAttain(items, limit)
  }

  lemma AttainedIsLargest(items: seq<Item>, limit: real)
    requires NonNegative(items) && AllHavePorts(items) && IsLimit(items, limit)
    ensures CanAttain(items, limit) <==> IsLargestDensity(items, limit)
  {
    hide Density, Load, Serves;
    if IsLargestDensity(items, limit) {
      var assignment := BestAssignment(items, limit);
    }
    if CanAttain(items, limit) {
      var assignment: seq<Port -> real> :|
        Serves(items, assignment) && forall p :: Load(assignment)(p) <= limit;
      forall c
        ensures Density(items, c) <= limit
      {
        if c == {} {
          NoDensity(items);
        } else {
          var p := SomePortCarries(items, c, assignment);
        }
      }
      if limit != 0.0 {
        var a, b :| Attains(items, a, b, limit);
        TotalDensity(items, a, b);
        assert a + b != {};
      }
    }
  }

  /** For all numbers of uops, or for all whole ones, some assignment attains the bound, exactly if the union of any linked
      port sets is the union of at most two of the port sets. */
  lemma AttainedExactly(f: Family)
    requires {} !in f
    ensures AlwaysAttained(f) <==> PairsSuffice(f)
    ensures AttainedForWhole(f) <==> PairsSuffice(f)
  {
    hide IsLimit, IsLargestDensity, CanAttain, Linked, IsPair, PairsSuffice, Whole;
    OptimalExactly(f);
    forall items, limit | Over(items, f) && IsLimit(items, limit)
      ensures CanAttain(items, limit) <==> IsLargestDensity(items, limit)
    {
      AttainedIsLargest(items, limit);
    }
  }

  /** Three sets that share one port: the bound can miss what they have in common. */
  lemma ThreeSetsMissed()
    ensures !OptimalForWhole({{'0', '1'}, {'0', '2'}, {'0', '3'}})
  {
    var f: Family := {{'0', '1'}, {'0', '2'}, {'0', '3'}};
    forall s | s in f
      ensures '0' in s
    {}
    assert Linked(f) by {
      forall a: Family, b: Family | Divides(a, b, f)
        ensures Union(a) * Union(b) != {}
      {
        var s :| s in a;
        var t :| t in b;
        assert s in a + b && t in a + b;
        assert '0' in Union(a) * Union(b);
      }
    }
    forall a, b | a in f && b in f
      ensures a + b != Union(f)
    {
      assert '1' in Union(f) && '2' in Union(f) && '3' in Union(f);
    }
    TooFewPairs(f, f);
  }
}

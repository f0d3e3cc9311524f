/** Numbers of uops that are quotients become whole when they are multiplied by a common denominator, which leaves the
    bound and the optimum where they are in relation to each other. */
module PortScaling {
  import opened PortUsage
  import opened PortAssignment

  // Multiplying all numbers of uops

  function AllTimes(items: seq<Item>, d: int): seq<Item> {
    if items == [] then []
    else
      var last := items[|items| - 1];
      AllTimes(items[..|items| - 1], d) + [Item(last.ports, Multiplied(d, last.uops))]
  }

  function Multiplied(d: int, x: real): real {
    d as real * x
  }

  lemma MultipliedShare(i: Item, d: int, c: set<Port>)
    ensures Share(Item(i.ports, Multiplied(d, i.uops)), c) == Multiplied(d, Share(i, c)) && Multiplied(d, 0.0) == 0.0
  {}

  lemma MultipliedSum(d: int, x: real, y: real)
    ensures Multiplied(d, x + y) == Multiplied(d, x) + Multiplied(d, y)
  {
    ProductOfSum(d as real, x, y);
  }

  lemma ProductOfSum(d: real, x: real, y: real)
    ensures d * (x + y) == d * x + d * y
  {}

  lemma {:induction false} ScaledDemand(items: seq<Item>, d: int, c: set<Port>)
    ensures Demand(AllTimes(items, d), c) == Multiplied(d, Demand(items, c))
  {
    if items == [] {
      assert Multiplied(d, 0.0) == 0.0;
    } else {
      hide Multiplied, Share;
      var front, last := items[..|items| - 1], items[|items| - 1];
      ScaledDemand(front, d, c);
      MultipliedShare(last, d, c);
      MultipliedSum(d, Demand(front, c), Share(last, c));
    }
  }

  lemma MultipliedQuotient(d: int, x: real, n: real)
    requires n > 0.0
    ensures Multiplied(d, x) / n == Multiplied(d, x / n)
  {
    assert x == x / n * n;
  }

  /** Multiplying keeps the order. */
  lemma MultipliedOrder(d: int, x: real, y: real)
    requires d > 0
    ensures Multiplied(d, x) <= Multiplied(d, y) <==> x <= y
    ensures Multiplied(d, x) == Multiplied(d, y) <==> x == y
    ensures Multiplied(d, 0.0) == 0.0
  {}

  lemma ScaledDensity(items: seq<Item>, d: int, c: set<Port>)
    ensures Density(AllTimes(items, d), c) == Multiplied(d, Density(items, c))
  {
    ScaledDemand(items, d, c);
    if c == {} {
      assert Multiplied(d, 0.0) == 0.0;
    } else {
      hide Multiplied, Demand, AllTimes;
      MultipliedQuotient(d, Demand(items, c), |c| as real);
    }
  }

  lemma {:induction false} ScaledItems(items: seq<Item>, d: int)
    ensures |AllTimes(items, d)| == |items|
    ensures forall k :: 0 <= k < |items| ==>
              AllTimes(items, d)[k] == Item(items[k].ports, Multiplied(d, items[k].uops))
  {
    if items != [] {
      ScaledItems(items[..|items| - 1], d);
    }
  }

  lemma ScaledPorts(items: seq<Item>, d: int)
    ensures forall s :: HasPorts(AllTimes(items, d), s) <==> HasPorts(items, s)
    ensures AllHavePorts(items) ==> AllHavePorts(AllTimes(items, d))
  {
    var scaled := AllTimes(items, d);
    ScaledItems(items, d);
    forall s: set<Port>
      ensures HasPorts(scaled, s) <==> HasPorts(items, s)
    {
      forall k | 0 <= k < |items|
        ensures items[k] in items && scaled[k] in scaled && scaled[k].ports == items[k].ports
      {}
    }
  }

  lemma ScaledNonNegative(items: seq<Item>, d: int)
    requires NonNegative(items) && d > 0
    ensures NonNegative(AllTimes(items, d))
  {
    hide Multiplied;
    ScaledItems(items, d);
    forall i | i in AllTimes(items, d)
      ensures i.uops >= 0.0
    {
      var k :| 0 <= k < |items| && i == AllTimes(items, d)[k];
      assert items[k] in items;
      MultipliedOrder(d, 0.0, items[k].uops);
    }
  }

  /** The bound is multiplied with the numbers of uops. */
  lemma ScaledLimit(items: seq<Item>, d: int, limit: real)
    requires IsLimit(items, limit) && d > 0
    ensures IsLimit(AllTimes(items, d), Multiplied(d, limit))
  {
    hide Density, HasPorts, Multiplied;
    var scaled := AllTimes(items, d);
    ScaledPorts(items, d);
    MultipliedOrder(d, 0.0, limit);
    forall a, b | HasPorts(scaled, a) && HasPorts(scaled, b)
      ensures Density(scaled, a + b) <= Multiplied(d, limit)
    {
      ScaledDensity(items, d, a + b);
      MultipliedOrder(d, Density(items, a + b), limit);
    }
    if limit != 0.0 {
      var a, b :| Attains(items, a, b, limit);
      ScaledDensity(items, d, a + b);
      assert Attains(scaled, a, b, Multiplied(d, limit));
    }
  }

  /** So is the optimum. */
  lemma ScaledLargest(items: seq<Item>, d: int, m: real)
    requires IsLargestDensity(AllTimes(items, d), Multiplied(d, m)) && d > 0
    ensures IsLargestDensity(items, m)
  {
    hide Density, Multiplied;
    var scaled := AllTimes(items, d);
    MultipliedOrder(d, 0.0, m);
    forall c
      ensures Density(items, c) <= m
    {
      ScaledDensity(items, d, c);
      MultipliedOrder(d, Density(items, c), m);
    }
    if m != 0.0 {
      var c :| c != {} && Density(scaled, c) == Multiplied(d, m);
      ScaledDensity(items, d, c);
      MultipliedOrder(d, Density(items, c), m);
    }
  }

  // Common denominators

  predicate IsWhole(x: real) {
    x == x.Floor as real
  }

  /** All numbers of uops are whole. */
  ghost predicate Whole(items: seq<Item>) {
    forall i :: i in items ==> IsWhole(i.uops)
  }

  ghost predicate Denominates(d: int, x: real) {
    d > 0 && IsWhole(Multiplied(d, x))
  }

  ghost predicate Rational(x: real) {
    exists d :: Denominates(d, x)
  }

  lemma WholeIs(x: real, n: int)
    requires x == n as real
    ensures IsWhole(x)
  {}

  lemma ProductWhole(a: int, x: real)
    requires IsWhole(x)
    ensures IsWhole(Multiplied(a, x))
  {
    WholeIs(Multiplied(a, x), a * x.Floor);
  }

  lemma DenominatesMore(d: int, e: int, x: real)
    requires Denominates(d, x) && e > 0
    ensures Denominates(d * e, x) && Denominates(e * d, x)
  {
    hide Multiplied, IsWhole;
    ProductWhole(e, Multiplied(d, x));
    Regrouped(d, e, x);
  }

  lemma Regrouped(d: int, e: int, x: real)
    requires d > 0 && e > 0
    ensures Multiplied(d * e, x) == Multiplied(e, Multiplied(d, x)) && d * e == e * d && d * e > 0
  {
    assert (d * e) as real == e as real * d as real;
    Associated(e as real, d as real, x);
  }

  lemma Associated(a: real, b: real, x: real)
    ensures a * b * x == a * (b * x)
  {}

  lemma RationalSum(x: real, y: real)
    requires Rational(x) && Rational(y)
    ensures Rational(x + y)
  {
    var d :| Denominates(d, x);
    var e :| Denominates(e, y);
    DenominatesMore(d, e, x);
    DenominatesMore(e, d, y);
    hide Denominates;
    DenominatesSum(d * e, x, y);
  }

  lemma DenominatesSum(d: int, x: real, y: real)
    requires Denominates(d, x) && Denominates(d, y)
    ensures Denominates(d, x + y)
  {
    hide Multiplied;
    MultipliedSum(d, x, y);
    WholeIs(Multiplied(d, x + y), Multiplied(d, x).Floor + Multiplied(d, y).Floor);
  }

  lemma {:induction false} RationalSumOver(s: set<Port>, w: Capacity)
    requires forall p :: p in s ==> Rational(w(p))
    ensures Rational(SumOver(s, w))
  {
    hide Rational;
    if s == {} {
      ZeroRational();
    } else {
      var p :| p in s;
      RationalSumOver(s - {p}, w);
      SumPick(s, w, p);
      RationalSum(w(p), SumOver(s - {p}, w));
    }
  }

  lemma ZeroRational()
    ensures Rational(0.0)
  {
    assert Denominates(1, 0.0);
  }

  /** Some number multiplies all numbers of uops to whole ones. */
  lemma {:induction false} CommonDenominator(items: seq<Item>) returns (d: int)
    requires forall i :: i in items ==> Rational(i.uops)
    ensures d > 0 && Whole(AllTimes(items, d))
  {
    d := AllDenominated(items);
    ScaledItems(items, d);
    forall i | i in AllTimes(items, d)
      ensures IsWhole(i.uops)
    {
      var k :| 0 <= k < |items| && i == AllTimes(items, d)[k];
      assert items[k] in items && Denominates(d, items[k].uops);
    }
  }

  lemma {:induction false} AllDenominated(items: seq<Item>) returns (d: int)
    requires forall i :: i in items ==> Rational(i.uops)
    ensures d > 0 && forall i :: i in items ==> Denominates(d, i.uops)
  {
    d := 1;
    if items != [] {
      var front, last := items[..|items| - 1], items[|items| - 1];
      assert items == front + [last];
      var e := AllDenominated(front);
      assert Rational(last.uops);
      var f :| Denominates(f, last.uops);
      DenominatesMore(f, e, last.uops);
      forall i | i in front
        ensures Denominates(e * f, i.uops)
      {
        DenominatesMore(e, f, i.uops);
      }
      d := e * f;
    }
  }
}

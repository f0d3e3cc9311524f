/** Remainders and multiples. */
module Arithmetic {

  function AsNat(b: bool): nat {
    if b then 1 else 0
  }

  function Min(a: nat, b: nat): nat {
    if a < b then a else b
  }

  function AtLeastOne(n: nat): nat {
    if n == 0 then 1 else n
  }

  lemma SameRemainder(k: int, j: int, m: nat)
    requires m > 0 && k % m == j % m
    ensures k - j == (k / m - j / m) * m
  {
    assert k == (k / m) * m + k % m && j == (j / m) * m + j % m;
    assert (k / m - j / m) * m == (k / m) * m - (j / m) * m;
  }

  lemma RemainderFromDifference(a: int, b: int, q: int, m: nat)
    requires m > 0 && a - b == q * m
    ensures a % m == b % m
  {
    var ra, rb := a % m, b % m;
    assert a == (a / m) * m + ra && b == (b / m) * m + rb;
    var t := q - a / m + b / m;
    assert t * m == q * m - (a / m) * m + (b / m) * m;
    assert ra - rb == t * m;
    NoSmallMultiple(t, m, ra - rb);
  }

  lemma NoSmallMultiple(t: int, m: nat, x: int)
    requires x == t * m && -(m as int) < x < m
    ensures x == 0
  {
    if t >= 1 {
      MultipleAtLeast(t, m);
    } else if t <= -1 {
      MultipleAtLeast(-t, m);
    }
  }

  lemma MultipleAtLeast(t: int, m: nat)
    requires t >= 1
    ensures t * m >= m && (-t) * m <= -(m as int)
  {}

  lemma ProductMonotone(a: nat, b: nat, m: nat)
    requires a <= b
    ensures a * m <= b * m
  {}

  function Product(a: nat, b: nat): nat {
    a * b
  }

  lemma ProductNext(a: nat, b: nat)
    ensures Product(a + 1, b) == Product(a, b) + b
  {}

  lemma SmallRemainder(idx: nat, m: nat)
    requires idx < m
    ensures idx % m == idx
  {}
}

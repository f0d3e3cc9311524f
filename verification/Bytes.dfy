/** Bytes, little-endian numbers and bit sets. */
module Bytes {
  import opened Wrappers

  type byte = x: int | 0 <= x < 256

  function Pow256(width: nat): (p: nat)
    ensures p > 0
  {
    if width == 0 then 1 else 256 * Pow256(width - 1)
  }

  type u16 = x: int | 0 <= x < 0x1_0000
  type u32 = x: int | 0 <= x < 0x1_0000_0000
  type u64 = x: int | 0 <= x < 0x1_0000_0000_0000_0000
  type i32 = x: int | -0x8000_0000 <= x < 0x8000_0000
  type i64 = x: int | -0x8000_0000_0000_0000 <= x < 0x8000_0000_0000_0000

  lemma Widths()
    ensures Pow256(2) == 0x1_0000 && Pow256(4) == 0x1_0000_0000 && Pow256(8) == 0x1_0000_0000_0000_0000
  {
    assert Pow256(0) == 1 && Pow256(1) == 256 && Pow256(2) == 0x1_0000 && Pow256(3) == 0x100_0000;
    assert Pow256(4) == 0x1_0000_0000 && Pow256(5) == 0x100_0000_0000 && Pow256(6) == 0x1_0000_0000_0000;
    assert Pow256(7) == 0x100_0000_0000_0000;
  }

  function Le(n: nat, width: nat): (b: seq<byte>)
    ensures |b| == width
    decreases width
  {
    if width == 0 then [] else [n % 256] + Le(n / 256, width - 1)
  }

  function FromLe(b: seq<byte>): (n: nat)
    ensures n < Pow256(|b|)
  {
    if b == [] then 0 else b[0] + 256 * FromLe(b[1..])
  }

  lemma {:induction false} LeRoundTrip(n: nat, width: nat)
    requires n < Pow256(width)
    ensures FromLe(Le(n, width)) == n
    decreases width
  {
    if width > 0 {
      LeRoundTrip(n / 256, width - 1);
      assert Le(n, width)[1..] == Le(n / 256, width - 1);
    }
  }

  /** Different bytes are different numbers. */
  lemma {:induction false} FromLeInjective(a: seq<byte>, b: seq<byte>)
    requires |a| == |b| && FromLe(a) == FromLe(b)
    ensures a == b
  {
    if a != [] {
      var x, y := FromLe(a[1..]), FromLe(b[1..]);
      assert a[0] + 256 * x == b[0] + 256 * y;
      FromLeInjective(a[1..], b[1..]);
      assert a == [a[0]] + a[1..] && b == [b[0]] + b[1..];
    }
  }

  /** Two's complement. */
  function Signed(n: int, width: nat): nat
    requires -(Pow256(width) as int) <= 2 * n < Pow256(width)
  {
    if n < 0 then n + Pow256(width) else n
  }

  function FromSigned(n: nat, width: nat): int {
    if 2 * n >= Pow256(width) then n - Pow256(width) else n
  }

  lemma SignedRoundTrip(n: int, width: nat)
    requires -(Pow256(width) as int) <= 2 * n < Pow256(width)
    ensures Signed(n, width) < Pow256(width) && FromSigned(Signed(n, width), width) == n
  {}

  // Bit sets

  function Bits(bs: seq<bool>): nat {
    if bs == [] then 0 else (if bs[0] then 1 else 0) + 2 * Bits(bs[1..])
  }

  predicate Bit(n: nat, k: nat)
    decreases k
  {
    if k == 0 then n % 2 == 1 else Bit(n / 2, k - 1)
  }

  function Pow2(k: nat): (p: nat)
    ensures p > 0
  {
    if k == 0 then 1 else 2 * Pow2(k - 1)
  }

  lemma {:induction false} BitsBounded(bs: seq<bool>)
    ensures Bits(bs) < Pow2(|bs|)
  {
    if bs != [] {
      BitsBounded(bs[1..]);
    }
  }

  lemma {:induction false} BitOf(bs: seq<bool>, k: nat)
    requires k < |bs|
    ensures Bit(Bits(bs), k) == bs[k]
  {
    hide Bits;
    BitsHalved(bs);
    if k > 0 {
      BitOf(bs[1..], k - 1);
    }
  }

  lemma BitsHalved(bs: seq<bool>)
    requires bs != []
    ensures Bits(bs) / 2 == Bits(bs[1..]) && (Bits(bs) % 2 == 1 <==> bs[0])
  {
    var rest := Bits(bs[1..]);
    assert Bits(bs) == (if bs[0] then 1 else 0) + 2 * rest;
  }

  /** Exclusive or of the lowest `width` bits. */
  function Xor(a: nat, b: nat, width: nat): (x: nat)
    ensures x < Pow2(width)
    decreases width
  {
    if width == 0 then 0 else (if a % 2 != b % 2 then 1 else 0) + 2 * Xor(a / 2, b / 2, width - 1)
  }

  lemma {:induction false} XorInjective(a: nat, b: nat, c: nat, width: nat)
    requires b < Pow2(width) && c < Pow2(width) && Xor(a, b, width) == Xor(a, c, width)
    ensures b == c
    decreases width
  {
    if width > 0 {
      XorInjective(a / 2, b / 2, c / 2, width - 1);
    }
  }

  lemma {:induction false} XorCommutes(a: nat, b: nat, width: nat)
    ensures Xor(a, b, width) == Xor(b, a, width)
    decreases width
  {
    if width > 0 {
      XorCommutes(a / 2, b / 2, width - 1);
    }
  }
}

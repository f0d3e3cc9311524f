/** The FNV-1a checksum of a UIPack file (`fnv1a64_with_zeroed_checksum`). */
module Checksum {
  import opened Arithmetic
  import opened Bytes

  const OFFSET_BASIS: u64 := 0xcbf29ce484222325
  const PRIME: nat := 0x100000001b3
  const MODULUS: nat := 0x1_0000_0000_0000_0000
  /** The inverse of the prime modulo 2^64. */
  const INVERSE: nat := 0xce965057aff6957b
  const CHECKSUM_OFFSET: nat := 24

  /** All bits but the lowest eight. */
  function High(h: u64): (r: nat)
    ensures r + 255 < MODULUS && r == 256 * (h / 256)
  {
    256 * (h / 256)
  }

  /** The state with a byte added, exclusively, to its lowest bits. */
  function WithByte(h: u64, b: byte): u64 {
    High(h) + XorByte(h % 256, b)
  }

  function XorByte(a: byte, b: byte): byte {
    assert Pow2(8) == 256 by {
      assert Pow2(4) == 16;
    }
    Xor(a, b, 8)
  }

  function Times(h: u64): u64 {
    h * PRIME % MODULUS
  }

  function Fold(h: u64, b: byte): u64 {
    Times(WithByte(h, b))
  }

  function Hash(h: u64, bytes: seq<byte>): u64 {
    if bytes == [] then h else Fold(Hash(h, bytes[..|bytes| - 1]), bytes[|bytes| - 1])
  }

  /** The bytes with the checksum field blanked. */
  function Blanked(bytes: seq<byte>): (r: seq<byte>)
    ensures |r| == |bytes|
  {
    seq(|bytes|, i requires 0 <= i < |bytes| => if CHECKSUM_OFFSET <= i < CHECKSUM_OFFSET + 8 then 0 else bytes[i])
  }

  function Value(bytes: seq<byte>): u64 {
    Hash(OFFSET_BASIS, Blanked(bytes))
  }

  lemma HashSnoc(h: u64, bytes: seq<byte>, b: byte)
    ensures Hash(h, bytes + [b]) == Fold(Hash(h, bytes), b)
  {
    assert (bytes + [b])[..|bytes|] == bytes;
  }

  // The hash bit by bit

  ghost predicate IsXor(x: nat, a: nat, b: nat) {
    forall k: nat :: Bit(x, k) == (Bit(a, k) != Bit(b, k))
  }

  /** The next state of the 64-bit FNV-1a hash: the exclusive or with the byte comes before the product. */
  ghost predicate NextState(state: u64, b: byte, next: u64) {
    exists x: nat :: IsXor(x, state, b) && next == x * 0x100000001b3 % 0x1_0000_0000_0000_0000
  }

  /** The states that the hash goes through, the bytes 24 to 31 of the file being taken as zero. */
  ghost predicate States(bytes: seq<byte>, states: seq<u64>) {
    && |states| == |bytes| + 1 && states[0] == 0xcbf29ce484222325
    && forall i :: 0 <= i < |bytes| ==> NextState(states[i], if 24 <= i < 32 then 0 else bytes[i], states[i + 1])
  }

  ghost predicate IsFnv1a(bytes: seq<byte>, hash: u64) {
    exists states :: States(bytes, states) && hash == states[|bytes|]
  }

  lemma {:induction false} XorBits(a: nat, b: nat, width: nat, k: nat)
    ensures Bit(Xor(a, b, width), k) == (k < width && Bit(a, k) != Bit(b, k))
    decreases width
  {
    if width == 0 {
      NoBits(k);
    } else {
      var low, rest := if a % 2 != b % 2 then 1 else 0, Xor(a / 2, b / 2, width - 1);
      assert Xor(a, b, width) == low + 2 * rest;
      assert Xor(a, b, width) % 2 == low && Xor(a, b, width) / 2 == rest;
      if k > 0 {
        XorBits(a / 2, b / 2, width - 1, k - 1);
      }
    }
  }

  lemma {:induction false} NoBits(k: nat)
    ensures !Bit(0, k)
  {
    if k > 0 {
      NoBits(k - 1);
    }
  }

  /** The bits of a number are those of its lower part and those above. */
  lemma {:induction false} BitsOfParts(high: nat, low: nat, width: nat, k: nat)
    requires low < Pow2(width)
    ensures Bit(Pow2(width) * high + low, k) == if k < width then Bit(low, k) else Bit(high, k - width)
    decreases width
  {
    if width > 0 {
      var half := Pow2(width - 1) * high;
      assert Pow2(width) * high == 2 * half;
      assert (2 * half + low) / 2 == half + low / 2 && (2 * half + low) % 2 == low % 2;
      if k > 0 {
        BitsOfParts(high, low / 2, width - 1, k - 1);
      }
    }
  }

  lemma ByteBits(b: byte, k: nat)
    requires k >= 8
    ensures !Bit(b, k)
  {
    assert Pow2(4) == 16 && Pow2(8) == 256;
    BitsOfParts(0, b, 8, k);
    NoBits(k - 8);
  }

  lemma InParts(h: nat, k: nat)
    ensures Bit(h, k) == if k < 8 then Bit(h % 256, k) else Bit(h / 256, k - 8)
  {
    assert Pow2(4) == 16 && Pow2(8) == 256;
    BitsOfParts(h / 256, h % 256, 8, k);
    hide Bit, Pow2;
    assert 256 * (h / 256) + h % 256 == h;
  }

  lemma WithByteInParts(h: u64, b: byte, k: nat)
    ensures Bit(WithByte(h, b), k) == if k < 8 then Bit(XorByte(h % 256, b), k) else Bit(h / 256, k - 8)
  {
    assert Pow2(4) == 16 && Pow2(8) == 256;
    BitsOfParts(h / 256, XorByte(h % 256, b), 8, k);
    hide Bit, Pow2, Xor;
    assert 256 * (h / 256) + h % 256 == h;
  }

  /** Adding a byte to the state is the exclusive or of all bits. */
  lemma WithByteIsXor(h: u64, b: byte)
    ensures IsXor(WithByte(h, b), h, b)
  {
    hide Bit, WithByte, Xor;
    forall k: nat
      ensures Bit(WithByte(h, b), k) == (Bit(h, k) != Bit(b, k))
    {
      WithByteInParts(h, b, k);
      InParts(h, k);
      XorBits(h % 256, b, 8, k);
      if k >= 8 {
        ByteBits(b, k);
      }
    }
  }

  lemma FoldIsNext(h: u64, b: byte)
    ensures NextState(h, b, Fold(h, b))
  {
    hide IsXor;
    WithByteIsXor(h, b);
  }

  lemma {:induction false} HashIsFnv1a(bytes: seq<byte>, n: nat) returns (states: seq<u64>)
    requires n <= |bytes|
    ensures |states| == n + 1 && states[0] == 0xcbf29ce484222325 && states[n] == Hash(OFFSET_BASIS, Blanked(bytes)[..n])
    ensures forall i :: 0 <= i < n ==> NextState(states[i], if 24 <= i < 32 then 0 else bytes[i], states[i + 1])
  {
    hide Fold, NextState;
    if n == 0 {
      states := [OFFSET_BASIS];
    } else {
      var front := HashIsFnv1a(bytes, n - 1);
      var b := Blanked(bytes)[n - 1];
      assert Blanked(bytes)[..n] == Blanked(bytes)[..n - 1] + [b];
      HashSnoc(OFFSET_BASIS, Blanked(bytes)[..n - 1], b);
      FoldIsNext(front[n - 1], b);
      states := front + [Fold(front[n - 1], b)];
    }
  }

  lemma WholeBlanked(bytes: seq<byte>)
    ensures Value(bytes) == Hash(OFFSET_BASIS, Blanked(bytes)[..|bytes|])
  {
    assert Blanked(bytes)[..|bytes|] == Blanked(bytes);
    hide Hash;
  }

  lemma ValueIsFnv1a(bytes: seq<byte>)
    ensures IsFnv1a(bytes, Value(bytes))
  {
    hide *;
    var states := HashIsFnv1a(bytes, |bytes|);
    WholeBlanked(bytes);
    StatesEnd(bytes, states);
  }

  lemma StatesEnd(bytes: seq<byte>, states: seq<u64>)
    requires |states| == |bytes| + 1 && states[0] == 0xcbf29ce484222325
    requires forall i :: 0 <= i < |bytes| ==> NextState(states[i], if 24 <= i < 32 then 0 else bytes[i], states[i + 1])
    ensures IsFnv1a(bytes, states[|bytes|])
  {
    hide NextState;
    assert States(bytes, states);
  }

  lemma Step(h: u64, b: byte, low: byte, next: u64)
    requires Xor(h % 256, b, 8) == low && (h - h % 256 + low) * PRIME % MODULUS == next
    ensures Fold(h, b) == next
  {}

  lemma XorNext(a: nat, b: nat, width: nat)
    ensures Xor(a, b, width + 1) == (if a % 2 != b % 2 then 1 else 0) + 2 * Xor(a / 2, b / 2, width)
  {}

  /** The exclusive or of four bits. */
  lemma XorOfFour(a: nat, b: nat, a1: nat, b1: nat, a2: nat, b2: nat, a3: nat, b3: nat, a4: nat, b4: nat, width: nat)
    requires a1 == a / 2 && b1 == b / 2 && a2 == a1 / 2 && b2 == b1 / 2 && a3 == a2 / 2 && b3 == b2 / 2
    requires a4 == a3 / 2 && b4 == b3 / 2
    ensures Xor(a, b, width + 4) ==
            (if a % 2 != b % 2 then 1 else 0) + (if a1 % 2 != b1 % 2 then 2 else 0) +
            (if a2 % 2 != b2 % 2 then 4 else 0) + (if a3 % 2 != b3 % 2 then 8 else 0) + 16 * Xor(a4, b4, width)
  {
    hide Xor;
    XorNext(a, b, width + 3);
    XorNext(a1, b1, width + 2);
    XorNext(a2, b2, width + 1);
    XorNext(a3, b3, width);
  }

  lemma XorOfNone(a: nat, b: nat)
    ensures Xor(a, b, 0) == 0
  {}

  lemma ExclusiveOrs()
    ensures Xor(0x25, 0x66, 8) == 0x43
    ensures Xor(0xd9, 0x6f, 8) == 0xb6
    ensures Xor(0x42, 0x6f, 8) == 0x2d
    ensures Xor(0x77, 0x62, 8) == 0x15
    ensures Xor(0xaf, 0x61, 8) == 0xce
    ensures Xor(0xa, 0x72, 8) == 0x78
    ensures Xor(0x25, 0x61, 8) == 0x44
  {
    hide Xor;
    XorOfFour(0x25, 0x66, 0x12, 0x33, 0x9, 0x19, 0x4, 0xc, 0x2, 0x6, 4);
    XorOfFour(0x2, 0x6, 0x1, 0x3, 0x0, 0x1, 0x0, 0x0, 0x0, 0x0, 0);
    XorOfFour(0xd9, 0x6f, 0x6c, 0x37, 0x36, 0x1b, 0x1b, 0xd, 0xd, 0x6, 4);
    XorOfFour(0xd, 0x6, 0x6, 0x3, 0x3, 0x1, 0x1, 0x0, 0x0, 0x0, 0);
    XorOfFour(0x42, 0x6f, 0x21, 0x37, 0x10, 0x1b, 0x8, 0xd, 0x4, 0x6, 4);
    XorOfFour(0x4, 0x6, 0x2, 0x3, 0x1, 0x1, 0x0, 0x0, 0x0, 0x0, 0);
    XorOfFour(0x77, 0x62, 0x3b, 0x31, 0x1d, 0x18, 0xe, 0xc, 0x7, 0x6, 4);
    XorOfFour(0x7, 0x6, 0x3, 0x3, 0x1, 0x1, 0x0, 0x0, 0x0, 0x0, 0);
    XorOfFour(0xaf, 0x61, 0x57, 0x30, 0x2b, 0x18, 0x15, 0xc, 0xa, 0x6, 4);
    XorOfFour(0xa, 0x6, 0x5, 0x3, 0x2, 0x1, 0x1, 0x0, 0x0, 0x0, 0);
    XorOfFour(0xa, 0x72, 0x5, 0x39, 0x2, 0x1c, 0x1, 0xe, 0x0, 0x7, 4);
    XorOfFour(0x0, 0x7, 0x0, 0x3, 0x0, 0x1, 0x0, 0x0, 0x0, 0x0, 0);
    XorOfFour(0x25, 0x61, 0x12, 0x30, 0x9, 0x18, 0x4, 0xc, 0x2, 0x6, 4);
    XorOfFour(0x2, 0x6, 0x1, 0x3, 0x0, 0x1, 0x0, 0x0, 0x0, 0x0, 0);
    XorOfNone(0, 0);
  }

  lemma Extended(bytes: seq<byte>, b: byte, h: u64, low: byte, next: u64)
    requires Hash(OFFSET_BASIS, bytes) == h
    requires Xor(h % 256, b, 8) == low && (h - h % 256 + low) * PRIME % MODULUS == next
    ensures Hash(OFFSET_BASIS, bytes + [b]) == next
  {
    Step(h, b, low, next);
    HashSnoc(OFFSET_BASIS, bytes, b);
  }

  /** Published values of the hash: those of nothing, of the letter a and of the letters foobar. */
  lemma PublishedValues()
    ensures Value([]) == 0xcbf29ce484222325 && Value([0x61]) == 0xaf63dc4c8601ec8c
    ensures Value([0x66, 0x6f, 0x6f, 0x62, 0x61, 0x72]) == 0x85944171f73967e8
  {
    hide Hash, Xor;
    ExclusiveOrs();
    NothingHashed();
    assert Blanked([]) == [] && Blanked([0x61]) == [0x61];
    assert Blanked([0x66, 0x6f, 0x6f, 0x62, 0x61, 0x72]) == [0x66, 0x6f, 0x6f, 0x62, 0x61, 0x72];
    Extended([], 0x61, OFFSET_BASIS, 0x44, 0xaf63dc4c8601ec8c);
    assert [] + [0x61] == [0x61];
    Extended([], 0x66, 0xcbf29ce484222325, 0x43, 0xaf63db4c8601ead9);
    assert [] + [0x66] == [0x66];
    Extended([0x66], 0x6f, 0xaf63db4c8601ead9, 0xb6, 0x8985907b541d342);
    assert [0x66] + [0x6f] == [0x66, 0x6f];
    Extended([0x66, 0x6f], 0x6f, 0x8985907b541d342, 0x2d, 0xdcb27518fed9d577);
    assert [0x66, 0x6f] + [0x6f] == [0x66, 0x6f, 0x6f];
    Extended([0x66, 0x6f, 0x6f], 0x62, 0xdcb27518fed9d577, 0x15, 0xdd120e790c2512af);
    assert [0x66, 0x6f, 0x6f] + [0x62] == [0x66, 0x6f, 0x6f, 0x62];
    Extended([0x66, 0x6f, 0x6f, 0x62], 0x61, 0xdd120e790c2512af, 0xce, 0xcac165afa2fef40a);
    assert [0x66, 0x6f, 0x6f, 0x62] + [0x61] == [0x66, 0x6f, 0x6f, 0x62, 0x61];
    Extended([0x66, 0x6f, 0x6f, 0x62, 0x61], 0x72, 0xcac165afa2fef40a, 0x78, 0x85944171f73967e8);
    assert [0x66, 0x6f, 0x6f, 0x62, 0x61] + [0x72] == [0x66, 0x6f, 0x6f, 0x62, 0x61, 0x72];
  }

  lemma NothingHashed()
    ensures Hash(OFFSET_BASIS, []) == OFFSET_BASIS
  {}

  method Compute(bytes: seq<byte>) returns (hash: u64)
    ensures hash == Value(bytes) && IsFnv1a(bytes, hash)
  {
    hide Times, WithByte, IsFnv1a;
    ValueIsFnv1a(bytes);
    hash := OFFSET_BASIS;
    assert Blanked(bytes)[..0] == [];
    for idx := 0 to |bytes|
      invariant hash == Hash(OFFSET_BASIS, Blanked(bytes)[..idx])
    {
      var value: byte := if CHECKSUM_OFFSET <= idx < CHECKSUM_OFFSET + 8 then 0 else bytes[idx];
      assert Blanked(bytes)[..idx + 1] == Blanked(bytes)[..idx] + [value];
      HashSnoc(OFFSET_BASIS, Blanked(bytes)[..idx], value);
      hash := Times(WithByte(hash, value));
    }
    assert Blanked(bytes)[..|bytes|] == Blanked(bytes);
  }

  // Every step is injective in the state and in the byte

  lemma XorByteInjective(a: byte, b: byte, c: byte)
    requires XorByte(a, b) == XorByte(a, c)
    ensures b == c
  {
    assert Pow2(4) == 16 && Pow2(8) == 256;
    XorInjective(a, b, c, 8);
  }

  lemma XorByteInjectiveLeft(a: byte, b: byte, c: byte)
    requires XorByte(b, a) == XorByte(c, a)
    ensures b == c
  {
    XorCommutes(a, b, 8);
    XorCommutes(a, c, 8);
    XorByteInjective(a, b, c);
  }

  lemma WithByteInjective(h: u64, g: u64, b: byte, c: byte)
    requires WithByte(h, b) == WithByte(g, c)
    ensures h == g ==> b == c
    ensures b == c ==> h == g
  {
    var x, y := XorByte(h % 256, b), XorByte(g % 256, c);
    SplitLow(h, g, x, y);
    if h == g {
      XorByteInjective(h % 256, b, c);
    }
    if b == c {
      XorByteInjectiveLeft(b, h % 256, g % 256);
    }
  }

  lemma SplitLow(h: nat, g: nat, x: byte, y: byte)
    requires 256 * (h / 256) + x == 256 * (g / 256) + y
    ensures x == y && h / 256 == g / 256
  {}

  lemma InverseOfPrime()
    ensures PRIME * INVERSE % MODULUS == 1
  {
    assert PRIME * INVERSE == 0xce9650590f * MODULUS + 1;
  }

  lemma ModTimes(a: nat, b: nat, m: nat)
    requires m > 0
    ensures (a % m) * b % m == a * b % m
  {
    var q, r := a / m, a % m;
    assert a * b == r * b + (q * b) * m by {
      assert a == q * m + r;
    }
    RemainderFromDifference(a * b, r * b, q * b, m);
  }

  /** Multiplying by the prime can be undone. */
  lemma TimesUndone(h: u64)
    ensures Times(h) * INVERSE % MODULUS == h
  {
    ModTimes(h * PRIME, INVERSE, MODULUS);
    assert h * PRIME * INVERSE == PRIME * INVERSE * h;
    InverseOfPrime();
    ModTimes(PRIME * INVERSE, h, MODULUS);
  }

  lemma FoldInjective(h: u64, g: u64, b: byte, c: byte)
    requires Fold(h, b) == Fold(g, c)
    ensures h == g ==> b == c
    ensures b == c ==> h == g
  {
    hide Times, WithByte;
    TimesUndone(WithByte(h, b));
    TimesUndone(WithByte(g, c));
    WithByteInjective(h, g, b, c);
  }

  /** Two files that differ in exactly one byte that is hashed have different hashes. */
  lemma {:induction false} OneByteChangesHash(h: u64, a: seq<byte>, b: seq<byte>, i: nat)
    requires |a| == |b| && i < |a| && a[i] != b[i] && forall j :: 0 <= j < |a| && j != i ==> a[j] == b[j]
    ensures Hash(h, a) != Hash(h, b)
  {
    hide Fold;
    var last := |a| - 1;
    if i < last {
      OneByteChangesHash(h, a[..last], b[..last], i);
    } else {
      assert a[..last] == b[..last];
    }
    if Hash(h, a) == Hash(h, b) {
      FoldInjective(Hash(h, a[..last]), Hash(h, b[..last]), a[last], b[last]);
    }
  }
}

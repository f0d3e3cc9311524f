/** The fields of a UIPack blob. A field is written in front of what follows it and read from the front. */
module Fields {
  import opened Wrappers
  import opened Arithmetic
  import opened Bytes
  import opened PackData
  import opened StringTable

  const NONE_U32: u32 := 0xFFFF_FFFF
  const RECORD_SIZE: nat := 96
  const PORT_ENTRY_SIZE: nat := 8

  /** A value that was read, and the bytes after it. */
  datatype Parsed<+T> = Parsed(value: T, rest: seq<byte>)

  // Numbers

  function PutU32(n: u32, tail: seq<byte>): (r: seq<byte>)
    ensures |r| == 4 + |tail|
  {
    Le(n, 4) + tail
  }

  function GetU32(b: seq<byte>): Option<Parsed<u32>> {
    if |b| < 4 then None
    else
      Widths();
      Some(Parsed(FromLe(b[..4]), b[4..]))
  }

  function PutI32(n: i32, tail: seq<byte>): (r: seq<byte>)
    ensures |r| == 4 + |tail|
  {
    Widths();
    Le(Signed(n, 4), 4) + tail
  }

  function GetI32(b: seq<byte>): Option<Parsed<i32>> {
    if |b| < 4 then None
    else
      Widths();
      Some(Parsed(FromSigned(FromLe(b[..4]), 4), b[4..]))
  }

  function PutU64(n: u64, tail: seq<byte>): (r: seq<byte>)
    ensures |r| == 8 + |tail|
  {
    Le(n, 8) + tail
  }

  function GetU64(b: seq<byte>): Option<Parsed<u64>> {
    if |b| < 8 then None
    else
      Widths();
      Some(Parsed(FromLe(b[..8]), b[8..]))
  }

  function PutI64(n: i64, tail: seq<byte>): (r: seq<byte>)
    ensures |r| == 8 + |tail|
  {
    Widths();
    Le(Signed(n, 8), 8) + tail
  }

  function GetI64(b: seq<byte>): Option<Parsed<i64>> {
    if |b| < 8 then None
    else
      Widths();
      Some(Parsed(FromSigned(FromLe(b[..8]), 8), b[8..]))
  }

  lemma Front(n: nat, width: nat, tail: seq<byte>)
    requires n < Pow256(width)
    ensures var b := Le(n, width) + tail; FromLe(b[..width]) == n && b[width..] == tail
  {
    LeRoundTrip(n, width);
    assert (Le(n, width) + tail)[..width] == Le(n, width);
  }

  lemma U32RoundTrip(n: u32, tail: seq<byte>)
    ensures GetU32(PutU32(n, tail)) == Some(Parsed(n, tail))
  {
    hide Le, FromLe, Pow256;
    Widths();
    Front(n, 4, tail);
  }

  lemma I32RoundTrip(n: i32, tail: seq<byte>)
    ensures GetI32(PutI32(n, tail)) == Some(Parsed(n, tail))
  {
    hide Le, FromLe, Pow256, Signed, FromSigned;
    Widths();
    SignedRoundTrip(n, 4);
    Front(Signed(n, 4), 4, tail);
  }

  lemma U64RoundTrip(n: u64, tail: seq<byte>)
    ensures GetU64(PutU64(n, tail)) == Some(Parsed(n, tail))
  {
    hide Le, FromLe, Pow256;
    Widths();
    Front(n, 8, tail);
  }

  lemma I64RoundTrip(n: i64, tail: seq<byte>)
    ensures GetI64(PutI64(n, tail)) == Some(Parsed(n, tail))
  {
    hide Le, FromLe, Pow256, Signed, FromSigned;
    Widths();
    SignedRoundTrip(n, 8);
    Front(Signed(n, 8), 8, tail);
  }

  // Strings

  /** A table whose section has a size of 32 bits. */
  ghost predicate Usable(t: Table) {
    Valid(t) && |t.bytes| < LIMIT
  }

  /** The offset of an interned string. */
  function OffsetOf(t: Table, s: Str): u32 {
    if s in t.offsets then t.offsets[s] else 0
  }

  function PutString(t: Table, s: Str, tail: seq<byte>): (r: seq<byte>)
    ensures |r| == 4 + |tail|
  {
    PutU32(OffsetOf(t, s), tail)
  }

  function GetString(strings: seq<byte>, b: seq<byte>): Option<Parsed<Str>> {
    var offset :- GetU32(b);
    var s :- ReadString(strings, offset.value);
    Some(Parsed(s, offset.rest))
  }

  function PutOptionalString(t: Table, s: Option<Str>, tail: seq<byte>): (r: seq<byte>)
    ensures |r| == 4 + |tail|
  {
    PutU32(if s.Some? then OffsetOf(t, s.value) else NONE_U32, tail)
  }

  function GetOptionalString(strings: seq<byte>, b: seq<byte>): Option<Parsed<Option<Str>>> {
    var offset :- GetU32(b);
    if offset.value == NONE_U32 then Some(Parsed(None, offset.rest))
    else
      var s :- ReadString(strings, offset.value);
      Some(Parsed(Some(s), offset.rest))
  }

  lemma StringRoundTrip(t: Table, s: Str, tail: seq<byte>)
    requires Usable(t) && s in t.offsets
    ensures GetString(t.bytes, PutString(t, s, tail)) == Some(Parsed(s, tail))
  {
    hide PutU32, GetU32, ReadString;
    U32RoundTrip(t.offsets[s], tail);
  }

  lemma OptionalStringRoundTrip(t: Table, s: Option<Str>, tail: seq<byte>)
    requires Usable(t) && (s.Some? ==> s.value in t.offsets)
    ensures GetOptionalString(t.bytes, PutOptionalString(t, s, tail)) == Some(Parsed(s, tail))
  {
    hide PutU32, GetU32, ReadString;
    U32RoundTrip(if s.Some? then OffsetOf(t, s.value) else NONE_U32, tail);
    if s.Some? {
      NoSentinel(t, s.value);
    }
  }

  // Optional numbers: a presence word, or a bit of a set, and a value that is zero if there is none

  function ValueOr0(o: Option<int>): int {
    if o.Some? then o.value else 0
  }

  function PutPresentI32(o: Option<i32>, tail: seq<byte>): (r: seq<byte>)
    ensures |r| == 8 + |tail|
  {
    PutU32(if o.Some? then 1 else 0, PutI32(ValueOr0(o), tail))
  }

  function GetPresentI32(b: seq<byte>): Option<Parsed<Option<i32>>> {
    var present :- GetU32(b);
    var value :- GetI32(present.rest);
    if present.value == 0 then Some(Parsed(None, value.rest))
    else if present.value == 1 then Some(Parsed(Some(value.value), value.rest))
    else None
  }

  function PutPresentI64(o: Option<i64>, tail: seq<byte>): (r: seq<byte>)
    ensures |r| == 12 + |tail|
  {
    PutU32(if o.Some? then 1 else 0, PutI64(ValueOr0(o), tail))
  }

  function GetPresentI64(b: seq<byte>): Option<Parsed<Option<i64>>> {
    var present :- GetU32(b);
    var value :- GetI64(present.rest);
    if present.value == 0 then Some(Parsed(None, value.rest))
    else if present.value == 1 then Some(Parsed(Some(value.value), value.rest))
    else None
  }

  lemma PresentI32RoundTrip(o: Option<i32>, tail: seq<byte>)
    ensures GetPresentI32(PutPresentI32(o, tail)) == Some(Parsed(o, tail))
  {
    hide PutU32, GetU32, PutI32, GetI32;
    U32RoundTrip(if o.Some? then 1 else 0, PutI32(ValueOr0(o), tail));
    I32RoundTrip(ValueOr0(o), tail);
  }

  lemma PresentI64RoundTrip(o: Option<i64>, tail: seq<byte>)
    ensures GetPresentI64(PutPresentI64(o, tail)) == Some(Parsed(o, tail))
  {
    hide PutU32, GetU32, PutI64, GetI64;
    U32RoundTrip(if o.Some? then 1 else 0, PutI64(ValueOr0(o), tail));
    I64RoundTrip(ValueOr0(o), tail);
  }

  /** The optional value with a bit of a set of presence bits: a value without its bit is an error. */
  function Optional(bits: nat, k: nat, value: int): (r: Option<Option<int>>)
    ensures r.Some? && r.value.Some? ==> r.value.value == value
  {
    if Bit(bits, k) then Some(Some(value)) else if value == 0 then Some(None) else None
  }

  // Lists

  function PutAll<T>(xs: seq<T>, put: (T, seq<byte>) -> seq<byte>, tail: seq<byte>): seq<byte> {
    if xs == [] then tail else put(xs[0], PutAll(xs[1..], put, tail))
  }

  function GetAll<T>(n: nat, get: seq<byte> -> Option<Parsed<T>>, b: seq<byte>): Option<Parsed<seq<T>>> {
    if n == 0 then Some(Parsed([], b))
    else
      var first :- get(b);
      var others :- GetAll(n - 1, get, first.rest);
      Some(Parsed([first.value] + others.value, others.rest))
  }

  function Count(n: nat): u32 {
    if n < LIMIT then n else 0
  }

  function PutList<T>(xs: seq<T>, put: (T, seq<byte>) -> seq<byte>, tail: seq<byte>): (r: seq<byte>)
    ensures |r| >= 4
  {
    PutU32(Count(|xs|), PutAll(xs, put, tail))
  }

  /** A list whose elements take at least `size` bytes each: longer lists than the bytes can hold are refused. */
  function GetList<T>(get: seq<byte> -> Option<Parsed<T>>, size: nat, b: seq<byte>): Option<Parsed<seq<T>>>
    requires size > 0
  {
    var n :- GetU32(b);
    if n.value > |n.rest| / size then None else GetAll(n.value, get, n.rest)
  }

  ghost predicate ReadsBack<T(!new)>(x: T, put: (T, seq<byte>) -> seq<byte>, get: seq<byte> -> Option<Parsed<T>>,
                                     size: nat)
  {
    forall tail: seq<byte> :: get(put(x, tail)) == Some(Parsed(x, tail)) && |put(x, tail)| >= size + |tail|
  }

  lemma {:induction false} AllRoundTrip<T(!new)>(xs: seq<T>, put: (T, seq<byte>) -> seq<byte>,
                                                 get: seq<byte> -> Option<Parsed<T>>, size: nat, tail: seq<byte>)
    requires forall x :: x in xs ==> ReadsBack(x, put, get, size)
    ensures GetAll(|xs|, get, PutAll(xs, put, tail)) == Some(Parsed(xs, tail))
    ensures |PutAll(xs, put, tail)| >= |xs| * size + |tail|
  {
    if xs != [] {
      AllRoundTrip(xs[1..], put, get, size, tail);
      assert ReadsBack(xs[0], put, get, size);
      assert xs == [xs[0]] + xs[1..];
    }
  }

  lemma Fits(n: nat, size: nat, have: nat)
    requires size > 0 && have >= n * size
    ensures n <= have / size
  {
    var q := have / size;
    assert have < (q + 1) * size;
    if n >= q + 1 {
      ProductMonotone(q + 1, n, size);
    }
  }

  lemma ListRoundTrip<T(!new)>(xs: seq<T>, put: (T, seq<byte>) -> seq<byte>, get: seq<byte> -> Option<Parsed<T>>,
                               size: nat, tail: seq<byte>)
    requires size > 0 && |xs| < LIMIT && forall x :: x in xs ==> ReadsBack(x, put, get, size)
    ensures GetList(get, size, PutList(xs, put, tail)) == Some(Parsed(xs, tail))
    ensures |PutList(xs, put, tail)| >= 4 + |tail|
  {
    hide PutU32, GetU32, GetAll, PutAll, ReadsBack;
    var rest := PutAll(xs, put, tail);
    AllRoundTrip(xs, put, get, size, tail);
    U32RoundTrip(|xs|, rest);
    Fits(|xs|, size, |rest|);
  }
}

/** The decoders of blobs as they read: a cursor moves through the bytes of a blob (`BlobCursor`, `decode_*`). */
module BlobCursor {
  import opened Wrappers
  import opened Bytes
  import opened PackData
  import opened StringTable
  import opened Fields
  import opened Blobs

  /** A read gives what the parser of the format finds, and leaves the bytes after it. */
  ghost predicate Reads<T>(parsed: Option<Parsed<T>>, r: Option<T>, rest: seq<byte>) {
    if r.Some? then parsed == Some(Parsed(r.value, rest)) else parsed == None
  }

  /** The length of a list was read, and the list fits into the bytes that are left. */
  ghost predicate Counted(b: seq<byte>, size: nat, r: Option<u32>, rest: seq<byte>)
    requires size > 0
  {
    var n := GetU32(b);
    if r.Some? then n == Some(Parsed(r.value, rest)) && r.value <= |rest| / size
    else n.None? || n.value.value > |n.value.rest| / size
  }

  lemma ListCounted<T(!new)>(get: seq<byte> -> Option<Parsed<T>>, size: nat, b: seq<byte>, r: Option<u32>,
                             rest: seq<byte>)
    requires size > 0 && Counted(b, size, r, rest)
    ensures GetList(get, size, b) == if r.Some? then GetAll(r.value, get, rest) else None
  {
    hide GetU32, GetAll;
  }

  class Cursor {
    const bytes: seq<byte>
    var offset: nat

    constructor (bytes: seq<byte>)
      ensures Valid() && Rest() == bytes && this.bytes == bytes
    {
      this.bytes := bytes;
      offset := 0;
    }

    ghost predicate Valid()
      reads this
    {
      offset <= |bytes|
    }

    function Rest(): seq<byte>
      requires Valid()
      reads this
    {
      bytes[offset..]
    }

    method ReadExact(len: nat) returns (r: Option<seq<byte>>)
      requires Valid()
      modifies this
      ensures Valid()
      ensures r.Some? <==> len <= |old(Rest())|
      ensures r.Some? ==> r.value == old(Rest())[..len] && Rest() == old(Rest())[len..]
      ensures r.None? ==> offset == old(offset)
    {
      if offset + len > |bytes| {
        return None;
      }
      r := Some(bytes[offset..offset + len]);
      offset := offset + len;
    }

    method ReadU32() returns (r: Option<u32>)
      requires Valid()
      modifies this
      ensures Valid() && Reads(GetU32(old(Rest())), r, Rest())
    {
      var b :- ReadExact(4);
      Widths();
      return Some(FromLe(b));
    }

    method ReadI32() returns (r: Option<i32>)
      requires Valid()
      modifies this
      ensures Valid() && Reads(GetI32(old(Rest())), r, Rest())
    {
      var b :- ReadExact(4);
      Widths();
      return Some(FromSigned(FromLe(b), 4));
    }

    method ReadU64() returns (r: Option<u64>)
      requires Valid()
      modifies this
      ensures Valid() && Reads(GetU64(old(Rest())), r, Rest())
    {
      var b :- ReadExact(8);
      Widths();
      return Some(FromLe(b));
    }

    method ReadI64() returns (r: Option<i64>)
      requires Valid()
      modifies this
      ensures Valid() && Reads(GetI64(old(Rest())), r, Rest())
    {
      var b :- ReadExact(8);
      Widths();
      return Some(FromSigned(FromLe(b), 8));
    }

    method ReadStr(strings: seq<byte>) returns (r: Option<Str>)
      requires Valid()
      modifies this
      ensures Valid() && Reads(GetString(strings, old(Rest())), r, Rest())
    {
      hide GetU32, ReadString;
      var offset :- ReadU32();
      r := ReadString(strings, offset);
    }

    method ReadOptionalStr(strings: seq<byte>) returns (r: Option<Option<Str>>)
      requires Valid()
      modifies this
      ensures Valid() && Reads(GetOptionalString(strings, old(Rest())), r, Rest())
    {
      hide GetU32, ReadString;
      var offset :- ReadU32();
      if offset == NONE_U32 {
        return Some(None);
      }
      var s :- ReadString(strings, offset);
      return Some(Some(s));
    }

    method ReadPresentI32() returns (r: Option<Option<i32>>)
      requires Valid()
      modifies this
      ensures Valid() && Reads(GetPresentI32(old(Rest())), r, Rest())
    {
      hide GetU32, GetI32;
      var present :- ReadU32();
      var value :- ReadI32();
      return if present == 0 then Some(None) else if present == 1 then Some(Some(value)) else None;
    }

    method ReadPresentI64() returns (r: Option<Option<i64>>)
      requires Valid()
      modifies this
      ensures Valid() && Reads(GetPresentI64(old(Rest())), r, Rest())
    {
      hide GetU32, GetI64;
      var present :- ReadU32();
      var value :- ReadI64();
      return if present == 0 then Some(None) else if present == 1 then Some(Some(value)) else None;
    }

    /** The length of a list whose elements take at least `size` bytes. */
    method ReadCount(size: nat) returns (r: Option<u32>)
      requires Valid() && size > 0
      modifies this
      ensures Valid() && Counted(old(Rest()), size, r, Rest())
    {
      hide GetU32;
      var count :- ReadU32();
      return if count > |Rest()| / size then None else Some(count);
    }
  }

  // Lists, element by element

  /** The first elements of a list have been read. */
  ghost predicate SoFar<T(!new)>(get: seq<byte> -> Option<Parsed<T>>, n: nat, b: seq<byte>, values: seq<T>,
                                 rest: seq<byte>)
  {
    && |values| <= n
    && GetAll(n, get, b) == Prepended(values, GetAll(n - |values|, get, rest))
  }

  function Prepended<T>(values: seq<T>, p: Option<Parsed<seq<T>>>): Option<Parsed<seq<T>>> {
    if p.Some? then Some(Parsed(values + p.value.value, p.value.rest)) else None
  }

  lemma NextElement<T(!new)>(get: seq<byte> -> Option<Parsed<T>>, n: nat, b: seq<byte>, values: seq<T>,
                             rest: seq<byte>)
    requires SoFar(get, n, b, values, rest) && |values| < n
    ensures if get(rest).Some? then SoFar(get, n, b, values + [get(rest).value.value], get(rest).value.rest)
            else GetAll(n, get, b) == None
  {
    if get(rest).Some? {
      var others := GetAll(n - |values| - 1, get, get(rest).value.rest);
      if others.Some? {
        assert values + ([get(rest).value.value] + others.value.value) ==
               values + [get(rest).value.value] + others.value.value;
      }
    }
  }

  lemma ListEnds<T(!new)>(get: seq<byte> -> Option<Parsed<T>>, n: nat, b: seq<byte>, values: seq<T>, rest: seq<byte>)
    requires SoFar(get, n, b, values, rest) && |values| == n
    ensures GetAll(n, get, b) == Some(Parsed(values, rest))
  {
    assert values + [] == values;
  }

  lemma ListBegins<T(!new)>(get: seq<byte> -> Option<Parsed<T>>, n: nat, b: seq<byte>)
    ensures SoFar(get, n, b, [], b)
  {
    var p := GetAll(n, get, b);
    if p.Some? {
      assert [] + p.value.value == p.value.value;
    }
  }

  function AllStrings(n: nat, strings: seq<byte>, b: seq<byte>): Option<Parsed<seq<Str>>> {
    GetAll(n, rest => GetString(strings, rest), b)
  }

  /** The first strings have been read. */
  ghost predicate StringsSoFar(n: nat, strings: seq<byte>, b: seq<byte>, ss: seq<Str>, rest: seq<byte>) {
    SoFar(rest => GetString(strings, rest), n, b, ss, rest)
  }

  lemma StringsBegin(strings: seq<byte>, b: seq<byte>, r: Option<u32>, rest: seq<byte>)
    requires Counted(b, 4, r, rest)
    ensures if r.Some? then
              && GetStrings(strings, b) == AllStrings(r.value, strings, rest)
              && StringsSoFar(r.value, strings, rest, [], rest)
            else GetStrings(strings, b) == None
  {
    hide GetU32, GetString, GetAll, SoFar, Counted, GetList;
    var get := (rest: seq<byte>) => GetString(strings, rest);
    ListCounted(get, 4, b, r, rest);
    if r.Some? {
      ListBegins(get, r.value, rest);
    }
  }

  lemma NextString(n: nat, strings: seq<byte>, b: seq<byte>, ss: seq<Str>, rest: seq<byte>, s: Option<Str>,
                   after: seq<byte>)
    requires StringsSoFar(n, strings, b, ss, rest) && |ss| < n && Reads(GetString(strings, rest), s, after)
    ensures if s.Some? then StringsSoFar(n, strings, b, ss + [s.value], after) else AllStrings(n, strings, b) == None
  {
    hide GetString, GetAll, SoFar;
    NextElement(rest => GetString(strings, rest), n, b, ss, rest);
  }

  lemma StringsEnd(n: nat, strings: seq<byte>, b: seq<byte>, ss: seq<Str>, rest: seq<byte>)
    requires StringsSoFar(n, strings, b, ss, rest) && |ss| == n
    ensures AllStrings(n, strings, b) == Some(Parsed(ss, rest))
  {
    hide GetString, GetAll, SoFar;
    ListEnds(rest => GetString(strings, rest), n, b, ss, rest);
  }

  method DecodeStringOffsets(cursor: Cursor, strings: seq<byte>) returns (r: Option<seq<Str>>)
    requires cursor.Valid()
    modifies cursor
    ensures cursor.Valid() && Reads(GetStrings(strings, old(cursor.Rest())), r, cursor.Rest())
  {
    hide GetString, GetStrings, Counted, AllStrings, StringsSoFar;
    ghost var start := cursor.Rest();
    var length := cursor.ReadCount(4);
    StringsBegin(strings, start, length, cursor.Rest());
    if length.None? {
      return None;
    }
    var count := length.value;
    var values: seq<Str> := [];
    ghost var b := cursor.Rest();
    for k := 0 to count
      invariant cursor.Valid() && |values| == k && StringsSoFar(count, strings, b, values, cursor.Rest())
    {
      ghost var rest := cursor.Rest();
      var s := cursor.ReadStr(strings);
      NextString(count, strings, b, values, rest, s, cursor.Rest());
      if s == None {
        return None;
      }
      values := values + [s.value];
    }
    StringsEnd(count, strings, b, values, cursor.Rest());
    return Some(values);
  }

  method DecodeOperand(cursor: Cursor, strings: seq<byte>) returns (r: Option<OperandRecord>)
    requires cursor.Valid()
    modifies cursor
    ensures cursor.Valid() && Reads(GetOperand(strings, old(cursor.Rest())), r, cursor.Rest())
  {
    hide GetU32, GetString, GetStrings, GetOptionalString, GetPresentI32, GetPresentI64, Bit;
    var name :- cursor.ReadStr(strings);
    var typ :- cursor.ReadStr(strings);
    var bits :- cursor.ReadU32();
    if bits >= 16 {
      return None;
    }
    var flags :- DecodeStringOffsets(cursor, strings);
    var flagsRead :- DecodeStringOffsets(cursor, strings);
    var flagsWrite :- DecodeStringOffsets(cursor, strings);
    var memBase :- cursor.ReadOptionalStr(strings);
    var memIndex :- cursor.ReadOptionalStr(strings);
    var memScale :- cursor.ReadPresentI32();
    var memDisp :- cursor.ReadPresentI64();
    var role :- cursor.ReadOptionalStr(strings);
    return Some(OperandRecord(name, typ, Bit(bits, 0), Bit(bits, 1), Bit(bits, 2), flags, flagsRead, flagsWrite,
                              memBase, memIndex, memScale, memDisp, Bit(bits, 3), role));
  }

  /** The operands of a blob, which must be read to its end. */
  function AllOperands(n: nat, strings: seq<byte>, b: seq<byte>): Option<Parsed<seq<OperandRecord>>> {
    GetAll(n, rest => GetOperand(strings, rest), b)
  }

  /** The first operands have been read. */
  ghost predicate OperandsSoFar(n: nat, strings: seq<byte>, b: seq<byte>, os: seq<OperandRecord>, rest: seq<byte>) {
    SoFar(rest => GetOperand(strings, rest), n, b, os, rest)
  }

  lemma OperandsBegin(strings: seq<byte>, b: seq<byte>, r: Option<u32>, rest: seq<byte>)
    requires Counted(b, MIN_OPERAND_BLOB_BYTES, r, rest)
    ensures if r.Some? then
              && DecodeOperands(strings, b) == Whole(AllOperands(r.value, strings, rest))
              && OperandsSoFar(r.value, strings, rest, [], rest)
            else DecodeOperands(strings, b) == None
  {
    hide GetU32, GetOperand, GetAll, SoFar, Counted, GetList;
    var get := (rest: seq<byte>) => GetOperand(strings, rest);
    ListCounted(get, MIN_OPERAND_BLOB_BYTES, b, r, rest);
    if r.Some? {
      ListBegins(get, r.value, rest);
    }
  }

  lemma NextOperand(n: nat, strings: seq<byte>, b: seq<byte>, os: seq<OperandRecord>, rest: seq<byte>,
                    o: Option<OperandRecord>, after: seq<byte>)
    requires OperandsSoFar(n, strings, b, os, rest) && |os| < n && Reads(GetOperand(strings, rest), o, after)
    ensures if o.Some? then OperandsSoFar(n, strings, b, os + [o.value], after) else AllOperands(n, strings, b) == None
  {
    hide GetOperand, GetAll, SoFar;
    NextElement(rest => GetOperand(strings, rest), n, b, os, rest);
  }

  lemma OperandsEnd(n: nat, strings: seq<byte>, b: seq<byte>, os: seq<OperandRecord>, rest: seq<byte>)
    requires OperandsSoFar(n, strings, b, os, rest) && |os| == n
    ensures AllOperands(n, strings, b) == Some(Parsed(os, rest))
  {
    hide GetOperand, GetAll, SoFar;
    ListEnds(rest => GetOperand(strings, rest), n, b, os, rest);
  }

  method DecodeOperandBlob(strings: seq<byte>, bytes: seq<byte>) returns (r: Option<seq<OperandRecord>>)
    ensures r == DecodeOperands(strings, bytes)
  {
    hide GetOperand, Counted, DecodeOperands, AllOperands, OperandsSoFar, Reads;
    var cursor := new Cursor(bytes);
    var length := cursor.ReadCount(MIN_OPERAND_BLOB_BYTES);
    OperandsBegin(strings, bytes, length, cursor.Rest());
    if length.None? {
      return None;
    }
    var count := length.value;
    var operands: seq<OperandRecord> := [];
    ghost var b := cursor.Rest();
    for k := 0 to count
      invariant cursor.Valid() && |operands| == k && OperandsSoFar(count, strings, b, operands, cursor.Rest())
    {
      ghost var rest := cursor.Rest();
      var o := DecodeOperand(cursor, strings);
      NextOperand(count, strings, b, operands, rest, o, cursor.Rest());
      if o == None {
        return None;
      }
      operands := operands + [o.value];
    }
    OperandsEnd(count, strings, b, operands, cursor.Rest());
    return if cursor.Rest() == [] then Some(operands) else None;
  }

  method DecodeLatency(cursor: Cursor, strings: seq<byte>) returns (r: Option<LatencyRecord>)
    requires cursor.Valid()
    modifies cursor
    ensures cursor.Valid() && Reads(GetLatency(strings, old(cursor.Rest())), r, cursor.Rest())
  {
    hide GetU32, GetI32, GetString, LatencyFrom;
    var start :- cursor.ReadStr(strings);
    var target :- cursor.ReadStr(strings);
    var cycles :- cursor.ReadI32();
    var bits :- cursor.ReadU32();
    if bits >= 16 {
      return None;
    }
    var addr :- cursor.ReadI32();
    var index :- cursor.ReadI32();
    var mem :- cursor.ReadI32();
    var same :- cursor.ReadI32();
    r := LatencyFrom(start, target, cycles, bits, addr, index, mem, same);
  }

  function AllLatencies(n: nat, strings: seq<byte>, b: seq<byte>): Option<Parsed<seq<LatencyRecord>>> {
    GetAll(n, rest => GetLatency(strings, rest), b)
  }

  /** The first latencies have been read. */
  ghost predicate LatenciesSoFar(n: nat, strings: seq<byte>, b: seq<byte>, ls: seq<LatencyRecord>, rest: seq<byte>) {
    SoFar(rest => GetLatency(strings, rest), n, b, ls, rest)
  }

  lemma LatenciesBegin(strings: seq<byte>, b: seq<byte>, r: Option<u32>, rest: seq<byte>)
    requires Counted(b, MIN_LATENCY_BLOB_BYTES, r, rest)
    ensures if r.Some? then
              && DecodeLatencies(strings, b) == Whole(AllLatencies(r.value, strings, rest))
              && LatenciesSoFar(r.value, strings, rest, [], rest)
            else DecodeLatencies(strings, b) == None
  {
    hide GetU32, GetLatency, GetAll, SoFar, Counted, GetList;
    var get := (rest: seq<byte>) => GetLatency(strings, rest);
    ListCounted(get, MIN_LATENCY_BLOB_BYTES, b, r, rest);
    if r.Some? {
      ListBegins(get, r.value, rest);
    }
  }

  lemma NextLatency(n: nat, strings: seq<byte>, b: seq<byte>, ls: seq<LatencyRecord>, rest: seq<byte>,
                    l: Option<LatencyRecord>, after: seq<byte>)
    requires LatenciesSoFar(n, strings, b, ls, rest) && |ls| < n && Reads(GetLatency(strings, rest), l, after)
    ensures if l.Some? then LatenciesSoFar(n, strings, b, ls + [l.value], after) else AllLatencies(n, strings, b) == None
  {
    hide GetLatency, GetAll, SoFar;
    NextElement(rest => GetLatency(strings, rest), n, b, ls, rest);
  }

  lemma LatenciesEnd(n: nat, strings: seq<byte>, b: seq<byte>, ls: seq<LatencyRecord>, rest: seq<byte>)
    requires LatenciesSoFar(n, strings, b, ls, rest) && |ls| == n
    ensures AllLatencies(n, strings, b) == Some(Parsed(ls, rest))
  {
    hide GetLatency, GetAll, SoFar;
    ListEnds(rest => GetLatency(strings, rest), n, b, ls, rest);
  }

  method DecodeLatencyBlob(strings: seq<byte>, bytes: seq<byte>) returns (r: Option<seq<LatencyRecord>>)
    ensures r == DecodeLatencies(strings, bytes)
  {
    hide GetLatency, Counted, DecodeLatencies, AllLatencies, LatenciesSoFar, Reads;
    var cursor := new Cursor(bytes);
    var length := cursor.ReadCount(MIN_LATENCY_BLOB_BYTES);
    LatenciesBegin(strings, bytes, length, cursor.Rest());
    if length.None? {
      return None;
    }
    var count := length.value;
    var latencies: seq<LatencyRecord> := [];
    ghost var b := cursor.Rest();
    for k := 0 to count
      invariant cursor.Valid() && |latencies| == k && LatenciesSoFar(count, strings, b, latencies, cursor.Rest())
    {
      ghost var rest := cursor.Rest();
      var l := DecodeLatency(cursor, strings);
      NextLatency(count, strings, b, latencies, rest, l, cursor.Rest());
      if l == None {
        return None;
      }
      latencies := latencies + [l.value];
    }
    LatenciesEnd(count, strings, b, latencies, cursor.Rest());
    return if cursor.Rest() == [] then Some(latencies) else None;
  }

  method DecodeStringListBlob(strings: seq<byte>, bytes: seq<byte>) returns (r: Option<seq<Str>>)
    ensures r == DecodeStringList(strings, bytes)
  {
    hide GetStrings;
    var cursor := new Cursor(bytes);
    var values :- DecodeStringOffsets(cursor, strings);
    return if cursor.Rest() == [] then Some(values) else None;
  }

  // Maps: a key must not occur twice

  /** The entries read so far are in the map; later ones are still to be inserted. */
  ghost predicate Inserted<V>(es: seq<(Str, V)>, m: map<Str, V>) {
    InsertAll(map[], es) == Some(m)
  }

  lemma {:induction false} InsertLast<V>(m0: map<Str, V>, es: seq<(Str, V)>, e: (Str, V))
    ensures var m := InsertAll(m0, es);
            InsertAll(m0, es + [e]) ==
            if m.None? || e.0 in m.value then None else Some(m.value[e.0 := e.1])
    decreases |es|
  {
    if es == [] {
      assert es + [e] == [e] && [e][1..] == [];
    } else if es[0].0 !in m0 {
      assert (es + [e])[1..] == es[1..] + [e];
      InsertLast(m0[es[0].0 := es[0].1], es[1..], e);
    }
  }

  lemma {:induction false} InsertFails<V>(m0: map<Str, V>, es: seq<(Str, V)>, more: seq<(Str, V)>)
    requires InsertAll(m0, es) == None
    ensures InsertAll(m0, es + more) == None
    decreases |es|
  {
    if es != [] && es[0].0 !in m0 {
      assert (es + more)[1..] == es[1..] + more;
      InsertFails(m0[es[0].0 := es[0].1], es[1..], more);
    }
  }

  /** A key that occurs twice makes the map fail, whatever follows. */
  lemma Duplicate<V(!new)>(get: seq<byte> -> Option<Parsed<(Str, V)>>, n: nat, b: seq<byte>, es: seq<(Str, V)>,
                           m: map<Str, V>, e: (Str, V), rest: seq<byte>)
    requires Inserted(es, m) && e.0 in m && SoFar(get, n, b, es + [e], rest)
    ensures var all := GetAll(n, get, b); all.None? || InsertAll(map[], all.value.value) == None
  {
    InsertLast(map[], es, e);
    var p := GetAll(n - |es| - 1, get, rest);
    if p.Some? {
      InsertFails(map[], es + [e], p.value.value);
    }
  }

  lemma EmptyInserted<V>()
    ensures Inserted<V>([], map[])
  {}

  lemma InsertOne<V>(es: seq<(Str, V)>, m: map<Str, V>, e: (Str, V))
    requires Inserted(es, m) && e.0 !in m
    ensures Inserted(es + [e], m[e.0 := e.1])
  {
    InsertLast(map[], es, e);
  }

  /** Entries that make up a map. */
  function AsMap<V>(p: Option<Parsed<seq<(Str, V)>>>): Option<Parsed<map<Str, V>>> {
    var es :- p;
    var m :- InsertAll(map[], es.value);
    Some(Parsed(m, es.rest))
  }

  lemma MapEnds<V(!new)>(get: seq<byte> -> Option<Parsed<(Str, V)>>, n: nat, b: seq<byte>, es: seq<(Str, V)>,
                         m: map<Str, V>, rest: seq<byte>)
    requires SoFar(get, n, b, es, rest) && |es| == n && Inserted(es, m)
    ensures AsMap(GetAll(n, get, b)) == Some(Parsed(m, rest))
  {
    hide GetAll, SoFar, InsertAll;
    ListEnds(get, n, b, es, rest);
  }

  lemma MapFails<V(!new)>(get: seq<byte> -> Option<Parsed<(Str, V)>>, n: nat, b: seq<byte>)
    requires GetAll(n, get, b) == None
    ensures AsMap(GetAll(n, get, b)) == None
  {}

  lemma MapDuplicate<V(!new)>(get: seq<byte> -> Option<Parsed<(Str, V)>>, n: nat, b: seq<byte>, es: seq<(Str, V)>,
                              m: map<Str, V>, e: (Str, V), rest: seq<byte>)
    requires Inserted(es, m) && e.0 in m && SoFar(get, n, b, es + [e], rest)
    ensures AsMap(GetAll(n, get, b)) == None
  {
    hide GetAll, SoFar, InsertAll, Inserted;
    Duplicate(get, n, b, es, m, e, rest);
  }

  method DecodePair(cursor: Cursor, strings: seq<byte>) returns (r: Option<(Str, Str)>)
    requires cursor.Valid()
    modifies cursor
    ensures cursor.Valid() && Reads(GetPair(strings, old(cursor.Rest())), r, cursor.Rest())
  {
    hide GetString;
    var key :- cursor.ReadStr(strings);
    var value :- cursor.ReadStr(strings);
    return Some((key, value));
  }

  method DecodePairs(cursor: Cursor, strings: seq<byte>, count: nat) returns (r: Option<map<Str, Str>>)
    requires cursor.Valid()
    modifies cursor
    ensures cursor.Valid()
    ensures Reads(AsMap(GetAll(count, rest => GetPair(strings, rest), old(cursor.Rest()))), r, cursor.Rest())
  {
    hide GetPair, GetAll, SoFar, InsertAll, Inserted, Prepended, AsMap;
    ghost var get := (rest: seq<byte>) => GetPair(strings, rest);
    var values: map<Str, Str> := map[];
    ghost var b, es := cursor.Rest(), [];
    ListBegins(get, count, b);
    EmptyInserted<Str>();
    for k := 0 to count
      invariant cursor.Valid() && |es| == k && SoFar(get, count, b, es, cursor.Rest()) && Inserted(es, values)
    {
      NextElement(get, count, b, es, cursor.Rest());
      var pair := DecodePair(cursor, strings);
      if pair.None? {
        MapFails(get, count, b);
        return None;
      }
      var e := pair.value;
      if e.0 in values {
        MapDuplicate(get, count, b, es, values, e, cursor.Rest());
        return None;
      }
      InsertOne(es, values, e);
      values := values[e.0 := e.1];
      es := es + [e];
    }
    MapEnds(get, count, b, es, values, cursor.Rest());
    return Some(values);
  }

  method DecodeStringMapBlob(strings: seq<byte>, bytes: seq<byte>) returns (r: Option<map<Str, Str>>)
    ensures r == DecodeStringMap(strings, bytes)
  {
    hide GetU32, GetPair, GetAll, InsertAll, Counted, GetList, DecodeStringMap, AsMap;
    StringMapIs(strings, bytes);
    ghost var get := (rest: seq<byte>) => GetPair(strings, rest);
    var cursor := new Cursor(bytes);
    ghost var start := cursor.Rest();
    var length := cursor.ReadCount(8);
    ListCounted(get, 8, start, length, cursor.Rest());
    if length.None? {
      NoEntries<Str>();
      return None;
    }
    var values :- DecodePairs(cursor, strings, length.value);
    return if cursor.Rest() == [] then Some(values) else None;
  }

  lemma StringMapIs(strings: seq<byte>, b: seq<byte>)
    ensures DecodeStringMap(strings, b) == Whole(AsMap(GetList(rest => GetPair(strings, rest), 8, b)))
  {
    hide GetPair, InsertAll, GetList;
  }

  lemma NoEntries<V>()
    ensures AsMap<V>(None) == None
  {}

  method DecodePort(cursor: Cursor, strings: seq<byte>) returns (r: Option<(Str, i32)>)
    requires cursor.Valid()
    modifies cursor
    ensures cursor.Valid() && Reads(GetPort(strings, old(cursor.Rest())), r, cursor.Rest())
  {
    hide GetString, GetI32;
    var port :- cursor.ReadStr(strings);
    var count :- cursor.ReadI32();
    return Some((port, count));
  }

  method DecodePortEntries(cursor: Cursor, strings: seq<byte>, count: nat) returns (r: Option<map<Str, i32>>)
    requires cursor.Valid()
    modifies cursor
    ensures cursor.Valid()
    ensures Reads(AsMap(GetAll(count, rest => GetPort(strings, rest), old(cursor.Rest()))), r, cursor.Rest())
  {
    hide GetPort, GetAll, SoFar, InsertAll, Inserted, Prepended, AsMap;
    ghost var get := (rest: seq<byte>) => GetPort(strings, rest);
    var ports: map<Str, i32> := map[];
    ghost var b, es := cursor.Rest(), [];
    ListBegins(get, count, b);
    EmptyInserted<i32>();
    for k := 0 to count
      invariant cursor.Valid() && |es| == k && SoFar(get, count, b, es, cursor.Rest()) && Inserted(es, ports)
    {
      NextElement(get, count, b, es, cursor.Rest());
      var port := DecodePort(cursor, strings);
      if port.None? {
        MapFails(get, count, b);
        return None;
      }
      var e := port.value;
      if e.0 in ports {
        MapDuplicate(get, count, b, es, ports, e, cursor.Rest());
        return None;
      }
      InsertOne(es, ports, e);
      ports := ports[e.0 := e.1];
      es := es + [e];
    }
    MapEnds(get, count, b, es, ports, cursor.Rest());
    return Some(ports);
  }

  method DecodePorts(cursor: Cursor, strings: seq<byte>) returns (r: Option<map<Str, i32>>)
    requires cursor.Valid()
    modifies cursor
    ensures cursor.Valid() && Reads(GetPorts(strings, old(cursor.Rest())), r, cursor.Rest())
  {
    hide GetU32, GetPort, GetAll, InsertAll, Counted, GetList, GetPorts, AsMap;
    ghost var get := (rest: seq<byte>) => GetPort(strings, rest);
    ghost var start := cursor.Rest();
    PortsAre(strings, start);
    var length := cursor.ReadCount(PORT_ENTRY_SIZE);
    ListCounted(get, PORT_ENTRY_SIZE, start, length, cursor.Rest());
    if length.None? {
      NoEntries<i32>();
      return None;
    }
    r := DecodePortEntries(cursor, strings, length.value);
  }

  lemma PortsAre(strings: seq<byte>, b: seq<byte>)
    ensures GetPorts(strings, b) == AsMap(GetList(rest => GetPort(strings, rest), PORT_ENTRY_SIZE, b))
  {
    hide GetPort, InsertAll, GetList;
  }

  method DecodeNumbers(cursor: Cursor) returns (r: Option<Numbers>)
    requires cursor.Valid()
    modifies cursor
    ensures cursor.Valid() && Reads(GetNumbers(old(cursor.Rest())), r, cursor.Rest())
  {
    hide GetU32, GetI32, GetU64;
    var uops :- cursor.ReadI32();
    var retireSlots :- cursor.ReadI32();
    var uopsMite :- cursor.ReadI32();
    var uopsMs :- cursor.ReadI32();
    var tp :- cursor.ReadU64();
    var divCycles :- cursor.ReadU32();
    var complexDecoder :- cursor.ReadU32();
    var nAvailable :- cursor.ReadU32();
    return Some(Numbers(uops, retireSlots, uopsMite, uopsMs, tp, divCycles, complexDecoder, nAvailable));
  }

  method DecodeOptionalPorts(cursor: Cursor, strings: seq<byte>, present: bool)
    returns (r: Option<Option<map<Str, i32>>>)
    requires cursor.Valid()
    modifies cursor
    ensures cursor.Valid() && Reads(GetOptionalPorts(strings, present, old(cursor.Rest())), r, cursor.Rest())
  {
    hide GetU32, GetPorts;
    if present {
      var ports :- DecodePorts(cursor, strings);
      return Some(Some(ports));
    }
    var count :- cursor.ReadU32();
    return if count == 0 then Some(None) else None;
  }

  method DecodeVariant(cursor: Cursor, strings: seq<byte>) returns (r: Option<(Str, VariantRecord)>)
    requires cursor.Valid()
    modifies cursor
    ensures cursor.Valid() && Reads(GetVariant(strings, old(cursor.Rest())), r, cursor.Rest())
  {
    hide GetU32, GetString, GetNumbers, GetOptionalPorts, VariantFrom, Bit;
    var name :- cursor.ReadStr(strings);
    var bits :- cursor.ReadU32();
    if bits >= 512 {
      return None;
    }
    var numbers :- DecodeNumbers(cursor);
    var ports :- DecodeOptionalPorts(cursor, strings, Bit(bits, 5));
    var v :- VariantFrom(bits, numbers, ports);
    return Some((name, v));
  }

  method DecodeVariantEntries(cursor: Cursor, strings: seq<byte>, count: nat)
    returns (r: Option<map<Str, VariantRecord>>)
    requires cursor.Valid()
    modifies cursor
    ensures cursor.Valid()
    ensures Reads(AsMap(GetAll(count, rest => GetVariant(strings, rest), old(cursor.Rest()))), r, cursor.Rest())
  {
    hide GetVariant, GetAll, SoFar, InsertAll, Inserted, Prepended, AsMap;
    ghost var get := (rest: seq<byte>) => GetVariant(strings, rest);
    var variants: map<Str, VariantRecord> := map[];
    ghost var b, es := cursor.Rest(), [];
    ListBegins(get, count, b);
    EmptyInserted<VariantRecord>();
    for k := 0 to count
      invariant cursor.Valid() && |es| == k && SoFar(get, count, b, es, cursor.Rest()) && Inserted(es, variants)
    {
      NextElement(get, count, b, es, cursor.Rest());
      var entry := DecodeVariant(cursor, strings);
      if entry.None? {
        MapFails(get, count, b);
        return None;
      }
      var e := entry.value;
      if e.0 in variants {
        MapDuplicate(get, count, b, es, variants, e, cursor.Rest());
        return None;
      }
      InsertOne(es, variants, e);
      variants := variants[e.0 := e.1];
      es := es + [e];
    }
    MapEnds(get, count, b, es, variants, cursor.Rest());
    return Some(variants);
  }

  lemma VariantsAre(strings: seq<byte>, b: seq<byte>)
    ensures DecodeVariants(strings, b) ==
            Whole(AsMap(GetList(rest => GetVariant(strings, rest), MIN_VARIANT_BLOB_BYTES, b)))
  {
    hide GetVariant, InsertAll, GetList;
  }

  method DecodeVariantBlob(strings: seq<byte>, bytes: seq<byte>) returns (r: Option<map<Str, VariantRecord>>)
    ensures r == DecodeVariants(strings, bytes)
  {
    hide GetU32, GetVariant, GetAll, InsertAll, Counted, GetList, DecodeVariants, AsMap;
    VariantsAre(strings, bytes);
    ghost var get := (rest: seq<byte>) => GetVariant(strings, rest);
    var cursor := new Cursor(bytes);
    ghost var start := cursor.Rest();
    var length := cursor.ReadCount(MIN_VARIANT_BLOB_BYTES);
    ListCounted(get, MIN_VARIANT_BLOB_BYTES, start, length, cursor.Rest());
    if length.None? {
      NoEntries<VariantRecord>();
      return None;
    }
    var count := length.value;
    var variants :- DecodeVariantEntries(cursor, strings, count);
    return if cursor.Rest() == [] then Some(variants) else None;
  }
}

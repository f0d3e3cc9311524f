/** The encoders of blobs as they write: fields are pushed to the end of a buffer (`push_*`, `encode_*`). What is still to
    be written is a ghost parameter `tail`: a buffer and its tail make up the format. */
module BlobWriter {
  import opened Wrappers
  import opened Bytes
  import opened PackData
  import opened StringTable
  import opened Fields
  import opened Blobs

  method PushU32(bytes: seq<byte>, n: u32, ghost tail: seq<byte>) returns (r: seq<byte>)
    ensures r + tail == bytes + PutU32(n, tail)
  {
    r := bytes + Le(n, 4);
    assert r + tail == bytes + (Le(n, 4) + tail);
  }

  method PushI32(bytes: seq<byte>, n: i32, ghost tail: seq<byte>) returns (r: seq<byte>)
    ensures r + tail == bytes + PutI32(n, tail)
  {
    Widths();
    r := bytes + Le(Signed(n, 4), 4);
    assert r + tail == bytes + (Le(Signed(n, 4), 4) + tail);
  }

  method PushU64(bytes: seq<byte>, n: u64, ghost tail: seq<byte>) returns (r: seq<byte>)
    ensures r + tail == bytes + PutU64(n, tail)
  {
    r := bytes + Le(n, 8);
    assert r + tail == bytes + (Le(n, 8) + tail);
  }

  method PushI64(bytes: seq<byte>, n: i64, ghost tail: seq<byte>) returns (r: seq<byte>)
    ensures r + tail == bytes + PutI64(n, tail)
  {
    Widths();
    r := bytes + Le(Signed(n, 8), 8);
    assert r + tail == bytes + (Le(Signed(n, 8), 8) + tail);
  }

  /** The offset of a string that has been interned; any other string is an error. */
  method PushString(bytes: seq<byte>, t: Table, s: Str, ghost tail: seq<byte>) returns (r: Option<seq<byte>>)
    ensures r.Some? <==> s in t.offsets
    ensures r.Some? ==> r.value + tail == bytes + PutString(t, s, tail)
  {
    if s !in t.offsets {
      return None;
    }
    var b := PushU32(bytes, t.offsets[s], tail);
    return Some(b);
  }

  method PushOptionalString(bytes: seq<byte>, t: Table, s: Option<Str>, ghost tail: seq<byte>)
    returns (r: Option<seq<byte>>)
    ensures r.Some? <==> OptionInterned(t, s)
    ensures r.Some? ==> r.value + tail == bytes + PutOptionalString(t, s, tail)
  {
    if s.Some? {
      r := PushString(bytes, t, s.value, tail);
    } else {
      var b := PushU32(bytes, NONE_U32, tail);
      r := Some(b);
    }
  }

  method PushPresentI32(bytes: seq<byte>, o: Option<i32>, ghost tail: seq<byte>) returns (r: seq<byte>)
    ensures r + tail == bytes + PutPresentI32(o, tail)
  {
    hide PutU32, PutI32;
    r := PushU32(bytes, if o.Some? then 1 else 0, PutI32(ValueOr0(o), tail));
    r := PushI32(r, ValueOr0(o), tail);
  }

  method PushPresentI64(bytes: seq<byte>, o: Option<i64>, ghost tail: seq<byte>) returns (r: seq<byte>)
    ensures r + tail == bytes + PutPresentI64(o, tail)
  {
    hide PutU32, PutI64;
    r := PushU32(bytes, if o.Some? then 1 else 0, PutI64(ValueOr0(o), tail));
    r := PushI64(r, ValueOr0(o), tail);
  }

  lemma PutNext<T>(xs: seq<T>, k: nat, put: (T, seq<byte>) -> seq<byte>, tail: seq<byte>)
    requires k < |xs|
    ensures PutAll(xs[k..], put, tail) == put(xs[k], PutAll(xs[k + 1..], put, tail))
  {
    assert xs[k..][1..] == xs[k + 1..];
  }

  lemma PutEnds<T>(xs: seq<T>, put: (T, seq<byte>) -> seq<byte>, tail: seq<byte>)
    ensures PutAll(xs[|xs|..], put, tail) == tail && xs[0..] == xs
  {}

  /** A list of strings; all must have been interned. */
  method EncodeStrings(bytes: seq<byte>, t: Table, ss: seq<Str>, ghost tail: seq<byte>) returns (r: Option<seq<byte>>)
    ensures r.Some? <==> AllInterned(t, ss)
    ensures r.Some? ==> r.value + tail == bytes + PutStrings(t, ss, tail)
  {
    hide PutU32, PutString, PutAll;
    if |ss| >= LIMIT {
      return None;
    }
    ghost var put := (s: Str, rest: seq<byte>) => PutString(t, s, rest);
    PutEnds(ss, put, tail);
    var out := PushU32(bytes, |ss|, PutAll(ss, put, tail));
    for k := 0 to |ss|
      invariant out + PutAll(ss[k..], put, tail) == bytes + PutStrings(t, ss, tail)
      invariant forall j :: 0 <= j < k ==> ss[j] in t.offsets
    {
      PutNext(ss, k, put, tail);
      assert ss[k] in ss;
      out :- PushString(out, t, ss[k], PutAll(ss[k + 1..], put, tail));
    }
    return Some(out);
  }

  method EncodeMemory(bytes: seq<byte>, t: Table, o: OperandRecord, ghost tail: seq<byte>)
    returns (r: Option<seq<byte>>)
    ensures r.Some? <==>
            OptionInterned(t, o.memBase) && OptionInterned(t, o.memIndex) && OptionInterned(t, o.memOperandRole)
    ensures r.Some? ==> r.value + tail == bytes + PutMemory(t, o, tail)
  {
    hide PutOptionalString, PutPresentI32, PutPresentI64, OptionInterned;
    ghost var b5 := PutOptionalString(t, o.memOperandRole, tail);
    ghost var b4 := PutPresentI64(o.memDisp, b5);
    ghost var b3 := PutPresentI32(o.memScale, b4);
    var out :- PushOptionalString(bytes, t, o.memBase, PutOptionalString(t, o.memIndex, b3));
    out :- PushOptionalString(out, t, o.memIndex, b3);
    out := PushPresentI32(out, o.memScale, b4);
    out := PushPresentI64(out, o.memDisp, b5);
    r := PushOptionalString(out, t, o.memOperandRole, tail);
  }

  method EncodeOperand(bytes: seq<byte>, t: Table, o: OperandRecord, ghost tail: seq<byte>)
    returns (r: Option<seq<byte>>)
    ensures r.Some? <==> OperandInterned(t, o)
    ensures r.Some? ==> r.value + tail == bytes + PutOperand(t, o, tail)
  {
    hide PutU32, PutString, PutStrings, PutMemory, OperandBits, AllInterned, OptionInterned;
    ghost var b1 := PutMemory(t, o, tail);
    ghost var a3 := PutStrings(t, o.flagsWrite, b1);
    ghost var a2 := PutStrings(t, o.flagsRead, a3);
    ghost var a1 := PutStrings(t, o.flags, a2);
    ghost var a0 := PutU32(OperandBits(o), a1);
    var out :- PushString(bytes, t, o.name, PutString(t, o.typ, a0));
    out :- PushString(out, t, o.typ, a0);
    out := PushU32(out, OperandBits(o), a1);
    out :- EncodeStrings(out, t, o.flags, a2);
    out :- EncodeStrings(out, t, o.flagsRead, a3);
    out :- EncodeStrings(out, t, o.flagsWrite, b1);
    r := EncodeMemory(out, t, o, tail);
  }

  method EncodeOperandBlob(t: Table, os: seq<OperandRecord>) returns (r: Option<seq<byte>>)
    ensures r == EncodeOperands(t, os)
  {
    hide PutU32, PutOperand, PutAll, OperandInterned;
    if |os| >= LIMIT {
      return None;
    }
    ghost var put := (o: OperandRecord, rest: seq<byte>) => PutOperand(t, o, rest);
    PutEnds(os, put, []);
    var out := PushU32([], |os|, PutAll(os, put, []));
    for k := 0 to |os|
      invariant out + PutAll(os[k..], put, []) == PutList(os, put, [])
      invariant forall j :: 0 <= j < k ==> OperandInterned(t, os[j])
    {
      PutNext(os, k, put, []);
      assert os[k] in os;
      out :- EncodeOperand(out, t, os[k], PutAll(os[k + 1..], put, []));
    }
    assert out + [] == out;
    return Some(out);
  }

  method EncodeLatency(bytes: seq<byte>, t: Table, l: LatencyRecord, ghost tail: seq<byte>)
    returns (r: Option<seq<byte>>)
    ensures r.Some? <==> LatencyInterned(t, l)
    ensures r.Some? ==> r.value + tail == bytes + PutLatency(t, l, tail)
  {
    hide PutU32, PutI32, PutString, LatencyBits;
    ghost var d3 := PutI32(ValueOr0(l.cyclesSameReg), tail);
    ghost var d2 := PutI32(ValueOr0(l.cyclesMem), d3);
    ghost var d1 := PutI32(ValueOr0(l.cyclesAddrIndex), d2);
    ghost var d0 := PutI32(ValueOr0(l.cyclesAddr), d1);
    ghost var c1 := PutU32(LatencyBits(l), d0);
    ghost var c0 := PutI32(l.cycles, c1);
    var out :- PushString(bytes, t, l.startOp, PutString(t, l.targetOp, c0));
    out :- PushString(out, t, l.targetOp, c0);
    out := PushI32(out, l.cycles, c1);
    out := PushU32(out, LatencyBits(l), d0);
    out := PushI32(out, ValueOr0(l.cyclesAddr), d1);
    out := PushI32(out, ValueOr0(l.cyclesAddrIndex), d2);
    out := PushI32(out, ValueOr0(l.cyclesMem), d3);
    out := PushI32(out, ValueOr0(l.cyclesSameReg), tail);
    return Some(out);
  }

  method EncodeLatencyBlob(t: Table, ls: seq<LatencyRecord>) returns (r: Option<seq<byte>>)
    ensures r == EncodeLatencies(t, ls)
  {
    hide PutU32, PutLatency, PutAll, LatencyInterned;
    if |ls| >= LIMIT {
      return None;
    }
    ghost var put := (l: LatencyRecord, rest: seq<byte>) => PutLatency(t, l, rest);
    PutEnds(ls, put, []);
    var out := PushU32([], |ls|, PutAll(ls, put, []));
    for k := 0 to |ls|
      invariant out + PutAll(ls[k..], put, []) == PutList(ls, put, [])
      invariant forall j :: 0 <= j < k ==> LatencyInterned(t, ls[j])
    {
      PutNext(ls, k, put, []);
      assert ls[k] in ls;
      out :- EncodeLatency(out, t, ls[k], PutAll(ls[k + 1..], put, []));
    }
    assert out + [] == out;
    return Some(out);
  }

  method EncodeStringListBlob(t: Table, ss: seq<Str>) returns (r: Option<seq<byte>>)
    ensures r == EncodeStringList(t, ss)
  {
    hide PutStrings, AllInterned;
    var out :- EncodeStrings([], t, ss, []);
    assert out + [] == out && [] + PutStrings(t, ss, []) == PutStrings(t, ss, []);
    return Some(out);
  }

  // Maps, in the order of their keys

  lemma MapInternedBy(t: Table, m: map<Str, Str>, n: nat)
    requires |m| < LIMIT && n <= |Entries(m)|
    requires forall j :: 0 <= j < n ==> Entries(m)[j].0 in t.offsets && Entries(m)[j].1 in t.offsets
    ensures n == |Entries(m)| ==> MapInterned(t, m)
    ensures n < |Entries(m)| && MapInterned(t, m) ==>
              Entries(m)[n].0 in t.offsets && Entries(m)[n].1 in t.offsets
  {
    hide Entries;
    if n == |Entries(m)| {
      forall k | k in m
        ensures k in t.offsets && m[k] in t.offsets
      {
        var i := EntryOfKey(m, k);
      }
    } else {
      EntriesFromMap(m, n);
    }
  }

  method EncodePair(bytes: seq<byte>, t: Table, e: (Str, Str), ghost tail: seq<byte>) returns (r: Option<seq<byte>>)
    ensures r.Some? <==> e.0 in t.offsets && e.1 in t.offsets
    ensures r.Some? ==> r.value + tail == bytes + PutPair(t, e, tail)
  {
    hide PutString;
    var out :- PushString(bytes, t, e.0, PutString(t, e.1, tail));
    r := PushString(out, t, e.1, tail);
  }

  method EncodeStringMapBlob(t: Table, m: map<Str, Str>) returns (r: Option<seq<byte>>)
    ensures r == EncodeStringMap(t, m)
  {
    hide PutU32, PutPair, PutAll, MapInterned, Entries;
    if |m| >= LIMIT {
      NotInterned(t, m);
      return None;
    }
    ghost var put := (e: (Str, Str), rest: seq<byte>) => PutPair(t, e, rest);
    var es := Entries(m);
    PutEnds(es, put, []);
    var out := PushU32([], |es|, PutAll(es, put, []));
    for k := 0 to |es|
      invariant out + PutAll(es[k..], put, []) == PutList(es, put, [])
      invariant forall j :: 0 <= j < k ==> es[j].0 in t.offsets && es[j].1 in t.offsets
    {
      PutNext(es, k, put, []);
      MapInternedBy(t, m, k);
      out :- EncodePair(out, t, es[k], PutAll(es[k + 1..], put, []));
    }
    MapInternedBy(t, m, |es|);
    assert out + [] == out;
    return Some(out);
  }

  lemma NotInterned(t: Table, m: map<Str, Str>)
    requires |m| >= LIMIT
    ensures !MapInterned(t, m)
  {}

  lemma PortsInternedBy(t: Table, m: map<Str, i32>, n: nat)
    requires |m| < LIMIT && n <= |Entries(m)| && forall j :: 0 <= j < n ==> Entries(m)[j].0 in t.offsets
    ensures n == |Entries(m)| ==> PortsInterned(t, m)
    ensures n < |Entries(m)| && PortsInterned(t, m) ==> Entries(m)[n].0 in t.offsets
  {
    hide Entries;
    if n == |Entries(m)| {
      forall k | k in m
        ensures k in t.offsets
      {
        var i := EntryOfKey(m, k);
      }
    } else {
      EntriesFromMap(m, n);
    }
  }

  method EncodePort(bytes: seq<byte>, t: Table, e: (Str, i32), ghost tail: seq<byte>) returns (r: Option<seq<byte>>)
    ensures r.Some? <==> e.0 in t.offsets
    ensures r.Some? ==> r.value + tail == bytes + PutPort(t, e, tail)
  {
    hide PutString, PutI32;
    var out :- PushString(bytes, t, e.0, PutI32(e.1, tail));
    out := PushI32(out, e.1, tail);
    return Some(out);
  }

  method EncodePorts(bytes: seq<byte>, t: Table, m: map<Str, i32>, ghost tail: seq<byte>)
    returns (r: Option<seq<byte>>)
    ensures r.Some? <==> PortsInterned(t, m)
    ensures r.Some? ==> r.value + tail == bytes + PutPorts(t, m, tail)
  {
    hide PutU32, PutPort, PutAll, Entries;
    if |m| >= LIMIT {
      return None;
    }
    hide PortsInterned;
    ghost var put := (e: (Str, i32), rest: seq<byte>) => PutPort(t, e, rest);
    var es := Entries(m);
    PutEnds(es, put, tail);
    var out := PushU32(bytes, |es|, PutAll(es, put, tail));
    for k := 0 to |es|
      invariant out + PutAll(es[k..], put, tail) == bytes + PutPorts(t, m, tail)
      invariant forall j :: 0 <= j < k ==> es[j].0 in t.offsets
    {
      PutNext(es, k, put, tail);
      PortsInternedBy(t, m, k);
      out :- EncodePort(out, t, es[k], PutAll(es[k + 1..], put, tail));
    }
    PortsInternedBy(t, m, |es|);
    return Some(out);
  }

  method EncodeNumbers(bytes: seq<byte>, v: VariantRecord, ghost tail: seq<byte>) returns (out: seq<byte>)
    ensures out + tail == bytes + PutNumbers(v, tail)
  {
    hide PutU32, PutI32, PutU64, Flag;
    ghost var n7 := PutU32(ValueOr0(v.nAvailableSimpleDecoders), tail);
    ghost var n6 := PutU32(Flag(v.complexDecoder), n7);
    ghost var n5 := PutU32(ValueOr0(v.divCycles), n6);
    ghost var n4 := PutU64(ValueOr0(v.tp), n5);
    ghost var n3 := PutI32(ValueOr0(v.uopsMs), n4);
    ghost var n2 := PutI32(ValueOr0(v.uopsMite), n3);
    out := PushI32(bytes, ValueOr0(v.uops), PutI32(ValueOr0(v.retireSlots), n2));
    out := PushI32(out, ValueOr0(v.retireSlots), n2);
    out := PushI32(out, ValueOr0(v.uopsMite), n3);
    out := PushI32(out, ValueOr0(v.uopsMs), n4);
    out := PushU64(out, ValueOr0(v.tp), n5);
    out := PushU32(out, ValueOr0(v.divCycles), n6);
    out := PushU32(out, Flag(v.complexDecoder), n7);
    out := PushU32(out, ValueOr0(v.nAvailableSimpleDecoders), tail);
  }

  method EncodeVariant(bytes: seq<byte>, t: Table, e: (Str, VariantRecord), ghost tail: seq<byte>)
    returns (r: Option<seq<byte>>)
    ensures r.Some? <==> e.0 in t.offsets && VariantInterned(t, e.1)
    ensures r.Some? ==> r.value + tail == bytes + PutVariant(t, e, tail)
  {
    hide PutU32, PutString, PutNumbers, PutPorts, VariantBits, PortsInterned;
    ghost var p := PutOptionalPorts(t, e.1.ports, tail);
    ghost var n := PutNumbers(e.1, p);
    var out :- PushString(bytes, t, e.0, PutU32(VariantBits(e.1), n));
    out := PushU32(out, VariantBits(e.1), n);
    out := EncodeNumbers(out, e.1, p);
    if e.1.ports.Some? {
      r := EncodePorts(out, t, e.1.ports.value, tail);
    } else {
      out := PushU32(out, 0, tail);
      r := Some(out);
    }
  }

  /** All entries up to a place can be written. */
  ghost predicate VariantsInterned(t: Table, es: seq<(Str, VariantRecord)>, n: nat)
    requires n <= |es|
  {
    forall j :: 0 <= j < n ==> es[j].0 in t.offsets && VariantInterned(t, es[j].1)
  }

  ghost predicate AllVariants(t: Table, m: map<Str, VariantRecord>) {
    forall k :: k in m ==> k in t.offsets && VariantInterned(t, m[k])
  }

  lemma VariantsInternedBy(t: Table, m: map<Str, VariantRecord>, n: nat)
    requires n <= |Entries(m)| && VariantsInterned(t, Entries(m), n)
    ensures n == |Entries(m)| ==> AllVariants(t, m)
    ensures n < |Entries(m)| && AllVariants(t, m) ==>
              Entries(m)[n].0 in t.offsets && VariantInterned(t, Entries(m)[n].1)
  {
    hide Entries, VariantInterned;
    if n == |Entries(m)| {
      forall k | k in m
        ensures k in t.offsets && VariantInterned(t, m[k])
      {
        var i := EntryOfKey(m, k);
      }
    } else {
      EntriesFromMap(m, n);
    }
  }

  method EncodeVariantEntries(bytes: seq<byte>, t: Table, m: map<Str, VariantRecord>, ghost tail: seq<byte>)
    returns (r: Option<seq<byte>>)
    ensures r.Some? <==> AllVariants(t, m)
    ensures r.Some? ==> r.value + tail == bytes + PutAll(Entries(m), (e, rest) => PutVariant(t, e, rest), tail)
  {
    hide PutVariant, PutAll, VariantInterned, Entries, AllVariants;
    ghost var put := (e: (Str, VariantRecord), rest: seq<byte>) => PutVariant(t, e, rest);
    var es := Entries(m);
    PutEnds(es, put, tail);
    var out := bytes;
    for k := 0 to |es|
      invariant out + PutAll(es[k..], put, tail) == bytes + PutAll(es, put, tail) && VariantsInterned(t, es, k)
    {
      PutNext(es, k, put, tail);
      VariantsInternedBy(t, m, k);
      out :- EncodeVariant(out, t, es[k], PutAll(es[k + 1..], put, tail));
    }
    VariantsInternedBy(t, m, |es|);
    return Some(out);
  }

  method EncodeVariantBlob(t: Table, m: map<Str, VariantRecord>) returns (r: Option<seq<byte>>)
    ensures r == EncodeVariants(t, m)
  {
    hide PutU32, PutVariant, PutAll, VariantInterned, Entries;
    if |m| >= LIMIT {
      return None;
    }
    ghost var put := (e: (Str, VariantRecord), rest: seq<byte>) => PutVariant(t, e, rest);
    ghost var rest := PutAll(Entries(m), put, []);
    var out := PushU32([], |m|, rest);
    assert out + rest == PutList(Entries(m), put, []);
    out :- EncodeVariantEntries(out, t, m, []);
    assert out + [] == out;
    return Some(out);
  }
}

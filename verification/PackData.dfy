/** The instruction data that a UIPack file holds. Strings are their UTF-8 bytes, floating-point numbers their bits. */
module PackData {
  import opened Wrappers
  import opened Bytes

  type Str = seq<byte>

  datatype OperandRecord = OperandRecord(
    name: Str, typ: Str, read: bool, write: bool, implicit: bool,
    flags: seq<Str>, flagsRead: seq<Str>, flagsWrite: seq<Str>,
    memBase: Option<Str>, memIndex: Option<Str>, memScale: Option<i32>, memDisp: Option<i64>,
    isAgen: bool, memOperandRole: Option<Str>)

  datatype LatencyRecord = LatencyRecord(
    startOp: Str, targetOp: Str, cycles: i32,
    cyclesAddr: Option<i32>, cyclesAddrIndex: Option<i32>, cyclesMem: Option<i32>, cyclesSameReg: Option<i32>)

  datatype VariantRecord = VariantRecord(
    uops: Option<i32>, retireSlots: Option<i32>, uopsMite: Option<i32>, uopsMs: Option<i32>, tp: Option<u64>,
    ports: Option<map<Str, i32>>, divCycles: Option<u32>, complexDecoder: Option<bool>,
    nAvailableSimpleDecoders: Option<u32>)

  datatype PerfRecord = PerfRecord(
    uops: i32, retireSlots: i32, uopsMite: i32, uopsMs: i32, tp: Option<u64>, ports: map<Str, i32>,
    variants: map<Str, VariantRecord>, divCycles: u32, mayBeEliminated: bool, complexDecoder: bool,
    nAvailableSimpleDecoders: u32, lcpStall: bool, implicitRspChange: i32, canBeUsedByLsd: bool,
    cannotBeInDsbDueToJccErratum: bool, noMicroFusion: bool, noMacroFusion: bool, macroFusibleWith: seq<Str>,
    operands: seq<OperandRecord>, latencies: seq<LatencyRecord>)

  datatype InstructionRecord = InstructionRecord(
    arch: Str, iform: Str, str: Str, allPorts: seq<Str>, aluPorts: seq<Str>, locked: bool, xmlAttrs: map<Str, Str>,
    immZero: bool, perf: PerfRecord)

  datatype DataPack = DataPack(
    schemaVersion: Str, allPorts: seq<Str>, aluPorts: seq<Str>, instructions: seq<InstructionRecord>)

  // Maps are kept in the order of their keys

  predicate Leq(a: Str, b: Str) {
    a == [] || (b != [] && (a[0] < b[0] || (a[0] == b[0] && Leq(a[1..], b[1..]))))
  }

  lemma {:induction false} LeqTotal(a: Str, b: Str)
    ensures Leq(a, b) || Leq(b, a)
  {
    if a != [] && b != [] {
      LeqTotal(a[1..], b[1..]);
    }
  }

  lemma {:induction false} LeqAntisymmetric(a: Str, b: Str)
    requires Leq(a, b) && Leq(b, a)
    ensures a == b
  {
    if a != [] {
      LeqAntisymmetric(a[1..], b[1..]);
      assert a == [a[0]] + a[1..] && b == [b[0]] + b[1..];
    }
  }

  lemma {:induction false} LeqTransitive(a: Str, b: Str, c: Str)
    requires Leq(a, b) && Leq(b, c)
    ensures Leq(a, c)
  {
    if a != [] && a[0] == b[0] == c[0] {
      LeqTransitive(a[1..], b[1..], c[1..]);
    }
  }

  predicate IsLeast(k: Str, keys: set<Str>) {
    k in keys && forall j :: j in keys ==> Leq(k, j)
  }

  lemma {:induction false} FindLeast(keys: set<Str>) returns (k: Str)
    requires keys != {}
    ensures IsLeast(k, keys)
  {
    var some :| some in keys;
    var rest := keys - {some};
    LeqTotal(some, some);
    assert forall j :: j in keys ==> j == some || j in rest;
    if rest == {} {
      k := some;
    } else {
      var other := FindLeast(rest);
      LeqTotal(some, other);
      if Leq(other, some) {
        k := other;
      } else {
        k := some;
        forall j | j in rest
          ensures Leq(some, j)
        {
          LeqTransitive(some, other, j);
        }
      }
    }
  }

  function LeastKey(keys: set<Str>): (k: Str)
    requires keys != {}
    ensures k in keys
  {
    assert exists k :: IsLeast(k, keys) by {
      var k := FindLeast(keys);
    }
    assert forall j, k :: IsLeast(j, keys) && IsLeast(k, keys) ==> j == k by {
      forall j, k | IsLeast(j, keys) && IsLeast(k, keys)
        ensures j == k
      {
        LeqAntisymmetric(j, k);
      }
    }
    var k :| k in keys && IsLeast(k, keys);
    k
  }

  /** The entries of a map in the order of its keys. */
  function Entries<V>(m: map<Str, V>): (es: seq<(Str, V)>)
    ensures |es| == |m|
    decreases |m|
  {
    if m == map[] then []
    else
      var k := LeastKey(m.Keys);
      SmallerMap(m, k);
      [(k, m[k])] + Entries(m - {k})
  }

  lemma SmallerMap<V>(m: map<Str, V>, k: Str)
    requires k in m
    ensures |m - {k}| == |m| - 1
  {
    assert (m - {k}).Keys == m.Keys - {k};
  }

  /** Inserts entries into a map; a key may not occur twice. */
  function InsertAll<V>(m: map<Str, V>, es: seq<(Str, V)>): Option<map<Str, V>>
    decreases |es|
  {
    if es == [] then Some(m)
    else if es[0].0 in m then None
    else InsertAll(m[es[0].0 := es[0].1], es[1..])
  }

  lemma FirstEntry<V>(m: map<Str, V>) returns (k: Str)
    requires m != map[]
    ensures k in m && |m - {k}| < |m| && Entries(m) == [(k, m[k])] + Entries(m - {k})
  {
    k := LeastKey(m.Keys);
    SmallerMap(m, k);
  }

  lemma MoveOver<V>(done: map<Str, V>, m: map<Str, V>, k: Str)
    requires done.Keys !! m.Keys && k in m
    ensures done[k := m[k]] + (m - {k}) == done + m && done[k := m[k]].Keys !! (m - {k}).Keys
  {}

  lemma {:induction false} EntriesRebuild<V>(done: map<Str, V>, m: map<Str, V>)
    requires done.Keys !! m.Keys
    ensures InsertAll(done, Entries(m)) == Some(done + m)
    decreases |m|
  {
    hide Entries, LeastKey;
    if m == map[] {
      assert done + m == done && |Entries(m)| == 0;
    } else {
      var k := FirstEntry(m);
      MoveOver(done, m, k);
      EntriesRebuild(done[k := m[k]], m - {k});
      assert Entries(m)[1..] == Entries(m - {k});
    }
  }

  lemma {:induction false} EntryOfKey<V>(m: map<Str, V>, k: Str) returns (i: nat)
    requires k in m
    ensures i < |Entries(m)| && Entries(m)[i] == (k, m[k])
    decreases |m|
  {
    hide Entries;
    var first := FirstEntry(m);
    if first == k {
      i := 0;
    } else {
      i := EntryOfKey(m - {first}, k);
      i := i + 1;
    }
  }

  lemma {:induction false} EntriesFromMap<V>(m: map<Str, V>, i: nat)
    requires i < |Entries(m)|
    ensures Entries(m)[i].0 in m && m[Entries(m)[i].0] == Entries(m)[i].1
    decreases |m|
  {
    var k := LeastKey(m.Keys);
    SmallerMap(m, k);
    if i > 0 {
      EntriesFromMap(m - {k}, i - 1);
    }
  }

  /** One string comes before another if it is the beginning of it, or has the lower byte where they first differ. */
  lemma {:induction false} LeqExactly(a: Str, b: Str)
    ensures Leq(a, b) <==>
            a <= b || exists k :: 0 <= k < |a| && k < |b| && a[..k] == b[..k] && a[k] < b[k]
  {
    if a != [] && b != [] && a[0] == b[0] {
      LeqExactly(a[1..], b[1..]);
      SamePrefix(a, b);
      if k :| 0 <= k < |a[1..]| && k < |b[1..]| && a[1..][..k] == b[1..][..k] && a[1..][k] < b[1..][k] {
        assert a[..k + 1] == [a[0]] + a[1..][..k] && b[..k + 1] == [b[0]] + b[1..][..k];
        assert a[k + 1] < b[k + 1];
      }
      if k :| 0 <= k < |a| && k < |b| && a[..k] == b[..k] && a[k] < b[k] {
        assert a[1..][..k - 1] == a[..k][1..] && b[1..][..k - 1] == b[..k][1..];
        assert a[1..][k - 1] < b[1..][k - 1];
      }
    } else if a != [] && b != [] {
      if a[0] < b[0] {
        assert a[..0] == b[..0];
      }
      DifferAtOnce(a, b);
    }
  }

  lemma DifferAtOnce(a: Str, b: Str)
    requires a != [] && b != [] && a[0] != b[0]
    ensures forall k :: 0 < k <= |a| && k <= |b| ==> a[..k] != b[..k]
  {
    forall k | 0 < k <= |a| && k <= |b|
      ensures a[..k] != b[..k]
    {
      assert a[..k][0] == a[0] && b[..k][0] == b[0];
    }
  }

  lemma SamePrefix(a: Str, b: Str)
    requires a != [] && b != [] && a[0] == b[0]
    ensures a <= b <==> a[1..] <= b[1..]
  {
    if a[1..] <= b[1..] {
      assert a == [a[0]] + a[1..] && b[..|a|] == [b[0]] + b[1..][..|a| - 1];
    }
  }

  /** The entries of a map are in the order of their keys. */
  lemma {:induction false} EntriesSorted<V>(m: map<Str, V>, i: nat, j: nat)
    requires i < j < |Entries(m)|
    ensures Leq(Entries(m)[i].0, Entries(m)[j].0)
    decreases |m|
  {
    hide Leq;
    var k := LeastKey(m.Keys);
    SmallerMap(m, k);
    if i > 0 {
      EntriesSorted(m - {k}, i - 1, j - 1);
    } else {
      EntriesFromMap(m, j);
      LeastIsLeast(m.Keys);
    }
  }

  lemma LeastIsLeast(keys: set<Str>)
    requires keys != {}
    ensures forall j :: j in keys ==> Leq(LeastKey(keys), j)
  {
    hide Leq;
  }
}

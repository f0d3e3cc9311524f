/** The reader of UIPack files as it works (`load_uipack_bytes`): after the checks of the header, all sections, records
    and ports that it reads lie within the file. */
module PackReader {
  import opened Wrappers
  import opened Arithmetic
  import opened Bytes
  import opened PackData
  import opened StringTable
  import opened Fields
  import opened Blobs
  import opened PackRecords
  import opened PackHeader
  import opened PortLists
  import opened PackFile
  import opened BlobCursor
  import Checksum

  /** The sections of a view lie within its bytes. */
  predicate InFile(v: View) {
    && v.h.recordsOffset + RECORD_SIZE * v.h.recordsCount <= |v.bytes|
    && v.h.portsOffset + PORT_ENTRY_SIZE * v.h.portsCount <= |v.bytes|
    && v.h.stringsOffset + v.h.stringsSize <= |v.bytes|
  }

  method ReadChecked(bytes: seq<byte>, verify: bool) returns (r: Option<Header>)
    ensures r == ReadHeader(bytes, verify)
  {
    hide GetHeader, Accepts;
    var h :- GetHeader(bytes);
    if !Accepts(h, |bytes|) {
      return None;
    }
    if verify {
      var actual := Checksum.Compute(bytes);
      if actual != h.checksum {
        return None;
      }
    }
    return Some(h);
  }

  lemma AcceptedSections(bytes: seq<byte>, verify: bool)
    requires ReadHeader(bytes, verify).Some?
    ensures var h := ReadHeader(bytes, verify).value;
            && h.stringsOffset + h.stringsSize <= |bytes|
            && h.recordsOffset + RECORD_SIZE * h.recordsCount <= |bytes|
            && h.portsOffset + PORT_ENTRY_SIZE * h.portsCount <= |bytes|
  {
    hide GetHeader, Checksum.Value;
  }

  method OpenView(bytes: seq<byte>, verify: bool) returns (r: Option<View>)
    ensures r == ViewOf(bytes, verify)
    ensures r.Some? ==> InFile(r.value) && r.value.bytes == bytes
  {
    hide ReadHeader, ReadString, Split;
    var h :- ReadChecked(bytes, verify);
    AcceptedSections(bytes, verify);
    var strings := bytes[h.stringsOffset..h.stringsOffset + h.stringsSize];
    var arch :- ReadString(strings, h.archOffset);
    var schema :- ReadString(strings, h.schemaOffset);
    var allPorts :- ReadString(strings, h.allPortsOffset);
    var aluPorts :- ReadString(strings, h.aluPortsOffset);
    return Some(View(bytes, h, strings, arch, schema, Split(allPorts), Split(aluPorts)));
  }

  function After<T>(front: seq<T>, rest: Option<seq<T>>): Option<seq<T>> {
    var r :- rest;
    Some(front + r)
  }

  lemma NextPort(v: View, start: nat, count: nat, front: seq<(Str, i32)>)
    requires |front| < count && ReadPorts(v, start, count) == After(front, ReadPorts(v, start + |front|, count - |front|))
    ensures var k := start + |front|;
            var e := GetPort(v.strings, Slice(v.bytes, v.h.portsOffset + PORT_ENTRY_SIZE * k, PORT_ENTRY_SIZE));
            ReadPorts(v, start, count) ==
            if e.None? then None else After(front + [e.value.value], ReadPorts(v, k + 1, count - |front| - 1))
  {
    hide GetPort;
    var k := start + |front|;
    var e := GetPort(v.strings, Slice(v.bytes, v.h.portsOffset + PORT_ENTRY_SIZE * k, PORT_ENTRY_SIZE));
    var rest := ReadPorts(v, k + 1, count - |front| - 1);
    if e.Some? && rest.Some? {
      assert front + ([e.value.value] + rest.value) == front + [e.value.value] + rest.value;
    }
  }

  lemma NoMorePorts(v: View, start: nat, front: seq<(Str, i32)>)
    ensures After(front, ReadPorts(v, start, 0)) == Some(front)
  {
    assert front + [] == front;
  }

  lemma PortWithin(v: View, k: nat)
    requires InFile(v) && k < v.h.portsCount
    ensures v.h.portsOffset + PORT_ENTRY_SIZE * k + PORT_ENTRY_SIZE <= |v.bytes|
  {}

  /** The port entries of a record, all of which lie in the section of ports. */
  method ReadPortEntries(v: View, start: nat, count: nat) returns (r: Option<seq<(Str, i32)>>)
    requires InFile(v) && start + count <= v.h.portsCount
    ensures r == ReadPorts(v, start, count)
  {
    hide GetPort, InFile, ReadPorts;
    var ports := [];
    FirstPort(v, start, count);
    for k := 0 to count
      invariant |ports| == k && ReadPorts(v, start, count) == After(ports, ReadPorts(v, start + k, count - k))
    {
      NextPort(v, start, count, ports);
      PortWithin(v, start + k);
      var at := v.h.portsOffset + PORT_ENTRY_SIZE * (start + k);
      var e :- GetPort(v.strings, v.bytes[at..at + PORT_ENTRY_SIZE]);
      ports := ports + [e.value];
    }
    NoMorePorts(v, start + count, ports);
    return Some(ports);
  }

  lemma FirstPort(v: View, start: nat, count: nat)
    ensures ReadPorts(v, start, count) == After([], ReadPorts(v, start + 0, count - 0))
  {
    var r := ReadPorts(v, start, count);
    if r.Some? {
      assert [] + r.value == r.value;
    }
  }

  /** The ports of a record, none of which may occur twice. */
  method CollectPorts(es: seq<(Str, i32)>) returns (r: Option<map<Str, i32>>)
    ensures r == InsertAll(map[], es)
  {
    var ports: map<Str, i32> := map[];
    assert es[..|es|] == es && es[..0] == [];
    for k := 0 to |es|
      invariant InsertAll(map[], es[..k]) == Some(ports)
    {
      hide InsertAll;
      assert es[..k + 1] == es[..k] + [es[k]];
      InsertLast(map[], es[..k], es[k]);
      if es[k].0 in ports {
        assert es == es[..k + 1] + es[k + 1..];
        InsertFails(map[], es[..k + 1], es[k + 1..]);
        return None;
      }
      ports := ports[es[k].0 := es[k].1];
    }
    return Some(ports);
  }

  method DecodeRecordBlobs(strings: seq<byte>, bytes: seq<byte>, e: RecordEntry) returns (r: Option<Decoded>)
    ensures r == DecodeBlobs(strings, bytes, e)
  {
    hide DecodeStringMap, DecodeStringList, DecodeOperands, DecodeLatencies, DecodeVariants, BlobAt;
    var xmlAttrs, macros, variants := map[], [], map[];
    if e.xmlAttrsSize != 0 {
      var b :- BlobAt(bytes, e.xmlAttrsOffset, e.xmlAttrsSize);
      xmlAttrs :- DecodeStringMapBlob(strings, b);
    }
    if e.macroFusibleSize != 0 {
      var b :- BlobAt(bytes, e.macroFusibleOffset, e.macroFusibleSize);
      macros :- DecodeStringListBlob(strings, b);
    }
    var operandBytes :- BlobAt(bytes, e.operandsOffset, e.operandsSize);
    var operands :- DecodeOperandBlob(strings, operandBytes);
    var latencyBytes :- BlobAt(bytes, e.latenciesOffset, e.latenciesSize);
    var latencies :- DecodeLatencyBlob(strings, latencyBytes);
    if e.variantsSize != 0 {
      var b :- BlobAt(bytes, e.variantsOffset, e.variantsSize);
      variants :- DecodeVariantBlob(strings, b);
    }
    return Some(Decoded(operands, latencies, variants, macros, xmlAttrs));
  }

  lemma RecordWithin(v: View, i: nat)
    requires InFile(v) && i < v.h.recordsCount
    ensures v.h.recordsOffset + RECORD_SIZE * i + RECORD_SIZE <= |v.bytes|
  {}

  method ReadOneRecord(v: View, i: nat) returns (r: Option<InstructionRecord>)
    requires InFile(v) && i < v.h.recordsCount
    ensures r == ReadRecord(v, i)
  {
    hide GetRecord, ReadString, ReadPorts, InsertAll, DecodeBlobs, RecordFrom;
    RecordWithin(v, i);
    var at := v.h.recordsOffset + RECORD_SIZE * i;
    var e :- GetRecord(v.bytes[at..at + RECORD_SIZE]);
    var iform :- ReadString(v.strings, e.iformOffset);
    var str :- ReadString(v.strings, e.stringOffset);
    if e.portsStart + e.portsCount > v.h.portsCount {
      return None;
    }
    var es :- ReadPortEntries(v, e.portsStart, e.portsCount);
    var ports :- CollectPorts(es);
    var d :- DecodeRecordBlobs(v.strings, v.bytes, e);
    return Some(RecordFrom(v, e, iform, str, ports, d));
  }

  lemma {:induction false} RecordFails(v: View, i: nat, n: nat)
    requires i < n && ReadRecord(v, i) == None
    ensures ReadRecords(v, n) == None
  {
    hide ReadRecord;
    if i < n - 1 {
      RecordFails(v, i, n - 1);
    }
  }

  /** Loads a file. */
  method LoadUiPack(bytes: seq<byte>, verify: bool) returns (r: Option<DataPack>)
    ensures r == Load(bytes, verify)
  {
    hide ReadRecord, ViewOf, InFile;
    var v :- OpenView(bytes, verify);
    var instructions := [];
    for index := 0 to v.h.recordsCount
      invariant ReadRecords(v, index) == Some(instructions)
    {
      var record := ReadOneRecord(v, index);
      if record.None? {
        RecordFails(v, index, v.h.recordsCount);
        return None;
      }
      instructions := instructions + [record.value];
    }
    return Some(DataPack(v.schemaVersion, v.allPorts, v.aluPorts, instructions));
  }
}

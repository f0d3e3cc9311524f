/** The header of a UIPack file and the checks that a reader makes of it. */
module PackHeader {
  import opened Wrappers
  import opened Arithmetic
  import opened Bytes
  import opened StringTable
  import opened Fields
  import Checksum

  const MAGIC: seq<byte> := [0x55, 0x49, 0x50, 0x41, 0x43, 0x4B, 0, 0]
  const VERSION: u16 := 9
  const CHECKSUM_FNV1A64: u16 := 1
  const HEADER_SIZE: nat := 72
  const ALIGNMENT: nat := 8

  datatype Header = Header(
    version: u16, headerSize: u16, checksumKind: u16, fileLen: u64, checksum: u64,
    archOffset: u32, stringsOffset: u32, stringsSize: u32, recordsOffset: u32, recordsCount: u32,
    portsOffset: u32, portsCount: u32, schemaOffset: u32, allPortsOffset: u32, aluPortsOffset: u32)

  function PutU16(n: u16, tail: seq<byte>): (r: seq<byte>)
    ensures |r| == 2 + |tail|
  {
    Le(n, 2) + tail
  }

  function GetU16(b: seq<byte>): Option<Parsed<u16>> {
    if |b| < 2 then None
    else
      Widths();
      Some(Parsed(FromLe(b[..2]), b[2..]))
  }

  lemma U16RoundTrip(n: u16, tail: seq<byte>)
    ensures GetU16(PutU16(n, tail)) == Some(Parsed(n, tail))
  {
    hide Le, FromLe, Pow256;
    Widths();
    Front(n, 2, tail);
  }

  /** The header up to the checksum. */
  function Start(h: Header): (r: seq<byte>)
    ensures |r| == 24
  {
    MAGIC + PutU16(h.version, PutU16(h.headerSize, PutU16(h.checksumKind, PutU16(0, PutU64(h.fileLen, [])))))
  }

  /** The header after the checksum. */
  function PutOffsets(h: Header, tail: seq<byte>): (r: seq<byte>)
    ensures |r| == 40 + |tail|
  {
    PutU32(h.archOffset, PutU32(h.stringsOffset, PutU32(h.stringsSize, PutU32(h.recordsOffset,
      PutU32(h.recordsCount, PutU32(h.portsOffset, PutU32(h.portsCount, PutU32(h.schemaOffset,
        PutU32(h.allPortsOffset, PutU32(h.aluPortsOffset, tail))))))))))
  }

  function PutHeader(h: Header, tail: seq<byte>): (r: seq<byte>)
    ensures |r| == HEADER_SIZE + |tail|
  {
    Start(h) + PutU64(h.checksum, PutOffsets(h, tail))
  }

  datatype Kind = Kind(version: u16, headerSize: u16, checksumKind: u16, fileLen: u64)

  function GetStart(b: seq<byte>): Option<Kind> {
    if |b| < 24 || b[..8] != MAGIC then None
    else
      var version :- GetU16(b[8..24]);
      var headerSize :- GetU16(version.rest);
      var kind :- GetU16(headerSize.rest);
      var reserved :- GetU16(kind.rest);
      var fileLen :- GetU64(reserved.rest);
      Some(Kind(version.value, headerSize.value, kind.value, fileLen.value))
  }

  function GetOffsets(k: Kind, checksum: u64, b: seq<byte>): Option<Parsed<Header>> {
    var arch :- GetU32(b);
    var stringsOffset :- GetU32(arch.rest);
    var stringsSize :- GetU32(stringsOffset.rest);
    var recordsOffset :- GetU32(stringsSize.rest);
    var recordsCount :- GetU32(recordsOffset.rest);
    var portsOffset :- GetU32(recordsCount.rest);
    var portsCount :- GetU32(portsOffset.rest);
    var schema :- GetU32(portsCount.rest);
    var allPorts :- GetU32(schema.rest);
    var aluPorts :- GetU32(allPorts.rest);
    Some(Parsed(Header(k.version, k.headerSize, k.checksumKind, k.fileLen, checksum, arch.value, stringsOffset.value,
                       stringsSize.value, recordsOffset.value, recordsCount.value, portsOffset.value,
                       portsCount.value, schema.value, allPorts.value, aluPorts.value), aluPorts.rest))
  }

  /** The fields of a header, unchecked. */
  function GetHeader(b: seq<byte>): Option<Header> {
    if |b| < HEADER_SIZE then None
    else
      var kind :- GetStart(b[..24]);
      var checksum :- GetU64(b[24..]);
      var h :- GetOffsets(kind, checksum.value, checksum.rest);
      Some(h.value)
  }

  predicate SectionValid(offset: nat, count: nat, stride: nat, fileLen: nat, headerSize: nat) {
    headerSize <= offset <= fileLen && offset + count * stride <= fileLen
  }

  predicate Accepts(h: Header, fileLen: nat) {
    && h.version == VERSION && h.headerSize == HEADER_SIZE && h.checksumKind == CHECKSUM_FNV1A64
    && h.fileLen == fileLen
    && SectionValid(h.stringsOffset, h.stringsSize, 1, fileLen, h.headerSize)
    && SectionValid(h.recordsOffset, h.recordsCount, RECORD_SIZE, fileLen, h.headerSize)
    && SectionValid(h.portsOffset, h.portsCount, PORT_ENTRY_SIZE, fileLen, h.headerSize)
    && h.recordsOffset % ALIGNMENT == 0 && h.portsOffset % ALIGNMENT == 0
    && h.archOffset < h.stringsSize && h.schemaOffset < h.stringsSize
  }

  /** The header of a file that passes the checks; a verified one has the right checksum. */
  function ReadHeader(bytes: seq<byte>, verify: bool): Option<Header> {
    var h :- GetHeader(bytes);
    if !Accepts(h, |bytes|) then None
    else if verify && Checksum.Value(bytes) != h.checksum then None
    else Some(h)
  }

  // What was written is read

  lemma StartRoundTrip(h: Header)
    ensures GetStart(Start(h)) == Some(Kind(h.version, h.headerSize, h.checksumKind, h.fileLen))
  {
    hide PutU16, GetU16, PutU64, GetU64;
    var s4 := PutU64(h.fileLen, []);
    var s3 := PutU16(0, s4);
    var s2 := PutU16(h.checksumKind, s3);
    var s1 := PutU16(h.headerSize, s2);
    var s0 := PutU16(h.version, s1);
    assert Start(h)[..8] == MAGIC && Start(h)[8..24] == s0;
    U64RoundTrip(h.fileLen, []);
    U16RoundTrip(0, s4);
    U16RoundTrip(h.checksumKind, s3);
    U16RoundTrip(h.headerSize, s2);
    U16RoundTrip(h.version, s1);
  }

  lemma OffsetsRoundTrip(h: Header, tail: seq<byte>)
    ensures GetOffsets(Kind(h.version, h.headerSize, h.checksumKind, h.fileLen), h.checksum, PutOffsets(h, tail)) ==
            Some(Parsed(h, tail))
  {
    hide PutU32, GetU32;
    var t9 := PutU32(h.aluPortsOffset, tail);
    var t8 := PutU32(h.allPortsOffset, t9);
    var t7 := PutU32(h.schemaOffset, t8);
    var t6 := PutU32(h.portsCount, t7);
    var t5 := PutU32(h.portsOffset, t6);
    var t4 := PutU32(h.recordsCount, t5);
    var t3 := PutU32(h.recordsOffset, t4);
    var t2 := PutU32(h.stringsSize, t3);
    U32RoundTrip(h.aluPortsOffset, tail);
    U32RoundTrip(h.allPortsOffset, t9);
    U32RoundTrip(h.schemaOffset, t8);
    U32RoundTrip(h.portsCount, t7);
    U32RoundTrip(h.portsOffset, t6);
    U32RoundTrip(h.recordsCount, t5);
    U32RoundTrip(h.recordsOffset, t4);
    U32RoundTrip(h.stringsSize, t3);
    U32RoundTrip(h.stringsOffset, t2);
    U32RoundTrip(h.archOffset, PutU32(h.stringsOffset, t2));
  }

  lemma HeaderRoundTrip(h: Header, tail: seq<byte>)
    ensures GetHeader(PutHeader(h, tail)) == Some(h)
  {
    hide Start, GetStart, PutOffsets, GetOffsets, PutU64, GetU64;
    var b := PutHeader(h, tail);
    assert b[..24] == Start(h) && b[24..] == PutU64(h.checksum, PutOffsets(h, tail));
    StartRoundTrip(h);
    U64RoundTrip(h.checksum, PutOffsets(h, tail));
    OffsetsRoundTrip(h, tail);
  }

  lemma PutU32Tail(n: u32, a: seq<byte>, b: seq<byte>)
    ensures PutU32(n, a + b) == PutU32(n, a) + b
  {}

  lemma OffsetsTail(h: Header, tail: seq<byte>)
    ensures PutOffsets(h, tail) == PutOffsets(h, []) + tail
  {
    hide PutU32;
    assert [] + tail == tail;
    var a9 := PutU32(h.aluPortsOffset, []);
    var a8 := PutU32(h.allPortsOffset, a9);
    var a7 := PutU32(h.schemaOffset, a8);
    var a6 := PutU32(h.portsCount, a7);
    var a5 := PutU32(h.portsOffset, a6);
    var a4 := PutU32(h.recordsCount, a5);
    var a3 := PutU32(h.recordsOffset, a4);
    var a2 := PutU32(h.stringsSize, a3);
    PutU32Tail(h.aluPortsOffset, [], tail);
    PutU32Tail(h.allPortsOffset, a9, tail);
    PutU32Tail(h.schemaOffset, a8, tail);
    PutU32Tail(h.portsCount, a7, tail);
    PutU32Tail(h.portsOffset, a6, tail);
    PutU32Tail(h.recordsCount, a5, tail);
    PutU32Tail(h.recordsOffset, a4, tail);
    PutU32Tail(h.stringsSize, a3, tail);
    PutU32Tail(h.stringsOffset, a2, tail);
    PutU32Tail(h.archOffset, PutU32(h.stringsOffset, a2), tail);
  }

  /** The header is followed by the rest of the file. */
  lemma HeaderTail(h: Header, tail: seq<byte>)
    ensures PutHeader(h, tail)[HEADER_SIZE..] == tail
  {
    hide Start, PutOffsets;
    OffsetsTail(h, tail);
  }

  // The checksum

  /** The checksum of a file does not depend on the checksum that its header holds. */
  lemma ChecksumIgnoresItself(h: Header, sum: u64, tail: seq<byte>)
    ensures Checksum.Value(PutHeader(h.(checksum := sum), tail)) == Checksum.Value(PutHeader(h, tail))
  {
    var g := h.(checksum := sum);
    assert Start(g) == Start(h) && PutOffsets(g, tail) == PutOffsets(h, tail);
    hide Start, PutOffsets, Checksum.Hash, Checksum.Blanked, Le;
    BlankedAlike(Start(h), Le(sum, 8), Le(h.checksum, 8), PutOffsets(h, tail));
  }

  lemma BlankedAlike(start: seq<byte>, a: seq<byte>, b: seq<byte>, end: seq<byte>)
    requires |start| == 24 && |a| == |b| == 8
    ensures Checksum.Blanked(start + (a + end)) == Checksum.Blanked(start + (b + end))
  {
    var x, y := start + (a + end), start + (b + end);
    forall i | 0 <= i < |x|
      ensures Checksum.Blanked(x)[i] == Checksum.Blanked(y)[i]
    {
      if i >= 32 {
        assert x[i] == end[i - 32] && y[i] == end[i - 32];
      }
    }
  }

  lemma HeaderChecksum(bytes: seq<byte>)
    requires GetHeader(bytes).Some?
    ensures |bytes| >= HEADER_SIZE && GetHeader(bytes).value.checksum == FromLe(bytes[24..32])
  {
    hide GetStart, GetU32, FromLe;
    assert bytes[24..][..8] == bytes[24..32];
  }

  /** A file that differs from an accepted one in exactly one byte is not accepted. */
  lemma OneByteRejected(a: seq<byte>, b: seq<byte>, i: nat)
    requires ReadHeader(a, true).Some? && |b| == |a| && i < |a| && a[i] != b[i]
    requires forall j :: 0 <= j < |a| && j != i ==> a[j] == b[j]
    ensures ReadHeader(b, true) == None
  {
    hide GetHeader, Accepts, Checksum.Hash;
    HeaderChecksum(a);
    if GetHeader(b).Some? {
      HeaderChecksum(b);
      if 24 <= i < 32 {
        assert Checksum.Blanked(a) == Checksum.Blanked(b);
        DifferentNumber(a[24..32], b[24..32], i - 24);
      } else {
        assert a[24..32] == b[24..32];
        Checksum.OneByteChangesHash(Checksum.OFFSET_BASIS, Checksum.Blanked(a), Checksum.Blanked(b), i);
      }
    }
  }

  lemma DifferentNumber(a: seq<byte>, b: seq<byte>, i: nat)
    requires |a| == |b| && i < |a| && a[i] != b[i]
    ensures FromLe(a) != FromLe(b)
  {
    if FromLe(a) == FromLe(b) {
      FromLeInjective(a, b);
    }
  }
}

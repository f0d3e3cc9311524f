/** Where everything lies in a UIPack file, byte by byte. */
module PackLayout {
  import opened Wrappers
  import opened Arithmetic
  import opened Bytes
  import opened PackData
  import opened StringTable
  import opened Fields
  import opened Blobs
  import opened PackRecords
  import opened PackHeader
  import opened PortLists
  import opened PackFile
  import opened PackRoundTrip
  import opened BlobLayout
  import Checksum

  // The header

  /** The letters UIPACK and two zeros. */
  predicate HasMagic(b: seq<byte>) {
    && |b| >= 8 && b[0] == 'U' as int && b[1] == 'I' as int && b[2] == 'P' as int && b[3] == 'A' as int
    && b[4] == 'C' as int && b[5] == 'K' as int && b[6] == 0 && b[7] == 0
  }

  predicate HeaderAt(b: seq<byte>, h: Header) {
    && |b| >= 72 && HasMagic(b)
    && U16At(b, 8) == h.version && U16At(b, 10) == h.headerSize && U16At(b, 12) == h.checksumKind
    && U64At(b, 16) == h.fileLen && U64At(b, 24) == h.checksum
    && U32At(b, 32) == h.archOffset && U32At(b, 36) == h.stringsOffset && U32At(b, 40) == h.stringsSize
    && U32At(b, 44) == h.recordsOffset && U32At(b, 48) == h.recordsCount
    && U32At(b, 52) == h.portsOffset && U32At(b, 56) == h.portsCount
    && U32At(b, 60) == h.schemaOffset && U32At(b, 64) == h.allPortsOffset && U32At(b, 68) == h.aluPortsOffset
  }

  lemma U16Reads(b: seq<byte>, at: nat)
    requires at + 2 <= |b|
    ensures GetU16(b[at..]) == Some(Parsed(U16At(b, at), b[at + 2..]))
  {
    hide FromLe;
    U16Is(b, at);
    assert b[at..][..2] == b[at..at + 2] && b[at..][2..] == b[at + 2..];
  }

  lemma OffsetsRead(b: seq<byte>, k: Kind, checksum: u64)
    requires |b| >= 72
    ensures GetOffsets(k, checksum, b[32..]).Some?
    ensures var h := GetOffsets(k, checksum, b[32..]).value.value;
            && h.version == k.version && h.headerSize == k.headerSize && h.checksumKind == k.checksumKind
            && h.fileLen == k.fileLen && h.checksum == checksum
            && U32At(b, 32) == h.archOffset && U32At(b, 36) == h.stringsOffset && U32At(b, 40) == h.stringsSize
            && U32At(b, 44) == h.recordsOffset && U32At(b, 48) == h.recordsCount
            && U32At(b, 52) == h.portsOffset && U32At(b, 56) == h.portsCount
            && U32At(b, 60) == h.schemaOffset && U32At(b, 64) == h.allPortsOffset && U32At(b, 68) == h.aluPortsOffset
  {
    hide GetU32, U32At;
    U32Reads(b, 32);
    U32Reads(b, 36);
    U32Reads(b, 40);
    U32Reads(b, 44);
    U32Reads(b, 48);
    U32Reads(b, 52);
    U32Reads(b, 56);
    U32Reads(b, 60);
    U32Reads(b, 64);
    U32Reads(b, 68);
  }

  lemma MagicFirst(b: seq<byte>)
    requires |b| >= 8
    ensures b[..8] == MAGIC <==> HasMagic(b)
  {
    assert b[..8][0] == b[0] && b[..8][1] == b[1] && b[..8][2] == b[2] && b[..8][3] == b[3];
    assert b[..8][4] == b[4] && b[..8][5] == b[5] && b[..8][6] == b[6] && b[..8][7] == b[7];
  }

  lemma StartReads(b: seq<byte>)
    requires |b| >= 72
    ensures GetStart(b[..24]).Some? <==> HasMagic(b)
    ensures HasMagic(b) ==>
              GetStart(b[..24]).value == Kind(U16At(b, 8), U16At(b, 10), U16At(b, 12), U64At(b, 16))
  {
    var s := b[..24];
    MagicFirst(b);
    assert s[..8] == b[..8] && s[8..24] == s[8..];
    SamePlaces(b, s);
    hide GetU16, GetU64, U16At, U64At, HasMagic;
    U16Reads(s, 8);
    U16Reads(s, 10);
    U16Reads(s, 12);
    U16Reads(s, 14);
    U64Reads(s, 16);
  }

  lemma SamePlaces(b: seq<byte>, s: seq<byte>)
    requires |b| >= 24 && s == b[..24]
    ensures U16At(s, 8) == U16At(b, 8) && U16At(s, 10) == U16At(b, 10) && U16At(s, 12) == U16At(b, 12)
    ensures U64At(s, 16) == U64At(b, 16)
  {}

  /** Reading takes every field of a header from its place. */
  lemma HeaderReadsAt(b: seq<byte>)
    ensures GetHeader(b).Some? <==> |b| >= 72 && HasMagic(b)
    ensures GetHeader(b).Some? ==> HeaderAt(b, GetHeader(b).value)
  {
    hide GetStart, GetOffsets, GetU64, U16At, U32At, U64At, HasMagic;
    if |b| >= 72 {
      StartReads(b);
      U64Reads(b, 24);
      if HasMagic(b) {
        var k := GetStart(b[..24]).value;
        OffsetsRead(b, k, U64At(b, 24));
        assert GetU64(b[24..]).value.rest == b[32..];
      }
    }
  }

  /** And writing puts it there. */
  lemma HeaderWrittenAt(h: Header, tail: seq<byte>)
    ensures HeaderAt(PutHeader(h, tail), h)
  {
    hide PutHeader, GetHeader, HeaderAt;
    HeaderRoundTrip(h, tail);
    HeaderReadsAt(PutHeader(h, tail));
  }

  /** A section of a file: behind the header, and not beyond the end of the file. */
  predicate IsSection(b: seq<byte>, offset: int, size: int) {
    72 <= offset && offset + size <= |b|
  }

  /** A file is accepted exactly if it begins with a header of version 9 for its length, its sections lie in the file, those
      of records and ports at multiples of eight, its architecture and schema are in the string section and, when that is
      verified, its checksum is right. */
  lemma AcceptedExactly(b: seq<byte>, verify: bool)
    ensures ReadHeader(b, verify).Some? <==>
            && |b| >= 72 && HasMagic(b) && U16At(b, 8) == 9 && U16At(b, 10) == 72 && U16At(b, 12) == 1
            && U64At(b, 16) == |b|
            && IsSection(b, U32At(b, 36), U32At(b, 40))
            && IsSection(b, U32At(b, 44), 96 * U32At(b, 48)) && U32At(b, 44) % 8 == 0
            && IsSection(b, U32At(b, 52), 8 * U32At(b, 56)) && U32At(b, 52) % 8 == 0
            && U32At(b, 32) < U32At(b, 40) && U32At(b, 60) < U32At(b, 40)
            && (verify ==> U64At(b, 24) == Checksum.Value(b))
  {
    hide GetHeader, U16At, U32At, U64At, HasMagic, Checksum.Value;
    HeaderReadsAt(b);
  }

  // Records

  predicate EntryIn(b: seq<byte>, at: nat, e: RecordEntry) {
    && at + 96 <= |b|
    && U32At(b, at) == e.iformOffset && U32At(b, at + 4) == e.stringOffset
    && U32At(b, at + 8) == e.portsStart && U32At(b, at + 12) == e.portsCount
    && I32At(b, at + 16) == e.uops && I32At(b, at + 20) == e.retireSlots
    && I32At(b, at + 24) == e.uopsMite && I32At(b, at + 28) == e.uopsMs
    && U64At(b, at + 32) == e.tpBits && U32At(b, at + 40) == e.flags && RefsAt(b, at + 44, e)
  }

  predicate RefsAt(b: seq<byte>, at: nat, e: RecordEntry) {
    && at + 52 <= |b|
    && U32At(b, at) == e.operandsOffset && U32At(b, at + 4) == e.operandsSize
    && U32At(b, at + 8) == e.latenciesOffset && U32At(b, at + 12) == e.latenciesSize
    && U32At(b, at + 16) == e.divCycles && U32At(b, at + 20) == e.nAvailableSimpleDecoders
    && I32At(b, at + 24) == e.implicitRspChange
    && U32At(b, at + 28) == e.variantsOffset && U32At(b, at + 32) == e.variantsSize
    && U32At(b, at + 36) == e.macroFusibleOffset && U32At(b, at + 40) == e.macroFusibleSize
    && U32At(b, at + 44) == e.xmlAttrsOffset && U32At(b, at + 48) == e.xmlAttrsSize
  }

  lemma RefsWrittenAt(b: seq<byte>, at: nat, e: RecordEntry, tail: seq<byte>)
    requires at <= |b| && b[at..] == PutBlobRefs(e, tail)
    ensures RefsAt(b, at, e)
  {
    hide U32At, I32At, PutU32, PutI32;
    var tC := PutU32(e.xmlAttrsSize, tail);
    var tB := PutU32(e.xmlAttrsOffset, tC);
    var tA := PutU32(e.macroFusibleSize, tB);
    var t9 := PutU32(e.macroFusibleOffset, tA);
    var t8 := PutU32(e.variantsSize, t9);
    var t7 := PutU32(e.variantsOffset, t8);
    var t6 := PutI32(e.implicitRspChange, t7);
    var t5 := PutU32(e.nAvailableSimpleDecoders, t6);
    var t4 := PutU32(e.divCycles, t5);
    var t3 := PutU32(e.latenciesSize, t4);
    var t2 := PutU32(e.latenciesOffset, t3);
    U32First(b, at, e.operandsOffset, PutU32(e.operandsSize, t2));
    U32First(b, at + 4, e.operandsSize, t2);
    U32First(b, at + 8, e.latenciesOffset, t3);
    U32First(b, at + 12, e.latenciesSize, t4);
    U32First(b, at + 16, e.divCycles, t5);
    U32First(b, at + 20, e.nAvailableSimpleDecoders, t6);
    I32First(b, at + 24, e.implicitRspChange, t7);
    U32First(b, at + 28, e.variantsOffset, t8);
    U32First(b, at + 32, e.variantsSize, t9);
    U32First(b, at + 36, e.macroFusibleOffset, tA);
    U32First(b, at + 40, e.macroFusibleSize, tB);
    U32First(b, at + 44, e.xmlAttrsOffset, tC);
    U32First(b, at + 48, e.xmlAttrsSize, tail);
  }

  lemma RecordWrittenAt(e: RecordEntry)
    ensures EntryIn(PutRecord(e), 0, e)
  {
    hide U32At, I32At, U64At, PutU32, PutI32, PutU64, PutBlobRefs, RefsAt;
    var b := PutRecord(e);
    var tA := PutBlobRefs(e, []);
    var t9 := PutU32(e.flags, tA);
    var t8 := PutU64(e.tpBits, t9);
    var t7 := PutI32(e.uopsMs, t8);
    var t6 := PutI32(e.uopsMite, t7);
    var t5 := PutI32(e.retireSlots, t6);
    var t4 := PutI32(e.uops, t5);
    var t3 := PutU32(e.portsCount, t4);
    var t2 := PutU32(e.portsStart, t3);
    WholeFrom(b);
    U32First(b, 0, e.iformOffset, PutU32(e.stringOffset, t2));
    U32First(b, 4, e.stringOffset, t2);
    U32First(b, 8, e.portsStart, t3);
    U32First(b, 12, e.portsCount, t4);
    I32First(b, 16, e.uops, t5);
    I32First(b, 20, e.retireSlots, t6);
    I32First(b, 24, e.uopsMite, t7);
    I32First(b, 28, e.uopsMs, t8);
    U64First(b, 32, e.tpBits, t9);
    U32First(b, 40, e.flags, tA);
    RefsWrittenAt(b, 44, e, []);
  }
}

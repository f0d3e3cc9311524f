/** The fixed-size entries of a UIPack file, and what they say about an instruction record. */
module PackRecords {
  import opened Wrappers
  import opened Bytes
  import opened PackData
  import opened StringTable
  import opened Fields
  import opened Blobs

  datatype RecordEntry = RecordEntry(
    iformOffset: u32, stringOffset: u32, portsStart: u32, portsCount: u32,
    uops: i32, retireSlots: i32, uopsMite: i32, uopsMs: i32, tpBits: u64, flags: u32,
    operandsOffset: u32, operandsSize: u32, latenciesOffset: u32, latenciesSize: u32,
    divCycles: u32, nAvailableSimpleDecoders: u32, implicitRspChange: i32,
    variantsOffset: u32, variantsSize: u32, macroFusibleOffset: u32, macroFusibleSize: u32,
    xmlAttrsOffset: u32, xmlAttrsSize: u32)

  function PutBlobRefs(e: RecordEntry, tail: seq<byte>): (r: seq<byte>)
    ensures |r| == 52 + |tail|
  {
    PutU32(e.operandsOffset, PutU32(e.operandsSize, PutU32(e.latenciesOffset, PutU32(e.latenciesSize,
      PutU32(e.divCycles, PutU32(e.nAvailableSimpleDecoders, PutI32(e.implicitRspChange,
        PutU32(e.variantsOffset, PutU32(e.variantsSize, PutU32(e.macroFusibleOffset, PutU32(e.macroFusibleSize,
          PutU32(e.xmlAttrsOffset, PutU32(e.xmlAttrsSize, tail)))))))))))))
  }

  function PutRecord(e: RecordEntry): (r: seq<byte>)
    ensures |r| == RECORD_SIZE
  {
    PutU32(e.iformOffset, PutU32(e.stringOffset, PutU32(e.portsStart, PutU32(e.portsCount,
      PutI32(e.uops, PutI32(e.retireSlots, PutI32(e.uopsMite, PutI32(e.uopsMs,
        PutU64(e.tpBits, PutU32(e.flags, PutBlobRefs(e, [])))))))))))
  }

  datatype Heading = Heading(iformOffset: u32, stringOffset: u32, portsStart: u32, portsCount: u32,
                             uops: i32, retireSlots: i32, uopsMite: i32, uopsMs: i32, tpBits: u64, flags: u32)

  function HeadingOf(e: RecordEntry): Heading {
    Heading(e.iformOffset, e.stringOffset, e.portsStart, e.portsCount, e.uops, e.retireSlots, e.uopsMite, e.uopsMs,
            e.tpBits, e.flags)
  }

  function GetBlobRefs(h: Heading, b: seq<byte>): Option<Parsed<RecordEntry>> {
    var operandsOffset :- GetU32(b);
    var operandsSize :- GetU32(operandsOffset.rest);
    var latenciesOffset :- GetU32(operandsSize.rest);
    var latenciesSize :- GetU32(latenciesOffset.rest);
    var divCycles :- GetU32(latenciesSize.rest);
    var nAvailable :- GetU32(divCycles.rest);
    var implicitRsp :- GetI32(nAvailable.rest);
    var variantsOffset :- GetU32(implicitRsp.rest);
    var variantsSize :- GetU32(variantsOffset.rest);
    var macroOffset :- GetU32(variantsSize.rest);
    var macroSize :- GetU32(macroOffset.rest);
    var xmlOffset :- GetU32(macroSize.rest);
    var xmlSize :- GetU32(xmlOffset.rest);
    Some(Parsed(RecordEntry(h.iformOffset, h.stringOffset, h.portsStart, h.portsCount, h.uops, h.retireSlots,
                            h.uopsMite, h.uopsMs, h.tpBits, h.flags, operandsOffset.value, operandsSize.value,
                            latenciesOffset.value, latenciesSize.value, divCycles.value, nAvailable.value,
                            implicitRsp.value, variantsOffset.value, variantsSize.value, macroOffset.value,
                            macroSize.value, xmlOffset.value, xmlSize.value), xmlSize.rest))
  }

  function GetRecord(b: seq<byte>): Option<RecordEntry> {
    var iform :- GetU32(b);
    var str :- GetU32(iform.rest);
    var portsStart :- GetU32(str.rest);
    var portsCount :- GetU32(portsStart.rest);
    var uops :- GetI32(portsCount.rest);
    var retireSlots :- GetI32(uops.rest);
    var uopsMite :- GetI32(retireSlots.rest);
    var uopsMs :- GetI32(uopsMite.rest);
    var tp :- GetU64(uopsMs.rest);
    var flags :- GetU32(tp.rest);
    var e :- GetBlobRefs(Heading(iform.value, str.value, portsStart.value, portsCount.value, uops.value,
                                 retireSlots.value, uopsMite.value, uopsMs.value, tp.value, flags.value), flags.rest);
    Some(e.value)
  }

  lemma BlobRefsRoundTrip(e: RecordEntry)
    ensures GetBlobRefs(HeadingOf(e), PutBlobRefs(e, [])) == Some(Parsed(e, []))
  {
    hide PutU32, GetU32, PutI32, GetI32;
    var tC := PutU32(e.xmlAttrsSize, []);
    var tB := PutU32(e.xmlAttrsOffset, tC);
    var tA := PutU32(e.macroFusibleSize, tB);
    var t9 := PutU32(e.macroFusibleOffset, tA);
    var t8 := PutU32(e.variantsSize, t9);
    var t7 := PutU32(e.variantsOffset, t8);
    var t6 := PutI32(e.implicitRspChange, t7);
    var t5 := PutU32(e.nAvailableSimpleDecoders, t6);
    var t4 := PutU32(e.divCycles, t5);
    var t3 := PutU32(e.latenciesSize, t4);
    var t2 := PutU32(e.latenciesOffset, t3);
    var t1 := PutU32(e.operandsSize, t2);
    U32RoundTrip(e.xmlAttrsSize, []);
    U32RoundTrip(e.xmlAttrsOffset, tC);
    U32RoundTrip(e.macroFusibleSize, tB);
    U32RoundTrip(e.macroFusibleOffset, tA);
    U32RoundTrip(e.variantsSize, t9);
    U32RoundTrip(e.variantsOffset, t8);
    I32RoundTrip(e.implicitRspChange, t7);
    U32RoundTrip(e.nAvailableSimpleDecoders, t6);
    U32RoundTrip(e.divCycles, t5);
    U32RoundTrip(e.latenciesSize, t4);
    U32RoundTrip(e.latenciesOffset, t3);
    U32RoundTrip(e.operandsSize, t2);
    U32RoundTrip(e.operandsOffset, t1);
  }

  lemma RecordRoundTrip(e: RecordEntry)
    ensures GetRecord(PutRecord(e)) == Some(e)
  {
    hide PutU32, GetU32, PutI32, GetI32, PutU64, GetU64, PutBlobRefs, GetBlobRefs;
    BlobRefsRoundTrip(e);
    var tA := PutBlobRefs(e, []);
    var t9 := PutU32(e.flags, tA);
    var t8 := PutU64(e.tpBits, t9);
    var t7 := PutI32(e.uopsMs, t8);
    var t6 := PutI32(e.uopsMite, t7);
    var t5 := PutI32(e.retireSlots, t6);
    var t4 := PutI32(e.uops, t5);
    var t3 := PutU32(e.portsCount, t4);
    var t2 := PutU32(e.portsStart, t3);
    var t1 := PutU32(e.stringOffset, t2);
    U32RoundTrip(e.flags, tA);
    U64RoundTrip(e.tpBits, t9);
    I32RoundTrip(e.uopsMs, t8);
    I32RoundTrip(e.uopsMite, t7);
    I32RoundTrip(e.retireSlots, t6);
    I32RoundTrip(e.uops, t5);
    U32RoundTrip(e.portsCount, t4);
    U32RoundTrip(e.portsStart, t3);
    U32RoundTrip(e.stringOffset, t2);
    U32RoundTrip(e.iformOffset, t1);
  }

  // The flags of a record

  function RecordFlags(r: InstructionRecord): seq<bool> {
    [r.perf.tp.Some?, r.perf.mayBeEliminated, r.perf.complexDecoder, r.perf.lcpStall, r.perf.canBeUsedByLsd,
     r.perf.cannotBeInDsbDueToJccErratum, r.perf.noMicroFusion, r.perf.noMacroFusion, r.immZero, r.locked]
  }

  function FlagBits(r: InstructionRecord): (n: u32) {
    BitsBounded(RecordFlags(r));
    assert Pow2(5) == 32 && Pow2(10) == 1024;
    Bits(RecordFlags(r))
  }

  lemma FlagBitsRead(r: InstructionRecord)
    ensures forall k :: 0 <= k < 10 ==> Bit(FlagBits(r), k) == RecordFlags(r)[k]
  {
    hide Bits, Bit;
    forall k | 0 <= k < 10
      ensures Bit(FlagBits(r), k) == RecordFlags(r)[k]
    {
      BitOf(RecordFlags(r), k);
    }
  }

  // The blobs of a record

  datatype Raw = Raw(operands: seq<byte>, latencies: seq<byte>, variants: seq<byte>, macroFusibleWith: seq<byte>,
                     xmlAttrs: seq<byte>)

  function RawBytes(w: Raw): seq<byte> {
    w.operands + w.latencies + w.variants + w.macroFusibleWith + w.xmlAttrs
  }

  function EncodeRaw(t: Table, r: InstructionRecord): Option<Raw> {
    var operands :- EncodeOperands(t, r.perf.operands);
    var latencies :- EncodeLatencies(t, r.perf.latencies);
    var variants :- EncodeVariants(t, r.perf.variants);
    var macroFusibleWith :- EncodeStringList(t, r.perf.macroFusibleWith);
    var xmlAttrs :- EncodeStringMap(t, r.xmlAttrs);
    Some(Raw(operands, latencies, variants, macroFusibleWith, xmlAttrs))
  }

  /** The offsets and sizes of a record's blobs, the first of which lies at `base`, have 32 bits. */
  predicate EntryFits(r: InstructionRecord, w: Raw, portsStart: nat, base: nat) {
    && portsStart < LIMIT && |r.perf.ports| < LIMIT
    && base + |w.operands| + |w.latencies| + |w.variants| + |w.macroFusibleWith| < LIMIT && |w.xmlAttrs| < LIMIT
  }

  function EntryOf(t: Table, r: InstructionRecord, w: Raw, portsStart: nat, base: nat): RecordEntry
    requires EntryFits(r, w, portsStart, base)
  {
    var latencies := base + |w.operands|;
    var variants := latencies + |w.latencies|;
    var macros := variants + |w.variants|;
    var xml := macros + |w.macroFusibleWith|;
    RecordEntry(OffsetOf(t, r.iform), OffsetOf(t, r.str), portsStart, |r.perf.ports|,
                r.perf.uops, r.perf.retireSlots, r.perf.uopsMite, r.perf.uopsMs, ValueOr0(r.perf.tp), FlagBits(r),
                base, |w.operands|, latencies, |w.latencies|,
                r.perf.divCycles, r.perf.nAvailableSimpleDecoders, r.perf.implicitRspChange,
                variants, |w.variants|, macros, |w.macroFusibleWith|, xml, |w.xmlAttrs|)
  }

  function BlobAt(bytes: seq<byte>, offset: nat, size: nat): Option<seq<byte>> {
    if offset + size > |bytes| then None else Some(bytes[offset..offset + size])
  }

  /** What is decoded of the blobs of a record; blobs of no size are empty. */
  datatype Decoded = Decoded(operands: seq<OperandRecord>, latencies: seq<LatencyRecord>,
                             variants: map<Str, VariantRecord>, macroFusibleWith: seq<Str>, xmlAttrs: map<Str, Str>)

  function DecodeBlobs(strings: seq<byte>, bytes: seq<byte>, e: RecordEntry): Option<Decoded> {
    var xmlAttrs :- if e.xmlAttrsSize == 0 then Some(map[])
                    else
                      var b :- BlobAt(bytes, e.xmlAttrsOffset, e.xmlAttrsSize);
                      DecodeStringMap(strings, b);
    var macros :- if e.macroFusibleSize == 0 then Some([])
                  else
                    var b :- BlobAt(bytes, e.macroFusibleOffset, e.macroFusibleSize);
                    DecodeStringList(strings, b);
    var operandBytes :- BlobAt(bytes, e.operandsOffset, e.operandsSize);
    var operands :- DecodeOperands(strings, operandBytes);
    var latencyBytes :- BlobAt(bytes, e.latenciesOffset, e.latenciesSize);
    var latencies :- DecodeLatencies(strings, latencyBytes);
    var variants :- if e.variantsSize == 0 then Some(map[])
                    else
                      var b :- BlobAt(bytes, e.variantsOffset, e.variantsSize);
                      DecodeVariants(strings, b);
    Some(Decoded(operands, latencies, variants, macros, xmlAttrs))
  }

  function DecodedOf(r: InstructionRecord): Decoded {
    Decoded(r.perf.operands, r.perf.latencies, r.perf.variants, r.perf.macroFusibleWith, r.xmlAttrs)
  }

  /** The blobs of a record lie in the bytes from `base` on. */
  predicate HasPieces(bytes: seq<byte>, w: Raw, base: nat) {
    var b0 := base + |w.operands|;
    var b1 := b0 + |w.latencies|;
    var b2 := b1 + |w.variants|;
    var b3 := b2 + |w.macroFusibleWith|;
    && BlobAt(bytes, base, |w.operands|) == Some(w.operands)
    && BlobAt(bytes, b0, |w.latencies|) == Some(w.latencies)
    && BlobAt(bytes, b1, |w.variants|) == Some(w.variants)
    && BlobAt(bytes, b2, |w.macroFusibleWith|) == Some(w.macroFusibleWith)
    && BlobAt(bytes, b3, |w.xmlAttrs|) == Some(w.xmlAttrs)
  }

  lemma Five(a: seq<byte>, b: seq<byte>, c: seq<byte>, d: seq<byte>, e: seq<byte>)
    ensures var all := a + b + c + d + e;
            && all[0..|a|] == a && all[|a|..|a| + |b|] == b && all[|a| + |b|..|a| + |b| + |c|] == c
            && all[|a| + |b| + |c|..|a| + |b| + |c| + |d|] == d && all[|a| + |b| + |c| + |d|..|all|] == e
  {}

  lemma PiecesOfRaw(bytes: seq<byte>, w: Raw, base: nat)
    requires base + |RawBytes(w)| <= |bytes| && bytes[base..base + |RawBytes(w)|] == RawBytes(w)
    ensures HasPieces(bytes, w, base)
  {
    var all := RawBytes(w);
    Five(w.operands, w.latencies, w.variants, w.macroFusibleWith, w.xmlAttrs);
    var b0 := |w.operands|;
    var b1 := b0 + |w.latencies|;
    var b2 := b1 + |w.variants|;
    var b3 := b2 + |w.macroFusibleWith|;
    assert |all| == b3 + |w.xmlAttrs|;
    hide RawBytes;
    PartOf(bytes, all, base, 0, b0, w.operands);
    PartOf(bytes, all, base, b0, b1, w.latencies);
    PartOf(bytes, all, base, b1, b2, w.variants);
    PartOf(bytes, all, base, b2, b3, w.macroFusibleWith);
    PartOf(bytes, all, base, b3, |all|, w.xmlAttrs);
  }

  lemma PartOf(bytes: seq<byte>, all: seq<byte>, base: nat, i: nat, j: nat, part: seq<byte>)
    requires base + |all| <= |bytes| && bytes[base..base + |all|] == all && i <= j <= |all| && all[i..j] == part
    ensures bytes[base + i..base + j] == part
  {
    var sub := bytes[base..base + |all|];
    forall k | i <= k < j
      ensures bytes[base + k] == all[k]
    {
      assert sub[k] == bytes[base + k];
    }
    assert all[i..j] == bytes[base + i..base + j];
  }

  lemma RawParts(t: Table, r: InstructionRecord)
    requires EncodeRaw(t, r).Some?
    ensures var w := EncodeRaw(t, r).value;
            && EncodeOperands(t, r.perf.operands) == Some(w.operands)
            && EncodeLatencies(t, r.perf.latencies) == Some(w.latencies)
            && EncodeVariants(t, r.perf.variants) == Some(w.variants)
            && EncodeStringList(t, r.perf.macroFusibleWith) == Some(w.macroFusibleWith)
            && EncodeStringMap(t, r.xmlAttrs) == Some(w.xmlAttrs)
            && |w.variants| >= 4 && |w.macroFusibleWith| >= 4 && |w.xmlAttrs| >= 4
  {
    hide EncodeOperands, EncodeLatencies, EncodeVariants, EncodeStringList, EncodeStringMap;
  }

  /** The blobs of a record are decoded one by one. */
  predicate Decodes(strings: seq<byte>, w: Raw, d: Decoded) {
    && DecodeOperands(strings, w.operands) == Some(d.operands)
    && DecodeLatencies(strings, w.latencies) == Some(d.latencies)
    && DecodeVariants(strings, w.variants) == Some(d.variants)
    && DecodeStringList(strings, w.macroFusibleWith) == Some(d.macroFusibleWith)
    && DecodeStringMap(strings, w.xmlAttrs) == Some(d.xmlAttrs)
  }

  lemma RawDecodes(t: Table, r: InstructionRecord)
    requires Usable(t) && EncodeRaw(t, r).Some?
    ensures Decodes(t.bytes, EncodeRaw(t, r).value, DecodedOf(r))
  {
    RawParts(t, r);
    hide EncodeRaw, EncodeOperands, EncodeLatencies, EncodeVariants, EncodeStringList, EncodeStringMap, Valid;
    hide DecodeOperands, DecodeLatencies, DecodeVariants, DecodeStringList, DecodeStringMap;
    OperandsRoundTrip(t, r.perf.operands);
    LatenciesRoundTrip(t, r.perf.latencies);
    VariantsRoundTrip(t, r.perf.variants);
    StringListRoundTrip(t, r.perf.macroFusibleWith);
    StringMapRoundTrip(t, r.xmlAttrs);
  }

  /** The entry refers to the blobs from `base` on. */
  predicate RefersTo(e: RecordEntry, w: Raw, base: nat) {
    && e.operandsOffset == base && e.operandsSize == |w.operands|
    && e.latenciesOffset == base + |w.operands| && e.latenciesSize == |w.latencies|
    && e.variantsOffset == base + |w.operands| + |w.latencies| && e.variantsSize == |w.variants|
    && e.macroFusibleOffset == base + |w.operands| + |w.latencies| + |w.variants|
    && e.macroFusibleSize == |w.macroFusibleWith|
    && e.xmlAttrsOffset == base + |w.operands| + |w.latencies| + |w.variants| + |w.macroFusibleWith|
    && e.xmlAttrsSize == |w.xmlAttrs|
  }

  lemma EntryRefers(t: Table, r: InstructionRecord, w: Raw, portsStart: nat, base: nat)
    requires EntryFits(r, w, portsStart, base)
    ensures RefersTo(EntryOf(t, r, w, portsStart, base), w, base)
  {
    hide FlagBits, OffsetOf;
  }

  lemma DecodeParts(strings: seq<byte>, bytes: seq<byte>, e: RecordEntry, w: Raw, d: Decoded, base: nat)
    requires RefersTo(e, w, base) && HasPieces(bytes, w, base) && Decodes(strings, w, d)
    requires |w.variants| > 0 && |w.macroFusibleWith| > 0 && |w.xmlAttrs| > 0
    ensures DecodeBlobs(strings, bytes, e) == Some(d)
  {
    hide DecodeOperands, DecodeLatencies, DecodeVariants, DecodeStringList, DecodeStringMap, BlobAt;
  }

  /** The blobs of a record are decoded to what was encoded. */
  lemma BlobsRoundTrip(t: Table, r: InstructionRecord, w: Raw, bytes: seq<byte>, portsStart: nat, base: nat)
    requires Usable(t) && EncodeRaw(t, r) == Some(w) && EntryFits(r, w, portsStart, base)
    requires base + |RawBytes(w)| <= |bytes| && bytes[base..base + |RawBytes(w)|] == RawBytes(w)
    ensures DecodeBlobs(t.bytes, bytes, EntryOf(t, r, w, portsStart, base)) == Some(DecodedOf(r))
  {
    hide *;
    PiecesOfRaw(bytes, w, base);
    RawParts(t, r);
    RawDecodes(t, r);
    EntryRefers(t, r, w, portsStart, base);
    DecodeParts(t.bytes, bytes, EntryOf(t, r, w, portsStart, base), w, DecodedOf(r), base);
  }
}

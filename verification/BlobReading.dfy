/** Which bytes are refused as blobs of a record. */
module BlobReading {
  import opened Wrappers
  import opened Bytes
  import opened PackData
  import opened StringTable
  import opened Fields
  import opened Blobs
  import opened BlobLayout

  lemma Halved(n: nat)
    ensures n == One(Bit(n, 0)) + 2 * (n / 2) && forall k: nat :: Bit(n, k + 1) == Bit(n / 2, k)
  {}

  lemma BitIsOne(bits: nat)
    requires bits < 16
    ensures bits == One(Bit(bits, 0)) + 2 * One(Bit(bits, 1)) + 4 * One(Bit(bits, 2)) + 8 * One(Bit(bits, 3))
  {
    var b1, b2, b3 := bits / 2, bits / 2 / 2, bits / 2 / 2 / 2;
    Halved(bits);
    Halved(b1);
    Halved(b2);
    Halved(b3);
    hide Bit, One;
    assert Bit(bits, 0 + 1) == Bit(b1, 0);
    assert Bit(bits, 1 + 1) == Bit(b1, 0 + 1) == Bit(b2, 0);
    assert Bit(bits, 2 + 1) == Bit(b1, 1 + 1) == Bit(b2, 0 + 1) == Bit(b3, 0);
  }

  /** An optional number: it is there exactly if its bit is set, and zero if not. */
  predicate IsOptional(o: Option<int>, present: bool, value: int) {
    o == if present then Some(value) else None
  }

  lemma StringReadsAt(strings: seq<byte>, b: seq<byte>, at: nat)
    requires at + 4 <= |b|
    ensures ReadString(strings, U32At(b, at)) == None ==> GetString(strings, b[at..]) == None
    ensures ReadString(strings, U32At(b, at)).Some? ==>
              GetString(strings, b[at..]) == Some(Parsed(ReadString(strings, U32At(b, at)).value, b[at + 4..]))
  {
    hide GetU32, ReadString, U32At;
    U32Reads(b, at);
  }

  /** The bytes that are read as a latency: both operands are strings, no unknown bit is set, and each value without its
      bit is zero. */
  predicate IsLatency(strings: seq<byte>, b: seq<byte>) {
    && |b| >= 32 && ReadString(strings, U32At(b, 0)).Some? && ReadString(strings, U32At(b, 4)).Some?
    && U32At(b, 12) < 16
    && (Bit(U32At(b, 12), 0) || I32At(b, 16) == 0) && (Bit(U32At(b, 12), 1) || I32At(b, 20) == 0)
    && (Bit(U32At(b, 12), 2) || I32At(b, 24) == 0) && (Bit(U32At(b, 12), 3) || I32At(b, 28) == 0)
  }

  lemma LatencyNumbers(strings: seq<byte>, b: seq<byte>)
    requires |b| >= 32 && ReadString(strings, U32At(b, 0)).Some? && ReadString(strings, U32At(b, 4)).Some?
    requires U32At(b, 12) < 16
    ensures GetLatency(strings, b) ==
            match LatencyFrom(ReadString(strings, U32At(b, 0)).value, ReadString(strings, U32At(b, 4)).value,
                              I32At(b, 8), U32At(b, 12), I32At(b, 16), I32At(b, 20), I32At(b, 24), I32At(b, 28))
            case Some(l) => Some(Parsed(l, b[32..]))
            case None => None
  {
    hide GetU32, GetI32, GetString, ReadString, U32At, I32At, LatencyFrom;
    WholeFrom(b);
    StringReadsAt(strings, b, 0);
    StringReadsAt(strings, b, 4);
    I32Reads(b, 8);
    U32Reads(b, 12);
    I32Reads(b, 16);
    I32Reads(b, 20);
    I32Reads(b, 24);
    I32Reads(b, 28);
  }

  lemma LatencyNeeds(strings: seq<byte>, b: seq<byte>)
    requires GetLatency(strings, b).Some?
    ensures |b| >= 32 && ReadString(strings, U32At(b, 0)).Some? && ReadString(strings, U32At(b, 4)).Some?
    ensures U32At(b, 12) < 16
  {
    hide ReadString, U32At, FromLe, FromSigned, LatencyFrom;
    if |b| >= 4 {
      WholeFrom(b);
      U32Reads(b, 0);
    }
    if |b| >= 8 {
      U32Reads(b, 4);
    }
    if |b| >= 16 {
      I32Reads(b, 8);
      U32Reads(b, 12);
    }
  }

  lemma LatencyFromParts(strings: seq<byte>, b: seq<byte>, start: Str, target: Str)
    requires |b| >= 32
    ensures var bits := U32At(b, 12);
            var l := LatencyFrom(start, target, I32At(b, 8), bits, I32At(b, 16), I32At(b, 20), I32At(b, 24), I32At(b, 28));
            && (l.Some? <==>
                  && (Bit(bits, 0) || I32At(b, 16) == 0) && (Bit(bits, 1) || I32At(b, 20) == 0)
                  && (Bit(bits, 2) || I32At(b, 24) == 0) && (Bit(bits, 3) || I32At(b, 28) == 0))
            && (l.Some? ==>
                  && l.value.startOp == start && l.value.targetOp == target && l.value.cycles == I32At(b, 8)
                  && IsOptional(l.value.cyclesAddr, Bit(bits, 0), I32At(b, 16))
                  && IsOptional(l.value.cyclesAddrIndex, Bit(bits, 1), I32At(b, 20))
                  && IsOptional(l.value.cyclesMem, Bit(bits, 2), I32At(b, 24))
                  && IsOptional(l.value.cyclesSameReg, Bit(bits, 3), I32At(b, 28)))
  {
    hide U32At, I32At, Bit;
  }

  /** Any bytes are read as a latency exactly if they are one, and then field by field. */
  lemma LatencyReadExactly(strings: seq<byte>, b: seq<byte>)
    ensures GetLatency(strings, b).Some? <==> IsLatency(strings, b)
    ensures GetLatency(strings, b).Some? ==>
              var l, bits := GetLatency(strings, b).value.value, U32At(b, 12);
              && GetLatency(strings, b).value.rest == b[32..]
              && ReadString(strings, U32At(b, 0)) == Some(l.startOp) && ReadString(strings, U32At(b, 4)) == Some(l.targetOp)
              && l.cycles == I32At(b, 8)
              && IsOptional(l.cyclesAddr, Bit(bits, 0), I32At(b, 16))
              && IsOptional(l.cyclesAddrIndex, Bit(bits, 1), I32At(b, 20))
              && IsOptional(l.cyclesMem, Bit(bits, 2), I32At(b, 24))
              && IsOptional(l.cyclesSameReg, Bit(bits, 3), I32At(b, 28))
  {
    hide GetLatency, ReadString, U32At, I32At, Bit, LatencyFrom, IsOptional;
    if GetLatency(strings, b).Some? {
      LatencyNeeds(strings, b);
    }
    if |b| >= 32 && ReadString(strings, U32At(b, 0)).Some? && ReadString(strings, U32At(b, 4)).Some? &&
       U32At(b, 12) < 16
    {
      LatencyNumbers(strings, b);
      LatencyFromParts(strings, b, ReadString(strings, U32At(b, 0)).value, ReadString(strings, U32At(b, 4)).value);
    }
  }

  // Operands and variants

  /** An operand with an unknown bit is refused. */
  lemma OperandBitsKnown(strings: seq<byte>, b: seq<byte>)
    requires GetOperand(strings, b).Some?
    ensures |b| >= 12 && U32At(b, 8) < 16
    ensures var o := GetOperand(strings, b).value.value;
            U32At(b, 8) == One(o.read) + 2 * One(o.write) + 4 * One(o.implicit) + 8 * One(o.isAgen)
  {
    hide U32At, ReadString, GetStrings, GetOptionalString, GetPresentI32, GetPresentI64, Bit, One, FromLe;
    WholeFrom(b);
    U32Reads(b, 0);
    U32Reads(b, 4);
    U32Reads(b, 8);
    BitIsOne(U32At(b, 8));
  }

  /** A word that says whether a number follows is zero or one. */
  lemma PresenceKnown(b: seq<byte>)
    requires GetPresentI32(b).Some?
    ensures |b| >= 8 && GetPresentI32(b).value.rest == b[8..] && U32At(b, 0) == One(GetPresentI32(b).value.value.Some?)
    ensures IsOptional(GetPresentI32(b).value.value, U32At(b, 0) == 1, I32At(b, 4))
  {
    hide U32At, I32At, FromLe, FromSigned;
    WholeFrom(b);
    U32Reads(b, 0);
    I32Reads(b, 4);
  }

  lemma NumbersRead(b: seq<byte>, at: nat)
    requires at + 36 <= |b|
    ensures GetNumbers(b[at..]) ==
            Some(Parsed(Numbers(I32At(b, at), I32At(b, at + 4), I32At(b, at + 8), I32At(b, at + 12), U64At(b, at + 16),
                                U32At(b, at + 24), U32At(b, at + 28), U32At(b, at + 32)), b[at + 36..]))
  {
    hide GetI32, GetU32, GetU64, I32At, U32At, U64At;
    I32Reads(b, at);
    I32Reads(b, at + 4);
    I32Reads(b, at + 8);
    I32Reads(b, at + 12);
    U64Reads(b, at + 16);
    U32Reads(b, at + 24);
    U32Reads(b, at + 28);
    U32Reads(b, at + 32);
  }

  /** The numbers of a variant: each that is not there is zero, and a flag is zero or one. */
  predicate NumbersFit(n: Numbers, v: VariantRecord) {
    && n.uops == OrZero(v.uops) && n.retireSlots == OrZero(v.retireSlots) && n.uopsMite == OrZero(v.uopsMite)
    && n.uopsMs == OrZero(v.uopsMs) && n.tp == OrZero(v.tp) && n.divCycles == OrZero(v.divCycles)
    && n.complexDecoder == One(v.complexDecoder == Some(true))
    && n.nAvailableSimpleDecoders == OrZero(v.nAvailableSimpleDecoders)
  }

  lemma FromFits(bits: nat, n: Numbers, ports: Option<map<Str, i32>>)
    requires VariantFrom(bits, n, ports).Some?
    ensures NumbersFit(n, VariantFrom(bits, n, ports).value)
  {
    hide Bit;
  }

  lemma NumbersLong(b: seq<byte>)
    requires GetNumbers(b).Some?
    ensures |b| >= 36
  {
    hide FromLe, FromSigned;
  }

  /** A variant with an unknown bit, or with a value that is not there and not zero, is refused. */
  lemma VariantNumbersKnown(strings: seq<byte>, b: seq<byte>)
    requires GetVariant(strings, b).Some?
    ensures |b| >= 44 && U32At(b, 4) < 512
    ensures NumbersFit(Numbers(I32At(b, 8), I32At(b, 12), I32At(b, 16), I32At(b, 20), U64At(b, 24), U32At(b, 32),
                               U32At(b, 36), U32At(b, 40)), GetVariant(strings, b).value.value.1)
  {
    hide GetNumbers, ReadString, GetOptionalPorts, VariantFrom, NumbersFit, I32At, U32At, U64At, FromLe, Bit;
    WholeFrom(b);
    U32Reads(b, 0);
    U32Reads(b, 4);
    NumbersLong(b[8..]);
    NumbersRead(b, 8);
    var bits, n := U32At(b, 4), GetNumbers(b[8..]).value;
    FromFits(bits, n.value, GetOptionalPorts(strings, Bit(bits, 5), n.rest).value.value);
  }

  // Lists and maps

  lemma {:induction false} AllCounted<T>(n: nat, get: seq<byte> -> Option<Parsed<T>>, b: seq<byte>)
    requires GetAll(n, get, b).Some?
    ensures |GetAll(n, get, b).value.value| == n
  {
    if n > 0 {
      AllCounted(n - 1, get, get(b).value.rest);
    }
  }

  /** A list begins with the number of its elements; a list is refused that is too long for the bytes there are. */
  lemma ListCounted<T>(get: seq<byte> -> Option<Parsed<T>>, size: nat, b: seq<byte>)
    requires size > 0 && GetList(get, size, b).Some?
    ensures |b| >= 4 && |GetList(get, size, b).value.value| == U32At(b, 0) && U32At(b, 0) * size <= |b| - 4
  {
    hide U32At, GetAll;
    WholeFrom(b);
    if |b| >= 4 {
      U32Reads(b, 0);
      AllCounted(U32At(b, 0), get, b[4..]);
      Quotient(|b| - 4, size, U32At(b, 0));
    }
  }

  lemma Quotient(have: nat, size: nat, n: nat)
    requires size > 0 && n <= have / size
    ensures n * size <= have
  {
    var q := have / size;
    assert q * size <= have;
    assert (q - n) * size >= 0;
  }

  lemma {:induction false} InsertedCount<V>(m: map<Str, V>, es: seq<(Str, V)>)
    requires InsertAll(m, es).Some?
    ensures |InsertAll(m, es).value| == |m| + |es|
    decreases |es|
  {
    if es != [] {
      assert m[es[0].0 := es[0].1].Keys == m.Keys + {es[0].0};
      InsertedCount(m[es[0].0 := es[0].1], es[1..]);
    }
  }

  /** A map has as many entries as its blob says: no key occurs twice. */
  lemma MapCounted(strings: seq<byte>, b: seq<byte>)
    requires DecodeStringMap(strings, b).Some?
    ensures |b| >= 4 && |DecodeStringMap(strings, b).value| == U32At(b, 0)
  {
    hide U32At, GetPair, InsertAll, GetList;
    ListCounted(rest => GetPair(strings, rest), 8, b);
    InsertedCount(map[], GetList(rest => GetPair(strings, rest), 8, b).value.value);
  }

  /** So do the variants. */
  lemma VariantsCounted(strings: seq<byte>, b: seq<byte>)
    requires DecodeVariants(strings, b).Some?
    ensures |b| >= 4 && |DecodeVariants(strings, b).value| == U32At(b, 0)
  {
    hide U32At, GetVariant, InsertAll, GetList;
    ListCounted(rest => GetVariant(strings, rest), MIN_VARIANT_BLOB_BYTES, b);
    InsertedCount(map[], GetList(rest => GetVariant(strings, rest), MIN_VARIANT_BLOB_BYTES, b).value.value);
  }
}

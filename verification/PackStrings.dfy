/** Encoding a record never meets a string that was not interned: it fails for lists that are too long only. */
module PackStrings {
  import opened Wrappers
  import opened Bytes
  import opened PackData
  import opened StringTable
  import opened Fields
  import opened Blobs
  import opened PackRecords
  import opened PackFile

  /** All lists of a record have lengths of 32 bits. */
  ghost predicate Small(r: InstructionRecord) {
    && |r.perf.operands| < LIMIT && |r.perf.latencies| < LIMIT && |r.perf.variants| < LIMIT
    && |r.perf.macroFusibleWith| < LIMIT && |r.xmlAttrs| < LIMIT
    && (forall o :: o in r.perf.operands ==> SmallOperand(o))
    && (forall k :: k in r.perf.variants ==> SmallVariant(r.perf.variants[k]))
  }

  predicate SmallOperand(o: OperandRecord) {
    |o.flags| < LIMIT && |o.flagsRead| < LIMIT && |o.flagsWrite| < LIMIT
  }

  predicate SmallVariant(v: VariantRecord) {
    v.ports.Some? ==> |v.ports.value| < LIMIT
  }

  ghost predicate Has(t: Table, ss: seq<Str>) {
    forall s :: s in ss ==> s in t.offsets
  }

  lemma HasParts(t: Table, a: seq<Str>, b: seq<Str>)
    requires Has(t, a + b)
    ensures Has(t, a) && Has(t, b)
  {
    forall s | s in a
      ensures s in t.offsets
    {
      assert s in a + b;
    }
    forall s | s in b
      ensures s in t.offsets
    {
      assert s in a + b;
    }
  }

  lemma OperandHas(t: Table, o: OperandRecord)
    requires Has(t, StringsOfOperand(o))
    ensures OperandInterned(t, o) <==> SmallOperand(o)
  {
    var s0 := [o.name, o.typ];
    var s1 := s0 + o.flags;
    var s2 := s1 + o.flagsRead;
    var s3 := s2 + o.flagsWrite;
    var s4 := s3 + Optionally(o.memBase);
    var s5 := s4 + Optionally(o.memIndex);
    HasParts(t, s5, Optionally(o.memOperandRole));
    HasParts(t, s4, Optionally(o.memIndex));
    HasParts(t, s3, Optionally(o.memBase));
    HasParts(t, s2, o.flagsWrite);
    HasParts(t, s1, o.flagsRead);
    HasParts(t, s0, o.flags);
    assert s0[0] == o.name && s0[1] == o.typ;
    OptionHas(t, o.memBase);
    OptionHas(t, o.memIndex);
    OptionHas(t, o.memOperandRole);
  }

  lemma OptionHas(t: Table, s: Option<Str>)
    requires Has(t, Optionally(s))
    ensures OptionInterned(t, s)
  {
    if s.Some? {
      assert Optionally(s)[0] == s.value;
    }
  }

  lemma {:induction false} OperandsHave(t: Table, os: seq<OperandRecord>, i: nat)
    requires Has(t, OperandStrings(os)) && i < |os|
    ensures OperandInterned(t, os[i]) <==> SmallOperand(os[i])
  {
    hide OperandInterned, SmallOperand, Has, StringsOfOperand;
    var last := |os| - 1;
    HasParts(t, OperandStrings(os[..last]), StringsOfOperand(os[last]));
    if i < last {
      OperandsHave(t, os[..last], i);
    } else {
      OperandHas(t, os[i]);
    }
  }

  lemma {:induction false} LatenciesHave(t: Table, ls: seq<LatencyRecord>, i: nat)
    requires Has(t, LatencyStrings(ls)) && i < |ls|
    ensures LatencyInterned(t, ls[i])
  {
    var last := |ls| - 1;
    var mine := [ls[last].startOp, ls[last].targetOp];
    HasParts(t, LatencyStrings(ls[..last]), mine);
    if i < last {
      LatenciesHave(t, ls[..last], i);
    } else {
      assert mine[0] == ls[i].startOp && mine[1] == ls[i].targetOp;
    }
  }

  lemma {:induction false} KeysHave<V>(t: Table, es: seq<(Str, V)>, i: nat)
    requires Has(t, Keys(es)) && i < |es|
    ensures es[i].0 in t.offsets
  {
    var last := |es| - 1;
    HasParts(t, Keys(es[..last]), [es[last].0]);
    if i < last {
      KeysHave(t, es[..last], i);
    } else {
      assert [es[last].0][0] == es[i].0;
    }
  }

  lemma PortsHave(t: Table, m: map<Str, i32>)
    requires Has(t, Keys(Entries(m)))
    ensures PortsInterned(t, m) <==> |m| < LIMIT
  {
    hide Entries, Keys, Has;
    forall k | k in m
      ensures k in t.offsets
    {
      var i := EntryOfKey(m, k);
      KeysHave(t, Entries(m), i);
    }
  }

  lemma {:induction false} VariantsHave(t: Table, es: seq<(Str, VariantRecord)>, i: nat)
    requires Has(t, VariantStrings(es)) && i < |es|
    ensures es[i].0 in t.offsets && (VariantInterned(t, es[i].1) <==> SmallVariant(es[i].1))
  {
    hide Has, Entries, Keys, PortsInterned;
    var last := |es| - 1;
    var e := es[last];
    var mine := [e.0] + if e.1.ports.Some? then Keys(Entries(e.1.ports.value)) else [];
    assert VariantStrings(es) == VariantStrings(es[..last]) + mine;
    HasParts(t, VariantStrings(es[..last]), mine);
    if i < last {
      VariantsHave(t, es[..last], i);
    } else {
      HasParts(t, [e.0], mine[1..]);
      assert mine == [e.0] + mine[1..];
      HasOne(t, e.0);
      if e.1.ports.Some? {
        assert mine[1..] == Keys(Entries(e.1.ports.value));
        PortsHave(t, e.1.ports.value);
      }
    }
  }

  lemma HasOne(t: Table, s: Str)
    requires Has(t, [s])
    ensures s in t.offsets
  {
    assert [s][0] == s;
  }

  lemma {:induction false} PairsHave(t: Table, es: seq<(Str, Str)>, i: nat)
    requires Has(t, PairStrings(es)) && i < |es|
    ensures es[i].0 in t.offsets && es[i].1 in t.offsets
  {
    var last := |es| - 1;
    var mine := [es[last].0, es[last].1];
    HasParts(t, PairStrings(es[..last]), mine);
    if i < last {
      PairsHave(t, es[..last], i);
    } else {
      assert mine[0] == es[i].0 && mine[1] == es[i].1;
    }
  }

  lemma RecordParts(t: Table, r: InstructionRecord)
    requires Has(t, RecordStrings(r))
    ensures Has(t, OperandStrings(r.perf.operands)) && Has(t, LatencyStrings(r.perf.latencies))
    ensures Has(t, VariantStrings(Entries(r.perf.variants))) && Has(t, r.perf.macroFusibleWith)
    ensures Has(t, PairStrings(Entries(r.xmlAttrs)))
  {
    hide Has, OperandStrings, LatencyStrings, VariantStrings, PairStrings, Keys, Entries;
    var s1 := [r.iform, r.str] + Keys(Entries(r.perf.ports));
    var s2 := s1 + OperandStrings(r.perf.operands);
    var s3 := s2 + LatencyStrings(r.perf.latencies);
    var s4 := s3 + VariantStrings(Entries(r.perf.variants));
    var s5 := s4 + r.perf.macroFusibleWith;
    HasParts(t, s5, PairStrings(Entries(r.xmlAttrs)));
    HasParts(t, s4, r.perf.macroFusibleWith);
    HasParts(t, s3, VariantStrings(Entries(r.perf.variants)));
    HasParts(t, s2, LatencyStrings(r.perf.latencies));
    HasParts(t, s1, OperandStrings(r.perf.operands));
  }

  lemma OperandsEncode(t: Table, r: InstructionRecord)
    requires Has(t, OperandStrings(r.perf.operands))
    ensures EncodeOperands(t, r.perf.operands).Some? <==>
            |r.perf.operands| < LIMIT && forall o :: o in r.perf.operands ==> SmallOperand(o)
  {
    hide OperandInterned, SmallOperand, Has, OperandStrings, PutList;
    forall o | o in r.perf.operands
      ensures OperandInterned(t, o) <==> SmallOperand(o)
    {
      var i :| 0 <= i < |r.perf.operands| && r.perf.operands[i] == o;
      OperandsHave(t, r.perf.operands, i);
    }
  }

  lemma LatenciesEncode(t: Table, r: InstructionRecord)
    requires Has(t, LatencyStrings(r.perf.latencies))
    ensures EncodeLatencies(t, r.perf.latencies).Some? <==> |r.perf.latencies| < LIMIT
  {
    hide LatencyInterned, Has, LatencyStrings, PutList;
    forall l | l in r.perf.latencies
      ensures LatencyInterned(t, l)
    {
      var i :| 0 <= i < |r.perf.latencies| && r.perf.latencies[i] == l;
      LatenciesHave(t, r.perf.latencies, i);
    }
  }

  lemma VariantsEncode(t: Table, m: map<Str, VariantRecord>)
    requires Has(t, VariantStrings(Entries(m)))
    ensures EncodeVariants(t, m).Some? <==> |m| < LIMIT && forall k :: k in m ==> SmallVariant(m[k])
  {
    hide VariantInterned, SmallVariant, Has, VariantStrings, PutList, Entries;
    forall k | k in m
      ensures k in t.offsets && (VariantInterned(t, m[k]) <==> SmallVariant(m[k]))
    {
      var i := EntryOfKey(m, k);
      VariantsHave(t, Entries(m), i);
    }
  }

  lemma AttrsEncode(t: Table, m: map<Str, Str>)
    requires Has(t, PairStrings(Entries(m)))
    ensures EncodeStringMap(t, m).Some? <==> |m| < LIMIT
  {
    hide Has, PairStrings, PutList, Entries;
    forall k | k in m
      ensures k in t.offsets && m[k] in t.offsets
    {
      var i := EntryOfKey(m, k);
      PairsHave(t, Entries(m), i);
    }
  }

  /** With the strings of a record interned, encoding it fails exactly if one of its lists is too long. */
  lemma EncodesSmall(t: Table, r: InstructionRecord)
    requires Has(t, RecordStrings(r))
    ensures EncodeRaw(t, r).Some? <==> Small(r)
  {
    hide EncodeOperands, EncodeLatencies, EncodeVariants, EncodeStringMap, SmallOperand, SmallVariant, EncodeRaw;
    hide RecordStrings, PutStrings, OperandStrings, LatencyStrings, VariantStrings, PairStrings;
    RecordParts(t, r);
    OperandsEncode(t, r);
    LatenciesEncode(t, r);
    VariantsEncode(t, r.perf.variants);
    AttrsEncode(t, r.xmlAttrs);
    EncodesAll(t, r);
  }

  /** A record is encoded exactly if all its parts are. */
  lemma EncodesAll(t: Table, r: InstructionRecord)
    ensures EncodeRaw(t, r).Some? <==>
            && EncodeOperands(t, r.perf.operands).Some? && EncodeLatencies(t, r.perf.latencies).Some?
            && EncodeVariants(t, r.perf.variants).Some? && EncodeStringList(t, r.perf.macroFusibleWith).Some?
            && EncodeStringMap(t, r.xmlAttrs).Some?
  {
    hide EncodeOperands, EncodeLatencies, EncodeVariants, EncodeStringList, EncodeStringMap;
  }
}

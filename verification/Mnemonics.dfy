/** What normalized mnemonics are, written out. */
module Mnemonics {
  import opened Wrappers
  import opened Bytes
  import opened PackData
  import opened PackIndex

  // Words

  /** The word is the first piece of the text between white space and opening parentheses, or empty if there is none. */
  ghost predicate IsFirstWord(s: Str, word: Str) {
    exists i, j :: IsPiece(s, i, j, word)
  }

  ghost predicate IsPiece(s: Str, i: int, j: int, word: Str) {
    && 0 <= i <= j <= |s| && word == s[i..j]
    && (forall k :: 0 <= k < i ==> IsBreak(s[k]))
    && (forall k :: i <= k < j ==> !IsBreak(s[k]))
    && (if i < j then j < |s| ==> IsBreak(s[j]) else j == |s|)
  }

  predicate IsBreak(b: byte) {
    b == ' ' as int || b == '\t' as int || b == '\n' as int || b == 0x0B || b == 0x0C || b == '\r' as int ||
    b == '(' as int
  }

  lemma BreaksSeparate(b: byte)
    ensures Separates(b) <==> IsBreak(b)
  {}

  lemma {:induction false} WordIs(s: Str, j: nat)
    requires j <= |s| && (forall k :: 0 <= k < j ==> !IsBreak(s[k])) && (j < |s| ==> IsBreak(s[j]))
    ensures Word(s) == s[..j]
  {
    if j > 0 {
      BreaksSeparate(s[0]);
      WordIs(s[1..], j - 1);
      assert s[..j] == [s[0]] + s[1..][..j - 1];
    } else if s != [] {
      BreaksSeparate(s[0]);
    }
  }

  lemma {:induction false} FirstWordIs(s: Str, i: nat, j: nat, word: Str)
    requires IsPiece(s, i, j, word)
    ensures FirstWord(s) == word
  {
    if i > 0 {
      BreaksSeparate(s[0]);
      assert word == s[1..][i - 1..j - 1];
      FirstWordIs(s[1..], i - 1, j - 1, word);
    } else if s != [] {
      BreaksSeparate(s[0]);
      WordIs(s, j);
    }
  }

  lemma {:induction false} WordEnds(s: Str) returns (j: nat)
    ensures j <= |s| && (forall k :: 0 <= k < j ==> !IsBreak(s[k])) && (j < |s| ==> IsBreak(s[j]))
  {
    if s == [] || IsBreak(s[0]) {
      j := 0;
    } else {
      j := WordEnds(s[1..]);
      j := j + 1;
    }
  }

  lemma {:induction false} FirstWordExists(s: Str) returns (i: nat, j: nat)
    ensures i <= j <= |s| && IsPiece(s, i, j, s[i..j])
  {
    if s == [] {
      i, j := 0, 0;
    } else if IsBreak(s[0]) {
      i, j := FirstWordExists(s[1..]);
      i, j := i + 1, j + 1;
    } else {
      i := 0;
      j := WordEnds(s);
    }
  }

  lemma FirstWordExactly(s: Str, word: Str)
    ensures FirstWord(s) == word <==> IsFirstWord(s, word)
  {
    hide IsPiece;
    var i, j := FirstWordExists(s);
    FirstWordIs(s, i, j, s[i..j]);
    if IsFirstWord(s, word) {
      var k, l :| IsPiece(s, k, l, word);
      PieceBounds(s, k, l, word);
      FirstWordIs(s, k, l, word);
    }
  }

  lemma PieceBounds(s: Str, i: int, j: int, word: Str)
    requires IsPiece(s, i, j, word)
    ensures 0 <= i <= j
  {}

  lemma {:induction false} BeforeUnderscoreExactly(s: Str)
    ensures var w := BeforeUnderscore(s);
            && |w| <= |s| && s[..|w|] == w && (forall k :: 0 <= k < |w| ==> w[k] != '_' as int)
            && (|w| < |s| ==> s[|w|] == '_' as int)
  {
    if s != [] && s[0] != UNDERSCORE {
      BeforeUnderscoreExactly(s[1..]);
    }
  }

  lemma UpperExactly(s: Str, i: nat)
    requires i < |s|
    ensures |Upper(s)| == |s|
    ensures Upper(s)[i] as int == if 'a' as int <= s[i] <= 'z' as int then s[i] - 'a' as int + 'A' as int else s[i]
  {}

  // Aliases

  predicate Reads(s: Str, text: string) {
    |s| == |text| && forall k :: 0 <= k < |s| ==> s[k] == text[k] as int
  }

  predicate Starts(s: Str, text: string) {
    |text| <= |s| && Reads(s[..|text|], text)
  }

  predicate Ends(s: Str, text: string) {
    |text| <= |s| && Reads(s[|s| - |text|..], text)
  }

  const SUFFIXES: seq<string> := ["PS", "PD", "SS", "SD"]

  /** Two of the names of an instruction. */
  predicate IsOtherName(name: string, known: string) {
    || (name == "JE" && known == "JZ")
    || (name == "JNE" && known == "JNZ")
    || (name == "CMOVNLE" && known == "CMOVG")
    || (name == "SETZ" && known == "SETE")
  }

  /** A comparison with its condition in the name. */
  predicate IsComparison(s: Str, prefix: string, suffix: string) {
    (prefix == "CMP" || prefix == "VCMP") && suffix in SUFFIXES && Starts(s, prefix) && Ends(s, suffix)
  }

  ghost predicate KeepsName(s: Str) {
    && (forall prefix, suffix :: !IsComparison(s, prefix, suffix))
    && (forall name, known :: IsOtherName(name, known) ==> !Reads(s, name))
  }

  lemma ConstantsRead()
    ensures Reads(CMP, "CMP") && Reads(VCMP, "VCMP") && Reads(PS, "PS") && Reads(PD, "PD") && Reads(SS, "SS")
    ensures Reads(SD, "SD") && Reads(JE, "JE") && Reads(JNE, "JNE") && Reads(CMOVNLE, "CMOVNLE") && Reads(SETZ, "SETZ")
    ensures Reads(JZ, "JZ") && Reads(JNZ, "JNZ") && Reads(CMOVG, "CMOVG") && Reads(SETE, "SETE")
  {}

  lemma ReadsSame(s: Str, t: Str, text: string)
    requires Reads(t, text)
    ensures Reads(s, text) <==> s == t
  {}

  lemma StartsSame(s: Str, t: Str, text: string)
    requires Reads(t, text)
    ensures (Starts(s, text) <==> StartsWith(s, t)) && (Ends(s, text) <==> EndsWith(s, t))
  {}

  lemma ReadsJoined(a: Str, b: Str, s: string, t: string)
    requires Reads(a, s) && Reads(b, t)
    ensures Reads(a + b, s + t)
  {}

  lemma SameEnd(s: Str, a: string, b: string)
    requires Ends(s, a) && Ends(s, b) && |a| == |b|
    ensures a == b
  {
    forall i | 0 <= i < |a|
      ensures a[i] == b[i]
    {
      assert a[i] as int == s[|s| - |a|..][i] == b[i] as int;
    }
  }

  predicate IsSuffix(u: Str, suffix: string) {
    || (suffix == "PS" && u == PS) || (suffix == "PD" && u == PD) || (suffix == "SS" && u == SS)
    || (suffix == "SD" && u == SD)
  }

  lemma OneEnd(s: Str, u: Str, suffix: string, v: Str, other: string)
    requires IsSuffix(u, suffix) && IsSuffix(v, other) && EndsWith(s, u) && EndsWith(s, v)
    ensures u == v
  {
    ConstantsRead();
    StartsSame(s, u, suffix);
    StartsSame(s, v, other);
    SameEnd(s, suffix, other);
  }

  lemma ComparisonEnds(s: Str, t: Str, u: Str, suffix: string)
    requires IsSuffix(u, suffix) && StartsWith(s, t) && EndsWith(s, u)
    ensures Comparison(t, s) == Some(t + u)
  {
    if EndsWith(s, PS) {
      OneEnd(s, u, suffix, PS, "PS");
    }
    if EndsWith(s, PD) {
      OneEnd(s, u, suffix, PD, "PD");
    }
    if EndsWith(s, SS) {
      OneEnd(s, u, suffix, SS, "SS");
    }
    hide EndsWith, StartsWith;
  }

  /** A comparison is recognized by its first and last letters. */
  lemma ComparisonReads(s: Str, t: Str, prefix: string, suffix: string)
    requires Reads(t, prefix) && suffix in SUFFIXES && Starts(s, prefix) && Ends(s, suffix)
    ensures Comparison(t, s).Some? && Reads(Comparison(t, s).value, prefix + suffix)
  {
    var u := if suffix == "PS" then PS else if suffix == "PD" then PD else if suffix == "SS" then SS else SD;
    assert IsSuffix(u, suffix) && Reads(u, suffix);
    StartsSame(s, t, prefix);
    StartsSame(s, u, suffix);
    ReadsJoined(t, u, prefix, suffix);
    hide Reads, Starts, Ends, StartsWith, EndsWith, Comparison;
    ComparisonEnds(s, t, u, suffix);
  }

  lemma ComparisonOnly(s: Str, t: Str, prefix: string)
    requires Reads(t, prefix) && Comparison(t, s).Some?
    ensures exists suffix :: suffix in SUFFIXES && Starts(s, prefix) && Ends(s, suffix)
  {
    ConstantsRead();
    StartsSame(s, t, prefix);
    StartsSame(s, PS, "PS");
    StartsSame(s, PD, "PD");
    StartsSame(s, SS, "SS");
    StartsSame(s, SD, "SD");
    hide Reads, Starts, Ends, StartsWith, EndsWith;
    assert SUFFIXES[0] == "PS" && SUFFIXES[1] == "PD" && SUFFIXES[2] == "SS" && SUFFIXES[3] == "SD";
  }

  lemma OtherPrefix(s: Str)
    requires Starts(s, "CMP")
    ensures !Starts(s, "VCMP")
  {
    assert s[..3][0] == s[0];
  }

  lemma ComparisonKnown(s: Str, prefix: string, suffix: string)
    requires IsComparison(s, prefix, suffix)
    ensures Reads(Alias(s), prefix + suffix)
  {
    ConstantsRead();
    if prefix == "CMP" {
      OtherPrefix(s);
      StartsSame(s, VCMP, "VCMP");
      ComparisonReads(s, CMP, prefix, suffix);
    } else {
      ComparisonReads(s, VCMP, prefix, suffix);
    }
    hide Reads, Starts, Ends, EndsWith, StartsWith;
  }

  lemma OthersKeep(s: Str)
    requires KeepsName(s)
    ensures Alias(s) == s
  {
    ConstantsRead();
    hide Reads, Starts, Ends, Comparison;
    if Comparison(CMP, s).Some? {
      ComparisonOnly(s, CMP, "CMP");
      NotCompared(s, "CMP");
    } else if Comparison(VCMP, s).Some? {
      ComparisonOnly(s, VCMP, "VCMP");
      NotCompared(s, "VCMP");
    } else {
      OtherNames(s);
      assert IsOtherName("JE", "JZ") && IsOtherName("JNE", "JNZ") && IsOtherName("CMOVNLE", "CMOVG") &&
             IsOtherName("SETZ", "SETE");
    }
  }

  lemma NotCompared(s: Str, prefix: string)
    requires KeepsName(s) && (prefix == "CMP" || prefix == "VCMP")
    ensures forall suffix :: suffix in SUFFIXES && Starts(s, prefix) ==> !Ends(s, suffix)
  {
    hide Starts, Ends;
    forall suffix | suffix in SUFFIXES && Starts(s, prefix)
      ensures !Ends(s, suffix)
    {
      assert !IsComparison(s, prefix, suffix);
    }
  }

  /** A comparison is known without its condition, four other instructions by another of their names, and every other one
      by its own. */
  lemma AliasExactly(s: Str)
    ensures forall prefix, suffix :: IsComparison(s, prefix, suffix) ==> Reads(Alias(s), prefix + suffix)
    ensures forall name, known :: IsOtherName(name, known) && Reads(s, name) ==> Reads(Alias(s), known)
    ensures KeepsName(s) ==> Alias(s) == s
  {
    hide KeepsName, Alias;
    forall prefix, suffix | IsComparison(s, prefix, suffix)
      ensures Reads(Alias(s), prefix + suffix)
    {
      ComparisonKnown(s, prefix, suffix);
    }
    ConstantsRead();
    OtherNames(s);
    hide IsComparison, Reads;
    if KeepsName(s) {
      OthersKeep(s);
    }
  }

  lemma NoComparison(s: Str, t: Str, text: string)
    requires Reads(t, text) && Reads(s, text) && |text| >= 2
    requires !Starts(t, "CMP") && !Starts(t, "VCMP")
    ensures s == t && Comparison(CMP, s) == None && Comparison(VCMP, s) == None
  {
    ReadsSame(s, t, text);
    ConstantsRead();
    StartsSame(s, CMP, "CMP");
    StartsSame(s, VCMP, "VCMP");
    hide Reads, Starts, StartsWith, EndsWith;
  }

  lemma OtherNames(s: Str)
    ensures Reads(s, "JE") ==> Alias(s) == JZ
    ensures Reads(s, "JNE") ==> Alias(s) == JNZ
    ensures Reads(s, "CMOVNLE") ==> Alias(s) == CMOVG
    ensures Reads(s, "SETZ") ==> Alias(s) == SETE
    ensures Reads(s, "JE") || Reads(s, "JNE") || Reads(s, "CMOVNLE") || Reads(s, "SETZ") ||
            Comparison(CMP, s).Some? || Comparison(VCMP, s).Some? || Alias(s) == s
  {
    ConstantsRead();
    ReadsSame(s, JE, "JE");
    ReadsSame(s, JNE, "JNE");
    ReadsSame(s, CMOVNLE, "CMOVNLE");
    ReadsSame(s, SETZ, "SETZ");
    assert !Starts(JE, "CMP") && !Starts(JE, "VCMP") && !Starts(JNE, "CMP") && !Starts(JNE, "VCMP");
    assert CMOVNLE[..3][2] == 0x4F;
    assert !Starts(CMOVNLE, "CMP") && !Starts(CMOVNLE, "VCMP");
    assert SETZ[..3][0] == 0x53 && SETZ[..4][0] == 0x53;
    assert !Starts(SETZ, "CMP") && !Starts(SETZ, "VCMP");
    hide Reads, Starts, Comparison;
    if Reads(s, "JE") {
      NoComparison(s, JE, "JE");
    }
    if Reads(s, "JNE") {
      NoComparison(s, JNE, "JNE");
    }
    if Reads(s, "CMOVNLE") {
      NoComparison(s, CMOVNLE, "CMOVNLE");
    }
    if Reads(s, "SETZ") {
      NoComparison(s, SETZ, "SETZ");
    }
  }
}

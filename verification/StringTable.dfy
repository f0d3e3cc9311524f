/** The string section of a UIPack file: every string is stored once and referred to by its offset. */
module StringTable {
  import opened Wrappers
  import opened Bytes
  import opened PackData

  const LIMIT: nat := 0x1_0000_0000

  datatype Table = Table(offsets: map<Str, u32>, bytes: seq<byte>)

  const EMPTY := Table(map[], [])

  /** The string at an offset of a string section (`read_string_ref`). */
  function ReadString(strings: seq<byte>, offset: nat): Option<Str> {
    if offset + 4 > |strings| then None
    else
      var len := FromLe(strings[offset..offset + 4]);
      if offset + 4 + len > |strings| then None
      else Some(strings[offset + 4..offset + 4 + len])
  }

  /** The string is added unless it is there already; offsets and lengths have 32 bits. */
  function Interned(t: Table, s: Str): Option<Table> {
    if s in t.offsets then Some(t)
    else if |t.bytes| >= LIMIT || |s| >= LIMIT then None
    else Some(Table(t.offsets[s := |t.bytes|], t.bytes + Le(|s|, 4) + s))
  }

  function InternedAll(t: Table, ss: seq<Str>): Option<Table> {
    if ss == [] then Some(t)
    else
      var u :- InternedAll(t, ss[..|ss| - 1]);
      Interned(u, ss[|ss| - 1])
  }

  /** Every interned string is found at its offset, which lies below the size of the section. */
  ghost predicate Valid(t: Table) {
    forall s :: s in t.offsets ==> t.offsets[s] + 4 <= |t.bytes| && ReadString(t.bytes, t.offsets[s]) == Some(s)
  }

  /** Later strings leave the earlier ones alone. */
  ghost predicate Extends(t: Table, u: Table) {
    t.bytes <= u.bytes && forall s :: s in t.offsets ==> s in u.offsets && u.offsets[s] == t.offsets[s]
  }

  lemma ReadAppended(strings: seq<byte>, more: seq<byte>, offset: nat)
    requires ReadString(strings, offset).Some?
    ensures ReadString(strings + more, offset) == ReadString(strings, offset)
  {
    var all := strings + more;
    assert all[offset..offset + 4] == strings[offset..offset + 4];
    var len := FromLe(strings[offset..offset + 4]);
    assert all[offset + 4..offset + 4 + len] == strings[offset + 4..offset + 4 + len];
  }

  lemma ReadStored(strings: seq<byte>, s: Str)
    requires |s| < LIMIT
    ensures ReadString(strings + Le(|s|, 4) + s, |strings|) == Some(s)
  {
    hide ReadString, Le, FromLe, Pow256;
    Widths();
    LeRoundTrip(|s|, 4);
    Middle(strings, Le(|s|, 4), s);
    ReadAt(strings + Le(|s|, 4) + s, |strings|, |s|);
  }

  lemma ReadAt(all: seq<byte>, offset: nat, len: nat)
    requires offset + 4 + len <= |all| && FromLe(all[offset..offset + 4]) == len
    ensures ReadString(all, offset) == Some(all[offset + 4..offset + 4 + len])
  {}

  lemma Middle(a: seq<byte>, b: seq<byte>, c: seq<byte>)
    ensures (a + b + c)[|a|..|a| + |b|] == b && (a + b + c)[|a| + |b|..|a| + |b| + |c|] == c
  {}

  lemma InternValid(t: Table, s: Str)
    requires Valid(t) && Interned(t, s).Some?
    ensures var u := Interned(t, s).value; Valid(u) && Extends(t, u) && s in u.offsets
  {
    hide ReadString, Le;
    var u := Interned(t, s).value;
    if s !in t.offsets {
      ReadStored(t.bytes, s);
      forall r | r in t.offsets
        ensures ReadString(u.bytes, t.offsets[r]) == Some(r)
      {
        ReadAppended(t.bytes, Le(|s|, 4) + s, t.offsets[r]);
        assert t.bytes + (Le(|s|, 4) + s) == u.bytes;
      }
    }
  }

  lemma ExtendsTrans(t: Table, u: Table, v: Table)
    requires Extends(t, u) && Extends(u, v)
    ensures Extends(t, v)
  {}

  /** Interning never disturbs earlier strings, and all strings are found afterwards. */
  lemma {:induction false} InternAllValid(t: Table, ss: seq<Str>)
    requires Valid(t) && InternedAll(t, ss).Some?
    ensures var u := InternedAll(t, ss).value;
            Valid(u) && Extends(t, u) && forall s :: s in ss ==> s in u.offsets
  {
    hide Valid, ReadString;
    if ss != [] {
      var front, last := ss[..|ss| - 1], ss[|ss| - 1];
      InternAllValid(t, front);
      var u := InternedAll(t, front).value;
      InternValid(u, last);
      ExtendsTrans(t, u, Interned(u, last).value);
      assert ss == front + [last];
    }
  }

  lemma {:induction false} InternAllConcat(t: Table, ss: seq<Str>, more: seq<Str>)
    requires InternedAll(t, ss).Some?
    ensures InternedAll(t, ss + more) == InternedAll(InternedAll(t, ss).value, more)
  {
    hide Interned;
    if more == [] {
      assert ss + more == ss;
    } else {
      InternAllConcat(t, ss, more[..|more| - 1]);
      assert (ss + more)[..|ss + more| - 1] == ss + more[..|more| - 1];
    }
  }

  lemma {:induction false} InternAllPrefix(t: Table, ss: seq<Str>, more: seq<Str>)
    requires InternedAll(t, ss + more).Some?
    ensures InternedAll(t, ss).Some?
  {
    hide Interned;
    if more == [] {
      assert ss + more == ss;
    } else {
      assert (ss + more)[..|ss + more| - 1] == ss + more[..|more| - 1];
      InternAllPrefix(t, ss, more[..|more| - 1]);
    }
  }

  /** In a section whose size has 32 bits no string has the offset that stands for none. */
  lemma NoSentinel(t: Table, s: Str)
    requires Valid(t) && s in t.offsets && |t.bytes| < LIMIT
    ensures t.offsets[s] != LIMIT - 1
  {}

  class StringTable {
    var offsets: map<Str, u32>
    var bytes: seq<byte>

    constructor ()
      ensures AsTable() == EMPTY
    {
      offsets, bytes := map[], [];
    }

    ghost function AsTable(): Table
      reads this
    {
      Table(offsets, bytes)
    }

    /** The offset of a string, which is added if it is new. */
    method Intern(value: Str) returns (offset: Option<u32>)
      modifies this
      ensures offset == None <==> Interned(old(AsTable()), value) == None
      ensures offset.Some? ==> && Interned(old(AsTable()), value) == Some(AsTable())
                               && value in offsets && offsets[value] == offset.value
      ensures offset == None ==> AsTable() == old(AsTable())
    {
      if value in offsets {
        return Some(offsets[value]);
      }
      if |bytes| >= LIMIT || |value| >= LIMIT {
        return None;
      }
      offset := Some(|bytes|);
      bytes := bytes + Le(|value|, 4);
      bytes := bytes + value;
      offsets := offsets[value := offset.value];
    }

    /** Interns strings in order. */
    method InternEach(values: seq<Str>) returns (ok: bool)
      modifies this
      ensures ok <==> InternedAll(old(AsTable()), values).Some?
      ensures ok ==> InternedAll(old(AsTable()), values) == Some(AsTable())
    {
      ghost var t := AsTable();
      assert values[..|values|] == values;
      for i := 0 to |values|
        invariant InternedAll(t, values[..i]) == Some(AsTable())
      {
        assert values[..i + 1][..i] == values[..i];
        assert values[..i + 1] + values[i + 1..] == values;
        var offset := Intern(values[i]);
        if offset == None {
          NoneStays(t, values, i + 1);
          return false;
        }
      }
      ok := true;
    }
  }

  lemma NoneStays(t: Table, ss: seq<Str>, i: nat)
    requires i <= |ss| && InternedAll(t, ss[..i]) == None
    ensures InternedAll(t, ss) == None
  {
    assert ss[..i] + ss[i..] == ss;
    if InternedAll(t, ss).Some? {
      InternAllPrefix(t, ss[..i], ss[i..]);
    }
  }
}

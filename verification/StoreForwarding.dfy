/** From which store a load takes its data, in terms of the program. */
module StoreForwarding {
  import opened Wrappers
  import opened Uops
  import opened SchedulerTokens
  import opened SchedulerSteps
  import opened RenamedProgram
  import Renaming

  /** The uop opens an entry of the store buffer. */
  predicate StoresAddress(ps: seq<ProgramUop>, eliminated: seq<bool>, j: nat)
    requires |eliminated| == |ps| && j < |ps|
  {
    ps[j].isStoreAddress && ps[j].uop.hasUops && !eliminated[j]
  }

  /** The last uop before `n` that stores to this address. */
  ghost predicate IsLatestUnder(ps: seq<ProgramUop>, eliminated: seq<bool>, n: nat, key: Option<Address>, j: nat)
    requires |eliminated| == |ps| && n <= |ps|
  {
    && j < n && StoresAddress(ps, eliminated, j) && ps[j].key == key
    && forall k :: j < k < n && StoresAddress(ps, eliminated, k) ==> ps[k].key != key
  }

  /** The last uop before `n` that stores to any address. */
  ghost predicate IsLatest(ps: seq<ProgramUop>, eliminated: seq<bool>, n: nat, j: nat)
    requires |eliminated| == |ps| && n <= |ps|
  {
    && j < n && StoresAddress(ps, eliminated, j)
    && forall k :: j < k < n ==> !StoresAddress(ps, eliminated, k)
  }

  function EntryFor(p: ProgramUop): StoreBufferEntry {
    StoreBufferEntry(p.uop.idx, p.key)
  }

  lemma {:induction false} StoresSnoc(b: StoreTables, ps: seq<ProgramUop>, eliminated: seq<bool>, n: nat)
    requires |eliminated| == |ps| && n < |ps|
    ensures StoresAfter(b, ps[..n + 1], eliminated[..n + 1]) ==
            Stored(StoresAfter(b, ps[..n], eliminated[..n]), ps[n], eliminated[n])
    decreases n
  {
    hide Stored;
    if n > 0 {
      StoresSnoc(Stored(b, ps[0], eliminated[0]), ps[1..], eliminated[1..], n - 1);
      assert ps[..n + 1][1..] == ps[1..][..n] && eliminated[..n + 1][1..] == eliminated[1..][..n];
      assert ps[..n][1..] == ps[1..][..n - 1] && eliminated[..n][1..] == eliminated[1..][..n - 1];
    }
  }

  lemma StoredNext(ps: seq<ProgramUop>, eliminated: seq<bool>, n: nat)
    requires |eliminated| == |ps| && n < |ps|
    ensures TablesAfter(ps, eliminated, n + 1) == Stored(TablesAfter(ps, eliminated, n), ps[n], eliminated[n])
  {
    hide Stored, StoresAfter;
    StoresSnoc(NO_STORES, ps, eliminated, n);
  }

  /** The tables of stores before uop `n`. */
  function TablesAfter(ps: seq<ProgramUop>, eliminated: seq<bool>, n: nat): StoreTables
    requires |eliminated| == |ps| && n <= |ps|
  {
    StoresAfter(NO_STORES, ps[..n], eliminated[..n])
  }

  /** What the store buffer holds under an address: the entry of the latest store to it. */
  lemma {:induction false} DictExactly(ps: seq<ProgramUop>, eliminated: seq<bool>, n: nat, key: Option<Address>)
    returns (j: Option<nat>)
    requires |eliminated| == |ps| && n <= |ps|
    ensures j.Some? ==> IsLatestUnder(ps, eliminated, n, key, j.value)
    ensures j.None? ==> forall k :: 0 <= k < n && StoresAddress(ps, eliminated, k) ==> ps[k].key != key
    ensures var dict := TablesAfter(ps, eliminated, n).dict;
            (key in dict <==> j.Some?) && (j.Some? ==> dict[key] == EntryFor(ps[j.value]))
  {
    if n == 0 {
      j := None;
    } else {
      j := DictExactly(ps, eliminated, n - 1, key);
      StoredNext(ps, eliminated, n - 1);
      hide TablesAfter;
      if StoresAddress(ps, eliminated, n - 1) && ps[n - 1].key == key {
        j := Some(n - 1);
      }
    }
  }

  lemma {:induction false} CurrentExactly(ps: seq<ProgramUop>, eliminated: seq<bool>, n: nat) returns (j: Option<nat>)
    requires |eliminated| == |ps| && n <= |ps|
    ensures j.Some? ==> IsLatest(ps, eliminated, n, j.value)
    ensures j.None? ==> forall k :: 0 <= k < n ==> !StoresAddress(ps, eliminated, k)
    ensures TablesAfter(ps, eliminated, n).cur == if j.Some? then Some(EntryFor(ps[j.value])) else None
  {
    if n == 0 {
      j := None;
    } else {
      j := CurrentExactly(ps, eliminated, n - 1);
      StoredNext(ps, eliminated, n - 1);
      hide TablesAfter;
      if StoresAddress(ps, eliminated, n - 1) {
        j := Some(n - 1);
      }
    }
  }

  // The entry of each uop

  lemma {:induction false} Untouched(info: map<nat, Info>, b: StoreTables, ps: seq<ProgramUop>, eliminated: seq<bool>,
                                     ins: seq<seq<Renaming.Operand>>, u: nat)
    requires |eliminated| == |ins| == |ps| && u !in Indices(ps)
    ensures var after := InfosAfter(info, b, ps, eliminated, ins);
            (u in after <==> u in info) && (u in info ==> after[u] == info[u])
    decreases |ps|
  {
    hide InfoOf, Stored;
    if ps != [] {
      assert Indices(ps)[0] == ps[0].uop.idx && Indices(ps)[1..] == Indices(ps[1..]);
      Untouched(WithUop(info, b, ps[0], eliminated[0], ins[0]), Stored(b, ps[0], eliminated[0]), ps[1..],
                eliminated[1..], ins[1..], u);
    }
  }

  lemma {:induction false} EntryKept(info: map<nat, Info>, b: StoreTables, ps: seq<ProgramUop>, eliminated: seq<bool>,
                                     ins: seq<seq<Renaming.Operand>>, i: nat)
    requires |eliminated| == |ins| == |ps| && i < |ps| && NoDuplicates(Indices(ps))
    ensures var after := InfosAfter(info, b, ps, eliminated, ins);
            && ps[i].uop.idx in after
            && after[ps[i].uop.idx].entry ==
               EntryOf(StoresAfter(b, ps[..i + 1], eliminated[..i + 1]), ps[i], eliminated[i])
    decreases |ps|
  {
    hide Stored, EntryOf;
    var info', b' := WithUop(info, b, ps[0], eliminated[0], ins[0]), Stored(b, ps[0], eliminated[0]);
    assert Indices(ps)[0] == ps[0].uop.idx && Indices(ps)[1..] == Indices(ps[1..]);
    FirstOnce(Indices(ps));
    if i == 0 {
      Untouched(info', b', ps[1..], eliminated[1..], ins[1..], ps[0].uop.idx);
      assert ps[..1][1..] == [] && eliminated[..1][1..] == [];
    } else {
      EntryKept(info', b', ps[1..], eliminated[1..], ins[1..], i - 1);
      assert ps[..i + 1][1..] == ps[1..][..i] && eliminated[..i + 1][1..] == eliminated[1..][..i];
    }
  }

  lemma FirstOnce(us: seq<nat>)
    requires NoDuplicates(us) && us != []
    ensures us[0] !in us[1..] && NoDuplicates(us[1..])
  {
    forall j | 0 <= j < |us| - 1
      ensures us[1..][j] != us[0]
    {
      assert us[j + 1] != us[0];
    }
  }

  /** What the renamer makes of a program from the beginning. */
  function RenamedAll(ps: seq<ProgramUop>, eliminated: seq<bool>, ins: seq<seq<Renaming.Operand>>): map<nat, Info>
    requires |eliminated| == |ins| == |ps|
  {
    InfosAfter(map[], NO_STORES, ps, eliminated, ins)
  }

  lemma EntryIs(ps: seq<ProgramUop>, eliminated: seq<bool>, ins: seq<seq<Renaming.Operand>>, i: nat)
    requires |eliminated| == |ins| == |ps| && i < |ps| && NoDuplicates(Indices(ps))
    ensures var after := RenamedAll(ps, eliminated, ins);
            && ps[i].uop.idx in after
            && after[ps[i].uop.idx].entry == EntryOf(TablesAfter(ps, eliminated, i + 1), ps[i], eliminated[i])
  {
    hide EntryOf, StoresAfter, InfosAfter;
    EntryKept(map[], NO_STORES, ps, eliminated, ins, i);
  }

  /** In every program a load reads from the store buffer exactly if some earlier uop stores to the same abstract address,
      and then from the latest of these. */
  lemma LoadReadsLatest(ps: seq<ProgramUop>, eliminated: seq<bool>, ins: seq<seq<Renaming.Operand>>, i: nat,
                        e: StoreBufferEntry)
    requires |eliminated| == |ins| == |ps| && i < |ps| && NoDuplicates(Indices(ps))
    requires ps[i].isLoad && !ps[i].isStoreAddress && ps[i].uop.hasUops && !eliminated[i]
    ensures ps[i].uop.idx in RenamedAll(ps, eliminated, ins)
    ensures RenamedAll(ps, eliminated, ins)[ps[i].uop.idx].entry == Some(e) <==>
            exists j: nat | j < i :: IsLatestUnder(ps, eliminated, i, ps[i].key, j) && e == EntryFor(ps[j])
  {
    EntryIs(ps, eliminated, ins, i);
    StoredNext(ps, eliminated, i);
    var j := DictExactly(ps, eliminated, i, ps[i].key);
    LatestOnce(ps, eliminated, i, ps[i].key);
    hide RenamedAll, TablesAfter, IsLatestUnder;
    if j.None? {
      NoneLatest(ps, eliminated, i, ps[i].key);
    }
  }

  lemma LatestOnce(ps: seq<ProgramUop>, eliminated: seq<bool>, n: nat, key: Option<Address>)
    requires |eliminated| == |ps| && n <= |ps|
    ensures forall j, k :: IsLatestUnder(ps, eliminated, n, key, j) && IsLatestUnder(ps, eliminated, n, key, k) ==> j == k
  {}

  lemma NoneLatest(ps: seq<ProgramUop>, eliminated: seq<bool>, n: nat, key: Option<Address>)
    requires |eliminated| == |ps| && n <= |ps|
    requires forall k :: 0 <= k < n && StoresAddress(ps, eliminated, k) ==> ps[k].key != key
    ensures forall j :: !IsLatestUnder(ps, eliminated, n, key, j)
  {}

  /** A uop that stores data stores it into the entry of the latest store address. */
  lemma DataGoesToLatest(ps: seq<ProgramUop>, eliminated: seq<bool>, ins: seq<seq<Renaming.Operand>>, i: nat,
                         e: StoreBufferEntry)
    requires |eliminated| == |ins| == |ps| && i < |ps| && NoDuplicates(Indices(ps))
    requires ps[i].isStoreData && !ps[i].isLoad && ps[i].uop.hasUops && !eliminated[i]
    ensures ps[i].uop.idx in RenamedAll(ps, eliminated, ins)
    ensures RenamedAll(ps, eliminated, ins)[ps[i].uop.idx].entry == Some(e) <==>
            exists j: nat | j <= i :: IsLatest(ps, eliminated, i + 1, j) && e == EntryFor(ps[j])
  {
    EntryIs(ps, eliminated, ins, i);
    var j := CurrentExactly(ps, eliminated, i + 1);
    LatestStoreOnce(ps, eliminated, i + 1);
    hide RenamedAll, TablesAfter, IsLatest;
    if j.None? {
      NoStore(ps, eliminated, i + 1);
    }
  }

  lemma LatestStoreOnce(ps: seq<ProgramUop>, eliminated: seq<bool>, n: nat)
    requires |eliminated| == |ps| && n <= |ps|
    ensures forall j, k :: IsLatest(ps, eliminated, n, j) && IsLatest(ps, eliminated, n, k) ==> j == k
  {}

  lemma NoStore(ps: seq<ProgramUop>, eliminated: seq<bool>, n: nat)
    requires |eliminated| == |ps| && n <= |ps|
    requires forall k :: 0 <= k < n ==> !StoresAddress(ps, eliminated, k)
    ensures forall j :: !IsLatest(ps, eliminated, n, j)
  {}
}

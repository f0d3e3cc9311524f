/** How the uops of an instruction are fused and laminated (`InstrInstance.__generateUops`). */
module UopGrouping {
  import opened Arithmetic
  import opened Sequences

  datatype Uop = Uop(idx: nat, possiblePorts: set<char>)

  datatype Config = Config(retireSlots: nat, uopsMITE: nat, uopsMS: nat)

  /** Uops on the ports of memory accesses are fused with the uop that follows them. */
  predicate IsMemory(u: Uop) {
    '2' in u.possiblePorts || '3' in u.possiblePorts || '7' in u.possiblePorts
  }

  /** A fused uop that is a single memory uop is laminated with the one that follows it. */
  predicate IsLoneMemory(f: seq<Uop>) {
    |f| == 1 && IsMemory(f[0])
  }

  /** Divides a list into `n` groups, but at least one: from the front, an element is paired with its successor if it
      asks for it and enough elements are left for the other groups; the last group takes the rest. */
  function Grouped<T>(xs: seq<T>, n: nat, pairs: T -> bool): (groups: seq<seq<T>>)
    requires |xs| >= AtLeastOne(n)
    ensures |groups| == AtLeastOne(n)
  {
    if n <= 1 then [xs]
    else
      var size := if pairs(xs[0]) && |xs| - 1 >= n then 2 else 1;
      [xs[..size]] + Grouped(xs[size..], n - 1, pairs)
  }

  /** Nothing is lost or reordered, no group is empty, and all but the last are single elements or pairs whose first
      element asks for it. */
  lemma {:induction false} GroupedKeeps<T>(xs: seq<T>, n: nat, pairs: T -> bool)
    requires |xs| >= AtLeastOne(n)
    ensures var groups := Grouped(xs, n, pairs);
            && Flat(groups) == xs
            && (forall k :: 0 <= k < |groups| ==> groups[k] != [])
            && (forall k :: 0 <= k < |groups| - 1 ==> |groups[k]| == 1 || (|groups[k]| == 2 && pairs(groups[k][0])))
  {
    if n <= 1 {
      assert Flat([xs]) == xs + Flat([]);
    } else {
      var size := if pairs(xs[0]) && |xs| - 1 >= n then 2 else 1;
      GroupedKeeps(xs[size..], n - 1, pairs);
      var groups := Grouped(xs, n, pairs);
      assert groups[1..] == Grouped(xs[size..], n - 1, pairs);
      assert xs == xs[..size] + xs[size..];
    }
  }

  /** The last group holds more than one element only if no other element could have been paired: each one before it
      that is single did not ask for it. */
  lemma {:induction false} LastTakesTheRest<T>(xs: seq<T>, n: nat, pairs: T -> bool, k: nat)
    requires |xs| >= AtLeastOne(n)
    ensures var groups := Grouped(xs, n, pairs);
            |groups[|groups| - 1]| > 1 && k < |groups| - 1 && |groups[k]| == 1 ==> !pairs(groups[k][0])
  {
    if n > 1 {
      var size := if pairs(xs[0]) && |xs| - 1 >= n then 2 else 1;
      var groups, rest := Grouped(xs, n, pairs), Grouped(xs[size..], n - 1, pairs);
      assert groups == [xs[..size]] + rest;
      if k > 0 {
        LastTakesTheRest(xs[size..], n - 1, pairs, k - 1);
      } else if size == 1 {
        LastSize(xs[1..], n - 1, pairs);
      }
    }
  }

  /** With no elements to spare the last group is a single one. */
  lemma {:induction false} LastSize<T>(xs: seq<T>, n: nat, pairs: T -> bool)
    requires |xs| >= AtLeastOne(n)
    ensures var groups := Grouped(xs, n, pairs); |xs| == AtLeastOne(n) ==> |groups[|groups| - 1]| == 1
  {
    if n > 1 {
      var size := if pairs(xs[0]) && |xs| - 1 >= n then 2 else 1;
      LastSize(xs[size..], n - 1, pairs);
    }
  }

  /** A group before the last is a pair exactly if its first element asks for it and the elements after that one are no
      fewer than the groups from it on. */
  lemma {:induction false} PairedExactly<T>(xs: seq<T>, n: nat, pairs: T -> bool, k: nat)
    requires |xs| >= AtLeastOne(n) && k + 1 < n
    ensures var groups := Grouped(xs, n, pairs);
            && groups[k] != []
            && (|groups[k]| == 2 <==> pairs(groups[k][0]) && |xs| - |Flat(groups[..k])| - 1 >= n - k)
  {
    var size := if pairs(xs[0]) && |xs| - 1 >= n then 2 else 1;
    var groups, rest := Grouped(xs, n, pairs), Grouped(xs[size..], n - 1, pairs);
    assert groups == [xs[..size]] + rest;
    if k > 0 {
      PairedExactly(xs[size..], n - 1, pairs, k - 1);
      assert groups[..k] == [xs[..size]] + rest[..k - 1];
    }
  }

  /** Whether two uops are fused: the first is a load or store address, on port 2, 3 or 7, and there are uops to spare. */
  lemma FusedExactly(uops: seq<Uop>, c: Config, k: nat)
    requires |uops| >= c.retireSlots && k + 1 < c.retireSlots
    ensures var fused := Grouped(uops, c.retireSlots, IsMemory);
            && fused[k] != []
            && (|fused[k]| == 2 <==>
                  && (exists p :: p in fused[k][0].possiblePorts && (p == '2' || p == '3' || p == '7'))
                  && |uops| - |Flat(fused[..k])| > c.retireSlots - k)
  {
    hide Grouped, Flat;
    PairedExactly(uops, c.retireSlots, IsMemory, k);
  }

  /** Whether two fused uops are laminated: the first is such a uop alone, and there are fused uops to spare. */
  lemma LaminatedExactly(fused: seq<seq<Uop>>, n: nat, k: nat)
    requires |fused| >= n && k + 1 < n
    ensures var laminated := Grouped(fused, n, IsLoneMemory);
            && laminated[k] != []
            && (|laminated[k]| == 2 <==>
                  && |laminated[k][0]| == 1
                  && (exists p :: p in laminated[k][0][0].possiblePorts && (p == '2' || p == '3' || p == '7'))
                  && |fused| - |Flat(laminated[..k])| > n - k)
  {
    hide Grouped, Flat;
    PairedExactly(fused, n, IsLoneMemory, k);
  }

  lemma GroupedStep<T>(done: seq<seq<T>>, xs: seq<T>, n: nat, pairs: T -> bool, all: seq<seq<T>>)
    requires n > 1 && |xs| >= n && done + Grouped(xs, n, pairs) == all
    ensures var size := if pairs(xs[0]) && |xs| - 1 >= n then 2 else 1;
            done + [xs[..size]] + Grouped(xs[size..], n - 1, pairs) == all
  {}

  /** The fused uops: as many as the instruction has retire slots. */
  method Fuse(uops: seq<Uop>, retireSlots: nat) returns (fused: seq<seq<Uop>>)
    requires |uops| >= AtLeastOne(retireSlots)
    ensures fused == Grouped(uops, retireSlots, IsMemory)
  {
    hide Grouped;
    fused := [];
    var rest := uops;
    ghost var all := Grouped(uops, retireSlots, IsMemory);
    for i := 0 to AtLeastOne(retireSlots) - 1
      invariant |rest| >= AtLeastOne(retireSlots - i)
      invariant fused + Grouped(rest, retireSlots - i, IsMemory) == all
    {
      GroupedStep(fused, rest, retireSlots - i, IsMemory, all);
      var n := if IsMemory(rest[0]) && |rest| - 1 >= retireSlots - i then 2 else 1;
      fused, rest := fused + [rest[..n]], rest[n..];
    }
    RestIsLast(rest, if retireSlots == 0 then 0 else 1, IsMemory);
    fused := fused + [rest];
  }

  lemma RestIsLast<T>(rest: seq<T>, n: nat, pairs: T -> bool)
    requires n <= 1 && |rest| >= 1
    ensures Grouped(rest, n, pairs) == [rest]
  {}

  method Laminate(fused: seq<seq<Uop>>, n: nat) returns (laminated: seq<seq<seq<Uop>>>)
    requires |fused| >= AtLeastOne(n)
    ensures laminated == Grouped(fused, n, IsLoneMemory)
  {
    hide Grouped;
    laminated := [];
    var rest := fused;
    ghost var all := Grouped(fused, n, IsLoneMemory);
    for i := 0 to AtLeastOne(n) - 1
      invariant |rest| >= AtLeastOne(n - i)
      invariant laminated + Grouped(rest, n - i, IsLoneMemory) == all
    {
      GroupedStep(laminated, rest, n - i, IsLoneMemory, all);
      var size := if IsLoneMemory(rest[0]) && |rest| - 1 >= n - i then 2 else 1;
      laminated, rest := laminated + [rest[..size]], rest[size..];
    }
    RestIsLast(rest, if n == 0 then 0 else 1, IsLoneMemory);
    laminated := laminated + [rest];
  }

  /** The uops of an instance: nothing is lost or reordered, there are as many fused uops as retire slots and as many
      laminated ones as the decoders and the microcode sequencer deliver, at least one each. */
  method GenerateUops(uops: seq<Uop>, c: Config) returns (laminated: seq<seq<seq<Uop>>>)
    requires uops != [] ==> |uops| >= c.retireSlots
    ensures Flat(Flat(laminated)) == uops
    ensures uops == [] ==> laminated == []
    ensures uops != [] ==>
              && Flat(laminated) == Grouped(uops, c.retireSlots, IsMemory)
              && laminated == Grouped(Flat(laminated), Min(c.uopsMITE + c.uopsMS, |Flat(laminated)|), IsLoneMemory)
              && |Flat(laminated)| == AtLeastOne(c.retireSlots)
              && |laminated| == AtLeastOne(Min(c.uopsMITE + c.uopsMS, |Flat(laminated)|))
  {
    if uops == [] {
      return [];
    }
    hide Grouped;
    var fused := Fuse(uops, c.retireSlots);
    GroupedKeeps(uops, c.retireSlots, IsMemory);
    laminated := Laminate(fused, Min(c.uopsMITE + c.uopsMS, |fused|));
    GroupedKeeps(fused, Min(c.uopsMITE + c.uopsMS, |fused|), IsLoneMemory);
  }

  /** All laminated uops come from the decoders or from microcode, as the front end needs it, exactly if at least one is
      to come from there: an instruction that is to deliver none still has one. */
  lemma DeliveredExactly(c: Config, n: nat)
    requires n == AtLeastOne(Min(c.uopsMITE + c.uopsMS, AtLeastOne(c.retireSlots)))
    ensures n <= c.uopsMITE || c.uopsMS > 0 <==> c.uopsMITE + c.uopsMS > 0
  {}
}

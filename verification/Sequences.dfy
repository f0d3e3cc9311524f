/** Sequences of sequences, one after the other. */
module Sequences {

  function Flat<T>(blocks: seq<seq<T>>): seq<T> {
    if blocks == [] then [] else blocks[0] + Flat(blocks[1..])
  }

  lemma {:induction false} FlatConcat<T>(a: seq<seq<T>>, b: seq<seq<T>>)
    ensures Flat(a + b) == Flat(a) + Flat(b)
  {
    if a == [] {
      assert a + b == b;
    } else {
      assert (a + b)[1..] == a[1..] + b;
      FlatConcat(a[1..], b);
      Associative(a[0], Flat(a[1..]), Flat(b));
    }
  }

  lemma Associative<T>(a: seq<T>, b: seq<T>, c: seq<T>)
    ensures a + (b + c) == a + b + c
  {}

  lemma FlatSnoc<T>(blocks: seq<seq<T>>, block: seq<T>)
    ensures Flat(blocks + [block]) == Flat(blocks) + block
  {
    FlatConcat(blocks, [block]);
    assert Flat([block]) == block + Flat([]);
  }
}

/** Port lists are stored as one string, joined with commas (`split_port_list`). */
module PortLists {
  import opened Bytes
  import opened PackData

  const COMMA: byte := 0x2C

  function Join(ss: seq<Str>): Str {
    if ss == [] then []
    else if |ss| == 1 then ss[0]
    else ss[0] + [COMMA] + Join(ss[1..])
  }

  /** The pieces between the commas; `piece` is what was read of the current one. */
  function Pieces(piece: Str, s: Str): seq<Str>
    decreases |s|
  {
    if s == [] then [piece]
    else if s[0] == COMMA then [piece] + Pieces([], s[1..])
    else Pieces(piece + [s[0]], s[1..])
  }

  function Split(s: Str): seq<Str> {
    if s == [] then [] else Pieces([], s)
  }

  lemma {:induction false} PiecesAcross(piece: Str, a: Str, s: Str)
    requires COMMA !in a
    ensures Pieces(piece, a + s) == Pieces(piece + a, s)
    decreases |a|
  {
    if a == [] {
      assert piece + a == piece && a + s == s;
    } else {
      assert (a + s)[1..] == a[1..] + s;
      PiecesAcross(piece + [a[0]], a[1..], s);
      assert piece + [a[0]] + a[1..] == piece + a;
    }
  }

  lemma {:induction false} PiecesOfJoin(ss: seq<Str>)
    requires ss != [] && forall s :: s in ss ==> COMMA !in s
    ensures Pieces([], Join(ss)) == ss
  {
    var first := ss[0];
    if |ss| == 1 {
      PiecesAcross([], first, []);
      assert first + [] == first && [] + first == first;
    } else {
      var rest := [COMMA] + Join(ss[1..]);
      PiecesOfJoin(ss[1..]);
      PiecesAcross([], first, rest);
      assert first + [COMMA] + Join(ss[1..]) == first + rest && [] + first == first;
      assert rest[1..] == Join(ss[1..]);
      assert ss == [first] + ss[1..];
    }
  }

  lemma {:induction false} PiecesPlain(piece: Str, s: Str)
    requires COMMA !in piece
    ensures forall p :: p in Pieces(piece, s) ==> COMMA !in p
    decreases |s|
  {
    if s != [] {
      PiecesPlain(if s[0] == COMMA then [] else piece + [s[0]], s[1..]);
    }
  }

  lemma {:induction false} OnePiece(piece: Str, s: Str)
    requires |Pieces(piece, s)| == 1
    ensures Pieces(piece, s)[0] == piece + s
    decreases |s|
  {
    if s == [] {
      assert piece + s == piece;
    } else if s[0] == COMMA {
      MorePieces([], s[1..]);
    } else {
      OnePiece(piece + [s[0]], s[1..]);
      assert piece + [s[0]] + s[1..] == piece + s;
    }
  }

  lemma {:induction false} MorePieces(piece: Str, s: Str)
    ensures |Pieces(piece, s)| >= 1
    decreases |s|
  {
    if s != [] {
      MorePieces(if s[0] == COMMA then [] else piece + [s[0]], s[1..]);
    }
  }

  /** A port list whose names have no commas and that is not the list of one empty name. */
  predicate Plain(ss: seq<Str>) {
    ss != [[]] && forall s :: s in ss ==> COMMA !in s
  }

  lemma {:induction false} JoinedEmpty(ss: seq<Str>)
    requires Join(ss) == []
    ensures ss == [] || ss == [[]]
  {}

  /** Exactly the plain port lists survive. */
  lemma SplitJoin(ss: seq<Str>)
    ensures Split(Join(ss)) == ss <==> Plain(ss)
  {
    if Join(ss) == [] {
      JoinedEmpty(ss);
      assert Split(Join(ss)) == [];
    } else {
      if Plain(ss) {
        PiecesOfJoin(ss);
      }
      if Split(Join(ss)) == ss {
        PiecesPlain([], Join(ss));
        if |ss| == 1 {
          OnePiece([], Join(ss));
        }
      }
    }
  }

  /** A joined list is the names with a comma between each two of them. */
  lemma {:induction false} JoinedBytes(ss: seq<Str>, last: Str)
    ensures Join([]) == [] && Join([last]) == last
    ensures ss != [] ==> Join(ss + [last]) == Join(ss) + [',' as int] + last
  {
    if |ss| > 1 {
      JoinedBytes(ss[1..], last);
      assert (ss + [last])[1..] == ss[1..] + [last];
      assert ss[0] + [COMMA] + (Join(ss[1..]) + [COMMA] + last) == ss[0] + [COMMA] + Join(ss[1..]) + [COMMA] + last;
    } else if |ss| == 1 {
      assert (ss + [last])[1..] == [last];
    }
  }
}

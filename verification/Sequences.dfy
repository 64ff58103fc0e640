/** Concatenation of lists of lists. */
module Sequences {

  /** An empty list that is not a literal: on `[]` itself the verifier unrolls recursive functions without end. */
  method Nothing<T>() returns (none: seq<T>)
    ensures |none| == 0
  {
    none := [];
  }

  lemma ConcatAssociates<T>(a: seq<T>, b: seq<T>, c: seq<T>)
    ensures a + (b + c) == (a + b) + c && a + [] == a
  {
  }

  function Flatten<T>(pieces: seq<seq<T>>): seq<T> {
    if pieces == [] then [] else Flatten(pieces[..|pieces| - 1]) + pieces[|pieces| - 1]
  }

  lemma FlattenOne<T>(piece: seq<T>)
    ensures Flatten([piece]) == piece
  {
    assert |[piece][..0]| == 0;
  }

  lemma {:induction false} FlattenConcat<T>(a: seq<seq<T>>, b: seq<seq<T>>)
    ensures Flatten(a + b) == Flatten(a) + Flatten(b)
  {
    if |b| == 0 {
      assert a + b == a;
    } else {
      FlattenConcat(a, b[..|b| - 1]);
      assert (a + b)[..|a + b| - 1] == a + b[..|b| - 1];
      ConcatAssociates(Flatten(a), Flatten(b[..|b| - 1]), b[|b| - 1]);
    }
  }

  lemma FlattenCons<T>(piece: seq<T>, pieces: seq<seq<T>>)
    ensures Flatten([piece] + pieces) == piece + Flatten(pieces)
  {
    FlattenConcat([piece], pieces);
    FlattenOne(piece);
  }

  lemma FlattenSplit<T>(pieces: seq<seq<T>>, n: nat)
    requires n <= |pieces|
    ensures Flatten(pieces) == Flatten(pieces[..n]) + Flatten(pieces[n..])
  {
    assert pieces == pieces[..n] + pieces[n..];
    FlattenConcat(pieces[..n], pieces[n..]);
  }

  lemma FlattenHead<T>(pieces: seq<seq<T>>)
    requires |pieces| > 0
    ensures Flatten(pieces) == pieces[0] + Flatten(pieces[1..])
    ensures |pieces| == 1 ==> Flatten(pieces) == pieces[0]
  {
    assert pieces == [pieces[0]] + pieces[1..];
    FlattenCons(pieces[0], pieces[1..]);
    if |pieces| == 1 {
      assert pieces == [pieces[0]];
      FlattenOne(pieces[0]);
    }
  }

  lemma {:induction false} FlattenContains<T>(pieces: seq<seq<T>>, i: nat, x: T)
    requires i < |pieces| && x in pieces[i]
    ensures x in Flatten(pieces)
  {
    if i < |pieces| - 1 { FlattenContains(pieces[..|pieces| - 1], i, x); }
  }

  lemma {:induction false} FlattenOrigin<T>(pieces: seq<seq<T>>, x: T) returns (i: nat)
    requires x in Flatten(pieces)
    ensures i < |pieces| && x in pieces[i]
  {
    var n := |pieces| - 1;
    if x in pieces[n] {
      i := n;
    } else {
      i := FlattenOrigin(pieces[..n], x);
    }
  }
}

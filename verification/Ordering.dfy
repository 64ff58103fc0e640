/** Options, results, total orders, and the one list `sorted` can return for an order.

    The source sorts with unique keys, so every correct sort returns the same list.
    `Sorted` is an insertion sort; `SortedIsUnique` says that nothing depends on that choice. */
module Ordering {

  datatype Option<+T> = None | Some(value: T)

  datatype Result<+T, +E> = Ok(value: T) | Err(error: E)

  function Min(a: int, b: int): int { if a <= b then a else b }

  function Max(a: int, b: int): int { if a >= b then a else b }

  function Pow2(n: nat): (p: nat)
    ensures p >= 1
  {
    if n == 0 then 1 else 2 * Pow2(n - 1)
  }

  /** Code-point order on strings. (Dafny's own `<=` on strings is the prefix relation.) */
  predicate LexLe(a: string, b: string)
    decreases a
  {
    if a == [] then true
    else if b == [] then false
    else a[0] < b[0] || (a[0] == b[0] && LexLe(a[1..], b[1..]))
  }

  lemma {:induction false} LexLeTotal(a: string, b: string)
    ensures LexLe(a, b) || LexLe(b, a)
    decreases a
  {
    if a != [] && b != [] {
      LexLeTotal(a[1..], b[1..]);
    }
  }

  lemma {:induction false} LexLeAntisymmetric(a: string, b: string)
    requires LexLe(a, b) && LexLe(b, a)
    ensures a == b
    decreases a
  {
    if a != [] {
      LexLeAntisymmetric(a[1..], b[1..]);
      assert a == [a[0]] + a[1..] && b == [b[0]] + b[1..];
    }
  }

  lemma {:induction false} LexLeTransitive(a: string, b: string, c: string)
    requires LexLe(a, b) && LexLe(b, c)
    ensures LexLe(a, c)
    decreases a
  {
    if a != [] && a[0] == b[0] == c[0] {
      LexLeTransitive(a[1..], b[1..], c[1..]);
    }
  }

  /** The strings part at `i`, and `a` goes on with the smaller character. */
  predicate PartsBelow(a: string, b: string, i: nat) {
    i < |a| && i < |b| && a[..i] == b[..i] && a[i] < b[i]
  }

  lemma {:induction false} LexLeMeansPrefixOrBelow(a: string, b: string)
    ensures LexLe(a, b) <==> a <= b || exists i: nat :: PartsBelow(a, b, i)
    decreases a
  {
    if |a| > 0 && |b| > 0 {
      if a[0] == b[0] {
        LexLeMeansPrefixOrBelow(a[1..], b[1..]);
        if i: nat :| PartsBelow(a[1..], b[1..], i) {
          assert a[..i + 1] == [a[0]] + a[1..][..i] && b[..i + 1] == [b[0]] + b[1..][..i];
          assert PartsBelow(a, b, i + 1);
        }
        if i: nat :| PartsBelow(a, b, i) {
          assert a[1..][..i - 1] == a[..i][1..] && b[1..][..i - 1] == b[..i][1..];
          assert PartsBelow(a[1..], b[1..], i - 1);
        }
        assert a == [a[0]] + a[1..] && b == [b[0]] + b[1..];
      } else {
        assert a[0] < b[0] ==> PartsBelow(a, b, 0);
        if i: nat :| PartsBelow(a, b, i) {
          if i > 0 { assert a[..i][0] == b[..i][0]; }
        }
      }
    }
  }

  ghost predicate TotalPreorder<T(!new)>(le: (T, T) -> bool) {
    && (forall a, b :: le(a, b) || le(b, a))
    && (forall a, b, c :: le(a, b) && le(b, c) ==> le(a, c))
  }

  ghost predicate TotalOrder<T(!new)>(le: (T, T) -> bool) {
    TotalPreorder(le) && forall a, b :: le(a, b) && le(b, a) ==> a == b
  }

  lemma LexLeIsTotalOrder()
    ensures TotalOrder(LexLe)
  {
    forall a: string, b: string ensures LexLe(a, b) || LexLe(b, a) { LexLeTotal(a, b); }
    forall a: string, b: string | LexLe(a, b) && LexLe(b, a) ensures a == b { LexLeAntisymmetric(a, b); }
    forall a: string, b: string, c: string | LexLe(a, b) && LexLe(b, c) ensures LexLe(a, c) { LexLeTransitive(a, b, c); }
  }

  predicate SortedBy<T>(s: seq<T>, le: (T, T) -> bool) {
    forall i, j | 0 <= i < j < |s| :: le(s[i], s[j])
  }

  function InsertInto<T>(x: T, s: seq<T>, le: (T, T) -> bool): (r: seq<T>)
    ensures multiset(r) == multiset(s) + multiset{x}
  {
    if s == [] then [x]
    else if le(x, s[0]) then [x] + s
    else
      assert s == [s[0]] + s[1..];
      [s[0]] + InsertInto(x, s[1..], le)
  }

  lemma {:induction false} InsertIntoSorted<T(!new)>(x: T, s: seq<T>, le: (T, T) -> bool)
    requires TotalPreorder(le) && SortedBy(s, le)
    ensures SortedBy(InsertInto(x, s, le), le)
  {
    if s != [] {
      var r := InsertInto(x, s, le);
      if le(x, s[0]) {
        forall j | 0 < j < |r| ensures le(r[0], r[j]) {
          assert r[j] == s[j - 1] && (j > 1 ==> le(s[0], s[j - 1]));
        }
      } else {
        var rest := InsertInto(x, s[1..], le);
        InsertIntoSorted(x, s[1..], le);
        forall j | 0 < j < |r| ensures le(r[0], r[j]) {
          assert r[j] == rest[j - 1] && rest[j - 1] in multiset(rest);
          assert r[j] == x || r[j] in s[1..];
        }
      }
    }
  }

  /** `sorted(s)`; when the key is total on the elements, the only sorted list of them. */
  function Sorted<T(!new)>(s: seq<T>, le: (T, T) -> bool): (r: seq<T>)
    requires TotalPreorder(le)
    ensures SortedBy(r, le) && multiset(r) == multiset(s) && |r| == |s|
  {
    if s == [] then []
    else
      assert s == [s[0]] + s[1..];
      var rest := Sorted(s[1..], le);
      InsertIntoSorted(s[0], rest, le);
      var r := InsertInto(s[0], rest, le);
      assert |multiset(r)| == |multiset(s)|;
      r
  }

  lemma HeadsAgree<T(!new)>(s: seq<T>, t: seq<T>, le: (T, T) -> bool)
    requires (forall a, b :: le(a, b) && le(b, a) ==> a == b) && SortedBy(s, le) && SortedBy(t, le)
    requires s != [] && t != [] && s[0] in t && t[0] in s
    ensures s[0] == t[0]
  {
    var i :| 0 <= i < |t| && t[i] == s[0];
    var j :| 0 <= j < |s| && s[j] == t[0];
  }

  lemma TailsAgree<T>(s: seq<T>, t: seq<T>)
    requires s != [] && t != [] && s[0] == t[0] && multiset(s) == multiset(t)
    ensures multiset(s[1..]) == multiset(t[1..])
  {
    assert s == [s[0]] + s[1..] && t == [t[0]] + t[1..];
    assert multiset(s[1..]) == multiset(s) - multiset{s[0]};
  }

  lemma SameMultisetSize<T>(s: seq<T>, t: seq<T>)
    requires multiset(s) == multiset(t)
    ensures |s| == |t| && forall x :: x in s <==> x in t
  {
    assert |multiset(s)| == |multiset(t)|;
    assert forall x :: x in s <==> x in multiset(s);
    assert forall x :: x in t <==> x in multiset(t);
  }

  lemma {:induction false} SortedIsUnique<T(!new)>(s: seq<T>, t: seq<T>, le: (T, T) -> bool)
    requires (forall a, b :: le(a, b) && le(b, a) ==> a == b) && SortedBy(s, le) && SortedBy(t, le) && multiset(s) == multiset(t)
    ensures s == t
  {
    SameMultisetSize(s, t);
    if s != [] {
      assert s[0] in t && t[0] in s;
      HeadsAgree(s, t, le);
      TailsAgree(s, t);
      SortedIsUnique(s[1..], t[1..], le);
      assert s == [s[0]] + s[1..] && t == [t[0]] + t[1..];
    }
  }

  /** Sorting a list without repetitions keeps it without repetitions. */
  lemma SortedKeepsDistinct<T(!new)>(s: seq<T>, le: (T, T) -> bool)
    requires TotalOrder(le) && Distinct(s)
    ensures Distinct(Sorted(s, le))
    ensures forall x :: x in Sorted(s, le) <==> x in s
  {
    SameElements(s, Sorted(s, le));
  }

  /** The first `n` elements of a sorted list come before each other in turn, and before all the rest. */
  lemma SortedSplit<T(!new)>(s: seq<T>, n: nat, le: (T, T) -> bool) returns (rest: seq<T>)
    requires SortedBy(s, le) && n <= |s|
    ensures rest == s[n..] && multiset(s) == multiset(s[..n]) + multiset(rest)
    ensures forall i, j | 0 <= i < j < n :: le(s[..n][i], s[..n][j])
    ensures forall i, j | 0 <= i < n && 0 <= j < |rest| :: le(s[..n][i], rest[j])
  {
    rest := s[n..];
    assert s == s[..n] + rest;
    assert forall j | 0 <= j < |rest| :: rest[j] == s[n + j];
  }

  predicate Distinct<T(==)>(s: seq<T>) {
    forall i, j | 0 <= i < j < |s| :: s[i] != s[j]
  }

  lemma SameElements<T>(s: seq<T>, t: seq<T>)
    requires multiset(s) == multiset(t) && Distinct(s)
    ensures Distinct(t)
    ensures forall x :: x in t <==> x in s
  {
    forall x ensures x in t <==> x in s {
      assert x in multiset(t) <==> x in multiset(s);
    }
    forall i, j | 0 <= i < j < |t| ensures t[i] != t[j] {
      if t[i] == t[j] {
        assert t == t[..i] + [t[i]] + t[i + 1..j] + [t[j]] + t[j + 1..];
        assert multiset(t)[t[i]] >= 2;
        DistinctCount(s, t[i]);
      }
    }
  }

  lemma {:induction false} DistinctCount<T>(s: seq<T>, x: T)
    requires Distinct(s)
    ensures multiset(s)[x] <= 1
  {
    if s != [] {
      assert s == [s[0]] + s[1..];
      DistinctCount(s[1..], x);
      assert s[0] !in s[1..];
    }
  }
}

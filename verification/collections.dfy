/**
 * Query results: a `findMany` returns the matching rows of a table once each, and
 * `orderBy: { field: 'desc' }` arranges them by a numeric key, largest first.
 */
module Collections {

  /** `s` is ordered by `key`, largest first (ties in any order). */
  predicate SortedDesc<T>(s: seq<T>, key: T -> int) {
    forall i, j :: 0 <= i < j < |s| ==> key(s[i]) >= key(s[j])
  }

  /** Inserts `x` into a list sorted by `key`, after every element with a larger key. */
  function Insert<T>(x: T, s: seq<T>, key: T -> int): seq<T> {
    if s == [] || key(x) >= key(s[0]) then [x] + s
    else [s[0]] + Insert(x, s[1..], key)
  }

  /** Inserting keeps a sorted list sorted and adds exactly `x`. */
  lemma {:induction false} InsertKeepsSorted<T>(x: T, s: seq<T>, key: T -> int)
    requires SortedDesc(s, key)
    ensures SortedDesc(Insert(x, s, key), key)
    ensures multiset(Insert(x, s, key)) == multiset(s) + multiset{x}
  {
    if s == [] {
    } else if key(x) >= key(s[0]) {
      HeadIsLargest(s, key);
      PrependKeepsSorted(x, s, key);
    } else {
      assert SortedDesc(s[1..], key);
      InsertKeepsSorted(x, s[1..], key);
      var rest := Insert(x, s[1..], key);
      assert s == [s[0]] + s[1..];
      HeadIsLargest(s, key);
      forall y | y in rest ensures key(y) <= key(s[0]) {
        assert y in multiset(rest);
      }
      PrependKeepsSorted(s[0], rest, key);
    }
  }

  /** The head of a sorted list has the largest key. */
  lemma HeadIsLargest<T>(s: seq<T>, key: T -> int)
    requires SortedDesc(s, key) && s != []
    ensures forall y | y in s :: key(y) <= key(s[0])
  {
    forall y | y in s ensures key(y) <= key(s[0]) {
      var j :| 0 <= j < |s| && s[j] == y;
      if j > 0 {
        assert key(s[0]) >= key(s[j]);
      }
    }
  }

  /** A head whose key is at least that of every element keeps a sorted list sorted. */
  lemma PrependKeepsSorted<T>(h: T, s: seq<T>, key: T -> int)
    requires SortedDesc(s, key)
    requires forall y | y in s :: key(y) <= key(h)
    ensures SortedDesc([h] + s, key)
  {
    var r := [h] + s;
    forall i, j | 0 <= i < j < |r| ensures key(r[i]) >= key(r[j]) {
      assert r[j] == s[j - 1];
      if i > 0 {
        assert r[i] == s[i - 1];
      } else {
        assert r[j] in s;
      }
    }
  }

  /** Insertion sort by `key`, largest first. */
  function SortDesc<T>(s: seq<T>, key: T -> int): (r: seq<T>)
    ensures SortedDesc(r, key)
    ensures multiset(r) == multiset(s)
  {
    if s == [] then []
    else
      assert s == [s[0]] + s[1..];
      InsertKeepsSorted(s[0], SortDesc(s[1..], key), key);
      Insert(s[0], SortDesc(s[1..], key), key)
  }

  /** The elements of a (finite) set, each exactly once, in some order. */
  method Enumerate<T>(s: set<T>) returns (r: seq<T>)
    ensures |r| == |s|
    ensures forall x :: x in r <==> x in s
  {
    r := [];
    var rest := s;
    while rest != {}
      invariant rest <= s
      invariant |r| + |rest| == |s|
      invariant forall x :: x in r <==> x in s && x !in rest
      decreases |rest|
    {
      var x :| x in rest;
      r := r + [x];
      rest := rest - {x};
    }
  }

  /** Sorting keeps the length and the elements, so it keeps "each matching row once". */
  lemma SortKeepsRows<T>(s: seq<T>, key: T -> int)
    ensures |SortDesc(s, key)| == |s|
    ensures forall x :: x in SortDesc(s, key) <==> x in s
  {
    var r := SortDesc(s, key);
    assert |multiset(r)| == |multiset(s)|;
    forall x ensures x in r <==> x in s {
      assert x in r <==> x in multiset(r);
      assert x in s <==> x in multiset(s);
    }
  }
}

/** Sorting by a key, as the library sorts that the kernels call. */
module Sorting {
  ghost predicate SortedBy<T>(s: seq<T>, key: T -> real) {
    forall i, j :: 0 <= i < j < |s| ==> key(s[i]) <= key(s[j])
  }

  function InsertBy<T>(s: seq<T>, x: T, key: T -> real): seq<T> {
    if s == [] || key(s[|s| - 1]) <= key(x) then s + [x] else InsertBy(s[..|s| - 1], x, key) + [s[|s| - 1]]
  }

  function SortBy<T>(s: seq<T>, key: T -> real): seq<T> {
    if s == [] then [] else InsertBy(SortBy(s[..|s| - 1], key), s[|s| - 1], key)
  }

  lemma {:induction false} InsertKeepsItems<T>(s: seq<T>, x: T, key: T -> real)
    ensures |InsertBy(s, x, key)| == |s| + 1 && multiset(InsertBy(s, x, key)) == multiset(s) + multiset{x}
  {
    if s != [] && key(s[|s| - 1]) > key(x) {
      InsertKeepsItems(s[..|s| - 1], x, key);
      assert s == s[..|s| - 1] + [s[|s| - 1]];
    }
  }

  lemma {:induction false} InsertSorts<T>(s: seq<T>, x: T, key: T -> real)
    requires SortedBy(s, key)
    ensures SortedBy(InsertBy(s, x, key), key)
  {
    if s != [] && key(s[|s| - 1]) > key(x) {
      var rest, last := s[..|s| - 1], s[|s| - 1];
      InsertSorts(rest, x, key);
      var r := InsertBy(rest, x, key);
      forall i | 0 <= i < |r|
        ensures key(r[i]) <= key(last)
      {
        InsertedItem(rest, x, key, i);
      }
    }
  }

  lemma InsertedItem<T>(s: seq<T>, x: T, key: T -> real, i: nat)
    requires i < |InsertBy(s, x, key)|
    ensures InsertBy(s, x, key)[i] == x || InsertBy(s, x, key)[i] in s
  {
    InsertKeepsItems(s, x, key);
    assert InsertBy(s, x, key)[i] in multiset(InsertBy(s, x, key));
  }

  /** The same items, in order. */
  lemma {:induction false} SortSorts<T>(s: seq<T>, key: T -> real)
    ensures SortedBy(SortBy(s, key), key) && multiset(SortBy(s, key)) == multiset(s) && |SortBy(s, key)| == |s|
  {
    if s != [] {
      var rest, last := s[..|s| - 1], s[|s| - 1];
      SortSorts(rest, key);
      InsertSorts(SortBy(rest, key), last, key);
      InsertKeepsItems(SortBy(rest, key), last, key);
      assert s == rest + [last];
    }
  }

  method SortInPlace<T>(a: array<T>, key: T -> real)
    modifies a
    ensures a[..] == SortBy(old(a[..]), key)
  {
    var s := SortBy(a[..], key);
    SortSorts(a[..], key);
    forall i | 0 <= i < a.Length {
      a[i] := s[i];
    }
    assert a[..] == s;
  }
}

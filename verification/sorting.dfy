/**
  Insertion sort by a string key, in the lexicographic order of `Text.LexLessEq`.
  Used for the alphabetical order of proxy argument keys and of workloads.
 */
module Sorting {
  import opened Text

  /** `s` is in non-decreasing order of `key`. */
  predicate SortedBy<T>(s: seq<T>, key: T -> string) {
    forall i, j :: 0 <= i < j < |s| ==> LexLessEq(key(s[i]), key(s[j]))
  }

  /** Putting an element no greater than every element in front keeps the order. */
  lemma PrependSorted<T>(x: T, s: seq<T>, key: T -> string)
    requires SortedBy(s, key)
    requires forall j :: 0 <= j < |s| ==> LexLessEq(key(x), key(s[j]))
    ensures SortedBy([x] + s, key)
  {
    var r := [x] + s;
    forall i, j | 0 <= i < j < |r|
      ensures LexLessEq(key(r[i]), key(r[j]))
    {
      if i > 0 {
        assert r[i] == s[i - 1] && r[j] == s[j - 1];
      } else {
        assert r[j] == s[j - 1];
      }
    }
  }

  lemma HeadBelowAll<T>(x: T, s: seq<T>, key: T -> string)
    requires SortedBy(s, key) && |s| > 0
    requires LexLessEq(key(x), key(s[0]))
    ensures forall j :: 0 <= j < |s| ==> LexLessEq(key(x), key(s[j]))
  {
    forall j | 0 <= j < |s|
      ensures LexLessEq(key(x), key(s[j]))
    {
      if j > 0 {
        LexTransitive(key(x), key(s[0]), key(s[j]));
      }
    }
  }

  lemma BelowInserted<T>(y: T, x: T, rest: seq<T>, r: seq<T>, key: T -> string)
    requires multiset(r) == multiset(rest) + multiset{x}
    requires LexLessEq(key(y), key(x))
    requires forall j :: 0 <= j < |rest| ==> LexLessEq(key(y), key(rest[j]))
    ensures forall j :: 0 <= j < |r| ==> LexLessEq(key(y), key(r[j]))
  {
    forall j | 0 <= j < |r|
      ensures LexLessEq(key(y), key(r[j]))
    {
      assert r[j] in multiset(r);
      if r[j] != x {
        assert r[j] in multiset(rest);
        var k :| 0 <= k < |rest| && rest[k] == r[j];
      }
    }
  }

  /** `x` inserted into the sorted `s` before the first element with a greater-or-equal key. */
  function InsertBy<T(==)>(x: T, s: seq<T>, key: T -> string): (r: seq<T>)
    requires SortedBy(s, key)
    ensures SortedBy(r, key)
    ensures multiset(r) == multiset(s) + multiset{x}
    ensures |r| == |s| + 1
  {
    if |s| == 0 then [x]
    else if LexLessEq(key(x), key(s[0])) then
      HeadBelowAll(x, s, key);
      PrependSorted(x, s, key);
      [x] + s
    else
      var rest := s[1..];
      assert s == [s[0]] + rest;
      var r := InsertBy(x, rest, key);
      LexTotal(key(x), key(s[0]));
      assert forall j :: 0 <= j < |rest| ==> LexLessEq(key(s[0]), key(rest[j])) by {
        forall j | 0 <= j < |rest| ensures LexLessEq(key(s[0]), key(rest[j])) {
          assert rest[j] == s[j + 1];
        }
      }
      BelowInserted(s[0], x, rest, r, key);
      PrependSorted(s[0], r, key);
      [s[0]] + r
  }

  /** A permutation of `s` in non-decreasing key order. */
  function SortBy<T(==)>(s: seq<T>, key: T -> string): (r: seq<T>)
    ensures SortedBy(r, key)
    ensures multiset(r) == multiset(s)
    ensures |r| == |s|
  {
    if |s| == 0 then []
    else
      assert s == [s[0]] + s[1..];
      InsertBy(s[0], SortBy(s[1..], key), key)
  }

  /** A sorted permutation contains exactly the elements of the input. */
  lemma SortByMembers<T>(s: seq<T>, key: T -> string, x: T)
    ensures x in SortBy(s, key) <==> x in s
  {
    var r := SortBy(s, key);
    assert x in r <==> x in multiset(r);
    assert x in s <==> x in multiset(s);
  }

  /** Sorting two elements keeps them when they are in order and swaps them otherwise. */
  lemma SortByTwo<T>(x: T, y: T, key: T -> string)
    ensures LexLessEq(key(x), key(y)) ==> SortBy([x, y], key) == [x, y]
    ensures !LexLessEq(key(x), key(y)) ==> SortBy([x, y], key) == [y, x]
  {
    assert [x, y][1..] == [y];
    assert SortBy([y], key) == [y] by {
      assert [y][1..] == [];
    }
  }

  lemma SortByOne<T>(x: T, key: T -> string)
    ensures SortBy([x], key) == [x]
  {
    assert [x][1..] == [];
  }
}

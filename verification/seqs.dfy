/** Generic sequence helpers: filtering, duplicate-freedom, first-occurrence deduplication. */
module Seqs {

  /** No element occurs twice in `s`. */
  predicate NoDup<T(==)>(s: seq<T>) {
    forall i, j :: 0 <= i < j < |s| ==> s[i] != s[j]
  }

  /** The elements of `s` that satisfy `keep`, in their original order. */
  function Filter<T>(s: seq<T>, keep: T -> bool): (r: seq<T>)
    ensures |r| <= |s|
    ensures forall i :: 0 <= i < |r| ==> r[i] in s && keep(r[i])
    ensures forall i :: 0 <= i < |s| && keep(s[i]) ==> s[i] in r
  {
    if |s| == 0 then []
    else
      assert s == [s[0]] + s[1..];
      (if keep(s[0]) then [s[0]] else []) + Filter(s[1..], keep)
  }

  /** Keeping what is already kept keeps everything. */
  lemma {:induction false} FilterKeepsAll<T>(s: seq<T>, keep: T -> bool)
    requires forall i :: 0 <= i < |s| ==> keep(s[i])
    ensures Filter(s, keep) == s
  {
    if |s| > 0 {
      FilterKeepsAll(s[1..], keep);
      assert s == [s[0]] + s[1..];
    }
  }

  /** Filtering distributes over concatenation. */
  lemma {:induction false} FilterAppend<T>(a: seq<T>, b: seq<T>, keep: T -> bool)
    ensures Filter(a + b, keep) == Filter(a, keep) + Filter(b, keep)
  {
    if |a| > 0 {
      assert (a + b)[1..] == a[1..] + b;
      FilterAppend(a[1..], b, keep);
    } else {
      assert a + b == b;
    }
  }

  /** Filtering by a predicate every element fails leaves nothing. */
  lemma {:induction false} FilterDropsAll<T>(s: seq<T>, keep: T -> bool)
    requires forall i :: 0 <= i < |s| ==> !keep(s[i])
    ensures Filter(s, keep) == []
  {
    if |s| > 0 {
      FilterDropsAll(s[1..], keep);
    }
  }

  /** Filtering again after appending only rejected elements gives the first filtering back. */
  lemma FilterReplace<T>(s: seq<T>, extra: seq<T>, keep: T -> bool)
    requires forall i :: 0 <= i < |extra| ==> !keep(extra[i])
    ensures Filter(Filter(s, keep) + extra, keep) == Filter(s, keep)
  {
    var kept := Filter(s, keep);
    FilterAppend(kept, extra, keep);
    FilterKeepsAll(kept, keep);
    FilterDropsAll(extra, keep);
    assert kept + [] == kept;
  }

  /**
    The first occurrence of every element of `s`, in order of first appearance: the
    result has no duplicates and the same elements as `s`.
   */
  function Dedup<T(==)>(s: seq<T>): (r: seq<T>)
    ensures NoDup(r)
    ensures forall i :: 0 <= i < |r| ==> r[i] in s
    ensures forall i :: 0 <= i < |s| ==> s[i] in r
    ensures |r| <= |s|
  {
    if |s| == 0 then []
    else
      var r := Dedup(s[..|s| - 1]);
      assert s == s[..|s| - 1] + [s[|s| - 1]];
      if s[|s| - 1] in r then r else r + [s[|s| - 1]]
  }

  /** Deduplicating one more element keeps it only when it is new. */
  lemma DedupSnoc<T>(a: seq<T>, d: T)
    ensures Dedup(a + [d]) == if d in Dedup(a) then Dedup(a) else Dedup(a) + [d]
  {
    assert (a + [d])[..|a|] == a;
  }

  /**
    `Dedup` keeps the order of first appearance: wherever the later of two kept elements
    occurs, the earlier one has already occurred.
   */
  lemma {:induction false} DedupOrder<T>(s: seq<T>, k1: nat, k2: nat, j: nat)
    requires k1 < k2 < |Dedup(s)| && j < |s| && s[j] == Dedup(s)[k2]
    ensures exists i :: 0 <= i < j && s[i] == Dedup(s)[k1]
  {
    var n := |s| - 1;
    var init := s[..n];
    var r0 := Dedup(init);
    assert s == init + [s[n]];
    DedupSnoc(init, s[n]);
    assert forall k :: 0 <= k < |r0| ==> Dedup(s)[k] == r0[k];
    if j == n {
      assert r0[k1] in init;
    } else if k2 < |r0| {
      assert init[j] == s[j];
      DedupOrder(init, k1, k2, j);
      var i :| 0 <= i < j && init[i] == r0[k1];
      assert s[i] == init[i];
    } else {
      assert false;
    }
  }

  /** A non-empty sequence is its front followed by its last element. */
  lemma SplitLast<T>(s: seq<T>)
    requires |s| > 0
    ensures s[..|s| - 1] + [s[|s| - 1]] == s
  {
  }

  /** A sequence is what comes before position `i`, the element there, and what comes after. */
  lemma SplitAround<T>(s: seq<T>, i: nat)
    requires i < |s|
    ensures s == s[..i] + ([s[i]] + s[i + 1..])
  {
  }

  /** Past the end of `a`, `a + b` reads like `b`. */
  lemma AppendIndex<T>(a: seq<T>, b: seq<T>, i: nat)
    requires i < |b|
    ensures (a + b)[|a| + i] == b[i]
  {
  }

  /** What holds at every position holds of every element. */
  lemma EitherOf<T>(s: seq<T>, x: T, y: T)
    requires forall i :: 0 <= i < |s| ==> s[i] == x || s[i] == y
    ensures forall a :: a in s ==> a == x || a == y
  {
  }

  /** A repeated element is kept once. */
  lemma DedupPair<T>(x: T)
    ensures Dedup([x, x]) == [x]
  {
    assert [x, x][..1] == [x];
    assert [x][..0] == [];
  }

  /** A sequence that already has no duplicates is its own deduplication. */
  lemma {:induction false} DedupOfNoDup<T>(s: seq<T>)
    requires NoDup(s)
    ensures Dedup(s) == s
  {
    if |s| > 0 {
      var init := s[..|s| - 1];
      assert NoDup(init);
      DedupOfNoDup(init);
      assert s[|s| - 1] !in init;
      assert s == init + [s[|s| - 1]];
    }
  }

  /** No two elements of `s` share a key. */
  predicate DistinctKeys<T, K(==)>(s: seq<T>, key: T -> K) {
    forall i, j :: 0 <= i < j < |s| ==> key(s[i]) != key(s[j])
  }

  lemma {:induction false} FilterNoDup<T>(s: seq<T>, keep: T -> bool)
    requires NoDup(s)
    ensures NoDup(Filter(s, keep))
  {
    if |s| > 0 {
      assert NoDup(s[1..]) by {
        assert forall i :: 0 <= i < |s[1..]| ==> s[1..][i] == s[i + 1];
      }
      FilterNoDup(s[1..], keep);
      assert s[0] !in s[1..];
    }
  }

  /** Filtering keeps keys distinct. */
  lemma FilterDistinctKeys<T, K>(s: seq<T>, keep: T -> bool, key: T -> K)
    requires DistinctKeys(s, key)
    ensures DistinctKeys(Filter(s, keep), key)
  {
    FilterNoDup(s, keep);
    var r := Filter(s, keep);
    forall i, j | 0 <= i < j < |r|
      ensures key(r[i]) != key(r[j])
    {
      var p :| 0 <= p < |s| && s[p] == r[i];
      var q :| 0 <= q < |s| && s[q] == r[j];
    }
  }

  lemma {:induction false} NoDupCountAtMostOne<T>(s: seq<T>, x: T)
    requires NoDup(s)
    ensures multiset(s)[x] <= 1
  {
    if |s| > 0 {
      assert s == [s[0]] + s[1..];
      assert NoDup(s[1..]) by {
        assert forall i :: 0 <= i < |s[1..]| ==> s[1..][i] == s[i + 1];
      }
      NoDupCountAtMostOne(s[1..], x);
      if x == s[0] {
        assert x !in s[1..];
      }
    }
  }

  lemma TwiceCountsTwice<T>(s: seq<T>, i: nat, j: nat)
    requires i < j < |s| && s[i] == s[j]
    ensures multiset(s)[s[i]] >= 2
  {
    assert s == s[..j] + [s[j]] + s[j + 1..];
    assert s[..j][i] == s[i];
    assert s[i] in multiset(s[..j]);
  }

  /** A permutation keeps keys distinct. */
  lemma PermutationDistinctKeys<T, K>(a: seq<T>, b: seq<T>, key: T -> K)
    requires multiset(a) == multiset(b)
    requires DistinctKeys(a, key)
    ensures DistinctKeys(b, key)
  {
    forall i, j | 0 <= i < j < |b|
      ensures key(b[i]) != key(b[j])
    {
      assert b[i] in multiset(a) && b[j] in multiset(a);
      if b[i] == b[j] {
        TwiceCountsTwice(b, i, j);
        NoDupCountAtMostOne(a, b[i]);
      } else {
        var p :| 0 <= p < |a| && a[p] == b[i];
        var q :| 0 <= q < |a| && a[q] == b[j];
      }
    }
  }
}

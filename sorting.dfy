// `Array.prototype.sort` with a numeric comparator `(a, b) => key(a) - key(b)`.
// JavaScript's sort is stable, and a stable sort by a key has exactly one
// result, so it is modelled by a stable insertion sort on values.
module Sorting {

  predicate SortedBy<T>(s: seq<T>, key: T -> int)
  {
    forall i, j :: 0 <= i < j < |s| ==> key(s[i]) <= key(s[j])
  }

  /** Inserts `x` into `t` after every element whose key is not larger. */
  function InsertBy<T>(t: seq<T>, x: T, key: T -> int): (r: seq<T>)
    ensures |r| == |t| + 1
    ensures multiset(r) == multiset(t) + multiset{x}
    ensures forall i :: 0 <= i < |r| ==> r[i] in t || r[i] == x
    ensures SortedBy(t, key) ==> SortedBy(r, key)
    decreases |t|
  {
    if |t| == 0 then [x]
    else if key(t[|t| - 1]) <= key(x) then
      AppendLargest(t, x, key);
      t + [x]
    else
      var p := t[..|t| - 1];
      SplitLast(t);
      var r := InsertBy(p, x, key);
      ShiftKeepsSorted(p, t[|t| - 1], x, r, key);
      r + [t[|t| - 1]]
  }

  /** Appending an element no smaller than the last keeps a sorted sequence sorted. */
  lemma AppendLargest<T>(t: seq<T>, x: T, key: T -> int)
    requires |t| > 0 && key(t[|t| - 1]) <= key(x)
    ensures SortedBy(t, key) ==> SortedBy(t + [x], key)
  {
  }

  /** Appending an element larger than `x` and than all of `p` keeps sorted a sorted mix of `p` and `x`. */
  lemma ShiftKeepsSorted<T>(p: seq<T>, last: T, x: T, r: seq<T>, key: T -> int)
    requires key(last) > key(x)
    requires forall i :: 0 <= i < |r| ==> r[i] in p || r[i] == x
    ensures SortedBy(p + [last], key) && SortedBy(r, key) ==> SortedBy(r + [last], key)
  {
    if SortedBy(p + [last], key) && SortedBy(r, key) {
      forall i | 0 <= i < |r| ensures key(r[i]) <= key(last)
      {
        if r[i] != x {
          var j :| 0 <= j < |p| && p[j] == r[i];
          assert (p + [last])[j] == p[j] && (p + [last])[|p|] == last;
        }
      }
    }
  }

  /** The stable sort of `s` by ascending `key`. */
  function SortBy<T>(s: seq<T>, key: T -> int): (r: seq<T>)
    ensures |r| == |s|
    ensures multiset(r) == multiset(s)
    ensures SortedBy(r, key)
    decreases |s|
  {
    if |s| == 0 then []
    else
      assert s == s[..|s| - 1] + [s[|s| - 1]];
      InsertBy(SortBy(s[..|s| - 1], key), s[|s| - 1], key)
  }

  /** Sorting what is already sorted changes nothing (stability). */
  lemma {:induction false} SortBySortedIsIdentity<T>(s: seq<T>, key: T -> int)
    requires SortedBy(s, key)
    ensures SortBy(s, key) == s
    decreases |s|
  {
    if |s| > 0 {
      var p := s[..|s| - 1];
      var last := s[|s| - 1];
      SortedDropLast(s, key);
      SortBySortedIsIdentity(p, key);
      InsertAfterLast(p, last, key);
      SplitLast(s);
    }
  }

  lemma SplitLast<T>(s: seq<T>)
    requires |s| > 0
    ensures s[..|s| - 1] + [s[|s| - 1]] == s
  {
  }

  lemma SortedDropLast<T>(s: seq<T>, key: T -> int)
    requires SortedBy(s, key) && |s| > 0
    ensures SortedBy(s[..|s| - 1], key)
    ensures |s| > 1 ==> key(s[|s| - 2]) <= key(s[|s| - 1])
  {
  }

  /** An element no smaller than the last one is inserted at the end. */
  lemma InsertAfterLast<T>(t: seq<T>, x: T, key: T -> int)
    requires |t| == 0 || key(t[|t| - 1]) <= key(x)
    ensures InsertBy(t, x, key) == t + [x]
  {
  }

  /** Two elements out of order are swapped. */
  lemma SortTwoDescending<T>(x: T, y: T, key: T -> int)
    requires key(x) > key(y)
    ensures SortBy([x, y], key) == [y, x]
  {
    assert [x, y][..1] == [x];
    assert [x][..0] == [];
    assert [x][..|[x]| - 1] == [];
  }

  /** Every element of a sorted result comes from the input and vice versa. */
  lemma SortByMembers<T>(s: seq<T>, key: T -> int, x: T)
    ensures x in SortBy(s, key) <==> x in s
  {
    var r := SortBy(s, key);
    assert x in r <==> x in multiset(r);
    assert x in s <==> x in multiset(s);
  }

  /** The sum of `f` over `s`. */
  function SumBy<T>(s: seq<T>, f: T -> int): int
    decreases |s|
  {
    if |s| == 0 then 0 else SumBy(s[..|s| - 1], f) + f(s[|s| - 1])
  }

  lemma {:induction false} SumByAppend<T>(a: seq<T>, b: seq<T>, f: T -> int)
    ensures SumBy(a + b, f) == SumBy(a, f) + SumBy(b, f)
    decreases |b|
  {
    if |b| > 0 {
      assert (a + b)[..|a + b| - 1] == a + b[..|b| - 1];
      SumByAppend(a, b[..|b| - 1], f);
    } else {
      assert a + b == a;
    }
  }

  /** Replacing one element changes the sum by the difference. */
  lemma {:induction false} SumByUpdate<T>(s: seq<T>, p: nat, x: T, f: T -> int)
    requires p < |s|
    ensures SumBy(s[p := x], f) == SumBy(s, f) - f(s[p]) + f(x)
    decreases |s|
  {
    var n := |s| - 1;
    if p < n {
      assert s[p := x][..n] == s[..n][p := x];
      SumByUpdate(s[..n], p, x, f);
    } else {
      assert s[p := x][..n] == s[..n];
    }
  }

  lemma {:induction false} InsertBySum<T>(t: seq<T>, x: T, key: T -> int, f: T -> int)
    ensures SumBy(InsertBy(t, x, key), f) == SumBy(t, f) + f(x)
    decreases |t|
  {
    if |t| > 0 && key(t[|t| - 1]) > key(x) {
      var p := t[..|t| - 1];
      var r := InsertBy(p, x, key) + [t[|t| - 1]];
      assert r[..|r| - 1] == InsertBy(p, x, key);
      InsertBySum(p, x, key, f);
    } else if |t| > 0 {
      assert (t + [x])[..|t|] == t;
    }
  }

  /** Sorting does not change a sum. */
  lemma {:induction false} SortBySum<T>(s: seq<T>, key: T -> int, f: T -> int)
    ensures SumBy(SortBy(s, key), f) == SumBy(s, f)
    decreases |s|
  {
    if |s| > 0 {
      SortBySum(s[..|s| - 1], key, f);
      InsertBySum(SortBy(s[..|s| - 1], key), s[|s| - 1], key, f);
    }
  }

  /** No two elements share a key. */
  predicate DistinctKeys<T>(s: seq<T>, key: T -> int)
  {
    forall i, j :: 0 <= i < j < |s| ==> key(s[i]) != key(s[j])
  }

  lemma {:induction false} InsertByDistinct<T>(t: seq<T>, x: T, key: T -> int)
    requires DistinctKeys(t, key)
    requires forall i :: 0 <= i < |t| ==> key(t[i]) != key(x)
    ensures DistinctKeys(InsertBy(t, x, key), key)
    decreases |t|
  {
    if |t| > 0 && key(t[|t| - 1]) > key(x) {
      var p := t[..|t| - 1];
      InsertByDistinct(p, x, key);
      var q := InsertBy(p, x, key);
      forall i | 0 <= i < |q| ensures key(q[i]) != key(t[|t| - 1]) {
        if q[i] != x {
          var j :| 0 <= j < |p| && p[j] == q[i];
          assert p[j] == t[j];
        }
      }
    }
  }

  /** Sorting by a key no two elements share gives a strictly increasing order. */
  lemma {:induction false} SortByDistinct<T>(s: seq<T>, key: T -> int)
    requires DistinctKeys(s, key)
    ensures DistinctKeys(SortBy(s, key), key)
    ensures forall i, j :: 0 <= i < j < |SortBy(s, key)| ==> key(SortBy(s, key)[i]) < key(SortBy(s, key)[j])
    decreases |s|
  {
    if |s| > 0 {
      var p := s[..|s| - 1];
      SortByDistinct(p, key);
      var q := SortBy(p, key);
      forall i | 0 <= i < |q| ensures key(q[i]) != key(s[|s| - 1]) {
        assert q[i] in multiset(q);
        var j :| 0 <= j < |p| && p[j] == q[i];
        assert p[j] == s[j];
      }
      InsertByDistinct(q, s[|s| - 1], key);
    }
  }

  // --- stability ---------------------------------------------------------------

  /** The elements of `s` whose key is `k`, in their order in `s`. */
  function WithKey<T>(s: seq<T>, key: T -> int, k: int): seq<T>
    decreases |s|
  {
    if |s| == 0 then []
    else WithKey(s[..|s| - 1], key, k) + (if key(s[|s| - 1]) == k then [s[|s| - 1]] else [])
  }

  lemma {:induction false} WithKeyAppend<T>(a: seq<T>, b: seq<T>, key: T -> int, k: int)
    ensures WithKey(a + b, key, k) == WithKey(a, key, k) + WithKey(b, key, k)
    decreases |b|
  {
    if |b| == 0 {
      assert a + b == a;
    } else {
      var b' := b[..|b| - 1];
      assert (a + b)[..|a + b| - 1] == a + b';
      WithKeyAppend(a, b', key, k);
    }
  }

  /** Inserting `x` puts it after every element of its own key. */
  lemma {:induction false} InsertByWithKey<T>(t: seq<T>, x: T, key: T -> int, k: int)
    ensures WithKey(InsertBy(t, x, key), key, k) == WithKey(t, key, k) + WithKey([x], key, k)
    decreases |t|
  {
    if |t| == 0 {
      assert [x][..0] == [];
    } else if key(t[|t| - 1]) <= key(x) {
      WithKeyAppend(t, [x], key, k);
    } else {
      var p := t[..|t| - 1];
      InsertByWithKey(p, x, key, k);
      SplitLast(t);
      ShiftPastLarger(InsertBy(p, x, key), p, x, t[|t| - 1], key, k);
    }
  }

  /** An element with a larger key than `x` that stays behind `x` keeps the order of its own key. */
  lemma ShiftPastLarger<T>(r: seq<T>, p: seq<T>, x: T, last: T, key: T -> int, k: int)
    requires WithKey(r, key, k) == WithKey(p, key, k) + WithKey([x], key, k)
    requires key(x) < key(last)
    ensures WithKey(r + [last], key, k) == WithKey(p + [last], key, k) + WithKey([x], key, k)
  {
    WithKeyAppend(r, [last], key, k);
    WithKeyAppend(p, [last], key, k);
    WithKeyOne(x, key, k);
    WithKeyOne(last, key, k);
    if key(last) == k {
      assert WithKey([x], key, k) == [];
      assert WithKey(r, key, k) == WithKey(p, key, k);
    } else {
      assert WithKey([last], key, k) == [];
      assert WithKey(r + [last], key, k) == WithKey(r, key, k);
      assert WithKey(p + [last], key, k) == WithKey(p, key, k);
    }
  }

  lemma WithKeyOne<T>(y: T, key: T -> int, k: int)
    ensures WithKey([y], key, k) == if key(y) == k then [y] else []
  {
    assert [y][..0] == [];
  }

  /**
   * The sort is stable: for every key, the elements with that key keep
   * their input order.
   */
  lemma {:induction false} SortByStable<T>(s: seq<T>, key: T -> int, k: int)
    ensures WithKey(SortBy(s, key), key, k) == WithKey(s, key, k)
    decreases |s|
  {
    if |s| > 0 {
      var p := s[..|s| - 1];
      SortByStable(p, key, k);
      InsertByWithKey(SortBy(p, key), s[|s| - 1], key, k);
      WithKeyOne(s[|s| - 1], key, k);
    }
  }

  /** The elements kept for key `k` are exactly the elements of `s` with that key. */
  lemma {:induction false} WithKeyMembers<T>(s: seq<T>, key: T -> int, k: int, y: T)
    ensures y in WithKey(s, key, k) <==> y in s && key(y) == k
    decreases |s|
  {
    if |s| > 0 {
      var p := s[..|s| - 1];
      WithKeyMembers(p, key, k, y);
      SplitLast(s);
      assert y in s <==> y in p || y == s[|s| - 1];
    }
  }

  /** Two elements of one key keep their relative order among the elements of that key. */
  lemma {:induction false} WithKeyPair<T>(s: seq<T>, key: T -> int, a: nat, b: nat)
    requires a < b < |s| && key(s[a]) == key(s[b])
    ensures var w := WithKey(s, key, key(s[a]));
      exists i, j :: 0 <= i < j < |w| && w[i] == s[a] && w[j] == s[b]
    decreases |s|
  {
    var k := key(s[a]);
    var p := s[..|s| - 1];
    var w := WithKey(p, key, k);
    if b == |s| - 1 {
      WithKeyMembers(p, key, k, s[a]);
      assert s[a] == p[a];
      var i :| 0 <= i < |w| && w[i] == s[a];
      assert WithKey(s, key, k) == w + [s[b]];
      assert WithKey(s, key, k)[i] == s[a] && WithKey(s, key, k)[|w|] == s[b];
    } else {
      assert p[a] == s[a] && p[b] == s[b];
      WithKeyPair(p, key, a, b);
      var i, j :| 0 <= i < j < |w| && w[i] == s[a] && w[j] == s[b];
      var t := if key(s[|s| - 1]) == k then [s[|s| - 1]] else [];
      assert WithKey(s, key, k) == w + t;
      assert WithKey(s, key, k)[i] == s[a] && WithKey(s, key, k)[j] == s[b];
    }
  }

  /** Keeping the elements of one key keeps a strictly increasing rank strictly increasing. */
  lemma {:induction false} WithKeyRanked<T>(s: seq<T>, key: T -> int, k: int, rank: T -> int)
    requires forall a, b :: 0 <= a < b < |s| ==> rank(s[a]) < rank(s[b])
    ensures var w := WithKey(s, key, k); forall a, b :: 0 <= a < b < |w| ==> rank(w[a]) < rank(w[b])
    decreases |s|
  {
    if |s| > 0 {
      var p := s[..|s| - 1];
      var w := WithKey(p, key, k);
      WithKeyRanked(p, key, k, rank);
      if key(s[|s| - 1]) == k {
        forall a | 0 <= a < |w| ensures rank(w[a]) < rank(s[|s| - 1])
        {
          WithKeyMembers(p, key, k, w[a]);
          var i :| 0 <= i < |p| && p[i] == w[a];
        }
      }
    }
  }

  /**
   * Stability stated on positions: if the input is in strictly increasing
   * `rank`, so are any two sorted elements with the same key.
   */
  lemma SortByKeepsTieOrder<T>(s: seq<T>, key: T -> int, rank: T -> int)
    requires forall a, b :: 0 <= a < b < |s| ==> rank(s[a]) < rank(s[b])
    ensures var r := SortBy(s, key);
      forall a, b :: 0 <= a < b < |r| && key(r[a]) == key(r[b]) ==> rank(r[a]) < rank(r[b])
  {
    var r := SortBy(s, key);
    forall a, b | 0 <= a < b < |r| && key(r[a]) == key(r[b])
      ensures rank(r[a]) < rank(r[b])
    {
      var k := key(r[a]);
      SortByStable(s, key, k);
      WithKeyRanked(s, key, k, rank);
      WithKeyPair(r, key, a, b);
    }
  }
}

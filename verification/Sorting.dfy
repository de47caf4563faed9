/** Stands in for Go's sort package: sort.Slice and sort.Sort promise a sorted permutation and
    nothing about equal elements, so callers may rely on the contract of SortBy only. */
module Sorting {
  /** What sort.Slice asks of its comparator. */
  ghost predicate StrictWeakOrder<T(!new)>(less: (T, T) -> bool) {
    && (forall a, b :: less(a, b) ==> !less(b, a))
    && (forall a, b, c :: !less(a, b) && !less(b, c) ==> !less(a, c))
  }

  ghost predicate SortedBy<T>(s: seq<T>, less: (T, T) -> bool) {
    forall i, j :: 0 <= i < j < |s| ==> !less(s[j], s[i])
  }

  lemma InsertKeepsOrder<T(!new)>(t: seq<T>, j: nat, x: T, less: (T, T) -> bool)
    requires StrictWeakOrder(less) && SortedBy(t, less)
    requires j <= |t| && (j > 0 ==> !less(x, t[j - 1]))
    requires forall k :: j <= k < |t| ==> less(x, t[k])
    ensures SortedBy(t[..j] + [x] + t[j..], less)
  {
    var r := t[..j] + [x] + t[j..];
    forall a, b | 0 <= a < b < |r| ensures !less(r[b], r[a]) {
      if a < j && b == j {
        assert a < j - 1 ==> !less(t[j - 1], t[a]);
      } else if a == j {
        assert less(x, t[b - 1]);
      } else {
        var a', b' := if a < j then a else a - 1, if b < j then b else b - 1;
        assert r[a] == t[a'] && r[b] == t[b'];
      }
    }
  }

  lemma InsertAddsOne<T>(t: seq<T>, j: nat, x: T)
    requires j <= |t|
    ensures multiset(t[..j] + [x] + t[j..]) == multiset(t) + multiset{x}
  {
    assert t == t[..j] + t[j..];
  }

  method SortBy<T(!new)>(s: seq<T>, less: (T, T) -> bool) returns (t: seq<T>)
    requires StrictWeakOrder(less)
    ensures SortedBy(t, less)
    ensures multiset(t) == multiset(s)
  {
    t := [];
    for i := 0 to |s|
      invariant SortedBy(t, less)
      invariant multiset(t) == multiset(s[..i])
    {
      var j := |t|;
      while j > 0 && less(s[i], t[j - 1])
        invariant 0 <= j <= |t|
        invariant forall k :: j <= k < |t| ==> less(s[i], t[k])
      {
        j := j - 1;
      }
      assert s[..i + 1] == s[..i] + [s[i]];
      InsertKeepsOrder(t, j, s[i], less);
      InsertAddsOne(t, j, s[i]);
      t := t[..j] + [s[i]] + t[j..];
    }
    assert s[..|s|] == s;
  }

  lemma TwiceCounted<T>(s: seq<T>, i: nat, j: nat)
    requires i < j < |s| && s[i] == s[j]
    ensures multiset(s)[s[i]] >= 2
  {
    assert s == s[..i] + [s[i]] + s[i + 1..j] + [s[j]] + s[j + 1..];
  }

  ghost predicate DistinctBy<T(!new), K(!new)>(s: seq<T>, key: T -> K) {
    forall i, j :: 0 <= i < j < |s| ==> key(s[i]) != key(s[j])
  }

  lemma {:induction false} CountedOnce<T(!new), K(!new)>(s: seq<T>, key: T -> K, x: T)
    requires DistinctBy(s, key)
    ensures multiset(s)[x] <= 1
  {
    if s != [] {
      var n := |s| - 1;
      CountedOnce(s[..n], key, x);
      assert s == s[..n] + [s[n]];
      if s[n] == x { assert x !in s[..n]; }
    }
  }

  /** Reordering keeps the elements, and keys that were distinct. */
  lemma ReorderKeeps<T(!new), K(!new)>(s: seq<T>, t: seq<T>, key: T -> K)
    requires multiset(s) == multiset(t) && DistinctBy(s, key)
    ensures |t| == |s| && DistinctBy(t, key)
    ensures forall x :: x in t <==> x in s
  {
    assert |s| == |multiset(s)| == |multiset(t)| == |t|;
    forall x ensures x in t <==> x in s {
      assert x in t <==> x in multiset(t);
    }
    forall i, j | 0 <= i < j < |t| ensures key(t[i]) != key(t[j]) {
      assert t[i] in s && t[j] in s;
      var p, q :| 0 <= p < |s| && 0 <= q < |s| && s[p] == t[i] && s[q] == t[j];
      if t[i] == t[j] {
        TwiceCounted(t, i, j);
        CountedOnce(s, key, t[i]);
        assert false;
      }
    }
  }
}

/** The key order of the local store and the stable sort behind its index queries. */
module Ordering {

  /** Lexicographic order on strings by code point (a proper prefix comes first). IndexedDB
      compares string keys by UTF-16 code unit; the two orders differ only on characters
      outside the Basic Multilingual Plane, which the store's keys (UUIDs) never contain. */
  predicate Below(a: string, b: string)
    decreases |a|
  {
    if a == [] then b != []
    else if b == [] then false
    else if a[0] == b[0] then Below(a[1..], b[1..])
    else a[0] < b[0]
  }

  lemma {:induction false} BelowIrreflexive(a: string)
    ensures !Below(a, a)
    decreases |a|
  {
    if a != [] {
      BelowIrreflexive(a[1..]);
    }
  }

  lemma {:induction false} BelowTransitive(a: string, b: string, c: string)
    requires Below(a, b) && Below(b, c)
    ensures Below(a, c)
    decreases |a|
  {
    if a != [] && b != [] && c != [] && a[0] == b[0] && b[0] == c[0] {
      BelowTransitive(a[1..], b[1..], c[1..]);
    }
  }

  /** Any two distinct keys are ordered one way or the other. */
  lemma {:induction false} BelowTotal(a: string, b: string)
    requires a != b
    ensures Below(a, b) || Below(b, a)
    decreases |a|
  {
    if a != [] && b != [] && a[0] == b[0] {
      assert a == [a[0]] + a[1..] && b == [b[0]] + b[1..];
      BelowTotal(a[1..], b[1..]);
    }
  }

  ghost predicate Transitive<T(!new)>(lt: (T, T) -> bool) {
    forall a, b, c :: lt(a, b) && lt(b, c) ==> lt(a, c)
  }

  ghost predicate Irreflexive<T(!new)>(lt: (T, T) -> bool) {
    forall a :: !lt(a, a)
  }

  /** Every two positions of `s` hold elements that `lt` orders one way or the other. */
  ghost predicate ComparableOn<T>(s: seq<T>, lt: (T, T) -> bool) {
    forall i, j :: 0 <= i < j < |s| ==> lt(s[i], s[j]) || lt(s[j], s[i])
  }

  /** Every element of `s` is related by `rel` to every later one; for a strict order
      `lt`, `Pairwise(s, lt)` says that `s` is strictly increasing. */
  ghost predicate Pairwise<T>(s: seq<T>, rel: (T, T) -> bool) {
    forall i, j :: 0 <= i < j < |s| ==> rel(s[i], s[j])
  }

  /** The elements of `s` that `keep` accepts, in their order in `s`. */
  function Filter<T(!new)>(s: seq<T>, keep: T -> bool): (r: seq<T>)
    ensures |r| <= |s|
    ensures forall x :: x in r <==> x in s && keep(x)
  {
    if s == [] then []
    else
      assert s == [s[0]] + s[1..];
      if keep(s[0]) then [s[0]] + Filter(s[1..], keep) else Filter(s[1..], keep)
  }

  /** Filtering keeps every pairwise relation of the original order. */
  lemma {:induction false} FilterPairwise<T(!new)>(s: seq<T>, keep: T -> bool, rel: (T, T) -> bool)
    requires Pairwise(s, rel)
    ensures Pairwise(Filter(s, keep), rel)
  {
    if s != [] {
      var tail := s[1..];
      assert Pairwise(tail, rel) by {
        forall i, j | 0 <= i < j < |tail| ensures rel(tail[i], tail[j]) {
          assert tail[i] == s[i + 1] && tail[j] == s[j + 1];
        }
      }
      FilterPairwise(tail, keep, rel);
      if keep(s[0]) {
        var r := Filter(tail, keep);
        forall k | 0 <= k < |r| ensures rel(s[0], r[k]) {
          assert r[k] in r;
          var m :| 0 <= m < |tail| && tail[m] == r[k];
          assert s[m + 1] == r[k];
        }
      }
    }
  }

  /** A filter that keeps every element is the identity. */
  lemma {:induction false} FilterKeepsAll<T(!new)>(s: seq<T>, keep: T -> bool)
    requires forall x :: x in s ==> keep(x)
    ensures Filter(s, keep) == s
  {
    if s != [] {
      assert s == [s[0]] + s[1..];
      FilterKeepsAll(s[1..], keep);
    }
  }

  /** Puts `x` in front of the first element that is not below it. */
  function Insert<T>(x: T, s: seq<T>, lt: (T, T) -> bool): (r: seq<T>)
    ensures multiset(r) == multiset(s) + multiset{x}
  {
    if s == [] || !lt(s[0], x) then [x] + s
    else
      assert s == [s[0]] + s[1..];
      [s[0]] + Insert(x, s[1..], lt)
  }

  /** Insertion sort by `lt`. */
  function SortBy<T>(s: seq<T>, lt: (T, T) -> bool): (r: seq<T>)
    ensures multiset(r) == multiset(s)
  {
    if s == [] then []
    else
      assert s == [s[0]] + s[1..];
      Insert(s[0], SortBy(s[1..], lt), lt)
  }

  lemma {:induction false} InsertSorted<T(!new)>(x: T, s: seq<T>, lt: (T, T) -> bool)
    requires Transitive(lt)
    requires Pairwise(s, lt)
    requires forall y :: y in s ==> lt(x, y) || lt(y, x)
    ensures Pairwise(Insert(x, s, lt), lt)
  {
    if s != [] && lt(s[0], x) {
      InsertSorted(x, s[1..], lt);
      var r := Insert(x, s[1..], lt);
      forall k | 0 <= k < |r|
        ensures lt(s[0], r[k])
      {
        assert r[k] in multiset(r);
        if r[k] != x {
          assert r[k] in multiset(s[1..]);
          var m :| 0 <= m < |s[1..]| && s[1..][m] == r[k];
          assert s[1 + m] == r[k];
        }
      }
    } else if s != [] {
      assert lt(x, s[0]);
    }
  }

  /** Sorting yields a strictly increasing arrangement of the same elements. */
  lemma {:induction false} SortBySorted<T(!new)>(s: seq<T>, lt: (T, T) -> bool)
    requires Transitive(lt)
    requires ComparableOn(s, lt)
    ensures Pairwise(SortBy(s, lt), lt)
  {
    if s != [] {
      var tail := s[1..];
      assert ComparableOn(tail, lt) by {
        forall i, j | 0 <= i < j < |tail|
          ensures lt(tail[i], tail[j]) || lt(tail[j], tail[i])
        {
          assert tail[i] == s[i + 1] && tail[j] == s[j + 1];
        }
      }
      SortBySorted(tail, lt);
      forall y | y in SortBy(tail, lt)
        ensures lt(s[0], y) || lt(y, s[0])
      {
        assert y in multiset(SortBy(tail, lt));
        assert y in multiset(tail);
        var m :| 0 <= m < |tail| && tail[m] == y;
        assert s[m + 1] == y;
      }
      InsertSorted(s[0], SortBy(tail, lt), lt);
    }
  }
}

/** List operations that give SQL its meaning over a list of rows. `Filter`
    is a `WHERE` or a `DELETE ... WHERE NOT`; `Sort` and `Take` are
    `ORDER BY <key> ASC|DESC LIMIT n`:
    a permutation of the rows that is ordered by a real-valued key, cut to
    its first n elements. `Sort` is one such permutation (it keeps rows with
    equal keys in their original order); results stated through `SortedBy`
    and `multiset` hold for every tie order the database may choose. */
module Lists {

  /** The elements of `s` that satisfy `p`, in their original order. */
  function Filter<T>(s: seq<T>, p: T -> bool): (r: seq<T>)
    ensures |r| <= |s|
    ensures forall i :: 0 <= i < |r| ==> r[i] in s && p(r[i])
    ensures forall x :: x in s && p(x) ==> x in r
  {
    if s == [] then []
    else (if p(s[0]) then [s[0]] else []) + Filter(s[1..], p)
  }

  lemma {:induction false} FilterConcat<T>(a: seq<T>, b: seq<T>, p: T -> bool)
    ensures Filter(a + b, p) == Filter(a, p) + Filter(b, p)
  {
    if a == [] {
      assert a + b == b;
    } else {
      var ab := a + b;
      assert ab != [] && ab[0] == a[0] && ab[1..] == a[1..] + b;
      FilterConcat(a[1..], b, p);
    }
  }

  /** Filtering keeps everything when every element passes. */
  lemma {:induction false} FilterAll<T>(s: seq<T>, p: T -> bool)
    requires forall x :: x in s ==> p(x)
    ensures Filter(s, p) == s
  {
    if s != [] {
      FilterAll(s[1..], p);
      assert s == [s[0]] + s[1..];
    }
  }

  /** Filtering twice by the same test is filtering once. */
  lemma FilterIdempotent<T>(s: seq<T>, p: T -> bool)
    ensures Filter(Filter(s, p), p) == Filter(s, p)
  {
    FilterAll(Filter(s, p), p);
  }

  /** An element is kept or dropped, never both, never neither: the kept
      and the dropped parts add up to the whole list. */
  lemma {:induction false} FilterSplit<T>(s: seq<T>, p: T -> bool, q: T -> bool)
    requires forall x :: q(x) == !p(x)
    ensures |Filter(s, p)| + |Filter(s, q)| == |s|
  {
    if s != [] {
      FilterSplit(s[1..], p, q);
    }
  }

  predicate InOrder(x: real, y: real, asc: bool) {
    if asc then x <= y else y <= x
  }

  ghost predicate SortedBy<T>(s: seq<T>, key: T -> real, asc: bool) {
    forall i, j :: 0 <= i < j < |s| ==> InOrder(key(s[i]), key(s[j]), asc)
  }

  function InsertSorted<T(==)>(x: T, s: seq<T>, key: T -> real, asc: bool): (r: seq<T>)
    requires SortedBy(s, key, asc)
    ensures SortedBy(r, key, asc)
    ensures multiset(r) == multiset(s) + multiset{x}
  {
    if s == [] then [x]
    else if InOrder(key(x), key(s[0]), asc) then [x] + s
    else
      var t := InsertSorted(x, s[1..], key, asc);
      HeadBeforeInserted(x, s, t, key, asc);
      [s[0]] + t
  }

  lemma HeadBeforeInserted<T>(x: T, s: seq<T>, t: seq<T>, key: T -> real, asc: bool)
    requires s != [] && SortedBy(s, key, asc) && SortedBy(t, key, asc)
    requires !InOrder(key(x), key(s[0]), asc)
    requires multiset(t) == multiset(s[1..]) + multiset{x}
    ensures SortedBy([s[0]] + t, key, asc)
    ensures multiset([s[0]] + t) == multiset(s) + multiset{x}
  {
    assert s == [s[0]] + s[1..];
    forall e | e in t ensures InOrder(key(s[0]), key(e), asc) {
      assert e in multiset(t);
      if e != x {
        assert e in s[1..];
        var k :| 0 <= k < |s[1..]| && s[1..][k] == e;
        assert s[k + 1] == e;
      }
    }
    var r := [s[0]] + t;
    forall i, j | 0 <= i < j < |r| ensures InOrder(key(r[i]), key(r[j]), asc) {
      if i == 0 {
        assert r[j] == t[j - 1];
        assert r[j] in t;
      } else {
        assert r[i] == t[i - 1] && r[j] == t[j - 1];
      }
    }
  }

  /** Insertion sort: an ordered permutation of `s`. */
  function Sort<T(==)>(s: seq<T>, key: T -> real, asc: bool): (r: seq<T>)
    ensures SortedBy(r, key, asc)
    ensures multiset(r) == multiset(s)
    ensures |r| == |s|
  {
    if s == [] then []
    else
      assert s == [s[0]] + s[1..];
      InsertSorted(s[0], Sort(s[1..], key, asc), key, asc)
  }

  /** Every element of the sorted sequence comes from the input. */
  lemma SortMembers<T>(s: seq<T>, key: T -> real, asc: bool)
    ensures forall i :: 0 <= i < |Sort(s, key, asc)| ==> Sort(s, key, asc)[i] in s
  {
    var r := Sort(s, key, asc);
    forall i | 0 <= i < |r| ensures r[i] in s {
      assert r[i] in multiset(r);
    }
  }

  /** `LIMIT n`. */
  function Take<T>(s: seq<T>, n: nat): (r: seq<T>)
    ensures |r| == if n < |s| then n else |s|
    ensures r == s[..|r|]
  {
    if n < |s| then s[..n] else s
  }

  /** `LIMIT n` keeps no element more often than the input has it. */
  lemma TakeSubMultiset<T>(s: seq<T>, n: nat)
    ensures multiset(Take(s, n)) <= multiset(s)
  {
    var r := Take(s, n);
    assert s == r + s[|r|..];
  }

  predicate NoDup<T(==)>(s: seq<T>) {
    forall i, j :: 0 <= i < j < |s| ==> s[i] != s[j]
  }

  /** A list has no repeated element exactly when its multiset counts every
      element at most once. */
  lemma {:induction false} NoDupCounts<T>(s: seq<T>)
    ensures NoDup(s) <==> forall x :: multiset(s)[x] <= 1
  {
    if s != [] {
      var h, t := s[0], s[1..];
      assert s == [h] + t;
      NoDupCounts(t);
      if NoDup(s) {
        assert h !in t;
        assert NoDup(t) by {
          forall i, j | 0 <= i < j < |t| ensures t[i] != t[j] {
            assert s[i + 1] != s[j + 1];
          }
        }
      }
      if forall x :: multiset(s)[x] <= 1 {
        assert forall x :: multiset(t)[x] <= 1 by {
          forall x ensures multiset(t)[x] <= 1 {
            assert multiset(s)[x] == multiset{h}[x] + multiset(t)[x];
          }
        }
        assert multiset(s)[h] == 1 + multiset(t)[h];
        assert h !in t;
        forall i, j | 0 <= i < j < |s| ensures s[i] != s[j] {
          if i == 0 {
            assert s[j] == t[j - 1];
          } else {
            assert s[i] == t[i - 1] && s[j] == t[j - 1];
          }
        }
      }
    }
  }

  /** Reordering a list with no repeats leaves it without repeats. */
  lemma PermutationNoDup<T>(a: seq<T>, b: seq<T>)
    requires multiset(a) == multiset(b)
    requires NoDup(a)
    ensures NoDup(b)
  {
    NoDupCounts(a);
    NoDupCounts(b);
  }

  /** In an ordered list, every element of the first n is at least as far
      forward in the order as every element outside them: the `LIMIT n` of
      an `ORDER BY` holds the n extreme rows. */
  lemma PrefixDominates<T>(s: seq<T>, key: T -> real, asc: bool, n: nat, x: T)
    requires SortedBy(s, key, asc)
    requires x in s && x !in Take(s, n)
    ensures forall i :: 0 <= i < |Take(s, n)| ==> InOrder(key(s[i]), key(x), asc)
  {
    var k :| 0 <= k < |s| && s[k] == x;
    assert k >= |Take(s, n)|;
  }
  /** Filtering a list with no repeats leaves one with no repeats. */
  lemma {:induction false} FilterNoDup<T>(s: seq<T>, p: T -> bool)
    requires NoDup(s)
    ensures NoDup(Filter(s, p))
  {
    if s != [] {
      var h, t := s[0], s[1..];
      assert NoDup(t) by {
        forall i, j | 0 <= i < j < |t| ensures t[i] != t[j] {
          assert s[i + 1] != s[j + 1];
        }
      }
      assert h !in t by {
        forall k | 0 <= k < |t| ensures t[k] != h {
          assert s[k + 1] != s[0];
        }
      }
      FilterNoDup(t, p);
      var ft := Filter(t, p);
      var r := Filter(s, p);
      assert r == (if p(h) then [h] else []) + ft;
      if p(h) {
        forall i, j | 0 <= i < j < |r| ensures r[i] != r[j] {
          assert r[j] == ft[j - 1];
          if i > 0 {
            assert r[i] == ft[i - 1];
          }
        }
      }
    }
  }

  /** Two orderings of the same elements have the same number of elements
      passing any test. */
  lemma {:induction false} FilterCountPermutation<T>(a: seq<T>, b: seq<T>, p: T -> bool)
    requires multiset(a) == multiset(b)
    ensures |Filter(a, p)| == |Filter(b, p)|
    decreases |a|
  {
    if a == [] {
      assert |b| == |multiset(b)| == 0;
    } else {
      var h := a[0];
      assert h in multiset(b);
      var k :| 0 <= k < |b| && b[k] == h;
      var rest := b[..k] + b[k + 1..];
      MultisetRemove(b, k);
      assert a == [h] + a[1..];
      assert multiset(a[1..]) == multiset(a) - multiset{h};
      FilterCountPermutation(a[1..], rest, p);
      FilterConcat([h], a[1..], p);
      FilterRemove(b, k, p);
    }
  }

  /** Taking out the element at k takes one copy of it out of the multiset. */
  lemma MultisetRemove<T>(b: seq<T>, k: nat)
    requires k < |b|
    ensures multiset(b[..k] + b[k + 1..]) == multiset(b) - multiset{b[k]}
  {
    assert b == b[..k] + ([b[k]] + b[k + 1..]);
  }

  /** Taking out the element at k takes one out of the filtered count
      exactly when that element passes. */
  lemma FilterRemove<T>(b: seq<T>, k: nat, p: T -> bool)
    requires k < |b|
    ensures |Filter(b, p)| == |Filter(b[..k] + b[k + 1..], p)| + (if p(b[k]) then 1 else 0)
  {
    assert b == b[..k] + ([b[k]] + b[k + 1..]);
    FilterConcat(b[..k], [b[k]] + b[k + 1..], p);
    FilterConcat([b[k]], b[k + 1..], p);
    FilterConcat(b[..k], b[k + 1..], p);
  }

  /** A list none of whose elements passes filters to nothing. */
  lemma {:induction false} FilterNone<T>(s: seq<T>, p: T -> bool)
    requires forall i :: 0 <= i < |s| ==> !p(s[i])
    ensures Filter(s, p) == []
  {
    if s != [] {
      assert !p(s[0]);
      FilterNone(s[1..], p);
    }
  }
  /** `WHERE keep ORDER BY key DESC LIMIT limit` over a list: as many
      elements as `LIMIT` lets through, min(limit, qualifying). */
  function TopBy<T(==)>(s: seq<T>, keep: T -> bool, key: T -> real, limit: nat): (r: seq<T>)
    ensures |r| == if limit < |Filter(s, keep)| then limit else |Filter(s, keep)|
    ensures forall i :: 0 <= i < |r| ==> r[i] in s && keep(r[i])
    ensures forall i, j :: 0 <= i < j < |r| ==> key(r[j]) <= key(r[i])
  {
    var kept := Filter(s, keep);
    var sorted := Sort(kept, key, false);
    TakeRanked(s, keep, kept, sorted, key, limit);
    Take(sorted, limit)
  }

  /** The first `limit` of a descending ordering of qualifying elements are
      qualifying elements, in descending order. */
  lemma TakeRanked<T>(s: seq<T>, keep: T -> bool, kept: seq<T>, sorted: seq<T>, key: T -> real, limit: nat)
    requires forall i :: 0 <= i < |kept| ==> kept[i] in s && keep(kept[i])
    requires multiset(sorted) == multiset(kept) && SortedBy(sorted, key, false)
    ensures |Take(sorted, limit)| == if limit < |kept| then limit else |kept|
    ensures forall i :: 0 <= i < |Take(sorted, limit)| ==> Take(sorted, limit)[i] in s && keep(Take(sorted, limit)[i])
    ensures forall i, j :: 0 <= i < j < |Take(sorted, limit)| ==> key(Take(sorted, limit)[j]) <= key(Take(sorted, limit)[i])
  {
    var r := Take(sorted, limit);
    assert |sorted| == |multiset(sorted)| == |kept|;
    forall i | 0 <= i < |r| ensures r[i] in s && keep(r[i]) {
      assert r[i] == sorted[i];
      assert sorted[i] in multiset(kept);
    }
    forall i, j | 0 <= i < j < |r| ensures key(r[j]) <= key(r[i]) {
      assert r[i] == sorted[i] && r[j] == sorted[j];
      assert InOrder(key(sorted[i]), key(sorted[j]), false);
    }
  }

  /** Ranking a list without repeats lists nothing twice. */
  lemma TopByNoDup<T>(s: seq<T>, keep: T -> bool, key: T -> real, limit: nat)
    requires NoDup(s)
    ensures NoDup(TopBy(s, keep, key, limit))
  {
    var kept := Filter(s, keep);
    FilterNoDup(s, keep);
    var sorted := Sort(kept, key, false);
    PermutationNoDup(kept, sorted);
    var r := TopBy(s, keep, key, limit);
    forall i, j | 0 <= i < j < |r| ensures r[i] != r[j] {
      assert r[i] == sorted[i] && r[j] == sorted[j];
    }
  }

  /** An element that qualifies but is not listed ranks no higher than any
      listed one. */
  lemma TopByDominates<T>(s: seq<T>, keep: T -> bool, key: T -> real, limit: nat, x: T)
    requires x in s && keep(x) && x !in TopBy(s, keep, key, limit)
    ensures forall i :: 0 <= i < |TopBy(s, keep, key, limit)| ==> key(x) <= key(TopBy(s, keep, key, limit)[i])
  {
    var kept := Filter(s, keep);
    var sorted := Sort(kept, key, false);
    assert x in multiset(kept);
    assert x in sorted;
    PrefixDominates(sorted, key, false, limit, x);
  }

  /** When no more than `limit` elements qualify, all of them are listed. */
  lemma TopByComplete<T>(s: seq<T>, keep: T -> bool, key: T -> real, limit: nat, x: T)
    requires x in s && keep(x) && |Filter(s, keep)| <= limit
    ensures x in TopBy(s, keep, key, limit)
  {
    var kept := Filter(s, keep);
    var sorted := Sort(kept, key, false);
    assert x in multiset(kept);
    assert TopBy(s, keep, key, limit) == sorted;
  }
}

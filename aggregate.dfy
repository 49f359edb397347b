/** The query primitives that every report of the backend is built from, over an
    in-memory table: `filter(...)`, `aggregate(Sum(...))` with `or 0` for an
    empty set, `count()`, and `values(key).annotate(total=Sum(...)).order_by('-total')`. */
module Aggregate {

  /** `queryset.filter(p)`: the rows that satisfy `p`, in table order. */
  function Filter<T(!new)>(s: seq<T>, p: T -> bool): (r: seq<T>)
    ensures |r| <= |s|
    ensures forall x :: x in r <==> x in s && p(x)
  {
    if s == [] then []
    else if p(s[0]) then [s[0]] + Filter(s[1..], p)
    else Filter(s[1..], p)
  }

  /** `aggregate(total=Sum(f))['total'] or 0`. */
  function Sum<T>(s: seq<T>, f: T -> int): int {
    if s == [] then 0 else f(s[0]) + Sum(s[1..], f)
  }

  /** `queryset.filter(p).count()`. */
  function Count<T(!new)>(s: seq<T>, p: T -> bool): nat {
    |Filter(s, p)|
  }

  /** A prefix one longer is the shorter prefix and the next element. */
  lemma SnocAssoc<T>(a: seq<T>, b: seq<T>, x: T)
    ensures (a + b) + [x] == a + (b + [x])
  {
  }

  lemma PrefixSnoc<T>(s: seq<T>, k: nat)
    requires k < |s|
    ensures s[..k + 1] == s[..k] + [s[k]]
  {
  }

  lemma {:induction false} SumAppend<T(!new)>(s: seq<T>, t: seq<T>, f: T -> int)
    ensures Sum(s + t, f) == Sum(s, f) + Sum(t, f)
  {
    if s == [] {
      assert s + t == t;
    } else {
      assert (s + t)[0] == s[0] && (s + t)[1..] == s[1..] + t;
      SumAppend(s[1..], t, f);
    }
  }

  lemma {:induction false} FilterAppend<T(!new)>(s: seq<T>, t: seq<T>, p: T -> bool)
    ensures Filter(s + t, p) == Filter(s, p) + Filter(t, p)
  {
    if s == [] {
      assert s + t == t;
    } else {
      assert (s + t)[0] == s[0] && (s + t)[1..] == s[1..] + t;
      FilterAppend(s[1..], t, p);
    }
  }

  /** A filter and its negation split the table between them. */
  lemma {:induction false} FilterComplement<T(!new)>(s: seq<T>, p: T -> bool, q: T -> bool)
    requires forall x :: x in s ==> q(x) == !p(x)
    ensures |Filter(s, p)| + |Filter(s, q)| == |s|
  {
    if s != [] {
      FilterComplement(s[1..], p, q);
    }
  }

  /** Every summand is non-negative, so is the sum. */
  lemma {:induction false} SumNonNegative<T(!new)>(s: seq<T>, f: T -> int)
    requires forall x :: x in s ==> f(x) >= 0
    ensures Sum(s, f) >= 0
  {
    if s != [] {
      SumNonNegative(s[1..], f);
    }
  }

  /** Two filters that agree on every row select the same rows. */
  lemma {:induction false} FilterSame<T(!new)>(s: seq<T>, p: T -> bool, q: T -> bool)
    requires forall x :: x in s ==> p(x) == q(x)
    ensures Filter(s, p) == Filter(s, q)
  {
    if s != [] {
      FilterSame(s[1..], p, q);
    }
  }

  /** A filter that no row satisfies selects nothing. */
  lemma {:induction false} FilterNone<T(!new)>(s: seq<T>, p: T -> bool)
    requires forall x :: x in s ==> !p(x)
    ensures Filter(s, p) == []
  {
    if s != [] {
      FilterNone(s[1..], p);
    }
  }

  /** A filter that every row satisfies selects the whole table. */
  lemma {:induction false} FilterAll<T(!new)>(s: seq<T>, p: T -> bool)
    requires forall x :: x in s ==> p(x)
    ensures Filter(s, p) == s
  {
    if s != [] {
      FilterAll(s[1..], p);
      assert s == [s[0]] + s[1..];
    }
  }

  /** Chained filters: `filter(p).filter(q)` is `filter(p and q)`. */
  lemma {:induction false} FilterFilter<T(!new)>(s: seq<T>, p: T -> bool, q: T -> bool, pq: T -> bool)
    requires forall x :: pq(x) == (p(x) && q(x))
    ensures Filter(Filter(s, p), q) == Filter(s, pq)
  {
    if s != [] {
      FilterFilter(s[1..], p, q, pq);
    }
  }

  /** Splitting a filter into two disjoint filters splits its sum. */
  lemma {:induction false} SumPartition<T(!new)>(s: seq<T>, p: T -> bool, q: T -> bool, r: T -> bool, f: T -> int)
    requires forall x :: p(x) == (q(x) || r(x))
    requires forall x :: !(q(x) && r(x))
    ensures Sum(Filter(s, p), f) == Sum(Filter(s, q), f) + Sum(Filter(s, r), f)
    ensures Count(s, p) == Count(s, q) + Count(s, r)
  {
    if s != [] {
      SumPartition(s[1..], p, q, r, f);
    }
  }

  /** Summing a filtered table is summing the table with the rows that fail the filter counted as 0. */
  lemma {:induction false} SumFilterMasked<T(!new)>(s: seq<T>, p: T -> bool, f: T -> int, g: T -> int)
    requires forall x :: g(x) == (if p(x) then f(x) else 0)
    ensures Sum(Filter(s, p), f) == Sum(s, g)
  {
    if s != [] {
      SumFilterMasked(s[1..], p, f, g);
    }
  }

  /** Sums of two row functions add up. */
  lemma {:induction false} SumLinear<T(!new)>(s: seq<T>, f: T -> int, g: T -> int, h: T -> int)
    requires forall x :: h(x) == f(x) - g(x)
    ensures Sum(s, h) == Sum(s, f) - Sum(s, g)
  {
    if s != [] {
      SumLinear(s[1..], f, g, h);
    }
  }

  // ---------------------------------------------------------------------
  // values(key).annotate(total=Sum(f)).order_by('-total')

  /** The distinct keys that occur in the table. */
  function Keys<T(!new), K(==)>(s: seq<T>, key: T -> K): (ks: seq<K>)
    ensures forall x :: x in s ==> key(x) in ks
    ensures forall k :: k in ks ==> exists x :: x in s && key(x) == k
    ensures forall i, j :: 0 <= i < j < |ks| ==> ks[i] != ks[j]
  {
    if s == [] then []
    else
      var rest := Keys(s[1..], key);
      if key(s[0]) in rest then rest else [key(s[0])] + rest
  }

  /** The total of the rows that carry key `k`. */
  function KeyTotal<T(!new), K(==)>(s: seq<T>, key: T -> K, f: T -> int, k: K): int {
    Sum(Filter(s, x => key(x) == k), f)
  }

  /** One `(key, total)` row per distinct key. */
  function GroupTotals<T(!new), K(==)>(s: seq<T>, key: T -> K, f: T -> int): (g: seq<(K, int)>)
    ensures |g| == |Keys(s, key)|
    ensures forall i :: 0 <= i < |g| ==>
      g[i].0 == Keys(s, key)[i] && g[i].1 == KeyTotal(s, key, f, g[i].0)
  {
    var ks := Keys(s, key);
    seq(|ks|, i requires 0 <= i < |ks| => (ks[i], KeyTotal(s, key, f, ks[i])))
  }

  /** `order_by(rank)`: ranks non-decreasing along the sequence. */
  predicate SortedBy<T>(s: seq<T>, rank: T -> int) {
    forall i, j :: 0 <= i < j < |s| ==> rank(s[i]) <= rank(s[j])
  }

  lemma SortedCons<T>(h: T, tail: seq<T>, rank: T -> int)
    requires SortedBy(tail, rank)
    requires forall k :: 0 <= k < |tail| ==> rank(h) <= rank(tail[k])
    ensures SortedBy([h] + tail, rank)
  {
  }

  function InsertBy<T>(x: T, s: seq<T>, rank: T -> int): (r: seq<T>)
    requires SortedBy(s, rank)
    ensures SortedBy(r, rank)
    ensures multiset(r) == multiset(s) + multiset{x}
  {
    if s == [] then [x]
    else if rank(x) <= rank(s[0]) then
      SortedCons(x, s, rank);
      [x] + s
    else
      var tail := InsertBy(x, s[1..], rank);
      assert s == [s[0]] + s[1..];
      assert forall k :: 0 <= k < |tail| ==> rank(s[0]) <= rank(tail[k]) by {
        forall k | 0 <= k < |tail| ensures rank(s[0]) <= rank(tail[k]) {
          assert tail[k] in multiset(tail);
          assert tail[k] in multiset(s[1..]) || tail[k] == x;
        }
      }
      SortedCons(s[0], tail, rank);
      [s[0]] + tail
  }

  /** A stable insertion sort: a permutation of `s` with ranks non-decreasing. */
  function SortBy<T>(s: seq<T>, rank: T -> int): (r: seq<T>)
    ensures SortedBy(r, rank)
    ensures multiset(r) == multiset(s)
  {
    if s == [] then []
    else
      assert s == [s[0]] + s[1..];
      InsertBy(s[0], SortBy(s[1..], rank), rank)
  }

  /** `queryset[:n]`. */
  function Take<T>(s: seq<T>, n: nat): (r: seq<T>)
    ensures |r| == if |s| <= n then |s| else n
    ensures r == s[..|r|]
  {
    if |s| <= n then s else s[..n]
  }

  /** The first `n` rows of a sorted table come from the table and are in order. */
  lemma TakeSortBy<T>(s: seq<T>, rank: T -> int, n: nat)
    ensures var r := Take(SortBy(s, rank), n);
      SortedBy(r, rank) && forall x :: x in r ==> x in s
  {
    var sorted := SortBy(s, rank);
    var r := Take(sorted, n);
    forall x | x in r
      ensures x in s
    {
      assert x in multiset(sorted);
    }
  }

  /** An element of the table is either among the first `n` sorted rows, or there are
      `n` of them and none ranks above it. */
  lemma TakeSortByEarliest<T>(s: seq<T>, rank: T -> int, n: nat, x: T)
    requires x in s
    ensures var r := Take(SortBy(s, rank), n);
      x in r || (|r| == n && forall k :: 0 <= k < |r| ==> rank(r[k]) <= rank(x))
  {
    var sorted := SortBy(s, rank);
    var r := Take(sorted, n);
    assert x in multiset(s);
    assert x in sorted;
    var j :| 0 <= j < |sorted| && sorted[j] == x;
    if j < |r| {
      assert r[j] == x;
    } else {
      forall k | 0 <= k < |r|
        ensures rank(r[k]) <= rank(x)
      {
        assert r[k] == sorted[k];
      }
    }
  }

  /** `s` back to front. */
  function Reversed<T>(s: seq<T>): (r: seq<T>)
    ensures |r| == |s| && forall i :: 0 <= i < |s| ==> r[i] == s[|s| - 1 - i]
    ensures multiset(r) == multiset(s)
  {
    if s == [] then []
    else
      assert s == [s[0]] + s[1..];
      Reversed(s[1..]) + [s[0]]
  }

  /** The first `n` by rank are as many as there are, up to `n`, drawn from `s`, and
      every element left out ranks no lower than every element taken. */
  lemma TakeSortByFirst<T>(s: seq<T>, rank: T -> int, n: nat)
    ensures var r := Take(SortBy(s, rank), n);
      |r| == (if |s| <= n then |s| else n) &&
      multiset(r) <= multiset(s) &&
      forall x :: x in s && x !in r ==> forall k :: 0 <= k < |r| ==> rank(r[k]) <= rank(x)
  {
    var sorted := SortBy(s, rank);
    var r := Take(sorted, n);
    assert |sorted| == |multiset(sorted)| == |multiset(s)| == |s|;
    assert sorted == r + sorted[|r|..];
    assert multiset(sorted) == multiset(r) + multiset(sorted[|r|..]);
    forall x | x in s && x !in r
      ensures forall k :: 0 <= k < |r| ==> rank(r[k]) <= rank(x)
    {
      TakeSortByEarliest(s, rank, n, x);
    }
  }

  predicate SortedDesc<K>(g: seq<(K, int)>) {
    forall i, j :: 0 <= i < j < |g| ==> g[i].1 >= g[j].1
  }
  /** The first `n` rows of a table sorted by descending total are still sorted and
      come from the table. */
  lemma TakeSortedDesc<K>(g: seq<(K, int)>, n: nat)
    requires SortedDesc(g)
    ensures SortedDesc(Take(g, n)) && forall x :: x in Take(g, n) ==> x in g
  {
  }


  /** The grouped, summed and ordered rows of a table. */
  function GroupByTotalDesc<T(!new), K(==)>(s: seq<T>, key: T -> K, f: T -> int): (r: seq<(K, int)>)
    ensures SortedDesc(r)
    ensures multiset(r) == multiset(GroupTotals(s, key, f))
  {
    var r := SortBy(GroupTotals(s, key, f), (row: (K, int)) => -row.1);
    assert forall i, j :: 0 <= i < j < |r| ==> -r[i].1 <= -r[j].1;
    r
  }

  /** Each output row of a grouping carries one key of the table and the sum of that key's rows;
      every key of the table has a row and no key has two. */
  lemma GroupByTotalDescRows<T(!new), K>(s: seq<T>, key: T -> K, f: T -> int)
    ensures forall row :: row in GroupByTotalDesc(s, key, f) ==>
      row.1 == KeyTotal(s, key, f, row.0) && exists x :: x in s && key(x) == row.0
    ensures forall x :: x in s ==> exists row :: row in GroupByTotalDesc(s, key, f) && row.0 == key(x)
    ensures |GroupByTotalDesc(s, key, f)| == |Keys(s, key)|
  {
    var g := GroupTotals(s, key, f);
    var r := GroupByTotalDesc(s, key, f);
    assert |r| == |multiset(r)| == |multiset(g)| == |g|;
    forall row | row in r
      ensures row.1 == KeyTotal(s, key, f, row.0) && exists x :: x in s && key(x) == row.0
    {
      assert row in multiset(g);
      var i :| 0 <= i < |g| && g[i] == row;
      assert row.0 in Keys(s, key);
    }
    forall x | x in s
      ensures exists row :: row in r && row.0 == key(x)
    {
      var ks := Keys(s, key);
      var i :| 0 <= i < |ks| && ks[i] == key(x);
      assert g[i] in multiset(r);
    }
  }

  /** A row of a list sorted by total is among its first `n`, or the first `n` all
      have totals at least the row's. */
  lemma TakeDescCovers<K>(g: seq<(K, int)>, n: nat, row: (K, int))
    requires SortedDesc(g) && row in g
    ensures var t := Take(g, n);
      row in t || (|t| == n && forall k :: 0 <= k < |t| ==> t[k].1 >= row.1)
  {
    var t := Take(g, n);
    var j :| 0 <= j < |g| && g[j] == row;
    if j < |t| {
      assert t[j] == row;
    } else {
      forall k | 0 <= k < |t|
        ensures t[k].1 >= row.1
      {
        assert t[k] == g[k];
      }
    }
  }

  /** The first `n` groups by total: a key of `s` is listed, or `n` groups are listed
      and each has a total at least that key's. */
  lemma TakeGroupByTotalDescCovers<T(!new), K>(s: seq<T>, key: T -> K, f: T -> int, n: nat)
    ensures var t := Take(GroupByTotalDesc(s, key, f), n);
      |t| == (if |Keys(s, key)| <= n then |Keys(s, key)| else n) &&
      forall x :: x in s ==>
        (exists row :: row in t && row.0 == key(x)) ||
        (|t| == n && forall k :: 0 <= k < |t| ==> t[k].1 >= KeyTotal(s, key, f, key(x)))
  {
    var g := GroupByTotalDesc(s, key, f);
    var t := Take(g, n);
    GroupByTotalDescRows(s, key, f);
    forall x | x in s
      ensures (exists row :: row in t && row.0 == key(x)) ||
        (|t| == n && forall k :: 0 <= k < |t| ==> t[k].1 >= KeyTotal(s, key, f, key(x)))
    {
      var row :| row in g && row.0 == key(x);
      TakeDescCovers(g, n, row);
    }
  }

  /** The grouped and summed rows of a table ordered by their key's rank, ascending. */
  function GroupByKeyAsc<T(!new), K(==)>(s: seq<T>, key: T -> K, f: T -> int, rank: K -> int): (r: seq<(K, int)>)
    ensures forall i, j :: 0 <= i < j < |r| ==> rank(r[i].0) <= rank(r[j].0)
    ensures multiset(r) == multiset(GroupTotals(s, key, f))
  {
    var r := SortBy(GroupTotals(s, key, f), (row: (K, int)) => rank(row.0));
    assert forall i, j :: 0 <= i < j < |r| ==> rank(r[i].0) <= rank(r[j].0);
    r
  }

  /** As for `GroupByTotalDescRows`: one row per key of the table, carrying that key's total. */
  lemma GroupByKeyAscRows<T(!new), K>(s: seq<T>, key: T -> K, f: T -> int, rank: K -> int)
    ensures forall row :: row in GroupByKeyAsc(s, key, f, rank) ==>
      row.1 == KeyTotal(s, key, f, row.0) && exists x :: x in s && key(x) == row.0
    ensures forall x :: x in s ==> exists row :: row in GroupByKeyAsc(s, key, f, rank) && row.0 == key(x)
    ensures |GroupByKeyAsc(s, key, f, rank)| == |Keys(s, key)|
  {
    var g := GroupTotals(s, key, f);
    var r := GroupByKeyAsc(s, key, f, rank);
    assert |r| == |multiset(r)| == |multiset(g)| == |g|;
    forall row | row in r
      ensures row.1 == KeyTotal(s, key, f, row.0) && exists x :: x in s && key(x) == row.0
    {
      assert row in multiset(g);
      var i :| 0 <= i < |g| && g[i] == row;
      assert row.0 in Keys(s, key);
    }
    forall x | x in s
      ensures exists row :: row in r && row.0 == key(x)
    {
      var ks := Keys(s, key);
      var i :| 0 <= i < |ks| && ks[i] == key(x);
      assert g[i] in multiset(r);
    }
  }
}

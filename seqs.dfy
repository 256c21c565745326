/** Sequence operations that the screens use the way JavaScript uses `filter`,
    `reduce` and a stable `sort`, with the facts about them that the rest of
    the model relies on. */
module Seqs {

  /** The elements of `s` that satisfy `p`, in their order in `s`
      (JavaScript's `Array.prototype.filter`). */
  function Filter<T>(s: seq<T>, p: T -> bool): (r: seq<T>)
    ensures |r| <= |s|
  {
    if s == [] then []
    else
      var r := Filter(s[..|s| - 1], p);
      if p(s[|s| - 1]) then r + [s[|s| - 1]] else r
  }

  /** An element is kept exactly when it occurs in `s` and satisfies `p`. */
  lemma {:induction false} FilterMembers<T>(s: seq<T>, p: T -> bool)
    ensures forall x :: x in Filter(s, p) ==> x in s && p(x)
    ensures forall x :: x in s && p(x) ==> x in Filter(s, p)
    ensures multiset(Filter(s, p)) <= multiset(s)
  {
    if s != [] {
      var n := |s| - 1;
      FilterMembers(s[..n], p);
      assert s == s[..n] + [s[n]];
    }
  }

  /** The positions of `s` that `Filter(s, p)` keeps: strictly increasing,
      exactly the positions whose element satisfies `p`. That the result of
      a filter is a subsequence of its input is what this says. */
  function FilterPositions<T>(s: seq<T>, p: T -> bool): (idx: seq<nat>)
    ensures |idx| == |Filter(s, p)|
    ensures forall k :: 0 <= k < |idx| ==> idx[k] < |s| && s[idx[k]] == Filter(s, p)[k]
    ensures forall k, l :: 0 <= k < l < |idx| ==> idx[k] < idx[l]
  {
    if s == [] then []
    else
      var n := |s| - 1;
      var idx := FilterPositions(s[..n], p);
      assert forall k :: 0 <= k < |idx| ==> s[idx[k]] == s[..n][idx[k]];
      if p(s[n]) then
        assert Filter(s, p) == Filter(s[..n], p) + [s[n]];
        idx + [n]
      else
        assert Filter(s, p) == Filter(s[..n], p);
        idx
  }

  /** Every position whose element satisfies `p` is kept. */
  lemma {:induction false} FilterPositionsComplete<T>(s: seq<T>, p: T -> bool, i: nat)
    requires i < |s| && p(s[i])
    ensures i in FilterPositions(s, p)
  {
    var n := |s| - 1;
    var idx := FilterPositions(s[..n], p);
    assert FilterPositions(s, p) == if p(s[n]) then idx + [n] else idx;
    if i < n {
      assert s[..n][i] == s[i];
      FilterPositionsComplete(s[..n], p, i);
      assert i in idx;
    }
  }

  /** `idx` lists increasing positions of `s` at which `r` is found. */
  ghost predicate Embeds<T>(idx: seq<nat>, r: seq<T>, s: seq<T>)
  {
    && |idx| == |r|
    && (forall k :: 0 <= k < |idx| ==> idx[k] < |s| && s[idx[k]] == r[k])
    && (forall k, l :: 0 <= k < l < |idx| ==> idx[k] < idx[l])
  }

  /** `r` is `s` with some elements dropped and the rest in their order. */
  ghost predicate IsSubsequence<T>(r: seq<T>, s: seq<T>)
  {
    exists idx: seq<nat> :: Embeds(idx, r, s)
  }

  /** A filter keeps the relative order of what it keeps. */
  lemma FilterIsSubsequence<T>(s: seq<T>, p: T -> bool)
    ensures IsSubsequence(Filter(s, p), s)
  {
    assert Embeds(FilterPositions(s, p), Filter(s, p), s);
  }

  lemma {:induction false} FilterAppend<T>(a: seq<T>, b: seq<T>, p: T -> bool)
    ensures Filter(a + b, p) == Filter(a, p) + Filter(b, p)
    decreases |b|
  {
    if b == [] {
      assert a + b == a;
    } else {
      var n := |b| - 1;
      assert (a + b)[..|a + b| - 1] == a + b[..n];
      FilterAppend(a, b[..n], p);
    }
  }

  /** A filter and the filter by the negated test split `s` in two: every
      element lands in exactly one of them. */
  lemma {:induction false} FilterPartition<T>(s: seq<T>, p: T -> bool, q: T -> bool)
    requires forall x :: q(x) == !p(x)
    ensures multiset(Filter(s, p)) + multiset(Filter(s, q)) == multiset(s)
  {
    if s != [] {
      var n := |s| - 1;
      FilterPartition(s[..n], p, q);
      assert s == s[..n] + [s[n]];
      assert multiset(s) == multiset(s[..n]) + multiset{s[n]};
      if p(s[n]) {
        assert Filter(s, p) == Filter(s[..n], p) + [s[n]];
        assert Filter(s, q) == Filter(s[..n], q);
      } else {
        assert Filter(s, q) == Filter(s[..n], q) + [s[n]];
        assert Filter(s, p) == Filter(s[..n], p);
      }
    }
  }

  lemma {:induction false} FilterPartitionCount<T>(s: seq<T>, p: T -> bool, q: T -> bool)
    requires forall x :: q(x) == !p(x)
    ensures |Filter(s, p)| + |Filter(s, q)| == |s|
  {
    if s != [] {
      var n := |s| - 1;
      FilterPartitionCount(s[..n], p, q);
      if p(s[n]) {
        assert Filter(s, p) == Filter(s[..n], p) + [s[n]];
        assert Filter(s, q) == Filter(s[..n], q);
      } else {
        assert Filter(s, q) == Filter(s[..n], q) + [s[n]];
        assert Filter(s, p) == Filter(s[..n], p);
      }
    }
  }

  lemma FilterSingleton<T>(x: T, p: T -> bool)
    ensures Filter([x], p) == if p(x) then [x] else []
  {
    assert [x][..0] == [];
  }

  /** Filtering by a weaker test keeps at least the same elements. */
  lemma {:induction false} FilterMonotone<T>(s: seq<T>, p: T -> bool, q: T -> bool)
    requires forall x :: p(x) ==> q(x)
    ensures multiset(Filter(s, p)) <= multiset(Filter(s, q))
  {
    if s != [] {
      FilterMonotone(s[..|s| - 1], p, q);
    }
  }

  /** `s.reduce((sum, x) => sum + f(x), 0)`. */
  function SumOf<T>(s: seq<T>, f: T -> int): int
  {
    if s == [] then 0 else SumOf(s[..|s| - 1], f) + f(s[|s| - 1])
  }

  lemma {:induction false} SumOfAppend<T>(a: seq<T>, b: seq<T>, f: T -> int)
    ensures SumOf(a + b, f) == SumOf(a, f) + SumOf(b, f)
    decreases |b|
  {
    if b == [] {
      assert a + b == a;
    } else {
      var n := |b| - 1;
      assert (a + b)[..|a + b| - 1] == a + b[..n];
      SumOfAppend(a, b[..n], f);
    }
  }

  lemma {:induction false} SumOfNonNegative<T>(s: seq<T>, f: T -> int)
    requires forall x :: x in s ==> f(x) >= 0
    ensures SumOf(s, f) >= 0
  {
    if s != [] {
      var n := |s| - 1;
      assert forall x :: x in s[..n] ==> x in s;
      SumOfNonNegative(s[..n], f);
    }
  }

  /** Summing over a filter is summing over everything with the rejected
      elements counted as zero. */
  lemma {:induction false} SumOfFilter<T>(s: seq<T>, p: T -> bool, f: T -> int, g: T -> int)
    requires forall x :: g(x) == if p(x) then f(x) else 0
    ensures SumOf(Filter(s, p), f) == SumOf(s, g)
  {
    if s != [] {
      var n := |s| - 1;
      SumOfFilter(s[..n], p, f, g);
      if p(s[n]) {
        assert (Filter(s[..n], p) + [s[n]])[..|Filter(s, p)| - 1] == Filter(s[..n], p);
      }
    }
  }

  /** Summing a non-negative `f` over a filter by a stronger test gives at
      most the sum over the filter by a weaker one. */
  lemma {:induction false} SumOfFilterMonotone<T>(s: seq<T>, p: T -> bool, q: T -> bool, f: T -> int)
    requires forall x :: p(x) ==> q(x)
    requires forall x :: x in s ==> f(x) >= 0
    ensures SumOf(Filter(s, p), f) <= SumOf(Filter(s, q), f)
  {
    if s != [] {
      var n := |s| - 1;
      assert forall x :: x in s[..n] ==> x in s;
      SumOfFilterMonotone(s[..n], p, q, f);
      var fp, fq := Filter(s[..n], p), Filter(s[..n], q);
      if p(s[n]) {
        assert (fp + [s[n]])[..|fp|] == fp;
        assert (fq + [s[n]])[..|fq|] == fq;
      } else if q(s[n]) {
        assert (fq + [s[n]])[..|fq|] == fq;
      }
    }
  }

  /** Number of occurrences of `x` in `s`. */
  function Count<T(==)>(s: seq<T>, x: T): (c: nat)
    ensures c > 0 <==> x in s
    ensures c <= |s|
  {
    if s == [] then 0
    else
      var n := |s| - 1;
      assert s == s[..n] + [s[n]];
      Count(s[..n], x) + if s[n] == x then 1 else 0
  }

  lemma {:induction false} CountAppend<T>(a: seq<T>, b: seq<T>, x: T)
    ensures Count(a + b, x) == Count(a, x) + Count(b, x)
    decreases |b|
  {
    if b == [] {
      assert a + b == a;
    } else {
      var n := |b| - 1;
      assert (a + b)[..|a + b| - 1] == a + b[..n];
      CountAppend(a, b[..n], x);
    }
  }

  /** Sum of a sequence of integers. */
  function Total(s: seq<int>): int
  {
    if s == [] then 0 else Total(s[..|s| - 1]) + s[|s| - 1]
  }

  lemma {:induction false} TotalOfZeros(s: seq<int>)
    requires forall i :: 0 <= i < |s| ==> s[i] == 0
    ensures Total(s) == 0
  {
    if s != [] {
      TotalOfZeros(s[..|s| - 1]);
    }
  }

  /** Adding `d` to one slot adds `d` to the total. */
  lemma {:induction false} TotalUpdate(s: seq<int>, i: nat, d: int)
    requires i < |s|
    ensures Total(s[i := s[i] + d]) == Total(s) + d
  {
    var n := |s| - 1;
    var t := s[i := s[i] + d];
    assert t[..n] == if i == n then s[..n] else s[..n][i := s[i] + d];
    if i < n {
      TotalUpdate(s[..n], i, d);
    }
  }

  /** Non-decreasing by `key`. */
  predicate SortedBy<T>(s: seq<T>, key: T -> int)
  {
    forall i, j :: 0 <= i < j < |s| ==> key(s[i]) <= key(s[j])
  }

  /** Places `x` into `t` after every element whose key is at most `x`'s,
      scanning from the back: one step of a stable insertion sort. */
  function Insert<T>(t: seq<T>, x: T, key: T -> int): (r: seq<T>)
    ensures |r| == |t| + 1
    ensures multiset(r) == multiset(t) + multiset{x}
    decreases |t|
  {
    if t == [] || key(t[|t| - 1]) <= key(x) then t + [x]
    else
      var n := |t| - 1;
      assert t == t[..n] + [t[n]];
      Insert(t[..n], x, key) + [t[n]]
  }

  /** `Insert` puts `x` right after the last element whose key is at most
      `x`'s: at `j`, when everything from `j` on has a larger key. */
  lemma {:induction false} InsertPlace<T>(t: seq<T>, x: T, j: nat, key: T -> int)
    requires j <= |t|
    requires j == 0 || key(t[j - 1]) <= key(x)
    requires forall k :: j <= k < |t| ==> key(t[k]) > key(x)
    ensures Insert(t, x, key) == t[..j] + [x] + t[j..]
    decreases |t|
  {
    if j < |t| {
      var n := |t| - 1;
      var u := t[..n];
      InsertPastLast(t, x, key);
      forall k | j <= k < |u| ensures key(u[k]) > key(x) {
        assert u[k] == t[k];
      }
      if j > 0 {
        assert u[j - 1] == t[j - 1];
      }
      InsertPlace(u, x, j, key);
      SpliceSnoc(t, j, x);
    } else {
      assert t[..j] == t && t[j..] == [];
    }
  }

  /** When the last element's key is larger than `x`'s, `x` goes into the
      rest and the last element stays last. */
  lemma InsertPastLast<T>(t: seq<T>, x: T, key: T -> int)
    requires t != [] && key(t[|t| - 1]) > key(x)
    ensures Insert(t, x, key) == Insert(t[..|t| - 1], x, key) + [t[|t| - 1]]
  {
  }

  /** Splicing `x` in at `j` commutes with appending the last element. */
  lemma SpliceSnoc<T>(t: seq<T>, j: nat, x: T)
    requires j < |t|
    ensures t[..|t| - 1][..j] + [x] + t[..|t| - 1][j..] + [t[|t| - 1]] == t[..j] + [x] + t[j..]
  {
    var n := |t| - 1;
    assert t[..n][..j] == t[..j];
    assert t[..n][j..] + [t[n]] == t[j..];
  }

  lemma {:induction false} InsertSorted<T>(t: seq<T>, x: T, key: T -> int)
    requires SortedBy(t, key)
    ensures SortedBy(Insert(t, x, key), key)
    decreases |t|
  {
    if t == [] || key(t[|t| - 1]) <= key(x) {
      var r := t + [x];
      assert Insert(t, x, key) == r;
      forall i, j | 0 <= i < j < |r| ensures key(r[i]) <= key(r[j]) {
        if j == |t| && i < |t| - 1 {
          assert key(t[i]) <= key(t[|t| - 1]);
        }
      }
    } else {
      var n := |t| - 1;
      var r := Insert(t[..n], x, key);
      assert Insert(t, x, key) == r + [t[n]];
      assert SortedBy(t[..n], key);
      InsertSorted(t[..n], x, key);
      forall y | y in r ensures key(y) <= key(t[n]) {
        assert y in multiset(r);
        if y != x {
          assert y in t[..n];
        }
      }
      var r' := r + [t[n]];
      forall i, j | 0 <= i < j < |r'| ensures key(r'[i]) <= key(r'[j]) {
        if j == |r| {
          assert r'[i] == r[i] && r[i] in r;
        } else {
          assert r'[i] == r[i] && r'[j] == r[j];
        }
      }
    }
  }

  /** Stable insertion sort by `key`; JavaScript's `sort` with the comparator
      `(a, b) => key(a) - key(b)` (stable since ECMAScript 2019). */
  function SortBy<T>(s: seq<T>, key: T -> int): (r: seq<T>)
    ensures |r| == |s|
    ensures multiset(r) == multiset(s)
  {
    if s == [] then []
    else
      var n := |s| - 1;
      assert s == s[..n] + [s[n]];
      Insert(SortBy(s[..n], key), s[n], key)
  }

  /** Sorting one more element is inserting it into the sorted prefix. */
  lemma SortByStep<T>(s: seq<T>, i: nat, key: T -> int)
    requires i < |s|
    ensures SortBy(s[..i + 1], key) == Insert(SortBy(s[..i], key), s[i], key)
  {
    assert s[..i + 1][..i] == s[..i];
  }

  lemma {:induction false} SortBySorted<T>(s: seq<T>, key: T -> int)
    ensures SortedBy(SortBy(s, key), key)
  {
    if s != [] {
      var n := |s| - 1;
      SortBySorted(s[..n], key);
      InsertSorted(SortBy(s[..n], key), s[n], key);
    }
  }

  /** Insertion keeps the order among the elements that `p` selects when
      every element `p` selects has the key `k`. */
  lemma {:induction false} InsertStable<T>(t: seq<T>, x: T, key: T -> int, p: T -> bool, k: int)
    requires forall y :: p(y) ==> key(y) == k
    ensures Filter(Insert(t, x, key), p) == Filter(t, p) + Filter([x], p)
    decreases |t|
  {
    if t == [] || key(t[|t| - 1]) <= key(x) {
      assert Insert(t, x, key) == t + [x];
      FilterAppend(t, [x], p);
    } else {
      var n := |t| - 1;
      var l := t[n];
      var u := t[..n];
      var r := Insert(u, x, key);
      assert Filter(Insert(t, x, key), p) == Filter(r, p) + Filter([l], p) by {
        InsertPastLast(t, x, key);
        FilterAppend(r, [l], p);
      }
      assert Filter(t, p) == Filter(u, p) + Filter([l], p) by {
        assert t == u + [l];
        FilterAppend(u, [l], p);
      }
      assert Filter(r, p) == Filter(u, p) + Filter([x], p) by {
        InsertStable(u, x, key, p, k);
      }
      assert Filter([x], p) == [] || Filter([l], p) == [] by {
        FilterSingleton(x, p);
        FilterSingleton(l, p);
      }
      SwapPastEmpty(Filter(u, p), Filter([x], p), Filter([l], p));
    }
  }

  /** Two pieces of which one is empty can trade places. */
  lemma SwapPastEmpty<T>(a: seq<T>, b: seq<T>, c: seq<T>)
    requires b == [] || c == []
    ensures a + b + c == a + c + b
  {
  }

  /** Sorting keeps the relative order of the elements that `p` selects
      when they all share one key. */
  lemma {:induction false} SortByStable<T>(s: seq<T>, key: T -> int, p: T -> bool, k: int)
    requires forall y :: p(y) ==> key(y) == k
    ensures Filter(SortBy(s, key), p) == Filter(s, p)
  {
    if s != [] {
      var n := |s| - 1;
      var q := SortBy(s[..n], key);
      calc {
        Filter(SortBy(s, key), p);
        { SortByStep(s, n, key); assert s[..n + 1] == s; }
        Filter(Insert(q, s[n], key), p);
        { InsertStable(q, s[n], key, p, k); }
        Filter(q, p) + Filter([s[n]], p);
        { SortByStable(s[..n], key, p, k); }
        Filter(s[..n], p) + Filter([s[n]], p);
        { FilterAppend(s[..n], [s[n]], p); assert s[..n] + [s[n]] == s; }
        Filter(s, p);
      }
    }
  }

  /** Sorting an already sorted sequence leaves it as it is. */
  lemma {:induction false} SortByIdentity<T>(s: seq<T>, key: T -> int)
    requires SortedBy(s, key)
    ensures SortBy(s, key) == s
  {
    if s != [] {
      var n := |s| - 1;
      SortByIdentity(s[..n], key);
      assert s == s[..n] + [s[n]];
    }
  }

  /** Two sorted arrangements of the same elements coincide when the keys
      of one of them are pairwise distinct. */
  lemma {:induction false} SortedUnique<T>(a: seq<T>, b: seq<T>, key: T -> int)
    requires SortedBy(a, key)
    requires forall i, j :: 0 <= i < j < |b| ==> key(b[i]) < key(b[j])
    requires multiset(a) == multiset(b)
    ensures a == b
    decreases |b|
  {
    assert |a| == |b| by {
      assert |a| == |multiset(a)| && |b| == |multiset(b)|;
    }
    if b != [] {
      SortedHeads(a, b, key);
      assert multiset(a[1..]) == multiset(b[1..]) by {
        assert a == [a[0]] + a[1..];
        assert b == [b[0]] + b[1..];
        assert multiset(a) == multiset{a[0]} + multiset(a[1..]);
        assert multiset(b) == multiset{a[0]} + multiset(b[1..]);
        assert multiset(a[1..]) == multiset(a) - multiset{a[0]};
        assert multiset(b[1..]) == multiset(b) - multiset{a[0]};
      }
      SortedUnique(a[1..], b[1..], key);
      assert a == [a[0]] + a[1..];
    }
  }

  lemma SortedHeads<T>(a: seq<T>, b: seq<T>, key: T -> int)
    requires SortedBy(a, key)
    requires forall i, j :: 0 <= i < j < |b| ==> key(b[i]) < key(b[j])
    requires multiset(a) == multiset(b) && b != []
    ensures a != [] && a[0] == b[0]
  {
    assert b[0] in multiset(a);
    var j :| 0 <= j < |a| && a[j] == b[0];
    assert a[0] in multiset(b);
    var m :| 0 <= m < |b| && b[m] == a[0];
    assert key(a[0]) <= key(a[j]);
  }
}

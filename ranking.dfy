/**
 * Ranking: the four records are split into resolved and unresolved ones, in
 * their fixed order, and the resolved ones are sorted in place by the
 * magnitude of their distance from now. The standard library's stable sort
 * runs an insertion sort on slices this short, moving each element left past
 * every element that compares strictly greater.
 */
module Ranking {
  import opened Wrappers
  import opened Records

  function WithDelta(d: Data): DataWithDelta
    requires d.delta.Some?
  {
    DataWithDelta(d.delta.value, d.description, d.unit)
  }

  /** The resolved records of `ds`, in their order in `ds`. */
  function ResolvedOf(ds: seq<Data>): seq<DataWithDelta> {
    if ds == [] then []
    else
      var last := ds[|ds| - 1];
      ResolvedOf(ds[..|ds| - 1]) + (if last.delta.Some? then [WithDelta(last)] else [])
  }

  /** The unresolved records of `ds`, in their order in `ds`. */
  function UnresolvedOf(ds: seq<Data>): seq<Data> {
    if ds == [] then []
    else
      var last := ds[|ds| - 1];
      UnresolvedOf(ds[..|ds| - 1]) + (if last.delta.None? then [last] else [])
  }

  /** The number of records of `ds` that carry a delta. */
  function CountResolved(ds: seq<Data>): nat {
    if ds == [] then 0
    else CountResolved(ds[..|ds| - 1]) + (if ds[|ds| - 1].delta.Some? then 1 else 0)
  }

  /** Every record lands in exactly one group: the resolved group holds each
      record with a delta, the unresolved group each record without. */
  lemma {:induction false} PartitionExact(ds: seq<Data>)
    ensures |ResolvedOf(ds)| == CountResolved(ds)
    ensures |UnresolvedOf(ds)| == |ds| - CountResolved(ds)
    ensures forall d :: d in UnresolvedOf(ds) ==> d in ds && d.delta.None?
    ensures forall d :: d in ds && d.delta.None? ==> d in UnresolvedOf(ds)
    ensures forall d :: d in ds && d.delta.Some? ==> WithDelta(d) in ResolvedOf(ds)
    ensures forall r :: r in ResolvedOf(ds) ==> Data(Some(r.delta), r.description, r.unit) in ds
  {
    if ds != [] {
      var init := ds[..|ds| - 1];
      PartitionExact(init);
      assert CountResolved(init) <= |init|;
      assert ds == init + [ds[|ds| - 1]];
    }
  }

  /** The loop that pushes each record onto `has_some` or `has_none`. */
  method Partition(ds: seq<Data>) returns (some: seq<DataWithDelta>, none: seq<Data>)
    ensures some == ResolvedOf(ds) && none == UnresolvedOf(ds)
  {
    some, none := [], [];
    var i := 0;
    while i < |ds|
      invariant 0 <= i <= |ds|
      invariant some == ResolvedOf(ds[..i]) && none == UnresolvedOf(ds[..i])
    {
      var d := ds[i];
      assert ds[..i + 1][..i] == ds[..i];
      if d.delta.Some? {
        some := some + [DataWithDelta(d.delta.value, d.description, d.unit)];
      } else {
        none := none + [d];
      }
      i := i + 1;
    }
    assert ds[..i] == ds;
  }

  /** The sort key: the magnitude of the distance from now. */
  function Key(d: DataWithDelta): nat {
    Abs(d.delta)
  }

  predicate SortedByKey(s: seq<DataWithDelta>) {
    forall i, j :: 0 <= i < j < |s| ==> Key(s[i]) <= Key(s[j])
  }

  /** Inserts `x` into `s` after every element whose key is not larger. */
  function InsertSorted(s: seq<DataWithDelta>, x: DataWithDelta): seq<DataWithDelta> {
    if s == [] then [x]
    else if Key(s[|s| - 1]) <= Key(x) then s + [x]
    else InsertSorted(s[..|s| - 1], x) + [s[|s| - 1]]
  }

  /** The order of `s` after the stable sort by key. */
  function StableSorted(s: seq<DataWithDelta>): seq<DataWithDelta> {
    if s == [] then []
    else InsertSorted(StableSorted(s[..|s| - 1]), s[|s| - 1])
  }

  /** The elements of `s` with key `k`, in order. */
  function WithKey(s: seq<DataWithDelta>, k: nat): seq<DataWithDelta> {
    if s == [] then []
    else WithKey(s[..|s| - 1], k) + KeyedIf(s[|s| - 1], k)
  }

  /** `[x]` when `x` has key `k`, otherwise nothing. */
  function KeyedIf(x: DataWithDelta, k: nat): seq<DataWithDelta> {
    if Key(x) == k then [x] else []
  }

  lemma {:induction false} WithKeyAppend(a: seq<DataWithDelta>, b: seq<DataWithDelta>, k: nat)
    ensures WithKey(a + b, k) == WithKey(a, k) + WithKey(b, k)
    decreases |b|
  {
    if b == [] {
      assert a + b == a;
    } else {
      var init := b[..|b| - 1];
      assert (a + b)[..|a + b| - 1] == a + init;
      WithKeyAppend(a, init, k);
    }
  }

  /** Where the insertion stops: `x` goes right after the last element whose
      key is not larger than its own. */
  lemma {:induction false} InsertAt(s: seq<DataWithDelta>, x: DataWithDelta, j: nat)
    requires j <= |s|
    requires forall k :: j <= k < |s| ==> Key(x) < Key(s[k])
    requires j == 0 || Key(s[j - 1]) <= Key(x)
    ensures InsertSorted(s, x) == s[..j] + [x] + s[j..]
    decreases |s| - j
  {
    if j == |s| {
      assert s[..j] == s && s[j..] == [];
    } else {
      var init := s[..|s| - 1];
      var last := s[|s| - 1];
      assert Key(x) < Key(last);
      assert forall k :: j <= k < |init| ==> init[k] == s[k];
      assert j == 0 || init[j - 1] == s[j - 1];
      InsertAt(init, x, j);
      assert InsertSorted(s, x) == init[..j] + [x] + init[j..] + [last];
      assert init[..j] == s[..j];
      assert init[j..] + [last] == s[j..];
    }
  }

  lemma {:induction false} InsertSortedPermutes(s: seq<DataWithDelta>, x: DataWithDelta)
    ensures multiset(InsertSorted(s, x)) == multiset(s) + multiset{x}
  {
    if s != [] && Key(s[|s| - 1]) > Key(x) {
      var init := s[..|s| - 1];
      var last := s[|s| - 1];
      InsertSortedPermutes(init, x);
      assert s == init + [last];
      calc {
        multiset(InsertSorted(s, x));
        multiset(InsertSorted(init, x) + [last]);
        multiset(InsertSorted(init, x)) + multiset{last};
        multiset(init) + multiset{x} + multiset{last};
        multiset(init + [last]) + multiset{x};
      }
    }
  }

  /** Inserting keeps every key under a common bound. */
  lemma {:induction false} InsertSortedBounded(s: seq<DataWithDelta>, x: DataWithDelta, b: nat)
    requires forall i :: 0 <= i < |s| ==> Key(s[i]) <= b
    requires Key(x) <= b
    ensures |InsertSorted(s, x)| == |s| + 1
    ensures forall i :: 0 <= i < |InsertSorted(s, x)| ==> Key(InsertSorted(s, x)[i]) <= b
  {
    if s != [] && Key(s[|s| - 1]) > Key(x) {
      InsertSortedBounded(s[..|s| - 1], x, b);
    }
  }

  lemma {:induction false} InsertSortedSorted(s: seq<DataWithDelta>, x: DataWithDelta)
    requires SortedByKey(s)
    ensures SortedByKey(InsertSorted(s, x))
  {
    if s != [] && Key(s[|s| - 1]) > Key(x) {
      var init := s[..|s| - 1];
      var last := s[|s| - 1];
      InsertSortedSorted(init, x);
      InsertSortedBounded(init, x, Key(last));
    }
  }

  lemma WithKeySingle(x: DataWithDelta, k: nat)
    ensures WithKey([x], k) == KeyedIf(x, k)
  {
    assert [x][..0] == [];
  }

  /** Two elements of different keys never both have key `k`. */
  lemma KeyedIfCommute(x: DataWithDelta, y: DataWithDelta, k: nat)
    requires Key(x) != Key(y)
    ensures KeyedIf(x, k) + KeyedIf(y, k) == KeyedIf(y, k) + KeyedIf(x, k)
  {
  }

  /** Insertion keeps the order among the elements of each key: `x` only
      moves past elements whose key is strictly larger than its own. */
  lemma {:induction false} InsertSortedWithKey(s: seq<DataWithDelta>, x: DataWithDelta, k: nat)
    ensures WithKey(InsertSorted(s, x), k) == WithKey(s, k) + KeyedIf(x, k)
  {
    WithKeySingle(x, k);
    if s == [] {
      assert WithKey(s, k) == [];
    } else if Key(s[|s| - 1]) <= Key(x) {
      WithKeyAppend(s, [x], k);
    } else {
      var init := s[..|s| - 1];
      var last := s[|s| - 1];
      var r := InsertSorted(init, x);
      assert s == init + [last];
      InsertSortedWithKey(init, x, k);
      WithKeySingle(last, k);
      WithKeyAppend(r, [last], k);
      KeyedIfCommute(x, last, k);
      assert WithKey(s, k) == WithKey(init, k) + KeyedIf(last, k);
      assert InsertSorted(s, x) == r + [last];
    }
  }

  /** The sorted order is ordered by key. */
  lemma {:induction false} StableSortedSorted(s: seq<DataWithDelta>)
    ensures SortedByKey(StableSorted(s))
  {
    if s != [] {
      StableSortedSorted(s[..|s| - 1]);
      InsertSortedSorted(StableSorted(s[..|s| - 1]), s[|s| - 1]);
    }
  }

  /** The sorted order is a permutation of the input. */
  lemma {:induction false} StableSortedPermutes(s: seq<DataWithDelta>)
    ensures multiset(StableSorted(s)) == multiset(s)
  {
    if s != [] {
      var init := s[..|s| - 1];
      var last := s[|s| - 1];
      StableSortedPermutes(init);
      InsertSortedPermutes(StableSorted(init), last);
      assert s == init + [last];
      calc {
        multiset(StableSorted(s));
        multiset(InsertSorted(StableSorted(init), last));
        multiset(StableSorted(init)) + multiset{last};
        multiset(init) + multiset{last};
        multiset(init + [last]);
      }
    }
  }

  /** The sort is stable: records of equal magnitude keep their relative order. */
  lemma {:induction false} StableSortedStable(s: seq<DataWithDelta>, k: nat)
    ensures WithKey(StableSorted(s), k) == WithKey(s, k)
  {
    if s != [] {
      var init := s[..|s| - 1];
      StableSortedStable(init, k);
      InsertSortedWithKey(StableSorted(init), s[|s| - 1], k);
    }
  }

  lemma {:induction false} WithKeyNone(s: seq<DataWithDelta>, k: nat)
    requires forall j :: 0 <= j < |s| ==> Key(s[j]) != k
    ensures WithKey(s, k) == []
  {
    if s != [] {
      WithKeyNone(s[..|s| - 1], k);
    }
  }

  /** The first element of `s` with key `k` heads the elements with that key. */
  lemma WithKeyHead(s: seq<DataWithDelta>, k: nat, i: nat)
    requires i < |s| && Key(s[i]) == k
    requires forall j :: 0 <= j < i ==> Key(s[j]) != k
    ensures WithKey(s, k) != [] && WithKey(s, k)[0] == s[i]
  {
    var front := s[..i + 1];
    assert front[..i] == s[..i];
    WithKeyNone(s[..i], k);
    assert WithKey(front, k) == [s[i]];
    assert s == front + s[i + 1..];
    WithKeyAppend(front, s[i + 1..], k);
  }

  /** Any element with key `k` has a first one with that key at or before it. */
  lemma {:induction false} FirstWithKey(s: seq<DataWithDelta>, k: nat, m: nat)
    requires m < |s| && Key(s[m]) == k
    ensures exists i :: 0 <= i <= m && Key(s[i]) == k && forall j :: 0 <= j < i ==> Key(s[j]) != k
  {
    if exists j :: 0 <= j < m && Key(s[j]) == k {
      var j :| 0 <= j < m && Key(s[j]) == k;
      FirstWithKey(s, k, j);
    }
  }

  /**
   * The best candidate: the first record after sorting is nearest to now, and
   * of the records equally near, it is the one that came first in the fixed
   * order seconds, milliseconds, microseconds, nanoseconds.
   */
  lemma BestIsNearest(s: seq<DataWithDelta>)
    requires s != []
    ensures |StableSorted(s)| == |s|
    ensures forall j :: 0 <= j < |s| ==> Key(StableSorted(s)[0]) <= Key(s[j])
    ensures exists i :: 0 <= i < |s| && s[i] == StableSorted(s)[0] &&
                        forall j :: 0 <= j < i ==> Key(s[j]) > Key(s[i])
  {
    SortedHeadMinimal(s);
    var t := StableSorted(s);
    var k := Key(t[0]);
    StableSortedPermutes(s);
    assert t[0] in multiset(s);
    var m :| 0 <= m < |s| && s[m] == t[0];
    FirstWithKey(s, k, m);
    var i :| 0 <= i <= m && Key(s[i]) == k && forall j :: 0 <= j < i ==> Key(s[j]) != k;
    WithKeyHead(s, k, i);
    WithKeyHead(t, k, 0);
    StableSortedStable(s, k);
  }

  /** The head of the sorted order has the smallest key of all. */
  lemma SortedHeadMinimal(s: seq<DataWithDelta>)
    requires s != []
    ensures |StableSorted(s)| == |s|
    ensures forall j :: 0 <= j < |s| ==> Key(StableSorted(s)[0]) <= Key(s[j])
  {
    var t := StableSorted(s);
    StableSortedPermutes(s);
    StableSortedSorted(s);
    assert |t| == |multiset(t)| == |multiset(s)| == |s|;
    forall j | 0 <= j < |s|
      ensures Key(t[0]) <= Key(s[j])
    {
      assert s[j] in multiset(t);
      var m :| 0 <= m < |t| && t[m] == s[j];
    }
  }

  /** `sort_by` on the resolved records, as an insertion sort in place. */
  method SortByMagnitude(a: array<DataWithDelta>)
    modifies a
    ensures a[..] == StableSorted(old(a[..]))
  {
    ghost var input := a[..];
    var i := 0;
    while i < a.Length
      invariant 0 <= i <= a.Length
      invariant a[..i] == StableSorted(input[..i])
      invariant a[i..] == input[i..]
    {
      assert input[..i + 1][..i] == input[..i];
      assert a[i] == input[i];
      InsertTail(a, i);
      i := i + 1;
    }
    assert a[..] == a[..a.Length] && input[..a.Length] == input;
  }

  /** Moves `a[i]` left past every element of `a[..i]` with a strictly
      larger key, shifting those one place right. */
  method InsertTail(a: array<DataWithDelta>, i: nat)
    requires i < a.Length
    modifies a
    ensures a[..i + 1] == InsertSorted(old(a[..i]), old(a[i]))
    ensures a[i + 1..] == old(a[i + 1..])
  {
    ghost var prefix := a[..i];
    var x := a[i];
    var j := i;
    while j > 0 && Key(x) < Key(a[j - 1])
      invariant 0 <= j <= i
      invariant forall k :: 0 <= k < j ==> a[k] == prefix[k]
      invariant forall k :: j < k <= i ==> a[k] == prefix[k - 1]
      invariant forall k :: j <= k < i ==> Key(x) < Key(prefix[k])
      invariant forall k :: i < k < a.Length ==> a[k] == old(a[k])
    {
      a[j] := a[j - 1];
      j := j - 1;
    }
    a[j] := x;
    Placed(a[..], prefix, x, j);
    assert a[i + 1..] == old(a[i + 1..]);
  }

  /** The array after the shifting loop holds `InsertSorted(prefix, x)`. */
  lemma Placed(t: seq<DataWithDelta>, prefix: seq<DataWithDelta>, x: DataWithDelta, j: nat)
    requires j <= |prefix| < |t|
    requires forall k :: 0 <= k < j ==> t[k] == prefix[k]
    requires t[j] == x
    requires forall k :: j < k <= |prefix| ==> t[k] == prefix[k - 1]
    requires forall k :: j <= k < |prefix| ==> Key(x) < Key(prefix[k])
    requires j == 0 || Key(prefix[j - 1]) <= Key(x)
    ensures t[..|prefix| + 1] == InsertSorted(prefix, x)
  {
    InsertAt(prefix, x, j);
    assert t[..|prefix| + 1] == prefix[..j] + [x] + prefix[j..];
  }
}

/** osu!'s legacy quicksort, run as both of its callers run it: on a list that is already
    sorted by start time. */
module LegacySort {
  import opened Orders
  import opened Sorting

  const QuickSortDepthThreshold := 32

  /** Every position of `lo..hi` holds an element that compares equal to the one it held. */
  ghost predicate SameKeys<T(!new)>(s: seq<T>, t: seq<T>, lo: nat, hi: nat, cmp: (T, T) -> Ordering) {
    && lo <= hi <= |s| == |t|
    && forall k | lo <= k < hi :: cmp(s[k], t[k]) == Equal
  }

  /** What the sort may do to a sorted part: elements move among those that compare equal. */
  ghost predicate Shuffled<T(!new)>(s: seq<T>, t: seq<T>, lo: nat, hi: nat, cmp: (T, T) -> Ordering) {
    SortedWithin(t, lo, hi, cmp) && SameKeys(s, t, lo, hi, cmp) && PermutedWithin(s, t, lo, hi)
  }

  // ---------- two sorted lists of the same elements ----------

  function CountLe<T(!new)>(s: seq<T>, x: T, cmp: (T, T) -> Ordering): nat {
    if s == [] then 0 else CountLe(s[..|s| - 1], x, cmp) + if Le(cmp, s[|s| - 1], x) then 1 else 0
  }

  lemma {:induction false} CountLeWithout<T(!new)>(s: seq<T>, i: nat, x: T, cmp: (T, T) -> Ordering)
    requires i < |s|
    ensures CountLe(s, x, cmp) == CountLe(s[..i] + s[i + 1..], x, cmp) + if Le(cmp, s[i], x) then 1 else 0
  {
    hide Le;
    var r := s[..i] + s[i + 1..];
    if i == |s| - 1 {
      assert r == s[..|s| - 1];
    } else {
      CountLeWithout(s[..|s| - 1], i, x, cmp);
      assert r[..|r| - 1] == s[..|s| - 1][..i] + s[..|s| - 1][i + 1..];
    }
  }

  lemma WithoutOne<T>(s: seq<T>, i: nat)
    requires i < |s|
    ensures multiset(s[..i] + s[i + 1..]) == multiset(s) - multiset{s[i]}
    ensures s[i] in multiset(s)
  {
    assert s == s[..i] + [s[i]] + s[i + 1..];
  }

  /** The count depends on the elements alone. */
  lemma {:induction false} CountLeOfSame<T(!new)>(s: seq<T>, t: seq<T>, x: T, cmp: (T, T) -> Ordering)
    requires multiset(s) == multiset(t)
    ensures CountLe(s, x, cmp) == CountLe(t, x, cmp)
  {
    hide Le;
    if s == [] {
      assert |multiset(t)| == |multiset(s)| == 0;
    } else {
      var last := s[|s| - 1];
      assert s == s[..|s| - 1] + [last];
      assert last in multiset(t);
      var i :| 0 <= i < |t| && t[i] == last;
      WithoutOne(t, i);
      WithoutOne(s, |s| - 1);
      assert s[..|s| - 1] + s[|s| - 1 + 1..] == s[..|s| - 1];
      CountLeOfSame(s[..|s| - 1], t[..i] + t[i + 1..], x, cmp);
      CountLeWithout(t, i, x, cmp);
    }
  }

  lemma {:induction false} CountLeOfSorted<T(!new)>(s: seq<T>, k: nat, x: T, cmp: (T, T) -> Ordering)
    requires TotalPreorder(cmp) && SortedBy(s, cmp)
    ensures k < |s| && Le(cmp, s[k], x) ==> CountLe(s, x, cmp) > k
    ensures k < |s| && !Le(cmp, s[k], x) ==> CountLe(s, x, cmp) <= k
  {
    if k < |s| {
      var last := |s| - 1;
      CountLeOfSorted(s[..last], if k == last && k > 0 then k - 1 else k, x, cmp);
      CountLeAtMostAll(s[..last], x, cmp);
      if k < last {
        assert Le(cmp, s[k], s[last]);
      } else if k > 0 {
        assert Le(cmp, s[k - 1], s[k]);
      }
    }
  }

  lemma {:induction false} CountLeAtMostAll<T(!new)>(s: seq<T>, x: T, cmp: (T, T) -> Ordering)
    ensures CountLe(s, x, cmp) <= |s|
  {
    if s != [] {
      CountLeAtMostAll(s[..|s| - 1], x, cmp);
    }
  }

  /** Sorting what is sorted already leaves equal keys everywhere, however it is done. */
  lemma SortedAgain<T(!new)>(s: seq<T>, t: seq<T>, k: nat, cmp: (T, T) -> Ordering)
    requires TotalPreorder(cmp) && SortedBy(s, cmp) && SortedBy(t, cmp) && multiset(s) == multiset(t)
    requires k < |s| == |t|
    ensures cmp(s[k], t[k]) == Equal
  {
    AllBelow(s, t, k, cmp);
    AllBelow(t, s, k, cmp);
    assert cmp(s[k], t[k]) == Less <==> cmp(t[k], s[k]) == Greater;
  }

  lemma AllBelow<T(!new)>(s: seq<T>, t: seq<T>, k: nat, cmp: (T, T) -> Ordering)
    requires TotalPreorder(cmp) && SortedBy(s, cmp) && SortedBy(t, cmp) && multiset(s) == multiset(t)
    requires k < |s| == |t|
    ensures Le(cmp, t[k], s[k])
  {
    hide SortedBy;
    ComparesEqualToItself(s[k], cmp);
    CountLeOfSorted(s, k, s[k], cmp);
    CountLeOfSorted(t, k, s[k], cmp);
    CountLeOfSame(s, t, s[k], cmp);
  }

  lemma SortedAgainWithin<T(!new)>(s: seq<T>, t: seq<T>, lo: nat, hi: nat, cmp: (T, T) -> Ordering)
    requires TotalPreorder(cmp) && SortedWithin(s, lo, hi, cmp)
    requires SortedWithin(t, lo, hi, cmp) && PermutedWithin(s, t, lo, hi)
    ensures Shuffled(s, t, lo, hi, cmp)
  {
    assert SortedBy(s[lo..hi], cmp) && SortedBy(t[lo..hi], cmp);
    forall k | lo <= k < hi
      ensures cmp(s[k], t[k]) == Equal
    {
      SortedAgain(s[lo..hi], t[lo..hi], k - lo, cmp);
    }
  }

  // ---------- steps that shuffle ----------

  lemma NotShuffled<T(!new)>(s: seq<T>, lo: nat, hi: nat, cmp: (T, T) -> Ordering)
    requires TotalPreorder(cmp) && SortedWithin(s, lo, hi, cmp)
    ensures Shuffled(s, s, lo, hi, cmp)
  {
    forall k | lo <= k < hi
      ensures cmp(s[k], s[k]) == Equal
    {
      ComparesEqualToItself(s[k], cmp);
    }
  }

  lemma EqualThrough<T(!new)>(x: T, y: T, z: T, cmp: (T, T) -> Ordering)
    requires TotalPreorder(cmp) && cmp(x, y) == Equal && cmp(y, z) == Equal
    ensures cmp(x, z) == Equal && cmp(y, x) == Equal
  {
    assert cmp(y, x) == Less <==> cmp(x, y) == Greater;
    assert cmp(z, y) == Less <==> cmp(y, z) == Greater;
    assert Le(cmp, x, y) && Le(cmp, y, x) && Le(cmp, y, z) && Le(cmp, z, y);
    assert Le(cmp, x, z) && Le(cmp, z, x);
    assert cmp(z, x) == Greater <==> cmp(x, z) == Less;
  }

  lemma ShuffledTwice<T(!new)>(s: seq<T>, t: seq<T>, u: seq<T>, lo: nat, hi: nat, cmp: (T, T) -> Ordering)
    requires TotalPreorder(cmp) && Shuffled(s, t, lo, hi, cmp) && Shuffled(t, u, lo, hi, cmp)
    ensures Shuffled(s, u, lo, hi, cmp)
  {
    hide TotalPreorder, SortedWithin, PermutedWithin;
    Composed(s, t, u, lo, hi);
    forall k | lo <= k < hi
      ensures cmp(s[k], u[k]) == Equal
    {
      EqualThrough(s[k], t[k], u[k], cmp);
    }
  }

  lemma SortedBySameKeys<T(!new)>(s: seq<T>, t: seq<T>, lo: nat, hi: nat, cmp: (T, T) -> Ordering)
    requires TotalPreorder(cmp) && SortedWithin(s, lo, hi, cmp) && SameKeys(s, t, lo, hi, cmp)
    ensures SortedWithin(t, lo, hi, cmp)
  {
    forall i, j | lo <= i < j < hi
      ensures Le(cmp, t[i], t[j])
    {
      EqualThrough(s[i], t[i], t[i], cmp) by { ComparesEqualToItself(t[i], cmp); }
      assert Le(cmp, t[i], s[i]) && Le(cmp, s[i], s[j]) && Le(cmp, s[j], t[j]);
      assert Le(cmp, t[i], s[j]);
    }
  }

  lemma SwapShuffles<T(!new)>(s: seq<T>, i: nat, j: nat, lo: nat, hi: nat, cmp: (T, T) -> Ordering)
    requires TotalPreorder(cmp) && SortedWithin(s, lo, hi, cmp)
    requires lo <= i < hi <= |s| && lo <= j < hi && cmp(s[i], s[j]) == Equal
    ensures Shuffled(s, Swapped(s, i, j), lo, hi, cmp)
  {
    SortedBounds(s, lo, hi, cmp);
    hide TotalPreorder, SortedWithin, PermutedWithin;
    var t := Swapped(s, i, j);
    SwapPermutes(s, i, j, lo, hi);
    forall k | lo <= k < hi
      ensures cmp(s[k], t[k]) == Equal
    {
      ComparesEqualToItself(s[k], cmp);
      EqualThrough(s[i], s[j], s[j], cmp) by { ComparesEqualToItself(s[j], cmp); }
    }
    SortedBySameKeys(s, t, lo, hi, cmp);
  }

  lemma PartShuffled<T(!new)>(s: seq<T>, t: seq<T>, from: nat, to: nat, lo: nat, hi: nat, cmp: (T, T) -> Ordering)
    requires TotalPreorder(cmp) && SortedWithin(s, lo, hi, cmp) && lo <= from && to <= hi
    requires Shuffled(s, t, from, to, cmp)
    ensures Shuffled(s, t, lo, hi, cmp)
  {
    hide TotalPreorder, SortedWithin, PermutedWithin;
    SortedBounds(s, lo, hi, cmp);
    OutsideUnchanged(s, t, from, to);
    Widened(s, t, from, to, lo, hi);
    forall k | lo <= k < hi
      ensures cmp(s[k], t[k]) == Equal
    {
      ComparesEqualToItself(s[k], cmp);
    }
    SortedBySameKeys(s, t, lo, hi, cmp);
  }

  lemma NothingGreater<T(!new)>(s: seq<T>, t: seq<T>, a: nat, b: nat, lo: nat, hi: nat, cmp: (T, T) -> Ordering)
    requires TotalPreorder(cmp) && SortedWithin(s, lo, hi, cmp) && lo <= a <= b < hi
    requires SwappedIfGreater(s, t, a, b, cmp)
    ensures t == s
  {
    ComparesEqualToItself(s[a], cmp);
  }

  // ---------- the sort ----------

  /** Both scans are safe: `mid` stops them, or both already stand on its key. */
  ghost predicate Scanning<T(!new)>(s: seq<T>, left: nat, i: nat, mid: nat, j: nat, right: nat, cmp: (T, T) -> Ordering) {
    && left <= i <= j <= right < |s| && left <= mid <= right
    && i + j < 2 * right
    && (i <= mid <= j || (cmp(s[i], s[mid]) == Equal && cmp(s[mid], s[j]) == Equal))
  }

  lemma ScansUp<T(!new)>(s: seq<T>, left: nat, i: nat, mid: nat, j: nat, right: nat, cmp: (T, T) -> Ordering)
    requires TotalPreorder(cmp) && Scanning(s, left, i, mid, j, right, cmp) && mid < right
    requires cmp(s[i], s[mid]) == Less
    ensures i < mid && Scanning(s, left, i + 1, mid, j, right, cmp)
  {
    ComparesEqualToItself(s[mid], cmp);
  }

  lemma ScansDown<T(!new)>(s: seq<T>, left: nat, i: nat, mid: nat, j: nat, right: nat, cmp: (T, T) -> Ordering)
    requires TotalPreorder(cmp) && Scanning(s, left, i, mid, j, right, cmp)
    requires cmp(s[mid], s[j]) == Less
    ensures j > mid && Scanning(s, left, i, mid, j - 1, right, cmp)
  {
    ComparesEqualToItself(s[mid], cmp);
  }

  lemma BothOnKey<T(!new)>(s: seq<T>, left: nat, i: nat, mid: nat, j: nat, right: nat, cmp: (T, T) -> Ordering)
    requires TotalPreorder(cmp) && SortedWithin(s, left, right + 1, cmp) && Scanning(s, left, i, mid, j, right, cmp)
    requires cmp(s[i], s[mid]) != Less && cmp(s[mid], s[j]) != Less
    ensures cmp(s[i], s[mid]) == Equal && cmp(s[mid], s[j]) == Equal && cmp(s[i], s[j]) == Equal
  {
    ComparesEqualToItself(s[mid], cmp);
    assert i < mid ==> Le(cmp, s[i], s[mid]);
    assert mid < j ==> Le(cmp, s[mid], s[j]);
    EqualThrough(s[i], s[mid], s[j], cmp);
  }

  /** After a swap of equal keys the next pair, if any, stands on the same key. */
  lemma StepsInward<T(!new)>(s: seq<T>, t: seq<T>, left: nat, i: nat, mid: nat, j: nat, right: nat, cmp: (T, T) -> Ordering)
    requires TotalPreorder(cmp) && SortedWithin(s, left, right + 1, cmp) && Scanning(s, left, i, mid, j, right, cmp)
    requires cmp(s[i], s[mid]) == Equal && cmp(s[mid], s[j]) == Equal
    requires Shuffled(s, t, left, right + 1, cmp) && i + 1 <= j - 1
    ensures Scanning(t, left, i + 1, mid, j - 1, right, cmp)
  {
    var x := s[mid];
    assert Le(cmp, s[i], s[i + 1]) && Le(cmp, s[j - 1], s[j]);
    assert i + 1 < j - 1 ==> Le(cmp, s[i + 1], s[j - 1]);
    Squeezed(s[i], s[i + 1], s[j], x, cmp);
    Squeezed(s[i], s[j - 1], s[j], x, cmp);
    SameComparison(s[i + 1], t[i + 1], s[mid], t[mid], cmp);
    SameComparison(s[j - 1], t[j - 1], s[mid], t[mid], cmp);
  }

  lemma Squeezed<T(!new)>(a: T, b: T, c: T, x: T, cmp: (T, T) -> Ordering)
    requires TotalPreorder(cmp) && cmp(a, x) == Equal && cmp(x, c) == Equal && Le(cmp, a, b) && Le(cmp, b, c)
    ensures cmp(b, x) == Equal
  {
    assert Le(cmp, x, a) && Le(cmp, c, x);
    assert Le(cmp, x, b) && Le(cmp, b, x);
  }

  lemma SameComparison<T(!new)>(a: T, b: T, x: T, y: T, cmp: (T, T) -> Ordering)
    requires TotalPreorder(cmp) && cmp(a, b) == Equal && cmp(x, y) == Equal && cmp(a, x) == Equal
    ensures cmp(b, y) == Equal && cmp(y, b) == Equal
  {
    EqualThrough(a, x, y, cmp);
    EqualThrough(a, b, b, cmp) by { ComparesEqualToItself(b, cmp); }
    EqualThrough(b, a, y, cmp);
    EqualThrough(y, y, b, cmp) by {
      ComparesEqualToItself(y, cmp);
      EqualThrough(b, y, y, cmp);
    }
  }

  method Sort<T(!new)>(keys: array<T>, cmp: (T, T) -> Ordering)
    requires TotalPreorder(cmp) && SortedBy(keys[..], cmp)
    modifies keys
    ensures multiset(keys[..]) == multiset(old(keys[..]))
    ensures forall k | 0 <= k < keys.Length :: cmp(old(keys[k]), keys[k]) == Equal
    ensures SortedBy(keys[..], cmp)
  {
    ghost var was := keys[..];
    if keys.Length < 2 {
      forall k | 0 <= k < keys.Length
        ensures cmp(old(keys[k]), keys[k]) == Equal
      {
        ComparesEqualToItself(keys[k], cmp);
      }
      return;
    }
    DepthLimitedQuickSort(keys, 0, keys.Length - 1, QuickSortDepthThreshold, cmp);
    assert was[0..keys.Length] == was && keys[0..keys.Length] == keys[..];
    assert forall k | 0 <= k < keys.Length :: cmp(was[k], keys[..][k]) == Equal;
  }

  method DepthLimitedQuickSort<T(!new)>(keys: array<T>, first: nat, last: nat, limit: nat, cmp: (T, T) -> Ordering)
    requires TotalPreorder(cmp) && first < last < keys.Length && SortedWithin(keys[..], first, last + 1, cmp)
    modifies keys
    ensures Shuffled(old(keys[..]), keys[..], first, last + 1, cmp)
    decreases limit
  {
    hide *;
    ghost var was := keys[..];
    var left, right := first, last;
    var depthLimit: nat := limit;
    NotShuffled(was, first, last + 1, cmp);
    while true
      invariant first <= left < right <= last && depthLimit <= limit
      invariant Shuffled(was, keys[..], first, last + 1, cmp)
      decreases depthLimit
    {
      ghost var s := keys[..];
      ShuffledIsSorted(was, s, first, last + 1, left, right + 1, cmp);
      if depthLimit == 0 {
        HeapSort(keys, left, right, cmp);
        SortedAgainWithin(s, keys[..], left, right + 1, cmp);
        ShuffledPart(was, s, keys[..], left, right + 1, first, last + 1, cmp);
        return;
      }

      var i, j := left, right;
      var mid := i + (j - i) / 2;
      SwapIfGreater(keys, cmp, i, mid);
      NothingGreater(s, keys[..], i, mid, left, right + 1, cmp);
      SwapIfGreater(keys, cmp, i, j);
      NothingGreater(s, keys[..], i, j, left, right + 1, cmp);
      SwapIfGreater(keys, cmp, mid, j);
      NothingGreater(s, keys[..], mid, j, left, right + 1, cmp);

      StartsScanning(s, left, mid, right, cmp);
      i, j := PartitionByKey(keys, left, right, mid, cmp);
      ghost var t := keys[..];
      ShuffledPart(was, s, t, left, right + 1, first, last + 1, cmp);
      depthLimit := depthLimit - 1;

      if (if j < left then 0 else j - left) <= right - i {
        if left < j {
          ShuffledIsSorted(was, t, first, last + 1, left, j + 1, cmp);
          DepthLimitedQuickSort(keys, left, j, depthLimit, cmp);
          ShuffledPart(was, t, keys[..], left, j + 1, first, last + 1, cmp);
        }
        left := i;
      } else {
        if i < right {
          ShuffledIsSorted(was, t, first, last + 1, i, right + 1, cmp);
          DepthLimitedQuickSort(keys, i, right, depthLimit, cmp);
          ShuffledPart(was, t, keys[..], i, right + 1, first, last + 1, cmp);
        }
        right := j;
      }

      if left >= right {
        break;
      }
    }
  }

  /** The inner loop: `right - i` is safe afterwards and only equal keys have been swapped. */
  method PartitionByKey<T(!new)>(keys: array<T>, left: nat, right: nat, mid: nat, cmp: (T, T) -> Ordering) returns (i: nat, j: nat)
    requires TotalPreorder(cmp) && left <= mid < right < keys.Length && SortedWithin(keys[..], left, right + 1, cmp)
    requires Scanning(keys[..], left, left, mid, right, right, cmp)
    modifies keys
    ensures Shuffled(old(keys[..]), keys[..], left, right + 1, cmp)
    ensures left < i <= right && j <= right && j < i
  {
    hide *;
    ghost var was := keys[..];
    i, j := left, right;
    NotShuffled(was, left, right + 1, cmp);
    while true
      invariant left <= i <= j <= right
      invariant Shuffled(was, keys[..], left, right + 1, cmp)
      invariant Scanning(keys[..], left, i, mid, j, right, cmp)
      decreases j - i
    {
      ghost var s := keys[..];
      ghost var i0, j0 := i, j;
      ShuffledIsSorted(was, s, left, right + 1, left, right + 1, cmp);
      while cmp(keys[i], keys[mid]) == Less
        invariant i0 <= i <= j && keys[..] == s && Scanning(s, left, i, mid, j, right, cmp)
        decreases j - i
      {
        ScansUp(s, left, i, mid, j, right, cmp);
        i := i + 1;
        ScanningBounds(s, left, i, mid, j, right, cmp);
      }

      while cmp(keys[mid], keys[j]) == Less
        invariant i <= j <= j0 && keys[..] == s && Scanning(s, left, i, mid, j, right, cmp)
        decreases j - i
      {
        ScansDown(s, left, i, mid, j, right, cmp);
        j := j - 1;
        ScanningBounds(s, left, i, mid, j, right, cmp);
      }

      // `i` never passes `j` here, so the third arm of the match is not taken
      ScanningBounds(s, left, i, mid, j, right, cmp);
      BothOnKey(s, left, i, mid, j, right, cmp);
      if i < j {
        keys[i], keys[j] := keys[j], keys[i];
        SwapsEqual(s, keys[..], i, j, left, right + 1, cmp);
      } else {
        NotShuffled(s, left, right + 1, cmp);
      }
      ghost var t := keys[..];
      ShuffledTwice(was, s, t, left, right + 1, cmp);

      ghost var i1, j1 := i, j;
      i := i + 1;
      j := if j == 0 then 0 else j - 1;
      if i > j {
        break;
      }
      StepsInward(s, t, left, i1, mid, j1, right, cmp);
    }
  }

  lemma SwapsEqual<T(!new)>(s: seq<T>, t: seq<T>, i: nat, j: nat, lo: nat, hi: nat, cmp: (T, T) -> Ordering)
    requires TotalPreorder(cmp) && SortedWithin(s, lo, hi, cmp)
    requires lo <= i < hi <= |s| && lo <= j < hi && cmp(s[i], s[j]) == Equal && t == s[i := s[j]][j := s[i]]
    ensures Shuffled(s, t, lo, hi, cmp)
  {
    SwapShuffles(s, i, j, lo, hi, cmp);
  }

  lemma ScanningBounds<T(!new)>(s: seq<T>, left: nat, i: nat, mid: nat, j: nat, right: nat, cmp: (T, T) -> Ordering)
    requires Scanning(s, left, i, mid, j, right, cmp)
    ensures left <= i <= j <= right && i + j < 2 * right && i < right
  {}

  lemma StartsScanning<T(!new)>(s: seq<T>, left: nat, mid: nat, right: nat, cmp: (T, T) -> Ordering)
    requires left <= mid < right < |s|
    ensures Scanning(s, left, left, mid, right, right, cmp)
  {}

  lemma ShuffledIsSorted<T(!new)>(s: seq<T>, t: seq<T>, lo: nat, hi: nat, from: nat, to: nat, cmp: (T, T) -> Ordering)
    requires Shuffled(s, t, lo, hi, cmp) && lo <= from <= to <= hi
    ensures SortedWithin(t, from, to, cmp)
  {}

  lemma ShuffledPart<T(!new)>(was: seq<T>, s: seq<T>, t: seq<T>, from: nat, to: nat, lo: nat, hi: nat, cmp: (T, T) -> Ordering)
    requires TotalPreorder(cmp) && Shuffled(was, s, lo, hi, cmp) && lo <= from && to <= hi
    requires Shuffled(s, t, from, to, cmp)
    ensures Shuffled(was, t, lo, hi, cmp)
  {
    ShuffledIsSorted(was, s, lo, hi, lo, hi, cmp) by { SortedBounds(s, lo, hi, cmp); }
    hide *;
    PartShuffled(s, t, from, to, lo, hi, cmp);
    ShuffledTwice(was, s, t, lo, hi, cmp);
  }
}

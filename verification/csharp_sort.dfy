/** C#'s introspective sort. */
module CsharpSort {
  import opened Orders
  import opened Sorting

  const IntroSortSizeThreshold := 16

  /** The floor of the binary logarithm of a positive number. */
  function Ilog2(n: nat): (r: nat)
    requires n > 0
  {
    if n == 1 then 0 else 1 + Ilog2(n / 2)
  }

  function PowerOf2(n: nat): nat {
    if n == 0 then 1 else 2 * PowerOf2(n - 1)
  }

  lemma {:induction false} Ilog2Is(n: nat)
    requires n > 0
    ensures PowerOf2(Ilog2(n)) <= n < 2 * PowerOf2(Ilog2(n))
  {
    if n > 1 {
      Ilog2Is(n / 2);
    }
  }

  method Sort<T(!new)>(keys: array<T>, cmp: (T, T) -> Ordering)
    requires TotalPreorder(cmp)
    modifies keys
    ensures SortedBy(keys[..], cmp) && multiset(keys[..]) == multiset(old(keys[..]))
  {
    ghost var was := keys[..];
    if keys.Length >= 2 {
      IntroSort(keys, 0, keys.Length - 1, 2 * Ilog2(keys.Length), cmp);
      assert was[0..keys.Length] == was && keys[0..keys.Length] == keys[..];
    }
  }

  method IntroSort<T(!new)>(keys: array<T>, lo: nat, last: nat, limit: nat, cmp: (T, T) -> Ordering)
    requires TotalPreorder(cmp) && lo <= last < keys.Length
    modifies keys
    ensures PermutedWithin(old(keys[..]), keys[..], lo, last + 1)
    ensures SortedWithin(keys[..], lo, last + 1, cmp)
    decreases last - lo
  {
    assert IntroSortSizeThreshold == 16;
    hide *;
    ghost var was := keys[..];
    var hi, depthLimit := last, limit;
    StartsWhole(was, lo, hi, cmp);
    while hi > lo
      invariant lo <= hi <= last
      invariant Rest(was, keys[..], lo, hi, last, cmp)
    {
      ghost var s := keys[..];
      var partitionSize := hi - lo + 1;

      if partitionSize <= IntroSortSizeThreshold {
        SortShort(keys, lo, hi, cmp);
        RestSorted(was, s, keys[..], lo, hi, last, cmp);
        return;
      }

      if depthLimit == 0 {
        HeapSort(keys, lo, hi, cmp);
        RestSorted(was, s, keys[..], lo, hi, last, cmp);
        return;
      }

      depthLimit := depthLimit - 1;
      var p := PickPivotAndPartition(keys, lo, hi, cmp);
      ghost var t := keys[..];
      IntroSort(keys, p + 1, hi, depthLimit, cmp);
      RestPartitioned(was, s, t, keys[..], lo, p, hi, last, cmp);
      hi := p - 1;
    }
    OneLeft(was, keys[..], lo, hi, last, cmp);
  }

  /** The match on the size of a short part, here always at least 2. */
  method SortShort<T(!new)>(keys: array<T>, lo: nat, hi: nat, cmp: (T, T) -> Ordering)
    requires TotalPreorder(cmp) && lo < hi < keys.Length
    modifies keys
    ensures PermutedWithin(old(keys[..]), keys[..], lo, hi + 1)
    ensures SortedWithin(keys[..], lo, hi + 1, cmp)
  {
    hide *;
    ghost var s := keys[..];
    if hi - lo + 1 == 2 {
      SwapIfGreater(keys, cmp, lo, hi);
      SortedPair(s, keys[..], lo, cmp);
    } else if hi - lo + 1 == 3 {
      SwapIfGreater(keys, cmp, lo, hi - 1);
      ghost var t := keys[..];
      SwapIfGreater(keys, cmp, lo, hi);
      ghost var u := keys[..];
      SwapIfGreater(keys, cmp, hi - 1, hi);
      SortedTriple(s, t, u, keys[..], lo, cmp);
    } else {
      InsertionSort(keys, lo, hi, cmp);
    }
  }

  /** After some rounds: what is behind `hi` is sorted and nowhere below what is not. */
  ghost predicate Rest<T(!new)>(was: seq<T>, s: seq<T>, lo: nat, hi: nat, last: nat, cmp: (T, T) -> Ordering) {
    && PermutedWithin(was, s, lo, last + 1)
    && SortedWithin(s, hi + 1, last + 1, cmp) && Divided(s, lo, hi + 1, last + 1, cmp)
  }

  lemma StartsWhole<T(!new)>(s: seq<T>, lo: nat, hi: nat, cmp: (T, T) -> Ordering)
    requires lo <= hi < |s|
    ensures Rest(s, s, lo, hi, hi, cmp)
  {}

  lemma OneLeft<T(!new)>(was: seq<T>, s: seq<T>, lo: nat, hi: nat, last: nat, cmp: (T, T) -> Ordering)
    requires Rest(was, s, lo, hi, last, cmp) && lo == hi
    ensures PermutedWithin(was, s, lo, last + 1) && SortedWithin(s, lo, last + 1, cmp)
  {
    SortedTogether(s, lo, hi + 1, last + 1, cmp);
  }

  lemma RestSorted<T(!new)>(was: seq<T>, s: seq<T>, t: seq<T>, lo: nat, hi: nat, last: nat, cmp: (T, T) -> Ordering)
    requires lo <= hi <= last < |s| && Rest(was, s, lo, hi, last, cmp)
    requires PermutedWithin(s, t, lo, hi + 1) && SortedWithin(t, lo, hi + 1, cmp)
    ensures PermutedWithin(was, t, lo, last + 1) && SortedWithin(t, lo, last + 1, cmp)
  {
    hide PermutedWithin, SortedWithin, Divided;
    Widened(s, t, lo, hi + 1, lo, last + 1);
    Composed(was, s, t, lo, last + 1);
    StillSorted(s, t, lo, hi + 1, hi + 1, last + 1, cmp);
    StillDivided(s, t, lo, hi + 1, last + 1, cmp);
    SortedTogether(t, lo, hi + 1, last + 1, cmp);
  }

  /** `p` splits `lo..hi`, both included: nothing before it is above it, nothing behind below. */
  ghost predicate Partitioned<T(!new)>(s: seq<T>, lo: nat, p: nat, hi: nat, cmp: (T, T) -> Ordering) {
    && lo < p < hi < |s|
    && NoneAbove(s, lo, p, s[p], cmp) && NoneBelow(s, p + 1, hi + 1, s[p], cmp)
  }

  lemma RestPartitioned<T(!new)>(was: seq<T>, s: seq<T>, t: seq<T>, u: seq<T>, lo: nat, p: nat, hi: nat, last: nat, cmp: (T, T) -> Ordering)
    requires TotalPreorder(cmp) && Rest(was, s, lo, hi, last, cmp) && lo <= hi <= last < |s|
    requires PermutedWithin(s, t, lo, hi + 1) && Partitioned(t, lo, p, hi, cmp)
    requires PermutedWithin(t, u, p + 1, hi + 1) && SortedWithin(u, p + 1, hi + 1, cmp)
    ensures Rest(was, u, lo, p - 1, last, cmp)
  {
    hide PermutedWithin, SortedWithin, Divided, NoneAbove, NoneBelow, TotalPreorder;
    PermutedTwice(was, s, t, u, lo, p, hi, last);
    StillSorted(s, t, lo, hi + 1, hi + 1, last + 1, cmp);
    StillSorted(t, u, p + 1, hi + 1, hi + 1, last + 1, cmp);
    StillDivided(s, t, lo, hi + 1, last + 1, cmp);
    Widened(t, u, p + 1, hi + 1, lo, hi + 1);
    StillDivided(t, u, lo, hi + 1, last + 1, cmp);
    SortedTogetherFromMiddle(u, lo, p + 1, hi + 1, last + 1, cmp);
    StillNoneBelow(t, u, p + 1, hi + 1, t[p], cmp);
    OutsideUnchanged(t, u, p + 1, hi + 1);
    StillNoneAboveOutside(t, u, lo, p, hi, cmp);
    PivotDivides(u, lo, p, hi, last, cmp);
  }

  lemma PermutedTwice<T>(was: seq<T>, s: seq<T>, t: seq<T>, u: seq<T>, lo: nat, p: nat, hi: nat, last: nat)
    requires lo <= p <= hi <= last < |s| && PermutedWithin(was, s, lo, last + 1)
    requires PermutedWithin(s, t, lo, hi + 1) && PermutedWithin(t, u, p + 1, hi + 1)
    ensures |was| == |s| == |t| == |u| && PermutedWithin(was, u, lo, last + 1)
  {
    Widened(s, t, lo, hi + 1, lo, last + 1);
    Widened(t, u, p + 1, hi + 1, lo, last + 1);
  }

  lemma SortedTogetherFromMiddle<T(!new)>(s: seq<T>, lo: nat, from: nat, mid: nat, hi: nat, cmp: (T, T) -> Ordering)
    requires lo <= from && SortedWithin(s, from, mid, cmp) && SortedWithin(s, mid, hi, cmp) && Divided(s, lo, mid, hi, cmp)
    ensures SortedWithin(s, from, hi, cmp)
  {
    forall i, j | from <= i < j < hi
      ensures Le(cmp, s[i], s[j])
    {
      if i < mid <= j {
        assert NoneAbove(s, lo, mid, s[j], cmp);
      }
    }
  }

  lemma StillNoneAboveOutside<T(!new)>(t: seq<T>, u: seq<T>, lo: nat, p: nat, hi: nat, cmp: (T, T) -> Ordering)
    requires lo < p < hi < |t| == |u| && NoneAbove(t, lo, p, t[p], cmp)
    requires forall k | 0 <= k < |t| && !(p + 1 <= k < hi + 1) :: u[k] == t[k]
    ensures NoneAbove(u, lo, p, u[p], cmp)
  {}

  lemma PivotDivides<T(!new)>(u: seq<T>, lo: nat, p: nat, hi: nat, last: nat, cmp: (T, T) -> Ordering)
    requires TotalPreorder(cmp) && lo < p < hi <= last < |u|
    requires NoneAbove(u, lo, p, u[p], cmp) && NoneBelow(u, p + 1, hi + 1, u[p], cmp)
    requires SortedWithin(u, p + 1, last + 1, cmp) && Divided(u, lo, hi + 1, last + 1, cmp)
    ensures SortedWithin(u, p, last + 1, cmp) && Divided(u, lo, p, last + 1, cmp)
  {
    hide TotalPreorder;
    forall j | p <= j < last + 1
      ensures NoneAbove(u, lo, p, u[j], cmp) && (p < j ==> Le(cmp, u[p], u[j]))
    {
      if j > hi {
        assert NoneAbove(u, lo, hi + 1, u[j], cmp);
      } else if j > p {
        Through(u, lo, p, u[p], u[j], cmp);
      }
    }
  }

  lemma Through<T(!new)>(s: seq<T>, lo: nat, hi: nat, x: T, y: T, cmp: (T, T) -> Ordering)
    requires TotalPreorder(cmp) && NoneAbove(s, lo, hi, x, cmp) && Le(cmp, x, y)
    ensures NoneAbove(s, lo, hi, y, cmp)
  {}

  // ---------- short parts ----------

  lemma SortedPair<T(!new)>(s: seq<T>, t: seq<T>, lo: nat, cmp: (T, T) -> Ordering)
    requires TotalPreorder(cmp) && lo + 1 < |s|
    requires SwappedIfGreater(s, t, lo, lo + 1, cmp)
    ensures PermutedWithin(s, t, lo, lo + 2) && SortedWithin(t, lo, lo + 2, cmp)
  {
    SwapPermutes(s, lo, lo + 1, lo, lo + 2);
    Unchanged(s, lo, lo + 2);
  }

  lemma ConditionalSwapPermutes<T(!new)>(s: seq<T>, t: seq<T>, a: nat, b: nat, lo: nat, hi: nat, cmp: (T, T) -> Ordering)
    requires SwappedIfGreater(s, t, a, b, cmp) && lo <= a < hi <= |s| && lo <= b < hi
    ensures PermutedWithin(s, t, lo, hi)
  {
    SwapPermutes(s, a, b, lo, hi);
    Unchanged(s, lo, hi);
  }

  lemma ThreeSwapsPermute<T(!new)>(s: seq<T>, t: seq<T>, u: seq<T>, v: seq<T>, a: nat, b: nat, c: nat, lo: nat, hi: nat, cmp: (T, T) -> Ordering)
    requires lo <= a < b < c < hi <= |s|
    requires SwappedIfGreater(s, t, a, b, cmp) && SwappedIfGreater(t, u, a, c, cmp) && SwappedIfGreater(u, v, b, c, cmp)
    ensures PermutedWithin(s, v, lo, hi)
  {
    hide PermutedWithin;
    ConditionalSwapPermutes(s, t, a, b, lo, hi, cmp);
    ConditionalSwapPermutes(t, u, a, c, lo, hi, cmp);
    ConditionalSwapPermutes(u, v, b, c, lo, hi, cmp);
    Composed(s, t, u, lo, hi);
    Composed(s, u, v, lo, hi);
  }

  lemma ThreeSwapsSort<T(!new)>(s: seq<T>, t: seq<T>, u: seq<T>, v: seq<T>, a: nat, b: nat, c: nat, cmp: (T, T) -> Ordering)
    requires TotalPreorder(cmp) && a < b < c < |s|
    requires SwappedIfGreater(s, t, a, b, cmp) && SwappedIfGreater(t, u, a, c, cmp) && SwappedIfGreater(u, v, b, c, cmp)
    ensures |v| == |s| && Le(cmp, v[a], v[b]) && Le(cmp, v[b], v[c]) && Le(cmp, v[a], v[c])
  {
    assert Le(cmp, t[a], t[b]);
    if cmp(t[a], t[c]) == Greater {
      assert cmp(t[c], t[a]) == Less;
      assert Le(cmp, u[a], u[c]) && Le(cmp, u[a], u[b]);
    }
    assert cmp(u[b], u[c]) == Greater ==> Le(cmp, u[c], u[b]);
  }

  lemma SortedTriple<T(!new)>(s: seq<T>, t: seq<T>, u: seq<T>, v: seq<T>, lo: nat, cmp: (T, T) -> Ordering)
    requires TotalPreorder(cmp) && lo + 2 < |s|
    requires SwappedIfGreater(s, t, lo, lo + 1, cmp) && SwappedIfGreater(t, u, lo, lo + 2, cmp)
    requires SwappedIfGreater(u, v, lo + 1, lo + 2, cmp)
    ensures PermutedWithin(s, v, lo, lo + 3) && SortedWithin(v, lo, lo + 3, cmp)
  {
    hide TotalPreorder, SwappedIfGreater;
    ThreeSwapsPermute(s, t, u, v, lo, lo + 1, lo + 2, lo, lo + 3, cmp);
    ThreeSwapsSort(s, t, u, v, lo, lo + 1, lo + 2, cmp);
  }

  // ---------- insertion ----------

  /** The part `from..to`, both included, with its last element moved to its front. */
  function RotatedRight<T>(s: seq<T>, from: nat, to: nat): (r: seq<T>)
    requires from <= to < |s|
    ensures |r| == |s|
  {
    s[..from] + [s[to]] + s[from..to] + s[to + 1..]
  }

  lemma RotationPermutes<T>(s: seq<T>, from: nat, to: nat, lo: nat, hi: nat)
    requires lo <= from <= to < hi <= |s|
    ensures PermutedWithin(s, RotatedRight(s, from, to), lo, hi)
  {
    var r := RotatedRight(s, from, to);
    var front, moved, passed, rest := s[lo..from], [s[to]], s[from..to], s[to + 1..hi];
    RotatedParts(s, from, to, lo, hi);
    hide RotatedRight;
    assert multiset(r[lo..hi]) == multiset(front) + multiset(moved) + multiset(passed) + multiset(rest);
    assert multiset(s[lo..hi]) == multiset(front) + multiset(passed) + multiset(moved) + multiset(rest);
  }

  lemma RotatedParts<T>(s: seq<T>, from: nat, to: nat, lo: nat, hi: nat)
    requires lo <= from <= to < hi <= |s|
    ensures var r := RotatedRight(s, from, to);
      && r[..lo] == s[..lo] && r[hi..] == s[hi..]
      && r[lo..hi] == s[lo..from] + [s[to]] + s[from..to] + s[to + 1..hi]
      && s[lo..hi] == s[lo..from] + s[from..to] + [s[to]] + s[to + 1..hi]
  {}

  /** The standard library's rotation by one to the right. */
  method RotateRight<T>(keys: array<T>, from: nat, to: nat)
    requires from <= to < keys.Length
    modifies keys
    ensures keys[..] == RotatedRight(old(keys[..]), from, to)
  {
    var last := keys[to];
    for k := to downto from
      invariant forall m | 0 <= m <= k :: keys[m] == old(keys[m])
      invariant forall m | k < m <= to :: keys[m] == old(keys[m - 1])
      invariant forall m | to < m < keys.Length :: keys[m] == old(keys[m])
    {
      keys[k + 1] := keys[k];
    }
    keys[from] := last;
  }

  lemma InsertedSorted<T(!new)>(s: seq<T>, lo: nat, from: nat, to: nat, cmp: (T, T) -> Ordering)
    requires TotalPreorder(cmp) && lo <= from <= to < |s| && SortedWithin(s, lo, to, cmp)
    requires from > lo ==> Le(cmp, s[from - 1], s[to])
    requires forall k | from <= k < to :: cmp(s[to], s[k]) == Less
    ensures SortedWithin(RotatedRight(s, from, to), lo, to + 1, cmp)
  {
    var r := RotatedRight(s, from, to);
    forall i, j | lo <= i < j < to + 1
      ensures Le(cmp, r[i], r[j])
    {
      if i < from && j == from {
        assert i < from - 1 ==> Le(cmp, s[i], s[from - 1]);
      }
    }
  }

  method InsertionSort<T(!new)>(keys: array<T>, lo: nat, hi: nat, cmp: (T, T) -> Ordering)
    requires TotalPreorder(cmp) && lo <= hi < keys.Length
    modifies keys
    ensures PermutedWithin(old(keys[..]), keys[..], lo, hi + 1)
    ensures SortedWithin(keys[..], lo, hi + 1, cmp)
  {
    hide *;
    ghost var was := keys[..];
    StartsWithOne(was, lo, hi, cmp);
    for i := lo to hi
      invariant PermutedWithin(was, keys[..], lo, hi + 1) && SortedWithin(keys[..], lo, i + 1, cmp)
    {
      ghost var s := keys[..];
      var t := keys[i + 1];
      var shift := 0;
      while shift <= i - lo && cmp(t, keys[i - shift]) == Less
        invariant 0 <= shift <= i - lo + 1
        invariant forall k | i - shift < k <= i :: cmp(t, keys[k]) == Less
      {
        shift := shift + 1;
      }
      RotateRight(keys, i + 1 - shift, i + 1);
      Inserts(was, s, keys[..], lo, i + 1 - shift, i + 1, hi + 1, cmp);
    }
  }

  lemma StartsWithOne<T(!new)>(s: seq<T>, lo: nat, hi: nat, cmp: (T, T) -> Ordering)
    requires lo <= hi < |s|
    ensures PermutedWithin(s, s, lo, hi + 1) && SortedWithin(s, lo, lo + 1, cmp)
  {}

  lemma Inserts<T(!new)>(was: seq<T>, s: seq<T>, t: seq<T>, lo: nat, from: nat, to: nat, hi: nat, cmp: (T, T) -> Ordering)
    requires TotalPreorder(cmp) && lo <= from <= to < hi <= |s| && SortedWithin(s, lo, to, cmp)
    requires PermutedWithin(was, s, lo, hi) && t == RotatedRight(s, from, to)
    requires from > lo ==> cmp(s[to], s[from - 1]) != Less
    requires forall k | from <= k < to :: cmp(s[to], s[k]) == Less
    ensures PermutedWithin(was, t, lo, hi) && SortedWithin(t, lo, to + 1, cmp)
  {
    hide PermutedWithin, SortedWithin, RotatedRight;
    RotationPermutes(s, from, to, lo, hi);
    Composed(was, s, t, lo, hi);
    InsertedSorted(s, lo, from, to, cmp);
  }

  // ---------- the partition ----------

  /** The pivot waits at `hi - 1`; what is up to `left` is not above it, what is from `right`
      on not below it. */
  ghost predicate Partitioning<T(!new)>(was: seq<T>, s: seq<T>, lo: nat, left: nat, right: nat, hi: nat, cmp: (T, T) -> Ordering) {
    && lo <= left < hi - 1 < hi < |s| && lo < right <= hi - 1
    && PermutedWithin(was, s, lo, hi + 1)
    && NoneAbove(s, lo, left + 1, s[hi - 1], cmp) && NoneBelow(s, right, hi + 1, s[hi - 1], cmp)
  }

  lemma StartsPartition<T(!new)>(was: seq<T>, t: seq<T>, u: seq<T>, v: seq<T>, lo: nat, mid: nat, hi: nat, cmp: (T, T) -> Ordering)
    requires TotalPreorder(cmp) && lo < mid < hi - 1 < hi < |was|
    requires SwappedIfGreater(was, t, lo, mid, cmp) && SwappedIfGreater(t, u, lo, hi, cmp) && SwappedIfGreater(u, v, mid, hi, cmp)
    ensures |v| == |was|
    ensures Partitioning(was, Swapped(v, mid, hi - 1), lo, lo, hi - 1, hi, cmp)
  {
    hide SwappedIfGreater, PermutedWithin, TotalPreorder, Le, NoneAbove, NoneBelow;
    ThreeSwapsPermute(was, t, u, v, lo, mid, hi, lo, hi + 1, cmp);
    ThreeSwapsSort(was, t, u, v, lo, mid, hi, cmp);
    SwapPermutes(v, mid, hi - 1, lo, hi + 1);
    Composed(was, v, Swapped(v, mid, hi - 1), lo, hi + 1);
    PivotSetAside(v, lo, mid, hi, cmp);
  }

  lemma PivotSetAside<T(!new)>(v: seq<T>, lo: nat, mid: nat, hi: nat, cmp: (T, T) -> Ordering)
    requires TotalPreorder(cmp) && lo < mid < hi - 1 < hi < |v|
    requires Le(cmp, v[lo], v[mid]) && Le(cmp, v[mid], v[hi])
    ensures var s := Swapped(v, mid, hi - 1);
      NoneAbove(s, lo, lo + 1, s[hi - 1], cmp) && NoneBelow(s, hi - 1, hi + 1, s[hi - 1], cmp)
  {
    ComparesEqualToItself(v[mid], cmp);
  }

  method PickPivotAndPartition<T(!new)>(keys: array<T>, lo: nat, hi: nat, cmp: (T, T) -> Ordering) returns (left: nat)
    requires TotalPreorder(cmp) && lo + 3 <= hi < keys.Length
    modifies keys
    ensures lo < left < hi
    ensures PermutedWithin(old(keys[..]), keys[..], lo, hi + 1) && Partitioned(keys[..], lo, left, hi, cmp)
  {
    hide *;
    ghost var was := keys[..];
    var mid := lo + (hi - lo) / 2;
    SwapIfGreater(keys, cmp, lo, mid);
    ghost var t := keys[..];
    SwapIfGreater(keys, cmp, lo, hi);
    ghost var u := keys[..];
    SwapIfGreater(keys, cmp, mid, hi);
    ghost var v := keys[..];
    Swap(keys, mid, hi - 1);
    StartsPartition(was, t, u, v, lo, mid, hi, cmp);

    left := lo;
    var right := hi - 1;
    var pivotIdx := right;
    while left < right
      invariant lo <= left < right <= hi - 1
      invariant Partitioning(was, keys[..], lo, left, right, hi, cmp)
      decreases right - left
    {
      ghost var s := keys[..];
      ghost var left0, right0 := left, right;
      Sentinels(was, s, lo, left, right, hi, cmp);
      left := left + 1;
      while cmp(keys[left], keys[pivotIdx]) == Less
        invariant left0 < left <= hi - 1 && keys[..] == s
        invariant forall k | left0 < k < left :: Le(cmp, s[k], s[hi - 1])
        decreases hi - left
      {
        LessIsLe(s[left], s[hi - 1], cmp);
        left := left + 1;
      }

      right := right - 1;
      while cmp(keys[pivotIdx], keys[right]) == Less
        invariant left0 <= right < right0 && keys[..] == s
        invariant forall k | right < k < right0 :: Le(cmp, s[hi - 1], s[k])
        decreases right
      {
        LessIsLe(s[hi - 1], s[right], cmp);
        right := right - 1;
      }

      HasScanned(s, left0, left, right, right0, hi, cmp);
      if left >= right {
        Crossed(was, s, lo, left0, left, right, right0, hi, cmp);
        break;
      }

      Swap(keys, left, right);
      Exchanged(was, s, lo, left0, left, right, right0, hi, cmp);
    }
    Swap(keys, left, hi - 1);
  }

  lemma LessIsLe<T(!new)>(x: T, y: T, cmp: (T, T) -> Ordering)
    requires cmp(x, y) == Less
    ensures Le(cmp, x, y)
  {}

  lemma NotLessIsGe<T(!new)>(x: T, y: T, cmp: (T, T) -> Ordering)
    requires TotalPreorder(cmp) && cmp(x, y) != Less
    ensures Le(cmp, y, x)
  {}

  /** Both scans meet an element that stops them. */
  lemma Sentinels<T(!new)>(was: seq<T>, s: seq<T>, lo: nat, left: nat, right: nat, hi: nat, cmp: (T, T) -> Ordering)
    requires TotalPreorder(cmp) && Partitioning(was, s, lo, left, right, hi, cmp)
    ensures hi < |s| && cmp(s[hi - 1], s[hi - 1]) != Less && cmp(s[hi - 1], s[left]) != Less
  {
    ComparesEqualToItself(s[hi - 1], cmp);
    assert Le(cmp, s[left], s[hi - 1]);
  }

  /** Where the scans that started at `left0` and `right0` have stopped. */
  ghost predicate Scanned<T(!new)>(s: seq<T>, left0: nat, left: nat, right: nat, right0: nat, hi: nat, cmp: (T, T) -> Ordering) {
    && left0 < left <= hi - 1 < |s| && left0 <= right < right0 <= hi - 1
    && (forall k | left0 < k < left :: Le(cmp, s[k], s[hi - 1]))
    && (forall k | right < k < right0 :: Le(cmp, s[hi - 1], s[k]))
    && cmp(s[left], s[hi - 1]) != Less && cmp(s[hi - 1], s[right]) != Less
  }

  lemma HasScanned<T(!new)>(s: seq<T>, left0: nat, left: nat, right: nat, right0: nat, hi: nat, cmp: (T, T) -> Ordering)
    requires left0 < left <= hi - 1 < |s| && left0 <= right < right0 <= hi - 1
    requires forall k | left0 < k < left :: Le(cmp, s[k], s[hi - 1])
    requires forall k | right < k < right0 :: Le(cmp, s[hi - 1], s[k])
    requires cmp(s[left], s[hi - 1]) != Less && cmp(s[hi - 1], s[right]) != Less
    ensures Scanned(s, left0, left, right, right0, hi, cmp)
  {}

  lemma Exchanged<T(!new)>(was: seq<T>, s: seq<T>, lo: nat, left0: nat, left: nat, right: nat, right0: nat, hi: nat, cmp: (T, T) -> Ordering)
    requires TotalPreorder(cmp) && Partitioning(was, s, lo, left0, right0, hi, cmp)
    requires Scanned(s, left0, left, right, right0, hi, cmp) && left < right
    ensures Partitioning(was, Swapped(s, left, right), lo, left, right, hi, cmp)
  {
    var t := Swapped(s, left, right);
    NotLessIsGe(s[left], s[hi - 1], cmp);
    NotLessIsGe(s[hi - 1], s[right], cmp);
    hide TotalPreorder, Le, PermutedWithin, NoneAbove, NoneBelow;
    BothSides(s, t, lo, left0, left, right, right0, hi, cmp);
    SwapPermutes(s, left, right, lo, hi + 1);
    Composed(was, s, t, lo, hi + 1);
  }

  lemma BothSides<T(!new)>(s: seq<T>, t: seq<T>, lo: nat, left0: nat, left: nat, right: nat, right0: nat, hi: nat, cmp: (T, T) -> Ordering)
    requires Scanned(s, left0, left, right, right0, hi, cmp) && lo <= left0 && left < right && hi < |s|
    requires NoneAbove(s, lo, left0 + 1, s[hi - 1], cmp) && NoneBelow(s, right0, hi + 1, s[hi - 1], cmp)
    requires Le(cmp, s[right], s[hi - 1]) && Le(cmp, s[hi - 1], s[left]) && t == Swapped(s, left, right)
    ensures NoneAbove(t, lo, left + 1, s[hi - 1], cmp) && NoneBelow(t, right, hi + 1, s[hi - 1], cmp)
  {
    hide Le;
  }

  lemma Crossed<T(!new)>(was: seq<T>, s: seq<T>, lo: nat, left0: nat, left: nat, right: nat, right0: nat, hi: nat, cmp: (T, T) -> Ordering)
    requires TotalPreorder(cmp) && Partitioning(was, s, lo, left0, right0, hi, cmp)
    requires Scanned(s, left0, left, right, right0, hi, cmp) && left >= right
    ensures PermutedWithin(was, Swapped(s, left, hi - 1), lo, hi + 1)
    ensures Partitioned(Swapped(s, left, hi - 1), lo, left, hi, cmp)
  {
    hide TotalPreorder, Le, PermutedWithin, NoneAbove, NoneBelow, Swapped;
    var t := Swapped(s, left, hi - 1);
    PivotBelowLeft(s, left0, left, right, right0, hi, cmp);
    PivotBetween(s, t, lo, left0, left, right, right0, hi, cmp);
    SwapPermutes(s, left, hi - 1, lo, hi + 1);
    Composed(was, s, t, lo, hi + 1);
  }

  lemma PivotBelowLeft<T(!new)>(s: seq<T>, left0: nat, left: nat, right: nat, right0: nat, hi: nat, cmp: (T, T) -> Ordering)
    requires TotalPreorder(cmp) && Scanned(s, left0, left, right, right0, hi, cmp)
    ensures Le(cmp, s[hi - 1], s[left])
  {
    NotLessIsGe(s[left], s[hi - 1], cmp);
    hide TotalPreorder, NoneAbove, NoneBelow;
  }

  lemma PivotBetween<T(!new)>(s: seq<T>, t: seq<T>, lo: nat, left0: nat, left: nat, right: nat, right0: nat, hi: nat, cmp: (T, T) -> Ordering)
    requires Scanned(s, left0, left, right, right0, hi, cmp) && lo <= left0 && left >= right && hi < |s|
    requires NoneAbove(s, lo, left0 + 1, s[hi - 1], cmp) && NoneBelow(s, right0, hi + 1, s[hi - 1], cmp)
    requires Le(cmp, s[hi - 1], s[left]) && t == Swapped(s, left, hi - 1)
    ensures NoneAbove(t, lo, left, t[left], cmp) && NoneBelow(t, left + 1, hi + 1, t[left], cmp)
  {
    hide Le;
  }
}

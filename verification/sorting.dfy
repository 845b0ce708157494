/** The hand-written in-place sorts on a part of an array: heap sort and the helpers the
    sorts share. */
module Sorting {
  import opened Orders

  // ---------- rearranging a part of a list ----------

  /** `t` is `s` with the elements at `lo..hi` in some other order. */
  ghost predicate PermutedWithin<T>(s: seq<T>, t: seq<T>, lo: nat, hi: nat) {
    && lo <= hi <= |s| == |t|
    && s[..lo] == t[..lo] && s[hi..] == t[hi..]
    && multiset(s[lo..hi]) == multiset(t[lo..hi])
  }

  function Swapped<T>(s: seq<T>, i: nat, j: nat): (t: seq<T>)
    requires i < |s| && j < |s|
    ensures |t| == |s|
  {
    s[i := s[j]][j := s[i]]
  }

  lemma SwapIs<T>(s: seq<T>, i: nat, j: nat)
    requires i < |s| && j < |s|
    ensures Swapped(s, i, j) == s[i := s[j]][j := s[i]]
  {}

  lemma Unchanged<T>(s: seq<T>, lo: nat, hi: nat)
    requires lo <= hi <= |s|
    ensures PermutedWithin(s, s, lo, hi)
  {}

  lemma SwapPermutes<T>(s: seq<T>, i: nat, j: nat, lo: nat, hi: nat)
    requires lo <= i < hi <= |s| && lo <= j < hi
    ensures PermutedWithin(s, Swapped(s, i, j), lo, hi)
  {
    SwapWithin(s, i, j, lo, hi);
    SwapKeeps(s[lo..hi], i - lo, j - lo);
    hide Swapped;
  }

  lemma SwapWithin<T>(s: seq<T>, i: nat, j: nat, lo: nat, hi: nat)
    requires lo <= i < hi <= |s| && lo <= j < hi
    ensures var t := Swapped(s, i, j);
      t[lo..hi] == Swapped(s[lo..hi], i - lo, j - lo) && s[..lo] == t[..lo] && s[hi..] == t[hi..]
  {}

  lemma SwapKeeps<T>(s: seq<T>, i: nat, j: nat)
    requires i < |s| && j < |s|
    ensures multiset(Swapped(s, i, j)) == multiset(s)
  {}

  lemma Composed<T>(s: seq<T>, t: seq<T>, u: seq<T>, lo: nat, hi: nat)
    requires PermutedWithin(s, t, lo, hi) && PermutedWithin(t, u, lo, hi)
    ensures PermutedWithin(s, u, lo, hi)
  {}

  lemma Widened<T>(s: seq<T>, t: seq<T>, lo: nat, hi: nat, from: nat, to: nat)
    requires PermutedWithin(s, t, lo, hi) && from <= lo && hi <= to <= |s|
    ensures PermutedWithin(s, t, from, to)
  {
    OutsideUnchanged(s, t, lo, hi);
    assert s[from..to] == s[from..lo] + s[lo..hi] + s[hi..to];
    assert t[from..to] == t[from..lo] + t[lo..hi] + t[hi..to];
    assert s[from..lo] == t[from..lo];
    assert s[hi..to] == t[hi..to];
    assert s[..from] == t[..from];
    assert s[to..] == t[to..];
  }

  lemma OutsideUnchanged<T>(s: seq<T>, t: seq<T>, lo: nat, hi: nat)
    requires PermutedWithin(s, t, lo, hi)
    ensures |s| == |t|
    ensures forall k | 0 <= k < |s| && !(lo <= k < hi) :: t[k] == s[k]
  {
    forall k | 0 <= k < |s| && !(lo <= k < hi)
      ensures t[k] == s[k]
    {
      if k < lo {
        assert t[..lo][k] == s[..lo][k];
      } else {
        assert t[hi..][k - hi] == s[hi..][k - hi];
      }
    }
  }

  // ---------- order within a part ----------

  ghost predicate SortedWithin<T(!new)>(s: seq<T>, lo: nat, hi: nat, cmp: (T, T) -> Ordering) {
    && lo <= hi <= |s|
    && forall i, j | lo <= i < j < hi :: Le(cmp, s[i], s[j])
  }

  ghost predicate NoneAbove<T(!new)>(s: seq<T>, lo: nat, hi: nat, bound: T, cmp: (T, T) -> Ordering) {
    && lo <= hi <= |s|
    && forall i | lo <= i < hi :: Le(cmp, s[i], bound)
  }

  ghost predicate NoneBelow<T(!new)>(s: seq<T>, lo: nat, hi: nat, bound: T, cmp: (T, T) -> Ordering) {
    && lo <= hi <= |s|
    && forall i | lo <= i < hi :: Le(cmp, bound, s[i])
  }

  /** Nothing in `lo..mid` is greater than anything in `mid..hi`. */
  ghost predicate Divided<T(!new)>(s: seq<T>, lo: nat, mid: nat, hi: nat, cmp: (T, T) -> Ordering) {
    && lo <= mid <= hi <= |s|
    && forall j | mid <= j < hi :: NoneAbove(s, lo, mid, s[j], cmp)
  }

  lemma StillNoneAbove<T(!new)>(s: seq<T>, t: seq<T>, lo: nat, hi: nat, bound: T, cmp: (T, T) -> Ordering)
    requires PermutedWithin(s, t, lo, hi) && NoneAbove(s, lo, hi, bound, cmp)
    ensures NoneAbove(t, lo, hi, bound, cmp)
  {
    forall i | lo <= i < hi
      ensures Le(cmp, t[i], bound)
    {
      assert t[lo..hi][i - lo] in multiset(t[lo..hi]);
      assert t[i] in s[lo..hi];
    }
  }

  lemma StillNoneBelow<T(!new)>(s: seq<T>, t: seq<T>, lo: nat, hi: nat, bound: T, cmp: (T, T) -> Ordering)
    requires PermutedWithin(s, t, lo, hi) && NoneBelow(s, lo, hi, bound, cmp)
    ensures NoneBelow(t, lo, hi, bound, cmp)
  {
    forall i | lo <= i < hi
      ensures Le(cmp, bound, t[i])
    {
      assert t[lo..hi][i - lo] in multiset(t[lo..hi]);
      assert t[i] in s[lo..hi];
    }
  }

  lemma StillDivided<T(!new)>(s: seq<T>, t: seq<T>, lo: nat, mid: nat, hi: nat, cmp: (T, T) -> Ordering)
    requires PermutedWithin(s, t, lo, mid) && Divided(s, lo, mid, hi, cmp)
    ensures Divided(t, lo, mid, hi, cmp)
  {
    hide PermutedWithin, NoneAbove;
    OutsideUnchanged(s, t, lo, mid);
    forall j | mid <= j < hi
      ensures NoneAbove(t, lo, mid, t[j], cmp)
    {
      StillNoneAbove(s, t, lo, mid, s[j], cmp);
    }
  }

  lemma StillSorted<T(!new)>(s: seq<T>, t: seq<T>, lo: nat, hi: nat, from: nat, to: nat, cmp: (T, T) -> Ordering)
    requires PermutedWithin(s, t, lo, hi) && SortedWithin(s, from, to, cmp)
    requires hi <= from || to <= lo
    ensures SortedWithin(t, from, to, cmp)
  {
    hide PermutedWithin;
    OutsideUnchanged(s, t, lo, hi);
  }

  /** Two sorted parts, the first nowhere above the second, are one sorted part. */
  lemma SortedTogether<T(!new)>(s: seq<T>, lo: nat, mid: nat, hi: nat, cmp: (T, T) -> Ordering)
    requires SortedWithin(s, lo, mid, cmp) && SortedWithin(s, mid, hi, cmp) && Divided(s, lo, mid, hi, cmp)
    ensures SortedWithin(s, lo, hi, cmp)
  {}

  // ---------- swaps ----------

  method Swap<T>(keys: array<T>, i: nat, j: nat)
    requires i < keys.Length && j < keys.Length
    modifies keys
    ensures keys[..] == Swapped(old(keys[..]), i, j)
  {
    if i != j {
      keys[i], keys[j] := keys[j], keys[i];
    }
  }

  /** What one conditional swap leaves. */
  ghost predicate SwappedIfGreater<T(!new)>(s: seq<T>, t: seq<T>, a: nat, b: nat, cmp: (T, T) -> Ordering) {
    && a < |s| && b < |s|
    && t == if cmp(s[a], s[b]) == Greater then Swapped(s, a, b) else s
  }

  method SwapIfGreater<T(!new)>(keys: array<T>, cmp: (T, T) -> Ordering, a: nat, b: nat)
    requires a < keys.Length && b < keys.Length && TotalPreorder(cmp)
    modifies keys
    ensures SwappedIfGreater(old(keys[..]), keys[..], a, b, cmp)
  {
    ComparesEqualToItself(keys[a], cmp);
    if a != b && cmp(keys[a], keys[b]) == Greater {
      keys[a], keys[b] := keys[b], keys[a];
    }
  }

  // ---------- heaps ----------

  /** Position `c` of the heap that starts at `lo`, counted from 1, is not above its parent. */
  ghost predicate UnderParent<T(!new)>(s: seq<T>, lo: nat, c: nat, cmp: (T, T) -> Ordering)
    requires 2 <= c && lo + c <= |s|
  {
    Le(cmp, s[lo + c - 1], s[lo + c / 2 - 1])
  }

  /** Positions `1..n` form a heap below every parent from `i` on. */
  ghost predicate HeapFrom<T(!new)>(s: seq<T>, lo: nat, n: nat, i: nat, cmp: (T, T) -> Ordering) {
    && lo + n <= |s|
    && forall c | 2 <= c <= n && i <= c / 2 :: UnderParent(s, lo, c, cmp)
  }

  /** The children of `i` are not above `x`. */
  ghost predicate ChildrenUnder<T(!new)>(s: seq<T>, lo: nat, n: nat, i: nat, x: T, cmp: (T, T) -> Ordering) {
    && lo + n <= |s| && 1 <= i
    && (2 * i <= n ==> Le(cmp, s[lo + 2 * i - 1], x))
    && (2 * i + 1 <= n ==> Le(cmp, s[lo + 2 * i], x))
  }

  /** A heap from `top` on except at `i`, whose children are under the parent of `i`. */
  ghost predicate HeapBut<T(!new)>(s: seq<T>, lo: nat, n: nat, top: nat, i: nat, cmp: (T, T) -> Ordering) {
    && 1 <= top <= i <= n && lo + n <= |s|
    && (forall c | 2 <= c <= n && top <= c / 2 && c / 2 != i :: UnderParent(s, lo, c, cmp))
    && (top <= i / 2 ==> ChildrenUnder(s, lo, n, i, s[lo + i / 2 - 1], cmp))
  }

  lemma SinksOneLevel<T(!new)>(s: seq<T>, lo: nat, n: nat, top: nat, i: nat, child: nat, cmp: (T, T) -> Ordering)
    requires TotalPreorder(cmp) && HeapBut(s, lo, n, top, i, cmp)
    requires 2 <= child <= n && child / 2 == i
    requires ChildrenUnder(s, lo, n, i, s[lo + child - 1], cmp)
    requires Le(cmp, s[lo + i - 1], s[lo + child - 1])
    ensures HeapBut(Swapped(s, lo + i - 1, lo + child - 1), lo, n, top, child, cmp)
  {
    hide TotalPreorder, Le;
    OthersStayUnder(s, lo, n, top, i, child, cmp);
    GrandchildrenUnder(s, lo, n, top, i, child, cmp);
  }

  lemma OthersStayUnder<T(!new)>(s: seq<T>, lo: nat, n: nat, top: nat, i: nat, child: nat, cmp: (T, T) -> Ordering)
    requires HeapBut(s, lo, n, top, i, cmp) && 2 <= child <= n && child / 2 == i
    requires ChildrenUnder(s, lo, n, i, s[lo + child - 1], cmp)
    requires Le(cmp, s[lo + i - 1], s[lo + child - 1])
    ensures forall c | 2 <= c <= n && top <= c / 2 && c / 2 != child ::
      UnderParent(Swapped(s, lo + i - 1, lo + child - 1), lo, c, cmp)
  {
    hide Le;
    var t := Swapped(s, lo + i - 1, lo + child - 1);
    forall c | 2 <= c <= n && top <= c / 2 && c / 2 != child
      ensures UnderParent(t, lo, c, cmp)
    {
      assert c / 2 != i ==> UnderParent(s, lo, c, cmp);
    }
  }

  lemma GrandchildrenUnder<T(!new)>(s: seq<T>, lo: nat, n: nat, top: nat, i: nat, child: nat, cmp: (T, T) -> Ordering)
    requires HeapBut(s, lo, n, top, i, cmp) && 2 <= child <= n && child / 2 == i
    ensures ChildrenUnder(Swapped(s, lo + i - 1, lo + child - 1), lo, n, child, s[lo + child - 1], cmp)
  {
    hide Le;
    assert 2 * child <= n ==> UnderParent(s, lo, 2 * child, cmp);
    assert 2 * child + 1 <= n ==> UnderParent(s, lo, 2 * child + 1, cmp);
  }

  lemma StaysHere<T(!new)>(s: seq<T>, lo: nat, n: nat, top: nat, i: nat, cmp: (T, T) -> Ordering)
    requires HeapBut(s, lo, n, top, i, cmp)
    requires ChildrenUnder(s, lo, n, i, s[lo + i - 1], cmp)
    ensures HeapFrom(s, lo, n, top, cmp)
  {
    hide Le;
  }

  lemma {:induction false} TopIsGreatest<T(!new)>(s: seq<T>, lo: nat, n: nat, k: nat, cmp: (T, T) -> Ordering)
    requires TotalPreorder(cmp) && HeapFrom(s, lo, n, 1, cmp) && 1 <= k <= n
    ensures Le(cmp, s[lo + k - 1], s[lo])
  {
    if k > 1 {
      assert UnderParent(s, lo, k, cmp);
      TopIsGreatest(s, lo, n, k / 2, cmp);
    } else {
      ComparesEqualToItself(s[lo], cmp);
    }
  }

  lemma ComparesEqualToItself<T(!new)>(x: T, cmp: (T, T) -> Ordering)
    requires TotalPreorder(cmp)
    ensures cmp(x, x) == Equal
  {
    assert cmp(x, x) == Less <==> cmp(x, x) == Greater;
  }

  method DownHeap<T(!new)>(keys: array<T>, start: nat, n: nat, lo: nat, cmp: (T, T) -> Ordering)
    requires TotalPreorder(cmp) && 1 <= start <= n && lo + n <= keys.Length
    requires HeapFrom(keys[..], lo, n, start + 1, cmp)
    modifies keys
    ensures HeapFrom(keys[..], lo, n, start, cmp)
    ensures PermutedWithin(old(keys[..]), keys[..], lo, lo + n)
  {
    hide *;
    var i := start;
    ghost var s := keys[..];
    StartsToSink(s, lo, n, start, cmp);
    while i <= n / 2
      invariant start <= i <= n && HeapBut(keys[..], lo, n, start, i, cmp)
      invariant PermutedWithin(s, keys[..], lo, lo + n)
    {
      var child := 2 * i;

      if child < n && cmp(keys[lo + child - 1], keys[lo + child]) == Less {
        child := child + 1;
      }
      ghost var t := keys[..];
      GreaterChild(t, lo, n, i, child, cmp);

      if cmp(keys[lo + i - 1], keys[lo + child - 1]) != Less {
        NotBelowChild(t, lo, n, start, i, child, cmp);
        return;
      }

      keys[lo + i - 1], keys[lo + child - 1] := keys[lo + child - 1], keys[lo + i - 1];
      SwapIs(t, lo + i - 1, lo + child - 1);
      SinksBelow(s, t, keys[..], lo, n, start, i, child, cmp);
      i := child;
    }
    NoChildren(keys[..], lo, n, start, i, cmp);
  }

  lemma StartsToSink<T(!new)>(s: seq<T>, lo: nat, n: nat, i: nat, cmp: (T, T) -> Ordering)
    requires 1 <= i <= n && HeapFrom(s, lo, n, i + 1, cmp)
    ensures HeapBut(s, lo, n, i, i, cmp) && PermutedWithin(s, s, lo, lo + n)
  {}

  lemma GreaterChild<T(!new)>(s: seq<T>, lo: nat, n: nat, i: nat, child: nat, cmp: (T, T) -> Ordering)
    requires TotalPreorder(cmp) && 1 <= i <= n / 2 && lo + n <= |s|
    requires child == if 2 * i < n && cmp(s[lo + 2 * i - 1], s[lo + 2 * i]) == Less then 2 * i + 1 else 2 * i
    ensures child <= n && child / 2 == i
    ensures ChildrenUnder(s, lo, n, i, s[lo + child - 1], cmp)
  {
    ComparesEqualToItself(s[lo + child - 1], cmp);
  }

  lemma NotBelowChild<T(!new)>(s: seq<T>, lo: nat, n: nat, top: nat, i: nat, child: nat, cmp: (T, T) -> Ordering)
    requires TotalPreorder(cmp) && HeapBut(s, lo, n, top, i, cmp) && i <= child <= n && lo + n <= |s|
    requires ChildrenUnder(s, lo, n, i, s[lo + child - 1], cmp)
    requires cmp(s[lo + i - 1], s[lo + child - 1]) != Less
    ensures HeapFrom(s, lo, n, top, cmp)
  {
    var x, y := s[lo + i - 1], s[lo + child - 1];
    assert Le(cmp, y, x);
    assert ChildrenUnder(s, lo, n, i, x, cmp);
    StaysHere(s, lo, n, top, i, cmp);
  }

  lemma SinksBelow<T(!new)>(s: seq<T>, t: seq<T>, u: seq<T>, lo: nat, n: nat, top: nat, i: nat, child: nat, cmp: (T, T) -> Ordering)
    requires TotalPreorder(cmp) && HeapBut(t, lo, n, top, i, cmp) && 2 <= child <= n && child / 2 == i
    requires lo + n <= |t| && PermutedWithin(s, t, lo, lo + n)
    requires ChildrenUnder(t, lo, n, i, t[lo + child - 1], cmp)
    requires cmp(t[lo + i - 1], t[lo + child - 1]) == Less
    requires u == Swapped(t, lo + i - 1, lo + child - 1)
    ensures HeapBut(u, lo, n, top, child, cmp) && PermutedWithin(s, u, lo, lo + n)
  {
    hide HeapBut, PermutedWithin, TotalPreorder, ChildrenUnder, Swapped, Le;
    HeapButBounds(t, lo, n, top, i, cmp);
    LessIsLe(cmp, t[lo + i - 1], t[lo + child - 1]);
    SinksOneLevel(t, lo, n, top, i, child, cmp);
    SwapPermutes(t, lo + i - 1, lo + child - 1, lo, lo + n);
    Composed(s, t, u, lo, lo + n);
  }

  lemma HeapButBounds<T(!new)>(s: seq<T>, lo: nat, n: nat, top: nat, i: nat, cmp: (T, T) -> Ordering)
    requires HeapBut(s, lo, n, top, i, cmp)
    ensures 1 <= top <= i <= n && lo + n <= |s|
  {}

  lemma LessIsLe<T(!new)>(cmp: (T, T) -> Ordering, x: T, y: T)
    requires cmp(x, y) == Less
    ensures Le(cmp, x, y)
  {}

  lemma NoChildren<T(!new)>(s: seq<T>, lo: nat, n: nat, top: nat, i: nat, cmp: (T, T) -> Ordering)
    requires HeapBut(s, lo, n, top, i, cmp) && i > n / 2
    ensures HeapFrom(s, lo, n, top, cmp)
  {}

  /** Between two steps of draining: the heap is left, nothing in it is above the sorted rest. */
  ghost predicate Draining<T(!new)>(was: seq<T>, s: seq<T>, lo: nat, n: nat, i: nat, cmp: (T, T) -> Ordering) {
    && i <= n && PermutedWithin(was, s, lo, lo + n)
    && HeapFrom(s, lo, i, 1, cmp)
    && SortedWithin(s, lo + i, lo + n, cmp) && Divided(s, lo, lo + i, lo + n, cmp)
  }

  lemma StartsDraining<T(!new)>(was: seq<T>, s: seq<T>, lo: nat, n: nat, cmp: (T, T) -> Ordering)
    requires PermutedWithin(was, s, lo, lo + n) && HeapFrom(s, lo, n, 1, cmp)
    ensures Draining(was, s, lo, n, n, cmp)
  {}

  /** Swapping the first and the last of the heap: what is left before it sinks. */
  lemma TakesTop<T(!new)>(was: seq<T>, s: seq<T>, lo: nat, n: nat, i: nat, cmp: (T, T) -> Ordering)
    requires TotalPreorder(cmp) && Draining(was, s, lo, n, i, cmp) && 2 <= i && lo + n <= |s|
    ensures var t := Swapped(s, lo, lo + i - 1);
      && PermutedWithin(was, t, lo, lo + n) && HeapFrom(t, lo, i - 1, 2, cmp)
      && SortedWithin(t, lo + i - 1, lo + n, cmp) && Divided(t, lo, lo + i - 1, lo + n, cmp)
  {
    hide TotalPreorder, PermutedWithin, Le, HeapFrom, SortedWithin, Divided;
    var t := Swapped(s, lo, lo + i - 1);
    SwapPermutes(s, lo, lo + i - 1, lo, lo + n);
    Composed(was, s, t, lo, lo + n);
    HeapWithoutTop(s, t, lo, i, cmp);
    TopJoinsSorted(s, t, lo, n, i, cmp);
    TopMovedOut(s, t, lo, n, i, cmp);
  }

  lemma HeapWithoutTop<T(!new)>(s: seq<T>, t: seq<T>, lo: nat, i: nat, cmp: (T, T) -> Ordering)
    requires 2 <= i && lo + i <= |s| && t == Swapped(s, lo, lo + i - 1) && HeapFrom(s, lo, i, 1, cmp)
    ensures HeapFrom(t, lo, i - 1, 2, cmp)
  {
    hide Le;
    forall c | 2 <= c <= i - 1 && 2 <= c / 2
      ensures UnderParent(t, lo, c, cmp)
    {
      assert UnderParent(s, lo, c, cmp);
    }
  }

  lemma TopJoinsSorted<T(!new)>(s: seq<T>, t: seq<T>, lo: nat, n: nat, i: nat, cmp: (T, T) -> Ordering)
    requires 2 <= i <= n && lo + n <= |s| && t == Swapped(s, lo, lo + i - 1)
    requires SortedWithin(s, lo + i, lo + n, cmp) && Divided(s, lo, lo + i, lo + n, cmp)
    ensures SortedWithin(t, lo + i - 1, lo + n, cmp)
  {
    hide Le;
    forall j | lo + i <= j < lo + n
      ensures Le(cmp, t[lo + i - 1], t[j])
    {
      assert NoneAbove(s, lo, lo + i, s[j], cmp);
    }
  }

  lemma TopMovedOut<T(!new)>(s: seq<T>, t: seq<T>, lo: nat, n: nat, i: nat, cmp: (T, T) -> Ordering)
    requires TotalPreorder(cmp) && 2 <= i <= n && lo + n <= |s| && t == Swapped(s, lo, lo + i - 1)
    requires HeapFrom(s, lo, i, 1, cmp) && Divided(s, lo, lo + i, lo + n, cmp)
    ensures Divided(t, lo, lo + i - 1, lo + n, cmp)
  {
    hide TotalPreorder, Le, HeapFrom;
    forall j, k | lo + i - 1 <= j < lo + n && lo <= k < lo + i - 1
      ensures Le(cmp, t[k], t[j])
    {
      if j == lo + i - 1 {
        TopIsGreatest(s, lo, i, if k == lo then i else k - lo + 1, cmp);
      } else {
        assert NoneAbove(s, lo, lo + i, s[j], cmp);
      }
    }
  }

  lemma SunkAgain<T(!new)>(was: seq<T>, s: seq<T>, t: seq<T>, lo: nat, n: nat, i: nat, cmp: (T, T) -> Ordering)
    requires i <= n && PermutedWithin(was, s, lo, lo + n)
    requires SortedWithin(s, lo + i, lo + n, cmp) && Divided(s, lo, lo + i, lo + n, cmp)
    requires PermutedWithin(s, t, lo, lo + i) && HeapFrom(t, lo, i, 1, cmp)
    ensures Draining(was, t, lo, n, i, cmp)
  {
    hide PermutedWithin, SortedWithin, Divided, HeapFrom;
    OutsideUnchanged(was, s, lo, lo + n);
    SortedBounds(s, lo + i, lo + n, cmp);
    Widened(s, t, lo, lo + i, lo, lo + n);
    Composed(was, s, t, lo, lo + n);
    StillSorted(s, t, lo, lo + i, lo + i, lo + n, cmp);
    StillDivided(s, t, lo, lo + i, lo + n, cmp);
  }

  lemma SortedBounds<T(!new)>(s: seq<T>, lo: nat, hi: nat, cmp: (T, T) -> Ordering)
    requires SortedWithin(s, lo, hi, cmp)
    ensures lo <= hi <= |s|
  {}

  lemma Drained<T(!new)>(was: seq<T>, s: seq<T>, lo: nat, n: nat, i: nat, cmp: (T, T) -> Ordering)
    requires Draining(was, s, lo, n, i, cmp) && i <= 1
    ensures PermutedWithin(was, s, lo, lo + n) && SortedWithin(s, lo, lo + n, cmp)
  {
    SortedTogether(s, lo, lo + i, lo + n, cmp);
  }

  /** Sorts the positions from `lo` to `hi`, both included, and touches no others. */
  method HeapSort<T(!new)>(keys: array<T>, lo: nat, hi: nat, cmp: (T, T) -> Ordering)
    requires TotalPreorder(cmp) && lo <= hi < keys.Length
    modifies keys
    ensures PermutedWithin(old(keys[..]), keys[..], lo, hi + 1)
    ensures SortedWithin(keys[..], lo, hi + 1, cmp)
  {
    hide *;
    var n := hi - lo + 1;
    ghost var was := keys[..];
    Unchanged(was, lo, lo + n);
    NoParents(was, lo, n, cmp);

    for i := n / 2 downto 0
      invariant PermutedWithin(was, keys[..], lo, lo + n) && HeapFrom(keys[..], lo, n, i + 1, cmp)
    {
      ghost var s := keys[..];
      DownHeap(keys, i + 1, n, lo, cmp);
      Composed(was, s, keys[..], lo, lo + n);
    }

    StartsDraining(was, keys[..], lo, n, cmp);
    for i := n downto 1
      invariant Draining(was, keys[..], lo, n, i, cmp)
    {
      ghost var s := keys[..];
      TakesTop(was, s, lo, n, i + 1, cmp);
      Swap(keys, lo, lo + i);
      ghost var t := keys[..];
      DownHeap(keys, 1, i, lo, cmp);
      SunkAgain(was, t, keys[..], lo, n, i, cmp);
    }
    Drained(was, keys[..], lo, n, 1, cmp);
  }

  lemma NoParents<T(!new)>(s: seq<T>, lo: nat, n: nat, cmp: (T, T) -> Ordering)
    requires lo + n <= |s|
    ensures HeapFrom(s, lo, n, n / 2 + 1, cmp)
  {}
}

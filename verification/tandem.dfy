/** `TandemSorter`: one stored order applied to several parallel lists by following its
    cycles, with the first bit of each index as a mark. */
module Tandem {
  import opened Orders
  import opened Wrappers

  // ---------- orders and permutations ----------

  /** `order` lists the indices below its length, each once. */
  ghost predicate IsPermutation(order: seq<nat>) {
    && (forall k | 0 <= k < |order| :: order[k] < |order|)
    && (forall j, k | 0 <= j < k < |order| :: order[j] != order[k])
  }

  /** The list whose element `k` is element `order[k]` of `s`. */
  function Arranged<T>(s: seq<T>, order: seq<nat>): (r: seq<T>)
    requires forall k | 0 <= k < |order| :: order[k] < |s|
    ensures |r| == |order|
  {
    seq(|order|, k requires 0 <= k < |order| => s[order[k]])
  }

  ghost function Below(n: nat): (b: set<nat>)
    ensures forall i: nat :: i in b <==> i < n
    ensures |b| == n
  {
    if n == 0 then {} else Below(n - 1) + {n - 1}
  }

  ghost function Elements(s: seq<nat>): (e: set<nat>)
    ensures forall x :: x in e <==> x in s
    ensures (forall j, k | 0 <= j < k < |s| :: s[j] != s[k]) ==> |e| == |s|
  {
    if s == [] then {} else
      assert s == s[..|s| - 1] + [s[|s| - 1]];
      Elements(s[..|s| - 1]) + {s[|s| - 1]}
  }

  lemma SubsetOfSameSize(a: set<nat>, b: set<nat>)
    requires a <= b && |a| == |b|
    ensures a == b
  {
    assert |b - a| == |b| - |a|;
  }

  /** A permutation reaches every index. */
  lemma Reaches(order: seq<nat>, m: nat)
    requires IsPermutation(order) && m < |order|
    ensures m in order
  {
    SubsetOfSameSize(Elements(order), Below(|order|));
    assert m in Below(|order|);
  }

  ghost function Inverse(order: seq<nat>): (inv: seq<nat>)
    requires IsPermutation(order)
    ensures |inv| == |order|
    ensures forall m | 0 <= m < |order| :: inv[m] < |order| && order[inv[m]] == m
    ensures forall k | 0 <= k < |order| :: inv[order[k]] == k
  {
    var inv := seq(|order|, m requires 0 <= m < |order| => Position(order, m));
    assert forall k | 0 <= k < |order| :: order[inv[order[k]]] == order[k];
    inv
  }

  ghost function Position(order: seq<nat>, m: nat): (k: nat)
    requires IsPermutation(order) && m < |order|
    ensures k < |order| && order[k] == m
  {
    Reaches(order, m);
    var k: nat :| k < |order| && order[k] == m;
    k
  }

  // ---------- the stable order ----------

  /** Index `x` belongs before index `y`: a smaller element, or an equal one met earlier. */
  predicate Before<T(!new)>(s: seq<T>, cmp: (T, T) -> Ordering, x: nat, y: nat)
    requires x < |s| && y < |s|
  {
    Le(cmp, s[x], s[y]) && (cmp(s[x], s[y]) == Equal ==> x < y)
  }

  /** `order` sorts `s` and keeps elements that compare equal in their original order. */
  ghost predicate OrdersStably<T(!new)>(order: seq<nat>, s: seq<T>, cmp: (T, T) -> Ordering) {
    && (forall k | 0 <= k < |order| :: order[k] < |s|)
    && forall j, k | 0 <= j < k < |order| :: Before(s, cmp, order[j], order[k])
  }

  /** `i` placed behind everything in `order` that is not greater. */
  function Placed<T(!new)>(order: seq<nat>, i: nat, s: seq<T>, cmp: (T, T) -> Ordering): (r: seq<nat>)
    requires i < |s| && forall k | 0 <= k < |order| :: order[k] < |s|
    ensures |r| == |order| + 1
    ensures multiset(r) == multiset(order) + multiset{i}
  {
    if order == [] then [i]
    else
      var last := |order| - 1;
      assert order == order[..last] + [order[last]];
      if Le(cmp, s[order[last]], s[i]) then order + [i]
      else Placed(order[..last], i, s, cmp) + [order[last]]
  }

  lemma BeforeAndNotGreater<T(!new)>(s: seq<T>, cmp: (T, T) -> Ordering, x: nat, y: nat, i: nat)
    requires TotalPreorder(cmp) && x < i && y < i < |s|
    requires Before(s, cmp, x, y) && Le(cmp, s[y], s[i])
    ensures Before(s, cmp, x, i)
  {}

  lemma GreaterComesAfter<T(!new)>(s: seq<T>, cmp: (T, T) -> Ordering, x: nat, i: nat)
    requires TotalPreorder(cmp) && x < |s| && i < |s| && !Le(cmp, s[x], s[i])
    ensures Before(s, cmp, i, x)
  {
    assert cmp(s[i], s[x]) == Less;
  }

  lemma AppendedStably<T(!new)>(order: seq<nat>, x: nat, s: seq<T>, cmp: (T, T) -> Ordering)
    requires OrdersStably(order, s, cmp) && x < |s|
    requires forall j | 0 <= j < |order| :: Before(s, cmp, order[j], x)
    ensures OrdersStably(order + [x], s, cmp)
  {
    hide Before;
  }

  lemma {:induction false} PlacedIsStable<T(!new)>(order: seq<nat>, i: nat, s: seq<T>, cmp: (T, T) -> Ordering)
    requires TotalPreorder(cmp) && i < |s|
    requires OrdersStably(order, s, cmp) && forall k | 0 <= k < |order| :: order[k] < i
    ensures OrdersStably(Placed(order, i, s, cmp), s, cmp)
  {
    hide TotalPreorder, Before, Le;
    if order != [] {
      var last := |order| - 1;
      if Le(cmp, s[order[last]], s[i]) {
        NotGreaterComesBefore(s, cmp, order[last], i);
        forall j | 0 <= j < last
          ensures Before(s, cmp, order[j], i)
        {
          BeforeAndNotGreater(s, cmp, order[j], order[last], i);
        }
        AppendedStably(order, i, s, cmp);
      } else {
        PlacedIsStable(order[..last], i, s, cmp);
        GreaterComesAfter(s, cmp, order[last], i);
        PlacedInFront(order, i, s, cmp);
      }
    }
  }

  lemma PlacedInFront<T(!new)>(order: seq<nat>, i: nat, s: seq<T>, cmp: (T, T) -> Ordering)
    requires i < |s| && order != [] && OrdersStably(order, s, cmp)
    requires var last := order[|order| - 1]; Before(s, cmp, i, last) && !Le(cmp, s[last], s[i])
    requires OrdersStably(Placed(order[..|order| - 1], i, s, cmp), s, cmp)
    ensures OrdersStably(Placed(order, i, s, cmp), s, cmp)
  {
    hide Before, Le;
    var last := |order| - 1;
    var front := Placed(order[..last], i, s, cmp);
    assert Placed(order, i, s, cmp) == front + [order[last]];
    forall j | 0 <= j < |front|
      ensures front[j] < |s| && Before(s, cmp, front[j], order[last])
    {
      assert front[j] in multiset(front);
      assert front[j] in order[..last] || front[j] == i;
    }
    AppendedStably(front, order[last], s, cmp);
  }

  lemma NotGreaterComesBefore<T(!new)>(s: seq<T>, cmp: (T, T) -> Ordering, x: nat, i: nat)
    requires x < i < |s| && Le(cmp, s[x], s[i])
    ensures Before(s, cmp, x, i)
  {}

  /** The order of the first `n` elements that the standard library's stable sort gives. */
  function StableOrder<T(!new)>(s: seq<T>, n: nat, cmp: (T, T) -> Ordering): (order: seq<nat>)
    requires n <= |s|
    ensures |order| == n
    ensures forall k | 0 <= k < n :: order[k] < n
  {
    if n == 0 then []
    else
      var before := StableOrder(s, n - 1, cmp);
      var r := Placed(before, n - 1, s, cmp);
      assert forall k | 0 <= k < n :: r[k] in multiset(r);
      r
  }

  lemma {:induction false} StableOrderOrders<T(!new)>(s: seq<T>, n: nat, cmp: (T, T) -> Ordering)
    requires TotalPreorder(cmp) && n <= |s|
    ensures IsPermutation(StableOrder(s, n, cmp))
    ensures OrdersStably(StableOrder(s, n, cmp), s, cmp)
  {
    hide Placed, OrdersStably, TotalPreorder;
    if n > 0 {
      StableOrderOrders(s, n - 1, cmp);
      PlacedIsStable(StableOrder(s, n - 1, cmp), n - 1, s, cmp);
    } else {
      NothingToOrder(s, cmp);
    }
    StableIsDistinct(StableOrder(s, n, cmp), s, cmp);
  }

  lemma NothingToOrder<T(!new)>(s: seq<T>, cmp: (T, T) -> Ordering)
    ensures OrdersStably([], s, cmp)
  {}

  lemma StableIsDistinct<T(!new)>(order: seq<nat>, s: seq<T>, cmp: (T, T) -> Ordering)
    requires TotalPreorder(cmp) && OrdersStably(order, s, cmp)
    ensures forall j, k | 0 <= j < k < |order| :: order[j] != order[k]
  {
    forall j, k | 0 <= j < k < |order|
      ensures order[j] != order[k]
    {
      NotBeforeItself(s, cmp, order[j]);
    }
  }

  lemma NotBeforeItself<T(!new)>(s: seq<T>, cmp: (T, T) -> Ordering, x: nat)
    requires TotalPreorder(cmp) && x < |s|
    ensures !Before(s, cmp, x, x)
  {
    assert cmp(s[x], s[x]) == Less <==> cmp(s[x], s[x]) == Greater;
  }

  /** Rearranging by the stable order sorts, and keeps equal elements in place relative to
      each other. */
  lemma StableOrderSorts<T(!new)>(s: seq<T>, cmp: (T, T) -> Ordering)
    requires TotalPreorder(cmp)
    ensures var order := StableOrder(s, |s|, cmp);
      SortedBy(Arranged(s, order), cmp) && IsPermutation(order) && OrdersStably(order, s, cmp)
  {
    StableOrderOrders(s, |s|, cmp);
  }

  /** Only one order sorts stably: the sorter cannot store another. */
  lemma {:induction false} StableOrderIsUnique<T(!new)>(p: seq<nat>, q: seq<nat>, s: seq<T>, cmp: (T, T) -> Ordering, k: nat)
    requires TotalPreorder(cmp) && |p| == |s| == |q| && k <= |s|
    requires IsPermutation(p) && IsPermutation(q)
    requires OrdersStably(p, s, cmp) && OrdersStably(q, s, cmp)
    ensures p[..k] == q[..k]
  {
    hide TotalPreorder, Before;
    if k > 0 {
      StableOrderIsUnique(p, q, s, cmp, k - 1);
      var x, y := p[k - 1], q[k - 1];
      if x != y {
        ComesNoEarlier(p, q, s, cmp, k - 1);
        ComesNoEarlier(q, p, s, cmp, k - 1);
        BeforeOneWay(s, cmp, x, y);
      }
      assert p[..k] == p[..k - 1] + [x] && q[..k] == q[..k - 1] + [y];
    }
  }

  lemma ComesNoEarlier<T(!new)>(p: seq<nat>, q: seq<nat>, s: seq<T>, cmp: (T, T) -> Ordering, k: nat)
    requires |p| == |s| == |q| && k < |s| && IsPermutation(p) && IsPermutation(q)
    requires OrdersStably(p, s, cmp) && p[..k] == q[..k] && p[k] != q[k]
    ensures Before(s, cmp, p[k], q[k])
  {
    hide Before;
    var m := Position(p, q[k]);
    assert forall l | 0 <= l < k :: p[..k][l] == q[..k][l];
    assert m >= k;
  }

  lemma BeforeOneWay<T(!new)>(s: seq<T>, cmp: (T, T) -> Ordering, x: nat, y: nat)
    requires TotalPreorder(cmp) && x < |s| && y < |s| && x != y
    ensures !(Before(s, cmp, x, y) && Before(s, cmp, y, x))
  {}

  lemma ArrangedWithOneMore<U>(t: seq<U>, order: seq<nat>, x: nat)
    requires x < |t| && forall k | 0 <= k < |order| :: order[k] < |t|
    ensures multiset(Arranged(t, order + [x])) == multiset(Arranged(t, order)) + multiset{t[x]}
  {
    assert Arranged(t, order + [x]) == Arranged(t, order) + [t[x]];
  }

  lemma PlacedInBounds<T(!new)>(order: seq<nat>, i: nat, s: seq<T>, cmp: (T, T) -> Ordering)
    requires i < |s| && forall k | 0 <= k < |order| :: order[k] < |s|
    ensures forall k | 0 <= k <= |order| :: Placed(order, i, s, cmp)[k] < |s|
  {
    var r := Placed(order, i, s, cmp);
    forall k | 0 <= k < |r|
      ensures r[k] < |s|
    {
      assert r[k] in multiset(r);
    }
  }

  lemma {:induction false} PlacedAdds<T(!new), U>(order: seq<nat>, i: nat, s: seq<T>, cmp: (T, T) -> Ordering, t: seq<U>)
    requires i < |s| == |t| && forall k | 0 <= k < |order| :: order[k] < |s|
    ensures forall k | 0 <= k <= |order| :: Placed(order, i, s, cmp)[k] < |s|
    ensures multiset(Arranged(t, Placed(order, i, s, cmp))) == multiset(Arranged(t, order)) + multiset{t[i]}
  {
    hide Le, Arranged;
    PlacedInBounds(order, i, s, cmp);
    if order == [] {
      assert order + [i] == [i];
      ArrangedWithOneMore(t, order, i);
    } else {
      var last := |order| - 1;
      if Le(cmp, s[order[last]], s[i]) {
        ArrangedWithOneMore(t, order, i);
      } else {
        PlacedAdds(order[..last], i, s, cmp, t);
        assert order == order[..last] + [order[last]];
        ArrangedWithOneMore(t, order[..last], order[last]);
        ArrangedWithOneMore(t, Placed(order[..last], i, s, cmp), order[last]);
      }
    }
  }

  /** No list rearranged by the stable order of another one loses or gains an element. */
  lemma {:induction false} StableOrderKeeps<T(!new), U>(s: seq<T>, n: nat, cmp: (T, T) -> Ordering, t: seq<U>)
    requires n <= |s| == |t|
    ensures multiset(Arranged(t, StableOrder(s, n, cmp))) == multiset(t[..n])
  {
    hide Le, Arranged, Placed;
    if n == 0 {
      NothingArranged(t);
    } else {
      StableOrderKeeps(s, n - 1, cmp, t);
      PlacedAdds(StableOrder(s, n - 1, cmp), n - 1, s, cmp, t);
      OneLonger(t, n - 1);
      assert multiset(t[..n]) == multiset(t[..n - 1]) + multiset{t[n - 1]};
    }
  }

  lemma NothingArranged<U>(t: seq<U>)
    ensures Arranged(t, []) == []
  {}

  function Paired<T, U>(s: seq<T>, t: seq<U>): (p: seq<(T, U)>)
    requires |s| == |t|
    ensures |p| == |s|
  {
    seq(|s|, k requires 0 <= k < |s| => (s[k], t[k]))
  }

  /** Sorting two parallel lists with one sorter is sorting the list of their pairs. */
  lemma ParallelListsStayPaired<T(!new), U>(keys: seq<T>, values: seq<U>, cmp: (T, T) -> Ordering)
    requires TotalPreorder(cmp) && |keys| == |values|
    ensures var order := StableOrder(keys, |keys|, cmp);
      && SortedBy(Arranged(keys, order), cmp)
      && Paired(Arranged(keys, order), Arranged(values, order)) == Arranged(Paired(keys, values), order)
      && multiset(Arranged(Paired(keys, values), order)) == multiset(Paired(keys, values))
  {
    var pairs := Paired(keys, values);
    StableOrderSorts(keys, cmp);
    StableOrderKeeps(keys, |keys|, cmp, pairs);
    assert pairs[..|keys|] == pairs;
  }

  // ---------- the sorter ----------

  type Word = w: nat | w < 0x1_0000_0000_0000_0000

  const FIRST_BIT: Word := 0x8000_0000_0000_0000

  predicate IdxIsMarked(idx: Word) {
    idx >= FIRST_BIT
  }

  /** The exclusive or with the first bit. */
  function ToggleMarkIdx(idx: Word): (t: Word)
    ensures IdxIsMarked(t) != IdxIsMarked(idx) && t % FIRST_BIT == idx % FIRST_BIT
  {
    if IdxIsMarked(idx) then idx - FIRST_BIT else idx + FIRST_BIT
  }

  /** `indices` is `order`, with the marks of exactly the positions that are not `open`. */
  ghost predicate Marked(indices: seq<Word>, order: seq<nat>, open: set<nat>) {
    && |indices| == |order| <= FIRST_BIT
    && forall k | 0 <= k < |order| ::
        order[k] < |order| && indices[k] == (if k in open then order[k] else order[k] + FIRST_BIT)
  }

  /** The part of `now` outside `open` is arranged, the rest is as it was. */
  ghost predicate HalfArranged<T>(now: seq<T>, was: seq<T>, order: seq<nat>, open: set<nat>) {
    && |now| == |was| == |order|
    && forall k | 0 <= k < |order| ::
        order[k] < |was| && now[k] == was[if k in open then k else order[k]]
  }

  class TandemSorter {
    var indices: array<Word>
    var shouldReset: bool
    ghost var order: seq<nat>

    ghost predicate Valid()
      reads this, indices
    {
      && IsPermutation(order)
      && Marked(indices[..], order, if shouldReset then {} else Below(|order|))
    }

    constructor NewStable<T(!new)>(slice: seq<T>, cmp: (T, T) -> Ordering)
      requires TotalPreorder(cmp) && |slice| <= FIRST_BIT
      ensures Valid() && fresh(indices)
      ensures order == StableOrder(slice, |slice|, cmp)
    {
      hide StableOrder, OrdersStably, TotalPreorder;
      var sorted := StableOrder(slice, |slice|, cmp);
      StableOrderOrders(slice, |slice|, cmp);
      indices := new Word[|slice|](k requires 0 <= k < |slice| => sorted[k]);
      shouldReset := false;
      order := sorted;
    }

    method ToggleMarks()
      requires Valid() && shouldReset
      modifies indices
      ensures Marked(indices[..], order, Below(|order|))
    {
      var n := indices.Length;
      for k := 0 to n
        invariant forall m | 0 <= m < k :: indices[m] == order[m]
        invariant forall m | k <= m < n :: indices[m] == order[m] + FIRST_BIT
      {
        indices[k] := ToggleMarkIdx(indices[k]);
      }
    }

    /** Whatever earlier calls left behind, the slice is rearranged by the stored order. */
    method Sort<T>(slice: array<T>)
      requires Valid() && slice.Length == |order| && slice as object != indices as object
      modifies this`shouldReset, indices, slice
      ensures Valid() && shouldReset
      ensures slice[..] == Arranged(old(slice[..]), order)
    {
      hide *;
      ghost var was := slice[..];
      Opens();
      if shouldReset {
        ToggleMarks();
        shouldReset := false;
      }

      ghost var open := Below(|order|);
      Untouched(indices[..], slice[..], was, order);
      for i := 0 to indices.Length
        invariant Arranging(indices[..], slice[..], was, order, open)
        invariant forall k | 0 <= k < i :: k !in open
      {
        ReadsMark(indices[..], slice[..], was, order, open, i);
        var iIdx := indices[i];
        if IdxIsMarked(iIdx) {
          continue;
        }

        var j, jIdx := i, iIdx;
        StartsCycle(indices[..], slice[..], was, order, open, i);
        while jIdx != i
          invariant j in open && j < |order| && jIdx == order[j]
          invariant Following(indices[..], slice[..], was, order, open, i, j)
          invariant forall k | 0 <= k < i :: k !in open
          decreases |open|
        {
          ghost var indices0, slice0 := indices[..], slice[..];
          FollowsCycle(indices0, slice0, was, order, open, i, j);
          indices[j] := ToggleMarkIdx(jIdx);
          slice[j], slice[jIdx] := slice[jIdx], slice[j];
          assert indices[..] == indices0[j := ToggleMarkIdx(indices0[j])];
          assert slice[..] == slice0[j := slice0[order[j]]][order[j] := slice0[j]];
          open := open - {j};
          j := jIdx;
          jIdx := indices[j];
        }

        ClosesCycle(indices[..], slice[..], was, order, open, i, j);
        ghost var indices0 := indices[..];
        indices[j] := ToggleMarkIdx(jIdx);
        assert indices[..] == indices0[j := ToggleMarkIdx(indices0[j])];
        open := open - {j};
      }
      AllArranged(indices[..], slice[..], was, order, open);
      shouldReset := true;
      Closes();
    }

    lemma Opens()
      requires Valid()
      ensures IsPermutation(order) && indices.Length == |order|
      ensures !shouldReset ==> Marked(indices[..], order, Below(|order|))
    {}

    lemma Closes()
      requires IsPermutation(order) && shouldReset && Marked(indices[..], order, {})
      ensures Valid()
    {}
  }

  // ---------- one cycle ----------

  /** The open positions form whole cycles: the predecessor of an arranged position is arranged. */
  ghost predicate WholeCycles(order: seq<nat>, open: set<nat>) {
    && IsPermutation(order)
    && forall m | 0 <= m < |order| :: m !in open ==> Inverse(order)[m] !in open
  }

  ghost predicate Arranging<T>(indices: seq<Word>, now: seq<T>, was: seq<T>, order: seq<nat>, open: set<nat>) {
    Marked(indices, order, open) && HalfArranged(now, was, order, open) && WholeCycles(order, open)
  }

  /** On the way from `i`, now at `j`. */
  ghost predicate OnCycle(order: seq<nat>, open: set<nat>, i: nat, j: nat) {
    && IsPermutation(order)
    && i < |order| && j < |order| && j in open
    && (forall m | 0 <= m < |order| :: m !in open && m != i ==> Inverse(order)[m] !in open)
    && (j != i ==> i !in open && Inverse(order)[j] !in open)
  }

  /** `j` holds what `i` held at the start; the rest is arranged or as it was. */
  ghost predicate Carried<T>(now: seq<T>, was: seq<T>, order: seq<nat>, open: set<nat>, i: nat, j: nat) {
    && |now| == |was| == |order|
    && i < |order| && j < |order| && now[j] == was[i]
    && forall k | 0 <= k < |order| ::
        order[k] < |order| && (k != j ==> now[k] == was[if k in open then k else order[k]])
  }

  ghost predicate Following<T>(indices: seq<Word>, now: seq<T>, was: seq<T>, order: seq<nat>,
                               open: set<nat>, i: nat, j: nat) {
    Marked(indices, order, open) && Carried(now, was, order, open, i, j) && OnCycle(order, open, i, j)
  }

  lemma Untouched<T>(indices: seq<Word>, now: seq<T>, was: seq<T>, order: seq<nat>)
    requires IsPermutation(order) && Marked(indices, order, Below(|order|))
    requires now == was && |was| == |order|
    ensures Arranging(indices, now, was, order, Below(|order|))
  {}

  lemma ReadsMark<T>(indices: seq<Word>, now: seq<T>, was: seq<T>, order: seq<nat>, open: set<nat>, k: nat)
    requires Arranging(indices, now, was, order, open) && k < |order|
    ensures IdxIsMarked(indices[k]) <==> k !in open
    ensures k in open ==> indices[k] == order[k]
  {}

  lemma StartsCycle<T>(indices: seq<Word>, now: seq<T>, was: seq<T>, order: seq<nat>,
                       open: set<nat>, i: nat)
    requires Arranging(indices, now, was, order, open) && i < |order| && i in open
    ensures i < |indices| && indices[i] == order[i]
    ensures Following(indices, now, was, order, open, i, i)
  {}

  lemma TogglesMark(indices: seq<Word>, order: seq<nat>, open: set<nat>, j: nat)
    requires Marked(indices, order, open) && j < |order| && j in open
    ensures Marked(indices[j := ToggleMarkIdx(indices[j])], order, open - {j})
  {}

  lemma OpensAfter(order: seq<nat>, open: set<nat>, i: nat, j: nat, m: nat)
    requires OnCycle(order, open, i, j) && m < |order| && m !in open && m != i
    ensures Inverse(order)[m] !in open
  {}

  lemma StaysOnCycle(order: seq<nat>, open: set<nat>, i: nat, j: nat)
    requires OnCycle(order, open, i, j) && order[j] != i
    ensures order[j] in open && order[j] != j && OnCycle(order, open - {j}, i, order[j])
  {
    hide Inverse;
    var inv, next := Inverse(order), order[j];
    assert inv[next] == j;
    if next !in open {
      OpensAfter(order, open, i, j, next);
      assert false;
    }
    assert j != i ==> inv[j] !in open;
    forall m | 0 <= m < |order| && m !in open - {j} && m != i
      ensures inv[m] !in open - {j}
    {
      if m != j {
        OpensAfter(order, open, i, j, m);
      }
    }
  }

  lemma CarriesOn<T>(now: seq<T>, was: seq<T>, order: seq<nat>, open: set<nat>, i: nat, j: nat)
    requires Carried(now, was, order, open, i, j)
    requires order[j] in open && order[j] != j
    ensures Carried(now[j := now[order[j]]][order[j] := now[j]], was, order, open - {j}, i, order[j])
  {}

  lemma FollowsCycle<T>(indices: seq<Word>, now: seq<T>, was: seq<T>, order: seq<nat>,
                        open: set<nat>, i: nat, j: nat)
    requires Following(indices, now, was, order, open, i, j) && j < |order| && order[j] != i
    ensures indices[j] == order[j] < |order| == |now| == |indices|
    ensures order[j] in open && order[j] != j
    ensures Following(indices[j := ToggleMarkIdx(indices[j])], now[j := now[order[j]]][order[j] := now[j]],
                      was, order, open - {j}, i, order[j])
    ensures indices[order[j]] == order[order[j]]
  {
    assert j in open;
    hide OnCycle;
    StaysOnCycle(order, open, i, j);
    CarriesOn(now, was, order, open, i, j);
    TogglesMark(indices, order, open, j);
  }

  lemma ClosesCycle<T>(indices: seq<Word>, now: seq<T>, was: seq<T>, order: seq<nat>,
                       open: set<nat>, i: nat, j: nat)
    requires Following(indices, now, was, order, open, i, j) && order[j] == i
    ensures j < |indices| && indices[j] == order[j]
    ensures Arranging(indices[j := ToggleMarkIdx(indices[j])], now, was, order, open - {j})
    ensures i !in open - {j}
  {
    TogglesMark(indices, order, open, j);
  }

  lemma AllArranged<T>(indices: seq<Word>, now: seq<T>, was: seq<T>, order: seq<nat>, open: set<nat>)
    requires Arranging(indices, now, was, order, open)
    requires forall k | 0 <= k < |order| :: k !in open
    ensures Marked(indices, order, {}) && now == Arranged(was, order)
  {}
}

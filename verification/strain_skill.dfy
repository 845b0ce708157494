/** What a skill makes of its strain peaks, and how the peaks come about. */
module StrainSkills {
  import opened Descending
  import opened Strains
  import opened Rounding

  /** The first element in full, each later one by another factor `w` less. */
  function WeightedSum(s: seq<real>, w: real): (r: real) {
    if s == [] then 0.0 else s[0] + w * WeightedSum(s[1..], w)
  }

  ghost predicate NoneNegative(s: seq<real>) {
    forall k | 0 <= k < |s| :: s[k] >= 0.0
  }

  /** The difficulty as the plain list defines it: zeros kept, sorted once. */
  function PlainValue(peaks: seq<real>, w: real): (r: real) {
    WeightedSum(Sorted(peaks), w)
  }

  // ---------- zeros do not matter ----------

  lemma {:induction false} InsertedZero(s: seq<real>, n: nat)
    requires forall k | 0 <= k < |s| :: s[k] > 0.0
    ensures Inserted(0.0, s + Zeroes(n)) == s + Zeroes(n + 1)
  {
    if s == [] {
      assert [] + Zeroes(n) == Zeroes(n);
      assert [0.0] + Zeroes(n) == [] + Zeroes(n + 1);
    } else {
      InsertedZero(s[1..], n);
      assert (s + Zeroes(n))[1..] == s[1..] + Zeroes(n);
      assert [s[0]] + (s[1..] + Zeroes(n + 1)) == s + Zeroes(n + 1);
    }
  }

  lemma {:induction false} InsertedBeforeZeros(x: real, s: seq<real>, n: nat)
    requires x > 0.0
    ensures Inserted(x, s + Zeroes(n)) == Inserted(x, s) + Zeroes(n)
  {
    var t := s + Zeroes(n);
    if s == [] {
      assert t == Zeroes(n);
    } else {
      assert t[0] == s[0] && t[1..] == s[1..] + Zeroes(n);
      if x < s[0] {
        InsertedBeforeZeros(x, s[1..], n);
        Regrouped([s[0]], Inserted(x, s[1..]), Zeroes(n));
      } else {
        Regrouped([x], s, Zeroes(n));
      }
    }
  }

  lemma {:induction false} InsertedPositive(x: real, s: seq<real>)
    requires x > 0.0 && forall k | 0 <= k < |s| :: s[k] > 0.0
    ensures forall k | 0 <= k <= |s| :: Inserted(x, s)[k] > 0.0
  {
    if s != [] && x < s[0] {
      InsertedPositive(x, s[1..]);
    }
  }

  /** Descending order leaves the zeros at the end. */
  lemma {:induction false} ZerosComeLast(s: seq<real>)
    requires NoneNegative(s)
    ensures |NonZero(s)| <= |s|
    ensures Sorted(s) == Sorted(NonZero(s)) + Zeroes(|s| - |NonZero(s)|)
    ensures forall k | 0 <= k < |NonZero(s)| :: Sorted(NonZero(s))[k] > 0.0
  {
    if s == [] {
      assert Sorted(s) == [] + Zeroes(0);
    } else {
      ZerosComeLast(s[1..]);
      var rest := Sorted(NonZero(s[1..]));
      var n := |s[1..]| - |NonZero(s[1..])|;
      if s[0] == 0.0 {
        InsertedZero(rest, n);
      } else {
        InsertedBeforeZeros(s[0], rest, n);
        InsertedPositive(s[0], rest);
        assert NonZero(s)[1..] == NonZero(s[1..]);
      }
    }
  }

  lemma {:induction false} ZerosAddNothing(s: seq<real>, n: nat, w: real)
    ensures WeightedSum(s + Zeroes(n), w) == WeightedSum(s, w)
  {
    if s == [] {
      assert s + Zeroes(n) == Zeroes(n);
      if n > 0 {
        assert Zeroes(n)[1..] == Zeroes(n - 1) == [] + Zeroes(n - 1);
        ZerosAddNothing([], n - 1, w);
      }
    } else {
      ZerosAddNothing(s[1..], n, w);
      assert (s + Zeroes(n))[1..] == s[1..] + Zeroes(n);
    }
  }

  /** The list without its zeros has the value of the whole list. */
  lemma ValueWithoutZeros(peaks: seq<real>, w: real)
    requires NoneNegative(peaks)
    ensures WeightedSum(Sorted(NonZero(peaks)), w) == PlainValue(peaks, w)
  {
    hide WeightedSum, Sorted, NonZero;
    ZerosComeLast(peaks);
    ZerosAddNothing(Sorted(NonZero(peaks)), |peaks| - |NonZero(peaks)|, w);
  }

  // ---------- the descending order is the best ----------

  lemma ScaledLess(a: real, b: real, w: real)
    requires a <= b && w >= 0.0
    ensures w * a <= w * b
  {
    Scale(a, b, w);
    Commutes(w, a);
    Commutes(w, b);
  }

  /** Of two neighbours the greater goes first. */
  lemma GreaterFirst(x: real, y: real, rest: real, w: real)
    requires x <= y && 0.0 <= w <= 1.0
    ensures x + w * (y + w * rest) <= y + w * (x + w * rest)
  {
    var d := w * rest;
    ProductOfSum(w, x, d);
    ProductOfSum(w, y, d);
    NonNegativeProduct(1.0 - w, y - x);
    ProductOfDifference(1.0, w, y - x);
    ProductOfSum(w, y, -x);
    ProductOfOpposite(w, x);
  }

  lemma ProductOfSum(w: real, a: real, b: real)
    ensures w * (a + b) == w * a + w * b
  {}

  lemma ProductOfOpposite(w: real, x: real)
    ensures w * -x == -(w * x)
  {}

  lemma SumOfFront(x: real, s: seq<real>, w: real)
    ensures WeightedSum([x] + s, w) == x + w * WeightedSum(s, w)
  {
    assert ([x] + s)[1..] == s;
  }

  lemma BetterBehind(x: real, s: seq<real>, t: seq<real>, w: real)
    requires 0.0 <= w && WeightedSum(s, w) <= WeightedSum(t, w)
    ensures WeightedSum([x] + s, w) <= WeightedSum([x] + t, w)
  {
    hide WeightedSum;
    SumOfFront(x, s, w);
    SumOfFront(x, t, w);
    ScaledLess(WeightedSum(s, w), WeightedSum(t, w), w);
  }

  lemma BetterSwapped(x: real, y: real, t: seq<real>, w: real)
    requires 0.0 <= w <= 1.0 && x <= y
    ensures WeightedSum([x] + ([y] + t), w) <= WeightedSum([y] + ([x] + t), w)
  {
    hide WeightedSum;
    SumOfFront(x, [y] + t, w);
    SumOfFront(y, t, w);
    SumOfFront(y, [x] + t, w);
    SumOfFront(x, t, w);
    GreaterFirst(x, y, WeightedSum(t, w), w);
  }

  lemma {:induction false} InsertedIsBetter(x: real, s: seq<real>, w: real)
    requires 0.0 <= w <= 1.0
    ensures WeightedSum([x] + s, w) <= WeightedSum(Inserted(x, s), w)
  {
    hide WeightedSum;
    if s != [] && x < s[0] {
      var y, t := s[0], s[1..];
      assert s == [y] + t;
      BetterSwapped(x, y, t, w);
      InsertedIsBetter(x, t, w);
      BetterBehind(y, [x] + t, Inserted(x, t), w);
    }
  }

  lemma {:induction false} SortedIsBetter(s: seq<real>, w: real)
    requires 0.0 <= w <= 1.0
    ensures WeightedSum(s, w) <= WeightedSum(Sorted(s), w)
  {
    hide WeightedSum;
    if s != [] {
      SortedIsBetter(s[1..], w);
      assert s == [s[0]] + s[1..];
      BetterBehind(s[0], s[1..], Sorted(s[1..]), w);
      InsertedIsBetter(s[0], Sorted(s[1..]), w);
    }
  }

  /** No order of the same peaks has a greater weighted sum. */
  lemma DescendingIsBest(s: seq<real>, t: seq<real>, w: real)
    requires 0.0 <= w <= 1.0 && multiset(s) == multiset(t)
    ensures WeightedSum(t, w) <= WeightedSum(Sorted(s), w)
  {
    hide WeightedSum;
    SortedDescends(t);
    SortedIsUnique(s, Sorted(t));
    SortedIsBetter(t, w);
  }

  lemma EmptySum(w: real)
    ensures WeightedSum([], w) == 0.0
  {}

  lemma {:induction false} SumIsBounded(s: seq<real>, w: real, most: real, bound: real)
    requires 0.0 < w && 0.0 <= bound && bound == most + w * bound
    requires forall k | 0 <= k < |s| :: s[k] <= most
    ensures WeightedSum(s, w) <= bound
  {
    hide WeightedSum;
    if s == [] {
      EmptySum(w);
    } else {
      SumIsBounded(s[1..], w, most, bound);
      assert s == [s[0]] + s[1..];
      SumOfFront(s[0], s[1..], w);
      ScaledLess(WeightedSum(s[1..], w), bound, w);
    }
  }

  lemma LimitOfSums(w: real, most: real) returns (bound: real)
    requires 0.0 < w < 1.0 && most >= 0.0
    ensures bound == most / (1.0 - w) && bound >= 0.0 && bound == most + w * bound
  {
    var v := 1.0 - w;
    bound := most / v;
    assert bound * v == most;
    assert bound * v == bound - w * bound;
    NotNegative(v, bound);
  }

  lemma NotNegative(v: real, d: real)
    requires v > 0.0 && v * d >= 0.0
    ensures d >= 0.0
  {}

  /** However many peaks there are, their value is bounded by the greatest one. */
  lemma ValueIsBounded(peaks: seq<real>, w: real, most: real)
    requires 0.0 < w < 1.0 && most >= 0.0 && forall k | 0 <= k < |peaks| :: peaks[k] <= most
    ensures PlainValue(peaks, w) <= most / (1.0 - w)
  {
    var s := Sorted(peaks);
    SortedDescends(peaks);
    forall k | 0 <= k < |s|
      ensures s[k] <= most
    {
      assert s[k] in multiset(s);
      assert s[k] in peaks;
    }
    var bound := LimitOfSums(w, most);
    SumIsBounded(s, w, most, bound);
  }

  // ---------- the skill ----------

  const SectionLen := 400.0

  datatype Hit = Hit(startTime: real, strain: real, initial: real -> real)

  datatype Sections = Sections(peaks: seq<real>, peak: real, end: real)

  /** The ceiling of the time in sections. */
  function SectionIndex(time: real): (i: int)
    ensures (i - 1) as real * 400.0 < time <= i as real * 400.0
  {
    Ceil(time / SectionLen)
  }

  function SectionsLeft(time: real, end: real): nat {
    if time <= end then 0 else ((time - end) / SectionLen).Floor + 1
  }

  lemma OneSectionLess(time: real, end: real)
    requires time > end
    ensures SectionsLeft(time, end + SectionLen) < SectionsLeft(time, end)
  {
    assert (time - (end + SectionLen)) / SectionLen == (time - end) / SectionLen - 1.0;
  }

  function Advanced(s: Sections, hit: Hit): (r: Sections)
    decreases SectionsLeft(hit.startTime, s.end)
  {
    if hit.startTime <= s.end then s
    else
      OneSectionLess(hit.startTime, s.end);
      Advanced(Sections(s.peaks + [s.peak], hit.initial(s.end), s.end + SectionLen), hit)
  }

  function Processed(s: Sections, first: bool, hit: Hit): Sections {
    var s1 := if first then s.(end := SectionIndex(hit.startTime) as real * SectionLen) else s;
    var s2 := Advanced(s1, hit);
    s2.(peak := RealMax(hit.strain, s2.peak))
  }

  class StrainSkill {
    var currSectionPeak: real
    var currSectionEnd: real
    const strainPeaks: StrainsVec

    ghost predicate Valid()
      reads this, strainPeaks
    {
      strainPeaks.Valid() && currSectionPeak >= 0.0 && NoneNegative(strainPeaks.pushed)
    }

    /** The peaks of all sections, the current one included. */
    ghost function Peaks(): (peaks: seq<real>)
      reads this, strainPeaks
    {
      strainPeaks.pushed + [currSectionPeak]
    }

    constructor ()
      ensures Valid() && fresh(strainPeaks)
      ensures Peaks() == [0.0] && currSectionEnd == 0.0
    {
      currSectionPeak, currSectionEnd := 0.0, 0.0;
      strainPeaks := new StrainsVec();
    }

    method SaveCurrPeak()
      requires Valid()
      modifies strainPeaks
      ensures Valid() && strainPeaks.pushed == old(Peaks())
    {
      strainPeaks.Push(currSectionPeak);
    }

    method StartNewSectionFrom(initialStrain: real)
      requires Valid() && initialStrain >= 0.0
      modifies this`currSectionPeak
      ensures Valid() && currSectionPeak == initialStrain
    {
      currSectionPeak := initialStrain;
    }

    ghost function State(): Sections
      reads this, strainPeaks
    {
      Sections(strainPeaks.pushed, currSectionPeak, currSectionEnd)
    }

    /** What every skill does with an object, given its strain and the strain that is left of
        the previous object at a time. */
    method Process(first: bool, hit: Hit)
      requires Valid() && hit.strain >= 0.0 && forall e :: hit.initial(e) >= 0.0
      modifies this, strainPeaks
      ensures Valid() && State() == Processed(old(State()), first, hit)
    {
      if first {
        currSectionEnd := SectionIndex(hit.startTime) as real * SectionLen;
      }
      ghost var start := State();
      while hit.startTime > currSectionEnd
        invariant Valid() && Advanced(State(), hit) == Advanced(start, hit)
        decreases SectionsLeft(hit.startTime, currSectionEnd)
      {
        OneSectionLess(hit.startTime, currSectionEnd);
        SaveCurrPeak();
        var initialStrain := hit.initial(currSectionEnd);
        StartNewSectionFrom(initialStrain);
        currSectionEnd := currSectionEnd + SectionLen;
      }
      currSectionPeak := RealMax(hit.strain, currSectionPeak);
    }

    method GetCurrStrainPeaks() returns (peaks: StrainsVec)
      requires Valid()
      modifies strainPeaks
      ensures peaks == strainPeaks && peaks.Valid() && peaks.pushed == old(Peaks()) && NoneNegative(peaks.pushed)
    {
      strainPeaks.Push(currSectionPeak);
      peaks := strainPeaks;
    }

    method DifficultyValue(decayWeight: real) returns (difficulty: real)
      requires Valid()
      modifies strainPeaks
      ensures difficulty == PlainValue(old(Peaks()), decayWeight)
    {
      ghost var plain := Peaks();
      var peaks := GetCurrStrainPeaks();
      peaks.RetainNonZeroAndSort();
      ValueWithoutZeros(plain, decayWeight);
      difficulty := WeightedSumOf(Unwrapped(peaks.inner), decayWeight);
    }
  }

  /** The loop both skills end with: `difficulty += strain * weight; weight *= decay`. */
  method WeightedSumOf(s: seq<real>, decayWeight: real) returns (difficulty: real)
    ensures difficulty == WeightedSum(s, decayWeight)
  {
    difficulty := 0.0;
    var weight := 1.0;
    assert s[0..] == s;
    for k := 0 to |s|
      invariant difficulty + weight * WeightedSum(s[k..], decayWeight) == WeightedSum(s, decayWeight)
    {
      hide WeightedSum;
      SumStep(s, k, decayWeight);
      Accumulates(difficulty, weight, s[k], decayWeight, WeightedSum(s[k + 1..], decayWeight));
      difficulty := difficulty + s[k] * weight;
      weight := weight * decayWeight;
    }
    assert s[|s|..] == [];
  }

  lemma SumStep(s: seq<real>, k: nat, w: real)
    requires k < |s|
    ensures WeightedSum(s[k..], w) == s[k] + w * WeightedSum(s[k + 1..], w)
  {
    assert s[k..][1..] == s[k + 1..];
  }

  lemma Accumulates(difficulty: real, weight: real, x: real, w: real, rest: real)
    ensures difficulty + weight * (x + w * rest) == (difficulty + x * weight) + (weight * w) * rest
  {
    assert weight * (x + w * rest) == weight * x + weight * (w * rest);
    assert weight * (w * rest) == (weight * w) * rest;
  }

  // ---------- reduced peaks ----------

  function Reduced(s: seq<real>, count: nat, factor: nat -> real): (r: seq<real>)
    ensures |r| == |s|
  {
    seq(|s|, k requires 0 <= k < |s| => ReducedAt(s[k], k, count, factor))
  }

  function ReducedAt(x: real, k: nat, count: nat, factor: nat -> real): (y: real)
    ensures x == 0.0 ==> y == 0.0
    ensures x >= 0.0 && (k < count ==> factor(k) >= 0.0) ==> y >= 0.0
    ensures x >= 0.0 && (k < count ==> factor(k) <= 1.0) ==> y <= x
  {
    if k < count then
      ScaledAtMost(x, factor(k));
      x * factor(k)
    else x
  }

  lemma ScaledAtMost(x: real, f: real)
    ensures x == 0.0 ==> x * f == 0.0
    ensures x >= 0.0 && f >= 0.0 ==> x * f >= 0.0
    ensures x >= 0.0 && f <= 1.0 ==> x * f <= x
  {
    if x >= 0.0 && f <= 1.0 {
      ScaledLess(f, 1.0, x);
    }
  }

  /** The first `count` peaks in descending order are reduced before the peaks are summed. */
  function PlainReducedValue(peaks: seq<real>, count: nat, factor: nat -> real, w: real): (r: real) {
    PlainValue(Reduced(Sorted(peaks), count, factor), w)
  }

  lemma ReducedNoneNegative(s: seq<real>, count: nat, factor: nat -> real)
    requires NoneNegative(s) && forall k | 0 <= k < count :: factor(k) >= 0.0
    ensures NoneNegative(Reduced(s, count, factor))
  {}

  lemma ReducedWithZeros(s: seq<real>, n: nat, count: nat, factor: nat -> real)
    ensures Reduced(s + Zeroes(n), count, factor) == Reduced(s, count, factor) + Zeroes(n)
  {
    hide ReducedAt;
  }

  lemma ReducedOneMore(s: seq<real>, i: nat, factor: nat -> real)
    requires i < |s|
    ensures Reduced(s, i, factor)[i] == s[i] && s[i] * factor(i) == ReducedAt(s[i], i, i + 1, factor)
    ensures Reduced(s, i + 1, factor) == Reduced(s, i, factor)[i := ReducedAt(s[i], i, i + 1, factor)]
  {
    var t, u := Reduced(s, i + 1, factor), Reduced(s, i, factor)[i := ReducedAt(s[i], i, i + 1, factor)];
    forall k | 0 <= k < |s|
      ensures t[k] == u[k]
    {}
  }

  lemma ReducedAll(s: seq<real>, count: nat, factor: nat -> real)
    ensures Reduced(s, if count < |s| then count else |s|, factor) == Reduced(s, count, factor)
    ensures Reduced(s, 0, factor) == s
  {}

  lemma UnwrappedUpdate(inner: seq<StrainsEntry>, i: nat, x: real)
    requires AllValues(inner) && i < |inner|
    ensures AllValues(inner[i := Value(x)]) && Unwrapped(inner[i := Value(x)]) == Unwrapped(inner)[i := x]
  {}

  lemma ReducedValueWithoutZeros(peaks: seq<real>, count: nat, factor: nat -> real, w: real)
    requires NoneNegative(peaks) && forall k | 0 <= k < count :: factor(k) >= 0.0
    ensures PlainValue(Reduced(Sorted(NonZero(peaks)), count, factor), w) == PlainReducedValue(peaks, count, factor, w)
  {
    hide WeightedSum, Sorted, NonZero, Reduced;
    var s, n := Sorted(NonZero(peaks)), |peaks| - |NonZero(peaks)|;
    ZerosComeLast(peaks);
    ReducedWithZeros(s, n, count, factor);
    ReducedNoneNegative(s, count, factor);
    var r := Reduced(s, count, factor);
    NonZeroConcat(r, Zeroes(n));
    NonZeroOfZeroes(n);
    assert NonZero(r + Zeroes(n)) == NonZero(r);
    ValueWithoutZeros(r, w);
    ValueWithoutZeros(r + Zeroes(n), w);
  }

  class OsuStrainSkill {
    const inner: StrainSkill

    constructor ()
      ensures inner.Valid() && fresh(inner) && fresh(inner.strainPeaks) && inner.Peaks() == [0.0]
    {
      inner := new StrainSkill();
    }

    method DifficultyValue(count: nat, factor: nat -> real, decayWeight: real) returns (difficulty: real)
      requires inner.Valid() && forall k | 0 <= k < count :: factor(k) >= 0.0
      modifies inner.strainPeaks
      ensures difficulty == PlainReducedValue(old(inner.Peaks()), count, factor, decayWeight)
    {
      ghost var plain := inner.Peaks();
      var peaks := inner.GetCurrStrainPeaks();
      peaks.RetainNonZeroAndSort();
      ghost var s := Unwrapped(peaks.inner);
      ReducedValueWithoutZeros(plain, count, factor, decayWeight);
      hide WeightedSum, Sorted, NonZero, Reduced, Unwrapped;
      peaks.inner := ReduceFirst(peaks.inner, count, factor);
      peaks.SortDesc();
      difficulty := WeightedSumOf(Unwrapped(peaks.inner), decayWeight);
    }
  }

  /** The loop over mutable references to the first `count` values. */
  method ReduceFirst(entries: seq<StrainsEntry>, count: nat, factor: nat -> real) returns (inner: seq<StrainsEntry>)
    requires AllValues(entries)
    ensures AllValues(inner) && Unwrapped(inner) == Reduced(Unwrapped(entries), count, factor)
  {
    ghost var s := Unwrapped(entries);
    inner := entries;
    ReducedAll(s, count, factor);
    var taken := if count < |inner| then count else |inner|;
    hide *;
    for i := 0 to taken
      invariant AllValues(inner) && |inner| == |s|
      invariant Unwrapped(inner) == Reduced(s, i, factor)
    {
      UnwrappedAt(inner, i);
      var value := inner[i].value * factor(i);
      ReducesOne(inner, s, i, value, factor);
      inner := inner[i := Value(value)];
    }
  }

  lemma ReducesOne(inner: seq<StrainsEntry>, s: seq<real>, i: nat, value: real, factor: nat -> real)
    requires AllValues(inner) && Unwrapped(inner) == Reduced(s, i, factor) && i < |inner|
    requires inner[i].Value? && value == inner[i].value * factor(i)
    ensures AllValues(inner[i := Value(value)]) && Unwrapped(inner[i := Value(value)]) == Reduced(s, i + 1, factor)
  {
    hide Unwrapped, Reduced, ReducedAt;
    ReducedOneMore(s, i, factor);
    UnwrappedAt(inner, i);
    assert inner[i].value == s[i];
    assert value == ReducedAt(s[i], i, i + 1, factor);
    UnwrappedUpdate(inner, i, value);
  }

  lemma UnwrappedAt(inner: seq<StrainsEntry>, i: nat)
    requires AllValues(inner) && i < |inner|
    ensures inner[i].Value? && Unwrapped(inner)[i] == inner[i].value
  {}

  // ---------- reducing never raises the value ----------

  ghost predicate NowhereAbove(s: seq<real>, t: seq<real>) {
    |s| == |t| && forall k | 0 <= k < |s| :: s[k] <= t[k]
  }

  lemma {:induction false} InsertedAlongside(x: real, y: real, s: seq<real>, t: seq<real>) returns (u: seq<real>)
    requires x <= y && NowhereAbove(s, t)
    ensures NowhereAbove(Inserted(x, s), u) && multiset(u) == multiset(t) + multiset{y}
  {
    if s == [] || x >= s[0] {
      u := [y] + t;
    } else {
      var v := InsertedAlongside(x, y, s[1..], t[1..]);
      u := [t[0]] + v;
      assert t == [t[0]] + t[1..];
    }
  }

  lemma {:induction false} SortedAlongside(s: seq<real>, t: seq<real>) returns (u: seq<real>)
    requires NowhereAbove(s, t)
    ensures NowhereAbove(Sorted(s), u) && multiset(u) == multiset(t)
  {
    if s == [] {
      u := [];
    } else {
      var v := SortedAlongside(s[1..], t[1..]);
      u := InsertedAlongside(s[0], t[0], Sorted(s[1..]), v);
      assert t == [t[0]] + t[1..];
    }
  }

  lemma {:induction false} LessEverywhere(s: seq<real>, t: seq<real>, w: real)
    requires NowhereAbove(s, t) && w >= 0.0
    ensures WeightedSum(s, w) <= WeightedSum(t, w)
  {
    if s != [] {
      hide WeightedSum;
      LessEverywhere(s[1..], t[1..], w);
      assert s == [s[0]] + s[1..] && t == [t[0]] + t[1..];
      SumOfFront(s[0], s[1..], w);
      SumOfFront(t[0], t[1..], w);
      ScaledLess(WeightedSum(s[1..], w), WeightedSum(t[1..], w), w);
    } else {
      assert t == [];
    }
  }

  lemma SmallerPeaksSmallerValue(s: seq<real>, t: seq<real>, w: real)
    requires NowhereAbove(s, t) && 0.0 <= w <= 1.0
    ensures PlainValue(s, w) <= PlainValue(t, w)
  {
    var u := SortedAlongside(s, t);
    LessEverywhere(Sorted(s), u, w);
    DescendingIsBest(t, u, w);
  }

  lemma ReducingLowers(peaks: seq<real>, count: nat, factor: nat -> real, w: real)
    requires NoneNegative(peaks) && 0.0 <= w <= 1.0
    requires forall k | 0 <= k < count :: 0.0 <= factor(k) <= 1.0
    ensures PlainReducedValue(peaks, count, factor, w) <= PlainValue(peaks, w)
  {
    hide WeightedSum, ReducedAt;
    var s := Sorted(peaks);
    SortedDescends(peaks);
    forall k | 0 <= k < |s|
      ensures Reduced(s, count, factor)[k] <= s[k]
    {
      assert s[k] in multiset(s);
      assert s[k] in peaks;
      assert Reduced(s, count, factor)[k] == ReducedAt(s[k], k, count, factor);
    }
    SmallerPeaksSmallerValue(Reduced(s, count, factor), s, w);
    SortedIsUnique(s, s);
  }

  // ---------- sections ----------

  /** The sections after all of `hits`. */
  function Run(hits: seq<Hit>): (s: Sections) {
    if hits == [] then Sections([], 0.0, 0.0)
    else Processed(Run(hits[..|hits| - 1]), |hits| == 1, hits[|hits| - 1])
  }

  ghost predicate InTimeOrder(hits: seq<Hit>) {
    forall j, k | 0 <= j < k < |hits| :: hits[j].startTime <= hits[k].startTime
  }

  /** In which section `hits[k]` is, counted from the first one's. */
  function SectionOf(hits: seq<Hit>, k: nat): int
    requires k < |hits|
  {
    SectionIndex(hits[k].startTime) - SectionIndex(hits[0].startTime)
  }

  /** The peaks of all sections so far. */
  function AllPeaks(s: Sections): (r: seq<real>)
    ensures |r| == |s.peaks| + 1
  {
    s.peaks + [s.peak]
  }

  /** What section `index` starts from if `hit` opens it: the strain left at its beginning. */
  function Left(hit: Hit, index: int): real {
    hit.initial((index - 1) as real * 400.0)
  }

  lemma {:induction false} AdvancedTo(s: Sections, hit: Hit, index: int)
    requires s.end == index as real * SectionLen && index <= SectionIndex(hit.startTime)
    ensures var r := Advanced(s, hit);
      && r.end == SectionIndex(hit.startTime) as real * SectionLen
      && |r.peaks| == |s.peaks| + (SectionIndex(hit.startTime) - index)
      && AllPeaks(s) <= AllPeaks(r)
      && forall j | |s.peaks| < j <= |r.peaks| :: AllPeaks(r)[j] == Left(hit, index - |s.peaks| + j)
    decreases SectionIndex(hit.startTime) - index
  {
    if hit.startTime > s.end {
      var t := Sections(AllPeaks(s), Left(hit, index + 1), s.end + SectionLen);
      OneSectionLess(hit.startTime, s.end);
      AdvancedTo(t, hit, index + 1);
      assert AllPeaks(t)[|t.peaks|] == Left(hit, index + 1);
    }
  }

  /** The sections depend on the times alone: skills that see the same objects have equally
      many peaks. */
  lemma {:induction false} SectionsOfRun(hits: seq<Hit>)
    requires InTimeOrder(hits) && hits != []
    ensures Run(hits).end == SectionIndex(hits[|hits| - 1].startTime) as real * 400.0
    ensures |Run(hits).peaks| == SectionOf(hits, |hits| - 1)
  {
    var n := |hits|;
    var last := hits[n - 1];
    if n == 1 {
      assert hits[..0] == [];
      AdvancedTo(Sections([], 0.0, SectionIndex(last.startTime) as real * SectionLen), last, SectionIndex(last.startTime));
    } else {
      SectionsOfRun(hits[..n - 1]);
      LaterSection(hits[n - 2].startTime, last.startTime);
      AdvancedTo(Run(hits[..n - 1]), last, SectionIndex(hits[n - 2].startTime));
    }
  }

  lemma LaterSection(a: real, b: real)
    requires a <= b
    ensures SectionIndex(a) <= SectionIndex(b)
  {}

  lemma EquallyManyPeaks(a: seq<Hit>, b: seq<Hit>)
    requires InTimeOrder(a) && |a| == |b| > 0 && forall k | 0 <= k < |a| :: a[k].startTime == b[k].startTime
    ensures |AllPeaks(Run(a))| == |AllPeaks(Run(b))|
  {
    SectionsOfRun(a);
    SectionsOfRun(b);
  }

  /** `hits[k]` opens section `j`: it is the first that has come so far. */
  ghost predicate Opens(hits: seq<Hit>, k: nat, j: int) {
    k < |hits| && SectionOf(hits, k) >= j && (k > 0 ==> SectionOf(hits, k - 1) < j) && (k == 0 ==> j == 0)
  }

  /** What section `j` starts from. */
  ghost function Start(hits: seq<Hit>, k: nat, j: int): real
    requires k < |hits|
  {
    if j == 0 then 0.0 else Left(hits[k], SectionIndex(hits[0].startTime) + j)
  }

  /** `v` is among the strains of section `j` and what the section starts from. */
  ghost predicate InSection(hits: seq<Hit>, j: int, k: nat, v: real) {
    k < |hits| && ((SectionOf(hits, k) == j && v == hits[k].strain) || (Opens(hits, k, j) && v == Start(hits, k, j)))
  }

  /** `v` is the greatest of them. */
  ghost predicate IsPeak(hits: seq<Hit>, j: int, v: real) {
    && (exists k: nat :: InSection(hits, j, k, v))
    && forall k: nat, u: real :: InSection(hits, j, k, u) ==> u <= v
  }

  lemma {:induction false} PeaksOfRun(hits: seq<Hit>, j: nat)
    requires InTimeOrder(hits) && hits != [] && j <= SectionOf(hits, |hits| - 1)
    ensures j < |AllPeaks(Run(hits))| && IsPeak(hits, j, AllPeaks(Run(hits))[j])
  {
    SectionsOfRun(hits);
    var n := |hits|;
    var last := hits[n - 1];
    if n == 1 {
      FirstPeak(hits);
    } else {
      var front := hits[..n - 1];
      SectionsOfRun(front);
      LaterSection(hits[n - 2].startTime, last.startTime);
      AdvancedTo(Run(front), last, SectionIndex(hits[n - 2].startTime));
      if j <= SectionOf(front, n - 2) {
        PeaksOfRun(front, j);
        PeakGrows(hits, j, AllPeaks(Run(front))[j], AllPeaks(Run(hits))[j]);
      } else {
        assert AllPeaks(Advanced(Run(front), last))[j] == Left(last, SectionIndex(hits[0].startTime) + j);
        PeakAppears(hits, j, AllPeaks(Run(hits))[j]);
      }
    }
  }

  lemma FirstPeak(hits: seq<Hit>)
    requires |hits| == 1
    ensures AllPeaks(Run(hits)) == [RealMax(hits[0].strain, 0.0)]
    ensures IsPeak(hits, 0, RealMax(hits[0].strain, 0.0))
  {
    assert hits[..0] == [];
    assert InSection(hits, 0, 0, hits[0].strain) && InSection(hits, 0, 0, 0.0);
  }

  lemma SameInFront(hits: seq<Hit>, j: nat, k: nat, u: real)
    requires k < |hits| - 1
    ensures InSection(hits[..|hits| - 1], j, k, u) <==> InSection(hits, j, k, u)
  {}

  lemma PeakGrows(hits: seq<Hit>, j: nat, was: real, now: real)
    requires InTimeOrder(hits) && |hits| > 1 && j <= SectionOf(hits, |hits| - 2)
    requires IsPeak(hits[..|hits| - 1], j, was)
    requires now == if j == SectionOf(hits, |hits| - 1) then RealMax(hits[|hits| - 1].strain, was) else was
    ensures IsPeak(hits, j, now)
  {
    var last := |hits| - 1;
    var front := hits[..last];
    forall u: real | InSection(hits, j, last, u)
      ensures j == SectionOf(hits, last) && u == hits[last].strain
    {}
    assert j == SectionOf(hits, last) ==> InSection(hits, j, last, hits[last].strain);
    hide InSection, SectionOf;
    var k: nat :| InSection(front, j, k, was);
    assert k < last by { InSectionBounds(front, j, k, was); }
    SameInFront(hits, j, k, was);
    forall k: nat, u: real | InSection(hits, j, k, u)
      ensures u <= now
    {
      InSectionBounds(hits, j, k, u);
      if k < last {
        SameInFront(hits, j, k, u);
      }
    }
  }

  lemma InSectionBounds(hits: seq<Hit>, j: int, k: nat, u: real)
    requires InSection(hits, j, k, u)
    ensures k < |hits|
  {}

  lemma PeakAppears(hits: seq<Hit>, j: nat, now: real)
    requires InTimeOrder(hits) && |hits| > 1 && SectionOf(hits, |hits| - 2) < j <= SectionOf(hits, |hits| - 1)
    requires var n := |hits|; var left := Left(hits[n - 1], SectionIndex(hits[0].startTime) + j);
      now == if j == SectionOf(hits, n - 1) then RealMax(hits[n - 1].strain, left) else left
    ensures IsPeak(hits, j, now)
  {
    var n := |hits|;
    forall k: nat | k < n - 1
      ensures SectionOf(hits, k) < j
    {
      LaterSection(hits[k].startTime, hits[n - 2].startTime);
    }
    hide SectionIndex;
    assert Opens(hits, n - 1, j);
    assert InSection(hits, j, n - 1, Start(hits, n - 1, j));
    if j == SectionOf(hits, n - 1) {
      assert InSection(hits, j, n - 1, hits[n - 1].strain);
    }
    forall k: nat, u: real | InSection(hits, j, k, u)
      ensures u <= now
    {
      if k < n - 1 {
        assert false;
      }
    }
  }

  // ---------- the peaks of several skills ----------

  /** The peaks of three skills in one, section by section. */
  function Combined(color: seq<real>, rhythm: seq<real>, stamina: seq<real>, norm: (real, real, real) -> real): (r: seq<real>)
    requires |color| == |rhythm| == |stamina|
    ensures |r| == |color|
  {
    seq(|color|, k requires 0 <= k < |color| => norm(color[k], rhythm[k], stamina[k]))
  }

  /** osu!taiko's value: sections whose combined peak is zero are left out before sorting, which
      changes nothing. */
  method CombinedDifficultyValue(color: StrainsVec, rhythm: StrainsVec, stamina: StrainsVec, norm: (real, real, real) -> real,
                                 decayWeight: real) returns (difficulty: real)
    requires color.Valid() && rhythm.Valid() && stamina.Valid()
    requires |color.pushed| == |rhythm.pushed| == |stamina.pushed|
    requires NoneNegative(Combined(color.pushed, rhythm.pushed, stamina.pushed, norm))
    ensures difficulty == PlainValue(Combined(color.pushed, rhythm.pushed, stamina.pushed, norm), decayWeight)
  {
    ghost var all := Combined(color.pushed, rhythm.pushed, stamina.pushed, norm);
    var c := color.IntoVec();
    var r := rhythm.IntoVec();
    var s := stamina.IntoVec();
    var peaks: seq<real> := [];
    for k := 0 to |c|
      invariant peaks == NonZero(all[..k])
    {
      hide PlainValue, WeightedSum, NonZero;
      NonZeroOneMore(all, k);
      var peak := norm(c[k], r[k], s[k]);
      assert peak == all[k];
      if peak > 0.0 {
        peaks := peaks + [peak];
      }
    }
    assert all[..|c|] == all;
    ValueWithoutZeros(all, decayWeight);
    difficulty := WeightedSumOf(Sorted(peaks), decayWeight);
  }

  lemma NonZeroOneMore(s: seq<real>, k: nat)
    requires k < |s|
    ensures NonZero(s[..k + 1]) == if s[k] == 0.0 then NonZero(s[..k]) else NonZero(s[..k]) + [s[k]]
  {
    NonZeroConcat(s[..k], [s[k]]);
    assert s[..k + 1] == s[..k] + [s[k]];
    assert NonZero([s[k]]) == if s[k] == 0.0 then [] else [s[k]];
  }
}

/** Control points: sorted lists filled while decoding, and their lookup by time. */
module ControlPoints {
  import opened Wrappers
  import opened Rounding

  datatype Point<V> = Point(time: real, value: V)

  datatype DifficultyValue = DifficultyValue(sliderVelocity: real, bpmMultiplier: real, generateTicks: bool)

  /** Strictly by time. */
  ghost predicate Ordered<V>(points: seq<Point<V>>) {
    forall i, j | 0 <= i < j < |points| :: points[i].time < points[j].time
  }

  // ---------- binary search ----------

  datatype Search = Found(idx: nat) | Missing(idx: nat)

  /** `time` is at the index, or belongs there. */
  ghost predicate IsPlace<V>(points: seq<Point<V>>, time: real, s: Search) {
    match s
    case Found(i) => i < |points| && points[i].time == time
    case Missing(i) =>
      && i <= |points|
      && (forall k | 0 <= k < i :: points[k].time < time)
      && forall k | i <= k < |points| :: time < points[k].time
  }

  /** The standard library's `binary_search_by` on the part from `lo` to `hi`. */
  function SearchWithin<V>(points: seq<Point<V>>, time: real, lo: nat, hi: nat): (s: Search)
    requires Ordered(points) && lo <= hi <= |points|
    requires forall k | 0 <= k < lo :: points[k].time < time
    requires forall k | hi <= k < |points| :: time < points[k].time
    ensures IsPlace(points, time, s)
    decreases hi - lo
  {
    if lo == hi then Missing(lo)
    else
      var mid := lo + (hi - lo) / 2;
      if points[mid].time == time then Found(mid)
      else if points[mid].time < time then SearchWithin(points, time, mid + 1, hi)
      else SearchWithin(points, time, lo, mid)
  }

  function BinarySearch<V>(points: seq<Point<V>>, time: real): (s: Search)
    requires Ordered(points)
    ensures IsPlace(points, time, s)
  {
    SearchWithin(points, time, 0, |points|)
  }

  // ---------- lookup ----------

  /** Linear: the last point that is not after the time. */
  function LastNotAfter<V>(points: seq<Point<V>>, time: real): Option<Point<V>> {
    if points == [] then None
    else if points[|points| - 1].time <= time then Some(points[|points| - 1])
    else LastNotAfter(points[..|points| - 1], time)
  }

  lemma {:induction false} LastNotAfterIs<V>(points: seq<Point<V>>, time: real, n: nat)
    requires n <= |points|
    requires forall k | n <= k < |points| :: points[k].time > time
    requires n > 0 ==> points[n - 1].time <= time
    ensures LastNotAfter(points, time) == if n == 0 then None else Some(points[n - 1])
    decreases |points|
  {
    if n < |points| {
      LastNotAfterIs(points[..|points| - 1], time, n);
    }
  }

  /** `difficulty_point_at` and `effect_point_at` */
  function PointAt<V>(points: seq<Point<V>>, time: real): (p: Option<Point<V>>)
    requires Ordered(points)
    ensures p == LastNotAfter(points, time)
  {
    match BinarySearch(points, time)
    case Found(i) =>
      LastNotAfterIs(points, time, i + 1);
      Some(points[i])
    case Missing(i) =>
      LastNotAfterIs(points, time, i);
      if i < 1 then None else Some(points[i - 1])
  }

  /** `timing_point_at`: before the first point it is the first one. */
  function TimingPointAt<V>(points: seq<Point<V>>, time: real): (p: Option<Point<V>>)
    requires Ordered(points)
    ensures p == if LastNotAfter(points, time) == None && points != [] then Some(points[0]) else LastNotAfter(points, time)
  {
    var s := BinarySearch(points, time);
    LastNotAfterIs(points, time, if s.Found? then s.idx + 1 else s.idx);
    var i := if s.Found? then s.idx else SatSub(s.idx, 1);
    if i < |points| then Some(points[i]) else None
  }

  // ---------- insertion ----------

  /** Inserts in time order, or replaces the point at the same time. */
  function Inserted<V>(points: seq<Point<V>>, p: Point<V>): (r: seq<Point<V>>)
    requires Ordered(points)
  {
    match BinarySearch(points, p.time)
    case Found(i) => points[i := p]
    case Missing(i) => points[..i] + [p] + points[i..]
  }

  lemma InsertedOrdered<V>(points: seq<Point<V>>, p: Point<V>)
    requires Ordered(points)
    ensures Ordered(Inserted(points, p))
    ensures forall q | q in Inserted(points, p) :: q == p || q in points
    ensures p in Inserted(points, p)
    ensures forall q | q in points && q.time != p.time :: q in Inserted(points, p)
  {
    var s := BinarySearch(points, p.time);
    var r := Inserted(points, p);
    match s
    case Found(i) =>
      assert r[i] == p;
      forall q | q in points && q.time != p.time
        ensures q in r
      {
        var k :| 0 <= k < |points| && points[k] == q;
        assert r[k] == q;
      }
    case Missing(i) =>
      assert r[i] == p;
  }

  function ValueAt<V>(points: seq<Point<V>>, time: real, default: V): V {
    var p := LastNotAfter(points, time);
    if p.None? then default else p.value.value
  }

  /** What the linear lookup gives: a point not after the time, with none between the two. */
  lemma {:induction false} LookupGives<V>(points: seq<Point<V>>, time: real)
    requires Ordered(points)
    ensures var p := LastNotAfter(points, time);
      && (p.None? ==> forall q | q in points :: q.time > time)
      && (p.Some? ==> p.value in points && p.value.time <= time && NoneWithin(points, p.value.time, time))
  {
    if points != [] && points[|points| - 1].time > time {
      LookupGives(points[..|points| - 1], time);
    }
  }

  ghost predicate NoneWithin<V>(points: seq<Point<V>>, from: real, to: real) {
    forall q | q in points :: !(from < q.time <= to)
  }

  /** There is only one such point. */
  lemma LookupIs<V>(points: seq<Point<V>>, time: real, q: Point<V>)
    requires Ordered(points) && q in points && q.time <= time && NoneWithin(points, q.time, time)
    ensures LastNotAfter(points, time) == Some(q)
  {
    LookupGives(points, time);
    hide LastNotAfter;
    var p := LastNotAfter(points, time);
    if p.Some? {
      assert p.value.time == q.time;
      var i, j :| 0 <= i < |points| && points[i] == q && 0 <= j < |points| && points[j] == p.value;
      assert i == j;
    }
  }

  lemma LookupIsNone<V>(points: seq<Point<V>>, time: real)
    requires Ordered(points) && forall q | q in points :: q.time > time
    ensures LastNotAfter(points, time) == None
  {
    LookupGives(points, time);
  }

  lemma ValueWithin<V>(points: seq<Point<V>>, from: real, time: real, default: V)
    requires Ordered(points) && from <= time && NoneWithin(points, from, time)
    ensures ValueAt(points, time, default) == ValueAt(points, from, default)
  {
    LookupGives(points, from);
    hide LastNotAfter, Ordered;
    var p := LastNotAfter(points, from);
    if p.Some? {
      LookupIs(points, time, p.value);
    } else {
      LookupIsNone(points, time);
    }
  }

  /** A new point changes nothing before its time, and decides the lookup from its time on until
      the next point. */
  lemma ValueAfterInsert<V>(points: seq<Point<V>>, p: Point<V>, time: real, default: V)
    requires Ordered(points)
    ensures Ordered(Inserted(points, p))
    ensures time < p.time ==> ValueAt(Inserted(points, p), time, default) == ValueAt(points, time, default)
    ensures p.time <= time && NoneWithin(points, p.time, time) ==> ValueAt(Inserted(points, p), time, default) == p.value
  {
    InsertedOrdered(points, p);
    LookupGives(points, time);
    hide LastNotAfter, Ordered, Inserted;
    var before := LastNotAfter(points, time);
    if time < p.time {
      if before.Some? {
        LookupIs(Inserted(points, p), time, before.value);
      } else {
        LookupIsNone(Inserted(points, p), time);
      }
    } else if NoneWithin(points, p.time, time) {
      LookupIs(Inserted(points, p), time, p);
    }
  }

  // ---------- redundant points ----------

  /** Adding points one after the other, skipping those redundant to the point they meet. */
  function Skipping<V>(points: seq<Point<V>>, redundant: (V, V) -> bool, default: V): (r: seq<Point<V>>)
    ensures Ordered(r)
  {
    if points == [] then []
    else
      var last := points[|points| - 1];
      AddedUnlessRedundant(Skipping(points[..|points| - 1], redundant, default), last, redundant, default)
  }

  function AddedUnlessRedundant<V>(points: seq<Point<V>>, p: Point<V>, redundant: (V, V) -> bool, default: V): (r: seq<Point<V>>)
    requires Ordered(points)
    ensures Ordered(r)
  {
    var existing := PointAt(points, p.time);
    InsertedOrdered(points, p);
    if redundant(p.value, if existing.Some? then existing.value.value else default) then points else Inserted(points, p)
  }

  /** Adding all of them. */
  function Keeping<V>(points: seq<Point<V>>): (r: seq<Point<V>>)
    ensures Ordered(r)
  {
    if points == [] then []
    else
      var front := Keeping(points[..|points| - 1]);
      InsertedOrdered(front, points[|points| - 1]);
      Inserted(front, points[|points| - 1])
  }

  ghost predicate ComeFrom<V>(points: seq<Point<V>>, all: seq<Point<V>>) {
    forall q | q in points :: q in all
  }

  lemma InsertedComeFrom<V>(points: seq<Point<V>>, p: Point<V>, all: seq<Point<V>>)
    requires Ordered(points) && ComeFrom(points, all) && p in all
    ensures ComeFrom(Inserted(points, p), all)
  {
    InsertedOrdered(points, p);
    hide Inserted;
  }

  lemma {:induction false} AddedComeFrom<V>(points: seq<Point<V>>, redundant: (V, V) -> bool, default: V)
    ensures ComeFrom(Skipping(points, redundant, default), points) && ComeFrom(Keeping(points), points)
  {
    if points != [] {
      var front, p := points[..|points| - 1], points[|points| - 1];
      assert points == front + [p];
      AddedComeFrom(front, redundant, default);
      OneMore(front, p, redundant, default);
      hide Skipping, Keeping, Inserted, Ordered;
      InsertedComeFrom(Skipping(front, redundant, default), p, points);
      InsertedComeFrom(Keeping(front), p, points);
    }
  }

  lemma OneMore<V>(points: seq<Point<V>>, p: Point<V>, redundant: (V, V) -> bool, default: V)
    ensures Skipping(points + [p], redundant, default) ==
      AddedUnlessRedundant(Skipping(points, redundant, default), p, redundant, default)
    ensures Keeping(points + [p]) == Inserted(Keeping(points), p)
  {
    assert (points + [p])[..|points|] == points;
  }

  function TimesOf<V>(points: seq<Point<V>>): (times: seq<real>)
    ensures |times| == |points|
  {
    seq(|points|, k requires 0 <= k < |points| => points[k].time)
  }

  ghost predicate OccursAfter(times: seq<real>, j: nat, time: real) {
    exists k :: j < k < |times| && times[k] == time
  }

  /** Below `limit`, a time that a later one falls short of comes again behind that one. */
  ghost predicate OvertakenRecurBelow(times: seq<real>, limit: real) {
    forall i, j | 0 <= i < j < |times| && times[i] > times[j] :: times[i] >= limit || OccursAfter(times, j, times[i])
  }

  /** Every time that a later one falls short of comes again behind that one: what is left when
      overwritten points are dropped is in time order. */
  ghost predicate OvertakenRecur(times: seq<real>) {
    forall i, j | 0 <= i < j < |times| && times[i] > times[j] :: OccursAfter(times, j, times[i])
  }

  ghost predicate InTimeOrder<V>(points: seq<Point<V>>) {
    forall i, j | 0 <= i < j < |points| :: points[i].time <= points[j].time
  }

  lemma NothingOvertaken<V>(points: seq<Point<V>>)
    requires InTimeOrder(points)
    ensures OvertakenRecur(TimesOf(points))
  {}

  lemma FrontRecursBelow(times: seq<real>, limit: real)
    requires times != [] && OvertakenRecurBelow(times, limit)
    ensures var last := |times| - 1;
      OvertakenRecurBelow(times[..last], if times[last] < limit then times[last] else limit)
  {
    var last := |times| - 1;
    var front := times[..last];
    var lower := if times[last] < limit then times[last] else limit;
    forall i, j | 0 <= i < j < |front| && front[i] > front[j] && front[i] < lower
      ensures OccursAfter(front, j, front[i])
    {
      assert OccursAfter(times, j, times[i]);
      var k :| j < k < |times| && times[k] == times[i];
      assert front[k] == front[i];
    }
  }

  lemma NoneBetweenLast<V>(points: seq<Point<V>>, limit: real)
    requires points != [] && OvertakenRecurBelow(TimesOf(points), limit)
    ensures var last := |points| - 1;
      forall q | q in points[..last] :: !(points[last].time < q.time < limit)
  {
    var times, last := TimesOf(points), |points| - 1;
    forall q | q in points[..last]
      ensures !(points[last].time < q.time < limit)
    {
      var i :| 0 <= i < last && points[i] == q;
      assert times[i] == q.time && times[last] == points[last].time;
      assert !OccursAfter(times, last, times[i]);
    }
  }

  lemma {:induction false} SkippingLosesNothingBelow<V>(points: seq<Point<V>>, redundant: (V, V) -> bool, default: V,
                                                        limit: real, time: real)
    requires OvertakenRecurBelow(TimesOf(points), limit) && time < limit && forall v :: redundant(v, v)
    ensures redundant(ValueAt(Keeping(points), time, default), ValueAt(Skipping(points, redundant, default), time, default))
  {
    if points != [] {
      var last := |points| - 1;
      var front, p := points[..last], points[last];
      var lower := if p.time < limit then p.time else limit;
      assert TimesOf(front) == TimesOf(points)[..last];
      FrontRecursBelow(TimesOf(points), limit);
      NoneBetweenLast(points, limit);
      AddedComeFrom(front, redundant, default);
      hide OvertakenRecurBelow, Ordered, Inserted, LastNotAfter, TimesOf;
      ValueAfterInsert(Keeping(front), p, time, default);
      ValueAfterInsert(Skipping(front, redundant, default), p, time, default);
      if time < lower {
        SkippingLosesNothingBelow(front, redundant, default, lower, time);
      } else {
        ValueWithin(Skipping(front, redundant, default), p.time, time, default);
      }
    }
  }

  /** If overtaken times recur, what is looked up after skipping is redundant, at every time, to
      what is looked up after keeping all. */
  lemma SkippingLosesNothing<V>(points: seq<Point<V>>, redundant: (V, V) -> bool, default: V, time: real)
    requires OvertakenRecur(TimesOf(points)) && forall v :: redundant(v, v)
    ensures redundant(ValueAt(Keeping(points), time, default), ValueAt(Skipping(points, redundant, default), time, default))
  {
    SkippingLosesNothingBelow(points, redundant, default, time + 1.0, time);
  }

  // ---------- exactly when nothing is lost ----------

  /** What is looked up after skipping is redundant, at every time, to what is looked up after
      keeping all. */
  ghost predicate LosesNothing<V>(points: seq<Point<V>>, redundant: (V, V) -> bool, default: V) {
    forall time :: redundant(ValueAt(Keeping(points), time, default), ValueAt(Skipping(points, redundant, default), time, default))
  }

  /** The times decide whether anything can be lost, if only some value is not redundant. */
  lemma LosesNothingExactlyIf<V(!new)>(times: seq<real>, redundant: (V, V) -> bool, default: V, on: V)
    requires (forall v :: redundant(v, v)) && !redundant(on, default) && !redundant(default, on)
    ensures (forall points: seq<Point<V>> | TimesOf(points) == times :: LosesNothing(points, redundant, default))
      <==> OvertakenRecur(times)
  {
    if OvertakenRecur(times) {
      forall points: seq<Point<V>> | TimesOf(points) == times
        ensures LosesNothing(points, redundant, default)
      {
        forall time
          ensures redundant(ValueAt(Keeping(points), time, default), ValueAt(Skipping(points, redundant, default), time, default))
        {
          SkippingLosesNothing(points, redundant, default, time);
        }
      }
    } else {
      var i: nat, j: nat :| i < j < |times| && times[i] > times[j] && !OccursAfter(times, j, times[i]);
      var points := SomeLost(times, i, j, redundant, default, on);
    }
  }

  /** The default up to the point `i`, which is therefore skipped, and another value at earlier
      times added afterwards, which then lasts beyond it. */
  function Overtaken<V>(times: seq<real>, i: nat, default: V, on: V): (points: seq<Point<V>>)
    requires i < |times|
    ensures TimesOf(points) == times
  {
    seq(|times|, k requires 0 <= k < |times| => Point(times[k], if k > i && times[k] < times[i] then on else default))
  }

  /** A time that a later one falls short of and that does not come again. */
  lemma {:induction false} SomeLost<V>(times: seq<real>, i: nat, j: nat, redundant: (V, V) -> bool, default: V, on: V)
    returns (points: seq<Point<V>>)
    requires i < j < |times| && times[i] > times[j] && !OccursAfter(times, j, times[i])
    requires redundant(default, default) && !redundant(on, default) && !redundant(default, on)
    ensures TimesOf(points) == times && !LosesNothing(points, redundant, default)
    decreases j - i
  {
    if k :| i < k < j && times[k] == times[i] {
      points := SomeLost(times, k, j, redundant, default, on);
    } else {
      assert forall k | i < k < |times| && times[k] == times[i] :: j < k;
      points := Overtaken(times, i, default, on);
      LostAt(times, i, j, redundant, default, on);
    }
  }

  lemma LostAt<V>(times: seq<real>, i: nat, j: nat, redundant: (V, V) -> bool, default: V, on: V)
    requires i < j < |times| && times[i] > times[j] && !OccursAfter(times, i, times[i])
    requires redundant(default, default) && !redundant(on, default)
    ensures var points := Overtaken(times, i, default, on);
      && ValueAt(Skipping(points, redundant, default), times[i], default) == on
      && ValueAt(Keeping(points), times[i], default) == default
  {
    var points, time := Overtaken(times, i, default, on), times[i];
    var skipping, keeping := Skipping(points, redundant, default), Keeping(points);
    assert points[..|times|] == points;
    SkippedSoFar(times, i, |times|, redundant, default, on);
    KeptSoFar(times, i, |times|, default, on);
    hide Skipping, Keeping, LastNotAfter;
    LookupGives(skipping, time);
    assert SomeUpTo(skipping, time);
    LookupIs(keeping, time, Point(time, default));
  }

  ghost predicate OnlyUpTo<V>(points: seq<Point<V>>, time: real, on: V) {
    forall q | q in points && q.time <= time :: q.value == on
  }

  ghost predicate SomeUpTo<V>(points: seq<Point<V>>, time: real) {
    exists q :: q in points && q.time <= time
  }

  /** Up to the time of `i` only the other value is stored, and it is as soon as an earlier time
      has come. */
  lemma {:induction false} SkippedSoFar<V>(times: seq<real>, i: nat, n: nat, redundant: (V, V) -> bool, default: V, on: V)
    requires i < |times| && n <= |times| && !OccursAfter(times, i, times[i])
    requires redundant(default, default) && !redundant(on, default)
    ensures var stored := Skipping(Overtaken(times, i, default, on)[..n], redundant, default);
      && (n <= i + 1 ==> stored == [])
      && OnlyUpTo(stored, times[i], on)
      && ((exists k :: i < k < n && times[k] < times[i]) ==> SomeUpTo(stored, times[i]))
  {
    hide Skipping, Inserted, Ordered;
    var points := Overtaken(times, i, default, on);
    if n == 0 {
      NothingSkipped(redundant, default);
    } else {
      var p := points[n - 1];
      assert points[..n] == points[..n - 1] + [p];
      SkippedSoFar(times, i, n - 1, redundant, default, on);
      OneMore(points[..n - 1], p, redundant, default);
      var stored := Skipping(points[..n - 1], redundant, default);
      if n <= i + 1 {
        DefaultSkipped(p, redundant, default);
      } else {
        assert p.time != times[i];
        hide Overtaken;
        StoredNext(stored, p, times[i], redundant, default, on);
      }
    }
  }

  lemma NothingSkipped<V>(redundant: (V, V) -> bool, default: V)
    ensures Skipping([], redundant, default) == []
  {}

  lemma DefaultSkipped<V>(p: Point<V>, redundant: (V, V) -> bool, default: V)
    requires p.value == default && redundant(default, default)
    ensures AddedUnlessRedundant([], p, redundant, default) == []
  {
    hide Inserted;
  }

  lemma StoredNext<V>(stored: seq<Point<V>>, p: Point<V>, time: real, redundant: (V, V) -> bool, default: V, on: V)
    requires Ordered(stored) && OnlyUpTo(stored, time, on) && p.time != time && !redundant(on, default)
    requires p.time < time ==> p.value == on
    ensures var now := AddedUnlessRedundant(stored, p, redundant, default);
      && OnlyUpTo(now, time, on)
      && (SomeUpTo(stored, time) || p.time < time ==> SomeUpTo(now, time))
  {
    InsertedOrdered(stored, p);
    LookupGives(stored, p.time);
    hide Inserted, LastNotAfter, Ordered;
    var now := AddedUnlessRedundant(stored, p, redundant, default);
    if SomeUpTo(stored, time) {
      var q :| q in stored && q.time <= time;
      assert q in now || q.time == p.time;
    }
  }

  lemma {:induction false} KeptSoFar<V>(times: seq<real>, i: nat, n: nat, default: V, on: V)
    requires i < n <= |times| && !OccursAfter(times, i, times[i])
    ensures Point(times[i], default) in Keeping(Overtaken(times, i, default, on)[..n])
  {
    var points := Overtaken(times, i, default, on);
    assert points[..n][..n - 1] == points[..n - 1];
    InsertedOrdered(Keeping(points[..n - 1]), points[n - 1]);
    if n > i + 1 {
      assert times[n - 1] != times[i];
      KeptSoFar(times, i, n - 1, default, on);
    }
    hide Inserted, Overtaken;
  }

  // ---------- the two kinds of redundancy ----------

  const DefaultKiai := false
  const DefaultDifficulty := DifficultyValue(1.0, 1.0, true)

  function EffectRedundant(p: bool, existing: bool): bool {
    p == existing
  }

  /** The BPM multiplier is not compared: see `MultiplierIsKeptExactlyIf`. */
  function DifficultyRedundant(p: DifficultyValue, existing: DifficultyValue): bool {
    p.generateTicks == existing.generateTicks && Abs(p.sliderVelocity - existing.sliderVelocity) < Epsilon
  }

  /** Skipping redundant points leaves kiai at every time as keeping all of them does. */
  ghost predicate KiaiIsKept(points: seq<Point<bool>>) {
    forall time ::
      ValueAt(Skipping(points, EffectRedundant, DefaultKiai), time, DefaultKiai) == ValueAt(Keeping(points), time, DefaultKiai)
  }

  lemma KiaiIsKeptExactlyIf(times: seq<real>)
    ensures (forall points: seq<Point<bool>> | TimesOf(points) == times :: KiaiIsKept(points)) <==> OvertakenRecur(times)
  {
    LosesNothingExactlyIf(times, EffectRedundant, DefaultKiai, true);
    forall points: seq<Point<bool>>
      ensures KiaiIsKept(points) <==> LosesNothing(points, EffectRedundant, DefaultKiai)
    {
      KiaiIsValue(points);
    }
    hide KiaiIsKept, LosesNothing, OvertakenRecur;
  }

  lemma KiaiIsValue(points: seq<Point<bool>>)
    ensures KiaiIsKept(points) <==> LosesNothing(points, EffectRedundant, DefaultKiai)
  {
    hide ValueAt, Skipping, Keeping;
    forall time {:trigger ValueAt(Keeping(points), time, DefaultKiai)}
      ensures EffectRedundant(ValueAt(Keeping(points), time, DefaultKiai),
                ValueAt(Skipping(points, EffectRedundant, DefaultKiai), time, DefaultKiai)) <==>
        ValueAt(Skipping(points, EffectRedundant, DefaultKiai), time, DefaultKiai) == ValueAt(Keeping(points), time, DefaultKiai)
    {}
  }

  /** Two values that differ by less than epsilon in velocity and not in their flags. */
  predicate Alike(v: DifficultyValue, w: DifficultyValue) {
    -1.0 < (v.sliderVelocity - w.sliderVelocity) * 4503599627370496.0 < 1.0 && v.generateTicks == w.generateTicks
  }

  /** Velocities are off by less than epsilon, however many points are skipped one after the other. */
  ghost predicate VelocityIsKept(points: seq<Point<DifficultyValue>>) {
    forall time ::
      Alike(ValueAt(Keeping(points), time, DefaultDifficulty),
            ValueAt(Skipping(points, DifficultyRedundant, DefaultDifficulty), time, DefaultDifficulty))
  }

  lemma RedundantIsAlike(v: DifficultyValue, w: DifficultyValue)
    ensures DifficultyRedundant(v, w) <==> Alike(v, w)
  {}

  lemma VelocityIsAlike(points: seq<Point<DifficultyValue>>)
    ensures VelocityIsKept(points) <==> LosesNothing(points, DifficultyRedundant, DefaultDifficulty)
  {
    hide ValueAt, Skipping, Keeping, DifficultyRedundant, Alike;
    forall v, w
      ensures DifficultyRedundant(v, w) <==> Alike(v, w)
    {
      RedundantIsAlike(v, w);
    }
  }

  /** What adding one point does: nothing if it is alike to what is looked up at its time, where
      before all points the velocity is 1 with ticks; otherwise it is in the list afterwards. */
  lemma AddedUnlessAlike(points: seq<Point<DifficultyValue>>, p: Point<DifficultyValue>)
    requires Ordered(points)
    ensures var r := AddedUnlessRedundant(points, p, DifficultyRedundant, DefaultDifficulty);
      var existing := ValueAt(points, p.time, DifficultyValue(1.0, 1.0, true));
      && (Alike(p.value, existing) ==> r == points)
      && (!Alike(p.value, existing) ==> p in r && forall q | q in points && q.time != p.time :: q in r)
  {
    hide Inserted, Alike, DifficultyRedundant, LastNotAfter;
    var existing := ValueAt(points, p.time, DifficultyValue(1.0, 1.0, true));
    RedundantIsAlike(p.value, existing);
    InsertedOrdered(points, p);
  }

  /** The same for kiai, which is off before all points. */
  lemma AddedUnlessSameKiai(points: seq<Point<bool>>, p: Point<bool>)
    requires Ordered(points)
    ensures var r := AddedUnlessRedundant(points, p, EffectRedundant, DefaultKiai);
      && (p.value == ValueAt(points, p.time, false) ==> r == points)
      && (p.value != ValueAt(points, p.time, false) ==> p in r && forall q | q in points && q.time != p.time :: q in r)
  {
    hide Inserted, LastNotAfter;
    InsertedOrdered(points, p);
  }

  lemma VelocityIsKeptExactlyIf(times: seq<real>)
    ensures (forall points: seq<Point<DifficultyValue>> | TimesOf(points) == times :: VelocityIsKept(points)) <==>
      OvertakenRecur(times)
  {
    LosesNothingExactlyIf(times, DifficultyRedundant, DefaultDifficulty, DifficultyValue(1.0, 1.0, false));
    forall points: seq<Point<DifficultyValue>>
      ensures VelocityIsKept(points) <==> LosesNothing(points, DifficultyRedundant, DefaultDifficulty)
    {
      VelocityIsAlike(points);
    }
    hide VelocityIsKept, LosesNothing, OvertakenRecur;
  }

  // ---------- the multiplier that is not compared ----------

  /** What `DifficultyPoint::new` makes of a line's beat length, if that is a number. */
  function InheritedValue(beatLen: real): DifficultyValue {
    var speed := if beatLen < 0.0 then 100.0 / -beatLen else 1.0;
    DifficultyValue(RealMin(RealMax(speed, 0.1), 10.0),
                    if beatLen < 0.0 then RealMin(RealMax(-beatLen, 10.0), 10000.0) / 100.0 else 1.0, true)
  }

  /** Velocity and multiplier of an inherited line: inverse to each other as long as neither is clamped. */
  lemma InheritedIs(beatLen: real)
    ensures var d := InheritedValue(beatLen);
      && (beatLen >= 0.0 ==> d == DifficultyValue(1.0, 1.0, true))
      && (-1000.0 <= beatLen <= -10.0 ==> d.sliderVelocity * d.bpmMultiplier == 1.0)
      && (-10.0 < beatLen < 0.0 ==> d.sliderVelocity == 10.0 && d.bpmMultiplier == 0.1)
      && (beatLen < -1000.0 ==> d.sliderVelocity == 0.1)
      && (-10000.0 <= beatLen <= -10.0 ==> d.bpmMultiplier * 100.0 == -beatLen)
      && (beatLen < -10000.0 ==> d.bpmMultiplier == 100.0)
      && d.generateTicks
  {
    if beatLen < 0.0 {
      HundredOver(-beatLen);
    }
  }

  lemma HundredOver(b: real)
    requires b > 0.0
    ensures 100.0 / b * (b / 100.0) == 1.0
    ensures 100.0 / b <= 0.1 <==> b >= 1000.0
    ensures 100.0 / b >= 10.0 <==> b <= 10.0
  {
    var q := 100.0 / b;
    assert q * b == 100.0;
    if q > 0.1 && b >= 1000.0 {
      PositiveProduct(q - 0.1, b);
      assert false;
    }
    if q < 10.0 && b <= 10.0 {
      PositiveProduct(10.0 - q, b);
      assert false;
    }
    if q < 10.0 {
      PositiveProduct(10.0 - q, b);
    }
  }

  ghost predicate MultiplierIsKept(points: seq<Point<DifficultyValue>>) {
    forall time ::
      ValueAt(Skipping(points, DifficultyRedundant, DefaultDifficulty), time, DefaultDifficulty).bpmMultiplier
        == ValueAt(Keeping(points), time, DefaultDifficulty).bpmMultiplier
  }

  ghost predicate DrawnFrom(points: seq<Point<DifficultyValue>>, values: iset<DifficultyValue>) {
    forall q | q in points :: q.value in values
  }

  /** Of these values only those with the same multiplier are redundant to each other. */
  ghost predicate RedundantHaveOneMultiplier(values: iset<DifficultyValue>) {
    forall v, w | v in values && w in values && DifficultyRedundant(v, w) :: v.bpmMultiplier == w.bpmMultiplier
  }

  lemma MultiplierIsKeptExactlyIf(values: iset<DifficultyValue>)
    requires DefaultDifficulty in values
    ensures (forall points | DrawnFrom(points, values) && OvertakenRecur(TimesOf(points)) :: MultiplierIsKept(points))
      <==> RedundantHaveOneMultiplier(values)
  {
    if RedundantHaveOneMultiplier(values) {
      forall points | DrawnFrom(points, values) && OvertakenRecur(TimesOf(points))
        ensures MultiplierIsKept(points)
      {
        MultiplierKept(points, values);
      }
    } else {
      var v, w :| v in values && w in values && DifficultyRedundant(v, w) && v.bpmMultiplier != w.bpmMultiplier;
      var points := MultiplierIsLost(v, w);
      SomeInOrder(points);
    }
  }

  lemma MultiplierKept(points: seq<Point<DifficultyValue>>, values: iset<DifficultyValue>)
    requires DefaultDifficulty in values && DrawnFrom(points, values) && OvertakenRecur(TimesOf(points))
    requires RedundantHaveOneMultiplier(values)
    ensures MultiplierIsKept(points)
  {
    hide Keeping, Skipping, ValueAt, OvertakenRecur, TimesOf, DifficultyRedundant;
    var keeping, skipping := Keeping(points), Skipping(points, DifficultyRedundant, DefaultDifficulty);
    AddedComeFrom(points, DifficultyRedundant, DefaultDifficulty);
    AllRedundantToThemselves();
    forall time
      ensures ValueAt(skipping, time, DefaultDifficulty).bpmMultiplier == ValueAt(keeping, time, DefaultDifficulty).bpmMultiplier
    {
      SkippingLosesNothing(points, DifficultyRedundant, DefaultDifficulty, time);
      LooksUpValueOf(keeping, points, values, time);
      LooksUpValueOf(skipping, points, values, time);
    }
  }

  lemma AllRedundantToThemselves()
    ensures forall v :: DifficultyRedundant(v, v)
  {}

  lemma LooksUpValueOf(points: seq<Point<DifficultyValue>>, all: seq<Point<DifficultyValue>>, values: iset<DifficultyValue>,
                       time: real)
    requires Ordered(points) && ComeFrom(points, all) && DrawnFrom(all, values) && DefaultDifficulty in values
    ensures ValueAt(points, time, DefaultDifficulty) in values
  {
    LookupGives(points, time);
    hide LastNotAfter, Ordered;
  }

  lemma SomeInOrder(points: seq<Point<DifficultyValue>>)
    requires |points| == 1 || (|points| == 2 && points[0].time < points[1].time)
    ensures OvertakenRecur(TimesOf(points))
  {}

  /** Redundant values with two multipliers: the second, or whichever differs from the default, is
      skipped. */
  lemma MultiplierIsLost(v: DifficultyValue, w: DifficultyValue) returns (points: seq<Point<DifficultyValue>>)
    requires DifficultyRedundant(v, w) && v.bpmMultiplier != w.bpmMultiplier
    ensures !MultiplierIsKept(points) && DrawnFrom(points, iset{v, w})
    ensures |points| == 1 || (|points| == 2 && points[0].time < points[1].time)
  {
    hide Skipping, Keeping, ValueAt;
    if !DifficultyRedundant(w, DefaultDifficulty) {
      points := [Point(0.0, w), Point(1.0, v)];
      SecondIsSkipped(w, v);
    } else if !DifficultyRedundant(v, DefaultDifficulty) {
      points := [Point(0.0, v), Point(1.0, w)];
      SecondIsSkipped(v, w);
    } else {
      var x := if v.bpmMultiplier != DefaultDifficulty.bpmMultiplier then v else w;
      points := [Point(0.0, x)];
      FirstIsSkipped(x);
    }
  }

  lemma OnePoint(v: DifficultyValue)
    ensures Keeping([Point(0.0, v)]) == [Point(0.0, v)]
    ensures Skipping([Point(0.0, v)], DifficultyRedundant, DefaultDifficulty) ==
      if DifficultyRedundant(v, DefaultDifficulty) then [] else [Point(0.0, v)]
  {
    OneMore([], Point(0.0, v), DifficultyRedundant, DefaultDifficulty);
    assert [] + [Point(0.0, v)] == [Point(0.0, v)];
    hide DifficultyRedundant;
  }

  lemma FirstIsSkipped(v: DifficultyValue)
    requires DifficultyRedundant(v, DefaultDifficulty) && v.bpmMultiplier != DefaultDifficulty.bpmMultiplier
    ensures !MultiplierIsKept([Point(0.0, v)])
  {
    OnePoint(v);
    hide Keeping, Skipping, DifficultyRedundant;
    var points := [Point(0.0, v)];
    LookupIs(points, 0.0, points[0]);
    assert ValueAt(Keeping(points), 0.0, DefaultDifficulty) == v;
    assert ValueAt(Skipping(points, DifficultyRedundant, DefaultDifficulty), 0.0, DefaultDifficulty) == DefaultDifficulty;
  }

  lemma SecondIsSkipped(v: DifficultyValue, w: DifficultyValue)
    requires !DifficultyRedundant(v, DefaultDifficulty) && DifficultyRedundant(w, v) && v.bpmMultiplier != w.bpmMultiplier
    ensures !MultiplierIsKept([Point(0.0, v), Point(1.0, w)])
  {
    hide Keeping, Skipping, DifficultyRedundant, Inserted, LastNotAfter;
    var first, second := Point(0.0, v), Point(1.0, w);
    var points := [first, second];
    assert [first] + [second] == points;
    OnePoint(v);
    OneMore([first], second, DifficultyRedundant, DefaultDifficulty);
    LookupIs([first], 1.0, first);
    assert Skipping(points, DifficultyRedundant, DefaultDifficulty) == [first];
    InsertedOrdered([first], second);
    LookupIs(Keeping(points), 1.0, second);
    assert ValueAt(Keeping(points), 1.0, DefaultDifficulty) == w;
    assert ValueAt([first], 1.0, DefaultDifficulty) == v;
  }

  /** Two inherited lines with beat lengths -1000 and -2000: both velocities are clamped to 0.1, the
      multipliers are 10 and 20, and the second point is skipped. */
  lemma ClampedMultiplierIsLost()
    ensures InheritedValue(-1000.0) == DifficultyValue(0.1, 10.0, true)
    ensures InheritedValue(-2000.0) == DifficultyValue(0.1, 20.0, true)
    ensures !MultiplierIsKept([Point(0.0, InheritedValue(-1000.0)), Point(1.0, InheritedValue(-2000.0))])
  {
    var v, w := InheritedValue(-1000.0), InheritedValue(-2000.0);
    assert DifficultyRedundant(w, v) && !DifficultyRedundant(v, DefaultDifficulty);
    hide *;
    SecondIsSkipped(v, w);
  }
}

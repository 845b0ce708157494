/** osu!taiko's colour encoding: objects in streaks, streaks in alternating patterns, those in
    repeating patterns. Objects are their indices in the list of difficulty objects. */
module TaikoColor {
  import opened Wrappers
  import opened TaikoObjects

  type MonoStreak = seq<nat>
  type AlternatingMonoPattern = seq<MonoStreak>
  type RepeatingHitPatterns = seq<AlternatingMonoPattern>

  // ---------- flattening ----------

  function Flat<T>(ss: seq<seq<T>>): (r: seq<T>) {
    if ss == [] then [] else Flat(ss[..|ss| - 1]) + ss[|ss| - 1]
  }

  function UpTo(n: nat): (r: seq<nat>)
    ensures |r| == n && forall k | 0 <= k < n :: r[k] == k
  {
    seq(n, k => k)
  }

  lemma FlatAppend<T>(ss: seq<seq<T>>, s: seq<T>)
    ensures Flat(ss + [s]) == Flat(ss) + s
  {
    assert (ss + [s])[..|ss|] == ss;
  }

  lemma FlatGrowLast<T>(ss: seq<seq<T>>, x: T)
    requires ss != []
    ensures Flat(ss[|ss| - 1 := ss[|ss| - 1] + [x]]) == Flat(ss) + [x]
  {
    assert ss[|ss| - 1 := ss[|ss| - 1] + [x]][..|ss| - 1] == ss[..|ss| - 1];
  }

  /** Where the elements of `ss[k]` are in the flattened list. */
  lemma {:induction false} FlatAt<T>(ss: seq<seq<T>>, k: nat)
    requires k < |ss|
    ensures |Flat(ss[..k])| + |ss[k]| == |Flat(ss[..k + 1])| <= |Flat(ss)|
    ensures forall x | 0 <= x < |ss[k]| :: Flat(ss)[|Flat(ss[..k])| + x] == ss[k][x]
    decreases |ss|
  {
    assert ss[..k + 1][..k] == ss[..k];
    var front := ss[..|ss| - 1];
    if k < |front| {
      FlatAt(front, k);
      assert front[..k] == ss[..k] && front[..k + 1] == ss[..k + 1];
    } else {
      assert ss[..k + 1] == ss;
    }
  }

  // ---------- streaks ----------

  /** A note whose previous note has the same colour. Whatever is no note continues nothing, and
      notes look past it. */
  ghost predicate Continues(types: seq<HitType>, k: nat) {
    && k < |types| && !types[k].NonHit?
    && exists p: nat :: KeptBefore(types, IsNote, k, 0, p) && types[p] == types[k]
  }

  lemma OneKeptBefore(types: seq<HitType>, k: nat, p: nat, q: nat)
    requires KeptBefore(types, IsNote, k, 0, p) && KeptBefore(types, IsNote, k, 0, q)
    ensures p == q
  {
    if p < q {
      NoneKeptBetween(types, IsNote, k, p, q);
    } else if q < p {
      NoneKeptBetween(types, IsNote, k, q, p);
    }
  }

  ghost predicate IsStreak(types: seq<HitType>, s: MonoStreak) {
    && s != [] && !Continues(types, s[0])
    && forall x | 0 < x < |s| :: Continues(types, s[x])
  }

  ghost predicate AllStreaks(types: seq<HitType>, streaks: seq<MonoStreak>) {
    forall j | 0 <= j < |streaks| :: IsStreak(types, streaks[j])
  }

  method EncodeMonoStreaks(data: TaikoDifficultyObjects) returns (streaks: seq<MonoStreak>)
    requires data.Valid()
    ensures Flat(streaks) == UpTo(|data.objects|) && AllStreaks(data.objects, streaks)
  {
    streaks := [];
    if |data.objects| == 0 {
      return;
    }
    streaks := [[0]];
    assert UpTo(1) == [0] && Flat([[0]]) == [0] by { FlatAppend([], [0]); }
    FirstStarts(data.objects);
    for k := 1 to |data.objects|
      invariant streaks != [] && Flat(streaks) == UpTo(k) && AllStreaks(data.objects, streaks)
    {
      var prev := data.PreviousNote(k, 0);
      var condition := prev.Some? && data.objects[prev.value] == data.objects[k];
      ConditionContinues(data.objects, k, prev);
      hide *;
      var last := |streaks| - 1;
      if condition {
        GrowsStreak(data.objects, streaks, k);
        streaks := streaks[last := streaks[last] + [k]];
      } else {
        StartsStreak(data.objects, streaks, k);
        streaks := streaks + [[k]];
      }
    }
  }

  lemma FirstStarts(types: seq<HitType>)
    ensures AllStreaks(types, [[0]])
  {}

  lemma ConditionContinues(types: seq<HitType>, k: nat, prev: Option<nat>)
    requires k < |types|
    requires types[k].NonHit? ==> prev == None
    requires prev.Some? ==> KeptBefore(types, IsNote, k, 0, prev.value)
    requires prev.None? && !types[k].NonHit? ==> |Kept(types[..k], IsNote)| <= 0
    ensures Continues(types, k) <==> prev.Some? && types[prev.value] == types[k]
  {
    if Continues(types, k) {
      var p: nat :| KeptBefore(types, IsNote, k, 0, p) && types[p] == types[k];
      if prev.Some? {
        OneKeptBefore(types, k, p, prev.value);
      }
    }
  }

  lemma GrowsStreak(types: seq<HitType>, streaks: seq<MonoStreak>, k: nat)
    requires streaks != [] && Flat(streaks) == UpTo(k) && AllStreaks(types, streaks) && Continues(types, k)
    ensures var last := |streaks| - 1; var r := streaks[last := streaks[last] + [k]];
      Flat(r) == UpTo(k + 1) && AllStreaks(types, r)
  {
    hide Continues;
    FlatGrowLast(streaks, k);
    assert UpTo(k + 1) == UpTo(k) + [k];
    assert IsStreak(types, streaks[|streaks| - 1]);
  }

  lemma StartsStreak(types: seq<HitType>, streaks: seq<MonoStreak>, k: nat)
    requires Flat(streaks) == UpTo(k) && AllStreaks(types, streaks) && !Continues(types, k)
    ensures Flat(streaks + [[k]]) == UpTo(k + 1) && AllStreaks(types, streaks + [[k]])
  {
    hide Continues;
    FlatAppend(streaks, [k]);
    assert UpTo(k + 1) == UpTo(k) + [k];
  }

  /** The notes of a streak behind its first object have one colour; so has the first, if it is
      a note. */
  lemma {:induction false} StreakHasOneColor(types: seq<HitType>, streaks: seq<MonoStreak>, j: nat, x: nat)
    requires Flat(streaks) == UpTo(|types|) && AllStreaks(types, streaks)
    requires j < |streaks| && 0 < x < |streaks[j]|
    ensures var s := streaks[j]; s[x] == s[0] + x < |types| && s[0] < |types|
    ensures var s := streaks[j]; (x > 1 || !types[s[0]].NonHit?) ==> types[s[x]] == types[s[x - 1]]
    ensures !types[streaks[j][x]].NonHit?
  {
    hide Continues, Flat, UpTo;
    var s := streaks[j];
    StreakPlaces(types, streaks, j, x);
    StreakPlaces(types, streaks, j, x - 1);
    assert IsStreak(types, s) && Continues(types, s[x]);
    IsANote(types, s[x]);
    if x > 1 {
      assert Continues(types, s[x - 1]);
      IsANote(types, s[x - 1]);
    }
    if !types[s[x - 1]].NonHit? {
      SameAsBefore(types, s[x]);
    }
  }

  lemma StreakPlaces(types: seq<HitType>, streaks: seq<MonoStreak>, j: nat, x: nat)
    requires Flat(streaks) == UpTo(|types|) && j < |streaks| && x < |streaks[j]|
    ensures var s := streaks[j]; s[x] == s[0] + x < |types|
  {
    FlatAt(streaks, j);
    hide Flat;
    var s, from := streaks[j], |Flat(streaks[..j])|;
    assert s[0] == from && s[x] == from + x;
  }

  lemma IsANote(types: seq<HitType>, k: nat)
    requires Continues(types, k)
    ensures k < |types| && !types[k].NonHit?
  {}

  /** A note that continues goes on with the colour of the object before it, if that is a note. */
  lemma SameAsBefore(types: seq<HitType>, k: nat)
    requires Continues(types, k) && k > 0 && k < |types| && !types[k - 1].NonHit?
    ensures types[k] == types[k - 1]
  {
    hide Kept;
    var p: nat :| KeptBefore(types, IsNote, k, 0, p) && types[p] == types[k];
    if p < k - 1 {
      NoneKeptBetween(types, IsNote, k, p, k - 1);
    }
  }

  // ---------- alternating patterns ----------

  ghost predicate OneRunLen(p: AlternatingMonoPattern) {
    p != [] && forall j | 0 <= j < |p| :: |p[j]| == |p[0]|
  }

  /** All streaks of a pattern have one length, which is not that of the next pattern. */
  ghost predicate Alternating(patterns: seq<AlternatingMonoPattern>) {
    && (forall i | 0 <= i < |patterns| :: OneRunLen(patterns[i]))
    && forall i, j | 0 <= i && j == i + 1 < |patterns| :: OtherRunLen(patterns[i], patterns[j])
  }

  ghost predicate OtherRunLen(p: AlternatingMonoPattern, q: AlternatingMonoPattern) {
    p != [] && q != [] && |p[0]| != |q[0]|
  }

  /** The first `k` streaks are in patterns, the last of them of run length `runLen`. */
  ghost predicate SplitUpTo(data: seq<MonoStreak>, patterns: seq<AlternatingMonoPattern>, k: nat, runLen: nat) {
    && k <= |data| && patterns != [] && Flat(patterns) == data[..k] && Alternating(patterns)
    && patterns[|patterns| - 1] != [] && |patterns[|patterns| - 1][0]| == runLen
  }

  lemma FirstPattern(data: seq<MonoStreak>)
    requires data != []
    ensures SplitUpTo(data, [[data[0]]], 1, |data[0]|)
  {
    FlatAppend([], [data[0]]);
  }

  lemma AllSplit(data: seq<MonoStreak>, patterns: seq<AlternatingMonoPattern>, runLen: nat)
    requires SplitUpTo(data, patterns, |data|, runLen)
    ensures Flat(patterns) == data && Alternating(patterns)
  {
    assert data[..|data|] == data;
  }

  lemma StartsPattern(data: seq<MonoStreak>, patterns: seq<AlternatingMonoPattern>, k: nat, runLen: nat)
    requires SplitUpTo(data, patterns, k, runLen) && k < |data| && |data[k]| != runLen
    ensures SplitUpTo(data, patterns + [[data[k]]], k + 1, |data[k]|)
  {
    FlatAppend(patterns, [data[k]]);
    hide Flat;
    assert data[..k + 1] == data[..k] + [data[k]];
    assert OneRunLen([data[k]]);
  }

  lemma GrowsPattern(data: seq<MonoStreak>, patterns: seq<AlternatingMonoPattern>, k: nat, runLen: nat)
    requires SplitUpTo(data, patterns, k, runLen) && k < |data| && |data[k]| == runLen && patterns != []
    ensures var last := |patterns| - 1;
      SplitUpTo(data, patterns[last := patterns[last] + [data[k]]], k + 1, |data[k]|)
  {
    var last := |patterns| - 1;
    FlatGrowLast(patterns, data[k]);
    hide Flat;
    assert data[..k + 1] == data[..k] + [data[k]];
    StaysAlternating(patterns, data[k]);
  }

  lemma StaysAlternating(patterns: seq<AlternatingMonoPattern>, mono: MonoStreak)
    requires Alternating(patterns) && patterns != []
    requires patterns[|patterns| - 1] != [] && |patterns[|patterns| - 1][0]| == |mono|
    ensures var last := |patterns| - 1; Alternating(patterns[last := patterns[last] + [mono]])
  {
    var last := |patterns| - 1;
    var r := patterns[last := patterns[last] + [mono]];
    assert OneRunLen(patterns[last]);
    assert OneRunLen(r[last]);
    forall i, j | 0 <= i && j == i + 1 < |r|
      ensures OtherRunLen(r[i], r[j])
    {
      assert OtherRunLen(patterns[i], patterns[j]);
    }
  }

  method EncodeAlternatingMonoPattern(data: seq<MonoStreak>) returns (patterns: seq<AlternatingMonoPattern>)
    ensures Flat(patterns) == data && Alternating(patterns)
  {
    patterns := [];
    if |data| == 0 {
      return;
    }
    hide *;
    patterns := [[data[0]]];
    var prevRunLen: nat := |data[0]|;
    FirstPattern(data);
    for k := 1 to |data|
      invariant patterns != [] && SplitUpTo(data, patterns, k, prevRunLen)
    {
      var mono := data[k];
      var last := |patterns| - 1;
      if |mono| != prevRunLen {
        StartsPattern(data, patterns, k, prevRunLen);
        patterns := patterns + [[mono]];
      } else {
        GrowsPattern(data, patterns, k, prevRunLen);
        patterns := patterns[last := patterns[last] + [mono]];
      }
      prevRunLen := |mono|;
    }
    AllSplit(data, patterns, prevRunLen);
  }

  // ---------- repeating patterns ----------

  /** Patterns of streaks of objects, none of them empty. */
  predicate Proper(n: nat, p: AlternatingMonoPattern) {
    p != [] && forall j | 0 <= j < |p| :: p[j] != [] && p[j][0] < n
  }

  predicate HasIdenticalMonoLen(a: AlternatingMonoPattern, b: AlternatingMonoPattern)
    requires a != [] && b != []
  {
    |a[0]| == |b[0]|
  }

  predicate IsRepetitionOf(types: seq<HitType>, a: AlternatingMonoPattern, b: AlternatingMonoPattern)
    requires Proper(|types|, a) && Proper(|types|, b)
  {
    HasIdenticalMonoLen(a, b) && |a| == |b| && types[a[0][0]] == types[b[0][0]]
  }

  ghost predicate AllProper(types: seq<HitType>, data: seq<AlternatingMonoPattern>) {
    forall i | 0 <= i < |data| :: Proper(|types|, data[i])
  }

  /** The pattern after the next one repeats this one. */
  ghost predicate RepeatedAfter(types: seq<HitType>, data: seq<AlternatingMonoPattern>, i: nat)
    requires AllProper(types, data)
  {
    i + 2 < |data| && IsRepetitionOf(types, data[i], data[i + 2])
  }

  /** `data[from..to]` is a group: each of its patterns is repeated by the next but one, and it
      goes on for as long as that is so. */
  ghost predicate IsGroup(types: seq<HitType>, data: seq<AlternatingMonoPattern>, from: nat, to: nat)
    requires AllProper(types, data)
  {
    && from < to <= |data|
    && (forall i: nat | from <= i && i + 2 < to :: RepeatedAfter(types, data, i))
    && (to == from + 1 || to >= from + 3)
    && !RepeatedAfter(types, data, if to == from + 1 then from else to - 2)
  }

  ghost predicate Grouped(types: seq<HitType>, data: seq<AlternatingMonoPattern>, groups: seq<RepeatingHitPatterns>)
    requires AllProper(types, data)
  {
    forall g | 0 <= g < |groups| :: IsGroup(types, data, |Flat(groups[..g])|, |Flat(groups[..g + 1])|)
  }

  lemma GroupedAppend(types: seq<HitType>, data: seq<AlternatingMonoPattern>, groups: seq<RepeatingHitPatterns>, group: RepeatingHitPatterns)
    requires AllProper(types, data) && Grouped(types, data, groups)
    requires IsGroup(types, data, |Flat(groups)|, |Flat(groups)| + |group|)
    ensures Grouped(types, data, groups + [group])
  {
    hide IsGroup, AllProper, Flat;
    var r := groups + [group];
    FlatAppend(groups, group);
    forall g | 0 <= g < |r|
      ensures IsGroup(types, data, |Flat(r[..g])|, |Flat(r[..g + 1])|)
    {
      if g < |groups| {
        assert r[..g] == groups[..g] && r[..g + 1] == groups[..g + 1];
      } else {
        assert r[..g] == groups && r[..g + 1] == r;
      }
    }
  }

  function IsCoupled(types: seq<HitType>, data: seq<AlternatingMonoPattern>): (c: bool)
    requires AllProper(types, data)
    ensures c <==> RepeatedAfter(types, data, 0)
  {
    |data| > 2 && IsRepetitionOf(types, data[0], data[2])
  }

  lemma TakenOff<T>(all: seq<T>, data: seq<T>, group: seq<T>, rest: seq<T>)
    requires |data| <= |all| && data == all[|all| - |data|..] && group + rest == data
    ensures rest == all[|all| - |rest|..] && all[..|all| - |data|] + group == all[..|all| - |rest|]
  {
    assert group == all[|all| - |data|..|all| - |rest|];
  }

  method EncodeRepeatingHitPatterns(types: seq<HitType>, all: seq<AlternatingMonoPattern>)
      returns (groups: seq<RepeatingHitPatterns>)
    requires AllProper(types, all)
    ensures Flat(groups) == all && Grouped(types, all, groups)
  {
    var data := all;
    groups := [];
    while data != []
      invariant |data| <= |all| && data == all[|all| - |data|..]
      invariant Flat(groups) == all[..|all| - |data|] && Grouped(types, all, groups)
      decreases |data|
    {
      hide Flat, Grouped, IsGroup, AllProper;
      var group, rest := TakeGroup(types, all, data);
      FlatAppend(groups, group);
      GroupedAppend(types, all, groups, group);
      TakenOff(all, data, group, rest);
      groups, data := groups + [group], rest;
    }
  }

  /** One round of the loop: pops the next group off the front. */
  method TakeGroup(types: seq<HitType>, ghost all: seq<AlternatingMonoPattern>, before: seq<AlternatingMonoPattern>)
      returns (group: RepeatingHitPatterns, data: seq<AlternatingMonoPattern>)
    requires AllProper(types, all) && before != [] && |before| <= |all| && before == all[|all| - |before|..]
    ensures |group| + |data| == |before| && group != []
    ensures group == before[..|group|] && data == before[|group|..]
    ensures IsGroup(types, all, |all| - |before|, |all| - |data|)
  {
    hide IsRepetitionOf, Proper, AllProper, RepeatedAfter;
    ghost var from := |all| - |before|;
    data, group := before, [];
    CoupledAt(types, all, from);
    var isCoupled := IsCoupled(types, data);
    if isCoupled {
      while isCoupled
        invariant |group| <= |before| && group == before[..|group|] && data == before[|group|..]
        invariant data == all[from + |group|..] && (isCoupled <==> RepeatedAfter(types, all, from + |group|))
        invariant group == [] ==> isCoupled
        invariant forall i: nat | from <= i < from + |group| :: RepeatedAfter(types, all, i)
        decreases |data|
      {
        RepeatedInBounds(types, all, from + |group|);
        group, data := group + [data[0]], data[1..];
        CoupledAt(types, all, from + |group|);
        isCoupled := IsCoupled(types, data);
      }
      RepeatedInBounds(types, all, from + |group| - 1);
      group, data := group + data[..2], data[2..];
    } else {
      group, data := [data[0]], data[1..];
    }
  }

  lemma CoupledAt(types: seq<HitType>, all: seq<AlternatingMonoPattern>, k: nat)
    requires AllProper(types, all) && k <= |all|
    ensures AllProper(types, all[k..]) && (RepeatedAfter(types, all[k..], 0) <==> RepeatedAfter(types, all, k))
  {}

  lemma RepeatedInBounds(types: seq<HitType>, all: seq<AlternatingMonoPattern>, k: nat)
    requires AllProper(types, all) && RepeatedAfter(types, all, k)
    ensures k + 2 < |all|
  {}

  const MaxRepetitionInterval := 16

  predicate RepeatsGroup(a: RepeatingHitPatterns, b: RepeatingHitPatterns)
    requires forall i | 0 <= i < |a| :: a[i] != []
    requires forall i | 0 <= i < |b| :: b[i] != []
  {
    |a| == |b| && forall i | 0 <= i < |a| && i < 2 :: HasIdenticalMonoLen(a[i], b[i])
  }

  ghost predicate NoneEmpty(groups: seq<RepeatingHitPatterns>) {
    forall g, i | 0 <= g < |groups| && 0 <= i < |groups[g]| :: groups[g][i] != []
  }

  /** The `k`-th group before `g` is repeated by it. */
  ghost predicate RepeatsBack(groups: seq<RepeatingHitPatterns>, g: nat, k: nat)
    requires NoneEmpty(groups) && g < |groups|
  {
    k <= g && RepeatsGroup(groups[g], groups[g - k])
  }

  /** The least distance below 16 at which the group repeats another one, 17 if there is none. */
  ghost predicate IsInterval(groups: seq<RepeatingHitPatterns>, g: nat, interval: nat)
    requires NoneEmpty(groups) && g < |groups|
  {
    && (interval == 17 || (1 <= interval < 16 && RepeatsBack(groups, g, interval)))
    && forall k | 1 <= k < interval && k < 16 :: !RepeatsBack(groups, g, k)
  }

  method FindRepetitionInterval(groups: seq<RepeatingHitPatterns>, g: nat) returns (interval: nat)
    requires NoneEmpty(groups) && g < |groups|
    ensures IsInterval(groups, g, interval)
  {
    if g == 0 {
      return MaxRepetitionInterval + 1;
    }
    interval := 1;
    while interval < MaxRepetitionInterval
      invariant 1 <= interval <= g && interval <= 16
      invariant forall k | 1 <= k < interval :: !RepeatsBack(groups, g, k)
    {
      if RepeatsGroup(groups[g], groups[g - interval]) {
        return interval;
      }
      if g == interval {
        break;
      }
      interval := interval + 1;
    }
    interval := MaxRepetitionInterval + 1;
  }

  // ---------- all together ----------

  method Encode(data: TaikoDifficultyObjects) returns (groups: seq<RepeatingHitPatterns>, intervals: seq<nat>)
    requires data.Valid()
    ensures IsEncoding(data.objects, groups) && NoneEmpty(groups) && |intervals| == |groups|
    ensures forall g | 0 <= g < |groups| :: IsInterval(groups, g, intervals[g])
  {
    var streaks := EncodeMonoStreaks(data);
    var patterns := EncodeAlternatingMonoPattern(streaks);
    ProperPatterns(data.objects, streaks, patterns);
    groups := EncodeRepeatingHitPatterns(data.objects, patterns);
    NoEmptyPatterns(data.objects, patterns, groups);
    intervals := [];
    for g := 0 to |groups|
      invariant |intervals| == g && forall h | 0 <= h < g :: IsInterval(groups, h, intervals[h])
    {
      var interval := FindRepetitionInterval(groups, g);
      intervals := intervals + [interval];
    }
  }

  /** Flattened three times the encoding is the list of objects, and every level is grouped as
      it should be. */
  ghost predicate IsEncoding(types: seq<HitType>, groups: seq<RepeatingHitPatterns>) {
    var patterns := Flat(groups);
    var streaks := Flat(patterns);
    && Flat(streaks) == UpTo(|types|)
    && AllStreaks(types, streaks) && Alternating(patterns)
    && AllProper(types, patterns) && Grouped(types, patterns, groups)
  }

  lemma ProperPatterns(types: seq<HitType>, streaks: seq<MonoStreak>, patterns: seq<AlternatingMonoPattern>)
    requires Flat(streaks) == UpTo(|types|) && AllStreaks(types, streaks)
    requires Flat(patterns) == streaks && Alternating(patterns)
    ensures AllProper(types, patterns)
  {
    hide Continues;
    forall i, j | 0 <= i < |patterns| && 0 <= j < |patterns[i]|
      ensures patterns[i][j] != [] && patterns[i][j][0] < |types|
    {
      FlatAt(patterns, i);
      var b := |Flat(patterns[..i])| + j;
      assert streaks[b] == patterns[i][j];
      assert IsStreak(types, streaks[b]);
      FlatAt(streaks, b);
      assert UpTo(|types|)[|Flat(streaks[..b])| + 0] == streaks[b][0];
    }
    forall i | 0 <= i < |patterns|
      ensures Proper(|types|, patterns[i])
    {
      assert OneRunLen(patterns[i]);
    }
  }

  lemma NoEmptyPatterns(types: seq<HitType>, patterns: seq<AlternatingMonoPattern>, groups: seq<RepeatingHitPatterns>)
    requires AllProper(types, patterns) && Flat(groups) == patterns
    ensures NoneEmpty(groups)
  {
    forall g, i | 0 <= g < |groups| && 0 <= i < |groups[g]|
      ensures groups[g][i] != []
    {
      FlatAt(groups, g);
      assert Proper(|types|, patterns[|Flat(groups[..g])| + i]);
    }
  }

  /** Where an object is: its repeating pattern, and the indices of its alternating pattern and
      its streak within their parents. */
  datatype Color = Color(repeating: nat, alternating: nat, streak: nat)

  ghost predicate IsIn(groups: seq<RepeatingHitPatterns>, c: Color, k: nat) {
    && c.repeating < |groups| && c.alternating < |groups[c.repeating]|
    && c.streak < |groups[c.repeating][c.alternating]|
    && k in groups[c.repeating][c.alternating][c.streak]
  }

  /** The first `n` objects know where they are. */
  ghost predicate Assigned(groups: seq<RepeatingHitPatterns>, colors: seq<Option<Color>>, n: nat) {
    n <= |colors| && forall k | 0 <= k < n :: colors[k].Some? && IsIn(groups, colors[k].value, k)
  }

  lemma AssignsNext(groups: seq<RepeatingHitPatterns>, colors: seq<Option<Color>>, k: nat, color: Color)
    requires Assigned(groups, colors, k) && k < |colors| && IsIn(groups, color, k)
    ensures Assigned(groups, colors[k := Some(color)], k + 1)
  {
    hide IsIn;
  }

  /** `c` elements come before the element `k`. */
  ghost predicate Counted<T>(ss: seq<seq<T>>, k: nat, c: nat) {
    k <= |ss| && c == |Flat(ss[..k])|
  }

  /** `c` elements come before the element `x` of the element `k`. */
  ghost predicate CountedPart<T>(ss: seq<seq<T>>, k: nat, x: nat, c: nat) {
    k < |ss| && x <= |ss[k]| && c == |Flat(ss[..k])| + x
  }

  lemma NoneCounted<T>(ss: seq<seq<T>>)
    ensures Counted(ss, 0, 0)
  {}

  lemma CountedInto<T>(ss: seq<seq<T>>, k: nat, c: nat)
    requires Counted(ss, k, c) && k < |ss|
    ensures CountedPart(ss, k, 0, c)
  {}

  lemma CountedElement<T>(ss: seq<seq<T>>, k: nat, x: nat, c: nat)
    requires CountedPart(ss, k, x, c) && k < |ss| && x < |ss[k]|
    ensures c < |Flat(ss)| && Flat(ss)[c] == ss[k][x]
  {
    FlatAt(ss, k);
  }

  lemma CountedNext<T>(ss: seq<seq<T>>, k: nat, x: nat, c: nat)
    requires CountedPart(ss, k, x, c) && k < |ss| && x < |ss[k]|
    ensures CountedPart(ss, k, x + 1, c + 1)
  {}

  lemma CountedOut<T>(ss: seq<seq<T>>, k: nat, x: nat, c: nat)
    requires CountedPart(ss, k, x, c) && k < |ss| && x == |ss[k]|
    ensures Counted(ss, k + 1, c)
  {
    FlatAt(ss, k);
  }

  lemma AllCounted<T>(ss: seq<seq<T>>, c: nat)
    requires Counted(ss, |ss|, c)
    ensures c == |Flat(ss)|
  {
    assert ss[..|ss|] == ss;
  }

  method ProcessAndAssign(data: TaikoDifficultyObjects)
      returns (groups: seq<RepeatingHitPatterns>, intervals: seq<nat>, colors: seq<Option<Color>>)
    requires data.Valid()
    ensures IsEncoding(data.objects, groups) && NoneEmpty(groups) && |intervals| == |groups|
    ensures forall g | 0 <= g < |groups| :: IsInterval(groups, g, intervals[g])
    ensures |colors| == |data.objects| && Assigned(groups, colors, |colors|)
  {
    groups, intervals := Encode(data);
    colors := Assign(groups, |data.objects|);
  }

  method Assign(groups: seq<RepeatingHitPatterns>, n: nat) returns (colors: seq<Option<Color>>)
    requires Flat(Flat(Flat(groups))) == UpTo(n)
    ensures |colors| == n && Assigned(groups, colors, n)
  {
    hide *;
    colors := seq(n, _ => None);
    ghost var a, b, c := 0, 0, 0;
    ghost var patterns := Flat(groups);
    ghost var streaks := Flat(patterns);
    NoneAssigned(groups, colors);
    NoneCounted(groups);
    NoneCounted(patterns);
    NoneCounted(streaks);
    for r := 0 to |groups|
      invariant |colors| == n && Assigned(groups, colors, c)
      invariant Counted(groups, r, a) && Counted(patterns, a, b) && Counted(streaks, b, c)
    {
      CountedInto(groups, r, a);
      for i := 0 to |groups[r]|
        invariant |colors| == n && Assigned(groups, colors, c)
        invariant CountedPart(groups, r, i, a) && Counted(patterns, a, b) && Counted(streaks, b, c)
      {
        CountedElement(groups, r, i, a);
        CountedInto(patterns, a, b);
        for j := 0 to |groups[r][i]|
          invariant |colors| == n && Assigned(groups, colors, c)
          invariant CountedPart(patterns, a, j, b) && Counted(streaks, b, c)
        {
          CountedElement(patterns, a, j, b);
          CountedInto(streaks, b, c);
          assert streaks[b] == groups[r][i][j];
          for x := 0 to |groups[r][i][j]|
            invariant |colors| == n && Assigned(groups, colors, c)
            invariant CountedPart(streaks, b, x, c)
          {
            AssignsObject(groups, streaks, colors, n, Color(r, i, j), b, x, c);
            colors := colors[groups[r][i][j][x] := Some(Color(r, i, j))];
            c := c + 1;
          }
          CountedOut(streaks, b, |groups[r][i][j]|, c);
          CountedNext(patterns, a, j, b);
          b := b + 1;
        }
        CountedOut(patterns, a, |groups[r][i]|, b);
        CountedNext(groups, r, i, a);
        a := a + 1;
      }
      CountedOut(groups, r, |groups[r]|, a);
    }
    AllCounted(groups, a);
    AllCounted(patterns, b);
    AllCounted(streaks, c);
  }

  lemma NoneAssigned(groups: seq<RepeatingHitPatterns>, colors: seq<Option<Color>>)
    ensures Assigned(groups, colors, 0)
  {}

  lemma AssignsObject(groups: seq<RepeatingHitPatterns>, streaks: seq<MonoStreak>, colors: seq<Option<Color>>, n: nat,
                      color: Color, b: nat, x: nat, c: nat)
    requires color.repeating < |groups| && color.alternating < |groups[color.repeating]|
    requires color.streak < |groups[color.repeating][color.alternating]| && b < |streaks|
    requires streaks[b] == groups[color.repeating][color.alternating][color.streak] && x < |streaks[b]|
    requires Flat(streaks) == UpTo(n) && CountedPart(streaks, b, x, c)
    requires |colors| == n && Assigned(groups, colors, c)
    ensures streaks[b][x] == c < n && Assigned(groups, colors[c := Some(color)], c + 1)
    ensures CountedPart(streaks, b, x + 1, c + 1)
  {
    hide *;
    CountedElement(streaks, b, x, c);
    InPlace(groups, color, x);
    AssignsNext(groups, colors, c, color);
    CountedNext(streaks, b, x, c);
  }

  lemma InPlace(groups: seq<RepeatingHitPatterns>, c: Color, x: nat)
    requires c.repeating < |groups| && c.alternating < |groups[c.repeating]|
    requires c.streak < |groups[c.repeating][c.alternating]|
    requires x < |groups[c.repeating][c.alternating][c.streak]|
    ensures IsIn(groups, c, groups[c.repeating][c.alternating][c.streak][x])
  {}

  /** Every object is in one place only, so the assigned one is its own. */
  lemma OnePlace(types: seq<HitType>, groups: seq<RepeatingHitPatterns>, c: Color, d: Color, k: nat)
    requires IsEncoding(types, groups) && IsIn(groups, c, k) && IsIn(groups, d, k)
    ensures c == d
  {
    var a, b := StreakOf(types, groups, c, k);
    var e, f := StreakOf(types, groups, d, k);
    var patterns := Flat(groups);
    var streaks := Flat(patterns);
    OnlyIn(streaks, b, f, k);
    SameElement(patterns, a, c.streak, e, d.streak);
    SameElement(groups, c.repeating, c.alternating, d.repeating, d.alternating);
  }

  /** The positions of the alternating pattern and the streak in the flattened lists. */
  lemma StreakOf(types: seq<HitType>, groups: seq<RepeatingHitPatterns>, c: Color, k: nat) returns (a: nat, b: nat)
    requires IsEncoding(types, groups) && IsIn(groups, c, k)
    ensures CountedPart(groups, c.repeating, c.alternating, a) && CountedPart(Flat(groups), a, c.streak, b)
    ensures a < |Flat(groups)| && c.streak < |Flat(groups)[a]|
    ensures b < |Flat(Flat(groups))| && k in Flat(Flat(groups))[b]
  {
    a := |Flat(groups[..c.repeating])| + c.alternating;
    CountedElement(groups, c.repeating, c.alternating, a);
    b := |Flat(Flat(groups)[..a])| + c.streak;
    CountedElement(Flat(groups), a, c.streak, b);
  }

  lemma OnlyIn(streaks: seq<MonoStreak>, b: nat, e: nat, k: nat)
    requires b < |streaks| && e < |streaks| && k in streaks[b] && k in streaks[e]
    requires Flat(streaks) == UpTo(|Flat(streaks)|)
    ensures b == e
  {
    var x :| 0 <= x < |streaks[b]| && streaks[b][x] == k;
    var y :| 0 <= y < |streaks[e]| && streaks[e][y] == k;
    FlatAt(streaks, b);
    FlatAt(streaks, e);
    SameElement(streaks, b, x, e, y);
  }

  /** Elements of a flattened list are counted apart. */
  lemma SameElement<T>(ss: seq<seq<T>>, k: nat, x: nat, l: nat, y: nat)
    requires k < |ss| && l < |ss| && x < |ss[k]| && y < |ss[l]|
    requires |Flat(ss[..k])| + x == |Flat(ss[..l])| + y
    ensures k == l && x == y
  {
    if k < l {
      CountGrows(ss, k + 1, l);
      FlatAt(ss, k);
    } else if l < k {
      CountGrows(ss, l + 1, k);
      FlatAt(ss, l);
    }
  }

  lemma {:induction false} CountGrows<T>(ss: seq<seq<T>>, k: nat, l: nat)
    requires k <= l <= |ss|
    ensures |Flat(ss[..k])| <= |Flat(ss[..l])|
    decreases l
  {
    if k < l {
      CountGrows(ss, k, l - 1);
      FlatAt(ss, l - 1);
    }
  }
}

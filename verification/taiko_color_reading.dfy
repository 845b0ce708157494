/** What osu!taiko's repeating patterns mean for the notes: patterns of notes repeat each other
    exactly if they read alike. */
module TaikoColorReading {
  import opened TaikoObjects
  import opened TaikoColor

  predicate InBounds(types: seq<HitType>, objects: seq<nat>) {
    forall k | 0 <= k < |objects| :: objects[k] < |types|
  }

  function TypesOf(types: seq<HitType>, objects: seq<nat>): (r: seq<HitType>)
    requires InBounds(types, objects)
    ensures |r| == |objects|
  {
    seq(|objects|, k requires 0 <= k < |objects| => types[objects[k]])
  }

  /** The types of the objects of a pattern, in order. */
  function Reading(types: seq<HitType>, p: AlternatingMonoPattern): (r: seq<HitType>)
    requires InBounds(types, Flat(p))
  {
    TypesOf(types, Flat(p))
  }

  ghost predicate AllNotes(types: seq<HitType>, objects: seq<nat>) {
    InBounds(types, objects) && forall k | 0 <= k < |objects| :: IsNote(types[objects[k]])
  }

  ghost predicate OnlyNotes(types: seq<HitType>, p: AlternatingMonoPattern) {
    AllNotes(types, Flat(p))
  }

  // ---------- sequences of colours in turn ----------

  function Other(c: HitType): HitType {
    match c
    case Center => Rim
    case Rim => Center
    case NonHit => NonHit
  }

  function InTurn(c: HitType, n: nat): HitType {
    if n == 0 then c else Other(InTurn(c, n - 1))
  }

  function Run(c: HitType, len: nat): (r: seq<HitType>)
    ensures |r| == len
  {
    seq(len, _ => c)
  }

  /** `n` runs of length `len`, with the colours in turn. */
  function Runs(c: HitType, len: nat, n: nat): seq<HitType> {
    if n == 0 then [] else Runs(c, len, n - 1) + Run(InTurn(c, n - 1), len)
  }

  lemma {:induction false} RunsHead(c: HitType, len: nat, n: nat)
    requires n > 0 && len > 0
    ensures |Runs(c, len, n)| == n * len
    ensures forall k | 0 <= k < len :: Runs(c, len, n)[k] == c
    ensures n > 1 ==> len < |Runs(c, len, n)| && Runs(c, len, n)[len] == Other(c)
  {
    OneMoreRun(n - 1, len);
    if n == 1 {
      assert Runs(c, len, 0) == [];
    } else {
      RunsHead(c, len, n - 1);
      assert InTurn(c, 1) == Other(InTurn(c, 0));
    }
  }

  lemma OneMoreRun(n: nat, len: nat)
    ensures (n + 1) * len == n * len + len
    ensures n == 0 ==> n * len == 0
    ensures n > 0 && len > 0 ==> n * len >= len
  {}

  /** Only the same colour, length and number of runs give the same sequence. */
  lemma RunsAreUnique(c: HitType, len: nat, n: nat, c': HitType, len': nat, n': nat)
    requires n > 0 && len > 0 && n' > 0 && len' > 0 && !c.NonHit? && !c'.NonHit?
    requires Runs(c, len, n) == Runs(c', len', n')
    ensures c == c' && len == len' && n == n'
  {
    RunsHead(c, len, n);
    RunsHead(c', len', n');
    assert c == Runs(c, len, n)[0] == Runs(c', len', n')[0] == c';
    if len < len' {
      FirstRunShorter(c, len, n, len', n');
      assert false;
    } else if len' < len {
      FirstRunShorter(c, len', n', len, n);
      assert false;
    }
    SameNumber(n, n', len);
  }

  lemma FirstRunShorter(c: HitType, len: nat, n: nat, len': nat, n': nat)
    requires n > 0 && 0 < len < len' && n' > 0 && !c.NonHit?
    ensures Runs(c, len, n) != Runs(c, len', n')
  {
    RunsHead(c, len, n);
    RunsHead(c, len', n');
    if n == 1 {
      OneMoreRun(n' - 1, len');
      assert |Runs(c, len, n)| == len < |Runs(c, len', n')|;
    } else {
      assert Runs(c, len, n)[len] != Runs(c, len', n')[len];
    }
  }

  lemma SameNumber(n: nat, n': nat, len: nat)
    requires len > 0 && n * len == n' * len
    ensures n == n'
  {
    if n < n' {
      MoreRuns(n, n', len);
      assert false;
    } else if n' < n {
      MoreRuns(n', n, len);
      assert false;
    }
  }

  lemma MoreRuns(n: nat, n': nat, len: nat)
    requires len > 0 && n < n'
    ensures n * len < n' * len
  {}

  // ---------- patterns of an encoding ----------

  /** Patterns as the first two passes make them. */
  ghost predicate Encoded(types: seq<HitType>, patterns: seq<AlternatingMonoPattern>) {
    && Flat(Flat(patterns)) == UpTo(|types|) && AllStreaks(types, Flat(patterns))
    && Alternating(patterns) && AllProper(types, patterns)
  }

  /** The objects of a streak follow each other. */
  ghost predicate InARow(types: seq<HitType>, streak: MonoStreak) {
    forall x | 0 <= x < |streak| :: streak[x] == streak[0] + x < |types|
  }

  ghost predicate Follows(p: AlternatingMonoPattern, j: nat) {
    0 < j < |p| && p[j - 1] != [] && p[j] != [] && p[j][0] == p[j - 1][0] + |p[j - 1]|
  }

  /** The streaks of a pattern follow each other, start where nothing is continued, and are of one
      length. */
  ghost predicate Consecutive(types: seq<HitType>, p: AlternatingMonoPattern) {
    && Proper(|types|, p) && OneRunLen(p)
    && (forall j | 0 <= j < |p| :: IsStreak(types, p[j]) && InARow(types, p[j]))
    && (forall j | 0 < j < |p| :: Follows(p, j))
  }

  lemma PatternIsConsecutive(types: seq<HitType>, patterns: seq<AlternatingMonoPattern>, i: nat)
    requires Encoded(types, patterns) && i < |patterns|
    ensures Consecutive(types, patterns[i])
  {
    hide Flat, IsStreak, OneRunLen, UpTo, Encoded, Proper;
    var p, streaks, from := patterns[i], Flat(patterns), |Flat(patterns[..i])|;
    EncodedParts(types, patterns, i);
    FlatAt(patterns, i);
    ConsecutiveStreaks(types, streaks, p, from);
  }

  lemma EncodedParts(types: seq<HitType>, patterns: seq<AlternatingMonoPattern>, i: nat)
    requires Encoded(types, patterns) && i < |patterns|
    ensures Flat(Flat(patterns)) == UpTo(|types|) && AllStreaks(types, Flat(patterns))
    ensures OneRunLen(patterns[i]) && Proper(|types|, patterns[i])
  {
    hide Flat, IsStreak, OneRunLen, UpTo, Proper;
  }

  lemma ConsecutiveStreaks(types: seq<HitType>, streaks: seq<MonoStreak>, p: AlternatingMonoPattern, from: nat)
    requires Flat(streaks) == UpTo(|types|) && AllStreaks(types, streaks)
    requires from + |p| <= |streaks| && p == streaks[from..from + |p|]
    requires OneRunLen(p) && Proper(|types|, p)
    ensures Consecutive(types, p)
  {
    hide Flat, IsStreak, OneRunLen, UpTo, Proper, AllStreaks, InARow, Follows;
    forall j | 0 <= j < |p|
      ensures IsStreak(types, p[j]) && InARow(types, p[j])
    {
      StreakOf(types, streaks, from + j);
      StreakInARow(types, streaks, from + j);
    }
    forall j | 0 < j < |p|
      ensures Follows(p, j)
    {
      NextStreak(types, streaks, from + j);
      FollowsPart(streaks, p, from, j);
    }
  }

  lemma StreakInARow(types: seq<HitType>, streaks: seq<MonoStreak>, q: nat)
    requires Flat(streaks) == UpTo(|types|) && q < |streaks|
    ensures InARow(types, streaks[q])
  {
    hide Flat, UpTo;
    forall x | 0 <= x < |streaks[q]|
      ensures streaks[q][x] == streaks[q][0] + x < |types|
    {
      StreakPlaces(types, streaks, q, x);
    }
  }

  lemma FollowsPart(streaks: seq<MonoStreak>, p: AlternatingMonoPattern, from: nat, j: nat)
    requires from + |p| <= |streaks| && p == streaks[from..from + |p|]
    requires 0 < j < |p| && Follows(streaks, from + j)
    ensures Follows(p, j)
  {
    assert p[j] == streaks[from + j] && p[j - 1] == streaks[from + j - 1];
  }

  lemma StreakOf(types: seq<HitType>, streaks: seq<MonoStreak>, q: nat)
    requires AllStreaks(types, streaks) && q < |streaks|
    ensures IsStreak(types, streaks[q]) && streaks[q] != []
  {
    hide Continues;
  }

  lemma NextStreak(types: seq<HitType>, streaks: seq<MonoStreak>, q: nat)
    requires Flat(streaks) == UpTo(|types|) && AllStreaks(types, streaks) && 0 < q < |streaks|
    ensures Follows(streaks, q)
  {
    StreakOf(types, streaks, q - 1);
    StreakOf(types, streaks, q);
    FlatAt(streaks, q - 1);
    FlatAt(streaks, q);
    hide Flat, AllStreaks, IsStreak;
    assert streaks[q - 1][0] == Flat(streaks)[|Flat(streaks[..q - 1])| + 0];
    assert streaks[q][0] == Flat(streaks)[|Flat(streaks[..q])| + 0];
  }

  // ---------- reading a pattern of notes ----------

  /** Object `x` of streak `j`. */
  ghost predicate NotesAt(types: seq<HitType>, p: AlternatingMonoPattern) {
    forall j, x | 0 <= j < |p| && 0 <= x < |p[j]| :: p[j][x] < |types| && IsNote(types[p[j][x]])
  }

  lemma OnlyNotesAt(types: seq<HitType>, p: AlternatingMonoPattern)
    requires OnlyNotes(types, p)
    ensures NotesAt(types, p)
  {
    hide Flat;
    forall j, x | 0 <= j < |p| && 0 <= x < |p[j]|
      ensures p[j][x] < |types| && IsNote(types[p[j][x]])
    {
      FlatAt(p, j);
      assert Flat(p)[|Flat(p[..j])| + x] == p[j][x];
    }
  }

  /** A note that continues nothing is of the other colour than a note just before it. */
  lemma OtherThanBefore(types: seq<HitType>, k: nat)
    requires 0 < k < |types| && !Continues(types, k) && IsNote(types[k - 1]) && IsNote(types[k])
    ensures types[k] == Other(types[k - 1])
  {
    KeptAppended(types[..k - 1], types[k - 1], IsNote);
    assert types[..k - 1] + [types[k - 1]] == types[..k];
    assert KeptBefore(types, IsNote, k, 0, k - 1);
  }

  lemma {:induction false} StreakColor(types: seq<HitType>, p: AlternatingMonoPattern, j: nat, x: nat)
    requires Consecutive(types, p) && NotesAt(types, p) && j < |p| && x < |p[j]|
    ensures p[0] != [] && p[0][0] < |types| && p[j][x] < |types| && types[p[j][x]] == InTurn(types[p[0][0]], j)
    decreases j, x
  {
    hide Continues, OneRunLen, Proper;
    assert IsStreak(types, p[j]) && IsStreak(types, p[0]) && InARow(types, p[j]);
    if x > 0 {
      StreakColor(types, p, j, x - 1);
      SameAsBefore(types, p[j][x]);
    } else if j > 0 {
      assert IsStreak(types, p[j - 1]) && InARow(types, p[j - 1]) && Follows(p, j);
      var last: nat := |p[j - 1]| - 1;
      StreakColor(types, p, j - 1, last);
      assert p[j][0] == p[j - 1][last] + 1;
      OtherThanBefore(types, p[j][0]);
    }
  }

  lemma {:induction false} ReadsRuns(types: seq<HitType>, p: AlternatingMonoPattern, n: nat)
    requires Consecutive(types, p) && NotesAt(types, p) && 0 < |p| && n <= |p|
    ensures p[0] != [] && p[0][0] < |types| && InBounds(types, Flat(p[..n]))
    ensures TypesOf(types, Flat(p[..n])) == Runs(types[p[0][0]], |p[0]|, n)
  {
    hide Consecutive, NotesAt, IsStreak, Continues, OneRunLen, Proper, InBounds, TypesOf, Run;
    FirstObject(types, p);
    ReadsNothing(types, p);
    if n > 0 {
      ReadsRuns(types, p, n - 1);
      assert p[..n] == p[..n - 1] + [p[n - 1]];
      FlatAppend(p[..n - 1], p[n - 1]);
      ReadsRun(types, p, n - 1);
      TypesAppend(types, Flat(p[..n - 1]), p[n - 1]);
    }
  }

  lemma FirstObject(types: seq<HitType>, p: AlternatingMonoPattern)
    requires Consecutive(types, p) && 0 < |p|
    ensures p[0] != [] && p[0][0] < |types|
  {
    hide Continues, OneRunLen, Proper;
    assert IsStreak(types, p[0]) && InARow(types, p[0]);
  }

  lemma ReadsNothing(types: seq<HitType>, p: AlternatingMonoPattern)
    ensures InBounds(types, Flat(p[..0])) && TypesOf(types, Flat(p[..0])) == []
  {}

  lemma ReadsRun(types: seq<HitType>, p: AlternatingMonoPattern, j: nat)
    requires Consecutive(types, p) && NotesAt(types, p) && j < |p| && p[0] != [] && p[0][0] < |types|
    ensures InBounds(types, p[j]) && TypesOf(types, p[j]) == Run(InTurn(types[p[0][0]], j), |p[0]|)
  {
    hide IsStreak, Continues;
    forall x | 0 <= x < |p[j]|
      ensures types[p[j][x]] == InTurn(types[p[0][0]], j)
    {
      StreakColor(types, p, j, x);
    }
    assert |p[j]| == |p[0]|;
  }

  lemma TypesAppend(types: seq<HitType>, a: seq<nat>, b: seq<nat>)
    requires InBounds(types, a) && InBounds(types, b)
    ensures InBounds(types, a + b) && TypesOf(types, a + b) == TypesOf(types, a) + TypesOf(types, b)
  {}

  /** The reading of a pattern of notes: runs of its first colour and the other one in turn. */
  lemma ReadingIs(types: seq<HitType>, patterns: seq<AlternatingMonoPattern>, i: nat)
    requires Encoded(types, patterns) && i < |patterns| && OnlyNotes(types, patterns[i])
    ensures var p := patterns[i];
      && p != [] && p[0] != [] && p[0][0] < |types| && IsNote(types[p[0][0]])
      && Reading(types, p) == Runs(types[p[0][0]], |p[0]|, |p|)
  {
    var p := patterns[i];
    PatternIsConsecutive(types, patterns, i);
    OnlyNotesAt(types, p);
    assert Proper(|types|, p);
    ReadsRuns(types, p, |p|);
    assert p[..|p|] == p;
  }

  /** A pattern of notes is a repetition of another one exactly if both read alike. */
  lemma RepetitionReadsAlike(types: seq<HitType>, patterns: seq<AlternatingMonoPattern>, i: nat, k: nat)
    requires Encoded(types, patterns) && i < |patterns| && k < |patterns|
    requires OnlyNotes(types, patterns[i]) && OnlyNotes(types, patterns[k])
    ensures Proper(|types|, patterns[i]) && Proper(|types|, patterns[k])
    ensures IsRepetitionOf(types, patterns[i], patterns[k]) <==> Reading(types, patterns[i]) == Reading(types, patterns[k])
  {
    var p, q := patterns[i], patterns[k];
    assert Proper(|types|, p) && Proper(|types|, q);
    hide Encoded, OnlyNotes, Reading, Runs;
    ReadingIs(types, patterns, i);
    ReadingIs(types, patterns, k);
    if Reading(types, p) == Reading(types, q) {
      RunsAreUnique(types[p[0][0]], |p[0]|, |p|, types[q[0][0]], |q[0]|, |q|);
    }
  }

  // ---------- groups ----------

  /** The next pattern but one exists and reads like this one. */
  ghost predicate ReadsAgain(types: seq<HitType>, patterns: seq<AlternatingMonoPattern>, i: nat) {
    && i + 2 < |patterns| && InBounds(types, Flat(patterns[i])) && InBounds(types, Flat(patterns[i + 2]))
    && Reading(types, patterns[i]) == Reading(types, patterns[i + 2])
  }

  /** Where this pattern and the next but one, if there is one, are notes only. */
  ghost predicate Readable(types: seq<HitType>, patterns: seq<AlternatingMonoPattern>, i: nat) {
    i + 2 < |patterns| ==> OnlyNotes(types, patterns[i]) && OnlyNotes(types, patterns[i + 2])
  }

  lemma RepeatedReadsAgain(types: seq<HitType>, patterns: seq<AlternatingMonoPattern>, i: nat)
    requires Encoded(types, patterns) && Readable(types, patterns, i)
    ensures RepeatedAfter(types, patterns, i) <==> ReadsAgain(types, patterns, i)
  {
    if i + 2 < |patterns| {
      RepetitionReadsAlike(types, patterns, i, i + 2);
    }
  }

  /** The patterns from `from` to `to`: each reads like the next but one among them, and behind them
      that is no longer so. */
  ghost predicate ReadsAsGroup(types: seq<HitType>, patterns: seq<AlternatingMonoPattern>, from: nat, to: nat) {
    && from < to <= |patterns| && (to == from + 1 || to >= from + 3)
    && (forall i: nat | from <= i && i + 2 < to && Readable(types, patterns, i) :: ReadsAgain(types, patterns, i))
    && (var last: nat := if to == from + 1 then from else to - 2;
        Readable(types, patterns, last) ==> !ReadsAgain(types, patterns, last))
  }

  lemma GroupReadsAlike(types: seq<HitType>, patterns: seq<AlternatingMonoPattern>, from: nat, to: nat)
    requires Encoded(types, patterns) && AllProper(types, patterns) && IsGroup(types, patterns, from, to)
    ensures ReadsAsGroup(types, patterns, from, to)
  {
    hide Encoded, ReadsAgain, Readable, RepeatedAfter, AllProper;
    forall i: nat | from <= i && i + 2 < to && Readable(types, patterns, i)
      ensures ReadsAgain(types, patterns, i)
    {
      RepeatedReadsAgain(types, patterns, i);
    }
    var last: nat := if to == from + 1 then from else to - 2;
    if Readable(types, patterns, last) {
      RepeatedReadsAgain(types, patterns, last);
    }
  }

  /** A group of an encoding, given by what is read. */
  lemma GroupsReadAlike(types: seq<HitType>, groups: seq<RepeatingHitPatterns>, g: nat)
    requires IsEncoding(types, groups) && g < |groups|
    ensures ReadsAsGroup(types, Flat(groups), |Flat(groups[..g])|, |Flat(groups[..g + 1])|)
  {
    hide Flat, ReadsAsGroup, IsGroup, UpTo, AllStreaks, Alternating, AllProper;
    GroupReadsAlike(types, Flat(groups), |Flat(groups[..g])|, |Flat(groups[..g + 1])|);
  }

  // ---------- intervals ----------

  /** All streaks of both patterns are of one length. */
  ghost predicate AsLong(a: AlternatingMonoPattern, b: AlternatingMonoPattern) {
    forall x, y | 0 <= x < |a| && 0 <= y < |b| :: |a[x]| == |b[y]|
  }

  /** Groups of equally many patterns with streaks of one length in the first, and of one length in
      the second ones. */
  ghost predicate SameLengths(a: RepeatingHitPatterns, b: RepeatingHitPatterns) {
    && |a| == |b| && (|a| >= 1 ==> AsLong(a[0], b[0])) && (|a| >= 2 ==> AsLong(a[1], b[1]))
  }

  ghost predicate Uniform(group: RepeatingHitPatterns) {
    forall i | 0 <= i < |group| :: group[i] != [] && OneRunLen(group[i])
  }

  lemma IdenticalIsAsLong(a: AlternatingMonoPattern, b: AlternatingMonoPattern)
    requires a != [] && b != [] && OneRunLen(a) && OneRunLen(b)
    ensures HasIdenticalMonoLen(a, b) <==> AsLong(a, b)
  {
    if AsLong(a, b) {
      assert |a[0]| == |b[0]|;
    }
  }

  lemma RepeatsIfSameLengths(a: RepeatingHitPatterns, b: RepeatingHitPatterns)
    requires Uniform(a) && Uniform(b)
    ensures RepeatsGroup(a, b) <==> SameLengths(a, b)
  {
    hide OneRunLen, AsLong, HasIdenticalMonoLen;
    if |a| == |b| >= 1 {
      IdenticalIsAsLong(a[0], b[0]);
      if |a| >= 2 {
        IdenticalIsAsLong(a[1], b[1]);
      }
    }
  }

  lemma GroupsAreUniform(types: seq<HitType>, groups: seq<RepeatingHitPatterns>, g: nat)
    requires IsEncoding(types, groups) && g < |groups|
    ensures Uniform(groups[g])
  {
    hide Flat, Alternating, Grouped, UpTo, AllStreaks, AllProper, Uniform;
    FlatAt(groups, g);
    PartIsUniform(Flat(groups), groups[g], |Flat(groups[..g])|);
  }

  lemma PartIsUniform(patterns: seq<AlternatingMonoPattern>, group: RepeatingHitPatterns, from: nat)
    requires Alternating(patterns) && from + |group| <= |patterns|
    requires forall i | 0 <= i < |group| :: group[i] == patterns[from + i]
    ensures Uniform(group)
  {
    hide OneRunLen, OtherRunLen;
    forall i | 0 <= i < |group|
      ensures group[i] != [] && OneRunLen(group[i])
    {
      OneRunLenNotEmpty(patterns[from + i]);
    }
  }

  lemma OneRunLenNotEmpty(p: AlternatingMonoPattern)
    ensures OneRunLen(p) ==> p != []
  {}

  /** The `k`-th group before has the same lengths. */
  ghost predicate LikeBefore(groups: seq<RepeatingHitPatterns>, g: nat, k: nat)
    requires g < |groups|
  {
    k <= g && SameLengths(groups[g], groups[g - k])
  }

  lemma BackIsLikeBefore(types: seq<HitType>, groups: seq<RepeatingHitPatterns>, g: nat, k: nat)
    requires IsEncoding(types, groups) && NoneEmpty(groups) && g < |groups|
    ensures RepeatsBack(groups, g, k) <==> LikeBefore(groups, g, k)
  {
    hide IsEncoding, SameLengths, Uniform, RepeatsGroup, NoneEmpty;
    if k <= g {
      GroupsAreUniform(types, groups, g);
      GroupsAreUniform(types, groups, g - k);
      RepeatsIfSameLengths(groups[g], groups[g - k]);
    }
  }

  /** The interval of a group: how many groups before it the last one with the same lengths is, if
      that is less than 16. */
  lemma IntervalIs(types: seq<HitType>, groups: seq<RepeatingHitPatterns>, g: nat, interval: nat)
    requires IsEncoding(types, groups) && NoneEmpty(groups) && g < |groups| && IsInterval(groups, g, interval)
    ensures interval == 17 || (1 <= interval < 16 && LikeBefore(groups, g, interval))
    ensures forall k: nat | 1 <= k < interval && k < 16 :: !LikeBefore(groups, g, k)
  {
    hide IsEncoding, NoneEmpty, RepeatsBack, LikeBefore;
    BackIsLikeBefore(types, groups, g, interval);
    forall k: nat | 1 <= k < interval && k < 16
      ensures !LikeBefore(groups, g, k)
    {
      BackIsLikeBefore(types, groups, g, k);
    }
  }
}

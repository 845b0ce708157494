/** The osu!mania pattern generators. Random numbers come from any stream; a random search for a
    column gives up after a number of draws, where the source goes on. */
module ManiaGenerators {
  import opened Wrappers
  import opened ManiaPattern
  import opened Rounding

  class Random {
    const draw: nat -> real
    var pos: nat

    constructor (draw: nat -> real)
      ensures this.draw == draw
    {
      this.draw, pos := draw, 0;
    }

    ghost predicate Valid()
    {
      forall n :: 0.0 <= draw(n) < 1.0
    }

    method NextDouble() returns (d: real)
      requires Valid()
      modifies this`pos
      ensures d == draw(old(pos)) && pos == old(pos) + 1 && 0.0 <= d < 1.0
    {
      d := draw(pos);
      pos := pos + 1;
    }

    method NextIntRange(min: nat, max: nat) returns (r: nat)
      requires Valid() && min < max
      modifies this`pos
      ensures min <= r < max && r == FromRange(draw(old(pos)), min, max) && pos == old(pos) + 1
    {
      var d := NextDouble();
      r := FromRange(d, min, max);
    }
  }

  /** `(min + d * (max - min)) as i32` */
  function FromRange(d: real, min: nat, max: nat): (r: nat)
    requires 0.0 <= d < 1.0 && min < max
    ensures min <= r < max
  {
    (min as real + Scaled(d, max - min)).Floor
  }

  /** Every number of the range has an equal share of the draws. */
  lemma DrawsAreShared(d: real, min: nat, max: nat, r: nat)
    requires 0.0 <= d < 1.0 && min <= r < max
    ensures FromRange(d, min, max) == r <==>
      (r - min) as real / (max - min) as real <= d < (r - min + 1) as real / (max - min) as real
  {
    var n := (max - min) as real;
    ShareOf(d, n, (r - min) as real);
    ShareOf(d, n, (r - min + 1) as real);
  }

  lemma ShareOf(d: real, n: real, k: real)
    requires n > 0.0
    ensures k / n <= d <==> k <= d * n
  {
    var q := k / n;
    assert q * n == k;
    if q <= d {
      assert (d - q) * n >= 0.0;
      assert (d - q) * n == d * n - q * n;
    } else {
      assert (q - d) * n > 0.0;
      assert (q - d) * n == q * n - d * n;
    }
  }

  function Scaled(d: real, n: nat): (offset: real)
    requires 0.0 <= d < 1.0 && n > 0
    ensures 0.0 <= offset < n as real
  {
    ScaledBelow(d, n as real);
    d * n as real
  }

  lemma ScaledBelow(d: real, n: real)
    requires 0.0 <= d < 1.0 && n > 0.0
    ensures 0.0 <= d * n < n
  {
    assert (1.0 - d) * n > 0.0;
    assert (1.0 - d) * n == n - d * n;
  }

  /** What a search for a column ends with. `NoneFree` is the failed assertion of the source. */
  datatype Search = Available(column: nat) | NoneFree | GaveUp

  datatype Status = Done | Failed | Unfinished

  predicate Free(column: nat, excluded: Option<nat>, a: ContainedColumns, b: ContainedColumns) {
    excluded != Some(column) && !Contains(a, column) && !Contains(b, column)
  }

  predicate AnyFree(lower: nat, upper: nat, excluded: Option<nat>, a: ContainedColumns, b: ContainedColumns) {
    exists c | lower <= c < upper :: Free(c, excluded, a, b)
  }

  /** Fewer taken columns than there are leave one free. */
  lemma EnoughColumns(lower: nat, upper: nat, excluded: Option<nat>, a: ContainedColumns, b: ContainedColumns)
    requires lower <= upper <= 16
    requires |Columns(a)| + |Columns(b)| + (if excluded.Some? then 1 else 0) < upper - lower
    ensures AnyFree(lower, upper, excluded, a, b)
  {
    hide Contains;
    var e := if excluded.Some? then {excluded.value} else {};
    UnionIsSmaller(Columns(a), Columns(b));
    UnionIsSmaller(Columns(a) + Columns(b), e);
    var c := SomeColumnFree(Columns(a) + Columns(b) + e, lower, upper);
    assert Free(c, excluded, a, b);
  }

  class PatternGenerator {
    const total: nat
    const x: real
    const random: Random

    constructor (total: nat, x: real, random: Random)
      requires 0 < total <= 16 && random.Valid()
      ensures Valid() && this.total == total && this.x == x && this.random == random
    {
      this.total, this.x, this.random := total, x, random;
    }

    ghost predicate Valid() {
      0 < total <= 16 && random.Valid()
    }

    function RandomStart(): (s: nat)
      requires Valid()
      ensures s < total
    {
      if total == 8 then 1 else 0
    }

    /** `get_column(Some(true))` */
    function GetColumn(): (c: nat)
      requires Valid()
      ensures RandomStart() <= c < total
    {
      if total == 8 then
        var column := (x / (512.0 / 7.0)).Floor;
        (if column < 0 then 0 else if column > 6 then 6 else column) + 1
      else Column(x, total)
    }

    /** Of eight columns the first is left out, and the others are equally wide. */
    lemma ColumnBesideSpecial()
      requires Valid() && total == 8
      ensures var c := GetColumn();
        && 1 <= c && (x < 0.0 ==> c == 1) && (x >= 512.0 ==> c == 7)
        && (0.0 <= x < 512.0 ==> (c - 1) as real * 512.0 <= x * 7.0 < c as real * 512.0)
    {
      PartOf(x, 512.0 / 7.0, 7.0);
    }

    method GetRandomColumn() returns (c: nat)
      requires Valid()
      modifies random`pos
      ensures RandomStart() <= c < total
    {
      c := random.NextIntRange(RandomStart(), total);
    }

    /** `find_available_column` of all generators: a gathered pattern goes on to the next column,
        any other draws. The former needs no draw, and no more rounds than there are columns. */
    method FindAvailableColumn(initial: nat, gathered: bool, excluded: Option<nat>, a: ContainedColumns, b: ContainedColumns,
                               rounds: nat) returns (s: Search)
      requires Valid() && RandomStart() <= initial < total
      modifies random`pos
      ensures gathered ==> random.pos == old(random.pos) && (rounds >= total - RandomStart() ==> !s.GaveUp?)
      ensures s.Available? ==> RandomStart() <= s.column < total && Free(s.column, excluded, a, b)
      ensures Free(initial, excluded, a, b) ==> s == Available(initial)
      ensures s.NoneFree? <==> !AnyFree(RandomStart(), total, excluded, a, b)
    {
      if Free(initial, excluded, a, b) {
        return Available(initial);
      }
      var lower := RandomStart();
      if !AnyFree(lower, total, excluded, a, b) {
        return NoneFree;
      }
      hide AnyFree, Free;
      var column := initial;
      NextTaken(initial, excluded, a, b);
      for i := 0 to rounds
        invariant lower <= column < total
        invariant gathered ==> random.pos == old(random.pos) && Walked(lower, total, initial, i, column, excluded, a, b)
      {
        if gathered {
          WalksOn(lower, total, initial, i, column, excluded, a, b);
          column := if column + 1 == total then lower else column + 1;
        } else {
          column := GetRandomColumn();
        }
        if Free(column, excluded, a, b) {
          return Available(column);
        }
      }
      s := GaveUp;
    }
  }

  ghost predicate NoneFree(from: nat, to: nat, excluded: Option<nat>, a: ContainedColumns, b: ContainedColumns) {
    forall c | from <= c < to :: !Free(c, excluded, a, b)
  }

  /** `i` steps from the initial column, round the stage: all columns on the way are taken. */
  ghost predicate Walked(lower: nat, total: nat, initial: nat, i: nat, column: nat,
                         excluded: Option<nat>, a: ContainedColumns, b: ContainedColumns) {
    && lower <= initial < total && i < total - lower
    && if initial + i < total then column == initial + i && NoneFree(initial, column + 1, excluded, a, b)
       else
         && column == initial + i - (total - lower) && NoneFree(initial, total, excluded, a, b)
         && NoneFree(lower, column + 1, excluded, a, b)
  }

  lemma NextTaken(c: nat, excluded: Option<nat>, a: ContainedColumns, b: ContainedColumns)
    ensures !Free(c, excluded, a, b) ==> NoneFree(c, c + 1, excluded, a, b)
  {
    hide Free;
  }

  /** Having gone all the way round means having found no column. */
  lemma WalkedRound(lower: nat, total: nat, initial: nat, i: nat, column: nat,
                    excluded: Option<nat>, a: ContainedColumns, b: ContainedColumns)
    requires Walked(lower, total, initial, i, column, excluded, a, b) && i + 1 == total - lower
    ensures !AnyFree(lower, total, excluded, a, b)
  {
    hide Free;
  }

  lemma WalksOn(lower: nat, total: nat, initial: nat, i: nat, column: nat,
                excluded: Option<nat>, a: ContainedColumns, b: ContainedColumns)
    requires Walked(lower, total, initial, i, column, excluded, a, b) && AnyFree(lower, total, excluded, a, b)
    ensures var next := if column + 1 == total then lower else column + 1;
      !Free(next, excluded, a, b) ==> Walked(lower, total, initial, i + 1, next, excluded, a, b)
  {
    hide Free, AnyFree;
    if i + 1 == total - lower {
      WalkedRound(lower, total, initial, i, column, excluded, a, b);
      assert false;
    }
  }

  /** As many columns as notes, all within the range. */
  ghost predicate ColumnsApart(notes: nat, cs: ContainedColumns, lower: nat, total: nat) {
    |Columns(cs)| == notes && forall c | c in Columns(cs) :: lower <= c < total
  }

  lemma ColumnsApartOneMore(notes: nat, cs: ContainedColumns, lower: nat, total: nat, ds: ContainedColumns, c: nat)
    requires ColumnsApart(notes, cs, lower, total) && lower <= c < total && c !in Columns(cs)
    requires Columns(ds) == Columns(cs) + {c}
    ensures ColumnsApart(notes + 1, ds, lower, total)
  {
    hide Columns;
  }

  lemma NoneApart(lower: nat, total: nat)
    ensures ColumnsApart(0, NoColumns, lower, total)
  {
    NoneContained();
  }

  lemma ColumnsApartCount(notes: nat, cs: ContainedColumns, lower: nat, total: nat)
    requires ColumnsApart(notes, cs, lower, total)
    ensures |Columns(cs)| == notes
  {}

  /** The pattern's notes are in different columns of the range. */
  ghost predicate Apart(pattern: Pattern, lower: nat, total: nat)
    reads pattern
  {
    pattern.Valid(total) && ColumnsApart(|pattern.hitObjects|, pattern.containedColumns, lower, total)
  }

  class HitObjectPatternGenerator {
    const inner: PatternGenerator
    const startTime: int
    const gathered: bool
    const forceNotStack: bool
    const prevPattern: Pattern

    constructor (inner: PatternGenerator, startTime: int, gathered: bool, forceNotStack: bool, prevPattern: Pattern)
      requires inner.Valid() && prevPattern.Valid(inner.total)
      ensures Valid() && this.inner == inner && this.startTime == startTime && this.gathered == gathered
      ensures this.forceNotStack == forceNotStack && this.prevPattern == prevPattern
    {
      this.inner, this.startTime, this.gathered := inner, startTime, gathered;
      this.forceNotStack, this.prevPattern := forceNotStack, prevPattern;
    }

    ghost predicate Valid()
      reads prevPattern
    {
      inner.Valid() && prevPattern.Valid(inner.total)
    }

    /** Without stacking the assertion of the search never fails: as many notes as there are
        columns left besides those of the previous pattern. */
    method GenerateRandomNotes(count: int, rounds: nat) returns (status: Status, pattern: Pattern)
      requires Valid()
      modifies inner.random`pos
      ensures fresh(pattern) && Valid() && Apart(pattern, inner.RandomStart(), inner.total)
      ensures status.Failed? ==> !forceNotStack && count > inner.total - inner.RandomStart()
      ensures var n := if forceNotStack then Min(inner.total - inner.RandomStart() - prevPattern.ColumnWithObjs(), count) else count;
        status.Done? ==> |pattern.hitObjects| == if n < 0 then 0 else n
      ensures forceNotStack ==> Columns(pattern.containedColumns) !! Columns(prevPattern.containedColumns)
      ensures gathered && rounds >= inner.total - inner.RandomStart() ==> !status.Unfinished?
    {
      pattern := new Pattern();
      var lower, total := inner.RandomStart(), inner.total;
      var noteCount := count;
      if forceNotStack {
        noteCount := Min(total - lower - prevPattern.ColumnWithObjs(), count);
      }
      var other := if forceNotStack then prevPattern.containedColumns else NoColumns;
      NoneContained();
      NoneApart(lower, total);
      hide Columns, Contains, Free, AnyFree, ColumnsApart, Matches;
      var nextColumn := inner.GetColumn();
      var k := 0;
      while k < noteCount
        invariant 0 <= k && |pattern.hitObjects| == k && k <= (if noteCount < 0 then 0 else noteCount)
        invariant lower <= nextColumn < total && fresh(pattern) && Valid()
        invariant Apart(pattern, lower, total)
        invariant Columns(pattern.containedColumns) !! Columns(other)
      {
        ghost var before := pattern.containedColumns;
        ColumnsApartCount(k, before, lower, total);
        var s := inner.FindAvailableColumn(nextColumn, gathered, None, pattern.containedColumns, other, rounds);
        if s.NoneFree? {
          NoneFreeMeansMany(lower, total, None, pattern.containedColumns, other);
          return Failed, pattern;
        }
        if s.GaveUp? {
          return Unfinished, pattern;
        }
        nextColumn := s.column;
        FreeIsOutside(nextColumn, None, pattern.containedColumns, other);
        pattern.AddNote(total, nextColumn, startTime, startTime);
        ColumnsApartOneMore(k, before, lower, total, pattern.containedColumns, nextColumn);
        k := k + 1;
      }
      status := Done;
    }
  }

  class PathObjectPatternGenerator {
    const inner: PatternGenerator
    const startTime: int
    const endTime: int
    const segmentDuration: int
    const spanCount: nat
    const forceNotStack: bool
    const prevPattern: Pattern

    constructor (inner: PatternGenerator, startTime: int, endTime: int, segmentDuration: int, spanCount: nat,
                 forceNotStack: bool, prevPattern: Pattern)
      requires inner.Valid() && prevPattern.Valid(inner.total) && spanCount > 0
      ensures Valid() && this.inner == inner && this.startTime == startTime && this.endTime == endTime
      ensures this.segmentDuration == segmentDuration && this.spanCount == spanCount
      ensures this.forceNotStack == forceNotStack && this.prevPattern == prevPattern
    {
      this.inner, this.startTime, this.endTime := inner, startTime, endTime;
      this.segmentDuration, this.spanCount := segmentDuration, spanCount;
      this.forceNotStack, this.prevPattern := forceNotStack, prevPattern;
    }

    ghost predicate Valid()
      reads prevPattern
    {
      inner.Valid() && prevPattern.Valid(inner.total) && spanCount > 0
    }

    /** The first loop stays clear of the previous pattern and its search never fails; the second
        one fails only for want of columns. */
    method GenerateRandomHoldNotes(startTime: int, noteCount: nat, rounds: nat) returns (status: Status, pattern: Pattern, clear: nat)
      requires Valid()
      modifies inner.random`pos
      ensures fresh(pattern) && Valid() && Apart(pattern, inner.RandomStart(), inner.total)
      ensures var columns := inner.total - inner.RandomStart(); var usable := columns - prevPattern.ColumnWithObjs();
        && (status.Failed? ==> clear >= Min(usable, noteCount) && Max(noteCount, noteCount - usable) > columns)
        && (status.Done? ==> |pattern.hitObjects| == Max(noteCount, noteCount - usable))
      ensures clear <= |pattern.hitObjects|
      ensures ClearOf(pattern.hitObjects, prevPattern.containedColumns, inner.total, clear)
    {
      hide Columns, Contains, Free, AnyFree, Column, ColumnsApart, ClearOf, Matches;
      pattern := new Pattern();
      var lower, total := inner.RandomStart(), inner.total;
      NoneApart(lower, total);
      NothingToClear(prevPattern.containedColumns, total);
      var prev := prevPattern.containedColumns;
      var usable := total - lower - prevPattern.ColumnWithObjs();
      var nextColumn := inner.GetRandomColumn();
      clear := 0;
      while clear < Min(usable, noteCount)
        invariant |pattern.hitObjects| == clear && clear <= (if Min(usable, noteCount) < 0 then 0 else Min(usable, noteCount))
        invariant lower <= nextColumn < total && fresh(pattern) && Valid()
        invariant Apart(pattern, lower, total) && ClearOf(pattern.hitObjects, prev, total, clear)
      {
        ghost var before := pattern.containedColumns;
        ColumnsApartCount(|pattern.hitObjects|, before, lower, total);
        var s := inner.FindAvailableColumn(nextColumn, false, None, pattern.containedColumns, prev, rounds);
        if s.NoneFree? {
          NoneFreeMeansMany(lower, total, None, pattern.containedColumns, prev);
          assert false;
        }
        if s.GaveUp? {
          return Unfinished, pattern, clear;
        }
        nextColumn := s.column;
        FreeIsOutside(nextColumn, None, pattern.containedColumns, prev);
        PosOfColumn(nextColumn, total);
        StillClearOf(pattern.hitObjects, prev, total, clear, Note(total, nextColumn, startTime, endTime));
        pattern.AddNote(total, nextColumn, startTime, endTime);
        ColumnsApartOneMore(clear, before, lower, total, pattern.containedColumns, nextColumn);
        clear := clear + 1;
      }

      NoneContained();
      var rest := noteCount - usable;
      var k := 0;
      while k < rest
        invariant 0 <= k && |pattern.hitObjects| == clear + k && k <= (if rest < 0 then 0 else rest)
        invariant lower <= nextColumn < total && fresh(pattern) && Valid()
        invariant Apart(pattern, lower, total) && ClearOf(pattern.hitObjects, prev, total, clear)
      {
        ghost var before := pattern.containedColumns;
        ColumnsApartCount(|pattern.hitObjects|, before, lower, total);
        var s := inner.FindAvailableColumn(nextColumn, false, None, pattern.containedColumns, NoColumns, rounds);
        if s.NoneFree? {
          NoneFreeMeansMany(lower, total, None, pattern.containedColumns, NoColumns);
          return Failed, pattern, clear;
        }
        if s.GaveUp? {
          return Unfinished, pattern, clear;
        }
        nextColumn := s.column;
        FreeIsOutside(nextColumn, None, pattern.containedColumns, NoColumns);
        StillClearOf(pattern.hitObjects, prev, total, clear, Note(total, nextColumn, startTime, endTime));
        pattern.AddNote(total, nextColumn, startTime, endTime);
        ColumnsApartOneMore(clear + k, before, lower, total, pattern.containedColumns, nextColumn);
        k := k + 1;
      }
      status := Done;
    }

    /** A previous pattern that a pattern must not stack on, with a column left. */
    ghost predicate MustAvoid()
      reads prevPattern
    {
      forceNotStack && |Columns(prevPattern.containedColumns)| < inner.total
    }

    /** With eight columns, of which the previous pattern has left the special one only. */
    ghost predicate OnlySpecialLeft()
      reads prevPattern
    {
      inner.total == 8 && Columns(prevPattern.containedColumns) == AllButSpecial
    }

    /** The column for a pattern that must not stack is none of the previous pattern's, unless that
        one has left but the special column: only then the search fails. */
    method StartColumn(rounds: nat) returns (status: Status, column: nat)
      requires Valid()
      modifies inner.random`pos
      ensures Valid() && inner.RandomStart() <= column < inner.total
      ensures status.Failed? <==> forceNotStack && OnlySpecialLeft()
      ensures status.Done? && MustAvoid() ==> column !in Columns(prevPattern.containedColumns)
    {
      hide Columns, Contains, Free, AnyFree, Column, Matches;
      column := inner.GetColumn();
      LeavesSpecial(prevPattern.hitObjects, prevPattern.containedColumns, inner.total);
      if forceNotStack && prevPattern.ColumnWithObjs() < inner.total {
        NoneContained();
        var s := inner.FindAvailableColumn(column, false, None, prevPattern.containedColumns, NoColumns, rounds);
        if s.NoneFree? {
          return Failed, column;
        }
        if s.GaveUp? {
          return Unfinished, column;
        }
        column := s.column;
        FreeIsOutside(column, None, prevPattern.containedColumns, NoColumns);
      }
      status := Done;
    }

    /** One note after the other, never two in a row in one column. */
    method GenerateRandomNotes(start: int, noteCount: nat, rounds: nat) returns (status: Status, pattern: Pattern)
      requires Valid() && inner.total - inner.RandomStart() >= 2
      modifies inner.random`pos
      ensures fresh(pattern) && Valid() && pattern.Valid(inner.total)
      ensures status.Failed? <==> forceNotStack && OnlySpecialLeft()
      ensures status.Failed? ==> pattern.hitObjects == []
      ensures MustAvoid() ==> ClearOf(pattern.hitObjects, prevPattern.containedColumns, inner.total, 1)
      ensures status.Done? ==> |pattern.hitObjects| == noteCount
      ensures Spaced(pattern.hitObjects, start, segmentDuration)
      ensures NoneTwice(pattern.hitObjects, inner.total)
    {
      hide Columns, Contains, Free, AnyFree, Column, TimeOf, Spaced, NoneTwice, Matches, ClearOf;
      pattern := new Pattern();
      NoNotes(start, segmentDuration, inner.RandomStart(), inner.total);
      NothingToClear(prevPattern.containedColumns, inner.total);
      var total := inner.total;
      ghost var prev, avoid := prevPattern.containedColumns, MustAvoid();
      var nextColumn;
      status, nextColumn := StartColumn(rounds);
      if !status.Done? {
        return;
      }
      NoneContained();
      var time := start;
      for k := 0 to noteCount
        invariant |pattern.hitObjects| == k && time == TimeOf(start, k, segmentDuration)
        invariant inner.RandomStart() <= nextColumn < total && fresh(pattern) && Valid() && pattern.Valid(total)
        invariant Spaced(pattern.hitObjects, start, segmentDuration) && NoneTwice(pattern.hitObjects, total)
        invariant k > 0 ==> Column(pattern.hitObjects[k - 1].x as real, total) != nextColumn
        invariant avoid ==> ClearOf(pattern.hitObjects, prev, total, 1) && (k == 0 ==> nextColumn !in Columns(prev))
      {
        TimesAre(start, k, segmentDuration);
        SpacedOneMore(pattern.hitObjects, start, segmentDuration, Note(total, nextColumn, time, time));
        PosOfColumn(nextColumn, total);
        if avoid {
          FirstClearOf(pattern.hitObjects, prev, total, Note(total, nextColumn, time, time));
        }
        NoneTwiceOneMore(pattern.hitObjects, total, Note(total, nextColumn, time, time));
        pattern.AddNote(total, nextColumn, time, time);
        var s := inner.FindAvailableColumn(nextColumn, false, Some(nextColumn), NoColumns, NoColumns, rounds);
        if s.NoneFree? {
          NoneFreeMeansMany(inner.RandomStart(), total, Some(nextColumn), NoColumns, NoColumns);
          assert false;
        }
        if s.GaveUp? {
          return Unfinished, pattern;
        }
        FreeIsOutside(s.column, Some(nextColumn), NoColumns, NoColumns);
        nextColumn := s.column;
        time := time + segmentDuration;
      }
    }

    /** Every note is next to the one before, within the stage. */
    method GenerateStair(start: int) returns (pattern: Pattern)
      requires Valid() && inner.total - inner.RandomStart() >= 2
      modifies inner.random`pos
      ensures fresh(pattern) && Valid() && pattern.Valid(inner.total)
      ensures |pattern.hitObjects| == spanCount + 1 && Spaced(pattern.hitObjects, start, segmentDuration)
      ensures Stair(pattern.hitObjects, inner.RandomStart(), inner.total)
    {
      hide Columns, Contains, Column, TimeOf, Spaced, Stair, Matches;
      pattern := new Pattern();
      NoNotes(start, segmentDuration, inner.RandomStart(), inner.total);
      var lower, total := inner.RandomStart(), inner.total;
      var column: int := inner.GetColumn();
      var d := inner.random.NextDouble();
      var increasing := d > 0.5;
      var time := start;
      for k := 0 to spanCount + 1
        invariant |pattern.hitObjects| == k && time == TimeOf(start, k, segmentDuration)
        invariant lower <= column < total && fresh(pattern) && Valid() && pattern.Valid(total)
        invariant Spaced(pattern.hitObjects, start, segmentDuration) && Stair(pattern.hitObjects, lower, total)
        invariant k > 0 ==> NextTo(Column(pattern.hitObjects[k - 1].x as real, total), column)
      {
        TimesAre(start, k, segmentDuration);
        SpacedOneMore(pattern.hitObjects, start, segmentDuration, Note(total, column, time, time));
        PosOfColumn(column, total);
        StairOneMore(pattern.hitObjects, lower, total, Note(total, column, time, time));
        pattern.AddNote(total, column, time, time);
        time := time + segmentDuration;
        if increasing {
          if column >= total - 1 {
            increasing := false;
            column := column - 1;
          } else {
            column := column + 1;
          }
        } else if column <= lower {
          increasing := true;
          column := column + 1;
        } else {
          column := column - 1;
        }
      }
    }

    /** Two notes at a time, in different columns, except with two columns. */
    method GenerateRandomMultipleNotes(start: int) returns (pattern: Pattern)
      requires Valid() && inner.total >= 2
      modifies inner.random`pos
      ensures fresh(pattern) && Valid() && pattern.Valid(inner.total)
      ensures inner.total > 2 ==> |pattern.hitObjects| == 2 * (spanCount + 1) && InPairs(pattern.hitObjects, inner.total, start, segmentDuration)
      ensures inner.total == 2 ==> |pattern.hitObjects| == spanCount + 1 && Spaced(pattern.hitObjects, start, segmentDuration)
    {
      hide Columns, Contains, Column, TimeOf, Spaced, InPairs, Matches;
      pattern := new Pattern();
      NoNotes(start, segmentDuration, inner.RandomStart(), inner.total);
      var total, lower := inner.total, inner.RandomStart();
      var legacy := if 4 <= total <= 8 then 1 else 0;
      var interval := inner.random.NextIntRange(1, total - legacy);
      var nextColumn := inner.GetColumn();
      var time := start;
      for k := 0 to spanCount + 1
        invariant lower <= nextColumn < total && fresh(pattern) && Valid() && pattern.Valid(total)
        invariant time == TimeOf(start, k, segmentDuration)
        invariant total > 2 ==> |pattern.hitObjects| == 2 * k && InPairs(pattern.hitObjects, total, start, segmentDuration)
        invariant total == 2 ==> |pattern.hitObjects| == k && Spaced(pattern.hitObjects, start, segmentDuration)
      {
        TimesAre(start, k, segmentDuration);
        var second := SecondColumn(nextColumn, interval, total, lower, legacy);
        PosOfColumn(nextColumn, total);
        PosOfColumn(second, total);
        if total > 2 {
          PairMore(pattern.hitObjects, total, start, segmentDuration, k,
                   Note(total, nextColumn, time, time), Note(total, second, time, time));
        } else {
          SpacedOneMore(pattern.hitObjects, start, segmentDuration, Note(total, nextColumn, time, time));
        }
        pattern.AddNote(total, nextColumn, time, time);
        if total > 2 {
          pattern.AddNote(total, second, time, time);
        }
        nextColumn := inner.GetRandomColumn();
        time := time + segmentDuration;
      }
    }

    /** One hold note per span, all in different columns: there are fewer spans than columns, so
        the search in the loop never fails. */
    method GenerateTiledHoldNotes(start: int, rounds: nat) returns (status: Status, pattern: Pattern)
      requires Valid() && spanCount as int < inner.total - 1 - inner.RandomStart()
      modifies inner.random`pos
      ensures fresh(pattern) && Valid() && Apart(pattern, inner.RandomStart(), inner.total)
      ensures status.Failed? <==> forceNotStack && OnlySpecialLeft()
      ensures status.Failed? ==> pattern.hitObjects == []
      ensures MustAvoid() ==> ClearOf(pattern.hitObjects, prevPattern.containedColumns, inner.total, 1)
      ensures status.Done? ==> |pattern.hitObjects| == spanCount
      ensures Spaced(pattern.hitObjects, start, segmentDuration)
    {
      hide Columns, Contains, Free, AnyFree, Column, TimeOf, Spaced, ColumnsApart, Matches, ClearOf;
      pattern := new Pattern();
      NoNotes(start, segmentDuration, inner.RandomStart(), inner.total);
      NothingToClear(prevPattern.containedColumns, inner.total);
      NoneApart(inner.RandomStart(), inner.total);
      var total, lower := inner.total, inner.RandomStart();
      var columnRepeat := if spanCount < total then spanCount else total;
      var end := start + segmentDuration * spanCount;
      ghost var prev, avoid := prevPattern.containedColumns, MustAvoid();
      var nextColumn;
      status, nextColumn := StartColumn(rounds);
      if !status.Done? {
        return;
      }
      NoneContained();
      var time := start;
      for k := 0 to columnRepeat
        invariant |pattern.hitObjects| == k && time == TimeOf(start, k, segmentDuration)
        invariant lower <= nextColumn < total && fresh(pattern) && Valid() && Apart(pattern, lower, total)
        invariant Spaced(pattern.hitObjects, start, segmentDuration)
        invariant avoid ==> ClearOf(pattern.hitObjects, prev, total, 1) && (k == 0 ==> nextColumn !in Columns(prev))
      {
        ghost var before := pattern.containedColumns;
        ColumnsApartCount(k, before, lower, total);
        if k == 0 {
          NothingTaken(nextColumn, before);
        }
        var s := inner.FindAvailableColumn(nextColumn, false, None, pattern.containedColumns, NoColumns, rounds);
        if s.NoneFree? {
          NoneFreeMeansMany(lower, total, None, pattern.containedColumns, NoColumns);
          assert false;
        }
        if s.GaveUp? {
          return Unfinished, pattern;
        }
        nextColumn := s.column;
        FreeIsOutside(nextColumn, None, pattern.containedColumns, NoColumns);
        TimesAre(start, k, segmentDuration);
        SpacedOneMore(pattern.hitObjects, start, segmentDuration, Note(total, nextColumn, time, end));
        if avoid {
          PosOfColumn(nextColumn, total);
          FirstClearOf(pattern.hitObjects, prev, total, Note(total, nextColumn, time, end));
        }
        pattern.AddNote(total, nextColumn, time, end);
        ColumnsApartOneMore(k, before, lower, total, pattern.containedColumns, nextColumn);
        time := time + segmentDuration;
      }
    }
  }

  // ---------- what a previous pattern leaves ----------

  const AllButSpecial: set<nat> := {1, 2, 3, 4, 5, 6, 7}

  /** A pattern that leaves a column leaves one for the search, but for the special one. */
  lemma LeavesSpecial(objects: seq<HitObject>, prev: ContainedColumns, total: nat)
    requires Matches(objects, prev, total)
    ensures var special := total == 8 && Columns(prev) == AllButSpecial;
      && (|Columns(prev)| < total ==> (special <==> !AnyFree(if total == 8 then 1 else 0, total, None, prev, NoColumns)))
      && (special ==> |Columns(prev)| < total)
  {
    hide Columns, Contains, Free, AnyFree, Matches;
    MatchesBounds(objects, prev, total);
    MatchesWithin(objects, prev, total);
    FreeOf(prev, if total == 8 then 1 else 0, total);
    SpecialLeft(Columns(prev), total);
  }

  lemma SpecialLeft(columns: set<nat>, total: nat)
    requires 0 < total && forall c | c in columns :: c < total
    ensures var lower := if total == 8 then 1 else 0;
      var special := total == 8 && columns == AllButSpecial;
      && (|columns| < total ==> (special <==> !exists c | lower <= c < total :: c !in columns))
      && (special ==> |columns| < total)
  {
    var lower := if total == 8 then 1 else 0;
    if |columns| < total && forall c | lower <= c < total :: c in columns {
      if total != 8 || 0 in columns {
        AllTaken(columns, total);
        assert false;
      }
      assert columns == AllButSpecial;
    }
  }

  lemma FreeOf(prev: ContainedColumns, lower: nat, total: nat)
    requires total <= 16
    ensures AnyFree(lower, total, None, prev, NoColumns) <==> exists c | lower <= c < total :: c !in Columns(prev)
  {
    NoneContained();
    assert forall c: nat | c < 16 :: c !in Columns(NoColumns) && !Contains(NoColumns, c);
    assert forall c: nat | c < 16 :: Free(c, None, prev, NoColumns) <==> c !in Columns(prev);
    hide Free, Contains;
  }

  lemma {:induction false} AllTaken(columns: set<nat>, total: nat)
    requires forall c: nat | c < total :: c in columns
    ensures |columns| >= total
  {
    if total > 0 {
      AllTaken(columns - {total - 1}, total - 1);
    }
  }

  lemma MatchesWithin(objects: seq<HitObject>, cs: ContainedColumns, total: nat)
    requires Matches(objects, cs, total)
    ensures forall c | c in Columns(cs) :: c < total
  {
    hide Columns;
  }

  function UpTo(n: nat): set<nat> {
    if n == 0 then {} else UpTo(n - 1) + {n}
  }

  /** Notes in the first `n` of the seven columns besides the special one. */
  lemma {:induction false} FirstColumns(n: nat) returns (objects: seq<HitObject>, cs: ContainedColumns)
    requires n <= 7
    ensures Matches(objects, cs, 8) && Columns(cs) == UpTo(n)
  {
    hide Matches, Columns, Column;
    if n == 0 {
      objects, cs := [], NoColumns;
      MatchesNothing(8);
      NoneContained();
    } else {
      objects, cs := FirstColumns(n - 1);
      PosOfColumn(n, 8);
      MatchesOneMore(objects, cs, 8, Note(8, n, 0, 0), n);
      objects, cs := objects + [Note(8, n, 0, 0)], ManiaPattern.Inserted(cs, n);
    }
  }

  /** There is such a pattern: on it the search of `StartColumn` fails. */
  lemma SearchCanFail() returns (objects: seq<HitObject>, prev: ContainedColumns)
    ensures Matches(objects, prev, 8) && Columns(prev) == AllButSpecial && |Columns(prev)| < 8
    ensures !AnyFree(1, 8, None, prev, NoColumns)
  {
    objects, prev := FirstColumns(7);
    hide Columns, Matches, AnyFree;
    assert UpTo(2) == {1, 2} && UpTo(4) == {1, 2, 3, 4} && UpTo(6) == {1, 2, 3, 4, 5, 6};
    assert UpTo(7) == AllButSpecial;
    LeavesSpecial(objects, prev, 8);
  }

  /** The first `n` notes are in columns that `prev` does not have. */
  ghost predicate ClearOf(objects: seq<HitObject>, prev: ContainedColumns, total: nat, n: nat)
    requires total > 0
  {
    forall k | 0 <= k < n && k < |objects| :: Column(objects[k].x as real, total) !in Columns(prev)
  }

  lemma NothingToClear(prev: ContainedColumns, total: nat)
    requires total > 0
    ensures ClearOf([], prev, total, 0) && ClearOf([], prev, total, 1)
  {}

  lemma StillClearOf(objects: seq<HitObject>, prev: ContainedColumns, total: nat, n: nat, h: HitObject)
    requires total > 0 && ClearOf(objects, prev, total, n) && n <= |objects|
    ensures ClearOf(objects + [h], prev, total, n)
    ensures n == |objects| && Column(h.x as real, total) !in Columns(prev) ==> ClearOf(objects + [h], prev, total, n + 1)
    ensures ClearOf(objects, prev, total, 0)
  {
    hide Column, Columns;
  }

  /** The first note decides. */
  lemma FirstClearOf(objects: seq<HitObject>, prev: ContainedColumns, total: nat, h: HitObject)
    requires total > 0 && ClearOf(objects, prev, total, 1)
    requires objects == [] ==> Column(h.x as real, total) !in Columns(prev)
    ensures ClearOf(objects + [h], prev, total, 1)
  {
    hide Column, Columns;
  }

  lemma NoNotes(start: int, step: int, lower: nat, total: nat)
    requires total > 0
    ensures Spaced([], start, step) && NoneTwice([], total) && Stair([], lower, total) && InPairs([], total, start, step)
    ensures TimeOf(start, 0, step) == start
  {}

  function TimeOf(start: int, k: nat, step: int): int {
    start + k * step
  }

  lemma TimesAre(start: int, k: nat, step: int)
    ensures TimeOf(start, 0, step) == start && TimeOf(start, k, step) + step == TimeOf(start, k + 1, step)
  {
    assert (k + 1) * step == k * step + step;
  }

  lemma SpacedOneMore(objects: seq<HitObject>, start: int, step: int, h: HitObject)
    requires Spaced(objects, start, step) && h.startTime == TimeOf(start, |objects|, step)
    ensures Spaced(objects + [h], start, step)
  {
    hide TimeOf;
  }

  lemma NoneTwiceOneMore(objects: seq<HitObject>, total: nat, h: HitObject)
    requires total > 0 && NoneTwice(objects, total)
    requires |objects| > 0 ==> Column(objects[|objects| - 1].x as real, total) != Column(h.x as real, total)
    ensures NoneTwice(objects + [h], total)
  {
    hide Column;
    var r := objects + [h];
    forall j, k | 0 <= j && k == j + 1 < |r|
      ensures Column(r[j].x as real, total) != Column(r[k].x as real, total)
    {
      if k < |objects| {
        assert Column(objects[j].x as real, total) != Column(objects[k].x as real, total);
      }
    }
  }

  lemma StairOneMore(objects: seq<HitObject>, lower: nat, total: nat, h: HitObject)
    requires total > 0 && Stair(objects, lower, total) && lower <= Column(h.x as real, total)
    requires |objects| > 0 ==> NextTo(Column(objects[|objects| - 1].x as real, total), Column(h.x as real, total))
    ensures Stair(objects + [h], lower, total)
  {
    hide Column, NextTo;
    var r := objects + [h];
    forall j, k | 0 <= j && k == j + 1 < |r|
      ensures NextTo(Column(r[j].x as real, total), Column(r[k].x as real, total))
    {
      if k < |objects| {
        assert NextTo(Column(objects[j].x as real, total), Column(objects[k].x as real, total));
      }
    }
  }

  lemma PairMore(objects: seq<HitObject>, total: nat, start: int, step: int, k: nat, g: HitObject, h: HitObject)
    requires total > 0 && InPairs(objects, total, start, step) && |objects| == 2 * k
    requires g.startTime == h.startTime == TimeOf(start, k, step)
    requires Column(g.x as real, total) != Column(h.x as real, total)
    ensures InPairs(objects + [g] + [h], total, start, step)
  {
    hide Column, TimeOf;
    var r := objects + [g] + [h];
    forall j, m | 0 <= j && j % 2 == 0 && m == j + 1 < |r|
      ensures Column(r[j].x as real, total) != Column(r[m].x as real, total)
    {
      if m < |objects| {
        assert Column(objects[j].x as real, total) != Column(objects[m].x as real, total);
      }
    }
  }

  /** Note `k` starts `k` steps after the first. */
  ghost predicate Spaced(objects: seq<HitObject>, start: int, step: int) {
    forall k | 0 <= k < |objects| :: objects[k].startTime == TimeOf(start, k, step)
  }

  ghost predicate NoneTwice(objects: seq<HitObject>, total: nat)
    requires total > 0
  {
    forall j, k | 0 <= j && k == j + 1 < |objects| ::
      Column(objects[j].x as real, total) != Column(objects[k].x as real, total)
  }

  ghost predicate NextTo(a: int, b: int) {
    a == b + 1 || b == a + 1
  }

  ghost predicate Stair(objects: seq<HitObject>, lower: nat, total: nat)
    requires total > 0
  {
    && (forall k | 0 <= k < |objects| :: lower <= Column(objects[k].x as real, total) < total)
    && forall j, k | 0 <= j && k == j + 1 < |objects| ::
        NextTo(Column(objects[j].x as real, total), Column(objects[k].x as real, total))
  }

  /** Notes come in pairs that start together in different columns. */
  ghost predicate InPairs(objects: seq<HitObject>, total: nat, start: int, step: int)
    requires total > 0
  {
    && (forall k | 0 <= k < |objects| :: objects[k].startTime == TimeOf(start, k / 2, step))
    && forall j, k | 0 <= j && j % 2 == 0 && k == j + 1 < |objects| ::
        Column(objects[j].x as real, total) != Column(objects[k].x as real, total)
  }

  /** Where the second note goes: `interval` columns on, round the stage. */
  function SecondColumn(column: nat, interval: nat, total: nat, lower: nat, legacy: nat): (c: nat)
    requires lower <= column < total && total >= 2
    requires lower == (if total == 8 then 1 else 0) && legacy == (if 4 <= total <= 8 then 1 else 0)
    requires 1 <= interval < total - legacy
    ensures c < total && c != column
  {
    var next := column + interval;
    (if next >= total - lower then next - total - lower + legacy else next) + lower
  }

  lemma NoneFreeMeansMany(lower: nat, upper: nat, excluded: Option<nat>, a: ContainedColumns, b: ContainedColumns)
    requires lower <= upper <= 16 && !AnyFree(lower, upper, excluded, a, b)
    ensures |Columns(a)| + |Columns(b)| + (if excluded.Some? then 1 else 0) >= upper - lower
  {
    if |Columns(a)| + |Columns(b)| + (if excluded.Some? then 1 else 0) < upper - lower {
      EnoughColumns(lower, upper, excluded, a, b);
      assert false;
    }
  }

  lemma NothingTaken(c: nat, cs: ContainedColumns)
    requires c < 16 && |Columns(cs)| == 0
    ensures Free(c, None, cs, NoColumns)
  {
    NoneContained();
    assert c !in Columns(cs) && c !in Columns(NoColumns);
    hide Contains;
  }

  lemma FreeIsOutside(c: nat, excluded: Option<nat>, a: ContainedColumns, b: ContainedColumns)
    requires c < 16 && Free(c, excluded, a, b)
    ensures c !in Columns(a) && c !in Columns(b) && excluded != Some(c)
  {}
}

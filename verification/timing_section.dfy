/** Decoding the timing section: the points of lines at one time are merged before they are added
    to the lists. */
module TimingSection {
  import opened Wrappers
  import opened Rounding
  import opened ControlPoints

  datatype Line = Line(time: real, beatLen: real, difficulty: DifficultyValue, kiai: bool, timingChange: bool)

  /** `time.not_eq(other)` */
  predicate NotEq(a: real, b: real) {
    Abs(a - b) >= Epsilon
  }

  /** Less than epsilon apart. */
  predicate Simultaneous(a: real, b: real) {
    -1.0 < (a - b) * 4503599627370496.0 < 1.0
  }

  lemma NotEqIsApart(a: real, b: real)
    ensures NotEq(a, b) <==> !Simultaneous(a, b)
  {}

  // ---------- what the lines amount to ----------

  /** Lines at one time: each differs by less than epsilon from the line before. */
  function Groups(lines: seq<Line>): (groups: seq<seq<Line>>)
    ensures groups == [] <==> lines == []
    ensures forall g | 0 <= g < |groups| :: groups[g] != []
    ensures lines != [] ==> groups[|groups| - 1][|groups[|groups| - 1]| - 1] == lines[|lines| - 1]
  {
    if lines == [] then []
    else
      var front, line := lines[..|lines| - 1], lines[|lines| - 1];
      var groups := Groups(front);
      if front == [] || NotEq(line.time, front[|front| - 1].time) then groups + [[line]]
      else groups[|groups| - 1 := groups[|groups| - 1] + [line]]
  }

  function Flat(groups: seq<seq<Line>>): seq<Line> {
    if groups == [] then [] else Flat(groups[..|groups| - 1]) + groups[|groups| - 1]
  }

  /** Each line is within epsilon of the one before it. */
  ghost predicate AtOneTime(group: seq<Line>) {
    group != [] && forall m | 0 <= m < |group| - 1 :: Simultaneous(group[m + 1].time, group[m].time)
  }

  ghost predicate Parted(before: seq<Line>, after: seq<Line>) {
    before != [] && after != [] && !Simultaneous(after[0].time, before[|before| - 1].time)
  }

  ghost predicate Grouped(groups: seq<seq<Line>>) {
    && (forall g | 0 <= g < |groups| :: AtOneTime(groups[g]))
    && forall g | 0 <= g < |groups| - 1 :: Parted(groups[g], groups[g + 1])
  }

  /** The groups are the lines, in their order, and are as long as they can be. */
  lemma {:induction false} GroupsAre(lines: seq<Line>)
    ensures Flat(Groups(lines)) == lines && Grouped(Groups(lines))
  {
    if lines != [] {
      var front := lines[..|lines| - 1];
      GroupsAre(front);
      assert front + [lines[|lines| - 1]] == lines;
      GroupedNext(front, lines[|lines| - 1]);
    }
  }

  lemma GroupedNext(lines: seq<Line>, line: Line)
    requires Flat(Groups(lines)) == lines && Grouped(Groups(lines))
    ensures Flat(Groups(lines + [line])) == lines + [line] && Grouped(Groups(lines + [line]))
  {
    hide Groups, Flat, Grouped, NotEq, Simultaneous;
    GroupsNext(lines, line);
    if lines != [] {
      NotEqIsApart(line.time, lines[|lines| - 1].time);
    }
    if lines == [] || NotEq(line.time, lines[|lines| - 1].time) {
      NewGroup(Groups(lines), line);
    } else {
      LongerGroup(Groups(lines), line);
    }
  }

  lemma NewGroup(groups: seq<seq<Line>>, line: Line)
    requires Grouped(groups) && (groups != [] ==> Parted(groups[|groups| - 1], [line]))
    ensures Grouped(groups + [[line]]) && Flat(groups + [[line]]) == Flat(groups) + [line]
  {
    hide Parted, AtOneTime;
    FlatNext(groups, [line]);
    OneLine(line);
    hide Flat;
    var r := groups + [[line]];
    forall g | 0 <= g < |r| - 1
      ensures Parted(r[g], r[g + 1])
    {
      if g + 1 < |groups| {
        assert Parted(groups[g], groups[g + 1]);
      }
    }
  }

  lemma FlatNext(groups: seq<seq<Line>>, group: seq<Line>)
    ensures Flat(groups + [group]) == Flat(groups) + group
  {
    assert (groups + [group])[..|groups|] == groups;
  }

  lemma OneLine(line: Line)
    ensures AtOneTime([line])
  {}

  lemma LongerGroup(groups: seq<seq<Line>>, line: Line)
    requires Grouped(groups) && groups != [] && groups[|groups| - 1] != []
    requires var group := groups[|groups| - 1]; Simultaneous(line.time, group[|group| - 1].time)
    ensures var last := |groups| - 1; var longer := groups[last := groups[last] + [line]];
      Grouped(longer) && Flat(longer) == Flat(groups) + [line]
  {
    hide Simultaneous;
    var last := |groups| - 1;
    var group := groups[last];
    var longer := groups[last := group + [line]];
    assert longer[..last] == groups[..last];
    assert Flat(longer) == Flat(groups[..last]) + (group + [line]) == Flat(groups) + [line];
    hide Flat;
    assert AtOneTime(group) && AtOneTime(group + [line]);
    hide AtOneTime;
    if last > 0 {
      assert Parted(groups[last - 1], groups[last]) && Parted(groups[last - 1], longer[last]);
    }
  }

  lemma GroupsNext(lines: seq<Line>, line: Line)
    ensures var groups := Groups(lines);
      Groups(lines + [line]) ==
      if lines == [] || NotEq(line.time, lines[|lines| - 1].time) then groups + [[line]]
      else groups[|groups| - 1 := groups[|groups| - 1] + [line]]
  {
    assert (lines + [line])[..|lines|] == lines;
  }

  /** The line of a group that decides about velocity and kiai: the last one without a timing
      change, or the first if all have one. */
  function Deciding(group: seq<Line>): (line: Line)
    requires group != []
  {
    var last := |group| - 1;
    if last == 0 || !group[last].timingChange then group[last] else Deciding(group[..last])
  }

  lemma {:induction false} DecidingIs(group: seq<Line>) returns (k: nat)
    requires group != []
    ensures k < |group| && Deciding(group) == group[k]
    ensures forall m | k < m < |group| :: group[m].timingChange
    ensures k == 0 || !group[k].timingChange
  {
    k := |group| - 1;
    if k > 0 && group[k].timingChange {
      k := DecidingIs(group[..k]);
    }
  }

  function DifficultyOf(group: seq<Line>): Option<Point<DifficultyValue>> {
    if group == [] then None else Some(Point(Deciding(group).time, Deciding(group).difficulty))
  }

  function EffectOf(group: seq<Line>): Option<Point<bool>> {
    if group == [] then None else Some(Point(Deciding(group).time, Deciding(group).kiai))
  }

  function ChangeOf(line: Line): Option<Point<real>> {
    if line.timingChange then Some(Point(line.time, line.beatLen)) else None
  }

  /** The first timing change of a group. */
  function TimingOf(group: seq<Line>): Option<Point<real>> {
    FirstChange(group)
  }

  function FirstChange(group: seq<Line>): Option<Point<real>> {
    if group == [] then None
    else if group[0].timingChange then ChangeOf(group[0])
    else FirstChange(group[1..])
  }

  lemma {:induction false} FirstChangeIs(group: seq<Line>) returns (k: nat)
    ensures k <= |group| && forall m | 0 <= m < k :: !group[m].timingChange
    ensures TimingOf(group) == if k < |group| then Some(Point(group[k].time, group[k].beatLen)) else None
    ensures k < |group| ==> group[k].timingChange
  {
    k := 0;
    if group != [] && !group[0].timingChange {
      k := FirstChangeIs(group[1..]);
      k := k + 1;
    }
  }

  function Pending<V>(p: Option<Point<V>>): seq<Point<V>> {
    if p.Some? then [p.value] else []
  }

  /** The points of all groups, in the order of the lines. */
  function Merged<V>(groups: seq<seq<Line>>, point: seq<Line> -> Option<Point<V>>): seq<Point<V>> {
    if groups == [] then []
    else Merged(groups[..|groups| - 1], point) + Pending(point(groups[|groups| - 1]))
  }

  // ---------- lines in time order ----------

  ghost predicate LinesInOrder(lines: seq<Line>) {
    forall i, j | 0 <= i < j < |lines| :: lines[i].time <= lines[j].time
  }

  ghost predicate NoLineAfter(group: seq<Line>, time: real) {
    forall m | 0 <= m < |group| :: group[m].time <= time
  }

  /** A group's point is at the time of one of its lines. */
  ghost predicate IsOfGroup<V>(point: seq<Line> -> Option<Point<V>>, group: seq<Line>) {
    point(group).Some? ==> exists m :: 0 <= m < |group| && group[m].time == point(group).value.time
  }

  /** All groups but the last give points in order, none after any line of the last group. */
  ghost predicate OrderedBefore<V>(groups: seq<seq<Line>>, point: seq<Line> -> Option<Point<V>>) {
    groups == [] ||
    var last := |groups| - 1;
    var front := Merged(groups[..last], point);
    InTimeOrder(front) && forall k, m | 0 <= k < |front| && 0 <= m < |groups[last]| :: front[k].time <= groups[last][m].time
  }

  lemma {:induction false} GroupsOrdered<V>(lines: seq<Line>, point: seq<Line> -> Option<Point<V>>)
    requires LinesInOrder(lines) && forall group :: IsOfGroup(point, group)
    ensures OrderedBefore(Groups(lines), point)
    ensures lines != [] ==> NoLineAfter(Groups(lines)[|Groups(lines)| - 1], lines[|lines| - 1].time)
  {
    if lines != [] {
      var front, line := lines[..|lines| - 1], lines[|lines| - 1];
      GroupsOrdered(front, point);
      if front != [] {
        assert front[|front| - 1].time <= line.time;
        GroupAdded(Groups(front), point, front[|front| - 1].time, line);
      } else {
        assert Groups(lines) == [[line]];
        assert Groups(lines)[..0] == [];
      }
    }
  }

  /** No point of a group or of those before it is after any line behind them. */
  ghost predicate AllUpTo<V>(points: seq<Point<V>>, time: real) {
    forall k | 0 <= k < |points| :: points[k].time <= time
  }

  lemma GroupUpTo<V>(groups: seq<seq<Line>>, point: seq<Line> -> Option<Point<V>>, latest: real)
    requires groups != [] && OrderedBefore(groups, point) && IsOfGroup(point, groups[|groups| - 1])
    requires groups[|groups| - 1] != [] && NoLineAfter(groups[|groups| - 1], latest)
    ensures InTimeOrder(Merged(groups, point)) && AllUpTo(Merged(groups, point), latest)
    ensures AllUpTo(Merged(groups[..|groups| - 1], point), latest)
  {
    var last := |groups| - 1;
    var front, pending := Merged(groups[..last], point), Pending(point(groups[last]));
    assert Merged(groups, point) == front + pending;
    hide Merged, Pending;
    forall k | 0 <= k < |front|
      ensures front[k].time <= latest
    {
      assert front[k].time <= groups[last][0].time;
    }
    PendingUpTo(groups[last], front, point, latest);
  }

  lemma PendingUpTo<V>(group: seq<Line>, front: seq<Point<V>>, point: seq<Line> -> Option<Point<V>>, latest: real)
    requires IsOfGroup(point, group) && NoLineAfter(group, latest)
    requires InTimeOrder(front) && forall k, m | 0 <= k < |front| && 0 <= m < |group| :: front[k].time <= group[m].time
    requires AllUpTo(front, latest)
    ensures InTimeOrder(front + Pending(point(group))) && AllUpTo(front + Pending(point(group)), latest)
  {
    if point(group).Some? {
      var m :| 0 <= m < |group| && group[m].time == point(group).value.time;
      assert forall k | 0 <= k < |front| :: front[k].time <= group[m].time;
    }
  }

  lemma GroupAdded<V>(groups: seq<seq<Line>>, point: seq<Line> -> Option<Point<V>>, latest: real, line: Line)
    requires groups != [] && OrderedBefore(groups, point) && IsOfGroup(point, groups[|groups| - 1])
    requires groups[|groups| - 1] != [] && NoLineAfter(groups[|groups| - 1], latest) && latest <= line.time
    ensures OrderedBefore(groups + [[line]], point) && NoLineAfter([line], line.time)
    ensures var last := |groups| - 1; var grown := groups[last] + [line];
      OrderedBefore(groups[last := grown], point) && NoLineAfter(grown, line.time)
  {
    GroupUpTo(groups, point, latest);
    var last := |groups| - 1;
    hide Merged, IsOfGroup;
    EndsOrdered(groups, [line], point);
    var front := groups[..last];
    assert front + [groups[last] + [line]] == groups[last := groups[last] + [line]];
    EndsOrdered(front, groups[last] + [line], point);
  }

  lemma EndsOrdered<V>(front: seq<seq<Line>>, group: seq<Line>, point: seq<Line> -> Option<Point<V>>)
    requires InTimeOrder(Merged(front, point))
    requires forall k, m | 0 <= k < |Merged(front, point)| && 0 <= m < |group| :: Merged(front, point)[k].time <= group[m].time
    ensures OrderedBefore(front + [group], point)
  {
    assert (front + [group])[..|front|] == front;
    hide Merged;
  }

  lemma MergedInOrder<V>(lines: seq<Line>, point: seq<Line> -> Option<Point<V>>)
    requires LinesInOrder(lines) && forall group :: IsOfGroup(point, group)
    ensures InTimeOrder(Merged(Groups(lines), point))
  {
    GroupsOrdered(lines, point);
    hide Groups;
    var groups := Groups(lines);
    if groups != [] {
      assert IsOfGroup(point, groups[|groups| - 1]);
    }
  }

  lemma DecidedOfGroup(group: seq<Line>)
    ensures IsOfGroup(DifficultyOf, group) && IsOfGroup(EffectOf, group)
  {
    if group != [] {
      var k := DecidingIs(group);
    }
  }

  // ---------- one line ----------

  /** `push_front` keeps a pending point, `push_back` replaces it. */
  function Pushed<V>(pending: Option<Point<V>>, p: Point<V>, timingChange: bool): Option<Point<V>> {
    if timingChange && pending.Some? then pending else Some(p)
  }

  /** The points passed on and the pending one, before and after a flush. */
  datatype Queue<V> = Queue(flushed: seq<Point<V>>, pending: Option<Point<V>>)

  function Flushed<V>(q: Queue<V>, flush: bool): Queue<V> {
    if flush then Queue(q.flushed + Pending(q.pending), None) else q
  }

  function PushedOnto<V>(q: Queue<V>, p: Point<V>, timingChange: bool): Queue<V> {
    q.(pending := Pushed(q.pending, p, timingChange))
  }

  lemma NotFlushed<V>(q: Queue<V>)
    ensures Flushed(q, false) == q
  {}

  lemma SameTime(time: real)
    ensures !NotEq(time, time)
  {}

  function WithPoint<V>(q: Queue<V>, p: Option<Point<V>>, timingChange: bool): Queue<V> {
    if p.Some? then PushedOnto(q, p.value, timingChange) else q
  }

  /** The pending point is that of the last group, those of all others have been passed on. */
  ghost predicate HoldsGroups<V>(q: Queue<V>, groups: seq<seq<Line>>, point: seq<Line> -> Option<Point<V>>) {
    if groups == [] then q == Queue([], None)
    else q == Queue(Merged(groups[..|groups| - 1], point), point(groups[|groups| - 1]))
  }

  ghost predicate Holds<V>(q: Queue<V>, lines: seq<Line>, point: seq<Line> -> Option<Point<V>>) {
    HoldsGroups(q, Groups(lines), point)
  }

  /** Flushed to the end, the points passed on are those of all lines. */
  lemma HoldsAll<V>(q: Queue<V>, lines: seq<Line>, point: seq<Line> -> Option<Point<V>>)
    requires Holds(q, lines, point)
    ensures Flushed(q, true) == Queue(Merged(Groups(lines), point), None)
  {
    hide Groups;
  }

  /** How the next line changes the point of its group. */
  ghost predicate Extends<V>(point: seq<Line> -> Option<Point<V>>, group: seq<Line>, line: Line, p: Option<Point<V>>) {
    point(group + [line]) == if p.Some? then Pushed(point(group), p.value, line.timingChange) else point(group)
  }

  lemma HoldsNext<V>(q: Queue<V>, lines: seq<Line>, line: Line, latest: real, p: Option<Point<V>>,
                     point: seq<Line> -> Option<Point<V>>)
    requires Holds(q, lines, point) && (lines != [] ==> latest == lines[|lines| - 1].time) && point([]) == None
    requires forall group :: Extends(point, group, line, p)
    ensures Holds(WithPoint(Flushed(q, NotEq(line.time, latest)), p, line.timingChange), lines + [line], point)
  {
    GroupsNext(lines, line);
    var groups := Groups(lines);
    hide Groups, NotEq, Flushed, WithPoint, HoldsGroups, Extends;
    if lines == [] || NotEq(line.time, latest) {
      assert Extends(point, [], line, p);
      StartsGroup(q, groups, line, NotEq(line.time, latest), p, point);
    } else {
      assert Extends(point, groups[|groups| - 1], line, p);
      JoinsGroup(q, groups, line, p, point);
    }
  }

  lemma StartsGroup<V>(q: Queue<V>, groups: seq<seq<Line>>, line: Line, flush: bool, p: Option<Point<V>>,
                       point: seq<Line> -> Option<Point<V>>)
    requires HoldsGroups(q, groups, point) && (flush || groups == []) && point([]) == None && Extends(point, [], line, p)
    ensures HoldsGroups(WithPoint(Flushed(q, flush), p, line.timingChange), groups + [[line]], point)
  {
    assert (groups + [[line]])[..|groups|] == groups;
    assert [] + [line] == [line];
    assert Flushed(q, flush) == Queue(Merged(groups, point), None);
    hide Merged;
  }

  lemma JoinsGroup<V>(q: Queue<V>, groups: seq<seq<Line>>, line: Line, p: Option<Point<V>>,
                      point: seq<Line> -> Option<Point<V>>)
    requires HoldsGroups(q, groups, point) && groups != [] && Extends(point, groups[|groups| - 1], line, p)
    ensures var last := |groups| - 1;
      HoldsGroups(WithPoint(Flushed(q, false), p, line.timingChange), groups[last := groups[last] + [line]], point)
  {
    var last := |groups| - 1;
    assert groups[last := groups[last] + [line]][..last] == groups[..last];
    hide Merged;
  }

  lemma DecidedExtends(group: seq<Line>, line: Line)
    ensures Extends(DifficultyOf, group, line, Some(Point(line.time, line.difficulty)))
    ensures Extends(EffectOf, group, line, Some(Point(line.time, line.kiai)))
  {
    assert (group + [line])[..|group|] == group;
  }

  lemma {:induction false} TimingExtends(group: seq<Line>, line: Line)
    ensures Extends(TimingOf, group, line, ChangeOf(line))
  {
    if group == [] {
      assert [] + [line] == [line] && [line][1..] == [];
    } else {
      TimingExtends(group[1..], line);
      assert (group + [line])[1..] == group[1..] + [line];
    }
  }

  lemma AllExtend(line: Line)
    ensures forall group :: Extends(DifficultyOf, group, line, Some(Point(line.time, line.difficulty)))
    ensures forall group :: Extends(EffectOf, group, line, Some(Point(line.time, line.kiai)))
    ensures forall group :: Extends(TimingOf, group, line, ChangeOf(line))
  {
    forall group: seq<Line>
      ensures Extends(DifficultyOf, group, line, Some(Point(line.time, line.difficulty)))
      ensures Extends(EffectOf, group, line, Some(Point(line.time, line.kiai)))
      ensures Extends(TimingOf, group, line, ChangeOf(line))
    {
      DecidedExtends(group, line);
      TimingExtends(group, line);
    }
  }

  // ---------- the lists ----------

  /** `add_control_point` for a list with redundant points. */
  method AddControlPoint<V>(points: seq<Point<V>>, p: Point<V>, redundant: (V, V) -> bool, default: V) returns (r: seq<Point<V>>)
    requires Ordered(points)
    ensures r == AddedUnlessRedundant(points, p, redundant, default)
  {
    var existing := PointAt(points, p.time);
    if redundant(p.value, if existing.Some? then existing.value.value else default) {
      r := points;
    } else {
      r := Add(points, p);
    }
  }

  /** `add`: at its place in the list, or instead of the point at the same time. */
  method Add<V>(points: seq<Point<V>>, p: Point<V>) returns (r: seq<Point<V>>)
    requires Ordered(points)
    ensures r == Inserted(points, p)
  {
    match BinarySearch(points, p.time)
    case Missing(i) => r := points[..i] + [p] + points[i..];
    case Found(i) => r := points[i := p];
  }

  /** Adds a pending point of the timing points, of which none is redundant. */
  method FlushTiming(points: seq<Point<real>>, pending: Option<Point<real>>, ghost flushed: seq<Point<real>>)
    returns (r: seq<Point<real>>)
    requires points == Keeping(flushed)
    ensures r == Keeping(flushed + Pending(pending))
  {
    hide Keeping, Skipping, AddedUnlessRedundant, Inserted, Ordered;
    r := points;
    if pending.Some? {
      OneMore(flushed, pending.value, (a, b) => false, 0.0);
      r := Add(points, pending.value);
    } else {
      assert flushed + [] == flushed;
    }
  }

  /** Adds a pending point of the others. */
  method Flush<V>(points: seq<Point<V>>, pending: Option<Point<V>>, redundant: (V, V) -> bool, default: V,
                  ghost flushed: seq<Point<V>>)
    returns (r: seq<Point<V>>)
    requires points == Skipping(flushed, redundant, default)
    ensures r == Skipping(flushed + Pending(pending), redundant, default)
    ensures r == if pending.Some? then AddedUnlessRedundant(points, pending.value, redundant, default) else points
  {
    hide Keeping, Skipping, AddedUnlessRedundant, Inserted, Ordered;
    r := points;
    if pending.Some? {
      OneMore(flushed, pending.value, redundant, default);
      r := AddControlPoint(points, pending.value, redundant, default);
    } else {
      assert flushed + [] == flushed;
    }
  }

  /** A pending point is in the list afterwards, unless it is alike to what was looked up at its
      time, which before all points is a velocity of 1 with ticks; then nothing changes. */
  ghost predicate AddsUnlessAlike(points: seq<Point<DifficultyValue>>, pending: Option<Point<DifficultyValue>>,
                                  r: seq<Point<DifficultyValue>>) {
    if pending.None? || Alike(pending.value.value, ValueAt(points, pending.value.time, DifficultyValue(1.0, 1.0, true)))
    then r == points
    else pending.value in r && forall q | q in points && q.time != pending.value.time :: q in r
  }

  ghost predicate AddsUnlessSameKiai(points: seq<Point<bool>>, pending: Option<Point<bool>>, r: seq<Point<bool>>) {
    if pending.None? || pending.value.value == ValueAt(points, pending.value.time, false) then r == points
    else pending.value in r && forall q | q in points && q.time != pending.value.time :: q in r
  }

  lemma AddingUnlessAlike(flushed: seq<Point<DifficultyValue>>, pending: Option<Point<DifficultyValue>>)
    ensures var points := Skipping(flushed, DifficultyRedundant, DefaultDifficulty);
      AddsUnlessAlike(points, pending, if pending.None? then points
        else AddedUnlessRedundant(points, pending.value, DifficultyRedundant, DefaultDifficulty))
  {
    hide Skipping, AddedUnlessRedundant, Alike, ValueAt;
    if pending.Some? {
      AddedUnlessAlike(Skipping(flushed, DifficultyRedundant, DefaultDifficulty), pending.value);
    }
  }

  lemma AddingUnlessSameKiai(flushed: seq<Point<bool>>, pending: Option<Point<bool>>)
    ensures var points := Skipping(flushed, EffectRedundant, DefaultKiai);
      AddsUnlessSameKiai(points, pending, if pending.None? then points
        else AddedUnlessRedundant(points, pending.value, EffectRedundant, DefaultKiai))
  {
    hide Skipping, AddedUnlessRedundant, ValueAt;
    if pending.Some? {
      AddedUnlessSameKiai(Skipping(flushed, EffectRedundant, DefaultKiai), pending.value);
    }
  }

  class BeatmapState {
    var timingPoints: seq<Point<real>>
    var difficultyPoints: seq<Point<DifficultyValue>>
    var effectPoints: seq<Point<bool>>
    var pendingControlPointsTime: real
    var pendingTimingPoint: Option<Point<real>>
    var pendingDifficultyPoint: Option<Point<DifficultyValue>>
    var pendingEffectPoint: Option<Point<bool>>
    /** The points that have been passed on to the lists. */
    ghost var flushedTiming: seq<Point<real>>
    ghost var flushedDifficulty: seq<Point<DifficultyValue>>
    ghost var flushedEffect: seq<Point<bool>>
    /** The lines read so far. */
    ghost var lines: seq<Line>

    /** The lists are what the points passed on amount to. */
    ghost predicate Valid()
      reads this
    {
      && timingPoints == Keeping(flushedTiming)
      && difficultyPoints == Skipping(flushedDifficulty, DifficultyRedundant, DefaultDifficulty)
      && effectPoints == Skipping(flushedEffect, EffectRedundant, DefaultKiai)
    }

    ghost function Timing(): Queue<real>
      reads this
    {
      Queue(flushedTiming, pendingTimingPoint)
    }

    ghost function Difficulty(): Queue<DifficultyValue>
      reads this
    {
      Queue(flushedDifficulty, pendingDifficultyPoint)
    }

    ghost function Effect(): Queue<bool>
      reads this
    {
      Queue(flushedEffect, pendingEffectPoint)
    }

    /** Between two lines: the points passed on and the pending ones are those of the lines. */
    ghost predicate Decoded()
      reads this
    {
      && Valid()
      && (lines != [] ==> pendingControlPointsTime == lines[|lines| - 1].time)
      && Holds(Timing(), lines, TimingOf) && Holds(Difficulty(), lines, DifficultyOf) && Holds(Effect(), lines, EffectOf)
    }

    constructor ()
      ensures Decoded() && lines == []
    {
      timingPoints, difficultyPoints, effectPoints := [], [], [];
      pendingControlPointsTime := 0.0;
      pendingTimingPoint, pendingDifficultyPoint, pendingEffectPoint := None, None, None;
      flushedTiming, flushedDifficulty, flushedEffect, lines := [], [], [], [];
    }

    method FlushPendingPoints()
      requires Valid()
      modifies this
      ensures Valid() && lines == old(lines) && pendingControlPointsTime == old(pendingControlPointsTime)
      ensures flushedTiming == old(flushedTiming + Pending(pendingTimingPoint)) && pendingTimingPoint == None
      ensures flushedDifficulty == old(flushedDifficulty + Pending(pendingDifficultyPoint)) && pendingDifficultyPoint == None
      ensures flushedEffect == old(flushedEffect + Pending(pendingEffectPoint)) && pendingEffectPoint == None
      ensures AddsUnlessAlike(old(difficultyPoints), old(pendingDifficultyPoint), difficultyPoints)
      ensures AddsUnlessSameKiai(old(effectPoints), old(pendingEffectPoint), effectPoints)
    {
      hide Keeping, Skipping, Pending, Ordered, AddedUnlessRedundant, AddsUnlessAlike, AddsUnlessSameKiai;
      AddingUnlessAlike(flushedDifficulty, pendingDifficultyPoint);
      AddingUnlessSameKiai(flushedEffect, pendingEffectPoint);
      timingPoints := FlushTiming(timingPoints, pendingTimingPoint, flushedTiming);
      difficultyPoints :=
        Flush(difficultyPoints, pendingDifficultyPoint, DifficultyRedundant, DefaultDifficulty, flushedDifficulty);
      effectPoints := Flush(effectPoints, pendingEffectPoint, EffectRedundant, DefaultKiai, flushedEffect);
      PassOn();
      pendingTimingPoint, pendingDifficultyPoint, pendingEffectPoint := None, None, None;
    }

    ghost method PassOn()
      modifies `flushedTiming, `flushedDifficulty, `flushedEffect
      ensures flushedTiming == old(flushedTiming + Pending(pendingTimingPoint))
      ensures flushedDifficulty == old(flushedDifficulty + Pending(pendingDifficultyPoint))
      ensures flushedEffect == old(flushedEffect + Pending(pendingEffectPoint))
    {
      flushedTiming := flushedTiming + Pending(pendingTimingPoint);
      flushedDifficulty := flushedDifficulty + Pending(pendingDifficultyPoint);
      flushedEffect := flushedEffect + Pending(pendingEffectPoint);
    }

    /** `add_pending_point` but for storing the point: pending points are passed on if the time
        differs, and kept otherwise. */
    method MoveTo(time: real)
      requires Valid()
      modifies this
      ensures Valid() && lines == old(lines) && pendingControlPointsTime == time
      ensures var flush := NotEq(time, old(pendingControlPointsTime));
        && Timing() == Flushed(old(Timing()), flush)
        && Difficulty() == Flushed(old(Difficulty()), flush) && Effect() == Flushed(old(Effect()), flush)
    {
      hide Keeping, Skipping, NotEq;
      if NotEq(time, pendingControlPointsTime) {
        FlushPendingPoints();
      }
      pendingControlPointsTime := time;
    }

    method AddPendingTimingPoint(p: Point<real>, timingChange: bool)
      requires Valid()
      modifies this
      ensures Valid() && lines == old(lines) && pendingControlPointsTime == p.time
      ensures var flush := NotEq(p.time, old(pendingControlPointsTime));
        && Timing() == PushedOnto(Flushed(old(Timing()), flush), p, timingChange)
        && Difficulty() == Flushed(old(Difficulty()), flush) && Effect() == Flushed(old(Effect()), flush)
    {
      hide Keeping, Skipping, NotEq, Flushed;
      MoveTo(p.time);
      pendingTimingPoint := Pushed(pendingTimingPoint, p, timingChange);
    }

    method AddPendingDifficultyPoint(p: Point<DifficultyValue>, timingChange: bool)
      requires Valid()
      modifies this
      ensures Valid() && lines == old(lines) && pendingControlPointsTime == p.time
      ensures var flush := NotEq(p.time, old(pendingControlPointsTime));
        && Timing() == Flushed(old(Timing()), flush)
        && Difficulty() == PushedOnto(Flushed(old(Difficulty()), flush), p, timingChange)
        && Effect() == Flushed(old(Effect()), flush)
    {
      hide Keeping, Skipping, NotEq, Flushed;
      MoveTo(p.time);
      pendingDifficultyPoint := Pushed(pendingDifficultyPoint, p, timingChange);
    }

    method AddPendingEffectPoint(p: Point<bool>, timingChange: bool)
      requires Valid()
      modifies this
      ensures Valid() && lines == old(lines) && pendingControlPointsTime == p.time
      ensures var flush := NotEq(p.time, old(pendingControlPointsTime));
        && Timing() == Flushed(old(Timing()), flush) && Difficulty() == Flushed(old(Difficulty()), flush)
        && Effect() == PushedOnto(Flushed(old(Effect()), flush), p, timingChange)
    {
      hide Keeping, Skipping, NotEq, Flushed;
      MoveTo(p.time);
      pendingEffectPoint := Pushed(pendingEffectPoint, p, timingChange);
    }

    lemma LineHolds(line: Line)
      requires Decoded()
      ensures var flush := NotEq(line.time, pendingControlPointsTime);
        && Holds(if line.timingChange then PushedOnto(Flushed(Timing(), flush), Point(line.time, line.beatLen), true)
                 else Flushed(Timing(), flush), lines + [line], TimingOf)
        && Holds(PushedOnto(Flushed(Difficulty(), flush), Point(line.time, line.difficulty), line.timingChange),
                 lines + [line], DifficultyOf)
        && Holds(PushedOnto(Flushed(Effect(), flush), Point(line.time, line.kiai), line.timingChange), lines + [line], EffectOf)
    {
      hide Valid, Holds, Flushed, NotEq, Extends, PushedOnto;
      AllExtend(line);
      HoldsNext(Timing(), lines, line, pendingControlPointsTime, ChangeOf(line), TimingOf);
      HoldsNext(Difficulty(), lines, line, pendingControlPointsTime, Some(Point(line.time, line.difficulty)), DifficultyOf);
      HoldsNext(Effect(), lines, line, pendingControlPointsTime, Some(Point(line.time, line.kiai)), EffectOf);
    }

    /** One line of the timing section. */
    method ParseTimingPoint(line: Line)
      requires Decoded()
      modifies this
      ensures Decoded() && lines == old(lines) + [line]
    {
      hide Holds, NotEq, Flushed, PushedOnto, Keeping, Skipping, TimingOf, DifficultyOf, EffectOf;
      LineHolds(line);
      SameTime(line.time);
      ghost var flush := NotEq(line.time, pendingControlPointsTime);
      ghost var timing, difficulty, effect := Flushed(Timing(), flush), Flushed(Difficulty(), flush), Flushed(Effect(), flush);
      var time, timingChange := line.time, line.timingChange;
      if timingChange {
        AddPendingTimingPoint(Point(time, line.beatLen), timingChange);
        timing := PushedOnto(timing, Point(time, line.beatLen), timingChange);
        NotFlushed(difficulty);
        NotFlushed(effect);
      }
      AddPendingDifficultyPoint(Point(time, line.difficulty), timingChange);
      NotFlushed(timing);
      NotFlushed(effect);
      AddPendingEffectPoint(Point(time, line.kiai), timingChange);
      NotFlushed(PushedOnto(difficulty, Point(time, line.difficulty), timingChange));
      lines := lines + [line];
    }

    /** After all lines: the lists hold the points of the groups of lines at one time, and kiai and
        velocities are what they would be without skipping as long as overtaken times recur, as
        they do for lines in time order. */
    method Finish()
      requires Decoded()
      modifies this
      ensures Ordered(timingPoints) && Ordered(difficultyPoints) && Ordered(effectPoints)
      ensures timingPoints == Keeping(Merged(Groups(old(lines)), TimingOf))
      ensures difficultyPoints == Skipping(Merged(Groups(old(lines)), DifficultyOf), DifficultyRedundant, DefaultDifficulty)
      ensures effectPoints == Skipping(Merged(Groups(old(lines)), EffectOf), EffectRedundant, DefaultKiai)
      ensures OvertakenRecur(TimesOf(Merged(Groups(old(lines)), EffectOf))) || LinesInOrder(old(lines)) ==> forall t ::
        ValueAt(effectPoints, t, DefaultKiai) == ValueAt(Keeping(Merged(Groups(old(lines)), EffectOf)), t, DefaultKiai)
      ensures OvertakenRecur(TimesOf(Merged(Groups(old(lines)), DifficultyOf))) || LinesInOrder(old(lines)) ==> forall t ::
        Alike(ValueAt(Keeping(Merged(Groups(old(lines)), DifficultyOf)), t, DefaultDifficulty),
              ValueAt(difficultyPoints, t, DefaultDifficulty))
    {
      HoldsAll(Timing(), lines, TimingOf);
      HoldsAll(Difficulty(), lines, DifficultyOf);
      HoldsAll(Effect(), lines, EffectOf);
      LooksUpAll(lines);
      hide Holds, Groups, Merged, Skipping, Keeping, ValueAt, DifficultyRedundant, TimesOf, OvertakenRecur, LinesInOrder;
      FlushPendingPoints();
    }
  }

  /** What the lists look up, for lines in which overtaken times recur. */
  lemma LooksUpAll(lines: seq<Line>)
    ensures var effects := Merged(Groups(lines), EffectOf);
      OvertakenRecur(TimesOf(effects)) || LinesInOrder(lines) ==> forall t ::
        ValueAt(Skipping(effects, EffectRedundant, DefaultKiai), t, DefaultKiai) == ValueAt(Keeping(effects), t, DefaultKiai)
    ensures var difficulties := Merged(Groups(lines), DifficultyOf);
      OvertakenRecur(TimesOf(difficulties)) || LinesInOrder(lines) ==> forall t ::
        Alike(ValueAt(Keeping(difficulties), t, DefaultDifficulty),
              ValueAt(Skipping(difficulties, DifficultyRedundant, DefaultDifficulty), t, DefaultDifficulty))
  {
    var effects, difficulties := Merged(Groups(lines), EffectOf), Merged(Groups(lines), DifficultyOf);
    if LinesInOrder(lines) {
      forall group: seq<Line>
        ensures IsOfGroup(DifficultyOf, group) && IsOfGroup(EffectOf, group)
      {
        DecidedOfGroup(group);
      }
      MergedInOrder(lines, EffectOf);
      MergedInOrder(lines, DifficultyOf);
      NothingOvertaken(effects);
      NothingOvertaken(difficulties);
    }
    hide *;
    if OvertakenRecur(TimesOf(effects)) {
      EffectsKept(effects);
    }
    if OvertakenRecur(TimesOf(difficulties)) {
      VelocitiesKept(difficulties);
    }
  }

  lemma VelocitiesKept(difficulties: seq<Point<DifficultyValue>>)
    requires OvertakenRecur(TimesOf(difficulties))
    ensures forall t :: Alike(ValueAt(Keeping(difficulties), t, DefaultDifficulty),
                            ValueAt(Skipping(difficulties, DifficultyRedundant, DefaultDifficulty), t, DefaultDifficulty))
  {
    VelocityIsKeptExactlyIf(TimesOf(difficulties));
    assert VelocityIsKept(difficulties);
  }

  lemma EffectsKept(effects: seq<Point<bool>>)
    requires OvertakenRecur(TimesOf(effects))
    ensures forall t :: ValueAt(Skipping(effects, EffectRedundant, DefaultKiai), t, DefaultKiai) == ValueAt(Keeping(effects), t, DefaultKiai)
  {
    KiaiIsKeptExactlyIf(TimesOf(effects));
    assert KiaiIsKept(effects);
  }
}

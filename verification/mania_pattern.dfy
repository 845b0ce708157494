/** osu!mania patterns: notes in columns, with the set of their columns as bits. */
module ManiaPattern {
  import opened Rounding

  // ---------- columns and positions ----------

  /** `column_to_pos` */
  function ColumnToPos(column: nat, total: nat): int
    requires total > 0
  {
    Ceil(column as real * (512.0 / total as real))
  }

  /** `ManiaObject::column` */
  function Column(x: real, total: nat): (c: nat)
    requires total > 0
    ensures c < total
  {
    var floored := (x / (512.0 / total as real)).Floor;
    var capped := if floored < total - 1 then floored else total - 1;
    if capped < 0 then 0 else capped
  }

  /** The columns are equally wide parts of 512 osu!pixels; what lies outside is in the outermost. */
  lemma ColumnIs(x: real, total: nat)
    requires total > 0
    ensures var c := Column(x, total);
      && (x < 0.0 ==> c == 0) && (x >= 512.0 ==> c == total - 1)
      && (0.0 <= x < 512.0 ==> c as real * 512.0 <= x * total as real < (c + 1) as real * 512.0)
  {
    hide Column;
    ColumnOfQuotient(x, total);
    PartOf(x, 512.0 / total as real, total as real);
  }

  lemma ColumnOfQuotient(x: real, total: nat)
    requires total > 0
    ensures var q := x / (512.0 / total as real);
      && (q < 0.0 ==> Column(x, total) == 0) && (q >= total as real ==> Column(x, total) == total - 1)
      && (0.0 <= q < total as real ==> Column(x, total) as real <= q < (Column(x, total) + 1) as real)
  {}

  lemma PartOf(x: real, width: real, total: real)
    requires total > 0.0 && width == 512.0 / total && width > 0.0
    ensures x / width * 512.0 == x * total
  {
    var q := x / width;
    assert q * width == x && width * total == 512.0;
    assert q * 512.0 == q * (width * total) == q * width * total;
  }

  lemma QuotientBetween(x: real, d: real, c: nat)
    requires d >= 1.0 && c as real * d <= x < c as real * d + 1.0
    ensures c as real <= x / d < (c + 1) as real
  {
    var q := x / d;
    assert q * d == x && (c + 1) as real * d == c as real * d + d;
    if q < c as real {
      Smaller(q, c as real, d);
    } else if q >= (c + 1) as real {
      NotSmaller(q, (c + 1) as real, d);
    }
  }

  lemma Smaller(a: real, b: real, d: real)
    requires a < b && d > 0.0
    ensures a * d < b * d
  {
    assert (b - a) * d > 0.0;
    assert (b - a) * d == b * d - a * d;
  }

  lemma NotSmaller(a: real, b: real, d: real)
    requires a >= b && d > 0.0
    ensures a * d >= b * d
  {
    assert (a - b) * d >= 0.0;
    assert (a - b) * d == a * d - b * d;
  }

  /** The column comes back from the position. */
  lemma PosOfColumn(column: nat, total: nat)
    requires column < total <= 512
    ensures Column(ColumnToPos(column, total) as real, total) == column
  {
    var d := 512.0 / total as real;
    assert d * total as real == 512.0;
    if d < 1.0 {
      Smaller(d, 1.0, total as real);
    }
    QuotientBetween(ColumnToPos(column, total) as real, d, column);
  }

  // ---------- the bits ----------

  type Bits = bv16

  /** `1 << column` */
  function Bit(column: nat): Bits
    requires column < 16
  {
    if column < 8 then
      if column < 4 then
        if column < 2 then (if column == 0 then 0x0001 else 0x0002)
        else if column == 2 then 0x0004 else 0x0008
      else if column < 6 then (if column == 4 then 0x0010 else 0x0020)
      else if column == 6 then 0x0040 else 0x0080
    else if column < 12 then
      if column < 10 then (if column == 8 then 0x0100 else 0x0200)
      else if column == 10 then 0x0400 else 0x0800
    else if column < 14 then (if column == 12 then 0x1000 else 0x2000)
    else if column == 14 then 0x4000 else 0x8000
  }

  /** Each bit is the one before shifted by one. */
  lemma BitShifts(c: nat)
    requires c < 16
    ensures Bit(c) == if c == 0 then 1 else Bit(c - 1) << 1
  {}

  function And(a: Bits, b: Bits): Bits {
    a & b
  }

  function Or(a: Bits, b: Bits): Bits {
    a | b
  }

  predicate Tests(a: Bits, m: Bits) {
    And(a, m) != 0
  }

  lemma BitsApart(c: nat, d: nat)
    requires c < 16 && d < 16
    ensures Tests(Bit(c), Bit(d)) <==> c == d
  {}

  lemma AndOverOr(a: Bits, b: Bits, m: Bits)
    ensures And(Or(a, b), m) == Or(And(a, m), And(b, m))
  {}

  lemma OrIsZero(a: Bits, b: Bits)
    ensures Or(a, b) == 0 <==> a == 0 && b == 0
  {}

  lemma TestsOr(a: Bits, b: Bits, m: Bits)
    ensures Tests(Or(a, b), m) <==> Tests(a, m) || Tests(b, m)
  {
    hide And, Or;
    AndOverOr(a, b, m);
    OrIsZero(And(a, m), And(b, m));
  }

  lemma TestsZero(m: Bits)
    ensures !Tests(0, m)
  {}

  datatype ContainedColumns = ContainedColumns(bits: Bits)

  function Inserted(cs: ContainedColumns, column: nat): ContainedColumns
    requires column < 16
  {
    ContainedColumns(Or(cs.bits, Bit(column)))
  }

  function United(cs: ContainedColumns, ds: ContainedColumns): ContainedColumns {
    ContainedColumns(Or(cs.bits, ds.bits))
  }

  const NoColumns := ContainedColumns(0)

  predicate Contains(cs: ContainedColumns, column: nat) {
    column < 16 && Tests(cs.bits, Bit(column))
  }

  lemma ContainsInserted(cs: ContainedColumns, c: nat, d: nat)
    requires c < 16
    ensures Contains(Inserted(cs, c), d) <==> Contains(cs, d) || d == c
  {
    hide Bit, Tests, Or;
    if d < 16 {
      BitsApart(c, d);
      TestsOr(cs.bits, Bit(c), Bit(d));
    }
  }

  lemma ContainsUnited(cs: ContainedColumns, ds: ContainedColumns, d: nat)
    ensures Contains(United(cs, ds), d) <==> Contains(cs, d) || Contains(ds, d)
  {
    hide Bit, Tests, Or;
    if d < 16 {
      TestsOr(cs.bits, ds.bits, Bit(d));
    }
  }

  ghost function ColumnsBelow(cs: ContainedColumns, n: nat): set<nat> {
    set c: nat | c < n && Contains(cs, c)
  }

  ghost function Columns(cs: ContainedColumns): set<nat> {
    ColumnsBelow(cs, 16)
  }

  /** `count_ones`, of the lowest `n` bits */
  function CountOnes(cs: ContainedColumns, n: nat): nat
    requires n <= 16
  {
    if n == 0 then 0 else CountOnes(cs, n - 1) + if Contains(cs, n - 1) then 1 else 0
  }

  lemma {:induction false} OnesAreColumns(cs: ContainedColumns, n: nat)
    requires n <= 16
    ensures CountOnes(cs, n) == |ColumnsBelow(cs, n)|
  {
    hide Contains, ColumnsBelow;
    if n > 0 {
      OnesAreColumns(cs, n - 1);
      OneColumnMore(cs, n - 1);
    } else {
      NoColumnBelow(cs);
    }
  }

  lemma NoColumnBelow(cs: ContainedColumns)
    ensures ColumnsBelow(cs, 0) == {}
  {
    hide Contains;
  }

  lemma OneColumnMore(cs: ContainedColumns, n: nat)
    ensures n !in ColumnsBelow(cs, n)
    ensures ColumnsBelow(cs, n + 1) == if Contains(cs, n) then ColumnsBelow(cs, n) + {n} else ColumnsBelow(cs, n)
  {
    hide Contains;
    forall c: nat
      ensures c in ColumnsBelow(cs, n + 1) <==> c in ColumnsBelow(cs, n) || (c == n && Contains(cs, n))
    {}
  }

  lemma NoneContained()
    ensures Columns(NoColumns) == {}
  {
    hide Tests, Bit;
    forall c: nat | c < 16
      ensures !Contains(NoColumns, c)
    {
      TestsZero(Bit(c));
    }
  }

  lemma ColumnsInserted(cs: ContainedColumns, c: nat)
    requires c < 16
    ensures Columns(Inserted(cs, c)) == Columns(cs) + {c}
  {
    hide Contains, Inserted;
    forall d: nat
      ensures d in Columns(Inserted(cs, c)) <==> d in Columns(cs) + {c}
    {
      ContainsInserted(cs, c, d);
    }
  }

  lemma ColumnsUnited(cs: ContainedColumns, ds: ContainedColumns)
    ensures Columns(United(cs, ds)) == Columns(cs) + Columns(ds)
  {
    hide Contains, United;
    forall d: nat
      ensures d in Columns(United(cs, ds)) <==> d in Columns(cs) + Columns(ds)
    {
      ContainsUnited(cs, ds, d);
    }
  }

  // ---------- patterns ----------

  datatype Kind = Circle | Hold(duration: int)

  datatype HitObject = HitObject(x: int, y: int, startTime: int, kind: Kind)

  /** The columns the positions stand for. */
  ghost function PosColumns(objects: seq<HitObject>, total: nat): set<nat>
    requires total > 0
  {
    set k | 0 <= k < |objects| :: Column(objects[k].x as real, total)
  }

  lemma PosColumnsAppend(objects: seq<HitObject>, more: seq<HitObject>, total: nat)
    requires total > 0
    ensures PosColumns(objects + more, total) == PosColumns(objects, total) + PosColumns(more, total)
  {
    var all := objects + more;
    forall c
      ensures c in PosColumns(all, total) <==> c in PosColumns(objects, total) + PosColumns(more, total)
    {
      if c in PosColumns(objects, total) {
        var k :| 0 <= k < |objects| && Column(objects[k].x as real, total) == c;
        assert all[k] == objects[k];
      }
      if c in PosColumns(more, total) {
        var k :| 0 <= k < |more| && Column(more[k].x as real, total) == c;
        assert all[|objects| + k] == more[k];
      }
    }
  }

  /** The bits are the columns of the positions. */
  ghost predicate Matches(objects: seq<HitObject>, cs: ContainedColumns, total: nat) {
    0 < total <= 16 && Columns(cs) == PosColumns(objects, total)
  }

  lemma MatchesBounds(objects: seq<HitObject>, cs: ContainedColumns, total: nat)
    requires Matches(objects, cs, total)
    ensures 0 < total <= 16
  {}

  lemma MatchesNothing(total: nat)
    requires 0 < total <= 16
    ensures Matches([], NoColumns, total)
  {
    NoneContained();
  }

  lemma MatchesOneMore(objects: seq<HitObject>, cs: ContainedColumns, total: nat, h: HitObject, c: nat)
    requires Matches(objects, cs, total) && c < total <= 16 && Column(h.x as real, total) == c
    ensures Matches(objects + [h], Inserted(cs, c), total)
    ensures Columns(Inserted(cs, c)) == Columns(cs) + {c}
  {
    hide Columns, Inserted, Contains, Column;
    ColumnsInserted(cs, c);
    PosColumnsAppend(objects, [h], total);
    assert PosColumns([h], total) == {c} by {
      assert [h][0] == h;
    }
  }

  lemma MatchesTogether(objects: seq<HitObject>, cs: ContainedColumns, more: seq<HitObject>, ds: ContainedColumns, total: nat)
    requires Matches(objects, cs, total) && Matches(more, ds, total)
    ensures Matches(objects + more, United(cs, ds), total)
    ensures Columns(United(cs, ds)) == Columns(cs) + Columns(ds)
  {
    hide Columns, United;
    ColumnsUnited(cs, ds);
    PosColumnsAppend(objects, more, total);
  }

  function Note(total: nat, column: nat, startTime: int, endTime: int): HitObject
    requires total > 0
  {
    var pos := ColumnToPos(column, total);
    HitObject(pos, pos, startTime, if startTime == endTime then Circle else Hold(endTime - startTime))
  }

  /** A note is in its column, and ends at its end time: it is held if that is another one. */
  lemma NoteIs(total: nat, column: nat, startTime: int, endTime: int)
    requires column < total <= 512
    ensures var note := Note(total, column, startTime, endTime);
      && note.startTime == startTime && note.x == note.y && Column(note.x as real, total) == column
      && match note.kind
         case Circle => endTime == startTime
         case Hold(duration) => endTime != startTime && startTime + duration == endTime
  {
    PosOfColumn(column, total);
    hide Column, ColumnToPos;
  }

  class Pattern {
    var hitObjects: seq<HitObject>
    var containedColumns: ContainedColumns

    ghost predicate Valid(total: nat)
      reads this
    {
      Matches(hitObjects, containedColumns, total)
    }

    constructor ()
      ensures hitObjects == [] && containedColumns == NoColumns && Columns(containedColumns) == {}
      ensures forall total: nat | 0 < total <= 16 :: Valid(total)
    {
      hitObjects, containedColumns := [], NoColumns;
      NoneContained();
    }

    /** `add_note` with equal times, and `add_slider_note` */
    method AddNote(total: nat, column: nat, startTime: int, endTime: int)
      requires Valid(total) && column < total <= 16
      modifies this
      ensures Valid(total) && hitObjects == old(hitObjects) + [Note(total, column, startTime, endTime)]
      ensures Columns(containedColumns) == old(Columns(containedColumns)) + {column}
      ensures Column(Note(total, column, startTime, endTime).x as real, total) == column
    {
      PosOfColumn(column, total);
      hide Matches, Columns, Column, ColumnToPos;
      AddObject(total, Note(total, column, startTime, endTime), column);
    }

    method AddObject(total: nat, obj: HitObject, column: nat)
      requires Valid(total) && column < total <= 16 && Column(obj.x as real, total) == column
      modifies this
      ensures Valid(total) && hitObjects == old(hitObjects) + [obj]
      ensures Columns(containedColumns) == old(Columns(containedColumns)) + {column}
    {
      hide Matches, Columns, Inserted, Column;
      MatchesOneMore(hitObjects, containedColumns, total, obj, column);
      hitObjects := hitObjects + [obj];
      containedColumns := Inserted(containedColumns, column);
    }

    function ColumnWithObjs(): (n: nat)
      reads this
      ensures n == |Columns(containedColumns)|
    {
      OnesAreColumns(containedColumns, 16);
      CountOnes(containedColumns, 16)
    }

    method Append(total: nat, other: Pattern)
      requires Valid(total) && other.Valid(total) && other != this
      modifies this, other
      ensures Valid(total) && hitObjects == old(hitObjects) + old(other.hitObjects)
      ensures Columns(containedColumns) == old(Columns(containedColumns)) + old(Columns(other.containedColumns))
      ensures other.hitObjects == [] && other.containedColumns == NoColumns && other.Valid(total)
    {
      hide Matches, Columns, United;
      MatchesTogether(hitObjects, containedColumns, other.hitObjects, other.containedColumns, total);
      MatchesBounds(hitObjects, containedColumns, total);
      MatchesNothing(total);
      hitObjects := hitObjects + other.hitObjects;
      other.hitObjects := [];
      containedColumns := United(containedColumns, other.containedColumns);
      other.containedColumns := NoColumns;
    }
  }

  // ---------- free columns ----------

  ghost function Range(lower: nat, upper: nat): (r: set<nat>)
    requires lower <= upper
    ensures forall c :: c in r <==> lower <= c < upper
    ensures |r| == upper - lower
    decreases upper
  {
    if lower == upper then {} else Range(lower, upper - 1) + {upper - 1}
  }

  /** With fewer taken columns than there are, one is free. */
  lemma SomeColumnFree(taken: set<nat>, lower: nat, upper: nat) returns (c: nat)
    requires lower <= upper && |taken| < upper - lower
    ensures lower <= c < upper && c !in taken
  {
    var r := Range(lower, upper);
    if r <= taken {
      SubsetIsSmaller(r, taken);
      assert false;
    }
    c :| c in r && c !in taken;
  }

  lemma SubsetIsSmaller(a: set<nat>, b: set<nat>)
    requires a <= b
    ensures |a| <= |b|
  {
    assert |b - a| == |b| - |a|;
  }

  lemma UnionIsSmaller(a: set<nat>, b: set<nat>)
    ensures |a + b| <= |a| + |b|
  {
    assert |a + b| == |a| + |b| - |a * b|;
  }
}

/** osu!mania's difficulty, for a prefix of the map at once or object by object. The strain
    skill looks at the current and the previous difficulty object only; what it does with them
    is any function. */
module ManiaGradual {
  import opened Wrappers
  import opened GradualCalls
  import opened Rounding

  /** A converted object: circles end where they start. */
  datatype ManiaObject = ManiaObject(isCircle: bool, startTime: real, endTime: real, column: nat)

  datatype ManiaDifficultyObject =
    ManiaDifficultyObject(idx: nat, baseColumn: nat, deltaTime: real, startTime: real, endTime: real)

  datatype NoteState = NoteState(currCombo: nat, nHoldNotes: nat)

  type Strain<!S> = (S, ManiaDifficultyObject, Option<ManiaDifficultyObject>) -> S

  function DifficultyObject(base: ManiaObject, last: ManiaObject, clockRate: real, idx: nat): ManiaDifficultyObject
    requires clockRate > 0.0
  {
    ManiaDifficultyObject(idx, base.column, (base.startTime - last.startTime) / clockRate,
                          base.startTime / clockRate, base.endTime / clockRate)
  }

  function DifficultyObjects(objects: seq<ManiaObject>, clockRate: real): (r: seq<ManiaDifficultyObject>)
    requires clockRate > 0.0
    ensures |r| == if objects == [] then 0 else |objects| - 1
  {
    if objects == [] then []
    else
      seq(|objects| - 1, i requires 0 <= i < |objects| - 1 => DifficultyObject(objects[i + 1], objects[i], clockRate, i))
  }

  lemma DifficultyObjectAt(objects: seq<ManiaObject>, clockRate: real, i: nat)
    requires clockRate > 0.0 && i + 1 < |objects|
    ensures DifficultyObjects(objects, clockRate)[i] == DifficultyObject(objects[i + 1], objects[i], clockRate, i)
  {}

  /** A shorter map has a prefix of the difficulty objects. */
  lemma PrefixOfDifficultyObjects(objects: seq<ManiaObject>, k: nat, clockRate: real)
    requires clockRate > 0.0 && 0 < k <= |objects|
    ensures DifficultyObjects(objects[..k], clockRate) == DifficultyObjects(objects, clockRate)[..k - 1]
  {}

  method CreateDifficultyObjects(clockRate: real, objects: seq<ManiaObject>) returns (r: seq<ManiaDifficultyObject>)
    requires clockRate > 0.0
    ensures r == DifficultyObjects(objects, clockRate) && Describe(r, objects, clockRate)
  {
    DifficultyObjectsDescribe(objects, clockRate);
    if |objects| == 0 {
      return [];
    }
    hide DifficultyObject, DifficultyObjects, Describe;
    var last := objects[0];
    r := [];
    for i := 0 to |objects| - 1
      invariant last == objects[i] && r == DifficultyObjects(objects, clockRate)[..i]
    {
      DifficultyObjectAt(objects, clockRate, i);
      OneLonger(DifficultyObjects(objects, clockRate), i);
      r := r + [DifficultyObject(objects[i + 1], last, clockRate, i)];
      last := objects[i + 1];
    }
  }

  // ---------- what difficulty objects are ----------

  /** Scaled back, `d` has the times of object `i + 1`, and the time since the one before it. */
  predicate Describes(d: ManiaDifficultyObject, objects: seq<ManiaObject>, i: nat, clockRate: real)
    requires i + 1 < |objects|
  {
    && d.deltaTime * clockRate == objects[i + 1].startTime - objects[i].startTime
    && d.startTime * clockRate == objects[i + 1].startTime && d.endTime * clockRate == objects[i + 1].endTime
    && d.baseColumn == objects[i + 1].column && d.idx == i
  }

  predicate Describe(diffs: seq<ManiaDifficultyObject>, objects: seq<ManiaObject>, clockRate: real) {
    && |diffs| == (if objects == [] then 0 else |objects| - 1)
    && forall i | 0 <= i < |diffs| :: Describes(diffs[i], objects, i, clockRate)
  }

  lemma DifficultyObjectsDescribe(objects: seq<ManiaObject>, clockRate: real)
    requires clockRate > 0.0
    ensures Describe(DifficultyObjects(objects, clockRate), objects, clockRate)
  {
    var diffs := DifficultyObjects(objects, clockRate);
    forall i | 0 <= i < |diffs|
      ensures Describes(diffs[i], objects, i, clockRate)
    {
      DifficultyObjectAt(objects, clockRate, i);
      DifficultyObjectDescribes(objects, i, clockRate);
    }
  }

  lemma DifficultyObjectDescribes(objects: seq<ManiaObject>, i: nat, clockRate: real)
    requires clockRate > 0.0 && i + 1 < |objects|
    ensures Describes(DifficultyObject(objects[i + 1], objects[i], clockRate, i), objects, i, clockRate)
  {
    Cancels(objects[i + 1].startTime - objects[i].startTime, clockRate);
    Cancels(objects[i + 1].startTime, clockRate);
    Cancels(objects[i + 1].endTime, clockRate);
  }

  function DeltaSum(diffs: seq<ManiaDifficultyObject>, n: nat): real
    requires n <= |diffs|
  {
    if n == 0 then 0.0 else DeltaSum(diffs, n - 1) + diffs[n - 1].deltaTime
  }

  /** The deltas add up to the start times. */
  lemma {:induction false} StartTimesAddUp(diffs: seq<ManiaDifficultyObject>, objects: seq<ManiaObject>, clockRate: real, i: nat)
    requires clockRate > 0.0 && Describe(diffs, objects, clockRate) && i < |diffs|
    ensures diffs[i].startTime == objects[0].startTime / clockRate + DeltaSum(diffs, i + 1)
  {
    hide Describes;
    if i == 0 {
      DeltaLeadsTo(diffs, objects, clockRate, 0, objects[0].startTime / clockRate);
      assert DeltaSum(diffs, 0) == 0.0;
    } else {
      StartTimesAddUp(diffs, objects, clockRate, i - 1);
      assert Describes(diffs[i - 1], objects, i - 1, clockRate);
      StartOf(diffs[i - 1], objects, i - 1, clockRate);
      DeltaLeadsTo(diffs, objects, clockRate, i, diffs[i - 1].startTime);
    }
  }

  lemma StartOf(d: ManiaDifficultyObject, objects: seq<ManiaObject>, i: nat, clockRate: real)
    requires clockRate > 0.0 && i + 1 < |objects| && Describes(d, objects, i, clockRate)
    ensures d.startTime == objects[i + 1].startTime / clockRate
  {
    Cancels(objects[i + 1].startTime, clockRate);
    SameRate(d.startTime, objects[i + 1].startTime / clockRate, clockRate);
  }

  lemma DeltaLeadsTo(diffs: seq<ManiaDifficultyObject>, objects: seq<ManiaObject>, clockRate: real, i: nat, before: real)
    requires clockRate > 0.0 && Describe(diffs, objects, clockRate) && i < |diffs|
    requires before == objects[i].startTime / clockRate
    ensures diffs[i].startTime == before + diffs[i].deltaTime
  {
    assert Describes(diffs[i], objects, i, clockRate);
    Cancels(objects[i].startTime, clockRate);
    assert (before + diffs[i].deltaTime) * clockRate == before * clockRate + diffs[i].deltaTime * clockRate;
    SameRate(diffs[i].startTime, before + diffs[i].deltaTime, clockRate);
  }

  lemma SameRate(a: real, b: real, rate: real)
    requires rate > 0.0 && a * rate == b * rate
    ensures a == b
  {
    if a < b {
      StrictScale(a, b, rate);
    } else if b < a {
      StrictScale(b, a, rate);
    }
  }

  /** The skill sees, besides an object, the one just before it. */
  lemma PreviousIsBefore(diffs: seq<ManiaDifficultyObject>, objects: seq<ManiaObject>, clockRate: real, i: nat)
    requires Describe(diffs, objects, clockRate) && i < |diffs|
    ensures Previous(diffs, i) == None <==> diffs[i].idx == 0
    ensures Previous(diffs, i).Some? ==> Previous(diffs, i).value.idx + 1 == diffs[i].idx
  {
    assert Describes(diffs[i], objects, i, clockRate);
    if i > 0 {
      assert Describes(diffs[i - 1], objects, i - 1, clockRate);
    }
  }

  // ---------- counting ----------

  /** `increment_combo_raw`, on the times of the object. */
  function Incremented(isCircle: bool, startTime: real, endTime: real, s: NoteState): NoteState {
    if isCircle then NoteState(s.currCombo + 1, s.nHoldNotes)
    else NoteState(s.currCombo + 1 + FloorU32((endTime - startTime) / 100.0), s.nHoldNotes + 1)
  }

  /** `increment_combo`, on the times of the difficulty object. */
  function IncrementedBy(isCircle: bool, curr: ManiaDifficultyObject, s: NoteState, clockRate: real): NoteState {
    Incremented(isCircle, curr.startTime * clockRate, curr.endTime * clockRate, s)
  }

  /** Scaling the times with the clock rate and back changes nothing. */
  lemma RateCancels(base: ManiaObject, last: ManiaObject, clockRate: real, idx: nat, s: NoteState)
    requires clockRate > 0.0
    ensures IncrementedBy(base.isCircle, DifficultyObject(base, last, clockRate, idx), s, clockRate)
      == Incremented(base.isCircle, base.startTime, base.endTime, s)
  {
    Cancels(base.startTime, clockRate);
    Cancels(base.endTime, clockRate);
    hide FloorU32;
  }

  lemma Cancels(x: real, rate: real)
    requires rate > 0.0
    ensures (x / rate) * rate == x
  {}

  function Counted(objects: seq<ManiaObject>): (s: NoteState) {
    if objects == [] then NoteState(0, 0)
    else
      var last := objects[|objects| - 1];
      Incremented(last.isCircle, last.startTime, last.endTime, Counted(objects[..|objects| - 1]))
  }

  /** Hold notes are counted, and every object adds itself and one per full tenth of a second it
      is held to the combo. */
  lemma {:induction false} CountsAreNumbers(objects: seq<ManiaObject>)
    ensures Counted(objects).nHoldNotes == |HoldNotes(objects)|
    ensures Counted(objects).currCombo == |objects| + HeldTicks(objects)
  {
    hide FloorU32;
    if objects != [] {
      var last := |objects| - 1;
      CountsAreNumbers(objects[..last]);
      HoldNotesGrow(objects);
    }
  }

  lemma HoldNotesGrow(objects: seq<ManiaObject>)
    requires objects != []
    ensures var last := |objects| - 1;
      |HoldNotes(objects)| == |HoldNotes(objects[..last])| + if objects[last].isCircle then 0 else 1
  {
    var last := |objects| - 1;
    assert HoldNotes(objects) == HoldNotes(objects[..last]) + if objects[last].isCircle then {} else {last};
  }

  ghost function HoldNotes(objects: seq<ManiaObject>): set<nat> {
    set k | 0 <= k < |objects| && !objects[k].isCircle
  }

  function HeldTicks(objects: seq<ManiaObject>): nat {
    if objects == [] then 0
    else
      var last := objects[|objects| - 1];
      HeldTicks(objects[..|objects| - 1]) +
      if last.isCircle then 0 else FloorU32((last.endTime - last.startTime) / 100.0)
  }

  function Previous(diffs: seq<ManiaDifficultyObject>, i: nat): Option<ManiaDifficultyObject>
    requires i < |diffs|
  {
    if i == 0 then None else Some(diffs[i - 1])
  }

  function Processed<S>(process: Strain<S>, strain: S, diffs: seq<ManiaDifficultyObject>, n: nat): S
    requires n <= |diffs|
  {
    if n == 0 then strain
    else process(Processed(process, strain, diffs, n - 1), diffs[n - 1], Previous(diffs, n - 1))
  }

  /** Difficulty objects further on do not matter. */
  lemma {:induction false} ProcessedPrefix<S>(process: Strain<S>, strain: S, diffs: seq<ManiaDifficultyObject>, n: nat, m: nat)
    requires n <= m <= |diffs|
    ensures Processed(process, strain, diffs[..m], n) == Processed(process, strain, diffs, n)
  {
    if n > 0 {
      ProcessedPrefix(process, strain, diffs, n - 1, m);
    }
  }

  datatype Result<S> = Result(strain: S, maxCombo: nat, nObjects: nat, nHoldNotes: nat)

  /** The batch calculation of the first `k` objects. */
  function Batch<S>(process: Strain<S>, strain: S, objects: seq<ManiaObject>, k: nat, clockRate: real): Result<S>
    requires clockRate > 0.0
  {
    var taken := objects[..Min(k, |objects|)];
    var diffs := DifficultyObjects(taken, clockRate);
    Result(Processed(process, strain, diffs, |diffs|), Counted(taken).currCombo, |taken|, Counted(taken).nHoldNotes)
  }

  datatype Fed = Fed(curr: ManiaDifficultyObject, before: Option<ManiaDifficultyObject>)

  /** A skill that does nothing but note what it is given. */
  function Noting(): Strain<seq<Fed>> {
    (noted, curr, before) => noted + [Fed(curr, before)]
  }

  lemma {:induction false} NotesAll(diffs: seq<ManiaDifficultyObject>, n: nat)
    requires n <= |diffs|
    ensures Processed(Noting(), [], diffs, n) == seq(n, i requires 0 <= i < n => Fed(diffs[i], Previous(diffs, i)))
  {
    if n > 0 {
      NotesAll(diffs, n - 1);
    }
  }

  /** What the skill is given by the batch calculation: every passed object but the first, in
      order, each with the time since the one before it, and with what was given before. */
  lemma FedInOrder(objects: seq<ManiaObject>, k: nat, clockRate: real)
    requires clockRate > 0.0
    ensures var fed := Batch(Noting(), [], objects, k, clockRate).strain;
      var passed := if k < |objects| then k else |objects|;
      && |fed| == (if passed == 0 then 0 else passed - 1)
      && forall i | 0 <= i < |fed| ::
        && Describes(fed[i].curr, objects, i, clockRate)
        && fed[i].before == if i == 0 then None else Some(fed[i - 1].curr)
  {
    hide Processed, Describes, DifficultyObjects, Counted, Noting;
    var taken := objects[..Min(k, |objects|)];
    var diffs := DifficultyObjects(taken, clockRate);
    var fed: seq<Fed> := Processed(Noting(), [], diffs, |diffs|);
    assert Batch(Noting(), [], objects, k, clockRate).strain == fed;
    hide Batch;
    DifficultyObjectsDescribe(taken, clockRate);
    NotesAll(diffs, |diffs|);
    forall i | 0 <= i < |diffs|
      ensures Describes(diffs[i], objects, i, clockRate)
    {
      DescribesLonger(diffs[i], objects, |taken|, i, clockRate);
    }
  }

  lemma DescribesLonger(d: ManiaDifficultyObject, objects: seq<ManiaObject>, n: nat, i: nat, clockRate: real)
    requires i + 1 < n <= |objects| && Describes(d, objects[..n], i, clockRate)
    ensures Describes(d, objects, i, clockRate)
  {}

  method Calculate<S>(process: Strain<S>, initial: S, objects: seq<ManiaObject>, take: nat, clockRate: real)
      returns (r: Result<S>)
    requires clockRate > 0.0
    ensures r == Batch(process, initial, objects, take, clockRate)
  {
    var n := Min(take, |objects|);
    var params := NoteState(0, 0);
    for k := 0 to n
      invariant params == Counted(objects[..k])
    {
      assert objects[..k + 1][..k] == objects[..k];
      params := Incremented(objects[k].isCircle, objects[k].startTime, objects[k].endTime, params);
    }
    var diffs := CreateDifficultyObjects(clockRate, objects[..n]);
    var strain := initial;
    for i := 0 to |diffs|
      invariant strain == Processed(process, initial, diffs, i)
    {
      strain := process(strain, diffs[i], Previous(diffs, i));
    }
    r := Result(strain, params.currCombo, n, params.nHoldNotes);
  }

  /** What a gradual calculation for `objects` holds after `idx` items. */
  ghost predicate HoldsItem<S>(process: Strain<S>, initial: S, objects: seq<ManiaObject>, diffs: seq<ManiaDifficultyObject>,
                               clockRate: real, idx: nat, note: NoteState, strain: S) {
    && clockRate > 0.0
    && diffs <= DifficultyObjects(objects, clockRate)
    && idx <= (if objects == [] then 0 else |diffs| + 1)
    && (objects != [] ==> |diffs| < |objects|)
    && note == Counted(objects[..Min(if idx == 0 then 1 else idx, |objects|)])
    && strain == Processed(process, initial, diffs, if idx == 0 then 0 else idx - 1)
  }

  lemma ItemIsBatch<S>(process: Strain<S>, initial: S, objects: seq<ManiaObject>, diffs: seq<ManiaDifficultyObject>,
                       clockRate: real, idx: nat, note: NoteState, strain: S)
    requires HoldsItem(process, initial, objects, diffs, clockRate, idx, note, strain) && 0 < idx
    ensures Result(strain, note.currCombo, idx, note.nHoldNotes) == Batch(process, initial, objects, idx, clockRate)
  {
    hide DifficultyObjects;
    var all := DifficultyObjects(objects, clockRate);
    PrefixOfDifficultyObjects(objects, idx, clockRate);
    ProcessedPrefix(process, initial, all, idx - 1, idx - 1);
    ProcessedPrefix(process, initial, all, idx - 1, |diffs|);
    assert diffs == all[..|diffs|];
    assert Min(idx, |objects|) == idx;
  }

  lemma HoldsBounds<S>(process: Strain<S>, initial: S, objects: seq<ManiaObject>, diffs: seq<ManiaDifficultyObject>,
                       clockRate: real, idx: nat, note: NoteState, strain: S)
    requires HoldsItem(process, initial, objects, diffs, clockRate, idx, note, strain)
    ensures clockRate > 0.0 && idx <= (if objects == [] then 0 else |diffs| + 1) && (objects != [] ==> |diffs| < |objects|)
    ensures objects == [] ==> diffs == []
  {}

  /** The first item is held from the start. */
  lemma HoldsFirst<S>(process: Strain<S>, initial: S, objects: seq<ManiaObject>, diffs: seq<ManiaDifficultyObject>,
                      clockRate: real, note: NoteState, strain: S)
    requires HoldsItem(process, initial, objects, diffs, clockRate, 0, note, strain) && objects != []
    ensures HoldsItem(process, initial, objects, diffs, clockRate, 1, note, strain)
  {}

  lemma HoldsNextItem<S>(process: Strain<S>, initial: S, objects: seq<ManiaObject>, diffs: seq<ManiaDifficultyObject>,
                         clockRate: real, idx: nat, note: NoteState, strain: S)
    requires HoldsItem(process, initial, objects, diffs, clockRate, idx, note, strain) && 0 < idx <= |diffs|
    ensures idx < |objects| && HoldsItem(process, initial, objects, diffs, clockRate, idx + 1,
              IncrementedBy(objects[idx].isCircle, diffs[idx - 1], note, clockRate),
              process(strain, diffs[idx - 1], Previous(diffs, idx - 1)))
  {
    hide Incremented;
    assert objects[..idx + 1][..idx] == objects[..idx];
    assert diffs[idx - 1] == DifficultyObject(objects[idx], objects[idx - 1], clockRate, idx - 1);
    RateCancels(objects[idx], objects[idx - 1], clockRate, idx - 1, note);
    hide IncrementedBy, DifficultyObjects, DifficultyObject;
  }

  class ManiaGradualDifficulty<S> {
    const process: Strain<S>
    const clockRate: real
    ghost const initial: S
    ghost const objects: seq<ManiaObject>
    const objectsIsCircle: seq<bool>
    const diffObjects: seq<ManiaDifficultyObject>
    var idx: nat
    var strain: S
    var noteState: NoteState

    ghost function Items(): nat {
      if objects == [] then 0 else |diffObjects| + 1
    }

    ghost predicate Valid()
      reads this
    {
      && |objectsIsCircle| == |objects|
      && (forall k | 0 <= k < |objects| :: objectsIsCircle[k] == objects[k].isCircle)
      && HoldsItem(process, initial, objects, diffObjects, clockRate, idx, noteState, strain)
    }

    ghost function BatchOf(k: nat): Result<S>
      requires clockRate > 0.0
    {
      Batch(process, initial, objects, k, clockRate)
    }

    constructor (process: Strain<S>, initial: S, objects: seq<ManiaObject>, take: nat, clockRate: real)
      requires clockRate > 0.0
      ensures Valid() && idx == 0 && this.clockRate == clockRate
      ensures this.process == process && this.initial == initial && this.objects == objects
      ensures Items() == if objects == [] then 0 else Max(1, Min(take, |objects|))
    {
      var n := Min(take, |objects|);
      var diffs := CreateDifficultyObjects(clockRate, objects[..n]);
      if n > 0 {
        PrefixOfDifficultyObjects(objects, n, clockRate);
      }
      this.process, this.clockRate, this.initial, this.objects := process, clockRate, initial, objects;
      objectsIsCircle := seq(|objects|, k requires 0 <= k < |objects| => objects[k].isCircle);
      diffObjects, idx, strain := diffs, 0, initial;
      noteState := if |objects| > 0
        then Incremented(objects[0].isCircle, objects[0].startTime, objects[0].endTime, NoteState(0, 0))
        else NoteState(0, 0);
      assert |objects| > 0 ==> objects[..1] == [objects[0]] && [objects[0]][..0] == [];
    }

    /** What both calls do with the difficulty object of the next item. */
    method Process(j: nat)
      requires Valid() && idx > 0 && j == idx - 1 < |diffObjects|
      modifies this
      ensures Valid() && idx == old(idx) + 1
    {
      HoldsNextItem(process, initial, objects, diffObjects, clockRate, idx, noteState, strain);
      hide HoldsItem;
      noteState := IncrementedBy(objectsIsCircle[j + 1], diffObjects[j], noteState, clockRate);
      strain := process(strain, diffObjects[j], Previous(diffObjects, j));
      idx := idx + 1;
    }

    /** The item is the batch calculation for as many objects as have been passed. */
    method Next() returns (item: Option<Result<S>>)
      requires Valid()
      modifies this
      ensures Valid() && idx == NextIdx(old(idx), Items())
      ensures item == if old(idx) < Items() then Some(BatchOf(idx)) else None
    {
      if idx > 0 {
        if idx - 1 >= |diffObjects| {
          return None;
        }
        Process(idx - 1);
      } else if objectsIsCircle == [] {
        return None;
      } else {
        idx := idx + 1;
      }
      item := Some(Result(strain, noteState.currCombo, idx, noteState.nHoldNotes));
      ItemIsBatch(process, initial, objects, diffObjects, clockRate, idx, noteState, strain);
    }

    function Len(): (n: nat)
      requires Valid()
      reads this
      ensures n == if objects == [] then 1 else Items() - idx
    {
      |diffObjects| + 1 - idx
    }

    method Nth(n: nat) returns (item: Option<Result<S>>)
      requires Valid()
      modifies this
      ensures Valid() && idx == NthIdx(n, old(idx), Items())
      ensures item == if old(idx) < Items() then Some(BatchOf(idx)) else None
    {
      hide HoldsItem;
      HoldsBounds(process, initial, objects, diffObjects, clockRate, idx, noteState, strain);
      var skip := if idx == 0 then 0 else idx - 1;
      var len := Len();
      var take := Min(n, if len == 0 then 0 else len - 1);
      ghost var target := idx + take;
      if idx == 0 && take > 0 {
        HoldsFirst(process, initial, objects, diffObjects, clockRate, noteState, strain);
        take := take - 1;
        idx := idx + 1;
      }
      for i := 0 to take
        invariant Valid() && idx == target - (take - i)
        invariant i < take ==> idx == skip + i + 1
      {
        Process(skip + i);
      }
      item := Next();
    }
  }
}

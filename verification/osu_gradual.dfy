/** osu!'s difficulty, calculated for a prefix of the map at once or object by object. The
    per-object work of the skills is any function of the skills, the difficulty objects and
    the index of the current one. */
module OsuGradual {
  import opened Wrappers
  import opened GradualCalls
  import opened Rounding

  datatype Kind = Circle | Slider(largeTicks: nat, nested: nat) | Spinner

  datatype OsuObject<D> = OsuObject(kind: Kind, data: D)

  datatype OsuDifficultyObject<D> =
    OsuDifficultyObject(base: OsuObject<D>, last: OsuObject<D>, lastLast: Option<OsuObject<D>>, idx: nat)

  datatype Counts = Counts(maxCombo: nat, circles: nat, sliders: nat, largeTicks: nat, spinners: nat)

  const NoCounts := Counts(0, 0, 0, 0, 0)

  /** Difficulty objects belong to the second and each later object. */
  function DifficultyObjects<D>(objects: seq<OsuObject<D>>): (r: seq<OsuDifficultyObject<D>>)
    ensures |r| == if objects == [] then 0 else |objects| - 1
  {
    if objects == [] then []
    else
      seq(|objects| - 1, i requires 0 <= i < |objects| - 1 =>
        OsuDifficultyObject(objects[i + 1], objects[i], if i == 0 then None else Some(objects[i - 1]), i))
  }

  lemma DifficultyObjectAt<D>(objects: seq<OsuObject<D>>, i: nat)
    requires i + 1 < |objects|
    ensures DifficultyObjects(objects)[i] ==
      OsuDifficultyObject(objects[i + 1], objects[i], if i == 0 then None else Some(objects[i - 1]), i)
  {}

  /** `last` and `last_last` move along while the objects are consumed. */
  method CreateDifficultyObjects<D>(take: nat, objects: seq<OsuObject<D>>) returns (r: seq<OsuDifficultyObject<D>>)
    ensures r == if take > 0 then DifficultyObjects(objects) else []
  {
    if |objects| == 0 || take == 0 {
      return [];
    }
    hide DifficultyObjects;
    var last, lastLast := objects[0], None;
    r := [];
    for i := 0 to |objects| - 1
      invariant last == objects[i]
      invariant lastLast == if i == 0 then None else Some(objects[i - 1])
      invariant r == DifficultyObjects(objects)[..i]
    {
      DifficultyObjectAt(objects, i);
      OneLonger(DifficultyObjects(objects), i);
      r := r + [OsuDifficultyObject(objects[i + 1], last, lastLast, i)];
      lastLast := Some(last);
      last := objects[i + 1];
    }
  }

  function Incremented<D>(h: OsuObject<D>, c: Counts): Counts {
    match h.kind
    case Circle => c.(maxCombo := c.maxCombo + 1, circles := c.circles + 1)
    case Slider(largeTicks, nested) =>
      c.(maxCombo := c.maxCombo + 1 + nested, sliders := c.sliders + 1, largeTicks := c.largeTicks + largeTicks)
    case Spinner => c.(maxCombo := c.maxCombo + 1, spinners := c.spinners + 1)
  }

  // ---------- what a prefix of the map amounts to ----------

  function Counted<D>(objects: seq<OsuObject<D>>): (c: Counts) {
    if objects == [] then NoCounts else Incremented(objects[|objects| - 1], Counted(objects[..|objects| - 1]))
  }

  predicate IsCircle(k: Kind) {
    k.Circle?
  }

  predicate IsSlider(k: Kind) {
    k.Slider?
  }

  predicate IsSpinner(k: Kind) {
    k.Spinner?
  }

  function NestedIn(k: Kind): nat {
    if k.Slider? then k.nested else 0
  }

  function LargeTicksIn(k: Kind): nat {
    if k.Slider? then k.largeTicks else 0
  }

  /** Where objects of a kind are. */
  ghost function Places<D>(objects: seq<OsuObject<D>>, isKind: Kind -> bool): set<nat> {
    set k | 0 <= k < |objects| && isKind(objects[k].kind)
  }

  lemma PlacesGrow<D>(objects: seq<OsuObject<D>>, isKind: Kind -> bool)
    requires objects != []
    ensures var last := |objects| - 1;
      |Places(objects, isKind)| == |Places(objects[..last], isKind)| + if isKind(objects[last].kind) then 1 else 0
  {
    var last := |objects| - 1;
    assert Places(objects, isKind) ==
      Places(objects[..last], isKind) + if isKind(objects[last].kind) then {last} else {};
  }

  /** Counts are numbers of objects, and every object adds itself and its nested ones to the combo. */
  lemma {:induction false} CountsAreNumbers<D>(objects: seq<OsuObject<D>>)
    ensures Counted(objects).circles == |Places(objects, IsCircle)|
    ensures Counted(objects).sliders == |Places(objects, IsSlider)|
    ensures Counted(objects).spinners == |Places(objects, IsSpinner)|
    ensures Counted(objects).circles + Counted(objects).sliders + Counted(objects).spinners == |objects|
    ensures Counted(objects).maxCombo == |objects| + SumOf(objects, NestedIn)
    ensures Counted(objects).largeTicks == SumOf(objects, LargeTicksIn)
  {
    if objects != [] {
      CountsAreNumbers(objects[..|objects| - 1]);
      PlacesGrow(objects, IsCircle);
      PlacesGrow(objects, IsSlider);
      PlacesGrow(objects, IsSpinner);
    }
  }

  function SumOf<D>(objects: seq<OsuObject<D>>, share: Kind -> nat): nat {
    if objects == [] then 0 else SumOf(objects[..|objects| - 1], share) + share(objects[|objects| - 1].kind)
  }

  function Processed<S, D>(process: (S, seq<OsuDifficultyObject<D>>, nat) -> S, skills: S,
                           diffs: seq<OsuDifficultyObject<D>>, n: nat): S
    requires n <= |diffs|
  {
    if n == 0 then skills else process(Processed(process, skills, diffs, n - 1), diffs, n - 1)
  }

  datatype Result<S> = Result(skills: S, counts: Counts)

  /** The batch calculation of the first `k` objects. */
  function Batch<S, D>(process: (S, seq<OsuDifficultyObject<D>>, nat) -> S, skills: S,
                       objects: seq<OsuObject<D>>, k: nat): Result<S> {
    var n := Min(k, |objects|);
    Result(Processed(process, skills, DifficultyObjects(objects), if n == 0 then 0 else n - 1), Counted(objects[..n]))
  }

  datatype Fed<D> = Fed(diffs: seq<OsuDifficultyObject<D>>, idx: nat)

  /** Skills that do nothing but note what they are given. */
  function Noting<D>(): (seq<Fed<D>>, seq<OsuDifficultyObject<D>>, nat) -> seq<Fed<D>> {
    (noted: seq<Fed<D>>, diffs: seq<OsuDifficultyObject<D>>, idx: nat) => noted + [Fed(diffs, idx)]
  }

  lemma {:induction false} NotesAll<D>(diffs: seq<OsuDifficultyObject<D>>, n: nat)
    requires n <= |diffs|
    ensures Processed(Noting(), [], diffs, n) == seq(n, (i: nat) => Fed(diffs, i))
  {
    if n > 0 {
      NotesAll(diffs, n - 1);
    }
  }

  /** What skills are given by the batch calculation: every passed object but the first, in order,
      among the difficulty objects of the whole map. */
  lemma FedInOrder<D>(objects: seq<OsuObject<D>>, k: nat)
    ensures var fed: seq<Fed<D>> := Batch(Noting(), [], objects, k).skills;
      var passed := if k < |objects| then k else |objects|;
      && |fed| == (if passed == 0 then 0 else passed - 1)
      && forall i | 0 <= i < |fed| :: fed[i].idx == i && |fed[i].diffs| == |objects| - 1 && Follow(fed[i].diffs, objects)
  {
    hide Processed, Counted, DifficultyObjects, Follow, Noting;
    var n, diffs := Min(k, |objects|), DifficultyObjects(objects);
    var last := if n == 0 then 0 else n - 1;
    NotesAll(diffs, last);
    var fed: seq<Fed<D>> := Processed(Noting(), [], diffs, last);
    assert Batch(Noting(), [], objects, k).skills == fed;
    hide Batch;
    if objects != [] {
      DifficultyObjectsFollow(objects);
    }
  }

  lemma DifficultyObjectsFollow<D>(objects: seq<OsuObject<D>>)
    requires objects != []
    ensures Follow(DifficultyObjects(objects), objects)
  {
    forall i: nat | i + 1 < |objects|
      ensures DifficultyObjects(objects)[i] ==
        OsuDifficultyObject(objects[i + 1], objects[i], if i == 0 then None else Some(objects[i - 1]), i)
    {
      DifficultyObjectAt(objects, i);
    }
    hide DifficultyObjects;
  }

  /** Each difficulty object has its object and the two before it. */
  ghost predicate Follow<D>(diffs: seq<OsuDifficultyObject<D>>, objects: seq<OsuObject<D>>)
    requires |diffs| < |objects|
  {
    forall j | 0 <= j < |diffs| ::
      && diffs[j].base == objects[j + 1] && diffs[j].last == objects[j] && diffs[j].idx == j
      && diffs[j].lastLast == if j == 0 then None else Some(objects[j - 1])
  }

  method Calculate<S, D>(process: (S, seq<OsuDifficultyObject<D>>, nat) -> S, initial: S,
                         objects: seq<OsuObject<D>>, take: nat) returns (r: Result<S>)
    ensures r == Batch(process, initial, objects, take)
  {
    var left, counts := take, NoCounts;
    for k := 0 to |objects|
      invariant left == take - Min(take, k) && counts == Counted(objects[..Min(take, k)])
    {
      if left > 0 {
        assert objects[..k + 1][..k] == objects[..k];
        left := left - 1;
        counts := Incremented(objects[k], counts);
      }
    }

    var diffs := CreateDifficultyObjects(take, objects);
    var skills := initial;
    var n := Min(|objects|, take);
    for i := 0 to Min(|diffs|, if n == 0 then 0 else n - 1)
      invariant skills == Processed(process, initial, diffs, i)
    {
      skills := process(skills, diffs, i);
    }
    r := Result(skills, counts);
  }

  class OsuGradualDifficulty<S, D> {
    const process: (S, seq<OsuDifficultyObject<D>>, nat) -> S
    ghost const initial: S
    const objects: seq<OsuObject<D>>
    const diffObjects: seq<OsuDifficultyObject<D>>
    var idx: nat
    var counts: Counts
    var skills: S

    ghost function Items(): nat {
      if objects == [] then 0 else |diffObjects| + 1
    }

    ghost predicate Valid()
      reads this
    {
      && (diffObjects == DifficultyObjects(objects) || diffObjects == [])
      && idx <= Items()
      && counts == Counted(objects[..Min(if idx == 0 then 1 else idx, |objects|)])
      && skills == Processed(process, initial, diffObjects, if idx == 0 then 0 else idx - 1)
    }

    ghost function BatchOf(k: nat): Result<S> {
      Batch(process, initial, objects, k)
    }

    constructor (process: (S, seq<OsuDifficultyObject<D>>, nat) -> S, initial: S, objects: seq<OsuObject<D>>, take: nat)
      ensures Valid() && idx == 0
      ensures this.process == process && this.initial == initial && this.objects == objects
      ensures diffObjects == if take > 0 then DifficultyObjects(objects) else []
    {
      var diffs := CreateDifficultyObjects(take, objects);
      this.process, this.initial, this.objects, this.diffObjects := process, initial, objects, diffs;
      idx, skills := 0, initial;
      counts := if |objects| > 0 then Incremented(objects[0], NoCounts) else NoCounts;
      assert |objects| > 0 ==> objects[..1] == [objects[0]] && [objects[0]][..0] == [];
    }

    /** What both calls do with the difficulty object of the next item. */
    method Process(j: nat)
      requires Valid() && idx > 0 && j == idx - 1 < |diffObjects|
      modifies this
      ensures Valid() && idx == old(idx) + 1
    {
      assert objects[..idx + 1][..idx] == objects[..idx];
      skills := process(skills, diffObjects, j);
      counts := Incremented(diffObjects[j].base, counts);
      idx := idx + 1;
    }

    /** The item is the batch calculation for as many objects as have been passed. */
    method Next() returns (item: Option<Result<S>>)
      requires Valid()
      modifies this
      ensures Valid() && idx == NextIdx(old(idx), Items())
      ensures item == if old(idx) < Items() then Some(BatchOf(idx)) else None
    {
      if idx > 0 {
        if idx - 1 >= |diffObjects| {
          return None;
        }
        Process(idx - 1);
      } else if objects == [] {
        return None;
      } else {
        idx := idx + 1;
      }
      item := Some(Result(skills, counts));
      SameProcessed(process, initial, objects, diffObjects, idx - 1);
    }

    /** `diff_objects.len() + 1 - idx`: one too many for an empty map, never below zero. */
    function Len(): (n: nat)
      requires Valid()
      reads this
      ensures n == if objects == [] then 1 else Items() - idx
    {
      |diffObjects| + 1 - idx
    }

    method Nth(n: nat) returns (item: Option<Result<S>>)
      requires Valid()
      modifies this
      ensures Valid() && idx == NthIdx(n, old(idx), Items())
      ensures item == if old(idx) < Items() then Some(BatchOf(idx)) else None
    {
      hide Counted, Processed, DifficultyObjects;
      var skip := if idx == 0 then 0 else idx - 1;
      var len := Len();
      var take := Min(n, SatSub(len, 1));
      ghost var target := idx + take;
      if idx == 0 && take > 0 {
        take := take - 1;
        idx := idx + 1;
      }
      for i := 0 to take
        invariant Valid() && idx == target - (take - i)
        invariant i < take ==> idx == skip + i + 1
      {
        Process(skip + i);
      }
      item := Next();
    }
  }

  lemma SameProcessed<S, D>(process: (S, seq<OsuDifficultyObject<D>>, nat) -> S, initial: S, objects: seq<OsuObject<D>>,
                            diffs: seq<OsuDifficultyObject<D>>, n: nat)
    requires n <= |diffs| && objects != [] && (diffs == DifficultyObjects(objects) || diffs == [])
    ensures Processed(process, initial, diffs, n) == Processed(process, initial, DifficultyObjects(objects), n)
  {}
}

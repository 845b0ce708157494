/** osu!taiko's difficulty, for a prefix of the hits at once or hit by hit. Only circles are
    hits; the other objects are passed over together with the next hit. */
module TaikoGradual {
  import opened Wrappers
  import opened Rounding
  import opened GradualCalls

  datatype TaikoObject<D> = TaikoObject(isHit: bool, data: D)

  datatype TaikoDifficultyObject<D> =
    TaikoDifficultyObject(base: TaikoObject<D>, last: TaikoObject<D>, lastLast: TaikoObject<D>, idx: nat)

  type Process<!S, !D> = (S, seq<TaikoDifficultyObject<D>>, nat) -> S

  /** Difficulty objects belong to the third and each later object. */
  function DifficultyObjects<D>(objects: seq<TaikoObject<D>>): (r: seq<TaikoDifficultyObject<D>>)
    ensures |r| == SatSub(|objects|, 2)
  {
    if |objects| < 2 then []
    else
      seq(|objects| - 2, i requires 0 <= i < |objects| - 2 =>
        TaikoDifficultyObject(objects[i + 2], objects[i + 1], objects[i], i))
  }

  function Hits<D>(objects: seq<TaikoObject<D>>): (n: nat)
    ensures n <= |objects|
  {
    if objects == [] then 0 else Hits(objects[..|objects| - 1]) + if objects[|objects| - 1].isHit then 1 else 0
  }

  /** How many objects are passed until `take` hits have been. */
  function Passed<D>(objects: seq<TaikoObject<D>>, take: nat): (n: nat)
    ensures n <= |objects|
  {
    if objects == [] then 0
    else
      var front := objects[..|objects| - 1];
      if Hits(front) < take then |objects| else Passed(front, take)
  }

  function Processed<S, D>(process: Process<S, D>, skills: S, diffs: seq<TaikoDifficultyObject<D>>, n: nat): S
    requires n <= |diffs|
  {
    if n == 0 then skills else process(Processed(process, skills, diffs, n - 1), diffs, n - 1)
  }

  datatype Result<S> = Result(skills: S, maxCombo: nat)

  /** The batch calculation of the first `k` hits. */
  function Batch<S, D>(process: Process<S, D>, skills: S, objects: seq<TaikoObject<D>>, k: nat): Result<S> {
    Result(Processed(process, skills, DifficultyObjects(objects), SatSub(Passed(objects, k), 2)), Min(k, Hits(objects)))
  }

  /** The counters count an object as long as `take` hits have not been passed. */
  method CreateDifficultyObjects<D>(objects: seq<TaikoObject<D>>, take: nat)
      returns (diffs: seq<TaikoDifficultyObject<D>>, maxCombo: nat, nDiffObjects: nat)
    ensures diffs == DifficultyObjects(objects)
    ensures maxCombo == Min(take, Hits(objects)) && nDiffObjects == Passed(objects, take)
  {
    hide Hits, Passed, DifficultyObjects;
    maxCombo, nDiffObjects, diffs := 0, 0, [];
    NothingPassed(objects, take);
    for k := 0 to |objects|
      invariant maxCombo == Min(take, Hits(objects[..k])) && nDiffObjects == Passed(objects[..k], take)
      invariant diffs == DifficultyObjects(objects)[..SatSub(k, 2)]
    {
      OneMore(objects, k, take);
      if maxCombo < take {
        nDiffObjects := nDiffObjects + 1;
        maxCombo := maxCombo + if objects[k].isHit then 1 else 0;
      }
      if k >= 2 {
        diffs := diffs + [TaikoDifficultyObject(objects[k], objects[k - 1], objects[k - 2], k - 2)];
      }
    }
    assert objects[..|objects|] == objects;
  }

  lemma NothingPassed<D>(objects: seq<TaikoObject<D>>, take: nat)
    ensures Hits(objects[..0]) == 0 && Passed(objects[..0], take) == 0
  {}

  lemma OneMore<D>(objects: seq<TaikoObject<D>>, k: nat, take: nat)
    requires k < |objects|
    ensures Hits(objects[..k + 1]) == Hits(objects[..k]) + if objects[k].isHit then 1 else 0
    ensures Passed(objects[..k + 1], take) == Passed(objects[..k], take) + if Hits(objects[..k]) < take then 1 else 0
    ensures DifficultyObjects(objects)[..SatSub(k + 1, 2)] == DifficultyObjects(objects)[..SatSub(k, 2)] +
      if k >= 2 then [TaikoDifficultyObject(objects[k], objects[k - 1], objects[k - 2], k - 2)] else []
  {
    hide Hits, Passed, DifficultyObjects;
    OneLonger(objects, k);
    OneMorePassed(objects[..k], objects[k], take);
    if k >= 2 {
      DifficultyObjectAt(objects, k - 2);
      OneLonger(DifficultyObjects(objects), k - 2);
    }
  }

  lemma OneMorePassed<D>(objects: seq<TaikoObject<D>>, h: TaikoObject<D>, take: nat)
    ensures Hits(objects + [h]) == Hits(objects) + if h.isHit then 1 else 0
    ensures Passed(objects + [h], take) == Passed(objects, take) + if Hits(objects) < take then 1 else 0
  {
    assert (objects + [h])[..|objects|] == objects;
    PassesAll(objects, take);
  }

  lemma DifficultyObjectAt<D>(objects: seq<TaikoObject<D>>, i: nat)
    requires i + 2 < |objects|
    ensures DifficultyObjects(objects)[i] == TaikoDifficultyObject(objects[i + 2], objects[i + 1], objects[i], i)
  {}

  lemma {:induction false} PassesAll<D>(objects: seq<TaikoObject<D>>, take: nat)
    ensures Hits(objects) < take ==> Passed(objects, take) == |objects|
  {
    if objects != [] {
      HitsGrow(objects, |objects| - 1);
    }
  }

  datatype Fed<D> = Fed(diffs: seq<TaikoDifficultyObject<D>>, idx: nat)

  /** Skills that do nothing but note what they are given. */
  function Noting<D>(): Process<seq<Fed<D>>, D> {
    (noted: seq<Fed<D>>, diffs: seq<TaikoDifficultyObject<D>>, idx: nat) => noted + [Fed(diffs, idx)]
  }

  lemma {:induction false} NotesAll<D>(diffs: seq<TaikoDifficultyObject<D>>, n: nat)
    requires n <= |diffs|
    ensures Processed(Noting(), [], diffs, n) == seq(n, (i: nat) => Fed(diffs, i))
  {
    if n > 0 {
      NotesAll(diffs, n - 1);
    }
  }

  /** What skills are given by the batch calculation of `k` hits: every object up to the `k`-th hit,
      but the first two, in order, among the difficulty objects of the whole map. */
  lemma FedInOrder<D>(objects: seq<TaikoObject<D>>, k: nat, n: nat)
    requires 0 < n <= |objects| && objects[n - 1].isHit && Hits(objects[..n]) == k
    ensures var fed: seq<Fed<D>> := Batch(Noting(), [], objects, k).skills;
      && |fed| == (if n < 2 then 0 else n - 2)
      && forall i | 0 <= i < |fed| ::
        && fed[i].idx == i && |fed[i].diffs| == |objects| - 2
        && forall j | 0 <= j < |objects| - 2 ::
          fed[i].diffs[j] == TaikoDifficultyObject(objects[j + 2], objects[j + 1], objects[j], j)
  {
    PassedIs(objects, k, n);
    NotesAll(DifficultyObjects(objects), SatSub(n, 2));
    hide Processed, Passed, Hits;
  }

  method Calculate<S, D>(process: Process<S, D>, initial: S, objects: seq<TaikoObject<D>>, take: nat) returns (r: Result<S>)
    ensures r == Batch(process, initial, objects, take)
  {
    var diffs, maxCombo, n := CreateDifficultyObjects(objects, take);
    n := SatSub(n, 2);
    var skills := initial;
    for i := 0 to Min(n, |diffs|)
      invariant skills == Processed(process, initial, diffs, i)
    {
      skills := process(skills, diffs, i);
    }
    r := Result(skills, maxCombo);
  }

  // ---------- the prefix up to the last of `k` hits ----------

  lemma {:induction false} HitsGrow<D>(objects: seq<TaikoObject<D>>, k: nat)
    requires k <= |objects|
    ensures Hits(objects[..k]) <= Hits(objects)
    decreases |objects|
  {
    if k < |objects| {
      HitsGrow(objects[..|objects| - 1], k);
      assert objects[..|objects| - 1][..k] == objects[..k];
    } else {
      assert objects[..k] == objects;
    }
  }

  /** The passed objects end with the `k`-th hit. */
  lemma {:induction false} PassedEndsWithHit<D>(objects: seq<TaikoObject<D>>, k: nat)
    requires 0 < k <= Hits(objects)
    ensures var n := Passed(objects, k);
      && 0 < n && objects[n - 1].isHit && Hits(objects[..n]) == k && Hits(objects[..n - 1]) == k - 1
    decreases |objects|
  {
    var front := objects[..|objects| - 1];
    if Hits(front) < k {
      assert objects[..|objects|] == objects;
    } else {
      PassedEndsWithHit(front, k);
      var n := Passed(front, k);
      assert front[..n] == objects[..n] && front[..n - 1] == objects[..n - 1];
    }
  }

  /** Only one prefix ends with the `k`-th hit. */
  lemma {:induction false} PassedIs<D>(objects: seq<TaikoObject<D>>, k: nat, n: nat)
    requires 0 < n <= |objects| && objects[n - 1].isHit && Hits(objects[..n]) == k
    ensures Passed(objects, k) == n && k <= Hits(objects)
    decreases |objects|
  {
    HitsGrow(objects, n);
    var front := objects[..|objects| - 1];
    if n < |objects| {
      assert front[..n] == objects[..n];
      PassedIs(front, k, n);
    } else {
      assert objects[..n] == objects;
    }
  }

  // ---------- the gradual calculation ----------

  datatype FirstTwoCombos = Neither | OnlyFirst | OnlySecond | Both

  function FirstCombos<D>(objects: seq<TaikoObject<D>>): FirstTwoCombos {
    var first := |objects| > 0 && objects[0].isHit;
    var second := |objects| > 1 && objects[1].isHit;
    if first then if second then Both else OnlyFirst
    else if second then OnlySecond else Neither
  }

  /** `pos` difficulty objects have been taken from the iterator. */
  datatype State<S> = State(idx: nat, maxCombo: nat, skills: S, pos: nat)

  /** Processes up to the next hit; false if there is none. */
  function Advanced<S, D>(process: Process<S, D>, diffs: seq<TaikoDifficultyObject<D>>, s: State<S>): (r: (bool, State<S>))
    requires s.pos <= |diffs|
    ensures r.1.pos <= |diffs| && r.1.idx == s.idx
    ensures !r.0 ==> r.1.pos == |diffs| && r.1.maxCombo == s.maxCombo
    decreases |diffs| - s.pos
  {
    if s.pos == |diffs| then (false, s)
    else
      var t := s.(skills := process(s.skills, diffs, s.pos), pos := s.pos + 1);
      if diffs[s.pos].base.isHit then (true, t.(maxCombo := t.maxCombo + 1)) else Advanced(process, diffs, t)
  }

  /** The combo once the first one or two objects have been passed. */
  function EarlyCombo(first: FirstTwoCombos, idx: nat, combo: nat): nat {
    match first
    case Neither => combo
    case OnlyFirst => 1
    case OnlySecond => if idx == 1 then 1 else combo
    case Both => if idx == 0 then 1 else 2
  }

  function NextState<S, D>(process: Process<S, D>, diffs: seq<TaikoDifficultyObject<D>>, first: FirstTwoCombos, s: State<S>)
      : (r: (Option<Result<S>>, State<S>))
    requires s.pos <= |diffs|
    ensures r.1.pos <= |diffs|
  {
    if s.idx >= 2 then
      var (found, t) := Advanced(process, diffs, s);
      if found then (Some(Result(t.skills, t.maxCombo)), t.(idx := t.idx + 1)) else (None, t)
    else if diffs == [] then (None, s)
    else
      var t := s.(maxCombo := EarlyCombo(first, s.idx, s.maxCombo), idx := s.idx + 1);
      (Some(Result(t.skills, t.maxCombo)), t)
  }

  /** The item and the state after the last of `k + 1` calls of `next`. */
  function Nexts<S, D>(process: Process<S, D>, diffs: seq<TaikoDifficultyObject<D>>, first: FirstTwoCombos, s: State<S>, k: nat)
      : (r: (Option<Result<S>>, State<S>))
    requires s.pos <= |diffs|
    ensures r.1.pos <= |diffs|
    decreases k
  {
    var r := NextState(process, diffs, first, s);
    if k == 0 then r else Nexts(process, diffs, first, r.1, k - 1)
  }

  /** What `nth` does before its loop: the first two objects have no difficulty object. */
  function Early<S>(first: FirstTwoCombos, s: State<S>, take: nat): (State<S>, nat) {
    if take == 0 || s.idx >= 2 then (s, take)
    else if take == 1 && s.idx == 0 then
      (s.(idx := 1, maxCombo := if first.OnlyFirst? || first.Both? then 1 else s.maxCombo), 0)
    else
      (s.(idx := 2, maxCombo := match first case Neither => s.maxCombo case Both => 2 case _ => 1), take - (2 - s.idx))
  }

  /** The item and the state after `nth(n)`: without difficulty objects it gives nothing, and may
      still pass over the first two objects. */
  function NthState<S, D>(process: Process<S, D>, diffs: seq<TaikoDifficultyObject<D>>, first: FirstTwoCombos, totalHits: nat,
                          s: State<S>, n: nat): (r: (Option<Result<S>>, State<S>))
    requires s.pos <= |diffs|
    ensures r.1.pos <= |diffs|
  {
    var take := Min(n, SatSub(SatSub(totalHits, s.idx), 1));
    if diffs == [] then (None, Early(first, s, take).0) else Nexts(process, diffs, first, s, take)
  }

  lemma EarlyNexts<S, D>(process: Process<S, D>, diffs: seq<TaikoDifficultyObject<D>>, first: FirstTwoCombos, s: State<S>, take: nat)
    requires s.pos <= |diffs| && (diffs != [] || take == 0)
    ensures var (t, left) := Early(first, s, take);
      Nexts(process, diffs, first, s, take) == Nexts(process, diffs, first, t, left)
  {
    hide Advanced;
    if take > 0 && s.idx < 2 {
      var (_, t) := NextState(process, diffs, first, s);
      assert Nexts(process, diffs, first, s, take) == Nexts(process, diffs, first, t, take - 1);
    }
  }

  lemma {:induction false} NothingLeft<S, D>(process: Process<S, D>, diffs: seq<TaikoDifficultyObject<D>>, first: FirstTwoCombos, s: State<S>, k: nat)
    requires s.idx >= 2 && s.pos == |diffs|
    ensures Nexts(process, diffs, first, s, k) == (None, s)
  {
    if k > 0 {
      NothingLeft(process, diffs, first, s, k - 1);
    }
  }

  lemma LastNext<S, D>(process: Process<S, D>, diffs: seq<TaikoDifficultyObject<D>>, first: FirstTwoCombos, s: State<S>)
    requires s.pos <= |diffs|
    ensures Nexts(process, diffs, first, s, 0) == NextState(process, diffs, first, s)
    ensures diffs == [] ==> NextState(process, diffs, first, s) == (None, s)
  {}

  /** One round of the loop of `nth`. */
  lemma OneAdvance<S, D>(process: Process<S, D>, diffs: seq<TaikoDifficultyObject<D>>, first: FirstTwoCombos, s: State<S>, take: nat)
    requires s.idx >= 2 && s.pos <= |diffs| && take > 0
    ensures var (found, t) := Advanced(process, diffs, s);
      Nexts(process, diffs, first, s, take) ==
      if found then Nexts(process, diffs, first, t.(idx := t.idx + 1), take - 1) else (None, t)
  {
    var (found, t) := Advanced(process, diffs, s);
    if !found {
      NothingLeft(process, diffs, first, t, take - 1);
    }
    hide Advanced;
  }

  lemma AdvancesNowhere<S, D>(process: Process<S, D>, diffs: seq<TaikoDifficultyObject<D>>, s: State<S>)
    requires s.pos <= |diffs|
    ensures diffs == [] ==> Advanced(process, diffs, s) == (false, s)
  {}

  /** `nth` continues from where the first two objects have been passed over. */
  lemma TakesNth<S, D>(process: Process<S, D>, diffs: seq<TaikoDifficultyObject<D>>, first: FirstTwoCombos, totalHits: nat,
                       s: State<S>, n: nat)
    requires s.pos <= |diffs|
    ensures var (t, left) := Early(first, s, Min(n, SatSub(SatSub(totalHits, s.idx), 1)));
      diffs != [] ==> NthState(process, diffs, first, totalHits, s, n) == Nexts(process, diffs, first, t, left)
  {
    if diffs != [] {
      EarlyNexts(process, diffs, first, s, Min(n, SatSub(SatSub(totalHits, s.idx), 1)));
    }
  }

  class TaikoGradualDifficulty<S, D> {
    const process: Process<S, D>
    ghost const initial: S
    ghost const objects: seq<TaikoObject<D>>
    const diffObjects: seq<TaikoDifficultyObject<D>>
    const totalHits: nat
    const firstCombos: FirstTwoCombos
    var idx: nat
    var maxCombo: nat
    var skills: S
    var pos: nat

    ghost predicate Valid()
      reads this
    {
      && diffObjects == DifficultyObjects(objects) && pos <= |diffObjects|
      && totalHits == Hits(objects) && firstCombos == FirstCombos(objects)
    }

    function Current(): State<S>
      reads this
    {
      State(idx, maxCombo, skills, pos)
    }

    constructor (process: Process<S, D>, initial: S, objects: seq<TaikoObject<D>>, take: nat)
      ensures Valid() && Current() == State(0, 0, initial, 0)
      ensures this.process == process && this.initial == initial && this.objects == objects
    {
      var diffs, _, _ := CreateDifficultyObjects(objects, take);
      this.process, this.initial, this.objects, diffObjects := process, initial, objects, diffs;
      totalHits, firstCombos := Hits(objects), FirstCombos(objects);
      idx, maxCombo, skills, pos := 0, 0, initial, 0;
    }

    /** The loop of both calls: up to the next hit. */
    method Advance() returns (found: bool)
      requires Valid()
      modifies this
      ensures Valid() && (found, Current()) == Advanced(process, diffObjects, old(Current()))
    {
      while pos < |diffObjects|
        invariant Valid()
        invariant Advanced(process, diffObjects, Current()) == Advanced(process, diffObjects, old(Current()))
      {
        hide DifficultyObjects;
        skills := process(skills, diffObjects, pos);
        pos := pos + 1;
        if diffObjects[pos - 1].base.isHit {
          maxCombo := maxCombo + 1;
          return true;
        }
      }
      found := false;
    }

    method Next() returns (item: Option<Result<S>>)
      requires Valid()
      modifies this
      ensures Valid() && (item, Current()) == NextState(process, diffObjects, firstCombos, old(Current()))
    {
      if idx >= 2 {
        var found := Advance();
        if !found {
          return None;
        }
      } else if diffObjects == [] {
        return None;
      } else {
        match firstCombos
        case OnlyFirst => maxCombo := 1;
        case OnlySecond =>
          if idx == 1 {
            maxCombo := 1;
          }
        case Both => maxCombo := if idx == 0 then 1 else 2;
        case Neither =>
      }
      idx := idx + 1;
      item := Some(Result(skills, maxCombo));
    }

    /** Safe as long as not more items than hits have been passed. */
    function Len(): (n: nat)
      requires idx <= totalHits
      reads this
      ensures n == totalHits - idx
    {
      totalHits - idx
    }

    /** With difficulty objects, the last of `min(n, len - 1) + 1` calls of `next`. */
    method Nth(n: nat) returns (item: Option<Result<S>>)
      requires Valid() && idx <= totalHits
      modifies this
      ensures Valid()
      ensures (item, Current()) == NthState(process, diffObjects, firstCombos, totalHits, old(Current()), n)
    {
      hide DifficultyObjects, Hits, Advanced, Nexts, NextState;
      var take: nat := Min(n, SatSub(Len(), 1));
      ghost var k, start := take, Current();
      if take > 0 && idx < 2 {
        if take == 1 && idx == 0 {
          take := take - 1;
          idx := idx + 1;
          match firstCombos
          case OnlyFirst => maxCombo := 1;
          case Both => maxCombo := 1;
          case _ =>
        } else {
          take := take - if idx == 0 then 2 else 1;
          idx := 2;
          match firstCombos
          case OnlyFirst => maxCombo := 1;
          case OnlySecond => maxCombo := 1;
          case Both => maxCombo := 2;
          case Neither =>
        }
      }
      assert (Current(), take) == Early(firstCombos, start, k);
      ghost var early, left: nat := Current(), take;
      while take > 0
        invariant Valid() && (take > 0 ==> idx >= 2)
        invariant Nexts(process, diffObjects, firstCombos, early, left) == Nexts(process, diffObjects, firstCombos, Current(), take)
        invariant diffObjects == [] ==> Current() == early
        decreases take
      {
        OneAdvance(process, diffObjects, firstCombos, Current(), take);
        AdvancesNowhere(process, diffObjects, early);
        var found := Advance();
        if !found {
          TakesNth(process, diffObjects, firstCombos, totalHits, start, n);
          return None;
        }
        idx := idx + 1;
        take := take - 1;
      }
      LastNext(process, diffObjects, firstCombos, Current());
      item := Next();
      TakesNth(process, diffObjects, firstCombos, totalHits, start, n);
    }
  }

  // ---------- gradual and batch ----------

  ghost predicate FirstTwoAreHits<D>(objects: seq<TaikoObject<D>>) {
    |objects| >= 3 && objects[0].isHit && objects[1].isHit
  }

  /** The state once `k` hits have been passed. */
  function StateAt<S, D>(process: Process<S, D>, initial: S, objects: seq<TaikoObject<D>>, k: nat): State<S> {
    var pos := SatSub(Passed(objects, k), 2);
    State(k, k, Processed(process, initial, DifficultyObjects(objects), pos), pos)
  }

  lemma {:induction false} NoHitsBetween<D>(objects: seq<TaikoObject<D>>, a: nat, i: nat, b: nat)
    requires a <= i < b <= |objects| && Hits(objects[..a]) == Hits(objects[..b])
    ensures !objects[i].isHit
  {
    var upTo := objects[..i + 1];
    assert upTo[..a] == objects[..a] && objects[..b][..i + 1] == upTo && upTo[..i] == objects[..i];
    HitsGrow(objects[..b], i + 1);
    HitsGrow(objects[..i], a);
    assert objects[..i][..a] == objects[..a];
  }

  lemma LongerPrefixMoreHits<D>(objects: seq<TaikoObject<D>>, a: nat, b: nat)
    requires a <= b <= |objects|
    ensures Hits(objects[..a]) <= Hits(objects[..b])
  {
    HitsGrow(objects[..b], a);
    assert objects[..b][..a] == objects[..a];
  }

  lemma {:induction false} AdvancesToHit<S, D>(process: Process<S, D>, initial: S, diffs: seq<TaikoDifficultyObject<D>>, s: State<S>, m: nat)
    requires s.pos <= m < |diffs| && diffs[m].base.isHit
    requires forall i | s.pos <= i < m :: !diffs[i].base.isHit
    requires s.skills == Processed(process, initial, diffs, s.pos)
    ensures Advanced(process, diffs, s) ==
      (true, State(s.idx, s.maxCombo + 1, Processed(process, initial, diffs, m + 1), m + 1))
    decreases m - s.pos
  {
    if s.pos < m {
      AdvancesToHit(process, initial, diffs, s.(skills := process(s.skills, diffs, s.pos), pos := s.pos + 1), m);
    }
  }

  lemma FirstTwoPassed<D>(objects: seq<TaikoObject<D>>)
    requires FirstTwoAreHits(objects)
    ensures Passed(objects, 0) == 0 && Passed(objects, 1) == 1 && Passed(objects, 2) == 2 <= Hits(objects)
  {
    assert objects[..1][..0] == [] && objects[..2][..1] == objects[..1];
    PassedIs(objects, 1, 1);
    PassedIs(objects, 2, 2);
    PassesNone(objects);
  }

  lemma {:induction false} PassesNone<D>(objects: seq<TaikoObject<D>>)
    ensures Passed(objects, 0) == 0
  {
    if objects != [] {
      PassesNone(objects[..|objects| - 1]);
    }
  }

  /** One call of `next` takes the batch state of `k` hits to that of `k + 1`. */
  lemma NextIsBatch<S, D>(process: Process<S, D>, initial: S, objects: seq<TaikoObject<D>>, k: nat)
    requires FirstTwoAreHits(objects) && k < Hits(objects)
    ensures StateAt(process, initial, objects, k).pos <= |DifficultyObjects(objects)|
    ensures NextState(process, DifficultyObjects(objects), FirstCombos(objects), StateAt(process, initial, objects, k))
      == (Some(Batch(process, initial, objects, k + 1)), StateAt(process, initial, objects, k + 1))
  {
    hide DifficultyObjects, Hits, Passed, Processed;
    if k < 2 {
      FirstTwoPassed(objects);
      assert FirstCombos(objects) == Both;
    } else {
      NextHit(objects, k);
      hide FirstTwoAreHits;
      var n := Passed(objects, k + 1);
      AdvancesToHit(process, initial, DifficultyObjects(objects), StateAt(process, initial, objects, k), n - 3);
    }
  }

  lemma NextHit<D>(objects: seq<TaikoObject<D>>, k: nat)
    requires FirstTwoAreHits(objects) && 2 <= k < Hits(objects)
    ensures var diffs := DifficultyObjects(objects); var (a, n) := (Passed(objects, k), Passed(objects, k + 1));
      && 2 <= a < n && n - 3 < |diffs| && diffs[n - 3].base.isHit
      && forall i | a - 2 <= i < n - 3 :: !diffs[i].base.isHit
  {
    hide Hits, Passed, DifficultyObjects;
    var a, n := Passed(objects, k), Passed(objects, k + 1);
    PassedEndsWithHit(objects, k);
    PassedEndsWithHit(objects, k + 1);
    if n <= a {
      LongerPrefixMoreHits(objects, n, a);
      assert false;
    }
    assert Hits(objects[..a]) <= a;
    BaseOf(objects, n - 3);
    forall i | a - 2 <= i < n - 3
      ensures !DifficultyObjects(objects)[i].base.isHit
    {
      NoHitsBetween(objects, a, i + 2, n - 1);
      BaseOf(objects, i);
    }
  }

  lemma BaseOf<D>(objects: seq<TaikoObject<D>>, i: nat)
    requires i + 2 < |objects|
    ensures DifficultyObjects(objects)[i].base == objects[i + 2]
  {}

  /** The last of `j + 1` calls after `k` hits gives the batch calculation of `k + j + 1` hits:
      `nth` by `Nth`'s contract, where `j` never leads beyond the last hit. */
  lemma {:induction false} NextsAreBatch<S, D>(process: Process<S, D>, initial: S, objects: seq<TaikoObject<D>>, k: nat, j: nat)
    requires FirstTwoAreHits(objects) && k + j < Hits(objects)
    ensures StateAt(process, initial, objects, k).pos <= |DifficultyObjects(objects)|
    ensures Nexts(process, DifficultyObjects(objects), FirstCombos(objects), StateAt(process, initial, objects, k), j)
      == (Some(Batch(process, initial, objects, k + j + 1)), StateAt(process, initial, objects, k + j + 1))
    decreases j
  {
    hide NextState, StateAt, DifficultyObjects, Hits, FirstCombos, Batch, FirstTwoAreHits;
    NextIsBatch(process, initial, objects, k);
    if j > 0 {
      NextsAreBatch(process, initial, objects, k + 1, j - 1);
    }
  }

  function Start<S>(initial: S): State<S> {
    State(0, 0, initial, 0)
  }

  /** The item of the `k`-th call of `next`. */
  function Item<S, D>(process: Process<S, D>, initial: S, objects: seq<TaikoObject<D>>, k: nat): Option<Result<S>>
    requires k > 0
  {
    Nexts(process, DifficultyObjects(objects), FirstCombos(objects), Start(initial), k - 1).0
  }

  lemma StartsAtNone<S, D>(process: Process<S, D>, initial: S, objects: seq<TaikoObject<D>>)
    ensures StateAt(process, initial, objects, 0) == Start(initial)
  {
    PassesNone(objects);
  }

  lemma ItemsAreBatch<S, D>(process: Process<S, D>, initial: S, objects: seq<TaikoObject<D>>, k: nat)
    requires FirstTwoAreHits(objects) && 1 <= k <= Hits(objects)
    ensures Item(process, initial, objects, k) == Some(Batch(process, initial, objects, k))
  {
    hide NextState, StateAt, Hits, Batch, DifficultyObjects, FirstCombos, Start;
    StartsAtNone(process, initial, objects);
    NextsAreBatch(process, initial, objects, 0, k - 1);
  }

  // ---------- behind the last hit ----------

  /** A step takes one hit from what is left; without one nothing is left. */
  lemma {:induction false} AdvancedTakesHit<S, D>(process: Process<S, D>, objects: seq<TaikoObject<D>>, s: State<S>)
    requires |objects| >= 2 && s.pos <= |DifficultyObjects(objects)|
    ensures var (found, t) := Advanced(process, DifficultyObjects(objects), s);
      Hits(objects[..t.pos + 2]) == Hits(objects[..s.pos + 2]) + (if found then 1 else 0)
    decreases |objects| - s.pos
  {
    hide Hits, DifficultyObjects;
    var diffs := DifficultyObjects(objects);
    if s.pos < |diffs| {
      OneLonger(objects, s.pos + 2);
      OneMorePassed(objects[..s.pos + 2], objects[s.pos + 2], 0);
      DifficultyObjectAt(objects, s.pos);
      if !diffs[s.pos].base.isHit {
        AdvancedTakesHit(process, objects, s.(skills := process(s.skills, diffs, s.pos), pos := s.pos + 1));
      }
    }
  }

  /** Once all hits have been passed `next` gives nothing, and goes on giving nothing. */
  lemma NoneAfterLast<S, D>(process: Process<S, D>, initial: S, objects: seq<TaikoObject<D>>, j: nat)
    requires FirstTwoAreHits(objects)
    ensures StateAt(process, initial, objects, Hits(objects)).pos <= |DifficultyObjects(objects)|
    ensures Nexts(process, DifficultyObjects(objects), FirstCombos(objects), StateAt(process, initial, objects, Hits(objects)), j).0 == None
  {
    FirstTwoPassed(objects);
    hide Passed, Processed, DifficultyObjects, Hits, FirstCombos, Advanced;
    var diffs, first, s := DifficultyObjects(objects), FirstCombos(objects), StateAt(process, initial, objects, Hits(objects));
    PassedEndsWithHit(objects, Hits(objects));
    assert Hits(objects[..Passed(objects, Hits(objects))]) <= Passed(objects, Hits(objects));
    AdvancedTakesHit(process, objects, s);
    HitsGrow(objects, Advanced(process, diffs, s).1.pos + 2);
    if j > 0 {
      NothingLeft(process, diffs, first, Advanced(process, diffs, s).1, j - 1);
    }
  }

  lemma {:induction false} NoneBeyond<S, D>(process: Process<S, D>, initial: S, objects: seq<TaikoObject<D>>, k: nat, j: nat)
    requires FirstTwoAreHits(objects) && k <= Hits(objects)
    ensures StateAt(process, initial, objects, k).pos <= |DifficultyObjects(objects)|
    ensures Nexts(process, DifficultyObjects(objects), FirstCombos(objects), StateAt(process, initial, objects, k),
                  Hits(objects) - k + j).0 == None
    decreases Hits(objects) - k
  {
    hide NextState, StateAt, DifficultyObjects, Hits, FirstCombos, Batch, FirstTwoAreHits;
    if k == Hits(objects) {
      NoneAfterLast(process, initial, objects, j);
    } else {
      NextIsBatch(process, initial, objects, k);
      NoneBeyond(process, initial, objects, k + 1, j);
    }
  }

  // ---------- exactly when the two agree ----------

  /** There is an item for every hit and none afterwards, and it is the batch calculation. */
  ghost predicate AgreesWithBatch<S(!new), D>(process: Process<S, D>, initial: S, objects: seq<TaikoObject<D>>) {
    forall k: nat | k > 0 ::
      Item(process, initial, objects, k) == if k <= Hits(objects) then Some(Batch(process, initial, objects, k)) else None
  }

  /** A map on which the two agree: too short for difficulty objects and without hits, or with
      hits for its first two objects. */
  predicate Agreeable<D>(objects: seq<TaikoObject<D>>) {
    if |objects| < 3 then Hits(objects) == 0 else objects[0].isHit && objects[1].isHit
  }

  lemma AgreesExactlyIf<S(!new), D>(process: Process<S, D>, initial: S, objects: seq<TaikoObject<D>>)
    ensures AgreesWithBatch(process, initial, objects) <==> Agreeable(objects)
  {
    hide Item, Batch, Hits;
    if Agreeable(objects) {
      forall k: nat | k > 0
        ensures Item(process, initial, objects, k) == if k <= Hits(objects) then Some(Batch(process, initial, objects, k)) else None
      {
        ItemAgrees(process, initial, objects, k);
      }
    } else {
      var k := Disagrees(process, initial, objects);
    }
  }

  lemma ItemAgrees<S, D>(process: Process<S, D>, initial: S, objects: seq<TaikoObject<D>>, k: nat)
    requires Agreeable(objects) && k > 0
    ensures Item(process, initial, objects, k) == if k <= Hits(objects) then Some(Batch(process, initial, objects, k)) else None
  {
    hide Hits, Batch, NextState;
    if |objects| < 3 {
      StaysAtStart(process, objects, Start(initial), k - 1);
    } else if k <= Hits(objects) {
      ItemsAreBatch(process, initial, objects, k);
    } else {
      StartsAtNone(process, initial, objects);
      NoneBeyond(process, initial, objects, 0, k - 1 - Hits(objects));
    }
  }

  lemma {:induction false} StaysAtStart<S, D>(process: Process<S, D>, objects: seq<TaikoObject<D>>, s: State<S>, k: nat)
    requires |objects| < 3 && s.idx == 0 && s.pos == 0
    ensures Nexts(process, DifficultyObjects(objects), FirstCombos(objects), s, k) == (None, s)
  {
    if k > 0 {
      StaysAtStart(process, objects, s, k - 1);
    }
  }

  /** Otherwise it is the first or the second item. Without difficulty objects there is none; if
      the first object is no hit the first item has no combo, or comes although there is no hit;
      and if only the second is none the second item has the combo of the first, or comes although
      there is no second hit. */
  lemma Disagrees<S, D>(process: Process<S, D>, initial: S, objects: seq<TaikoObject<D>>) returns (k: nat)
    requires !Agreeable(objects)
    ensures k == if |objects| >= 3 && objects[0].isHit then 2 else 1
    ensures Item(process, initial, objects, k) == if |objects| < 3 then None else Some(Result(initial, k - 1))
    ensures Item(process, initial, objects, k) != if k <= Hits(objects) then Some(Batch(process, initial, objects, k)) else None
  {
    hide Hits, DifficultyObjects, Passed, Processed, Advanced;
    var diffs, first := DifficultyObjects(objects), FirstCombos(objects);
    var (item, t) := NextState(process, diffs, first, Start(initial));
    if |objects| >= 3 && objects[0].isHit {
      k := 2;
      assert first == OnlyFirst;
      assert Item(process, initial, objects, 2) == NextState(process, diffs, first, t).0 by {
        assert Nexts(process, diffs, first, Start(initial), 1) == Nexts(process, diffs, first, t, 0);
      }
    } else {
      k := 1;
      assert Item(process, initial, objects, 1) == item;
    }
  }

  // ---------- the items of any map ----------

  /** The state once `k` items of a map have been passed, at least two: all hits of the first two objects,
      and another hit for each later item. */
  function StateAfterItems<S, D>(process: Process<S, D>, initial: S, objects: seq<TaikoObject<D>>, k: nat): State<S>
    requires k >= 2 && |objects| >= 2
  {
    var hits := Hits(objects[..2]) + k - 2;
    var pos := SatSub(Passed(objects, hits), 2);
    State(k, hits, Processed(process, initial, DifficultyObjects(objects), pos), pos)
  }

  /** Where hits have been passed, but no fewer than the first two objects. */
  lemma PassedBeyondTwo<D>(objects: seq<TaikoObject<D>>, hits: nat)
    requires |objects| >= 2 && Hits(objects[..2]) <= hits <= Hits(objects)
    ensures var a := Max(2, Passed(objects, hits)); a <= |objects| && Hits(objects[..a]) == hits
  {
    hide Hits, Passed;
    var a := Passed(objects, hits);
    if hits == 0 {
      PassesNone(objects);
    } else {
      PassedEndsWithHit(objects, hits);
      if a < 2 {
        LongerPrefixMoreHits(objects, a, 2);
      }
    }
  }

  lemma NextHitAfter<D>(objects: seq<TaikoObject<D>>, hits: nat)
    requires |objects| >= 2 && Hits(objects[..2]) <= hits < Hits(objects)
    ensures var diffs := DifficultyObjects(objects); var (a, n) := (Max(2, Passed(objects, hits)), Passed(objects, hits + 1));
      && 2 <= a < n && n - 3 < |diffs| && diffs[n - 3].base.isHit
      && forall i | a - 2 <= i < n - 3 :: !diffs[i].base.isHit
  {
    hide Hits, Passed, DifficultyObjects;
    var a, n := Max(2, Passed(objects, hits)), Passed(objects, hits + 1);
    PassedBeyondTwo(objects, hits);
    PassedEndsWithHit(objects, hits + 1);
    if n <= a {
      LongerPrefixMoreHits(objects, n, a);
      assert false;
    }
    BaseOf(objects, n - 3);
    forall i | a - 2 <= i < n - 3
      ensures !DifficultyObjects(objects)[i].base.isHit
    {
      NoHitsBetween(objects, a, i + 2, n - 1);
      BaseOf(objects, i);
    }
  }

  lemma NextItem<S, D>(process: Process<S, D>, initial: S, objects: seq<TaikoObject<D>>, k: nat)
    requires |objects| >= 3 && k >= 2 && Hits(objects[..2]) + k - 2 < Hits(objects)
    ensures StateAfterItems(process, initial, objects, k).pos <= |DifficultyObjects(objects)|
    ensures NextState(process, DifficultyObjects(objects), FirstCombos(objects), StateAfterItems(process, initial, objects, k))
      == (Some(Batch(process, initial, objects, Hits(objects[..2]) + k - 1)), StateAfterItems(process, initial, objects, k + 1))
  {
    hide DifficultyObjects, Hits, Passed, Processed;
    var hits := Hits(objects[..2]) + k - 2;
    NextHitAfter(objects, hits);
    var n := Passed(objects, hits + 1);
    AdvancesToHit(process, initial, DifficultyObjects(objects), StateAfterItems(process, initial, objects, k), n - 3);
  }

  lemma NoItemAfterLast<S, D>(process: Process<S, D>, initial: S, objects: seq<TaikoObject<D>>, k: nat, j: nat)
    requires |objects| >= 3 && k >= 2 && Hits(objects[..2]) + k - 2 == Hits(objects)
    ensures StateAfterItems(process, initial, objects, k).pos <= |DifficultyObjects(objects)|
    ensures Nexts(process, DifficultyObjects(objects), FirstCombos(objects), StateAfterItems(process, initial, objects, k), j).0 == None
  {
    hide Passed, Processed, DifficultyObjects, Hits, FirstCombos, Advanced;
    var diffs, first, s := DifficultyObjects(objects), FirstCombos(objects), StateAfterItems(process, initial, objects, k);
    PassedBeyondTwo(objects, Hits(objects));
    AdvancedTakesHit(process, objects, s);
    HitsGrow(objects, Advanced(process, diffs, s).1.pos + 2);
    if j > 0 {
      NothingLeft(process, diffs, first, Advanced(process, diffs, s).1, j - 1);
    }
  }

  lemma {:induction false} ItemsAfter<S, D>(process: Process<S, D>, initial: S, objects: seq<TaikoObject<D>>, k: nat, j: nat)
    requires |objects| >= 3 && k >= 2 && Hits(objects[..2]) + k - 2 <= Hits(objects)
    ensures StateAfterItems(process, initial, objects, k).pos <= |DifficultyObjects(objects)|
    ensures var hits := Hits(objects[..2]) + k + j - 1;
      Nexts(process, DifficultyObjects(objects), FirstCombos(objects), StateAfterItems(process, initial, objects, k), j).0
        == if hits <= Hits(objects) then Some(Batch(process, initial, objects, hits)) else None
    decreases j
  {
    hide NextState, StateAfterItems, DifficultyObjects, Hits, FirstCombos, Batch;
    if Hits(objects[..2]) + k - 2 == Hits(objects) {
      NoItemAfterLast(process, initial, objects, k, j);
    } else {
      NextItem(process, initial, objects, k);
      if j > 0 {
        ItemsAfter(process, initial, objects, k + 1, j - 1);
      }
    }
  }

  /** The first two items count the hits among the first one or two objects. */
  lemma FirstTwoItems<S, D>(process: Process<S, D>, initial: S, objects: seq<TaikoObject<D>>)
    requires |objects| >= 3
    ensures var diffs, first := DifficultyObjects(objects), FirstCombos(objects);
      var (one, t) := NextState(process, diffs, first, Start(initial));
      && one == Some(Result(initial, Hits(objects[..1])))
      && NextState(process, diffs, first, t) ==
         (Some(Result(initial, Hits(objects[..2]))), StateAfterItems(process, initial, objects, 2))
  {
    HitsOfFirst(objects);
    PassedFirst(objects);
    hide Hits, Passed, Advanced;
  }

  lemma HitsOfFirst<D>(objects: seq<TaikoObject<D>>)
    requires |objects| >= 3
    ensures Hits(objects[..1]) == if objects[0].isHit then 1 else 0
    ensures Hits(objects[..2]) == Hits(objects[..1]) + if objects[1].isHit then 1 else 0
  {
    assert objects[..2][..1] == objects[..1] && objects[..1][..0] == [];
  }

  lemma PassedFirst<D>(objects: seq<TaikoObject<D>>)
    requires |objects| >= 2
    ensures Passed(objects, Hits(objects[..2])) <= 2
  {
    hide Hits, Passed;
    var hits := Hits(objects[..2]);
    if hits == 0 {
      PassesNone(objects);
    } else {
      HitsGrow(objects, 2);
      PassedEndsWithHit(objects, hits);
      var n := Passed(objects, hits);
      if n > 2 {
        LongerPrefixMoreHits(objects, 2, n - 1);
        assert false;
      }
    }
  }

  /** The items of every map. There are none without difficulty objects. The first two only count hits;
      from the third on, items are batch calculations of as many hits, less one for each of the first
      two objects that is none. */
  lemma ItemIs<S, D>(process: Process<S, D>, initial: S, objects: seq<TaikoObject<D>>, k: nat)
    requires k > 0
    ensures |objects| < 3 ==> Item(process, initial, objects, k) == None
    ensures |objects| >= 3 && k <= 2 ==> Item(process, initial, objects, k) == Some(Result(initial, Hits(objects[..k])))
    ensures |objects| >= 3 && k > 2 ==>
      var hits := k - (2 - Hits(objects[..2]));
      Item(process, initial, objects, k) == if hits <= Hits(objects) then Some(Batch(process, initial, objects, hits)) else None
  {
    hide NextState, StateAfterItems, DifficultyObjects, Hits, FirstCombos, Batch;
    if |objects| < 3 {
      StaysAtStart(process, objects, Start(initial), k - 1);
    } else {
      FirstTwoItems(process, initial, objects);
      HitsGrow(objects, 2);
      if k > 2 {
        ItemsAfter(process, initial, objects, 2, k - 3);
        TwoThenRest(process, DifficultyObjects(objects), FirstCombos(objects), Start(initial), k - 1);
      }
    }
  }

  lemma TwoThenRest<S, D>(process: Process<S, D>, diffs: seq<TaikoDifficultyObject<D>>, first: FirstTwoCombos, s: State<S>, k: nat)
    requires s.pos <= |diffs| && k >= 2
    ensures var t := NextState(process, diffs, first, s).1;
      Nexts(process, diffs, first, s, k) == Nexts(process, diffs, first, NextState(process, diffs, first, t).1, k - 2)
  {
    hide NextState;
    var t := NextState(process, diffs, first, s).1;
    assert Nexts(process, diffs, first, s, k) == Nexts(process, diffs, first, t, k - 1);
  }

  // ---------- `len` ----------

  /** `idx` counts the hits passed, and one more for each of the first two objects that is none. */
  ghost predicate CountsHits<S, D>(objects: seq<TaikoObject<D>>, s: State<S>) {
    && |objects| >= 3 && s.pos <= |DifficultyObjects(objects)|
    && (s.idx < 2 ==> s.pos == 0)
    && (s.idx >= 2 ==> s.idx == Hits(objects[..s.pos + 2]) + (2 - Hits(objects[..2])))
  }

  lemma NextCountsHits<S, D>(process: Process<S, D>, objects: seq<TaikoObject<D>>, s: State<S>)
    requires CountsHits(objects, s)
    ensures CountsHits(objects, NextState(process, DifficultyObjects(objects), FirstCombos(objects), s).1)
  {
    hide Hits, Advanced, DifficultyObjects;
    if s.idx >= 2 {
      AdvancedTakesHit(process, objects, s);
    }
  }

  lemma {:induction false} NextsCountHits<S, D>(process: Process<S, D>, objects: seq<TaikoObject<D>>, s: State<S>, k: nat)
    requires CountsHits(objects, s)
    ensures CountsHits(objects, Nexts(process, DifficultyObjects(objects), FirstCombos(objects), s, k).1)
    decreases k
  {
    hide CountsHits, NextState;
    assert s.pos <= |DifficultyObjects(objects)| by { PosInBounds(objects, s); }
    NextCountsHits(process, objects, s);
    if k > 0 {
      NextsCountHits(process, objects, NextState(process, DifficultyObjects(objects), FirstCombos(objects), s).1, k - 1);
    }
  }

  lemma PosInBounds<S, D>(objects: seq<TaikoObject<D>>, s: State<S>)
    requires CountsHits(objects, s)
    ensures s.pos <= |DifficultyObjects(objects)|
  {}

  /** Calling `next` until it gives nothing leads to the end. */
  lemma {:induction false} ReachesEnd<S, D>(process: Process<S, D>, objects: seq<TaikoObject<D>>, s: State<S>) returns (k: nat)
    requires CountsHits(objects, s)
    ensures Nexts(process, DifficultyObjects(objects), FirstCombos(objects), s, k).1.pos == |DifficultyObjects(objects)|
    ensures Nexts(process, DifficultyObjects(objects), FirstCombos(objects), s, k).1.idx >= 2
    decreases if s.idx < 2 then 2 - s.idx else 0, |objects| - s.pos
  {
    var diffs, first := DifficultyObjects(objects), FirstCombos(objects);
    var (item, t) := NextState(process, diffs, first, s);
    if s.idx >= 2 && t.pos == |diffs| {
      k := 0;
    } else {
      NextCountsHits(process, objects, s);
      if s.idx >= 2 {
        AdvancedMoves(process, diffs, s);
      }
      var rest := ReachesEnd(process, objects, t);
      k := rest + 1;
    }
  }

  lemma {:induction false} AdvancedMoves<S, D>(process: Process<S, D>, diffs: seq<TaikoDifficultyObject<D>>, s: State<S>)
    requires s.pos < |diffs|
    ensures Advanced(process, diffs, s).1.pos > s.pos
    decreases |diffs| - s.pos
  {
    var t := s.(skills := process(s.skills, diffs, s.pos), pos := s.pos + 1);
    if !diffs[s.pos].base.isHit && t.pos < |diffs| {
      AdvancedMoves(process, diffs, t);
    }
  }

  // ---------- any calls ----------

  /** The state after one call. */
  function Called<S, D>(process: Process<S, D>, objects: seq<TaikoObject<D>>, s: State<S>, call: Call): (t: State<S>)
    requires s.pos <= |DifficultyObjects(objects)|
    ensures t.pos <= |DifficultyObjects(objects)|
  {
    match call
    case Next => NextState(process, DifficultyObjects(objects), FirstCombos(objects), s).1
    case Nth(n) => NthState(process, DifficultyObjects(objects), FirstCombos(objects), Hits(objects), s, n).1
  }

  function StateAfter<S, D>(process: Process<S, D>, objects: seq<TaikoObject<D>>, s: State<S>, calls: seq<Call>): (t: State<S>)
    requires s.pos <= |DifficultyObjects(objects)|
    ensures t.pos <= |DifficultyObjects(objects)|
    decreases |calls|
  {
    if calls == [] then s else StateAfter(process, objects, Called(process, objects, s, calls[0]), calls[1..])
  }

  /** `len` never subtracts too much, however `next` and `nth` are called. */
  ghost predicate LenIsSafe<S, D>(process: Process<S, D>, initial: S, objects: seq<TaikoObject<D>>) {
    forall calls: seq<Call> :: StateAfter(process, objects, Start(initial), calls).idx <= Hits(objects)
  }

  lemma LenIsSafeExactlyIf<S, D>(process: Process<S, D>, initial: S, objects: seq<TaikoObject<D>>)
    ensures LenIsSafe(process, initial, objects) <==> |objects| < 3 || (objects[0].isHit && objects[1].isHit)
  {
    hide Hits, StateAfter, DifficultyObjects, CountsHits;
    if |objects| < 3 || (objects[0].isHit && objects[1].isHit) {
      forall calls: seq<Call>
        ensures StateAfter(process, objects, Start(initial), calls).idx <= Hits(objects)
      {
        SafeAtStart(initial, objects);
        StaysSafe(process, objects, Start(initial), calls);
      }
    } else {
      var calls := ExceedsHits(process, initial, objects);
    }
  }

  /** What all calls keep on a map on which `len` is safe. */
  ghost predicate Safe<S, D>(objects: seq<TaikoObject<D>>, s: State<S>) {
    && s.pos <= |DifficultyObjects(objects)| && s.idx <= Hits(objects)
    && (|objects| >= 3 ==> objects[0].isHit && objects[1].isHit && CountsHits(objects, s))
  }

  lemma SafeAtStart<S, D>(initial: S, objects: seq<TaikoObject<D>>)
    requires |objects| < 3 || (objects[0].isHit && objects[1].isHit)
    ensures Safe(objects, Start(initial))
  {}

  lemma CountedIsSafe<S, D>(objects: seq<TaikoObject<D>>, s: State<S>)
    requires FirstTwoAreHits(objects) && CountsHits(objects, s)
    ensures Safe(objects, s)
  {
    FirstTwoCounted(objects);
    HitsGrow(objects, s.pos + 2);
    hide Hits, DifficultyObjects;
  }

  lemma CalledIsSafe<S, D>(process: Process<S, D>, objects: seq<TaikoObject<D>>, s: State<S>, call: Call)
    requires Safe(objects, s)
    ensures Safe(objects, Called(process, objects, s, call))
  {
    hide Hits, DifficultyObjects, CountsHits;
    if |objects| >= 3 {
      CalledCountsHits(process, objects, s, call);
      CountedIsSafe(objects, Called(process, objects, s, call));
    } else {
      hide Nexts;
      AdvancesNowhere(process, DifficultyObjects(objects), s);
    }
  }

  lemma CalledCountsHits<S, D>(process: Process<S, D>, objects: seq<TaikoObject<D>>, s: State<S>, call: Call)
    requires CountsHits(objects, s)
    ensures s.pos <= |DifficultyObjects(objects)| && CountsHits(objects, Called(process, objects, s, call))
  {
    PosInBounds(objects, s);
    match call
    case Next => NextCountsHits(process, objects, s);
    case Nth(n) => NextsCountHits(process, objects, s, Min(n, SatSub(SatSub(Hits(objects), s.idx), 1)));
  }

  lemma {:induction false} StaysSafe<S, D>(process: Process<S, D>, objects: seq<TaikoObject<D>>, s: State<S>, calls: seq<Call>)
    requires Safe(objects, s)
    ensures Safe(objects, StateAfter(process, objects, s, calls))
    decreases |calls|
  {
    hide Safe, Called;
    SafeInBounds(objects, s);
    if calls != [] {
      CalledIsSafe(process, objects, s, calls[0]);
      StaysSafe(process, objects, Called(process, objects, s, calls[0]), calls[1..]);
    }
  }

  lemma SafeInBounds<S, D>(objects: seq<TaikoObject<D>>, s: State<S>)
    requires Safe(objects, s)
    ensures s.pos <= |DifficultyObjects(objects)|
  {}

  function Repeated(k: nat): seq<Call> {
    if k == 0 then [] else [Next] + Repeated(k - 1)
  }

  lemma {:induction false} RepeatedIsNexts<S, D>(process: Process<S, D>, objects: seq<TaikoObject<D>>, s: State<S>, k: nat)
    requires s.pos <= |DifficultyObjects(objects)|
    ensures StateAfter(process, objects, s, Repeated(k + 1)) ==
      Nexts(process, DifficultyObjects(objects), FirstCombos(objects), s, k).1
    decreases k
  {
    hide NextState, DifficultyObjects, FirstCombos, Hits, NthState;
    var t := Called(process, objects, s, Next);
    assert Repeated(k + 1)[0] == Next && Repeated(k + 1)[1..] == Repeated(k);
    if k > 0 {
      RepeatedIsNexts(process, objects, t, k - 1);
    }
  }

  /** Otherwise calling `next` until nothing is left counts more items than there are hits. */
  lemma ExceedsHits<S, D>(process: Process<S, D>, initial: S, objects: seq<TaikoObject<D>>) returns (calls: seq<Call>)
    requires |objects| >= 3 && !(objects[0].isHit && objects[1].isHit)
    ensures StateAfter(process, objects, Start(initial), calls).idx > Hits(objects)
  {
    FirstTwoCounted(objects);
    var k := ReachesEnd(process, objects, Start(initial));
    NextsCountHits(process, objects, Start(initial), k);
    RepeatedIsNexts(process, objects, Start(initial), k);
    assert objects[..|objects| - 2 + 2] == objects;
    hide Nexts, StateAfter, Hits, DifficultyObjects;
    calls := Repeated(k + 1);
  }

  lemma FirstTwoCounted<D>(objects: seq<TaikoObject<D>>)
    requires |objects| >= 3
    ensures Hits(objects[..2]) == (if objects[0].isHit then 1 else 0) + (if objects[1].isHit then 1 else 0)
    ensures Hits(objects) >= Hits(objects[..2])
  {
    assert objects[..2][..1] == objects[..1] && objects[..1][..0] == [];
    HitsGrow(objects, 2);
  }
}

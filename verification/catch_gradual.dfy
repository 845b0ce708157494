/** osu!catch's object counts and difficulty, for a prefix of the palpable objects at once or
    object by object. */
module CatchGradual {
  import opened Wrappers
  import opened GradualCalls
  import opened Rounding

  datatype Record = Fruit | Droplet | TinyDroplets(n: nat)

  datatype ObjectCount = ObjectCount(fruits: nat, droplets: nat, tinyDroplets: nat)

  datatype GradualObjectCount = GradualObjectCount(fruit: bool, tinyDroplets: nat)

  datatype Counting =
    | Regular(count: ObjectCount, take: nat)
    | Gradual(curr: GradualObjectCount, all: seq<GradualObjectCount>)

  const NothingYet := ObjectCount(0, 0, 0)

  /** What one record does to either kind of builder. */
  function Recorded(c: Counting, r: Record): (n: Counting)
    ensures n.Regular? == c.Regular?
  {
    match (c, r)
    case (Regular(count, take), Fruit) =>
      if take > 0 then Regular(count.(fruits := count.fruits + 1), take - 1) else c
    case (Regular(count, take), Droplet) =>
      if take > 0 then Regular(count.(droplets := count.droplets + 1), take - 1) else c
    case (Regular(count, take), TinyDroplets(n)) =>
      if take > 0 then Regular(count.(tinyDroplets := count.tinyDroplets + n), take) else c
    case (Gradual(curr, all), Fruit) => Gradual(GradualObjectCount(false, 0), all + [curr.(fruit := true)])
    case (Gradual(curr, all), Droplet) => Gradual(GradualObjectCount(false, 0), all + [curr])
    case (Gradual(curr, all), TinyDroplets(n)) => Gradual(curr.(tinyDroplets := curr.tinyDroplets + n), all)
  }

  class ObjectCountBuilder {
    var counting: Counting

    constructor NewRegular(take: nat)
      ensures counting == Regular(NothingYet, take)
    {
      counting := Regular(NothingYet, take);
    }

    constructor NewGradual()
      ensures counting == Gradual(GradualObjectCount(false, 0), [])
    {
      counting := Gradual(GradualObjectCount(false, 0), []);
    }

    method RecordFruit()
      modifies this
      ensures counting == Recorded(old(counting), Fruit)
    {
      match counting
      case Regular(count, take) =>
        if take > 0 {
          counting := Regular(count.(fruits := count.fruits + 1), take - 1);
        }
      case Gradual(curr, all) =>
        counting := Gradual(GradualObjectCount(false, 0), all + [curr.(fruit := true)]);
    }

    method RecordDroplet()
      modifies this
      ensures counting == Recorded(old(counting), Droplet)
    {
      match counting
      case Regular(count, take) =>
        if take > 0 {
          counting := Regular(count.(droplets := count.droplets + 1), take - 1);
        }
      case Gradual(curr, all) => counting := Gradual(GradualObjectCount(false, 0), all + [curr]);
    }

    method RecordTinyDroplets(n: nat)
      modifies this
      ensures counting == Recorded(old(counting), TinyDroplets(n))
    {
      match counting
      case Regular(count, take) =>
        if take > 0 {
          counting := Regular(count.(tinyDroplets := count.tinyDroplets + n), take);
        }
      case Gradual(curr, all) => counting := Gradual(curr.(tinyDroplets := curr.tinyDroplets + n), all);
    }
  }

  // ---------- both kinds of counting agree ----------

  function RecordedAll(c: Counting, records: seq<Record>): (n: Counting)
    ensures n.Regular? == c.Regular?
  {
    if records == [] then c else Recorded(RecordedAll(c, records[..|records| - 1]), records[|records| - 1])
  }

  function Deltas(records: seq<Record>): (c: Counting) {
    RecordedAll(Gradual(GradualObjectCount(false, 0), []), records)
  }

  function Totals(records: seq<Record>, take: nat): (c: Counting) {
    RecordedAll(Regular(NothingYet, take), records)
  }

  /** How many records belong to palpable objects. */
  function Palpables(records: seq<Record>): nat {
    if records == [] then 0
    else Palpables(records[..|records| - 1]) + if records[|records| - 1].TinyDroplets? then 0 else 1
  }

  /** `add_object_count` */
  function Added(count: ObjectCount, delta: GradualObjectCount): ObjectCount {
    var c := if delta.fruit then count.(fruits := count.fruits + 1) else count.(droplets := count.droplets + 1);
    c.(tinyDroplets := c.tinyDroplets + delta.tinyDroplets)
  }

  function SumOf(deltas: seq<GradualObjectCount>): ObjectCount {
    if deltas == [] then NothingYet else Added(SumOf(deltas[..|deltas| - 1]), deltas[|deltas| - 1])
  }

  /** Limited to `take` palpable objects, the builder holds the sum of the first deltas; while
      it has not reached its limit, also the tiny droplets since the last palpable object. */
  lemma {:induction false} TotalsAreSums(records: seq<Record>, take: nat)
    ensures Deltas(records).Gradual? && |Deltas(records).all| == Palpables(records)
    ensures !Deltas(records).curr.fruit
    ensures Totals(records, take).Regular? && Totals(records, take).take == SatSub(take, Palpables(records))
    ensures take <= Palpables(records) ==> Totals(records, take).count == SumOf(Deltas(records).all[..take])
    ensures take > Palpables(records) ==>
      var sum := SumOf(Deltas(records).all);
      Totals(records, take).count == sum.(tinyDroplets := sum.tinyDroplets + Deltas(records).curr.tinyDroplets)
  {
    TotalsAreSumsUpTo(records, take);
    hide Deltas, Totals, Palpables, SumOf;
  }

  ghost predicate SumsUp(deltas: Counting, totals: Counting, n: nat, take: nat) {
    && deltas.Gradual? && |deltas.all| == n && !deltas.curr.fruit
    && totals.Regular? && totals.take == SatSub(take, n)
    && (take <= n ==> totals.count == SumOf(deltas.all[..take]))
    && (take > n ==> totals.count == WithTiny(SumOf(deltas.all), deltas.curr.tinyDroplets))
  }

  function WithTiny(count: ObjectCount, n: nat): ObjectCount {
    count.(tinyDroplets := count.tinyDroplets + n)
  }

  lemma {:induction false} TotalsAreSumsUpTo(records: seq<Record>, take: nat)
    ensures SumsUp(Deltas(records), Totals(records, take), Palpables(records), take)
  {
    if records != [] {
      var front, last := records[..|records| - 1], records[|records| - 1];
      TotalsAreSumsUpTo(front, take);
      if last.TinyDroplets? {
        TinySumsUp(Deltas(front), Totals(front, take), Palpables(front), take, last);
      } else {
        PalpableSumsUp(Deltas(front), Totals(front, take), Palpables(front), take, last);
      }
      hide SumsUp, Recorded;
    }
  }

  lemma TinySumsUp(deltas: Counting, totals: Counting, n: nat, take: nat, r: Record)
    requires SumsUp(deltas, totals, n, take) && r.TinyDroplets?
    ensures SumsUp(Recorded(deltas, r), Recorded(totals, r), n, take)
  {
    hide SumOf;
  }

  lemma PalpableSumsUp(deltas: Counting, totals: Counting, n: nat, take: nat, r: Record)
    requires SumsUp(deltas, totals, n, take) && !r.TinyDroplets?
    ensures SumsUp(Recorded(deltas, r), Recorded(totals, r), n + 1, take)
  {
    var delta := deltas.curr.(fruit := r.Fruit?);
    SumOfOneMore(deltas.all, delta);
    hide SumOf;
    var now := deltas.all + [delta];
    assert now[..n] == deltas.all;
    if take <= n {
      assert now[..take] == deltas.all[..take];
    } else {
      assert now[..n + 1] == now;
    }
  }

  lemma SumOfOneMore(deltas: seq<GradualObjectCount>, delta: GradualObjectCount)
    ensures SumOf(deltas + [delta]) == Added(SumOf(deltas), delta)
  {
    assert (deltas + [delta])[..|deltas|] == deltas;
  }

  predicate IsFruit(r: Record) {
    r.Fruit?
  }

  predicate IsDroplet(r: Record) {
    r.Droplet?
  }

  /** Where records are. */
  ghost function Places(records: seq<Record>, counts: Record -> bool): set<nat> {
    set k | 0 <= k < |records| && counts(records[k])
  }

  lemma PlacesGrow(records: seq<Record>, counts: Record -> bool)
    requires records != []
    ensures var last := |records| - 1;
      |Places(records, counts)| == |Places(records[..last], counts)| + if counts(records[last]) then 1 else 0
  {
    var last := |records| - 1;
    assert Places(records, counts) == Places(records[..last], counts) + if counts(records[last]) then {last} else {};
  }

  function TinyDropletsIn(records: seq<Record>): nat {
    if records == [] then 0
    else
      TinyDropletsIn(records[..|records| - 1]) +
      match records[|records| - 1] { case TinyDroplets(n) => n case _ => 0 }
  }

  /** With a limit that is not reached the totals are the numbers of records of either kind and
      all tiny droplets. */
  lemma {:induction false} TotalsAreNumbers(records: seq<Record>, take: nat)
    requires take > Palpables(records)
    ensures Totals(records, take).count == ObjectCount(|Places(records, IsFruit)|,
              |Places(records, IsDroplet)|, TinyDropletsIn(records))
  {
    TotalsAreSums(records, take);
    if records != [] {
      var front := records[..|records| - 1];
      TotalsAreSums(front, take);
      TotalsAreNumbers(front, take);
      PlacesGrow(records, IsFruit);
      PlacesGrow(records, IsDroplet);
    }
  }

  lemma {:induction false} SumCountsAll(deltas: seq<GradualObjectCount>)
    ensures SumOf(deltas).fruits + SumOf(deltas).droplets == |deltas|
  {
    if deltas != [] {
      SumCountsAll(deltas[..|deltas| - 1]);
    }
  }

  // ---------- difficulty objects ----------

  datatype CatchDifficultyObject<P> = CatchDifficultyObject(base: P, last: P, idx: nat)

  type Movement<!S, !P> = (S, CatchDifficultyObject<P>, Option<CatchDifficultyObject<P>>) -> S

  function DifficultyObjects<P>(palpables: seq<P>): (r: seq<CatchDifficultyObject<P>>)
    ensures |r| == if palpables == [] then 0 else |palpables| - 1
  {
    if palpables == [] then []
    else seq(|palpables| - 1, i requires 0 <= i < |palpables| - 1 => CatchDifficultyObject(palpables[i + 1], palpables[i], i))
  }

  lemma PrefixOfDifficultyObjects<P>(palpables: seq<P>, k: nat)
    requires 0 < k <= |palpables|
    ensures DifficultyObjects(palpables[..k]) == DifficultyObjects(palpables)[..k - 1]
  {}

  method CreateDifficultyObjects<P>(palpables: seq<P>) returns (r: seq<CatchDifficultyObject<P>>)
    ensures r == DifficultyObjects(palpables)
  {
    if |palpables| == 0 {
      return [];
    }
    var last := palpables[0];
    r := [];
    for i := 0 to |palpables| - 1
      invariant last == palpables[i] && r == DifficultyObjects(palpables)[..i]
    {
      r := r + [CatchDifficultyObject(palpables[i + 1], last, i)];
      last := palpables[i + 1];
    }
  }

  function Previous<P>(diffs: seq<CatchDifficultyObject<P>>, i: nat): Option<CatchDifficultyObject<P>>
    requires i < |diffs|
  {
    if i == 0 then None else Some(diffs[i - 1])
  }

  function Processed<S, P>(process: Movement<S, P>, movement: S, diffs: seq<CatchDifficultyObject<P>>, n: nat): S
    requires n <= |diffs|
  {
    if n == 0 then movement
    else process(Processed(process, movement, diffs, n - 1), diffs[n - 1], Previous(diffs, n - 1))
  }

  lemma {:induction false} ProcessedPrefix<S, P>(process: Movement<S, P>, movement: S,
                                                 diffs: seq<CatchDifficultyObject<P>>, n: nat, m: nat)
    requires n <= m <= |diffs|
    ensures Processed(process, movement, diffs[..m], n) == Processed(process, movement, diffs, n)
  {
    if n > 0 {
      ProcessedPrefix(process, movement, diffs, n - 1, m);
    }
  }

  // ---------- batch and gradual ----------

  datatype Result<S> = Result(movement: S, count: ObjectCount)

  function Batch<S, P>(process: Movement<S, P>, movement: S, palpables: seq<P>, records: seq<Record>, k: nat): Result<S> {
    var diffs := DifficultyObjects(palpables[..Min(k, |palpables|)]);
    Result(Processed(process, movement, diffs, |diffs|), Totals(records, k).count)
  }

  datatype Fed<P> = Fed(curr: CatchDifficultyObject<P>, before: Option<CatchDifficultyObject<P>>)

  /** A skill that does nothing but note what it is given. */
  function Noting<P>(): Movement<seq<Fed<P>>, P> {
    (noted, curr, before) => noted + [Fed(curr, before)]
  }

  lemma {:induction false} NotesAll<P>(diffs: seq<CatchDifficultyObject<P>>, n: nat)
    requires n <= |diffs|
    ensures Processed(Noting(), [], diffs, n) == seq(n, i requires 0 <= i < n => Fed(diffs[i], Previous(diffs, i)))
  {
    if n > 0 {
      NotesAll(diffs, n - 1);
    }
  }

  /** What a skill is given by the batch calculation: every passed palpable object but the first,
      in order, each with the one before it and with what was given before. */
  lemma FedInOrder<P>(palpables: seq<P>, records: seq<Record>, k: nat)
    ensures var fed: seq<Fed<P>> := Batch(Noting(), [], palpables, records, k).movement;
      var passed := if k < |palpables| then k else |palpables|;
      && |fed| == (if passed == 0 then 0 else passed - 1)
      && forall i | 0 <= i < |fed| ::
        && fed[i].curr == CatchDifficultyObject(palpables[i + 1], palpables[i], i)
        && fed[i].before == if i == 0 then None else Some(fed[i - 1].curr)
  {
    var diffs := DifficultyObjects(palpables[..Min(k, |palpables|)]);
    var fed: seq<Fed<P>> := Processed(Noting(), [], diffs, |diffs|);
    NotesAll(diffs, |diffs|);
    hide Processed, Totals;
    assert Batch(Noting(), [], palpables, records, k).movement == fed;
    hide Batch, Noting, DifficultyObjects;
    forall i | 0 <= i < |fed|
      ensures fed[i].curr == CatchDifficultyObject(palpables[i + 1], palpables[i], i)
      ensures fed[i].before == if i == 0 then None else Some(fed[i - 1].curr)
    {
      DifficultyObjectAt(palpables[..Min(k, |palpables|)], i);
    }
  }

  lemma DifficultyObjectAt<P>(palpables: seq<P>, i: nat)
    requires i + 1 < |palpables|
    ensures DifficultyObjects(palpables)[i] == CatchDifficultyObject(palpables[i + 1], palpables[i], i)
  {}

  method Calculate<S, P>(process: Movement<S, P>, initial: S, palpables: seq<P>, records: seq<Record>, take: nat)
      returns (r: Result<S>)
    ensures r == Batch(process, initial, palpables, records, take)
  {
    var builder := new ObjectCountBuilder.NewRegular(take);
    for k := 0 to |records|
      invariant builder.counting == Totals(records[..k], take)
    {
      assert records[..k + 1][..k] == records[..k];
      match records[k]
      case Fruit => builder.RecordFruit();
      case Droplet => builder.RecordDroplet();
      case TinyDroplets(n) => builder.RecordTinyDroplets(n);
    }
    assert records[..|records|] == records;
    var diffs := CreateDifficultyObjects(palpables[..Min(take, |palpables|)]);
    var movement := initial;
    for i := 0 to |diffs|
      invariant movement == Processed(process, initial, diffs, i)
    {
      movement := process(movement, diffs[i], Previous(diffs, i));
    }
    TotalsAreSums(records, take);
    r := Result(movement, builder.counting.count);
  }

  lemma ItemIsBatch<S, P>(process: Movement<S, P>, initial: S, palpables: seq<P>, records: seq<Record>, k: nat)
    requires |palpables| == Palpables(records) && 0 < k <= |palpables|
    ensures k <= |Deltas(records).all| && k - 1 <= |DifficultyObjects(palpables)|
    ensures Batch(process, initial, palpables, records, k) ==
      Result(Processed(process, initial, DifficultyObjects(palpables), k - 1), SumOf(Deltas(records).all[..k]))
  {
    hide DifficultyObjects, Processed, SumOf, Totals, Deltas;
    TotalsAreSums(records, k);
    PrefixOfDifficultyObjects(palpables, k);
    ProcessedPrefix(process, initial, DifficultyObjects(palpables), k - 1, k - 1);
    assert palpables[..Min(k, |palpables|)] == palpables[..k];
  }

  class CatchGradualDifficulty<S, P> {
    const process: Movement<S, P>
    ghost const initial: S
    ghost const palpables: seq<P>
    ghost const records: seq<Record>
    const count: seq<GradualObjectCount>
    const diffObjects: seq<CatchDifficultyObject<P>>
    var idx: nat
    var movement: S
    var attrs: ObjectCount

    ghost predicate Valid()
      reads this
    {
      && |palpables| == Palpables(records) == |count| && idx <= |count|
      && Deltas(records).Gradual? && count == Deltas(records).all
      && diffObjects == DifficultyObjects(palpables)
      && attrs == SumOf(count[..idx])
      && movement == Processed(process, initial, diffObjects, if idx == 0 then 0 else idx - 1)
    }

    ghost function BatchOf(k: nat): Result<S> {
      Batch(process, initial, palpables, records, k)
    }

    /** Every palpable object has one record that is not of tiny droplets. */
    constructor (process: Movement<S, P>, initial: S, palpables: seq<P>, records: seq<Record>)
      requires |palpables| == Palpables(records)
      ensures Valid() && idx == 0
      ensures this.process == process && this.initial == initial && this.palpables == palpables && this.records == records
    {
      var builder := new ObjectCountBuilder.NewGradual();
      for k := 0 to |records|
        invariant builder.counting == Deltas(records[..k])
      {
        assert records[..k + 1][..k] == records[..k];
        match records[k]
        case Fruit => builder.RecordFruit();
        case Droplet => builder.RecordDroplet();
        case TinyDroplets(n) => builder.RecordTinyDroplets(n);
      }
      assert records[..|records|] == records;
      TotalsAreSums(records, 0);
      var diffs := CreateDifficultyObjects(palpables);
      this.process, this.initial, this.palpables, this.records := process, initial, palpables, records;
      count, diffObjects, idx := builder.counting.all, diffs, 0;
      movement, attrs := initial, NothingYet;
    }

    method AddObjectCount(k: nat)
      requires Valid() && k == idx < |count|
      modifies this`attrs
      ensures attrs == SumOf(count[..idx + 1])
    {
      assert count[..idx + 1][..idx] == count[..idx];
      attrs := Added(attrs, count[k]);
    }

    /** The item is the batch calculation for as many palpable objects as have been passed. */
    method Next() returns (item: Option<Result<S>>)
      requires Valid()
      modifies this
      ensures Valid() && idx == NextIdx(old(idx), |count|)
      ensures item == if old(idx) < |count| then Some(BatchOf(idx)) else None
    {
      hide SumOf, Deltas, Totals, Processed, Palpables;
      if idx > 0 {
        if idx - 1 >= |diffObjects| {
          return None;
        }
        AddAndProcess(idx - 1);
      } else if |count| == 0 {
        return None;
      } else {
        AddObjectCount(idx);
        idx := idx + 1;
      }
      item := Some(Result(movement, attrs));
      ItemIsBatch(process, initial, palpables, records, idx);
    }

    /** What both calls do with the difficulty object of the next item. */
    method AddAndProcess(j: nat)
      requires Valid() && idx > 0 && j == idx - 1 < |diffObjects|
      modifies this
      ensures Valid() && idx == old(idx) + 1
    {
      AddObjectCount(idx);
      hide SumOf, Deltas, DifficultyObjects;
      movement := process(movement, diffObjects[j], Previous(diffObjects, j));
      idx := idx + 1;
    }

    /** One too many for an empty map, never below zero. */
    function Len(): (n: nat)
      requires Valid()
      reads this
      ensures n == if |count| == 0 then 1 else |count| - idx
    {
      |diffObjects| + 1 - idx
    }

    method Nth(n: nat) returns (item: Option<Result<S>>)
      requires Valid()
      modifies this
      ensures Valid() && idx == NthIdx(n, old(idx), |count|)
      ensures item == if old(idx) < |count| then Some(BatchOf(idx)) else None
    {
      var skip := if idx == 0 then 0 else idx - 1;
      var take := Min(n, SatSub(Len(), 1));
      ghost var target := idx + take;
      if idx == 0 && take > 0 {
        take := take - 1;
        AddObjectCount(idx);
        idx := idx + 1;
      }
      for i := 0 to take
        invariant Valid() && idx == target - (take - i)
        invariant i < take ==> idx == skip + i + 1
      {
        hide SumOf, Deltas, DifficultyObjects, Processed, Palpables;
        AddAndProcess(skip + i);
      }
      item := Next();
    }
  }
}

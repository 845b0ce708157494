/** osu!mania plays: the attributes of a map, the results generated from them, and what these are
    worth. */
module ManiaPlay {
  import opened Wrappers
  import opened HitResults
  import opened Rounding
  import opened Plays
  import G = ManiaGradual
  import H = ManiaHits

  /** One result for a circle, and in lazer two for a hold note. */
  function ResultsOf(objects: seq<G.ManiaObject>, lazer: bool): nat {
    if objects == [] then 0
    else
      var last := objects[|objects| - 1];
      ResultsOf(objects[..|objects| - 1], lazer) + if lazer && !last.isCircle then 2 else 1
  }

  lemma {:induction false} ResultsAreCounted(objects: seq<G.ManiaObject>, lazer: bool)
    ensures ResultsOf(objects, lazer) == if lazer then |objects| + G.Counted(objects).nHoldNotes else |objects|
  {
    if objects != [] {
      ResultsAreCounted(objects[..|objects| - 1], lazer);
    }
  }

  /** With the attributes of the first `k` objects, however many of them count as passed, and given
      counts that fit, there are as many results as the objects have. */
  lemma PlayHasAllResults<S>(process: G.Strain<S>, initial: S, objects: seq<G.ManiaObject>, k: nat, clockRate: real,
                             s: H.Settings, st: H.ScoreState)
    requires clockRate > 0.0 && H.Generated(s, st)
    requires var attrs := G.Batch(process, initial, objects, k, clockRate);
      s.attrs == H.Attrs(attrs.nObjects, attrs.nHoldNotes)
    requires s.passedObjects >= k || s.passedObjects >= |objects|
    ensures var taken := if k < |objects| then objects[..k] else objects;
      var results := st.n320 + st.n300 + st.n200 + st.n100 + st.n50 + st.misses;
      var given := ValueOr0(s.n320) + ValueOr0(s.n300) + ValueOr0(s.n200) + ValueOr0(s.n100) + ValueOr0(s.n50);
      && IsUpTo(st.misses, s.misses, |taken|, 0)
      && results >= ResultsOf(taken, s.lazer)
      && (given + st.misses <= ResultsOf(taken, s.lazer) ==> results == ResultsOf(taken, s.lazer))
  {
    hide H.Generated;
    var taken := if k < |objects| then objects[..k] else objects;
    assert objects[..Min(k, |objects|)] == taken;
    H.ResultsOfPlay(s, st);
    ResultsAreCounted(taken, s.lazer);
  }

  // ---------- plays as lists of results ----------

  datatype Result = N320 | N300 | N200 | N100 | N50 | Miss

  /** Of at most 300. */
  function Worth(): Result -> nat {
    (r: Result) =>
      match r
      case N320 => 300
      case N300 => 300
      case N200 => 200
      case N100 => 100
      case N50 => 50
      case Miss => 0
  }

  function AccuracyOf(play: seq<Result>): real
    requires play != []
  {
    Earned(play, Worth()) as real / (300 * |play|) as real
  }

  /** One result for every object passed, and in lazer another one for every hold note. */
  predicate IsPlay(s: H.Settings, play: seq<Result>) {
    var passed := if s.passedObjects < s.attrs.nObjects then s.passedObjects else s.attrs.nObjects;
    |play| == if s.lazer then passed + s.attrs.nHoldNotes else passed
  }

  ghost predicate Has(play: seq<Result>, st: H.ScoreState) {
    var m := multiset(play);
    && m[N320] == st.n320 && m[N300] == st.n300 && m[N200] == st.n200 && m[N100] == st.n100 && m[N50] == st.n50
    && m[Miss] == st.misses
  }

  ghost predicate HasGiven(s: H.Settings, play: seq<Result>) {
    var m := multiset(play);
    && Agrees(s.n320, m[N320]) && Agrees(s.n300, m[N300]) && Agrees(s.n200, m[N200]) && Agrees(s.n100, m[N100])
    && Agrees(s.n50, m[N50])
  }

  ghost function EarnedBy(m: multiset<Result>): nat {
    300 * m[N320] + 300 * m[N300] + 200 * m[N200] + 100 * m[N100] + 50 * m[N50]
  }

  ghost function SizeBy(m: multiset<Result>): nat {
    m[N320] + m[N300] + m[N200] + m[N100] + m[N50] + m[Miss]
  }

  lemma OneMoreResult(m: multiset<Result>, r: Result)
    ensures EarnedBy(m + multiset{r}) == EarnedBy(m) + Worth()(r) && SizeBy(m + multiset{r}) == SizeBy(m) + 1
  {}

  lemma {:induction false} EarnedIs(play: seq<Result>)
    ensures Earned(play, Worth()) == EarnedBy(multiset(play)) && |play| == SizeBy(multiset(play))
  {
    if play != [] {
      var front := play[..|play| - 1];
      EarnedIs(front);
      LastResult(play);
      OneMoreResult(multiset(front), play[|play| - 1]);
      hide EarnedBy, SizeBy, Worth;
    }
  }

  lemma ScoreIs(st: H.ScoreState, play: seq<Result>)
    requires Has(play, st)
    ensures 50 * (6 * (st.n320 + st.n300) + st.ToLower().Score()) == EarnedBy(multiset(play))
    ensures 6 * (st.n320 + st.n300 + st.ToLower().Sum() + st.misses) == 6 * SizeBy(multiset(play))
  {}

  /** The accuracy of a state is what a play with its results has earned. */
  lemma AccuracyOfPlay(st: H.ScoreState, play: seq<Result>)
    requires Has(play, st) && play != []
    ensures H.Accuracy(st.n320, st.n300, st.ToLower(), st.misses) == Finite(AccuracyOf(play))
  {
    hide Has, EarnedBy, SizeBy, Earned, H.Lower.Score, H.Lower.Sum;
    ScoreIs(st, play);
    EarnedIs(play);
    FiftyTimes(6 * (st.n320 + st.n300) + st.ToLower().Score(), 6 * |play|);
  }

  lemma FiftyTimes(a: nat, b: nat)
    requires b > 0
    ensures (50 * a) as real / (50 * b) as real == a as real / b as real
  {
    var q := a as real / b as real;
    assert q * (b as real) == a as real;
  }

  function PlayOf(st: H.ScoreState): seq<Result> {
    Best(st.n320, st.n300, st.n200) + Worst(st.n100, st.n50, st.misses)
  }

  function Best(n320: nat, n300: nat, n200: nat): seq<Result> {
    Times(n320, N320) + Times(n300, N300) + Times(n200, N200)
  }

  function Worst(n100: nat, n50: nat, misses: nat): seq<Result> {
    Times(n100, N100) + Times(n50, N50) + Times(misses, Miss)
  }

  lemma BestHas(n320: nat, n300: nat, n200: nat)
    ensures var m := multiset(Best(n320, n300, n200));
      m[N320] == n320 && m[N300] == n300 && m[N200] == n200 && m[N100] == m[N50] == m[Miss] == 0
  {
    hide Times;
    TimesContains(n320, N320);
    TimesContains(n300, N300);
    TimesContains(n200, N200);
  }

  lemma WorstHas(n100: nat, n50: nat, misses: nat)
    ensures var m := multiset(Worst(n100, n50, misses));
      m[N100] == n100 && m[N50] == n50 && m[Miss] == misses && m[N320] == m[N300] == m[N200] == 0
  {
    hide Times;
    TimesContains(n100, N100);
    TimesContains(n50, N50);
    TimesContains(misses, Miss);
  }

  lemma PlayOfHas(st: H.ScoreState)
    ensures Has(PlayOf(st), st)
  {
    hide Best, Worst;
    BestHas(st.n320, st.n300, st.n200);
    WorstHas(st.n100, st.n50, st.misses);
  }

  /** The given counts leave room beside the misses. */
  ghost predicate GivenFit(s: H.Settings, misses: nat) {
    var passed := if s.passedObjects < s.attrs.nObjects then s.passedObjects else s.attrs.nObjects;
    var results := if s.lazer then passed + s.attrs.nHoldNotes else passed;
    ValueOr0(s.n320) + ValueOr0(s.n300) + ValueOr0(s.n200) + ValueOr0(s.n100) + ValueOr0(s.n50) + misses <= results
  }

  lemma GivenFitIs(s: H.Settings)
    requires GivenFit(s, s.Misses())
    ensures s.Given() <= s.Remaining()
    ensures ValueOr0(s.n320) <= s.Remaining() && ValueOr0(s.n300) <= s.Remaining() && ValueOr0(s.n200) <= s.Remaining()
    ensures ValueOr0(s.n100) <= s.Remaining() && ValueOr0(s.n50) <= s.Remaining()
  {
    hide H.Settings.Given, H.Settings.Misses, H.Settings.Remaining, H.Settings.NObjects;
    H.GivenInFields(s);
    H.NObjectsInFields(s);
    H.RemainingIsWithoutMisses(s);
  }

  lemma KeptAgrees(o: Option<nat>, cap: nat, n: nat)
    requires ValueOr0(o) <= cap
    ensures Keeps(o, cap, n) <==> Agrees(o, n)
  {}

  lemma Kept(s: H.Settings, play: seq<Result>, st: H.ScoreState)
    requires GivenFit(s, s.Misses()) && Has(play, st) && st.misses == s.Misses()
    ensures H.KeepsGiven(s, st) <==> HasGiven(s, play)
  {
    GivenFitIs(s);
    hide GivenFit, H.Settings.Misses, H.Settings.Remaining, Keeps, Agrees;
    KeptAgrees(s.n320, s.Remaining(), st.n320);
    KeptAgrees(s.n300, s.Remaining(), st.n300);
    KeptAgrees(s.n200, s.Remaining(), st.n200);
    KeptAgrees(s.n100, s.Remaining(), st.n100);
    KeptAgrees(s.n50, s.Remaining(), st.n50);
  }

  lemma TotalIs(s: H.Settings, st: H.ScoreState, play: seq<Result>)
    requires Has(play, st)
    ensures st.Total() == s.NObjects() <==> IsPlay(s, play)
  {
    hide EarnedBy, Earned;
    EarnedIs(play);
    H.NObjectsInFields(s);
    hide H.Settings.NObjects;
  }

  lemma GeneratedIsNearest(s: H.Settings, st: H.ScoreState)
    requires H.Generated(s, st) && s.acc.Some? && !s.AllGiven() && GivenFit(s, st.misses)
    ensures H.Completes(s, st) && H.Nearest(s, st) && st.misses == s.Misses()
  {
    H.GeneratedTotal(s, st);
    hide H.Completes, H.Nearest, H.Settings.AllGiven, H.KeepsGiven, H.Settings.Given, H.Settings.Remaining, GivenFit;
    GivenFitIs(s);
  }

  ghost function StateOf(play: seq<Result>): H.ScoreState {
    var m := multiset(play);
    H.ScoreState(m[N320], m[N300], m[N200], m[N100], m[N50], m[Miss])
  }

  /** Where the given counts leave room, the results generated for an accuracy are those of a play,
      and no play with as many misses that has the given counts comes nearer to the accuracy. */
  lemma NoPlayIsNearer(s: H.Settings, st: H.ScoreState) returns (play: seq<Result>)
    requires H.Generated(s, st) && s.acc.Some? && GivenFit(s, st.misses)
    requires s.n320.None? || s.n300.None? || s.n200.None? || s.n100.None? || s.n50.None?
    ensures IsPlay(s, play) && Has(play, st) && HasGiven(s, play)
    ensures forall other | IsPlay(s, other) && HasGiven(s, other) && multiset(other)[Miss] == st.misses && other != [] ::
      play != [] && Abs(s.acc.value - AccuracyOf(play)) <= Abs(s.acc.value - AccuracyOf(other))
  {
    hide H.Generated, GivenFit, HasGiven, AccuracyOf, H.Accuracy, H.KeepsGiven, H.Settings.Misses, H.Settings.NObjects,
         PlayOf;
    GeneratedIsNearest(s, st);
    play := PlayOf(st);
    PlayOfHas(st);
    Kept(s, play, st);
    TotalIs(s, st, play);
    forall other | IsPlay(s, other) && HasGiven(s, other) && multiset(other)[Miss] == st.misses && other != []
      ensures play != [] && Abs(s.acc.value - AccuracyOf(play)) <= Abs(s.acc.value - AccuracyOf(other))
    {
      var t := StateOf(other);
      Kept(s, other, t);
      TotalIs(s, t, other);
      assert H.Completes(s, t);
      assert !Less(H.Dist(s, t), H.Dist(s, st));
      AccuracyOfPlay(st, play);
      AccuracyOfPlay(t, other);
    }
  }
}

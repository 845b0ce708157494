/** osu!catch plays as lists of results, as for osu!: the accuracy is the share of what was caught. */
module CatchPlay {
  import opened Wrappers
  import opened HitResults
  import opened Rounding
  import opened Plays
  import opened CatchHits

  /** A miss is a fruit or a droplet. */
  datatype Result = Fruit | Droplet | TinyDroplet | TinyMiss | Miss

  function Worth(): Result -> nat {
    (r: Result) => if r == Miss || r == TinyMiss then 0 else 1
  }

  function AccuracyOf(play: seq<Result>): real
    requires play != []
  {
    Earned(play, Worth()) as real / |play| as real
  }

  ghost predicate Has(play: seq<Result>, st: ScoreState) {
    var m := multiset(play);
    && m[Fruit] == st.fruits && m[Droplet] == st.droplets && m[Miss] == st.misses
    && m[TinyDroplet] == st.tinyDroplets && m[TinyMiss] == st.tinyDropletMisses
  }

  /** As many results as the map has fruits and droplets, and as it has tiny droplets. */
  ghost predicate IsPlay(s: Settings, play: seq<Result>) {
    var m := multiset(play);
    && m[Fruit] + m[Droplet] + m[Miss] == s.attrs.nFruits + s.attrs.nDroplets
    && m[TinyDroplet] + m[TinyMiss] == s.attrs.nTinyDroplets
  }

  lemma {:induction false} EarnedIs(play: seq<Result>)
    ensures var m := multiset(play);
      && Earned(play, Worth()) == m[Fruit] + m[Droplet] + m[TinyDroplet]
      && |play| == m[Fruit] + m[Droplet] + m[TinyDroplet] + m[TinyMiss] + m[Miss]
  {
    if play != [] {
      EarnedIs(play[..|play| - 1]);
      LastResult(play);
    }
  }

  /** The accuracy of a state is what a play with its results has earned. */
  lemma AccuracyOfPlay(st: ScoreState, play: seq<Result>)
    requires Has(play, st) && play != []
    ensures Accuracy(st.fruits, st.droplets, st.tinyDroplets, st.tinyDropletMisses, st.misses) == Finite(AccuracyOf(play))
  {
    EarnedIs(play);
    hide Earned, Worth;
  }

  function PlayOf(st: ScoreState): seq<Result> {
    Palpables(st.fruits, st.droplets, st.misses) + Tinies(st.tinyDroplets, st.tinyDropletMisses)
  }

  function Palpables(fruits: nat, droplets: nat, misses: nat): seq<Result> {
    Times(fruits, Fruit) + Times(droplets, Droplet) + Times(misses, Miss)
  }

  function Tinies(caught: nat, missed: nat): seq<Result> {
    Times(caught, TinyDroplet) + Times(missed, TinyMiss)
  }

  lemma PalpablesHas(fruits: nat, droplets: nat, misses: nat)
    ensures var m := multiset(Palpables(fruits, droplets, misses));
      m[Fruit] == fruits && m[Droplet] == droplets && m[Miss] == misses && m[TinyDroplet] == m[TinyMiss] == 0
  {
    hide Times;
    TimesContains(fruits, Fruit);
    TimesContains(droplets, Droplet);
    TimesContains(misses, Miss);
  }

  lemma TiniesHas(caught: nat, missed: nat)
    ensures var m := multiset(Tinies(caught, missed));
      m[TinyDroplet] == caught && m[TinyMiss] == missed && m[Fruit] == m[Droplet] == m[Miss] == 0
  {
    hide Times;
    TimesContains(caught, TinyDroplet);
    TimesContains(missed, TinyMiss);
  }

  lemma PlayOfHas(st: ScoreState)
    ensures Has(PlayOf(st), st)
  {
    hide Palpables, Tinies;
    PalpablesHas(st.fruits, st.droplets, st.misses);
    TiniesHas(st.tinyDroplets, st.tinyDropletMisses);
  }

  /** With neither or both of the tiny droplets given, and not as many as the map has, there is an
      accuracy to search for. */
  predicate Searches(s: Settings) {
    && s.acc.Some? && s.tinyDroplets.Some? == s.tinyDropletMisses.Some?
    && (s.tinyDroplets.Some? ==> s.tinyDroplets.value + s.tinyDropletMisses.value != s.attrs.nTinyDroplets)
  }

  lemma SearchedIsNearest(s: Settings, st: ScoreState)
    requires Generated(s, st) && Searches(s)
    ensures NearestTiny(s, st) && st.fruits + st.droplets + st.misses == s.attrs.nFruits + s.attrs.nDroplets
  {
    GeneratedTotal(s, st);
    hide Settings.Dist;
  }

  /** The results generated for an accuracy are those of a play, and no play with as many misses
      comes nearer to the accuracy. */
  lemma NoPlayIsNearer(s: Settings, st: ScoreState) returns (play: seq<Result>)
    requires Generated(s, st) && Searches(s)
    ensures IsPlay(s, play) && Has(play, st)
    ensures forall other | IsPlay(s, other) && multiset(other)[Miss] == st.misses && other != [] ::
      play != [] && Abs(s.acc.value - AccuracyOf(play)) <= Abs(s.acc.value - AccuracyOf(other))
  {
    hide Generated, AccuracyOf, Accuracy, PlayOf, NearestTiny, IsPlay, Has, Settings.Dist;
    SearchedIsNearest(s, st);
    play := PlayOf(st);
    PlayOfHas(st);
    IsPlayOfState(s, st, play);
    forall other | IsPlay(s, other) && multiset(other)[Miss] == st.misses && other != []
      ensures play != [] && Abs(s.acc.value - AccuracyOf(play)) <= Abs(s.acc.value - AccuracyOf(other))
    {
      NotNearer(s, st, play, other);
    }
  }

  lemma IsPlayOfState(s: Settings, st: ScoreState, play: seq<Result>)
    requires s.acc.Some? && NearestTiny(s, st) && Has(play, st)
    requires st.fruits + st.droplets + st.misses == s.attrs.nFruits + s.attrs.nDroplets
    ensures IsPlay(s, play)
  {
    hide Settings.Dist;
  }

  lemma NotNearer(s: Settings, st: ScoreState, play: seq<Result>, other: seq<Result>)
    requires s.acc.Some? && NearestTiny(s, st)
    requires st.fruits + st.droplets + st.misses == s.attrs.nFruits + s.attrs.nDroplets
    requires IsPlay(s, play) && Has(play, st)
    requires IsPlay(s, other) && multiset(other)[Miss] == st.misses && other != []
    ensures play != [] && Abs(s.acc.value - AccuracyOf(play)) <= Abs(s.acc.value - AccuracyOf(other))
  {
    hide AccuracyOf, Accuracy;
    SameSize(s, play, other);
    SameShare(s, st, other);
    AccuracyOfPlay(st, play);
    var t := multiset(other)[TinyDroplet];
    assert !Less(s.Dist(st, t), s.Dist(st, st.tinyDroplets));
  }

  lemma SameSize(s: Settings, play: seq<Result>, other: seq<Result>)
    requires IsPlay(s, play) && IsPlay(s, other)
    ensures |play| == |other|
  {
    EarnedIs(play);
    EarnedIs(other);
    hide Earned;
  }

  /** Only what is caught counts, not whether it is a fruit or a droplet. */
  lemma SameShare(s: Settings, st: ScoreState, other: seq<Result>)
    requires IsPlay(s, other) && multiset(other)[Miss] == st.misses && other != []
    requires st.fruits + st.droplets + st.misses == s.attrs.nFruits + s.attrs.nDroplets
    ensures var t := multiset(other)[TinyDroplet];
      t <= s.attrs.nTinyDroplets
      && Accuracy(st.fruits, st.droplets, t, s.attrs.nTinyDroplets - t, st.misses) == Finite(AccuracyOf(other))
  {
    EarnedIs(other);
    hide Earned, Worth;
  }
}

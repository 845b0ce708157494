/** osu! plays as lists of results: accuracy is what is earned of the most that could be, and a
    generated state stands for a play that no other play is nearer to the wanted accuracy than. */
module OsuPlay {
  import opened Wrappers
  import opened HitResults
  import opened Rounding
  import opened Plays
  import opened OsuHits

  datatype Result = Great | Ok | Meh | Miss | SliderEnd(hit: bool) | LargeTick(hit: bool)

  /** With slider accuracy slider ends are worth much more. */
  function Worth(sliderAcc: bool): Result -> nat {
    (r: Result) =>
      match r
      case Great => 300
      case Ok => 100
      case Meh => 50
      case Miss => 0
      case SliderEnd(hit) => if !hit then 0 else if sliderAcc then 150 else 10
      case LargeTick(hit) => if hit then 30 else 0
  }

  /** What would have been earned with the best result. */
  function Most(sliderAcc: bool): Result -> nat {
    (r: Result) =>
      match r
      case SliderEnd(_) => if sliderAcc then 150 else 10
      case LargeTick(_) => 30
      case _ => 300
  }

  function AccuracyOf(play: seq<Result>, sliderAcc: bool): real {
    if Earned(play, Most(sliderAcc)) == 0 then 0.0 else Share(play, Worth(sliderAcc), Most(sliderAcc))
  }

  function Ends(s: Settings): nat {
    if s.lazer then s.attrs.nSliders else 0
  }

  function Ticks(s: Settings): nat {
    if !s.lazer then 0 else s.attrs.nLargeTicks + if s.noSliderHeadAcc then s.attrs.nSliders else 0
  }

  /** A play of the passed objects: only in lazer it has results for slider ends and large ticks, and
      without slider accuracy slider heads are ticks too. */
  ghost predicate IsPlay(s: Settings, play: seq<Result>) {
    var m := multiset(play);
    && m[Great] + m[Ok] + m[Meh] + m[Miss] == (if s.passedObjects < s.attrs.nObjects then s.passedObjects else s.attrs.nObjects)
    && m[SliderEnd(true)] + m[SliderEnd(false)] == Ends(s) && m[LargeTick(true)] + m[LargeTick(false)] == Ticks(s)
  }

  ghost predicate Has(play: seq<Result>, h: Hits) {
    var m := multiset(play);
    && m[Great] == h.n300 && m[Ok] == h.n100 && m[Meh] == h.n50 && m[Miss] == h.misses
    && m[SliderEnd(true)] == h.sliderEndHits && m[LargeTick(true)] == h.largeTickHits
  }

  ghost function EarnedBy(m: multiset<Result>, sliderAcc: bool): nat {
    300 * m[Great] + 100 * m[Ok] + 50 * m[Meh] + (if sliderAcc then 150 else 10) * m[SliderEnd(true)] + 30 * m[LargeTick(true)]
  }

  ghost function MostBy(m: multiset<Result>, sliderAcc: bool): nat {
    300 * (m[Great] + m[Ok] + m[Meh] + m[Miss])
    + (if sliderAcc then 150 else 10) * (m[SliderEnd(true)] + m[SliderEnd(false)])
    + 30 * (m[LargeTick(true)] + m[LargeTick(false)])
  }

  lemma OneMoreEarned(m: multiset<Result>, r: Result, sliderAcc: bool)
    ensures EarnedBy(m + multiset{r}, sliderAcc) == EarnedBy(m, sliderAcc) + Worth(sliderAcc)(r)
  {}

  lemma OneMoreMost(m: multiset<Result>, r: Result, sliderAcc: bool)
    ensures MostBy(m + multiset{r}, sliderAcc) == MostBy(m, sliderAcc) + Most(sliderAcc)(r)
  {}

  lemma {:induction false} EarnedIs(play: seq<Result>, sliderAcc: bool)
    ensures Earned(play, Worth(sliderAcc)) == EarnedBy(multiset(play), sliderAcc)
    ensures Earned(play, Most(sliderAcc)) == MostBy(multiset(play), sliderAcc)
  {
    if play != [] {
      var front := play[..|play| - 1];
      EarnedIs(front, sliderAcc);
      LastResult(play);
      OneMoreEarned(multiset(front), play[|play| - 1], sliderAcc);
      OneMoreMost(multiset(front), play[|play| - 1], sliderAcc);
      hide EarnedBy, MostBy, Worth, Most;
    }
  }

  /** The same for hits of which there may be more than the map has slider ends and ticks: those do not
      count. */
  ghost predicate HasCounting(s: Settings, play: seq<Result>, h: Hits) {
    var m := multiset(play);
    && m[Great] == h.n300 && m[Ok] == h.n100 && m[Meh] == h.n50 && m[Miss] == h.misses
    && m[SliderEnd(true)] == (if h.sliderEndHits < Ends(s) then h.sliderEndHits else Ends(s))
    && m[LargeTick(true)] == (if h.largeTickHits < Ticks(s) then h.largeTickHits else Ticks(s))
  }

  lemma HasIsCounting(s: Settings, play: seq<Result>, h: Hits)
    requires IsPlay(s, play) && Has(play, h)
    ensures HasCounting(s, play, h)
  {}

  lemma ScoreIs(s: Settings, h: Hits, play: seq<Result>)
    requires IsPlay(s, play) && HasCounting(s, play, h)
    ensures h.Score(s.Origin()) == EarnedBy(multiset(play), s.lazer && !s.noSliderHeadAcc)
    ensures 300 * h.Total() + MaxSliderAccValue(s.Origin()) == MostBy(multiset(play), s.lazer && !s.noSliderHeadAcc)
  {}

  /** The accuracy of hits is what a play with these hits has earned. */
  lemma AccuracyOfPlay(s: Settings, h: Hits, play: seq<Result>)
    requires IsPlay(s, play) && HasCounting(s, play, h)
    ensures h.Accuracy(s.Origin()) == AccuracyOf(play, s.lazer && !s.noSliderHeadAcc)
  {
    hide IsPlay, HasCounting, EarnedBy, MostBy, Settings.Origin, MaxSliderAccValue, Hits.Score, Hits.Total, Earned, Worth, Most;
    ScoreIs(s, h, play);
    EarnedIs(play, s.lazer && !s.noSliderHeadAcc);
  }

  ghost function HitsOf(play: seq<Result>): Hits {
    var m := multiset(play);
    Hits(m[Great], m[Ok], m[Meh], m[Miss], m[LargeTick(true)], m[SliderEnd(true)])
  }

  predicate OfPassed(s: Settings, h: Hits) {
    && h.n300 + h.n100 + h.n50 + h.misses == (if s.passedObjects < s.attrs.nObjects then s.passedObjects else s.attrs.nObjects)
    && h.sliderEndHits <= Ends(s) && h.largeTickHits <= Ticks(s)
  }

  lemma CompletesPassed(s: Settings, h: Hits)
    requires s.Completes(h)
    ensures OfPassed(s, h)
  {
    hide Settings.Remaining, Keeps;
  }

  /** A play with the hits `h`. */
  function PlayOf(s: Settings, h: Hits): seq<Result>
    requires OfPassed(s, h)
  {
    var ends, ticks := Ends(s), Ticks(s);
    OnObjects(h.n300, h.n100, h.n50, h.misses)
    + OnSliders(h.sliderEndHits, ends - h.sliderEndHits, h.largeTickHits, ticks - h.largeTickHits)
  }

  function OnObjects(greats: nat, oks: nat, mehs: nat, misses: nat): seq<Result> {
    Both(greats, Great, oks, Ok) + Both(mehs, Meh, misses, Miss)
  }

  function OnSliders(ends: nat, noEnds: nat, ticks: nat, noTicks: nat): seq<Result> {
    Both(ends, SliderEnd(true), noEnds, SliderEnd(false)) + Both(ticks, LargeTick(true), noTicks, LargeTick(false))
  }

  lemma OnObjectsHas(greats: nat, oks: nat, mehs: nat, misses: nat)
    ensures var m := multiset(OnObjects(greats, oks, mehs, misses));
      && m[Great] == greats && m[Ok] == oks && m[Meh] == mehs && m[Miss] == misses
      && m[SliderEnd(true)] == m[SliderEnd(false)] == m[LargeTick(true)] == m[LargeTick(false)] == 0
  {
    hide Both;
    BothContains(greats, Great, oks, Ok);
    BothContains(mehs, Meh, misses, Miss);
  }

  lemma OnSlidersHas(ends: nat, noEnds: nat, ticks: nat, noTicks: nat)
    ensures var m := multiset(OnSliders(ends, noEnds, ticks, noTicks));
      && m[SliderEnd(true)] == ends && m[SliderEnd(false)] == noEnds
      && m[LargeTick(true)] == ticks && m[LargeTick(false)] == noTicks
      && m[Great] == m[Ok] == m[Meh] == m[Miss] == 0
  {
    hide Both;
    BothContains(ends, SliderEnd(true), noEnds, SliderEnd(false));
    BothContains(ticks, LargeTick(true), noTicks, LargeTick(false));
  }

  lemma PlayOfIsPlay(s: Settings, h: Hits)
    requires OfPassed(s, h)
    ensures IsPlay(s, PlayOf(s, h)) && Has(PlayOf(s, h), h)
  {
    hide OnObjects, OnSliders;
    OnObjectsHas(h.n300, h.n100, h.n50, h.misses);
    OnSlidersHas(h.sliderEndHits, Ends(s) - h.sliderEndHits, h.largeTickHits, Ticks(s) - h.largeTickHits);
  }

  /** The objects passed, the results given, and that these leave room. */
  ghost predicate GivenFit(s: Settings, misses: nat) {
    var passed := if s.passedObjects < s.attrs.nObjects then s.passedObjects else s.attrs.nObjects;
    ValueOr0(s.n300) + ValueOr0(s.n100) + ValueOr0(s.n50) + misses <= passed
  }

  ghost predicate HasGiven(s: Settings, play: seq<Result>) {
    var m := multiset(play);
    Agrees(s.n300, m[Great]) && Agrees(s.n100, m[Ok]) && Agrees(s.n50, m[Meh])
  }

  ghost predicate SameElsewhere(play: seq<Result>, other: seq<Result>) {
    var m, o := multiset(play), multiset(other);
    m[Miss] == o[Miss] && m[SliderEnd(true)] == o[SliderEnd(true)] && m[LargeTick(true)] == o[LargeTick(true)]
  }

  lemma GeneratedIsNearest(s: Settings, st: ScoreState)
    requires Generated(s, st) && s.acc.Some? && !s.AllGiven() && GivenFit(s, st.misses)
    ensures s.Completes(st.ToHits()) && s.Nearest(st.ToHits()) && GivenFit(s, s.Misses())
  {
    hide Settings.Nearest, Settings.Completes;
    GivenInFields(s);
    RemainingWithoutMisses(s);
    hide Settings.Given, Settings.Remaining;
  }

  lemma CompletingHasGiven(s: Settings, h: Hits, play: seq<Result>)
    requires s.Completes(h) && Has(play, h) && GivenFit(s, s.Misses())
    ensures HasGiven(s, play)
  {}

  lemma PlayCompletes(s: Settings, h: Hits, play: seq<Result>, other: seq<Result>)
    requires s.Completes(h) && Has(play, h) && GivenFit(s, s.Misses())
    requires IsPlay(s, other) && HasGiven(s, other) && SameElsewhere(play, other)
    ensures s.Completes(HitsOf(other)) && Has(other, HitsOf(other))
  {}

  /** Where the given counts leave room, the results generated for an accuracy are those of a play,
      and no play with as many misses, ticks and slider ends that has the given counts comes nearer
      to the accuracy. */
  lemma NoPlayIsNearer(s: Settings, st: ScoreState) returns (play: seq<Result>)
    requires Generated(s, st) && s.acc.Some? && (s.n300.None? || s.n100.None? || s.n50.None?)
    requires GivenFit(s, st.misses)
    ensures IsPlay(s, play) && Has(play, st.ToHits()) && HasGiven(s, play)
    ensures var sliderAcc := s.lazer && !s.noSliderHeadAcc;
      forall other | IsPlay(s, other) && HasGiven(s, other) && SameElsewhere(play, other) ::
        Abs(s.acc.value - AccuracyOf(play, sliderAcc)) <= Abs(s.acc.value - AccuracyOf(other, sliderAcc))
  {
    hide IsPlay, AccuracyOf, Hits.Accuracy, Generated, Settings.Origin, HasGiven, SameElsewhere, Has, HasCounting, GivenFit,
         Settings.Completes, PlayOf, OfPassed;
    var h := st.ToHits();
    GeneratedIsNearest(s, st);
    CompletesPassed(s, h);
    play := PlayOf(s, h);
    PlayOfIsPlay(s, h);
    CompletingHasGiven(s, h, play);
    HasIsCounting(s, play, h);
    AccuracyOfPlay(s, h, play);
    forall other | IsPlay(s, other) && HasGiven(s, other) && SameElsewhere(play, other)
      ensures Abs(s.acc.value - AccuracyOf(play, s.lazer && !s.noSliderHeadAcc)) <=
        Abs(s.acc.value - AccuracyOf(other, s.lazer && !s.noSliderHeadAcc))
    {
      PlayCompletes(s, h, play, other);
      HasIsCounting(s, other, HitsOf(other));
      AccuracyOfPlay(s, HitsOf(other), other);
      assert s.Dist(h) <= s.Dist(HitsOf(other));
    }
  }
}

/** osu!taiko plays as lists of results, as for osu!. */
module TaikoPlay {
  import opened Wrappers
  import opened HitResults
  import opened Rounding
  import opened Plays
  import opened TaikoHits

  datatype Result = Great | Ok | Miss

  function Worth(): Result -> nat {
    (r: Result) =>
      match r
      case Great => 300
      case Ok => 150
      case Miss => 0
  }

  function Most(): Result -> nat {
    (r: Result) => 300
  }

  function AccuracyOf(play: seq<Result>): real {
    if play == [] then 0.0 else Earned(play, Worth()) as real / (300 * |play|) as real
  }

  ghost predicate Has(play: seq<Result>, n300: nat, n100: nat, misses: nat) {
    var m := multiset(play);
    m[Great] == n300 && m[Ok] == n100 && m[Miss] == misses
  }

  lemma {:induction false} EarnedIs(play: seq<Result>)
    ensures var m := multiset(play);
      Earned(play, Worth()) == 300 * m[Great] + 150 * m[Ok] && |play| == m[Great] + m[Ok] + m[Miss]
  {
    if play != [] {
      EarnedIs(play[..|play| - 1]);
      LastResult(play);
    }
  }

  lemma SameRatio(a: nat, b: nat)
    requires b > 0
    ensures (150 * a) as real / (150 * b) as real == a as real / b as real
  {
    var q := a as real / b as real;
    assert q * (b as real) == a as real;
  }

  /** The accuracy of hits is what a play with these hits has earned. */
  lemma AccuracyOfPlay(n300: nat, n100: nat, misses: nat, play: seq<Result>)
    requires Has(play, n300, n100, misses)
    ensures Accuracy(n300, n100, misses) == AccuracyOf(play)
  {
    EarnedIs(play);
    if play != [] {
      SameRatio(2 * n300 + n100, 2 * |play|);
    }
  }

  /** As many results as objects were passed. */
  predicate IsPlay(s: Settings, play: seq<Result>) {
    |play| == if s.passedObjects < s.mapMaxCombo then s.passedObjects else s.mapMaxCombo
  }

  ghost predicate HasGiven(s: Settings, play: seq<Result>) {
    Agrees(s.n300, multiset(play)[Great]) && Agrees(s.n100, multiset(play)[Ok])
  }

  function PlayOf(n300: nat, n100: nat, misses: nat): seq<Result> {
    Times(n300, Great) + Times(n100, Ok) + Times(misses, Miss)
  }

  lemma PlayOfHas(n300: nat, n100: nat, misses: nat)
    ensures Has(PlayOf(n300, n100, misses), n300, n100, misses)
  {
    hide Times;
    TimesContains(n300, Great);
    TimesContains(n100, Ok);
    TimesContains(misses, Miss);
  }

  lemma GeneratedAgrees(s: Settings, st: ScoreState)
    requires Generated(s, st) && s.acc.Some? && (s.n300.None? || s.n100.None?)
    requires ValueOr0(s.n300) + ValueOr0(s.n100) + st.misses <= s.NResults()
    ensures st.n300 + st.n100 + st.misses == s.NResults() && st.misses == s.Misses()
    ensures Agrees(s.n300, st.n300) && Agrees(s.n100, st.n100)
  {
    hide Settings.Dist;
  }

  lemma GeneratedIsNearest(s: Settings, st: ScoreState, n300: nat, n100: nat)
    requires Generated(s, st) && s.acc.Some? && (s.n300.None? || s.n100.None?)
    requires ValueOr0(s.n300) + ValueOr0(s.n100) + s.Misses() <= s.NResults()
    requires Agrees(s.n300, n300) && Agrees(s.n100, n100) && n300 + n100 + s.Misses() == s.NResults()
    ensures s.Dist(st.n300, st.n100) <= s.Dist(n300, n100)
  {
    hide Settings.Dist;
  }

  /** Where the given counts leave room, the results generated for an accuracy are those of a play,
      and no play with as many misses that has the given count comes nearer to the accuracy. */
  lemma NoPlayIsNearer(s: Settings, st: ScoreState) returns (play: seq<Result>)
    requires Generated(s, st) && s.acc.Some? && (s.n300.None? || s.n100.None?)
    requires ValueOr0(s.n300) + ValueOr0(s.n100) + st.misses <=
      if s.passedObjects < s.mapMaxCombo then s.passedObjects else s.mapMaxCombo
    ensures IsPlay(s, play) && HasGiven(s, play) && Has(play, st.n300, st.n100, st.misses)
    ensures forall other | IsPlay(s, other) && HasGiven(s, other) && multiset(other)[Miss] == st.misses ::
      Abs(s.acc.value - AccuracyOf(play)) <= Abs(s.acc.value - AccuracyOf(other))
  {
    hide Accuracy, AccuracyOf;
    play := PlayOf(st.n300, st.n100, st.misses);
    PlayOfHas(st.n300, st.n100, st.misses);
    EarnedIs(play);
    AccuracyOfPlay(st.n300, st.n100, st.misses, play);
    GeneratedAgrees(s, st);
    hide Generated, PlayOf;
    forall other | IsPlay(s, other) && HasGiven(s, other) && multiset(other)[Miss] == st.misses
      ensures Abs(s.acc.value - AccuracyOf(play)) <= Abs(s.acc.value - AccuracyOf(other))
    {
      var n300, n100 := multiset(other)[Great], multiset(other)[Ok];
      EarnedIs(other);
      AccuracyOfPlay(n300, n100, st.misses, other);
      GeneratedIsNearest(s, st, n300, n100);
    }
  }
}

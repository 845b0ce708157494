/** Hit-result generation of osu!standard: `OsuPerformance::generate_state`. */
module OsuHits {
  import opened Rounding
  import opened HitResults
  import opened Wrappers

  datatype Attrs = Attrs(maxCombo: nat, nObjects: nat, nSliders: nat, nLargeTicks: nat)

  datatype Origin =
    | Stable
    | WithSliderAcc(maxLargeTicks: nat, maxSliderEnds: nat)
    | WithoutSliderAcc(maxLargeTicks: nat, maxSliderEnds: nat)

  /** The source's `NoComboState`. */
  datatype Hits = Hits(n300: nat, n100: nat, n50: nat, misses: nat,
                       largeTickHits: nat, sliderEndHits: nat)
  {
    function Total(): nat {
      n300 + n100 + n50 + misses
    }

    function SliderAccValue(origin: Origin): nat {
      match origin
      case Stable => 0
      case WithSliderAcc(ticks, ends) =>
        150 * Min(sliderEndHits, ends) + 30 * Min(largeTickHits, ticks)
      case WithoutSliderAcc(ticks, ends) =>
        30 * Min(largeTickHits, ticks) + 10 * Min(sliderEndHits, ends)
    }

    function Score(origin: Origin): nat {
      300 * n300 + 100 * n100 + 50 * n50 + SliderAccValue(origin)
    }

    function Accuracy(origin: Origin): real {
      var denominator := 300 * Total() + MaxSliderAccValue(origin);
      QuotientOrZero(Score(origin), denominator)
    }
  }

  function MaxSliderAccValue(origin: Origin): nat {
    match origin
    case Stable => 0
    case WithSliderAcc(ticks, ends) => 150 * ends + 30 * ticks
    case WithoutSliderAcc(ticks, ends) => 30 * ticks + 10 * ends
  }

  datatype ScoreState = ScoreState(maxCombo: nat, largeTickHits: nat, sliderEndHits: nat,
                                   n300: nat, n100: nat, n50: nat, misses: nat)
  {
    function ToHits(): Hits {
      Hits(n300, n100, n50, misses, largeTickHits, sliderEndHits)
    }
  }

  /** What `generate_state` reads: the map's attributes and everything the caller set. */
  datatype Settings = Settings(
    attrs: Attrs, passedObjects: nat, lazer: bool, noSliderHeadAcc: bool, priority: Priority,
    acc: Option<real>, combo: Option<nat>, largeTickHits: Option<nat>, sliderEndHits: Option<nat>,
    n300: Option<nat>, n100: Option<nat>, n50: Option<nat>, misses: Option<nat>)
  {
    function NObjects(): nat {
      Min(passedObjects, attrs.nObjects)
    }

    function Misses(): nat {
      Clamped(misses, NObjects())
    }

    function Remaining(): nat {
      NObjects() - Misses()
    }

    function Origin(): Origin {
      if !lazer then Stable
      else if !noSliderHeadAcc then WithSliderAcc(attrs.nLargeTicks, attrs.nSliders)
      else WithoutSliderAcc(attrs.nSliders + attrs.nLargeTicks, attrs.nSliders)
    }

    function SliderEndHits(): nat {
      if !lazer then 0
      else if sliderEndHits.None? then attrs.nSliders
      else Min(sliderEndHits.value, attrs.nSliders)
    }

    function LargeTickHits(): nat {
      if !lazer then 0
      else
        var limit := if noSliderHeadAcc then attrs.nSliders + attrs.nLargeTicks else attrs.nLargeTicks;
        if largeTickHits.None? then limit else Min(largeTickHits.value, limit)
    }

    function MaxCombo(): nat {
      var possible := SatSub(attrs.maxCombo, Misses());
      if combo.None? then possible else Min(combo.value, possible)
    }

    /** The hits a split of the objects amounts to. */
    function Split(h300: nat, h100: nat, h50: nat): Hits {
      Hits(h300, h100, h50, Misses(), LargeTickHits(), SliderEndHits())
    }

    /** The highest score of the passed objects, which is the denominator of every split. */
    function MaxScore(): nat {
      300 * NObjects() + MaxSliderAccValue(Origin())
    }

    /** The score that would hit the accuracy exactly. */
    function Target(): real
      requires acc.Some?
    {
      TargetScore(acc.value, MaxScore())
    }

    function SliderAccValue(): nat {
      Split(0, 0, 0).SliderAccValue(Origin())
    }

    function Given(): nat {
      Clamped(n300, Remaining()) + Clamped(n100, Remaining()) + Clamped(n50, Remaining())
    }

    predicate AllGiven() {
      n300.Some? && n100.Some? && n50.Some?
    }

    predicate NoneGiven() {
      n300.None? && n100.None? && n50.None?
    }

    predicate KeepsGiven(h: Hits) {
      && h == Split(h.n300, h.n100, h.n50)
      && Keeps(n300, Remaining(), h.n300)
      && Keeps(n100, Remaining(), h.n100)
      && Keeps(n50, Remaining(), h.n50)
    }

    /** A legal split: given counts are kept and every object has a result. */
    predicate Completes(h: Hits) {
      KeepsGiven(h) && h.Total() == NObjects()
    }

    function Dist(h: Hits): real
      requires acc.Some?
    {
      Abs(acc.value - h.Accuracy(Origin()))
    }

    function SplitDist(h300: nat, h100: nat, h50: nat): real
      requires acc.Some?
    {
      Dist(Split(h300, h100, h50))
    }

    /** No legal split is nearer to the wanted accuracy. */
    ghost predicate Nearest(h: Hits)
      requires acc.Some?
    {
      forall g: Hits :: Completes(g) ==> Dist(h) <= Dist(g)
    }

    /** The settings after `generate_state` stored its result. */
    function Store(st: ScoreState): Settings {
      this.(combo := Some(st.maxCombo), sliderEndHits := Some(st.sliderEndHits),
            largeTickHits := Some(st.largeTickHits), n300 := Some(st.n300), n100 := Some(st.n100),
            n50 := Some(st.n50), misses := Some(st.misses))
    }
  }

  /** Where the objects without a result go when every count is given. */
  predicate FillsGiven(s: Settings, h: Hits) {
    var rest := SatSub(s.Remaining(), s.Given());
    var a, b, c := Clamped(s.n300, s.Remaining()), Clamped(s.n100, s.Remaining()), Clamped(s.n50, s.Remaining());
    h == if s.priority.BestCase? then s.Split(a + rest, b, c) else s.Split(a, b, c + rest)
  }

  /** Without an accuracy all remaining objects go to the best (or worst) count left open. */
  predicate FillsWithoutAccuracy(s: Settings, h: Hits) {
    var rest := SatSub(s.Remaining(), s.Given());
    var a, b, c := Clamped(s.n300, s.Remaining()), Clamped(s.n100, s.Remaining()), Clamped(s.n50, s.Remaining());
    if s.AllGiven() then FillsGiven(s, h)
    else if s.priority.BestCase? then
      h == if s.n300.None? then s.Split(rest, b, c)
           else if s.n100.None? then s.Split(a, rest, c) else s.Split(a, b, rest)
    else
      h == if s.n50.None? then s.Split(a, b, rest)
           else if s.n100.None? then s.Split(a, rest, c) else s.Split(rest, b, c)
  }

  /** With an accuracy and an open count: the nearest legal split if the given counts leave
      room for one; otherwise the open counts stay zero. */
  ghost predicate FillsForAccuracy(s: Settings, h: Hits)
    requires s.acc.Some?
  {
    && s.KeepsGiven(h)
    && (s.Given() <= s.Remaining() ==> s.Completes(h) && s.Nearest(h))
    && (s.Given() > s.Remaining() ==>
          && AddsNothing(s.n300, s.Remaining(), h.n300)
          && AddsNothing(s.n100, s.Remaining(), h.n100)
          && AddsNothing(s.n50, s.Remaining(), h.n50))
    && (s.NoneGiven() && s.priority.BestCase? ==> h.n300 == 0 || h.n50 < 4)
    && (s.NoneGiven() && s.priority.WorstCase? ==> h.n100 < 5)
  }

  /** What `generate_state` promises about the state it returns. */
  ghost predicate Generated(s: Settings, st: ScoreState) {
    && st.maxCombo == s.MaxCombo()
    && st.misses == s.Misses()
    && st.largeTickHits == s.LargeTickHits()
    && st.sliderEndHits == s.SliderEndHits()
    && if s.acc.None? then FillsWithoutAccuracy(s, st.ToHits())
       else if s.AllGiven() then FillsGiven(s, st.ToHits())
       else FillsForAccuracy(s, st.ToHits())
  }

  // ---------- the arithmetic of the search ----------

  lemma AccuracyOfSplit(s: Settings, h: Hits)
    requires h.Total() == s.NObjects()
    ensures h.Accuracy(s.Origin()) == QuotientOrZero(h.Score(s.Origin()), s.MaxScore())
  {}

  /** Splits of the same objects share their denominator, so the nearer score wins. */
  lemma NearerSplit(s: Settings, g: Hits, h: Hits, target: real)
    requires s.acc.Some?
    requires g.Total() == h.Total() == s.NObjects()
    requires target == s.Target()
    requires Abs(target - h.Score(s.Origin()) as real) <= Abs(target - g.Score(s.Origin()) as real)
    ensures s.Dist(h) <= s.Dist(g)
  {
    AccuracyOfSplit(s, g);
    AccuracyOfSplit(s, h);
    NearerQuotientOrZero(s.acc.value, s.MaxScore(), h.Score(s.Origin()), g.Score(s.Origin()));
  }

  lemma ScoreOfSplit(s: Settings, a: nat, b: nat, c: nat)
    ensures s.Split(a, b, c).Score(s.Origin()) == 300 * a + 100 * b + 50 * c + s.SliderAccValue()
  {
    hide Settings.Origin, Settings.Misses, Settings.LargeTickHits, Settings.SliderEndHits;
    SliderAccOfSplit(s, a, b, c);
    hide Settings.Split;
  }

  lemma SliderAccOfSplit(s: Settings, a: nat, b: nat, c: nat)
    ensures s.Split(a, b, c).SliderAccValue(s.Origin()) == s.SliderAccValue()
    ensures s.Split(a, b, c).n300 == a && s.Split(a, b, c).n100 == b && s.Split(a, b, c).n50 == c
  {
    hide Settings.Origin, Settings.Misses, Settings.LargeTickHits, Settings.SliderEndHits;
  }

  lemma TotalOfSplit(s: Settings, a: nat, b: nat, c: nat)
    requires a + b + c == s.Remaining()
    ensures s.Split(a, b, c).Total() == s.NObjects()
  {
    hide Settings.NObjects, Settings.Misses, Settings.LargeTickHits, Settings.SliderEndHits;
  }

  /** Changing one count against another moves the score along a line of slope `k`. */
  lemma NearerOnLine(s: Settings, a: nat, b: nat, c: nat, a': nat, b': nat, c': nat,
                     k: real, u: real, base: real, x: real, y: real)
    requires s.acc.Some? && k > 0.0
    requires a + b + c == a' + b' + c' == s.Remaining()
    requires k * u + base == s.Target()
    requires (300 * a + 100 * b + 50 * c + s.SliderAccValue()) as real == k * x + base
    requires (300 * a' + 100 * b' + 50 * c' + s.SliderAccValue()) as real == k * y + base
    requires Abs(u - y) <= Abs(u - x)
    ensures s.SplitDist(a', b', c') <= s.SplitDist(a, b, c)
  {
    hide Settings.SliderAccValue, Settings.Target, Settings.Remaining, Settings.Dist, Settings.Split, Settings.Origin,
         Settings.NObjects, Hits.Score, Hits.Total;
    ScoreOfSplit(s, a, b, c);
    ScoreOfSplit(s, a', b', c');
    TotalOfSplit(s, a, b, c);
    TotalOfSplit(s, a', b', c');
    SlopeDistance(k, u, base, x, y);
    NearerSplit(s, s.Split(a, b, c), s.Split(a', b', c'), k * u + base);
  }

  /** The two candidates for `n100` beside a fixed `n300` include one at least as near as
      any other split with that `n300`. */
  lemma BestN100(s: Settings, n300: nat, x: nat) returns (y: nat)
    requires s.acc.Some? && n300 + x <= s.Remaining()
    ensures
      var rest := s.Remaining() - n300;
      var raw := RawN100(s, n300);
      && Min(rest, FloorU32(raw)) <= y <= Min(rest, CeilU32(raw))
      && s.SplitDist(n300, y, rest - y) <= s.SplitDist(n300, x, rest - x)
  {
    hide Settings.SplitDist, Settings.Target, Settings.SliderAccValue, Settings.Remaining, FloorU32, CeilU32, RawN100;
    var rest := s.Remaining() - n300;
    var raw := RawN100(s, n300);
    y := NearestInClampedRange(raw, 0, rest, x);
    RawN100Is(s, n300);
    NearerOnLine(s, n300, x, rest - x, n300, y, rest - y, 50.0, raw,
                 (50 * rest + 300 * n300 + s.SliderAccValue()) as real, x as real, y as real);
  }

  function RawN100(s: Settings, n300: nat): real
    requires s.acc.Some? && n300 <= s.Remaining()
  {
    (s.Target()
     - (50 * (s.Remaining() - n300) + 300 * n300 + s.SliderAccValue()) as real) / 50.0
  }

  lemma RawN100Is(s: Settings, n300: nat)
    requires s.acc.Some? && n300 <= s.Remaining()
    ensures 50.0 * RawN100(s, n300) + (50 * (s.Remaining() - n300) + 300 * n300 + s.SliderAccValue()) as real == s.Target()
  {
    hide Settings.Target, Settings.SliderAccValue, Settings.Remaining;
  }

  function RawN300(s: Settings): real
    requires s.acc.Some?
  {
    (s.Target() - (50 * s.Remaining() + s.SliderAccValue()) as real) / 250.0
  }

  lemma RawN300Is(s: Settings)
    requires s.acc.Some?
    ensures 50.0 * (5.0 * RawN300(s)) + (50 * s.Remaining() + s.SliderAccValue()) as real == s.Target()
  {
    hide Settings.Target, Settings.SliderAccValue, Settings.Remaining;
  }

  /** Counting in units of 50 points above all-50s: `5 * a + b` for `a` 300s and `b` 100s.
      One of the two roundings of `v` 300s, with some number of 100s, matches any split. */
  lemma MatchN300(v: real, n: nat, a: nat, b: nat) returns (a': nat, x: nat)
    requires a + b <= n
    ensures Min(n, FloorU32(v)) <= a' <= Min(n, CeilU32(v))
    ensures a' + x <= n
    ensures Abs(5.0 * v - (5 * a' + x) as real) <= Abs(5.0 * v - (5 * a + b) as real)
  {
    var lo, hi := Min(n, FloorU32(v)), Min(n, CeilU32(v));
    RoundingBounds(v, a);
    if lo <= a <= hi {
      a', x := a, b;
    } else if hi < a {
      a', x := hi, 0;
      assert 5.0 * v <= (5 * a') as real <= (5 * a + b) as real;
    } else {
      a' := lo;
      x := Max(5 * a + b - 5 * a', 0);
      assert (5 * a') as real <= 5.0 * v;
    }
  }

  /** Although only two values of `n300` and two of `n100` each are tried, any split of the
      remaining objects is beaten or matched, also near the top of the scale, where trading
      one result for another skips scores. */
  lemma BestN300AndN100(s: Settings, a: nat, b: nat) returns (a': nat, b': nat)
    requires s.acc.Some? && a + b <= s.Remaining()
    ensures
      var n := s.Remaining();
      && Min(n, FloorU32(RawN300(s))) <= a' <= Min(n, CeilU32(RawN300(s)))
      && Min(FloorU32(RawN100(s, a')), n - a') <= b' <= Min(CeilU32(RawN100(s, a')), n - a')
      && s.SplitDist(a', b', n - a' - b') <= s.SplitDist(a, b, n - a - b)
  {
    hide Settings.SplitDist, Settings.Target, Settings.SliderAccValue, Settings.Remaining, FloorU32, CeilU32, RawN100, RawN300;
    var n := s.Remaining();
    var x: nat;
    a', x := MatchN300(RawN300(s), n, a, b);
    RawN300Is(s);
    NearerOnLine(s, a, b, n - a - b, a', x, n - a' - x, 50.0, 5.0 * RawN300(s),
                 (50 * n + s.SliderAccValue()) as real, (5 * a + b) as real, (5 * a' + x) as real);
    b' := BestN100(s, a', x);
  }

  // ---------- the searches, one method per set of given counts ----------

  method SearchN100AndN50(s: Settings, n300: nat) returns (n100: nat, n50: nat)
    requires s.acc.Some? && n300 <= s.Remaining()
    ensures n300 + n100 + n50 == s.Remaining()
    ensures forall x: nat, y: nat | n300 + x + y == s.Remaining() ::
      s.SplitDist(n300, n100, n50) <= s.SplitDist(n300, x, y)
  {
    hide QuotientOrZero, TargetScore, RawN100, RawN300, FloorU32, CeilU32;
    var bestDist := Infinite;
    n100, n50 := 0, 0;
    var nRemaining := s.Remaining() - n300;
    var rawN100 := RawN100(s, n300);
    var minN100 := Min(nRemaining, FloorU32(rawN100));
    var maxN100 := Min(nRemaining, CeilU32(rawN100));
    RoundingBounds(rawN100, 0);
    for new100: int := minN100 to maxN100 + 1
      invariant new100 == minN100 ==> bestDist == Infinite
      invariant new100 > minN100 ==>
        && n100 + n50 == nRemaining
        && bestDist == Finite(s.SplitDist(n300, n100, n50))
      invariant forall x: nat, y: nat | minN100 <= x < new100 && x + y == nRemaining ::
        s.SplitDist(n300, n100, n50) <= s.SplitDist(n300, x, y)
    {
      var new50 := nRemaining - new100;
      var dist := s.SplitDist(n300, new100, new50);
      if Less(Finite(dist), bestDist) {
        bestDist := Finite(dist);
        n100 := new100;
        n50 := new50;
      }
    }
    forall x: nat, y: nat | n300 + x + y == s.Remaining()
      ensures s.SplitDist(n300, n100, n50) <= s.SplitDist(n300, x, y)
    {
      var z := BestN100(s, n300, x);
    }
  }

  function RawN300BesideN100(s: Settings, n100: nat): real
    requires s.acc.Some? && n100 <= s.Remaining()
  {
    (s.Target() - (50 * (s.Remaining() - n100) + 100 * n100 + s.SliderAccValue()) as real) / 250.0
  }

  lemma RawN300BesideN100Is(s: Settings, n100: nat)
    requires s.acc.Some? && n100 <= s.Remaining()
    ensures 250.0 * RawN300BesideN100(s, n100) + (50 * (s.Remaining() - n100) + 100 * n100 + s.SliderAccValue()) as real
      == s.Target()
  {
    hide Settings.Target, Settings.SliderAccValue, Settings.Remaining;
  }

  lemma BestN300BesideN100(s: Settings, n100: nat, x: nat) returns (y: nat)
    requires s.acc.Some? && x + n100 <= s.Remaining()
    ensures
      var rest := s.Remaining() - n100;
      var raw := RawN300BesideN100(s, n100);
      && Min(rest, FloorU32(raw)) <= y <= Min(rest, CeilU32(raw))
      && s.SplitDist(y, n100, rest - y) <= s.SplitDist(x, n100, rest - x)
  {
    hide Settings.SplitDist, Settings.Target, Settings.SliderAccValue, Settings.Remaining, FloorU32, CeilU32, RawN300BesideN100;
    var rest := s.Remaining() - n100;
    var raw := RawN300BesideN100(s, n100);
    y := NearestInClampedRange(raw, 0, rest, x);
    RawN300BesideN100Is(s, n100);
    NearerOnLine(s, x, n100, rest - x, y, n100, rest - y, 250.0, raw,
                 (50 * rest + 100 * n100 + s.SliderAccValue()) as real, x as real, y as real);
  }

  method SearchN300AndN50(s: Settings, n100: nat) returns (n300: nat, n50: nat)
    requires s.acc.Some? && n100 <= s.Remaining()
    ensures n300 + n100 + n50 == s.Remaining()
    ensures forall x: nat, y: nat | x + n100 + y == s.Remaining() ::
      s.SplitDist(n300, n100, n50) <= s.SplitDist(x, n100, y)
  {
    hide QuotientOrZero, TargetScore, RawN100, RawN300, FloorU32, CeilU32;
    var bestDist := Infinite;
    n300, n50 := 0, 0;
    var nRemaining := s.Remaining() - n100;
    var rawN300 := RawN300BesideN100(s, n100);
    var minN300 := Min(nRemaining, FloorU32(rawN300));
    var maxN300 := Min(nRemaining, CeilU32(rawN300));
    RoundingBounds(rawN300, 0);
    for new300: int := minN300 to maxN300 + 1
      invariant new300 == minN300 ==> bestDist == Infinite
      invariant new300 > minN300 ==>
        && n300 + n50 == nRemaining
        && bestDist == Finite(s.SplitDist(n300, n100, n50))
      invariant forall x: nat, y: nat | minN300 <= x < new300 && x + y == nRemaining ::
        s.SplitDist(n300, n100, n50) <= s.SplitDist(x, n100, y)
    {
      var new50 := nRemaining - new300;
      var dist := s.SplitDist(new300, n100, new50);
      if Less(Finite(dist), bestDist) {
        bestDist := Finite(dist);
        n300 := new300;
        n50 := new50;
      }
    }
    forall x: nat, y: nat | x + n100 + y == s.Remaining()
      ensures s.SplitDist(n300, n100, n50) <= s.SplitDist(x, n100, y)
    {
      var z := BestN300BesideN100(s, n100, x);
    }
  }

  function RawN300BesideN50(s: Settings, n50: nat): real
    requires s.acc.Some? && n50 <= s.Remaining()
  {
    (s.Target() + (100 * s.Misses() + 50 * n50) as real
     - (100 * s.NObjects() + s.SliderAccValue()) as real) / 200.0
  }

  lemma RawN300BesideN50Is(s: Settings, n50: nat)
    requires s.acc.Some? && n50 <= s.Remaining()
    ensures 200.0 * RawN300BesideN50(s, n50) + (100 * (s.Remaining() - n50) + 50 * n50 + s.SliderAccValue()) as real
      == s.Target()
  {
    hide Settings.Target, Settings.SliderAccValue, Settings.NObjects, Settings.Misses;
  }

  lemma BestN300BesideN50(s: Settings, n50: nat, x: nat) returns (y: nat)
    requires s.acc.Some? && x + n50 <= s.Remaining()
    ensures
      var rest := s.Remaining() - n50;
      var raw := RawN300BesideN50(s, n50);
      && Min(rest, FloorU32(raw)) <= y <= Min(rest, CeilU32(raw))
      && s.SplitDist(y, rest - y, n50) <= s.SplitDist(x, rest - x, n50)
  {
    hide Settings.SplitDist, Settings.Target, Settings.SliderAccValue, Settings.Remaining, FloorU32, CeilU32, RawN300BesideN50;
    var rest := s.Remaining() - n50;
    var raw := RawN300BesideN50(s, n50);
    y := NearestInClampedRange(raw, 0, rest, x);
    RawN300BesideN50Is(s, n50);
    NearerOnLine(s, x, rest - x, n50, y, rest - y, n50, 200.0, raw,
                 (100 * rest + 50 * n50 + s.SliderAccValue()) as real, x as real, y as real);
  }

  method SearchN300AndN100(s: Settings, n50: nat) returns (n300: nat, n100: nat)
    requires s.acc.Some? && n50 <= s.Remaining()
    ensures n300 + n100 + n50 == s.Remaining()
    ensures forall x: nat, y: nat | x + y + n50 == s.Remaining() ::
      s.SplitDist(n300, n100, n50) <= s.SplitDist(x, y, n50)
  {
    hide QuotientOrZero, TargetScore, RawN100, RawN300, FloorU32, CeilU32;
    var bestDist := Infinite;
    n300, n100 := 0, 0;
    var nRemaining := s.Remaining() - n50;
    var rawN300 := RawN300BesideN50(s, n50);
    var minN300 := Min(nRemaining, FloorU32(rawN300));
    var maxN300 := Min(nRemaining, CeilU32(rawN300));
    RoundingBounds(rawN300, 0);
    for new300: int := minN300 to maxN300 + 1
      invariant new300 == minN300 ==> bestDist == Infinite
      invariant new300 > minN300 ==>
        && n300 + n100 == nRemaining
        && bestDist == Finite(s.SplitDist(n300, n100, n50))
      invariant forall x: nat, y: nat | minN300 <= x < new300 && x + y == nRemaining ::
        s.SplitDist(n300, n100, n50) <= s.SplitDist(x, y, n50)
    {
      var new100 := nRemaining - new300;
      var dist := s.SplitDist(new300, new100, n50);
      if Less(Finite(dist), bestDist) {
        bestDist := Finite(dist);
        n300 := new300;
        n100 := new100;
      }
    }
    forall x: nat, y: nat | x + y + n50 == s.Remaining()
      ensures s.SplitDist(n300, n100, n50) <= s.SplitDist(x, y, n50)
    {
      var z := BestN300BesideN50(s, n50, x);
    }
  }

  /** The inner loop for `n300 == a` tries `n100 == b`. */
  predicate Tried(s: Settings, a: nat, b: nat)
    requires s.acc.Some?
  {
    a <= s.Remaining() &&
    var rest := s.Remaining() - a;
    Min(FloorU32(RawN100(s, a)), rest) <= b <= Min(CeilU32(RawN100(s, a)), rest)
  }

  /** `best` is no farther than any pair tried before the loops reach `(i, j)`. */
  ghost predicate BestBefore(s: Settings, best: Float, lo: nat, i: int, j: int)
    requires s.acc.Some?
  {
    forall x: nat, y: nat | Tried(s, x, y) && lo <= x && (x < i || (x == i && y < j)) ::
      best.Finite? && best.value <= s.SplitDist(x, y, s.Remaining() - x - y)
  }

  lemma NothingTried(s: Settings, best: Float, lo: nat)
    requires s.acc.Some?
    ensures BestBefore(s, best, lo, lo, 0)
  {}

  lemma RowStarts(s: Settings, best: Float, lo: nat, i: nat, j: nat)
    requires s.acc.Some? && i <= s.Remaining()
    requires j == Min(FloorU32(RawN100(s, i)), s.Remaining() - i)
    requires BestBefore(s, best, lo, i, 0)
    ensures BestBefore(s, best, lo, i, j)
  {}

  lemma RowEnds(s: Settings, best: Float, lo: nat, i: nat, j: nat)
    requires s.acc.Some? && i <= s.Remaining()
    requires j == Min(CeilU32(RawN100(s, i)), s.Remaining() - i) + 1
    requires BestBefore(s, best, lo, i, j)
    ensures BestBefore(s, best, lo, i + 1, 0)
  {}

  lemma PairTried(s: Settings, best: Float, better: Float, lo: nat, i: nat, j: nat)
    requires s.acc.Some? && i + j <= s.Remaining() && better.Finite?
    requires best.Finite? ==> better.value <= best.value
    requires better.value <= s.SplitDist(i, j, s.Remaining() - i - j)
    requires BestBefore(s, best, lo, i, j)
    ensures BestBefore(s, better, lo, i, j + 1)
  {
    hide QuotientOrZero, TargetScore;
  }

  /** Having tried all pairs of candidates means having found the best of all splits. */
  lemma BestOfAll(s: Settings, best: Float, lo: nat, hi: nat)
    requires s.acc.Some?
    requires lo == Min(s.Remaining(), FloorU32(RawN300(s)))
    requires hi == Min(s.Remaining(), CeilU32(RawN300(s)))
    requires BestBefore(s, best, lo, hi + 1, 0)
    ensures best.Finite?
    ensures forall x: nat, y: nat, z: nat | x + y + z == s.Remaining() ::
      best.value <= s.SplitDist(x, y, z)
  {
    hide Settings.SplitDist, Settings.Remaining, RawN100, RawN300, FloorU32, CeilU32;
    var n := s.Remaining();
    var a0, b0 := BestN300AndN100(s, n, 0);
    assert Tried(s, a0, b0);
    forall x: nat, y: nat, z: nat | x + y + z == n
      ensures best.value <= s.SplitDist(x, y, z)
    {
      var a, b := BestN300AndN100(s, x, y);
      assert Tried(s, a, b);
    }
  }

  method SearchAll(s: Settings) returns (n300: nat, n100: nat, n50: nat)
    requires s.acc.Some?
    ensures n300 + n100 + n50 == s.Remaining()
    ensures forall x: nat, y: nat, z: nat | x + y + z == s.Remaining() ::
      s.SplitDist(n300, n100, n50) <= s.SplitDist(x, y, z)
  {
    hide QuotientOrZero, TargetScore, RawN100, RawN300, FloorU32, CeilU32, Settings.SplitDist,
         Settings.Misses, Tried, BestBefore, Hits.Accuracy;
    var bestDist := Infinite;
    n300, n100, n50 := 0, 0, 0;
    var n := s.Remaining();
    var minN300 := Min(n, FloorU32(RawN300(s)));
    var maxN300 := Min(n, CeilU32(RawN300(s)));
    RoundingBounds(RawN300(s), 0);
    NothingTried(s, bestDist, minN300);
    for new300: int := minN300 to maxN300 + 1
      invariant bestDist == Infinite || (n300 + n100 + n50 == n && bestDist == Finite(s.SplitDist(n300, n100, n50)))
      invariant BestBefore(s, bestDist, minN300, new300, 0)
    {
      var rawN100 := RawN100(s, new300);
      var minN100 := Min(FloorU32(rawN100), n - new300);
      var maxN100 := Min(CeilU32(rawN100), n - new300);
      RoundingBounds(rawN100, 0);
      RowStarts(s, bestDist, minN300, new300, minN100);
      for new100: int := minN100 to maxN100 + 1
        invariant bestDist == Infinite || (n300 + n100 + n50 == n && bestDist == Finite(s.SplitDist(n300, n100, n50)))
        invariant BestBefore(s, bestDist, minN300, new300, new100)
      {
        var new50 := n - new300 - new100;
        var dist := s.SplitDist(new300, new100, new50);
        ghost var previous := bestDist;
        if Less(Finite(dist), bestDist) {
          bestDist := Finite(dist);
          n300 := new300;
          n100 := new100;
          n50 := new50;
        }
        PairTried(s, previous, bestDist, minN300, new300, new100);
      }
      RowEnds(s, bestDist, minN300, new300, maxN100 + 1);
    }
    BestOfAll(s, bestDist, minN300, maxN300);
  }

  // ---------- the whole generator ----------

  /** Four 50s and one 300 are worth as much as five 100s, so shifting them either way
      changes neither the number of objects nor the accuracy. */
  lemma ShiftKeepsAccuracy(s: Settings, a: nat, b: nat, c: nat, n: nat)
    requires s.acc.Some?
    ensures s.Split(a + n, b, c + 4 * n).Accuracy(s.Origin()) == s.Split(a, b + 5 * n, c).Accuracy(s.Origin())
    ensures s.Split(a + n, b, c + 4 * n).Total() == s.Split(a, b + 5 * n, c).Total()
  {
    hide QuotientOrZero;
  }

  /** With a single count open there is at most one legal split. */
  lemma SingleOpenCount(s: Settings, h: Hits)
    requires s.acc.Some? && s.KeepsGiven(h)
    requires (if s.n300.None? then 1 else 0) + (if s.n100.None? then 1 else 0) + (if s.n50.None? then 1 else 0) == 1
    requires s.n300.None? ==> h.n300 == SatSub(s.NObjects(), h.n100 + h.n50 + s.Misses())
    requires s.n100.None? ==> h.n100 == SatSub(s.NObjects(), h.n300 + h.n50 + s.Misses())
    requires s.n50.None? ==> h.n50 == SatSub(s.NObjects(), h.n300 + h.n100 + s.Misses())
    ensures FillsForAccuracy(s, h)
  {
    hide QuotientOrZero, Settings.Dist;
    forall g: Hits | s.Given() <= s.Remaining() && s.Completes(g)
      ensures s.Dist(h) <= s.Dist(g)
    {
      assert g == h;
    }
  }

  /** Being best among all splits of the remaining objects that keep the given counts. */
  lemma BestSplitFills(s: Settings, a: nat, b: nat, c: nat)
    requires s.acc.Some? && a + b + c == s.Remaining() && s.KeepsGiven(s.Split(a, b, c)) && !s.NoneGiven()
    requires forall x: nat, y: nat, z: nat |
      x + y + z == s.Remaining() && s.KeepsGiven(s.Split(x, y, z)) ::
      s.SplitDist(a, b, c) <= s.SplitDist(x, y, z)
    ensures FillsForAccuracy(s, s.Split(a, b, c))
  {
    hide QuotientOrZero, Settings.Dist;
    forall g: Hits | s.Completes(g)
      ensures s.Dist(s.Split(a, b, c)) <= s.Dist(g)
    {
      assert g == s.Split(g.n300, g.n100, g.n50);
      assert s.Dist(g) == s.SplitDist(g.n300, g.n100, g.n50);
    }
  }

  /** The final shift keeps the best split best. */
  lemma ShiftedBestFills(s: Settings, a: nat, b: nat, c: nat, a': nat, b': nat, c': nat)
    requires s.acc.Some? && s.NoneGiven() && a + b + c == a' + b' + c' == s.Remaining()
    requires forall x: nat, y: nat, z: nat | x + y + z == s.Remaining() ::
      s.SplitDist(a, b, c) <= s.SplitDist(x, y, z)
    requires s.Split(a, b, c).Accuracy(s.Origin()) == s.Split(a', b', c').Accuracy(s.Origin())
    requires s.priority.BestCase? ==> a' == 0 || c' < 4
    requires s.priority.WorstCase? ==> b' < 5
    ensures FillsForAccuracy(s, s.Split(a', b', c'))
  {
    hide QuotientOrZero, Hits.Accuracy;
    assert s.Dist(s.Split(a', b', c')) == s.SplitDist(a, b, c);
    forall g: Hits | s.Completes(g)
      ensures s.Dist(s.Split(a', b', c')) <= s.Dist(g)
    {
      assert g == s.Split(g.n300, g.n100, g.n50);
      assert s.Dist(g) == s.SplitDist(g.n300, g.n100, g.n50);
    }
  }

  /** The shift chosen by `generate_state` after searching all three counts. */
  method ShiftByPriority(s: Settings, a: nat, b: nat, c: nat) returns (h300: nat, h100: nat, h50: nat)
    requires s.acc.Some? && s.NoneGiven() && a + b + c == s.Remaining()
    requires forall x: nat, y: nat, z: nat | x + y + z == s.Remaining() ::
      s.SplitDist(a, b, c) <= s.SplitDist(x, y, z)
    ensures FillsForAccuracy(s, s.Split(h300, h100, h50))
  {
    hide QuotientOrZero, Hits.Accuracy, FillsForAccuracy;
    h300, h100, h50 := a, b, c;
    match s.priority {
      case BestCase =>
        // a 300 and four 50s become five 100s
        var n := Min(h300, h50 / 4);
        h300 := h300 - n;
        h100 := h100 + 5 * n;
        h50 := h50 - 4 * n;
        ShiftKeepsAccuracy(s, h300, b, h50, n);
      case WorstCase =>
        // five 100s become a 300 and four 50s
        var n := h100 / 5;
        h300 := h300 + n;
        h100 := h100 - 5 * n;
        h50 := h50 + 4 * n;
        ShiftKeepsAccuracy(s, a, h100, c, n);
    }
    ShiftedBestFills(s, a, b, c, h300, h100, h50);
  }

  /** The arms of the source's match on the given counts when an accuracy is wanted. */
  method HitsForAccuracy(s: Settings) returns (h300: nat, h100: nat, h50: nat)
    requires s.acc.Some?
    ensures s.AllGiven() ==> FillsGiven(s, s.Split(h300, h100, h50))
    ensures !s.AllGiven() ==> FillsForAccuracy(s, s.Split(h300, h100, h50))
  {
    hide QuotientOrZero, TargetScore, FillsForAccuracy, Settings.SplitDist;
    h300, h100, h50 := Clamped(s.n300, s.Remaining()), Clamped(s.n100, s.Remaining()), Clamped(s.n50, s.Remaining());
    match (s.n300, s.n100, s.n50) {
      case (Some(_), Some(_), Some(_)) =>
        var remaining := SatSub(s.NObjects(), h300 + h100 + h50 + s.Misses());
        match s.priority {
          case BestCase => h300 := h300 + remaining;
          case WorstCase => h50 := h50 + remaining;
        }
      case (Some(_), Some(_), None) => h50 := SatSub(s.NObjects(), h300 + h100 + s.Misses());
      case (Some(_), None, Some(_)) => h100 := SatSub(s.NObjects(), h300 + h50 + s.Misses());
      case (None, Some(_), Some(_)) => h300 := SatSub(s.NObjects(), h100 + h50 + s.Misses());
      case (Some(_), None, None) => h100, h50 := SearchN100AndN50(s, h300);
      case (None, Some(_), None) => h300, h50 := SearchN300AndN50(s, h100);
      case (None, None, Some(_)) => h300, h100 := SearchN300AndN100(s, h50);
      case (None, None, None) =>
        h300, h100, h50 := SearchAll(s);
        h300, h100, h50 := ShiftByPriority(s, h300, h100, h50);
        return;
    }
    if !s.AllGiven() && (s.n300.Some? || s.n100.Some?) && (s.n100.Some? || s.n50.Some?) && (s.n300.Some? || s.n50.Some?) {
      SingleOpenCount(s, s.Split(h300, h100, h50));
    } else if !s.AllGiven() {
      BestSplitFills(s, h300, h100, h50);
    }
  }

  /** Without an accuracy the rest goes to the first open count in order of priority. */
  method HitsWithoutAccuracy(s: Settings) returns (h300: nat, h100: nat, h50: nat)
    ensures FillsWithoutAccuracy(s, s.Split(h300, h100, h50))
  {
    h300, h100, h50 := Clamped(s.n300, s.Remaining()), Clamped(s.n100, s.Remaining()), Clamped(s.n50, s.Remaining());
    var remaining := SatSub(s.NObjects(), h300 + h100 + h50 + s.Misses());
    match s.priority {
      case BestCase =>
        match (s.n300, s.n100, s.n50) {
          case (None, _, _) => h300 := remaining;
          case (_, None, _) => h100 := remaining;
          case (_, _, None) => h50 := remaining;
          case _ => h300 := h300 + remaining;
        }
      case WorstCase =>
        match (s.n50, s.n100, s.n300) {
          case (None, _, _) => h50 := remaining;
          case (_, None, _) => h100 := remaining;
          case (_, _, None) => h300 := remaining;
          case _ => h50 := h50 + remaining;
        }
    }
  }

  /** Every passed object has a result, no object has two exactly when the given counts
      leave room, and no count exceeds the objects that are not misses. */
  predicate Accounts(s: Settings, h: Hits) {
    && h.Total() >= s.NObjects()
    && (h.Total() == s.NObjects() <==> s.Given() <= s.Remaining())
    && h.n300 <= s.Remaining() && h.n100 <= s.Remaining() && h.n50 <= s.Remaining()
  }

  lemma FilledWithoutAccuracyAccounts(s: Settings, h: Hits)
    requires FillsWithoutAccuracy(s, h)
    ensures Accounts(s, h)
  {}

  lemma FilledForAccuracyAccounts(s: Settings, h: Hits)
    requires s.acc.Some? && FillsForAccuracy(s, h)
    ensures Accounts(s, h)
  {
    hide Settings.Nearest;
  }

  /** Conservation: hits of a generated state are neither lost nor invented. */
  lemma GeneratedTotal(s: Settings, st: ScoreState)
    requires Generated(s, st)
    ensures Accounts(s, st.ToHits())
    ensures s.KeepsGiven(st.ToHits()) || s.AllGiven()
  {
    hide Accounts, Settings.Dist, Settings.Nearest;
    if s.acc.None? {
      FilledWithoutAccuracyAccounts(s, st.ToHits());
    } else if s.AllGiven() {
      FilledWithoutAccuracyAccounts(s, st.ToHits());
    } else {
      FilledForAccuracyAccounts(s, st.ToHits());
    }
  }

  /** What a generated state has in terms of the fields: misses, ticks, slider ends and combo are
      those given as far as the map has them, or else all the map has, and there are results for
      all objects passed. */
  lemma ResultsOfPlay(s: Settings, st: ScoreState)
    requires Generated(s, st)
    ensures var passed := if s.passedObjects < s.attrs.nObjects then s.passedObjects else s.attrs.nObjects;
      var given := ValueOr0(s.n300) + ValueOr0(s.n100) + ValueOr0(s.n50);
      && IsUpTo(st.misses, s.misses, passed, 0)
      && st.n300 + st.n100 + st.n50 + st.misses >= passed
      && (given + st.misses <= passed ==> st.n300 + st.n100 + st.n50 + st.misses == passed)
    ensures !s.lazer ==> st.sliderEndHits == st.largeTickHits == 0
    ensures s.lazer ==>
      var ticks := if s.noSliderHeadAcc then s.attrs.nSliders + s.attrs.nLargeTicks else s.attrs.nLargeTicks;
      IsUpTo(st.sliderEndHits, s.sliderEndHits, s.attrs.nSliders, s.attrs.nSliders) && IsUpTo(st.largeTickHits, s.largeTickHits, ticks, ticks)
    ensures var combo := if s.attrs.maxCombo < st.misses then 0 else s.attrs.maxCombo - st.misses;
      IsUpTo(st.maxCombo, s.combo, combo, combo)
  {
    GeneratedTotal(s, st);
    hide Settings.Given, Settings.Remaining, FillsWithoutAccuracy, FillsGiven, FillsForAccuracy;
    GivenInFields(s);
    RemainingWithoutMisses(s);
  }

  lemma GivenInFields(s: Settings)
    ensures s.Given() <= ValueOr0(s.n300) + ValueOr0(s.n100) + ValueOr0(s.n50)
  {
    hide Settings.Remaining;
  }

  lemma RemainingWithoutMisses(s: Settings)
    ensures s.Remaining() + s.Misses() == s.NObjects()
  {
    hide Settings.NObjects, Clamped;
  }

  /** Generating again from the stored result changes nothing. */
  lemma GeneratingAgain(s: Settings, st: ScoreState, again: ScoreState)
    requires Generated(s, st) && Generated(s.Store(st), again)
    ensures again == st
    ensures s.Store(st).Store(again) == s.Store(st)
  {
    hide QuotientOrZero, TargetScore, FillsForAccuracy, FillsWithoutAccuracy;
    GeneratedTotal(s, st);
    var t := s.Store(st);
    assert t.AllGiven() && t.Remaining() == s.Remaining();
    assert SatSub(t.Remaining(), t.Given()) == 0;
    assert FillsGiven(t, again.ToHits()) by {
      if s.acc.None? {
        FilledGiven(t, again.ToHits());
      }
    }
  }

  lemma FilledGiven(s: Settings, h: Hits)
    requires s.AllGiven() && FillsWithoutAccuracy(s, h)
    ensures FillsGiven(s, h)
  {}

  class OsuPerformance {
    var attrs: Attrs
    var passedObjects: nat
    var lazer: bool
    var noSliderHeadAcc: bool
    var hitresultPriority: Priority
    var acc: Option<real>
    var combo: Option<nat>
    var largeTickHits: Option<nat>
    var sliderEndHits: Option<nat>
    var n300: Option<nat>
    var n100: Option<nat>
    var n50: Option<nat>
    var misses: Option<nat>

    function Snapshot(): Settings
      reads this
    {
      Settings(attrs, passedObjects, lazer, noSliderHeadAcc, hitresultPriority, acc, combo,
               largeTickHits, sliderEndHits, n300, n100, n50, misses)
    }

    method GenerateState() returns (st: ScoreState)
      modifies this
      ensures Generated(old(Snapshot()), st)
      ensures Snapshot() == old(Snapshot()).Store(st)
    {
      hide QuotientOrZero, TargetScore, FillsGiven, FillsForAccuracy, FillsWithoutAccuracy;
      var maxCombo := attrs.maxCombo;
      var nObjects := Min(passedObjects, attrs.nObjects);
      var nMisses := Clamped(misses, nObjects);
      var h300, h100, h50: nat;
      var ends, ticks := Snapshot().SliderEndHits(), Snapshot().LargeTickHits();

      if acc.Some? {
        h300, h100, h50 := HitsForAccuracy(Snapshot());
      } else {
        h300, h100, h50 := HitsWithoutAccuracy(Snapshot());
      }

      var maxPossibleCombo := SatSub(maxCombo, nMisses);
      var newCombo := if combo.Some? then Min(combo.value, maxPossibleCombo) else maxPossibleCombo;
      st := ScoreState(newCombo, ticks, ends, h300, h100, h50, nMisses);
      combo := Some(newCombo);
      sliderEndHits := Some(ends);
      largeTickHits := Some(ticks);
      n300 := Some(h300);
      n100 := Some(h100);
      n50 := Some(h50);
      misses := Some(nMisses);
    }
  }
}

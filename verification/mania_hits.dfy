/** Hit-result generation of osu!mania: `ManiaPerformance::generate_state`. */
module ManiaHits {
  import opened Rounding
  import opened HitResults
  import opened Wrappers

  datatype Attrs = Attrs(nObjects: nat, nHoldNotes: nat)

  /** The counts below 300. */
  datatype Lower = Lower(n200: nat, n100: nat, n50: nat) {
    function Sum(): nat {
      n200 + n100 + n50
    }

    function Score(): nat {
      4 * n200 + 2 * n100 + n50
    }
  }

  datatype ScoreState = ScoreState(n320: nat, n300: nat, n200: nat, n100: nat, n50: nat, misses: nat) {
    function ToLower(): Lower {
      Lower(n200, n100, n50)
    }

    function Total(): nat {
      n320 + n300 + ToLower().Sum() + misses
    }
  }

  /** The source's `accuracy`; only the sum of 320s and 300s matters to it. */
  function Accuracy(n320: nat, n300: nat, low: Lower, misses: nat): Float {
    Quotient(6 * (n320 + n300) + low.Score(), 6 * (n320 + n300 + low.Sum() + misses))
  }

  /** One of the counts below 300. */
  datatype Kind = N200 | N100 | N50

  datatype Settings = Settings(
    attrs: Attrs, passedObjects: nat, lazer: bool, priority: Priority, acc: Option<real>,
    n320: Option<nat>, n300: Option<nat>, n200: Option<nat>, n100: Option<nat>, n50: Option<nat>,
    misses: Option<nat>)
  {
    function Passed(): nat {
      Min(passedObjects, attrs.nObjects)
    }

    function Misses(): nat {
      Clamped(misses, Passed())
    }

    /** In lazer every hold note gives a second result. */
    function NObjects(): nat {
      Passed() + if lazer then attrs.nHoldNotes else 0
    }

    function Remaining(): nat {
      NObjects() - Misses()
    }

    function Given320(): nat { Clamped(n320, Remaining()) }

    function Given300(): nat { Clamped(n300, Remaining()) }

    /** The fewest 320s and 300s together. */
    function Given3x0(): nat { Given320() + Given300() }

    predicate Both3x0() {
      n320.Some? && n300.Some?
    }

    /** The given counts below 300, with zero for the open ones. */
    function GivenLower(): Lower {
      Lower(Clamped(n200, Remaining()), Clamped(n100, Remaining()), Clamped(n50, Remaining()))
    }

    function Given(): nat {
      Given3x0() + GivenLower().Sum()
    }

    predicate AllGiven() {
      Both3x0() && n200.Some? && n100.Some? && n50.Some?
    }

    predicate KeepsLower(low: Lower) {
      && Keeps(n200, Remaining(), low.n200)
      && Keeps(n100, Remaining(), low.n100)
      && Keeps(n50, Remaining(), low.n50)
    }

    /** `a` 320s and 300s with the lower counts are a legal split of the remaining objects. */
    predicate Legal(a: nat, low: Lower) {
      && Given3x0() <= a && (Both3x0() ==> a == Given3x0())
      && KeepsLower(low)
      && a + low.Sum() == Remaining()
    }

    function Target(): real
      requires acc.Some?
    {
      TargetScore(acc.value, 6 * NObjects())
    }

    function SplitDist(a: nat, low: Lower): Float
      requires acc.Some?
    {
      Distance(acc.value, Accuracy(a, 0, low, Misses()))
    }

    /** The nearest legal split where the given counts leave room for one; otherwise the
        open counts stay at zero. */
    ghost predicate BestSplit(a: nat, low: Lower)
      requires acc.Some?
    {
      && (Given() <= Remaining() ==>
            && Legal(a, low)
            && forall a2: nat, low2: Lower | Legal(a2, low2) ::
                 !Less(SplitDist(a2, low2), SplitDist(a, low)))
      && (Given() > Remaining() ==>
            low == GivenLower() && (!Both3x0() ==> a == Given3x0()))
    }
  }

  // ---------- the arithmetic of the searches ----------

  lemma DistOfSplit(s: Settings, a: nat, low: Lower)
    requires s.acc.Some? && a + low.Sum() == s.Remaining()
    ensures s.SplitDist(a, low) == Distance(s.acc.value, Quotient(6 * a + low.Score(), 6 * s.NObjects()))
  {
    hide Quotient, Distance, Lower.Score, Lower.Sum, Settings.Misses, Settings.NObjects;
    assert 6 * (a + 0) + low.Score() == 6 * a + low.Score();
    assert a + 0 + low.Sum() + s.Misses() == s.NObjects();
  }

  /** The nearer score is the nearer accuracy, as splits share their denominator. */
  lemma NearerSplit(s: Settings, a1: nat, l1: Lower, a2: nat, l2: Lower)
    requires s.acc.Some? && a1 + l1.Sum() == a2 + l2.Sum() == s.Remaining()
    requires Abs(s.Target() - (6 * a1 + l1.Score()) as real) <= Abs(s.Target() - (6 * a2 + l2.Score()) as real)
    ensures !Less(s.SplitDist(a2, l2), s.SplitDist(a1, l1))
  {
    hide Quotient, Distance, Accuracy;
    DistOfSplit(s, a1, l1);
    DistOfSplit(s, a2, l2);
    NearerQuotient(s.acc.value, 6 * s.NObjects(), 6 * a1 + l1.Score(), 6 * a2 + l2.Score());
  }

  /** The range of 320s and 300s that is searched between two clamped bounds. */
  function Range3x0(s: Settings, lo: nat, hi: nat, both: nat): (nat, nat) {
    if s.Both3x0() then (both, both)
    else if s.n320.Some? then (Max(lo, s.Given320()), Max(hi, s.Given320()))
    else if s.n300.Some? then (Max(lo, s.Given300()), Max(hi, s.Given300()))
    else (lo, hi)
  }

  /** How a score grows with 320s and 300s (`a`) and with one lower count (`b`) when a third
      count gives way to both. */
  datatype Trade = FiveAndOne | FiveAndThree | FourAndTwo | ThreeAndOne {
    function Gain(a: real, b: real): real {
      match this
      case FiveAndOne => 5.0 * a + b
      case FiveAndThree => 5.0 * a + 3.0 * b
      case FourAndTwo => 4.0 * a + 2.0 * b
      case ThreeAndOne => 3.0 * a + b
    }

    /** The number beside `a` that would gain exactly `u`. */
    function Beside(u: real, a: real): real {
      match this
      case FiveAndOne => u - 5.0 * a
      case FiveAndThree => (u - 5.0 * a) / 3.0
      case FourAndTwo => (u - 4.0 * a) / 2.0
      case ThreeAndOne => u - 3.0 * a
    }
  }

  /** Rounded up and clamped, a bound below a legal number has not been cut. */
  lemma ClampedUp(y: real, q: nat, base: nat, a: nat)
    requires base <= a <= q && Max(Min(CeilU32(y), q), base) < a
    ensures y <= Max(Min(CeilU32(y), q), base) as real && base <= Max(Min(CeilU32(y), q), base)
  {
    RoundingBounds(y, a);
    hide CeilU32;
  }

  lemma ClampedDown(x: real, q: nat, base: nat, a: nat)
    requires base <= a <= q && a < Max(Min(FloorU32(x), q), base)
    ensures Max(Min(FloorU32(x), q), base) <= q && Max(Min(FloorU32(x), q), base) as real <= x
  {
    RoundingBounds(x, a);
    hide FloorU32;
    if x < 0.0 {
      assert false;
    }
  }

  lemma ClampsOrdered(x: real, y: real, q: nat, base: nat)
    requires x <= y
    ensures Max(Min(FloorU32(x), q), base) <= Max(Min(CeilU32(y), q), base)
  {
    RoundingBounds(x, 0);
    RoundingBounds(y, 0);
    FloorBelowCeil(x, y);
    hide FloorU32, CeilU32;
  }

  lemma FloorBelowCeil(x: real, y: real)
    requires x <= y
    ensures FloorU32(x) <= CeilU32(y)
  {
    RoundingBounds(x, 0);
    RoundingBounds(y, 0);
    if 0.0 <= x {
      assert FloorU32(x) as real <= x <= y <= CeilU32(y) as real;
    }
  }

  /** The rounded bounds never cross. */
  lemma RangeNotEmpty(t: Trade, q: nat, u: real, x: real, y: real, base: nat)
    requires t.Gain(x, q as real - x) <= u <= t.Gain(y, 0.0)
    ensures Max(Min(FloorU32(x), q), base) <= Max(Min(CeilU32(y), q), base)
  {
    hide FloorU32, CeilU32, Min, Max;
    if x <= y {
      ClampsOrdered(x, y, q, base);
    } else {
      BothCut(x, y, q);
    }
  }

  lemma BothCut(x: real, y: real, q: nat)
    requires x >= q as real && y >= q as real
    ensures Min(FloorU32(x), q) == Min(CeilU32(y), q) == q
  {
    RoundingBounds(x, q);
    RoundingBounds(y, q);
    hide FloorU32, CeilU32;
  }

  /** The gain of `a` and `b` with `a + b <= q` is matched by some `a'` of the searched range
      and a suitable number beside it, although the range only reaches from `x` to `y`,
      the extremes of the real solutions, rounded outwards. */
  lemma MatchInRange(t: Trade, q: nat, u: real, x: real, y: real, base: nat, a: nat, b: nat)
    returns (a': nat, b': nat)
    requires base <= a && a + b <= q
    requires t.Gain(x, q as real - x) <= u <= t.Gain(y, 0.0)
    ensures Max(Min(FloorU32(x), q), base) <= a' <= Max(Min(CeilU32(y), q), base)
    ensures base <= a' && a' + b' <= q
    ensures Abs(u - t.Gain(a' as real, b' as real)) <= Abs(u - t.Gain(a as real, b as real))
  {
    var lo, hi := Max(Min(FloorU32(x), q), base), Max(Min(CeilU32(y), q), base);
    hide FloorU32, CeilU32, Trade.Gain, Min, Max;
    RangeNotEmpty(t, q, u, x, y, base);
    if lo <= a <= hi {
      a', b' := a, b;
    } else if hi < a {
      ClampedUp(y, q, base, a);
      a', b' := hi, 0;
      GainGrows(t, y, 0.0, hi as real, 0.0);
      GainGrows(t, hi as real, 0.0, a as real, b as real);
    } else {
      ClampedDown(x, q, base, a);
      a', b' := lo, q - lo;
      GainTrades(t, a as real, b as real, lo as real, (q - lo) as real);
      GainTrades(t, lo as real, (q - lo) as real, x, q as real - x);
    }
  }

  lemma GainGrows(t: Trade, a: real, b: real, a': real, b': real)
    requires a <= a' && b <= b'
    ensures t.Gain(a, b) <= t.Gain(a', b')
  {}

  /** The first count gains more than the second. */
  lemma GainTrades(t: Trade, a: real, b: real, a': real, b': real)
    requires a <= a' && a + b <= a' + b'
    ensures t.Gain(a, b) <= t.Gain(a', b')
  {}

  /** The two candidates for the count beside a fixed `a` include a best one. */
  lemma MatchBeside(t: Trade, cap: nat, u: real, a: nat, b: nat) returns (b': nat)
    requires b <= cap
    ensures
      var raw := t.Beside(u, a as real);
      Min(FloorU32(raw), cap) <= b' <= Min(CeilU32(raw), cap)
    ensures Abs(u - t.Gain(a as real, b' as real)) <= Abs(u - t.Gain(a as real, b as real))
  {
    b' := NearestInClampedRange(t.Beside(u, a as real), 0, cap, b);
  }

  // ---------- what the loops go through ----------

  /** Splits are compared by numbers unless there are no objects at all. */
  lemma DistIsNumber(s: Settings, a: nat, low: Lower)
    requires s.acc.Some? && a + low.Sum() >= s.Remaining()
    ensures s.SplitDist(a, low).Finite? == (s.NObjects() > 0 || a + low.Sum() > 0)
    ensures s.SplitDist(a, low) != Infinite
  {
    assert 6 * (a + 0 + low.Sum() + s.Misses()) == 0 <==> a + low.Sum() + s.Misses() == 0;
  }

  /** The state of a search: nothing compared yet, or the counts belonging to `best`. */
  predicate Current(s: Settings, best: Float, a: nat, low: Lower)
    requires s.acc.Some?
  {
    best == Infinite || (best.Finite? && best == s.SplitDist(a, low))
  }

  /** The lower counts when `open` takes what is left and the other two are given. */
  function OneOpen(s: Settings, open: Kind, a: nat): Lower {
    var g := s.GivenLower();
    match open
    case N200 => Lower(SatSub(s.Remaining(), a + g.n100 + g.n50), g.n100, g.n50)
    case N100 => Lower(g.n200, SatSub(s.Remaining(), a + g.n200 + g.n50), g.n50)
    case N50 => Lower(g.n200, g.n100, SatSub(s.Remaining(), a + g.n200 + g.n100))
  }

  /** The source's `raw_n3x0` of the three searches with one open lower count. */
  function RawOneOpen(s: Settings, open: Kind): real
    requires s.acc.Some?
  {
    var g, r := s.GivenLower(), s.Remaining();
    match open
    case N200 => (s.Target() - (4 * r) as real + (2 * g.n100 + 3 * g.n50) as real) / 2.0
    case N100 => (s.Target() - (2 * (r + g.n200) - g.n50) as real) / 4.0
    case N50 => (s.Target() - (r + 3 * g.n200 + g.n100) as real) / 5.0
  }

  function GivenBeside(s: Settings, open: Kind): nat {
    var g := s.GivenLower();
    match open
    case N200 => g.n100 + g.n50
    case N100 => g.n200 + g.n50
    case N50 => g.n200 + g.n100
  }

  function RangeOneOpen(s: Settings, open: Kind): (nat, nat)
    requires s.acc.Some?
  {
    var cap := SatSub(s.Remaining(), GivenBeside(s, open));
    Range3x0(s, Min(FloorU32(RawOneOpen(s, open)), cap), Min(CeilU32(RawOneOpen(s, open)), cap), s.Given3x0())
  }

  predicate OnlyOpen(s: Settings, open: Kind) {
    && (s.n200.None? <==> open == N200) && (s.n100.None? <==> open == N100) && (s.n50.None? <==> open == N50)
  }

  function Slope(open: Kind): real {
    match open
    case N200 => 2.0
    case N100 => 4.0
    case N50 => 5.0
  }

  /** The distance of a split to the wanted score is a multiple of the distance to `RawOneOpen`. */
  lemma ScoreOneOpen(s: Settings, open: Kind, a: nat)
    requires s.acc.Some? && a + GivenBeside(s, open) <= s.Remaining()
    ensures a + OneOpen(s, open, a).Sum() == s.Remaining()
    ensures s.Target() - (6 * a + OneOpen(s, open, a).Score()) as real == Slope(open) * (RawOneOpen(s, open) - a as real)
  {
    hide TargetScore, Settings.GivenLower, Settings.Remaining;
    match open {
      case N200 =>
      case N100 =>
      case N50 =>
    }
  }

  lemma RangeOneOpenReaches(s: Settings, open: Kind, a: nat)
    returns (a': nat)
    requires s.acc.Some? && s.Given3x0() <= a && (s.Both3x0() ==> a == s.Given3x0())
    requires a + GivenBeside(s, open) <= s.Remaining()
    ensures RangeOneOpen(s, open).0 <= a' <= RangeOneOpen(s, open).1
    ensures s.Given3x0() <= a' && (s.Both3x0() ==> a' == s.Given3x0())
    ensures a' + GivenBeside(s, open) <= s.Remaining()
    ensures Abs(RawOneOpen(s, open) - a' as real) <= Abs(RawOneOpen(s, open) - a as real)
  {
    hide RawOneOpen, FloorU32, CeilU32;
    if s.Both3x0() {
      a' := a;
    } else {
      a' := NearestInClampedRange(RawOneOpen(s, open), s.Given3x0(), s.Remaining() - GivenBeside(s, open), a);
    }
  }

  /** One of the searched counts of 320s and 300s matches any legal split. */
  lemma MatchOneOpen(s: Settings, open: Kind, a: nat, low: Lower) returns (a': nat)
    requires s.acc.Some? && OnlyOpen(s, open) && s.Legal(a, low)
    ensures RangeOneOpen(s, open).0 <= a' <= RangeOneOpen(s, open).1
    ensures s.Legal(a', OneOpen(s, open, a'))
    ensures !Less(s.SplitDist(a, low), s.SplitDist(a', OneOpen(s, open, a')))
  {
    hide TargetScore, Settings.SplitDist, RawOneOpen, RangeOneOpen, Lower.Score, Less;
    assert low == OneOpen(s, open, a);
    a' := RangeOneOpenReaches(s, open, a);
    ScoreOneOpen(s, open, a);
    ScoreOneOpen(s, open, a');
    NearerSplit(s, a', OneOpen(s, open, a'), a, low);
  }

  ghost predicate BestOneOpen(s: Settings, open: Kind, best: Float, lo: nat, end: nat)
    requires s.acc.Some?
  {
    forall a: nat | lo <= a < end :: !Less(s.SplitDist(a, OneOpen(s, open, a)), best)
  }

  /** n100 and n50, n200 and n50, or n200 and n100 given. */
  method SearchOneOpen(s: Settings, open: Kind) returns (n3x0: nat, low: Lower)
    requires s.acc.Some? && OnlyOpen(s, open)
    ensures s.BestSplit(n3x0, low)
  {
    hide TargetScore, Settings.SplitDist, RangeOneOpen, OneOpen, BestOneOpen, Settings.BestSplit;
    var bestDist := Infinite;
    n3x0 := SatSub(s.NObjects(), s.Given() + s.Misses());
    low := s.GivenLower();
    var (min3x0, max3x0) := RangeOneOpen(s, open);
    OneOpenStarts(s, open, bestDist);
    for new3x0: int := min3x0 to max3x0 + 1
      invariant Current(s, bestDist, n3x0, low)
      invariant bestDist == Infinite ==> Untouched(s, n3x0, low)
      invariant bestDist != Infinite ==> min3x0 <= n3x0 <= max3x0 && low == OneOpen(s, open, n3x0)
      invariant BestOneOpen(s, open, bestDist, min3x0, new3x0)
    {
      var newLow := OneOpen(s, open, new3x0);
      var currDist := s.SplitDist(new3x0, newLow);
      ghost var previous := bestDist;
      if Less(currDist, bestDist) {
        bestDist := currDist;
        n3x0 := new3x0;
        low := newLow;
      }
      OneOpenStep(s, open, previous, bestDist, min3x0, new3x0);
    }
    OneOpenDone(s, open, bestDist, n3x0, low);
  }

  lemma OneOpenStarts(s: Settings, open: Kind, best: Float)
    requires s.acc.Some?
    ensures RangeOneOpen(s, open).0 <= RangeOneOpen(s, open).1
    ensures BestOneOpen(s, open, best, RangeOneOpen(s, open).0, RangeOneOpen(s, open).0)
  {
    RoundingBounds(RawOneOpen(s, open), 0);
  }

  lemma OneOpenStep(s: Settings, open: Kind, previous: Float, best: Float, lo: nat, a: nat)
    requires s.acc.Some? && lo <= a
    requires var d := s.SplitDist(a, OneOpen(s, open, a)); best == if Less(d, previous) then d else previous
    requires BestOneOpen(s, open, previous, lo, a)
    ensures BestOneOpen(s, open, best, lo, a + 1)
  {
    hide TargetScore, OneOpen, Settings.SplitDist;
  }

  /** The counts a tried split fills in: legal if the given counts leave room, else nothing. */
  predicate FillsOrAddsNothing(s: Settings, a: nat, low: Lower) {
    && (s.Given() <= s.Remaining() ==> s.Legal(a, low))
    && (s.Given() > s.Remaining() ==> low == s.GivenLower() && (!s.Both3x0() ==> a == s.Given3x0()))
  }

  /** The variables of a search before anything was compared. */
  predicate Untouched(s: Settings, a: nat, low: Lower) {
    a == SatSub(s.NObjects(), s.Given() + s.Misses()) && low == s.GivenLower()
  }

  /** What a search knows at its end makes its result a best split; without objects nothing
      can be compared and all counts are zero. */
  lemma SearchDone(s: Settings, best: Float, a: nat, low: Lower)
    requires s.acc.Some? && Current(s, best, a, low)
    requires s.NObjects() > 0 ==> best.Finite?
    requires if best == Infinite then Untouched(s, a, low) else FillsOrAddsNothing(s, a, low)
    requires s.Given() <= s.Remaining() ==> forall a2: nat, low2: Lower | s.Legal(a2, low2) ::
      !Less(s.SplitDist(a2, low2), best)
    ensures s.BestSplit(a, low)
  {
    hide Settings.SplitDist, Settings.Legal, Settings.Given, Settings.Remaining, Less;
    if best == Infinite {
      assert s.NObjects() == 0;
      UntouchedWithoutObjects(s, a, low);
      forall a2: nat, low2: Lower | s.Legal(a2, low2)
        ensures !Less(s.SplitDist(a2, low2), s.SplitDist(a, low))
      {
        NothingToCompare(s, a2, low2, s.SplitDist(a, low));
      }
    } else {
      assert best == s.SplitDist(a, low);
    }
  }

  lemma UntouchedWithoutObjects(s: Settings, a: nat, low: Lower)
    requires s.NObjects() == 0 && Untouched(s, a, low)
    ensures s.Given() == s.Remaining() == 0 && s.Legal(a, low)
  {
    hide Settings.Remaining, Settings.NObjects, Settings.Legal, Settings.KeepsLower, Settings.GivenLower, Clamped, Lower.Sum;
    NothingRemains(s);
    NothingGiven(s);
    LegalIf(s, a, low);
  }

  lemma LegalIf(s: Settings, a: nat, low: Lower)
    requires a == s.Given3x0() && s.KeepsLower(low) && a + low.Sum() == s.Remaining()
    ensures s.Legal(a, low)
  {
    hide Settings.Remaining, Settings.KeepsLower, Settings.Given3x0, Lower.Sum;
  }

  lemma NothingRemains(s: Settings)
    requires s.NObjects() == 0
    ensures s.Misses() == s.Remaining() == 0
  {
    hide Clamped;
    ClampedToZero(s.misses);
  }

  lemma NothingGiven(s: Settings)
    requires s.Remaining() == 0
    ensures s.Given320() == s.Given300() == s.GivenLower().Sum() == 0 && s.KeepsLower(s.GivenLower())
  {
    hide Settings.Remaining, Clamped;
    ClampedToZero(s.n320);
    ClampedToZero(s.n300);
    ClampedToZero(s.n200);
    ClampedToZero(s.n100);
    ClampedToZero(s.n50);
  }

  lemma NothingToCompare(s: Settings, a: nat, low: Lower, x: Float)
    requires s.acc.Some? && s.NObjects() == 0 && s.Legal(a, low)
    ensures !Less(s.SplitDist(a, low), x)
  {
    hide Settings.SplitDist, Settings.Legal, Settings.KeepsLower;
    LegalSum(s, a, low);
    DistIsNumber(s, a, low);
  }

  lemma FartherThanBest(x: Float, y: Float, best: Float)
    requires !Less(x, y) && !Less(y, best) && y.Finite?
    ensures !Less(x, best)
  {}

  lemma OneOpenFills(s: Settings, open: Kind, a: nat)
    requires s.acc.Some? && OnlyOpen(s, open)
    requires RangeOneOpen(s, open).0 <= a <= RangeOneOpen(s, open).1
    ensures FillsOrAddsNothing(s, a, OneOpen(s, open, a))
    ensures a + OneOpen(s, open, a).Sum() >= s.Remaining()
  {
    hide RawOneOpen, FloorU32, CeilU32;
  }

  lemma OneOpenDone(s: Settings, open: Kind, best: Float, a: nat, low: Lower)
    requires s.acc.Some? && OnlyOpen(s, open) && Current(s, best, a, low)
    requires RangeOneOpen(s, open).0 <= RangeOneOpen(s, open).1
    requires BestOneOpen(s, open, best, RangeOneOpen(s, open).0, RangeOneOpen(s, open).1 + 1)
    requires best == Infinite ==> Untouched(s, a, low)
    requires best != Infinite ==>
      RangeOneOpen(s, open).0 <= a <= RangeOneOpen(s, open).1 && low == OneOpen(s, open, a)
    ensures s.BestSplit(a, low)
  {
    hide TargetScore, OneOpen, RangeOneOpen, Settings.SplitDist, FillsOrAddsNothing, Settings.BestSplit, Settings.Legal;
    if best != Infinite {
      OneOpenFills(s, open, a);
    }
    if s.NObjects() > 0 {
      var lo := RangeOneOpen(s, open).0;
      OneOpenFills(s, open, lo);
      DistIsNumber(s, lo, OneOpen(s, open, lo));
      assert best.Finite?;
      forall a2: nat, low2: Lower | s.Legal(a2, low2)
        ensures !Less(s.SplitDist(a2, low2), best)
      {
        var a' := MatchOneOpen(s, open, a2, low2);
        OneOpenFills(s, open, a');
        DistIsNumber(s, a', OneOpen(s, open, a'));
        FartherThanBest(s.SplitDist(a2, low2), s.SplitDist(a', OneOpen(s, open, a')), best);
      }
    } else {
      forall a2: nat, low2: Lower | s.Legal(a2, low2)
        ensures !Less(s.SplitDist(a2, low2), best)
      {
        LegalSum(s, a2, low2);
        DistIsNumber(s, a2, low2);
      }
    }
    SearchDone(s, best, a, low);
  }

  lemma LegalSum(s: Settings, a: nat, low: Lower)
    requires s.Legal(a, low)
    ensures a + low.Sum() == s.Remaining()
  {}

  // ---------- one lower count given ----------

  function GivenOf(s: Settings, given: Kind): nat {
    var g := s.GivenLower();
    match given
    case N200 => g.n200
    case N100 => g.n100
    case N50 => g.n50
  }

  predicate OnlyGiven(s: Settings, given: Kind) {
    && (s.n200.Some? <==> given == N200) && (s.n100.Some? <==> given == N100) && (s.n50.Some? <==> given == N50)
  }

  /** The lower counts when the first open one is `b` and the second takes what is left. */
  function TwoOpen(s: Settings, given: Kind, a: nat, b: nat): Lower {
    var m := GivenOf(s, given);
    var rest := SatSub(s.Remaining(), a + m + b);
    match given
    case N200 => Lower(m, b, rest)
    case N100 => Lower(b, m, rest)
    case N50 => Lower(b, rest, m)
  }

  /** The source's bounds for 320s and 300s before rounding. */
  function RawBounds(s: Settings, given: Kind): (real, real)
    requires s.acc.Some?
  {
    var m, r := GivenOf(s, given), s.Remaining();
    match given
    case N200 => ((s.Target() - (2 * (r + m)) as real) / 4.0, (s.Target() - (r + 3 * m) as real) / 5.0)
    case N100 => (TargetScore(s.acc.value, 3 * r) - (2 * r - m) as real, (s.Target() - (r + m) as real) / 5.0)
    case N50 => ((s.Target() - (4 * r - 3 * m) as real) / 2.0, (s.Target() - (2 * r - m) as real) / 4.0)
  }

  function RangeTwoOpen(s: Settings, given: Kind): (nat, nat)
    requires s.acc.Some?
  {
    var cap := s.Remaining() - GivenOf(s, given);
    Range3x0(s, Min(FloorU32(RawBounds(s, given).0), cap), Min(CeilU32(RawBounds(s, given).1), cap),
             Min(s.Remaining(), s.Given3x0()))
  }

  /** The source's `raw_n100` or `raw_n200` beside `a` 320s and 300s. */
  function RawBeside(s: Settings, given: Kind, a: nat): real
    requires s.acc.Some?
  {
    var m, r := GivenOf(s, given), s.Remaining();
    match given
    case N200 => s.Target() - (r + 5 * a + 3 * m) as real
    case N100 => (s.Target() - (r + 5 * a + m) as real) / 3.0
    case N50 => (s.Target() - (2 * r + 4 * a) as real + m as real) / 2.0
  }

  function RangeBeside(s: Settings, given: Kind, a: nat): (nat, nat)
    requires s.acc.Some?
  {
    var cap := SatSub(s.Remaining(), a + GivenOf(s, given));
    (Min(FloorU32(RawBeside(s, given, a)), cap), Min(CeilU32(RawBeside(s, given, a)), cap))
  }

  function TradeOf(given: Kind): Trade {
    match given
    case N200 => FiveAndOne
    case N100 => FiveAndThree
    case N50 => FourAndTwo
  }

  /** What has to be gained above the score of the given count and the lowest open one. */
  function ToGain(s: Settings, given: Kind): real
    requires s.acc.Some?
  {
    var m, r := GivenOf(s, given), s.Remaining();
    s.Target() - (match given case N200 => r + 3 * m case N100 => r + m case N50 => 2 * r - m) as real
  }

  lemma ScoreTwoOpen(s: Settings, given: Kind, a: nat, b: nat)
    requires s.acc.Some? && a + GivenOf(s, given) + b <= s.Remaining()
    ensures a + TwoOpen(s, given, a, b).Sum() == s.Remaining()
    ensures s.Target() - (6 * a + TwoOpen(s, given, a, b).Score()) as real
         == ToGain(s, given) - TradeOf(given).Gain(a as real, b as real)
  {
    hide TargetScore, Settings.Remaining, Settings.GivenLower;
    match given {
      case N200 =>
      case N100 =>
      case N50 =>
    }
  }

  /** Misses only lower the target, so three times the remaining objects stay below half of it. */
  lemma TargetOfRemaining(s: Settings)
    requires s.acc.Some? && 0.0 <= s.acc.value
    ensures 2.0 * TargetScore(s.acc.value, 3 * s.Remaining()) <= s.Target()
  {
    var acc, r, n := s.acc.value, (3 * s.Remaining()) as real, (6 * s.NObjects()) as real;
    ScaleMonotone(acc, 2.0 * r, n);
    assert 2.0 * (acc * r) == acc * (2.0 * r);
  }

  lemma ScaleMonotone(k: real, x: real, y: real)
    requires 0.0 <= k && x <= y
    ensures k * x <= k * y
  {}

  lemma BoundsAreExtremes(s: Settings, given: Kind)
    requires s.acc.Some? && 0.0 <= s.acc.value
    ensures
      var (x, y), t := RawBounds(s, given), TradeOf(given);
      var q := s.Remaining() - GivenOf(s, given);
      t.Gain(x, q as real - x) <= ToGain(s, given) <= t.Gain(y, 0.0)
    ensures forall a: nat :: RawBeside(s, given, a) == TradeOf(given).Beside(ToGain(s, given), a as real)
  {
    TargetOfRemaining(s);
    hide TargetScore, Settings.Remaining, Settings.GivenLower;
  }

  lemma RangesReach(s: Settings, given: Kind, a: nat, b: nat) returns (a': nat, b': nat)
    requires s.acc.Some? && 0.0 <= s.acc.value
    requires s.Given3x0() <= a && (s.Both3x0() ==> a == s.Given3x0())
    requires a + GivenOf(s, given) + b <= s.Remaining()
    ensures RangeTwoOpen(s, given).0 <= a' <= RangeTwoOpen(s, given).1
    ensures RangeBeside(s, given, a').0 <= b' <= RangeBeside(s, given, a').1
    ensures s.Given3x0() <= a' && (s.Both3x0() ==> a' == s.Given3x0())
    ensures a' + GivenOf(s, given) + b' <= s.Remaining()
    ensures
      var u, t := ToGain(s, given), TradeOf(given);
      Abs(u - t.Gain(a' as real, b' as real)) <= Abs(u - t.Gain(a as real, b as real))
  {
    hide TargetScore, RawBounds, ToGain, Trade.Gain, Trade.Beside, RawBeside, FloorU32, CeilU32, GivenOf;
    var m, r, u, t := GivenOf(s, given), s.Remaining(), ToGain(s, given), TradeOf(given);
    BoundsAreExtremes(s, given);
    var b0: nat;
    if s.Both3x0() {
      a', b0 := a, b;
    } else {
      a', b0 := MatchInRange(t, r - m, u, RawBounds(s, given).0, RawBounds(s, given).1, s.Given3x0(), a, b);
    }
    b' := MatchBeside(t, r - m - a', u, a', b0);
  }

  /** One of the tried pairs matches any legal split. */
  lemma MatchTwoOpen(s: Settings, given: Kind, a: nat, low: Lower) returns (a': nat, b': nat)
    requires s.acc.Some? && 0.0 <= s.acc.value && OnlyGiven(s, given) && s.Legal(a, low)
    ensures RangeTwoOpen(s, given).0 <= a' <= RangeTwoOpen(s, given).1
    ensures RangeBeside(s, given, a').0 <= b' <= RangeBeside(s, given, a').1
    ensures s.Legal(a', TwoOpen(s, given, a', b'))
    ensures !Less(s.SplitDist(a, low), s.SplitDist(a', TwoOpen(s, given, a', b')))
  {
    hide TargetScore, Settings.SplitDist, Lower.Score, Less, ToGain, Trade.Gain, RangeBeside, RangeTwoOpen;
    var b := match given case N200 => low.n100 case _ => low.n200;
    assert low == TwoOpen(s, given, a, b);
    a', b' := RangesReach(s, given, a, b);
    ScoreTwoOpen(s, given, a, b);
    ScoreTwoOpen(s, given, a', b');
    NearerSplit(s, a', TwoOpen(s, given, a', b'), a, low);
  }

  // the loops

  predicate TriedTwoOpen(s: Settings, given: Kind, a: nat, b: nat)
    requires s.acc.Some?
  {
    && RangeTwoOpen(s, given).0 <= a <= RangeTwoOpen(s, given).1
    && RangeBeside(s, given, a).0 <= b <= RangeBeside(s, given, a).1
  }

  /** `best` is no farther than the pairs tried before `(i, j)`. */
  ghost predicate BestTwoOpen(s: Settings, given: Kind, best: Float, i: nat, j: nat)
    requires s.acc.Some?
  {
    forall a: nat, b: nat | TriedTwoOpen(s, given, a, b) && (a < i || (a == i && b < j)) ::
      !Less(s.SplitDist(a, TwoOpen(s, given, a, b)), best)
  }

  /** One of n200, n100 and n50 given. */
  method SearchTwoOpen(s: Settings, given: Kind) returns (n3x0: nat, low: Lower)
    requires s.acc.Some? && 0.0 <= s.acc.value && OnlyGiven(s, given)
    ensures s.BestSplit(n3x0, low)
  {
    hide TargetScore, Settings.SplitDist, RangeTwoOpen, RangeBeside, TwoOpen, BestTwoOpen, Settings.BestSplit,
         FillsOrAddsNothing, OnlyGiven, Settings.Given, Settings.Misses, Settings.NObjects, Settings.GivenLower;
    var bestDist := Infinite;
    n3x0 := SatSub(s.NObjects(), s.Given() + s.Misses());
    low := s.GivenLower();
    var (min3x0, max3x0) := RangeTwoOpen(s, given);
    TwoOpenStarts(s, given, bestDist);
    for new3x0: int := min3x0 to max3x0 + 1
      invariant Current(s, bestDist, n3x0, low)
      invariant bestDist == Infinite ==> Untouched(s, n3x0, low)
      invariant bestDist != Infinite ==> FillsOrAddsNothing(s, n3x0, low)
      invariant BestTwoOpen(s, given, bestDist, new3x0, 0)
    {
      var (minBeside, maxBeside) := RangeBeside(s, given, new3x0);
      TwoOpenRowStarts(s, given, bestDist, new3x0);
      for beside: int := minBeside to maxBeside + 1
        invariant Current(s, bestDist, n3x0, low)
        invariant bestDist == Infinite ==> Untouched(s, n3x0, low)
        invariant bestDist != Infinite ==> FillsOrAddsNothing(s, n3x0, low)
        invariant BestTwoOpen(s, given, bestDist, new3x0, beside)
      {
        var newLow := TwoOpen(s, given, new3x0, beside);
        var currDist := s.SplitDist(new3x0, newLow);
        ghost var previous := bestDist;
        if Less(currDist, bestDist) {
          bestDist := currDist;
          n3x0 := new3x0;
          low := newLow;
        }
        TwoOpenFills(s, given, new3x0, beside);
        TwoOpenStep(s, given, previous, bestDist, new3x0, beside);
      }
      TwoOpenRowEnds(s, given, bestDist, new3x0);
    }
    TwoOpenDone(s, given, bestDist, n3x0, low);
  }

  lemma TwoOpenStarts(s: Settings, given: Kind, best: Float)
    requires s.acc.Some? && 0.0 <= s.acc.value
    ensures RangeTwoOpen(s, given).0 <= RangeTwoOpen(s, given).1
    ensures BestTwoOpen(s, given, best, RangeTwoOpen(s, given).0, 0)
  {
    hide TargetScore, ToGain, RawBounds, FloorU32, CeilU32, Settings.SplitDist, Less;
    BoundsAreExtremes(s, given);
    RangeNotEmpty(TradeOf(given), s.Remaining() - GivenOf(s, given), ToGain(s, given),
                  RawBounds(s, given).0, RawBounds(s, given).1, s.Given3x0());
  }

  lemma TwoOpenRowStarts(s: Settings, given: Kind, best: Float, i: nat)
    requires s.acc.Some? && BestTwoOpen(s, given, best, i, 0)
    ensures RangeBeside(s, given, i).0 <= RangeBeside(s, given, i).1
    ensures BestTwoOpen(s, given, best, i, RangeBeside(s, given, i).0)
  {
    hide RangeTwoOpen, RawBeside, Settings.SplitDist, Less;
    RoundingBounds(RawBeside(s, given, i), 0);
  }

  lemma TwoOpenStep(s: Settings, given: Kind, previous: Float, best: Float, i: nat, j: nat)
    requires s.acc.Some? && BestTwoOpen(s, given, previous, i, j)
    requires var d := s.SplitDist(i, TwoOpen(s, given, i, j)); best == if Less(d, previous) then d else previous
    ensures BestTwoOpen(s, given, best, i, j + 1)
  {
    hide TriedTwoOpen, TwoOpen, Settings.SplitDist;
  }

  lemma TwoOpenRowEnds(s: Settings, given: Kind, best: Float, i: nat)
    requires s.acc.Some? && BestTwoOpen(s, given, best, i, RangeBeside(s, given, i).1 + 1)
    ensures BestTwoOpen(s, given, best, i + 1, 0)
  {
    hide RangeTwoOpen, RangeBeside, Settings.SplitDist, Less, TwoOpen;
  }

  lemma RangeWithin(s: Settings, lo: nat, hi: nat, cap: nat, both: nat, a: nat)
    requires lo <= cap && hi <= cap
    requires Range3x0(s, lo, hi, both).0 <= a <= Range3x0(s, lo, hi, both).1
    ensures s.Both3x0() ==> a == both
    ensures !s.Both3x0() ==> s.Given3x0() <= a <= Max(cap, s.Given3x0())
  {}

  lemma TriedTwoOpenBounds(s: Settings, given: Kind, a: nat, b: nat)
    requires s.acc.Some? && TriedTwoOpen(s, given, a, b)
    ensures s.Both3x0() ==> a == Min(s.Remaining(), s.Given3x0())
    ensures !s.Both3x0() ==> s.Given3x0() <= a <= Max(s.Remaining() - GivenOf(s, given), s.Given3x0())
    ensures b <= SatSub(s.Remaining(), a + GivenOf(s, given))
  {
    hide RawBounds, RawBeside, FloorU32, CeilU32, Range3x0, Settings.Given3x0;
    var cap := s.Remaining() - GivenOf(s, given);
    RangeWithin(s, Min(FloorU32(RawBounds(s, given).0), cap), Min(CeilU32(RawBounds(s, given).1), cap), cap,
                Min(s.Remaining(), s.Given3x0()), a);
  }

  lemma OnlyGivenLower(s: Settings, given: Kind)
    requires OnlyGiven(s, given)
    ensures GivenOf(s, given) <= s.Remaining()
    ensures
      var m := GivenOf(s, given);
      s.GivenLower() == match given case N200 => Lower(m, 0, 0) case N100 => Lower(0, m, 0) case N50 => Lower(0, 0, m)
    ensures s.Given() == s.Given3x0() + GivenOf(s, given)
  {}

  lemma TwoOpenFillsWithin(s: Settings, given: Kind, a: nat, b: nat)
    requires OnlyGiven(s, given)
    requires s.Both3x0() ==> a == Min(s.Remaining(), s.Given3x0())
    requires !s.Both3x0() ==> s.Given3x0() <= a <= Max(s.Remaining() - GivenOf(s, given), s.Given3x0())
    requires b <= SatSub(s.Remaining(), a + GivenOf(s, given))
    ensures FillsOrAddsNothing(s, a, TwoOpen(s, given, a, b))
    ensures a + TwoOpen(s, given, a, b).Sum() >= s.Remaining()
  {
    OnlyGivenLower(s, given);
    hide Clamped, Settings.Given3x0, Settings.Remaining, Settings.Given;
  }

  lemma TwoOpenFills(s: Settings, given: Kind, a: nat, b: nat)
    requires s.acc.Some? && OnlyGiven(s, given) && TriedTwoOpen(s, given, a, b)
    ensures FillsOrAddsNothing(s, a, TwoOpen(s, given, a, b))
    ensures a + TwoOpen(s, given, a, b).Sum() >= s.Remaining()
  {
    TriedTwoOpenBounds(s, given, a, b);
    TwoOpenFillsWithin(s, given, a, b);
  }

  lemma TwoOpenDone(s: Settings, given: Kind, best: Float, a: nat, low: Lower)
    requires s.acc.Some? && 0.0 <= s.acc.value && OnlyGiven(s, given) && Current(s, best, a, low)
    requires RangeTwoOpen(s, given).0 <= RangeTwoOpen(s, given).1
    requires BestTwoOpen(s, given, best, RangeTwoOpen(s, given).1 + 1, 0)
    requires if best == Infinite then Untouched(s, a, low) else FillsOrAddsNothing(s, a, low)
    ensures s.BestSplit(a, low)
  {
    hide TargetScore, TwoOpen, RangeTwoOpen, RangeBeside, Settings.SplitDist, FillsOrAddsNothing, Settings.BestSplit, Settings.Legal;
    if s.NObjects() > 0 {
      var lo := RangeTwoOpen(s, given).0;
      RoundingBounds(RawBeside(s, given, lo), 0);
      var b := RangeBesideStart(s, given, lo);
      TwoOpenFills(s, given, lo, b);
      DistIsNumber(s, lo, TwoOpen(s, given, lo, b));
      assert best.Finite?;
      forall a2: nat, low2: Lower | s.Legal(a2, low2)
        ensures !Less(s.SplitDist(a2, low2), best)
      {
        var a', b' := MatchTwoOpen(s, given, a2, low2);
        assert TriedTwoOpen(s, given, a', b');
        TwoOpenFills(s, given, a', b');
        DistIsNumber(s, a', TwoOpen(s, given, a', b'));
        FartherThanBest(s.SplitDist(a2, low2), s.SplitDist(a', TwoOpen(s, given, a', b')), best);
      }
    } else {
      forall a2: nat, low2: Lower | s.Legal(a2, low2)
        ensures !Less(s.SplitDist(a2, low2), best)
      {
        LegalSum(s, a2, low2);
        DistIsNumber(s, a2, low2);
      }
    }
    SearchDone(s, best, a, low);
  }

  lemma RangeBesideStart(s: Settings, given: Kind, a: nat) returns (b: nat)
    requires s.acc.Some?
    ensures RangeBeside(s, given, a).0 == b <= RangeBeside(s, given, a).1
  {
    b := RangeBeside(s, given, a).0;
    RoundingBounds(RawBeside(s, given, a), 0);
  }

  // ---------- no lower count given ----------

  /** A gain of at most `3 * q - 2` is a sum of threes and ones with at most `q` terms. */
  lemma ThreesAndOnes(w: nat, q: nat) returns (b: nat, c: nat)
    requires w == 0 || w + 2 <= 3 * q
    ensures 3 * b + c == w && b + c <= q
  {
    b, c := w / 3, w % 3;
  }

  /** Below five thirds of the remaining objects every wanted gain is met, up to rounding,
      with no more 320s and 300s than are given. This is where the source's second upper
      bound for them cuts the range. */
  lemma MatchWithFewest(r: nat, u: real, base: nat, g: nat) returns (b: nat, c: nat)
    requires base <= r && 5 * base <= g && 3.0 * u < (5 * r) as real
    requires r == 1 ==> g != 2
    ensures base + b + c <= r
    ensures Abs(u - (5 * base + 3 * b + c) as real) <= Abs(u - g as real)
  {
    if u <= (5 * base) as real {
      b, c := 0, 0;
    } else {
      RoundingBounds(u, g);
      var near := if g as real <= u then g else if r == 1 && base == 0 && CeilU32(u) == 2 then 1 else CeilU32(u);
      b, c := ThreesAndOnes(near - 5 * base, r - base);
    }
  }

  /** From there on the range reaches from the rounded smallest to the largest real solution. */
  lemma MatchAboveCut(r: nat, u: real, base: nat, lo: nat, hi: nat, a: nat, b: nat, c: nat)
    returns (a': nat, b': nat, c': nat)
    requires base <= a && a + b + c <= r && (5 * r) as real <= 3.0 * u
    requires lo == Max(Min(FloorU32((u - (3 * r) as real) / 5.0), r), base)
    requires hi == Max(Min(CeilU32(u / 5.0), r), base)
    ensures lo <= a' <= hi && base <= a' && a' + b' + c' <= r
    ensures Abs(u - (5 * a' + 3 * b' + c') as real) <= Abs(u - (5 * a + 3 * b + c) as real)
  {
    hide FloorU32, CeilU32, Min, Max;
    var x, y := (u - (3 * r) as real) / 5.0, u / 5.0;
    ClampsOrdered(x, y, r, base);
    if hi < a {
      ClampedUp(y, r, base, a);
      a', b', c' := hi, 0, 0;
    } else if a < lo {
      ClampedDown(x, r, base, a);
      a', b', c' := lo, r - lo, 0;
    } else {
      a', b', c' := a, b, c;
    }
  }

  /** Any split is matched by one whose 320s and 300s lie in the searched range. */
  lemma MatchThreeOpen(r: nat, u: real, base: nat, a: nat, b: nat, c: nat) returns (a': nat, b': nat, c': nat)
    requires base <= a && a + b + c <= r
    ensures Max(Min(FloorU32((u - (3 * r) as real) / 5.0), r), base) <= a'
    ensures a' <= Max(Min(CeilU32(RealMin(u / 5.0, (u - r as real) / 2.0)), r), base)
    ensures base <= a' && a' + b' + c' <= r
    ensures Abs(u - (5 * a' + 3 * b' + c') as real) <= Abs(u - (5 * a + 3 * b + c) as real)
  {
    if 3.0 * u < (5 * r) as real || r == 0 {
      a' := base;
      if r == 0 {
        b', c' := 0, 0;
      } else {
        assert FloorU32((u - (3 * r) as real) / 5.0) == 0;
        b', c' := MatchWithFewest(r, u, base, 5 * a + 3 * b + c);
      }
    } else {
      assert RealMin(u / 5.0, (u - r as real) / 2.0) == u / 5.0;
      a', b', c' := MatchAboveCut(r, u, base, Max(Min(FloorU32((u - (3 * r) as real) / 5.0), r), base),
                                  Max(Min(CeilU32(u / 5.0), r), base), a, b, c);
    }
  }

  predicate NoLowerGiven(s: Settings) {
    s.n200.None? && s.n100.None? && s.n50.None?
  }

  /** Half of the target score, written in the source as `acc * f64::from(3 * n_objects)`. */
  function HalfTarget(s: Settings): real
    requires s.acc.Some?
  {
    TargetScore(s.acc.value, 3 * s.NObjects())
  }

  lemma HalfTargetIsHalf(s: Settings)
    requires s.acc.Some?
    ensures 2.0 * HalfTarget(s) == s.Target()
  {
    assert (6 * s.NObjects()) as real == 2.0 * (3 * s.NObjects()) as real;
  }

  /** The source's bounds for 320s and 300s, rounded and clamped to the remaining objects. */
  function Bounds3x0(target: real, half: real, r: nat): (nat, nat) {
    (Min(FloorU32((target - (4 * r) as real) / 5.0), r),
     Min(CeilU32(RealMin((target - r as real) / 5.0, half - r as real)), r))
  }

  function RangeThreeOpen(s: Settings): (nat, nat)
    requires s.acc.Some?
  {
    var r := s.Remaining();
    var bounds := Bounds3x0(s.Target(), HalfTarget(s), r);
    Range3x0(s, bounds.0, bounds.1, Min(r, s.Given3x0()))
  }

  function Range200(s: Settings, a: nat): (nat, nat)
    requires s.acc.Some?
  {
    var r := s.Remaining();
    (Min(FloorU32(HalfTarget(s) - (r + 2 * a) as real), SatSub(r, a)),
     Min(CeilU32((s.Target() - (r + 5 * a) as real) / 3.0), SatSub(r, a)))
  }

  function Raw100(s: Settings, a: nat, b: nat): real
    requires s.acc.Some?
  {
    s.Target() - (s.Remaining() + 5 * a + 3 * b) as real
  }

  function Range100(s: Settings, a: nat, b: nat): (nat, nat)
    requires s.acc.Some?
  {
    var cap := SatSub(s.Remaining(), a + b);
    (Min(FloorU32(Raw100(s, a, b)), cap), Min(CeilU32(Raw100(s, a, b)), cap))
  }

  function ThreeOpen(s: Settings, a: nat, b: nat, c: nat): Lower {
    Lower(b, c, SatSub(s.Remaining(), a + b + c))
  }

  predicate TriedThreeOpen(s: Settings, a: nat, b: nat, c: nat)
    requires s.acc.Some?
  {
    && RangeThreeOpen(s).0 <= a <= RangeThreeOpen(s).1
    && Range200(s, a).0 <= b <= Range200(s, a).1
    && Range100(s, a, b).0 <= c <= Range100(s, a, b).1
  }

  /** How far a triple's score is from the wanted one. */
  function Off(target: real, r: nat, a: nat, b: nat, c: nat): real {
    Abs(target - r as real - (5 * a + 3 * b + c) as real)
  }

  lemma MatchTarget(target: real, half: real, r: nat, base: nat, a: nat, b: nat, c: nat)
    returns (a': nat, b': nat, c': nat)
    requires 2.0 * half == target && base <= a && a + b + c <= r
    ensures Max(Bounds3x0(target, half, r).0, base) <= a' <= Max(Bounds3x0(target, half, r).1, base)
    ensures base <= a' && a' + b' + c' <= r
    ensures Off(target, r, a', b', c') <= Off(target, r, a, b, c)
  {
    hide FloorU32, CeilU32;
    var u := target - r as real;
    assert (target - (4 * r) as real) / 5.0 == (u - (3 * r) as real) / 5.0;
    assert half - r as real == (u - r as real) / 2.0;
    a', b', c' := MatchThreeOpen(r, u, base, a, b, c);
  }

  lemma Range3x0FromGiven(s: Settings, lo: nat, hi: nat, both: nat)
    requires !s.Both3x0()
    ensures Range3x0(s, lo, hi, both) == (Max(lo, s.Given3x0()), Max(hi, s.Given3x0()))
  {
    hide Settings.Remaining;
  }

  lemma Reach3x0(s: Settings, a: nat, b: nat, c: nat) returns (a': nat, b': nat, c': nat)
    requires s.acc.Some? && s.Given3x0() <= a && (s.Both3x0() ==> a == s.Given3x0())
    requires a + b + c <= s.Remaining()
    ensures RangeThreeOpen(s).0 <= a' <= RangeThreeOpen(s).1
    ensures s.Given3x0() <= a' && (s.Both3x0() ==> a' == s.Given3x0())
    ensures a' + b' + c' <= s.Remaining()
    ensures Off(s.Target(), s.Remaining(), a', b', c') <= Off(s.Target(), s.Remaining(), a, b, c)
  {
    HalfTargetIsHalf(s);
    hide TargetScore, HalfTarget, Bounds3x0, Off, Settings.Target, Settings.Remaining, Settings.Given3x0;
    if s.Both3x0() {
      a', b', c' := a, b, c;
    } else {
      hide Range3x0;
      Range3x0FromGiven(s, Bounds3x0(s.Target(), HalfTarget(s), s.Remaining()).0,
                        Bounds3x0(s.Target(), HalfTarget(s), s.Remaining()).1, Min(s.Remaining(), s.Given3x0()));
      a', b', c' := MatchTarget(s.Target(), HalfTarget(s), s.Remaining(), s.Given3x0(), a, b, c);
    }
  }

  lemma Reach200(s: Settings, a: nat, b: nat, c: nat) returns (b': nat, c': nat)
    requires s.acc.Some? && a + b + c <= s.Remaining()
    ensures Range200(s, a).0 <= b' <= Range200(s, a).1
    ensures a + b' + c' <= s.Remaining()
    ensures Off(s.Target(), s.Remaining(), a, b', c') <= Off(s.Target(), s.Remaining(), a, b, c)
  {
    HalfTargetIsHalf(s);
    hide TargetScore, HalfTarget, FloorU32, CeilU32, Settings.Target, Settings.Remaining;
    var r, u := s.Remaining(), s.Target() - s.Remaining() as real - (5 * a) as real;
    assert HalfTarget(s) - (r + 2 * a) as real == (u - (r - a) as real) / 2.0;
    assert (s.Target() - (r + 5 * a) as real) / 3.0 == u / 3.0;
    b', c' := MatchInRange(ThreeAndOne, r - a, u, (u - (r - a) as real) / 2.0, u / 3.0, 0, b, c);
  }

  lemma Reach100(s: Settings, a: nat, b: nat, c: nat) returns (c': nat)
    requires s.acc.Some? && a + b + c <= s.Remaining()
    ensures Range100(s, a, b).0 <= c' <= Range100(s, a, b).1
    ensures a + b + c' <= s.Remaining()
    ensures Off(s.Target(), s.Remaining(), a, b, c') <= Off(s.Target(), s.Remaining(), a, b, c)
  {
    hide TargetScore, FloorU32, CeilU32, Settings.Target, Settings.Remaining;
    var r, u := s.Remaining(), s.Target() - s.Remaining() as real - (5 * a) as real;
    assert Raw100(s, a, b) == ThreeAndOne.Beside(u, b as real);
    c' := MatchBeside(ThreeAndOne, r - a - b, u, b, c);
  }

  /** One of the tried triples matches any legal split. */
  lemma MatchAllOpen(s: Settings, a: nat, low: Lower) returns (a': nat, b': nat, c': nat)
    requires s.acc.Some? && NoLowerGiven(s) && s.Legal(a, low)
    ensures TriedThreeOpen(s, a', b', c')
    ensures s.Legal(a', ThreeOpen(s, a', b', c'))
    ensures !Less(s.SplitDist(a, low), s.SplitDist(a', ThreeOpen(s, a', b', c')))
  {
    hide TargetScore, Settings.SplitDist, Less, Range200, Range100, RangeThreeOpen, Settings.Target, Settings.Remaining, Off;
    var b0, c0, c1: nat;
    a', b0, c0 := Reach3x0(s, a, low.n200, low.n100);
    b', c1 := Reach200(s, a', b0, c0);
    c' := Reach100(s, a', b', c1);
    ScoreThreeOpen(s, a, low.n200, low.n100);
    ScoreThreeOpen(s, a', b', c');
    assert low == ThreeOpen(s, a, low.n200, low.n100);
    NearerSplit(s, a', ThreeOpen(s, a', b', c'), a, low);
  }

  lemma ScoreThreeOpen(s: Settings, a: nat, b: nat, c: nat)
    requires s.acc.Some? && a + b + c <= s.Remaining()
    ensures a + ThreeOpen(s, a, b, c).Sum() == s.Remaining()
    ensures Abs(s.Target() - (6 * a + ThreeOpen(s, a, b, c).Score()) as real) == Off(s.Target(), s.Remaining(), a, b, c)
  {
    hide TargetScore, Settings.Target, Settings.Remaining;
  }

  /** `best` is no farther than the triples tried before `(i, j, k)`. */
  ghost predicate BestThreeOpen(s: Settings, best: Float, i: nat, j: nat, k: nat)
    requires s.acc.Some?
  {
    forall a: nat, b: nat, c: nat |
      TriedThreeOpen(s, a, b, c) && (a < i || (a == i && b < j) || (a == i && b == j && c < k)) ::
      !Less(s.SplitDist(a, ThreeOpen(s, a, b, c)), best)
  }

  /** Neither n200, n100, nor n50 given. */
  method SearchThreeOpen(s: Settings) returns (n3x0: nat, low: Lower)
    requires s.acc.Some? && NoLowerGiven(s)
    ensures s.BestSplit(n3x0, low)
  {
    hide TargetScore, Settings.SplitDist, RangeThreeOpen, Range200, Range100, ThreeOpen, BestThreeOpen,
         Settings.BestSplit, FillsOrAddsNothing, Settings.Given, Settings.Misses, Settings.NObjects, Settings.GivenLower;
    var bestDist := Infinite;
    n3x0 := SatSub(s.NObjects(), s.Given() + s.Misses());
    low := s.GivenLower();
    var (min3x0, max3x0) := RangeThreeOpen(s);
    ThreeOpenStarts(s, bestDist);
    for new3x0: int := min3x0 to max3x0 + 1
      invariant Current(s, bestDist, n3x0, low)
      invariant if bestDist == Infinite then Untouched(s, n3x0, low) else FillsOrAddsNothing(s, n3x0, low)
      invariant BestThreeOpen(s, bestDist, new3x0, 0, 0)
    {
      var (min200, max200) := Range200(s, new3x0);
      ThreeOpenRowStarts(s, bestDist, new3x0);
      for new200: int := min200 to max200 + 1
        invariant Current(s, bestDist, n3x0, low)
        invariant if bestDist == Infinite then Untouched(s, n3x0, low) else FillsOrAddsNothing(s, n3x0, low)
        invariant BestThreeOpen(s, bestDist, new3x0, new200, 0)
      {
        var (min100, max100) := Range100(s, new3x0, new200);
        ThreeOpenCellStarts(s, bestDist, new3x0, new200);
        for new100: int := min100 to max100 + 1
          invariant Current(s, bestDist, n3x0, low)
          invariant if bestDist == Infinite then Untouched(s, n3x0, low) else FillsOrAddsNothing(s, n3x0, low)
          invariant BestThreeOpen(s, bestDist, new3x0, new200, new100)
        {
          ThreeOpenFills(s, new3x0, new200, new100);
          var new50: nat := s.Remaining() - new3x0 - new200 - new100;
          var newLow := Lower(new200, new100, new50);
          var currDist := s.SplitDist(new3x0, newLow);
          ghost var previous := bestDist;
          if Less(currDist, bestDist) {
            bestDist := currDist;
            n3x0 := new3x0;
            low := newLow;
          }
          ThreeOpenStep(s, previous, bestDist, new3x0, new200, new100);
        }
        ThreeOpenCellEnds(s, bestDist, new3x0, new200);
      }
      ThreeOpenRowEnds(s, bestDist, new3x0);
    }
    ThreeOpenDone(s, bestDist, n3x0, low);
  }

  lemma ThreeOpenStarts(s: Settings, best: Float)
    requires s.acc.Some?
    ensures RangeThreeOpen(s).0 <= RangeThreeOpen(s).1
    ensures BestThreeOpen(s, best, RangeThreeOpen(s).0, 0, 0)
  {
    Range3x0NotEmpty(s);
    hide TargetScore, RangeThreeOpen, Range200, Range100, ThreeOpen, Settings.SplitDist, Less;
  }

  lemma Range3x0NotEmpty(s: Settings)
    requires s.acc.Some?
    ensures RangeThreeOpen(s).0 <= RangeThreeOpen(s).1
  {
    HalfTargetIsHalf(s);
    BoundsInOrder(s.Target(), HalfTarget(s), s.Remaining());
    hide TargetScore, HalfTarget, Settings.Target, Settings.Remaining, Bounds3x0,
         Settings.Given320, Settings.Given300;
  }

  lemma BoundsInOrder(target: real, half: real, r: nat)
    requires 2.0 * half == target
    ensures Bounds3x0(target, half, r).0 <= Bounds3x0(target, half, r).1
  {
    var x, y := (target - (4 * r) as real) / 5.0, RealMin((target - r as real) / 5.0, half - r as real);
    RoundingBounds(x, 0);
    RoundingBounds(y, 0);
    assert x <= 0.0 || x <= y;
  }

  lemma ThreeOpenRowStarts(s: Settings, best: Float, i: nat)
    requires s.acc.Some? && BestThreeOpen(s, best, i, 0, 0)
    ensures Range200(s, i).0 <= Range200(s, i).1
    ensures BestThreeOpen(s, best, i, Range200(s, i).0, 0)
  {
    Range200NotEmpty(s, i);
    hide TargetScore, RangeThreeOpen, Range200, Range100, ThreeOpen, Settings.SplitDist, Less;
  }

  lemma Range200NotEmpty(s: Settings, a: nat)
    requires s.acc.Some?
    ensures Range200(s, a).0 <= Range200(s, a).1
  {
    HalfTargetIsHalf(s);
    hide TargetScore, HalfTarget, Settings.Target, Settings.Remaining;
    var r := s.Remaining();
    if a <= r {
      var x, y := HalfTarget(s) - (r + 2 * a) as real, (s.Target() - (r + 5 * a) as real) / 3.0;
      RoundingBounds(x, 0);
      RoundingBounds(y, 0);
      RangeNotEmpty(ThreeAndOne, r - a, 3.0 * y, x, y, 0);
    }
  }

  lemma ThreeOpenCellStarts(s: Settings, best: Float, i: nat, j: nat)
    requires s.acc.Some? && BestThreeOpen(s, best, i, j, 0)
    ensures Range100(s, i, j).0 <= Range100(s, i, j).1
    ensures BestThreeOpen(s, best, i, j, Range100(s, i, j).0)
  {
    RoundingBounds(Raw100(s, i, j), 0);
    hide TargetScore, RangeThreeOpen, Range200, Raw100, ThreeOpen, Settings.SplitDist, Less;
  }

  lemma ThreeOpenStep(s: Settings, previous: Float, best: Float, i: nat, j: nat, k: nat)
    requires s.acc.Some? && BestThreeOpen(s, previous, i, j, k)
    requires var d := s.SplitDist(i, ThreeOpen(s, i, j, k)); best == if Less(d, previous) then d else previous
    ensures BestThreeOpen(s, best, i, j, k + 1)
  {
    hide TriedThreeOpen, ThreeOpen, Settings.SplitDist;
  }

  lemma ThreeOpenCellEnds(s: Settings, best: Float, i: nat, j: nat)
    requires s.acc.Some? && BestThreeOpen(s, best, i, j, Range100(s, i, j).1 + 1)
    ensures BestThreeOpen(s, best, i, j + 1, 0)
  {
    hide RangeThreeOpen, Range200, Range100, ThreeOpen, Settings.SplitDist, Less;
  }

  lemma ThreeOpenRowEnds(s: Settings, best: Float, i: nat)
    requires s.acc.Some? && BestThreeOpen(s, best, i, Range200(s, i).1 + 1, 0)
    ensures BestThreeOpen(s, best, i + 1, 0, 0)
  {
    hide RangeThreeOpen, Range200, Range100, ThreeOpen, Settings.SplitDist, Less;
  }

  lemma TriedThreeOpenBounds(s: Settings, a: nat, b: nat, c: nat)
    requires s.acc.Some? && TriedThreeOpen(s, a, b, c)
    ensures s.Both3x0() ==> a == Min(s.Remaining(), s.Given3x0())
    ensures !s.Both3x0() ==> s.Given3x0() <= a
    ensures a <= s.Remaining()
    ensures a + b + c <= s.Remaining()
  {
    hide TargetScore, HalfTarget, FloorU32, CeilU32, Settings.Target;
  }

  lemma ThreeOpenFills(s: Settings, a: nat, b: nat, c: nat)
    requires s.acc.Some? && NoLowerGiven(s) && TriedThreeOpen(s, a, b, c)
    ensures a + b + c <= s.Remaining()
    ensures ThreeOpen(s, a, b, c) == Lower(b, c, s.Remaining() - a - b - c)
    ensures FillsOrAddsNothing(s, a, ThreeOpen(s, a, b, c))
    ensures a + ThreeOpen(s, a, b, c).Sum() == s.Remaining()
  {
    hide TriedThreeOpen, Clamped, Settings.Given3x0, Settings.Remaining, Settings.Given, Settings.GivenLower, Settings.Legal,
         Settings.Both3x0, NoLowerGiven, FillsOrAddsNothing;
    TriedThreeOpenBounds(s, a, b, c);
    NothingGivenLower(s);
    GivenWithoutLower(s);
    if s.Given() <= s.Remaining() {
      ThreeOpenIsLegal(s, a, b, c);
    } else {
      ThreeOpenAddsNothing(s, a, b, c);
    }
  }

  lemma ThreeOpenIsLegal(s: Settings, a: nat, b: nat, c: nat)
    requires NoLowerGiven(s) && s.Given() == s.Given3x0() <= s.Remaining() && a + b + c <= s.Remaining()
    requires s.Both3x0() ==> a == Min(s.Remaining(), s.Given3x0())
    requires !s.Both3x0() ==> s.Given3x0() <= a
    ensures FillsOrAddsNothing(s, a, ThreeOpen(s, a, b, c))
  {
    hide Clamped, Settings.Given3x0, Settings.Remaining, Settings.Given, Settings.GivenLower, Settings.Both3x0;
  }

  lemma ThreeOpenAddsNothing(s: Settings, a: nat, b: nat, c: nat)
    requires s.Given() == s.Given3x0() > s.Remaining() && a + b + c <= s.Remaining()
    requires s.Both3x0() ==> a == Min(s.Remaining(), s.Given3x0())
    requires !s.Both3x0() ==> s.Given3x0() <= a
    requires s.GivenLower() == Lower(0, 0, 0)
    ensures FillsOrAddsNothing(s, a, ThreeOpen(s, a, b, c))
  {
    hide Clamped, Settings.Given3x0, Settings.Remaining, Settings.Given, Settings.GivenLower, Settings.Both3x0, Settings.Legal;
  }

  lemma NothingGivenLower(s: Settings)
    requires NoLowerGiven(s)
    ensures s.GivenLower() == Lower(0, 0, 0)
  {}

  lemma GivenWithoutLower(s: Settings)
    requires s.GivenLower() == Lower(0, 0, 0)
    ensures s.Given() == s.Given3x0()
  {
    hide Settings.Given3x0, Settings.GivenLower, Settings.Remaining, Clamped;
  }

  lemma ThreeOpenDone(s: Settings, best: Float, a: nat, low: Lower)
    requires s.acc.Some? && NoLowerGiven(s) && Current(s, best, a, low)
    requires RangeThreeOpen(s).0 <= RangeThreeOpen(s).1
    requires BestThreeOpen(s, best, RangeThreeOpen(s).1 + 1, 0, 0)
    requires if best == Infinite then Untouched(s, a, low) else FillsOrAddsNothing(s, a, low)
    ensures s.BestSplit(a, low)
  {
    hide TargetScore, ThreeOpen, RangeThreeOpen, Range200, Range100, Settings.SplitDist, FillsOrAddsNothing,
         Settings.BestSplit, Settings.Legal;
    if s.NObjects() > 0 {
      var lo := RangeThreeOpen(s).0;
      var b := Range200(s, lo).0;
      var c := Range100(s, lo, b).0;
      Range200NotEmpty(s, lo);
      Range100NotEmpty(s, lo, b);
      ThreeOpenFills(s, lo, b, c);
      DistIsNumber(s, lo, ThreeOpen(s, lo, b, c));
      assert best.Finite?;
      forall a2: nat, low2: Lower | s.Legal(a2, low2)
        ensures !Less(s.SplitDist(a2, low2), best)
      {
        var a', b', c' := MatchAllOpen(s, a2, low2);
        ThreeOpenFills(s, a', b', c');
        DistIsNumber(s, a', ThreeOpen(s, a', b', c'));
        FartherThanBest(s.SplitDist(a2, low2), s.SplitDist(a', ThreeOpen(s, a', b', c')), best);
      }
    } else {
      forall a2: nat, low2: Lower | s.Legal(a2, low2)
        ensures !Less(s.SplitDist(a2, low2), best)
      {
        LegalSum(s, a2, low2);
        DistIsNumber(s, a2, low2);
      }
    }
    SearchDone(s, best, a, low);
  }

  lemma Range100NotEmpty(s: Settings, a: nat, b: nat)
    requires s.acc.Some?
    ensures Range100(s, a, b).0 <= Range100(s, a, b).1
  {
    RoundingBounds(Raw100(s, a, b), 0);
  }

  // ---------- the whole generator ----------

  /** A given count is kept; the misses are the clamped ones. */
  predicate KeepsGiven(s: Settings, st: ScoreState) {
    && Keeps(s.n320, s.Remaining(), st.n320)
    && Keeps(s.n300, s.Remaining(), st.n300)
    && s.KeepsLower(st.ToLower())
    && st.misses == s.Misses()
  }

  /** A legal state: given counts are kept and every object has a result. */
  predicate Completes(s: Settings, st: ScoreState) {
    KeepsGiven(s, st) && st.Total() == s.NObjects()
  }

  function Dist(s: Settings, st: ScoreState): Float
    requires s.acc.Some?
  {
    Distance(s.acc.value, Accuracy(st.n320, st.n300, st.ToLower(), st.misses))
  }

  /** No legal state is nearer to the wanted accuracy. */
  ghost predicate Nearest(s: Settings, st: ScoreState)
    requires s.acc.Some?
  {
    forall t: ScoreState | Completes(s, t) :: !Less(Dist(s, t), Dist(s, st))
  }

  /** The given counts with zero for the open ones. */
  function GivenState(s: Settings): ScoreState {
    var g := s.GivenLower();
    ScoreState(s.Given320(), s.Given300(), g.n200, g.n100, g.n50, s.Misses())
  }

  function Rest(s: Settings): nat {
    SatSub(s.Remaining(), s.Given())
  }

  /** Where the objects without a result go when every count is given. */
  predicate FillsGiven(s: Settings, st: ScoreState) {
    var g := GivenState(s);
    st == if s.priority.BestCase? then g.(n320 := g.n320 + Rest(s)) else g.(n50 := g.n50 + Rest(s))
  }

  /** Without an accuracy all remaining objects go to the best (or worst) count left open. */
  predicate FillsWithoutAccuracy(s: Settings, st: ScoreState) {
    var g, rest := GivenState(s), Rest(s);
    if s.AllGiven() then FillsGiven(s, st)
    else if s.priority.BestCase? then
      st == if s.n320.None? then g.(n320 := rest)
            else if s.n300.None? then g.(n300 := rest)
            else if s.n200.None? then g.(n200 := rest)
            else if s.n100.None? then g.(n100 := rest) else g.(n50 := rest)
    else
      st == if s.n50.None? then g.(n50 := rest)
            else if s.n100.None? then g.(n100 := rest)
            else if s.n200.None? then g.(n200 := rest)
            else if s.n300.None? then g.(n300 := rest) else g.(n320 := rest)
  }

  /** With an accuracy and an open count: a nearest legal state if the given counts leave
      room for one, otherwise the open counts stay zero. The priority decides between
      320s and 300s, and a best case trades 200s for 320s and 100s where all are open. */
  ghost predicate FillsForAccuracy(s: Settings, st: ScoreState)
    requires s.acc.Some?
  {
    && KeepsGiven(s, st)
    && (s.Given() <= s.Remaining() ==> Completes(s, st) && Nearest(s, st))
    && (s.Given() > s.Remaining() ==> st == GivenState(s))
    && (s.n320.None? && s.n300.None? ==> if s.priority.BestCase? then st.n300 == 0 else st.n320 == 0)
    && (s.priority.BestCase? && s.n320.None? && s.n200.None? && s.n100.None? ==> st.n200 < 2)
  }

  /** What `generate_state` promises about the state it returns. */
  ghost predicate Generated(s: Settings, st: ScoreState) {
    if s.acc.None? then FillsWithoutAccuracy(s, st)
    else if s.AllGiven() then FillsGiven(s, st)
    else FillsForAccuracy(s, st)
  }

  function Store(s: Settings, st: ScoreState): Settings {
    s.(n320 := Some(st.n320), n300 := Some(st.n300), n200 := Some(st.n200), n100 := Some(st.n100),
       n50 := Some(st.n50), misses := Some(st.misses))
  }

  lemma DistBySum(s: Settings, st: ScoreState)
    requires s.acc.Some? && st.misses == s.Misses()
    ensures Dist(s, st) == s.SplitDist(st.n320 + st.n300, st.ToLower())
  {
    assert 6 * (st.n320 + st.n300) == 6 * (st.n320 + st.n300 + 0);
    hide Quotient, Distance;
  }

  /** Two 200s are worth a 320 and a 100. */
  lemma TradingKeepsAccuracy(s: Settings, a: nat, low: Lower, n: nat)
    requires s.acc.Some? && 2 * n <= low.n200
    ensures
      var traded := Lower(low.n200 - 2 * n, low.n100 + n, low.n50);
      && a + n + traded.Sum() == a + low.Sum()
      && s.SplitDist(a + n, traded) == s.SplitDist(a, low)
  {
    hide Quotient, Distance;
    var traded := Lower(low.n200 - 2 * n, low.n100 + n, low.n50);
    assert 6 * (a + n + 0) + traded.Score() == 6 * (a + 0) + low.Score();
    assert a + n + 0 + traded.Sum() + s.Misses() == a + 0 + low.Sum() + s.Misses();
  }

  lemma OpenCountsAreZero(s: Settings)
    ensures s.n320.None? ==> s.Given320() == 0
    ensures s.n300.None? ==> s.Given300() == 0
    ensures s.n200.None? ==> s.GivenLower().n200 == 0
    ensures s.n100.None? ==> s.GivenLower().n100 == 0
    ensures s.n50.None? ==> s.GivenLower().n50 == 0
    ensures s.Given320() <= s.Remaining() && s.Given300() <= s.Remaining()
    ensures
      var g := s.GivenLower();
      g.n200 <= s.Remaining() && g.n100 <= s.Remaining() && g.n50 <= s.Remaining()
    ensures
      var g := GivenState(s);
      && (s.n320.None? ==> g.n320 == 0) && (s.n300.None? ==> g.n300 == 0) && (s.n200.None? ==> g.n200 == 0)
      && (s.n100.None? ==> g.n100 == 0) && (s.n50.None? ==> g.n50 == 0)
  {
    hide Settings.Remaining;
  }

  /** How a best split becomes a state. */
  lemma BestSplitFills(s: Settings, a: nat, low: Lower, st: ScoreState)
    requires s.acc.Some? && s.BestSplit(a, low)
    requires s.Given() <= s.Remaining() ==> KeepsGiven(s, st) && st.n320 + st.n300 + st.ToLower().Sum() == a + low.Sum()
    requires s.Given() > s.Remaining() ==> st == GivenState(s)
    requires st.misses == s.Misses()
    requires s.Given() <= s.Remaining() ==> s.SplitDist(st.n320 + st.n300, st.ToLower()) == s.SplitDist(a, low)
    requires s.n320.None? && s.n300.None? ==> if s.priority.BestCase? then st.n300 == 0 else st.n320 == 0
    requires s.priority.BestCase? && s.n320.None? && s.n200.None? && s.n100.None? ==> st.n200 < 2
    ensures FillsForAccuracy(s, st)
  {
    hide Accuracy, Distance, Settings.SplitDist, Less, Clamped;
    DistBySum(s, st);
    if s.Given() <= s.Remaining() {
      forall t: ScoreState | Completes(s, t)
        ensures !Less(Dist(s, t), Dist(s, st))
      {
        DistBySum(s, t);
        CompletesIsLegal(s, t);
        assert !Less(s.SplitDist(t.n320 + t.n300, t.ToLower()), s.SplitDist(a, low));
      }
    }
  }

  lemma CompletesIsLegal(s: Settings, t: ScoreState)
    requires Completes(s, t)
    ensures s.Legal(t.n320 + t.n300, t.ToLower())
  {}

  /** `n3x0` divided between 320s and 300s as the given counts and the priority demand. */
  method Divide3x0(s: Settings, n3x0: nat) returns (h320: nat, h300: nat)
    requires s.n320.Some? != s.n300.Some? ==> s.Given3x0() <= n3x0
    ensures s.Both3x0() ==> h320 == s.Given320() && h300 == s.Given300()
    ensures !s.Both3x0() ==> h320 + h300 == n3x0
    ensures s.n320.Some? ==> h320 == s.Given320()
    ensures s.n300.Some? ==> h300 == s.Given300()
    ensures s.n320.None? && s.n300.None? ==> if s.priority.BestCase? then h300 == 0 else h320 == 0
  {
    h320, h300 := s.Given320(), s.Given300();
    match (s.n320, s.n300) {
      case (None, None) =>
        match s.priority {
          case BestCase => h320 := n3x0;
          case WorstCase => h300 := n3x0;
        }
      case (Some(_), None) => h300 := n3x0 - h320;
      case (None, Some(_)) => h320 := n3x0 - h300;
      case _ =>
    }
  }

  /** The state a search ends in. With n200 and n100 both open and a best case wanted, 200s
      are distributed onto 320s and 100s, unless the 320s are given. */
  method FinishSearch(s: Settings, n3x0: nat, low: Lower) returns (st: ScoreState)
    requires s.acc.Some? && s.BestSplit(n3x0, low)
    ensures FillsForAccuracy(s, st)
  {
    hide FillsForAccuracy, Settings.SplitDist, Settings.BestSplit, Settings.Remaining, Settings.Given, Settings.Misses,
         Less, Clamped, GivenState, KeepsGiven;
    BestSplitBounds(s, n3x0, low);
    var h320, h300 := Divide3x0(s, n3x0);
    var h200, h100 := low.n200, low.n100;
    if s.n200.None? && s.n100.None? && s.n320.None? && s.priority.BestCase? {
      var n := h200 / 2;
      h320 := h320 + n;
      h200 := h200 - 2 * n;
      h100 := h100 + n;
      TradingKeepsAccuracy(s, n3x0, low, n);
    }
    st := ScoreState(h320, h300, h200, h100, low.n50, s.Misses());
    if s.Given() <= s.Remaining() {
      DividedKeepsGiven(s, n3x0, low, st);
      assert s.SplitDist(st.n320 + st.n300, st.ToLower()) == s.SplitDist(n3x0, low);
    } else {
      DividedAddsNothing(s, n3x0, low, st);
    }
    BestSplitFills(s, n3x0, low, st);
  }

  lemma DividedKeepsGiven(s: Settings, a: nat, low: Lower, st: ScoreState)
    requires s.KeepsLower(low) && st.misses == s.Misses() && st.n50 == low.n50
    requires s.n320.Some? ==> st.n320 == s.Given320()
    requires s.n300.Some? ==> st.n300 == s.Given300()
    requires s.n200.Some? || s.n100.Some? ==> st.n200 == low.n200 && st.n100 == low.n100
    ensures KeepsGiven(s, st)
  {
    hide Settings.Remaining, Clamped, Settings.Misses;
  }

  lemma DividedAddsNothing(s: Settings, a: nat, low: Lower, st: ScoreState)
    requires low == s.GivenLower() && (!s.Both3x0() ==> a == s.Given3x0())
    requires st.misses == s.Misses()
    requires s.n320.Some? ==> st.n320 == s.Given320()
    requires s.n300.Some? ==> st.n300 == s.Given300()
    requires !s.Both3x0() ==> st.n320 + st.n300 + st.ToLower().Sum() == a + low.Sum()
    requires st.ToLower() == low
    ensures st == GivenState(s)
  {
    OpenCountsAreZero(s);
    hide Settings.Remaining, Clamped, Settings.Misses;
  }

  lemma BestSplitBounds(s: Settings, a: nat, low: Lower)
    requires s.acc.Some? && s.BestSplit(a, low)
    ensures !s.Both3x0() ==> s.Given3x0() <= a
    ensures s.Given() <= s.Remaining() ==> s.KeepsLower(low) && (s.Both3x0() ==> a == s.Given3x0())
    ensures s.Given() > s.Remaining() ==> low == s.GivenLower() && (!s.Both3x0() ==> a == s.Given3x0())
    ensures s.Given() > s.Remaining() && s.n200.None? ==> low.n200 == 0
  {
    OpenCountsAreZero(s);
    hide Settings.SplitDist, Less, Settings.Remaining, Clamped, Settings.Given;
  }

  /** With one count open, or only the two best ones, there is nothing to choose. */
  lemma RestFills(s: Settings, st: ScoreState)
    requires s.acc.Some? && !s.AllGiven() && st == GivenRest(s)
    requires OneCountOpen(s) || OnlyBestOpen(s)
    ensures FillsForAccuracy(s, st)
  {
    RestCompletes(s);
    RestFollowsPriority(s);
    hide Dist, Less, Clamped, GivenRest, Completes, KeepsGiven, Settings.Remaining, Settings.Given, GivenState;
    if s.Given() <= s.Remaining() {
      forall t: ScoreState | Completes(s, t)
        ensures !Less(Dist(s, t), Dist(s, st))
      {
        if OneCountOpen(s) {
          OnlyCompletion(s, t);
          SameIsNotLess(Dist(s, t));
        } else {
          SameSumSameDist(s, t, st);
        }
      }
    }
  }

  predicate OneCountOpen(s: Settings) {
    var lower := s.n200.Some? && s.n100.Some? && s.n50.Some?;
    || (s.n320.None? && s.n300.Some? && lower)
    || (s.n320.Some? && s.n300.None? && lower)
    || (s.Both3x0() && s.n200.None? && s.n100.Some? && s.n50.Some?)
    || (s.Both3x0() && s.n200.Some? && s.n100.None? && s.n50.Some?)
    || (s.Both3x0() && s.n200.Some? && s.n100.Some? && s.n50.None?)
  }

  predicate OnlyBestOpen(s: Settings) {
    s.n320.None? && s.n300.None? && s.n200.Some? && s.n100.Some? && s.n50.Some?
  }

  /** The given counts with the rest in the open one (or the one of the two the priority picks). */
  function GivenRest(s: Settings): ScoreState {
    var g, rest := GivenState(s), Rest(s);
    if s.n320.None? && (s.n300.Some? || s.priority.BestCase?) then g.(n320 := rest)
    else if s.n300.None? then g.(n300 := rest)
    else if s.n200.None? then g.(n200 := rest)
    else if s.n100.None? then g.(n100 := rest)
    else g.(n50 := rest)
  }

  lemma KeepsGivenIff(s: Settings, st: ScoreState)
    ensures KeepsGiven(s, st) <==>
      && (s.n320.Some? ==> st.n320 == s.Given320())
      && (s.n300.Some? ==> st.n300 == s.Given300())
      && (s.n200.Some? ==> st.n200 == s.GivenLower().n200)
      && (s.n100.Some? ==> st.n100 == s.GivenLower().n100)
      && (s.n50.Some? ==> st.n50 == s.GivenLower().n50)
      && st.misses == s.Misses()
  {
    hide Clamped, Settings.Remaining, Settings.Misses;
  }

  lemma RestKeepsGiven(s: Settings)
    requires OneCountOpen(s) || OnlyBestOpen(s)
    ensures KeepsGiven(s, GivenRest(s))
  {
    KeepsGivenIff(s, GivenRest(s));
    hide KeepsGiven, Settings.GivenLower, Settings.Given320, Settings.Given300, Settings.Misses, Rest;
  }

  lemma RestTotal(s: Settings)
    requires OneCountOpen(s) || OnlyBestOpen(s)
    ensures GivenRest(s).Total() == GivenState(s).Total() + Rest(s)
  {
    OpenCountsAreZero(s);
    var g, rest := GivenState(s), Rest(s);
    hide GivenState, Rest;
    if s.n320.None? && (s.n300.Some? || s.priority.BestCase?) {
      assert GivenRest(s) == g.(n320 := rest);
    } else if s.n300.None? {
      assert GivenRest(s) == g.(n300 := rest);
    } else if s.n200.None? {
      assert GivenRest(s) == g.(n200 := rest);
    } else if s.n100.None? {
      assert GivenRest(s) == g.(n100 := rest);
    } else {
      assert GivenRest(s) == g.(n50 := rest);
    }
  }

  lemma RestCompletes(s: Settings)
    requires OneCountOpen(s) || OnlyBestOpen(s)
    ensures KeepsGiven(s, GivenRest(s))
    ensures s.Given() <= s.Remaining() ==> Completes(s, GivenRest(s))
    ensures s.Given() > s.Remaining() ==> GivenRest(s) == GivenState(s)
  {
    RestKeepsGiven(s);
    RestTotal(s);
    RestAddsUp(s);
    if s.Given() > s.Remaining() {
      NoRestAddsNothing(s);
    }
    hide *;
    assert s.Given() <= s.Remaining() ==> Completes(s, GivenRest(s)) by {
      CompletesIf(s, GivenRest(s));
    }
  }

  lemma CompletesIf(s: Settings, t: ScoreState)
    ensures Completes(s, t) <==> KeepsGiven(s, t) && t.Total() == s.NObjects()
  {}

  lemma NoRestAddsNothing(s: Settings)
    requires (OneCountOpen(s) || OnlyBestOpen(s)) && Rest(s) == 0
    ensures GivenRest(s) == GivenState(s)
  {
    OpenCountsAreZero(s);
    hide GivenState, Rest;
  }

  lemma RestFollowsPriority(s: Settings)
    requires OneCountOpen(s) || OnlyBestOpen(s)
    ensures
      var st := GivenRest(s);
      && (s.n320.None? && s.n300.None? ==> if s.priority.BestCase? then st.n300 == 0 else st.n320 == 0)
      && !(s.n320.None? && s.n200.None? && s.n100.None?)
  {
    OpenCountsAreZero(s);
    hide GivenState, Rest, Settings.GivenLower, Settings.Given320, Settings.Given300;
  }

  lemma RestAddsUp(s: Settings)
    ensures s.Given() <= s.Remaining() ==> GivenState(s).Total() + Rest(s) == s.NObjects()
    ensures s.Given() > s.Remaining() ==> Rest(s) == 0
  {
    hide Settings.Given320, Settings.Given300, Settings.GivenLower;
  }

  lemma RemainingIsWithoutMisses(s: Settings)
    ensures s.Remaining() + s.Misses() == s.NObjects()
  {}

  lemma OnlyCompletion(s: Settings, t: ScoreState)
    requires OneCountOpen(s) && s.Given() <= s.Remaining() && Completes(s, t)
    ensures t == GivenRest(s)
  {
    RestCompletes(s);
    KeepsGivenIff(s, t);
    KeepsGivenIff(s, GivenRest(s));
    hide KeepsGiven, GivenRest, GivenState, Settings.GivenLower, Settings.Given320, Settings.Given300,
         Settings.Remaining, Settings.Misses, Settings.NObjects, Settings.Given;
  }

  lemma SameSumSameDist(s: Settings, t: ScoreState, st: ScoreState)
    requires s.acc.Some? && OnlyBestOpen(s) && Completes(s, t) && Completes(s, st)
    ensures !Less(Dist(s, t), Dist(s, st))
  {
    hide Distance, Accuracy, Clamped;
    DistBySum(s, t);
    DistBySum(s, st);
    assert t.ToLower() == st.ToLower();
    SameIsNotLess(Dist(s, t));
  }

  lemma SameIsNotLess(x: Float)
    ensures !Less(x, x)
  {}

  /** The arms of the source's match on the given counts when an accuracy is wanted. */
  method HitsForAccuracy(s: Settings) returns (st: ScoreState)
    requires s.acc.Some? && 0.0 <= s.acc.value
    ensures if s.AllGiven() then FillsGiven(s, st) else FillsForAccuracy(s, st)
  {
    hide FillsForAccuracy, Settings.BestSplit, Settings.Remaining, Settings.Given, Settings.Misses, Settings.NObjects,
         Settings.GivenLower, GivenState, ScoreState.Total, Rest, Clamped, SatSub;
    st := GivenState(s);
    RestIsUnaccounted(s);
    var remaining := SatSub(s.NObjects(), st.Total());
    var n3x0: nat, low: Lower;
    match (s.n320, s.n300, s.n200, s.n100, s.n50) {
      case (Some(_), Some(_), Some(_), Some(_), Some(_)) =>
        match s.priority {
          case BestCase => st := st.(n320 := st.n320 + remaining);
          case WorstCase => st := st.(n50 := st.n50 + remaining);
        }
      case (None, Some(_), Some(_), Some(_), Some(_)) =>
        st := st.(n320 := remaining);
        RestFills(s, st);
      case (Some(_), None, Some(_), Some(_), Some(_)) =>
        st := st.(n300 := remaining);
        RestFills(s, st);
      case (Some(_), Some(_), None, Some(_), Some(_)) =>
        st := st.(n200 := remaining);
        RestFills(s, st);
      case (Some(_), Some(_), Some(_), None, Some(_)) =>
        st := st.(n100 := remaining);
        RestFills(s, st);
      case (Some(_), Some(_), Some(_), Some(_), None) =>
        st := st.(n50 := remaining);
        RestFills(s, st);
      case (None, None, Some(_), Some(_), Some(_)) =>
        match s.priority {
          case BestCase => st := st.(n320 := remaining);
          case WorstCase => st := st.(n300 := remaining);
        }
        RestFills(s, st);
      case (_, _, None, Some(_), Some(_)) =>
        n3x0, low := SearchOneOpen(s, N200);
        st := FinishSearch(s, n3x0, low);
      case (_, _, Some(_), None, Some(_)) =>
        n3x0, low := SearchOneOpen(s, N100);
        st := FinishSearch(s, n3x0, low);
      case (_, _, Some(_), Some(_), None) =>
        n3x0, low := SearchOneOpen(s, N50);
        st := FinishSearch(s, n3x0, low);
      case (_, _, Some(_), None, None) =>
        n3x0, low := SearchTwoOpen(s, N200);
        st := FinishSearch(s, n3x0, low);
      case (_, _, None, Some(_), None) =>
        n3x0, low := SearchTwoOpen(s, N100);
        st := FinishSearch(s, n3x0, low);
      case (_, _, None, None, Some(_)) =>
        n3x0, low := SearchTwoOpen(s, N50);
        st := FinishSearch(s, n3x0, low);
      case (_, _, None, None, None) =>
        n3x0, low := SearchThreeOpen(s);
        st := FinishSearch(s, n3x0, low);
    }
  }

  lemma RestIsUnaccounted(s: Settings)
    ensures Rest(s) == SatSub(s.NObjects(), GivenState(s).Total())
    ensures GivenState(s).Total() == s.Given() + s.Misses()
  {
    RemainingIsWithoutMisses(s);
    hide Settings.Remaining, Settings.GivenLower, Settings.Misses, Settings.NObjects, Settings.Given320, Settings.Given300;
  }

  /** Without an accuracy the rest goes to the first open count in order of priority. */
  method HitsWithoutAccuracy(s: Settings) returns (st: ScoreState)
    ensures FillsWithoutAccuracy(s, st)
  {
    st := GivenState(s);
    RestIsUnaccounted(s);
    hide GivenState, Rest;
    var remaining := SatSub(s.NObjects(), st.Total());
    match s.priority {
      case BestCase =>
        match (s.n320, s.n300, s.n200, s.n100, s.n50) {
          case (None, _, _, _, _) => st := st.(n320 := remaining);
          case (_, None, _, _, _) => st := st.(n300 := remaining);
          case (_, _, None, _, _) => st := st.(n200 := remaining);
          case (_, _, _, None, _) => st := st.(n100 := remaining);
          case (_, _, _, _, None) => st := st.(n50 := remaining);
          case _ => st := st.(n320 := st.n320 + remaining);
        }
      case WorstCase =>
        match (s.n50, s.n100, s.n200, s.n300, s.n320) {
          case (None, _, _, _, _) => st := st.(n50 := remaining);
          case (_, None, _, _, _) => st := st.(n100 := remaining);
          case (_, _, None, _, _) => st := st.(n200 := remaining);
          case (_, _, _, None, _) => st := st.(n300 := remaining);
          case (_, _, _, _, None) => st := st.(n320 := remaining);
          case _ => st := st.(n50 := st.n50 + remaining);
        }
    }
  }

  /** Every object has a result, none has two exactly when the given counts leave room, and
      no count exceeds the objects that are not misses. */
  predicate Accounts(s: Settings, st: ScoreState) {
    && st.misses == s.Misses()
    && st.Total() >= s.NObjects()
    && (st.Total() == s.NObjects() <==> s.Given() <= s.Remaining())
    && st.n320 <= s.Remaining() && st.n300 <= s.Remaining() && st.n200 <= s.Remaining()
    && st.n100 <= s.Remaining() && st.n50 <= s.Remaining()
  }

  /** `st` is `g` with `rest` added to one of its counts. */
  predicate AddsRest(g: ScoreState, rest: nat, st: ScoreState) {
    || st == g.(n320 := g.n320 + rest)
    || st == g.(n300 := g.n300 + rest)
    || st == g.(n200 := g.n200 + rest)
    || st == g.(n100 := g.n100 + rest)
    || st == g.(n50 := g.n50 + rest)
  }

  lemma AddedRestAccounts(s: Settings, st: ScoreState)
    requires AddsRest(GivenState(s), Rest(s), st)
    ensures Accounts(s, st)
  {
    GivenAccounts(s);
    hide GivenState, Settings.Remaining, Settings.Given, Settings.Misses, Settings.NObjects, Rest;
  }

  lemma GivenAccounts(s: Settings)
    ensures
      var g := GivenState(s);
      && g.misses == s.Misses()
      && g.Total() == s.Given() + s.Misses() && s.Remaining() + s.Misses() == s.NObjects()
      && Rest(s) == SatSub(s.Remaining(), s.Given())
      && g.n320 <= s.Remaining() && g.n300 <= s.Remaining() && g.n200 <= s.Remaining()
      && g.n100 <= s.Remaining() && g.n50 <= s.Remaining()
  {
    RestIsUnaccounted(s);
    OpenCountsAreZero(s);
    RemainingIsWithoutMisses(s);
    hide Settings.Remaining, Settings.Misses, Settings.NObjects, Settings.Given;
  }

  lemma FilledGivenAddsRest(s: Settings, st: ScoreState)
    requires FillsGiven(s, st)
    ensures AddsRest(GivenState(s), Rest(s), st)
  {
    hide GivenState, Rest;
  }

  lemma FilledWithoutAccuracyAddsRest(s: Settings, st: ScoreState)
    requires FillsWithoutAccuracy(s, st) && !s.AllGiven()
    ensures AddsRest(GivenState(s), Rest(s), st)
  {
    OpenCountsAreZero(s);
    hide GivenState, Rest, FillsGiven, Settings.Given320, Settings.Given300, Settings.GivenLower, Settings.Remaining;
  }

  lemma FilledForAccuracyAccounts(s: Settings, st: ScoreState)
    requires s.acc.Some? && FillsForAccuracy(s, st)
    ensures Accounts(s, st)
  {
    GivenAccounts(s);
    hide Nearest, KeepsGiven, GivenState, Settings.Remaining, Settings.Given, Settings.Misses, Settings.NObjects, Rest;
    if s.Given() <= s.Remaining() {
      CompleteMisses(s, st);
    }
  }

  lemma CompleteMisses(s: Settings, st: ScoreState)
    requires Completes(s, st)
    ensures st.misses == s.Misses()
  {}

  /** Conservation: results of a generated state are neither lost nor invented. */
  lemma GeneratedTotal(s: Settings, st: ScoreState)
    requires Generated(s, st)
    ensures Accounts(s, st)
  {
    hide Accounts, AddsRest, FillsForAccuracy, FillsGiven;
    if s.AllGiven() {
      FilledGivenAddsRest(s, st);
      AddedRestAccounts(s, st);
    } else if s.acc.None? {
      FilledWithoutAccuracyAddsRest(s, st);
      AddedRestAccounts(s, st);
    } else {
      FilledForAccuracyAccounts(s, st);
    }
  }

  /** How many results a play has: one for every object passed, and in lazer another one for every
      hold note of the map; misses are those given, but no more than objects passed. Results
      exceed that number only if more than that are given. */
  lemma ResultsOfPlay(s: Settings, st: ScoreState)
    requires Generated(s, st)
    ensures var passed := if s.passedObjects < s.attrs.nObjects then s.passedObjects else s.attrs.nObjects;
      var results := if s.lazer then passed + s.attrs.nHoldNotes else passed;
      var given := ValueOr0(s.n320) + ValueOr0(s.n300) + ValueOr0(s.n200) + ValueOr0(s.n100) + ValueOr0(s.n50);
      && IsUpTo(st.misses, s.misses, passed, 0)
      && st.n320 + st.n300 + st.n200 + st.n100 + st.n50 + st.misses >= results
      && (given + st.misses <= results ==> st.n320 + st.n300 + st.n200 + st.n100 + st.n50 + st.misses == results)
  {
    hide Generated, Accounts, Settings.Given, Settings.Remaining, Settings.Misses, Settings.NObjects, IsUpTo, ValueOr0;
    GeneratedTotal(s, st);
    MissesInFields(s);
    NObjectsInFields(s);
    GivenInFields(s);
    RemainingIsWithoutMisses(s);
    AccountsInTotals(s, st);
  }

  lemma AccountsInTotals(s: Settings, st: ScoreState)
    requires Accounts(s, st)
    ensures st.misses == s.Misses()
    ensures st.n320 + st.n300 + st.n200 + st.n100 + st.n50 + st.misses >= s.NObjects()
    ensures s.Given() <= s.Remaining() ==> st.n320 + st.n300 + st.n200 + st.n100 + st.n50 + st.misses == s.NObjects()
  {
    hide Settings.Given, Settings.Remaining, Settings.Misses, Settings.NObjects;
  }

  lemma MissesInFields(s: Settings)
    ensures var passed := if s.passedObjects < s.attrs.nObjects then s.passedObjects else s.attrs.nObjects;
      IsUpTo(s.Misses(), s.misses, passed, 0)
  {}

  lemma NObjectsInFields(s: Settings)
    ensures var passed := if s.passedObjects < s.attrs.nObjects then s.passedObjects else s.attrs.nObjects;
      s.NObjects() == if s.lazer then passed + s.attrs.nHoldNotes else passed
  {}

  lemma GivenInFields(s: Settings)
    ensures s.Given() <= ValueOr0(s.n320) + ValueOr0(s.n300) + ValueOr0(s.n200) + ValueOr0(s.n100) + ValueOr0(s.n50)
  {
    hide Settings.Remaining, Clamped, ValueOr0;
    var rest := s.Remaining();
    AtMostGiven(s.n320, rest);
    AtMostGiven(s.n300, rest);
    AtMostGiven(s.n200, rest);
    AtMostGiven(s.n100, rest);
    AtMostGiven(s.n50, rest);
  }

  lemma AtMostGiven(o: Option<nat>, cap: nat)
    ensures Clamped(o, cap) <= ValueOr0(o)
  {}

  /** Generating again from the stored result changes nothing. */
  lemma GeneratingAgain(s: Settings, st: ScoreState, again: ScoreState)
    requires Generated(s, st) && Generated(Store(s, st), again)
    ensures again == st
    ensures Store(Store(s, st), again) == Store(s, st)
  {
    GeneratedTotal(s, st);
    StoreKeepsObjects(s, st);
    StoredIsGiven(s, st);
    GeneratedAllGiven(Store(s, st), again);
    FilledGivenAddsRest(Store(s, st), again);
    hide Generated, GivenState, Rest, FillsGiven, Accounts;
  }

  lemma GeneratedAllGiven(s: Settings, st: ScoreState)
    requires Generated(s, st) && s.AllGiven()
    ensures FillsGiven(s, st)
  {
    hide FillsGiven, FillsForAccuracy;
  }

  lemma StoreKeepsObjects(s: Settings, st: ScoreState)
    requires Accounts(s, st)
    ensures
      var t := Store(s, st);
      t.AllGiven() && t.NObjects() == s.NObjects() && t.Misses() == s.Misses() && t.Remaining() == s.Remaining()
  {
    hide Settings.Given;
  }

  lemma StoredIsGiven(s: Settings, st: ScoreState)
    requires Accounts(s, st) && Store(s, st).Remaining() == s.Remaining() && Store(s, st).Misses() == s.Misses()
    ensures GivenState(Store(s, st)) == st && Rest(Store(s, st)) == 0
  {
    var t := Store(s, st);
    StoredCounts(s, st);
    GivenAccounts(s);
    GivenAccounts(t);
    hide GivenState, Settings.Remaining, Settings.Misses, Rest, Settings.Given;
  }

  lemma StoredCounts(s: Settings, st: ScoreState)
    requires Accounts(s, st) && Store(s, st).Remaining() == s.Remaining() && Store(s, st).Misses() == s.Misses()
    ensures GivenState(Store(s, st)) == st
  {
    hide Settings.Remaining, Settings.Misses, Settings.Given, ScoreState.Total, Settings.NObjects;
  }

  class ManiaPerformance {
    var attrs: Attrs
    var passedObjects: nat
    var lazer: bool
    var hitresultPriority: Priority
    var acc: Option<real>
    var n320: Option<nat>
    var n300: Option<nat>
    var n200: Option<nat>
    var n100: Option<nat>
    var n50: Option<nat>
    var misses: Option<nat>

    /** The setter for the accuracy clamps it. */
    predicate Valid()
      reads this
    {
      acc.Some? ==> 0.0 <= acc.value <= 1.0
    }

    function Snapshot(): Settings
      reads this
    {
      Settings(attrs, passedObjects, lazer, hitresultPriority, acc, n320, n300, n200, n100, n50, misses)
    }

    method GenerateState() returns (st: ScoreState)
      requires Valid()
      modifies this
      ensures Valid() && Generated(old(Snapshot()), st)
      ensures Snapshot() == Store(old(Snapshot()), st)
    {
      hide FillsForAccuracy, FillsGiven, FillsWithoutAccuracy;
      if acc.Some? {
        st := HitsForAccuracy(Snapshot());
      } else {
        st := HitsWithoutAccuracy(Snapshot());
      }
      n320 := Some(st.n320);
      n300 := Some(st.n300);
      n200 := Some(st.n200);
      n100 := Some(st.n100);
      n50 := Some(st.n50);
      misses := Some(st.misses);
    }
  }
}

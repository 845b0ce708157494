/** Hit-result generation of osu!catch: `CatchPerformance::generate_state`. */
module CatchHits {
  import opened Rounding
  import opened HitResults
  import opened Wrappers

  datatype Attrs = Attrs(nFruits: nat, nDroplets: nat, nTinyDroplets: nat) {
    function Palpable(): nat {
      nFruits + nDroplets
    }
  }

  datatype ScoreState = ScoreState(maxCombo: nat, fruits: nat, droplets: nat, tinyDroplets: nat,
                                   tinyDropletMisses: nat, misses: nat)

  /** The source's `accuracy`: not a number if there is nothing to hit. */
  function Accuracy(fruits: nat, droplets: nat, tiny: nat, tinyMisses: nat, misses: nat): Float {
    Quotient(fruits + droplets + tiny, fruits + droplets + tiny + tinyMisses + misses)
  }

  datatype Settings = Settings(
    attrs: Attrs, acc: Option<real>, combo: Option<nat>, fruits: Option<nat>, droplets: Option<nat>,
    tinyDroplets: Option<nat>, tinyDropletMisses: Option<nat>, misses: Option<nat>)
  {
    function Misses(): nat {
      Clamped(misses, attrs.Palpable())
    }

    function MaxCombo(): nat {
      if combo.Some? then combo.value else attrs.Palpable() - Misses()
    }

    /** The fruits and droplets a state has are compared with all tiny droplets `t`. */
    function Dist(st: ScoreState, t: nat): Float
      requires acc.Some? && t <= attrs.nTinyDroplets
    {
      Distance(acc.value, Accuracy(st.fruits, st.droplets, t, attrs.nTinyDroplets - t, st.misses))
    }

    function Store(st: ScoreState): Settings {
      this.(combo := Some(st.maxCombo), fruits := Some(st.fruits), droplets := Some(st.droplets),
            tinyDroplets := Some(st.tinyDroplets), tinyDropletMisses := Some(st.tinyDropletMisses),
            misses := Some(st.misses))
    }
  }

  /** Fruits, droplets and misses always make up the map's. Two given counts are filled up,
      droplets first, or else the fruits give way. Beside one given count, the other one is
      as far from the map's as it takes to keep the given one. With neither given the misses
      are droplets before they are fruits. */
  predicate SplitsPalpable(s: Settings, fruits: nat, droplets: nat) {
    var F, D, all := s.attrs.nFruits, s.attrs.nDroplets, s.attrs.Palpable() - s.Misses();
    && fruits + droplets == all
    && match (s.fruits, s.droplets)
       case (Some(f), Some(d)) =>
         if f + d <= all then
           f <= fruits && d <= droplets && (d < droplets ==> droplets <= D) && (f < fruits ==> D <= droplets)
         else droplets == Min(d, all)
       case (Some(f), None) =>
         droplets <= D && (droplets < D ==> fruits <= Min(f, F)) && (droplets > 0 ==> fruits >= Min(f, F))
       case (None, Some(d)) =>
         fruits <= F && (fruits < F ==> droplets <= Min(d, D)) && (fruits > 0 ==> droplets >= Min(d, D))
       case (None, None) =>
         fruits <= F && droplets <= D && (fruits < F ==> droplets == 0)
  }

  /** The tiny droplets of a generated state. */
  ghost predicate SplitsTiny(s: Settings, st: ScoreState) {
    var all := s.attrs.nTinyDroplets;
    match (s.tinyDroplets, s.tinyDropletMisses)
    case (Some(t), Some(m)) =>
      if s.acc.None? then st.tinyDropletMisses == m && st.tinyDroplets == Max(t, all - m)
      else if t + m == all then st.tinyDroplets == t && st.tinyDropletMisses == m
      else NearestTiny(s, st)
    case (Some(t), None) => st.tinyDroplets == Min(t, all) && st.tinyDroplets + st.tinyDropletMisses == all
    case (None, Some(m)) => st.tinyDropletMisses == Min(m, all) && st.tinyDroplets + st.tinyDropletMisses == all
    case (None, None) =>
      if s.acc.None? then st.tinyDroplets == all && st.tinyDropletMisses == 0 else NearestTiny(s, st)
  }

  /** The tiny droplets make up the map's and no other number of hit ones is nearer. */
  ghost predicate NearestTiny(s: Settings, st: ScoreState)
    requires s.acc.Some?
  {
    && st.tinyDroplets + st.tinyDropletMisses == s.attrs.nTinyDroplets
    && forall t: nat | t <= s.attrs.nTinyDroplets :: !Less(s.Dist(st, t), s.Dist(st, st.tinyDroplets))
  }

  /** What `generate_state` promises about the state it returns. */
  ghost predicate Generated(s: Settings, st: ScoreState) {
    && st.maxCombo == s.MaxCombo()
    && st.misses == s.Misses()
    && SplitsPalpable(s, st.fruits, st.droplets)
    && SplitsTiny(s, st)
  }

  function RawTiny(s: Settings, fruits: nat, droplets: nat): real
    requires s.acc.Some?
  {
    TargetScore(s.acc.value, s.attrs.Palpable() + s.attrs.nTinyDroplets) - (fruits + droplets) as real
  }

  /** One of the two candidates is at least as near as any number of hit tiny droplets. */
  lemma BestTiny(s: Settings, st: ScoreState, x: nat) returns (y: nat)
    requires s.acc.Some? && x <= s.attrs.nTinyDroplets
    requires st.fruits + st.droplets + st.misses == s.attrs.Palpable()
    ensures
      var raw := RawTiny(s, st.fruits, st.droplets);
      Min(s.attrs.nTinyDroplets, FloorU32(raw)) <= y <= Min(s.attrs.nTinyDroplets, CeilU32(raw))
    ensures !Less(s.Dist(st, x), s.Dist(st, y))
  {
    var all, hits := s.attrs.Palpable() + s.attrs.nTinyDroplets, st.fruits + st.droplets;
    y := NearestInClampedRange(RawTiny(s, st.fruits, st.droplets), 0, s.attrs.nTinyDroplets, x);
    NearerQuotient(s.acc.value, all, hits + y, hits + x);
    hide TargetScore, Quotient, Less;
  }

  /** The source's closure `find_best_tiny_droplets`, run on the state built so far. */
  method FindBestTinyDroplets(s: Settings, st: ScoreState) returns (best: ScoreState)
    requires s.acc.Some? && st.tinyDroplets == st.tinyDropletMisses == 0
    requires st.fruits + st.droplets + st.misses == s.attrs.Palpable()
    ensures best == st.(tinyDroplets := best.tinyDroplets, tinyDropletMisses := best.tinyDropletMisses)
    ensures NearestTiny(s, best)
    ensures best.tinyDroplets + best.tinyDropletMisses == s.attrs.nTinyDroplets
  {
    hide Quotient, Distance, TargetScore, FloorU32, CeilU32;
    best := st;
    var bestDist := Infinite;
    var raw := RawTiny(s, st.fruits, st.droplets);
    var minTiny := Min(s.attrs.nTinyDroplets, FloorU32(raw));
    var maxTiny := Min(s.attrs.nTinyDroplets, CeilU32(raw));
    RoundingBounds(raw, 0);
    for nTiny: int := minTiny to maxTiny + 1
      invariant best == st.(tinyDroplets := best.tinyDroplets, tinyDropletMisses := best.tinyDropletMisses)
      invariant bestDist == Infinite ==> best == st
      invariant bestDist != Infinite ==>
        && best.tinyDroplets + best.tinyDropletMisses == s.attrs.nTinyDroplets
        && bestDist.Finite? && bestDist == s.Dist(st, best.tinyDroplets)
      invariant forall t: nat | minTiny <= t < nTiny :: !Less(s.Dist(st, t), bestDist)
    {
      var nTinyMisses := s.attrs.nTinyDroplets - nTiny;
      var currDist := s.Dist(st, nTiny);
      if Less(currDist, bestDist) {
        bestDist := currDist;
        best := best.(tinyDroplets := nTiny, tinyDropletMisses := nTinyMisses);
      }
    }
    ComparedAll(s, st, best, bestDist, minTiny);
  }

  lemma DistIsNumber(s: Settings, st: ScoreState, t: nat)
    requires s.acc.Some? && t <= s.attrs.nTinyDroplets
    requires st.fruits + st.droplets + st.misses == s.attrs.Palpable()
    ensures s.Dist(st, t).Finite? == (s.attrs.Palpable() + s.attrs.nTinyDroplets > 0)
    ensures s.Dist(st, t) != Infinite
  {}

  lemma ComparedAll(s: Settings, st: ScoreState, best: ScoreState, bestDist: Float, lo: nat)
    requires s.acc.Some? && st.fruits + st.droplets + st.misses == s.attrs.Palpable()
    requires st.tinyDroplets == st.tinyDropletMisses == 0
    requires best == st.(tinyDroplets := best.tinyDroplets, tinyDropletMisses := best.tinyDropletMisses)
    requires bestDist == Infinite ==> best == st
    requires bestDist != Infinite ==>
      && best.tinyDroplets + best.tinyDropletMisses == s.attrs.nTinyDroplets
      && bestDist.Finite? && bestDist == s.Dist(st, best.tinyDroplets)
    requires
      var raw := RawTiny(s, st.fruits, st.droplets);
      var all := s.attrs.nTinyDroplets;
      lo == Min(all, FloorU32(raw)) &&
      forall t: nat | lo <= t <= Min(all, CeilU32(raw)) :: !Less(s.Dist(st, t), bestDist)
    ensures NearestTiny(s, best)
  {
    RoundingBounds(RawTiny(s, st.fruits, st.droplets), 0);
    DistIsNumber(s, st, lo);
    assert forall t: nat | t <= s.attrs.nTinyDroplets :: s.Dist(best, t) == s.Dist(st, t);
    hide Settings.Dist, FloorU32, CeilU32, RawTiny;
    forall t: nat | t <= s.attrs.nTinyDroplets
      ensures !Less(s.Dist(st, t), bestDist)
    {
      var y := BestTiny(s, st, t);
      DistIsNumber(s, st, t);
      DistIsNumber(s, st, y);
      assert !Less(s.Dist(st, y), bestDist);
    }
    if bestDist == Infinite {
      assert !Less(s.Dist(st, lo), bestDist);
      forall t: nat | t <= s.attrs.nTinyDroplets
        ensures !Less(s.Dist(st, t), s.Dist(st, best.tinyDroplets))
      {
        DistIsNumber(s, st, t);
      }
    }
  }

  /** Conservation: a generated state has a result for every fruit and droplet of the map. */
  lemma GeneratedTotal(s: Settings, st: ScoreState)
    requires Generated(s, st)
    ensures st.fruits + st.droplets + st.misses == s.attrs.nFruits + s.attrs.nDroplets
    ensures st.tinyDroplets + st.tinyDropletMisses >= s.attrs.nTinyDroplets
    ensures s.acc.Some? || s.tinyDroplets.None? || s.tinyDropletMisses.None? ==>
      st.tinyDroplets + st.tinyDropletMisses == s.attrs.nTinyDroplets
  {
    hide Settings.Dist, Less;
  }

  /** Misses and combo of a generated state in terms of the fields. */
  lemma ResultsOfPlay(s: Settings, st: ScoreState)
    requires Generated(s, st)
    ensures var palpable := s.attrs.nFruits + s.attrs.nDroplets;
      && IsUpTo(st.misses, s.misses, palpable, 0)
      && st.fruits + st.droplets + st.misses == palpable
      && st.maxCombo == if s.combo.Some? then s.combo.value else st.fruits + st.droplets
  {
    GeneratedTotal(s, st);
    hide SplitsTiny, SplitsPalpable;
  }

  /** Generating again from the stored result changes nothing. */
  lemma GeneratingAgain(s: Settings, st: ScoreState, again: ScoreState)
    requires Generated(s, st) && Generated(s.Store(st), again)
    ensures again == st
    ensures s.Store(st).Store(again) == s.Store(st)
  {
    GeneratedTotal(s, st);
    hide Settings.Dist, Less, NearestTiny;
  }

  /** The source's match on the given tiny droplets. */
  method SplitTiny(s: Settings, st0: ScoreState) returns (st: ScoreState)
    requires st0.tinyDroplets == st0.tinyDropletMisses == 0
    requires st0.fruits + st0.droplets + st0.misses == s.attrs.Palpable()
    ensures SplitsTiny(s, st)
    ensures st == st0.(tinyDroplets := st.tinyDroplets, tinyDropletMisses := st.tinyDropletMisses)
  {
    hide NearestTiny;
    match (s.tinyDroplets, s.tinyDropletMisses) {
      case (Some(nTiny), Some(nTinyMisses)) =>
        if s.acc.Some? {
          if nTiny + nTinyMisses == s.attrs.nTinyDroplets {
            st := st0.(tinyDroplets := nTiny, tinyDropletMisses := nTinyMisses);
          } else {
            st := FindBestTinyDroplets(s, st0);
          }
        } else {
          var nRemaining := SatSub(s.attrs.nTinyDroplets, nTiny + nTinyMisses);
          st := st0.(tinyDroplets := nTiny + nRemaining, tinyDropletMisses := nTinyMisses);
        }
      case (Some(nTiny), None) =>
        st := st0.(tinyDroplets := Min(s.attrs.nTinyDroplets, nTiny),
                  tinyDropletMisses := SatSub(s.attrs.nTinyDroplets, nTiny));
      case (None, Some(nTinyMisses)) =>
        st := st0.(tinyDroplets := SatSub(s.attrs.nTinyDroplets, nTinyMisses),
                  tinyDropletMisses := Min(s.attrs.nTinyDroplets, nTinyMisses));
      case (None, None) =>
        if s.acc.Some? {
          st := FindBestTinyDroplets(s, st0);
        } else {
          st := st0.(tinyDroplets := s.attrs.nTinyDroplets);
        }
    }
  }

  class CatchPerformance {
    var attrs: Attrs
    var acc: Option<real>
    var combo: Option<nat>
    var fruits: Option<nat>
    var droplets: Option<nat>
    var tinyDroplets: Option<nat>
    var tinyDropletMisses: Option<nat>
    var misses: Option<nat>

    function Snapshot(): Settings
      reads this
    {
      Settings(attrs, acc, combo, fruits, droplets, tinyDroplets, tinyDropletMisses, misses)
    }

    /** The combo set by the caller is kept as it is. */
    method GenerateState() returns (st: ScoreState)
      modifies this
      ensures Generated(old(Snapshot()), st)
      ensures Snapshot() == old(Snapshot()).Store(st)
    {
      hide SplitsTiny, SplitsPalpable;
      var nMisses := Clamped(misses, attrs.nFruits + attrs.nDroplets);
      var maxCombo := if combo.Some? then combo.value else attrs.Palpable() - nMisses;
      var nFruits, nDroplets := SplitPalpable(Snapshot());
      st := ScoreState(maxCombo, nFruits, nDroplets, 0, 0, nMisses);

      st := SplitTiny(Snapshot(), st);

      combo := Some(st.maxCombo);
      fruits := Some(st.fruits);
      droplets := Some(st.droplets);
      tinyDroplets := Some(st.tinyDroplets);
      tinyDropletMisses := Some(st.tinyDropletMisses);
      misses := Some(st.misses);
    }
  }

  /** The source's match on the given fruits and droplets. None of its unchecked
      subtractions can go below zero. */
  method SplitPalpable(s: Settings) returns (nFruits: nat, nDroplets: nat)
    ensures SplitsPalpable(s, nFruits, nDroplets)
    ensures nFruits + nDroplets + s.Misses() == s.attrs.Palpable()
  {
    hide Settings.Misses, Clamped;
    var F, D, misses := s.attrs.nFruits, s.attrs.nDroplets, s.Misses();
    MissesAtMost(s);
    match (s.fruits, s.droplets) {
      case (Some(f), Some(d)) =>
        nFruits, nDroplets := f, d;
        var nRemaining := SatSub(F + D, nFruits + nDroplets + misses);
        var newDroplets := Min(nRemaining, SatSub(D, nDroplets));
        nDroplets := nDroplets + newDroplets;
        nFruits := nFruits + (nRemaining - newDroplets);
        nFruits := Min(nFruits, SatSub(F + D, nDroplets + misses));
        nDroplets := Min(nDroplets, F + D - nFruits - misses);
      case (Some(f), None) =>
        nDroplets := SatSub(D, SatSub(misses, SatSub(F, f)));
        nFruits := F + D - misses - nDroplets;
      case (None, Some(d)) =>
        nFruits := SatSub(F, SatSub(misses, SatSub(D, d)));
        nDroplets := F + D - misses - nFruits;
      case (None, None) =>
        nDroplets := SatSub(D, misses);
        nFruits := F - (misses - SatSub(D, nDroplets));
    }
  }

  lemma MissesAtMost(s: Settings)
    ensures s.Misses() <= s.attrs.Palpable()
  {}
}

/** Hit-result generation of osu!taiko: `TaikoPerformance::generate_state`. */
module TaikoHits {
  import opened Rounding
  import opened HitResults
  import opened Wrappers

  /** The source's `accuracy`. */
  function Accuracy(n300: nat, n100: nat, misses: nat): real {
    QuotientOrZero(2 * n300 + n100, 2 * (n300 + n100 + misses))
  }

  datatype ScoreState = ScoreState(maxCombo: nat, n300: nat, n100: nat, misses: nat) {
    function Total(): nat {
      n300 + n100 + misses
    }
  }

  datatype Settings = Settings(
    mapMaxCombo: nat, passedObjects: nat, priority: Priority, acc: Option<real>, combo: Option<nat>,
    n300: Option<nat>, n100: Option<nat>, misses: Option<nat>)
  {
    function NResults(): nat {
      Min(passedObjects, mapMaxCombo)
    }

    function Misses(): nat {
      Clamped(misses, NResults())
    }

    function Remaining(): nat {
      NResults() - Misses()
    }

    function MaxCombo(): nat {
      var possible := SatSub(mapMaxCombo, Misses());
      if combo.None? then possible else Min(combo.value, possible)
    }

    function Given(): nat {
      Clamped(n300, Remaining()) + Clamped(n100, Remaining())
    }

    /** A legal split: given counts are kept and every object has a result. */
    predicate Completes(a: nat, b: nat) {
      Keeps(n300, Remaining(), a) && Keeps(n100, Remaining(), b) && a + b == Remaining()
    }

    function Dist(a: nat, b: nat): real
      requires acc.Some?
    {
      Abs(acc.value - Accuracy(a, b, Misses()))
    }

    function Store(st: ScoreState): Settings {
      this.(combo := Some(st.maxCombo), n300 := Some(st.n300), n100 := Some(st.n100), misses := Some(st.misses))
    }
  }

  /** All objects without a result go to one count: `best` says whether to the 300s. */
  predicate FillsOne(s: Settings, best: bool, a: nat, b: nat) {
    var rest := SatSub(s.Remaining(), s.Given());
    var x, y := Clamped(s.n300, s.Remaining()), Clamped(s.n100, s.Remaining());
    if best then a == x + rest && b == y else a == x && b == y + rest
  }

  /** Only with an accuracy and no given count there is something to search for; the result
      is then nearest. Otherwise a single open count takes the rest, or the priority decides. */
  ghost predicate Splits(s: Settings, n300: nat, n100: nat) {
    if s.acc.Some? && s.n300.None? && s.n100.None? then
      && s.Completes(n300, n100)
      && forall a: nat, b: nat | s.Completes(a, b) :: s.Dist(n300, n100) <= s.Dist(a, b)
    else
      var best := if s.n300.Some? == s.n100.Some? then s.priority.BestCase? else s.n300.None?;
      FillsOne(s, best, n300, n100)
  }

  /** What `generate_state` promises about the state it returns. */
  ghost predicate Generated(s: Settings, st: ScoreState) {
    && st.maxCombo == s.MaxCombo()
    && st.misses == s.Misses()
    && Splits(s, st.n300, st.n100)
  }

  /** Splits of the same objects share their denominator, so the nearer score wins. */
  lemma NearerSplit(s: Settings, a: nat, b: nat, x: nat, y: nat)
    requires s.acc.Some? && a + b == x + y == s.Remaining()
    requires
      var target := TargetScore(s.acc.value, 2 * s.NResults());
      Abs(target - (2 * a + b) as real) <= Abs(target - (2 * x + y) as real)
    ensures s.Dist(a, b) <= s.Dist(x, y)
  {
    assert 2 * (a + b + s.Misses()) == 2 * (x + y + s.Misses()) == 2 * s.NResults();
    NearerQuotientOrZero(s.acc.value, 2 * s.NResults(), 2 * a + b, 2 * x + y);
    hide QuotientOrZero, TargetScore;
  }

  function RawN300(s: Settings): real
    requires s.acc.Some?
  {
    TargetScore(s.acc.value, 2 * s.NResults()) - s.Remaining() as real
  }

  /** One of the two candidates is at least as near as any split. */
  lemma BestN300(s: Settings, x: nat) returns (y: nat)
    requires s.acc.Some? && x <= s.Remaining()
    ensures Min(s.Remaining(), FloorU32(RawN300(s))) <= y <= Min(s.Remaining(), CeilU32(RawN300(s)))
    ensures s.Dist(y, s.Remaining() - y) <= s.Dist(x, s.Remaining() - x)
  {
    y := NearestInClampedRange(RawN300(s), 0, s.Remaining(), x);
    hide TargetScore, Accuracy;
    NearerSplit(s, y, s.Remaining() - y, x, s.Remaining() - x);
  }

  method SearchN300(s: Settings) returns (n300: nat, n100: nat)
    requires s.acc.Some?
    ensures n300 + n100 == s.Remaining()
    ensures forall a: nat, b: nat | a + b == s.Remaining() :: s.Dist(n300, n100) <= s.Dist(a, b)
  {
    hide Accuracy, TargetScore, FloorU32, CeilU32, RawN300;
    n300, n100 := 0, 0;
    var bestDist := Infinite;
    var nRemaining := s.Remaining();
    var minN300 := Min(nRemaining, FloorU32(RawN300(s)));
    var maxN300 := Min(nRemaining, CeilU32(RawN300(s)));
    RoundingBounds(RawN300(s), 0);
    for new300: int := minN300 to maxN300 + 1
      invariant new300 == minN300 ==> bestDist == Infinite
      invariant new300 > minN300 ==> n300 + n100 == nRemaining && bestDist == Finite(s.Dist(n300, n100))
      invariant forall a: nat, b: nat | minN300 <= a < new300 && a + b == nRemaining ::
        s.Dist(n300, n100) <= s.Dist(a, b)
    {
      var new100 := nRemaining - new300;
      var dist := s.Dist(new300, new100);
      if Less(Finite(dist), bestDist) {
        bestDist := Finite(dist);
        n300 := new300;
        n100 := new100;
      }
    }
    forall a: nat, b: nat | a + b == nRemaining
      ensures s.Dist(n300, n100) <= s.Dist(a, b)
    {
      var y := BestN300(s, a);
    }
  }

  /** Conservation: every object has a result, and none has two exactly when the given
      counts leave room. */
  lemma GeneratedTotal(s: Settings, st: ScoreState)
    requires Generated(s, st)
    ensures st.Total() >= s.NResults()
    ensures st.Total() == s.NResults() <==> s.Given() <= s.Remaining()
    ensures st.n300 <= s.Remaining() && st.n100 <= s.Remaining()
  {
    hide Accuracy;
  }

  /** What a generated state has in terms of the fields. */
  lemma ResultsOfPlay(s: Settings, st: ScoreState)
    requires Generated(s, st)
    ensures var passed := if s.passedObjects < s.mapMaxCombo then s.passedObjects else s.mapMaxCombo;
      && IsUpTo(st.misses, s.misses, passed, 0)
      && st.n300 + st.n100 + st.misses >= passed
      && (ValueOr0(s.n300) + ValueOr0(s.n100) + st.misses <= passed ==> st.n300 + st.n100 + st.misses == passed)
    ensures var combo := if s.mapMaxCombo < st.misses then 0 else s.mapMaxCombo - st.misses;
      IsUpTo(st.maxCombo, s.combo, combo, combo)
  {
    GeneratedTotal(s, st);
    hide Splits;
  }

  /** Generating again from the stored result changes nothing. */
  lemma GeneratingAgain(s: Settings, st: ScoreState, again: ScoreState)
    requires Generated(s, st) && Generated(s.Store(st), again)
    ensures again == st
    ensures s.Store(st).Store(again) == s.Store(st)
  {
    GeneratedTotal(s, st);
    var t := s.Store(st);
    assert t.Misses() == s.Misses() && t.Remaining() == s.Remaining();
    assert SatSub(t.Remaining(), t.Given()) == 0;
    hide Accuracy;
  }

  /** The source's choice of counts for the given ones, the accuracy and the priority. */
  method SplitResults(s: Settings) returns (h300: nat, h100: nat)
    ensures Splits(s, h300, h100)
  {
    hide Accuracy, Settings.Dist;
    h300, h100 := Clamped(s.n300, s.Remaining()), Clamped(s.n100, s.Remaining());
    if s.acc.Some? {
      match (s.n300, s.n100) {
        case (Some(_), Some(_)) =>
          var remaining := SatSub(s.NResults(), h300 + h100 + s.Misses());
          match s.priority {
            case BestCase => h300 := h300 + remaining;
            case WorstCase => h100 := h100 + remaining;
          }
        case (Some(_), None) => h100 := h100 + SatSub(s.NResults(), h300 + s.Misses());
        case (None, Some(_)) => h300 := h300 + SatSub(s.NResults(), h100 + s.Misses());
        case (None, None) => h300, h100 := SearchN300(s);
      }
    } else {
      var remaining := SatSub(s.NResults(), h300 + h100 + s.Misses());
      match s.priority {
        case BestCase =>
          match (s.n300, s.n100) {
            case (None, _) => h300 := remaining;
            case (_, None) => h100 := remaining;
            case _ => h300 := h300 + remaining;
          }
        case WorstCase =>
          match (s.n100, s.n300) {
            case (None, _) => h100 := remaining;
            case (_, None) => h300 := remaining;
            case _ => h100 := h100 + remaining;
          }
      }
    }
  }

  class TaikoPerformance {
    var mapMaxCombo: nat
    var passedObjects: nat
    var hitresultPriority: Priority
    var acc: Option<real>
    var combo: Option<nat>
    var n300: Option<nat>
    var n100: Option<nat>
    var misses: Option<nat>

    function Snapshot(): Settings
      reads this
    {
      Settings(mapMaxCombo, passedObjects, hitresultPriority, acc, combo, n300, n100, misses)
    }

    method GenerateState() returns (st: ScoreState)
      modifies this
      ensures Generated(old(Snapshot()), st)
      ensures Snapshot() == old(Snapshot()).Store(st)
    {
      hide Splits;
      var totalResultCount := Min(passedObjects, mapMaxCombo);
      var nMisses := Clamped(misses, totalResultCount);
      var h300, h100 := SplitResults(Snapshot());

      var maxPossibleCombo := SatSub(mapMaxCombo, nMisses);
      var newCombo := if combo.Some? then Min(combo.value, maxPossibleCombo) else maxPossibleCombo;
      st := ScoreState(newCombo, h300, h100, nMisses);
      combo := Some(newCombo);
      n300 := Some(h300);
      n100 := Some(h100);
      misses := Some(nMisses);
    }
  }
}

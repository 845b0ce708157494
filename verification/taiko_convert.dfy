/** Converting an osu! map to osu!taiko: short sliders become hits, in place, and the list is
    sorted again together with its sounds. */
module TaikoConvert {
  import opened Orders
  import opened Rounding
  import opened Tandem
  import opened Remainders

  type Sound = nat

  datatype Kind =
    | Circle
    | Slider(nodeSounds: seq<Sound>, spanCount: nat, expectedDist: real)
    | Spinner(duration: real)
    | Hold(holdDuration: real)

  datatype HitObject = HitObject(x: real, y: real, startTime: real, kind: Kind)

  /** What does not change about the map: its settings and the lookups of control points. */
  datatype Settings = Settings(sliderMultiplier: real, sliderTickRate: real, version: nat,
                               beatLenAt: real -> real, sliderVelocityAt: real -> real)

  const VelocityMultiplier := 1.4
  const OsuBaseScoringDist := 100.0
  const MaxU32 := 0xFFFF_FFFF

  /** `get_precision_adjusted_beat_len`; without any velocity the clamp decides. */
  function BpmMultiplier(sliderVelocity: real): (r: real)
    ensures r > 0.0
  {
    if sliderVelocity < 0.0 then 1.0
    else if sliderVelocity == 0.0 then 10000.0 / 100.0
    else RealMin(RealMax(100.0 / sliderVelocity, 10.0), 10000.0) / 100.0
  }

  datatype SliderParams = SliderParams(duration: nat, tickSpacing: real, convert: bool)

  lemma NonZeroProduct(a: real, b: real)
    requires a != 0.0 && b != 0.0
    ensures a * b != 0.0
  {}

  lemma NonZeroQuotient(a: real, b: real)
    requires a != 0.0 && b != 0.0
    ensures a / b != 0.0
  {
    assert a / b * b == a;
  }

  /** The true distance, as a drum roll. */
  function DrumRollDistance(expectedDist: real, spans: real): real {
    expectedDist * VelocityMultiplier * spans
  }

  function AdjustedBeatLen(s: Settings, startTime: real): (r: real)
    ensures s.beatLenAt(startTime) != 0.0 ==> r != 0.0
  {
    var bpmMultiplier := BpmMultiplier(s.sliderVelocityAt(startTime));
    if s.beatLenAt(startTime) != 0.0 then
      NonZeroProduct(s.beatLenAt(startTime), bpmMultiplier);
      s.beatLenAt(startTime) * bpmMultiplier
    else 0.0
  }

  function TaikoVel(sliderMultiplier: real, sliderTickRate: real): (r: real)
    requires sliderMultiplier != 0.0 && sliderTickRate != 0.0
    ensures r != 0.0
  {
    NonZeroProduct(sliderMultiplier, VelocityMultiplier);
    NonZeroProduct(OsuBaseScoringDist, sliderMultiplier * VelocityMultiplier);
    NonZeroQuotient(OsuBaseScoringDist * (sliderMultiplier * VelocityMultiplier), sliderTickRate);
    var scoringPointDist := OsuBaseScoringDist * (sliderMultiplier * VelocityMultiplier) / sliderTickRate;
    NonZeroProduct(scoringPointDist, sliderTickRate);
    scoringPointDist * sliderTickRate
  }

  function OsuVel(taikoVel: real, beatLen: real): (r: real)
    requires taikoVel != 0.0 && beatLen != 0.0
    ensures r != 0.0
  {
    NonZeroQuotient(1000.0, beatLen);
    NonZeroProduct(taikoVel, 1000.0 / beatLen);
    taikoVel * (1000.0 / beatLen)
  }

  function DrumRollTime(dist: real, taikoVel: real, beatLen: real): real
    requires taikoVel != 0.0
  {
    dist / taikoVel * beatLen
  }

  function OsuTime(dist: real, osuVel: real): real
    requires osuVel != 0.0
  {
    dist / osuVel * 1000.0
  }

  /** `should_convert_slider_to_taiko_hits`. Neither the multiplier nor the tick rate is clamped by
      the decoder. Where one of them or the beat length is zero, the quotients of the source are
      infinite or not a number and fail one of its two comparisons. */
  function Params(s: Settings, startTime: real, slider: Kind): (p: SliderParams)
    requires slider.Slider? && slider.spanCount > 0
    ensures p.convert ==> p.tickSpacing > 0.0
  {
    var timingBeatLen := s.beatLenAt(startTime);
    if s.sliderMultiplier == 0.0 || s.sliderTickRate == 0.0 || timingBeatLen == 0.0 then SliderParams(0, 0.0, false)
    else
      var spans := slider.spanCount as real;
      var dist := DrumRollDistance(slider.expectedDist, spans);
      var adjusted := AdjustedBeatLen(s, startTime);
      var taikoVel := TaikoVel(s.sliderMultiplier, s.sliderTickRate);
      var duration := Min(FloorU32(DrumRollTime(dist, taikoVel, adjusted)), MaxU32);
      var osuVel := OsuVel(taikoVel, adjusted);
      var beatLen := if s.version >= 8 then timingBeatLen else adjusted;
      var tickSpacing := RealMin(beatLen / s.sliderTickRate, duration as real / spans);
      SliderParams(duration, tickSpacing, tickSpacing > 0.0 && OsuTime(dist, osuVel) < 2.0 * beatLen)
  }

  // ---------- which sliders are converted ----------

  lemma Undivided(a: real, b: real)
    requires b != 0.0
    ensures a / b * b == a
  {}

  lemma SameFactor(a: real, b: real, x: real)
    requires x != 0.0 && a * x == b * x
    ensures a == b
  {
    ProductOfDifference(a, b, x);
    if a != b {
      NonZeroProduct(a - b, x);
      assert false;
    }
  }

  /** Beat lengths are adjusted by the inverse of the velocity, from a tenth to 100 times. */
  lemma MultiplierIsInverse(sliderVelocity: real)
    ensures 0.01 <= sliderVelocity <= 10.0 ==> BpmMultiplier(sliderVelocity) * sliderVelocity == 1.0
    ensures sliderVelocity > 10.0 ==> BpmMultiplier(sliderVelocity) == 0.1
    ensures 0.0 <= sliderVelocity < 0.01 ==> BpmMultiplier(sliderVelocity) == 100.0
    ensures sliderVelocity < 0.0 ==> BpmMultiplier(sliderVelocity) == 1.0
  {
    if sliderVelocity > 0.0 {
      var q := 100.0 / sliderVelocity;
      Undivided(100.0, sliderVelocity);
      QuotientWithin(q, sliderVelocity);
      ProductOfHundredth(q, sliderVelocity);
    }
  }

  lemma QuotientWithin(q: real, v: real)
    requires v > 0.0 && q * v == 100.0
    ensures q < 10.0 <==> v > 10.0
    ensures q > 10000.0 <==> v < 0.01
  {
    if q < 10.0 { StrictScale(q, 10.0, v); } else { Scale(10.0, q, v); }
    if q > 10000.0 { StrictScale(10000.0, q, v); } else { Scale(q, 10000.0, v); }
  }

  lemma ProductOfHundredth(q: real, v: real)
    requires q * v == 100.0
    ensures q / 100.0 * v == 1.0
  {}

  /** Distance over all spans times the adjusted beat length, in hundreds of the multiplier: how
      long the slider lasts. */
  function Length(dist: real, spans: real, adjusted: real, multiplier: real): real
    requires multiplier != 0.0
  {
    dist * spans * adjusted / (100.0 * multiplier)
  }

  lemma LengthTimes(dist: real, spans: real, adjusted: real, m: real)
    requires m != 0.0
    ensures Length(dist, spans, adjusted, m) * (100.0 * m) == dist * spans * adjusted
  {
    Undivided(dist * spans * adjusted, 100.0 * m);
  }

  /** The tick rate cancels. */
  lemma TaikoVelocity(m: real, t: real)
    requires m != 0.0 && t != 0.0
    ensures TaikoVel(m, t) == 140.0 * m
  {
    Undivided(OsuBaseScoringDist * (m * VelocityMultiplier), t);
  }

  /** The factor of drum rolls cancels. */
  lemma DurationIsLength(dist: real, spans: real, adjusted: real, m: real, t: real)
    requires m != 0.0 && t != 0.0
    ensures DrumRollTime(DrumRollDistance(dist, spans), TaikoVel(m, t), adjusted) == Length(dist, spans, adjusted, m)
  {
    hide Length, TaikoVel;
    var d, v := DrumRollDistance(dist, spans), TaikoVel(m, t);
    var q := d / v;
    TaikoVelocity(m, t);
    Undivided(d, v);
    TimesFactor(dist, spans);
    LengthTimes(dist, spans, adjusted, m);
    DurationProducts(q, v, m, dist * spans);
    Rearranged(q, 100.0 * m, adjusted);
    SameFactor(q * adjusted, Length(dist, spans, adjusted, m), 100.0 * m);
  }

  lemma DurationProducts(q: real, v: real, m: real, u: real)
    requires v == 140.0 * m && q * v == 1.4 * u
    ensures q * (100.0 * m) == u
  {
    assert q * v == 1.4 * (q * (100.0 * m));
  }

  lemma TimesFactor(dist: real, spans: real)
    ensures DrumRollDistance(dist, spans) == 1.4 * (dist * spans)
  {}

  lemma Rearranged(a: real, b: real, c: real)
    ensures (a * c) * b == (a * b) * c
  {}

  lemma OsuTimeIsLength(dist: real, spans: real, adjusted: real, m: real, t: real)
    requires m != 0.0 && t != 0.0 && adjusted != 0.0
    ensures OsuTime(DrumRollDistance(dist, spans), OsuVel(TaikoVel(m, t), adjusted)) == Length(dist, spans, adjusted, m)
  {
    hide Length, TaikoVel;
    var d, v, w := DrumRollDistance(dist, spans), OsuVel(TaikoVel(m, t), adjusted), 1000.0 / adjusted;
    var q := d / v;
    TaikoVelocity(m, t);
    Undivided(1000.0, adjusted);
    Undivided(d, v);
    OsuTimeProducts(q, m, w, adjusted, d);
    TimesFactor(dist, spans);
    LengthTimes(dist, spans, adjusted, m);
    FactorOut(dist * spans, adjusted);
    SameFactor(q * 1000.0, Length(dist, spans, adjusted, m), 100.0 * m);
  }

  lemma FactorOut(u: real, adjusted: real)
    ensures 1.4 * u * adjusted == 1.4 * (u * adjusted)
  {}

  lemma OsuTimeProducts(q: real, m: real, w: real, adjusted: real, d: real)
    requires q * (140.0 * m * w) == d && w * adjusted == 1000.0
    ensures 1.4 * (q * 1000.0 * (100.0 * m)) == d * adjusted
  {
    assert q * (140.0 * m * w) * adjusted == q * (140.0 * m) * (w * adjusted);
    assert q * (140.0 * m) * 1000.0 == 1.4 * (q * 1000.0 * (100.0 * m));
  }

  /** The parameters of a slider, without the factors that cancel. */
  lemma ParamsAre(s: Settings, startTime: real, slider: Kind)
    requires slider.Slider? && slider.spanCount > 0
    requires s.sliderMultiplier != 0.0 && s.sliderTickRate != 0.0 && s.beatLenAt(startTime) != 0.0
    ensures var spans := slider.spanCount as real;
      var adjusted := AdjustedBeatLen(s, startTime);
      var beatLen := if s.version >= 8 then s.beatLenAt(startTime) else adjusted;
      var length := Length(slider.expectedDist, spans, adjusted, s.sliderMultiplier);
      var p := Params(s, startTime, slider);
      && p.duration == Min(FloorU32(length), MaxU32)
      && p.tickSpacing == RealMin(beatLen / s.sliderTickRate, p.duration as real / spans)
      && (p.convert <==> p.tickSpacing > 0.0 && length < 2.0 * beatLen)
  {
    hide Length, AdjustedBeatLen, FloorU32, RealMin, Min, DrumRollTime, DrumRollDistance, OsuTime, TaikoVel, OsuVel;
    var spans, adjusted := slider.spanCount as real, AdjustedBeatLen(s, startTime);
    DurationIsLength(slider.expectedDist, spans, adjusted, s.sliderMultiplier, s.sliderTickRate);
    OsuTimeIsLength(slider.expectedDist, spans, adjusted, s.sliderMultiplier, s.sliderTickRate);
  }

  /** The duration in units of `hundreds` is what `total` gives, cut to a number of 32 bits. */
  predicate Lasts(duration: nat, total: real, hundreds: real) {
    && duration as real * hundreds <= total && duration <= 0xFFFF_FFFF
    && (total < duration as real * hundreds + hundreds || duration == 0xFFFF_FFFF)
  }

  /** A beat over the tick rate, or a span if that is less. */
  predicate Spaced(spacing: real, duration: nat, spans: real, beatLen: real, tickRate: real) {
    && spacing * tickRate <= beatLen && spacing * spans <= duration as real
    && (spacing * tickRate == beatLen || spacing * spans == duration as real)
  }

  /** A slider becomes hits exactly if it lasts at all and less than two beats. */
  predicate Measured(p: SliderParams, total: real, hundreds: real, spans: real, beatLen: real, tickRate: real) {
    && Lasts(p.duration, total, hundreds) && Spaced(p.tickSpacing, p.duration, spans, beatLen, tickRate)
    && (p.convert <==> p.duration >= 1 && total < 2.0 * beatLen * hundreds)
  }

  function Total(dist: real, spans: real, adjusted: real): real {
    dist * spans * adjusted
  }

  lemma ConvertsExactlyIf(s: Settings, startTime: real, slider: Kind)
    requires slider.Slider? && slider.spanCount > 0 && slider.expectedDist >= 0.0
    requires s.sliderMultiplier > 0.0 && s.sliderTickRate > 0.0 && s.beatLenAt(startTime) > 0.0
    ensures var spans, adjusted := slider.spanCount as real, AdjustedBeatLen(s, startTime);
      adjusted > 0.0 && Measured(Params(s, startTime, slider), Total(slider.expectedDist, spans, adjusted),
        100.0 * s.sliderMultiplier, spans, if s.version >= 8 then s.beatLenAt(startTime) else adjusted, s.sliderTickRate)
  {
    hide Length, Params, BpmMultiplier, AdjustedBeatLen, Measured, FloorU32, RealMin, Min, Total;
    var spans, adjusted := slider.spanCount as real, AdjustedBeatLen(s, startTime);
    AdjustedPositive(s, startTime);
    ParamsAre(s, startTime, slider);
    LengthNotNegative(slider.expectedDist, spans, adjusted, s.sliderMultiplier);
    MeasuredByLength(Params(s, startTime, slider), Length(slider.expectedDist, spans, adjusted, s.sliderMultiplier),
                     Total(slider.expectedDist, spans, adjusted), 100.0 * s.sliderMultiplier, spans,
                     if s.version >= 8 then s.beatLenAt(startTime) else adjusted, s.sliderTickRate);
  }

  lemma AdjustedPositive(s: Settings, startTime: real)
    requires s.beatLenAt(startTime) > 0.0
    ensures AdjustedBeatLen(s, startTime) > 0.0
  {
    PositiveProduct(s.beatLenAt(startTime), BpmMultiplier(s.sliderVelocityAt(startTime)));
    hide BpmMultiplier;
  }

  lemma MeasuredByLength(p: SliderParams, length: real, total: real, hundreds: real, spans: real, beatLen: real, t: real)
    requires length >= 0.0 && length * hundreds == total && hundreds > 0.0
    requires spans >= 1.0 && beatLen > 0.0 && t > 0.0
    requires p.duration == Min(FloorU32(length), MaxU32) && p.tickSpacing == RealMin(beatLen / t, p.duration as real / spans)
    requires p.convert <==> p.tickSpacing > 0.0 && length < 2.0 * beatLen
    ensures Measured(p, total, hundreds, spans, beatLen, t)
  {
    hide RealMin, FloorU32, Min, Lasts, Spaced;
    LastsLength(p.duration, length, total, hundreds);
    LengthBelow(length, 2.0 * beatLen, hundreds);
    SpacingBounds(beatLen, t, p.duration, spans, p.tickSpacing);
  }

  lemma LastsLength(duration: nat, length: real, total: real, hundreds: real)
    requires length >= 0.0 && length * hundreds == total && hundreds > 0.0 && duration == Min(FloorU32(length), MaxU32)
    ensures Lasts(duration, total, hundreds)
  {
    DurationCut(length, duration);
    hide FloorU32, Min;
    Scale(duration as real, length, hundreds);
    if length < duration as real + 1.0 {
      BelowNext(duration as real, length, total, hundreds);
    }
  }

  lemma BelowNext(d: real, length: real, total: real, hundreds: real)
    requires length * hundreds == total && hundreds > 0.0 && length < d + 1.0
    ensures total < d * hundreds + hundreds
  {
    var gap := d + 1.0 - length;
    PositiveProduct(gap, hundreds);
    assert gap * hundreds == d * hundreds + hundreds - length * hundreds;
  }

  lemma LengthNotNegative(dist: real, spans: real, adjusted: real, m: real)
    requires dist >= 0.0 && spans > 0.0 && adjusted > 0.0 && m > 0.0
    ensures Length(dist, spans, adjusted, m) >= 0.0
    ensures Length(dist, spans, adjusted, m) * (100.0 * m) == Total(dist, spans, adjusted)
  {
    NonNegativeProduct(dist, spans);
    NonNegativeProduct(dist * spans, adjusted);
    LengthTimes(dist, spans, adjusted, m);
    if Length(dist, spans, adjusted, m) < 0.0 {
      PositiveProduct(-Length(dist, spans, adjusted, m), 100.0 * m);
    }
  }

  lemma DurationCut(length: real, duration: nat)
    requires length >= 0.0 && duration == Min(FloorU32(length), MaxU32)
    ensures duration as real <= length && duration <= 0xFFFF_FFFF
    ensures length < duration as real + 1.0 || duration == 0xFFFF_FFFF
  {
    RoundingBounds(length, 0);
    hide FloorU32;
  }

  lemma LengthBelow(length: real, bound: real, hundreds: real)
    requires hundreds > 0.0
    ensures length < bound <==> length * hundreds < bound * hundreds
  {
    if length < bound {
      StrictScale(length, bound, hundreds);
    } else {
      Scale(bound, length, hundreds);
    }
  }

  lemma SpacingBounds(beatLen: real, tickRate: real, duration: nat, spans: real, spacing: real)
    requires beatLen > 0.0 && tickRate > 0.0 && spans > 0.0
    requires spacing == RealMin(beatLen / tickRate, duration as real / spans)
    ensures Spaced(spacing, duration, spans, beatLen, tickRate)
    ensures spacing > 0.0 <==> duration >= 1
  {
    var x, y := beatLen / tickRate, duration as real / spans;
    Undivided(beatLen, tickRate);
    Undivided(duration as real, spans);
    Scale(spacing, x, tickRate);
    Scale(spacing, y, spans);
    PositiveQuotient(beatLen, tickRate);
    if duration > 0 {
      PositiveQuotient(duration as real, spans);
    } else {
      ZeroQuotient(spans);
    }
  }

  lemma PositiveQuotient(a: real, b: real)
    requires a > 0.0 && b > 0.0
    ensures a / b > 0.0
  {
    Undivided(a, b);
    if a / b <= 0.0 {
      Scale(a / b, 0.0, b);
    }
  }

  lemma ZeroQuotient(b: real)
    requires b > 0.0
    ensures 0.0 / b == 0.0
  {}

  /** With velocities as they are decoded, and maps of version 8 or later: shorter than two beats is
      nearer than 200 units times multiplier and velocity, whatever the beat length. */
  lemma ConvertsByDistance(s: Settings, startTime: real, slider: Kind)
    requires slider.Slider? && slider.spanCount > 0 && slider.expectedDist >= 0.0 && s.version >= 8
    requires s.sliderMultiplier > 0.0 && s.sliderTickRate > 0.0 && s.beatLenAt(startTime) > 0.0
    requires 0.1 <= s.sliderVelocityAt(startTime) <= 10.0
    ensures var p := Params(s, startTime, slider);
      var near := slider.expectedDist * slider.spanCount as real < 200.0 * s.sliderMultiplier * s.sliderVelocityAt(startTime);
      p.convert <==> p.duration >= 1 && near
  {
    hide Params, BpmMultiplier;
    var b, v, m := s.beatLenAt(startTime), s.sliderVelocityAt(startTime), s.sliderMultiplier;
    var u := slider.expectedDist * slider.spanCount as real;
    ConvertsExactlyIf(s, startTime, slider);
    AdjustedByVelocity(s, startTime);
    BeatLengthCancels(u, b, AdjustedBeatLen(s, startTime), v, m);
  }

  lemma AdjustedByVelocity(s: Settings, startTime: real)
    ensures var v, b, adjusted := s.sliderVelocityAt(startTime), s.beatLenAt(startTime), AdjustedBeatLen(s, startTime);
      && (0.01 <= v <= 10.0 ==> adjusted * v == b)
      && (v > 10.0 ==> adjusted == b / 10.0)
      && (0.0 <= v < 0.01 ==> adjusted == b * 100.0)
      && (v < 0.0 ==> adjusted == b)
  {
    var v, b := s.sliderVelocityAt(startTime), s.beatLenAt(startTime);
    MultiplierIsInverse(v);
    Rearranged(b, v, BpmMultiplier(v));
    hide BpmMultiplier;
  }

  lemma BeatLengthCancels(u: real, b: real, adjusted: real, v: real, m: real)
    requires b > 0.0 && v > 0.0 && adjusted * v == b
    ensures u * adjusted < 2.0 * b * (100.0 * m) <==> u < 200.0 * m * v
  {
    Rearranged(u, v, adjusted);
    assert u * adjusted * v == u * b;
    assert 2.0 * b * (100.0 * m) * v == 200.0 * m * v * b;
    LengthBelow(u * adjusted, 2.0 * b * (100.0 * m), v);
    LengthBelow(u, 200.0 * m * v, b);
  }

  /** A slider with as many spans that is shorter than one that becomes hits becomes hits, too,
      unless it does not last at all. */
  lemma ShorterConverts(s: Settings, startTime: real, slider: Kind, shorter: Kind)
    requires slider.Slider? && shorter.Slider? && slider.spanCount == shorter.spanCount > 0
    requires 0.0 <= shorter.expectedDist <= slider.expectedDist
    requires s.sliderMultiplier > 0.0 && s.sliderTickRate > 0.0 && s.beatLenAt(startTime) > 0.0
    requires Params(s, startTime, slider).convert
    ensures Params(s, startTime, shorter).convert <==> Params(s, startTime, shorter).duration >= 1
  {
    hide Params, AdjustedBeatLen, Total;
    var adjusted := AdjustedBeatLen(s, startTime);
    ConvertsExactlyIf(s, startTime, slider);
    ConvertsExactlyIf(s, startTime, shorter);
    TotalGrows(shorter.expectedDist, slider.expectedDist, slider.spanCount as real, adjusted);
  }

  lemma TotalGrows(shorter: real, dist: real, spans: real, adjusted: real)
    requires shorter <= dist && spans >= 1.0 && adjusted > 0.0
    ensures Total(shorter, spans, adjusted) <= Total(dist, spans, adjusted)
  {
    Scale(shorter, dist, spans);
    Scale(shorter * spans, dist * spans, adjusted);
  }

  // ---------- the hits of a slider ----------

  function EdgeSoundCount(nodeSounds: seq<Sound>): (n: nat)
    ensures n > 0
  {
    Max(|nodeSounds|, 1)
  }

  function TickSound(nodeSounds: seq<Sound>, sound: Sound, i: nat): Sound {
    if i < |nodeSounds| then nodeSounds[i] else sound
  }

  function Hit(time: real): HitObject {
    HitObject(0.0, 0.0, time, Circle)
  }

  /** How many hits follow at most. */
  function TicksLeft(j: real, end: real): nat {
    if j > end then 0 else ((end - j) / Epsilon).Floor + 1
  }

  lemma OneTickLess(j: real, end: real, spacing: real)
    requires j <= end && spacing >= Epsilon
    ensures TicksLeft(j + spacing, end) < TicksLeft(j, end)
  {
    assert (end - (j + spacing)) / Epsilon == (end - j) / Epsilon - spacing / Epsilon;
  }

  /** The hits from time `j` on, with the sounds of the nodes in turn. */
  function Ticks(nodeSounds: seq<Sound>, sound: Sound, j: real, i: nat, end: real, spacing: real): (t: seq<(HitObject, Sound)>)
    requires spacing > 0.0
    decreases TicksLeft(j, end)
  {
    if j > end then []
    else if spacing < Epsilon then [(Hit(j), TickSound(nodeSounds, sound, i))]
    else
      OneTickLess(j, end, spacing);
      [(Hit(j), TickSound(nodeSounds, sound, i))] +
      Ticks(nodeSounds, sound, j + spacing, (i + 1) % EdgeSoundCount(nodeSounds), end, spacing)
  }

  /** What an object becomes. */
  function Expansion(s: Settings, obj: HitObject, sound: Sound): (e: seq<(HitObject, Sound)>)
    requires obj.kind.Slider? ==> obj.kind.spanCount > 0
  {
    match obj.kind
    case Circle => [(obj, sound)]
    case Spinner(_) => [(obj, sound)]
    case Hold(duration) => [(obj.(kind := Spinner(duration)), sound)]
    case Slider(nodeSounds, _, _) =>
      var p := Params(s, obj.startTime, obj.kind);
      if p.convert then
        Ticks(nodeSounds, sound, obj.startTime, 0, TicksEnd(obj.startTime, p), p.tickSpacing)
      else [(obj, sound)]
  }

  function TicksEnd(startTime: real, p: SliderParams): real {
    startTime + p.duration as real + p.tickSpacing / 8.0
  }

  ghost predicate HaveSpans(objects: seq<HitObject>) {
    forall k | 0 <= k < |objects| :: objects[k].kind.Slider? ==> objects[k].kind.spanCount > 0
  }

  /** All expansions one after the other. */
  function Expansions(s: Settings, objects: seq<HitObject>, sounds: seq<Sound>): (e: seq<(HitObject, Sound)>)
    requires HaveSpans(objects) && |sounds| == |objects|
  {
    if objects == [] then []
    else
      var last := |objects| - 1;
      Expansions(s, objects[..last], sounds[..last]) + Expansion(s, objects[last], sounds[last])
  }

  /** The slider has a first hit, so the branch that removes it without any is never taken. */
  lemma NeverEmpty(s: Settings, obj: HitObject, sound: Sound)
    requires obj.kind.Slider? ==> obj.kind.spanCount > 0
    ensures Expansion(s, obj, sound) != []
    ensures Expansion(s, obj, sound)[0].0.startTime == obj.startTime
  {
    hide Params;
  }

  /** Hits are evenly spaced up to an eighth of their distance behind the end, and take the node
      sounds round and round. */
  lemma {:induction false} TicksAre(nodeSounds: seq<Sound>, sound: Sound, j: real, i: nat, end: real, spacing: real, k: nat)
    requires spacing >= Epsilon && i < EdgeSoundCount(nodeSounds)
    requires k < |Ticks(nodeSounds, sound, j, i, end, spacing)|
    ensures Ticks(nodeSounds, sound, j, i, end, spacing)[k] ==
      (Hit(j + k as real * spacing), TickSound(nodeSounds, sound, (i + k) % EdgeSoundCount(nodeSounds)))
    decreases k
  {
    hide EdgeSoundCount, TickSound, TicksLeft, Hit;
    var n := EdgeSoundCount(nodeSounds);
    OneTickLess(j, end, spacing);
    if k > 0 {
      TicksAre(nodeSounds, sound, j + spacing, (i + 1) % n, end, spacing, k - 1);
      OneStepLater(j, spacing, k);
      AddsInRound(i, k, n);
    } else {
      AddsInRound(i, 0, n);
    }
  }

  lemma OneStepLater(j: real, spacing: real, k: nat)
    requires k > 0
    ensures (j + spacing) + (k - 1) as real * spacing == j + k as real * spacing
  {}

  lemma AddsInRound(i: nat, k: nat, n: nat)
    requires i < n
    ensures k > 0 ==> ((i + 1) % n + (k - 1)) % n == (i + k) % n
    ensures i % n == i
  {
    SmallRemainder(i, n);
    if k > 0 {
      WrapsBeforeAdding(i + 1, k - 1, n);
    }
  }

  lemma OneQuotientLess(x: real, s: real)
    requires s > 0.0
    ensures (x - s) / s == x / s - 1.0
  {
    var q, r := x / s, (x - s) / s;
    assert q * s == x && r * s == x - s;
    assert (q - 1.0 - r) * s == q * s - s - r * s;
    NoOtherFactor(q - 1.0 - r, s);
  }

  lemma NoOtherFactor(d: real, s: real)
    requires s > 0.0 && d * s == 0.0
    ensures d == 0.0
  {}

  lemma {:induction false} TickCount(nodeSounds: seq<Sound>, sound: Sound, j: real, i: nat, end: real, spacing: real)
    requires spacing >= Epsilon && j <= end
    ensures |Ticks(nodeSounds, sound, j, i, end, spacing)| == ((end - j) / spacing).Floor + 1
    decreases TicksLeft(j, end)
  {
    OneTickLess(j, end, spacing);
    OneQuotientLess(end - j, spacing);
    assert end - (j + spacing) == end - j - spacing;
    if j + spacing <= end {
      TickCount(nodeSounds, sound, j + spacing, (i + 1) % EdgeSoundCount(nodeSounds), end, spacing);
    } else {
      assert 0.0 <= (end - j) / spacing < 1.0;
    }
  }

  /** Hits from the start on, with the sounds of the nodes in turn, or the slider's if it has none. */
  ghost predicate AreHitsOf(e: seq<(HitObject, Sound)>, nodeSounds: seq<Sound>, sound: Sound, start: real, spacing: real) {
    forall k | 0 <= k < |e| ::
      e[k] == (HitObject(0.0, 0.0, start + k as real * spacing, Circle),
               if |nodeSounds| == 0 then sound else nodeSounds[k % |nodeSounds|])
  }

  /** What a slider becomes: itself, or hits up to an eighth of their distance behind its end. */
  lemma HitsOfSlider(s: Settings, obj: HitObject, sound: Sound)
    requires obj.kind.Slider? && obj.kind.spanCount > 0
    ensures var p, e := Params(s, obj.startTime, obj.kind), Expansion(s, obj, sound);
      && (!p.convert ==> e == [(obj, sound)])
      && (p.convert ==>
            && |e| == (if p.tickSpacing < 1.0 / 4503599627370496.0 then 1 else (p.duration as real / p.tickSpacing + 0.125).Floor + 1)
            && AreHitsOf(e, obj.kind.nodeSounds, sound, obj.startTime, p.tickSpacing))
  {
    hide Params, Ticks, TickSound, EdgeSoundCount, TicksLeft, Hit;
    var p := Params(s, obj.startTime, obj.kind);
    if p.convert {
      hide TicksEnd;
      assert Expansion(s, obj, sound) ==
        Ticks(obj.kind.nodeSounds, sound, obj.startTime, 0, TicksEnd(obj.startTime, p), p.tickSpacing);
      hide Expansion;
      TicksOf(obj.kind.nodeSounds, sound, obj.startTime, p);
    }
  }

  lemma TicksOf(nodeSounds: seq<Sound>, sound: Sound, start: real, p: SliderParams)
    requires p.tickSpacing > 0.0
    ensures var e := Ticks(nodeSounds, sound, start, 0, TicksEnd(start, p), p.tickSpacing);
      && |e| == (if p.tickSpacing < 1.0 / 4503599627370496.0 then 1 else (p.duration as real / p.tickSpacing + 0.125).Floor + 1)
      && AreHitsOf(e, nodeSounds, sound, start, p.tickSpacing)
  {
    hide Ticks, AreHitsOf;
    EighthBehind(start, p.duration as real, p.tickSpacing);
    if p.tickSpacing < Epsilon {
      OneTick(nodeSounds, sound, start, TicksEnd(start, p), p.tickSpacing);
    } else {
      TickCount(nodeSounds, sound, start, 0, TicksEnd(start, p), p.tickSpacing);
      TicksAreHits(nodeSounds, sound, start, TicksEnd(start, p), p.tickSpacing);
    }
  }

  lemma OneTick(nodeSounds: seq<Sound>, sound: Sound, start: real, end: real, spacing: real)
    requires 0.0 < spacing < Epsilon && start <= end
    ensures var e := Ticks(nodeSounds, sound, start, 0, end, spacing); |e| == 1 && AreHitsOf(e, nodeSounds, sound, start, spacing)
  {
    HitAt(nodeSounds, sound, start, 0, spacing);
    hide TickSound, EdgeSoundCount, TicksLeft, Hit;
  }

  lemma TicksAreHits(nodeSounds: seq<Sound>, sound: Sound, start: real, end: real, spacing: real)
    requires spacing >= Epsilon
    ensures AreHitsOf(Ticks(nodeSounds, sound, start, 0, end, spacing), nodeSounds, sound, start, spacing)
  {
    hide Ticks, TickSound, EdgeSoundCount, TicksLeft, Hit;
    var e := Ticks(nodeSounds, sound, start, 0, end, spacing);
    forall k | 0 <= k < |e|
      ensures e[k] == (HitObject(0.0, 0.0, start + k as real * spacing, Circle),
                       if |nodeSounds| == 0 then sound else nodeSounds[k % |nodeSounds|])
    {
      HitAt(nodeSounds, sound, start, k, spacing);
      TicksAre(nodeSounds, sound, start, 0, end, spacing, k);
    }
  }

  lemma HitAt(nodeSounds: seq<Sound>, sound: Sound, start: real, k: nat, spacing: real)
    ensures EdgeSoundCount(nodeSounds) > 0 && (k == 0 ==> start + k as real * spacing == start && k % EdgeSoundCount(nodeSounds) == 0)
    ensures (Hit(start + k as real * spacing), TickSound(nodeSounds, sound, (0 + k) % EdgeSoundCount(nodeSounds))) ==
      (HitObject(0.0, 0.0, start + k as real * spacing, Circle),
       if |nodeSounds| == 0 then sound else nodeSounds[k % |nodeSounds|])
  {
    SoundInTurn(nodeSounds, sound, k);
    hide TickSound, EdgeSoundCount;
    if k == 0 {
      SmallRemainder(0, EdgeSoundCount(nodeSounds));
    }
  }

  lemma SoundInTurn(nodeSounds: seq<Sound>, sound: Sound, k: nat)
    ensures TickSound(nodeSounds, sound, (0 + k) % EdgeSoundCount(nodeSounds)) ==
      if nodeSounds == [] then sound else nodeSounds[k % |nodeSounds|]
  {}

  lemma EighthBehind(start: real, duration: real, spacing: real)
    requires spacing > 0.0 && duration >= 0.0
    ensures start + duration + spacing / 8.0 >= start
    ensures (start + duration + spacing / 8.0 - start) / spacing == duration / spacing + 0.125
  {
    var q := duration / spacing;
    assert q * spacing == duration;
    var r := (duration + spacing / 8.0) / spacing;
    assert r * spacing == duration + spacing / 8.0;
    assert (r - (q + 0.125)) * spacing == r * spacing - q * spacing - 0.125 * spacing;
    NoOtherFactor(r - (q + 0.125), spacing);
  }

  // ---------- in place ----------

  lemma PairedAppend<T, U>(a: seq<T>, b: seq<T>, c: seq<U>, d: seq<U>)
    requires |a| == |c| && |b| == |d|
    ensures Paired(a + b, c + d) == Paired(a, c) + Paired(b, d)
  {}

  lemma ExpansionsAppend(s: Settings, objects: seq<HitObject>, sounds: seq<Sound>, k: nat)
    requires HaveSpans(objects) && |sounds| == |objects| && k < |objects|
    ensures HaveSpans(objects[..k + 1])
    ensures Expansions(s, objects[..k + 1], sounds[..k + 1]) ==
      Expansions(s, objects[..k], sounds[..k]) + Expansion(s, objects[k], sounds[k])
  {
    assert objects[..k + 1][..k] == objects[..k] && sounds[..k + 1][..k] == sounds[..k];
  }

  /** Behind `k` objects: they are expanded, the others untouched. */
  ghost predicate Expanding(s: Settings, objects: seq<HitObject>, sounds: seq<Sound>, k: nat, idx: nat,
                            hitObjects: seq<HitObject>, hitSounds: seq<Sound>)
  {
    && HaveSpans(objects) && |sounds| == |objects| && k <= |objects|
    && |hitObjects| == |hitSounds| && idx <= |hitObjects|
    && Paired(hitObjects[..idx], hitSounds[..idx]) == Expansions(s, objects[..k], sounds[..k])
    && hitObjects[idx..] == objects[k..] && hitSounds[idx..] == sounds[k..]
  }

  /** Replacing an object and its sound by its expansion, both lists at the same place. */
  lemma Spliced(s: Settings, objects: seq<HitObject>, sounds: seq<Sound>, k: nat, idx: nat,
                hitObjects: seq<HitObject>, hitSounds: seq<Sound>, newObjects: seq<HitObject>, newSounds: seq<Sound>)
    requires Expanding(s, objects, sounds, k, idx, hitObjects, hitSounds) && idx < |hitObjects|
    requires |newObjects| == |newSounds|
    requires hitObjects[idx].kind.Slider? ==> hitObjects[idx].kind.spanCount > 0
    requires Paired(newObjects, newSounds) == Expansion(s, hitObjects[idx], hitSounds[idx])
    ensures k < |objects|
    ensures Expanding(s, objects, sounds, k + 1, idx + |newObjects|,
              hitObjects[..idx] + newObjects + hitObjects[idx + 1..], hitSounds[..idx] + newSounds + hitSounds[idx + 1..])
  {
    hide Expansion, Expansions, HaveSpans;
    assert hitObjects[idx..][0] == objects[k..][0] && hitSounds[idx..][0] == sounds[k..][0];
    ExpansionsAppend(s, objects, sounds, k);
    PairedAppend(hitObjects[..idx], newObjects, hitSounds[..idx], newSounds);
    var os := hitObjects[..idx] + newObjects + hitObjects[idx + 1..];
    var ss := hitSounds[..idx] + newSounds + hitSounds[idx + 1..];
    var to := idx + |newObjects|;
    assert os[..to] == hitObjects[..idx] + newObjects && ss[..to] == hitSounds[..idx] + newSounds;
    assert os[to..] == hitObjects[idx..][1..] && ss[to..] == hitSounds[idx..][1..];
  }

  class Beatmap {
    var hitObjects: seq<HitObject>
    var hitSounds: seq<Sound>
    var isTaiko: bool
    var isConvert: bool
    const settings: Settings

    ghost predicate Valid()
      reads this
    {
      HaveSpans(hitObjects) && |hitObjects| == |hitSounds|
    }

    /** The expansions of all objects, sorted by start time without changing the order of
        objects that start together, with their sounds. */
    method Convert()
      requires Valid()
      modifies this
      ensures |hitObjects| == |hitSounds| && isTaiko && isConvert
      ensures var all := Expansions(settings, old(hitObjects), old(hitSounds));
        Paired(hitObjects, hitSounds) == Arranged(all, StableOrder(Objects(all), |all|, ByStartTime))
    {
      ghost var objects, sounds := hitObjects, hitSounds;
      ghost var k := 0;
      var idx: nat := 0;
      StartsExpanding(settings, objects, sounds);
      hide *;
      while idx < |hitObjects|
        invariant Expanding(settings, objects, sounds, k, idx, hitObjects, hitSounds)
        decreases |objects| - k
      {
        SpansAt(settings, objects, sounds, k, idx, hitObjects, hitSounds);
        idx := ConvertAt(idx, objects, sounds, k);
        idx := idx + 1;
        k := k + 1;
      }
      AllExpanded(settings, objects, sounds, k, idx, hitObjects, hitSounds);
      SortInTandem();
      isTaiko, isConvert := true, true;
    }

    /** The match on the kind of the object at `idx`; returns where its expansion ends. */
    method ConvertAt(idx: nat, ghost objects: seq<HitObject>, ghost sounds: seq<Sound>, ghost k: nat) returns (last: nat)
      requires idx < |hitObjects| == |hitSounds|
      requires Expanding(settings, objects, sounds, k, idx, hitObjects, hitSounds)
      requires hitObjects[idx].kind.Slider? ==> hitObjects[idx].kind.spanCount > 0
      modifies this
      ensures Expanding(settings, objects, sounds, k + 1, last + 1, hitObjects, hitSounds)
    {
      hide *;
      last := idx;
      var obj, sound := hitObjects[idx], hitSounds[idx];
      ghost var os, ss := hitObjects, hitSounds;
      Unexpanded(settings, obj, sound);
      match obj.kind {
        case Circle =>
          Keeps(settings, objects, sounds, k, idx, os, ss);
        case Spinner(_) =>
          Keeps(settings, objects, sounds, k, idx, os, ss);
        case Slider(nodeSounds, _, _) =>
          var params := Params(settings, obj.startTime, obj.kind);
          if params.convert {
            var newObjects, newSounds := MakeHits(settings, obj, sound, params);
            Spliced(settings, objects, sounds, k, idx, os, ss, newObjects, newSounds);
            if |newObjects| >= 1 {
              hitObjects := hitObjects[..idx] + newObjects + hitObjects[idx + 1..];
              hitSounds := hitSounds[..idx] + newSounds + hitSounds[idx + 1..];
              last := idx + (|newObjects| - 1);
            } else {
              // the source removes the object and decrements `idx`
              assert false;
            }
          } else {
            Keeps(settings, objects, sounds, k, idx, os, ss);
          }
        case Hold(duration) =>
          BecomesSpinner(settings, objects, sounds, k, idx, os, ss);
          hitObjects := hitObjects[idx := obj.(kind := Spinner(duration))];
      }
    }

    /** What one tandem sorter does to both lists. */
    method SortInTandem()
      requires |hitObjects| == |hitSounds|
      modifies this
      ensures |hitObjects| == |hitSounds|
      ensures var all := old(Paired(hitObjects, hitSounds));
        Paired(hitObjects, hitSounds) == Arranged(all, StableOrder(Objects(all), |all|, ByStartTime))
    {
      var order := StableOrder(hitObjects, |hitObjects|, ByStartTime);
      ArrangedPairs(hitObjects, hitSounds, order);
      hitObjects, hitSounds := Arranged(hitObjects, order), Arranged(hitSounds, order);
    }
  }

  function ByStartTime(a: HitObject, b: HitObject): Ordering {
    if a.startTime < b.startTime then Less else if a.startTime > b.startTime then Greater else Equal
  }

  function Objects(pairs: seq<(HitObject, Sound)>): (o: seq<HitObject>)
    ensures |o| == |pairs|
  {
    seq(|pairs|, k requires 0 <= k < |pairs| => pairs[k].0)
  }

  lemma ArrangedPairs(objects: seq<HitObject>, sounds: seq<Sound>, order: seq<nat>)
    requires |objects| == |sounds| && forall k | 0 <= k < |order| :: order[k] < |objects|
    ensures Objects(Paired(objects, sounds)) == objects
    ensures Paired(Arranged(objects, order), Arranged(sounds, order)) == Arranged(Paired(objects, sounds), order)
  {}

  /** The converted map is in time order, and holds each object of the expansions, with its
      sound, as often as they do. */
  lemma ConvertedMap(all: seq<(HitObject, Sound)>)
    ensures var converted := Arranged(all, StableOrder(Objects(all), |all|, ByStartTime));
      SortedBy(Objects(converted), ByStartTime) && multiset(converted) == multiset(all)
  {
    hide *;
    var order := StableOrder(Objects(all), |all|, ByStartTime);
    ByStartTimeIsPreorder();
    StableOrderSorts(Objects(all), ByStartTime);
    StableOrderKeeps(Objects(all), |all|, ByStartTime, all);
    assert all[..|all|] == all;
    ArrangedObjects(all, order);
  }

  lemma ByStartTimeIsPreorder()
    ensures TotalPreorder(ByStartTime)
  {}

  lemma ArrangedObjects(all: seq<(HitObject, Sound)>, order: seq<nat>)
    requires forall k | 0 <= k < |order| :: order[k] < |all|
    ensures Objects(Arranged(all, order)) == Arranged(Objects(all), order)
  {}

  method MakeHits(s: Settings, obj: HitObject, sound: Sound, params: SliderParams)
      returns (newObjects: seq<HitObject>, newSounds: seq<Sound>)
    requires obj.kind.Slider? && obj.kind.spanCount > 0
    requires params == Params(s, obj.startTime, obj.kind) && params.convert
    ensures |newObjects| == |newSounds| > 0 && Paired(newObjects, newSounds) == Expansion(s, obj, sound)
  {
    IsTicks(s, obj, sound);
    hide *;
    var nodeSounds, spacing := obj.kind.nodeSounds, params.tickSpacing;
    var end := TicksEnd(obj.startTime, params);
    var i: nat, j := 0, obj.startTime;
    newObjects, newSounds := [], [];
    ghost var rest := Ticks(nodeSounds, sound, j, i, end, spacing);
    NothingPaired(rest);
    while j <= end
      invariant |newObjects| == |newSounds|
      invariant rest == Ticks(nodeSounds, sound, j, i, end, spacing)
      invariant Paired(newObjects, newSounds) + rest == Expansion(s, obj, sound)
      decreases TicksLeft(j, end)
    {
      TicksStep(nodeSounds, sound, j, i, end, spacing);
      var h, tick := Hit(j), TickSound(nodeSounds, sound, i);
      rest := rest[1..];
      PairedOneMore(newObjects, newSounds, h, tick, rest);
      newObjects := newObjects + [h];
      newSounds := newSounds + [tick];
      if spacing < Epsilon {
        break;
      }
      OneTickLess(j, end, spacing);
      j := j + spacing;
      i := (i + 1) % EdgeSoundCount(nodeSounds);
    }
    if rest != [] {
      NoTicks(nodeSounds, sound, j, i, end, spacing);
      assert false;
    }
  }

  lemma IsTicks(s: Settings, obj: HitObject, sound: Sound)
    requires obj.kind.Slider? && obj.kind.spanCount > 0 && Params(s, obj.startTime, obj.kind).convert
    ensures var p := Params(s, obj.startTime, obj.kind);
      && p.tickSpacing > 0.0
      && Expansion(s, obj, sound) == Ticks(obj.kind.nodeSounds, sound, obj.startTime, 0, TicksEnd(obj.startTime, p), p.tickSpacing)
      && Expansion(s, obj, sound) != []
  {
    NeverEmpty(s, obj, sound);
  }

  lemma TicksStep(nodeSounds: seq<Sound>, sound: Sound, j: real, i: nat, end: real, spacing: real)
    requires spacing > 0.0 && j <= end
    ensures Ticks(nodeSounds, sound, j, i, end, spacing) ==
      [(Hit(j), TickSound(nodeSounds, sound, i))] + Ticks(nodeSounds, sound, j, i, end, spacing)[1..]
    ensures Ticks(nodeSounds, sound, j, i, end, spacing)[1..] ==
      if spacing < Epsilon then []
      else Ticks(nodeSounds, sound, j + spacing, (i + 1) % EdgeSoundCount(nodeSounds), end, spacing)
  {
    hide EdgeSoundCount, TickSound, Hit;
  }

  lemma NoTicks(nodeSounds: seq<Sound>, sound: Sound, j: real, i: nat, end: real, spacing: real)
    requires spacing > 0.0 && j > end
    ensures Ticks(nodeSounds, sound, j, i, end, spacing) == []
  {}

  lemma NothingPaired(rest: seq<(HitObject, Sound)>)
    ensures Paired([], []) + rest == rest
  {}

  lemma PairedOneMore(objects: seq<HitObject>, sounds: seq<Sound>, h: HitObject, sound: Sound, rest: seq<(HitObject, Sound)>)
    requires |objects| == |sounds|
    ensures Paired(objects + [h], sounds + [sound]) + rest == Paired(objects, sounds) + ([(h, sound)] + rest)
  {
    PairedAppend(objects, [h], sounds, [sound]);
    assert Paired([h], [sound]) == [(h, sound)];
  }

  lemma StartsExpanding(s: Settings, objects: seq<HitObject>, sounds: seq<Sound>)
    requires HaveSpans(objects) && |sounds| == |objects|
    ensures Expanding(s, objects, sounds, 0, 0, objects, sounds)
  {}

  lemma SpansAt(s: Settings, objects: seq<HitObject>, sounds: seq<Sound>, k: nat, idx: nat,
                hitObjects: seq<HitObject>, hitSounds: seq<Sound>)
    requires Expanding(s, objects, sounds, k, idx, hitObjects, hitSounds) && idx < |hitObjects|
    ensures k < |objects| && |hitSounds| == |hitObjects|
    ensures hitObjects[idx].kind.Slider? ==> hitObjects[idx].kind.spanCount > 0
  {
    assert hitObjects[idx..][0] == objects[k..][0];
  }

  lemma Unexpanded(s: Settings, obj: HitObject, sound: Sound)
    requires obj.kind.Slider? ==> obj.kind.spanCount > 0
    ensures obj.kind.Circle? || obj.kind.Spinner? ==> Expansion(s, obj, sound) == [(obj, sound)]
    ensures obj.kind.Slider? && !Params(s, obj.startTime, obj.kind).convert ==> Expansion(s, obj, sound) == [(obj, sound)]
  {}

  lemma Keeps(s: Settings, objects: seq<HitObject>, sounds: seq<Sound>, k: nat, idx: nat,
              hitObjects: seq<HitObject>, hitSounds: seq<Sound>)
    requires Expanding(s, objects, sounds, k, idx, hitObjects, hitSounds) && idx < |hitObjects| == |hitSounds|
    requires hitObjects[idx].kind.Slider? ==> hitObjects[idx].kind.spanCount > 0
    requires Expansion(s, hitObjects[idx], hitSounds[idx]) == [(hitObjects[idx], hitSounds[idx])]
    ensures Expanding(s, objects, sounds, k + 1, idx + 1, hitObjects, hitSounds)
  {
    hide Expanding, Expansion;
    var o, t := [hitObjects[idx]], [hitSounds[idx]];
    assert Paired(o, t) == [(hitObjects[idx], hitSounds[idx])];
    Spliced(s, objects, sounds, k, idx, hitObjects, hitSounds, o, t);
    assert hitObjects[..idx] + o + hitObjects[idx + 1..] == hitObjects;
    assert hitSounds[..idx] + t + hitSounds[idx + 1..] == hitSounds;
  }

  lemma BecomesSpinner(s: Settings, objects: seq<HitObject>, sounds: seq<Sound>, k: nat, idx: nat,
                       hitObjects: seq<HitObject>, hitSounds: seq<Sound>)
    requires Expanding(s, objects, sounds, k, idx, hitObjects, hitSounds) && idx < |hitObjects| == |hitSounds|
    requires hitObjects[idx].kind.Hold?
    ensures Expanding(s, objects, sounds, k + 1, idx + 1,
              hitObjects[idx := hitObjects[idx].(kind := Spinner(hitObjects[idx].kind.holdDuration))], hitSounds)
  {
    var spinner := hitObjects[idx].(kind := Spinner(hitObjects[idx].kind.holdDuration));
    assert Paired([spinner], [hitSounds[idx]]) == [(spinner, hitSounds[idx])];
    hide Expanding;
    Spliced(s, objects, sounds, k, idx, hitObjects, hitSounds, [spinner], [hitSounds[idx]]);
    assert hitObjects[..idx] + [spinner] + hitObjects[idx + 1..] == hitObjects[idx := spinner];
    assert hitSounds[..idx] + [hitSounds[idx]] + hitSounds[idx + 1..] == hitSounds;
  }

  lemma AllExpanded(s: Settings, objects: seq<HitObject>, sounds: seq<Sound>, k: nat, idx: nat,
                    hitObjects: seq<HitObject>, hitSounds: seq<Sound>)
    requires Expanding(s, objects, sounds, k, idx, hitObjects, hitSounds) && idx >= |hitObjects|
    ensures HaveSpans(objects) && |sounds| == |objects| && |hitObjects| == |hitSounds|
    ensures Paired(hitObjects, hitSounds) == Expansions(s, objects, sounds)
  {
    assert objects[..k] == objects && sounds[..k] == sounds;
    assert hitObjects[..idx] == hitObjects && hitSounds[..idx] == hitSounds;
  }
}

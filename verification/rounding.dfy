/** Number helpers shared by the hit-result generators: the saturating and truncating
    `u32` operations of the source, its comparison of floats, and the fact every
    search rests on: rounding a real target down and up and clamping both to the
    legal range leaves a nearest legal integer in between. */
module Rounding {

  function Min(a: int, b: int): int {
    if a <= b then a else b
  }

  function Max(a: int, b: int): int {
    if a <= b then b else a
  }

  function SatSub(a: nat, b: nat): nat {
    if a <= b then 0 else a - b
  }

  function Abs(x: real): real {
    if x < 0.0 then -x else x
  }

  function RealMin(x: real, y: real): real {
    if x <= y then x else y
  }

  function RealMax(x: real, y: real): real {
    if x >= y then x else y
  }

  /** `f64::EPSILON`, the distance from 1 to the next greater `f64`. */
  const Epsilon := 1.0 / 4503599627370496.0

  function Ceil(x: real): int {
    -(-x).Floor
  }

  /** `x.floor() as u32` */
  function FloorU32(x: real): nat {
    Max(0, x.Floor)
  }

  /** `x.ceil() as u32` */
  function CeilU32(x: real): nat {
    Max(0, Ceil(x))
  }

  /** Everything a distance can be compared against: the infinite start value, a
      quotient with denominator zero, or a number. */
  datatype Float = Infinite | NotANumber | Finite(value: real)

  /** `a < b` on floats: false as soon as one side is not a number. */
  predicate Less(a: Float, b: Float) {
    match (a, b)
    case (Finite(x), Finite(y)) => x < y
    case (Finite(_), Infinite) => true
    case _ => false
  }

  /** `a / b` of two non-negative `u32` converted to floats; zero over zero is not a number. */
  function Quotient(a: nat, b: nat): Float {
    if b == 0 then NotANumber else Finite(Ratio(a as real, b as real))
  }

  function Distance(acc: real, value: Float): Float {
    if value.Finite? then Finite(Abs(acc - value.value)) else value
  }

  /** What the two roundings mean next to an integer. */
  lemma RoundingBounds(u: real, x: nat)
    ensures x as real <= u ==> x <= FloorU32(u)
    ensures u <= x as real ==> CeilU32(u) <= x
    ensures 0.0 <= u ==> FloorU32(u) as real <= u < FloorU32(u) as real + 1.0
    ensures u <= CeilU32(u) as real < Abs(u) + 1.0
    ensures 0.0 <= u ==> CeilU32(u) <= FloorU32(u) + 1
    ensures u < 0.0 ==> FloorU32(u) == CeilU32(u) == 0
    ensures FloorU32(u) <= CeilU32(u)
  {
    var f, c := u.Floor, -(-u).Floor;
    assert f as real <= u < f as real + 1.0;
    assert c as real - 1.0 < u <= c as real;
  }

  /** Any legal `x` is beaten or matched by an integer of the searched range. */
  lemma NearestInClampedRange(u: real, p: nat, cap: nat, x: nat) returns (y: nat)
    requires p <= x <= cap
    ensures Max(Min(FloorU32(u), cap), p) <= y <= Max(Min(CeilU32(u), cap), p)
    ensures p <= y <= cap
    ensures Abs(u - y as real) <= Abs(u - x as real)
  {
    RoundingBounds(u, x);
    if x as real <= u {
      y := Max(Min(FloorU32(u), cap), p);
      assert x <= y && y as real <= u;
    } else {
      y := Max(Min(CeilU32(u), cap), p);
      assert y <= x;
      if y == p {
      } else {
        assert u <= y as real;
      }
    }
  }

  lemma NonNegativeProduct(a: real, b: real)
    requires a >= 0.0 && b >= 0.0
    ensures a * b >= 0.0
  {}

  lemma PositiveProduct(a: real, b: real)
    requires a > 0.0 && b > 0.0
    ensures a * b > 0.0
  {}

  lemma ProductOfDifference(a: real, b: real, d: real)
    ensures (a - b) * d == a * d - b * d
  {}

  lemma StrictScale(x: real, y: real, d: real)
    requires d > 0.0 && x < y
    ensures x * d < y * d
  {
    PositiveProduct(y - x, d);
    ProductOfDifference(y, x, d);
  }

  lemma Scale(x: real, y: real, d: real)
    requires d >= 0.0 && x <= y
    ensures x * d <= y * d
  {
    NonNegativeProduct(y - x, d);
    ProductOfDifference(y, x, d);
  }

  /** Scaling the distance to a quotient `q == score / denominator` by the denominator. */
  lemma ScaledDistance(acc: real, q: real, score: real, denominator: real)
    requires denominator > 0.0 && q * denominator == score
    ensures Abs(acc - q) * denominator == Abs(acc * denominator - score)
  {
    ProductOfDifference(acc, q, denominator);
    if acc < q {
      ProductOfDifference(q, acc, denominator);
      PositiveProduct(q - acc, denominator);
    } else {
      NonNegativeProduct(acc - q, denominator);
    }
  }

  /** With a common positive denominator, being nearer in score is being nearer in accuracy. */
  lemma NearerScore(acc: real, q1: real, q2: real, s1: real, s2: real, denominator: real)
    requires denominator > 0.0 && q1 * denominator == s1 && q2 * denominator == s2
    requires Abs(acc * denominator - s1) <= Abs(acc * denominator - s2)
    ensures Abs(acc - q1) <= Abs(acc - q2)
  {
    ScaledDistance(acc, q1, s1, denominator);
    ScaledDistance(acc, q2, s2, denominator);
    if Abs(acc - q2) < Abs(acc - q1) {
      StrictScale(Abs(acc - q2), Abs(acc - q1), denominator);
    }
  }

  /** The score out of `maxScore` that would be worth exactly `acc`. */
  function TargetScore(acc: real, maxScore: nat): real {
    acc * maxScore as real
  }

  function Ratio(a: real, b: real): real
    requires b != 0.0
  {
    a / b
  }

  lemma RatioTimes(a: real, b: real)
    requires b != 0.0
    ensures Ratio(a, b) * b == a
  {}

  lemma NearerRatio(acc: real, s1: real, s2: real, d: real)
    requires d > 0.0 && Abs(acc * d - s1) <= Abs(acc * d - s2)
    ensures Abs(acc - Ratio(s1, d)) <= Abs(acc - Ratio(s2, d))
  {
    hide *;
    RatioTimes(s1, d);
    RatioTimes(s2, d);
    NearerScore(acc, Ratio(s1, d), Ratio(s2, d), s1, s2, d);
  }

  /** The score nearer to the target has the nearer quotient. */
  lemma NearerQuotient(acc: real, d: nat, s1: nat, s2: nat)
    requires Abs(TargetScore(acc, d) - s1 as real) <= Abs(TargetScore(acc, d) - s2 as real)
    ensures !Less(Distance(acc, Quotient(s2, d)), Distance(acc, Quotient(s1, d)))
  {
    hide Ratio;
    if d > 0 {
      NearerRatio(acc, s1 as real, s2 as real, d as real);
    }
  }

  /** A quotient that is zero instead of not a number when there is nothing to divide by. */
  function QuotientOrZero(a: nat, b: nat): real {
    if b == 0 then 0.0 else Ratio(a as real, b as real)
  }

  lemma NearerQuotientOrZero(acc: real, d: nat, s1: nat, s2: nat)
    requires Abs(TargetScore(acc, d) - s1 as real) <= Abs(TargetScore(acc, d) - s2 as real)
    ensures Abs(acc - QuotientOrZero(s1, d)) <= Abs(acc - QuotientOrZero(s2, d))
  {
    hide Ratio;
    if d > 0 {
      NearerRatio(acc, s1 as real, s2 as real, d as real);
    }
  }

  /** Distances under an increasing affine map grow with its slope. */
  lemma DistanceOnSlope(k: real, u: real, c: real, x: real)
    requires k > 0.0
    ensures Abs(k * u + c - (k * x + c)) == Abs(u - x) * k
  {
    ScaledDistance(u, x, x * k, k);
    Commutes(u, k);
    Commutes(x, k);
  }

  lemma Commutes(a: real, b: real)
    ensures a * b == b * a
  {}

  /** Nearer to `u` means nearer to its image under such a map. */
  lemma SlopeDistance(k: real, u: real, c: real, x: real, y: real)
    requires k > 0.0 && Abs(u - y) <= Abs(u - x)
    ensures Abs(k * u + c - (k * y + c)) <= Abs(k * u + c - (k * x + c))
  {
    hide *;
    DistanceOnSlope(k, u, c, x);
    DistanceOnSlope(k, u, c, y);
    Scale(Abs(u - y), Abs(u - x), k);
  }
}

/** Optional inputs and the choice of hit-result priority, shared by all modes. */
module HitResults {
  import opened Rounding
  import opened Wrappers

  datatype Priority = BestCase | WorstCase

  /** `o.map_or(0, |n| cmp::min(n, cap))` */
  function Clamped(o: Option<nat>, cap: nat): nat {
    if o.Some? then Min(o.value, cap) else 0
  }

  lemma ClampedToZero(o: Option<nat>)
    ensures Clamped(o, 0) == 0
  {}

  function ValueOr0(o: Option<nat>): nat {
    if o.Some? then o.value else 0
  }

  /** `r` is what `o` gives, but at most `cap`; without it, it is `other`. */
  predicate IsUpTo(r: nat, o: Option<nat>, cap: nat, other: nat) {
    match o
    case None => r == other
    case Some(n) => r <= n && r <= cap && (r == n || r == cap)
  }

  /** A count is the given one if there is one. */
  predicate Agrees(o: Option<nat>, n: nat) {
    o.Some? ==> n == o.value
  }

  /** A given count is kept (clamped to what is left), an unknown one is free. */
  predicate Keeps(o: Option<nat>, cap: nat, n: nat) {
    o.Some? ==> n == Clamped(o, cap)
  }

  /** Adding nothing: a given count is kept and an unknown one stays zero. */
  predicate AddsNothing(o: Option<nat>, cap: nat, n: nat) {
    n == Clamped(o, cap)
  }
}

/** The distance arithmetic of `game/projectile.py` without square roots: a
    distance `d = |a - b|` is only ever compared with a radius or scaled into a
    damage fall-off, and both can be decided from `d * d` alone. */
module Splash {
  import opened Vectors

  const SplashRadius: real := 15.0

  /** `(a - b).length() < r`, decided on the squared distance. */
  predicate Within(a: Vec3, b: Vec3, r: real) {
    DistSq(a, b) < r * r
  }

  /** For the true distance `d`, `Within` is exactly `d < r`. */
  lemma WithinIsDistance(a: Vec3, b: Vec3, r: real, d: real)
    requires r >= 0.0 && d >= 0.0 && d * d == DistSq(a, b)
    ensures Within(a, b, r) <==> d < r
  {
    SquareMonotone(d, r);
  }

  /** The source's fall-off `damage * 0.5 * (1 - d / 15)` before truncation. */
  function Falloff(damage: nat, d: real): real {
    (damage as real) * 0.5 * (1.0 - d / SplashRadius)
  }

  /** Whether `j <= Falloff(damage, d)`, written with `d * d` only. */
  predicate Fits(damage: nat, distSq: real, j: int) {
    var big := 15.0 * (damage as real) - 30.0 * (j as real);
    big >= 0.0 && (damage as real) * (damage as real) * distSq <= big * big
  }

  /** The largest `j` in `1..top` that fits, or 0 when none does. */
  function Search(damage: nat, distSq: real, top: int): (j: int)
    ensures 0 <= j && (top >= 0 ==> j <= top)
    ensures j > 0 ==> Fits(damage, distSq, j)
    decreases top
  {
    if top <= 0 then 0
    else if Fits(damage, distSq, top) then top
    else Search(damage, distSq, top - 1)
  }

  /** `int(splash_damage * damage_mult)` for a target at squared distance
      `distSq`; the splash is applied only when this is positive. */
  function SplashDamage(damage: nat, distSq: real): (amount: int)
    ensures 0 <= amount <= damage / 2
  {
    Search(damage, distSq, damage / 2)
  }

  lemma ScaledFalloff(damage: nat, d: real)
    ensures 30.0 * Falloff(damage, d) == 15.0 * (damage as real) - (damage as real) * d
  {
    var D := damage as real;
    assert D * 0.5 * (1.0 - d / 15.0) == D * 0.5 - D * (d / 15.0) * 0.5;
    assert D * (d / 15.0) * 15.0 == D * d;
  }

  lemma SquareOfProduct(x: real, y: real)
    ensures x * x * (y * y) == (x * y) * (x * y)
  {
  }

  /** `Fits` is exactly "`j` is at most the fall-off". */
  lemma FitsIsBelowFalloff(damage: nat, d: real, j: int)
    requires d >= 0.0
    ensures Fits(damage, d * d, j) <==> (j as real) <= Falloff(damage, d)
  {
    var D := damage as real;
    var big := 15.0 * D - 30.0 * (j as real);
    ScaledFalloff(damage, d);
    ProductBounds0(D, d);
    if big >= 0.0 {
      SquareOfProduct(D, d);
      SquareMonotone(D * d, big);
    }
  }

  lemma ProductBounds0(x: real, y: real)
    requires y >= 0.0
    ensures x >= 0.0 ==> x * y >= 0.0
  {
  }

  lemma {:induction false} SearchFindsFloor(damage: nat, d: real, top: int, f: int)
    requires d >= 0.0 && f == Falloff(damage, d).Floor && 0 <= f <= top
    ensures Search(damage, d * d, top) == f
    decreases top
  {
    if top > 0 {
      FitsIsBelowFalloff(damage, d, top);
      if top != f {
        SearchFindsFloor(damage, d, top - 1, f);
      }
    }
  }

  /** Within the splash radius the computed splash damage is the source's
      truncated fall-off `int(damage * 0.5 * (1 - d / 15))`, for the true
      distance `d`. */
  lemma SplashDamageIsTruncatedFalloff(damage: nat, d: real)
    requires 0.0 <= d < SplashRadius
    ensures SplashDamage(damage, d * d) == Falloff(damage, d).Floor
  {
    var D := damage as real;
    var v := Falloff(damage, d);
    ScaledFalloff(damage, d);
    ProductBounds0(D, d);
    MulMonotone(D, d, 15.0);
    assert 0.0 <= v;
    assert v <= D / 2.0;
    var f := v.Floor;
    assert 2 * f <= damage;
    SearchFindsFloor(damage, d, damage / 2, f);
  }

  /** Splash damage never increases with distance. */
  lemma {:induction false} SplashDamageMonotone(damage: nat, d1: real, d2: real)
    requires 0.0 <= d1 <= d2 < SplashRadius
    ensures SplashDamage(damage, d2 * d2) <= SplashDamage(damage, d1 * d1)
  {
    SplashDamageIsTruncatedFalloff(damage, d1);
    SplashDamageIsTruncatedFalloff(damage, d2);
    FalloffMonotone(damage, d1, d2);
    FloorMonotone(Falloff(damage, d2), Falloff(damage, d1));
  }

  lemma FalloffMonotone(damage: nat, d1: real, d2: real)
    requires d1 <= d2
    ensures Falloff(damage, d2) <= Falloff(damage, d1)
  {
    ScaledFalloff(damage, d1);
    ScaledFalloff(damage, d2);
    MulMonotone(damage as real, d1, d2);
  }

  lemma FloorMonotone(a: real, b: real)
    requires a <= b
    ensures a.Floor <= b.Floor
  {
    assert a.Floor as real <= a && b < b.Floor as real + 1.0;
  }

  lemma MulMonotone(x: real, y1: real, y2: real)
    requires x >= 0.0 && y1 <= y2
    ensures x * y1 <= x * y2
  {
    ProductBounds0(x, y2 - y1);
    assert x * (y2 - y1) == x * y2 - x * y1;
  }
}

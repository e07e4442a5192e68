/** Three-component positions, directions and velocities over the reals, and the
    engine's scalar `clamp`. Floating point is idealised as `real`. */
module Vectors {

  datatype Vec3 = Vec3(x: real, y: real, z: real)

  const Zero: Vec3 := Vec3(0.0, 0.0, 0.0)

  function Add(a: Vec3, b: Vec3): Vec3 {
    Vec3(a.x + b.x, a.y + b.y, a.z + b.z)
  }

  function Sub(a: Vec3, b: Vec3): Vec3 {
    Vec3(a.x - b.x, a.y - b.y, a.z - b.z)
  }

  function Scale(a: Vec3, k: real): Vec3 {
    Vec3(a.x * k, a.y * k, a.z * k)
  }

  /** The engine's `lerp(a, b, t)`: `a + (b - a) * t`. */
  function LerpReal(a: real, b: real, t: real): real {
    a + (b - a) * t
  }

  function Lerp(a: Vec3, b: Vec3, t: real): Vec3 {
    Vec3(LerpReal(a.x, b.x, t), LerpReal(a.y, b.y, t), LerpReal(a.z, b.z, t))
  }

  /** A blend factor in `[0, 1]` lands between the end points, and leaves the
      fraction `1 - t` of the distance to `b`. */
  lemma LerpBetween(a: real, b: real, t: real)
    requires 0.0 <= t <= 1.0
    ensures a <= b ==> a <= LerpReal(a, b, t) <= b
    ensures b <= a ==> b <= LerpReal(a, b, t) <= a
    ensures b - LerpReal(a, b, t) == (b - a) * (1.0 - t)
  {
    if a <= b {
      LerpUp(a, b, t);
    }
    if b <= a {
      LerpDown(a, b, t);
    }
    Distribute(b - a, t);
  }

  lemma LerpUp(a: real, b: real, t: real)
    requires 0.0 <= t <= 1.0 && a <= b
    ensures a <= LerpReal(a, b, t) <= b
  {
    var d := b - a;
    ProductBounds(d, t);
    assert LerpReal(a, b, t) == a + d * t;
  }

  lemma LerpDown(a: real, b: real, t: real)
    requires 0.0 <= t <= 1.0 && b <= a
    ensures b <= LerpReal(a, b, t) <= a
  {
    var d := a - b;
    ProductBounds(d, t);
    assert LerpReal(a, b, t) == a - d * t;
  }

  lemma Distribute(d: real, t: real)
    ensures d * (1.0 - t) == d - d * t
  {
  }

  lemma ProductBounds(d: real, t: real)
    requires d >= 0.0 && 0.0 <= t <= 1.0
    ensures 0.0 <= d * t <= d
  {
    Distribute(d, t);
    if d > 0.0 && t < 1.0 {
      ProductPositive(d, 1.0 - t);
    }
    if d > 0.0 && t > 0.0 {
      ProductPositive(d, t);
    }
  }

  function Sq(r: real): (s: real)
    ensures s >= 0.0
  {
    r * r
  }

  /** The squared Euclidean length of `a - b`: comparing it with a squared radius
      avoids the square root of `(a - b).length()`. */
  function DistSq(a: Vec3, b: Vec3): (r: real)
    ensures r >= 0.0
  {
    Sq(a.x - b.x) + Sq(a.y - b.y) + Sq(a.z - b.z)
  }

  function Abs(r: real): (a: real)
    ensures a >= 0.0
    ensures a == r || a == -r
  {
    if r < 0.0 then -r else r
  }

  /** The engine's `clamp(value, floor, ceiling)`, that is
      `max(min(value, ceiling), floor)`. */
  function Clamp(v: real, lo: real, hi: real): (r: real)
    ensures lo <= hi ==> lo <= r <= hi
    ensures lo <= v <= hi ==> r == v
    ensures lo <= hi && v < lo ==> r == lo
    ensures lo <= hi && hi < v ==> r == hi
  {
    var m := if v < hi then v else hi;
    if m < lo then lo else m
  }

  /** Clamping twice with the same bounds is clamping once, whatever the bounds
      (when `lo > hi` both give `lo`). */
  lemma ClampIdempotent(v: real, lo: real, hi: real)
    ensures Clamp(Clamp(v, lo, hi), lo, hi) == Clamp(v, lo, hi)
  {
  }

  /** For non-negative reals, comparing squares is comparing the numbers. */
  lemma SquareMonotone(a: real, b: real)
    requires a >= 0.0 && b >= 0.0
    ensures a * a <= b * b <==> a <= b
    ensures a * a < b * b <==> a < b
  {
    if a < b {
      SquareLess(a, b);
    } else if b < a {
      SquareLess(b, a);
    }
  }

  lemma SquareLess(a: real, b: real)
    requires 0.0 <= a < b
    ensures a * a < b * b
  {
    ProductPositive(b - a, b + a);
    assert (b - a) * (b + a) == b * b - a * a;
  }

  lemma ProductPositive(x: real, y: real)
    requires x > 0.0 && y > 0.0
    ensures x * y > 0.0
  {
  }
}

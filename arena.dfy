/** The arena's bounds arithmetic (`game/arena.py`): half sizes, clamping a
    position inside the walls and the strict inside test. */
module Arenas {
  import opened Vectors

  /** The constructor's default size and the size the game creates. */
  const DefaultSize: Vec3 := Vec3(120.0, 60.0, 120.0)
  const GameSize: Vec3 := Vec3(200.0, 80.0, 200.0)

  /** Clamp every coordinate of `p` into `[-h + margin, h - margin]` on its axis.
      Shared by `Arena.clamp_position` and `Bot._clamp_to_bounds`. */
  function ClampBox(half: Vec3, p: Vec3, margin: real): Vec3 {
    Vec3(Clamp(p.x, -half.x + margin, half.x - margin),
         Clamp(p.y, -half.y + margin, half.y - margin),
         Clamp(p.z, -half.z + margin, half.z - margin))
  }

  /** Every coordinate lies within `[-h + m, h - m]` on its axis. */
  ghost predicate WithinBox(half: Vec3, p: Vec3, margin: real) {
    && -half.x + margin <= p.x <= half.x - margin
    && -half.y + margin <= p.y <= half.y - margin
    && -half.z + margin <= p.z <= half.z - margin
  }

  datatype Arena = Arena(size: Vec3) {

    /** `size / 2` on each axis. */
    function HalfSize(): (h: Vec3)
      ensures h.x * 2.0 == size.x && h.y * 2.0 == size.y && h.z * 2.0 == size.z
    {
      Vec3(size.x / 2.0, size.y / 2.0, size.z / 2.0)
    }

    /** The bounds handed to collision checks: the half sizes. */
    function GetBounds(): (b: Vec3)
      ensures b.x * 2.0 == size.x && b.y * 2.0 == size.y && b.z * 2.0 == size.z
    {
      HalfSize()
    }

    /** `clamp_position`: a coordinate already between its two shrunk walls
        stays, and any other is moved onto one of them. */
    function ClampPosition(p: Vec3, margin: real): (r: Vec3)
      ensures var h := HalfSize(); -h.x + margin <= p.x <= h.x - margin ==> r.x == p.x
      ensures var h := HalfSize(); -h.y + margin <= p.y <= h.y - margin ==> r.y == p.y
      ensures var h := HalfSize(); -h.z + margin <= p.z <= h.z - margin ==> r.z == p.z
      ensures var h := HalfSize(); r.x == p.x || r.x == -h.x + margin || r.x == h.x - margin
      ensures var h := HalfSize(); r.y == p.y || r.y == -h.y + margin || r.y == h.y - margin
      ensures var h := HalfSize(); r.z == p.z || r.z == -h.z + margin || r.z == h.z - margin
    {
      ClampBox(HalfSize(), p, margin)
    }

    /** `is_inside`: `abs(c) < h - margin` on all three axes, which leaves room
        only when the margin is below every half size. */
    predicate IsInside(p: Vec3, margin: real): (b: bool)
      ensures b ==> margin < HalfSize().x && margin < HalfSize().y && margin < HalfSize().z
      ensures b ==> -HalfSize().x + margin < p.x < HalfSize().x - margin
      ensures b ==> -HalfSize().y + margin < p.y < HalfSize().y - margin
      ensures b ==> -HalfSize().z + margin < p.z < HalfSize().z - margin
    {
      var h := HalfSize();
      Abs(p.x) < h.x - margin && Abs(p.y) < h.y - margin && Abs(p.z) < h.z - margin
    }
  }

  /** With a margin no larger than any half size, the clamped position lies in the
      margin-shrunk box. */
  lemma ClampPositionWithinBounds(a: Arena, p: Vec3, margin: real)
    requires var h := a.HalfSize(); margin <= h.x && margin <= h.y && margin <= h.z
    ensures WithinBox(a.HalfSize(), a.ClampPosition(p, margin), margin)
  {
  }

  /** Clamping an already clamped position changes nothing. */
  lemma ClampPositionIdempotent(a: Arena, p: Vec3, margin: real)
    ensures a.ClampPosition(a.ClampPosition(p, margin), margin) == a.ClampPosition(p, margin)
  {
    var h := a.HalfSize();
    ClampIdempotent(p.x, -h.x + margin, h.x - margin);
    ClampIdempotent(p.y, -h.y + margin, h.y - margin);
    ClampIdempotent(p.z, -h.z + margin, h.z - margin);
  }

  /** A position inside the arena is left where it is by clamping with the same
      margin. */
  lemma InsideIsClampFixed(a: Arena, p: Vec3, margin: real)
    requires a.IsInside(p, margin)
    ensures a.ClampPosition(p, margin) == p
  {
  }

  /** The inside test is strict: a position on the shrunk boundary of any axis is
      not inside, while every inside position is within the shrunk box. */
  lemma InsideIsStrict(a: Arena, p: Vec3, margin: real)
    ensures a.IsInside(p, margin) ==> WithinBox(a.HalfSize(), p, margin)
    ensures Abs(p.x) == a.HalfSize().x - margin ==> !a.IsInside(p, margin)
    ensures Abs(p.y) == a.HalfSize().y - margin ==> !a.IsInside(p, margin)
    ensures Abs(p.z) == a.HalfSize().z - margin ==> !a.IsInside(p, margin)
  {
  }
}

/** Projectiles and their manager (`game/projectile.py`): one entity per shot
    that flies, notices obstacles and expires, and a manager that spawns them
    with per-weapon statistics and resolves hits against players, obstacles
    and the arena walls once per frame. */
module Projectiles {
  import opened Wrappers
  import opened Vectors
  import opened Dicts
  import opened Protocol
  import opened Players
  import opened Splash

  /** Per-weapon launch statistics chosen by `spawn`. */
  datatype Stats = Stats(speed: real, damage: nat, lifetime: real)

  function WeaponStats(weapon: string): (s: Stats)
    ensures weapon == "secondary" ==> s == Stats(120.0, 100, 4.0)
    ensures weapon == "spreadshot" ==> s == Stats(195.0, 8, 2.0)
    ensures weapon != "secondary" && weapon != "spreadshot" ==> s == Stats(700.0, 12, 1.5)
  {
    if weapon == "secondary" then Stats(120.0, 100, 4.0)
    else if weapon == "spreadshot" then Stats(195.0, 8, 2.0)
    else Stats(700.0, 12, 1.5)
  }

  /** `proj_radius`, the first component of the weapon's visual scale. */
  function ProjectileRadius(weapon: string): (r: real)
    ensures r > 0.0
  {
    if weapon == "secondary" then 0.5 else if weapon == "spreadshot" then 0.12 else 1.05
  }

  /** The radius within which a projectile hits a player. */
  function HitRadius(weapon: string): (r: real)
    ensures r > 0.0
  {
    if weapon == "secondary" then 2.0 else if weapon == "primary" then 4.5 else 1.5
  }

  /** An arena obstacle as a projectile sees it: an axis-aligned box. */
  datatype Obstacle = Obstacle(enabled: bool, worldPosition: Vec3, scale: Vec3)

  /** The point of the obstacle's box closest to `p`. */
  function ClosestPoint(o: Obstacle, p: Vec3): Vec3 {
    var c, h := o.worldPosition, Scale(o.scale, 0.5);
    Vec3(Clamp(p.x, c.x - h.x, c.x + h.x), Clamp(p.y, c.y - h.y, c.y + h.y), Clamp(p.z, c.z - h.z, c.z + h.z))
  }

  /** An enabled obstacle whose box is closer to `p` than `radius`. */
  predicate Touches(o: Obstacle, p: Vec3, radius: real): (b: bool)
    ensures b ==> o.enabled && radius != 0.0
  {
    o.enabled && DistSq(p, ClosestPoint(o, p)) < radius * radius
  }

  predicate HitsAnyObstacle(obstacles: seq<Obstacle>, p: Vec3, radius: real) {
    exists i | 0 <= i < |obstacles| :: Touches(obstacles[i], p, radius)
  }

  /** A point inside an enabled obstacle's box always touches it. */
  lemma InsideBoxTouches(o: Obstacle, p: Vec3, radius: real)
    requires o.enabled && radius > 0.0 && o.scale.x >= 0.0 && o.scale.y >= 0.0 && o.scale.z >= 0.0
    requires Abs(p.x - o.worldPosition.x) <= o.scale.x * 0.5
    requires Abs(p.y - o.worldPosition.y) <= o.scale.y * 0.5
    requires Abs(p.z - o.worldPosition.z) <= o.scale.z * 0.5
    ensures Touches(o, p, radius)
  {
    var c, h := o.worldPosition, Scale(o.scale, 0.5);
    assert Clamp(p.x, c.x - h.x, c.x + h.x) == p.x;
    assert Clamp(p.y, c.y - h.y, c.y + h.y) == p.y;
    assert Clamp(p.z, c.z - h.z, c.z + h.z) == p.z;
    assert ClosestPoint(o, p) == p;
    ZeroDistance(p);
    SquareMonotone(0.0, radius);
  }

  lemma ZeroDistance(p: Vec3)
    ensures DistSq(p, p) == 0.0
  {
  }

  /** A point at least `radius` away from the box along one axis never touches it. */
  lemma FarAlongXMisses(o: Obstacle, p: Vec3, radius: real)
    requires radius > 0.0 && o.scale.x >= 0.0
    requires p.x - o.worldPosition.x >= o.scale.x * 0.5 + radius
    ensures !Touches(o, p, radius)
  {
    var q := ClosestPoint(o, p);
    SquareMonotone(radius, p.x - q.x);
    assert Sq(p.x - q.x) >= radius * radius;
  }

  /** A disabled obstacle is skipped. */
  lemma DisabledNeverTouches(o: Obstacle, p: Vec3, radius: real)
    requires !o.enabled
    ensures !Touches(o, p, radius)
  {
  }

  /** One projectile entity. The owner is whatever id the spawner supplied
      (missing in a malformed network message). */
  class Projectile {
    const projectileId: int
    const ownerId: Option<int>
    const direction: Vec3
    const speed: real
    const damage: nat
    const lifetime: real
    const weapon: string
    const spawnTime: real
    const radius: real
    const obstacles: seq<Obstacle>
    var position: Vec3
    var active: bool
    var hitObstacle: bool
    var hitPosition: Option<Vec3>

    /** The radius follows the weapon, and an obstacle hit that the manager has
        not yet handled always carries its position. */
    ghost predicate Valid()
      reads this
    {
      && radius == ProjectileRadius(weapon)
      && (active && hitObstacle ==> hitPosition.Some?)
    }

    constructor (pos: Vec3, dir: Vec3, owner: Option<int>, id: int, spd: real, dmg: nat,
                 life: real, w: string, collidables: seq<Obstacle>, now: real)
      ensures Valid()
      ensures projectileId == id && ownerId == owner && direction == dir && speed == spd
      ensures damage == dmg && lifetime == life && weapon == w && spawnTime == now
      ensures obstacles == collidables && position == pos
      ensures active && !hitObstacle && hitPosition == None
    {
      projectileId, ownerId, direction, speed, damage, lifetime := id, owner, dir, spd, dmg, life;
      weapon, spawnTime, radius, obstacles := w, now, ProjectileRadius(w), collidables;
      position, active, hitObstacle, hitPosition := pos, true, false, None;
    }

    /** `_check_obstacle_collision`: whether any enabled obstacle is within the
        projectile's radius of its current position. */
    method CheckObstacleCollision() returns (hit: bool)
      ensures hit <==> HitsAnyObstacle(obstacles, position, radius)
    {
      var i := 0;
      while i < |obstacles|
        invariant 0 <= i <= |obstacles|
        invariant forall j | 0 <= j < i :: !Touches(obstacles[j], position, radius)
      {
        var o := obstacles[i];
        if o.enabled {
          var closest := ClosestPoint(o, position);
          var distSq := DistSq(position, closest);
          if distSq < radius * radius {
            assert Touches(obstacles[i], position, radius);
            return true;
          }
        }
        i := i + 1;
      }
      return false;
    }

    /** `despawn`: only an active projectile is affected; it becomes inactive
        and its obstacle flag takes the given value. */
    method Despawn(flagObstacle: bool)
      requires Valid()
      modifies this`active, this`hitObstacle
      ensures Valid() && !active
      ensures hitObstacle == if old(active) then flagObstacle else old(hitObstacle)
    {
      if !active {
        return;
      }
      active := false;
      hitObstacle := flagObstacle;
    }

    /** `update`: an inactive projectile stays put; an active one advances by
        `direction * speed * dt`, then either records an obstacle hit (and
        stays active for the manager to collect) or expires once older than
        its lifetime. */
    method Update(dt: real, now: real)
      requires Valid()
      modifies this`position, this`active, this`hitObstacle, this`hitPosition
      ensures Valid()
      ensures !old(active) ==>
        position == old(position) && !active && hitObstacle == old(hitObstacle) && hitPosition == old(hitPosition)
      ensures old(active) ==> position == Add(old(position), Scale(direction, speed * dt))
      ensures old(active) && HitsAnyObstacle(obstacles, position, radius) ==>
        active && hitObstacle && hitPosition == Some(position)
      ensures old(active) && !HitsAnyObstacle(obstacles, position, radius) ==>
        && hitPosition == old(hitPosition)
        && (active <==> now - spawnTime <= lifetime)
        && hitObstacle == (if active then old(hitObstacle) else false)
    {
      if !active {
        return;
      }
      position := Add(position, Scale(direction, speed * dt));
      var hit := CheckObstacleCollision();
      if hit {
        hitObstacle := true;
        hitPosition := Some(position);
        return;
      }
      if now - spawnTime > lifetime {
        Despawn(false);
      }
    }

    /** `get_state`. */
    function GetState(): (d: ProjectileData)
      reads this
      ensures d.projectileId == Some(projectileId) && d.ownerId == ownerId && d.weapon == Some(weapon)
      ensures d.position == Some(position) && d.direction == Some(direction)
    {
      ProjectileData(Some(projectileId), ownerId, Some(position), Some(direction), Some(weapon))
    }
  }

  /** A player as collision checking sees it. */
  datatype Target = Target(id: int, position: Vec3, alive: bool)

  /** A projectile as collision checking sees it; `id` is its key in the
      manager's table. */
  datatype Shot = Shot(id: int, owner: Option<int>, weapon: string, damage: nat, position: Vec3,
                       active: bool, hitObstacle: bool, hitPosition: Option<Vec3>)
  {
    /** What `Projectile.Valid` guarantees of an un-handled obstacle hit. */
    predicate Consistent() {
      active && hitObstacle ==> hitPosition.Some?
    }
  }

  /** One entry of the `player_hits` list. */
  datatype Hit = Hit(projectileId: int, targetId: int, attackerId: Option<int>, damage: int,
                     weapon: string, position: Vec3)

  /** One entry of the `obstacle_hits` list. */
  datatype Impact = Impact(position: Vec3, weapon: string)

  /** What one projectile contributes to a collision pass. */
  datatype Resolution = Resolution(direct: Option<Hit>, splash: seq<Hit>, impact: Option<Impact>, remove: bool)
  {
    function Hits(): seq<Hit> {
      (if direct.Some? then [direct.value] else []) + splash
    }

    function Impacts(): seq<Impact> {
      if impact.Some? then [impact.value] else []
    }
  }

  /** A target the projectile can harm: not its owner and alive. */
  predicate Eligible(t: Target, owner: Option<int>) {
    Some(t.id) != owner && t.alive
  }

  /** A direct hit: an eligible target within the weapon's hit radius. */
  predicate Strikes(t: Target, s: Shot) {
    Eligible(t, s.owner) && Within(t.position, s.position, HitRadius(s.weapon))
  }

  /** The splash hits of an explosion at `center`, in player order: every
      eligible target other than `exclude` within the splash radius whose
      truncated fall-off damage is positive. */
  function SplashHits(projectileId: int, owner: Option<int>, exclude: Option<int>, center: Vec3,
                      damage: nat, ts: seq<Target>): (hs: seq<Hit>)
    ensures |hs| <= |ts|
    ensures forall h | h in hs :: h.projectileId == projectileId && h.attackerId == owner && h.position == center
  {
    if ts == [] then []
    else SplashOf(projectileId, owner, exclude, center, damage, ts[0])
         + SplashHits(projectileId, owner, exclude, center, damage, ts[1..])
  }

  /** The splash hit on one target, if it takes one. */
  function SplashOf(projectileId: int, owner: Option<int>, exclude: Option<int>, center: Vec3,
                    damage: nat, t: Target): seq<Hit>
  {
    if Some(t.id) != exclude && Eligible(t, owner) && Within(t.position, center, SplashRadius)
       && SplashDamage(damage, DistSq(t.position, center)) > 0
    then [Hit(projectileId, t.id, owner, SplashDamage(damage, DistSq(t.position, center)), "splash", center)]
    else []
  }

  /** Index of the first eligible target within the weapon's hit radius. */
  function FirstDirectHit(s: Shot, ts: seq<Target>): (r: Option<nat>)
    ensures r.Some? ==>
      r.value < |ts| && Strikes(ts[r.value], s)
    ensures r.Some? ==> forall j | 0 <= j < r.value ::
      !Strikes(ts[j], s)
    ensures r.None? ==> forall j | 0 <= j < |ts| ::
      !Strikes(ts[j], s)
  {
    if ts == [] then None
    else if Strikes(ts[0], s) then Some(0)
    else match FirstDirectHit(s, ts[1..])
      case None => None
      case Some(j) => Some(j + 1)
  }

  /** `abs(pos) > arena_bounds` on some axis. */
  predicate OutOfBounds(p: Vec3, bounds: Vec3) {
    Abs(p.x) > bounds.x || Abs(p.y) > bounds.y || Abs(p.z) > bounds.z
  }

  /** The body of the `check_collisions` loop for one projectile. */
  function Resolve(s: Shot, ts: seq<Target>, bounds: Vec3): (r: Resolution)
    requires s.Consistent()
    ensures !r.remove ==> r.direct.None? && r.splash == [] && r.impact.None?
    ensures r.impact.Some? ==> r.remove && r.direct.None?
    ensures r.direct.Some? ==> r.remove && r.direct.value.damage == s.damage && r.direct.value.attackerId == s.owner
  {
    if !s.active then Resolution(None, [], None, true)
    else if s.hitObstacle then
      var at := s.hitPosition.value;
      Resolution(None, if s.weapon == "secondary" then SplashHits(s.id, s.owner, None, at, s.damage, ts) else [],
                 Some(Impact(at, s.weapon)), true)
    else if OutOfBounds(s.position, bounds) then
      if s.weapon == "secondary" then
        Resolution(None, SplashHits(s.id, s.owner, None, s.position, s.damage, ts),
                   Some(Impact(s.position, s.weapon)), true)
      else Resolution(None, [], None, true)
    else match FirstDirectHit(s, ts)
      case None => Resolution(None, [], None, false)
      case Some(k) =>
        var t := ts[k];
        Resolution(Some(Hit(s.id, t.id, s.owner, s.damage, s.weapon, s.position)),
                   if s.weapon == "secondary" then SplashHits(s.id, s.owner, Some(t.id), s.position, s.damage, ts) else [],
                   None, true)
  }

  /** The whole pass: hits and impacts in projectile order, and the ids to remove. */
  datatype Outcome = Outcome(hits: seq<Hit>, impacts: seq<Impact>, removed: seq<int>)

  predicate AllConsistent(shots: seq<Shot>) {
    forall i | 0 <= i < |shots| :: shots[i].Consistent()
  }

  /** `check_collisions` over the projectiles in table order. */
  function Pass(shots: seq<Shot>, ts: seq<Target>, bounds: Vec3): (o: Outcome)
    requires AllConsistent(shots)
    ensures |o.removed| <= |shots| && |o.impacts| <= |o.removed|
    decreases |shots|
  {
    if shots == [] then Outcome([], [], [])
    else
      var o := Pass(shots[..|shots| - 1], ts, bounds);
      var last := shots[|shots| - 1];
      var r := Resolve(last, ts, bounds);
      Outcome(o.hits + r.Hits(), o.impacts + r.Impacts(), o.removed + (if r.remove then [last.id] else []))
  }

  // ---------------------------------------------------------------------------
  // Properties of one projectile's resolution

  /** Every splash hit is on an eligible target other than `exclude`, inside
      the splash radius, for a positive amount of at most half the damage, and
      is attributed to the projectile's owner. */
  lemma {:induction false} SplashHitsSound(projectileId: int, owner: Option<int>, exclude: Option<int>,
                                           center: Vec3, damage: nat, ts: seq<Target>)
    ensures forall h | h in SplashHits(projectileId, owner, exclude, center, damage, ts) ::
      && h.projectileId == projectileId && h.attackerId == owner && h.weapon == "splash"
      && Some(h.targetId) != exclude && Some(h.targetId) != owner
      && 0 < h.damage <= damage / 2 && h.position == center
      && exists t | t in ts :: t.id == h.targetId && t.alive && Within(t.position, center, SplashRadius)
  {
    if ts != [] {
      SplashHitsSound(projectileId, owner, exclude, center, damage, ts[1..]);
      forall h | h in SplashHits(projectileId, owner, exclude, center, damage, ts[1..])
        ensures exists t | t in ts :: t.id == h.targetId && t.alive && Within(t.position, center, SplashRadius)
      {
        var t :| t in ts[1..] && t.id == h.targetId && t.alive && Within(t.position, center, SplashRadius);
        assert t in ts;
      }
    }
  }

  /** Conversely, every eligible target other than `exclude` inside the radius
      with positive fall-off damage is splashed. */
  lemma {:induction false} SplashHitsComplete(projectileId: int, owner: Option<int>, exclude: Option<int>,
                                              center: Vec3, damage: nat, ts: seq<Target>, k: nat)
    requires k < |ts|
    requires Some(ts[k].id) != exclude && Eligible(ts[k], owner) && Within(ts[k].position, center, SplashRadius)
    requires SplashDamage(damage, DistSq(ts[k].position, center)) > 0
    ensures Hit(projectileId, ts[k].id, owner, SplashDamage(damage, DistSq(ts[k].position, center)), "splash", center)
      in SplashHits(projectileId, owner, exclude, center, damage, ts)
  {
    if k > 0 {
      SplashHitsComplete(projectileId, owner, exclude, center, damage, ts[1..], k - 1);
    }
  }

  /** A projectile never harms its owner or a dead player, a splash never
      strikes the player already hit directly, and only the secondary weapon
      splashes. */
  lemma ResolveSound(s: Shot, ts: seq<Target>, bounds: Vec3)
    requires s.Consistent()
    ensures var r := Resolve(s, ts, bounds);
      && (forall h | h in r.Hits() :: Some(h.targetId) != s.owner && h.attackerId == s.owner && h.projectileId == s.id
            && exists t | t in ts :: t.id == h.targetId && t.alive)
      && (r.splash != [] ==> s.weapon == "secondary")
      && (r.direct.Some? ==> forall h | h in r.splash :: h.targetId != r.direct.value.targetId)
      && (forall h | h in r.splash :: h.weapon == "splash" && 0 < h.damage <= s.damage / 2)
  {
    var r := Resolve(s, ts, bounds);
    if s.active && s.hitObstacle {
      SplashHitsSound(s.id, s.owner, None, s.hitPosition.value, s.damage, ts);
    } else if s.active {
      SplashHitsSound(s.id, s.owner, None, s.position, s.damage, ts);
      var k := FirstDirectHit(s, ts);
      if k.Some? && !OutOfBounds(s.position, bounds) {
        var t := ts[k.value];
        SplashHitsSound(s.id, s.owner, Some(t.id), s.position, s.damage, ts);
        assert r.direct.value.targetId == t.id;
        assert t in ts;
      }
    }
  }

  /** A projectile stays in the table exactly when it is active, has not hit an
      obstacle, is inside the arena and reaches no eligible player. */
  lemma ResolveKeeps(s: Shot, ts: seq<Target>, bounds: Vec3)
    requires s.Consistent()
    ensures !Resolve(s, ts, bounds).remove <==>
      && s.active && !s.hitObstacle && !OutOfBounds(s.position, bounds)
      && forall t | t in ts :: !Strikes(t, s)
  {
    var k := FirstDirectHit(s, ts);
    if k.Some? {
      assert ts[k.value] in ts;
    } else {
      forall t | t in ts
        ensures !Strikes(t, s)
      {
        var j :| 0 <= j < |ts| && ts[j] == t;
      }
    }
  }

  /** The direct hit goes to the first eligible player in range, for the
      projectile's full damage and weapon. */
  lemma ResolveDirect(s: Shot, ts: seq<Target>, bounds: Vec3, k: nat)
    requires s.Consistent() && s.active && !s.hitObstacle && !OutOfBounds(s.position, bounds)
    requires k < |ts| && Strikes(ts[k], s)
    requires forall j | 0 <= j < k :: !Strikes(ts[j], s)
    ensures Resolve(s, ts, bounds).direct == Some(Hit(s.id, ts[k].id, s.owner, s.damage, s.weapon, s.position))
  {
    FirstDirectHitIs(s, ts, k);
  }

  /** The first striking target is the one `FirstDirectHit` finds. */
  lemma FirstDirectHitIs(s: Shot, ts: seq<Target>, k: nat)
    requires k < |ts| && Strikes(ts[k], s)
    requires forall j | 0 <= j < k :: !Strikes(ts[j], s)
    ensures FirstDirectHit(s, ts) == Some(k)
  {
    var f := FirstDirectHit(s, ts);
    if f.None? {
      assert false;
    } else if f.value < k {
      assert false;
    } else if f.value > k {
      assert false;
    }
  }

  /** Obstacle impacts are reported for every weapon that struck an obstacle,
      but for the arena walls only for the secondary weapon. */
  lemma ResolveImpacts(s: Shot, ts: seq<Target>, bounds: Vec3)
    requires s.Consistent()
    ensures var r := Resolve(s, ts, bounds);
      && (s.active && s.hitObstacle ==> r.impact == Some(Impact(s.hitPosition.value, s.weapon)) && r.remove)
      && (s.active && !s.hitObstacle && OutOfBounds(s.position, bounds) ==>
            r.remove && r.direct.None? && (r.impact.Some? <==> s.weapon == "secondary"))
      && (!s.active ==> r == Resolution(None, [], None, true))
  {
  }

  // ---------------------------------------------------------------------------
  // Properties of a whole pass

  /** The removed ids are exactly the projectiles whose resolution removes them,
      each once and in table order. */
  lemma {:induction false} PassRemoved(shots: seq<Shot>, ts: seq<Target>, bounds: Vec3)
    requires AllConsistent(shots)
    ensures forall id | id in Pass(shots, ts, bounds).removed ::
      exists i | 0 <= i < |shots| :: shots[i].id == id && Resolve(shots[i], ts, bounds).remove
    ensures forall i | 0 <= i < |shots| && Resolve(shots[i], ts, bounds).remove ::
      shots[i].id in Pass(shots, ts, bounds).removed
    decreases |shots|
  {
    if shots != [] {
      var init := shots[..|shots| - 1];
      assert AllConsistent(init);
      PassRemoved(init, ts, bounds);
      forall i | 0 <= i < |shots| - 1 ensures init[i] == shots[i] { }
    }
  }

  /** No hit of a pass harms the projectile's owner or a dead player. */
  lemma {:induction false} PassHitsSound(shots: seq<Shot>, ts: seq<Target>, bounds: Vec3)
    requires AllConsistent(shots)
    ensures forall h | h in Pass(shots, ts, bounds).hits ::
      (exists i | 0 <= i < |shots| :: shots[i].id == h.projectileId && Some(h.targetId) != shots[i].owner)
      && exists t | t in ts :: t.id == h.targetId && t.alive
    decreases |shots|
  {
    if shots != [] {
      var init := shots[..|shots| - 1];
      var last := shots[|shots| - 1];
      assert AllConsistent(init);
      PassHitsSound(init, ts, bounds);
      ResolveSound(last, ts, bounds);
      forall h | h in Pass(shots, ts, bounds).hits
        ensures exists i | 0 <= i < |shots| :: shots[i].id == h.projectileId && Some(h.targetId) != shots[i].owner
      {
        if h in Pass(init, ts, bounds).hits {
          var i :| 0 <= i < |init| && init[i].id == h.projectileId && Some(h.targetId) != init[i].owner;
          assert shots[i] == init[i];
        } else {
          assert h in Resolve(last, ts, bounds).Hits();
          assert shots[|shots| - 1] == last;
        }
      }
    }
  }

  // ---------------------------------------------------------------------------
  // The loops of `check_collisions`, on the snapshots

  /** The inner splash loop: every eligible player other than `exclude` in
      range, in player order. */
  method CollectSplash(projectileId: int, owner: Option<int>, exclude: Option<int>, center: Vec3,
                       damage: nat, ts: seq<Target>) returns (hits: seq<Hit>)
    ensures hits == SplashHits(projectileId, owner, exclude, center, damage, ts)
  {
    hits := [];
    var i := 0;
    while i < |ts|
      invariant 0 <= i <= |ts|
      invariant hits + SplashHits(projectileId, owner, exclude, center, damage, ts[i..])
        == SplashHits(projectileId, owner, exclude, center, damage, ts)
    {
      var t := ts[i];
      assert ts[i..][1..] == ts[i + 1..];
      ghost var prev := hits;
      ghost var step := SplashOf(projectileId, owner, exclude, center, damage, t);
      ghost var rest := SplashHits(projectileId, owner, exclude, center, damage, ts[i + 1..]);
      assert SplashHits(projectileId, owner, exclude, center, damage, ts[i..]) == step + rest;
      if Some(t.id) != exclude && Some(t.id) != owner && t.alive {
        var distSq := DistSq(t.position, center);
        if distSq < SplashRadius * SplashRadius {
          var amount := SplashDamage(damage, distSq);
          if amount > 0 {
            hits := hits + [Hit(projectileId, t.id, owner, amount, "splash", center)];
          }
        }
      }
      assert hits == prev + step;
      AppendAssoc(prev, step, rest);
      i := i + 1;
    }
    assert ts[i..] == [];
  }

  /** The direct-hit loop: the first striking player, if any (`break`). */
  method FindDirectHit(s: Shot, ts: seq<Target>) returns (k: Option<nat>)
    ensures k == FirstDirectHit(s, ts)
  {
    var i := 0;
    while i < |ts|
      invariant 0 <= i <= |ts|
      invariant forall j | 0 <= j < i :: !Strikes(ts[j], s)
    {
      var t := ts[i];
      if Some(t.id) != s.owner && t.alive {
        if DistSq(t.position, s.position) < HitRadius(s.weapon) * HitRadius(s.weapon) {
          FirstDirectHitIs(s, ts, i);
          return Some(i);
        }
      }
      i := i + 1;
    }
    return None;
  }

  /** The body of the projectile loop of `check_collisions`. */
  method ResolveShot(s: Shot, ts: seq<Target>, bounds: Vec3) returns (r: Resolution)
    requires s.Consistent()
    ensures r == Resolve(s, ts, bounds)
  {
    if !s.active {
      return Resolution(None, [], None, true);
    }
    if s.hitObstacle {
      var at := s.hitPosition.value;
      var splash := [];
      if s.weapon == "secondary" {
        splash := CollectSplash(s.id, s.owner, None, at, s.damage, ts);
      }
      return Resolution(None, splash, Some(Impact(at, s.weapon)), true);
    }
    var pos := s.position;
    if Abs(pos.x) > bounds.x || Abs(pos.y) > bounds.y || Abs(pos.z) > bounds.z {
      if s.weapon == "secondary" {
        var splash := CollectSplash(s.id, s.owner, None, pos, s.damage, ts);
        return Resolution(None, splash, Some(Impact(pos, s.weapon)), true);
      }
      return Resolution(None, [], None, true);
    }
    var k := FindDirectHit(s, ts);
    if k.None? {
      return Resolution(None, [], None, false);
    }
    var t := ts[k.value];
    var splash := [];
    if s.weapon == "secondary" {
      splash := CollectSplash(s.id, s.owner, Some(t.id), pos, s.damage, ts);
    }
    return Resolution(Some(Hit(s.id, t.id, s.owner, s.damage, s.weapon, pos)), splash, None, true);
  }

  /** The projectile loop of `check_collisions`, before the clean-up. */
  method CollisionPass(shots: seq<Shot>, ts: seq<Target>, bounds: Vec3) returns (o: Outcome)
    requires AllConsistent(shots)
    ensures o == Pass(shots, ts, bounds)
  {
    o := Outcome([], [], []);
    var i := 0;
    while i < |shots|
      invariant 0 <= i <= |shots|
      invariant AllConsistent(shots[..i])
      invariant o == Pass(shots[..i], ts, bounds)
    {
      assert shots[..i + 1][..i] == shots[..i];
      var r := ResolveShot(shots[i], ts, bounds);
      o := Outcome(o.hits + r.Hits(), o.impacts + r.Impacts(),
                   o.removed + (if r.remove then [shots[i].id] else []));
      i := i + 1;
    }
    assert shots[..i] == shots;
  }

  // ---------------------------------------------------------------------------
  // The manager

  /** `list(d.values())` of the players, as collision checking sees them. */
  function TargetsOf(ps: seq<Player>): (ts: seq<Target>)
    reads set p | p in ps
    ensures |ts| == |ps|
    ensures forall i | 0 <= i < |ps| :: ts[i] == Target(ps[i].playerId, ps[i].position, ps[i].isAlive)
  {
    if ps == [] then []
    else [Target(ps[0].playerId, ps[0].position, ps[0].isAlive)] + TargetsOf(ps[1..])
  }

  /** `all_players`: the remote players with the local player added under its id. */
  function AllPlayers(players: Dict<int, Player>, local: Player?): (all: Dict<int, Player>)
    requires players.Valid()
    ensures all.Valid()
    ensures local == null ==> all == players
    ensures local != null ==> all == players.Put(local.playerId, local)
  {
    if local == null then players else players.Put(local.playerId, local)
  }

  function ShotOf(id: int, p: Projectile): (s: Shot)
    reads p
  {
    Shot(id, p.ownerId, p.weapon, p.damage, p.position, p.active, p.hitObstacle, p.hitPosition)
  }

  /** The projectiles in table order, as collision checking sees them. */
  function ShotsOf(order: seq<int>, entries: map<int, Projectile>): (ss: seq<Shot>)
    requires forall i | 0 <= i < |order| :: order[i] in entries
    reads entries.Values
    ensures |ss| == |order|
    ensures forall i | 0 <= i < |order| :: ss[i] == ShotOf(order[i], entries[order[i]])
  {
    if order == [] then []
    else [ShotOf(order[0], entries[order[0]])] + ShotsOf(order[1..], entries)
  }

  class ProjectileManager {
    var projectiles: Dict<int, Projectile>
    var nextId: int
    var collidables: seq<Obstacle>

    ghost predicate Valid()
      reads this, projectiles.entries.Values
    {
      && projectiles.Valid()
      && nextId >= 0
      && (forall k | k in projectiles.entries :: projectiles.entries[k].Valid())
      && forall a, b | a in projectiles.entries && b in projectiles.entries && a != b ::
           projectiles.entries[a] != projectiles.entries[b]
    }

    constructor (obstacles: seq<Obstacle>)
      ensures Valid()
      ensures projectiles == Empty() && nextId == 0 && collidables == obstacles
    {
      projectiles := Empty();
      nextId := 0;
      collidables := obstacles;
    }

    method SetCollidables(obstacles: seq<Obstacle>)
      modifies this`collidables
      ensures collidables == obstacles
    {
      collidables := obstacles;
    }

    /** `spawn`: without an explicit id the next free counter value is used;
        the projectile gets its weapon's statistics and the current obstacles
        and is stored under its id, replacing whatever was stored there. */
    method Spawn(position: Vec3, direction: Vec3, owner: Option<int>, explicitId: Option<int>,
                 weapon: string, now: real) returns (p: Projectile)
      requires Valid()
      modifies this`projectiles, this`nextId
      ensures Valid() && fresh(p)
      ensures explicitId.Some? ==> p.projectileId == explicitId.value && nextId == old(nextId)
      ensures explicitId.None? ==> p.projectileId == old(nextId) && nextId == old(nextId) + 1
      ensures projectiles == old(projectiles).Put(p.projectileId, p)
      ensures var st := WeaponStats(weapon);
        && p.speed == st.speed && p.damage == st.damage && p.lifetime == st.lifetime
      ensures p.weapon == weapon && p.ownerId == owner && p.position == position && p.direction == direction
      ensures p.obstacles == collidables && p.spawnTime == now && p.active && !p.hitObstacle
    {
      var id: int;
      if explicitId.None? {
        id := nextId;
        nextId := nextId + 1;
      } else {
        id := explicitId.value;
      }
      var st := WeaponStats(weapon);
      p := new Projectile(position, direction, owner, id, st.speed, st.damage, st.lifetime, weapon, collidables, now);
      projectiles := projectiles.Put(id, p);
    }

    /** The projectile stored under `id`, as a frame. */
    function StoredAt(id: int): set<Projectile>
      reads this
    {
      if id in projectiles.entries then {projectiles.entries[id]} else {}
    }

    /** `remove`: despawn the projectile if it is still active and drop it. */
    method Remove(id: int)
      requires Valid()
      modifies this`projectiles, StoredAt(id)
      ensures Valid()
      ensures projectiles == old(projectiles).Remove(id)
      ensures id in old(projectiles.entries) ==> !old(projectiles.entries)[id].active
      ensures forall k | k in projectiles.entries :: unchanged(projectiles.entries[k])
    {
      var got := projectiles.Get(id);
      if got.Some? {
        var p := got.value;
        assert forall k | k in projectiles.entries && k != id :: projectiles.entries[k] != p;
        if p.active {
          p.Despawn(false);
        }
        projectiles := projectiles.Remove(id);
      } else {
        WithoutAbsent(projectiles.order, id);
        assert projectiles.entries - {id} == projectiles.entries;
      }
    }

    /** `clear`: despawn every projectile and empty the table. */
    method Clear()
      requires Valid()
      modifies this`projectiles, projectiles.entries.Values
      ensures Valid() && projectiles == Empty()
      ensures forall k | k in old(projectiles.entries) :: !old(projectiles.entries)[k].active
    {
      var order, m := projectiles.order, projectiles.entries;
      var i := 0;
      while i < |order|
        invariant 0 <= i <= |order|
        invariant forall j | 0 <= j < i :: !m[order[j]].active
        invariant forall k | k in m :: m[k].Valid()
      {
        var k := order[i];
        assert k in m;
        var p := m[k];
        if p.active {
          p.Despawn(false);
        }
        i := i + 1;
      }
      forall k | k in m ensures !m[k].active {
        var j :| 0 <= j < |order| && order[j] == k;
      }
      projectiles := Empty();
    }

    /** `check_collisions`: resolve every projectile in table order against
        all players (the local one included), collect the player hits and
        obstacle impacts, and remove every projectile that was inactive, hit
        something or left the arena. */
    method CheckCollisions(players: Dict<int, Player>, local: Player?, bounds: Vec3)
      returns (hits: seq<Hit>, impacts: seq<Impact>)
      requires Valid() && players.Valid()
      modifies this`projectiles, projectiles.entries.Values
      ensures Valid()
      ensures var o := old(Pass(ShotsOf(projectiles.order, projectiles.entries),
                                TargetsOf(AllPlayers(players, local).Values()), bounds));
        && hits == o.hits && impacts == o.impacts
        && projectiles == RemoveAll(old(projectiles), o.removed)
        && forall id | id in o.removed && id in old(projectiles.entries) :: !old(projectiles.entries)[id].active
      ensures forall k | k in old(projectiles.entries) && k in projectiles.entries ::
        unchanged(old(projectiles.entries)[k])
    {
      var ts := TargetsOf(AllPlayers(players, local).Values());
      var shots := Snapshot();
      var o := CollisionPass(shots, ts, bounds);
      hits, impacts := o.hits, o.impacts;
      RemoveEach(o.removed);
    }

    /** The projectiles as collision checking sees them, in table order. */
    method Snapshot() returns (shots: seq<Shot>)
      requires Valid()
      ensures AllConsistent(shots)
      ensures forall i | 0 <= i < |projectiles.order| :: projectiles.order[i] in projectiles.entries
      ensures shots == ShotsOf(projectiles.order, projectiles.entries)
    {
      forall i | 0 <= i < |projectiles.order| ensures projectiles.order[i] in projectiles.entries {
        assert projectiles.order[i] in projectiles.order;
      }
      shots := ShotsOf(projectiles.order, projectiles.entries);
      forall i | 0 <= i < |shots| ensures shots[i].Consistent() {
        var k := projectiles.order[i];
        assert k in projectiles.entries;
        assert projectiles.entries[k].Valid();
      }
    }

    /** The clean-up loop: `remove` each collected id in turn. */
    method RemoveEach(ids: seq<int>)
      requires Valid()
      modifies this`projectiles, projectiles.entries.Values
      ensures Valid()
      ensures projectiles == RemoveAll(old(projectiles), ids)
      ensures forall id | id in ids && id in old(projectiles.entries) :: !old(projectiles.entries)[id].active
      ensures forall k | k in old(projectiles.entries) && k in projectiles.entries ::
        unchanged(old(projectiles.entries)[k])
    {
      ghost var start, objects := projectiles, projectiles.entries;
      var j := 0;
      while j < |ids|
        invariant 0 <= j <= |ids|
        invariant Valid()
        invariant start.Valid() && projectiles == RemoveAll(start, ids[..j])
        invariant forall k | k in projectiles.entries :: k in objects && projectiles.entries[k] == objects[k]
        invariant forall k | k in ids[..j] && k in objects :: !objects[k].active
        invariant forall k | k in projectiles.entries :: unchanged(objects[k])
      {
        assert ids[..j + 1][..j] == ids[..j];
        assert StoredAt(ids[j]) <= objects.Values;
        ghost var before := projectiles;
        RemoveAllEntries(start, ids[..j]);
        Remove(ids[j]);
        assert RemoveAll(start, ids[..j + 1]) == RemoveAll(start, ids[..j]).Remove(ids[j]);
        forall k | k in ids[..j + 1] && k in objects ensures !objects[k].active {
          if k !in ids[..j] {
            assert k == ids[j];
            assert k in before.entries;
          }
        }
        j := j + 1;
      }
      assert ids[..j] == ids;
    }
  }
}

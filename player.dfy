/** The player ship's combat and input bookkeeping (`game/player.py`): health,
    death and respawn, kill and death counters, the held-keys table, the
    network interpolation target and the weapon cooldowns. The local flight
    physics, the ship model and the camera are not part of this model. */
module Players {
  import opened Wrappers
  import opened Vectors
  import opened Protocol

  const MaxHealth: int := 100
  const PrimaryCooldown: real := 0.12
  const SecondaryCooldown: real := 1.5
  const InterpolationSpeed: real := 15.0

  /** The entries of `keys_held`. */
  const TrackedKeys: set<string> :=
    {"w", "s", "a", "d", "q", "e", "space", "shift", "control", "left mouse", "right mouse"}

  /** `key_map`: the press event names and the entry each one sets. */
  function PressTarget(key: string): (r: Option<string>)
    ensures r.Some? ==> r.value in TrackedKeys
  {
    match key
    case "w" => Some("w")
    case "s" => Some("s")
    case "a" => Some("a")
    case "d" => Some("d")
    case "q" => Some("q")
    case "e" => Some("e")
    case "space" => Some("space")
    case "left shift" => Some("shift")
    case "shift" => Some("shift")
    case "left control" => Some("control")
    case "control" => Some("control")
    case "left mouse down" => Some("left mouse")
    case "right mouse down" => Some("right mouse")
    case _ => None
  }

  /** `release_map`: the mouse-button release events. */
  function ReleaseTarget(key: string): (r: Option<string>)
    ensures r.Some? ==> r.value in TrackedKeys
  {
    match key
    case "left mouse up" => Some("left mouse")
    case "right mouse up" => Some("right mouse")
    case _ => None
  }

  predicate EndsWithUp(key: string) {
    |key| >= 3 && key[|key| - 3..] == " up"
  }

  /** `key[:-3]` for a key ending in " up". */
  function BaseKey(key: string): string
    requires EndsWithUp(key)
  {
    key[..|key| - 3]
  }

  /** The held-keys table after one key event of the local player: a release
      event clears its button, a press sets its entry, "<k> up" for a mapped
      press name `<k>` clears that entry, and any other event changes nothing.
      (The source's final `elif key in key_map` branch cannot be reached: that
      case has already returned.) */
  function HeldAfter(held: map<string, bool>, key: string): (r: map<string, bool>)
    ensures r.Keys == held.Keys + (r.Keys - held.Keys) && r.Keys - held.Keys <= TrackedKeys
    ensures forall k | k in held && k !in TrackedKeys :: r[k] == held[k]
  {
    if ReleaseTarget(key).Some? then held[ReleaseTarget(key).value := false]
    else if PressTarget(key).Some? then held[PressTarget(key).value := true]
    else if EndsWithUp(key) && PressTarget(BaseKey(key)).Some? then
      held[PressTarget(BaseKey(key)).value := false]
    else held
  }

  /** Pressing any mapped key sets its entry, and the matching "<k> up" event
      clears it again; every other entry is left as it was. */
  lemma PressThenRelease(held: map<string, bool>, key: string)
    requires PressTarget(key).Some?
    ensures var t := PressTarget(key).value;
      && HeldAfter(held, key) == held[t := true]
      && HeldAfter(HeldAfter(held, key), key + " up") == held[t := false]
  {
    var up := key + " up";
    assert EndsWithUp(up) && BaseKey(up) == key by {
      assert up[|up| - 3..] == " up";
      assert up[..|up| - 3] == key;
    }
    assert ReleaseTarget(up).None? && PressTarget(up).None? by {
      assert up != "left mouse up" && up != "right mouse up" by {
        assert key != "left mouse" && key != "right mouse";
      }
      assert up[|up| - 1] == 'p';
    }
  }

  /** Events that name nothing in either table leave the table as it is. */
  lemma UnmappedKeyIgnored(held: map<string, bool>, key: string)
    requires ReleaseTarget(key).None? && PressTarget(key).None?
    requires !(EndsWithUp(key) && PressTarget(BaseKey(key)).Some?)
    ensures HeldAfter(held, key) == held
  {
  }

  /** The box the random respawn point is drawn from. */
  predicate InRespawnBox(p: Vec3) {
    -30.0 <= p.x <= 30.0 && -15.0 <= p.y <= 15.0 && -30.0 <= p.z <= 30.0
  }

  /** `min(1, interpolation_speed * dt)`. */
  function LerpFactor(dt: real): (f: real)
    requires dt >= 0.0
    ensures 0.0 <= f <= 1.0
    ensures f == 1.0 <==> dt * InterpolationSpeed >= 1.0
  {
    if InterpolationSpeed * dt < 1.0 then InterpolationSpeed * dt else 1.0
  }

  class Player {
    const playerId: int
    const isLocal: bool
    var health: int
    var isAlive: bool
    var kills: int
    var deaths: int
    var position: Vec3
    var rotation: Vec3
    var velocity: Vec3
    var keysHeld: map<string, bool>
    var targetPosition: Vec3
    var targetRotation: Vec3
    var targetVelocity: Vec3
    var lastPrimaryTime: real
    var lastSecondaryTime: real

    /** The held-keys table always has exactly the tracked entries. */
    ghost predicate Valid()
      reads this
    {
      keysHeld.Keys == TrackedKeys
    }

    constructor (pid: int, local: bool, start: Vec3)
      ensures Valid()
      ensures playerId == pid && isLocal == local
      ensures health == MaxHealth && isAlive && kills == 0 && deaths == 0
      ensures position == start && rotation == Zero && velocity == Zero
      ensures forall k | k in keysHeld :: !keysHeld[k]
      ensures targetPosition == start && targetRotation == Zero && targetVelocity == Zero
      ensures lastPrimaryTime == 0.0 && lastSecondaryTime == 0.0
    {
      playerId, isLocal := pid, local;
      health, isAlive := MaxHealth, true;
      kills, deaths := 0, 0;
      position, rotation, velocity := start, Zero, Zero;
      keysHeld := map k | k in TrackedKeys :: false;
      targetPosition, targetRotation, targetVelocity := start, Zero, Zero;
      lastPrimaryTime, lastSecondaryTime := 0.0, 0.0;
    }

    /** `take_damage`: a dead player ignores the hit; otherwise health drops by
        `amount` (without clamping) and the player dies exactly when it is no
        longer positive. */
    method TakeDamage(amount: int, attackerId: Option<int>) returns (died: bool)
      modifies this`health, this`isAlive, this`deaths, this`velocity
      ensures !old(isAlive) ==>
        !died && health == old(health) && !isAlive && deaths == old(deaths) && velocity == old(velocity)
      ensures old(isAlive) ==>
        && health == old(health) - amount
        && (died <==> health <= 0)
        && isAlive == !died
        && deaths == (if died then old(deaths) + 1 else old(deaths))
        && velocity == (if died then Zero else old(velocity))
    {
      if !isAlive {
        return false;
      }
      health := health - amount;
      if health <= 0 {
        Die(attackerId);
        return true;
      }
      return false;
    }

    /** `die`: not alive, one more death, stopped. */
    method Die(killerId: Option<int>)
      modifies this`isAlive, this`deaths, this`velocity
      ensures !isAlive && deaths == old(deaths) + 1 && velocity == Zero
    {
      isAlive := false;
      deaths := deaths + 1;
      velocity := Zero;
    }

    /** `respawn`: full health, alive, stopped, upright, at `at` when given and
        otherwise at `randomPoint`, the uniformly drawn point of the source. */
    method Respawn(at: Option<Vec3>, randomPoint: Vec3)
      requires InRespawnBox(randomPoint)
      modifies this`health, this`isAlive, this`velocity, this`position, this`rotation
      ensures health == MaxHealth && isAlive && velocity == Zero && rotation == Zero
      ensures position == at.GetOr(randomPoint)
      ensures at.None? ==> InRespawnBox(position)
    {
      health := MaxHealth;
      isAlive := true;
      velocity := Zero;
      if at.Some? {
        position := at.value;
      } else {
        position := randomPoint;
      }
      rotation := Zero;
    }

    method AddKill()
      modifies this`kills
      ensures kills == old(kills) + 1
    {
      kills := kills + 1;
    }

    /** `input`: only the local player tracks keys. */
    method Input(key: string)
      requires Valid()
      modifies this`keysHeld
      ensures Valid()
      ensures keysHeld == if isLocal then HeldAfter(old(keysHeld), key) else old(keysHeld)
    {
      if !isLocal {
        return;
      }
      var release := ReleaseTarget(key);
      if release.Some? {
        keysHeld := keysHeld[release.value := false];
        return;
      }
      var press := PressTarget(key);
      if press.Some? {
        keysHeld := keysHeld[press.value := true];
        return;
      }
      if EndsWithUp(key) {
        var base := PressTarget(BaseKey(key));
        if base.Some? {
          keysHeld := keysHeld[base.value := false];
        }
      }
    }

    /** `set_network_state`: new interpolation target; the target velocity is
        kept when the update carries none. */
    method SetNetworkState(pos: Vec3, rot: Vec3, vel: Option<Vec3>)
      modifies this`targetPosition, this`targetRotation, this`targetVelocity
      ensures targetPosition == pos && targetRotation == rot
      ensures targetVelocity == vel.GetOr(old(targetVelocity))
    {
      targetPosition := pos;
      targetRotation := rot;
      if vel.Some? {
        targetVelocity := vel.value;
      }
    }

    /** `_interpolate_to_target`: blend rendered position (towards the
        velocity-extrapolated target), velocity and rotation by `LerpFactor(dt)`. */
    method InterpolateToTarget(dt: real)
      requires dt >= 0.0
      modifies this`position, this`velocity, this`rotation
      ensures var f := LerpFactor(dt);
        && position == Lerp(old(position), Add(targetPosition, Scale(targetVelocity, dt * 2.0)), f)
        && velocity == Lerp(old(velocity), targetVelocity, f)
        && rotation == Lerp(old(rotation), targetRotation, f)
    {
      var f := LerpFactor(dt);
      var predicted := Add(targetPosition, Scale(targetVelocity, dt * 2.0));
      position := Lerp(position, predicted, f);
      velocity := Lerp(velocity, targetVelocity, f);
      rotation := Lerp(rotation, targetRotation, f);
    }

    /** `update` for a remote player: a dead player does not move; a live
        remote player interpolates. (The local player's flight input is not
        part of this model.) */
    method UpdateRemote(dt: real)
      requires dt >= 0.0 && !isLocal
      modifies this`position, this`velocity, this`rotation
      ensures !old(isAlive) ==> position == old(position) && velocity == old(velocity) && rotation == old(rotation)
      ensures old(isAlive) ==> var f := LerpFactor(dt);
        && position == Lerp(old(position), Add(targetPosition, Scale(targetVelocity, dt * 2.0)), f)
        && velocity == Lerp(old(velocity), targetVelocity, f)
        && rotation == Lerp(old(rotation), targetRotation, f)
    {
      if !isAlive {
        return;
      }
      InterpolateToTarget(dt);
    }

    /** `get_state`: the dictionary sent over the network. */
    function GetState(): (s: PlayerState)
      reads this
      ensures s.playerId == Some(playerId) && s.health == Some(health) && s.isAlive == Some(isAlive)
      ensures s.position == Some(position) && s.rotation == Some(rotation) && s.velocity == Some(velocity)
    {
      PlayerState(Some(playerId), Some(position), Some(rotation), Some(velocity), Some(health), Some(isAlive))
    }

    /** `shoot_primary`: restarts the primary cooldown and describes the shot
        fired from the nose of the ship along `forward`. */
    method ShootPrimary(now: real, forward: Vec3) returns (shot: ProjectileData)
      modifies this`lastPrimaryTime
      ensures lastPrimaryTime == now && !CanShootPrimary(now)
      ensures shot == ProjectileData(None, Some(playerId), Some(position), Some(forward), Some("primary"))
    {
      lastPrimaryTime := now;
      shot := ProjectileData(None, Some(playerId), Some(position), Some(forward), Some("primary"));
    }

    /** `shoot_secondary`: the same for the secondary weapon. */
    method ShootSecondary(now: real, forward: Vec3) returns (shot: ProjectileData)
      modifies this`lastSecondaryTime
      ensures lastSecondaryTime == now && !CanShootSecondary(now)
      ensures shot == ProjectileData(None, Some(playerId), Some(position), Some(forward), Some("secondary"))
    {
      lastSecondaryTime := now;
      shot := ProjectileData(None, Some(playerId), Some(position), Some(forward), Some("secondary"));
    }

    predicate CanShootPrimary(now: real)
      reads this
    {
      isAlive && now - lastPrimaryTime >= PrimaryCooldown
    }

    predicate CanShootSecondary(now: real)
      reads this
    {
      isAlive && now - lastSecondaryTime >= SecondaryCooldown
    }
  }

  /** A dead player can fire neither weapon; a live one can once the cooldown has
      elapsed, and stays able to as time goes on. */
  lemma ShootingGates(p: Player, now: real, later: real)
    requires now <= later
    ensures !p.isAlive ==> !p.CanShootPrimary(now) && !p.CanShootSecondary(now)
    ensures p.isAlive ==> (p.CanShootPrimary(now) <==> now >= p.lastPrimaryTime + 0.12)
    ensures p.isAlive ==> (p.CanShootSecondary(now) <==> now >= p.lastSecondaryTime + 1.5)
    ensures p.CanShootPrimary(now) ==> p.CanShootPrimary(later)
    ensures p.CanShootSecondary(now) ==> p.CanShootSecondary(later)
  {
  }

  /** With a motionless target the interpolated position never overshoots it on
      any axis, and each axis keeps the fraction `1 - f` of its remaining gap. */
  lemma InterpolationApproaches(from: Vec3, target: Vec3, dt: real)
    requires dt >= 0.0
    ensures var f := LerpFactor(dt); var p := Lerp(from, Add(target, Scale(Zero, dt * 2.0)), f);
      && (from.x <= target.x ==> from.x <= p.x <= target.x)
      && (target.x <= from.x ==> target.x <= p.x <= from.x)
      && (from.y <= target.y ==> from.y <= p.y <= target.y)
      && (target.y <= from.y ==> target.y <= p.y <= from.y)
      && (from.z <= target.z ==> from.z <= p.z <= target.z)
      && (target.z <= from.z ==> target.z <= p.z <= from.z)
      && target.x - p.x == (target.x - from.x) * (1.0 - f)
      && target.y - p.y == (target.y - from.y) * (1.0 - f)
      && target.z - p.z == (target.z - from.z) * (1.0 - f)
  {
    var f := LerpFactor(dt);
    assert Add(target, Scale(Zero, dt * 2.0)) == target;
    LerpBetween(from.x, target.x, f);
    LerpBetween(from.y, target.y, f);
    LerpBetween(from.z, target.z, f);
  }
}

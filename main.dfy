/** The game loop's client-side bookkeeping (`game/main.py`): the table of
    remote players driven by network messages, the local player's damage and
    death, projectiles echoed from the network, and the respawn countdown.
    Rendering, the HUD, input handling and `_check_collisions` are not part of
    this model; the frame time, the clock and the random spawn point are
    parameters. */
module GameLoop {
  import opened Wrappers
  import opened Vectors
  import opened Dicts
  import opened Protocol
  import opened Players
  import opened Projectiles
  import opened Networking

  /** `respawn_delay`: seconds between death and respawn. */
  const RespawnDelay: real := 3.0
  /** Where a remote player appears when its state carries no position. */
  const DefaultRemotePosition: Vec3 := Vec3(5.0, 0.0, 5.0)
  /** `damage` of a PLAYER_HIT that carries none. */
  const DefaultHitDamage: int := 25

  /** Where `_start_game` puts the local player: the host in one corner, a
      client in the opposite one. */
  function StartPosition(playerId: int): (p: Vec3)
    ensures p.y == 0.0 && (p.x == -60.0 <==> playerId == 0) && p.x == p.z
  {
    if playerId == 0 then Vec3(-60.0, 0.0, -60.0) else Vec3(60.0, 0.0, 60.0)
  }

  /** Where `_add_remote_player` places a new remote player: the state's
      position when the state is present, non-empty and has one, else
      (5, 0, 5). */
  function ArrivalPosition(state: Option<PlayerState>): (p: Vec3)
    ensures state.Some? && state.value.position.Some? ==> p == state.value.position.value
    ensures state.None? || state.value.position.None? ==> p == DefaultRemotePosition
  {
    if state.Some? && !state.value.IsEmpty() && state.value.position.Some? then state.value.position.value
    else DefaultRemotePosition
  }

  /** The ids in `remote_players` after `_handle_network_message(msg)`, for a
      local player `local` and the ids `ids` before. */
  function Roster(ids: set<int>, msg: Message, local: int): (r: set<int>)
    ensures local !in ids ==> local !in r
    ensures msg.PlayerJoin? || msg.PlayerUpdate? ==> ids <= r
    ensures msg.PlayerLeave? ==> r <= ids
    ensures !(msg.PlayerJoin? || msg.PlayerUpdate? || msg.PlayerLeave?) ==> r == ids
  {
    match msg
    case PlayerJoin(pid, _, _) => if pid.Some? && pid.value != local then ids + {pid.value} else ids
    case PlayerUpdate(pid, _) => if pid.Some? && pid.value != local then ids + {pid.value} else ids
    case PlayerLeave(pid) => if pid.Some? then ids - {pid.value} else ids
    case _ => ids
  }

  /** One message adds or removes at most one remote player. */
  lemma RosterChangesByOne(ids: set<int>, msg: Message, local: int)
    ensures var r := Roster(ids, msg, local);
      |r - ids| <= 1 && |ids - r| <= 1
  {
    var r := Roster(ids, msg, local);
    match msg
    case PlayerJoin(pid, _, _) =>
      assert r - ids <= (if pid.Some? then {pid.value} else {}) && ids - r == {};
    case PlayerUpdate(pid, _) =>
      assert r - ids <= (if pid.Some? then {pid.value} else {}) && ids - r == {};
    case PlayerLeave(pid) =>
      assert r - ids == {} && ids - r <= (if pid.Some? then {pid.value} else {});
    case _ =>
      assert r - ids == {} && ids - r == {};
  }

  /** A join for an id already present, or for the local id, or without an id
      leaves the roster as it was; so a repeated join does nothing. */
  lemma JoinIdempotent(ids: set<int>, pid: Option<int>, local: int,
                       others: Option<seq<PlayerState>>, state: Option<PlayerState>)
    ensures var once := Roster(ids, PlayerJoin(pid, others, state), local);
      Roster(once, PlayerJoin(pid, others, state), local) == once
    ensures pid.None? || pid == Some(local) || pid.value in ids ==>
      Roster(ids, PlayerJoin(pid, others, state), local) == ids
  {
  }

  /** A leave undoes a join of a new id. */
  lemma JoinThenLeave(ids: set<int>, pid: int, local: int, state: Option<PlayerState>)
    requires pid !in ids
    ensures Roster(Roster(ids, PlayerJoin(Some(pid), None, state), local), PlayerLeave(Some(pid)), local) == ids
  {
  }

  /** An update for an unknown, non-local id adds it exactly as a join would. */
  lemma UpdateAddsLikeJoin(ids: set<int>, pid: Option<int>, local: int, state: Option<PlayerState>)
    ensures Roster(ids, PlayerUpdate(pid, state), local) == Roster(ids, PlayerJoin(pid, None, state), local)
    ensures pid.Some? && pid.value != local ==> pid.value in Roster(ids, PlayerUpdate(pid, state), local)
  {
  }

  /** How many more frames of the given lengths the local player stays dead
      when `timer` seconds are left: `Some(n)` when the `n`-th frame (from 0)
      brings the timer to zero or below, `None` when none does. */
  function FramesToRespawn(timer: real, dts: seq<real>): (r: Option<nat>)
    ensures r.Some? ==> r.value < |dts|
    decreases |dts|
  {
    if dts == [] then None
    else if timer - dts[0] <= 0.0 then Some(0)
    else
      var rest := FramesToRespawn(timer - dts[0], dts[1..]);
      if rest.Some? then Some(rest.value + 1) else None
  }

  /** Total length of the frames `dts`. */
  function Elapsed(dts: seq<real>): real {
    if dts == [] then 0.0 else dts[0] + Elapsed(dts[1..])
  }

  /** The countdown respawns on the first frame by whose end at least `timer`
      seconds have passed, and not before. */
  lemma {:induction false} CountdownFiresOnTime(timer: real, dts: seq<real>)
    ensures var r := FramesToRespawn(timer, dts);
      && (r.Some? ==> Elapsed(dts[..r.value + 1]) >= timer)
      && (r.Some? ==> forall j | 0 < j <= r.value :: Elapsed(dts[..j]) < timer)
      && (r.None? ==> forall j | 0 < j <= |dts| :: Elapsed(dts[..j]) < timer)
    decreases |dts|
  {
    if dts != [] {
      var rest := dts[1..];
      CountdownFiresOnTime(timer - dts[0], rest);
      var r' := FramesToRespawn(timer - dts[0], rest);
      forall j | 0 < j <= |dts|
        ensures Elapsed(dts[..j]) == dts[0] + Elapsed(rest[..j - 1])
      {
        assert dts[..j][1..] == rest[..j - 1];
      }
      assert Elapsed(rest[..0]) == 0.0 by { assert rest[..0] == []; }
      var r := FramesToRespawn(timer, dts);
      if timer - dts[0] > 0.0 {
        assert r == if r'.Some? then Some(r'.value + 1) else None;
        forall j | 0 < j <= |dts| && (r.None? || j <= r.value)
          ensures Elapsed(dts[..j]) < timer
        {
          if j > 1 {
            assert Elapsed(rest[..j - 1]) < timer - dts[0];
          }
        }
      }
    }
  }

  /** The stored player a message may change: the updated or respawned
      player, or the target of a hit; nobody for the other kinds (a join only
      adds a new entry, and a leave only drops one). */
  function Subject(msg: Message): Option<int>
  {
    match msg
    case PlayerUpdate(pid, _) => pid
    case PlayerHit(target, _, _) => target
    case PlayerRespawn(pid, _) => pid
    case _ => None
  }

  class Game {
    const localPlayer: Player
    /** `remote_players`: player id to the remote player object. */
    var remotePlayers: Dict<int, Player>
    const projectileManager: ProjectileManager
    const isHost: bool
    const server: NetworkServer?
    var respawnTimer: real

    /** Every remote player is stored under its own id, and the local id is
        never among them. */
    ghost predicate Valid()
      reads this, projectileManager, projectileManager.projectiles.entries.Values
    {
      RemotesValid() && projectileManager.Valid()
    }

    ghost predicate RemotesValid()
      reads this
    {
      && remotePlayers.Valid()
      && forall k | k in remotePlayers.entries ::
           remotePlayers.entries[k].playerId == k && k != localPlayer.playerId
    }

    /** The local player is not one of the remote players, and distinct ids
        hold distinct players. */
    lemma LocalIsNotRemote()
      requires Valid()
      ensures localPlayer !in remotePlayers.entries.Values
      ensures forall a, b | a in remotePlayers.entries && b in remotePlayers.entries && a != b ::
        remotePlayers.entries[a] != remotePlayers.entries[b]
    {
      forall k | k in remotePlayers.entries
        ensures remotePlayers.entries[k] != localPlayer
      {
        assert remotePlayers.entries[k].playerId == k != localPlayer.playerId;
      }
    }

    /** Neither the local player nor the respawn timer changed. */
    twostate predicate LocalUntouched()
      reads this, localPlayer
    {
      unchanged(localPlayer) && respawnTimer == old(respawnTimer)
    }

    /** The projectile table did not change. */
    twostate predicate ProjectilesUntouched()
      reads projectileManager
    {
      projectileManager.projectiles == old(projectileManager.projectiles)
    }

    /** The remote player stored under `pid`, if any, as a frame. */
    function RemoteAt(pid: Option<int>): (ps: set<Player>)
      reads this
      ensures |ps| <= 1
      ensures forall p | p in ps :: pid.Some? && pid.value in remotePlayers.entries && p == remotePlayers.entries[pid.value]
      ensures RemotesValid() ==> localPlayer !in ps
    {
      if pid.Some? && pid.value in remotePlayers.entries then
        assert RemotesValid() ==> remotePlayers.entries[pid.value].playerId == pid.value != localPlayer.playerId;
        {remotePlayers.entries[pid.value]}
      else {}
    }

    /** `_start_game` for `playerId` (0 when hosting, with `server` the host's
        server): a local player in its corner, no remote players, the timer at
        zero. The projectile manager is made without obstacles, as the source
        makes it, so shots in the game meet none. */
    constructor (playerId: int, hosting: bool, server: NetworkServer?)
      ensures Valid() && fresh(localPlayer) && fresh(projectileManager)
      ensures localPlayer.playerId == playerId && localPlayer.isLocal && localPlayer.isAlive
      ensures localPlayer.health == MaxHealth && localPlayer.position == StartPosition(playerId)
      ensures remotePlayers == Empty() && respawnTimer == 0.0
      ensures isHost == hosting && this.server == server
      ensures projectileManager.projectiles == Empty() && projectileManager.collidables == []
    {
      localPlayer := new Player(playerId, true, StartPosition(playerId));
      remotePlayers := Empty();
      projectileManager := new ProjectileManager([]);
      isHost := hosting;
      this.server := server;
      respawnTimer := 0.0;
    }

    /** `_add_remote_player`: nothing happens for an id already present or for
        the local id; otherwise one new remote player is appended under that
        id, at `ArrivalPosition(state)`. */
    method AddRemotePlayer(pid: int, state: Option<PlayerState>)
      requires Valid()
      modifies this`remotePlayers
      ensures Valid()
      ensures LocalUntouched() && ProjectilesUntouched()
      ensures remotePlayers.entries.Keys ==
        if pid in old(remotePlayers.entries) || pid == localPlayer.playerId then old(remotePlayers.entries.Keys)
        else old(remotePlayers.entries.Keys) + {pid}
      ensures Arrived(pid, state)
    {
      if pid in remotePlayers.entries {
        return;
      }
      if pid == localPlayer.playerId {
        return;
      }
      var p := new Player(pid, false, ArrivalPosition(state));
      remotePlayers := remotePlayers.Put(pid, p);
    }

    /** The effect of `_add_remote_player(pid, state)`: for an id already
        present, or the local id, the table is as it was; otherwise it gains
        one entry at the end, a new live remote player at full health under
        `pid`, placed at `ArrivalPosition(state)`. */
    twostate predicate Arrived(pid: int, state: Option<PlayerState>)
      requires old(remotePlayers.Valid())
      reads this, remotePlayers.entries.Values
    {
      if pid in old(remotePlayers.entries) || pid == localPlayer.playerId then
        remotePlayers == old(remotePlayers)
      else
        && pid in remotePlayers.entries
        && remotePlayers == old(remotePlayers).Put(pid, remotePlayers.entries[pid])
        && remotePlayers.order == old(remotePlayers.order) + [pid]
        && var p := remotePlayers.entries[pid];
           fresh(p) && !p.isLocal && p.playerId == pid && p.position == ArrivalPosition(state)
           && p.health == MaxHealth && p.isAlive
    }

    /** `_remove_remote_player`: an id that is present is deleted, and every
        other entry stays as it was; any other id changes nothing. */
    method RemoveRemotePlayer(pid: Option<int>)
      requires Valid()
      modifies this`remotePlayers
      ensures Valid()
      ensures LocalUntouched() && ProjectilesUntouched()
      ensures remotePlayers ==
        if pid.Some? && pid.value in old(remotePlayers.entries) then old(remotePlayers).Remove(pid.value)
        else old(remotePlayers)
      ensures remotePlayers.entries.Keys ==
        if pid.Some? then old(remotePlayers.entries.Keys) - {pid.value} else old(remotePlayers.entries.Keys)
      ensures forall k | k in old(remotePlayers.entries) && Some(k) != pid ::
        k in remotePlayers.entries && remotePlayers.entries[k] == old(remotePlayers.entries[k])
    {
      if pid.Some? && pid.value in remotePlayers.entries {
        remotePlayers := remotePlayers.Remove(pid.value);
      }
    }

    /** PLAYER_UPDATE: an unknown non-local id is added as by
        `_add_remote_player`; a known one gets the state's position and
        rotation (origin when missing) as its interpolation target, its
        velocity when given, and health and alive flag defaulting to 100 and
        true. */
    method HandleUpdate(pid: Option<int>, state: Option<PlayerState>)
      requires Valid()
      modifies this`remotePlayers, RemoteAt(pid)
      ensures Valid()
      ensures LocalUntouched() && ProjectilesUntouched()
      ensures remotePlayers.entries.Keys == Roster(old(remotePlayers.entries.Keys), PlayerUpdate(pid, state), localPlayer.playerId)
      ensures forall k | k in old(remotePlayers.entries) :: k in remotePlayers.entries && remotePlayers.entries[k] == old(remotePlayers.entries[k])
      ensures UpdateApplied(pid, state)
    {
      var st := state.GetOr(EmptyState);
      if pid.None? || pid.value == localPlayer.playerId {
        return;
      }
      var id := pid.value;
      if id !in remotePlayers.entries {
        AddRemotePlayer(id, Some(st));
        return;
      }
      ApplyState(remotePlayers.entries[id], st);
    }

    /** The known-player branch of PLAYER_UPDATE on `p`. */
    static method ApplyState(p: Player, st: PlayerState)
      modifies p`targetPosition, p`targetRotation, p`targetVelocity, p`health, p`isAlive
      ensures Updated(p, st)
    {
      p.SetNetworkState(st.position.GetOr(Zero), st.rotation.GetOr(Zero), st.velocity);
      p.health := st.health.GetOr(MaxHealth);
      p.isAlive := st.isAlive.GetOr(true);
    }

    /** `p` took the update `st`: its interpolation target is the state's
        position and rotation (origin when missing), its target velocity the
        state's when given, its health and alive flag the state's, defaulting
        to 100 and true; every other field (its rendered position, rotation
        and velocity, kills, deaths, held keys and shot times) is as it
        was. */
    static twostate predicate Updated(p: Player, st: PlayerState)
      reads p
    {
      && p.targetPosition == st.position.GetOr(Zero) && p.targetRotation == st.rotation.GetOr(Zero)
      && p.targetVelocity == st.velocity.GetOr(old(p.targetVelocity))
      && p.health == st.health.GetOr(MaxHealth) && p.isAlive == st.isAlive.GetOr(true)
      && p.position == old(p.position) && p.deaths == old(p.deaths) && p.kills == old(p.kills)
      && unchanged(p`rotation, p`velocity, p`keysHeld, p`lastPrimaryTime, p`lastSecondaryTime)
    }

    /** The effect of PLAYER_UPDATE for `pid`: nothing for a missing or local
        id; a known remote player took the update as `Updated` says, in the
        same table; an unknown one arrived as by `_add_remote_player` with
        the state (an empty one when missing). */
    twostate predicate UpdateApplied(pid: Option<int>, state: Option<PlayerState>)
      requires old(remotePlayers.Valid())
      reads this, remotePlayers.entries.Values
    {
      if pid.None? || pid.value == localPlayer.playerId then remotePlayers == old(remotePlayers)
      else if pid.value in old(remotePlayers.entries) then
        remotePlayers == old(remotePlayers) && Updated(remotePlayers.entries[pid.value], state.GetOr(EmptyState))
      else Arrived(pid.value, Some(state.GetOr(EmptyState)))
    }

    /** PROJECTILE_SPAWN: a projectile owned by the local player is not spawned
        again; any other is spawned under the projectile id it carries, with
        position at the origin, direction +z and weapon `primary` when
        missing. */
    method HandleSpawn(projectile: Option<ProjectileData>, now: real)
      requires Valid()
      modifies projectileManager`projectiles, projectileManager`nextId
      ensures Valid()
      ensures LocalUntouched()
      ensures SpawnApplied(projectile)
    {
      var d := projectile.GetOr(EmptyProjectile);
      if d.ownerId == Some(localPlayer.playerId) {
        return;
      }
      var p := projectileManager.Spawn(d.position.GetOr(Zero), d.direction.GetOr(Vec3(0.0, 0.0, 1.0)),
                                       d.ownerId, d.projectileId, d.weapon.GetOr("primary"), now);
    }

    /** The effect of PROJECTILE_SPAWN: the table and the id counter are as
        they were for a projectile the local player owns; any other is stored
        under the id it carries (the next free id, which is then used up, when
        it carries none) as a new projectile with its owner and with position,
        direction and weapon defaulting to the origin, +z and `primary`. */
    twostate predicate SpawnApplied(projectile: Option<ProjectileData>)
      requires old(projectileManager.projectiles.Valid())
      reads this, projectileManager, projectileManager.projectiles.entries.Values
    {
      var d := projectile.GetOr(EmptyProjectile);
      if d.ownerId == Some(localPlayer.playerId) then
        projectileManager.projectiles == old(projectileManager.projectiles) &&
        projectileManager.nextId == old(projectileManager.nextId)
      else
        && projectileManager.nextId == (if d.projectileId.Some? then old(projectileManager.nextId) else old(projectileManager.nextId) + 1)
        && var id := d.projectileId.GetOr(old(projectileManager.nextId));
           && id in projectileManager.projectiles.entries
           && projectileManager.projectiles == old(projectileManager.projectiles).Put(id, projectileManager.projectiles.entries[id])
           && var p := projectileManager.projectiles.entries[id];
              && fresh(p) && p.ownerId == d.ownerId && p.weapon == d.weapon.GetOr("primary")
              && p.position == d.position.GetOr(Zero) && p.direction == d.direction.GetOr(Vec3(0.0, 0.0, 1.0))
    }

    /** PLAYER_HIT: damage (25 when missing) goes to the local player when it is
        the target, arming the respawn timer if that kills it; otherwise to
        the remote target when there is one. No other player is touched. */
    method HandleHit(target: Option<int>, attacker: Option<int>, damage: Option<int>)
      requires Valid()
      modifies this`respawnTimer, localPlayer`health, localPlayer`isAlive, localPlayer`deaths, localPlayer`velocity
      modifies RemoteAt(target)`health, RemoteAt(target)`isAlive, RemoteAt(target)`deaths, RemoteAt(target)`velocity
      ensures Valid() && remotePlayers == old(remotePlayers)
      ensures ProjectilesUntouched()
      ensures HitApplied(target, damage.GetOr(DefaultHitDamage))
      ensures forall k | k in remotePlayers.entries && Some(k) != target :: unchanged(remotePlayers.entries[k])
    {
      var amount := damage.GetOr(DefaultHitDamage);
      LocalIsNotRemote();
      if target == Some(localPlayer.playerId) {
        var died := localPlayer.TakeDamage(amount, attacker);
        if died {
          OnLocalDeath(attacker);
        }
      } else if target.Some? && target.value in remotePlayers.entries {
        var p := remotePlayers.entries[target.value];
        assert forall k | k in remotePlayers.entries && k != target.value :: remotePlayers.entries[k] != p;
        var _ := p.TakeDamage(amount, attacker);
      }
    }

    /** `take_damage(amount)` as seen on `p`: a live player loses `amount`
        health and dies exactly when that leaves it at zero or below, and
        then counts one more death and stops; a dead player is left as it
        was. Every other field is kept either way. */
    static twostate predicate TookDamage(p: Player, amount: int)
      reads p
    {
      && (old(p.isAlive) ==>
            && p.health == old(p.health) - amount
            && (p.isAlive <==> p.health > 0)
            && p.deaths == (if p.isAlive then old(p.deaths) else old(p.deaths) + 1)
            && p.velocity == (if p.isAlive then old(p.velocity) else Zero))
      && (!old(p.isAlive) ==>
            !p.isAlive && p.health == old(p.health) && p.deaths == old(p.deaths) && p.velocity == old(p.velocity))
      && p.position == old(p.position) && p.kills == old(p.kills)
      && unchanged(p`rotation, p`keysHeld, p`targetPosition, p`targetRotation, p`targetVelocity,
                   p`lastPrimaryTime, p`lastSecondaryTime)
    }

    /** The effect of PLAYER_HIT with `amount` damage: the local player, when
        it is the target, took the damage, and the respawn timer was armed
        with the full delay exactly when that killed it; otherwise the local
        player and the timer are as they were and a remote target, when
        there is one, took the damage. */
    twostate predicate HitApplied(target: Option<int>, amount: int)
      requires remotePlayers == old(remotePlayers)
      reads this, localPlayer, remotePlayers.entries.Values
    {
      if target == Some(localPlayer.playerId) then
        && TookDamage(localPlayer, amount)
        && respawnTimer == (if old(localPlayer.isAlive) && !localPlayer.isAlive then RespawnDelay else old(respawnTimer))
      else
        && unchanged(localPlayer) && respawnTimer == old(respawnTimer)
        && (target.Some? && target.value in remotePlayers.entries ==> TookDamage(remotePlayers.entries[target.value], amount))
    }

    /** `_on_local_death`: the respawn countdown starts from the full delay. */
    method OnLocalDeath(killer: Option<int>)
      modifies this`respawnTimer
      ensures respawnTimer == RespawnDelay
    {
      respawnTimer := RespawnDelay;
    }

    /** PLAYER_RESPAWN: a known remote player comes back at the position given
        (the origin when missing); an unknown id, and the local one, change
        nothing. */
    method HandleRespawn(pid: Option<int>, position: Option<Vec3>)
      requires Valid()
      modifies RemoteAt(pid)`position, RemoteAt(pid)`health, RemoteAt(pid)`isAlive
      modifies RemoteAt(pid)`velocity, RemoteAt(pid)`rotation
      ensures Valid() && remotePlayers == old(remotePlayers)
      ensures LocalUntouched() && ProjectilesUntouched()
      ensures RemoteRespawned(pid, position)
      ensures forall k | k in remotePlayers.entries && Some(k) != pid :: unchanged(remotePlayers.entries[k])
    {
      LocalIsNotRemote();
      if pid.Some? && pid.value in remotePlayers.entries {
        var p := remotePlayers.entries[pid.value];
        assert forall k | k in remotePlayers.entries && k != pid.value :: remotePlayers.entries[k] != p;
        p.Respawn(Some(position.GetOr(Zero)), Zero);
      }
    }

    /** The effect of PLAYER_RESPAWN on a known remote player: alive at full
        health, at the position given (the origin when missing), stopped and
        upright, with its kills, deaths and every other field kept. */
    twostate predicate RemoteRespawned(pid: Option<int>, position: Option<Vec3>)
      requires remotePlayers == old(remotePlayers)
      reads this, remotePlayers.entries.Values
    {
      pid.Some? && pid.value in remotePlayers.entries ==>
        var p: Player := remotePlayers.entries[pid.value];
        && p.isAlive && p.health == MaxHealth && p.position == position.GetOr(Zero)
        && p.velocity == Zero && p.rotation == Zero
        && p.kills == old(p.kills) && p.deaths == old(p.deaths)
        && unchanged(p`keysHeld, p`targetPosition, p`targetRotation, p`targetVelocity,
                     p`lastPrimaryTime, p`lastSecondaryTime)
    }

    /** `_handle_network_message`: dispatch on the message kind. The roster
        of remote ids changes only as `Roster` says, players that stay keep
        their objects, and only PLAYER_HIT touches the local player. */
    method HandleMessage(msg: Message, now: real)
      requires Valid()
      modifies this`remotePlayers, this`respawnTimer, localPlayer, remotePlayers.entries.Values
      modifies projectileManager`projectiles, projectileManager`nextId
      ensures Valid()
      ensures remotePlayers.entries.Keys == Roster(old(remotePlayers.entries.Keys), msg, localPlayer.playerId)
      ensures forall k | k in old(remotePlayers.entries) && k in remotePlayers.entries ::
        remotePlayers.entries[k] == old(remotePlayers.entries[k])
      ensures !msg.PlayerHit? ==> LocalUntouched()
      ensures !msg.ProjectileSpawn? ==> ProjectilesUntouched()
      ensures forall k | k in old(remotePlayers.entries) && Some(k) != Subject(msg) ::
        unchanged(old(remotePlayers.entries[k]))
      ensures msg.PlayerJoin? && msg.playerId.Some? ==> Arrived(msg.playerId.value, msg.state)
      ensures msg.PlayerLeave? ==>
        remotePlayers == if msg.playerId.Some? && msg.playerId.value in old(remotePlayers.entries)
                         then old(remotePlayers).Remove(msg.playerId.value) else old(remotePlayers)
      ensures msg.PlayerUpdate? ==> UpdateApplied(msg.playerId, msg.state)
      ensures msg.ProjectileSpawn? ==> SpawnApplied(msg.projectile)
      ensures msg.PlayerHit? ==> remotePlayers == old(remotePlayers) && HitApplied(msg.targetId, msg.damage.GetOr(DefaultHitDamage))
      ensures msg.PlayerRespawn? ==> remotePlayers == old(remotePlayers) && RemoteRespawned(msg.playerId, msg.position)
      ensures msg.ProjectileSpawn? || msg.GameState? || msg.Ping? || msg.Pong? || msg.Unrecognised? ==>
        remotePlayers == old(remotePlayers)
    {
      LocalIsNotRemote();
      match msg {
        case PlayerJoin(pid, _, state) =>
          if pid.Some? && pid.value != localPlayer.playerId {
            AddRemotePlayer(pid.value, state);
          }
        case PlayerLeave(pid) =>
          RemoveRemotePlayer(pid);
        case PlayerUpdate(pid, state) =>
          HandleUpdate(pid, state);
        case ProjectileSpawn(projectile) =>
          HandleSpawn(projectile, now);
        case PlayerHit(target, attacker, damage) =>
          HandleHit(target, attacker, damage);
        case PlayerRespawn(pid, position) =>
          HandleRespawn(pid, position);
        case _ =>
      }
    }

    /** `_respawn_local_player`: back at `spawnPoint` (the arena's random spawn
        point), and, on the host, a respawn broadcast to every client. */
    method RespawnLocalPlayer(spawnPoint: Vec3)
      modifies localPlayer`position, localPlayer`health, localPlayer`isAlive, localPlayer`velocity, localPlayer`rotation
      modifies (if server == null then {} else {server})`outbox
      ensures LocalRespawned(spawnPoint)
    {
      localPlayer.Respawn(Some(spawnPoint), Zero);
      if isHost && server != null {
        server.BroadcastRespawn(localPlayer.playerId, spawnPoint);
      }
    }

    /** The effect of `_respawn_local_player(spawnPoint)`: the local player is
        alive at full health at `spawnPoint`, stopped and upright, with its
        kills, deaths and every other field kept; the host's server has queued PLAYER_RESPAWN
        for every client, and a client's server (when there is one) has
        queued nothing. */
    twostate predicate LocalRespawned(spawnPoint: Vec3)
      reads this, localPlayer, server
    {
      && localPlayer.isAlive && localPlayer.health == MaxHealth && localPlayer.position == spawnPoint
      && localPlayer.velocity == Zero && localPlayer.rotation == Zero
      && localPlayer.kills == old(localPlayer.kills) && localPlayer.deaths == old(localPlayer.deaths)
      && unchanged(localPlayer`keysHeld, localPlayer`targetPosition, localPlayer`targetRotation,
                   localPlayer`targetVelocity, localPlayer`lastPrimaryTime, localPlayer`lastSecondaryTime)
      && (server != null ==>
            server.outbox ==
              if isHost then old(server.outbox) + Broadcast(server.clients.order, PlayerRespawn(Some(localPlayer.playerId), Some(spawnPoint)), None)
              else old(server.outbox))
    }

    /** The respawn part of `update` for a frame of `dt` seconds: while the
        local player is dead the timer runs down, and the player respawns at
        `spawnPoint` on the frame it reaches zero or below. */
    method RespawnCountdown(dt: real, spawnPoint: Vec3)
      modifies this`respawnTimer, localPlayer`position, localPlayer`health, localPlayer`isAlive
      modifies localPlayer`velocity, localPlayer`rotation, (if server == null then {} else {server})`outbox
      ensures old(localPlayer.isAlive) ==>
        respawnTimer == old(respawnTimer) && unchanged(localPlayer) && (server == null || unchanged(server))
      ensures !old(localPlayer.isAlive) ==>
        && respawnTimer == old(respawnTimer) - dt
        && (localPlayer.isAlive <==> FramesToRespawn(old(respawnTimer), [dt]) == Some(0))
        && (localPlayer.isAlive ==> LocalRespawned(spawnPoint))
        && (!localPlayer.isAlive ==> unchanged(localPlayer) && (server == null || unchanged(server)))
    {
      if !localPlayer.isAlive {
        respawnTimer := respawnTimer - dt;
        if respawnTimer <= 0.0 {
          RespawnLocalPlayer(spawnPoint);
        }
      }
    }
  }
}

/** The messages exchanged between host and clients, as the structured values the
    JSON text decodes to. Every payload key the receiver reads with `.get` may be
    missing, so each is an `Option`; keys the source never reads are not kept. */
module Protocol {
  import opened Wrappers
  import opened Vectors

  /** A peer's UDP address, `(host, port)`. */
  datatype Addr = Addr(host: string, port: int)

  /** A player-state dictionary: `player_id`, `position`, `rotation`, `velocity`,
      `health` and `is_alive`, each of which may be absent. */
  datatype PlayerState = PlayerState(
    playerId: Option<int>,
    position: Option<Vec3>,
    rotation: Option<Vec3>,
    velocity: Option<Vec3>,
    health: Option<int>,
    isAlive: Option<bool>)
  {
    /** An empty dictionary, which the source treats as false in `if state:`. */
    predicate IsEmpty() {
      playerId.None? && position.None? && rotation.None? && velocity.None? &&
      health.None? && isAlive.None?
    }
  }

  /** The literal `{}`. */
  const EmptyState: PlayerState := PlayerState(None, None, None, None, None, None)

  /** The state the host seeds for itself and for each newly joined player:
      position and rotation at the origin, health 100, alive, no velocity key. */
  function SeedState(pid: int): (s: PlayerState)
    ensures s.playerId == Some(pid) && s.health == Some(100) && s.isAlive == Some(true)
  {
    PlayerState(Some(pid), Some(Zero), Some(Zero), None, Some(100), Some(true))
  }

  /** A projectile dictionary (`projectile_id`, `owner_id`, `position`,
      `direction`, `weapon`). */
  datatype ProjectileData = ProjectileData(
    projectileId: Option<int>,
    ownerId: Option<int>,
    position: Option<Vec3>,
    direction: Option<Vec3>,
    weapon: Option<string>)

  const EmptyProjectile: ProjectileData := ProjectileData(None, None, None, None, None)

  /** One datagram, tagged by its `type` key. `Unrecognised` stands for a message
      whose `type` is missing or is none of the known kinds. */
  datatype Message =
    | PlayerJoin(playerId: Option<int>, existingPlayers: Option<seq<PlayerState>>, state: Option<PlayerState>)
    | PlayerLeave(playerId: Option<int>)
    | PlayerUpdate(playerId: Option<int>, state: Option<PlayerState>)
    | ProjectileSpawn(projectile: Option<ProjectileData>)
    | PlayerHit(targetId: Option<int>, attackerId: Option<int>, damage: Option<int>)
    | PlayerRespawn(playerId: Option<int>, position: Option<Vec3>)
    | GameState(players: Option<seq<PlayerState>>, timestamp: Option<real>)
    | Ping
    | Pong
    | Unrecognised

  /** One datagram handed to the socket: destination and message. */
  datatype Send = Send(to: Addr, message: Message)
}

# Arena shooter core in Dafny

This project models the bookkeeping core of a small networked 3D arena shooter
written in Python on the Ursina engine. One player hosts a UDP server and
the others join it as clients; offline, practice bots play against the host.
The model covers:

- **Session registry** (`Networking`, after `game/networking.py`). The host
  hands out player ids (0 is itself, clients count up from 1), keeps the last
  state of every player, stamps projectile ids from a counter, and queues
  events for its game loop. The client turns the host's join reply and
  game-state batches into per-player messages. Every datagram handed to a
  socket is appended to an `outbox` sequence.
- **Projectiles** (`Projectiles` and `Splash`, after `game/projectile.py`).
  The manager numbers projectiles and applies the weapon table. A projectile
  tests obstacles with the closest-point-on-box rule. A collision pass drops
  inactive projectiles and handles obstacle and wall impacts. It emits at most
  one direct hit per projectile, never on the owner or the dead. Secondary
  weapons add splash hits with truncated linear fall-off.
- **Life cycles** of the player (`Players`, `game/player.py`), the bots and
  their manager (`Bots`, `game/bot.py`), and the power-ups and their spawner
  (`PowerUps`, `game/powerups.py`). Each of these is a class whose methods
  update its fields.
- **The game loop's remote-player table** (`GameLoop`, `game/main.py`). The
  table follows the network messages. The loop also holds the local player's
  damage and death and the respawn countdown.
- **Pure helpers.** The arena clamp and inside test (`Arenas`,
  `game/arena.py`). The PNG header check and decode of the screenshot
  analyser (`Png`, `game/test_framework.py`), after sections 5.2 and 11.2.2 of
  the PNG Specification (2nd edition).

Coordinates are `real`. Distances are compared through squared distances, so
no square root appears. The splash fall-off is computed without one too: a
lemma ties it to `floor(damage * 0.5 * (1 - d / 15))` for the true distance
`d`. Python dictionaries, whose iteration order decides hit order, broadcast
order and reply order, are modelled by `Dicts.Dict`: a map together with the
insertion order of its keys. The message dictionaries are datatypes with
`Option` fields, and `dict.get` defaults appear where the source reads them.
Time, frame length, random draws and engine results (a steered velocity, a
facing dot product, a bobbing offset) are parameters.

Three behaviours of the code worth knowing:

- The host ignores `PLAYER_LEAVE`. It does not remove the player's entry.
- `take_damage` does not clamp health at 0.
- The host echoes `PROJECTILE_SPAWN` to every client, the shooter included.

## Model

| member | source | states |
|---|---|---|
| Arenas.Arena.HalfSize | game/arena.py:11 | each half size is exactly half the arena size on its axis |
| Arenas.Arena.GetBounds | game/arena.py:273-275 | the bounds are the half sizes |
| Arenas.ClampPositionWithinBounds | game/arena.py:227-234 | with a margin no larger than each half size, every clamped coordinate lies in [-h+m, h-m] |
| Arenas.Arena.ClampPosition | game/arena.py:227-234 | a coordinate already between its two walls shrunk by the margin is kept, and any other is moved onto one of those walls |
| Arenas.Arena.IsInside | game/arena.py:236-241 | a point is inside only when the margin is below every half size, and each coordinate lies strictly between its two walls shrunk by the margin |
| Arenas.ClampPositionIdempotent | game/arena.py:227-234 | clamping a clamped position changes nothing |
| Arenas.InsideIsClampFixed | game/arena.py:227-241 | a position inside the arena with margin m is left unchanged by the clamp with margin m |
| Arenas.InsideIsStrict | game/arena.py:236-241 | inside implies within the clamp box; a coordinate exactly on h-m is not inside (strict test) |
| Png.BeU32 | game/test_framework.py:192-193 | a big-endian 4-byte value is below 2^32 |
| Png.DecodeEncode | game/test_framework.py:192-193 | decoding the 4 big-endian bytes of any value below 2^32 gives it back |
| Png.EncodeDecode | game/test_framework.py:192-193 | encoding a decoded 4-byte group gives back the same bytes |
| Png.Header | game/test_framework.py:188 | reading 24 bytes yields the first min(24, size) bytes of the file |
| Png.AnalyzeScreenshot | game/test_framework.py:175-202 | missing file iff "File not found"; "Not a valid PNG" iff the file is shorter than 8 bytes or its first 8 bytes are not the signature; an unpack error iff the signature matches but the file is shorter than 24 bytes; otherwise width and height are the big-endian values at bytes 16-20 and 20-24, with the file size and path |
| Png.AnalyzeRoundTrip | game/test_framework.py:189-202 | a file built from a signature, an IHDR prefix, a width and a height is analysed back to that width and height |
| Protocol.SeedState | game/networking.py:45-51 | a seeded state carries its id, health 100 and alive |
| Players.PressTarget | game/player.py:219-227 | a mapped key press only ever sets a tracked key |
| Players.ReleaseTarget | game/player.py:229-232 | a mapped release only ever clears a tracked key |
| Players.HeldAfter | game/player.py:216-247 | a key event adds only tracked keys and never touches an untracked entry |
| Players.PressThenRelease | game/player.py:216-247 | pressing a mapped key sets exactly its entry to held, and its "up" event then clears exactly that entry; every other entry is as before |
| Players.UnmappedKeyIgnored | game/player.py:244-247 | a key that is neither mapped nor the "up" of a mapped key leaves keys_held unchanged |
| Players.LerpFactor | game/player.py:330 | for dt >= 0 the factor lies in [0, 1], and it is 1 exactly when dt * 15 >= 1 |
| Players.Player.constructor | game/player.py:9-56 | a new player has its id, full health of 100, is alive, has no kills or deaths, no key held, and interpolation targets at its start |
| Players.Player.TakeDamage | game/player.py:386-402 | a dead player is unchanged and reports no death; otherwise health drops by the amount (unclamped), and the player dies (one more death, stopped) exactly when health is no longer positive |
| Players.Player.Die | game/player.py:404-407 | not alive, deaths up by exactly one, velocity zero |
| Players.Player.Respawn | game/player.py:416-433 | full health, alive, stopped, rotation reset, at the given position or else at the random point inside the respawn box |
| Players.Player.AddKill | game/player.py:439-440 | kills up by exactly one |
| Players.Player.Input | game/player.py:214-247 | a remote player's keys_held is unchanged; a local player's follows the press and release maps |
| Players.Player.SetNetworkState | game/player.py:344-349 | the interpolation target takes the position and rotation, and the old target velocity is kept when none is given |
| Players.Player.InterpolateToTarget | game/player.py:327-342 | position, velocity and rotation move towards their targets by the interpolation factor |
| Players.Player.UpdateRemote | game/player.py:249-257 | a dead remote player does not move; a live one interpolates towards its target |
| Players.Player.GetState | game/player.py:351-360 | the state dictionary carries the player's id, position, rotation, velocity, health and alive flag |
| Players.Player.ShootPrimary | game/player.py:368-375 | the shot is a primary projectile from the player's position along its forward axis, owned by it, and the primary gun is not ready again at the same instant |
| Players.Player.ShootSecondary | game/player.py:377-384 | the same for the secondary weapon |
| Players.ShootingGates | game/player.py:362-366 | a dead player cannot fire; a live one can fire its primary iff 0.12 s and its secondary iff 1.5 s have passed since the last shot; readiness persists as time goes on |
| Players.InterpolationApproaches | game/player.py:330-334 | with no target velocity, one interpolation step lands between the old position and the target on every axis and leaves the fraction 1 - f of the gap |
| Splash.WithinIsDistance | game/projectile.py:313-314 | the squared-distance test is exactly the source's `distance < radius` |
| Splash.Search | game/projectile.py:315-317 | the search result lies in 0..top and fits below the fall-off when positive |
| Splash.SplashDamage | game/projectile.py:315-317 | splash damage lies between 0 and half the projectile damage |
| Splash.FitsIsBelowFalloff | game/projectile.py:315-316 | the squared-distance test for an amount j holds iff j is at most the fall-off |
| Splash.SplashDamageIsTruncatedFalloff | game/projectile.py:313-317 | inside the splash radius, the splash damage is int(damage * 0.5 * (1 - d / 15)) for the true distance d |
| Splash.SplashDamageMonotone | game/projectile.py:403-407 | a farther target never takes more splash damage |
| Splash.FalloffMonotone | game/projectile.py:315-316 | the fall-off decreases with distance |
| Projectiles.WeaponStats | game/projectile.py:204-216 | secondary is (120, 100, 4.0), spreadshot is (195, 8, 2.0), anything else is (700, 12, 1.5) |
| Projectiles.ProjectileRadius | game/projectile.py:48 | the collision radius is positive |
| Projectiles.HitRadius | game/projectile.py:377 | the direct-hit radius of every weapon is positive |
| Projectiles.InsideBoxTouches | game/projectile.py:105-118 | a point inside an enabled box touches it for any positive radius |
| Projectiles.FarAlongXMisses | game/projectile.py:105-118 | a point a radius or more beyond the box's face along x does not touch it |
| Projectiles.DisabledNeverTouches | game/projectile.py:92-94 | a disabled obstacle is never hit |
| Projectiles.Projectile.constructor | game/projectile.py:9-50 | a new projectile is active, has not hit anything, and carries its id, owner, weapon stats, spawn time and obstacle list |
| Projectiles.Projectile.CheckObstacleCollision | game/projectile.py:87-120 | a collision is reported iff some enabled obstacle's closest point is strictly within the radius |
| Projectiles.Projectile.Despawn | game/projectile.py:122-128 | the projectile ends inactive, and the obstacle flag changes only on the first despawn |
| Projectiles.Projectile.Update | game/projectile.py:71-85 | an inactive projectile is unchanged; an active one moves by speed * dt along its direction; an obstacle hit flags it with the hit position and leaves its removal to the manager; otherwise it stays active iff its lifetime has not run out |
| Projectiles.Projectile.GetState | game/projectile.py:130-138 | the state carries the id, owner, position, direction and weapon |
| Projectiles.FirstDirectHit | game/projectile.py:367-379 | the index found is the first eligible target within the hit radius, and none is found only when no target qualifies |
| Projectiles.SplashHitsSound | game/projectile.py:303-325 | every splash hit is on a live target inside the splash radius that is neither the owner nor the excluded target, with positive damage of at most half the projectile's |
| Projectiles.SplashHitsComplete | game/projectile.py:303-325 | every eligible target inside the radius with positive fall-off damage takes a splash hit |
| Projectiles.ResolveSound | game/projectile.py:290-417 | no hit lands on the owner or a dead player, only the secondary weapon splashes, splash never repeats the direct target, and splash damage is positive and at most half the damage |
| Projectiles.ResolveKeeps | game/projectile.py:285-421 | a projectile stays in the table iff it is active, hit no obstacle, is inside the arena and strikes no eligible player |
| Projectiles.ResolveDirect | game/projectile.py:367-388 | the direct hit is on the first striking target, for the full damage and weapon |
| Projectiles.FirstDirectHitIs | game/projectile.py:367-417 | the first striking target is the one the search finds |
| Projectiles.ResolveImpacts | game/projectile.py:290-365 | an obstacle hit always reports an impact and removes; a wall exit removes, hits nobody, and reports an impact only for the secondary weapon; an inactive projectile is only removed |
| Projectiles.PassRemoved | game/projectile.py:285-421 | the pass removes exactly the projectiles whose resolution removes them |
| Projectiles.PassHitsSound | game/projectile.py:285-417 | no hit of a whole pass harms its projectile's owner or a dead player |
| Projectiles.CollectSplash | game/projectile.py:394-416 | the splash loop produces exactly the splash hits in player order |
| Projectiles.FindDirectHit | game/projectile.py:367-379 | the direct-hit loop stops at the first striking target |
| Projectiles.ResolveShot | game/projectile.py:289-417 | one iteration of the collision loop computes the projectile's resolution |
| Projectiles.CollisionPass | game/projectile.py:285-417 | the collision loop computes the pass over all projectiles in table order |
| Projectiles.Touches | game/projectile.py:87-120 | only an enabled obstacle can be touched, and only with a non-zero radius |
| Projectiles.SplashHits | game/projectile.py:303-325 | there are no more splash hits than targets, and each one carries the projectile's id, its owner as attacker and the blast centre |
| Projectiles.Resolve | game/projectile.py:289-417 | a projectile that is not removed has no hit, splash or impact; an impact removes it without a direct hit; a direct hit removes it and carries the projectile's damage and owner |
| Projectiles.Pass | game/projectile.py:273-426 | a pass removes no more entries than there are projectiles and reports no more impacts than removals |
| Projectiles.TargetsOf | game/projectile.py:285-287 | the targets are the players in order, with id, position and alive flag |
| Projectiles.AllPlayers | game/projectile.py:285-287 | the player table with the local player added under its id, replacing any entry with that id |
| Projectiles.ShotsOf | game/projectile.py:289 | the snapshot lists every stored projectile in table order |
| Projectiles.ProjectileManager.constructor | game/projectile.py:188-192 | empty table, counter 0, the given obstacles |
| Projectiles.ProjectileManager.SetCollidables | game/projectile.py:194-196 | the obstacle list is replaced |
| Projectiles.ProjectileManager.Spawn | game/projectile.py:198-230 | an explicit id is used and the counter is untouched; otherwise the counter's value is used and the counter moves on; the projectile is stored under its id with its weapon's stats |
| Projectiles.ProjectileManager.Remove | game/projectile.py:265-271 | a stored id is despawned and deleted, an unknown id changes nothing, and every other projectile is unchanged |
| Projectiles.ProjectileManager.Clear | game/projectile.py:428-433 | every projectile is despawned and the table is empty |
| Projectiles.ProjectileManager.CheckCollisions | game/projectile.py:273-426 | the hits and impacts are those of the pass over the stored projectiles against all players, exactly the removed ids are despawned and deleted, and every projectile that stays is unchanged |
| Projectiles.ProjectileManager.Snapshot | game/projectile.py:289 | the snapshot is consistent and lists the table in order |
| Projectiles.ProjectileManager.RemoveEach | game/projectile.py:419-421 | removing each listed id in turn deletes exactly those ids and despawns them; every projectile not listed is unchanged |
| Bots.TuningFor | game/bot.py:53-78 | "easy" and "hard" get their rows, every other name the medium row |
| Bots.DifficultyLadder | game/bot.py:53-78 | each step up in difficulty is faster, turns faster, is more accurate, reacts sooner, is more aggressive, fires sooner and sees farther |
| Bots.Respawned | game/bot.py:373-383 | full health, alive, patrolling, stopped, at the given point; timer, patrol point and last shot time kept |
| Bots.ThinkFollowsEdges | game/bot.py:149-157 | from any non-idle state, one frame either keeps the state or takes one of the transitions the `_update_*` state handlers take |
| Bots.NoLiveTargetPatrols | game/bot.py:181-185 | chasing or attacking without a live target falls back to patrol at once, without steering |
| Bots.ChaseWindow | game/bot.py:187-201 | with a live target at distance d, a chase turns into an attack iff d < 0.6 range, gives up iff d > 1.5 range, and goes on otherwise |
| Bots.EvadeReturns | game/bot.py:239-253 | an evading bot with a target chases again iff it has evaded over 3 s or is above half health, and never patrols |
| Bots.ChangeRestartsTimer | game/bot.py:165-253 | whenever a steering state changes, its timer restarts |
| Bots.DeadBotFrozen | game/bot.py:139-142 | a dead bot's update changes nothing |
| Bots.TickStaysInBounds | game/bot.py:287-297 | a live bot ends every frame at least 5 units inside each wall |
| Bots.Bot.constructor | game/bot.py:22-48 | a new bot has its id, the difficulty's tuning, full health, is alive, stopped and patrolling, with no target |
| Bots.Bot.Update | game/bot.py:139-163 | one frame advances the bot exactly as the frame function does: state machine, movement, clamp |
| Bots.Bot.TryShoot | game/bot.py:299-338 | a shot is fired iff the bot can fire, has a target, is attacking and faces the target; the shot aims at the target or, after a miss roll, at the offset aim, and stamps the shot time |
| Bots.Bot.SetTarget | game/bot.py:340-342 | the target is replaced |
| Bots.Bot.TakeDamage | game/bot.py:344-364 | a dead bot ignores the hit; otherwise health drops by the amount, a patrolling bot turns to the chase, and it dies iff health is no longer positive |
| Bots.Bot.Die | game/bot.py:366-371 | not alive and stopped |
| Bots.Bot.Respawn | game/bot.py:373-386 | the bot is respawned at the given point, or at the drawn point when none is given |
| Bots.PendingExactly | game/bot.py:448-457 | an entry stays queued iff it is not yet due |
| Bots.PatrolStep | game/bot.py:165-180 | patrolling always steers, switches to chasing exactly when a live target is within detection range, and keeps its patrol point or takes the freshly drawn one |
| Bots.ChaseStep | game/bot.py:181-202 | chasing ends in chase, attack or patrol, keeps the patrol point, and steers exactly when the target is alive |
| Bots.AttackStep | game/bot.py:203-238 | attacking ends in attack, evade or patrol, keeps the patrol point, steers exactly when the target is alive, and evades only below 30 health on a roll under the aggression |
| Bots.EvadeStep | game/bot.py:239-254 | evading ends in evade, chase or patrol, keeps the patrol point, and returns to patrolling exactly when there is no target |
| Bots.Think | game/bot.py:149-157 | an idle bot stays idle without steering, no other state becomes idle, and only patrolling changes the patrol point |
| Bots.ClampToBounds | game/bot.py:287-297 | without bounds the position is kept; a position 5 units inside every wall is kept, and with half sizes of at least 5 every result is 5 units inside |
| Bots.Tick | game/bot.py:139-163 | a frame keeps health, liveness and the last shot time, and moves a non-idle state only along the state machine's transitions |
| Bots.Pending | game/bot.py:448-457 | every entry left queued is due strictly after now, and there are no more of them than queued entries |
| Bots.LastDue | game/bot.py:448-457 | the index found is the last due entry for the bot, and none means no due entry for it |
| Bots.AfterRespawns | game/bot.py:448-457 | a bot with a due entry ends respawned, alive, at full health, patrolling and stopped; a bot without one is unchanged |
| Bots.AfterRespawnsStep | game/bot.py:450-454 | a later due entry overrides the respawn of an earlier one |
| Bots.BotManager.constructor | game/bot.py:403-409 | no bots, counter at 1000, empty queue, respawn delay 5 s |
| Bots.BotManager.SpawnBot | game/bot.py:411-428 | the new bot takes the counter's id, which was unused, and is stored under it; the counter moves on |
| Bots.BotManager.SpawnBots | game/bot.py:430-433 | count new bots are stored under consecutive ids, the i-th at the i-th spawn point with full health, alive, stopped, patrolling toward the i-th drawn point, with timer and last shot time at 0; each of them is freshly allocated; existing bots are kept |
| Bots.BotManager.SetTargetForAll | game/bot.py:435-438 | every bot's target is the given entity |
| Bots.BotManager.BotsDistinct | game/bot.py:425 | distinct ids hold distinct bots |
| Bots.BotManager.UpdateBots | game/bot.py:444-446 | every bot takes exactly one frame |
| Bots.BotManager.ProcessRespawns | game/bot.py:448-457 | the not-yet-due entries stay queued in order, and every bot ends as its due entries leave it |
| Bots.BotManager.Update | game/bot.py:440-457 | every bot takes its frame, then the respawn queue is worked through |
| Bots.BotManager.HandleBotDeath | game/bot.py:468-473 | a known bot is queued to respawn 5 s from now; an unknown id changes nothing |
| Bots.BotManager.DamageBot | game/bot.py:475-482 | an unknown id reports no death and queues nothing; a dead bot is left exactly as it was; a live bot loses the damage from its health, turns from patrol to chase, and dies (not alive, stopped, queued for respawn at now plus the delay) exactly when health is no longer positive, keeping its position and every other field; no other bot changes |
| Bots.BotManager.Cleanup | game/bot.py:488-493 | no bots and an empty queue |
| PowerUps.TypeDataFor | game/powerups.py:10-42 | the four types get their durations and respawn times, and an unknown type gets the health row |
| PowerUps.Boosted | game/powerups.py:106 | health + 25, capped at 100; a player at or below 100 never loses health |
| PowerUps.EffectOf | game/powerups.py:102-121 | a health effect iff the type is "health", and the health gained is what the cap allows; speed, damage and shield raise; any other type gives no effect |
| PowerUps.HealthGainBounded | game/powerups.py:104-107 | a health pick-up gains 0 to 25 points, and nothing at full health |
| PowerUps.HealthGainsCompose | game/powerups.py:104-107 | two health pick-ups in a row give the capped sum |
| PowerUps.SpawnPoints | game/powerups.py:137-165 | the fifteen spawn points in order |
| PowerUps.SpawnPointsInside | game/powerups.py:137-165 | in a large enough arena, every spawn point is inside it |
| PowerUps.ShuffleLength | game/powerups.py:170 | a shuffle keeps all fifteen points |
| PowerUps.PowerUp.constructor | game/powerups.py:41-57 | a new power-up is active at its spawn position, with its type's data |
| PowerUps.PowerUp.Animate | game/powerups.py:75-86 | an active power-up bobs around its spawn height, an inactive one stays put |
| PowerUps.PowerUp.Collect | game/powerups.py:92-100 | an inactive power-up gives nothing; an active one is used up and applies its effect, so a second collect gives nothing |
| PowerUps.PowerUp.ApplyEffect | game/powerups.py:102-121 | the outcome is the type's effect, and health changes only for a health effect |
| PowerUps.DueKeptPartition | game/powerups.py:186-199 | every queue entry is either respawned (it is due) or kept (it is not), none lost or duplicated |
| PowerUps.SweepDeletesReachable | game/powerups.py:201-230 | a pass deletes exactly the active power-ups within reach, or only reachable ones when an effect raised; each effect queues one respawn, for a deleted id, after its type's respawn time |
| PowerUps.Due | game/powerups.py:186-199 | every entry respawned is due (its time is not after now), and there are no more of them than queued entries |
| PowerUps.Kept | game/powerups.py:186-199 | the entries kept and the entries respawned together number exactly the queued entries |
| PowerUps.SweepStep | game/powerups.py:201-230 | an item out of reach, or any item after an effect raised, changes nothing; a reachable one is marked touched, deleted at most once, and queues a respawn exactly when it yields an effect |
| PowerUps.Sweeping | game/powerups.py:201-230 | a pass queues exactly one respawn per effect it yields |
| PowerUps.SweepHealthCapped | game/powerups.py:201-230 | collecting never takes a player at or below 100 above 100 and never lowers health |
| PowerUps.PowerUpSpawner.constructor | game/powerups.py:127-174 | the shuffled spawn points, and the five initial power-ups under ids 0 to 4 on the first five points |
| PowerUps.PowerUpSpawner.SpawnPowerUp | game/powerups.py:176-184 | the new power-up takes the counter's unused id and is stored under it; the counter moves on |
| PowerUps.PowerUpSpawner.Update | game/powerups.py:186-199 | due entries come back as new power-ups under consecutive ids, in queue order; the rest stay queued in order; stored power-ups are kept |
| PowerUps.PowerUpSpawner.SpawnDue | game/powerups.py:191-197 | the queue loop spawns exactly the due entries and keeps the others |
| PowerUps.PowerUpSpawner.CheckCollection | game/powerups.py:201-230 | the player's health, the collected effects, the queued respawns and the deleted power-ups are those of the collection pass |
| PowerUps.PowerUpSpawner.CollectLoop | game/powerups.py:207-228 | the loop over the table computes the collection pass and uses up exactly the touched power-ups |
| PowerUps.PowerUpSpawner.CollectOne | game/powerups.py:208-228 | one iteration of the collection loop advances the pass by exactly that item, and only that power-up can lose its active flag |
| PowerUps.PowerUpSpawner.GetState | game/powerups.py:232-241 | exactly one entry per stored power-up, with its type, position and active flag |
| PowerUps.PowerUpSpawner.Cleanup | game/powerups.py:243-248 | no power-ups and an empty queue |
| Networking.Broadcast | game/networking.py:194-198 | a broadcast sends no more datagrams than there are registered addresses |
| Networking.BroadcastSound | game/networking.py:194-198 | every datagram of a broadcast carries the message to a registered address other than the excluded one |
| Networking.BroadcastOnce | game/networking.py:194-198 | with one entry per address, each registered address other than the excluded one gets exactly one datagram, and the excluded one gets none |
| Networking.Stamped | game/networking.py:127-129 | the stored state is the received one with the sender's id |
| Networking.StampedShot | game/networking.py:143-145 | the projectile payload is the received one with the sender as owner and the counter as id |
| Networking.Revived | game/networking.py:165-167 | the stored state is alive at the new position, otherwise unchanged |
| Networking.NetworkServer.constructor | game/networking.py:25-34 | no clients, no states, next player id 1, projectile counter 0, empty queue |
| Networking.NetworkServer.Start | game/networking.py:36-58 | the server runs, and player 0 is seeded with health 100 and alive |
| Networking.NetworkServer.Stop | game/networking.py:60-64 | the server no longer runs |
| Networking.NetworkServer.SendTo | game/networking.py:186-192 | one datagram to the address |
| Networking.NetworkServer.BroadcastMessage | game/networking.py:194-198 | the broadcast loop sends exactly the broadcast's datagrams, in registry order |
| Networking.NetworkServer.HandleJoin | game/networking.py:85-121 | a known address changes nothing; a new one takes the next id, gets a seeded state stored last, is sent every stored state (its own last), the join is queued, and every other client is told |
| Networking.NetworkServer.Register | game/networking.py:87-97 | a new address is registered under the next id, which moves on, with a seeded state stored last |
| Networking.NetworkServer.HandleUpdate | game/networking.py:123-136 | an unregistered sender is ignored; otherwise the payload, stamped with the sender's id, replaces its state (last write wins) and is queued; nothing is sent |
| Networking.NetworkServer.HandleSpawn | game/networking.py:138-156 | an unregistered sender is ignored; otherwise the counter moves on, the payload is stamped with owner and id, queued, and sent to every client; the stored states are kept |
| Networking.NetworkServer.HandleRespawn | game/networking.py:158-181 | an unregistered sender is ignored; otherwise its state is revived at the position (origin by default), and the event is queued and sent to every client |
| Networking.NetworkServer.HandleMessage | game/networking.py:81-184 | from any sender, a join, update, spawn or respawn has exactly the effect HandleJoin, HandleUpdate, HandleSpawn or HandleRespawn states (so an unregistered sender's update, spawn or respawn changes nothing); ping is answered with pong; leave, hit, game state, pong and unknown types change nothing; registered addresses keep their ids; only joins register, only spawns move the projectile counter |
| Networking.NetworkServer.BroadcastGameState | game/networking.py:200-212 | a non-empty host state, stamped as player 0, replaces entry 0; then every stored state goes to every client |
| Networking.NetworkServer.BroadcastHit | game/networking.py:214-223 | the hit is sent to every client and queued |
| Networking.NetworkServer.BroadcastRespawn | game/networking.py:225-232 | the respawn is sent to every client |
| Networking.NetworkServer.GetMessages | game/networking.py:234-239 | the queue is returned in order and left empty |
| Networking.NetworkServer.GetClientCount | game/networking.py:241-243 | the number of registered addresses |
| Networking.GameStateReachesOthers | game/networking.py:337-349 | a game state built from the stored states reaches a client as one update per other player with its stored state, and none for itself |
| Networking.ExistingJoins | game/networking.py:320-331 | one join per listed player other than the client itself, carrying that player's state |
| Networking.StateUpdates | game/networking.py:339-349 | one update per listed player with an id other than the client's, carrying its state |
| Networking.JoinsDropOwnLast | game/networking.py:102-108 | since the host lists the newcomer last, the client queues the same joins as for the players already there |
| Networking.NetworkClient.constructor | game/networking.py:249-256 | no host address, no id, not running or connected, empty queue |
| Networking.NetworkClient.SendToServer | game/networking.py:356-363 | a datagram to the host only with an open socket and a known host |
| Networking.NetworkClient.Connect | game/networking.py:258-272 | the socket is open towards the host, and a join request is sent |
| Networking.NetworkClient.AwaitAssignment | game/networking.py:274-284 | connected iff an id was assigned, otherwise stopped |
| Networking.NetworkClient.Stop | game/networking.py:286-291 | not running, not connected, socket closed |
| Networking.NetworkClient.QueueExistingPlayers | game/networking.py:322-331 | the loop over the reply's list queues exactly its joins |
| Networking.NetworkClient.QueueStateUpdates | game/networking.py:341-349 | the loop over a game state's list queues exactly its updates |
| Networking.NetworkClient.HandleMessage | game/networking.py:308-354 | the first join with an id fixes the client's id for good and queues the other listed players; later joins with an id are queued as they are, joins without one are dropped; a game state becomes one update per other player; the pass-through types are queued; the rest are dropped |
| Networking.NetworkClient.SendPlayerUpdate | game/networking.py:365-370 | the state goes to the host |
| Networking.NetworkClient.SendShoot | game/networking.py:372-377 | the shot goes to the host |
| Networking.NetworkClient.SendRespawn | game/networking.py:379-384 | the respawn goes to the host |
| Networking.NetworkClient.GetMessages | game/networking.py:386-391 | the queue is returned in order and left empty |
| GameLoop.StartPosition | game/main.py:185-188 | every player starts on the ground on the x = z diagonal, at x = -60 exactly when it is the host (id 0) |
| GameLoop.ArrivalPosition | game/main.py:425-429 | a new remote player appears at its state's position, or at (5, 0, 5) without one |
| GameLoop.Roster | game/main.py:340-413 | the local id never enters the table; joins and updates only add, leaves only remove, other messages keep the ids |
| GameLoop.RosterChangesByOne | game/main.py:340-413 | one message adds or removes at most one remote player |
| GameLoop.JoinIdempotent | game/main.py:344-351 | a repeated join, a join for the local id and a join without an id change nothing |
| GameLoop.JoinThenLeave | game/main.py:344-356 | a leave undoes the join of a new id |
| GameLoop.UpdateAddsLikeJoin | game/main.py:358-367 | an update for an unknown non-local id adds it exactly as a join would |
| GameLoop.FramesToRespawn | game/main.py:289-293 | the frame that respawns the player, if any, is one of the given frames |
| GameLoop.CountdownFiresOnTime | game/main.py:289-293 | the respawn happens on the first frame by whose end the full delay has passed, and not before |
| GameLoop.Game.LocalIsNotRemote | game/main.py:417-423 | the local player is never a remote player, and distinct ids hold distinct players |
| GameLoop.Game.RemoteAt | game/main.py:368-369 | at most the one remote player stored under the id, never the local one |
| GameLoop.Game.constructor | game/main.py:171-205 | the local player at its start position, alive at full health, no remote players, no projectiles, no obstacles, the timer at zero |
| GameLoop.Game.AddRemotePlayer | game/main.py:415-442 | an id already present or the local id changes nothing; otherwise exactly one new remote player is appended under that id at its arrival position |
| GameLoop.Game.RemoveRemotePlayer | game/main.py:444-449 | a present id is deleted and every other entry kept; any other id changes nothing |
| GameLoop.Game.HandleUpdate | game/main.py:358-377 | an unknown non-local id is added as `_add_remote_player` adds it; a known one takes the state's targets, health (default 100) and alive flag (default true), and every other field of it (position, rotation, velocity, kills, deaths, held keys, shot times) is kept; no other player, the local player and the projectiles are untouched |
| GameLoop.Game.ApplyState | game/main.py:369-376 | the player takes the update's targets, health and alive flag with their defaults |
| GameLoop.Game.HandleSpawn | game/main.py:379-391 | the local player's own projectile is not spawned again; any other is spawned under its carried id (or the next one) with origin, +z and "primary" as defaults |
| GameLoop.Game.HandleHit | game/main.py:393-406 | the target, local or remote, takes the damage (25 by default) as `take_damage` does: a live one loses it, dies exactly when health is no longer positive and then counts a death and stops, a dead one is unchanged, and every field `take_damage` does not write is kept; a local death arms the 3 s timer; no other player is touched |
| GameLoop.Game.OnLocalDeath | game/main.py:486-489 | the respawn timer is set to 3 s |
| GameLoop.Game.HandleRespawn | game/main.py:408-413 | a known remote player comes back alive at full health at the position (origin by default), stopped and upright, with kills, deaths and every other field kept; no other remote player is touched, and the local player is untouched |
| GameLoop.Game.HandleMessage | game/main.py:340-413 | a join adds the named player as `_add_remote_player` does, a leave removes it, an update, spawn, hit or respawn has exactly the effect HandleUpdate, HandleSpawn, HandleHit or HandleRespawn states, every field of the named player included, and a spawn, game state, ping, pong or unknown type leaves the player table as it was; the ids change as the roster says, every stored player other than the one updated, hit or respawned is unchanged and stays (a join or leave changes none of the others), only a hit touches the local player and only a spawn the projectiles |
| GameLoop.Game.RespawnLocalPlayer | game/main.py:491-502 | the local player is back alive at full health at the spawn point, stopped and upright, with kills, deaths and every other field kept; the host's server sends the respawn to every client and a client's server sends nothing; only those player fields and the outbox can change |
| GameLoop.Game.RespawnCountdown | game/main.py:289-293 | a live player, the timer and the server are untouched; while the local player is dead the timer runs down by dt, and the player respawns as RespawnLocalPlayer states exactly on the frame that takes it to zero or below, and is otherwise untouched |

## Left out

- Sockets, the receive threads, the server's lock and `get_local_ip`: each received datagram is one sequential `HandleMessage` call, and every send is appended to an outbox.
- The JSON encoding: messages are a datatype. A JSON `null` is treated like a missing key.
- Aliasing of state dictionaries. The host stores a `PLAYER_UPDATE` payload and queues that same dictionary. A later `PLAYER_RESPAWN` mutates it in place, which the model's value semantics do not show.
- The client's connect wait loop: `Networking.NetworkClient.Connect` and `AwaitAssignment` are its two ends, and the polling with its timeout is not modelled.
- All Ursina engine work: models, explosions and their debris, the camera, the mouse, the HUD, remote-player visibility and the respawn screen.
- `Player._handle_local_input`: the local flight physics use trigonometry and engine state.
- Bots.Bot.constructor: builds a bot without arena bounds, which the original cannot do because drawing the patrol point unpacks the bounds; such a bot is simply never clamped.
- `Bot._move_towards` and `_look_at_target`: the steered velocity, the facing dot product and the miss aim are parameters. `Bot.get_state` is not modelled.
- `BotManager.get_bot_shots` and `get_all_bots`: the first is a loop over `Bot.TryShoot`, the second returns the table.
- Random draws are parameters: patrol points, spawn points, the evade and accuracy rolls, the strafe side and the power-up bob phase. `Arena.get_random_spawn_point` is not modelled.
- Time is a parameter: the clock (`time.time()`) and the frame length (`time.dt`).
- Projectiles.Projectile.constructor: the direction is stored as given, while the source normalises it. This also affects the movement in `Update`.
- `Game._check_collisions` in `game/main.py` is broken as written. It reads an undefined `all_players` and iterates the pair that `check_collisions` returns as if it were a hit list. It is not modelled.
- PowerUps.EffectOf: the speed, damage and shield branches call player methods that do not exist, so they are modelled as a fault that ends the collection pass, not as effects.
- PowerUps.PowerUpSpawner.CheckCollection: the loop's deletions and queueing are applied from the returned record after the loop. The loop reads a snapshot of the table, so the result is the same.
- The engine's `clamp(v, lo, hi)` is taken to be `max(min(v, hi), lo)`, since the engine source is not part of this model.
- GameLoop.FramesToRespawn: it covers only the countdown part of `Game.update`. Firing on held mouse buttons, the HUD and network processing are left out of it.
- Integer widths play no role, since Python integers are unbounded. The only fixed-width value is the PNG header's u32, which `Png.BeU32` models.

/** The practice bots of `game/bot.py`: the difficulty table, the combat
    bookkeeping, the patrol / chase / attack / evade state machine, the bounds
    clamp and the firing gate of one `Bot`, and the `BotManager` that numbers
    bots from 1000 and respawns them from a timed queue. Steering (the
    normalised directions of `_move_towards`, `_look_at_target` and the aim of
    `try_shoot`), the random draws and the clock are parameters. */
module Bots {
  import opened Wrappers
  import opened Vectors
  import opened Dicts
  import opened Protocol
  import opened Arenas
  import opened Splash
  import opened Players

  const BotMaxHealth: int := 100
  const FirstBotId: int := 1000
  const BotRespawnDelay: real := 5.0
  /** `_clamp_to_bounds` keeps this far from every wall. */
  const BoundsMargin: real := 5.0
  /** A patrol point closer than this counts as reached. */
  const PatrolReach: real := 5.0
  const EvadeTime: real := 3.0
  const FacingThreshold: real := 0.7

  /** The parameters `_set_difficulty` assigns. */
  datatype Tuning = Tuning(speed: real, turnSpeed: real, accuracy: real, reactionTime: real,
                           aggression: real, fireRate: real, detectionRange: real)

  const Easy: Tuning := Tuning(20.0, 60.0, 0.4, 1.0, 0.3, 0.4, 60.0)
  const Medium: Tuning := Tuning(30.0, 100.0, 0.6, 0.5, 0.5, 0.15, 80.0)
  const Hard: Tuning := Tuning(40.0, 150.0, 0.85, 0.2, 0.8, 0.08, 120.0)

  /** `_set_difficulty`: "easy" and "hard" have their own rows, every other
      name gets the medium row. */
  function TuningFor(difficulty: string): (t: Tuning)
    ensures difficulty == "easy" ==> t == Easy
    ensures difficulty == "hard" ==> t == Hard
    ensures difficulty != "easy" && difficulty != "hard" ==> t == Medium
    ensures t.detectionRange > 0.0 && t.fireRate > 0.0
  {
    if difficulty == "easy" then Easy
    else if difficulty == "hard" then Hard
    else Medium
  }

  /** Each step up in difficulty is faster, more accurate, more aggressive,
      quicker to fire and sees further. */
  predicate Stronger(a: Tuning, b: Tuning) {
    && a.speed > b.speed && a.turnSpeed > b.turnSpeed && a.accuracy > b.accuracy
    && a.reactionTime < b.reactionTime && a.aggression > b.aggression
    && a.fireRate < b.fireRate && a.detectionRange > b.detectionRange
  }

  lemma DifficultyLadder()
    ensures Stronger(TuningFor("hard"), TuningFor("medium"))
    ensures Stronger(TuningFor("medium"), TuningFor("easy"))
  {
  }

  datatype BotState = Idle | Patrol | Chase | Attack | Evade

  /** The transitions the `_update_*` state handlers can take. */
  predicate Edge(from: BotState, to: BotState) {
    || (from == Patrol && to == Chase)
    || (from == Chase && (to == Attack || to == Patrol))
    || (from == Attack && (to == Evade || to == Patrol))
    || (from == Evade && (to == Chase || to == Patrol))
  }

  /** The target entity as the bot reads it in one frame. */
  datatype Sighting = Sighting(alive: bool, position: Vec3)

  predicate LiveTarget(target: Option<Sighting>) {
    target.Some? && target.value.alive
  }

  /** `(a - b).length() > r`, decided on the squared distance. */
  predicate Beyond(a: Vec3, b: Vec3, r: real) {
    DistSq(a, b) > r * r
  }

  /** What one frame of the state machine decides: the new state, timer and
      patrol point, and whether the state's steering ran (it runs unless the
      state bailed out for want of a target). */
  datatype Step = Step(state: BotState, timer: real, patrolPoint: Vec3, moved: bool)

  /** The random draws and engine results one frame of one bot consumes: a
      fresh patrol point, the evade roll, and the velocity `_move_towards`
      produces. */
  datatype Draws = Draws(patrolPoint: Vec3, evadeRoll: real, steered: Vec3)

  /** `_update_patrol`: pick a new point when the current one is reached,
      then switch to the chase when a live target is within detection range. */
  function PatrolStep(timer: real, pos: Vec3, patrol: Vec3, t: Tuning, target: Option<Sighting>, d: Draws): (st: Step)
    ensures st.moved && (st.state == Patrol || st.state == Chase)
    ensures st.state == Chase <==> LiveTarget(target) && Within(target.value.position, pos, t.detectionRange)
    ensures st.patrolPoint == patrol || st.patrolPoint == d.patrolPoint
  {
    var reached := Within(pos, patrol, PatrolReach);
    var point := if reached then d.patrolPoint else patrol;
    var tm := if reached then 0.0 else timer;
    if LiveTarget(target) && Within(target.value.position, pos, t.detectionRange) then Step(Chase, 0.0, point, true)
    else Step(Patrol, tm, point, true)
  }

  /** `_update_chase`: without a live target back to patrolling unsteered;
      otherwise attack, keep chasing or give up, keeping the patrol point. */
  function ChaseStep(timer: real, pos: Vec3, patrol: Vec3, t: Tuning, target: Option<Sighting>): (st: Step)
    ensures st.state == Chase || st.state == Attack || st.state == Patrol
    ensures st.patrolPoint == patrol
    ensures st.moved <==> LiveTarget(target)
  {
    if !LiveTarget(target) then Step(Patrol, timer, patrol, false)
    else
      var tp := target.value.position;
      var (s, tm) := if Within(tp, pos, t.detectionRange * 0.6) then (Attack, 0.0) else (Chase, timer);
      if Beyond(tp, pos, t.detectionRange * 1.5) then Step(Patrol, 0.0, patrol, true)
      else Step(s, tm, patrol, true)
  }

  /** `_update_attack`: the evade roll is drawn only when health is below
      30% of the maximum; losing the target beats evading. */
  function AttackStep(timer: real, health: int, pos: Vec3, patrol: Vec3, t: Tuning,
                      target: Option<Sighting>, d: Draws): (st: Step)
    ensures st.state == Attack || st.state == Evade || st.state == Patrol
    ensures st.patrolPoint == patrol
    ensures st.moved <==> LiveTarget(target)
    ensures st.state == Evade ==> health < 30 && d.evadeRoll < t.aggression
  {
    if !LiveTarget(target) then Step(Patrol, timer, patrol, false)
    else
      var tp := target.value.position;
      var (s, tm) := if health < 30 && d.evadeRoll < t.aggression then (Evade, 0.0) else (Attack, timer);
      if Beyond(tp, pos, t.detectionRange * 1.5) then Step(Patrol, 0.0, patrol, true)
      else Step(s, tm, patrol, true)
  }

  /** `_update_evade`: only a missing target ends it early (a dead one is still
      fled from); after 3 seconds or above half health the bot chases again. */
  function EvadeStep(timer: real, health: int, patrol: Vec3, target: Option<Sighting>): (st: Step)
    ensures st.state == Evade || st.state == Chase || st.state == Patrol
    ensures st.patrolPoint == patrol
    ensures st.state == Patrol <==> target.None?
  {
    if target.None? then Step(Patrol, timer, patrol, false)
    else if timer > EvadeTime || health > 50 then Step(Chase, 0.0, patrol, true)
    else Step(Evade, timer, patrol, true)
  }

  /** The state dispatch of `update`, after the timer has been advanced. */
  function Think(state: BotState, timer: real, health: int, pos: Vec3, patrol: Vec3, t: Tuning,
                 target: Option<Sighting>, d: Draws): (st: Step)
    ensures state == Idle ==> st == Step(Idle, timer, patrol, false)
    ensures state != Idle ==> st.state != Idle
    ensures state != Patrol ==> st.patrolPoint == patrol
  {
    match state
    case Patrol => PatrolStep(timer, pos, patrol, t, target, d)
    case Chase => ChaseStep(timer, pos, patrol, t, target)
    case Attack => AttackStep(timer, health, pos, patrol, t, target, d)
    case Evade => EvadeStep(timer, health, patrol, target)
    case Idle => Step(Idle, timer, patrol, false)
  }

  /** `_clamp_to_bounds`: nothing without bounds, otherwise every coordinate
      is kept 5 units inside the walls. */
  function ClampToBounds(p: Vec3, bounds: Option<Vec3>): (r: Vec3)
    ensures bounds.None? ==> r == p
    ensures bounds.Some? && WithinBox(bounds.value, p, BoundsMargin) ==> r == p
    ensures bounds.Some? && bounds.value.x >= BoundsMargin && bounds.value.y >= BoundsMargin && bounds.value.z >= BoundsMargin ==>
      WithinBox(bounds.value, r, BoundsMargin)
  {
    if bounds.None? then p else ClampBox(bounds.value, p, BoundsMargin)
  }

  /** The fields of a bot that its methods change. */
  datatype BotSnap = BotSnap(position: Vec3, health: int, isAlive: bool, lastShotTime: real,
                             velocity: Vec3, state: BotState, stateTimer: real, patrolPoint: Vec3)

  /** One `update` of a bot: a dead bot is frozen; a live one advances its
      timer, runs its state, moves by its velocity and is clamped. */
  function Tick(s: BotSnap, t: Tuning, bounds: Option<Vec3>, target: Option<Sighting>, dt: real, d: Draws): (r: BotSnap)
    ensures r.health == s.health && r.isAlive == s.isAlive && r.lastShotTime == s.lastShotTime
    ensures s.state != Idle ==> r.state == s.state || Edge(s.state, r.state)
  {
    if !s.isAlive then s
    else
      var step := Think(s.state, s.stateTimer + dt, s.health, s.position, s.patrolPoint, t, target, d);
      var v := if step.moved then d.steered else s.velocity;
      s.(state := step.state, stateTimer := step.timer, patrolPoint := step.patrolPoint,
         velocity := v, position := ClampToBounds(Add(s.position, Scale(v, dt)), bounds))
  }

  /** A live bot's `Tick` through a known `Think` step. */
  lemma TickThrough(s: BotSnap, t: Tuning, bounds: Option<Vec3>, target: Option<Sighting>, dt: real, d: Draws,
                    step: Step)
    requires s.isAlive && step == Think(s.state, s.stateTimer + dt, s.health, s.position, s.patrolPoint, t, target, d)
    ensures var v := if step.moved then d.steered else s.velocity;
      Tick(s, t, bounds, target, dt, d) ==
        s.(state := step.state, stateTimer := step.timer, patrolPoint := step.patrolPoint,
           velocity := v, position := ClampToBounds(Add(s.position, Scale(v, dt)), bounds))
  {
  }

  /** `respawn`: full health, alive, patrolling and stopped at `at`; the
      timer, patrol point and last shot time are kept. */
  function Respawned(s: BotSnap, at: Vec3): (r: BotSnap)
    ensures r.health == BotMaxHealth && r.isAlive && r.state == Patrol && r.velocity == Zero && r.position == at
    ensures r.stateTimer == s.stateTimer && r.patrolPoint == s.patrolPoint && r.lastShotTime == s.lastShotTime
  {
    s.(position := at, health := BotMaxHealth, isAlive := true, state := Patrol, velocity := Zero)
  }

  /** A frame never enters Idle and only ever follows one of those edges. */
  lemma ThinkFollowsEdges(state: BotState, timer: real, health: int, pos: Vec3, patrol: Vec3, t: Tuning,
                          target: Option<Sighting>, d: Draws)
    requires state != Idle
    ensures var s := Think(state, timer, health, pos, patrol, t, target, d).state;
      s == state || Edge(state, s)
  {
  }

  /** Chasing or attacking without a live target falls back to patrolling
      at once, without steering and without resetting the timer. */
  lemma NoLiveTargetPatrols(state: BotState, timer: real, health: int, pos: Vec3, patrol: Vec3, t: Tuning,
                            target: Option<Sighting>, d: Draws)
    requires state == Chase || state == Attack
    requires !LiveTarget(target)
    ensures Think(state, timer, health, pos, patrol, t, target, d) == Step(Patrol, timer, patrol, false)
  {
  }

  /** With a live target at true distance `dist`, a chase turns into an attack
      below 60% of the detection range, is given up beyond 150% of it, and
      goes on in between. */
  lemma ChaseWindow(timer: real, pos: Vec3, patrol: Vec3, t: Tuning, target: Option<Sighting>, dist: real)
    requires LiveTarget(target) && t.detectionRange > 0.0
    requires dist >= 0.0 && dist * dist == DistSq(target.value.position, pos)
    ensures var s := ChaseStep(timer, pos, patrol, t, target).state;
      && (s == Attack <==> dist < t.detectionRange * 0.6)
      && (s == Patrol <==> dist > t.detectionRange * 1.5)
      && (s == Chase <==> t.detectionRange * 0.6 <= dist <= t.detectionRange * 1.5)
  {
    var r := t.detectionRange;
    var tp := target.value.position;
    WithinIsDistance(tp, pos, r * 0.6, dist);
    SquareMonotone(r * 1.5, dist);
  }

  /** An evading bot with a target resumes the chase exactly when it has
      evaded for more than 3 seconds or is above half health. */
  lemma EvadeReturns(timer: real, health: int, patrol: Vec3, target: Option<Sighting>)
    requires target.Some?
    ensures EvadeStep(timer, health, patrol, target).state == Chase <==> timer > EvadeTime || health > 50
    ensures EvadeStep(timer, health, patrol, target).state != Patrol
  {
  }

  /** Whenever a live bot's state changes, its timer restarts, except for the
      fall-back to patrolling when the target is gone. */
  lemma ChangeRestartsTimer(state: BotState, timer: real, health: int, pos: Vec3, patrol: Vec3, t: Tuning,
                            target: Option<Sighting>, d: Draws)
    ensures var st := Think(state, timer, health, pos, patrol, t, target, d);
      st.state != state && st.moved ==> st.timer == 0.0
  {
  }

  /** A dead bot's `update` changes nothing. */
  lemma DeadBotFrozen(s: BotSnap, t: Tuning, bounds: Option<Vec3>, target: Option<Sighting>, dt: real, d: Draws)
    requires !s.isAlive
    ensures Tick(s, t, bounds, target, dt, d) == s
  {
  }

  /** With half sizes of at least the margin, a live bot ends every frame at
      least 5 units inside each wall. */
  lemma TickStaysInBounds(s: BotSnap, t: Tuning, half: Vec3, target: Option<Sighting>, dt: real, d: Draws)
    requires s.isAlive
    requires half.x >= BoundsMargin && half.y >= BoundsMargin && half.z >= BoundsMargin
    ensures WithinBox(half, Tick(s, t, Some(half), target, dt, d).position, BoundsMargin)
  {
  }

  /** One bot. `target` is the entity it hunts (the local player). */
  class Bot {
    const botId: int
    const arenaBounds: Option<Vec3>
    const difficulty: string
    const tuning: Tuning
    var position: Vec3
    var health: int
    var isAlive: bool
    var lastShotTime: real
    var velocity: Vec3
    var target: Player?
    var state: BotState
    var stateTimer: real
    var patrolPoint: Vec3

    function Snap(): BotSnap
      reads this`position, this`health, this`isAlive, this`lastShotTime, this`velocity
      reads this`state, this`stateTimer, this`patrolPoint
    {
      BotSnap(position, health, isAlive, lastShotTime, velocity, state, stateTimer, patrolPoint)
    }

    /** The target as read this frame; a bot with no target sees nothing. */
    function Seen(): Option<Sighting>
      reads this`target, target
    {
      if target == null then None else Some(Sighting(target.isAlive, target.position))
    }

    /** `__init__`: `patrol` is the point `_get_random_patrol_point` draws.
        That draw unpacks the arena bounds, so the original raises for a bot
        without bounds; the model, which takes the draw as a parameter, is
        more permissive and builds such a bot, which is then never clamped. */
    constructor (id: int, at: Vec3, bounds: Option<Vec3>, difficulty: string, patrol: Vec3)
      ensures botId == id && arenaBounds == bounds && this.difficulty == difficulty
      ensures tuning == TuningFor(difficulty) && target == null
      ensures Snap() == BotSnap(at, BotMaxHealth, true, 0.0, Zero, Patrol, 0.0, patrol)
    {
      botId, arenaBounds, this.difficulty := id, bounds, difficulty;
      tuning := TuningFor(difficulty);
      position, health, isAlive, lastShotTime := at, BotMaxHealth, true, 0.0;
      velocity, target := Zero, null;
      state, stateTimer, patrolPoint := Patrol, 0.0, patrol;
    }

    /** `update`, one frame of `dt` seconds. */
    method Update(dt: real, d: Draws)
      modifies this`state, this`stateTimer, this`patrolPoint, this`velocity, this`position
      ensures Snap() == Tick(old(Snap()), tuning, arenaBounds, old(Seen()), dt, d)
    {
      if !isAlive {
        return;
      }
      ghost var before := Snap();
      var seen := Seen();
      stateTimer := stateTimer + dt;
      var step := Think(state, stateTimer, health, position, patrolPoint, tuning, seen, d);
      assert step == Think(before.state, before.stateTimer + dt, before.health, before.position,
                           before.patrolPoint, tuning, seen, d);
      state, stateTimer, patrolPoint := step.state, step.timer, step.patrolPoint;
      if step.moved {
        velocity := d.steered;
      }
      position := Add(position, Scale(velocity, dt));
      position := ClampToBounds(position, arenaBounds);
      TickThrough(before, tuning, arenaBounds, seen, dt, d, step);
    }

    /** `can_shoot`. */
    predicate CanShoot(now: real)
      reads this
    {
      isAlive && now - lastShotTime >= tuning.fireRate
    }

    /** `try_shoot`: a shot only from a bot that may fire, has a target, is
        attacking and faces the target closely enough (`facingDot` is the dot
        product of its forward axis and the direction to the target). A roll
        above the accuracy aims at `missAim`, the direction to a point offset
        at random, and otherwise at `toTarget`. */
    method TryShoot(now: real, facingDot: real, roll: real, toTarget: Vec3, missAim: Vec3)
      returns (shot: Option<ProjectileData>)
      modifies this`lastShotTime
      ensures shot.Some? <==>
        old(CanShoot(now)) && target != null && state == Attack && facingDot >= FacingThreshold
      ensures shot.Some? ==>
        && lastShotTime == now
        && shot.value == ProjectileData(None, Some(botId), Some(position),
                                        Some(if roll > tuning.accuracy then missAim else toTarget),
                                        Some("primary"))
      ensures shot.None? ==> lastShotTime == old(lastShotTime)
    {
      if !CanShoot(now) || target == null {
        return None;
      }
      if state != Attack {
        return None;
      }
      if facingDot < FacingThreshold {
        return None;
      }
      var direction := if roll > tuning.accuracy then missAim else toTarget;
      lastShotTime := now;
      return Some(ProjectileData(None, Some(botId), Some(position), Some(direction), Some("primary")));
    }

    method SetTarget(entity: Player?)
      modifies this`target
      ensures target == entity
    {
      target := entity;
    }

    /** `take_damage`: a dead bot ignores the hit; otherwise health drops by
        `amount`, a patrolling bot turns to the chase, and the bot dies exactly
        when health is no longer positive. */
    method TakeDamage(amount: int, attackerId: Option<int>) returns (died: bool)
      modifies this`health, this`state, this`isAlive, this`velocity
      ensures !old(isAlive) ==> !died && Snap() == old(Snap())
      ensures old(isAlive) ==>
        && health == old(health) - amount
        && state == (if old(state) == Patrol then Chase else old(state))
        && (died <==> health <= 0)
        && isAlive == !died
        && velocity == (if died then Zero else old(velocity))
    {
      if !isAlive {
        return false;
      }
      health := health - amount;
      if state == Patrol {
        state := Chase;
      }
      if health <= 0 {
        Die();
        return true;
      }
      return false;
    }

    /** `die`: not alive and stopped. */
    method Die()
      modifies this`isAlive, this`velocity
      ensures !isAlive && velocity == Zero
    {
      isAlive := false;
      velocity := Zero;
    }

    /** `respawn`: at `at` when given, otherwise at `randomPoint`, the point
        `_get_random_patrol_point` draws. */
    method Respawn(at: Option<Vec3>, randomPoint: Vec3)
      modifies this`position, this`health, this`isAlive, this`state, this`velocity
      ensures Snap() == Respawned(old(Snap()), at.GetOr(randomPoint))
    {
      if at.Some? {
        position := at.value;
      } else {
        position := randomPoint;
      }
      health := BotMaxHealth;
      isAlive := true;
      state := Patrol;
      velocity := Zero;
    }
  }

  /** One entry of the respawn queue: when, and which bot. */
  datatype Queued = Queued(time: real, botId: int)

  /** The entries `BotManager.update` keeps: those not yet due, in order. */
  function Pending(q: seq<Queued>, now: real): (r: seq<Queued>)
    ensures |r| <= |q|
    ensures forall i | 0 <= i < |r| :: now < r[i].time
  {
    if q == [] then []
    else
      var init := Pending(q[..|q| - 1], now);
      if now >= q[|q| - 1].time then init else init + [q[|q| - 1]]
  }

  /** An entry is kept exactly when it is not yet due. */
  lemma {:induction false} PendingExactly(q: seq<Queued>, now: real)
    ensures forall e | e in Pending(q, now) :: e in q && e.time > now
    ensures forall e | e in q && e.time > now :: e in Pending(q, now)
  {
    if q != [] {
      var init := q[..|q| - 1];
      PendingExactly(init, now);
      assert q == init + [q[|q| - 1]];
    }
  }

  /** The last due entry for bot `k`, whose draw decides where it respawns. */
  function LastDue(q: seq<Queued>, now: real, k: int): (r: Option<nat>)
    ensures r.Some? ==> r.value < |q| && q[r.value].botId == k && now >= q[r.value].time
    ensures r.None? ==> forall i | 0 <= i < |q| :: q[i].botId != k || now < q[i].time
  {
    if q == [] then None
    else if q[|q| - 1].botId == k && now >= q[|q| - 1].time then Some(|q| - 1)
    else LastDue(q[..|q| - 1], now, k)
  }

  /** A bot's fields once the due entries of `q` have been worked through:
      respawned at the draw of its last due entry, if it has one. */
  function AfterRespawns(s: BotSnap, q: seq<Queued>, now: real, k: int, draws: seq<Vec3>): (r: BotSnap)
    requires |q| <= |draws|
    ensures LastDue(q, now, k).None? ==> r == s
    ensures LastDue(q, now, k).Some? ==>
      r.isAlive && r.health == BotMaxHealth && r.state == Patrol && r.velocity == Zero
  {
    var last := LastDue(q, now, k);
    if last.Some? then Respawned(s, draws[last.value]) else s
  }

  /** Respawning again overrides the earlier respawn. */
  lemma AfterRespawnsStep(s: BotSnap, q: seq<Queued>, i: nat, now: real, k: int, draws: seq<Vec3>)
    requires i < |q| <= |draws|
    ensures AfterRespawns(s, q[..i + 1], now, k, draws) ==
            var prev := AfterRespawns(s, q[..i], now, k, draws);
            if now >= q[i].time && q[i].botId == k then Respawned(prev, draws[i]) else prev
  {
    assert q[..i + 1][..i] == q[..i];
  }

  class BotManager {
    const arenaBounds: Option<Vec3>
    const difficulty: string
    var bots: Dict<int, Bot>
    var nextBotId: int
    var respawnQueue: seq<Queued>
    const respawnDelay: real

    /** Every bot is stored under its own id, which lies below the counter. */
    ghost predicate Valid()
      reads this
    {
      && bots.Valid() && nextBotId >= FirstBotId
      && forall k | k in bots.entries :: FirstBotId <= k < nextBotId && bots.entries[k].botId == k
    }

    ghost function Snaps(): map<int, BotSnap>
      reads this, bots.entries.Values
    {
      map k | k in bots.entries :: bots.entries[k].Snap()
    }

    constructor (bounds: Option<Vec3>, difficulty: string)
      ensures Valid()
      ensures arenaBounds == bounds && this.difficulty == difficulty
      ensures bots == Empty() && nextBotId == FirstBotId && respawnQueue == [] && respawnDelay == BotRespawnDelay
    {
      arenaBounds, this.difficulty := bounds, difficulty;
      bots := Empty();
      nextBotId := FirstBotId;
      respawnQueue := [];
      respawnDelay := BotRespawnDelay;
    }

    /** `spawn_bot`: the next id, stored under that id; `at` when given,
        otherwise `randomPoint`. */
    method SpawnBot(at: Option<Vec3>, randomPoint: Vec3, patrol: Vec3) returns (bot: Bot)
      requires Valid()
      modifies this`bots, this`nextBotId
      ensures Valid()
      ensures fresh(bot)
      ensures bot.botId == old(nextBotId) && nextBotId == old(nextBotId) + 1
      ensures bot.botId !in old(bots.entries)
      ensures bots == old(bots).Put(bot.botId, bot) && bots.order == old(bots.order) + [bot.botId]
      ensures bot.arenaBounds == arenaBounds && bot.tuning == TuningFor(difficulty) && bot.target == null
      ensures bot.Snap() == BotSnap(at.GetOr(randomPoint), BotMaxHealth, true, 0.0, Zero, Patrol, 0.0, patrol)
    {
      var id := nextBotId;
      nextBotId := nextBotId + 1;
      var p := if at.Some? then at.value else randomPoint;
      bot := new Bot(id, p, arenaBounds, difficulty, patrol);
      bots := bots.Put(id, bot);
    }

    /** `spawn_bots`: `count` bots at drawn positions, numbered on from the
        counter. */
    method SpawnBots(count: nat, points: seq<Vec3>, patrols: seq<Vec3>)
      requires Valid()
      requires |points| == count && |patrols| == count
      modifies this`bots, this`nextBotId
      ensures Valid()
      ensures nextBotId == old(nextBotId) + count
      ensures bots.order == old(bots.order) + IdRange(old(nextBotId), count)
      ensures forall k | k in old(bots.entries) :: k in bots.entries && bots.entries[k] == old(bots.entries[k])
      ensures forall k | old(nextBotId) <= k < nextBotId ::
        && k in bots.entries && fresh(bots.entries[k])
        && bots.entries[k].Snap() == BotSnap(points[k - old(nextBotId)], BotMaxHealth, true, 0.0, Zero, Patrol, 0.0, patrols[k - old(nextBotId)])
    {
      var i := 0;
      ghost var made: seq<Bot> := [];
      while i < count
        invariant i == |made| <= count
        invariant Valid() && Spawned(old(nextBotId), old(bots.entries), old(bots.order), made, points, patrols)
        invariant forall j | 0 <= j < |made| :: fresh(made[j])
      {
        var bot := SpawnNext(i, old(nextBotId), old(bots.entries), old(bots.order), made, points, patrols);
        made := made + [bot];
        i := i + 1;
      }
      SpawnedAt(old(nextBotId), old(bots.entries), old(bots.order), made, points, patrols);
    }

    /** The table after `spawn_bots` has made the bots `made`, counting on
        from `base`: the earlier bots are kept and the `j`-th new one is
        stored under `base + j`, at the `j`-th point, patrolling toward the
        `j`-th drawn point. */
    ghost predicate Spawned(base: int, entries0: map<int, Bot>, order0: seq<int>, made: seq<Bot>,
                            points: seq<Vec3>, patrols: seq<Vec3>)
      reads this, set b | b in made
    {
      && nextBotId == base + |made| && Placed(made, points, patrols)
      && bots.order == order0 + IdRange(base, |made|)
      && (forall k | k in entries0 :: k in bots.entries && bots.entries[k] == entries0[k])
      && forall j | 0 <= j < |made| :: bots.Get(base + j) == Some(made[j])
    }

    /** The `j`-th bot of `made` stands fresh at the `j`-th point, patrolling
        toward the `j`-th drawn point. */
    ghost predicate Placed(made: seq<Bot>, points: seq<Vec3>, patrols: seq<Vec3>)
      reads set b | b in made
    {
      && |made| <= |points| && |made| <= |patrols|
      && forall j | 0 <= j < |made| ::
           made[j].Snap() == BotSnap(points[j], BotMaxHealth, true, 0.0, Zero, Patrol, 0.0, patrols[j])
    }

    /** The bots `Spawned` stores under the ids from `base` on. */
    lemma SpawnedAt(base: int, entries0: map<int, Bot>, order0: seq<int>, made: seq<Bot>,
                    points: seq<Vec3>, patrols: seq<Vec3>)
      requires Spawned(base, entries0, order0, made, points, patrols)
      ensures forall k | base <= k < base + |made| ::
        && k in bots.entries && bots.entries[k] == made[k - base]
        && made[k - base].Snap() == BotSnap(points[k - base], BotMaxHealth, true, 0.0, Zero, Patrol, 0.0, patrols[k - base])
    {
      forall k | base <= k < base + |made|
        ensures k in bots.entries && bots.entries[k] == made[k - base]
      {
        assert bots.Get(base + (k - base)) == Some(made[k - base]);
      }
    }

    /** One iteration of `spawn_bots`. */
    method SpawnNext(i: nat, ghost base: int, ghost entries0: map<int, Bot>, ghost order0: seq<int>, ghost made: seq<Bot>,
                     points: seq<Vec3>, patrols: seq<Vec3>)
      returns (bot: Bot)
      requires Valid() && Spawned(base, entries0, order0, made, points, patrols)
      requires i == |made| && i < |points| && i < |patrols|
      modifies this`bots, this`nextBotId
      ensures Valid() && fresh(bot)
      ensures Spawned(base, entries0, order0, made + [bot], points, patrols)
    {
      bot := SpawnBot(None, points[i], patrols[i]);
      assert Placed(made, points, patrols);
      forall j | 0 <= j < |made + [bot]|
        ensures (made + [bot])[j].Snap() == BotSnap(points[j], BotMaxHealth, true, 0.0, Zero, Patrol, 0.0, patrols[j])
      {
        if j < |made| {
          assert (made + [bot])[j] == made[j];
        }
      }
      assert Placed(made + [bot], points, patrols);
      forall j | 0 <= j < |made + [bot]|
        ensures bots.Get(base + j) == Some((made + [bot])[j])
      {
        if j < |made| {
          assert (made + [bot])[j] == made[j] && base + j in old(bots.entries);
        } else {
          assert base + j == bot.botId;
        }
      }
      assert nextBotId == base + |made + [bot]| && bots.order == order0 + IdRange(base, |made + [bot]|);
      assert forall k | k in entries0 :: k in bots.entries && bots.entries[k] == entries0[k];
    }

    /** `set_target_for_all`. */
    method SetTargetForAll(entity: Player?)
      requires Valid()
      modifies bots.entries.Values`target
      ensures forall k | k in bots.entries :: bots.entries[k].target == entity
    {
      var order := bots.order;
      var m := bots.entries;
      ghost var done: set<int> := {};
      var i := 0;
      while i < |order|
        invariant 0 <= i <= |order|
        invariant forall j | 0 <= j < i :: order[j] in done
        invariant forall k | k in m && k in done :: m[k].target == entity
      {
        var k := order[i];
        var b := m[k];
        b.SetTarget(entity);
        assert forall j | j in m && j != k :: m[j] != b;
        done := done + {k};
        i := i + 1;
      }
    }

    /** Distinct ids hold distinct bots, so updating one bot leaves the others
        alone. */
    lemma BotsDistinct()
      requires Valid()
      ensures forall a, b | a in bots.entries && b in bots.entries && a != b :: bots.entries[a] != bots.entries[b]
    {
    }

    /** The per-bot loop of `update`. `draws[k]` holds what bot `k`'s frame
        draws. */
    method UpdateBots(dt: real, draws: map<int, Draws>)
      requires Valid()
      requires forall k | k in bots.entries :: k in draws
      modifies bots.entries.Values`state, bots.entries.Values`stateTimer, bots.entries.Values`patrolPoint
      modifies bots.entries.Values`velocity, bots.entries.Values`position
      ensures forall k | k in bots.entries ::
        bots.entries[k].Snap() ==
          Tick(old(bots.entries[k].Snap()), bots.entries[k].tuning, bots.entries[k].arenaBounds,
               old(bots.entries[k].Seen()), dt, draws[k])
    {
      var order := bots.order;
      var m := bots.entries;
      BotsDistinct();
      ghost var before := map k | k in m :: m[k].Snap();
      ghost var goal := map k | k in m :: Tick(m[k].Snap(), m[k].tuning, m[k].arenaBounds, m[k].Seen(), dt, draws[k]);
      ghost var seen := map k | k in m :: m[k].Seen();
      UpdateLoop(order, m, dt, draws, before, goal, seen);
    }

    /** The loop of `UpdateBots` over the bots in dictionary order, each bot
        advanced exactly once. */
    static method UpdateLoop(order: seq<int>, m: map<int, Bot>, dt: real, draws: map<int, Draws>,
       ghost before: map<int, BotSnap>, ghost goal: map<int, BotSnap>, ghost seen: map<int, Option<Sighting>>)
      requires Distinct(order)
      requires forall k | k in m :: k in order
      requires forall k | k in order :: k in m && k in draws && k in before && k in goal && k in seen
      requires forall a, b | a in m && b in m && a != b :: m[a] != m[b]
      requires forall k | k in m :: m[k].Seen() == seen[k] && m[k].Snap() == before[k]
      requires forall k | k in m :: goal[k] == Tick(before[k], m[k].tuning, m[k].arenaBounds, seen[k], dt, draws[k])
      modifies m.Values`state, m.Values`stateTimer, m.Values`patrolPoint, m.Values`velocity, m.Values`position
      ensures forall k | k in m :: m[k].Snap() == goal[k]
    {
      ghost var done: set<int> := {};
      var i := 0;
      while i < |order|
        invariant 0 <= i <= |order|
        invariant forall j | 0 <= j < |order| :: order[j] in done <==> j < i
        invariant done <= m.Keys
        invariant forall k | k in m :: m[k].Seen() == seen[k]
        invariant forall k | k in m :: m[k].Snap() == if k in done then goal[k] else before[k]
      {
        var k := order[i];
        var b := m[k];
        b.Update(dt, draws[k]);
        done := done + {k};
        i := i + 1;
      }
    }

    /** The respawn loop of `update`: every due entry whose bot still exists
        respawns it at its own drawn point (`draws[i]` for entry `i`), and the
        entries not yet due stay queued in order. */
    method ProcessRespawns(now: real, draws: seq<Vec3>)
      requires Valid()
      requires |draws| == |respawnQueue|
      modifies this`respawnQueue
      modifies bots.entries.Values`position, bots.entries.Values`health, bots.entries.Values`isAlive
      modifies bots.entries.Values`state, bots.entries.Values`velocity
      ensures respawnQueue == Pending(old(respawnQueue), now)
      ensures forall k | k in bots.entries ::
        bots.entries[k].Snap() == AfterRespawns(old(bots.entries[k].Snap()), old(respawnQueue), now, k, draws)
    {
      var m := bots.entries;
      BotsDistinct();
      ghost var before := Snaps();
      var kept := RespawnLoop(respawnQueue, m, now, draws, before);
      respawnQueue := kept;
    }

    /** The loop of `ProcessRespawns` over the queue in order. */
    static method RespawnLoop(q: seq<Queued>, m: map<int, Bot>, now: real, draws: seq<Vec3>,
                              ghost before: map<int, BotSnap>)
      returns (kept: seq<Queued>)
      requires |draws| == |q|
      requires forall a, b | a in m && b in m && a != b :: m[a] != m[b]
      requires forall k | k in m :: k in before && m[k].Snap() == before[k]
      modifies m.Values`position, m.Values`health, m.Values`isAlive, m.Values`state, m.Values`velocity
      ensures kept == Pending(q, now)
      ensures forall k | k in m :: m[k].Snap() == AfterRespawns(before[k], q, now, k, draws)
    {
      kept := [];
      var i := 0;
      assert q[..0] == [];
      while i < |q|
        invariant 0 <= i <= |q|
        invariant kept == Pending(q[..i], now)
        invariant forall k | k in m :: m[k].Snap() == AfterRespawns(before[k], q[..i], now, k, draws)
      {
        assert q[..i + 1][..i] == q[..i];
        forall k | k in m {
          AfterRespawnsStep(before[k], q, i, now, k, draws);
        }
        RespawnEntry(q[i], m, now, draws[i]);
        if now < q[i].time {
          kept := kept + [q[i]];
        }
        i := i + 1;
      }
      assert q[..|q|] == q;
    }

    /** One entry of the respawn loop: a due entry respawns its bot, if that
        bot still exists, at `at`; every other bot is left alone. */
    static method RespawnEntry(e: Queued, m: map<int, Bot>, now: real, at: Vec3)
      requires forall a, b | a in m && b in m && a != b :: m[a] != m[b]
      modifies m.Values`position, m.Values`health, m.Values`isAlive, m.Values`state, m.Values`velocity
      ensures forall k | k in m ::
        m[k].Snap() == if now >= e.time && e.botId == k then Respawned(old(m[k].Snap()), at) else old(m[k].Snap())
    {
      if now >= e.time && e.botId in m {
        m[e.botId].Respawn(None, at);
      }
    }

    /** `update`: every bot's frame, then the respawn queue. */
    method Update(now: real, dt: real, draws: map<int, Draws>, respawnDraws: seq<Vec3>)
      requires Valid()
      requires forall k | k in bots.entries :: k in draws
      requires |respawnDraws| == |respawnQueue|
      modifies this`respawnQueue, bots.entries.Values`state, bots.entries.Values`stateTimer
      modifies bots.entries.Values`patrolPoint, bots.entries.Values`velocity, bots.entries.Values`position
      modifies bots.entries.Values`health, bots.entries.Values`isAlive
      ensures respawnQueue == Pending(old(respawnQueue), now)
      ensures forall k | k in bots.entries ::
        var ticked := Tick(old(bots.entries[k].Snap()), bots.entries[k].tuning, bots.entries[k].arenaBounds,
                           old(bots.entries[k].Seen()), dt, draws[k]);
        bots.entries[k].Snap() == AfterRespawns(ticked, old(respawnQueue), now, k, respawnDraws)
    {
      UpdateBots(dt, draws);
      ProcessRespawns(now, respawnDraws);
    }

    /** `handle_bot_death`: a known bot is queued to respawn 5 seconds from
        `now`; an unknown id changes nothing. */
    method HandleBotDeath(botId: int, now: real)
      modifies this`respawnQueue
      ensures respawnQueue ==
        if botId in bots.entries then old(respawnQueue) + [Queued(now + respawnDelay, botId)]
        else old(respawnQueue)
    {
      if botId in bots.entries {
        respawnQueue := respawnQueue + [Queued(now + respawnDelay, botId)];
      }
    }

    /** `damage_bot`: false for an unknown id; otherwise the bot's own
        `take_damage`, and a death is queued for respawn. */
    method DamageBot(botId: int, damage: int, attackerId: Option<int>, now: real) returns (died: bool)
      requires Valid()
      modifies this`respawnQueue, bots.entries.Values`health, bots.entries.Values`state
      modifies bots.entries.Values`isAlive, bots.entries.Values`velocity
      ensures botId !in bots.entries ==> !died && respawnQueue == old(respawnQueue)
      ensures died ==> botId in bots.entries && old(bots.entries[botId].isAlive) &&
                       !bots.entries[botId].isAlive && bots.entries[botId].health <= 0
      ensures respawnQueue == if died then old(respawnQueue) + [Queued(now + respawnDelay, botId)]
                              else old(respawnQueue)
      ensures botId in bots.entries && !old(bots.entries[botId].isAlive) ==>
        !died && bots.entries[botId].Snap() == old(bots.entries[botId].Snap())
      ensures botId in bots.entries && old(bots.entries[botId].isAlive) ==>
        var b := bots.entries[botId];
        && (died <==> b.health <= 0)
        && b.Snap() == old(b.Snap()).(health := old(b.health) - damage,
                                      state := if old(b.state) == Patrol then Chase else old(b.state),
                                      isAlive := !died,
                                      velocity := if died then Zero else old(b.velocity))
      ensures forall k | k in bots.entries && k != botId :: bots.entries[k].Snap() == old(bots.entries[k].Snap())
    {
      if botId !in bots.entries {
        return false;
      }
      var b := bots.entries[botId];
      died := b.TakeDamage(damage, attackerId);
      assert forall j | j in bots.entries && j != botId :: bots.entries[j] != b;
      if died {
        HandleBotDeath(botId, now);
      }
    }

    /** `cleanup`: every bot destroyed and forgotten, the queue emptied. */
    method Cleanup()
      modifies this`bots, this`respawnQueue
      ensures bots == Empty() && respawnQueue == []
    {
      bots := Empty();
      respawnQueue := [];
    }
  }
}

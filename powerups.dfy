/** Collectible power-ups (`game/powerups.py`): the per-type table, one-shot
    collection with its health effect, and the spawner that numbers power-ups,
    collects those a player flies through and brings them back from a timed
    queue. The bobbing animation's sine, the shuffle of the spawn points and
    the clock are parameters. */
module PowerUps {
  import opened Wrappers
  import opened Vectors
  import opened Dicts
  import opened Splash
  import opened Players

  /** The health effect never raises health above this. */
  const HealthCap: int := 100
  const HealthBonus: int := 25
  /** A player closer than this to a power-up collects it. */
  const CollectionRadius: real := 3.0

  /** The entries of `PowerUp.TYPES` the model uses: how long the effect lasts
      and how long the power-up takes to come back. */
  datatype TypeData = TypeData(duration: real, respawnTime: real)

  /** `TYPES.get(powerup_type, TYPES['health'])`: an unknown type borrows the
      health row. */
  function TypeDataFor(powerupType: string): (t: TypeData)
    ensures powerupType == "health" ==> t == TypeData(0.0, 15.0)
    ensures powerupType == "speed" ==> t == TypeData(10.0, 20.0)
    ensures powerupType == "damage" ==> t == TypeData(10.0, 25.0)
    ensures powerupType == "shield" ==> t == TypeData(0.0, 30.0)
    ensures !KnownType(powerupType) ==> t == TypeData(0.0, 15.0)
    ensures t.respawnTime > 0.0 && t.duration >= 0.0
  {
    if powerupType == "speed" then TypeData(10.0, 20.0)
    else if powerupType == "damage" then TypeData(10.0, 25.0)
    else if powerupType == "shield" then TypeData(0.0, 30.0)
    else TypeData(0.0, 15.0)
  }

  predicate KnownType(powerupType: string) {
    powerupType in {"health", "speed", "damage", "shield"}
  }

  /** The dictionary `_apply_effect` returns for a health power-up. */
  datatype Effect = HealthGain(amount: int)

  /** What applying an effect comes to: an effect, `None`, or a fault. The
      speed, damage and shield branches call player methods that do not
      exist, so they raise instead of returning. */
  datatype Outcome = Gave(effect: Effect) | NoEffect | Fault

  /** `min(100, health + 25)`. */
  function Boosted(health: int): (r: int)
    ensures r <= HealthCap || r == health + HealthBonus
    ensures health <= HealthCap ==> health <= r <= HealthCap
    ensures r == health + HealthBonus || r == HealthCap
    ensures health + HealthBonus <= HealthCap ==> r == health + HealthBonus
  {
    if health + HealthBonus < HealthCap then health + HealthBonus else HealthCap
  }

  /** `_apply_effect` for a player at `health`. */
  function EffectOf(powerupType: string, health: int): (o: Outcome)
    ensures o.Gave? <==> powerupType == "health"
    ensures o.Fault? <==> powerupType in {"speed", "damage", "shield"}
    ensures o.NoEffect? <==> !KnownType(powerupType)
    ensures o.Gave? ==> health + o.effect.amount == Boosted(health)
  {
    if powerupType == "health" then Gave(HealthGain(Boosted(health) - health))
    else if powerupType in {"speed", "damage", "shield"} then Fault
    else NoEffect
  }

  /** A health pick-up gains between 0 and 25 points for a player at no more
      than full health, and a full player gains nothing. */
  lemma HealthGainBounded(health: int)
    requires health <= HealthCap
    ensures var o := EffectOf("health", health);
      0 <= o.effect.amount <= HealthBonus && (health == HealthCap ==> o.effect.amount == 0)
  {
  }

  /** Picking up a second health power-up after the first: both gains add up
      to the capped total. */
  lemma HealthGainsCompose(health: int)
    requires health <= HealthCap
    ensures var h1 := Boosted(health);
      Boosted(h1) == (if health + 2 * HealthBonus < HealthCap then health + 2 * HealthBonus else HealthCap)
  {
  }

  /** The fifteen spawn points `_create_spawn_points` lays out for half sizes
      `h`: four corners, three heights on the centre line, four mid-points and
      four fixed platforms. */
  function SpawnPoints(h: Vec3): (ps: seq<Vec3>)
    ensures |ps| == 15 && forall i | 0 <= i < 15 :: ps[i] == SpawnPointAt(h, i)
  {
    seq(15, i requires 0 <= i < 15 => SpawnPointAt(h, i))
  }

  function SpawnPointAt(h: Vec3, i: int): Vec3
    requires 0 <= i < 15
  {
    match i
    case 0 => Vec3(-h.x + 20.0, 0.0, -h.z + 20.0)
    case 1 => Vec3(h.x - 20.0, 0.0, -h.z + 20.0)
    case 2 => Vec3(-h.x + 20.0, 0.0, h.z - 20.0)
    case 3 => Vec3(h.x - 20.0, 0.0, h.z - 20.0)
    case 4 => Vec3(0.0, -h.y + 10.0, 0.0)
    case 5 => Vec3(0.0, 0.0, 0.0)
    case 6 => Vec3(0.0, h.y - 10.0, 0.0)
    case 7 => Vec3(-h.x + 30.0, 10.0, 0.0)
    case 8 => Vec3(h.x - 30.0, 10.0, 0.0)
    case 9 => Vec3(0.0, 10.0, -h.z + 30.0)
    case 10 => Vec3(0.0, 10.0, h.z - 30.0)
    case 11 => Vec3(40.0, 15.0, 40.0)
    case 12 => Vec3(-40.0, 15.0, -40.0)
    case 13 => Vec3(40.0, -15.0, -40.0)
    case _ => Vec3(-40.0, -15.0, 40.0)
  }

  /** Within half sizes of at least 40 on x and z and 15 on y, every spawn
      point lies inside the arena box. */
  lemma SpawnPointsInside(h: Vec3, i: int)
    requires h.x >= 40.0 && h.y >= 15.0 && h.z >= 40.0 && 0 <= i < 15
    ensures var p := SpawnPoints(h)[i];
      -h.x <= p.x <= h.x && -h.y <= p.y <= h.y && -h.z <= p.z <= h.z
  {
  }

  /** A shuffle keeps the length. */
  lemma ShuffleLength<T>(a: seq<T>, b: seq<T>)
    requires multiset(a) == multiset(b)
    ensures |a| == |b|
  {
    assert |a| == |multiset(a)|;
  }

  /** The types `_spawn_initial_powerups` places, in order. */
  const InitialTypes: seq<string> := ["health", "health", "speed", "damage", "shield"]

  class PowerUp {
    const powerupType: string
    const powerupId: int
    const typeData: TypeData
    const spawnPosition: Vec3
    var position: Vec3
    var active: bool

    constructor (powerupType: string, at: Vec3, id: int)
      ensures this.powerupType == powerupType && powerupId == id && typeData == TypeDataFor(powerupType)
      ensures spawnPosition == at && position == at && active
    {
      this.powerupType, powerupId := powerupType, id;
      typeData := TypeDataFor(powerupType);
      spawnPosition, position := at, at;
      active := true;
    }

    /** `update`: an active power-up bobs around its spawn height (`bob` is
        the sine term of the frame); the spin and the glow are not modelled. */
    method Animate(bob: real)
      modifies this`position
      ensures old(active) ==> position == old(position).(y := spawnPosition.y + bob)
      ensures !old(active) ==> position == old(position)
    {
      if !active {
        return;
      }
      position := position.(y := spawnPosition.y + bob);
    }

    /** `collect`: an inactive power-up gives nothing and changes nothing;
        an active one is used up and applies its effect to `player`, so a
        second call gives nothing. */
    method Collect(player: Player) returns (o: Outcome)
      modifies this`active, player`health
      ensures !old(active) ==> o == NoEffect && !active && player.health == old(player.health)
      ensures old(active) ==> !active && o == EffectOf(powerupType, old(player.health))
      ensures old(active) && o.Gave? ==> player.health == Boosted(old(player.health))
      ensures !(old(active) && o.Gave?) ==> player.health == old(player.health)
    {
      if !active {
        return NoEffect;
      }
      active := false;
      o := ApplyEffect(player);
    }

    /** `_apply_effect`: the health branch raises health to at most 100 and
        reports the gain. */
    method ApplyEffect(player: Player) returns (o: Outcome)
      modifies player`health
      ensures o == EffectOf(powerupType, old(player.health))
      ensures player.health == if o.Gave? then Boosted(old(player.health)) else old(player.health)
    {
      if powerupType == "health" {
        var oldHealth := player.health;
        player.health := if HealthCap < player.health + HealthBonus then HealthCap else player.health + HealthBonus;
        return Gave(HealthGain(player.health - oldHealth));
      } else if powerupType in {"speed", "damage", "shield"} {
        return Fault;
      }
      return NoEffect;
    }
  }

  /** One respawn-queue entry: when, which type, where, and the old id. */
  datatype Queued = Queued(time: real, powerupType: string, position: Vec3, powerupId: int)

  /** The entries `update` respawns, in queue order. */
  function Due(q: seq<Queued>, now: real): (r: seq<Queued>)
    ensures |r| <= |q|
    ensures forall i | 0 <= i < |r| :: r[i].time <= now
  {
    if q == [] then []
    else
      var init := Due(q[..|q| - 1], now);
      if now >= q[|q| - 1].time then init + [q[|q| - 1]] else init
  }

  /** The entries `update` keeps, in queue order. */
  function Kept(q: seq<Queued>, now: real): (r: seq<Queued>)
    ensures |r| <= |q|
    ensures |r| + |Due(q, now)| == |q|
  {
    if q == [] then []
    else
      var init := Kept(q[..|q| - 1], now);
      if now >= q[|q| - 1].time then init else init + [q[|q| - 1]]
  }

  /** One more entry of the queue goes to exactly one of the two sides. */
  lemma QueueStep(q: seq<Queued>, i: nat, now: real)
    requires i < |q|
    ensures Due(q[..i + 1], now) == if now >= q[i].time then Due(q[..i], now) + [q[i]] else Due(q[..i], now)
    ensures Kept(q[..i + 1], now) == if now >= q[i].time then Kept(q[..i], now) else Kept(q[..i], now) + [q[i]]
  {
    assert q[..i + 1][..i] == q[..i];
  }

  /** `update` splits the queue: every entry is either respawned (it is due) or
      kept (it is not), none is lost or duplicated. */
  lemma {:induction false} DueKeptPartition(q: seq<Queued>, now: real)
    ensures multiset(Due(q, now)) + multiset(Kept(q, now)) == multiset(q)
    ensures forall e | e in Due(q, now) :: e.time <= now
    ensures forall e | e in Kept(q, now) :: e.time > now
  {
    if q != [] {
      var init := q[..|q| - 1];
      DueKeptPartition(init, now);
      assert q == init + [q[|q| - 1]];
    }
  }

  /** A power-up as the collection loop reads it when its turn comes. */
  datatype Item = Item(id: int, powerupType: string, active: bool, position: Vec3,
                       spawnPosition: Vec3, respawnTime: real)

  /** What a collection pass has done so far: the effects returned, the
      respawns queued, the ids collected, the ids deleted, the player's
      health, and whether an effect raised (which ends the pass). */
  datatype Sweep = Sweep(collected: seq<Effect>, queued: seq<Queued>, touched: seq<int>,
                         removed: seq<int>, health: int, fault: bool)

  predicate InReach(it: Item, at: Vec3) {
    it.active && Within(it.position, at, CollectionRadius)
  }

  /** One iteration of `check_collection`. */
  function SweepStep(s: Sweep, it: Item, at: Vec3, now: real): (r: Sweep)
    ensures s.fault || !InReach(it, at) ==> r == s
    ensures !s.fault && InReach(it, at) ==> r.touched == s.touched + [it.id]
    ensures r.removed == s.removed || r.removed == s.removed + [it.id]
    ensures |r.collected| - |s.collected| == |r.queued| - |s.queued|
  {
    if s.fault || !InReach(it, at) then s
    else
      var touched := s.touched + [it.id];
      match EffectOf(it.powerupType, s.health)
      case Fault => s.(touched := touched, fault := true)
      case NoEffect => s.(touched := touched, removed := s.removed + [it.id])
      case Gave(e) =>
        s.(collected := s.collected + [e],
           queued := s.queued + [Queued(now + it.respawnTime, it.powerupType, it.spawnPosition, it.id)],
           touched := touched, removed := s.removed + [it.id], health := s.health + e.amount)
  }

  /** `check_collection` over the items in dictionary order, for a player at
      `at` with `health`. */
  function Sweeping(items: seq<Item>, at: Vec3, health: int, now: real): (r: Sweep)
    ensures |r.collected| == |r.queued|
  {
    if items == [] then Sweep([], [], [], [], health, false)
    else SweepStep(Sweeping(items[..|items| - 1], at, health, now), items[|items| - 1], at, now)
  }

  lemma SweepingStep(items: seq<Item>, i: nat, at: Vec3, health: int, now: real)
    requires i < |items|
    ensures Sweeping(items[..i + 1], at, health, now) == SweepStep(Sweeping(items[..i], at, health, now), items[i], at, now)
  {
    assert items[..i + 1][..i] == items[..i];
  }

  /** The ids of the active power-ups within reach. */
  function Reachable(items: seq<Item>, at: Vec3): set<int> {
    set it | it in items && InReach(it, at) :: it.id
  }

  /** Of the power-ups within reach, a pass without a fault deletes exactly
      those, and every respawn it queues is for a deleted id, due after that
      type's respawn time; each effect comes with one queued respawn. Even a
      pass that faults deletes only reachable power-ups. */
  lemma {:induction false} SweepDeletesReachable(items: seq<Item>, at: Vec3, health: int, now: real)
    ensures var s := Sweeping(items, at, health, now);
      && SetOf(s.removed) <= SetOf(s.touched) <= Reachable(items, at)
      && (!s.fault ==> SetOf(s.removed) == Reachable(items, at))
      && |s.collected| == |s.queued|
      && (forall e | e in s.queued :: e.powerupId in s.removed &&
            exists it | it in items :: it.id == e.powerupId && e.time == now + it.respawnTime)
  {
    if items != [] {
      var init := items[..|items| - 1];
      var it := items[|items| - 1];
      SweepDeletesReachable(init, at, health, now);
      assert items == init + [it];
      var s0 := Sweeping(init, at, health, now);
      SetOfSnoc(s0.removed, it.id);
      SetOfSnoc(s0.touched, it.id);
      assert Reachable(items, at) == Reachable(init, at) + (if InReach(it, at) then {it.id} else {});
      forall e | e in Sweeping(items, at, health, now).queued
        ensures exists it' | it' in items :: it'.id == e.powerupId && e.time == now + it'.respawnTime
      {
        if e in s0.queued {
          var w :| w in init && w.id == e.powerupId && e.time == now + w.respawnTime;
          assert w in items;
        } else {
          assert it in items;
        }
      }
    }
  }

  /** Health pick-ups never push a player at or below 100 past 100, and never
      lower health. */
  lemma {:induction false} SweepHealthCapped(items: seq<Item>, at: Vec3, health: int, now: real)
    requires health <= HealthCap
    ensures health <= Sweeping(items, at, health, now).health <= HealthCap
  {
    if items != [] {
      SweepHealthCapped(items[..|items| - 1], at, health, now);
    }
  }

  class PowerUpSpawner {
    const arenaBounds: Vec3
    var powerups: Dict<int, PowerUp>
    var respawnQueue: seq<Queued>
    var nextId: int
    var spawnPoints: seq<Vec3>

    /** Every power-up is stored under its own id, below the counter. */
    ghost predicate Valid()
      reads this
    {
      && powerups.Valid() && nextId >= 0
      && forall k | k in powerups.entries :: 0 <= k < nextId && powerups.entries[k].powerupId == k
    }

    /** `__init__`: the spawn points, shuffled (`shuffled` is the shuffle's
        result), and the five initial power-ups on the first five of them. */
    constructor (bounds: Vec3, shuffled: seq<Vec3>)
      requires multiset(shuffled) == multiset(SpawnPoints(bounds))
      ensures Valid()
      ensures arenaBounds == bounds && spawnPoints == shuffled && respawnQueue == []
      ensures nextId == |InitialTypes| && powerups.order == IdRange(0, |InitialTypes|)
      ensures forall i | 0 <= i < |InitialTypes| ::
        && i in powerups.entries && i < |shuffled|
        && var p := powerups.entries[i];
           p.powerupType == InitialTypes[i] && p.spawnPosition == shuffled[i] && p.active
    {
      arenaBounds := bounds;
      powerups := Empty();
      respawnQueue := [];
      nextId := 0;
      spawnPoints := shuffled;
      new;
      ShuffleLength(shuffled, SpawnPoints(bounds));
      var i := 0;
      while i < |InitialTypes|
        invariant 0 <= i <= |InitialTypes| && |spawnPoints| == 15
        invariant arenaBounds == bounds && spawnPoints == shuffled && respawnQueue == []
        invariant Valid() && nextId == i && powerups.order == IdRange(0, i)
        invariant forall j | 0 <= j < i ::
          j in powerups.entries && powerups.entries[j].powerupType == InitialTypes[j] &&
          powerups.entries[j].spawnPosition == shuffled[j] && powerups.entries[j].active
      {
        if i < |spawnPoints| {
          var p := SpawnPowerUp(InitialTypes[i], spawnPoints[i]);
          assert powerups.entries[i] == p;
        }
        i := i + 1;
      }
    }

    /** `_spawn_powerup`: the next id, stored under that id. */
    method SpawnPowerUp(powerupType: string, at: Vec3) returns (p: PowerUp)
      requires Valid()
      modifies this`powerups, this`nextId
      ensures Valid() && fresh(p)
      ensures p.powerupId == old(nextId) && nextId == old(nextId) + 1
      ensures p.powerupId !in old(powerups.entries)
      ensures powerups == old(powerups).Put(p.powerupId, p) && powerups.order == old(powerups.order) + [p.powerupId]
      ensures p.powerupType == powerupType && p.spawnPosition == at && p.position == at && p.active
    {
      var id := nextId;
      nextId := nextId + 1;
      p := new PowerUp(powerupType, at, id);
      powerups := powerups.Put(id, p);
    }

    /** `update`: every due entry comes back as a new power-up, numbered on
        from the counter in queue order; the others stay queued in order. */
    method Update(now: real)
      requires Valid()
      modifies this`powerups, this`nextId, this`respawnQueue
      ensures Valid()
      ensures respawnQueue == Kept(old(respawnQueue), now)
      ensures var due := Due(old(respawnQueue), now);
        && nextId == old(nextId) + |due|
        && powerups.order == old(powerups.order) + IdRange(old(nextId), |due|)
        && (forall k | k in old(powerups.entries) :: k in powerups.entries && powerups.entries[k] == old(powerups.entries[k]))
        && forall k | old(nextId) <= k < nextId ::
             && k in powerups.entries
             && var p := powerups.entries[k];
                fresh(p) && p.powerupType == due[k - old(nextId)].powerupType
                && p.spawnPosition == due[k - old(nextId)].position && p.active
    {
      var kept := SpawnDue(respawnQueue, now);
      respawnQueue := kept;
    }

    /** The loop of `update` over the queue `q`: what it spawns, and the
        entries it keeps. */
    method SpawnDue(q: seq<Queued>, now: real) returns (kept: seq<Queued>)
      requires Valid()
      modifies this`powerups, this`nextId
      ensures Valid()
      ensures kept == Kept(q, now)
      ensures var due := Due(q, now);
        && nextId == old(nextId) + |due|
        && powerups.order == old(powerups.order) + IdRange(old(nextId), |due|)
        && (forall k | k in old(powerups.entries) :: k in powerups.entries && powerups.entries[k] == old(powerups.entries[k]))
        && forall k | old(nextId) <= k < nextId ::
             && k in powerups.entries
             && var p := powerups.entries[k];
                fresh(p) && p.powerupType == due[k - old(nextId)].powerupType
                && p.spawnPosition == due[k - old(nextId)].position && p.active
    {
      kept := [];
      ghost var due: seq<Queued> := [];
      ghost var spawned: seq<PowerUp> := [];
      var i := 0;
      assert q[..0] == [];
      while i < |q|
        invariant 0 <= i <= |q| && Valid()
        invariant kept == Kept(q[..i], now) && due == Due(q[..i], now)
        invariant Revived(old(nextId), old(powerups.entries), old(powerups.order), due, spawned)
        invariant forall p | p in spawned :: fresh(p)
      {
        QueueStep(q, i, now);
        var e := q[i];
        if now >= e.time {
          var p := Revive(e, old(nextId), old(powerups.entries), old(powerups.order), due, spawned);
          due, spawned := due + [e], spawned + [p];
        } else {
          kept := kept + [e];
        }
        i := i + 1;
      }
      assert q[..|q|] == q;
      forall k | old(nextId) <= k < nextId
        ensures k in powerups.entries && fresh(powerups.entries[k])
        ensures powerups.entries[k].powerupType == due[k - old(nextId)].powerupType
        ensures powerups.entries[k].spawnPosition == due[k - old(nextId)].position && powerups.entries[k].active
      {
        var p := spawned[k - old(nextId)];
        assert powerups.entries[k] == p && p in spawned;
      }
    }

    /** Grown from `entries0` and `order0` by the power-ups numbered from
        `base` on, which are `spawned`, one per entry of `due`, of its type,
        at its position and active. */
    ghost predicate Revived(base: int, entries0: map<int, PowerUp>, order0: seq<int>,
                            due: seq<Queued>, spawned: seq<PowerUp>)
      reads this, set p | p in spawned
    {
      && nextId == base + |due|
      && powerups.order == order0 + IdRange(base, |due|)
      && (forall k | k in entries0 :: k in powerups.entries && powerups.entries[k] == entries0[k])
      && |spawned| == |due|
      && forall j | 0 <= j < |due| ::
           && base + j in powerups.entries && powerups.entries[base + j] == spawned[j]
           && spawned[j].powerupType == due[j].powerupType
           && spawned[j].spawnPosition == due[j].position && spawned[j].active
    }

    /** One due entry of `update`: spawned under the next id. */
    method Revive(e: Queued, ghost base: int, ghost entries0: map<int, PowerUp>, ghost order0: seq<int>,
                  ghost due: seq<Queued>, ghost spawned: seq<PowerUp>)
      returns (p: PowerUp)
      requires Valid() && Revived(base, entries0, order0, due, spawned)
      modifies this`powerups, this`nextId
      ensures Valid() && fresh(p)
      ensures Revived(base, entries0, order0, due + [e], spawned + [p])
    {
      p := SpawnPowerUp(e.powerupType, e.position);
      forall j | 0 <= j < |due + [e]|
        ensures base + j in powerups.entries && powerups.entries[base + j] == (spawned + [p])[j]
        ensures (spawned + [p])[j].powerupType == (due + [e])[j].powerupType
        ensures (spawned + [p])[j].spawnPosition == (due + [e])[j].position && (spawned + [p])[j].active
      {
        if j < |due| {
          assert (spawned + [p])[j] == spawned[j] && (due + [e])[j] == due[j];
        }
      }
      assert nextId == base + |due + [e]| && powerups.order == order0 + IdRange(base, |due + [e]|);
      assert forall k | k in entries0 :: k in powerups.entries && powerups.entries[k] == entries0[k];
      assert |spawned + [p]| == |due + [e]|;
      assert forall j | 0 <= j < |due + [e]| :: (spawned + [p])[j].active;
    }

    /** The power-ups as the collection loop will read them. */
    ghost function Items(): seq<Item>
      requires Valid()
      reads this, powerups.entries.Values
    {
      ItemsOf(powerups.order, powerups.entries)
    }

    /** `check_collection`: every active power-up within 3 units of the player
        is collected and deleted; each that gave an effect is queued to come
        back after its type's respawn time at its spawn point. `ok` is false
        when an effect raised, which ends the pass where it stands (the raising
        power-up is used up but stays stored, and nothing is returned). */
    method CheckCollection(player: Player, now: real) returns (collected: seq<Effect>, ok: bool)
      requires Valid()
      modifies this`powerups, this`respawnQueue, powerups.entries.Values`active, player`health
      ensures Valid()
      ensures var s := Sweeping(old(Items()), old(player.position), old(player.health), now);
        && ok == !s.fault
        && collected == (if s.fault then [] else s.collected)
        && player.health == s.health
        && respawnQueue == old(respawnQueue) + s.queued
        && powerups == RemoveAll(old(powerups), s.removed)
        && forall k | k in old(powerups.entries) ::
             old(powerups.entries[k]).active == (old(powerups.entries[k].active) && k !in s.touched)
    {
      ghost var items := Items();
      var s := CollectLoop(powerups.order, powerups.entries, player, now, items);
      respawnQueue := respawnQueue + s.queued;
      powerups := RemoveAll(powerups, s.removed);
      RemoveAllEntries(old(powerups), s.removed);
      ok := !s.fault;
      collected := if s.fault then [] else s.collected;
    }

    /** The loop of `check_collection` over a snapshot of the table: collect
        what is in reach. Deleting and queueing are done by the caller from
        the returned record, which is what the loop does as it goes. */
    static method CollectLoop(order: seq<int>, m: map<int, PowerUp>, player: Player, now: real,
                              ghost items: seq<Item>)
      returns (s: Sweep)
      requires Distinct(order) && forall k | k in order :: k in m
      requires forall k | k in m :: m[k].powerupId == k
      requires items == ItemsOf(order, m)
      modifies m.Values`active, player`health
      ensures s == Sweeping(items, old(player.position), old(player.health), now)
      ensures player.health == s.health
      ensures forall k | k in m :: m[k].active == (old(m[k].active) && k !in s.touched)
    {
      var at := player.position;
      ghost var was := map k | k in m :: m[k].active;
      s := Sweep([], [], [], [], player.health, false);
      var i := 0;
      assert items[..0] == [];
      while i < |order|
        invariant 0 <= i <= |order|
        invariant s == Sweeping(items[..i], at, old(player.health), now) && player.health == s.health
        invariant forall k | k in m :: m[k].active == (was[k] && k !in s.touched)
        invariant forall j | i <= j < |order| :: order[j] !in s.touched
      {
        var id := order[i];
        s := CollectOne(s, id, m[id], player, at, now, items, i, old(player.health), m, was);
        i := i + 1;
      }
      assert items[..|order|] == items;
    }

    /** One iteration of the collection loop, for the power-up `p` stored under
        `id` in `m` as the `i`-th item: the pass moves on by one item, and only
        `p` can lose its active flag. */
    static method CollectOne(s: Sweep, id: int, p: PowerUp, player: Player, at: Vec3, now: real,
                             ghost items: seq<Item>, ghost i: nat, ghost health0: int,
                             ghost m: map<int, PowerUp>, ghost was: map<int, bool>)
      returns (s': Sweep)
      requires i < |items| && s == Sweeping(items[..i], at, health0, now)
      requires player.health == s.health && id !in s.touched && items[i] == ItemOf(id, p)
      requires id in m && m[id] == p && forall k | k in m :: m[k].powerupId == k
      requires forall k | k in m :: k in was && m[k].active == (was[k] && k !in s.touched)
      modifies p`active, player`health
      ensures s' == Sweeping(items[..i + 1], at, health0, now) && player.health == s'.health
      ensures forall k | k in m :: m[k].active == (was[k] && k !in s'.touched)
      ensures s'.touched == s.touched || s'.touched == s.touched + [id]
    {
      SweepingStep(items, i, at, health0, now);
      s' := s;
      if s.fault || !p.active || !Within(p.position, at, CollectionRadius) {
        return;
      }
      var o := p.Collect(player);
      var touched := s.touched + [id];
      if o.Fault? {
        s' := s.(touched := touched, fault := true);
      } else if o.NoEffect? {
        s' := s.(touched := touched, removed := s.removed + [id]);
      } else {
        s' := s.(collected := s.collected + [o.effect],
                 queued := s.queued + [Queued(now + p.typeData.respawnTime, p.powerupType, p.spawnPosition, id)],
                 touched := touched, removed := s.removed + [id], health := s.health + o.effect.amount);
      }
    }

    /** `get_state`: one entry per stored power-up, keyed by its id. */
    function GetState(): (st: map<int, ItemState>)
      reads this, powerups.entries.Values
      ensures st.Keys == powerups.entries.Keys
      ensures forall k | k in st ::
        st[k] == ItemState(powerups.entries[k].powerupType, powerups.entries[k].position, powerups.entries[k].active)
    {
      map k | k in powerups.entries ::
        ItemState(powerups.entries[k].powerupType, powerups.entries[k].position, powerups.entries[k].active)
    }

    /** `cleanup`. */
    method Cleanup()
      modifies this`powerups, this`respawnQueue
      ensures powerups == Empty() && respawnQueue == []
    {
      powerups := Empty();
      respawnQueue := [];
    }
  }

  /** One entry of `get_state`: type, position and active flag. */
  datatype ItemState = ItemState(powerupType: string, position: Vec3, active: bool)

  /** The stored power-ups, in table order, as items. */
  ghost function ItemsOf(order: seq<int>, m: map<int, PowerUp>): (items: seq<Item>)
    requires forall k | k in order :: k in m
    reads m.Values
    ensures |items| == |order|
    ensures forall i | 0 <= i < |order| :: items[i] == ItemOf(order[i], m[order[i]])
  {
    if order == [] then [] else ItemsOf(order[..|order| - 1], m) + [ItemOf(order[|order| - 1], m[order[|order| - 1]])]
  }

  ghost function ItemOf(id: int, p: PowerUp): Item
    reads p`active, p`position
  {
    Item(id, p.powerupType, p.active, p.position, p.spawnPosition, p.typeData.respawnTime)
  }
}

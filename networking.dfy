/** The UDP host and client of `game/networking.py`, as the state they keep and
    the datagrams they hand to the socket. Receiving is the caller's business:
    each received datagram is one call of `HandleMessage`, in arrival order.
    The server's lock, the receive threads and the JSON text are not modelled. */
module Networking {
  import opened Wrappers
  import opened Vectors
  import opened Dicts
  import opened Protocol

  /** The port both sides use unless told otherwise. */
  const DefaultPort: int := 5555

  /** `_broadcast(message, exclude)`: one datagram to each registered address in
      registry order, skipping `exclude`. */
  function Broadcast(addrs: seq<Addr>, m: Message, exclude: Option<Addr>): (out: seq<Send>)
    ensures |out| <= |addrs|
  {
    if addrs == [] then []
    else SendFor(addrs[0], m, exclude) + Broadcast(addrs[1..], m, exclude)
  }

  /** The datagram a broadcast sends to `a`: none when `a` is excluded. */
  function SendFor(a: Addr, m: Message, exclude: Option<Addr>): seq<Send> {
    if Some(a) == exclude then [] else [Send(a, m)]
  }

  /** Every datagram of a broadcast carries the message and goes to a
      registered address other than the excluded one. */
  lemma {:induction false} BroadcastSound(addrs: seq<Addr>, m: Message, exclude: Option<Addr>)
    ensures forall s | s in Broadcast(addrs, m, exclude) ::
              s.message == m && s.to in addrs && Some(s.to) != exclude
  {
    if addrs != [] {
      BroadcastSound(addrs[1..], m, exclude);
    }
  }

  lemma BroadcastStep(addrs: seq<Addr>, i: nat, m: Message, exclude: Option<Addr>)
    requires i < |addrs|
    ensures Broadcast(addrs[i..], m, exclude) == SendFor(addrs[i], m, exclude) + Broadcast(addrs[i + 1..], m, exclude)
  {
    assert addrs[i..][1..] == addrs[i + 1..];
  }

  /** How many of `out` go to `a`. */
  function Deliveries(out: seq<Send>, a: Addr): nat {
    if out == [] then 0
    else (if out[0].to == a then 1 else 0) + Deliveries(out[1..], a)
  }

  lemma {:induction false} DeliveriesAppend(xs: seq<Send>, ys: seq<Send>, a: Addr)
    ensures Deliveries(xs + ys, a) == Deliveries(xs, a) + Deliveries(ys, a)
  {
    if xs != [] {
      assert (xs + ys)[0] == xs[0];
      assert (xs + ys)[1..] == xs[1..] + ys;
      DeliveriesAppend(xs[1..], ys, a);
    } else {
      assert xs + ys == ys;
    }
  }

  /** With one registry entry per address, a broadcast reaches every registered
      address exactly once, except the excluded one, which it never reaches. */
  lemma {:induction false} BroadcastOnce(addrs: seq<Addr>, m: Message, exclude: Option<Addr>, a: Addr)
    requires Distinct(addrs)
    ensures Deliveries(Broadcast(addrs, m, exclude), a) ==
            if a in addrs && Some(a) != exclude then 1 else 0
  {
    if addrs != [] {
      var head := if Some(addrs[0]) == exclude then [] else [Send(addrs[0], m)];
      assert Broadcast(addrs, m, exclude) == head + Broadcast(addrs[1..], m, exclude);
      DeliveriesAppend(head, Broadcast(addrs[1..], m, exclude), a);
      assert Distinct(addrs[1..]);
      BroadcastOnce(addrs[1..], m, exclude, a);
      assert addrs[0] !in addrs[1..];
      assert Deliveries(head, a) == if head != [] && addrs[0] == a then 1 else 0 by {
        if head != [] {
          assert head[1..] == [];
        }
      }
      assert a in addrs <==> a == addrs[0] || a in addrs[1..];
    }
  }

  /** `state['player_id'] = player_id` on the `PLAYER_UPDATE` payload. */
  function Stamped(state: PlayerState, pid: int): (s: PlayerState)
    ensures s.playerId == Some(pid)
    ensures s.position == state.position && s.rotation == state.rotation &&
            s.velocity == state.velocity && s.health == state.health && s.isAlive == state.isAlive
  {
    state.(playerId := Some(pid))
  }

  /** The `PROJECTILE_SPAWN` payload with the sender made its owner and the
      host's counter made its id. */
  function StampedShot(p: ProjectileData, owner: int, id: int): (q: ProjectileData)
    ensures q.ownerId == Some(owner) && q.projectileId == Some(id)
    ensures q.position == p.position && q.direction == p.direction && q.weapon == p.weapon
  {
    p.(ownerId := Some(owner), projectileId := Some(id))
  }

  /** The stored state after `PLAYER_RESPAWN`: alive again at `position`. */
  function Revived(state: PlayerState, position: Vec3): (s: PlayerState)
    ensures s.isAlive == Some(true) && s.position == Some(position)
    ensures s.playerId == state.playerId && s.rotation == state.rotation &&
            s.velocity == state.velocity && s.health == state.health
  {
    state.(isAlive := Some(true), position := Some(position))
  }

  /** `if host_state:`: a missing or empty dictionary is false. */
  predicate Truthy(s: Option<PlayerState>) {
    s.Some? && !s.value.IsEmpty()
  }

  /** The UDP host. Player 0 is the host itself; clients get 1, 2, ... in join
      order. */
  class NetworkServer {
    const port: int
    var running: bool
    /** `clients`: address to player id. */
    var clients: Dict<Addr, int>
    /** `player_states`: player id to the last state dictionary received. */
    var playerStates: Dict<int, PlayerState>
    var nextPlayerId: int
    /** The messages waiting for the game loop (`message_queue`). */
    var messageQueue: seq<Message>
    var projectileIdCounter: int
    /** Every datagram handed to the socket, in order. */
    var outbox: seq<Send>

    /** Ids are handed out once, every client has a stored state, and every
        stored state carries its own key as `player_id`. */
    ghost predicate Valid()
      reads this
    {
      && clients.Valid() && playerStates.Valid()
      && nextPlayerId >= 1 && projectileIdCounter >= 0
      && (forall a | a in clients.entries ::
            1 <= clients.entries[a] < nextPlayerId && clients.entries[a] in playerStates.entries)
      && (forall a, b | a in clients.entries && b in clients.entries && a != b ::
            clients.entries[a] != clients.entries[b])
      && (forall k | k in playerStates.entries ::
            0 <= k < nextPlayerId && playerStates.entries[k].playerId == Some(k))
    }

    constructor (port: int)
      ensures Valid()
      ensures this.port == port && !running
      ensures clients == Empty() && playerStates == Empty()
      ensures nextPlayerId == 1 && projectileIdCounter == 0
      ensures messageQueue == [] && outbox == []
    {
      this.port := port;
      running := false;
      clients := Empty();
      playerStates := Empty();
      nextPlayerId := 1;
      messageQueue := [];
      projectileIdCounter := 0;
      outbox := [];
    }

    /** `start`: the socket is bound and the host seeds its own entry as player
        0 so that joining clients see it. */
    method Start() returns (ok: bool)
      requires Valid()
      modifies this`running, this`playerStates
      ensures Valid()
      ensures ok && running
      ensures playerStates == old(playerStates).Put(0, SeedState(0))
    {
      running := true;
      playerStates := playerStates.Put(0, SeedState(0));
      ok := true;
    }

    method Stop()
      modifies this`running
      ensures !running
    {
      running := false;
    }

    /** `_send_to`. */
    method SendTo(to: Addr, m: Message)
      modifies this`outbox
      ensures outbox == old(outbox) + [Send(to, m)]
    {
      outbox := outbox + [Send(to, m)];
    }

    /** `_broadcast`: the loop over the registry. */
    method BroadcastMessage(m: Message, exclude: Option<Addr>)
      modifies this`outbox
      ensures outbox == old(outbox) + Broadcast(clients.order, m, exclude)
    {
      ghost var start := outbox;
      var addrs := clients.order;
      var i := 0;
      assert addrs[0..] == addrs;
      while i < |addrs|
        invariant 0 <= i <= |addrs|
        invariant outbox + Broadcast(addrs[i..], m, exclude) == start + Broadcast(addrs, m, exclude)
      {
        var a := addrs[i];
        BroadcastStep(addrs, i, m, exclude);
        ghost var sent := outbox;
        if Some(a) != exclude {
          SendTo(a, m);
        }
        AppendAssoc(sent, SendFor(a, m, exclude), Broadcast(addrs[i + 1..], m, exclude));
        i := i + 1;
      }
    }

    /** `PLAYER_JOIN` from `addr`. A new address gets the next id and a seeded
        state, is told its id together with every stored state (its own last),
        the game loop is told, and every other client is told. A known address
        changes nothing. */
    method HandleJoin(addr: Addr)
      requires Valid()
      modifies this`nextPlayerId, this`clients, this`playerStates, this`messageQueue, this`outbox
      ensures Valid()
      ensures JoinHandled(addr)
    {
      if addr !in clients.entries {
        var pid := Register(addr);
        SendTo(addr, PlayerJoin(Some(pid), Some(playerStates.Values()), None));
        messageQueue := messageQueue + [PlayerJoin(Some(pid), None, None)];
        BroadcastMessage(PlayerJoin(Some(pid), None, None), Some(addr));
      }
    }

    /** The effect of `PLAYER_JOIN` from `addr`: none for a known address; a
        new one is registered under the next id with a seeded state stored
        last, is sent that id with every stored state, and the join is queued
        and sent to every other client. */
    twostate predicate JoinHandled(addr: Addr)
      requires old(Valid())
      reads this
    {
      if addr in old(clients.entries) then
        nextPlayerId == old(nextPlayerId) && clients == old(clients) &&
        playerStates == old(playerStates) && messageQueue == old(messageQueue) && outbox == old(outbox)
      else
        var pid := old(nextPlayerId);
        var notice := PlayerJoin(Some(pid), None, None);
        && nextPlayerId == pid + 1
        && clients == old(clients).Put(addr, pid)
        && playerStates == old(playerStates).Put(pid, SeedState(pid))
        && playerStates.Values() == old(playerStates.Values()) + [SeedState(pid)]
        && messageQueue == old(messageQueue) + [notice]
        && outbox == old(outbox)
                     + [Send(addr, PlayerJoin(Some(pid), Some(playerStates.Values()), None))]
                     + Broadcast(clients.order, notice, Some(addr))
    }

    /** The bookkeeping half of a join from a new address: the next id, the
        address registered under it, and a seeded state stored last. */
    method Register(addr: Addr) returns (pid: int)
      requires Valid() && addr !in clients.entries
      modifies this`nextPlayerId, this`clients, this`playerStates
      ensures Valid()
      ensures pid == old(nextPlayerId) && nextPlayerId == pid + 1
      ensures clients == old(clients).Put(addr, pid)
      ensures playerStates == old(playerStates).Put(pid, SeedState(pid))
      ensures playerStates.Values() == old(playerStates.Values()) + [SeedState(pid)]
    {
      pid := nextPlayerId;
      nextPlayerId := nextPlayerId + 1;
      clients := clients.Put(addr, pid);
      assert pid !in playerStates.entries;
      PutNewValues(playerStates, pid, SeedState(pid));
      playerStates := playerStates.Put(pid, SeedState(pid));
    }

    /** `PLAYER_UPDATE` from a registered address: the payload (or `{}`),
        stamped with the sender's id, replaces its stored state and is queued.
        Unregistered senders are ignored. */
    method HandleUpdate(addr: Addr, state: Option<PlayerState>)
      requires Valid()
      modifies this`playerStates, this`messageQueue
      ensures Valid()
      ensures UpdateHandled(addr, state)
    {
      var pid := clients.Get(addr);
      if pid.Some? {
        var s := Stamped(state.GetOr(EmptyState), pid.value);
        playerStates := playerStates.Put(pid.value, s);
        messageQueue := messageQueue + [PlayerUpdate(pid, Some(s))];
      }
    }

    /** The effect of `PLAYER_UPDATE` from `addr`: none for an unregistered
        address; otherwise the stamped payload replaces the sender's stored
        state in place and is queued, and nothing is sent. */
    twostate predicate UpdateHandled(addr: Addr, state: Option<PlayerState>)
      requires old(Valid())
      reads this
    {
      && outbox == old(outbox)
      && if addr !in old(clients.entries) then
           playerStates == old(playerStates) && messageQueue == old(messageQueue)
         else
           var pid := old(clients.entries[addr]);
           var s := Stamped(state.GetOr(EmptyState), pid);
           && playerStates == old(playerStates).Put(pid, s)
           && playerStates.order == old(playerStates.order)
           && messageQueue == old(messageQueue) + [PlayerUpdate(Some(pid), Some(s))]
    }

    /** `PROJECTILE_SPAWN` from a registered address: the counter moves on, the
        payload (or `{}`) is stamped with the sender as owner and the counter as
        id, queued and sent to every client, the sender included. */
    method HandleSpawn(addr: Addr, projectile: Option<ProjectileData>)
      requires Valid()
      modifies this`projectileIdCounter, this`messageQueue, this`outbox
      ensures Valid()
      ensures SpawnHandled(addr, projectile)
    {
      var pid := clients.Get(addr);
      if pid.Some? {
        projectileIdCounter := projectileIdCounter + 1;
        var q := StampedShot(projectile.GetOr(EmptyProjectile), pid.value, projectileIdCounter);
        messageQueue := messageQueue + [ProjectileSpawn(Some(q))];
        BroadcastMessage(ProjectileSpawn(Some(q)), None);
      }
    }

    /** The effect of `PROJECTILE_SPAWN` from `addr`: none for an
        unregistered address; otherwise the counter moves on and the payload,
        stamped with the sender as owner and the new counter as id, is queued
        and sent to every client. The stored states are kept. */
    twostate predicate SpawnHandled(addr: Addr, projectile: Option<ProjectileData>)
      requires old(Valid())
      reads this
    {
      && playerStates == old(playerStates)
      && if addr !in old(clients.entries) then
           projectileIdCounter == old(projectileIdCounter) &&
           messageQueue == old(messageQueue) && outbox == old(outbox)
         else
           var q := StampedShot(projectile.GetOr(EmptyProjectile), old(clients.entries[addr]), projectileIdCounter);
           && projectileIdCounter == old(projectileIdCounter) + 1
           && messageQueue == old(messageQueue) + [ProjectileSpawn(Some(q))]
           && outbox == old(outbox) + Broadcast(old(clients.order), ProjectileSpawn(Some(q)), None)
    }

    /** `PLAYER_RESPAWN` from a registered address: the position (default the
        origin) revives the stored state, and the event is queued and sent to
        every client, the sender included as confirmation. */
    method HandleRespawn(addr: Addr, position: Option<Vec3>)
      requires Valid()
      modifies this`playerStates, this`messageQueue, this`outbox
      ensures Valid()
      ensures RespawnHandled(addr, position)
    {
      var pid := clients.Get(addr);
      if pid.Some? {
        var at := position.GetOr(Zero);
        var stored := playerStates.Get(pid.value);
        if stored.Some? {
          playerStates := playerStates.Put(pid.value, Revived(stored.value, at));
        }
        messageQueue := messageQueue + [PlayerRespawn(pid, Some(at))];
        BroadcastMessage(PlayerRespawn(pid, Some(at)), None);
      }
    }

    /** The effect of `PLAYER_RESPAWN` from `addr`: none for an unregistered
        address; otherwise the sender's stored state is revived at the
        position (the origin when missing), in place, and the respawn is
        queued and sent to every client. */
    twostate predicate RespawnHandled(addr: Addr, position: Option<Vec3>)
      requires old(Valid())
      reads this
    {
      if addr !in old(clients.entries) then
        playerStates == old(playerStates) && messageQueue == old(messageQueue) && outbox == old(outbox)
      else
        var pid := old(clients.entries[addr]);
        var at := position.GetOr(Zero);
        var m := PlayerRespawn(Some(pid), Some(at));
        && playerStates == old(playerStates).Put(pid, Revived(old(playerStates.entries[pid]), at))
        && playerStates.order == old(playerStates.order)
        && messageQueue == old(messageQueue) + [m]
        && outbox == old(outbox) + Broadcast(old(clients.order), m, None)
    }

    /** `_handle_message`: dispatch on the message type. `PING` is answered
        with `PONG`; `PLAYER_LEAVE`, `PLAYER_HIT`, `GAME_STATE`, `PONG` and
        unknown types are ignored. */
    method HandleMessage(m: Message, addr: Addr)
      requires Valid()
      modifies this`nextPlayerId, this`clients, this`playerStates, this`messageQueue,
               this`outbox, this`projectileIdCounter
      ensures Valid()
      ensures old(clients.entries.Keys) <= clients.entries.Keys
      ensures forall a | a in old(clients.entries) :: clients.entries[a] == old(clients.entries[a])
      ensures m.Ping? ==>
        outbox == old(outbox) + [Send(addr, Pong)] && messageQueue == old(messageQueue) &&
        playerStates == old(playerStates) && clients == old(clients)
      ensures (m.PlayerLeave? || m.PlayerHit? || m.GameState? || m.Pong? || m.Unrecognised?) ==>
        outbox == old(outbox) && messageQueue == old(messageQueue) &&
        playerStates == old(playerStates) && clients == old(clients) &&
        nextPlayerId == old(nextPlayerId) && projectileIdCounter == old(projectileIdCounter)
      ensures !m.PlayerJoin? ==> clients == old(clients) && nextPlayerId == old(nextPlayerId)
      ensures addr !in old(clients.entries) && !m.PlayerJoin? && !m.Ping? ==>
        outbox == old(outbox) && messageQueue == old(messageQueue) && playerStates == old(playerStates)
      ensures !m.ProjectileSpawn? ==> projectileIdCounter == old(projectileIdCounter)
      ensures m.PlayerJoin? ==> JoinHandled(addr)
      ensures m.PlayerUpdate? ==> UpdateHandled(addr, m.state)
      ensures m.ProjectileSpawn? ==> SpawnHandled(addr, m.projectile)
      ensures m.PlayerRespawn? ==> RespawnHandled(addr, m.position)
    {
      match m
      case PlayerJoin(_, _, _) => HandleJoin(addr);
      case PlayerUpdate(_, state) => HandleUpdate(addr, state);
      case ProjectileSpawn(projectile) => HandleSpawn(addr, projectile);
      case PlayerRespawn(_, position) => HandleRespawn(addr, position);
      case Ping => SendTo(addr, Pong);
      case _ =>
    }

    /** `broadcast_game_state`: a non-empty host state, stamped as player 0,
        replaces the host's entry; then every stored state goes to every client.
        The `players_data` argument is unused by the source and not taken. */
    method BroadcastGameState(hostState: Option<PlayerState>, now: real)
      requires Valid()
      modifies this`playerStates, this`outbox
      ensures Valid()
      ensures playerStates ==
        if Truthy(hostState) then old(playerStates).Put(0, Stamped(hostState.value, 0))
        else old(playerStates)
      ensures outbox == old(outbox) +
        Broadcast(clients.order, GameState(Some(playerStates.Values()), Some(now)), None)
    {
      if Truthy(hostState) {
        playerStates := playerStates.Put(0, Stamped(hostState.value, 0));
      }
      BroadcastMessage(GameState(Some(playerStates.Values()), Some(now)), None);
    }

    /** `broadcast_hit`: sent to every client and queued for the host's own
        game loop. */
    method BroadcastHit(targetId: int, attackerId: int, damage: int)
      modifies this`outbox, this`messageQueue
      ensures var m := PlayerHit(Some(targetId), Some(attackerId), Some(damage));
        outbox == old(outbox) + Broadcast(clients.order, m, None) &&
        messageQueue == old(messageQueue) + [m]
    {
      var m := PlayerHit(Some(targetId), Some(attackerId), Some(damage));
      BroadcastMessage(m, None);
      messageQueue := messageQueue + [m];
    }

    /** `broadcast_respawn`: sent to every client, not queued. */
    method BroadcastRespawn(playerId: int, position: Vec3)
      modifies this`outbox
      ensures outbox == old(outbox) + Broadcast(clients.order, PlayerRespawn(Some(playerId), Some(position)), None)
    {
      BroadcastMessage(PlayerRespawn(Some(playerId), Some(position)), None);
    }

    /** `get_messages`: hand over the queue and empty it. */
    method GetMessages() returns (ms: seq<Message>)
      modifies this`messageQueue
      ensures ms == old(messageQueue) && messageQueue == []
    {
      ms := messageQueue;
      messageQueue := [];
    }

    /** `get_client_count`. */
    function GetClientCount(): (n: nat)
      requires Valid()
      reads this
      ensures n == |clients.entries|
    {
      clients.Size()
    }
  }

  /** A game-state list taken from the host's stored states reaches a client as
      one `PLAYER_UPDATE` per stored player other than itself, carrying that
      player's stored state, and none for the client itself. */
  lemma GameStateReachesOthers(states: Dict<int, PlayerState>, self: int)
    requires states.Valid()
    requires forall k | k in states.entries :: states.entries[k].playerId == Some(k)
    ensures forall k | k in states.entries && k != self ::
              PlayerUpdate(Some(k), Some(states.entries[k])) in StateUpdates(states.Values(), Some(self))
    ensures forall m | m in StateUpdates(states.Values(), Some(self)) :: m.playerId != Some(self)
  {
    forall k | k in states.entries && k != self
      ensures PlayerUpdate(Some(k), Some(states.entries[k])) in StateUpdates(states.Values(), Some(self))
    {
      states.ValuesHave(k);
    }
  }

  /** The `PLAYER_JOIN` notices queued for the players listed in the host's
      reply: one per listed state whose id is not the client's own (a state
      without an id is listed too), in list order. */
  function ExistingJoins(existing: seq<PlayerState>, self: Option<int>): (ms: seq<Message>)
    ensures |ms| <= |existing|
    ensures forall m | m in ms ::
      m.PlayerJoin? && m.playerId != self && m.existingPlayers.None? &&
      m.state.Some? && m.state.value in existing && m.playerId == m.state.value.playerId
    ensures forall ps | ps in existing && ps.playerId != self :: PlayerJoin(ps.playerId, None, Some(ps)) in ms
  {
    if existing == [] then []
    else
      var ps := existing[0];
      var rest := ExistingJoins(existing[1..], self);
      assert forall q | q in existing :: q == ps || q in existing[1..];
      if ps.playerId != self then [PlayerJoin(ps.playerId, None, Some(ps))] + rest else rest
  }

  /** The `PLAYER_UPDATE` messages a `GAME_STATE` turns into: one per listed
      state that has an id other than the client's own, in list order. */
  function StateUpdates(players: seq<PlayerState>, self: Option<int>): (ms: seq<Message>)
    ensures |ms| <= |players|
    ensures forall m | m in ms ::
      m.PlayerUpdate? && m.playerId.Some? && m.playerId != self &&
      m.state.Some? && m.state.value in players && m.playerId == m.state.value.playerId
    ensures forall ps | ps in players && ps.playerId.Some? && ps.playerId != self ::
      PlayerUpdate(ps.playerId, Some(ps)) in ms
  {
    if players == [] then []
    else
      var ps := players[0];
      var rest := StateUpdates(players[1..], self);
      assert forall q | q in players :: q == ps || q in players[1..];
      if ps.playerId.Some? && ps.playerId != self then [PlayerUpdate(ps.playerId, Some(ps))] + rest
      else rest
  }

  /** The join queued for one listed player: none for the client itself. */
  function JoinFor(ps: PlayerState, self: Option<int>): seq<Message> {
    if ps.playerId != self then [PlayerJoin(ps.playerId, None, Some(ps))] else []
  }

  /** The update queued for one player of a `GAME_STATE`: none for a state
      without an id or for the client itself. */
  function UpdateFor(ps: PlayerState, self: Option<int>): seq<Message> {
    if ps.playerId.Some? && ps.playerId != self then [PlayerUpdate(ps.playerId, Some(ps))] else []
  }

  lemma ExistingJoinsStep(existing: seq<PlayerState>, i: nat, self: Option<int>)
    requires i < |existing|
    ensures ExistingJoins(existing[i..], self) == JoinFor(existing[i], self) + ExistingJoins(existing[i + 1..], self)
  {
    assert existing[i..][1..] == existing[i + 1..];
  }

  lemma StateUpdatesStep(players: seq<PlayerState>, i: nat, self: Option<int>)
    requires i < |players|
    ensures StateUpdates(players[i..], self) == UpdateFor(players[i], self) + StateUpdates(players[i + 1..], self)
  {
    assert players[i..][1..] == players[i + 1..];
  }

  /** Message types the client passes to its game loop unchanged. */
  predicate PassedThrough(m: Message) {
    m.PlayerUpdate? || m.ProjectileSpawn? || m.PlayerHit? || m.PlayerRespawn? || m.PlayerLeave?
  }

  /** The joining side. */
  class NetworkClient {
    var serverAddr: Option<Addr>
    var socketOpen: bool
    var running: bool
    /** The id the host assigned, once its reply has arrived. */
    var playerId: Option<int>
    var messageQueue: seq<Message>
    var connected: bool
    /** Every datagram handed to the socket, in order. */
    var outbox: seq<Send>

    constructor ()
      ensures serverAddr.None? && !socketOpen && !running && playerId.None?
      ensures messageQueue == [] && !connected && outbox == []
    {
      serverAddr := None;
      socketOpen := false;
      running := false;
      playerId := None;
      messageQueue := [];
      connected := false;
      outbox := [];
    }

    /** `_send`: only with an open socket and a known host. */
    method SendToServer(m: Message)
      modifies this`outbox
      ensures outbox == if socketOpen && serverAddr.Some? then old(outbox) + [Send(serverAddr.value, m)]
                        else old(outbox)
    {
      if socketOpen && serverAddr.Some? {
        outbox := outbox + [Send(serverAddr.value, m)];
      }
    }

    /** The first half of `connect`: open the socket and ask to join. */
    method Connect(hostIp: string, port: int)
      modifies this`serverAddr, this`socketOpen, this`running, this`outbox
      ensures serverAddr == Some(Addr(hostIp, port)) && socketOpen && running
      ensures outbox == old(outbox) + [Send(Addr(hostIp, port), PlayerJoin(None, None, None))]
    {
      serverAddr := Some(Addr(hostIp, port));
      socketOpen := true;
      running := true;
      SendToServer(PlayerJoin(None, None, None));
    }

    /** The second half of `connect`, once the wait is over: connected exactly
        when an id has been assigned, otherwise the client stops. */
    method AwaitAssignment() returns (ok: bool)
      modifies this`connected, this`running, this`socketOpen
      ensures ok <==> playerId.Some?
      ensures connected == ok
      ensures !ok ==> !running && !socketOpen
      ensures ok ==> running == old(running) && socketOpen == old(socketOpen)
    {
      if playerId.Some? {
        connected := true;
        ok := true;
      } else {
        Stop();
        ok := false;
      }
    }

    /** `stop`. */
    method Stop()
      modifies this`running, this`connected, this`socketOpen
      ensures !running && !connected && !socketOpen
    {
      running := false;
      connected := false;
      socketOpen := false;
    }

    /** The loop over `existing_players` in the host's join reply. */
    method QueueExistingPlayers(existing: seq<PlayerState>)
      modifies this`messageQueue
      ensures messageQueue == old(messageQueue) + ExistingJoins(existing, playerId)
    {
      ghost var start := messageQueue;
      var i := 0;
      assert existing[0..] == existing;
      while i < |existing|
        invariant 0 <= i <= |existing|
        invariant messageQueue + ExistingJoins(existing[i..], playerId) ==
                  start + ExistingJoins(existing, playerId)
      {
        ExistingJoinsStep(existing, i, playerId);
        ghost var queued := messageQueue;
        QueueJoin(existing[i]);
        AppendAssoc(queued, JoinFor(existing[i], playerId), ExistingJoins(existing[i + 1..], playerId));
        i := i + 1;
      }
    }

    /** One entry of the join reply's player list. */
    method QueueJoin(ps: PlayerState)
      modifies this`messageQueue
      ensures messageQueue == old(messageQueue) + JoinFor(ps, playerId)
    {
      if ps.playerId != playerId {
        messageQueue := messageQueue + [PlayerJoin(ps.playerId, None, Some(ps))];
      }
    }

    /** The loop over `players` in a `GAME_STATE`. */
    method QueueStateUpdates(players: seq<PlayerState>)
      modifies this`messageQueue
      ensures messageQueue == old(messageQueue) + StateUpdates(players, playerId)
    {
      ghost var start := messageQueue;
      var i := 0;
      assert players[0..] == players;
      while i < |players|
        invariant 0 <= i <= |players|
        invariant messageQueue + StateUpdates(players[i..], playerId) ==
                  start + StateUpdates(players, playerId)
      {
        StateUpdatesStep(players, i, playerId);
        ghost var queued := messageQueue;
        QueueUpdate(players[i]);
        AppendAssoc(queued, UpdateFor(players[i], playerId), StateUpdates(players[i + 1..], playerId));
        i := i + 1;
      }
    }

    /** One entry of a `GAME_STATE`'s player list. */
    method QueueUpdate(ps: PlayerState)
      modifies this`messageQueue
      ensures messageQueue == old(messageQueue) + UpdateFor(ps, playerId)
    {
      if ps.playerId.Some? && ps.playerId != playerId {
        messageQueue := messageQueue + [PlayerUpdate(ps.playerId, Some(ps))];
      }
    }

    /** `_handle_message`. The first `PLAYER_JOIN` that carries an id is the
        host's reply: it fixes this client's id for good and queues a join for
        every other listed player. Later joins with an id are queued as they
        are; a `GAME_STATE` becomes one update per other player; the pass-through
        types are queued as they are; everything else is dropped. */
    method HandleMessage(m: Message)
      modifies this`playerId, this`messageQueue
      ensures old(playerId).Some? ==> playerId == old(playerId)
      ensures m.PlayerJoin? && old(playerId).None? && m.playerId.Some? ==>
        playerId == m.playerId &&
        messageQueue == old(messageQueue) + ExistingJoins(m.existingPlayers.GetOr([]), playerId)
      ensures m.PlayerJoin? && old(playerId).Some? && m.playerId.Some? ==>
        messageQueue == old(messageQueue) + [m]
      ensures m.PlayerJoin? && m.playerId.None? ==>
        playerId == old(playerId) && messageQueue == old(messageQueue)
      ensures m.GameState? ==>
        playerId == old(playerId) &&
        messageQueue == old(messageQueue) + StateUpdates(m.players.GetOr([]), playerId)
      ensures PassedThrough(m) ==> playerId == old(playerId) && messageQueue == old(messageQueue) + [m]
      ensures (m.Ping? || m.Pong? || m.Unrecognised?) ==>
        playerId == old(playerId) && messageQueue == old(messageQueue)
    {
      match m
      case PlayerJoin(pid, existing, _) =>
        if playerId.None? && pid.Some? {
          playerId := pid;
          QueueExistingPlayers(existing.GetOr([]));
        } else if playerId.Some? && pid.Some? {
          messageQueue := messageQueue + [m];
        }
      case GameState(players, _) =>
        QueueStateUpdates(players.GetOr([]));
      case PlayerUpdate(_, _) => messageQueue := messageQueue + [m];
      case ProjectileSpawn(_) => messageQueue := messageQueue + [m];
      case PlayerHit(_, _, _) => messageQueue := messageQueue + [m];
      case PlayerRespawn(_, _) => messageQueue := messageQueue + [m];
      case PlayerLeave(_) => messageQueue := messageQueue + [m];
      case _ =>
    }

    /** `send_player_update`. */
    method SendPlayerUpdate(state: PlayerState)
      modifies this`outbox
      ensures outbox == if socketOpen && serverAddr.Some?
                        then old(outbox) + [Send(serverAddr.value, PlayerUpdate(None, Some(state)))]
                        else old(outbox)
    {
      SendToServer(PlayerUpdate(None, Some(state)));
    }

    /** `send_shoot`. */
    method SendShoot(projectile: ProjectileData)
      modifies this`outbox
      ensures outbox == if socketOpen && serverAddr.Some?
                        then old(outbox) + [Send(serverAddr.value, ProjectileSpawn(Some(projectile)))]
                        else old(outbox)
    {
      SendToServer(ProjectileSpawn(Some(projectile)));
    }

    /** `send_respawn`. */
    method SendRespawn(position: Vec3)
      modifies this`outbox
      ensures outbox == if socketOpen && serverAddr.Some?
                        then old(outbox) + [Send(serverAddr.value, PlayerRespawn(None, Some(position)))]
                        else old(outbox)
    {
      SendToServer(PlayerRespawn(None, Some(position)));
    }

    /** `get_messages`. */
    method GetMessages() returns (ms: seq<Message>)
      modifies this`messageQueue
      ensures ms == old(messageQueue) && messageQueue == []
    {
      ms := messageQueue;
      messageQueue := [];
    }
  }

  /** The host's join reply lists the joiner's own seeded state last; the
      client drops exactly that entry, so it queues the same joins as for the
      list of players that were already there. */
  lemma {:induction false} JoinsDropOwnLast(before: seq<PlayerState>, pid: int)
    ensures ExistingJoins(before + [SeedState(pid)], Some(pid)) == ExistingJoins(before, Some(pid))
  {
    if before == [] {
      assert ExistingJoins([SeedState(pid)], Some(pid)) == ExistingJoins([], Some(pid)) by {
        assert [SeedState(pid)][1..] == [];
      }
    } else {
      assert (before + [SeedState(pid)])[1..] == before[1..] + [SeedState(pid)];
      JoinsDropOwnLast(before[1..], pid);
    }
  }
}

/**
 * Login (Server/Services/PlayerService.cs): find the player record by
 * device id, then register the connection as that player's session.
 */
module Players {
  import opened Wrappers
  import opened Messages
  import opened Store
  import opened Connections

  const NotRegistered: string := "Player not registered"
  const AlreadyLoggedIn: string := "Player already logged in"

  /** Some player record carries `deviceId`. */
  predicate Registered(players: Players, deviceId: string) {
    exists k :: k in players && players[k].deviceId == deviceId
  }

  class PlayerService {
    const connectionManager: PlayerConnectionManager
    const context: GameContext

    constructor (connectionManager: PlayerConnectionManager, context: GameContext)
      ensures this.connectionManager == connectionManager && this.context == context
    {
      this.connectionManager := connectionManager;
      this.context := context;
    }

    /** The query `Where(p => p.DeviceID == deviceId).SingleOrDefault()`; changes nothing. */
    method FindByDeviceId(deviceId: string) returns (player: Option<Player>)
      ensures player.None? <==> !Registered(context.players, deviceId)
      ensures player.Some? ==>
                && player.value.deviceId == deviceId
                && exists k :: k in context.players && context.players[k] == player.value
      ensures player.Some? && UniqueDevices(context.players) ==>
                forall k :: k in context.players && context.players[k].deviceId == deviceId ==>
                              context.players[k] == player.value
    {
      var players := context.players;
      player := None;
      var unvisited := players.Keys;
      while player.None? && exists k :: k in unvisited
        invariant unvisited <= players.Keys
        invariant player.Some? ==>
                    player.value.deviceId == deviceId && exists k :: k in players && players[k] == player.value
        invariant player.None? ==> forall k :: k in players && k !in unvisited ==> players[k].deviceId != deviceId
        decreases unvisited
      {
        var key :| key in unvisited;
        if players[key].deviceId == deviceId {
          player := Some(players[key]);
        }
        unvisited := unvisited - {key};
      }
      if player.Some? && UniqueDevices(players) {
        var k0 :| k0 in players && players[k0] == player.value;
        forall k | k in players && players[k].deviceId == deviceId
          ensures players[k] == player.value
        {
          assert players[k].deviceId == players[k0].deviceId;
        }
      }
    }

    /**
     * Logs the device's player in on `socket`. `account` is the record the
     * device lookup found.
     */
    method Login(deviceId: string, socket: Socket) returns (response: LoginResponsePayload, ghost account: Option<Player>)
      requires context.Valid()
      modifies connectionManager
      ensures connectionManager.locks == old(connectionManager.locks)
      ensures context.players == old(context.players)
      ensures SessionsGrow(old(connectionManager.sessions), connectionManager.sessions)
      ensures account.None? <==> !Registered(context.players, deviceId)
      ensures account.None? ==>
                && response == LoginResponsePayload(0, None, Error, Some(NotRegistered))
                && connectionManager.sessions == old(connectionManager.sessions)
      ensures account.Some? ==>
                && account.value.deviceId == deviceId
                && account.value.id in context.players && context.players[account.value.id] == account.value
                && response.playerId == account.value.id
                && response.playerName == Some(account.value.playerName)
      ensures account.Some? && account.value.id in old(connectionManager.sessions) ==>
                && response.status == Error && response.error == Some(AlreadyLoggedIn)
                && connectionManager.sessions == old(connectionManager.sessions)
      ensures account.Some? && account.value.id !in old(connectionManager.sessions) ==>
                && response.status == Success && response.error == None
                && connectionManager.sessions == old(connectionManager.sessions)[account.value.id := socket]
    {
      var player := FindByDeviceId(deviceId);
      account := player;
      if player.None? {
        response := LoginResponsePayload(0, None, Error, Some(NotRegistered));
        return;
      }
      var p := player.value;
      var added := connectionManager.TryAddPlayer(p.id, socket);
      if !added {
        response := LoginResponsePayload(p.id, Some(p.playerName), Error, Some(AlreadyLoggedIn));
        return;
      }
      response := LoginResponsePayload(p.id, Some(p.playerName), Success, None);
    }
  }

  /**
   * Two logins for the same device: the first succeeds and binds the first
   * connection; the second, on another connection, is refused and leaves
   * that binding in place.
   */
  method LoginTwice(service: PlayerService, deviceId: string, first: Socket, second: Socket)
    returns (r1: LoginResponsePayload, r2: LoginResponsePayload)
    requires service.context.Valid()
    requires Registered(service.context.players, deviceId) && UniqueDevices(service.context.players)
    requires forall k :: k in service.context.players && service.context.players[k].deviceId == deviceId ==>
                         service.context.players[k].id !in service.connectionManager.sessions
    modifies service.connectionManager
    ensures r1.status == Success && r1.error == None
    ensures r2 == LoginResponsePayload(r1.playerId, r1.playerName, Error, Some(AlreadyLoggedIn))
    ensures service.connectionManager.sessions == old(service.connectionManager.sessions)[r1.playerId := first]
  {
    ghost var a1, a2;
    r1, a1 := service.Login(deviceId, first);
    r2, a2 := service.Login(deviceId, second);
    ghost var players := service.context.players;
    assert players[a1.value.id].deviceId == players[a2.value.id].deviceId;
  }

  /**
   * After a login binds player `id` to a connection that had no session, a
   * later command on that connection resolves to `id` with no error, and to
   * nothing else. Id 0 is excluded: the reverse lookup reads key 0 as "not
   * logged in".
   */
  lemma LoginThenResolves(sessions: map<int, Socket>, players: Players, socket: Socket, id: int,
                          resolved: int, error: Option<string>)
    requires id in players && id != 0 && id !in sessions && !Bound(sessions, socket)
    ensures Resolves(sessions[id := socket], players, socket, resolved, error) <==> resolved == id && error == None
  {
    var after := sessions[id := socket];
    if Resolves(after, players, socket, resolved, error) {
      ResolvesDeterminedByUniqueBinding(after, players, socket, id, resolved, error);
    }
    if resolved == id && error == None {
      assert SearchHit(after, socket, id) && Verdict(id, players) == (resolved, error);
    }
  }
}

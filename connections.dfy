/**
 * The session registry and the lock registry of
 * Server/Services/PlayerConnectionManager.cs: a map from player id to the
 * player's connection and a map from player id to that player's lock. Both
 * maps only take insert-if-absent updates; nothing ever removes an entry.
 */
module Connections {
  import opened Wrappers
  import opened Store

  /** An opaque connection handle; two handles are the same connection when they are equal. */
  datatype Socket = Socket(handle: nat)

  const NotLoggedIn: string := "Player not logged in"
  const PlayerNotFound: string := "Player not found"

  /** A per-player lock: a semaphore created with one free slot out of one. */
  class Semaphore {
    const initialCount: nat
    const maxCount: nat

    constructor ()
      ensures initialCount == 1 && maxCount == 1
    {
      initialCount := 1;
      maxCount := 1;
    }
  }

  /**
   * `k` is a key on which the search `FirstOrDefault(p => p.Value == socket).Key`
   * may stop: a key bound to `socket`, or the default key 0 when no key is.
   * The dictionary's enumeration order is unspecified, so any bound key may be the first.
   */
  predicate SearchHit(sessions: map<int, Socket>, socket: Socket, k: int) {
    (k in sessions && sessions[k] == socket) || (k == 0 && !Bound(sessions, socket))
  }

  /** Some player id is bound to `socket`. */
  predicate Bound(sessions: map<int, Socket>, socket: Socket) {
    exists k :: k in sessions && sessions[k] == socket
  }

  /** What the reverse lookup reports once the search has stopped on key `k`. */
  function Verdict(k: int, players: Players): (int, Option<string>) {
    if k == 0 then (0, Some(NotLoggedIn))
    else if k in players then (k, None)
    else (0, Some(PlayerNotFound))
  }

  /** `(id, error)` is a possible answer of GetPlayerIdBySocket(socket, players). */
  ghost predicate Resolves(sessions: map<int, Socket>, players: Players, socket: Socket, id: int, error: Option<string>) {
    exists k :: SearchHit(sessions, socket, k) && Verdict(k, players) == (id, error)
  }

  /** `after` keeps every binding of `before`: no session is removed or rebound. */
  ghost predicate SessionsGrow(before: map<int, Socket>, after: map<int, Socket>) {
    forall k :: k in before ==> k in after && after[k] == before[k]
  }

  /** `after` keeps every lock of `before` and adds only the locks of `ids`. */
  ghost predicate LocksAdded(before: map<int, Semaphore>, after: map<int, Semaphore>, ids: set<int>) {
    && (forall k :: k in after <==> k in before || k in ids)
    && (forall k :: k in before ==> after[k] == before[k])
  }

  class PlayerConnectionManager {
    var sessions: map<int, Socket>
    var locks: map<int, Semaphore>

    constructor ()
      ensures sessions == map[] && locks == map[]
    {
      sessions := map[];
      locks := map[];
    }

    /** Binds `playerId` to `socket` unless the id is bound already. */
    method TryAddPlayer(playerId: int, socket: Socket) returns (added: bool)
      modifies this
      ensures added <==> playerId !in old(sessions)
      ensures sessions == if added then old(sessions)[playerId := socket] else old(sessions)
      ensures SessionsGrow(old(sessions), sessions)
      ensures locks == old(locks)
    {
      added := playerId !in sessions;
      if added {
        sessions := sessions[playerId := socket];
      }
    }

    /** Looks up the connection bound to `playerId`; changes nothing. */
    method TryGetPlayerSocket(playerId: int) returns (found: bool, socket: Option<Socket>)
      ensures found <==> playerId in sessions
      ensures found ==> socket == Some(sessions[playerId])
      ensures !found ==> socket == None
    {
      found := playerId in sessions;
      socket := if found then Some(sessions[playerId]) else None;
    }

    /**
     * The reverse lookup: the id whose session is `socket`, checked against
     * the player records `players`; changes nothing.
     */
    method GetPlayerIdBySocket(socket: Socket, players: Players) returns (id: int, error: Option<string>)
      ensures Resolves(sessions, players, socket, id, error)
      ensures !Bound(sessions, socket) ==> id == 0 && error == Some(NotLoggedIn)
      ensures id != 0 ==> id in sessions && sessions[id] == socket && id in players && error == None
      ensures id == 0 ==> error == Some(NotLoggedIn) || error == Some(PlayerNotFound)
      ensures error == Some(PlayerNotFound) ==>
                exists k :: k in sessions && k != 0 && sessions[k] == socket && k !in players
    {
      // FirstOrDefault: the first key bound to socket, or default(int) = 0
      var player := 0;
      var found := false;
      var unvisited := sessions.Keys;
      while !found && exists k :: k in unvisited
        invariant unvisited <= sessions.Keys
        invariant found ==> player in sessions && sessions[player] == socket
        invariant !found ==> player == 0 && forall k :: k in sessions && k !in unvisited ==> sessions[k] != socket
        decreases unvisited
      {
        var key :| key in unvisited;
        if sessions[key] == socket {
          player, found := key, true;
        }
        unvisited := unvisited - {key};
      }
      assert SearchHit(sessions, socket, player);
      if player == 0 {
        id, error := 0, Some(NotLoggedIn);
      } else if player in players {
        id, error := player, None;
      } else {
        id, error := 0, Some(PlayerNotFound);
      }
      assert Verdict(player, players) == (id, error);
    }

    /** The lock of `playerId`, created on the first request and the same on every later one. */
    method GetLockObject(playerId: int) returns (lock: Semaphore)
      modifies this
      ensures playerId in old(locks) ==> lock == old(locks)[playerId] && locks == old(locks)
      ensures playerId !in old(locks) ==> fresh(lock) && locks == old(locks)[playerId := lock]
      ensures LocksAdded(old(locks), locks, {playerId}) && lock == locks[playerId]
      ensures sessions == old(sessions)
    {
      // GetOrAdd evaluates its value argument before it looks the key up
      var candidate := new Semaphore();
      if playerId in locks {
        lock := locks[playerId];
      } else {
        locks := locks[playerId := candidate];
        lock := candidate;
      }
    }
  }

  /** Under a socket bound to exactly one id, the reverse lookup has exactly one answer. */
  lemma ResolvesDeterminedByUniqueBinding(sessions: map<int, Socket>, players: Players, socket: Socket,
                                          k: int, id: int, error: Option<string>)
    requires k in sessions && sessions[k] == socket
    requires forall j :: j in sessions && sessions[j] == socket ==> j == k
    requires Resolves(sessions, players, socket, id, error)
    ensures (id, error) == Verdict(k, players)
  {
  }

  /** A nonzero answer of the reverse lookup is a logged-in player bound to the socket. */
  lemma ResolvedIdIsBound(sessions: map<int, Socket>, players: Players, socket: Socket, id: int, error: Option<string>)
    requires Resolves(sessions, players, socket, id, error) && id != 0
    ensures id in sessions && sessions[id] == socket && id in players && error == None
  {
  }
}

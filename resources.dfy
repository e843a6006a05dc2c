/**
 * The ledger engine of Server/Services/ResourceService.cs. Two pure
 * functions say what the critical sections compute (ApplyDelta for
 * UpdateResources, Transfer for SendGift); the class ResourceService does
 * it step by step, as the source does, and its methods are proved to agree
 * with them, to validate in the source's order and to keep the lock order.
 */
module Resources {
  import opened Wrappers
  import opened Messages
  import opened Store
  import opened Connections
  import opened Locking

  const InsufficientCoins: string := "Insufficient coins"
  const InsufficientRolls: string := "Insufficient rolls"
  const UnknownResourceType: string := "Unknown resource type"
  const NonPositiveGift: string := "Can't gift a non positive amount"
  const GiftToSelf: string := "Can't gift to yourself"
  const RecipientNotFound: string := "Recipient not found"

  /** The two balances of a player. */
  datatype Kind = CoinsKind | RollsKind

  function KindName(k: Kind): string {
    match k
    case CoinsKind => Coins
    case RollsKind => Rolls
  }

  /** The balance a resource-type string names, if it names one. */
  function KindOf(resourceType: string): (k: Option<Kind>)
    ensures k.Some? <==> resourceType == Coins || resourceType == Rolls
    ensures k.Some? ==> KindName(k.value) == resourceType
  {
    if resourceType == Coins then Some(CoinsKind)
    else if resourceType == Rolls then Some(RollsKind)
    else None
  }

  function Other(k: Kind): Kind {
    match k
    case CoinsKind => RollsKind
    case RollsKind => CoinsKind
  }

  function Balance(p: Player, k: Kind): int {
    match k
    case CoinsKind => p.coins
    case RollsKind => p.rolls
  }

  function Insufficient(k: Kind): string {
    match k
    case CoinsKind => InsufficientCoins
    case RollsKind => InsufficientRolls
  }

  /** `q` is `p` except perhaps for its `k` balance. */
  ghost predicate SameBut(p: Player, q: Player, k: Kind) {
    && q.id == p.id && q.playerName == p.playerName && q.deviceId == p.deviceId
    && Balance(q, Other(k)) == Balance(p, Other(k))
  }

  /** A response together with the player records after the operation. */
  datatype Outcome<P> = Outcome(payload: P, players: Players)

  /**
   * The critical section of UpdateResources: add the signed `delta` to the
   * balance `resourceType` names, unless that leaves it below zero.
   */
  function ApplyDelta(players: Players, id: int, resourceType: string, delta: int): (o: Outcome<UpdateResourcesResponsePayload>)
    requires id in players
    ensures o.payload.status == Success <==>
              KindOf(resourceType).Some? && Balance(players[id], KindOf(resourceType).value) + delta >= 0
    ensures o.payload.status == Error ==> o.players == players
    ensures KindOf(resourceType).None? ==>
              o.payload == UpdateResourcesResponsePayload(Some(resourceType), 0, Error, Some(UnknownResourceType))
    ensures KindOf(resourceType).Some? ==>
              var k := KindOf(resourceType).value;
              && o.payload.resourceType == Some(resourceType)
              && o.payload.balance == Balance(players[id], k) + delta
              && o.payload.error == (if o.payload.status == Error then Some(Insufficient(k)) else None)
    ensures o.players.Keys == players.Keys
    ensures forall j :: j in players && j != id ==> o.players[j] == players[j]
    ensures o.payload.status == Success ==>
              var k := KindOf(resourceType).value;
              && SameBut(players[id], o.players[id], k)
              && Balance(o.players[id], k) == Balance(players[id], k) + delta
    ensures NonNegative(players) ==> NonNegative(o.players)
    ensures KeyedById(players) ==> KeyedById(o.players)
  {
    var player := players[id];
    var coins := if resourceType == Coins then player.coins + delta else player.coins;
    var rolls := if resourceType == Rolls then player.rolls + delta else player.rolls;
    if resourceType == Coins && coins < 0 then
      Outcome(UpdateResourcesResponsePayload(Some(Coins), coins, Error, Some(InsufficientCoins)), players)
    else if resourceType == Rolls && rolls < 0 then
      Outcome(UpdateResourcesResponsePayload(Some(Rolls), rolls, Error, Some(InsufficientRolls)), players)
    else if resourceType != Coins && resourceType != Rolls then
      Outcome(UpdateResourcesResponsePayload(Some(resourceType), 0, Error, Some(UnknownResourceType)), players)
    else
      var saved := players[id := player.(coins := coins, rolls := rolls)];
      Outcome(UpdateResourcesResponsePayload(Some(if resourceType == Coins then Coins else Rolls),
                                             if resourceType == Coins then coins else rolls, Success, None),
              saved)
  }

  /**
   * The critical section of SendGift, both locks held: move `amount` of the
   * balance `resourceType` names from `sender` to `recipient`, unless the
   * sender would go below zero.
   */
  function Transfer(players: Players, sender: int, recipient: int, resourceType: string, amount: int)
    : (o: Outcome<SendGiftResponsePayload>)
    requires sender in players && recipient in players && sender != recipient
    ensures o.payload.status == Success <==>
              KindOf(resourceType).Some? && Balance(players[sender], KindOf(resourceType).value) >= amount
    ensures o.payload.status == Error ==> o.players == players
    ensures KindOf(resourceType).None? ==>
              o.payload == SendGiftResponsePayload(Some(resourceType), 0, 0, None, Error, Some(UnknownResourceType))
    ensures KindOf(resourceType).Some? && o.payload.status == Error ==>
              var k := KindOf(resourceType).value;
              o.payload == SendGiftResponsePayload(Some(resourceType), Balance(players[sender], k) - amount,
                                                   Balance(players[sender], k), None, Error, Some(Insufficient(k)))
    ensures o.players.Keys == players.Keys
    ensures forall j :: j in players && j != sender && j != recipient ==> o.players[j] == players[j]
    ensures o.payload.status == Success ==>
              var k := KindOf(resourceType).value;
              && SameBut(players[sender], o.players[sender], k)
              && SameBut(players[recipient], o.players[recipient], k)
              && Balance(o.players[sender], k) == Balance(players[sender], k) - amount
              && Balance(o.players[recipient], k) == Balance(players[recipient], k) + amount
              && o.payload == SendGiftResponsePayload(Some(resourceType), amount, Balance(o.players[recipient], k),
                                                      Some(players[sender].playerName), Success, None)
    ensures forall k: Kind :: Balance(o.players[sender], k) + Balance(o.players[recipient], k)
                              == Balance(players[sender], k) + Balance(players[recipient], k)
    ensures amount > 0 && NonNegative(players) ==> NonNegative(o.players)
    ensures KeyedById(players) ==> KeyedById(o.players)
  {
    var player := players[sender];
    var coins := if resourceType == Coins then player.coins - amount else player.coins;
    var rolls := if resourceType == Rolls then player.rolls - amount else player.rolls;
    if resourceType == Coins && coins < 0 then
      Outcome(SendGiftResponsePayload(Some(Coins), coins, player.coins, None, Error, Some(InsufficientCoins)), players)
    else if resourceType == Rolls && rolls < 0 then
      Outcome(SendGiftResponsePayload(Some(Rolls), rolls, player.rolls, None, Error, Some(InsufficientRolls)), players)
    else if resourceType != Coins && resourceType != Rolls then
      Outcome(SendGiftResponsePayload(Some(resourceType), 0, 0, None, Error, Some(UnknownResourceType)), players)
    else
      var receiver := players[recipient];
      var credited := receiver.(coins := receiver.coins + (player.coins - coins),
                                rolls := receiver.rolls + (player.rolls - rolls));
      var debited := player.(coins := coins, rolls := rolls);
      Outcome(SendGiftResponsePayload(Some(if resourceType == Coins then Coins else Rolls), amount,
                                      if resourceType == Coins then credited.coins else credited.rolls,
                                      Some(player.playerName), Success, None),
              players[recipient := credited][sender := debited])
  }

  /** A gift that stops before any lock is taken. */
  function GiftFailure(error: Option<string>): SendGiftResponsePayload {
    SendGiftResponsePayload(None, 0, 0, None, Error, error)
  }

  /** The gift passes every check SendGift makes before it takes the locks. */
  predicate GiftAdmitted(players: Players, amount: int, sender: int, recipient: int) {
    amount > 0 && sender != 0 && sender != recipient && recipient in players
  }

  class ResourceService {
    const context: GameContext
    const connectionManager: PlayerConnectionManager
    /**
     * Every WaitAsync (Acquire) and Release this service has made on a
     * player lock, and every player record it has saved (Write), in order.
     */
    ghost var lockLog: seq<LockEvent>

    ghost predicate Valid()
      reads this
    {
      Disciplined(lockLog)
    }

    /** The locks held now, innermost last; None if the log broke the discipline. */
    ghost function Held(): Option<seq<int>>
      reads this
    {
      Replay(lockLog, [])
    }

    /** The store, the lock map and the lock log are as given. */
    ghost predicate Untouched(players: Players, locks: map<int, Semaphore>, log: seq<LockEvent>)
      reads this, context, connectionManager
    {
      context.players == players && connectionManager.locks == locks && lockLog == log
    }

    constructor (context: GameContext, connectionManager: PlayerConnectionManager)
      ensures this.context == context && this.connectionManager == connectionManager
      ensures lockLog == [] && Valid()
    {
      this.context := context;
      this.connectionManager := connectionManager;
      lockLog := [];
    }

    /**
     * SaveChangesAsync: stores `updated`, which differs from the store only
     * in the records of `ids`. Balances are written only under their owner's
     * lock, so every one of those locks must be held.
     */
    method Save(ids: seq<int>, updated: Players)
      requires Held().Some? && forall x :: x in ids ==> x in Held().value
      requires updated.Keys == context.players.Keys
      requires forall j :: j in context.players && j !in ids ==> updated[j] == context.players[j]
      modifies this`lockLog, context`players
      ensures context.players == updated
      ensures lockLog == old(lockLog) + Writes(ids)
      ensures Held() == old(Held())
    {
      WritesReplay(ids, Held().value);
      ReplayAppend(lockLog, Writes(ids), []);
      context.players := updated;
      lockLog := lockLog + Writes(ids);
    }

    /** Appends the WaitAsync of `id`'s lock, which must keep the ascending order. */
    method Acquire(id: int)
      requires Held().Some? && MayRequest(Held().value, id)
      modifies this`lockLog
      ensures lockLog == old(lockLog) + [LockEvent.Acquire(id)]
      ensures Held() == Some(old(Held()).value + [id])
    {
      ReplayAppend(lockLog, [LockEvent.Acquire(id)], []);
      assert [LockEvent.Acquire(id)][1..] == [];
      lockLog := lockLog + [LockEvent.Acquire(id)];
    }

    /**
     * Adds the signed `resourceValue` to the acting player's `resourceType`
     * balance. `actor` and `resolverMsg` are what the reverse lookup of
     * `socket` returned.
     */
    method UpdateResources(resourceType: string, resourceValue: int, socket: Socket)
      returns (response: UpdateResourcesResponsePayload, ghost actor: int, ghost resolverMsg: Option<string>)
      requires Valid() && context.Valid()
      modifies this, context, connectionManager
      ensures Valid() && context.Valid()
      ensures connectionManager.sessions == old(connectionManager.sessions)
      ensures Resolves(old(connectionManager.sessions), old(context.players), socket, actor, resolverMsg)
      ensures actor == 0 ==>
                && response == UpdateResourcesResponsePayload(None, 0, Error, resolverMsg)
                && Untouched(old(context.players), old(connectionManager.locks), old(lockLog))
      ensures actor != 0 ==>
                && actor in old(context.players)
                && Outcome(response, context.players) == ApplyDelta(old(context.players), actor, resourceType, resourceValue)
                && LocksAdded(old(connectionManager.locks), connectionManager.locks, {actor})
                && lockLog == old(lockLog) + Bracket([actor], Writes(if response.status == Success then [actor] else []))
    {
      var players := context.players;
      var playerId, verifyMsg := connectionManager.GetPlayerIdBySocket(socket, players);
      actor, resolverMsg := playerId, verifyMsg;
      if playerId == 0 {
        response := UpdateResourcesResponsePayload(None, 0, Error, verifyMsg);
        return;
      }

      var objLock := connectionManager.GetLockObject(playerId);
      Acquire(playerId);  // objLock.WaitAsync()
      var playerEntity := context.players[playerId];
      var coins := playerEntity.coins;
      var rolls := playerEntity.rolls;
      var save := false;
      if resourceType == Coins {
        coins := coins + resourceValue;
        if coins < 0 {
          response := UpdateResourcesResponsePayload(Some(Coins), coins, Error, Some(InsufficientCoins));
        } else {
          save := true;
        }
      } else if resourceType == Rolls {
        rolls := rolls + resourceValue;
        if rolls < 0 {
          response := UpdateResourcesResponsePayload(Some(Rolls), rolls, Error, Some(InsufficientRolls));
        } else {
          save := true;
        }
      } else {
        response := UpdateResourcesResponsePayload(Some(resourceType), 0, Error, Some(UnknownResourceType));
      }
      if save {
        playerEntity := playerEntity.(coins := coins, rolls := rolls);
        Save([playerId], context.players[playerId := playerEntity]);
        response := UpdateResourcesResponsePayload(Some(if resourceType == Coins then Coins else Rolls),
                                                   if resourceType == Coins then playerEntity.coins else playerEntity.rolls,
                                                   Success, None);
      }
      lockLog := lockLog + [Release(playerId)];  // finally: objLock.Release()

      ghost var written := if save then [playerId] else [];
      assert Writes(written) == if save then [Write(playerId)] else [];
      assert Bracket([playerId], Writes(written)) == [LockEvent.Acquire(playerId)] + Writes(written) + [Release(playerId)];
      SingleLockDisciplined(playerId, written);
      DisciplinedAppend(old(lockLog), Bracket([playerId], Writes(written)));
      assert lockLog == old(lockLog) + Bracket([playerId], Writes(written));
    }

    /**
     * Gives `resourceValue` of `resourceType` from the acting player to
     * `recipientId`. `actor` and `resolverMsg` are what the reverse lookup
     * of `socket` returned (0 and None when the amount check stops the gift first).
     */
    method SendGift(resourceType: string, resourceValue: int, recipientId: int, socket: Socket)
      returns (response: SendGiftResponsePayload, ghost actor: int, ghost resolverMsg: Option<string>)
      requires Valid() && context.Valid()
      modifies this, context, connectionManager
      ensures Valid() && context.Valid()
      ensures connectionManager.sessions == old(connectionManager.sessions)
      ensures resourceValue <= 0 ==>
                && response == GiftFailure(Some(NonPositiveGift))
                && Untouched(old(context.players), old(connectionManager.locks), old(lockLog))
      ensures resourceValue > 0 ==>
                Resolves(old(connectionManager.sessions), old(context.players), socket, actor, resolverMsg)
      ensures resourceValue > 0 && actor == 0 ==>
                && response == GiftFailure(resolverMsg)
                && Untouched(old(context.players), old(connectionManager.locks), old(lockLog))
      ensures resourceValue > 0 && actor != 0 && actor == recipientId ==>
                && response == GiftFailure(Some(GiftToSelf))
                && Untouched(old(context.players), old(connectionManager.locks), old(lockLog))
      ensures resourceValue > 0 && actor != 0 && actor != recipientId && recipientId !in old(context.players) ==>
                && response == GiftFailure(Some(RecipientNotFound))
                && Untouched(old(context.players), old(connectionManager.locks), old(lockLog))
      ensures GiftAdmitted(old(context.players), resourceValue, actor, recipientId) ==>
                && actor in old(context.players)
                && Outcome(response, context.players)
                   == Transfer(old(context.players), actor, recipientId, resourceType, resourceValue)
                && LocksAdded(old(connectionManager.locks), connectionManager.locks, {actor, recipientId})
                && lockLog == old(lockLog)
                              + GiftLocks(actor, recipientId, if response.status == Success then [actor, recipientId] else [])
    {
      actor, resolverMsg := 0, None;
      if resourceValue <= 0 {
        response := GiftFailure(Some(NonPositiveGift));
        return;
      }
      var players := context.players;
      var playerId, verifyMsg := connectionManager.GetPlayerIdBySocket(socket, players);
      actor, resolverMsg := playerId, verifyMsg;
      if playerId == 0 {
        response := GiftFailure(verifyMsg);
        return;
      }
      if playerId == recipientId {
        response := GiftFailure(Some(GiftToSelf));
        return;
      }
      if recipientId !in players {
        response := GiftFailure(Some(RecipientNotFound));
        return;
      }

      var firstId := Min(playerId, recipientId);
      var secondId := Max(playerId, recipientId);
      var objLock := connectionManager.GetLockObject(firstId);
      var objLock2 := connectionManager.GetLockObject(secondId);
      response := GiftUnderLocks(firstId, secondId, playerId, recipientId, resourceType, resourceValue);
    }

    /**
     * SendGift from its first WaitAsync to its last Release: both locks are
     * taken in ascending id order, the transfer runs, and the locks are
     * released in the reverse order.
     */
    method GiftUnderLocks(firstId: int, secondId: int, playerId: int, recipientId: int, resourceType: string, resourceValue: int)
      returns (response: SendGiftResponsePayload)
      requires Valid() && context.Valid()
      requires playerId in context.players && recipientId in context.players && playerId != recipientId
      requires firstId == Min(playerId, recipientId) && secondId == Max(playerId, recipientId)
      modifies this`lockLog, context`players
      ensures Valid() && context.Valid()
      ensures Outcome(response, context.players)
              == Transfer(old(context.players), playerId, recipientId, resourceType, resourceValue)
      ensures lockLog == old(lockLog)
                         + GiftLocks(playerId, recipientId, if response.status == Success then [playerId, recipientId] else [])
    {
      Acquire(firstId);   // objLock.WaitAsync()
      Acquire(secondId);  // objLock2.WaitAsync()
      response := TransferLocked(playerId, recipientId, resourceType, resourceValue);
      lockLog := lockLog + [Release(secondId)];  // finally: objLock2.Release()
      lockLog := lockLog + [Release(firstId)];   // finally: objLock.Release()

      ghost var written := if response.status == Success then [playerId, recipientId] else [];
      GiftLogShape(old(lockLog), playerId, recipientId, written);
      assert lockLog == old(lockLog) + GiftLocks(playerId, recipientId, written);
    }

    /** The body of SendGift's try block, run with both locks held. */
    method TransferLocked(playerId: int, recipientId: int, resourceType: string, resourceValue: int)
      returns (response: SendGiftResponsePayload)
      requires playerId in context.players && recipientId in context.players && playerId != recipientId
      requires Held().Some? && playerId in Held().value && recipientId in Held().value
      modifies this`lockLog, context`players
      ensures Outcome(response, context.players)
              == Transfer(old(context.players), playerId, recipientId, resourceType, resourceValue)
      ensures lockLog == old(lockLog) + Writes(if response.status == Success then [playerId, recipientId] else [])
      ensures Held() == old(Held())
    {
      var playerEntity := context.players[playerId];
      var coins := playerEntity.coins;
      var rolls := playerEntity.rolls;
      var save := false;
      if resourceType == Coins {
        coins := coins - resourceValue;
        if coins < 0 {
          response := SendGiftResponsePayload(Some(Coins), coins, playerEntity.coins, None, Error, Some(InsufficientCoins));
        } else {
          save := true;
        }
      } else if resourceType == Rolls {
        rolls := rolls - resourceValue;
        if rolls < 0 {
          response := SendGiftResponsePayload(Some(Rolls), rolls, playerEntity.rolls, None, Error, Some(InsufficientRolls));
        } else {
          save := true;
        }
      } else {
        response := SendGiftResponsePayload(Some(resourceType), 0, 0, None, Error, Some(UnknownResourceType));
      }
      if save {
        var recipientEntity := context.players[recipientId];
        recipientEntity := recipientEntity.(coins := recipientEntity.coins + (playerEntity.coins - coins),
                                            rolls := recipientEntity.rolls + (playerEntity.rolls - rolls));
        var senderEntity := playerEntity.(coins := coins, rolls := rolls);
        Save([playerId, recipientId], context.players[recipientId := recipientEntity][playerId := senderEntity]);
        response := SendGiftResponsePayload(Some(if resourceType == Coins then Coins else Rolls), resourceValue,
                                            if resourceType == Coins then recipientEntity.coins else recipientEntity.rolls,
                                            Some(playerEntity.playerName), Success, None);
      }
    }
  }
}

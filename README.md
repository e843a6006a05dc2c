# Game-server session registry and resource ledger, in Dafny

This project models the core of a WebSocket game server (C#). Players log in
with a device id. Each player has two integer balances, `coins` and `rolls`.
A logged-in player can add a signed amount to one balance, or gift a positive
amount to another player. The model covers four parts:

- **Session and lock registry** (`Connections`): the class
  `PlayerConnectionManager` holds two maps. One maps a player id to the
  player's connection. The other maps a player id to that player's lock. Both
  maps take only insert-if-absent updates. The class also offers a reverse lookup
  from a connection to a player id. `FirstOrDefault` over an unordered dictionary
  may stop on any key bound to the connection. The contract admits every such
  order (`Resolves`), and `ResolvesDeterminedByUniqueBinding` shows that the
  answer is unique once the binding is.
- **Ledger engine** (`Resources`): the critical section of each operation is
  specified by a pure function. `ApplyDelta` covers UpdateResources and
  `Transfer` covers SendGift.
  - The class `ResourceService` does the same work step by step: it copies the
    two balances into locals, updates them, and then writes the record back in one
    store update.
  - Its methods are proved to agree with the functions. They validate requests in
    the source's order, and they leave the store, the lock map and the lock log
    untouched on every early error.
  - Locks are modelled by their observable discipline. A ghost log records each
    lock acquisition (`WaitAsync`), each release, and each player record saved
    (`SaveChangesAsync`). Every save goes through `ResourceService.Save`, which
    requires the lock of each record it writes to be held. `Locking` proves four
    things about that log:
    - a gift takes its two locks in ascending id order and releases them in
      reverse order;
    - every log the service writes replays as a well-nested stack;
    - in such a log every record is written while its owner's lock is held;
    - tasks that keep the ascending order can never wait for one another in a cycle.
  - `LedgerProperties` proves two properties of whole runs over one shared,
    always-current store. Deltas applied one after another sum up exactly: the
    final balance is the initial one plus their sum. A gift conserves each
    balance's total over all players. "## Left out" says why the running server
    need not keep these.
- **Login** (`Players`): find the player record by device id, then register
  the session. There are three outcomes: not registered, already logged in, or
  success.
- **Gift delivery** (`GiftCommand`): `Route` decides who receives a gift
  response. An error goes to the sender. A success goes to the recipient, and
  only if the recipient has a session. A success is never routed back to the
  requesting connection as such.

The store (`Store.GameContext`) is a map from player id to `Player` record.
`Id` is the primary key, so every record is stored under its own id
(`GameContext.Valid`); the services require and keep this.
Connections are opaque handles (`Socket`). Payloads are the decoded records of
the protocol messages (`Messages`). A nullable string field becomes an
`Option<string>`, and the status strings `"error"`/`"success"` become the
datatype `Status`.

Two behaviours one might expect of a session registry are not in the code,
and the model follows the code:

- A session registry is expected to drop a session on disconnect.
  `PlayerConnectionManager` has no removing operation, so in the model the
  session map only grows (`SessionsGrow`). The disconnect path is not part of
  this model.
- A connection is expected to be bound to at most one player. `TryAddPlayer`
  checks only the player id, so one connection can hold several bindings. That
  is why the reverse lookup is modelled as a choice among the bound ids.

## Model

| member | source | states |
|---|---|---|
| Connections.PlayerConnectionManager.constructor | Server/Services/PlayerConnectionManager.cs:10-11 | both registries start empty |
| Connections.Semaphore.constructor | Server/Services/PlayerConnectionManager.cs:37 | a per-player lock is a semaphore with one free slot out of one |
| Connections.PlayerConnectionManager.TryAddPlayer | Server/Services/PlayerConnectionManager.cs:13-16 | succeeds exactly when the id had no binding, and only then binds id to the socket; no existing binding is removed or changed; locks are untouched |
| Connections.PlayerConnectionManager.TryGetPlayerSocket | Server/Services/PlayerConnectionManager.cs:18-21 | finds a socket exactly when the id is bound, and returns the bound socket; changes nothing |
| Connections.PlayerConnectionManager.GetPlayerIdBySocket | Server/Services/PlayerConnectionManager.cs:23-33 | the answer is a possible result over every enumeration order; an unbound socket gives (0, "Player not logged in"); a nonzero id is bound to that socket and has a player record, with no error; "Player not found" only when a bound id has no record |
| Connections.PlayerConnectionManager.GetLockObject | Server/Services/PlayerConnectionManager.cs:35-38 | an existing lock is returned and the map is unchanged; otherwise a new lock is created and added; the lock map only grows by this id; sessions are untouched |
| Connections.ResolvesDeterminedByUniqueBinding | Server/Services/PlayerConnectionManager.cs:25-32 | when exactly one id is bound to the socket, the reverse lookup has exactly one answer, decided by that id |
| Connections.ResolvedIdIsBound | Server/Services/PlayerConnectionManager.cs:25-32 | any nonzero answer of the reverse lookup is a logged-in player bound to that socket, with no error |
| Store.GameContext.constructor | Server/DB/DBModel.cs:5-13 | the context holds the given player records, each stored under its own id |
| Resources.KindOf | Manager/Constants/Constants.cs:16-17 | a resource type names a balance exactly when it is "coins" or "rolls", and the named balance's name is that string |
| Resources.ApplyDelta | Server/Services/ResourceService.cs:25-63 | success exactly when the type is known and balance + delta >= 0; any error leaves the store unchanged; unknown type gives (type, 0, "Unknown resource type"); a shortfall gives the would-be negative balance and "Insufficient coins/rolls"; on success only the named balance of that player changes, by exactly delta, and the new balance is reported; non-negative balances stay non-negative |
| Resources.Transfer | Server/Services/ResourceService.cs:102-142 | success exactly when the type is known and the sender's balance is at least the amount; any error leaves both players unchanged; a shortfall gives (kind, balance - amount, balance, "Insufficient ...") ; on success the sender loses and the recipient gains exactly the amount in that kind and nothing else changes; each kind's two-player sum is conserved; the response carries the amount, the recipient's new balance and the sender's name |
| Resources.ResourceService.constructor | Server/Services/ResourceService.cs:9 | the service starts with an empty, well-nested lock log |
| Resources.ResourceService.UpdateResources | Server/Services/ResourceService.cs:11-69 | the actor is a possible reverse-lookup answer; an unresolved socket gives (null, 0, error, resolver message) and touches no store, lock or log; otherwise the response and new store are ApplyDelta's, only the actor's lock is added, and the log gains exactly the actor's acquire, a save of the actor's record only on success, and the release; sessions unchanged; the log stays well nested and the store keyed by id |
| Resources.ResourceService.SendGift | Server/Services/ResourceService.cs:71-150 | checks in order: non-positive amount, unresolved sender, gift to self, missing recipient; each gives its error payload and touches no store, lock or log; an admitted gift's response and new store are Transfer's, only the two players' locks are added, and the log gains the gift's lock events (min id first, both records saved only on success, released in reverse); the log stays well nested and the store keyed by id |
| Resources.ResourceService.TransferLocked | Server/Services/ResourceService.cs:100-144 | the try block run under both locks computes exactly Transfer's response and store, saving both records only on success, and keeps the held locks |
| Resources.ResourceService.Save | Server/Services/ResourceService.cs:136 | SaveChangesAsync stores exactly the updated records, only those of the given ids change, each of their locks must be held, and the log records one save per id while the held locks stay as they were |
| Resources.ResourceService.Acquire | Server/Services/ResourceService.cs:98-99 | WaitAsync on a lock above every lock held logs its acquisition and pushes it on the held stack |
| Resources.ResourceService.GiftUnderLocks | Server/Services/ResourceService.cs:98-149 | from the first WaitAsync to the last Release, a gift computes exactly Transfer's response and store and appends exactly the gift's lock events, keeping the log well nested |
| Locking.GiftLocksOrdered | Server/Services/ResourceService.cs:94-149 | a gift acquires min(sender, recipient) then max, saves only the two players' records in between, releases max then min, and ends holding nothing, whichever side sends |
| Locking.SingleLockDisciplined | Server/Services/ResourceService.cs:21-68 | UpdateResources acquires its one lock, saves only that player's record, releases the lock and ends holding nothing |
| Locking.BracketReplays | Server/Services/ResourceService.cs:94-149 | nested try/finally blocks over increasing ids, all above the locks already held, around a body that keeps the held stack, keep the ascending order and restore the held stack |
| Locking.BracketOrder | Server/Services/ResourceService.cs:94-149 | nested blocks around a body that takes no lock acquire exactly their ids in order and release them in reverse order |
| Locking.DisciplinedAppend | Server/Services/ResourceService.cs:11-150 | one well-nested run of operations after another is still well nested |
| Locking.WritesReplay | Server/Services/ResourceService.cs:58 | saving records whose locks are all held keeps the held stack and takes or releases no lock |
| Locking.WriteUnderLock | Server/Services/ResourceService.cs:56-67 | in a well-nested log every saved record's lock is held at the moment of the save |
| Locking.GiftLogShape | Server/Services/ResourceService.cs:98-149 | a gift's events are acquire min, acquire max, the saves, release max, release min, and appending them keeps the log well nested |
| Locking.WaitCycleBreaksOrder | Server/Services/ResourceService.cs:94-99 | in every cycle of tasks waiting for one another's locks, some task waits for a lock below one it holds, so ascending acquisition cannot deadlock |
| LedgerProperties.ApplyAll | Server/Services/ResourceService.cs:21-68 | a run of updates for one player keeps the set of players and leaves every other player unchanged |
| LedgerProperties.NoLostUpdates | Server/Services/ResourceService.cs:21-68 | deltas applied one after another sum up exactly: if no prefix drives the balance negative, the final balance is the initial one plus the sum of the deltas |
| LedgerProperties.TransferKeepsTotals | Server/Services/ResourceService.cs:130-136 | a gift, successful or not, keeps the total of each balance over all players |
| LedgerProperties.ApplyDeltaMovesTotal | Server/Services/ResourceService.cs:56-58 | a successful update moves the named balance's total by exactly the delta and leaves the other total unchanged |
| Players.PlayerService.constructor | Server/Services/PlayerService.cs:10-13 | the service uses the given registry and store |
| Players.PlayerService.FindByDeviceId | Server/Services/PlayerService.cs:18 | finds nothing exactly when no record has the device id; a found record is in the store with that device id; with unique device ids it is the only such record |
| Players.PlayerService.Login | Server/Services/PlayerService.cs:15-33 | unknown device: (0, null, error, "Player not registered") and no session change; id already bound: (id, name, error, "Player already logged in") and the binding is kept; otherwise (id, name, success, null) and exactly id -> socket is added; the found record is the store's record under its id; locks and store are never modified; sessions only grow |
| Players.LoginTwice | Server/Services/PlayerService.cs:25-29 | two logins for one device on two connections: the first succeeds and binds the first connection, and the second is refused with "Player already logged in" |
| Players.LoginThenResolves | Server/Services/PlayerConnectionManager.cs:13-32 | after a login binds a nonzero player id to a connection that had no session, the reverse lookup of that connection answers that id with no error, and nothing else |
| GiftCommand.Route | Server/Commands/SendGiftCommandHandler.cs:18-25 | an error goes to the requester and only then; a success goes to the recipient's connection exactly when the recipient has a session, and to no one otherwise |
| GiftCommand.SendGiftCommandHandler.constructor | Server/Commands/SendGiftCommandHandler.cs:9 | the handler and its service share one registry, and a handler over a valid service and store starts valid |
| GiftCommand.SendGiftCommandHandler.CanHandle | Server/Commands/SendGiftCommandHandler.cs:28-31 | true exactly for the command "sendGift" |
| GiftCommand.SendGiftCommandHandler.HandleAsync | Server/Commands/SendGiftCommandHandler.cs:14-26 | the destination is Route's, so an error goes back to the sender; an error leaves the store unchanged, and a gift stopped before the locks touches no store, lock or log; an admitted gift's response and store are Transfer's, with SendGift's lock additions and lock events; a success comes from a sender bound to the requesting connection; sessions are unchanged |
| Scenarios.UpdateInsufficientCoins | GameManager.Tests/ServiceTests/ResourceServiceTests.cs:58-87 | 100 coins + (-200) is refused with balance -100 and "Insufficient coins"; the store is unchanged |
| Scenarios.UpdateSuccess | GameManager.Tests/ServiceTests/ResourceServiceTests.cs:90-119 | 100 coins + 100 reports and stores 200 |
| Scenarios.GiftInsufficientCoins | GameManager.Tests/ServiceTests/ResourceServiceTests.cs:211-244 | a gift of 500 from 100 coins is refused with value -400 and balance 100; nothing moves |
| Scenarios.GiftSuccess | GameManager.Tests/ServiceTests/ResourceServiceTests.cs:247-280 | a gift of 50 coins leaves the sender 50 and the recipient 100, and reports 50, 100 and the sender's name |

## Left out

- Real concurrency: semaphore waiting, the atomicity of `ConcurrentDictionary` and async tasks. Operations run one after another. Locks are modelled by the ghost acquisition/release log and by the wait-cycle lemma, not by threads.
- The static dictionaries are modelled as fields of one shared `PlayerConnectionManager` instance, which every service uses.
- Entity Framework: the store is a map. `SaveChangesAsync` is one map update. The record list that the reverse lookup checks is the store's contents when the operation starts.
- Stale reads: the model assumes every read sees the last saved record. In the server, `GameContext` is registered as scoped (Server/Program.cs:12), and each connection is one long request, so each connection keeps its own context for its whole life. That context's tracking queries return the records it already tracks without refreshing their values. A save from one connection can therefore overwrite a gift or update another connection made in the meantime. For example, player 1's connection caches 110 coins, a gift from another connection raises the stored balance to 160, and the next +10 from player 1 saves 120. `NoLostUpdates`, `TransferKeepsTotals` and `ApplyDeltaMovesTotal` hold for one shared, always-current store only, not for the running server. This follows from Entity Framework's documented change tracking, which is not part of this model.
- The socket receive and dispatch loops, the socket wrappers, the console client and all JSON (de)serialisation. Handlers receive requests already decoded, so the `SerializationException` for an undecodable request is not modelled. Writing to a connection is modelled by the `Destination` that `HandleAsync` returns.
- Logging.
- The login and update-resources command handlers. They only decode, call the service and send. Server/Services/GameService.cs is also left out: it is an unregistered predecessor of these services. Seeding and bootstrap wiring are not part of this model.
- Resources.ApplyDelta: does not model C# 32-bit `int` wrap-around of `coins += resourceValue`. Balances are unbounded integers.
- Resources.Transfer: does not model 32-bit wrap-around either, for the same reason.
- Players.PlayerService.FindByDeviceId: does not model `SingleOrDefault` throwing when two records share a device id. With duplicates, the model returns one of them. `UniqueDevices` states the case in which the result is unique.
- Connections.PlayerConnectionManager.GetPlayerIdBySocket: does not model `SingleOrDefault` throwing on duplicate player ids, because the store is a map keyed by id.
- Connections.PlayerConnectionManager.GetLockObject: `GetOrAdd` may build a semaphore that it then discards. The model does build one on every call, but the discarded one has no observable effect.
- A connection logged in as two players can receive the success response of a gift between them, because routing follows the recipient's binding, as the code does. `Route` only guarantees that a success is not sent back to the requester as such.
- The lock log shows the order of lock events and saves within one operation. It does not show that other tasks are kept out while a lock is held, because threads are not modelled.

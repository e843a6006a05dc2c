/**
 * The persisted player records (Server/DB/DBModel.cs). The database is a map
 * from a player's id to its record; one assignment to `players` stands for
 * one SaveChangesAsync.
 */
module Store {

  datatype Player = Player(id: int, playerName: string, deviceId: string, coins: int, rolls: int)

  type Players = map<int, Player>

  /** Every record is stored under its own id (the primary key). */
  ghost predicate KeyedById(players: Players) {
    forall k :: k in players ==> players[k].id == k
  }

  /** No two records share a device id. */
  ghost predicate UniqueDevices(players: Players) {
    forall i, j :: i in players && j in players && players[i].deviceId == players[j].deviceId ==> i == j
  }

  /** Both balances of every player are at least zero. */
  ghost predicate NonNegative(players: Players) {
    forall k :: k in players ==> players[k].coins >= 0 && players[k].rolls >= 0
  }

  /** The database context that the services share. */
  class GameContext {
    var players: Players

    /** `Id` is the primary key: each record is stored under its own id. */
    ghost predicate Valid()
      reads this
    {
      KeyedById(players)
    }

    constructor (players: Players)
      requires KeyedById(players)
      ensures this.players == players && Valid()
    {
      this.players := players;
    }
  }
}

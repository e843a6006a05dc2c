/**
 * Properties of the ledger across several operations: deltas applied one
 * after another lose no update, and a gift keeps the total of each balance
 * over all players.
 */
module LedgerProperties {
  import opened Messages
  import opened Store
  import opened Resources

  function Sum(s: seq<int>): int {
    if s == [] then 0 else s[0] + Sum(s[1..])
  }

  /** The store after UpdateResources calls for one player with `deltas`, applied one after another. */
  function ApplyAll(players: Players, id: int, resourceType: string, deltas: seq<int>): (r: Players)
    requires id in players
    ensures r.Keys == players.Keys
    ensures forall j :: j in players && j != id ==> r[j] == players[j]
    decreases |deltas|
  {
    if deltas == [] then players
    else ApplyAll(ApplyDelta(players, id, resourceType, deltas[0]).players, id, resourceType, deltas[1..])
  }

  /**
   * No lost update: when no prefix of the deltas drives the balance below
   * zero, the final balance is the initial one plus the sum of the deltas.
   */
  lemma {:induction false} NoLostUpdates(players: Players, id: int, resourceType: string, deltas: seq<int>)
    requires id in players && KindOf(resourceType).Some?
    requires forall i :: 0 <= i <= |deltas| ==>
               Balance(players[id], KindOf(resourceType).value) + Sum(deltas[..i]) >= 0
    ensures Balance(ApplyAll(players, id, resourceType, deltas)[id], KindOf(resourceType).value)
            == Balance(players[id], KindOf(resourceType).value) + Sum(deltas)
    decreases |deltas|
  {
    var k := KindOf(resourceType).value;
    if deltas != [] {
      var d, rest := deltas[0], deltas[1..];
      assert deltas[..1] == [d];
      assert Sum([d]) == d + Sum([]);
      var step := ApplyDelta(players, id, resourceType, d);
      assert Balance(players[id], k) + d >= 0;
      assert Balance(step.players[id], k) == Balance(players[id], k) + d;
      forall i | 0 <= i <= |rest|
        ensures Balance(step.players[id], k) + Sum(rest[..i]) >= 0
      {
        assert deltas[..i + 1] == [d] + rest[..i];
        assert ([d] + rest[..i])[1..] == rest[..i];
        assert Balance(players[id], k) + Sum(deltas[..i + 1]) >= 0;
      }
      NoLostUpdates(step.players, id, resourceType, rest);
      assert deltas == [d] + rest;
    }
  }

  /** Some element of a non-empty set. */
  ghost function Pick(keys: set<int>): (j: int)
    requires exists j :: j in keys
    ensures j in keys
  {
    var j :| j in keys; j
  }

  /** The sum of the `k` balances of the players under `keys`. */
  ghost function TotalOver(players: Players, keys: set<int>, k: Kind): int
    requires keys <= players.Keys
    decreases keys
  {
    if forall j :: j !in keys then 0
    else
      var j := Pick(keys);
      Balance(players[j], k) + TotalOver(players, keys - {j}, k)
  }

  /** The sum of the `k` balances of all players. */
  ghost function Total(players: Players, k: Kind): int {
    TotalOver(players, players.Keys, k)
  }

  /** Any player of `keys` can be split off the sum, not only the one Pick chooses. */
  lemma {:induction false} TotalOverSplit(players: Players, keys: set<int>, j: int, k: Kind)
    requires keys <= players.Keys && j in keys
    ensures TotalOver(players, keys, k) == Balance(players[j], k) + TotalOver(players, keys - {j}, k)
    decreases keys
  {
    var i := Pick(keys);
    if i != j {
      TotalOverSplit(players, keys - {i}, j, k);
      TotalOverSplit(players, keys - {j}, i, k);
      assert (keys - {i}) - {j} == (keys - {j}) - {i};
    }
  }

  /** Sums over stores that agree on the `k` balances of `keys` are equal. */
  lemma {:induction false} TotalOverAgree(p: Players, q: Players, keys: set<int>, k: Kind)
    requires keys <= p.Keys && keys <= q.Keys
    requires forall j :: j in keys ==> Balance(p[j], k) == Balance(q[j], k)
    ensures TotalOver(p, keys, k) == TotalOver(q, keys, k)
    decreases keys
  {
    if exists j :: j in keys {
      var j := Pick(keys);
      TotalOverSplit(q, keys, j, k);
      TotalOverAgree(p, q, keys - {j}, k);
    }
  }

  /**
   * Conservation: a gift, successful or not, leaves the total of each
   * balance over all players unchanged.
   */
  lemma TransferKeepsTotals(players: Players, sender: int, recipient: int, resourceType: string, amount: int, k: Kind)
    requires sender in players && recipient in players && sender != recipient
    ensures Total(Transfer(players, sender, recipient, resourceType, amount).players, k) == Total(players, k)
  {
    var after := Transfer(players, sender, recipient, resourceType, amount).players;
    var keys := players.Keys;
    var rest := keys - {sender} - {recipient};
    assert after.Keys == keys;
    TotalOverSplit(players, keys, sender, k);
    TotalOverSplit(players, keys - {sender}, recipient, k);
    TotalOverSplit(after, keys, sender, k);
    TotalOverSplit(after, keys - {sender}, recipient, k);
    TotalOverAgree(players, after, rest, k);
  }

  /** A successful UpdateResources changes the total of the named balance by exactly the delta. */
  lemma ApplyDeltaMovesTotal(players: Players, id: int, resourceType: string, delta: int)
    requires id in players
    requires ApplyDelta(players, id, resourceType, delta).payload.status == Success
    ensures Total(ApplyDelta(players, id, resourceType, delta).players, KindOf(resourceType).value)
            == Total(players, KindOf(resourceType).value) + delta
    ensures Total(ApplyDelta(players, id, resourceType, delta).players, Other(KindOf(resourceType).value))
            == Total(players, Other(KindOf(resourceType).value))
  {
    var after := ApplyDelta(players, id, resourceType, delta).players;
    var keys := players.Keys;
    assert after.Keys == keys;
    var k := KindOf(resourceType).value;
    TotalOverSplit(players, keys, id, k);
    TotalOverSplit(after, keys, id, k);
    TotalOverAgree(players, after, keys - {id}, k);
    TotalOverSplit(players, keys, id, Other(k));
    TotalOverSplit(after, keys, id, Other(k));
    TotalOverAgree(players, after, keys - {id}, Other(k));
  }
}

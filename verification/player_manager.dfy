/**
 * The player service: it creates players with the configured starting balance and changes a
 * player's balance, refusing a change that would leave the balance below zero.
 */
module PlayerService {
  import opened Common
  import opened Entities
  import opened Models
  import opened GameDatabase

  /** `n` new players with consecutive keys from `first`, each holding `balance`. */
  function NewPlayers(first: PlayerId, n: nat, balance: real): (r: seq<Player>)
    ensures |r| == n
    ensures forall j :: 0 <= j < n ==> r[j] == Player(first + j, balance)
  {
    seq(n, j => Player(first + j, balance))
  }

  /** The players table once `n` players with keys from `first` and balance `balance` are added to it. */
  function Enrolled(players: map<PlayerId, Player>, first: PlayerId, n: nat, balance: real): (r: map<PlayerId, Player>)
    ensures forall id :: id in r <==> id in players || first <= id < first + n
    ensures forall id :: first <= id < first + n ==> r[id] == Player(id, balance)
    ensures forall id :: id in players && !(first <= id < first + n) ==> r[id] == players[id]
  {
    if n == 0 then players
    else Enrolled(players, first, n - 1, balance)[first + n - 1 := Player(first + n - 1, balance)]
  }

  /**
   * Adding `n` players above every existing key keeps the existing players, adds exactly the
   * keys `first` to `first + n - 1`, each holding `balance`, and grows the table by `n`.
   */
  lemma {:induction false} EnrolledFacts(players: map<PlayerId, Player>, first: PlayerId, n: nat, balance: real)
    requires forall id :: id in players ==> id < first
    ensures var e := Enrolled(players, first, n, balance);
      && (forall id :: id in e <==> id in players || first <= id < first + n)
      && (forall id :: id in players ==> e[id] == players[id])
      && (forall id :: first <= id < first + n ==> e[id] == Player(id, balance))
      && |e| == |players| + n
  {
    EnrolledSize(players, first, n, balance);
  }

  /** Each player added above every existing key is a new key. */
  lemma {:induction false} EnrolledSize(players: map<PlayerId, Player>, first: PlayerId, n: nat, balance: real)
    requires forall id :: id in players ==> id < first
    ensures |Enrolled(players, first, n, balance)| == |players| + n
  {
    if n > 0 {
      var prev := Enrolled(players, first, n - 1, balance);
      EnrolledSize(players, first, n - 1, balance);
      assert first + n - 1 !in prev;
    }
  }

  /** The players table with `amount` added to the balance of player `id`, when that player exists. */
  function Credited(players: map<PlayerId, Player>, id: PlayerId, amount: real): (r: map<PlayerId, Player>)
    ensures r.Keys == players.Keys
    ensures id in players ==> r[id] == players[id].(balance := players[id].balance + amount)
    ensures forall other :: other in players && other != id ==> r[other] == players[other]
  {
    if id in players then players[id := players[id].(balance := players[id].balance + amount)] else players
  }

  /** What a balance update returns: the updated player, or why it was refused. */
  function UpdateOutcome(players: map<PlayerId, Player>, id: PlayerId, amount: real): (r: Result<Player>)
    ensures r.Success? <==> id in players && players[id].balance + amount >= 0.0
    ensures r.Success? ==> r.value == Credited(players, id, amount)[id] && r.value.balance >= 0.0
    ensures r.Failure? ==> r.error == if id in players then NegativeBalance else PlayerNotFound
  {
    if id !in players then Failure(PlayerNotFound)
    else if players[id].balance + amount < 0.0 then Failure(NegativeBalance)
    else Success(players[id].(balance := players[id].balance + amount))
  }

  /** What the database holds after a balance update: the update is written only when it is accepted. */
  function SavedAfterUpdate(current: Store, saved: Store, id: PlayerId, amount: real): Store {
    if UpdateOutcome(current.players, id, amount).Success? then current.(players := Credited(current.players, id, amount))
    else saved
  }

  /**
   * A balance update is accepted exactly when the player exists and the new balance is not
   * negative; the new balance is the old one plus `amount`, every other player is left as it
   * was, and a refused update of an existing player still changes its balance in memory.
   */
  lemma UpdateRule(players: map<PlayerId, Player>, id: PlayerId, amount: real)
    ensures var r, after := UpdateOutcome(players, id, amount), Credited(players, id, amount);
      && (r.Success? <==> id in players && players[id].balance + amount >= 0.0)
      && (r.Success? ==> r.value == after[id] && r.value.balance == players[id].balance + amount >= 0.0)
      && (id !in players ==> r == Failure(PlayerNotFound) && after == players)
      && (id in players && players[id].balance + amount < 0.0 ==>
            r == Failure(NegativeBalance) && after[id].balance < 0.0)
      && after.Keys == players.Keys
      && (forall other :: other in players && other != id ==> after[other] == players[other])
  {
  }

  class PlayerManager {
    const db: GameDb
    const config: GameConfig

    constructor (db: GameDb, config: GameConfig)
      ensures this.db == db && this.config == config
    {
      this.db := db;
      this.config := config;
    }

    /**
     * Creates `playerCount` players with the default balance and saves them; a count of zero
     * or less is refused and nothing changes.
     */
    method CreatePlayers(playerCount: int) returns (r: Result<seq<Player>>)
      requires db.Valid()
      modifies db
      ensures db.Valid()
      ensures playerCount <= 0 ==> r == Failure(NonPositivePlayerCount) && unchanged(db)
      ensures playerCount > 0 ==>
        && r == Success(NewPlayers(old(db.nextPlayerId), playerCount, config.defaultPlayerBalance))
        && db.players == Enrolled(old(db.players), old(db.nextPlayerId), playerCount, config.defaultPlayerBalance)
        && db.nextPlayerId == old(db.nextPlayerId) + playerCount
        && db.tickets == old(db.tickets) && db.games == old(db.games) && db.nextTicketId == old(db.nextTicketId) && db.nextGameId == old(db.nextGameId)
        && db.saved == db.Current()
    {
      if playerCount <= 0 {
        return Failure(NonPositivePlayerCount);
      }
      var first := db.nextPlayerId;
      var players: seq<Player> := [];
      for j := 0 to playerCount
        invariant db.Valid()
        invariant players == NewPlayers(first, j, config.defaultPlayerBalance)
        invariant db.players == Enrolled(old(db.players), first, j, config.defaultPlayerBalance)
        invariant db.nextPlayerId == first + j
        invariant db.tickets == old(db.tickets) && db.games == old(db.games) && db.nextTicketId == old(db.nextTicketId) && db.nextGameId == old(db.nextGameId)
      {
        var p := db.AddPlayer(config.defaultPlayerBalance);
        players := players + [p];
      }
      db.SaveChanges();
      return Success(players);
    }

    /** Creates one player with the default balance and saves it. */
    method CreatePlayer() returns (r: Result<Player>)
      requires db.Valid()
      modifies db
      ensures db.Valid()
      ensures r == Success(Player(old(db.nextPlayerId), config.defaultPlayerBalance))
      ensures db.players == old(db.players)[r.value.id := r.value] && old(db.nextPlayerId) !in old(db.players)
      ensures db.nextPlayerId == old(db.nextPlayerId) + 1
      ensures db.tickets == old(db.tickets) && db.games == old(db.games) && db.nextTicketId == old(db.nextTicketId) && db.nextGameId == old(db.nextGameId)
      ensures db.saved == db.Current()
    {
      var players := CreatePlayers(1);
      return Success(players.value[0]);
    }

    /**
     * Adds `amount` to a player's balance. An unknown player is refused. The balance is changed
     * in memory before it is checked, so a balance that would drop below zero is refused but
     * stays changed in memory; only an accepted update is saved.
     */
    method UpdatePlayerBalance(playerId: PlayerId, amount: real) returns (r: Result<Player>)
      requires db.Valid()
      modifies db
      ensures db.Valid()
      ensures r == UpdateOutcome(old(db.players), playerId, amount)
      ensures db.players == Credited(old(db.players), playerId, amount)
      ensures db.saved == SavedAfterUpdate(old(db.Current()), old(db.saved), playerId, amount)
      ensures db.tickets == old(db.tickets) && db.games == old(db.games)
      ensures db.nextPlayerId == old(db.nextPlayerId) && db.nextTicketId == old(db.nextTicketId) && db.nextGameId == old(db.nextGameId)
    {
      if playerId !in db.players {
        return Failure(PlayerNotFound);
      }
      var player := db.players[playerId];
      db.SetBalance(playerId, player.balance + amount);
      player := db.players[playerId];
      if player.balance < 0.0 {
        return Failure(NegativeBalance);
      }
      db.SaveChanges();
      return Success(player);
    }
  }
}

/**
 * The database context the services share: the entities it tracks in memory, which the services
 * change in place, and the state the last save wrote. Keys are handed out as the store does on
 * insertion: player ids count up, and each new ticket gets an id no ticket had before.
 */
module GameDatabase {
  import opened Entities

  /** The three tables. */
  datatype Store = Store(players: map<PlayerId, Player>, tickets: seq<Ticket>, games: map<GameId, GameInstance>)

  class GameDb {
    /** The tracked players, by key. */
    var players: map<PlayerId, Player>
    /** The tracked tickets, in insertion order. */
    var tickets: seq<Ticket>
    /** The tracked game instances, by key. */
    var games: map<GameId, GameInstance>
    /** What the last save wrote. */
    var saved: Store
    /** The key the next inserted player receives. */
    var nextPlayerId: PlayerId
    /** The identity the next inserted ticket receives. */
    var nextTicketId: nat
    /** The key the next inserted game instance receives. */
    var nextGameId: GameId

    /** The tracked state. */
    function Current(): Store
      reads this
    {
      Store(players, tickets, games)
    }

    /** Every player and game instance is stored under its own key, below the next key; every ticket id is below the next one. */
    ghost predicate Valid()
      reads this
    {
      && (forall id :: id in players ==> players[id].id == id && id < nextPlayerId)
      && (forall j :: 0 <= j < |tickets| ==> tickets[j].id < nextTicketId)
      && (forall id :: id in games ==> games[id].id == id && id < nextGameId)
    }

    /** A context over an empty database. */
    constructor ()
      ensures Valid()
      ensures Current() == Store(map[], [], map[]) && saved == Current()
      ensures nextPlayerId == 1 && nextTicketId == 0 && nextGameId == 1
    {
      players, tickets, games := map[], [], map[];
      saved := Store(map[], [], map[]);
      nextPlayerId, nextTicketId, nextGameId := 1, 0, 1;
    }

    /** Writes the tracked state. */
    method SaveChanges()
      modifies this
      ensures saved == Current()
      ensures players == old(players) && tickets == old(tickets) && games == old(games)
      ensures nextPlayerId == old(nextPlayerId) && nextTicketId == old(nextTicketId) && nextGameId == old(nextGameId)
    {
      saved := Current();
    }

    /** Starts tracking a new player, under the next key. */
    method AddPlayer(balance: real) returns (p: Player)
      requires Valid()
      modifies this
      ensures Valid()
      ensures p == Player(old(nextPlayerId), balance) && p.id !in old(players)
      ensures players == old(players)[p.id := p] && nextPlayerId == old(nextPlayerId) + 1
      ensures tickets == old(tickets) && games == old(games) && saved == old(saved)
      ensures nextTicketId == old(nextTicketId) && nextGameId == old(nextGameId)
    {
      p := Player(nextPlayerId, balance);
      players := players[p.id := p];
      nextPlayerId := nextPlayerId + 1;
    }

    /** Starts tracking a new game instance, under the next key. */
    method AddGame(houseRevenue: real) returns (g: GameInstance)
      requires Valid()
      modifies this
      ensures Valid()
      ensures g == GameInstance(old(nextGameId), houseRevenue) && g.id !in old(games)
      ensures games == old(games)[g.id := g] && nextGameId == old(nextGameId) + 1
      ensures players == old(players) && tickets == old(tickets) && saved == old(saved)
      ensures nextPlayerId == old(nextPlayerId) && nextTicketId == old(nextTicketId)
    {
      g := GameInstance(nextGameId, houseRevenue);
      games := games[g.id := g];
      nextGameId := nextGameId + 1;
    }

    /** Starts tracking new tickets; each receives the next identity on insertion. */
    method AddTickets(issued: seq<Ticket>)
      requires Valid()
      requires forall j :: 0 <= j < |issued| ==> issued[j].id == nextTicketId + j
      modifies this
      ensures Valid()
      ensures tickets == old(tickets) + issued && nextTicketId == old(nextTicketId) + |issued|
      ensures players == old(players) && games == old(games) && saved == old(saved)
      ensures nextPlayerId == old(nextPlayerId) && nextGameId == old(nextGameId)
    {
      tickets := tickets + issued;
      nextTicketId := nextTicketId + |issued|;
    }

    /** Changes a tracked player's balance in memory. */
    method SetBalance(id: PlayerId, balance: real)
      requires Valid() && id in players
      modifies this
      ensures Valid()
      ensures players == old(players)[id := old(players)[id].(balance := balance)]
      ensures tickets == old(tickets) && games == old(games) && saved == old(saved)
      ensures nextPlayerId == old(nextPlayerId) && nextTicketId == old(nextTicketId) && nextGameId == old(nextGameId)
    {
      players := players[id := players[id].(balance := balance)];
    }

    /** Changes a tracked game instance's house revenue in memory. */
    method SetHouseRevenue(id: GameId, revenue: real)
      requires Valid() && id in games
      modifies this
      ensures Valid()
      ensures games == old(games)[id := old(games)[id].(houseRevenue := revenue)]
      ensures players == old(players) && tickets == old(tickets) && saved == old(saved)
      ensures nextPlayerId == old(nextPlayerId) && nextTicketId == old(nextTicketId) && nextGameId == old(nextGameId)
    {
      games := games[id := games[id].(houseRevenue := revenue)];
    }
  }
}

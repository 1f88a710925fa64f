/**
 * The ticket service: a player buys as many tickets as requested, or as many as the balance
 * pays for if that is fewer, and pays for them; the tickets of a game are read back by game id.
 */
module TicketService {
  import opened Common
  import opened Entities
  import opened Models
  import opened GameDatabase
  import opened PlayerService
  import opened Sequences
  import Money

  /** A decimal converted to `int`: the fraction is dropped, towards zero. */
  function TruncateToInt(x: real): (r: int)
    ensures x >= 0.0 ==> r >= 0 && r as real <= x < r as real + 1.0
    ensures x < 0.0 ==> r <= 0 && r as real - 1.0 < x <= r as real
  {
    if x >= 0.0 then x.Floor else -((-x).Floor)
  }

  function Min(a: int, b: int): int {
    if a <= b then a else b
  }

  /**
   * How many tickets a player holding `balance` receives for `requested` at `price`, or why the
   * purchase is refused: a balance below the price, a zero price dividing the balance, or a
   * negative number of tickets to issue.
   */
  function TicketsIssuable(balance: real, price: real, requested: int): (r: Result<nat>)
    ensures r.Success? ==> r.value <= requested
    ensures r.Failure? ==> r.error in {InsufficientFunds(price, balance), DivideByZero, ArgumentOutOfRange}
  {
    if balance < price then Failure(InsufficientFunds(price, balance))
    else if price == 0.0 then Failure(DivideByZero)
    else
      var count := Min(requested, TruncateToInt(balance / price));
      if count < 0 then Failure(ArgumentOutOfRange) else Success(count)
  }

  /** What `n` tickets cost at `price` each. */
  function Cost(n: nat, price: real): real {
    n as real * price
  }

  /** `balance / price` rounded down, times the price, is at most the balance, and one more ticket is more. */
  lemma FloorScale(balance: real, price: real)
    requires price > 0.0
    ensures var f := (balance / price).Floor as real;
      f * price <= balance < f * price + price
  {
    var q := balance / price;
    var f := q.Floor as real;
    Money.DivCancels(price, balance);
    Money.ScaledAbove(balance, price, f, q);
    Money.ScaledBelow(balance, price, f + 1.0, q);
    Money.AddOneTimes(f, price);
  }

  /**
   * With a positive price: a purchase is refused exactly when the balance is below the price
   * (with the price and the balance in the error) or the request is negative. Otherwise the
   * player receives the smaller of the request and the number of tickets the balance pays for,
   * can pay for them, receives at least one ticket when asking for any, and when receiving
   * fewer than requested could not pay for one more.
   */
  lemma PurchaseRule(balance: real, price: real, requested: int)
    requires price > 0.0
    ensures var r := TicketsIssuable(balance, price, requested);
      && (r.Success? <==> balance >= price && requested >= 0)
      && (balance < price ==> r == Failure(InsufficientFunds(price, balance)))
      && (r.Success? ==>
            && r.value == Min(requested, (balance / price).Floor)
            && Cost(r.value, price) <= balance
            && (requested > 0 ==> r.value > 0)
            && (r.value < requested ==> balance - Cost(r.value, price) < price))
  {
    var r := TicketsIssuable(balance, price, requested);
    if r.Success? {
      FloorScale(balance, price);
      var f := (balance / price).Floor;
      assert balance / price >= 1.0 by {
        Money.DivCancels(price, balance);
      }
      var n := r.value as real;
      if r.value < f {
        Money.MulNonNegative(f as real - n, price);
      }
    }
  }

  /** A balance of 25 at a price of 10 pays for two tickets: asking for twenty gives two, asking for one gives one. */
  lemma PurchaseExamples()
    ensures TicketsIssuable(25.0, 10.0, 20) == Success(2)
    ensures TicketsIssuable(25.0, 10.0, 1) == Success(1)
    ensures TicketsIssuable(5.0, 10.0, 1) == Failure(InsufficientFunds(10.0, 5.0))
  {
    assert 25.0 / 10.0 == 2.5;
  }

  /**
   * With a positive price, paying for the tickets issued never takes the balance below zero:
   * the balance update of an accepted purchase is accepted.
   */
  lemma PurchaseIsAffordable(players: map<PlayerId, Player>, playerId: PlayerId, price: real, requested: int)
    requires price > 0.0 && playerId in players
    requires TicketsIssuable(players[playerId].balance, price, requested).Success?
    ensures var n := TicketsIssuable(players[playerId].balance, price, requested).value;
      var update := UpdateOutcome(players, playerId, -Cost(n, price));
      update.Success? && 0.0 <= update.value.balance <= players[playerId].balance
  {
    PurchaseRule(players[playerId].balance, price, requested);
    var n := TicketsIssuable(players[playerId].balance, price, requested).value;
    if n > 0 {
      Money.MulNonNegative(n as real - 1.0, price);
    }
  }

  /** `n` new tickets of player `playerId` for game `gameId`, with consecutive identities from `first`. */
  function Issued(first: nat, gameId: GameId, playerId: PlayerId, n: nat): (r: seq<Ticket>)
    ensures |r| == n
    ensures forall j :: 0 <= j < n ==> r[j] == Ticket(first + j, gameId, playerId)
  {
    seq(n, j requires 0 <= j => Ticket(first + j, gameId, playerId))
  }

  /** The tickets of game `gameId`, in stored order. */
  function ForGame(tickets: seq<Ticket>, gameId: GameId): (r: seq<Ticket>)
    ensures forall t :: multiset(r)[t] == if t.gameId == gameId then multiset(tickets)[t] else 0
    ensures forall t :: t in r <==> t in tickets && t.gameId == gameId
    ensures IsSubsequence(r, tickets)
    ensures |r| <= |tickets|
  {
    if tickets == [] then []
    else
      var first, rest := tickets[0], ForGame(tickets[1..], gameId);
      assert tickets == [first] + tickets[1..];
      if first.gameId == gameId then [first] + rest
      else
        assert rest == [] || rest[0] != first;
        rest
  }

  class TicketManager {
    const db: GameDb
    const config: GameConfig
    const players: PlayerManager

    constructor (db: GameDb, config: GameConfig, players: PlayerManager)
      requires players.db == db
      ensures this.db == db && this.config == config && this.players == players
    {
      this.db := db;
      this.config := config;
      this.players := players;
    }

    /**
     * Sells tickets of game `gameId` to player `playerId`: an unknown player, a balance below
     * the price or a count that cannot be issued is refused with nothing changed; otherwise the
     * balance pays for the tickets (through the player service, which saves it) and the
     * tickets, each with the player and the game, are added and saved.
     */
    method BuyTickets(playerId: PlayerId, gameId: GameId, requested: int) returns (r: Result<seq<Ticket>>)
      requires db.Valid() && players.db == db
      modifies db
      ensures db.Valid()
      ensures playerId !in old(db.players) ==> r == Failure(PlayerNotFound) && unchanged(db)
      ensures playerId in old(db.players) ==>
        var rule := TicketsIssuable(old(db.players[playerId].balance), config.ticketPrice, requested);
        && (rule.Failure? ==> r == Failure(rule.error) && unchanged(db))
        && (rule.Success? ==>
              var cost := Cost(rule.value, config.ticketPrice);
              var update := UpdateOutcome(old(db.players), playerId, -cost);
              && db.players == Credited(old(db.players), playerId, -cost)
              && db.games == old(db.games) && db.nextPlayerId == old(db.nextPlayerId) && db.nextGameId == old(db.nextGameId)
              && (update.Failure? ==>
                    && r == Failure(update.error)
                    && db.tickets == old(db.tickets) && db.nextTicketId == old(db.nextTicketId)
                    && db.saved == old(db.saved))
              && (update.Success? ==>
                    && r == Success(Issued(old(db.nextTicketId), gameId, playerId, rule.value))
                    // the new tickets have identities no stored ticket has
                    && (forall j, k :: 0 <= j < |old(db.tickets)| && 0 <= k < |r.value| ==>
                          old(db.tickets)[j].id != r.value[k].id)
                    && db.tickets == old(db.tickets) + r.value
                    && db.nextTicketId == old(db.nextTicketId) + rule.value
                    && db.saved == db.Current()))
    {
      if playerId !in db.players {
        return Failure(PlayerNotFound);
      }
      var player := db.players[playerId];
      var rule := TicketsIssuable(player.balance, config.ticketPrice, requested);
      if rule.Failure? {
        return Failure(rule.error);
      }
      var ticketEntities := Issued(db.nextTicketId, gameId, playerId, rule.value);
      var cost := Cost(rule.value, config.ticketPrice);
      var update := players.UpdatePlayerBalance(playerId, -cost);
      if update.Failure? {
        return Failure(update.error);
      }
      db.AddTickets(ticketEntities);
      db.SaveChanges();
      return Success(ticketEntities);
    }

    /** The saved tickets of game `gameId`. */
    method GetTicketsForGame(gameId: GameId) returns (r: seq<Ticket>)
      ensures r == ForGame(db.saved.tickets, gameId)
    {
      return ForGame(db.saved.tickets, gameId);
    }
  }
}

/**
 * The game manager's settlement of a draw: the house revenue of the game instance grows by
 * what the draw left to the house, and each winning player's balance grows by what that
 * player's winning tickets earned, through the player service.
 */
module GameService {
  import opened Common
  import opened Entities
  import opened Models
  import opened TierPrizes
  import opened GameEngine
  import opened GameDatabase
  import opened PlayerService
  import opened Credits
  import DrawFacts

  /** No two credits go to the same player. */
  predicate DistinctPayees(credits: seq<Credit>) {
    forall i, j :: 0 <= i < j < |credits| ==> credits[i].player != credits[j].player
  }

  /** A credit the player service accepts against the balances `players`. */
  predicate Accepted(players: map<PlayerId, Player>, c: Credit) {
    c.player in players && players[c.player].balance + c.amount >= 0.0
  }

  /**
   * The balance updates of a draw part way through: the tracked state, the saved state, and
   * what awaiting the updates so far gives — the updated players, or the first refusal.
   */
  datatype Settlement = Settlement(current: Store, saved: Store, outcome: Result<seq<Player>>)

  /** The players table once each of `credits` has been added to its player's balance, in order. */
  function Balances(players: map<PlayerId, Player>, credits: seq<Credit>): (r: map<PlayerId, Player>)
    ensures r.Keys == players.Keys
  {
    if credits == [] then players
    else
      var c := credits[|credits| - 1];
      Credited(Balances(players, credits[..|credits| - 1]), c.player, c.amount)
  }

  /** The settlement once each of `credits` has gone through the player service, in order. */
  function Settle(start: Settlement, credits: seq<Credit>): (r: Settlement)
    // every update changes the balance in memory, accepted or not
    ensures r.current.players == Balances(start.current.players, credits)
    // the updates change balances only
    ensures r.current.players.Keys == start.current.players.Keys
    ensures r.current.tickets == start.current.tickets && r.current.games == start.current.games
    // a refusal stays the outcome, and when every update is accepted the last one saved everything
    ensures start.outcome.Failure? ==> r.outcome == start.outcome
    ensures credits != [] && r.outcome.Success? ==> r.saved == r.current
  {
    if credits == [] then start
    else
      var s := Settle(start, credits[..|credits| - 1]);
      var c := credits[|credits| - 1];
      var u := UpdateOutcome(s.current.players, c.player, c.amount);
      Settlement(
        s.current.(players := Credited(s.current.players, c.player, c.amount)),
        SavedAfterUpdate(s.current, s.saved, c.player, c.amount),
        if s.outcome.Failure? then s.outcome
        else if u.Failure? then Failure(u.error)
        else Success(s.outcome.value + [u.value]))
  }

  /**
   * Crediting distinct players keeps the same players, tickets and game instances; each
   * credited player that exists holds its old balance plus its credit, whether or not the
   * update was accepted, and every other player is unchanged.
   */
  lemma SettleBalances(start: Settlement, credits: seq<Credit>)
    requires DistinctPayees(credits)
    ensures var before, after := start.current, Settle(start, credits).current;
      && after.players.Keys == before.players.Keys
      && after.tickets == before.tickets && after.games == before.games
      && (forall j :: 0 <= j < |credits| && credits[j].player in before.players ==>
            after.players[credits[j].player]
              == before.players[credits[j].player].(balance := before.players[credits[j].player].balance + credits[j].amount))
      && (forall id :: id in before.players && (forall j :: 0 <= j < |credits| ==> credits[j].player != id) ==>
            after.players[id] == before.players[id])
  {
    SettleCredits(start.current.players, credits);
    SettleOthers(start.current.players, credits);
  }

  /** Crediting distinct players adds each credit to the balance the player had at the start. */
  lemma {:induction false} SettleCredits(players: map<PlayerId, Player>, credits: seq<Credit>)
    requires DistinctPayees(credits)
    ensures var after := Balances(players, credits);
      forall j :: 0 <= j < |credits| && credits[j].player in players ==>
        after[credits[j].player] == players[credits[j].player].(balance := players[credits[j].player].balance + credits[j].amount)
  {
    if credits != [] {
      var init, c := credits[..|credits| - 1], credits[|credits| - 1];
      SettleCredits(players, init);
      SettleOthers(players, init);
      var mid := Balances(players, init);
      var after := Balances(players, credits);
      assert forall j :: 0 <= j < |init| ==> init[j].player != c.player;
      forall j | 0 <= j < |credits| - 1 && credits[j].player in players
        ensures after[credits[j].player] == mid[credits[j].player]
      {
        assert init[j] == credits[j];
      }
    }
  }

  /** Crediting players leaves every player that receives no credit as it was. */
  lemma {:induction false} SettleOthers(players: map<PlayerId, Player>, credits: seq<Credit>)
    ensures var after := Balances(players, credits);
      forall id :: id in players && (forall j :: 0 <= j < |credits| ==> credits[j].player != id) ==>
        after[id] == players[id]
  {
    if credits != [] {
      var init := credits[..|credits| - 1];
      SettleOthers(players, init);
      forall id | id in players && (forall j :: 0 <= j < |credits| ==> credits[j].player != id)
        ensures Balances(players, credits)[id] == players[id]
      {
        assert forall j :: 0 <= j < |init| ==> init[j] == credits[j];
      }
    }
  }

  /** With distinct payees, the last credit's update sees the balance its player had before any credit. */
  lemma LastUpdateSeesStart(start: Settlement, credits: seq<Credit>)
    requires DistinctPayees(credits) && credits != []
    ensures var c := credits[|credits| - 1];
      UpdateOutcome(Settle(start, credits[..|credits| - 1]).current.players, c.player, c.amount)
        == UpdateOutcome(start.current.players, c.player, c.amount)
  {
    var init, c := credits[..|credits| - 1], credits[|credits| - 1];
    SettleBalances(start, init);
    assert forall j :: 0 <= j < |init| ==> init[j].player != c.player;
  }

  /**
   * Starting from accepted updates, crediting distinct players is accepted exactly when every
   * credit is accepted against the balances before the draw; the accepted updates return the
   * credited players in order, and the last of them saves the whole tracked state.
   */
  lemma SettleAccepted(start: Settlement, credits: seq<Credit>)
    requires DistinctPayees(credits) && start.outcome.Success?
    ensures var players, s := start.current.players, Settle(start, credits);
      && (s.outcome.Success? <==> forall j :: 0 <= j < |credits| ==> Accepted(players, credits[j]))
      && (s.outcome.Success? ==>
            && |s.outcome.value| == |start.outcome.value| + |credits|
            && s.outcome.value[..|start.outcome.value|] == start.outcome.value
            && (forall j :: 0 <= j < |credits| ==>
                  s.outcome.value[|start.outcome.value| + j]
                    == players[credits[j].player].(balance := players[credits[j].player].balance + credits[j].amount))
            && (credits != [] ==> s.saved == s.current))
  {
    SettleAcceptance(start, credits);
    if Settle(start, credits).outcome.Success? {
      SettleValues(start, credits);
    }
  }

  /** Starting from accepted updates, crediting distinct players is accepted exactly when each credit is, against the balances before the draw. */
  lemma {:induction false} SettleAcceptance(start: Settlement, credits: seq<Credit>)
    requires DistinctPayees(credits) && start.outcome.Success?
    ensures Settle(start, credits).outcome.Success? <==>
      forall j :: 0 <= j < |credits| ==> Accepted(start.current.players, credits[j])
  {
    if credits != [] {
      var init := credits[..|credits| - 1];
      assert DistinctPayees(init);
      SettleAcceptance(start, init);
      LastUpdateSeesStart(start, credits);
      assert forall j :: 0 <= j < |init| ==> credits[j] == init[j];
    }
  }

  /** When every credit is accepted, the updates return the players credited, in order, after those returned before. */
  lemma {:induction false} SettleValues(start: Settlement, credits: seq<Credit>)
    requires DistinctPayees(credits) && start.outcome.Success?
    requires forall j :: 0 <= j < |credits| ==>
      credits[j].player in start.current.players
      && start.current.players[credits[j].player].balance + credits[j].amount >= 0.0
    ensures var s := Settle(start, credits);
        && s.outcome.Success?
        && |s.outcome.value| == |start.outcome.value| + |credits|
        && s.outcome.value[..|start.outcome.value|] == start.outcome.value
        && (forall j :: 0 <= j < |credits| ==>
              var p := start.current.players[credits[j].player];
              s.outcome.value[|start.outcome.value| + j] == p.(balance := p.balance + credits[j].amount))
  {
    var s := Settle(start, credits);
    if credits != [] {
      var init, c := credits[..|credits| - 1], credits[|credits| - 1];
      assert DistinctPayees(init);
      assert forall j :: 0 <= j < |init| ==> credits[j] == init[j];
      SettleValues(start, init);
      LastUpdateSeesStart(start, credits);
      var players, mid := start.current.players, Settle(start, init);
      var u := UpdateOutcome(players, c.player, c.amount);
      assert mid.outcome.Success? && u.Success?;
      assert s.outcome.value == mid.outcome.value + [u.value];
    }
  }

  /**
   * Starting from accepted updates, when crediting distinct players is refused, the outcome is
   * the error of the first credit refused against the balances before the draw.
   */
  lemma {:induction false} SettleRefused(start: Settlement, credits: seq<Credit>)
    requires DistinctPayees(credits) && start.outcome.Success?
    ensures var players, s := start.current.players, Settle(start, credits);
      s.outcome.Failure? ==> exists k ::
        && 0 <= k < |credits|
        && (forall j :: 0 <= j < k ==> Accepted(players, credits[j]))
        && !Accepted(players, credits[k])
        && s.outcome == Failure(UpdateOutcome(players, credits[k].player, credits[k].amount).error)
  {
    var players, s := start.current.players, Settle(start, credits);
    if credits != [] && s.outcome.Failure? {
      var init, c := credits[..|credits| - 1], credits[|credits| - 1];
      assert DistinctPayees(init);
      var mid := Settle(start, init);
      var k: nat;
      if mid.outcome.Failure? {
        SettleRefused(start, init);
        k :| 0 <= k < |init| && (forall j :: 0 <= j < k ==> Accepted(players, init[j])) && !Accepted(players, init[k])
          && mid.outcome == Failure(UpdateOutcome(players, init[k].player, init[k].amount).error);
        assert s.outcome == mid.outcome;
      } else {
        k := |init|;
        SettleAccepted(start, init);
        LastUpdateSeesStart(start, credits);
      }
      assert forall j :: 0 <= j < |init| ==> credits[j] == init[j];
      assert forall j :: 0 <= j < k ==> Accepted(players, credits[j]);
    }
  }

  /**
   * After the balance updates of a draw, every stored player holds its old balance plus what
   * its winning tickets earned (nothing for a player without a winning ticket).
   */
  lemma BalancesAfterDraw(start: Settlement, entries: seq<TierEntry>)
    ensures var before, after := start.current.players, Settle(start, PlayerCredits(entries)).current.players;
      && after.Keys == before.Keys
      && forall id :: id in before ==>
           after[id].balance == before[id].balance + (if id in WinnerIds(entries) then Earned(entries, id) else 0.0)
  {
    var cs := PlayerCredits(entries);
    CreditPayees(entries);
    CreditAmounts(entries);
    SettleBalances(start, cs);
    var before, after := start.current.players, Settle(start, cs).current.players;
    forall id | id in before
      ensures after[id].balance == before[id].balance + (if id in WinnerIds(entries) then Earned(entries, id) else 0.0)
    {
      if id in WinnerIds(entries) {
        assert id in Payees(cs);
        var j :| 0 <= j < |cs| && Payees(cs)[j] == id;
        assert cs[j].player == id;
      } else {
        assert forall j :: 0 <= j < |cs| ==> cs[j].player != id by {
          forall j | 0 <= j < |cs| ensures cs[j].player != id {
            assert Payees(cs)[j] == cs[j].player;
          }
        }
      }
    }
  }

  /**
   * A draw's money is accounted for: what the winning players are credited and what the house
   * keeps add up to the ticket revenue.
   */
  lemma DrawCreditsSettle(engine: Engine, tickets: seq<Ticket>, shuffle: Shuffler)
    requires IsShuffler(shuffle)
    ensures var r := Draw(engine, tickets, shuffle);
      r.Success? ==>
        SumAmounts(PlayerCredits(r.value.tierResults)) + r.value.houseRevenue
          == Revenue(tickets, engine.config.ticketPrice)
  {
    var r := Draw(engine, tickets, shuffle);
    DrawFacts.DrawSettles(engine, tickets, shuffle);
    if r.Success? {
      CreditsSumToWinnings(r.value.tierResults);
    }
  }

  class GameManager {
    const db: GameDb
    const players: PlayerManager
    /** The engine of the game being played. */
    var engine: Engine

    constructor (db: GameDb, players: PlayerManager, engine: Engine)
      requires players.db == db
      ensures this.db == db && this.players == players && this.engine == engine
    {
      this.db := db;
      this.players := players;
      this.engine := engine;
    }

    /**
     * Adds `amount` to the house revenue of the game being played and saves; a game instance
     * that is not stored is refused and nothing changes.
     */
    method UpdateHouseRevenue(amount: real) returns (r: Result<()>)
      requires db.Valid()
      modifies db
      ensures db.Valid()
      ensures var id := engine.game.id;
        && (id !in old(db.games) ==> r == Failure(GameNotFound) && unchanged(db))
        && (id in old(db.games) ==>
              && r == Success(())
              && db.games.Keys == old(db.games).Keys
              && db.games[id] == old(db.games)[id].(houseRevenue := old(db.games)[id].houseRevenue + amount)
              && (forall other :: other in old(db.games) && other != id ==> db.games[other] == old(db.games)[other])
              && db.players == old(db.players) && db.tickets == old(db.tickets)
              && db.nextPlayerId == old(db.nextPlayerId) && db.nextTicketId == old(db.nextTicketId) && db.nextGameId == old(db.nextGameId)
              && db.saved == db.Current())
    {
      var id := engine.game.id;
      if id !in db.games {
        return Failure(GameNotFound);
      }
      var game := db.games[id];
      db.SetHouseRevenue(id, game.houseRevenue + amount);
      db.SaveChanges();
      return Success(());
    }

    /**
     * Credits each player holding a winning ticket of `results` with what those tickets earned,
     * one player service update per player, and returns the updated players, or the error of
     * the first refused update; every update is attempted either way.
     */
    method UpdateUserBalancesFromDraw(results: DrawResult) returns (r: Result<seq<Player>>)
      requires db.Valid() && players.db == db
      modifies db
      ensures db.Valid()
      ensures var s := Settle(Settlement(old(db.Current()), old(db.saved), Success([])), PlayerCredits(results.tierResults));
        r == s.outcome && db.Current() == s.current && db.saved == s.saved
      ensures db.nextPlayerId == old(db.nextPlayerId) && db.nextTicketId == old(db.nextTicketId) && db.nextGameId == old(db.nextGameId)
    {
      var credits := PlayerCredits(results.tierResults);
      ghost var start := Settlement(db.Current(), db.saved, Success([]));
      var updated: seq<Player> := [];
      var failure: Option<Error> := None;
      for j := 0 to |credits|
        invariant db.Valid()
        invariant db.nextPlayerId == old(db.nextPlayerId) && db.nextTicketId == old(db.nextTicketId) && db.nextGameId == old(db.nextGameId)
        invariant var s := Settle(start, credits[..j]);
          && db.Current() == s.current && db.saved == s.saved
          && s.outcome == if failure.Some? then Failure(failure.value) else Success(updated)
      {
        assert credits[..j + 1][..j] == credits[..j];
        var u := players.UpdatePlayerBalance(credits[j].player, credits[j].amount);
        if failure.None? {
          if u.Failure? {
            failure := Some(u.error);
          } else {
            updated := updated + [u.value];
          }
        }
      }
      assert credits[..|credits|] == credits;
      if failure.Some? {
        return Failure(failure.value);
      }
      return Success(updated);
    }
  }
}

/**
 * What a draw guarantees, whatever order the shuffles put the tickets in: when it is refused,
 * how the revenue is settled, how the winners are spread over the tiers, what each winning
 * ticket receives, and when every tier pays out.
 */
module DrawFacts {
  import opened Common
  import opened Entities
  import opened Models
  import opened Sequences
  import opened TierPrizes
  import opened GameEngine
  import Money

  /** The engine's tiers draw their winners from the pool they are given. */
  lemma TierSelectorPicksFromPool(tiers: seq<TierPrize>, shuffle: Shuffler)
    requires IsShuffler(shuffle)
    ensures PicksFromPool(TierSelector(tiers, shuffle))
  {
    var select := TierSelector(tiers, shuffle);
    forall i: nat, pool: seq<Ticket> ensures Elements(select(i, pool)) <= Elements(pool) {
      if i < |tiers| {
        var w := SelectWinners(tiers[i], pool, shuffle, i);
        forall t | t in w ensures t in pool {
          assert multiset(w)[t] <= multiset(pool)[t];
        }
      }
    }
  }

  /**
   * A draw is refused exactly when the number of distinct players is outside the configured
   * bounds, with an error naming the bounds; otherwise the house keeps the ticket revenue less
   * what the winning tickets receive.
   */
  lemma DrawSettles(engine: Engine, tickets: seq<Ticket>, shuffle: Shuffler)
    requires IsShuffler(shuffle)
    ensures var r, n := Draw(engine, tickets, shuffle), |PlayerIds(tickets)|;
      && (r.Failure? <==> n < engine.config.minPlayers || n > engine.config.maxPlayers)
      && (r.Failure? ==> r.error == PlayerCountOutOfRange(engine.config.minPlayers, engine.config.maxPlayers))
      && (r.Success? ==>
            r.value.houseRevenue + Winnings(r.value.tierResults) == Revenue(tickets, engine.config.ticketPrice))
  {
    var revenue := Revenue(tickets, engine.config.ticketPrice);
    WinningsAccountedAfter(TierSelector(engine.tiers, shuffle), TierPricer(engine.tiers, revenue), tickets, |engine.tiers|);
  }

  /**
   * The results of a draw: at most one entry per tier, in the order of the tier list, each
   * with at least one winner; every winning ticket is one of the draw's tickets, and no ticket
   * wins in two tiers.
   */
  lemma DrawPartitionsWinners(engine: Engine, tickets: seq<Ticket>, shuffle: Shuffler)
    requires IsShuffler(shuffle)
    ensures var r := Draw(engine, tickets, shuffle);
      r.Success? ==>
        var es := r.value.tierResults;
        && |es| <= |engine.tiers|
        && (forall j :: 0 <= j < |es| ==> es[j].tier < |engine.tiers| && |es[j].result.ticketsWon| > 0)
        && (forall j, j' :: 0 <= j < j' < |es| ==> es[j].tier < es[j'].tier)
        && (forall j, t :: 0 <= j < |es| && t in es[j].result.ticketsWon ==> t in tickets)
        && (forall j, j' :: 0 <= j < j' < |es| ==>
              Elements(es[j].result.ticketsWon) !! Elements(es[j'].result.ticketsWon))
  {
    var revenue := Revenue(tickets, engine.config.ticketPrice);
    var select, pay := TierSelector(engine.tiers, shuffle), TierPricer(engine.tiers, revenue);
    var es := StateAfter(select, pay, tickets, |engine.tiers|).entries;
    InTierOrderAfter(select, pay, tickets, |engine.tiers|);
    InTierOrderFacts(es, |engine.tiers|);
    TierSelectorPicksFromPool(engine.tiers, shuffle);
    PoolIsUnwonAfter(select, pay, tickets, |engine.tiers|);
    WinnersDisjointFacts(es);
    forall j, t | 0 <= j < |es| && t in es[j].result.ticketsWon ensures t in tickets {
      assert t in Elements(es[j].result.ticketsWon);
    }
  }

  /**
   * Each winning ticket receives its tier's share of the ticket revenue divided by the tier's
   * number of winners, rounded to cents.
   */
  lemma DrawPricesTiers(engine: Engine, tickets: seq<Ticket>, shuffle: Shuffler)
    requires IsShuffler(shuffle)
    ensures var r := Draw(engine, tickets, shuffle);
      r.Success? ==>
        var es, revenue := r.value.tierResults, Revenue(tickets, engine.config.ticketPrice);
        forall j :: 0 <= j < |es| ==>
          && es[j].tier < |engine.tiers|
          && |es[j].result.ticketsWon| > 0
          && es[j].result.revenuePerTicket
             == PerTicket(revenue, SharePercentage(engine.tiers[es[j].tier]), |es[j].result.ticketsWon|)
  {
    var revenue := Revenue(tickets, engine.config.ticketPrice);
    var select, pay := TierSelector(engine.tiers, shuffle), TierPricer(engine.tiers, revenue);
    var es := StateAfter(select, pay, tickets, |engine.tiers|).entries;
    InTierOrderAfter(select, pay, tickets, |engine.tiers|);
    InTierOrderFacts(es, |engine.tiers|);
    PricedAfter(select, pay, tickets, |engine.tiers|);
    PricedFacts(pay, es);
  }

  /**
   * Rounding each winner's amount to cents moves a tier's payout at most half a cent per
   * winner away from the tier's exact share of the revenue.
   */
  lemma PayoutNearShare(revenue: real, share: real, n: nat)
    requires n > 0
    ensures var gap := n as real * PerTicket(revenue, share, n) - revenue * (share / 100.0);
      -0.005 * n as real <= gap <= 0.005 * n as real
  {
    var exact := revenue * (share / 100.0);
    ScaleBound(n as real, exact, PerTicket(revenue, share, n));
  }

  /** An amount within half a cent of `exact / m`, taken `m` times, is within `m` half cents of `exact`. */
  lemma ScaleBound(m: real, exact: real, r: real)
    requires m > 0.0 && -0.005 <= r - exact / m <= 0.005
    ensures -0.005 * m <= m * r - exact <= 0.005 * m
  {
    var d := r - exact / m;
    Money.DivCancels(m, exact);
    assert m * r - exact == m * d;
    Money.MulNonNegative(m, 0.005 - d);
    Money.MulNonNegative(m, d + 0.005);
  }

  /** A tier entry paying the rounded split of `share` lies within half a cent per winner of that share. */
  predicate NearShare(e: TierEntry, revenue: real, share: real) {
    var n := |e.result.ticketsWon| as real;
    -0.005 * n <= Payout(e) - revenue * (share / 100.0) <= 0.005 * n
  }

  lemma EntryNearShare(e: TierEntry, revenue: real, share: real)
    requires |e.result.ticketsWon| > 0
    requires e.result.revenuePerTicket == PerTicket(revenue, share, |e.result.ticketsWon|)
    ensures NearShare(e, revenue, share)
  {
    PayoutNearShare(revenue, share, |e.result.ticketsWon|);
  }

  /** The payout of every tier entry of a draw lies within half a cent per winner of the tier's share. */
  lemma DrawPaysNearShares(engine: Engine, tickets: seq<Ticket>, shuffle: Shuffler)
    requires IsShuffler(shuffle)
    ensures var r := Draw(engine, tickets, shuffle);
      r.Success? ==>
        var es, revenue := r.value.tierResults, Revenue(tickets, engine.config.ticketPrice);
        forall j :: 0 <= j < |es| ==>
          es[j].tier < |engine.tiers| && NearShare(es[j], revenue, SharePercentage(engine.tiers[es[j].tier]))
  {
    DrawPricesTiers(engine, tickets, shuffle);
    var r := Draw(engine, tickets, shuffle);
    if r.Success? {
      var es, revenue := r.value.tierResults, Revenue(tickets, engine.config.ticketPrice);
      forall j | 0 <= j < |es| ensures NearShare(es[j], revenue, SharePercentage(engine.tiers[es[j].tier])) {
        EntryNearShare(es[j], revenue, SharePercentage(engine.tiers[es[j].tier]));
      }
    }
  }

  /** A tier that always asks for two winners, like the engine's test tiers. */
  predicate PicksPair(tier: TierPrize) {
    tier.Custom? && tier.winners == 2
  }

  /**
   * When every tier asks for two winners and there are at least two distinct tickets per tier,
   * every tier records an entry: three such tiers over ninety tickets give three results.
   */
  lemma DrawPairTiers(engine: Engine, tickets: seq<Ticket>, shuffle: Shuffler)
    requires IsShuffler(shuffle)
    requires forall i :: 0 <= i < |engine.tiers| ==> PicksPair(engine.tiers[i])
    requires |Elements(tickets)| >= 2 * |engine.tiers|
    ensures var r := Draw(engine, tickets, shuffle);
      r.Success? ==> |r.value.tierResults| == |engine.tiers|
  {
    var n := |engine.tiers|;
    var revenue := Revenue(tickets, engine.config.ticketPrice);
    var select, pay := TierSelector(engine.tiers, shuffle), TierPricer(engine.tiers, revenue);
    forall i: nat, pool: seq<Ticket> | i < n && |Elements(pool)| >= 2 ensures |select(i, pool)| == 2 {
      ElementsCardinality(pool);
    }
    PairTiersAllPay(select, pay, tickets, n, n);
  }

  /**
   * A draw with a single tier that picks someone: one entry for that tier, and the house keeps
   * the revenue less the tier's payout.
   */
  lemma SingleTierDraw(engine: Engine, tickets: seq<Ticket>, shuffle: Shuffler)
    requires IsShuffler(shuffle) && |engine.tiers| == 1
    requires engine.config.minPlayers <= |PlayerIds(tickets)| <= engine.config.maxPlayers
    requires |SelectWinners(engine.tiers[0], tickets, shuffle, 0)| > 0
    ensures var w, revenue := SelectWinners(engine.tiers[0], tickets, shuffle, 0), Revenue(tickets, engine.config.ticketPrice);
      var e := TierEntry(0, TierResult(w, PerTicket(revenue, SharePercentage(engine.tiers[0]), |w|)));
      Draw(engine, tickets, shuffle) == Success(DrawResult([e], revenue - Payout(e)))
  {
    var revenue := Revenue(tickets, engine.config.ticketPrice);
    var select, pay := TierSelector(engine.tiers, shuffle), TierPricer(engine.tiers, revenue);
    var s0 := StateAfter(select, pay, tickets, 0);
    assert StateAfter(select, pay, tickets, 1) == Step(select, pay, s0, 0);
    TierStep(engine.tiers, shuffle, revenue, s0, 0);
    var w := SelectWinners(engine.tiers[0], tickets, shuffle, 0);
    var e := TierEntry(0, TierResult(w, PerTicket(revenue, SharePercentage(engine.tiers[0]), |w|)));
    assert s0.entries + [e] == [e];
  }

  /**
   * Rounding to the nearest cent can pay out more than there is: three tickets at 1.33 and one
   * tier paying all of the revenue to two winners give each winner 2.00, and the house -0.01.
   */
  lemma RoundingCanOverpay(shuffle: Shuffler)
    requires IsShuffler(shuffle)
    ensures var tickets := [Ticket(1, 0, 1), Ticket(2, 0, 2), Ticket(3, 0, 3)];
      var engine := Engine(GameInstance(0, 0.0), GameConfig(1, 10, 10, 15, 1.33, 10.0), [Custom("", 100.0, 2)]);
      var r := Draw(engine, tickets, shuffle);
      && r.Success?
      && |r.value.tierResults| == 1
      && |r.value.tierResults[0].result.ticketsWon| == 2
      && r.value.tierResults[0].result.revenuePerTicket == 2.0
      && r.value.houseRevenue == -0.01
  {
    var tickets := [Ticket(1, 0, 1), Ticket(2, 0, 2), Ticket(3, 0, 3)];
    var tier := Custom("", 100.0, 2);
    var engine := Engine(GameInstance(0, 0.0), GameConfig(1, 10, 10, 15, 1.33, 10.0), [tier]);
    ThreeHolders(tickets);
    var w := SelectWinners(tier, tickets, shuffle, 0);
    assert |w| == 2;
    SingleTierDraw(engine, tickets, shuffle);
    SplitRoundsUp();
  }

  /** Three tickets with three different holders. */
  lemma ThreeHolders(tickets: seq<Ticket>)
    requires tickets == [Ticket(1, 0, 1), Ticket(2, 0, 2), Ticket(3, 0, 3)]
    ensures |PlayerIds(tickets)| == 3
  {
    assert tickets[0].playerId == 1 && tickets[1].playerId == 2 && tickets[2].playerId == 3;
    assert PlayerIds(tickets) == {1, 2, 3};
  }

  /** The revenue 3.99 split between two winners rounds up to 2.00 each. */
  lemma SplitRoundsUp()
    ensures PerTicket(3.0 * 1.33, 100.0, 2) == 2.0
  {
    Money.RoundCentsUnique(1.995, 2.0);
  }
}

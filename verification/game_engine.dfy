/**
 * The draw engine: it checks how many players take part, then lets the tiers pick their winners
 * in order from a pool that loses each tier's winners, pays every tier its share of the ticket
 * revenue split per winning ticket and rounded to cents, and leaves the rest to the house.
 */
module GameEngine {
  import opened Common
  import opened Entities
  import opened Models
  import opened Sequences
  import opened TierPrizes
  import Money

  /** An engine for one game instance, with its configuration and its ordered tier list. */
  datatype Engine = Engine(game: GameInstance, config: GameConfig, tiers: seq<TierPrize>)

  /**
   * The engine's constructor with its guards: a missing game instance or configuration, or a
   * missing or empty tier list, is rejected.
   */
  function NewEngine(game: Option<GameInstance>, config: Option<GameConfig>, tiers: Option<seq<TierPrize>>): (r: Result<Engine>)
    ensures r.Success? <==> game.Some? && config.Some? && tiers.Some? && tiers.value != []
    ensures r.Success? ==> r.value.game == game.value && r.value.config == config.value && r.value.tiers == tiers.value
    ensures r.Failure? ==> r.error in {ArgumentNull("gameInstance"), ArgumentNull("gameConfig"),
                                       ArgumentNull("prizeTiers"), ArgumentEmpty("prizeTiers")}
    // the guards run in order, and the first that fails decides the error
    ensures game.None? ==> r == Failure(ArgumentNull("gameInstance"))
    ensures game.Some? && config.None? ==> r == Failure(ArgumentNull("gameConfig"))
    ensures game.Some? && config.Some? && tiers.None? ==> r == Failure(ArgumentNull("prizeTiers"))
    ensures game.Some? && config.Some? && tiers == Some([]) ==> r == Failure(ArgumentEmpty("prizeTiers"))
  {
    if game.None? then Failure(ArgumentNull("gameInstance"))
    else if config.None? then Failure(ArgumentNull("gameConfig"))
    else if tiers.None? then Failure(ArgumentNull("prizeTiers"))
    else if tiers.value == [] then Failure(ArgumentEmpty("prizeTiers"))
    else Success(Engine(game.value, config.value, tiers.value))
  }

  /** The distinct players holding the tickets. */
  function PlayerIds(tickets: seq<Ticket>): (r: set<PlayerId>)
    ensures forall t :: t in tickets ==> t.playerId in r
    ensures |r| <= |tickets|
    ensures tickets != [] ==> |r| > 0
  {
    HoldersBound(tickets);
    var r := set t | t in tickets :: t.playerId;
    assert tickets != [] ==> tickets[0].playerId in r;
    r
  }

  /** The players counted are exactly the holders of the tickets. */
  lemma PlayerIdsExact(tickets: seq<Ticket>)
    ensures forall p :: p in PlayerIds(tickets) <==> exists t :: t in tickets && t.playerId == p
  {
  }

  /** There are no more distinct holders than tickets. */
  lemma {:induction false} HoldersBound(tickets: seq<Ticket>)
    ensures |set t | t in tickets :: t.playerId| <= |tickets|
  {
    if tickets != [] {
      var init, last := tickets[..|tickets| - 1], tickets[|tickets| - 1];
      HoldersBound(init);
      assert tickets == init + [last];
      assert (set t | t in tickets :: t.playerId) == (set t | t in init :: t.playerId) + {last.playerId};
    }
  }

  /**
   * What one winning ticket of a tier receives: the tier's share of the revenue split evenly
   * among the winners, to within half a cent, in whole cents and never negative.
   */
  function PerTicket(revenue: real, share: real, winners: nat): (r: real)
    requires winners > 0
    ensures Money.IsCents(r)
    ensures -0.005 <= r - revenue * (share / 100.0) / winners as real <= 0.005
    ensures revenue >= 0.0 && share >= 0.0 ==> r >= 0.0
  {
    var exact := revenue * (share / 100.0) / winners as real;
    assert revenue >= 0.0 && share >= 0.0 ==> exact >= 0.0 by {
      if revenue >= 0.0 && share >= 0.0 {
        Money.MulNonNegative(revenue, share / 100.0);
      }
    }
    Money.RoundCents(exact)
  }

  /** The ticket revenue of a draw: every ticket sold at the configured price. */
  function Revenue(tickets: seq<Ticket>, price: real): (r: real)
    ensures price >= 0.0 ==> r >= 0.0
  {
    |tickets| as real * price
  }

  // ----- The tier loop -----

  /** How tier `i` picks its winners from the pool it is given. */
  type Selector = (nat, seq<Ticket>) -> seq<Ticket>

  /** What each winning ticket of tier `i` receives when the tier has `n` winners. */
  type Pricer = (nat, nat) -> real

  /** The engine's tiers picking with the given shuffles. */
  function TierSelector(tiers: seq<TierPrize>, shuffle: Shuffler): Selector
    requires IsShuffler(shuffle)
  {
    (i: nat, pool: seq<Ticket>) => if i < |tiers| then SelectWinners(tiers[i], pool, shuffle, i) else []
  }

  /** The engine's tiers sharing out `revenue`. */
  function TierPricer(tiers: seq<TierPrize>, revenue: real): Pricer {
    (i: nat, n: nat) => if i < |tiers| && n > 0 then PerTicket(revenue, SharePercentage(tiers[i]), n) else 0.0
  }

  /** Every selection is drawn from the pool it is given. */
  ghost predicate PicksFromPool(select: Selector) {
    forall i, pool :: Elements(select(i, pool)) <= Elements(pool)
  }

  /** The loop's state between two tiers: the results so far, what they pay out, and the pool still in play. */
  datatype DrawState = DrawState(entries: seq<TierEntry>, winnings: real, pool: seq<Ticket>)

  /**
   * One round of the tier loop: tier `i` picks from the pool; a tier without winners changes
   * nothing, otherwise its result is recorded, its payout added and its winners leave the pool.
   */
  function Step(select: Selector, pay: Pricer, s: DrawState, i: nat): DrawState {
    var winners := select(i, s.pool);
    if |winners| == 0 then s
    else
      var entry := TierEntry(i, TierResult(winners, pay(i, |winners|)));
      DrawState(s.entries + [entry], s.winnings + Payout(entry), Except(s.pool, winners))
  }

  /** The state after the first `k` tiers have run. */
  function StateAfter(select: Selector, pay: Pricer, tickets: seq<Ticket>, k: nat): DrawState {
    if k == 0 then DrawState([], 0.0, tickets)
    else Step(select, pay, StateAfter(select, pay, tickets, k - 1), k - 1)
  }

  /** The draw as a function of the engine, the tickets and the shuffles. */
  function Draw(engine: Engine, tickets: seq<Ticket>, shuffle: Shuffler): (r: Result<DrawResult>)
    requires IsShuffler(shuffle)
    ensures var n := |PlayerIds(tickets)|;
      r.Failure? <==> n < engine.config.minPlayers || n > engine.config.maxPlayers
    ensures r.Failure? ==> r.error == PlayerCountOutOfRange(engine.config.minPlayers, engine.config.maxPlayers)
  {
    var playerCount := |PlayerIds(tickets)|;
    if playerCount < engine.config.minPlayers || playerCount > engine.config.maxPlayers then
      Failure(PlayerCountOutOfRange(engine.config.minPlayers, engine.config.maxPlayers))
    else
      var revenue := Revenue(tickets, engine.config.ticketPrice);
      var s := StateAfter(TierSelector(engine.tiers, shuffle), TierPricer(engine.tiers, revenue), tickets, |engine.tiers|);
      Success(DrawResult(s.entries, revenue - s.winnings))
  }

  /**
   * Draws the winners of every tier and settles the revenue: the house keeps the ticket revenue
   * less what the winning tickets receive.
   */
  method DrawWinners(engine: Engine, tickets: seq<Ticket>, shuffle: Shuffler) returns (r: Result<DrawResult>)
    requires IsShuffler(shuffle)
    ensures r == Draw(engine, tickets, shuffle)
  {
    var playerCount := |PlayerIds(tickets)|;
    if playerCount < engine.config.minPlayers || playerCount > engine.config.maxPlayers {
      return Failure(PlayerCountOutOfRange(engine.config.minPlayers, engine.config.maxPlayers));
    }
    var ticketRevenue := Revenue(tickets, engine.config.ticketPrice);
    var tierResults, winningsRevenue, remaining := RunTiers(engine.tiers, tickets, ticketRevenue, shuffle);
    var houseRevenue := ticketRevenue - winningsRevenue;
    return Success(DrawResult(tierResults, houseRevenue));
  }

  /**
   * The tier loop of the draw: the tiers take their turns in order, starting from the whole
   * ticket list with nothing won.
   */
  method RunTiers(tiers: seq<TierPrize>, tickets: seq<Ticket>, ticketRevenue: real, shuffle: Shuffler)
    returns (tierResults: seq<TierEntry>, winningsRevenue: real, remaining: seq<Ticket>)
    requires IsShuffler(shuffle)
    ensures DrawState(tierResults, winningsRevenue, remaining)
         == StateAfter(TierSelector(tiers, shuffle), TierPricer(tiers, ticketRevenue), tickets, |tiers|)
  {
    ghost var select, pay := TierSelector(tiers, shuffle), TierPricer(tiers, ticketRevenue);
    tierResults, winningsRevenue, remaining := [], 0.0, tickets;
    for i := 0 to |tiers|
      invariant DrawState(tierResults, winningsRevenue, remaining) == StateAfter(select, pay, tickets, i)
    {
      tierResults, winningsRevenue, remaining := PlayTier(tiers, ticketRevenue, shuffle, i, tierResults, winningsRevenue, remaining);
    }
  }

  /**
   * One turn of the tier loop: tier `i` picks its winners from the remaining pool; a tier that
   * picks none leaves everything as it was, otherwise its result is recorded, its payout added
   * to the winnings and its winners removed from the pool.
   */
  method PlayTier(tiers: seq<TierPrize>, ticketRevenue: real, shuffle: Shuffler, i: nat,
                  tierResults: seq<TierEntry>, winningsRevenue: real, remaining: seq<Ticket>)
    returns (tierResults': seq<TierEntry>, winningsRevenue': real, remaining': seq<Ticket>)
    requires i < |tiers| && IsShuffler(shuffle)
    ensures DrawState(tierResults', winningsRevenue', remaining')
         == Step(TierSelector(tiers, shuffle), TierPricer(tiers, ticketRevenue), DrawState(tierResults, winningsRevenue, remaining), i)
  {
    TierStep(tiers, shuffle, ticketRevenue, DrawState(tierResults, winningsRevenue, remaining), i);
    var tier := tiers[i];
    var winners := SelectWinners(tier, remaining, shuffle, i);
    if |winners| == 0 {
      return tierResults, winningsRevenue, remaining;
    }
    var revenuePerTicket := PerTicket(ticketRevenue, SharePercentage(tier), |winners|);
    var entry := TierEntry(i, TierResult(winners, revenuePerTicket));
    return tierResults + [entry], winningsRevenue + Payout(entry), Except(remaining, winners);
  }

  /** One round of the loop with the engine's own tiers. */
  lemma TierStep(tiers: seq<TierPrize>, shuffle: Shuffler, revenue: real, s: DrawState, i: nat)
    requires i < |tiers| && IsShuffler(shuffle)
    ensures var w := SelectWinners(tiers[i], s.pool, shuffle, i);
      Step(TierSelector(tiers, shuffle), TierPricer(tiers, revenue), s, i)
        == if |w| == 0 then s
           else
             var e := TierEntry(i, TierResult(w, PerTicket(revenue, SharePercentage(tiers[i]), |w|)));
             DrawState(s.entries + [e], s.winnings + Payout(e), Except(s.pool, w))
  {
  }

  // ----- What every state of the tier loop satisfies -----
  // Each property is proved for one round from any state that has it, then for every state the
  // loop reaches, whatever the tiers pick (as long as they pick from the pool) and however they
  // price. The properties of a list of entries are stated from its last entry back, as the loop
  // builds it.

  /** The accumulated winnings are what the recorded entries pay out. */
  ghost predicate WinningsAccounted(s: DrawState) {
    s.winnings == Winnings(s.entries)
  }

  /** Entries recorded by the first `k` rounds: in the order the tiers ran, each with a winner. */
  ghost predicate InTierOrder(entries: seq<TierEntry>, k: nat) {
    entries == [] ||
      var last := entries[|entries| - 1];
      && last.tier < k
      && |last.result.ticketsWon| > 0
      && InTierOrder(entries[..|entries| - 1], last.tier)
  }

  /** Every entry pays each of its tickets what its tier pays for that many winners. */
  ghost predicate Priced(pay: Pricer, entries: seq<TierEntry>) {
    entries == [] ||
      var last := entries[|entries| - 1];
      && last.result.revenuePerTicket == pay(last.tier, |last.result.ticketsWon|)
      && Priced(pay, entries[..|entries| - 1])
  }

  /** No ticket wins in two entries. */
  ghost predicate WinnersDisjoint(entries: seq<TierEntry>) {
    entries == [] ||
      var last := entries[|entries| - 1];
      && Elements(last.result.ticketsWon) !! WonTickets(entries[..|entries| - 1])
      && WinnersDisjoint(entries[..|entries| - 1])
  }

  /** The pool is the tickets that have not won; the winners are tickets, none winning twice. */
  ghost predicate PoolIsUnwon(tickets: seq<Ticket>, s: DrawState) {
    && Elements(s.pool) == Elements(tickets) - WonTickets(s.entries)
    && WonTickets(s.entries) <= Elements(tickets)
    && WinnersDisjoint(s.entries)
  }

  /** A round records an entry exactly when its tier picks someone; otherwise nothing changes. */
  lemma StepRecordsWinners(select: Selector, pay: Pricer, s: DrawState, i: nat)
    ensures var s' := Step(select, pay, s, i);
      && (|select(i, s.pool)| > 0 <==> |s'.entries| == |s.entries| + 1)
      && (|select(i, s.pool)| == 0 <==> s' == s)
  {
  }

  lemma StepKeepsWinnings(select: Selector, pay: Pricer, s: DrawState, i: nat)
    requires WinningsAccounted(s)
    ensures WinningsAccounted(Step(select, pay, s, i))
  {
    var s' := Step(select, pay, s, i);
    if s'.entries != s.entries {
      assert s'.entries[..|s'.entries| - 1] == s.entries;
    }
  }

  lemma StepKeepsTierOrder(select: Selector, pay: Pricer, s: DrawState, i: nat)
    requires InTierOrder(s.entries, i)
    ensures InTierOrder(Step(select, pay, s, i).entries, i + 1)
  {
    var es := Step(select, pay, s, i).entries;
    if es != s.entries {
      assert es[..|es| - 1] == s.entries;
    }
  }

  lemma StepKeepsPricing(select: Selector, pay: Pricer, s: DrawState, i: nat)
    requires Priced(pay, s.entries)
    ensures Priced(pay, Step(select, pay, s, i).entries)
  {
    var es := Step(select, pay, s, i).entries;
    if es != s.entries {
      assert es[..|es| - 1] == s.entries;
    }
  }

  lemma StepKeepsPool(select: Selector, pay: Pricer, tickets: seq<Ticket>, s: DrawState, i: nat)
    requires PicksFromPool(select)
    requires PoolIsUnwon(tickets, s)
    ensures PoolIsUnwon(tickets, Step(select, pay, s, i))
  {
    var w := select(i, s.pool);
    if |w| > 0 {
      var es := Step(select, pay, s, i).entries;
      assert es[..|es| - 1] == s.entries;
    }
  }

  /** The winnings the loop accumulates are what its entries pay out. */
  lemma {:induction false} WinningsAccountedAfter(select: Selector, pay: Pricer, tickets: seq<Ticket>, k: nat)
    ensures WinningsAccounted(StateAfter(select, pay, tickets, k))
  {
    if k > 0 {
      WinningsAccountedAfter(select, pay, tickets, k - 1);
      var prev := StateAfter(select, pay, tickets, k - 1);
      assert StateAfter(select, pay, tickets, k) == Step(select, pay, prev, k - 1);
      StepKeepsWinnings(select, pay, prev, k - 1);
    }
  }

  /** The first `k` rounds leave their entries in tier order. */
  lemma {:induction false} InTierOrderAfter(select: Selector, pay: Pricer, tickets: seq<Ticket>, k: nat)
    ensures InTierOrder(StateAfter(select, pay, tickets, k).entries, k)
  {
    if k > 0 {
      InTierOrderAfter(select, pay, tickets, k - 1);
      var prev := StateAfter(select, pay, tickets, k - 1);
      assert StateAfter(select, pay, tickets, k) == Step(select, pay, prev, k - 1);
      StepKeepsTierOrder(select, pay, prev, k - 1);
    }
  }

  /** Every entry the loop records is priced by its own tier. */
  lemma {:induction false} PricedAfter(select: Selector, pay: Pricer, tickets: seq<Ticket>, k: nat)
    ensures Priced(pay, StateAfter(select, pay, tickets, k).entries)
  {
    if k > 0 {
      PricedAfter(select, pay, tickets, k - 1);
      var prev := StateAfter(select, pay, tickets, k - 1);
      assert StateAfter(select, pay, tickets, k) == Step(select, pay, prev, k - 1);
      StepKeepsPricing(select, pay, prev, k - 1);
    }
  }

  /** The pool the loop keeps is the tickets that have not won. */
  lemma {:induction false} PoolIsUnwonAfter(select: Selector, pay: Pricer, tickets: seq<Ticket>, k: nat)
    requires PicksFromPool(select)
    ensures PoolIsUnwon(tickets, StateAfter(select, pay, tickets, k))
  {
    if k > 0 {
      PoolIsUnwonAfter(select, pay, tickets, k - 1);
      var prev := StateAfter(select, pay, tickets, k - 1);
      assert StateAfter(select, pay, tickets, k) == Step(select, pay, prev, k - 1);
      StepKeepsPool(select, pay, tickets, prev, k - 1);
    }
  }

  // ----- The same properties, entry by entry -----

  /** Entries in tier order: at most `k` of them, each for a tier below `k` with a winner, tiers increasing. */
  lemma {:induction false} InTierOrderFacts(entries: seq<TierEntry>, k: nat)
    requires InTierOrder(entries, k)
    ensures |entries| <= k
    ensures forall j :: 0 <= j < |entries| ==> entries[j].tier < k && |entries[j].result.ticketsWon| > 0
    ensures forall j, j' :: 0 <= j < j' < |entries| ==> entries[j].tier < entries[j'].tier
  {
    if entries != [] {
      var init, last := entries[..|entries| - 1], entries[|entries| - 1];
      InTierOrderFacts(init, last.tier);
      assert forall j :: 0 <= j < |init| ==> entries[j] == init[j];
    }
  }

  /** Priced entries, one by one. */
  lemma {:induction false} PricedFacts(pay: Pricer, entries: seq<TierEntry>)
    requires Priced(pay, entries)
    ensures forall j :: 0 <= j < |entries| ==>
      entries[j].result.revenuePerTicket == pay(entries[j].tier, |entries[j].result.ticketsWon|)
  {
    if entries != [] {
      var init := entries[..|entries| - 1];
      PricedFacts(pay, init);
      assert forall j :: 0 <= j < |init| ==> entries[j] == init[j];
    }
  }

  /** Every entry's winners are among the won tickets, and with disjoint winners no two entries share a ticket. */
  lemma {:induction false} WinnersDisjointFacts(entries: seq<TierEntry>)
    ensures forall j :: 0 <= j < |entries| ==> Elements(entries[j].result.ticketsWon) <= WonTickets(entries)
    ensures WinnersDisjoint(entries) ==>
      forall j, j' :: 0 <= j < j' < |entries| ==>
        Elements(entries[j].result.ticketsWon) !! Elements(entries[j'].result.ticketsWon)
  {
    if entries != [] {
      var init := entries[..|entries| - 1];
      WinnersDisjointFacts(init);
      assert forall j :: 0 <= j < |init| ==> entries[j] == init[j];
    }
  }

  // ----- Tiers that ask for a fixed pair of winners -----

  /** A tier that picks two winners records an entry and takes at most two distinct tickets out of play. */
  lemma StepPaysPair(select: Selector, pay: Pricer, s: DrawState, i: nat)
    requires |select(i, s.pool)| == 2
    ensures var s' := Step(select, pay, s, i);
      |s'.entries| == |s.entries| + 1 && |Elements(s'.pool)| + 2 >= |Elements(s.pool)|
  {
    var w := select(i, s.pool);
    ElementsCardinality(w);
    var A, B := Elements(s.pool), Elements(w);
    assert Elements(Step(select, pay, s, i).pool) == A - B;
    assert A - B + A * B == A && (A - B) !! (A * B);
    assert |A * B| <= |B| by {
      assert A * B <= B;
    }
  }

  /** The same, for the round that follows the first `k`. */
  lemma PairRound(select: Selector, pay: Pricer, tickets: seq<Ticket>, k: nat)
    requires |select(k, StateAfter(select, pay, tickets, k).pool)| == 2
    ensures var s, s' := StateAfter(select, pay, tickets, k), StateAfter(select, pay, tickets, k + 1);
      |s'.entries| == |s.entries| + 1 && |Elements(s'.pool)| + 2 >= |Elements(s.pool)|
  {
    StepPaysPair(select, pay, StateAfter(select, pay, tickets, k), k);
  }

  /**
   * When each of the first `n` tiers picks two winners from any pool of two or more distinct
   * tickets, and there are at least `2 * n` distinct tickets, each of those tiers records an entry.
   */
  lemma {:induction false} PairTiersAllPay(select: Selector, pay: Pricer, tickets: seq<Ticket>, n: nat, k: nat)
    requires k <= n
    requires forall i: nat, pool :: i < n && |Elements(pool)| >= 2 ==> |select(i, pool)| == 2
    requires |Elements(tickets)| >= 2 * n
    ensures var s := StateAfter(select, pay, tickets, k);
      |s.entries| == k && |Elements(s.pool)| + 2 * k >= |Elements(tickets)|
  {
    if k > 0 {
      PairTiersAllPay(select, pay, tickets, n, k - 1);
      var pool := StateAfter(select, pay, tickets, k - 1).pool;
      assert |Elements(pool)| >= 2;
      PairRound(select, pay, tickets, k - 1);
    }
  }
}

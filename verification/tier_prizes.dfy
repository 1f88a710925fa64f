/**
 * Prize tiers. A tier has a display name, the percentage of ticket revenue it pays out and a
 * rule for how many winners it draws; the three built-in tiers and tiers with a fixed winner
 * count are the variants of one datatype.
 */
module TierPrizes {
  import opened Entities
  import opened Sequences
  import Money

  /**
   * The random order `OrderBy(random.Next())` puts a pool in. The first argument tells calls
   * apart (the engine passes the tier's position), so every call may shuffle differently.
   */
  type Shuffler = (nat, seq<Ticket>) -> seq<Ticket>

  /** Each shuffle is a permutation of the pool it is given. */
  ghost predicate IsShuffler(shuffle: Shuffler) {
    forall call, pool :: multiset(shuffle(call, pool)) == multiset(pool)
  }

  datatype TierPrize =
    | Grand
    | Second
    | Third
    /** A tier with its own name, share and fixed winner count, such as the engine's test tiers. */
    | Custom(title: string, share: real, winners: int)

  /** The name the tier was constructed with. */
  function Name(tier: TierPrize): (r: string)
    ensures tier.Custom? ==> r == tier.title
    ensures !tier.Custom? ==> r in {"Grand Prize", "Second Prize", "Third Prize"}
  {
    match tier
    case Grand => "Grand Prize"
    case Second => "Second Prize"
    case Third => "Third Prize"
    case Custom(title, _, _) => title
  }

  /** The percentage of ticket revenue the tier pays out. */
  function SharePercentage(tier: TierPrize): (r: real)
    ensures tier.Custom? ==> r == tier.share
    ensures !tier.Custom? ==> 0.0 < r <= 50.0
  {
    match tier
    case Grand => 50.0
    case Second => 30.0
    case Third => 10.0
    case Custom(_, share, _) => share
  }

  /** How many winners the tier asks for from a pool of `poolSize` tickets. */
  function WinnerCount(tier: TierPrize, poolSize: nat): (r: int)
    ensures tier.Custom? ==> r == tier.winners
    // a built-in tier never asks for more winners than a non-empty pool holds
    ensures !tier.Custom? ==> r >= 0 && (poolSize > 0 ==> r <= poolSize)
  {
    match tier
    case Grand => 1
    case Second => Money.RoundHalfEven(poolSize, 10)
    case Third => Money.RoundHalfEven(poolSize, 5)
    case Custom(_, _, winners) => winners
  }

  /** Shuffles the tickets and takes the first `count` of them. */
  function SelectRandomTickets(tickets: seq<Ticket>, count: int, shuffle: Shuffler, call: nat): (r: seq<Ticket>)
    requires IsShuffler(shuffle)
    ensures |r| == Clamp(count, |tickets|)
    ensures multiset(r) <= multiset(tickets)
  {
    var shuffled := shuffle(call, tickets);
    assert |shuffled| == |multiset(shuffled)| == |tickets|;
    var r := Take(shuffled, count);
    assert shuffled == r + shuffled[|r|..];
    assert multiset(shuffled) == multiset(r) + multiset(shuffled[|r|..]);
    r
  }

  /** The tier's winners among `tickets`. */
  function SelectWinners(tier: TierPrize, tickets: seq<Ticket>, shuffle: Shuffler, call: nat): (r: seq<Ticket>)
    requires IsShuffler(shuffle)
    ensures |r| == Clamp(WinnerCount(tier, |tickets|), |tickets|)
    ensures multiset(r) <= multiset(tickets)
  {
    SelectRandomTickets(tickets, WinnerCount(tier, |tickets|), shuffle, call)
  }

  /**
   * What the selection primitive returns: exactly `min(max(count, 0), n)` tickets of the pool,
   * every one taken from it, none more often than the pool holds it, and none for an empty pool.
   */
  lemma SelectRandomTicketsFacts(tickets: seq<Ticket>, count: int, shuffle: Shuffler, call: nat)
    requires IsShuffler(shuffle)
    ensures var r := SelectRandomTickets(tickets, count, shuffle, call);
      && |r| == (if count <= 0 then 0 else if count <= |tickets| then count else |tickets|)
      && (forall t :: t in r ==> t in tickets)
      && (NoDuplicates(tickets) ==> NoDuplicates(r))
      && (tickets == [] ==> r == [])
  {
    var r := SelectRandomTickets(tickets, count, shuffle, call);
    forall t | t in r ensures t in tickets {
      assert multiset(r)[t] <= multiset(tickets)[t];
    }
    if NoDuplicates(tickets) {
      SubMultisetNoDuplicates(r, tickets);
    }
  }

  /** The shuffle that puts `tickets` in the order `order` and leaves every other pool as it is. */
  function Replay(tickets: seq<Ticket>, order: seq<Ticket>): Shuffler {
    (call: nat, pool: seq<Ticket>) => if pool == tickets then order else pool
  }

  lemma ReplayIsShuffler(tickets: seq<Ticket>, order: seq<Ticket>)
    requires multiset(order) == multiset(tickets)
    ensures IsShuffler(Replay(tickets, order))
  {
    forall call: nat, pool: seq<Ticket>
      ensures multiset(Replay(tickets, order)(call, pool)) == multiset(pool)
    {
    }
  }

  /**
   * Every selection of the right size that takes no ticket more often than the pool holds it is
   * the outcome of some shuffle: the model leaves out no outcome of the random pick.
   */
  lemma SelectionIsShuffledPrefix(tickets: seq<Ticket>, count: int, w: seq<Ticket>)
    requires |w| == Clamp(count, |tickets|) && multiset(w) <= multiset(tickets)
    ensures exists shuffle: Shuffler :: IsShuffler(shuffle) && SelectRandomTickets(tickets, count, shuffle, 0) == w
  {
    var order := w + RemoveAll(tickets, w);
    assert multiset(order) == multiset(tickets) by {
      assert multiset(order) == multiset(w) + (multiset(tickets) - multiset(w));
    }
    var shuffle := Replay(tickets, order);
    ReplayIsShuffler(tickets, order);
    assert shuffle(0, tickets) == order;
    assert order[..|w|] == w;
    assert SelectRandomTickets(tickets, count, shuffle, 0) == w;
  }

  /** Grand prize: "Grand Prize", half the revenue, one winner from a non-empty pool, none from an empty one. */
  lemma GrandTier(tickets: seq<Ticket>, shuffle: Shuffler, call: nat)
    requires IsShuffler(shuffle)
    ensures Name(Grand) == "Grand Prize" && SharePercentage(Grand) == 50.0
    ensures var w := SelectWinners(Grand, tickets, shuffle, call);
      && (tickets != [] ==> |w| == 1 && w[0] in tickets)
      && (tickets == [] ==> w == [])
  {
    var w := SelectWinners(Grand, tickets, shuffle, call);
    if tickets != [] {
      assert multiset(w)[w[0]] <= multiset(tickets)[w[0]];
    }
  }

  /**
   * Second prize: "Second Prize", 30% of the revenue, a tenth of the pool rounded half to even,
   * never more than the pool, distinct pool members when the pool has no duplicates.
   */
  lemma SecondTier(tickets: seq<Ticket>, shuffle: Shuffler, call: nat)
    requires IsShuffler(shuffle)
    ensures Name(Second) == "Second Prize" && SharePercentage(Second) == 30.0
    ensures var w := SelectWinners(Second, tickets, shuffle, call);
      && |w| == Money.RoundHalfEven(|tickets|, 10) <= |tickets|
      && (forall t :: t in w ==> t in tickets)
      && (NoDuplicates(tickets) ==> NoDuplicates(w))
  {
    SelectRandomTicketsFacts(tickets, WinnerCount(Second, |tickets|), shuffle, call);
  }

  /**
   * Third prize: "Third Prize", 10% of the revenue, a fifth of the pool rounded to the nearest
   * integer (a fifth is never a tie), distinct pool members when the pool has no duplicates.
   */
  lemma ThirdTier(tickets: seq<Ticket>, shuffle: Shuffler, call: nat)
    requires IsShuffler(shuffle)
    ensures Name(Third) == "Third Prize" && SharePercentage(Third) == 10.0
    ensures var w := SelectWinners(Third, tickets, shuffle, call);
      && |w| == Money.RoundHalfEven(|tickets|, 5) <= |tickets|
      && -5 < 2 * (|w| * 5 - |tickets|) < 5
      && (forall t :: t in w ==> t in tickets)
      && (NoDuplicates(tickets) ==> NoDuplicates(w))
  {
    SelectRandomTicketsFacts(tickets, WinnerCount(Third, |tickets|), shuffle, call);
  }

  /** The winner counts the tier rules give for sample pool sizes, ties to even included. */
  lemma WinnerCountExamples()
    ensures WinnerCount(Second, 20) == 2 && WinnerCount(Second, 5) == 0
    ensures WinnerCount(Second, 15) == 2 && WinnerCount(Second, 25) == 2
    ensures WinnerCount(Third, 20) == 4 && WinnerCount(Third, 3) == 1 && WinnerCount(Third, 2) == 0
    ensures WinnerCount(Second, 0) == 0 && WinnerCount(Third, 0) == 0
  {
  }
}

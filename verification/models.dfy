/** The configuration the core reads and the results a draw produces. */
module Models {
  import opened Entities
  import opened Sequences

  /** The game's settings, read-only to the core. */
  datatype GameConfig = GameConfig(
    minPlayers: int,
    maxPlayers: int,
    minTickets: int,
    maxTickets: int,
    ticketPrice: real,
    defaultPlayerBalance: real)

  /** The tickets one tier selected and what each of them wins. */
  datatype TierResult = TierResult(ticketsWon: seq<Ticket>, revenuePerTicket: real)

  /** One entry of a draw's tier results, keyed by the position of its tier in the engine's tier list. */
  datatype TierEntry = TierEntry(tier: nat, result: TierResult)

  /** The outcome of a draw: the tier results in the order the tiers ran, and the house's revenue. */
  datatype DrawResult = DrawResult(tierResults: seq<TierEntry>, houseRevenue: real)

  /** What one tier entry pays out: its winning tickets times the amount per ticket. */
  function Payout(e: TierEntry): real {
    |e.result.ticketsWon| as real * e.result.revenuePerTicket
  }

  /** What the entries pay out together. */
  function Winnings(entries: seq<TierEntry>): real {
    if entries == [] then 0.0
    else Winnings(entries[..|entries| - 1]) + Payout(entries[|entries| - 1])
  }

  /** Every ticket that won in some entry. */
  function WonTickets(entries: seq<TierEntry>): set<Ticket> {
    if entries == [] then {}
    else WonTickets(entries[..|entries| - 1]) + Elements(entries[|entries| - 1].result.ticketsWon)
  }
}

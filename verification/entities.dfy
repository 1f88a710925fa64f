/** The stored entities: tickets, players and game instances. */
module Entities {

  /** A player's database key. */
  type PlayerId = int

  /** A game instance's key; stands for its Guid. */
  type GameId = nat

  /**
   * A lottery ticket. `id` stands for the ticket's identity: two tickets are the same ticket
   * exactly when they are equal values, as two distinct ticket objects carry distinct ids.
   * The purchase timestamp is not modelled.
   */
  datatype Ticket = Ticket(id: nat, gameId: GameId, playerId: PlayerId)

  /** A player and the balance the player holds. */
  datatype Player = Player(id: PlayerId, balance: real)

  /** A game instance and the revenue its draws have left to the house. Start and end dates are not modelled. */
  datatype GameInstance = GameInstance(id: GameId, houseRevenue: real)
}

/** Values shared by every part of the model: optional values, results and the errors the services raise. */
module Common {

  /** A reference that may be null. */
  datatype Option<+T> = None | Some(value: T)

  /** The outcome of an operation that either returns a value or throws. */
  datatype Result<+T> = Success(value: T) | Failure(error: Error)

  /** The exceptions of the core, one variant per distinct message. */
  datatype Error =
    /** A guard found a null argument (ArgumentNullException). */
    | ArgumentNull(paramName: string)
    /** A guard found an empty list where a non-empty one is needed (ArgumentException). */
    | ArgumentEmpty(paramName: string)
    /** The draw saw a number of distinct players outside the configured bounds. */
    | PlayerCountOutOfRange(minPlayers: int, maxPlayers: int)
    /** No player with the requested id is stored. */
    | PlayerNotFound
    /** No game instance with the requested id is stored. */
    | GameNotFound
    /** A balance update would leave the player below zero. */
    | NegativeBalance
    /** Players were requested in a count of zero or less. */
    | NonPositivePlayerCount
    /** The player cannot afford a single ticket; carries the price and the balance. */
    | InsufficientFunds(requiredAmount: real, currentBalance: real)
    /** A decimal division by a zero ticket price. */
    | DivideByZero
    /** A negative count given to a range of tickets to issue. */
    | ArgumentOutOfRange
}

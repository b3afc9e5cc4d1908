/** The domain's enumerations, identifiers and clock units. */
module Enums {

  datatype EventStatus = Scheduled | Live | Finished | Cancelled | Postponed

  datatype TransactionStatus = Pending | Completed | Failed | Cancelled

  datatype TransactionType = Deposit | Withdrawal | BetPlaced | BetWon | BetRefund | Bonus | Fee

  datatype BetStatus = Open | Won | Lost | Void | CashedOut

  /** Only the two members the modelled code names. */
  datatype UserStatus = Active | Inactive

  /** Only `Match1X2` is named by the modelled code; the other markets are kept apart by a code. */
  datatype MarketType = Match1X2 | OtherMarket(code: int)

  datatype OutcomeType = Team1Win | Draw | Team2Win

  datatype OddsSource = Betby | Pinnacle

  /** Entity identifiers (`Guid`). */
  type Guid = int

  /** A `DateTime`, as a count of 100-nanosecond ticks in UTC. */
  type Ticks = int

  const TicksPerMinute: int := 600_000_000
  const TicksPerHour: int := 60 * TicksPerMinute
  const TicksPerDay: int := 24 * TicksPerHour
}

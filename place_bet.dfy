/** `PlaceBetCommandHandler.Handle`: a user stakes part of the balance on one outcome of
    an event that has not finished. */
module PlaceBetCommandHandler {
  import opened Wrappers
  import opened Enums
  import opened EventEntity
  import opened BetEntity
  import opened LedgerStore

  /** Bets are accepted until two hours after kickoff. */
  const GracePeriod: int := 2 * TicksPerHour

  datatype PlaceBetError =
    | UserNotFound
    | InsufficientBalance
    | EventNotFound
    | PastEvent
    | EventClosed
    | BetRejected(error: BetError)

  /** What the handler reads of the stored event. */
  datatype EventView = EventView(eventDateTime: Ticks, status: EventStatus)

  function EventViewOf(store: Store, k: Guid): Option<EventView>
    reads store, store.events.Values
  {
    if k in store.events then Some(EventView(store.events[k].eventDateTime, store.events[k].status)) else None
  }

  /** The handler's guards in source order, over the user's balance and the event it
      looked up: the user, the balance, the event, its kickoff, its status, and then the
      bet's own validations. */
  function CheckPlaceBet(balance: Option<real>, event: Option<EventView>, amount: real, odds: real, now: Ticks)
    : (r: Outcome<PlaceBetError>)
    ensures r.Pass? <==>
      && balance.Some? && balance.value >= amount
      && event.Some? && event.value.eventDateTime > now - GracePeriod
      && event.value.status != Finished && event.value.status != EventStatus.Cancelled
      && CheckStake(amount, odds).Pass?
    ensures r == Fail(UserNotFound) <==> balance.None?
    ensures r == Fail(InsufficientBalance) <==> balance.Some? && balance.value < amount
    ensures r == Fail(EventNotFound) <==> balance.Some? && balance.value >= amount && event.None?
    ensures r == Fail(PastEvent) <==>
      balance.Some? && balance.value >= amount && event.Some? && event.value.eventDateTime <= now - GracePeriod
    ensures r.Fail? && r.error.BetRejected? ==> CheckStake(amount, odds).Fail? && r.error.error == CheckStake(amount, odds).error
    ensures r.Pass? ==> 0.0 <= balance.value - amount < balance.value
  {
    if balance.None? then Fail(UserNotFound)
    else if balance.value < amount then Fail(InsufficientBalance)
    else if event.None? then Fail(EventNotFound)
    else if event.value.eventDateTime <= now - GracePeriod then Fail(PastEvent)
    else if event.value.status == Finished || event.value.status == EventStatus.Cancelled then Fail(EventClosed)
    else if CheckStake(amount, odds).Fail? then Fail(BetRejected(CheckStake(amount, odds).error))
    else Pass
  }

  /** `Handle`. `betId` and `now` stand for the bet's `Guid.NewGuid()` and the clock. On
      success the balance drops by the stake and exactly one open bet is added; on any
      error nothing changes. */
  method Handle(store: Store, userId: Guid, eventId: Guid, marketType: MarketType,
                selectedOutcome: OutcomeType, amount: real, odds: real, betId: Guid, now: Ticks)
    returns (r: Outcome<PlaceBetError>)
    requires store.Valid()
    requires betId !in store.bets
    modifies store, store.UserObject(userId)
    ensures store.Valid()
    ensures r == CheckPlaceBet(old(store.BalanceOf(userId)), old(EventViewOf(store, eventId)), amount, odds, now)
    ensures store.users == old(store.users) && store.events == old(store.events)
    ensures store.transactions == old(store.transactions)
    ensures r.Fail? ==> unchanged(store) && unchanged(store.UserObject(userId))
    ensures r.Pass? ==>
      && store.BalanceOf(userId) == Some(old(store.BalanceOf(userId)).value - amount)
      && store.users[userId].Profile() == old(store.users[userId].Profile())
      && betId in store.bets && store.bets == old(store.bets)[betId := store.bets[betId]]
      && var bet := store.bets[betId];
      && fresh(bet) && bet.userId == userId && bet.eventId == eventId
      && bet.marketType == marketType && bet.selectedOutcome == selectedOutcome
      && bet.amount == amount && bet.odds == odds && bet.potentialReturn == amount * odds
      && bet.status == Open && bet.placedAt == now
  {
    if userId !in store.users {
      return Fail(UserNotFound);
    }
    var user := store.users[userId];
    if user.balance < amount {
      return Fail(InsufficientBalance);
    }
    if eventId !in store.events {
      return Fail(EventNotFound);
    }
    var event := store.events[eventId];
    if event.eventDateTime <= now - GracePeriod {
      return Fail(PastEvent);
    }
    if event.status == Finished || event.status == EventStatus.Cancelled {
      return Fail(EventClosed);
    }
    var created := CreateBet(betId, userId, eventId, marketType, selectedOutcome, amount, odds, now);
    if created.Failure? {
      return Fail(BetRejected(created.error));
    }
    var bet := created.value;
    var updated := store.SetBalance(userId, user.balance - amount);
    assert updated.Pass?;
    store.AddBet(bet);
    r := Pass;
  }
}

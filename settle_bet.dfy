/** `SettleBetCommandHandler.Handle`: the owner of an open bet settles it as won, lost or
    void; a win pays out the potential return and a void refunds the stake, each recorded
    as a completed transaction. */
module SettleBetCommandHandler {
  import opened Wrappers
  import opened Text
  import opened Enums
  import opened BetEntity
  import opened TransactionEntity
  import opened LedgerStore

  /** `BetOutcome` (`Won = 1`, `Lost = 2`, `Void = 3`); a C# enum can carry any other
      integer, which is `OutcomeOther`. */
  datatype BetOutcome = OutcomeWon | OutcomeLost | OutcomeVoid | OutcomeOther(code: int)

  datatype SettleBetError =
    | BetNotFound
    | NotOwner
    | BetNotOpen(status: BetStatus)
    | InvalidOutcome
    | TransactionRejected(error: TransactionError)

  /** What the handler reads: the bet's owner, status, stake and potential return, the
      event's team names and the owner's balance. */
  datatype BetView = BetView(owner: Guid, status: BetStatus, amount: real, potentialReturn: real,
                             team1: string, team2: string, balance: real)

  function BetViewOf(store: Store, k: Guid): Option<BetView>
    reads store, store.bets.Values, store.users.Values, store.events.Values
  {
    if k in store.bets && store.bets[k].userId in store.users && store.bets[k].eventId in store.events then
      var bet := store.bets[k];
      var event := store.events[bet.eventId];
      Some(BetView(bet.userId, bet.status, bet.amount, bet.potentialReturn, event.team1, event.team2,
                   store.users[bet.userId].balance))
    else None
  }

  /** The status the bet is settled to. */
  function SettledStatus(outcome: BetOutcome): BetStatus
    requires !outcome.OutcomeOther?
  {
    match outcome
    case OutcomeWon => Won
    case OutcomeLost => Lost
    case OutcomeVoid => Void
  }

  /** `transactionAmount`: what is paid back to the user. */
  function MovedAmount(outcome: BetOutcome, amount: real, potentialReturn: real): real {
    match outcome
    case OutcomeWon => potentialReturn
    case OutcomeVoid => amount
    case _ => 0.0
  }

  /** `transactionType`. */
  function SettlementType(outcome: BetOutcome): TransactionType {
    match outcome
    case OutcomeWon => BetWon
    case OutcomeVoid => BetRefund
    case _ => BetPlaced
  }

  /** `transactionDescription`. */
  function SettlementDescription(outcome: BetOutcome, team1: string, team2: string): string {
    match outcome
    case OutcomeWon => "Bet won: " + team1 + " vs " + team2
    case OutcomeLost => "Bet lost: " + team1 + " vs " + team2
    case OutcomeVoid => "Bet voided: " + team1 + " vs " + team2
    case _ => ""
  }

  /** The handler's checks in source order: the bet, its owner, its status, the outcome,
      and, when money moves, the transaction's own validations. */
  function CheckSettleBet(view: Option<BetView>, userId: Guid, outcome: BetOutcome): (r: Outcome<SettleBetError>)
    ensures r == Fail(BetNotFound) <==> view.None?
    ensures r == Fail(NotOwner) <==> view.Some? && view.value.owner != userId
    ensures r.Fail? && r.error.BetNotOpen? <==>
      view.Some? && view.value.owner == userId && view.value.status != Open
    ensures r == Fail(InvalidOutcome) <==>
      view.Some? && view.value.owner == userId && view.value.status == Open && outcome.OutcomeOther?
    ensures r.Pass? ==> view.Some? && view.value.owner == userId && view.value.status == Open && !outcome.OutcomeOther?
  {
    if view.None? then Fail(BetNotFound)
    else
      var v := view.value;
      if v.owner != userId then Fail(NotOwner)
      else if v.status != Open then Fail(BetNotOpen(v.status))
      else if outcome.OutcomeOther? then Fail(InvalidOutcome)
      else
        var moved := MovedAmount(outcome, v.amount, v.potentialReturn);
        var check := CheckTransaction(SettlementType(outcome), moved, v.balance,
                                      SettlementDescription(outcome, v.team1, v.team2));
        if moved > 0.0 && check.Fail? then Fail(TransactionRejected(check.error)) else Pass
  }

  /** For a valid open bet and a valid owner, the only transaction validation that can
      reject a settlement is the description's length: a winning team pair whose names
      make the description longer than 500 characters. */
  lemma OnlyLongDescriptionsRejectSettlement(v: BetView, outcome: BetOutcome)
    requires v.status == Open && v.amount > 0.0 && v.potentialReturn > v.amount && v.balance >= 0.0
    requires !outcome.OutcomeOther?
    ensures CheckSettleBet(Some(v), v.owner, outcome).Fail? ==>
      CheckSettleBet(Some(v), v.owner, outcome) == Fail(TransactionRejected(DescriptionTooLong))
      && |SettlementDescription(outcome, v.team1, v.team2)| > MaximumDescriptionLength
  {
    var d := SettlementDescription(outcome, v.team1, v.team2);
    assert d[0] == 'B';
    assert !IsBlank(d) by {
      assert !IsWhiteSpace(d[0]);
    }
  }

  /** A settled bet cannot be settled again: the second call fails on the status. */
  lemma SettlingTwiceFails(v: BetView, outcome: BetOutcome)
    requires v.status != Open
    ensures CheckSettleBet(Some(v), v.owner, outcome) == Fail(BetNotOpen(v.status))
  {
  }

  /** `Handle`. `transactionId` and `now` stand for the transaction's `Guid.NewGuid()` and
      the clock. The transaction is validated before the bet and the balance are touched:
      in the source a rejected transaction throws before `SaveChangesAsync`, so nothing
      it changed in memory is stored. */
  method Handle(store: Store, betId: Guid, userId: Guid, outcome: BetOutcome, transactionId: Guid, now: Ticks)
    returns (r: Outcome<SettleBetError>)
    requires store.Valid()
    modifies store, store.BetObject(betId), store.OwnerObject(betId)
    ensures store.Valid()
    ensures r == CheckSettleBet(old(BetViewOf(store, betId)), userId, outcome)
    ensures store.users == old(store.users) && store.events == old(store.events) && store.bets == old(store.bets)
    ensures forall k {:trigger store.BalanceOf(k)} :: k != userId ==> store.BalanceOf(k) == old(store.BalanceOf(k))
    ensures r.Fail? ==> unchanged(store) && unchanged(store.BetObject(betId)) && unchanged(store.OwnerObject(betId))
    ensures r.Pass? ==>
      var v := old(BetViewOf(store, betId)).value;
      var moved := MovedAmount(outcome, v.amount, v.potentialReturn);
      && store.bets[betId].Terms() == old(store.bets[betId].Terms())
      && store.users[userId].Profile() == old(store.users[userId].Profile())
      && store.bets[betId].status == SettledStatus(outcome) && store.bets[betId].settledAt == Some(now)
      && store.bets[betId].actualReturn == Some(if outcome == OutcomeLost then 0.0 else moved)
      && store.BalanceOf(userId) == Some(v.balance + moved)
      && (moved > 0.0 <==> outcome != OutcomeLost)
      && (outcome == OutcomeLost ==> store.transactions == old(store.transactions))
      && (outcome != OutcomeLost ==>
            |store.transactions| == |old(store.transactions)| + 1
            && store.transactions[..|old(store.transactions)|] == old(store.transactions)
            && var t := store.transactions[|old(store.transactions)|];
            && fresh(t) && t.id == transactionId && t.userId == userId
            && t.transactionType == SettlementType(outcome) && t.amount == moved
            && t.balanceBefore == v.balance && t.balanceAfter == v.balance + moved
            && t.status == Completed && t.processedAt == Some(now)
            && t.description == Trim(SettlementDescription(outcome, v.team1, v.team2))
            && t.externalReference.None? && t.relatedEntityId == Some(betId))
  {
    if betId !in store.bets {
      return Fail(BetNotFound);
    }
    var bet := store.bets[betId];
    if bet.userId != userId {
      return Fail(NotOwner);
    }
    if bet.status != Open {
      return Fail(BetNotOpen(bet.status));
    }
    if outcome.OutcomeOther? {
      return Fail(InvalidOutcome);
    }
    var user := store.users[userId];
    var event := store.events[bet.eventId];
    var oldBalance := user.balance;
    var moved := MovedAmount(outcome, bet.amount, bet.potentialReturn);
    var transactionType := SettlementType(outcome);
    var description := SettlementDescription(outcome, event.team1, event.team2);
    var check := CheckTransaction(transactionType, moved, oldBalance, description);
    if moved > 0.0 && check.Fail? {
      return Fail(TransactionRejected(check.error));
    }
    ApplySettlement(store, betId, userId, outcome, moved, transactionType, description, transactionId, now);
    r := Pass;
  }

  /** The changes `Handle` makes once every check has passed: the bet is settled, and
      when money moves back to the user it is credited through a completed transaction. */
  method ApplySettlement(store: Store, betId: Guid, userId: Guid, outcome: BetOutcome, moved: real,
                         transactionType: TransactionType, description: string, transactionId: Guid, now: Ticks)
    requires store.Valid() && betId in store.bets && userId in store.users
    requires store.bets[betId].userId == userId && store.bets[betId].status == Open
    requires !outcome.OutcomeOther? && transactionType == SettlementType(outcome)
    requires moved == MovedAmount(outcome, store.bets[betId].amount, store.bets[betId].potentialReturn)
    requires moved > 0.0 ==> CheckTransaction(transactionType, moved, store.users[userId].balance, description).Pass?
    modifies store, store.BetObject(betId), store.OwnerObject(betId)
    ensures store.Valid()
    ensures store.users == old(store.users) && store.events == old(store.events) && store.bets == old(store.bets)
    ensures forall k {:trigger store.BalanceOf(k)} :: k != userId ==> store.BalanceOf(k) == old(store.BalanceOf(k))
    ensures store.bets[betId].Terms() == old(store.bets[betId].Terms())
    ensures store.users[userId].Profile() == old(store.users[userId].Profile())
    ensures store.bets[betId].status == SettledStatus(outcome) && store.bets[betId].settledAt == Some(now)
    ensures store.bets[betId].actualReturn == Some(if outcome == OutcomeLost then 0.0 else moved)
    ensures store.BalanceOf(userId) == Some(old(store.users[userId].balance) + moved)
    ensures moved > 0.0 <==> outcome != OutcomeLost
    ensures outcome == OutcomeLost ==> store.transactions == old(store.transactions)
    ensures outcome != OutcomeLost ==>
      |store.transactions| == |old(store.transactions)| + 1
      && store.transactions[..|old(store.transactions)|] == old(store.transactions)
      && var t := store.transactions[|old(store.transactions)|];
      && fresh(t) && t.id == transactionId && t.userId == userId
      && t.transactionType == transactionType && t.amount == moved
      && t.balanceBefore == old(store.users[userId].balance) && t.balanceAfter == old(store.users[userId].balance) + moved
      && t.status == Completed && t.processedAt == Some(now)
      && t.description == Trim(description)
      && t.externalReference.None? && t.relatedEntityId == Some(betId)
  {
    ReturnExceedsStake(store.bets[betId].amount, store.bets[betId].odds);
    var settled := store.SettleStoredBet(betId, SettledStatus(outcome), now);
    assert settled.Pass?;
    if moved > 0.0 {
      var transaction := store.PostCredit(userId, transactionType, moved, description, None, Some(betId),
                                          transactionId, now);
    }
  }
}

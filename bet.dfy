/** The `Bet` entity: a stake on one outcome of an event, settled once as won, lost or
    void. */
module BetEntity {
  import opened Wrappers
  import opened Enums

  const MaximumStake: real := 10000.0

  datatype BetError = AmountNotPositive | AmountAboveLimit | OddsNotAboveOne | NotOpen

  /** The constructor's validations in source order: the amount, then the odds. */
  function CheckStake(amount: real, odds: real): (r: Outcome<BetError>)
    ensures r.Pass? <==> 0.0 < amount <= MaximumStake && odds > 1.0
    ensures r == Fail(AmountNotPositive) <==> amount <= 0.0
    ensures r == Fail(AmountAboveLimit) <==> amount > MaximumStake
    ensures r == Fail(OddsNotAboveOne) <==> 0.0 < amount <= MaximumStake && odds <= 1.0
  {
    if amount <= 0.0 then Fail(AmountNotPositive)
    else if amount > MaximumStake then Fail(AmountAboveLimit)
    else if odds <= 1.0 then Fail(OddsNotAboveOne)
    else Pass
  }

  /** `CalculateProfit` over the fields it reads. */
  function Profit(status: BetStatus, amount: real, potentialReturn: real): real {
    match status
    case Won => potentialReturn - amount
    case Lost => -amount
    case Void => 0.0
    case _ => 0.0
  }

  /** What a bet's return is in each status: none while open, the potential return when
      won, nothing when lost and the stake when void. */
  predicate SettlementConsistent(status: BetStatus, amount: real, potentialReturn: real,
                                 actualReturn: Option<real>) {
    match status
    case Open => actualReturn.None?
    case Won => actualReturn == Some(potentialReturn)
    case Lost => actualReturn == Some(0.0)
    case Void => actualReturn == Some(amount)
    case CashedOut => false
  }

  /** The profit of a settled bet is what it returned minus the stake, and it never loses
      more than the stake. */
  lemma ProfitIsReturnMinusStake(status: BetStatus, amount: real, potentialReturn: real,
                                 actualReturn: Option<real>)
    requires amount > 0.0 && potentialReturn >= amount
    requires SettlementConsistent(status, amount, potentialReturn, actualReturn)
    ensures status != Open ==> Profit(status, amount, potentialReturn) == actualReturn.value - amount
    ensures status == Open ==> Profit(status, amount, potentialReturn) == 0.0
    ensures -amount <= Profit(status, amount, potentialReturn) <= potentialReturn - amount
  {
  }

  /** A winning bet returns more than its stake. */
  lemma ReturnExceedsStake(amount: real, odds: real)
    requires amount > 0.0 && odds > 1.0
    ensures amount * odds > amount
  {
    assert amount * odds - amount == amount * (odds - 1.0);
    assert amount * (odds - 1.0) > 0.0;
  }

  /** A stored bet's fields as a value: what the queries read. */
  datatype BetRecord = BetRecord(userId: Guid, status: BetStatus, amount: real, odds: real,
                                 potentialReturn: real, actualReturn: Option<real>, placedAt: Ticks)

  /** What `Bet.Valid` says of the fields a record keeps. */
  predicate ValidBetRecord(b: BetRecord) {
    && CheckStake(b.amount, b.odds).Pass?
    && b.potentialReturn == b.amount * b.odds
    && SettlementConsistent(b.status, b.amount, b.potentialReturn, b.actualReturn)
  }

  /** What a bet was placed with. */
  datatype BetTerms = BetTerms(
    id: Guid, userId: Guid, eventId: Guid, marketType: MarketType, selectedOutcome: OutcomeType,
    amount: real, odds: real, potentialReturn: real, placedAt: Ticks)

  class Bet {
    var id: Guid
    var userId: Guid
    var eventId: Guid
    var marketType: MarketType
    var selectedOutcome: OutcomeType
    var amount: real
    var odds: real
    var potentialReturn: real
    var actualReturn: Option<real>
    var status: BetStatus
    var placedAt: Ticks
    var settledAt: Option<Ticks>

    /** A valid stake and price, the potential return is stake times odds, and the
        actual return and settlement time match the status. */
    predicate Valid()
      reads this
    {
      && CheckStake(amount, odds).Pass?
      && potentialReturn == amount * odds
      && SettlementConsistent(status, amount, potentialReturn, actualReturn)
      && (settledAt.None? <==> status == Open)
    }

    /** The domain constructor once amount and odds have been validated: the potential
        return is stake times odds and the bet is open. */
    constructor (id: Guid, userId: Guid, eventId: Guid, marketType: MarketType,
                 selectedOutcome: OutcomeType, amount: real, odds: real, now: Ticks)
      requires CheckStake(amount, odds).Pass?
      ensures Valid()
      ensures this.id == id && this.userId == userId && this.eventId == eventId
      ensures this.marketType == marketType && this.selectedOutcome == selectedOutcome
      ensures this.amount == amount && this.odds == odds && potentialReturn == amount * odds
      ensures status == Open && actualReturn.None? && placedAt == now && settledAt.None?
    {
      this.id := id;
      this.userId := userId;
      this.eventId := eventId;
      this.marketType := marketType;
      this.selectedOutcome := selectedOutcome;
      this.amount := amount;
      this.odds := odds;
      potentialReturn := amount * odds;
      actualReturn := None;
      status := Open;
      placedAt := now;
      settledAt := None;
    }

    /** The bet's fields that settling leaves alone: all but status, actual return and
        settlement time. */
    function Terms(): BetTerms
      reads this
    {
      BetTerms(id, userId, eventId, marketType, selectedOutcome, amount, odds, potentialReturn, placedAt)
    }

    /** The bet as a record; a valid bet gives a valid record. */
    function Record(): (b: BetRecord)
      reads this
      ensures Valid() ==> ValidBetRecord(b)
    {
      BetRecord(userId, status, amount, odds, potentialReturn, actualReturn, placedAt)
    }

    /** `CalculateProfit`. */
    function CalculateProfit(): (p: real)
      reads this
      ensures Valid() ==> -amount <= p <= potentialReturn - amount
      ensures Valid() && status != Open ==> p == actualReturn.value - amount
      ensures status == Open ==> p == 0.0
    {
      if Valid() then
        ReturnExceedsStake(amount, odds);
        ProfitIsReturnMinusStake(status, amount, potentialReturn, actualReturn);
        Profit(status, amount, potentialReturn)
      else
        Profit(status, amount, potentialReturn)
    }

    /** `SettleAsWon`: only an open bet settles; it then returns its potential return. */
    method SettleAsWon(now: Ticks) returns (r: Outcome<BetError>)
      modifies this
      ensures r.Pass? <==> old(status) == Open
      ensures r.Fail? ==> r.error == NotOpen && unchanged(this)
      ensures r.Pass? ==> status == Won && actualReturn == Some(potentialReturn) && settledAt == Some(now)
      ensures id == old(id) && userId == old(userId) && eventId == old(eventId) && marketType == old(marketType)
      ensures selectedOutcome == old(selectedOutcome) && amount == old(amount) && odds == old(odds)
      ensures potentialReturn == old(potentialReturn) && placedAt == old(placedAt)
      ensures old(Valid()) ==> Valid()
    {
      if status != Open {
        return Fail(NotOpen);
      }
      status := Won;
      actualReturn := Some(potentialReturn);
      settledAt := Some(now);
      r := Pass;
    }

    /** `SettleAsLost`: only an open bet settles; it then returns nothing. */
    method SettleAsLost(now: Ticks) returns (r: Outcome<BetError>)
      modifies this
      ensures r.Pass? <==> old(status) == Open
      ensures r.Fail? ==> r.error == NotOpen && unchanged(this)
      ensures r.Pass? ==> status == Lost && actualReturn == Some(0.0) && settledAt == Some(now)
      ensures id == old(id) && userId == old(userId) && eventId == old(eventId) && marketType == old(marketType)
      ensures selectedOutcome == old(selectedOutcome) && amount == old(amount) && odds == old(odds)
      ensures potentialReturn == old(potentialReturn) && placedAt == old(placedAt)
      ensures old(Valid()) ==> Valid()
    {
      if status != Open {
        return Fail(NotOpen);
      }
      status := Lost;
      actualReturn := Some(0.0);
      settledAt := Some(now);
      r := Pass;
    }

    /** `VoidBet`: only an open bet is voided; it then returns the stake. */
    method VoidBet(now: Ticks) returns (r: Outcome<BetError>)
      modifies this
      ensures r.Pass? <==> old(status) == Open
      ensures r.Fail? ==> r.error == NotOpen && unchanged(this)
      ensures r.Pass? ==> status == Void && actualReturn == Some(amount) && settledAt == Some(now)
      ensures id == old(id) && userId == old(userId) && eventId == old(eventId) && marketType == old(marketType)
      ensures selectedOutcome == old(selectedOutcome) && amount == old(amount) && odds == old(odds)
      ensures potentialReturn == old(potentialReturn) && placedAt == old(placedAt)
      ensures old(Valid()) ==> Valid()
    {
      if status != Open {
        return Fail(NotOpen);
      }
      status := Void;
      actualReturn := Some(amount);
      settledAt := Some(now);
      r := Pass;
    }
  }

  /** The public constructor: fails on the first invalid argument, or builds a fresh,
      valid, open bet. */
  method CreateBet(id: Guid, userId: Guid, eventId: Guid, marketType: MarketType,
                   selectedOutcome: OutcomeType, amount: real, odds: real, now: Ticks)
    returns (r: Result<Bet, BetError>)
    ensures r.Failure? <==> CheckStake(amount, odds).Fail?
    ensures r.Failure? ==> r.error == CheckStake(amount, odds).error
    ensures r.Success? ==>
      var b := r.value;
      && fresh(b) && b.Valid()
      && b.id == id && b.userId == userId && b.eventId == eventId
      && b.marketType == marketType && b.selectedOutcome == selectedOutcome
      && b.amount == amount && b.odds == odds && b.potentialReturn == amount * odds
      && b.status == Open && b.actualReturn.None? && b.placedAt == now && b.settledAt.None?
  {
    var check := CheckStake(amount, odds);
    if check.Fail? {
      return Failure(check.error);
    }
    var b := new Bet(id, userId, eventId, marketType, selectedOutcome, amount, odds, now);
    r := Success(b);
  }
}

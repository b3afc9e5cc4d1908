/** The `Transaction` entity: one movement of a user's balance, recorded with the
    balance before and after it and processed once. */
module TransactionEntity {
  import opened Wrappers
  import opened Text
  import opened Enums

  const MaximumDeposit: real := 50000.0
  const MaximumWithdrawal: real := 25000.0
  const MaximumDescriptionLength: nat := 500

  datatype TransactionError =
    | AmountNotPositive
    | DepositAboveLimit
    | WithdrawalAboveLimit
    | NegativeBalance
    | DescriptionEmpty
    | DescriptionTooLong
    | NotPending

  /** `IsCredit` on the type: the movements that add to the balance. */
  predicate IsCreditType(t: TransactionType) {
    t == Deposit || t == BetWon || t == BetRefund || t == Bonus
  }

  /** `IsDebit` on the type: the movements that take from the balance. */
  predicate IsDebitType(t: TransactionType) {
    t == Withdrawal || t == BetPlaced || t == Fee
  }

  /** Every type is either a credit or a debit, never both. */
  lemma CreditOrDebit(t: TransactionType)
    ensures IsCreditType(t) != IsDebitType(t)
  {
  }

  /** `CalculateBalanceAfter`: credits add the amount, debits subtract it. */
  function BalanceAfter(balanceBefore: real, amount: real, t: TransactionType): (r: real)
    ensures IsCreditType(t) ==> r == balanceBefore + amount
    ensures IsDebitType(t) ==> r == balanceBefore - amount
  {
    match t
    case Deposit | BetWon | BetRefund | Bonus => balanceBefore + amount
    case Withdrawal | BetPlaced | Fee => balanceBefore - amount
  }

  /** `ValidateAmount`: positive, and within the per-type limit for deposits and
      withdrawals. */
  function CheckAmount(amount: real, t: TransactionType): (r: Outcome<TransactionError>)
    ensures r.Pass? <==>
      amount > 0.0 && (t == Deposit ==> amount <= MaximumDeposit) && (t == Withdrawal ==> amount <= MaximumWithdrawal)
    ensures r == Fail(AmountNotPositive) <==> amount <= 0.0
  {
    if amount <= 0.0 then Fail(AmountNotPositive)
    else if t == Deposit && amount > MaximumDeposit then Fail(DepositAboveLimit)
    else if t == Withdrawal && amount > MaximumWithdrawal then Fail(WithdrawalAboveLimit)
    else Pass
  }

  /** A stored description: non-empty, with no white space at either end, and at most
      500 characters long. */
  predicate IsStoredText(s: string) {
    IsTrimmedText(s) && |s| <= MaximumDescriptionLength
  }

  /** `ValidateDescription`: a blank or over-long text is rejected (the length is that of
      the text before trimming); the stored text is trimmed. */
  function ValidateDescription(description: string): (r: Result<string, TransactionError>)
    ensures r.Success? <==> !IsBlank(description) && |description| <= MaximumDescriptionLength
    ensures r == Failure(DescriptionEmpty) <==> IsBlank(description)
    ensures r.Success? ==> r.value == Trim(description) && IsStoredText(r.value)
  {
    if IsBlank(description) then Failure(DescriptionEmpty)
    else if |description| > MaximumDescriptionLength then Failure(DescriptionTooLong)
    else Success(Trim(description))
  }

  /** The constructor's validations in source order: amount, balance, description. */
  function CheckTransaction(t: TransactionType, amount: real, balanceBefore: real, description: string)
    : (r: Outcome<TransactionError>)
    ensures r.Pass? <==>
      && CheckAmount(amount, t).Pass?
      && balanceBefore >= 0.0
      && ValidateDescription(description).Success?
    ensures CheckAmount(amount, t).Fail? ==> r == CheckAmount(amount, t)
    ensures CheckAmount(amount, t).Pass? && balanceBefore < 0.0 ==> r == Fail(NegativeBalance)
  {
    var amountCheck := CheckAmount(amount, t);
    if amountCheck.Fail? then amountCheck
    else if balanceBefore < 0.0 then Fail(NegativeBalance)
    else
      var d := ValidateDescription(description);
      if d.Failure? then Fail(d.error) else Pass
  }

  /** The recorded amounts passed validation, the balance after follows from the
      balance before, and the description is stored trimmed. */
  predicate ValidRecord(t: TransactionType, amount: real, balanceBefore: real, balanceAfter: real,
                        description: string) {
    && CheckAmount(amount, t).Pass?
    && balanceBefore >= 0.0
    && balanceAfter == BalanceAfter(balanceBefore, amount, t)
    && IsStoredText(description)
  }

  class Transaction {
    var id: Guid
    var userId: Guid
    var transactionType: TransactionType
    var amount: real
    var balanceBefore: real
    var balanceAfter: real
    var status: TransactionStatus
    var description: string
    var externalReference: Option<string>
    var relatedEntityId: Option<Guid>
    var createdAt: Ticks
    var processedAt: Option<Ticks>
    var failureReason: Option<string>

    /** The recorded fields form a valid record. */
    predicate Valid()
      reads this
    {
      ValidRecord(transactionType, amount, balanceBefore, balanceAfter, description)
    }

    /** `IsCredit`. */
    predicate IsCredit()
      reads this
    {
      IsCreditType(transactionType)
    }

    /** `IsDebit`. */
    predicate IsDebit()
      reads this
    {
      IsDebitType(transactionType)
    }

    /** The domain constructor once its validations have passed: the transaction is
        pending and records the balance it will leave behind. */
    constructor (id: Guid, userId: Guid, t: TransactionType, amount: real, balanceBefore: real,
                 description: string, externalReference: Option<string>,
                 relatedEntityId: Option<Guid>, now: Ticks)
      requires CheckTransaction(t, amount, balanceBefore, description).Pass?
      ensures Valid()
      ensures this.id == id && this.userId == userId && transactionType == t
      ensures this.amount == amount && this.balanceBefore == balanceBefore
      ensures balanceAfter == BalanceAfter(balanceBefore, amount, t)
      ensures status == Pending && this.description == Trim(description)
      ensures this.externalReference == externalReference && this.relatedEntityId == relatedEntityId
      ensures createdAt == now && processedAt.None? && failureReason.None?
    {
      var d := ValidateDescription(description);
      var text := d.value;
      assert IsStoredText(text) && text == Trim(description);
      this.id := id;
      this.userId := userId;
      transactionType := t;
      this.amount := amount;
      this.balanceBefore := balanceBefore;
      balanceAfter := BalanceAfter(balanceBefore, amount, t);
      status := Pending;
      this.description := text;
      this.externalReference := externalReference;
      this.relatedEntityId := relatedEntityId;
      createdAt := now;
      processedAt := None;
      failureReason := None;
    }

    /** `CompleteTransaction`: only a pending transaction completes. */
    method CompleteTransaction(now: Ticks) returns (r: Outcome<TransactionError>)
      modifies this
      ensures r.Pass? <==> old(status) == Pending
      ensures r.Fail? ==> r.error == NotPending && status == old(status) && processedAt == old(processedAt)
      ensures r.Pass? ==> status == Completed && processedAt == Some(now)
      ensures id == old(id) && userId == old(userId) && transactionType == old(transactionType)
      ensures amount == old(amount) && balanceBefore == old(balanceBefore) && balanceAfter == old(balanceAfter)
      ensures description == old(description) && externalReference == old(externalReference)
      ensures relatedEntityId == old(relatedEntityId) && createdAt == old(createdAt)
      ensures failureReason == old(failureReason)
      ensures old(Valid()) ==> Valid()
    {
      if status != Pending {
        return Fail(NotPending);
      }
      status := Completed;
      processedAt := Some(now);
      r := Pass;
    }

    /** `FailTransaction`: only a pending transaction fails. The status is set before the
        reason is validated, so a rejected reason leaves the transaction failed with no
        reason and no processing time recorded. */
    method FailTransaction(failureReason: string, now: Ticks) returns (r: Outcome<TransactionError>)
      modifies this
      ensures old(status) != Pending ==> r == Fail(NotPending) && status == old(status)
      ensures old(status) != Pending ==> this.failureReason == old(this.failureReason) && processedAt == old(processedAt)
      ensures old(status) == Pending ==> status == Failed
      ensures old(status) == Pending && ValidateDescription(failureReason).Success? ==>
        r.Pass? && this.failureReason == Some(ValidateDescription(failureReason).value) && processedAt == Some(now)
      ensures old(status) == Pending && ValidateDescription(failureReason).Failure? ==>
        r == Fail(ValidateDescription(failureReason).error)
        && this.failureReason == old(this.failureReason) && processedAt == old(processedAt)
      ensures id == old(id) && userId == old(userId) && transactionType == old(transactionType)
      ensures amount == old(amount) && balanceBefore == old(balanceBefore) && balanceAfter == old(balanceAfter)
      ensures description == old(description) && externalReference == old(externalReference)
      ensures relatedEntityId == old(relatedEntityId) && createdAt == old(createdAt)
      ensures old(Valid()) ==> Valid()
    {
      if status != Pending {
        return Fail(NotPending);
      }
      r := RecordFailure(ValidateDescription(failureReason), now);
    }

    /** The part of `FailTransaction` after the status check, given the outcome of
        validating the reason: the status becomes failed, and the reason and processing
        time are recorded only when the reason was accepted. */
    method RecordFailure(reason: Result<string, TransactionError>, now: Ticks) returns (r: Outcome<TransactionError>)
      modifies this
      ensures status == Failed
      ensures reason.Success? ==> r.Pass? && failureReason == Some(reason.value) && processedAt == Some(now)
      ensures reason.Failure? ==>
        r == Fail(reason.error) && failureReason == old(failureReason) && processedAt == old(processedAt)
      ensures id == old(id) && userId == old(userId) && transactionType == old(transactionType)
      ensures amount == old(amount) && balanceBefore == old(balanceBefore) && balanceAfter == old(balanceAfter)
      ensures description == old(description) && externalReference == old(externalReference)
      ensures relatedEntityId == old(relatedEntityId) && createdAt == old(createdAt)
    {
      status := Failed;
      if reason.Failure? {
        return Fail(reason.error);
      }
      failureReason := Some(reason.value);
      processedAt := Some(now);
      r := Pass;
    }

    /** `CancelTransaction`: only a pending transaction is cancelled. */
    method CancelTransaction(now: Ticks) returns (r: Outcome<TransactionError>)
      modifies this
      ensures r.Pass? <==> old(status) == Pending
      ensures r.Fail? ==> r.error == NotPending && status == old(status) && processedAt == old(processedAt)
      ensures r.Pass? ==> status == TransactionStatus.Cancelled && processedAt == Some(now)
      ensures id == old(id) && userId == old(userId) && transactionType == old(transactionType)
      ensures amount == old(amount) && balanceBefore == old(balanceBefore) && balanceAfter == old(balanceAfter)
      ensures description == old(description) && externalReference == old(externalReference)
      ensures relatedEntityId == old(relatedEntityId) && createdAt == old(createdAt)
      ensures failureReason == old(failureReason)
      ensures old(Valid()) ==> Valid()
    {
      if status != Pending {
        return Fail(NotPending);
      }
      status := TransactionStatus.Cancelled;
      processedAt := Some(now);
      r := Pass;
    }
  }

  /** The public constructor: fails with the first failed validation, or builds a fresh,
      valid, pending transaction. */
  method CreateTransaction(id: Guid, userId: Guid, t: TransactionType, amount: real, balanceBefore: real,
                           description: string, externalReference: Option<string>,
                           relatedEntityId: Option<Guid>, now: Ticks)
    returns (r: Result<Transaction, TransactionError>)
    ensures r.Failure? <==> CheckTransaction(t, amount, balanceBefore, description).Fail?
    ensures r.Failure? ==> r.error == CheckTransaction(t, amount, balanceBefore, description).error
    ensures r.Success? ==>
      var x := r.value;
      && fresh(x) && x.Valid()
      && x.id == id && x.userId == userId && x.transactionType == t
      && x.amount == amount && x.balanceBefore == balanceBefore
      && x.balanceAfter == BalanceAfter(balanceBefore, amount, t)
      && x.status == Pending && x.description == Trim(description)
      && x.externalReference == externalReference && x.relatedEntityId == relatedEntityId
      && x.createdAt == now && x.processedAt.None? && x.failureReason.None?
  {
    var check := CheckTransaction(t, amount, balanceBefore, description);
    if check.Fail? {
      return Failure(check.error);
    }
    var x := new Transaction(id, userId, t, amount, balanceBefore, description, externalReference,
                             relatedEntityId, now);
    r := Success(x);
  }
}

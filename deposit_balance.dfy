/** `DepositBalanceCommandHandler.Handle`: an active user's balance grows by the deposit,
    recorded as a completed deposit transaction. */
module DepositBalanceCommandHandler {
  import opened Wrappers
  import opened Text
  import opened Enums
  import opened TransactionEntity
  import opened LedgerStore

  datatype DepositError =
    | UserNotFound
    | UserNotActive
    | TransactionRejected(error: TransactionError)

  /** What the handler reads of the stored user. */
  datatype AccountView = AccountView(balance: real, status: UserStatus)

  function AccountViewOf(store: Store, k: Guid): Option<AccountView>
    reads store, store.users.Values
  {
    if k in store.users then Some(AccountView(store.users[k].balance, store.users[k].status)) else None
  }

  /** The handler's checks in source order: the user, the account's status, and then the
      deposit transaction's own validations against the current balance. */
  function CheckDeposit(account: Option<AccountView>, amount: real, description: string): (r: Outcome<DepositError>)
    ensures r == Fail(UserNotFound) <==> account.None?
    ensures r == Fail(UserNotActive) <==> account.Some? && account.value.status != Active
    ensures r.Pass? <==>
      account.Some? && account.value.status == Active
      && CheckTransaction(Deposit, amount, account.value.balance, description).Pass?
    ensures r.Fail? && r.error.TransactionRejected? ==>
      r.error.error == CheckTransaction(Deposit, amount, account.value.balance, description).error
  {
    if account.None? then Fail(UserNotFound)
    else if account.value.status != Active then Fail(UserNotActive)
    else
      var check := CheckTransaction(Deposit, amount, account.value.balance, description);
      if check.Fail? then Fail(TransactionRejected(check.error)) else Pass
  }

  /** A deposit the handler accepts lies within (0, 50000]. */
  lemma AcceptedDepositInLimits(account: Option<AccountView>, amount: real, description: string)
    requires CheckDeposit(account, amount, description).Pass?
    ensures 0.0 < amount <= MaximumDeposit
  {
  }

  /** `Handle`. `transactionId` and `now` stand for the transaction's `Guid.NewGuid()` and
      the clock. On success the balance grows by exactly the deposit and one completed
      deposit transaction records it; on any error nothing changes. */
  method Handle(store: Store, userId: Guid, amount: real, description: string,
                externalReference: Option<string>, transactionId: Guid, now: Ticks)
    returns (r: Outcome<DepositError>)
    requires store.Valid()
    modifies store, store.UserObject(userId)
    ensures store.Valid()
    ensures r == CheckDeposit(old(AccountViewOf(store, userId)), amount, description)
    ensures store.users == old(store.users) && store.events == old(store.events) && store.bets == old(store.bets)
    ensures forall k {:trigger store.BalanceOf(k)} :: k != userId ==> store.BalanceOf(k) == old(store.BalanceOf(k))
    ensures r.Fail? ==> unchanged(store) && unchanged(store.UserObject(userId))
    ensures r.Pass? ==>
      var before := old(store.users[userId].balance);
      && store.BalanceOf(userId) == Some(before + amount)
      && store.users[userId].Profile() == old(store.users[userId].Profile())
      && |store.transactions| == |old(store.transactions)| + 1
      && store.transactions[..|old(store.transactions)|] == old(store.transactions)
      && var t := store.transactions[|old(store.transactions)|];
      && fresh(t) && t.id == transactionId && t.userId == userId && t.transactionType == Deposit
      && t.amount == amount && t.balanceBefore == before && t.balanceAfter == before + amount
      && t.status == Completed && t.processedAt == Some(now)
      && t.description == Trim(description) && t.externalReference == externalReference
      && t.relatedEntityId.None?
  {
    if userId !in store.users {
      return Fail(UserNotFound);
    }
    var user := store.users[userId];
    if user.status != Active {
      return Fail(UserNotActive);
    }
    var check := CheckTransaction(Deposit, amount, user.balance, description);
    if check.Fail? {
      return Fail(TransactionRejected(check.error));
    }
    var transaction := store.PostCredit(userId, Deposit, amount, description, externalReference, None,
                                        transactionId, now);
    r := Pass;
  }
}

/** The application's database context, as the command handlers see it: the users,
    events and bets by identifier, and the transactions in the order they were added.
    Loading an entity is a map lookup; `SaveChangesAsync` is not modelled separately,
    because a handler's changes are either all kept or, when it fails, none are. */
module LedgerStore {
  import opened Wrappers
  import opened Text
  import opened Enums
  import opened UserEntity
  import opened EventEntity
  import opened BetEntity
  import opened TransactionEntity

  class Store {
    var users: map<Guid, User>
    var events: map<Guid, Event>
    var bets: map<Guid, Bet>
    var transactions: seq<Transaction>

    /** Every entity is stored under its own identifier and is valid, and every bet
        refers to a stored user and a stored event. */
    predicate Valid()
      reads this, users.Values, events.Values, bets.Values, transactions
    {
      UsersValid() && EventsValid() && BetsValid() && TransactionsValid()
    }

    predicate UsersValid()
      reads this, users.Values
    {
      forall k :: k in users ==> users[k].id == k && users[k].Valid()
    }

    predicate EventsValid()
      reads this, events.Values
    {
      forall k :: k in events ==> events[k].id == k && events[k].Valid()
    }

    predicate BetsValid()
      reads this, bets.Values
    {
      forall k :: k in bets ==>
        bets[k].id == k && bets[k].Valid() && bets[k].userId in users && bets[k].eventId in events
    }

    predicate TransactionsValid()
      reads this, transactions
    {
      forall i :: 0 <= i < |transactions| ==> transactions[i].Valid()
    }

    /** An empty database. */
    constructor ()
      ensures Valid()
      ensures users == map[] && events == map[] && bets == map[] && transactions == []
    {
      users := map[];
      events := map[];
      bets := map[];
      transactions := [];
    }

    /** The stored user with identifier `k`, as a frame. */
    function UserObject(k: Guid): set<object>
      reads this
    {
      if k in users then {users[k]} else {}
    }

    /** The stored bet with identifier `k`, as a frame. */
    function BetObject(k: Guid): set<object>
      reads this
    {
      if k in bets then {bets[k]} else {}
    }

    /** The stored user who owns the stored bet `k`, as a frame. */
    function OwnerObject(k: Guid): set<object>
      reads this, bets.Values
    {
      if k in bets && bets[k].userId in users then {users[bets[k].userId]} else {}
    }

    /** The balance of user `k`, if stored. */
    function BalanceOf(k: Guid): Option<real>
      reads this, users.Values
    {
      if k in users then Some(users[k].balance) else None
    }

    /** `user.UpdateBalance(amount)` on the stored user `k`: only that user's balance can
        change, a refused balance changes nothing, and the store stays valid. */
    method SetBalance(k: Guid, amount: real) returns (r: Outcome<UserError>)
      requires Valid() && k in users
      modifies users[k]
      ensures Valid()
      ensures r.Pass? <==> amount >= 0.0
      ensures BalanceOf(k) == if r.Pass? then Some(amount) else old(BalanceOf(k))
      ensures users[k].Profile() == old(users[k].Profile())
      ensures r.Fail? ==> unchanged(users[k])
      ensures forall j {:trigger BalanceOf(j)} :: j != k ==> BalanceOf(j) == old(BalanceOf(j))
    {
      var user := users[k];
      r := user.UpdateBalance(amount);
      assert UsersValid() by {
        forall j | j in users ensures users[j].id == j && users[j].Valid() {
          if j != k {
            assert users[j] != user;
          }
        }
      }
    }

    /** `Bets.Add(bet)` of a valid bet on a stored user and event. */
    method AddBet(bet: Bet)
      requires Valid() && bet.id !in bets
      requires bet.Valid() && bet.userId in users && bet.eventId in events
      modifies this
      ensures Valid()
      ensures bets == old(bets)[bet.id := bet]
      ensures users == old(users) && events == old(events) && transactions == old(transactions)
    {
      bets := bets[bet.id := bet];
    }

    /** `Transactions.Add(transaction)` of a valid transaction. */
    method AddTransaction(t: Transaction)
      requires Valid() && t.Valid()
      modifies this
      ensures Valid()
      ensures transactions == old(transactions) + [t]
      ensures users == old(users) && events == old(events) && bets == old(bets)
    {
      transactions := transactions + [t];
    }

    /** Settles the stored bet `k` in place as won, lost or void, through the entity's
        own settle methods; the store stays valid. */
    method SettleStoredBet(k: Guid, status: BetStatus, now: Ticks) returns (r: Outcome<BetError>)
      requires Valid() && k in bets
      requires status == Won || status == Lost || status == Void
      modifies bets[k]
      ensures Valid()
      ensures r.Pass? <==> old(bets[k].status) == Open
      ensures r.Pass? ==> bets[k].status == status && bets[k].settledAt == Some(now)
      ensures r.Pass? && status == Won ==> bets[k].actualReturn == Some(bets[k].potentialReturn)
      ensures r.Pass? && status == Lost ==> bets[k].actualReturn == Some(0.0)
      ensures r.Pass? && status == Void ==> bets[k].actualReturn == Some(bets[k].amount)
      ensures r.Fail? ==> unchanged(bets[k])
      ensures bets[k].Terms() == old(bets[k].Terms())
      ensures forall j {:trigger BalanceOf(j)} :: BalanceOf(j) == old(BalanceOf(j))
    {
      var bet := bets[k];
      if status == Won {
        r := bet.SettleAsWon(now);
      } else if status == Lost {
        r := bet.SettleAsLost(now);
      } else {
        r := bet.VoidBet(now);
      }
      assert BetsValid() by {
        forall j | j in bets
          ensures bets[j].id == j && bets[j].Valid() && bets[j].userId in users && bets[j].eventId in events
        {
          if j != k {
            assert bets[j] != bet;
          }
        }
      }
    }

    /** A credit to the stored user `k`, as the handlers write it: a new transaction
        recording the balance before and after, completed at `now` and added to the
        transactions, and the user's balance raised by `amount`. */
    method PostCredit(k: Guid, t: TransactionType, amount: real, description: string,
                      externalReference: Option<string>, relatedEntityId: Option<Guid>,
                      transactionId: Guid, now: Ticks)
      returns (tx: Transaction)
      requires Valid() && k in users && IsCreditType(t)
      requires CheckTransaction(t, amount, users[k].balance, description).Pass?
      modifies this, users[k]
      ensures Valid()
      ensures users == old(users) && events == old(events) && bets == old(bets)
      ensures BalanceOf(k) == Some(old(users[k].balance) + amount)
      ensures users[k].Profile() == old(users[k].Profile())
      ensures forall j {:trigger BalanceOf(j)} :: j != k ==> BalanceOf(j) == old(BalanceOf(j))
      ensures transactions == old(transactions) + [tx]
      ensures fresh(tx) && tx.id == transactionId && tx.userId == k && tx.transactionType == t
      ensures tx.amount == amount && tx.balanceBefore == old(users[k].balance)
      ensures tx.balanceAfter == old(users[k].balance) + amount
      ensures tx.status == Completed && tx.processedAt == Some(now) && tx.createdAt == now
      ensures tx.description == Trim(description)
      ensures tx.externalReference == externalReference && tx.relatedEntityId == relatedEntityId
    {
      var balance := users[k].balance;
      var created := CreateTransaction(transactionId, k, t, amount, balance, description,
                                       externalReference, relatedEntityId, now);
      tx := created.value;
      var updated := SetBalance(k, balance + amount);
      assert updated.Pass?;
      var completed := tx.CompleteTransaction(now);
      AddTransaction(tx);
    }
  }
}

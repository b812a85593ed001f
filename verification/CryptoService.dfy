/** The crypto wallet and deposit services. */
module CryptoServices {
  import opened Options
  import opened CryptoLedger
  import opened CryptoDeposits

  class CryptoWalletService {
    var balances: map<Wallet, int>
    var rows: seq<Row>

    ghost function View(): Books
      reads this
    {
      Books(balances, rows)
    }

    constructor ()
      ensures View() == EMPTY_BOOKS && BooksOk(View())
    {
      balances, rows := map[], [];
      new;
      EmptyBooksOk();
    }

    /** Adds the entry and commits; a second entry under a stored reference violates the unique constraint,
        and the session is rolled back. */
    method Insert(row: Row) returns (reply: Reply)
      modifies this
      ensures var taken := row.reference.Some? && Find(old(rows), row.reference, row.kind).Some?;
              && reply == (if taken then Refused(DuplicateReference) else Done(row))
              && View() == (if taken then old(View())
                            else Books(old(balances)[row.wallet := row.after], old(rows) + [row]))
    {
      if row.reference.Some? && Find(rows, row.reference, row.kind).Some? {
        return Refused(DuplicateReference);
      }
      balances := balances[row.wallet := row.after];
      rows := rows + [row];
      return Done(row);
    }

    method Credit(wallet: Wallet, amount: int, kind: Kind, reference: Option<Reference>) returns (reply: Reply)
      requires BooksOk(View())
      modifies this
      ensures BooksOk(View())
      ensures Answer(View(), reply) == Do(old(View()), Op(true, wallet, amount, kind, reference))
    {
      hide BooksOk;
      DoKeepsBooks(View(), Op(true, wallet, amount, kind, reference));
      if amount <= 0 { return Refused(InvalidAmount); }
      var existing := FindExisting(rows, reference, kind);
      if existing.Some? { return Done(existing.value); }
      var before := if wallet in balances then balances[wallet] else 0;
      var after := before + amount;
      reply := Insert(Row(wallet, amount, before, after, kind, reference));
    }

    method Debit(wallet: Wallet, amount: int, kind: Kind, reference: Option<Reference>) returns (reply: Reply)
      requires BooksOk(View())
      modifies this
      ensures BooksOk(View())
      ensures Answer(View(), reply) == Do(old(View()), Op(false, wallet, amount, kind, reference))
    {
      hide BooksOk;
      DoKeepsBooks(View(), Op(false, wallet, amount, kind, reference));
      if amount <= 0 { return Refused(InvalidAmount); }
      var existing := FindExisting(rows, reference, kind);
      if existing.Some? { return Done(existing.value); }
      var before := if wallet in balances then balances[wallet] else 0;
      if before < amount { return Refused(InsufficientBalance); }
      var after := before - amount;
      reply := Insert(Row(wallet, -amount, before, after, kind, reference));
    }
  }

  datatype DepositError = OrderNotFound | InvalidTomanAmount | ProviderUnavailable | CreditRefused(reason: CryptoError)

  class CryptoDepositService {
    const wallets: CryptoWalletService
    var orders: map<int, DepositOrder>

    /** The tables, with no other process at work. */
    ghost function View(): System
      reads this, wallets
    {
      System(wallets.View(), orders, map[])
    }

    constructor (wallets: CryptoWalletService)
      requires BooksOk(wallets.View())
      ensures this.wallets == wallets && orders == map[]
    {
      this.wallets, orders := wallets, map[];
    }

    /** `quote` is the provider's crypto amount, none when the provider fails. */
    method CreateDepositRequest(id: int, user: int, toman: int, quote: Option<int>)
      returns (error: Option<DepositError>)
      requires id !in orders
      modifies this
      ensures error == if toman <= 0 then Some(InvalidTomanAmount)
                       else if quote == None then Some(ProviderUnavailable) else None
      ensures View() == if error == None then Next(old(View()), Create(id, user, quote.value)) else old(View())
      ensures error == None ==> orders == old(orders)[id := DepositOrder(user, quote.value, PendingPayment)]
    {
      if toman <= 0 { return Some(InvalidTomanAmount); }
      if quote == None { return Some(ProviderUnavailable); }
      orders := orders[id := DepositOrder(user, quote.value, PendingPayment)];
      return None;
    }

    /** Credits the order's wallet and marks the order verified. */
    method MarkVerifiedAndCredit(id: int) returns (error: Option<DepositError>)
      requires id in orders && BooksOk(wallets.View())
      modifies this, wallets
      ensures BooksOk(wallets.View())
      ensures var s, s' := old(View()), Next(Next(old(View()), Settle(0, id, false)), Finish(0));
              var answer := Do(s.books, DepositOp(id, s.orders[id]));
              && View() == System(s'.books, s'.orders, map[])
              && error == (if !s.orders[id].status.Verified? && answer.reply.Refused?
                           then Some(CreditRefused(answer.reply.error)) else None)
    {
      hide BooksOk, Do;
      var order := orders[id];
      if order.status.Verified? { return None; }
      DoKeepsBooks(wallets.View(), DepositOp(id, order));
      var reply := wallets.Credit(Wallet(order.user, Trx), order.amount, Deposit, Some(OrderRef(id)));
      if reply.Refused? { return Some(CreditRefused(reply.error)); }
      order := order.(status := Verified);
      orders := orders[id := order];
      return None;
    }

    /** `verified` is the provider's answer to the verification request, none when the request fails. */
    method HandleWebhook(id: int, verified: Option<bool>) returns (error: Option<DepositError>)
      requires BooksOk(wallets.View())
      modifies this, wallets
      ensures BooksOk(wallets.View())
      ensures id !in old(orders) ==> error == Some(OrderNotFound) && View() == old(View())
      ensures id in old(orders) && !old(orders)[id].status.Verified? && verified == None ==>
                error == Some(ProviderUnavailable) && View() == old(View())
      ensures id in old(orders) && (verified == Some(false) || old(orders)[id].status.Verified?) ==>
                error == None && View() == Next(old(View()), Reject(id))
      ensures id in old(orders) && verified == Some(true) ==>
                var s, s' := old(View()), Next(Next(old(View()), Settle(0, id, false)), Finish(0));
                var answer := Do(s.books, DepositOp(id, s.orders[id]));
                && View() == System(s'.books, s'.orders, map[])
                && error == (if !s.orders[id].status.Verified? && answer.reply.Refused?
                             then Some(CreditRefused(answer.reply.error)) else None)
    {
      hide BooksOk, Do;
      if id !in orders { return Some(OrderNotFound); }
      if orders[id].status.Verified? { return None; }
      if verified == None { return Some(ProviderUnavailable); }
      if !verified.value {
        orders := orders[id := orders[id].(status := DepositFailed)];
        return None;
      }
      error := MarkVerifiedAndCredit(id);
    }
  }
}

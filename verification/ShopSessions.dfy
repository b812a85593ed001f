/** A database session, and the wallet service that commits it. */
module ShopSessions {
  import opened Options
  import opened Ledgers
  import opened ShopTables
  import opened ShopCalls

  /** The working copy of the tables and what the database holds; `history` lists every state committed. */
  class Session {
    var db: Db
    var committed: Db
    ghost var history: seq<Db>

    /** Nothing is pending. */
    predicate Settled()
      reads this
    {
      db == committed
    }

    constructor (db: Db)
      ensures this.db == db && Settled() && history == []
    {
      this.db, committed, history := db, db, [];
    }

    method Commit()
      modifies this
      ensures db == old(db) && Settled() && history == old(history) + [old(db)]
    {
      committed := db;
      history := history + [db];
    }

    method Rollback()
      modifies this
      ensures committed == old(committed) && Settled() && history == old(history)
    {
      db := committed;
    }
  }

  class WalletService {
    const session: Session

    constructor (session: Session)
      ensures this.session == session
    {
      this.session := session;
    }

    /** Raises the balance, records the entry and commits everything pending in the session. */
    method Credit(u: int, amount: int, kind: WalletKind, ref: Ref) returns (error: Option<ShopError>)
      modifies session
      ensures error == CreditRefusal(old(session.db), u, amount)
      ensures error.Some? ==> session.db == old(session.db) && session.committed == old(session.committed)
                              && session.history == old(session.history)
      ensures error == None ==> session.db == Post(old(session.db), u, kind, amount, ref) && session.Settled()
                                && session.history == old(session.history) + [session.db]
    {
      if amount <= 0 { return Some(InvalidAmount); }
      if u !in session.db.wallets { return Some(NoWallet); }
      var before := session.db.wallets[u];
      var after := before + amount;
      session.db := session.db.(wallets := session.db.wallets[u := after]);
      session.db := session.db.(ledger := session.db.ledger + [Entry(u, kind, amount, before, after, ref)]);
      session.Commit();
      return None;
    }

    /** Lowers the balance, unless it is too low, records the entry and commits everything pending. */
    method Debit(u: int, amount: int, kind: WalletKind, ref: Ref) returns (error: Option<ShopError>)
      modifies session
      ensures error == DebitRefusal(old(session.db), u, amount)
      ensures error.Some? ==> session.db == old(session.db) && session.committed == old(session.committed)
                              && session.history == old(session.history)
      ensures error == None ==> session.db == Post(old(session.db), u, kind, -amount, ref) && session.Settled()
                                && session.history == old(session.history) + [session.db]
    {
      if amount <= 0 { return Some(InvalidAmount); }
      if u !in session.db.wallets { return Some(NoWallet); }
      if session.db.wallets[u] < amount { return Some(InsufficientBalance); }
      var before := session.db.wallets[u];
      var after := before - amount;
      session.db := session.db.(wallets := session.db.wallets[u := after]);
      session.db := session.db.(ledger := session.db.ledger + [Entry(u, kind, -amount, before, after, ref)]);
      session.Commit();
      return None;
    }
  }
}

/** Coupons and purchases.  Every method leaves the states that the call commits in the session's history;
    an error that is raised rolls the session back to the last of them. */
module OrderServices {
  import opened Options
  import opened Totals
  import opened Pricing
  import opened ShopTables
  import opened ShopCalls
  import opened ShopTheorems
  import opened ShopSessions

  class CouponService {
    const session: Session

    constructor (session: Session)
      ensures this.session == session
    {
      this.session := session;
    }

    method Create(c: int, code: string, percent: int, expiresAt: Option<int>) returns (error: Option<ShopError>)
      requires session.Settled() && c !in session.db.coupons
      modifies session
      ensures error == CreateCouponRefusal(old(session.db), c, code, percent)
      ensures session.Settled()
      ensures var commits := Commits(old(session.db), CreateCoupon(c, code, percent, expiresAt));
              session.db == Last(old(session.db), commits) && session.history == old(session.history) + commits
    {
      if percent <= 0 || percent > 90 { return Some(InvalidPercent); }
      if exists d :: d in session.db.coupons && session.db.coupons[d].code == code { return Some(CodeTaken); }
      var coupon := Coupon(code, percent, expiresAt, false, None, None);
      session.db := session.db.(coupons := session.db.coupons[c := coupon]);
      session.Commit();
      return None;
    }

    /** Looks a coupon up by its code and checks it, for the preview of a price. */
    method Validate(code: string, now: int) returns (error: Option<ShopError>, c: int)
      ensures error == Some(CouponNotFound)
              <==> forall d :: d in session.db.coupons ==> session.db.coupons[d].code != code
      ensures error != Some(CouponNotFound) ==>
                c in session.db.coupons && session.db.coupons[c].code == code
                && error == CouponRefusal(session.db, c, now)
    {
      if !exists d :: d in session.db.coupons && session.db.coupons[d].code == code {
        return Some(CouponNotFound), 0;
      }
      c :| c in session.db.coupons && session.db.coupons[c].code == code;
      var coupon := session.db.coupons[c];
      if coupon.used { return Some(CouponUsed), c; }
      if coupon.expiresAt.Some? && coupon.expiresAt.value <= now { return Some(CouponExpired), c; }
      return None, c;
    }

    /** Marks the coupon used by the order; the caller commits. */
    method RedeemLocked(c: int, u: int, order: int, now: int) returns (error: Option<ShopError>)
      modifies session`db
      ensures error == CouponRefusal(old(session.db), c, now)
      ensures session.db == if error.Some? then old(session.db)
                            else old(session.db).(coupons := old(session.db).coupons[c :=
                                   Redeemed(old(session.db).coupons[c], u, order)])
    {
      if c !in session.db.coupons { return Some(CouponNotFound); }
      var coupon := session.db.coupons[c];
      if coupon.used { return Some(CouponUsed); }
      if coupon.expiresAt.Some? && coupon.expiresAt.value <= now { return Some(CouponExpired); }
      coupon := coupon.(used := true);
      coupon := coupon.(usedBy := Some(u));
      coupon := coupon.(usedOrder := Some(order));
      session.db := session.db.(coupons := session.db.coupons[c := coupon]);
      return None;
    }

    method Delete(c: int) returns (error: Option<ShopError>)
      requires session.Settled()
      modifies session
      ensures error == DeleteCouponRefusal(old(session.db), c)
      ensures session.Settled()
      ensures var commits := Commits(old(session.db), DeleteCoupon(c));
              session.db == Last(old(session.db), commits) && session.history == old(session.history) + commits
    {
      if c !in session.db.coupons { return Some(CouponNotFound); }
      if session.db.coupons[c].used { return Some(CouponUsed); }
      session.db := session.db.(coupons := session.db.coupons - {c});
      session.Commit();
      return None;
    }
  }

  class OrderService {
    const session: Session

    constructor (session: Session)
      ensures this.session == session
    {
      this.session := session;
    }

    /** What follows the debit of a purchase. */
    ghost function ConfirmCommits(db: Db, u: int, id: int, total: int, cash: Cashback): seq<Db>
      requires id in db.orders && db.orders[id].user == u
    {
      if u !in db.customers then []
      else
        var confirmed := ConfirmOrder(db, id);
        match CashbackFor(db, u, total, cash)
        case None => [confirmed]
        case Some((r, amount)) =>
          if r !in confirmed.wallets then []
          else
            var rewarded := Post(confirmed, r, Bonus, amount, CashbackRef(id));
            [rewarded, rewarded]
    }

    lemma PurchaseSplits(
        db: Db, u: int, p: int, quantity: int, coupon: Option<int>, id: int, now: int, cash: Cashback)
      requires PurchaseRefusal(db, u, p, quantity, coupon, id, now) == None
      ensures var o := NewOrder(db, u, p, quantity, coupon, now);
              var paid := PayOrder(db, id, o, coupon);
              && id in paid.orders && paid.orders[id].user == u
              && PurchaseCommits(db, u, p, quantity, coupon, id, now, cash)
                 == [paid] + ConfirmCommits(paid, u, id, o.finalPrice, cash)
    {
      hide CalculatePrice, PercentOf, CashbackFor;
      CashbackUnchanged(db, PayOrder(db, id, NewOrder(db, u, p, quantity, coupon, now), coupon), u, cash);
    }

    lemma CashbackUnchanged(db: Db, db': Db, u: int, cash: Cashback)
      requires db.customers == db'.customers
      ensures forall total :: CashbackFor(db, u, total, cash) == CashbackFor(db', u, total, cash)
    {
    }

    /** A purchase without a coupon; `id` is the order's new key. */
    method CreateAndPay(u: int, p: int, quantity: int, id: int, now: int, cash: Cashback)
      returns (error: Option<ShopError>)
      requires session.Settled() && id !in session.db.orders
      modifies session
      ensures session.Settled()
      ensures var commits := PurchaseCommits(old(session.db), u, p, quantity, None, id, now, cash);
              session.db == Last(old(session.db), commits) && session.history == old(session.history) + commits
      ensures var refusal := PurchaseRefusal(old(session.db), u, p, quantity, None, id, now);
              refusal.Some? ==> error == refusal && session.committed == old(session.committed)
                                && session.history == old(session.history)
      ensures error == None ==> id in session.committed.orders && session.committed.orders[id].user == u
                                && session.committed.orders[id].status.WaitingAdmin?
    {
      hide CalculatePrice, PercentOf, ConfirmCommits, PurchaseCommits;
      ghost var db0 := session.db;
      error := Place(u, p, quantity, id, now);
      PurchaseLength(db0, u, p, quantity, None, id, now, cash);
      if error.Some? { return; }
      PurchaseSplits(db0, u, p, quantity, None, id, now, cash);
      error := Confirm(u, id, session.db.orders[id].finalPrice, cash);
    }

    /** A purchase with a coupon, redeemed in the same transaction as the debit. */
    method CreateAndPayWithCoupon(u: int, p: int, quantity: int, c: int, id: int, now: int, cash: Cashback)
      returns (error: Option<ShopError>)
      requires session.Settled() && id !in session.db.orders
      modifies session
      ensures session.Settled()
      ensures var commits := PurchaseCommits(old(session.db), u, p, quantity, Some(c), id, now, cash);
              session.db == Last(old(session.db), commits) && session.history == old(session.history) + commits
      ensures var refusal := PurchaseRefusal(old(session.db), u, p, quantity, Some(c), id, now);
              refusal.Some? ==> error == refusal && session.committed == old(session.committed)
                                && session.history == old(session.history)
      ensures error == None ==> id in session.committed.orders && session.committed.orders[id].user == u
                                && session.committed.orders[id].status.WaitingAdmin?
    {
      hide CalculatePrice, PercentOf, ConfirmCommits, PurchaseCommits;
      ghost var db0 := session.db;
      error := PlaceWithCoupon(u, p, quantity, c, id, now);
      PurchaseLength(db0, u, p, quantity, Some(c), id, now, cash);
      if error.Some? { return; }
      PurchaseSplits(db0, u, p, quantity, Some(c), id, now, cash);
      error := Confirm(u, id, session.db.orders[id].finalPrice, cash);
    }

    /** The order and its payment, in one commit. */
    method Place(u: int, p: int, quantity: int, id: int, now: int) returns (error: Option<ShopError>)
      requires session.Settled() && id !in session.db.orders
      modifies session
      ensures error == PurchaseRefusal(old(session.db), u, p, quantity, None, id, now)
      ensures session.Settled()
      ensures if error.Some? then session.db == old(session.db) && session.history == old(session.history)
              else var o := NewOrder(old(session.db), u, p, quantity, None, now);
                   && session.db == PayOrder(old(session.db), id, o, None)
                   && session.history == old(session.history) + [session.db]
    {
      hide CalculatePrice, PercentOf;
      if p !in session.db.products || !session.db.products[p].active { return Some(ProductUnavailable); }
      var price := CalculatePrice(session.db.products[p], quantity, now);
      if price.NoPrice? { return Some(PriceFailed(price.error)); }
      var order := Order(u, p, price.quantity, price.unitPrice, price.total, Pending, Manual, None);
      session.db := session.db.(orders := session.db.orders[id := order]);
      var wallets := new WalletService(session);
      error := wallets.Debit(u, price.total, Purchase, OrderRef(id));
      if error.Some? {
        session.Rollback();
      }
    }

    /** The order, the redeemed coupon and the payment, in one commit. */
    method PlaceWithCoupon(u: int, p: int, quantity: int, c: int, id: int, now: int) returns (error: Option<ShopError>)
      requires session.Settled() && id !in session.db.orders
      modifies session
      ensures error == PurchaseRefusal(old(session.db), u, p, quantity, Some(c), id, now)
      ensures session.Settled()
      ensures if error.Some? then session.db == old(session.db) && session.history == old(session.history)
              else var o := NewOrder(old(session.db), u, p, quantity, Some(c), now);
                   && session.db == PayOrder(old(session.db), id, o, Some(c))
                   && session.history == old(session.history) + [session.db]
    {
      hide CalculatePrice, PercentOf;
      ghost var db0 := session.db;
      if p !in session.db.products || !session.db.products[p].active { return Some(ProductUnavailable); }
      var price := CalculatePrice(session.db.products[p], quantity, now);
      if price.NoPrice? { return Some(PriceFailed(price.error)); }
      var order := Order(u, p, price.quantity, price.unitPrice, price.total, Pending, Manual, None);
      session.db := session.db.(orders := session.db.orders[id := order]);
      var coupons := new CouponService(session);
      error := coupons.RedeemLocked(c, u, id, now);
      if error.Some? {
        session.Rollback();
        return;
      }
      var coupon := session.db.coupons[c];
      var discounted := price.total - PercentOf(price.total, coupon.percent);
      order := order.(finalPrice := discounted, coupon := Some(coupon.code));
      assert order == NewOrder(db0, u, p, quantity, Some(c), now);
      session.db := session.db.(orders := session.db.orders[id := order]);
      assert session.db.orders == db0.orders[id := order];
      var wallets := new WalletService(session);
      error := wallets.Debit(u, discounted, Purchase, OrderRef(id));
      if error.Some? {
        session.Rollback();
      }
    }

    /** The order waits for delivery, the buyer's counters move, and the referrer is rewarded. */
    method Confirm(u: int, id: int, total: int, cash: Cashback) returns (error: Option<ShopError>)
      requires session.Settled() && id in session.db.orders && session.db.orders[id].user == u
      requires session.db.orders[id].finalPrice == total
      modifies session
      ensures session.Settled()
      ensures var commits := ConfirmCommits(old(session.db), u, id, total, cash);
              session.db == Last(old(session.db), commits) && session.history == old(session.history) + commits
      ensures error == None ==>
                id in session.db.orders && session.db.orders[id] == old(session.db).orders[id].(status := WaitingAdmin)
    {
      hide PercentOf, ConfirmOrder, CashbackFor, Post;
      ghost var db0 := session.db;
      var order := session.db.orders[id];
      session.db := session.db.(orders := session.db.orders[id := order.(status := WaitingAdmin)]);
      if u !in session.db.customers {
        session.Rollback();
        return Some(NotFound);
      }
      var user := session.db.customers[u];
      user := user.(purchases := user.purchases + 1);
      user := user.(spent := user.spent + total);
      session.db := session.db.(customers := session.db.customers[u := user]);
      ConfirmedIs(db0, session.db, u, id);
      CashbackIs(db0, u, total, cash);
      if user.referredBy.Some? && cash.enabled && cash.percent > 0 {
        var amount := PercentOf(total, cash.percent);
        if amount > 0 && user.referredBy.value in session.db.customers {
          PostLeavesOrders(session.db, user.referredBy.value, amount, id);
          var wallets := new WalletService(session);
          error := wallets.Credit(user.referredBy.value, amount, Bonus, CashbackRef(id));
          if error.Some? {
            session.Rollback();
            return;
          }
        }
      }
      session.Commit();
      return None;
    }

    lemma PostLeavesOrders(db: Db, r: int, amount: int, id: int)
      ensures r in db.wallets ==> Post(db, r, Bonus, amount, CashbackRef(id)).orders == db.orders
    {
    }

    lemma ConfirmedIs(db: Db, db': Db, u: int, id: int)
      requires id in db.orders && u in db.customers && db.orders[id].user == u
      requires var o, c := db.orders[id], db.customers[u];
               var buyer := c.(purchases := c.purchases + 1, spent := c.spent + o.finalPrice);
               db' == db.(orders := db.orders[id := o.(status := WaitingAdmin)],
                          customers := db.customers[u := buyer])
      ensures db' == ConfirmOrder(db, id)
      ensures db'.customers.Keys == db.customers.Keys && db'.wallets == db.wallets
    {
    }

    lemma CashbackIs(db: Db, u: int, total: int, cash: Cashback)
      requires u in db.customers
      ensures var r, amount := db.customers[u].referredBy, PercentOf(total, cash.percent);
              CashbackFor(db, u, total, cash)
              == if r.Some? && cash.enabled && 0 < cash.percent && 0 < amount && r.value in db.customers
                 then Some((r.value, amount)) else None
    {
      hide PercentOf;
    }

    method MarkDelivered(id: int) returns (error: Option<ShopError>)
      requires session.Settled()
      modifies session
      ensures error == DeliveredRefusal(old(session.db), id)
      ensures session.Settled() && session.db == Last(old(session.db), Commits(old(session.db), Call.MarkDelivered(id)))
      ensures session.history == old(session.history) + Commits(old(session.db), Call.MarkDelivered(id))
    {
      if id !in session.db.orders { return Some(NotFound); }
      var order := session.db.orders[id];
      if order.status != WaitingAdmin { return Some(AlreadyProcessed); }
      session.db := session.db.(orders := session.db.orders[id := order.(status := Completed)]);
      session.Commit();
      return None;
    }

    /** The sum of the prices of the orders that wait for delivery or are completed. */
    method TotalRevenue() returns (sum: int)
      ensures sum == Revenue(session.db.orders)
    {
      hide Total;
      var orders := session.db.orders;
      var todo := orders.Keys;
      sum := 0;
      ghost var done: map<int, Order> := map[];
      RevenueOfNone();
      while todo != {}
        invariant todo <= orders.Keys
        invariant done == map id | id in orders && id !in todo :: orders[id]
        invariant sum == Revenue(done)
        decreases |todo|
      {
        ghost var some := Pick(todo);
        var id :| id in todo;
        if orders[id].status in {WaitingAdmin, Completed} {
          sum := sum + orders[id].finalPrice;
        }
        RevenueUpdate(done, id, orders[id]);
        todo, done := todo - {id}, done[id := orders[id]];
      }
      assert done == orders;
    }

    lemma RevenueOfNone()
      ensures Revenue(map[]) == 0
    {
      assert Values(map[]) == map[];
    }
  }
}

/** The promises about orders, coupons and payments, over runs that may crash after any commit. */
module ShopTheorems {
  import opened Options
  import opened Totals
  import opened Pricing
  import opened ShopTables
  import opened ShopCalls
  import opened ShopInvariants
  import opened ShopRuns

  /** Whatever crashes, an order that exists has exactly the one row that pays it, of exactly minus its
      final price, and no such row lacks its order. */
  lemma OrdersArePaidOnce(events: seq<Event>, id: int)
    ensures var db := CrashRun(EMPTY_DB, events);
            var bought, renewed := RowsFor(db.ledger, OrderRef(id)), RowsFor(db.ledger, RenewalOrderRef(id));
            && (id in db.orders ==>
                  PaidOnce(if db.orders[id].delivery.VpnRenewal? then renewed else bought, db.orders[id])
                  && 0 < db.orders[id].finalPrice)
            && (bought != [] ==> id in db.orders && !db.orders[id].delivery.VpnRenewal?)
            && (renewed != [] ==> id in db.orders && db.orders[id].delivery.VpnRenewal?)
  {
    hide CrashRun, RowsFor, WalletsOk, CouponsMatch, RequestsMatch, PaymentsMatch;
    EmptyIsSafe();
    CrashRunIsSafe(EMPTY_DB, events);
  }

  /** A renewal that failed and was marked so has given the money back, once; one that completed has not. */
  lemma RefundsMatchStatus(events: seq<Event>, id: int)
    ensures var db := CrashRun(EMPTY_DB, events);
            var refunds := RowsFor(db.ledger, RenewalRefundRef(id));
            && |refunds| <= 1
            && (id in db.orders && db.orders[id].status.Refunded? ==> RefundedOnce(refunds, db.orders[id]))
            && (id in db.orders && db.orders[id].status.Completed? ==> refunds == [])
  {
    hide CrashRun, RowsFor, WalletsOk, CouponsMatch, RequestsMatch, PaymentsMatch;
    EmptyIsSafe();
    CrashRunIsSafe(EMPTY_DB, events);
  }

  /** Whatever crashes, used coupons and orders that carry a code correspond one to one. */
  lemma CouponsAreUsedOnce(events: seq<Event>)
    ensures var db := CrashRun(EMPTY_DB, events);
            && (forall c :: c in db.coupons && db.coupons[c].used ==>
                  && db.coupons[c].usedOrder.Some? && db.coupons[c].usedOrder.value in db.orders
                  && db.orders[db.coupons[c].usedOrder.value].coupon == Some(db.coupons[c].code))
            && (forall o :: o in db.orders && db.orders[o].coupon.Some? ==>
                  exists c :: UsedBy(db.coupons, c, o, db.orders[o].coupon.value))
            && (forall c, d | c in db.coupons && d in db.coupons && db.coupons[c].used && db.coupons[d].used ::
                  db.coupons[c].usedOrder == db.coupons[d].usedOrder ==> c == d)
  {
    hide CrashRun, WalletsOk, OrdersPaid, RequestsMatch, PaymentsMatch;
    EmptyIsSafe();
    CrashRunIsSafe(EMPTY_DB, events);
  }

  /** The states of a purchase are none when it is refused, and some otherwise. */
  lemma PurchaseLength(
      db: Db, u: int, p: int, quantity: int, coupon: Option<int>, id: int, now: int, cash: Cashback)
    ensures PurchaseRefusal(db, u, p, quantity, coupon, id, now).Some?
            <==> PurchaseCommits(db, u, p, quantity, coupon, id, now, cash) == []
  {
    hide CalculatePrice, PercentOf;
  }

  // ----- what a crash inside a purchase leaves -----

  /** The price that counts as revenue: orders waiting for delivery and completed ones. */
  function Value(o: Order): int {
    if o.status.WaitingAdmin? || o.status.Completed? then o.finalPrice else 0
  }

  ghost function Values(orders: map<int, Order>): map<int, int> {
    map id | id in orders :: Value(orders[id])
  }

  ghost function Revenue(orders: map<int, Order>): int {
    Total(Values(orders))
  }

  lemma RevenueUpdate(orders: map<int, Order>, id: int, o: Order)
    ensures Revenue(orders[id := o])
         == Revenue(orders) + Value(o) - if id in orders then Value(orders[id]) else 0
  {
    hide Total;
    TotalUpdate(Values(orders), id, Value(o));
    assert Values(orders[id := o]) == Values(orders)[id := Value(o)];
  }

  /** The first commit of a purchase pays the order; all later ones show it waiting for delivery. */
  lemma PurchaseStates(
      db: Db, u: int, p: int, quantity: int, coupon: Option<int>, id: int, now: int, cash: Cashback)
    requires PurchaseRefusal(db, u, p, quantity, coupon, id, now) == None && u in db.customers
    requires db.customers.Keys == db.wallets.Keys
    ensures var commits := PurchaseCommits(db, u, p, quantity, coupon, id, now, cash);
            var o := NewOrder(db, u, p, quantity, coupon, now);
            && 2 <= |commits| && commits[0] == PayOrder(db, id, o, coupon)
            && forall i :: 1 <= i < |commits| ==> commits[i].orders == db.orders[id := o.(status := WaitingAdmin)]
  {
    hide CalculatePrice, PercentOf;
    var o := NewOrder(db, u, p, quantity, coupon, now);
    assert db.orders[id := o][id := o.(status := WaitingAdmin)] == db.orders[id := o.(status := WaitingAdmin)];
  }

  /** What a purchase that died after `survive` commits leaves of the order and the money. */
  ghost predicate LeftByCrash(db: Db, db': Db, u: int, id: int, price: int, survive: nat)
    requires u in db.wallets
  {
    match survive
    case 0 => db' == db
    case 1 =>
      && id in db'.orders && db'.orders[id].status.Pending?
      && db'.wallets == db.wallets[u := db.wallets[u] - price]
      && Revenue(db'.orders) == Revenue(db.orders)
    case _ =>
      && id in db'.orders && db'.orders[id].status.WaitingAdmin?
      && Revenue(db'.orders) == Revenue(db.orders) + price
  }

  /**
   * The money of a purchase leaves the wallet with the first commit, the order counts as revenue only
   * from the second: a process that dies in between leaves a paid order in status PENDING.
   */
  lemma CrashPointDecides(
      db: Db, db': Db, u: int, p: int, quantity: int, coupon: Option<int>, id: int, now: int, cash: Cashback,
      survive: nat)
    requires PurchaseRefusal(db, u, p, quantity, coupon, id, now) == None
    requires db' == Persisted(db, Event(Buy(u, p, quantity, coupon, id, now, cash), survive))
    requires Safe(db)
    ensures u in db.wallets && p in db.products && CalculatePrice(db.products[p], quantity, now).Price?
    ensures coupon.Some? ==> coupon.value in db.coupons
    ensures LeftByCrash(db, db', u, id, NewOrder(db, u, p, quantity, coupon, now).finalPrice, survive)
  {
    hide CalculatePrice, PercentOf, Revenue, WalletsOk, OrdersPaid, CouponsMatch, RequestsMatch, PaymentsMatch,
         PurchaseCommits, NewOrder;
    PurchaseBasics(db, u, p, quantity, coupon, id, now);
    if u in db.customers {
      PurchaseStates(db, u, p, quantity, coupon, id, now, cash);
      var o := NewOrder(db, u, p, quantity, coupon, now);
      RevenueUpdate(db.orders, id, o);
      RevenueUpdate(db.orders, id, o.(status := WaitingAdmin));
    }
  }

  /** What a purchase that is not refused presupposes, and the order it places. */
  lemma PurchaseBasics(db: Db, u: int, p: int, quantity: int, coupon: Option<int>, id: int, now: int)
    requires PurchaseRefusal(db, u, p, quantity, coupon, id, now) == None
    ensures u in db.wallets && id !in db.orders
    ensures p in db.products && CalculatePrice(db.products[p], quantity, now).Price?
    ensures coupon.Some? ==> coupon.value in db.coupons
    ensures NewOrder(db, u, p, quantity, coupon, now).user == u
    ensures NewOrder(db, u, p, quantity, coupon, now).status == Pending
  {
    hide CalculatePrice, PercentOf;
  }
}

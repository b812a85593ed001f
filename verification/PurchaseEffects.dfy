/** What a purchase or a renewal costs and moves, said from the rows it finds and not from the code's own prices. */
module PurchaseEffects {
  import opened Options
  import opened Ledgers
  import opened Pricing
  import opened ShopTables
  import opened ShopCalls
  import opened ShopFrames

  /** The percentage of the coupon a purchase brings along. */
  function CouponPercent(db: Db, coupon: Option<int>): int
    requires coupon.Some? ==> coupon.value in db.coupons
  {
    if coupon == None then 0 else db.coupons[coupon.value].percent
  }

  // ----- every coupon is worth 1 to 90 percent -----

  ghost predicate PercentsOk(coupons: map<int, Coupon>) {
    forall c :: c in coupons ==> 1 <= coupons[c].percent <= 90
  }

  lemma PersistedKeepsPercents(db: Db, e: Event)
    requires PercentsOk(db.coupons)
    ensures PercentsOk(Persisted(db, e).coupons)
  {
    hide Commits;
    if e.call.CreateCoupon? {
      var CreateCoupon(c, code, percent, expiresAt) := e.call;
      NewCoupon(db, c, code, percent, expiresAt);
    } else {
      PersistedStays(CouponSide, db, e);
    }
  }

  /** A coupon is created exactly when its percentage is in range and code and key are new. */
  lemma NewCoupon(db: Db, c: int, code: string, percent: int, expiresAt: Option<int>)
    ensures Commits(db, CreateCoupon(c, code, percent, expiresAt))
         == if 1 <= percent <= 90 && c !in db.coupons && (forall d :: d in db.coupons ==> db.coupons[d].code != code)
            then [db.(coupons := db.coupons[c := Coupon(code, percent, expiresAt, false, None, None)])] else []
  {
  }

  lemma {:induction false} RunKeepsPercents(db: Db, events: seq<Event>)
    requires PercentsOk(db.coupons)
    ensures PercentsOk(CrashRun(db, events).coupons)
    decreases |events|
  {
    hide PercentsOk, Persisted;
    if events != [] {
      PersistedKeepsPercents(db, events[0]);
      RunKeepsPercents(Persisted(db, events[0]), events[1..]);
    }
  }

  // ----- when a purchase is accepted -----

  predicate CouponUsable(db: Db, coupon: Option<int>, now: int) {
    coupon == None
    || (coupon.value in db.coupons && !db.coupons[coupon.value].used
        && (db.coupons[coupon.value].expiresAt == None || now < db.coupons[coupon.value].expiresAt.value))
  }

  /** A purchase is accepted exactly when the product is on sale in this quantity, the order is new, the coupon is
      unused and unexpired, and the wallet covers a positive price. */
  lemma PurchaseAcceptedExactly(db: Db, u: int, p: int, quantity: int, coupon: Option<int>, id: int, now: int)
    ensures PurchaseRefusal(db, u, p, quantity, coupon, id, now) == None
            <==> && p in db.products && db.products[p].active && Sells(db.products[p], quantity)
                 && id !in db.orders && CouponUsable(db, coupon, now) && u in db.wallets
                 && CalculatePrice(db.products[p], quantity, now).Price?
                 && 0 < Charged(db.products[p], quantity, now, CouponPercent(db, coupon)) <= db.wallets[u]
  {
    hide CalculatePrice, Sells;
    if p in db.products {
      PriceOfRequest(db.products[p], quantity, now);
      hide PercentOf;
      if CalculatePrice(db.products[p], quantity, now).Price? {
        NoCoupon(CalculatePrice(db.products[p], quantity, now).total);
      }
    }
  }

  lemma NoCoupon(total: int)
    ensures CouponPrice(total, 0) == total
  {
    NoPercent(total);
  }

  // ----- what an accepted purchase writes -----

  /** The order of a purchase and its payment, from the product's row, the request and the coupon's row. */
  ghost predicate OrderedAsAsked(
    db: Db, paid: Db, u: int, p: int, quantity: int, coupon: Option<int>, id: int, now: int)
    requires p in db.products && Sells(db.products[p], quantity) && u in db.wallets
    requires coupon.Some? ==> coupon.value in db.coupons
  {
    && id !in db.orders && id in paid.orders
    && var product, o := db.products[p], paid.orders[id];
       var t, off := ListTotal(product, quantity), ActivePercent(product, now);
       && o.user == u && o.product == p && o.status.Pending? && o.delivery.Manual?
       && o.quantity == Pieces(product, quantity) && o.unitPrice == PriceTag(product)
       && 0 <= 10000 * o.finalPrice - t * (100 - off) * (100 - CouponPercent(db, coupon)) < 20000
       && 1 <= o.finalPrice <= t
       && o.coupon == (if coupon == None then None else Some(db.coupons[coupon.value].code))
       && paid.wallets == db.wallets[u := db.wallets[u] - o.finalPrice]
       && paid.ledger == db.ledger + [Entry(u, Purchase, -o.finalPrice, db.wallets[u], db.wallets[u] - o.finalPrice,
                                            OrderRef(id))]
       && paid.orders == db.orders[id := o] && paid.customers == db.customers
       && paid.coupons == (if coupon == None then db.coupons
                           else
                             var c := db.coupons[coupon.value];
                             var used := Coupon(c.code, c.percent, c.expiresAt, true, Some(u), Some(id));
                             db.coupons[coupon.value := used])
  }

  lemma PurchaseWrites(
      db: Db, paid: Db, u: int, p: int, quantity: int, coupon: Option<int>, id: int, now: int, cash: Cashback)
    requires PurchaseRefusal(db, u, p, quantity, coupon, id, now) == None && PercentsOk(db.coupons)
    requires PurchaseCommits(db, u, p, quantity, coupon, id, now, cash) != []
    requires paid == PurchaseCommits(db, u, p, quantity, coupon, id, now, cash)[0]
    ensures p in db.products && Sells(db.products[p], quantity) && u in db.wallets
    ensures coupon.Some? ==> coupon.value in db.coupons
    ensures OrderedAsAsked(db, paid, u, p, quantity, coupon, id, now)
  {
    hide CalculatePrice, PercentOf, Sells, ListTotal, ActivePercent, ConfirmOrder, CashbackFor, CouponPrice;
    PurchaseAcceptedExactly(db, u, p, quantity, coupon, id, now);
    var product, c := db.products[p], CouponPercent(db, coupon);
    PriceOfRequest(product, quantity, now);
    NothingCostsNothing(ListTotal(product, quantity), ActivePercent(product, now));
    NothingCostsNothing(CalculatePrice(product, quantity, now).total, c);
    StackedDiscounts(product, quantity, now, c);
    NoCoupon(CalculatePrice(product, quantity, now).total);
    FirstCommit(db, u, p, quantity, coupon, id, now, cash);
  }

  /** A request that comes to nothing is never charged, whatever is taken off. */
  lemma NothingCostsNothing(total: int, percent: int)
    requires 0 <= percent <= 90
    ensures total <= 0 ==> CouponPrice(total, percent) <= 0
  {
    if total <= 0 {
      assert 100 * total <= total * percent;
    }
  }

  lemma FirstCommit(db: Db, u: int, p: int, quantity: int, coupon: Option<int>, id: int, now: int, cash: Cashback)
    requires PurchaseRefusal(db, u, p, quantity, coupon, id, now) == None
    ensures var commits := PurchaseCommits(db, u, p, quantity, coupon, id, now, cash);
            commits != [] && commits[0] == PayOrder(db, id, NewOrder(db, u, p, quantity, coupon, now), coupon)
  {
    hide CalculatePrice, PercentOf, CouponPrice;
  }

  /** In any run with crashes after any commit: the first state an accepted purchase commits has the order of exactly
      the requested quantity at the product's own price, less the active discount and the coupon with at most two
      units of rounding in all, and the buyer's wallet and ledger lose exactly that price. */
  lemma PurchaseCostsWhatItShould(
      events: seq<Event>, db: Db, u: int, p: int, quantity: int, coupon: Option<int>, id: int, now: int, cash: Cashback)
    requires db == CrashRun(EMPTY_DB, events)
    requires PurchaseRefusal(db, u, p, quantity, coupon, id, now) == None
    ensures p in db.products && Sells(db.products[p], quantity) && u in db.wallets
    ensures coupon.Some? ==> coupon.value in db.coupons
    ensures var commits := PurchaseCommits(db, u, p, quantity, coupon, id, now, cash);
            commits != [] && OrderedAsAsked(db, commits[0], u, p, quantity, coupon, id, now)
  {
    hide *;
    assert PercentsOk(EMPTY_DB.coupons) by { NoCoupons(); }
    RunKeepsPercents(EMPTY_DB, events);
    FirstCommit(db, u, p, quantity, coupon, id, now, cash);
    var paid := PurchaseCommits(db, u, p, quantity, coupon, id, now, cash)[0];
    PurchaseWrites(db, paid, u, p, quantity, coupon, id, now, cash);
  }

  lemma NoCoupons()
    ensures PercentsOk(EMPTY_DB.coupons)
  {
  }

  // ----- what a completed purchase leaves -----

  /** The referrer who is rewarded for a purchase of `u`, when the reward is `reward`. */
  function Rewarded(db: Db, u: int, cash: Cashback, reward: int): Option<int>
    requires u in db.customers
  {
    var r := db.customers[u].referredBy;
    if r.Some? && r.value in db.customers && cash.enabled && 0 < cash.percent && 0 < reward then r else None
  }

  /** A completed purchase: the order waits for delivery, the buyer has one purchase more and has spent the price, and
      the buyer's referrer, nobody else, gets the whole part of the percentage of the price. */
  lemma PurchaseRewards(
      db: Db, u: int, p: int, quantity: int, coupon: Option<int>, id: int, now: int, cash: Cashback, reward: int)
    requires PurchaseRefusal(db, u, p, quantity, coupon, id, now) == None && u in db.customers
    requires db.customers.Keys == db.wallets.Keys
    requires var commits := PurchaseCommits(db, u, p, quantity, coupon, id, now, cash);
             commits != [] && id in commits[0].orders
             && 100 * reward <= commits[0].orders[id].finalPrice * cash.percent < 100 * (reward + 1)
    ensures var commits := PurchaseCommits(db, u, p, quantity, coupon, id, now, cash);
            var o, db' := commits[0].orders[id], Last(db, commits);
            var c, lucky := db.customers[u], Rewarded(db, u, cash, reward);
            && db'.orders == db.orders[id := o.(status := WaitingAdmin)]
            && db'.customers == db.customers[u := c.(purchases := c.purchases + 1, spent := c.spent + o.finalPrice)]
            && db'.wallets.Keys == db.wallets.Keys
            && (forall v :: v in db.wallets ==>
                  db'.wallets[v] == db.wallets[v] - (if v == u then o.finalPrice else 0)
                                    + (if lucky == Some(v) then reward else 0))
            && (lucky == None ==> db'.ledger == commits[0].ledger)
            && (lucky.Some? ==> |db'.ledger| == |commits[0].ledger| + 1
                                && db'.ledger[|commits[0].ledger|].user == lucky.value
                                && db'.ledger[|commits[0].ledger|].kind == Bonus
                                && db'.ledger[|commits[0].ledger|].amount == reward
                                && db'.ledger[|commits[0].ledger|].ref == CashbackRef(id))
  {
    hide CalculatePrice, CouponPrice, NewOrder, PercentOf;
    FirstCommit(db, u, p, quantity, coupon, id, now, cash);
    NewOrderBasics(db, u, p, quantity, coupon, id, now);
    var o := NewOrder(db, u, p, quantity, coupon, now);
    RewardIsWholePart(o.finalPrice, cash.percent, reward);
    assert db.orders[id := o][id := o.(status := WaitingAdmin)] == db.orders[id := o.(status := WaitingAdmin)];
  }

  lemma NewOrderBasics(db: Db, u: int, p: int, quantity: int, coupon: Option<int>, id: int, now: int)
    requires PurchaseRefusal(db, u, p, quantity, coupon, id, now) == None
    ensures p in db.products && CalculatePrice(db.products[p], quantity, now).Price?
    ensures coupon.Some? ==> coupon.value in db.coupons
    ensures u in db.wallets && NewOrder(db, u, p, quantity, coupon, now).user == u
    ensures NewOrder(db, u, p, quantity, coupon, now).delivery == Manual
  {
    hide CalculatePrice, PercentOf;
  }

  lemma RewardIsWholePart(price: int, percent: int, reward: int)
    requires 100 * reward <= price * percent < 100 * (reward + 1)
    ensures PercentOf(price, percent) == reward
  {
  }

  // ----- renewals -----

  /** A renewal costs the product's current price: the fixed price of a FIXED product, the unit price of any other. */
  predicate RenewalCosts(product: Product, price: int) {
    && product.active && 0 < price
    && (product.kind.Fixed? ==> product.fixedPrice == Some(price))
    && (!product.kind.Fixed? ==> product.unitPrice == Some(price))
  }

  /** An automatic renewal is accepted exactly when the service is the caller's, its product is on sale at a positive
      price and the wallet covers it. */
  lemma RenewalAcceptedExactly(db: Db, u: int, s: int, id: int)
    ensures AutoRenewRefusal(db, u, s, id) == None
            <==> && s in db.services && db.services[s].user == u && db.services[s].product.Some?
                 && db.services[s].product.value in db.products && id !in db.orders && u in db.wallets
                 && exists price :: RenewalCosts(db.products[db.services[s].product.value], price)
                                    && price <= db.wallets[u]
  {
    if AutoRenewRefusal(db, u, s, id) == None {
      assert RenewalCosts(db.products[db.services[s].product.value], RenewalPrice(db, u, s).value.1);
    }
  }

  /** The states of an accepted renewal: paid at the product's price; then the new date and the order completed, or
      the same price back and the order refunded. */
  lemma RenewalWrites(db: Db, u: int, s: int, id: int, answer: RenewalAnswer, price: int)
    requires AutoRenewRefusal(db, u, s, id) == None
    requires s in db.services && db.services[s].product.Some? && db.services[s].product.value in db.products
    requires RenewalCosts(db.products[db.services[s].product.value], price)
    ensures u in db.wallets
    ensures var commits := AutoRenewCommits(db, u, s, id, answer);
            && |commits| == 3 && id in commits[0].orders && id in commits[2].orders && s in commits[2].services
            && commits[0].wallets == db.wallets[u := db.wallets[u] - price]
            && var o := commits[0].orders[id];
               && o.user == u && Some(o.product) == db.services[s].product && o.quantity == 1
               && o.unitPrice == price == o.finalPrice && o.status.Pending? && o.delivery.VpnRenewal?
               && commits[0].ledger == db.ledger + [Entry(u, Purchase, -price, db.wallets[u], db.wallets[u] - price,
                                                          RenewalOrderRef(id))]
               && match answer
                  case Extended(date) =>
                    && commits[2].orders[id] == o.(status := Completed)
                    && commits[2].wallets == commits[0].wallets && commits[2].ledger == commits[0].ledger
                    && commits[1].services == commits[2].services
                    && commits[2].services == db.services[s := db.services[s].(expiresAt := date)]
                  case Failed =>
                    && commits[2].orders[id] == o.(status := Refunded)
                    && commits[1].wallets == commits[2].wallets == db.wallets && commits[2].services == db.services
  {
    RenewalPriceIs(db, u, s, price);
    hide RenewalPrice;
    assert db.wallets[u := db.wallets[u] - price][u := db.wallets[u]] == db.wallets;
  }

  lemma RenewalPriceIs(db: Db, u: int, s: int, price: int)
    requires RenewalPrice(db, u, s).Some? && s in db.services
    requires db.services[s].product.Some? && db.services[s].product.value in db.products
    requires RenewalCosts(db.products[db.services[s].product.value], price)
    ensures RenewalPrice(db, u, s).value == (db.services[s].product.value, price)
  {
  }

  /** `VPNRenewalService` accepts exactly the caller's own service, bought with an order of a VPN product that sells a
      single piece, on an active panel, at a positive price the wallet covers. */
  lemma VpnRenewalAcceptedExactly(db: Db, u: int, s: int, panelActive: bool, now: int)
    ensures VpnRenewRefusal(db, u, s, panelActive, now) == None
            <==> && panelActive && u in db.wallets
                 && s in db.services && db.services[s].user == u && db.services[s].order.Some?
                 && db.services[s].order.value in db.orders
                 && db.orders[db.services[s].order.value].product in db.products
                 && var product := db.products[db.orders[db.services[s].order.value].product];
                    && product.isVpn && Sells(product, 1) && CalculatePrice(product, 1, now).Price?
                    && 0 < CalculatePrice(product, 1, now).total <= db.wallets[u]
  {
    hide CalculatePrice, Sells;
    if && s in db.services && db.services[s].order.Some? && db.services[s].order.value in db.orders
       && db.orders[db.services[s].order.value].product in db.products {
      PriceOfRequest(db.products[db.orders[db.services[s].order.value].product], 1, now);
    }
  }

  /** `VPNRenewalService` charges one piece of the product the service was bought with, less its active discount, and
      gives exactly that back when the panel fails. */
  lemma VpnRenewalWrites(db: Db, u: int, s: int, panelActive: bool, now: int, answer: RenewalAnswer)
    requires VpnRenewRefusal(db, u, s, panelActive, now) == None
    ensures panelActive && s in db.services && db.services[s].user == u && db.services[s].order.Some? && u in db.wallets
    ensures db.services[s].order.value in db.orders && db.orders[db.services[s].order.value].product in db.products
    ensures var product := db.products[db.orders[db.services[s].order.value].product];
            var commits := VpnRenewCommits(db, u, s, panelActive, now, answer);
            && product.isVpn && Sells(product, 1) && |commits| == 2
            && u in commits[0].wallets
            && var price := db.wallets[u] - commits[0].wallets[u];
               && 0 < price && commits[0].wallets == db.wallets[u := db.wallets[u] - price]
               && 0 <= 100 * price - ListTotal(product, 1) * (100 - ActivePercent(product, now)) < 100
               && match answer
                  case Extended(date) =>
                    && commits[1].wallets == commits[0].wallets
                    && commits[1].services == db.services[s := db.services[s].(expiresAt := date)]
                  case Failed => commits[1].wallets == db.wallets && commits[1].services == db.services
  {
    hide CalculatePrice, Sells, ListTotal, ActivePercent;
    var product := db.products[db.orders[db.services[s].order.value].product];
    PriceOfRequest(product, 1, now);
    var price := CalculatePrice(product, 1, now).total;
    assert db.wallets[u := db.wallets[u] - price][u := db.wallets[u]] == db.wallets;
  }
}

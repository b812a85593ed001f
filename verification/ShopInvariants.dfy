/** What holds in every state any toman call commits, so also after a crash at any commit. */
module ShopInvariants {
  import opened Options
  import opened Totals
  import opened Ledgers
  import opened ShopTables
  import opened ShopCalls

  // ----- orders and their ledger rows -----

  /** One row pays the order: exactly minus its final price, from its buyer. */
  ghost predicate PaidOnce(rows: seq<WalletRow>, o: Order) {
    |rows| == 1 && rows[0].user == o.user && rows[0].kind == Purchase && rows[0].amount == -o.finalPrice
  }

  ghost predicate RefundedOnce(rows: seq<WalletRow>, o: Order) {
    |rows| == 1 && rows[0].user == o.user && rows[0].kind == Refund && rows[0].amount == o.finalPrice
  }

  /** The rows of an order that exists, by reference: purchase, renewal payment, renewal refund, cashback. */
  ghost predicate OrderRows(
    o: Order, bought: seq<WalletRow>, renewed: seq<WalletRow>, refunds: seq<WalletRow>, cashback: seq<WalletRow>)
  {
    && 0 < o.finalPrice
    && (o.status.Pending? && !o.delivery.VpnRenewal? ==> cashback == [])
    && (if o.delivery.VpnRenewal? then
          && bought == [] && PaidOnce(renewed, o) && cashback == []
          && !o.status.WaitingAdmin?
          && (o.status.Completed? ==> refunds == [])
          && (o.status.Refunded? ==> RefundedOnce(refunds, o))
          && (o.status.Pending? ==> refunds == [] || RefundedOnce(refunds, o))
        else
          && PaidOnce(bought, o) && renewed == [] && refunds == []
          && !o.status.Refunded?
          && (cashback == [] || (|cashback| == 1 && cashback[0].kind == Bonus && 0 < cashback[0].amount)))
  }

  ghost predicate OrdersPaid(orders: map<int, Order>, l: seq<WalletRow>) {
    forall id ::
      var bought, renewed, refunds, cashback :=
        RowsFor(l, OrderRef(id)), RowsFor(l, RenewalOrderRef(id)),
        RowsFor(l, RenewalRefundRef(id)), RowsFor(l, CashbackRef(id));
      if id in orders then OrderRows(orders[id], bought, renewed, refunds, cashback)
      else bought == [] && renewed == [] && refunds == [] && cashback == []
  }

  // ----- coupons and the orders that used them -----

  ghost predicate UsedBy(coupons: map<int, Coupon>, c: int, o: int, code: string) {
    c in coupons && coupons[c].used && coupons[c].usedOrder == Some(o) && coupons[c].code == code
  }

  /** Used coupons and orders that carry a code stand in one-to-one correspondence. */
  ghost predicate CouponsMatch(orders: map<int, Order>, coupons: map<int, Coupon>) {
    && (forall c, d :: c in coupons && d in coupons && coupons[c].code == coupons[d].code ==> c == d)
    && (forall c :: c in coupons ==> 0 < coupons[c].percent <= 90 && (coupons[c].used <==> coupons[c].usedOrder.Some?))
    && (forall c :: c in coupons && coupons[c].used ==>
          coupons[c].usedOrder.value in orders && orders[coupons[c].usedOrder.value].coupon == Some(coupons[c].code))
    && (forall o :: o in orders && orders[o].coupon.Some? ==>
          exists c :: UsedBy(coupons, c, o, orders[o].coupon.value))
  }

  // ----- deposits and payments -----

  ghost predicate CreditedOnce(rows: seq<WalletRow>, user: int) {
    |rows| == 1 && rows[0].user == user && rows[0].kind == Deposit
  }

  ghost predicate RequestsMatch(requests: map<int, Request>, l: seq<WalletRow>) {
    forall id ::
      var rows := RowsFor(l, DepositRef(id));
      if id in requests && requests[id].kind.Rial? && requests[id].status.Approved?
      then CreditedOnce(rows, requests[id].user) && rows[0].amount == requests[id].amount
      else rows == []
  }

  /** At most one credit per payment, never less than invoiced; a paid payment has its credit. */
  ghost predicate PaymentsMatch(payments: map<int, Payment>, l: seq<WalletRow>) {
    forall p ::
      var rows := RowsFor(l, PaymentRef(p));
      && (rows == [] || (p in payments && CreditedOnce(rows, payments[p].user) && payments[p].amount <= rows[0].amount))
      && (p in payments ==> (payments[p].status.Paid? ==> rows != []) && 0 < payments[p].amount)
  }

  ghost predicate Safe(db: Db) {
    && WalletsOk(db.wallets, db.ledger)
    && db.customers.Keys == db.wallets.Keys
    && OrdersPaid(db.orders, db.ledger)
    && CouponsMatch(db.orders, db.coupons)
    && RequestsMatch(db.requests, db.ledger)
    && PaymentsMatch(db.payments, db.ledger)
  }

  // ----- single commits -----

  /** References whose rows no clause of `Safe` looks at. */
  predicate Free(ref: Ref) {
    ref.VpnRenewRef? || ref.VpnRenewRefundRef? || ref.TournamentEntryRef? || ref.TournamentCancelRef?
    || ref.TournamentPrizeRef?
  }

  predicate OfOrder(ref: Ref) {
    ref.OrderRef? || ref.RenewalOrderRef? || ref.RenewalRefundRef? || ref.CashbackRef?
  }

  lemma PostKeepsOrders(db: Db, u: int, kind: WalletKind, amount: int, ref: Ref)
    requires u in db.wallets && !OfOrder(ref) && OrdersPaid(db.orders, db.ledger)
    ensures OrdersPaid(db.orders, Post(db, u, kind, amount, ref).ledger)
  {
    hide RowsFor, SumWhere, OrderRows;
    PostRows(db, u, kind, amount, ref);
  }

  lemma PostKeepsRequests(db: Db, u: int, kind: WalletKind, amount: int, ref: Ref)
    requires u in db.wallets && !ref.DepositRef? && RequestsMatch(db.requests, db.ledger)
    ensures RequestsMatch(db.requests, Post(db, u, kind, amount, ref).ledger)
  {
    hide RowsFor, SumWhere;
    PostRows(db, u, kind, amount, ref);
  }

  lemma PostKeepsPayments(db: Db, u: int, kind: WalletKind, amount: int, ref: Ref)
    requires u in db.wallets && !ref.PaymentRef? && PaymentsMatch(db.payments, db.ledger)
    ensures PaymentsMatch(db.payments, Post(db, u, kind, amount, ref).ledger)
  {
    hide RowsFor, SumWhere;
    PostRows(db, u, kind, amount, ref);
  }

  /** A posting keeps every clause that does not look at its reference. */
  lemma PostKeepsOthers(db: Db, u: int, kind: WalletKind, amount: int, ref: Ref)
    requires u in db.wallets && 0 <= db.wallets[u] + amount
    requires WalletsOk(db.wallets, db.ledger)
    ensures var db' := Post(db, u, kind, amount, ref);
            && WalletsOk(db'.wallets, db'.ledger)
            && (!OfOrder(ref) && OrdersPaid(db.orders, db.ledger) ==> OrdersPaid(db'.orders, db'.ledger))
            && (!ref.DepositRef? && RequestsMatch(db.requests, db.ledger) ==> RequestsMatch(db'.requests, db'.ledger))
            && (!ref.PaymentRef? && PaymentsMatch(db.payments, db.ledger) ==> PaymentsMatch(db'.payments, db'.ledger))
  {
    hide WalletsOk, OrdersPaid, RequestsMatch, PaymentsMatch;
    PostKeepsWallets(db, u, kind, amount, ref);
    if !OfOrder(ref) && OrdersPaid(db.orders, db.ledger) { PostKeepsOrders(db, u, kind, amount, ref); }
    if !ref.DepositRef? && RequestsMatch(db.requests, db.ledger) { PostKeepsRequests(db, u, kind, amount, ref); }
    if !ref.PaymentRef? && PaymentsMatch(db.payments, db.ledger) { PostKeepsPayments(db, u, kind, amount, ref); }
  }

  lemma FreePostIsSafe(db: Db, u: int, kind: WalletKind, amount: int, ref: Ref)
    requires u in db.wallets && 0 <= db.wallets[u] + amount && Free(ref)
    requires Safe(db)
    ensures Safe(Post(db, u, kind, amount, ref))
  {
    hide WalletsOk, OrdersPaid, RequestsMatch, PaymentsMatch, CouponsMatch;
    PostKeepsOthers(db, u, kind, amount, ref);
  }

  /** A commit that moves no money and touches none of the tables the clauses relate. */
  lemma SameTablesIsSafe(db: Db, db': Db)
    requires db'.customers.Keys == db.customers.Keys && db'.wallets == db.wallets && db'.ledger == db.ledger
    requires db'.orders == db.orders && db'.coupons == db.coupons
    requires db'.requests == db.requests && db'.payments == db.payments
    requires Safe(db)
    ensures Safe(db')
  {
    hide WalletsOk, OrdersPaid, CouponsMatch, RequestsMatch, PaymentsMatch;
  }

  lemma SignupIsSafe(db: Db, u: int, c: Customer)
    requires u !in db.wallets
    requires Safe(db)
    ensures Safe(db.(customers := db.customers[u := c], wallets := db.wallets[u := 0]))
  {
    hide OrdersPaid, CouponsMatch, RequestsMatch, PaymentsMatch, SumWhere, Chained, Latest;
    NoRows(db.ledger, u, ByUser(u));
    TotalUpdate(db.wallets, u, 0);
  }

  lemma CouponsRedeemed(orders: map<int, Order>, coupons: map<int, Coupon>, id: int, o: Order, c: int)
    requires id !in orders && c in coupons && !coupons[c].used && o.coupon == Some(coupons[c].code)
    requires CouponsMatch(orders, coupons)
    ensures CouponsMatch(orders[id := o], coupons[c := Redeemed(coupons[c], o.user, id)])
  {
    var orders', coupons' := orders[id := o], coupons[c := Redeemed(coupons[c], o.user, id)];
    forall p | p in orders' && orders'[p].coupon.Some?
      ensures exists d :: UsedBy(coupons', d, p, orders'[p].coupon.value)
    {
      if p == id {
        assert UsedBy(coupons', c, p, orders'[p].coupon.value);
      } else {
        var d :| UsedBy(coupons, d, p, orders[p].coupon.value);
        assert UsedBy(coupons', d, p, orders'[p].coupon.value);
      }
    }
  }

  /** Adding an order without a code, or changing an order but not its code. */
  lemma CouponsKeep(orders: map<int, Order>, coupons: map<int, Coupon>, id: int, o: Order)
    requires if id in orders then o.coupon == orders[id].coupon else o.coupon == None
    requires CouponsMatch(orders, coupons)
    ensures CouponsMatch(orders[id := o], coupons)
  {
  }

  lemma PayOrderRows(db: Db, id: int, o: Order, coupon: Option<int>)
    requires id !in db.orders && o.status.Pending? && 0 < o.finalPrice && o.user in db.wallets
    requires coupon.Some? ==> coupon.value in db.coupons
    requires OrdersPaid(db.orders, db.ledger)
    ensures var db' := PayOrder(db, id, o, coupon); OrdersPaid(db'.orders, db'.ledger)
  {
    hide RowsFor, SumWhere, OrderRows;
    var ordered := db.(orders := db.orders[id := o], coupons := PayOrder(db, id, o, coupon).coupons);
    PostSelects(ordered, o.user, Purchase, -o.finalPrice, PayRef(id, o));
    var db' := PayOrder(db, id, o, coupon);
    var e := db'.ledger[|db.ledger|];
    FreshlyPaid(o, e);
    forall k
      ensures var bought, renewed, refunds, cashback :=
                RowsFor(db'.ledger, OrderRef(k)), RowsFor(db'.ledger, RenewalOrderRef(k)),
                RowsFor(db'.ledger, RenewalRefundRef(k)), RowsFor(db'.ledger, CashbackRef(k));
              if k in db'.orders then OrderRows(db'.orders[k], bought, renewed, refunds, cashback)
              else bought == [] && renewed == [] && refunds == [] && cashback == []
    {
      if k == id {
        assert RowsFor(db.ledger, PayRef(id, o)) + [e] == [e];
      }
    }
  }

  /** A new order with its payment and nothing else. */
  lemma FreshlyPaid(o: Order, e: WalletRow)
    requires o.status.Pending? && 0 < o.finalPrice
    requires e.user == o.user && e.kind == Purchase && e.amount == -o.finalPrice
    ensures OrderRows(o, if o.delivery.VpnRenewal? then [] else [e], if o.delivery.VpnRenewal? then [e] else [], [], [])
  {
  }

  lemma PayOrderIsSafe(db: Db, id: int, o: Order, coupon: Option<int>)
    requires id !in db.orders && o.status.Pending? && 0 < o.finalPrice
    requires o.user in db.wallets && o.finalPrice <= db.wallets[o.user]
    requires match coupon
             case None => o.coupon == None
             case Some(c) => c in db.coupons && !db.coupons[c].used && o.coupon == Some(db.coupons[c].code)
    requires Safe(db)
    ensures Safe(PayOrder(db, id, o, coupon))
  {
    hide WalletsOk, OrdersPaid, RequestsMatch, PaymentsMatch, CouponsMatch;
    PayOrderRows(db, id, o, coupon);
    var ordered := db.(orders := db.orders[id := o], coupons := PayOrder(db, id, o, coupon).coupons);
    PostKeepsOthers(ordered, o.user, Purchase, -o.finalPrice, PayRef(id, o));
    if coupon.Some? {
      CouponsRedeemed(db.orders, db.coupons, id, o, coupon.value);
    } else {
      CouponsKeep(db.orders, db.coupons, id, o);
    }
  }

  /** Changing an order's status or delivery where its ledger rows allow it. */
  lemma OrderUpdateIsSafe(db: Db, id: int, o: Order)
    requires id in db.orders && o.coupon == db.orders[id].coupon
    requires OrderRows(o, RowsFor(db.ledger, OrderRef(id)), RowsFor(db.ledger, RenewalOrderRef(id)),
                       RowsFor(db.ledger, RenewalRefundRef(id)), RowsFor(db.ledger, CashbackRef(id)))
    requires Safe(db)
    ensures Safe(db.(orders := db.orders[id := o]))
  {
    hide WalletsOk, RowsFor, CouponsMatch, RequestsMatch, PaymentsMatch, OrderRows;
    CouponsKeep(db.orders, db.coupons, id, o);
  }

  /** What `Safe` says of one order's rows. */
  lemma OrderFacts(db: Db, id: int)
    requires id in db.orders
    requires Safe(db)
    ensures OrderRows(db.orders[id], RowsFor(db.ledger, OrderRef(id)), RowsFor(db.ledger, RenewalOrderRef(id)),
                      RowsFor(db.ledger, RenewalRefundRef(id)), RowsFor(db.ledger, CashbackRef(id)))
  {
    hide WalletsOk, RowsFor, CouponsMatch, RequestsMatch, PaymentsMatch, OrderRows;
  }

  lemma ConfirmIsSafe(db: Db, id: int)
    requires id in db.orders && db.orders[id].user in db.customers
    requires db.orders[id].status.Pending? && !db.orders[id].delivery.VpnRenewal?
    requires Safe(db)
    ensures Safe(ConfirmOrder(db, id))
    ensures RowsFor(ConfirmOrder(db, id).ledger, CashbackRef(id)) == []
  {
    hide Safe, RowsFor;
    OrderFacts(db, id);
    var o := db.orders[id].(status := WaitingAdmin);
    OrderUpdateIsSafe(db, id, o);
    SameTablesIsSafe(db.(orders := db.orders[id := o]), ConfirmOrder(db, id));
  }

  lemma CashbackRows(db: Db, id: int, r: int, amount: int)
    requires r in db.wallets && 0 < amount && id in db.orders && db.orders[id].status.WaitingAdmin?
    requires RowsFor(db.ledger, CashbackRef(id)) == [] && OrdersPaid(db.orders, db.ledger)
    ensures OrdersPaid(db.orders, Post(db, r, Bonus, amount, CashbackRef(id)).ledger)
  {
    hide RowsFor, SumWhere;
    PostRows(db, r, Bonus, amount, CashbackRef(id));
  }

  lemma CashbackIsSafe(db: Db, id: int, r: int, amount: int)
    requires r in db.wallets && 0 < amount && id in db.orders && db.orders[id].status.WaitingAdmin?
    requires RowsFor(db.ledger, CashbackRef(id)) == []
    requires Safe(db)
    ensures Safe(Post(db, r, Bonus, amount, CashbackRef(id)))
  {
    hide WalletsOk, OrdersPaid, RequestsMatch, PaymentsMatch, CouponsMatch, RowsFor;
    WalletNotNegative(db, r);
    CashbackRows(db, id, r, amount);
    PostKeepsOthers(db, r, Bonus, amount, CashbackRef(id));
  }

  lemma WalletNotNegative(db: Db, u: int)
    requires u in db.wallets
    requires Safe(db)
    ensures 0 <= db.wallets[u]
  {
    hide OrdersPaid, CouponsMatch, RequestsMatch, PaymentsMatch;
  }

  lemma RenewalRefundRows(db: Db, id: int)
    requires id in db.orders && db.orders[id].delivery.VpnRenewal? && db.orders[id].status.Pending?
    requires db.orders[id].user in db.wallets && RowsFor(db.ledger, RenewalRefundRef(id)) == []
    requires OrdersPaid(db.orders, db.ledger)
    ensures var db' := Post(db, db.orders[id].user, Refund, db.orders[id].finalPrice, RenewalRefundRef(id));
            && OrdersPaid(db'.orders, db'.ledger)
            && RefundedOnce(RowsFor(db'.ledger, RenewalRefundRef(id)), db'.orders[id])
  {
    hide RowsFor, SumWhere;
    PostRows(db, db.orders[id].user, Refund, db.orders[id].finalPrice, RenewalRefundRef(id));
  }

  lemma RenewalRefundIsSafe(db: Db, id: int)
    requires id in db.orders && db.orders[id].delivery.VpnRenewal? && db.orders[id].status.Pending?
    requires db.orders[id].user in db.wallets && RowsFor(db.ledger, RenewalRefundRef(id)) == []
    requires Safe(db)
    ensures var db' := Post(db, db.orders[id].user, Refund, db.orders[id].finalPrice, RenewalRefundRef(id));
            Safe(db') && RefundedOnce(RowsFor(db'.ledger, RenewalRefundRef(id)), db'.orders[id])
  {
    hide WalletsOk, RequestsMatch, PaymentsMatch, CouponsMatch, RowsFor, OrderRows, PaidOnce, RefundedOnce;
    var o := db.orders[id];
    WalletNotNegative(db, o.user);
    OrderFacts(db, id);
    PositivePrice(db, id);
    RenewalRefundRows(db, id);
    PostKeepsOthers(db, o.user, Refund, o.finalPrice, RenewalRefundRef(id));
  }

  lemma PositivePrice(db: Db, id: int)
    requires id in db.orders
    requires Safe(db)
    ensures 0 < db.orders[id].finalPrice
  {
    OrderFacts(db, id);
  }

  lemma ApproveIsSafe(db: Db, id: int)
    requires ApproveRefusal(db, id) == None
    requires Safe(db)
    ensures Safe(Decided(db, id))
  {
    hide WalletsOk, OrdersPaid, PaymentsMatch, CouponsMatch, RequestsMatch;
    var r := db.requests[id];
    var marked := db.(requests := db.requests[id := r.(status := Approved)]);
    DecidedRows(db, id);
    if r.kind.Rial? {
      WalletNotNegative(db, r.user);
      PostKeepsOthers(marked, r.user, Deposit, r.amount, DepositRef(id));
    }
  }

  lemma DecidedRows(db: Db, id: int)
    requires ApproveRefusal(db, id) == None && RequestsMatch(db.requests, db.ledger)
    ensures RequestsMatch(Decided(db, id).requests, Decided(db, id).ledger)
  {
    hide RowsFor, SumWhere;
    var r := db.requests[id];
    if r.kind.Rial? {
      PostRows(db.(requests := db.requests[id := r.(status := Approved)]), r.user, Deposit, r.amount, DepositRef(id));
    }
  }

  /** A new or undecided request has no ledger row. */
  lemma RequestIsSafe(db: Db, id: int, r: Request)
    requires id in db.requests ==> db.requests[id].status.AwaitingDecision?
    requires !r.status.Approved?
    requires Safe(db)
    ensures Safe(db.(requests := db.requests[id := r]))
  {
    hide WalletsOk, RowsFor, CouponsMatch, OrdersPaid, PaymentsMatch;
  }

  /** Changing a payment row: user and invoice stay, and `Paid` needs the credit to be there. */
  lemma MarkPaymentIsSafe(db: Db, p: int, row: Payment)
    requires 0 < row.amount
    requires p in db.payments ==> row.user == db.payments[p].user && row.amount == db.payments[p].amount
    requires row.status.Paid? ==> RowsFor(db.ledger, PaymentRef(p)) != []
    requires Safe(db)
    ensures Safe(MarkPayment(db, p, row))
  {
    hide WalletsOk, RowsFor, CouponsMatch, OrdersPaid, RequestsMatch;
  }

  lemma CreditPaymentRows(db: Db, p: int, row: Payment, amount: int)
    requires p in db.payments && row.user == db.payments[p].user && row.amount == db.payments[p].amount <= amount
    requires !row.status.Paid? && row.user in db.wallets
    requires RowsFor(db.ledger, PaymentRef(p)) == [] && PaymentsMatch(db.payments, db.ledger)
    ensures var db' := CreditPayment(db, p, row, amount);
            && PaymentsMatch(db'.payments, db'.ledger)
            && CreditedOnce(RowsFor(db'.ledger, PaymentRef(p)), row.user)
            && RowsFor(db'.ledger, PaymentRef(p))[0].amount == amount
  {
    hide RowsFor, SumWhere;
    PostRows(MarkPayment(db, p, row), row.user, Deposit, amount, PaymentRef(p));
  }

  lemma CreditPaymentIsSafe(db: Db, p: int, row: Payment, amount: int)
    requires p in db.payments && row.user == db.payments[p].user && row.amount == db.payments[p].amount <= amount
    requires !row.status.Paid? && row.user in db.wallets && 0 < amount
    requires RowsFor(db.ledger, PaymentRef(p)) == []
    requires Safe(db)
    ensures Safe(CreditPayment(db, p, row, amount))
  {
    hide WalletsOk, OrdersPaid, RequestsMatch, PaymentsMatch, CouponsMatch, RowsFor;
    WalletNotNegative(db, row.user);
    CreditPaymentRows(db, p, row, amount);
    PostKeepsOthers(MarkPayment(db, p, row), row.user, Deposit, amount, PaymentRef(p));
  }

  /** Looking for a row by reference finds out whether there is one. */
  lemma {:induction false} HasRowSelects(l: seq<WalletRow>, ref: Ref)
    ensures RowsFor(l, ref) == [] <==> forall i :: 0 <= i < |l| ==> l[i].ref != ref
  {
    if l != [] {
      HasRowSelects(l[..|l| - 1], ref);
    }
  }
}

/** Every commit of every toman call is safe; what that says of orders, coupons and payments. */
module ShopRuns {
  import opened Options
  import opened Ledgers
  import opened Pricing
  import opened ShopTables
  import opened ShopCalls
  import opened ShopInvariants

  ghost predicate AllSafe(commits: seq<Db>) {
    forall i :: 0 <= i < |commits| ==> Safe(commits[i])
  }

  lemma EmptyIsSafe()
    ensures Safe(EMPTY_DB)
  {
  }

  /** A new order has no rows yet, and after it is paid none but its payment. */
  lemma FreshOrder(db: Db, id: int, o: Order, coupon: Option<int>)
    requires id !in db.orders && o.user in db.wallets && (coupon.Some? ==> coupon.value in db.coupons)
    requires Safe(db)
    ensures var l := PayOrder(db, id, o, coupon).ledger;
            RowsFor(l, CashbackRef(id)) == [] && RowsFor(l, RenewalRefundRef(id)) == []
  {
    hide WalletsOk, RowsFor, CouponsMatch, RequestsMatch, PaymentsMatch, SumWhere, OrderRows;
    var ordered := db.(orders := db.orders[id := o], coupons := PayOrder(db, id, o, coupon).coupons);
    PostRows(ordered, o.user, Purchase, -o.finalPrice, PayRef(id, o));
  }

  lemma PurchaseIsSafe(db: Db, u: int, p: int, quantity: int, coupon: Option<int>, id: int, now: int, cash: Cashback)
    requires Safe(db)
    ensures AllSafe(PurchaseCommits(db, u, p, quantity, coupon, id, now, cash))
  {
    hide Safe, CalculatePrice, PercentOf, RowsFor;
    if PurchaseRefusal(db, u, p, quantity, coupon, id, now) == None {
      var o := NewOrder(db, u, p, quantity, coupon, now);
      var paid := PayOrder(db, id, o, coupon);
      PayOrderIsSafe(db, id, o, coupon);
      FreshOrder(db, id, o, coupon);
      SameUsers(db);
      var confirmed := ConfirmOrder(paid, id);
      ConfirmIsSafe(paid, id);
      if CashbackFor(db, u, o.finalPrice, cash).Some? {
        var (r, amount) := CashbackFor(db, u, o.finalPrice, cash).value;
        CashbackIsSafe(confirmed, id, r, amount);
      }
    }
  }

  lemma SameUsers(db: Db)
    requires Safe(db)
    ensures db.customers.Keys == db.wallets.Keys
  {
  }

  lemma DeliverIsSafe(db: Db, id: int, delivery: Delivery)
    requires id in db.orders && db.orders[id].status.WaitingAdmin? && !delivery.VpnRenewal?
    requires Safe(db)
    ensures Safe(db.(orders := db.orders[id := db.orders[id].(status := Completed, delivery := delivery)]))
  {
    hide Safe, RowsFor;
    OrderFacts(db, id);
    OrderUpdateIsSafe(db, id, db.orders[id].(status := Completed, delivery := delivery));
  }

  lemma AutoDeliverIsSafe(db: Db, id: int, answer: Option<(int, Service)>)
    requires Safe(db)
    ensures AllSafe(AutoDeliverCommits(db, id, answer))
  {
    hide Safe;
    if AutoDeliverCommits(db, id, answer) != [] {
      var served := db.(services := db.services[answer.value.0 := answer.value.1]);
      SameTablesIsSafe(db, served);
      DeliverIsSafe(served, id, Api);
    }
  }

  lemma AutoRenewIsSafe(db: Db, u: int, s: int, id: int, answer: RenewalAnswer)
    requires Safe(db)
    ensures AllSafe(AutoRenewCommits(db, u, s, id, answer))
  {
    hide Safe, RowsFor;
    if AutoRenewRefusal(db, u, s, id) == None {
      var (p, price) := RenewalPrice(db, u, s).value;
      var o := Order(u, p, 1, price, price, Pending, VpnRenewal, None);
      var paid := PayOrder(db, id, o, None);
      PayOrderIsSafe(db, id, o, None);
      FreshOrder(db, id, o, None);
      match answer
      case Extended(expiresAt) =>
        var extended := paid.(services := paid.services[s := paid.services[s].(expiresAt := expiresAt)]);
        SameTablesIsSafe(paid, extended);
        OrderFacts(extended, id);
        OrderUpdateIsSafe(extended, id, o.(status := Completed));
      case Failed =>
        RenewalRefundIsSafe(paid, id);
        var refunded := Post(paid, u, Refund, price, RenewalRefundRef(id));
        OrderFacts(refunded, id);
        OrderUpdateIsSafe(refunded, id, o.(status := Refunded));
    }
  }

  lemma VpnRenewIsSafe(db: Db, u: int, s: int, panelActive: bool, now: int, answer: RenewalAnswer)
    requires Safe(db)
    ensures AllSafe(VpnRenewCommits(db, u, s, panelActive, now, answer))
  {
    hide Safe, VpnRenewPrice;
    if VpnRenewRefusal(db, u, s, panelActive, now) == None {
      var price := VpnRenewPrice(db, u, s, now).value;
      var charged := Post(db, u, Purchase, -price, VpnRenewRef(s, now));
      VpnService(db, u, s, now);
      FreePostIsSafe(db, u, Purchase, -price, VpnRenewRef(s, now));
      match answer
      case Extended(expiresAt) =>
        SameTablesIsSafe(charged,
          charged.(services := charged.services[s := charged.services[s].(expiresAt := expiresAt)]));
      case Failed => FreePostIsSafe(charged, u, Refund, price, VpnRenewRefundRef(s, now));
    }
  }

  lemma VpnService(db: Db, u: int, s: int, now: int)
    ensures VpnRenewPrice(db, u, s, now).Some? ==> s in db.services
  {
  }

  lemma CreateCouponIsSafe(db: Db, c: int, code: string, percent: int, expiresAt: Option<int>)
    requires CreateCouponRefusal(db, c, code, percent) == None
    requires Safe(db)
    ensures Safe(db.(coupons := db.coupons[c := Coupon(code, percent, expiresAt, false, None, None)]))
  {
    hide WalletsOk, OrdersPaid, RequestsMatch, PaymentsMatch;
    var coupons' := db.coupons[c := Coupon(code, percent, expiresAt, false, None, None)];
    CouponsRemain(db.orders, db.coupons, coupons');
  }

  lemma DeleteCouponIsSafe(db: Db, c: int)
    requires DeleteCouponRefusal(db, c) == None
    requires Safe(db)
    ensures Safe(db.(coupons := db.coupons - {c}))
  {
    hide WalletsOk, OrdersPaid, RequestsMatch, PaymentsMatch;
    CouponsRemain(db.orders, db.coupons, db.coupons - {c});
  }

  /** As long as the used coupons stay, orders keep theirs. */
  lemma CouponsRemain(orders: map<int, Order>, coupons: map<int, Coupon>, coupons': map<int, Coupon>)
    requires forall c :: c in coupons && coupons[c].used ==> c in coupons' && coupons'[c] == coupons[c]
    requires CouponsMatch(orders, coupons)
    ensures forall o :: o in orders && orders[o].coupon.Some? ==>
              exists c :: UsedBy(coupons', c, o, orders[o].coupon.value)
  {
    forall o | o in orders && orders[o].coupon.Some?
      ensures exists c :: UsedBy(coupons', c, o, orders[o].coupon.value)
    {
      var c :| UsedBy(coupons, c, o, orders[o].coupon.value);
      assert UsedBy(coupons', c, o, orders[o].coupon.value);
    }
  }

  lemma PaymentFacts(db: Db, p: int)
    requires Safe(db)
    ensures var rows := RowsFor(db.ledger, PaymentRef(p));
            && (rows == [] || (p in db.payments && CreditedOnce(rows, db.payments[p].user)
                               && db.payments[p].amount <= rows[0].amount))
            && (p in db.payments ==> (db.payments[p].status.Paid? ==> rows != []) && 0 < db.payments[p].amount)
  {
    hide WalletsOk, OrdersPaid, CouponsMatch, RequestsMatch, RowsFor;
  }

  lemma WebhookIsSafe(db: Db, p: int, d: Notice)
    requires Safe(db)
    ensures AllSafe(WebhookCommits(db, p, d))
  {
    hide Safe, RowsFor, WebhookEffect;
    EffectFacts(db, p, d);
    PaymentFacts(db, p);
    HasRowSelects(db.ledger, PaymentRef(p));
    match WebhookEffect(db, p, d)
    case NoEffect =>
    case Marked(row) => MarkPaymentIsSafe(db, p, row);
    case Credited(noted, amount) =>
      CreditPaymentIsSafe(db, p, noted, amount);
      CreditPaymentRows(db, p, noted, amount) by { SafeParts(db); }
      MarkPaymentIsSafe(CreditPayment(db, p, noted, amount), p, SettledRow(noted, amount));
  }

  lemma SafeParts(db: Db)
    requires Safe(db)
    ensures PaymentsMatch(db.payments, db.ledger)
  {
  }

  lemma JoinIsSafe(db: Db, t: int, u: int)
    requires Safe(db)
    ensures AllSafe(JoinCommits(db, t, u))
  {
    hide Safe;
    if JoinRefusal(db, t, u) == None {
      if 0 < db.tournaments[t].entryFee {
        var fee := db.tournaments[t].entryFee;
        var paid := Post(db, u, TournamentEntry, -fee, TournamentEntryRef(t));
        FreePostIsSafe(db, u, TournamentEntry, -fee, TournamentEntryRef(t));
        SameTablesIsSafe(paid, Enrolled(paid, t, u));
      } else {
        SameTablesIsSafe(db, Enrolled(db, t, u));
      }
    }
  }

  lemma {:induction false} RefundsAreSafe(db: Db, t: int, fee: int, ps: seq<int>)
    requires 0 < fee
    requires Safe(db)
    ensures AllSafe(RefundCommits(db, t, fee, ps)) && Safe(Last(db, RefundCommits(db, t, fee, ps)))
    decreases |ps|
  {
    hide Safe;
    if ps != [] {
      if ps[0] !in db.customers || ps[0] !in db.wallets {
        RefundsAreSafe(db, t, fee, ps[1..]);
      } else {
        WalletNotNegative(db, ps[0]);
        FreePostIsSafe(db, ps[0], Refund, fee, TournamentCancelRef(t));
        RefundsAreSafe(Post(db, ps[0], Refund, fee, TournamentCancelRef(t)), t, fee, ps[1..]);
      }
    }
  }

  lemma CancelIsSafe(db: Db, t: int)
    requires Safe(db)
    ensures AllSafe(CancelCommits(db, t))
  {
    hide Safe;
    if CancelRefusal(db, t) == None {
      var row := db.tournaments[t];
      var refunds := if 0 < row.entryFee then RefundCommits(db, t, row.entryFee, row.participants) else [];
      if 0 < row.entryFee { RefundsAreSafe(db, t, row.entryFee, row.participants); }
      var refunded := Last(db, refunds);
      SameTablesIsSafe(refunded, SetTournament(refunded, t, TournamentCancelled));
    }
  }

  lemma SettleIsSafe(db: Db, t: int, scores: map<int, nat>)
    requires Safe(db)
    ensures AllSafe(SettleCommits(db, t, scores))
  {
    hide Safe, WinnerOf;
    if SettleRefusal(db, t) == None {
      var row := db.tournaments[t];
      var winner := WinnerOf(db, t, scores);
      var marked := db.(tournaments := db.tournaments[t := row.(status := Settled, winner := winner)]);
      SameTablesIsSafe(db, marked);
      if winner.Some? && row.prize.Some? && row.prize.value != 0
         && CreditRefusal(db, winner.value, row.prize.value) == None {
        WalletNotNegative(marked, winner.value);
        FreePostIsSafe(marked, winner.value, TournamentPrize, row.prize.value, TournamentPrizeRef(t));
      }
    }
  }

  /** Whatever the call, every state it commits is safe. */
  lemma EveryCommitIsSafe(db: Db, call: Call)
    requires Safe(db)
    ensures AllSafe(Commits(db, call))
  {
    hide Safe, PurchaseCommits, AutoDeliverCommits, AutoRenewCommits, VpnRenewCommits, WebhookCommits, JoinCommits,
         CancelCommits, SettleCommits, Decided, CreateCouponRefusal;
    match call
    case Signup(u, referrer) =>
      if u !in db.customers && u !in db.wallets { SignupIsSafe(db, u, SignupRow(db, u, referrer)); }
    case EditProduct(p, row) => SameTablesIsSafe(db, db.(products := db.products[p := row]));
    case Buy(u, p, quantity, coupon, id, now, cash) => PurchaseIsSafe(db, u, p, quantity, coupon, id, now, cash);
    case MarkDelivered(id) =>
      if DeliveredRefusal(db, id) == None { MarkDeliveredIsSafe(db, id); }
    case AutoDeliver(id, answer) => AutoDeliverIsSafe(db, id, answer);
    case AutoRenew(u, s, id, answer) => AutoRenewIsSafe(db, u, s, id, answer);
    case VpnRenew(u, s, panelActive, now, answer) => VpnRenewIsSafe(db, u, s, panelActive, now, answer);
    case CreateCoupon(c, code, percent, expiresAt) =>
      if CreateCouponRefusal(db, c, code, percent) == None { CreateCouponIsSafe(db, c, code, percent, expiresAt); }
    case DeleteCoupon(c) => if DeleteCouponRefusal(db, c) == None { DeleteCouponIsSafe(db, c); }
    case CreateRequest(id, u, amount, kind, tokens) =>
      if CreateRequestRefusal(db, id, amount, kind, tokens) == None {
        RequestIsSafe(db, id, Request(u, amount, kind, if kind.Token? then tokens else None, AwaitingDecision));
      }
    case Approve(id) => if ApproveRefusal(db, id) == None { ApproveIsSafe(db, id); }
    case Reject(id) =>
      if id in db.requests && db.requests[id].status.AwaitingDecision? {
        RequestIsSafe(db, id, db.requests[id].(status := Rejected));
      }
    case CreatePayment(p, u, amount, quote) =>
      if 0 < amount && p !in db.payments {
        MarkPaymentIsSafe(db, p, Payment(u, amount, PaymentFailed, None, None));
        MarkPaymentIsSafe(db, p, Payment(u, amount, PaymentPending, None, quote));
      }
    case Webhook(p, d) => WebhookIsSafe(db, p, d);
    case CreateTournament(t, fee, prize) =>
      SameTablesIsSafe(db, db.(tournaments := db.tournaments[t := Tournament(fee, prize, TournamentActive, None, [])]));
    case Join(t, u) => JoinIsSafe(db, t, u);
    case EndNow(t) => if t in db.tournaments { SameTablesIsSafe(db, SetTournament(db, t, Ended)); }
    case Cancel(t) => CancelIsSafe(db, t);
    case Settle(t, scores) => SettleIsSafe(db, t, scores);
  }

  lemma MarkDeliveredIsSafe(db: Db, id: int)
    requires id in db.orders && db.orders[id].status.WaitingAdmin?
    requires Safe(db)
    ensures Safe(SetStatus(db, id, Completed))
  {
    hide Safe, RowsFor;
    OrderFacts(db, id);
    OrderUpdateIsSafe(db, id, db.orders[id].(status := Completed));
  }

  lemma {:induction false} CrashRunIsSafe(db: Db, events: seq<Event>)
    requires Safe(db)
    ensures Safe(CrashRun(db, events))
    decreases |events|
  {
    hide Safe, Commits;
    if events != [] {
      EveryCommitIsSafe(db, events[0].call);
      CrashRunIsSafe(Persisted(db, events[0]), events[1..]);
    }
  }
}

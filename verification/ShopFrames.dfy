/** What a call leaves alone: three parts of the database that only a few calls touch. */
module ShopFrames {
  import opened Options
  import opened Ledgers
  import opened Pricing
  import opened ShopTables
  import opened ShopCalls
  import opened ShopRuns

  /** The payments with their credits; the settled tournaments with their prizes; the renewals charged by
      `VPNRenewalService`; the percentages of coupons; the tournaments with their fees. */
  datatype Side = PaymentSide | PrizeSide | RenewalSide | CouponSide | FeeSide

  predicate Watches(side: Side, ref: Ref) {
    match side
    case PaymentSide => ref.PaymentRef?
    case PrizeSide => ref.TournamentPrizeRef?
    case RenewalSide => ref.VpnRenewRef? || ref.VpnRenewRefundRef?
    case CouponSide => false
    case FeeSide => ref.TournamentEntryRef? || ref.TournamentCancelRef?
  }

  predicate Touches(side: Side, call: Call) {
    match side
    case PaymentSide => call.CreatePayment? || call.Webhook?
    case PrizeSide => call.Settle?
    case RenewalSide => call.VpnRenew?
    case CouponSide => call.CreateCoupon?
    case FeeSide => call.CreateTournament? || call.Join? || call.EndNow? || call.Cancel? || call.Settle?
  }

  ghost function RenewalRows(): (int, WalletKind, Ref) -> bool {
    (u: int, k: WalletKind, r: Ref) => Watches(RenewalSide, r)
  }

  predicate IsSettled(tournaments: map<int, Tournament>, t: int) {
    t in tournaments && tournaments[t].status.Settled?
  }

  /** The same tournaments are settled, with the same rows. */
  ghost predicate SettledStay(was: map<int, Tournament>, now: map<int, Tournament>) {
    forall t :: if IsSettled(was, t) then t in now && now[t] == was[t] else !IsSettled(now, t)
  }

  /** Coupons may be used or deleted, but none is new and none changes its percentage. */
  ghost predicate PercentsKept(was: map<int, Coupon>, now: map<int, Coupon>) {
    forall c :: c in now ==> c in was && now[c].percent == was[c].percent
  }

  ghost predicate Stays(side: Side, db: Db, db': Db) {
    match side
    case PaymentSide =>
      && db'.payments == db.payments
      && (forall p :: RowsFor(db'.ledger, PaymentRef(p)) == RowsFor(db.ledger, PaymentRef(p)))
    case PrizeSide =>
      && SettledStay(db.tournaments, db'.tournaments)
      && (forall t :: RowsFor(db'.ledger, TournamentPrizeRef(t)) == RowsFor(db.ledger, TournamentPrizeRef(t)))
    case RenewalSide =>
      && SumWhere(db'.ledger, RenewalRows()) == SumWhere(db.ledger, RenewalRows())
      && (forall r :: Watches(RenewalSide, r) ==> SumWhere(db'.ledger, ByRef(r)) == SumWhere(db.ledger, ByRef(r)))
    case CouponSide => PercentsKept(db.coupons, db'.coupons)
    case FeeSide =>
      && db'.tournaments == db.tournaments
      && (forall r :: Watches(FeeSide, r) ==> RowsFor(db'.ledger, r) == RowsFor(db.ledger, r))
  }

  lemma StaysPut(side: Side, db: Db)
    ensures Stays(side, db, db)
  {
  }

  lemma StayAfterPost(side: Side, db: Db, db': Db, u: int, kind: WalletKind, amount: int, ref: Ref)
    requires Stays(side, db, db') && u in db'.wallets && !Watches(side, ref)
    ensures Stays(side, db, Post(db', u, kind, amount, ref))
  {
    hide RowsFor, SumWhere;
    PostRows(db', u, kind, amount, ref);
    PostRefSums(db', u, kind, amount, ref);
  }

  /** Changes to other tables. */
  lemma StaySame(side: Side, db: Db, db': Db, db'': Db)
    requires Stays(side, db, db') && db''.ledger == db'.ledger
    requires side.PaymentSide? ==> db''.payments == db'.payments
    requires side.PrizeSide? || side.FeeSide? ==> db''.tournaments == db'.tournaments
    requires side.CouponSide? ==> PercentsKept(db'.coupons, db''.coupons)
    ensures Stays(side, db, db'')
  {
  }

  /** A change to a tournament that neither was nor becomes settled. */
  lemma StayUnsettled(side: Side, db: Db, db': Db, t: int, row: Tournament)
    requires !side.FeeSide? && Stays(side, db, db') && !IsSettled(db'.tournaments, t) && !row.status.Settled?
    ensures Stays(side, db, db'.(tournaments := db'.tournaments[t := row]))
  {
    hide RowsFor, SumWhere;
  }

  ghost predicate AllStay(side: Side, db: Db, commits: seq<Db>) {
    forall i :: 0 <= i < |commits| ==> Stays(side, db, commits[i])
  }

  lemma PurchaseStays(
      side: Side, db: Db, u: int, p: int, quantity: int, coupon: Option<int>, id: int, now: int, cash: Cashback)
    ensures AllStay(side, db, PurchaseCommits(db, u, p, quantity, coupon, id, now, cash))
  {
    hide Stays, CalculatePrice, PercentOf;
    StaysPut(side, db);
    if PurchaseRefusal(db, u, p, quantity, coupon, id, now) == None {
      var o := NewOrder(db, u, p, quantity, coupon, now);
      var paid := PayOrder(db, id, o, coupon);
      var ordered := db.(orders := paid.orders, coupons := paid.coupons);
      StaySame(side, db, db, ordered);
      StayAfterPost(side, db, ordered, u, Purchase, -o.finalPrice, PayRef(id, o));
      if u in db.customers {
        var confirmed := ConfirmOrder(paid, id);
        StaySame(side, db, paid, confirmed);
        if CashbackFor(db, u, o.finalPrice, cash).Some? {
          var (r, amount) := CashbackFor(db, u, o.finalPrice, cash).value;
          if r in confirmed.wallets { StayAfterPost(side, db, confirmed, r, Bonus, amount, CashbackRef(id)); }
        }
      }
    }
  }

  lemma AutoRenewStays(side: Side, db: Db, u: int, s: int, id: int, answer: RenewalAnswer)
    ensures AllStay(side, db, AutoRenewCommits(db, u, s, id, answer))
  {
    hide Stays;
    StaysPut(side, db);
    if AutoRenewRefusal(db, u, s, id) == None {
      var (p, price) := RenewalPrice(db, u, s).value;
      var o := Order(u, p, 1, price, price, Pending, VpnRenewal, None);
      var paid := PayOrder(db, id, o, None);
      var ordered := db.(orders := paid.orders, coupons := paid.coupons);
      StaySame(side, db, db, ordered);
      StayAfterPost(side, db, ordered, u, Purchase, -price, PayRef(id, o));
      StayAfterPost(side, db, paid, u, Refund, price, RenewalRefundRef(id));
      var commits := AutoRenewCommits(db, u, s, id, answer);
      StaySame(side, db, if answer.Failed? then commits[1] else paid, commits[1]);
      StaySame(side, db, commits[1], commits[2]);
    }
  }

  lemma VpnRenewStays(side: Side, db: Db, u: int, s: int, panelActive: bool, now: int, answer: RenewalAnswer)
    requires !side.RenewalSide?
    ensures AllStay(side, db, VpnRenewCommits(db, u, s, panelActive, now, answer))
  {
    hide Stays, VpnRenewPrice;
    StaysPut(side, db);
    if VpnRenewRefusal(db, u, s, panelActive, now) == None {
      var price := VpnRenewPrice(db, u, s, now).value;
      VpnService(db, u, s, now);
      var charged := Post(db, u, Purchase, -price, VpnRenewRef(s, now));
      StayAfterPost(side, db, db, u, Purchase, -price, VpnRenewRef(s, now));
      StayAfterPost(side, db, charged, u, Refund, price, VpnRenewRefundRef(s, now));
      if answer.Extended? { StaySame(side, db, charged, VpnRenewCommits(db, u, s, panelActive, now, answer)[1]); }
    }
  }

  lemma ApprovalStays(side: Side, db: Db, id: int)
    requires ApproveRefusal(db, id) == None
    ensures Stays(side, db, Decided(db, id))
  {
    hide Stays;
    var r := db.requests[id];
    var marked := db.(requests := db.requests[id := r.(status := Approved)]);
    StaysPut(side, db);
    StaySame(side, db, db, marked);
    if r.kind.Rial? { StayAfterPost(side, db, marked, r.user, Deposit, r.amount, DepositRef(id)); }
  }

  lemma WebhookStays(side: Side, db: Db, p: int, d: Notice)
    requires !side.PaymentSide?
    ensures AllStay(side, db, WebhookCommits(db, p, d))
  {
    hide Stays, WebhookEffect;
    StaysPut(side, db);
    EffectFacts(db, p, d);
    match WebhookEffect(db, p, d)
    case NoEffect =>
    case Marked(row) => StaySame(side, db, db, MarkPayment(db, p, row));
    case Credited(noted, amount) =>
      StaySame(side, db, db, MarkPayment(db, p, noted));
      StayAfterPost(side, db, MarkPayment(db, p, noted), noted.user, Deposit, amount, PaymentRef(p));
      var credited := CreditPayment(db, p, noted, amount);
      StaySame(side, db, credited, MarkPayment(credited, p, SettledRow(noted, amount)));
  }

  lemma {:induction false} RefundsStay(side: Side, origin: Db, db: Db, t: int, fee: int, ps: seq<int>)
    requires !side.FeeSide? && Stays(side, origin, db)
    ensures AllStay(side, origin, RefundCommits(db, t, fee, ps))
    ensures Stays(side, origin, Last(db, RefundCommits(db, t, fee, ps)))
    decreases |ps|
  {
    hide Stays;
    if ps != [] {
      if ps[0] !in db.customers || ps[0] !in db.wallets {
        RefundsStay(side, origin, db, t, fee, ps[1..]);
      } else {
        StayAfterPost(side, origin, db, ps[0], Refund, fee, TournamentCancelRef(t));
        RefundsStay(side, origin, Post(db, ps[0], Refund, fee, TournamentCancelRef(t)), t, fee, ps[1..]);
      }
    }
  }

  lemma CancelStays(side: Side, db: Db, t: int)
    requires !side.FeeSide?
    ensures AllStay(side, db, CancelCommits(db, t))
  {
    hide Stays, RefundCommits;
    StaysPut(side, db);
    if CancelRefusal(db, t) == None {
      var row := db.tournaments[t];
      if 0 < row.entryFee { RefundsStay(side, db, db, t, row.entryFee, row.participants); }
      var refunds := if 0 < row.entryFee then RefundCommits(db, t, row.entryFee, row.participants) else [];
      StayUnsettled(side, db, Last(db, refunds), t, row.(status := TournamentCancelled));
    }
  }

  lemma JoinStays(side: Side, db: Db, t: int, u: int)
    requires !side.FeeSide?
    ensures AllStay(side, db, JoinCommits(db, t, u))
  {
    hide Stays;
    StaysPut(side, db);
    if JoinRefusal(db, t, u) == None {
      var row := db.tournaments[t];
      var joined := row.(participants := row.participants + [u]);
      if 0 < row.entryFee {
        StayAfterPost(side, db, db, u, TournamentEntry, -row.entryFee, TournamentEntryRef(t));
        StayUnsettled(side, db, Post(db, u, TournamentEntry, -row.entryFee, TournamentEntryRef(t)), t, joined);
      } else {
        StayUnsettled(side, db, db, t, joined);
      }
    }
  }

  lemma SettleStays(side: Side, db: Db, t: int, scores: map<int, nat>)
    requires !side.PrizeSide? && !side.FeeSide?
    ensures AllStay(side, db, SettleCommits(db, t, scores))
  {
    hide Stays, WinnerOf;
    StaysPut(side, db);
    if SettleRefusal(db, t) == None {
      var row := db.tournaments[t];
      var winner := WinnerOf(db, t, scores);
      var marked := db.(tournaments := db.tournaments[t := row.(status := Settled, winner := winner)]);
      StaySame(side, db, db, marked);
      if winner.Some? && row.prize.Some? && winner.value in db.wallets {
        StayAfterPost(side, db, marked, winner.value, TournamentPrize, row.prize.value, TournamentPrizeRef(t));
      }
    }
  }

  /** Calls that commit at most once, post nothing and leave the tournaments. */
  predicate Plain(call: Call) {
    call.Signup? || call.EditProduct? || call.MarkDelivered? || call.DeleteCoupon? || call.CreateRequest?
    || call.Reject?
  }

  /** At most one commit, with the ledger, the tournaments and the payments as they were. */
  ghost predicate Leaves(db: Db, commits: seq<Db>) {
    |commits| == 0
    || (|commits| == 1 && commits[0].ledger == db.ledger && commits[0].tournaments == db.tournaments
        && commits[0].payments == db.payments && PercentsKept(db.coupons, commits[0].coupons))
  }

  lemma ShopEditLeaves(db: Db, call: Call)
    requires call.Signup? || call.EditProduct? || call.MarkDelivered?
    ensures Leaves(db, Commits(db, call))
  {
  }

  lemma RequestEditLeaves(db: Db, call: Call)
    requires call.DeleteCoupon? || call.CreateRequest? || call.Reject?
    ensures Leaves(db, Commits(db, call))
  {
    hide CreateRequestRefusal, DeleteCouponRefusal;
  }

  lemma PlainStays(side: Side, db: Db, call: Call)
    requires Plain(call)
    ensures AllStay(side, db, Commits(db, call))
  {
    hide Stays, Commits;
    StaysPut(side, db);
    if call.Signup? || call.EditProduct? || call.MarkDelivered? {
      ShopEditLeaves(db, call);
    } else {
      RequestEditLeaves(db, call);
    }
    var commits := Commits(db, call);
    if commits != [] { StaySame(side, db, db, commits[0]); }
  }

  lemma CreateCouponStays(side: Side, db: Db, c: int, code: string, percent: int, expiresAt: Option<int>)
    requires !side.CouponSide?
    ensures AllStay(side, db, Commits(db, CreateCoupon(c, code, percent, expiresAt)))
  {
    hide Stays, CreateCouponRefusal;
    StaysPut(side, db);
    var commits := Commits(db, CreateCoupon(c, code, percent, expiresAt));
    if commits != [] { StaySame(side, db, db, commits[0]); }
  }

  lemma CreatePaymentCommits(db: Db, p: int, u: int, amount: int, quote: Option<int>)
    ensures var commits := Commits(db, CreatePayment(p, u, amount, quote));
            if amount <= 0 || p in db.payments then commits == []
            else
              var status := if quote == None then PaymentFailed else PaymentPending;
              commits == [MarkPayment(db, p, Payment(u, amount, status, None, quote))]
  {
  }

  lemma CreatePaymentStays(side: Side, db: Db, p: int, u: int, amount: int, quote: Option<int>)
    requires !side.PaymentSide?
    ensures AllStay(side, db, Commits(db, CreatePayment(p, u, amount, quote)))
  {
    hide Stays, Commits;
    StaysPut(side, db);
    CreatePaymentCommits(db, p, u, amount, quote);
    var commits := Commits(db, CreatePayment(p, u, amount, quote));
    if commits != [] { StaySame(side, db, db, commits[0]); }
  }

  lemma TournamentRowStays(side: Side, db: Db, call: Call)
    requires !side.FeeSide? && (call.CreateTournament? || call.EndNow?)
    ensures AllStay(side, db, Commits(db, call))
  {
    hide Stays;
    StaysPut(side, db);
    match call
    case CreateTournament(t, fee, prize) =>
      if t !in db.tournaments { StayUnsettled(side, db, db, t, Tournament(fee, prize, TournamentActive, None, [])); }
    case EndNow(t) =>
      if t in db.tournaments && db.tournaments[t].status.TournamentActive? {
        StayUnsettled(side, db, db, t, db.tournaments[t].(status := Ended));
      }
  }

  lemma AutoDeliverStays(side: Side, db: Db, id: int, answer: Option<(int, Service)>)
    ensures AllStay(side, db, AutoDeliverCommits(db, id, answer))
  {
    hide Stays;
    StaysPut(side, db);
    var commits := AutoDeliverCommits(db, id, answer);
    if commits != [] {
      StaySame(side, db, db, commits[0]);
      StaySame(side, db, db, commits[1]);
    }
  }

  /** Every commit of every other call leaves a side alone. */
  lemma CommitsStay(side: Side, db: Db, call: Call)
    requires !Touches(side, call)
    ensures AllStay(side, db, Commits(db, call))
  {
    hide PurchaseCommits, AutoDeliverCommits, AutoRenewCommits, VpnRenewCommits, JoinCommits, CancelCommits,
         SettleCommits, WebhookCommits, Decided, Stays, CreateCouponRefusal;
    if Plain(call) {
      PlainStays(side, db, call);
    } else if call.CreateTournament? || call.EndNow? {
      TournamentRowStays(side, db, call);
    } else {
      match call
      case Buy(u, p, quantity, coupon, id, now, cash) =>
        PurchaseStays(side, db, u, p, quantity, coupon, id, now, cash);
      case AutoDeliver(id, answer) => AutoDeliverStays(side, db, id, answer);
      case AutoRenew(u, s, id, answer) => AutoRenewStays(side, db, u, s, id, answer);
      case VpnRenew(u, s, panelActive, now, answer) => VpnRenewStays(side, db, u, s, panelActive, now, answer);
      case Approve(id) => if ApproveRefusal(db, id) == None { ApprovalStays(side, db, id); }
      case CreateCoupon(c, code, percent, expiresAt) => CreateCouponStays(side, db, c, code, percent, expiresAt);
      case CreatePayment(p, u, amount, quote) => CreatePaymentStays(side, db, p, u, amount, quote);
      case Webhook(p, d) => WebhookStays(side, db, p, d);
      case Join(t, u) => JoinStays(side, db, t, u);
      case Cancel(t) => CancelStays(side, db, t);
      case Settle(t, scores) => SettleStays(side, db, t, scores);
    }
  }

  /** What a call that may die leaves is one of its commits, or the database it found. */
  lemma PersistedStays(side: Side, db: Db, e: Event)
    requires !Touches(side, e.call)
    ensures Stays(side, db, Persisted(db, e))
  {
    hide Commits, Stays;
    CommitsStay(side, db, e.call);
    StaysPut(side, db);
  }
}

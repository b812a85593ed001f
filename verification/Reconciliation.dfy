/** With no crash, the wallets reconcile with the other tables of the shop. */
module Reconciliation {
  import opened Options
  import opened Totals
  import opened Ledgers
  import opened Pricing
  import opened ShopTables
  import opened ShopCalls
  import opened ShopInvariants
  import opened ShopRuns
  import opened ShopFrames
  import opened ShopTheorems

  // ----- the ledger by kind of reference -----

  datatype Class = OrderClass | CashbackClass | DepositClass | PaymentClass | TournamentClass | RenewalClass

  function ClassOf(ref: Ref): Class {
    match ref
    case OrderRef(_) | RenewalOrderRef(_) | RenewalRefundRef(_) => OrderClass
    case CashbackRef(_) => CashbackClass
    case DepositRef(_) => DepositClass
    case PaymentRef(_) => PaymentClass
    case TournamentEntryRef(_) | TournamentCancelRef(_) | TournamentPrizeRef(_) => TournamentClass
    case VpnRenewRef(_, _) | VpnRenewRefundRef(_, _) => RenewalClass
  }

  ghost function InClass(c: Class): (int, WalletKind, Ref) -> bool {
    (u: int, k: WalletKind, r: Ref) => ClassOf(r) == c
  }

  ghost function Sum(l: seq<WalletRow>, c: Class): int {
    SumWhere(l, InClass(c))
  }

  /** What `VPNRenewalService` took and did not give back. */
  ghost function RenewalTakings(l: seq<WalletRow>): int {
    -Sum(l, RenewalClass)
  }

  lemma {:induction false} LedgerSplits(l: seq<WalletRow>)
    ensures SumWhere(l, Everyone())
         == Sum(l, OrderClass) + Sum(l, CashbackClass) + Sum(l, DepositClass) + Sum(l, PaymentClass)
            + Sum(l, TournamentClass) + Sum(l, RenewalClass)
  {
    if l != [] {
      LedgerSplits(l[..|l| - 1]);
    }
  }

  // ----- the other tables -----

  ghost function Approvals(requests: map<int, Request>): map<int, int> {
    map id | id in requests ::
      if requests[id].kind.Rial? && requests[id].status.Approved? then requests[id].amount else 0
  }

  ghost function PaidAmounts(payments: map<int, Payment>): map<int, int> {
    map p | p in payments ::
      if payments[p].status.Paid? && payments[p].paid.Some? then payments[p].paid.value else 0
  }

  function Fee(row: Tournament): int {
    if 0 < row.entryFee then row.entryFee else 0
  }

  /** What a tournament leaves with the shop, from its row alone. */
  ghost function Taking(row: Tournament): int {
    match row.status
    case TournamentActive | Ended => Fee(row) * |row.participants|
    case TournamentCancelled => 0
    case Settled =>
      Fee(row) * |row.participants| - if row.winner.Some? && row.prize.Some? then row.prize.value else 0
  }

  ghost function Takings(tournaments: map<int, Tournament>): map<int, int> {
    map t | t in tournaments :: Taking(tournaments[t])
  }

  /** How far each part of the ledger is from what the tables say. */
  datatype Gaps = Gaps(orders: int, deposits: int, payments: int, tournaments: int)

  ghost function GapsOf(db: Db): Gaps {
    Gaps(Sum(db.ledger, OrderClass) + Revenue(db.orders),
         Sum(db.ledger, DepositClass) - Total(Approvals(db.requests)),
         Sum(db.ledger, PaymentClass) - Total(PaidAmounts(db.payments)),
         Sum(db.ledger, TournamentClass) + Total(Takings(db.tournaments)))
  }

  const NO_GAPS := Gaps(0, 0, 0, 0)

  lemma PostGaps(db: Db, u: int, kind: WalletKind, amount: int, ref: Ref)
    requires u in db.wallets
    ensures var g, c := GapsOf(db), ClassOf(ref);
            GapsOf(Post(db, u, kind, amount, ref))
            == Gaps(g.orders + (if c == OrderClass then amount else 0),
                    g.deposits + (if c == DepositClass then amount else 0),
                    g.payments + (if c == PaymentClass then amount else 0),
                    g.tournaments + (if c == TournamentClass then amount else 0))
  {
    hide SumWhere, Total, Revenue;
    PostRows(db, u, kind, amount, ref);
  }

  lemma OrderGap(db: Db, id: int, o: Order)
    ensures GapsOf(db.(orders := db.orders[id := o]))
         == GapsOf(db).(orders := GapsOf(db).orders + Value(o) - if id in db.orders then Value(db.orders[id]) else 0)
  {
    hide SumWhere, Total, Revenue;
    RevenueUpdate(db.orders, id, o);
  }

  function ApprovedAmount(r: Request): int {
    if r.kind.Rial? && r.status.Approved? then r.amount else 0
  }

  lemma RequestGap(db: Db, id: int, r: Request)
    ensures GapsOf(db.(requests := db.requests[id := r]))
         == GapsOf(db).(deposits := GapsOf(db).deposits - ApprovedAmount(r)
                                    + if id in db.requests then ApprovedAmount(db.requests[id]) else 0)
  {
    hide SumWhere, Total, Revenue;
    TotalUpdate(Approvals(db.requests), id, ApprovedAmount(r));
    assert Approvals(db.requests[id := r]) == Approvals(db.requests)[id := ApprovedAmount(r)];
  }

  function PaidValue(row: Payment): int {
    if row.status.Paid? && row.paid.Some? then row.paid.value else 0
  }

  lemma PaymentGap(db: Db, p: int, row: Payment)
    ensures GapsOf(MarkPayment(db, p, row))
         == GapsOf(db).(payments := GapsOf(db).payments - PaidValue(row)
                                    + if p in db.payments then PaidValue(db.payments[p]) else 0)
  {
    hide SumWhere, Total, Revenue;
    TotalUpdate(PaidAmounts(db.payments), p, PaidValue(row));
    assert PaidAmounts(db.payments[p := row]) == PaidAmounts(db.payments)[p := PaidValue(row)];
  }

  lemma TournamentGap(db: Db, t: int, row: Tournament)
    ensures GapsOf(db.(tournaments := db.tournaments[t := row]))
         == GapsOf(db).(tournaments := GapsOf(db).tournaments + Taking(row)
                                       - if t in db.tournaments then Taking(db.tournaments[t]) else 0)
  {
    hide SumWhere, Total, Revenue;
    TotalUpdate(Takings(db.tournaments), t, Taking(row));
    assert Takings(db.tournaments[t := row]) == Takings(db.tournaments)[t := Taking(row)];
  }

  // ----- what a clean run keeps besides -----

  /** Every credited payment is marked paid. */
  ghost predicate NoneHalfPaid(payments: map<int, Payment>, l: seq<WalletRow>) {
    forall p :: RowsFor(l, PaymentRef(p)) != [] ==> p in payments && payments[p].status.Paid?
  }

  /** A tournament's ledger sums and its row: entries, refunds and prize. */
  ghost predicate TournamentOk(users: set<int>, row: Tournament, entries: int, refunds: int, prizes: int) {
    && (forall i, j :: 0 <= i < j < |row.participants| ==> row.participants[i] != row.participants[j])
    && (forall i :: 0 <= i < |row.participants| ==> row.participants[i] in users)
    && entries == -Fee(row) * |row.participants|
    && match row.status
       case TournamentActive | Ended => refunds == 0 && prizes == 0 && row.winner == None
       case TournamentCancelled => refunds == Fee(row) * |row.participants| && prizes == 0
       case Settled =>
         && refunds == 0
         && (row.winner.Some? ==> row.winner.value in row.participants)
         && prizes == if row.winner.Some? && row.prize.Some? then row.prize.value else 0
  }

  ghost predicate TournamentsOk(users: set<int>, tournaments: map<int, Tournament>, l: seq<WalletRow>) {
    forall t ::
      var entries, refunds, prizes :=
        SumWhere(l, ByRef(TournamentEntryRef(t))), SumWhere(l, ByRef(TournamentCancelRef(t))),
        SumWhere(l, ByRef(TournamentPrizeRef(t)));
      if t in tournaments then TournamentOk(users, tournaments[t], entries, refunds, prizes)
      else entries == 0 && refunds == 0 && prizes == 0
  }

  ghost predicate Clean(db: Db) {
    && Safe(db) && GapsOf(db) == NO_GAPS
    && NoneHalfPaid(db.payments, db.ledger)
    && TournamentsOk(db.customers.Keys, db.tournaments, db.ledger)
  }

  // ----- purchases and renewals close their own gap -----

  lemma PayOrderGap(db: Db, id: int, o: Order, coupon: Option<int>)
    requires id !in db.orders && o.status.Pending? && o.user in db.wallets
    requires coupon.Some? ==> coupon.value in db.coupons
    ensures GapsOf(PayOrder(db, id, o, coupon))
         == GapsOf(db).(orders := GapsOf(db).orders - o.finalPrice)
  {
    hide GapsOf;
    OrderGap(db, id, o);
    var ordered := db.(orders := db.orders[id := o]);
    var redeemed := ordered.(coupons := PayOrder(db, id, o, coupon).coupons);
    OtherTables(ordered, redeemed);
    PostGaps(redeemed, o.user, Purchase, -o.finalPrice, PayRef(id, o));
  }

  /** The gaps look at the ledger, orders, requests, payments and tournaments only. */
  lemma OtherTables(db: Db, db': Db)
    requires db'.ledger == db.ledger && db'.orders == db.orders && db'.requests == db.requests
    requires db'.payments == db.payments && db'.tournaments == db.tournaments
    ensures GapsOf(db') == GapsOf(db)
  {
  }

  lemma PurchaseGap(db: Db, u: int, p: int, quantity: int, coupon: Option<int>, id: int, now: int, cash: Cashback)
    requires db.customers.Keys == db.wallets.Keys
    ensures GapsOf(Last(db, PurchaseCommits(db, u, p, quantity, coupon, id, now, cash))) == GapsOf(db)
  {
    hide GapsOf, CalculatePrice, PercentOf;
    if PurchaseRefusal(db, u, p, quantity, coupon, id, now) == None {
      var o := NewOrder(db, u, p, quantity, coupon, now);
      var paid := PayOrder(db, id, o, coupon);
      PayOrderGap(db, id, o, coupon);
      OrderGap(paid, id, o.(status := WaitingAdmin));
      var confirmed := ConfirmOrder(paid, id);
      OtherTables(paid.(orders := paid.orders[id := o.(status := WaitingAdmin)]), confirmed);
      if CashbackFor(db, u, o.finalPrice, cash).Some? {
        var (r, amount) := CashbackFor(db, u, o.finalPrice, cash).value;
        PostGaps(confirmed, r, Bonus, amount, CashbackRef(id));
      }
    }
  }

  lemma AutoDeliverGap(db: Db, id: int, answer: Option<(int, Service)>)
    ensures GapsOf(Last(db, AutoDeliverCommits(db, id, answer))) == GapsOf(db)
  {
    hide GapsOf;
    if AutoDeliverCommits(db, id, answer) != [] {
      var served := db.(services := db.services[answer.value.0 := answer.value.1]);
      OtherTables(db, served);
      OrderGap(served, id, served.orders[id].(status := Completed, delivery := Api));
    }
  }

  lemma AutoRenewGap(db: Db, u: int, s: int, id: int, answer: RenewalAnswer)
    ensures GapsOf(Last(db, AutoRenewCommits(db, u, s, id, answer))) == GapsOf(db)
  {
    hide GapsOf;
    if AutoRenewRefusal(db, u, s, id) == None {
      var (p, price) := RenewalPrice(db, u, s).value;
      var o := Order(u, p, 1, price, price, Pending, VpnRenewal, None);
      var paid := PayOrder(db, id, o, None);
      PayOrderGap(db, id, o, None);
      match answer
      case Extended(expiresAt) =>
        var extended := paid.(services := paid.services[s := paid.services[s].(expiresAt := expiresAt)]);
        OtherTables(paid, extended);
        OrderGap(extended, id, o.(status := Completed));
      case Failed =>
        PostGaps(paid, u, Refund, price, RenewalRefundRef(id));
        OrderGap(Post(paid, u, Refund, price, RenewalRefundRef(id)), id, o.(status := Refunded));
    }
  }

  lemma VpnRenewGap(db: Db, u: int, s: int, panelActive: bool, now: int, answer: RenewalAnswer)
    ensures GapsOf(Last(db, VpnRenewCommits(db, u, s, panelActive, now, answer))) == GapsOf(db)
  {
    hide GapsOf, VpnRenewPrice;
    if VpnRenewRefusal(db, u, s, panelActive, now) == None {
      var price := VpnRenewPrice(db, u, s, now).value;
      var charged := Post(db, u, Purchase, -price, VpnRenewRef(s, now));
      VpnService(db, u, s, now);
      PostGaps(db, u, Purchase, -price, VpnRenewRef(s, now));
      match answer
      case Extended(expiresAt) =>
        OtherTables(charged, charged.(services := charged.services[s := charged.services[s].(expiresAt := expiresAt)]));
      case Failed => PostGaps(charged, u, Refund, price, VpnRenewRefundRef(s, now));
    }
  }

  lemma ApproveGap(db: Db, id: int)
    requires ApproveRefusal(db, id) == None
    ensures GapsOf(Decided(db, id)) == GapsOf(db)
  {
    hide GapsOf;
    var r := db.requests[id];
    RequestGap(db, id, r.(status := Approved));
    if r.kind.Rial? {
      PostGaps(db.(requests := db.requests[id := r.(status := Approved)]), r.user, Deposit, r.amount, DepositRef(id));
    }
  }

  lemma WebhookGap(db: Db, p: int, d: Notice)
    requires NoneHalfPaid(db.payments, db.ledger)
    ensures GapsOf(Last(db, WebhookCommits(db, p, d))) == GapsOf(db)
  {
    hide GapsOf, RowsFor, WebhookEffect;
    EffectFacts(db, p, d);
    HasRowSelects(db.ledger, PaymentRef(p));
    match WebhookEffect(db, p, d)
    case NoEffect =>
    case Marked(row) => PaymentGap(db, p, row);
    case Credited(noted, amount) =>
      PaymentGap(db, p, noted);
      PostGaps(MarkPayment(db, p, noted), noted.user, Deposit, amount, PaymentRef(p));
      PaymentGap(CreditPayment(db, p, noted, amount), p, SettledRow(noted, amount));
  }

  lemma WebhookSettles(db: Db, p: int, d: Notice)
    requires NoneHalfPaid(db.payments, db.ledger)
    ensures var db' := Last(db, WebhookCommits(db, p, d)); NoneHalfPaid(db'.payments, db'.ledger)
  {
    hide RowsFor, WebhookEffect;
    EffectFacts(db, p, d);
    match WebhookEffect(db, p, d)
    case NoEffect =>
    case Marked(row) =>
    case Credited(noted, amount) =>
      PostSelects(MarkPayment(db, p, noted), noted.user, Deposit, amount, PaymentRef(p));
  }

  lemma WebhookBeside(db: Db, p: int, d: Notice)
    ensures var db' := Last(db, WebhookCommits(db, p, d));
            && db'.customers == db.customers && db'.tournaments == db.tournaments
            && forall r: Ref :: !r.PaymentRef? ==> SumWhere(db'.ledger, ByRef(r)) == SumWhere(db.ledger, ByRef(r))
  {
    hide SumWhere, WebhookEffect;
    EffectFacts(db, p, d);
    match WebhookEffect(db, p, d)
    case NoEffect =>
    case Marked(row) =>
    case Credited(noted, amount) =>
      PostRefSums(MarkPayment(db, p, noted), noted.user, Deposit, amount, PaymentRef(p));
  }

  // ----- tournaments -----

  lemma JoinGap(db: Db, t: int, u: int)
    ensures GapsOf(Last(db, JoinCommits(db, t, u))) == GapsOf(db)
  {
    hide GapsOf;
    if JoinRefusal(db, t, u) == None {
      var row := db.tournaments[t];
      var fee := row.entryFee;
      var paid := if 0 < fee then Post(db, u, TournamentEntry, -fee, TournamentEntryRef(t)) else db;
      if 0 < fee { PostGaps(db, u, TournamentEntry, -fee, TournamentEntryRef(t)); }
      TournamentGap(paid, t, row.(participants := row.participants + [u]));
      OneMore(Fee(row), |row.participants|);
    }
  }

  lemma OneMore(fee: int, n: int)
    ensures fee * (n + 1) == fee * n + fee
  {
  }

  lemma EnrolledOk(users: set<int>, row: Tournament, u: int, entries: int, refunds: int, prizes: int)
    requires TournamentOk(users, row, entries, refunds, prizes)
    requires row.status.TournamentActive? && u in users && u !in row.participants
    ensures TournamentOk(users, row.(participants := row.participants + [u]), entries - Fee(row), refunds, prizes)
  {
    OneMore(Fee(row), |row.participants|);
  }

  lemma JoinKeepsTournaments(db: Db, t: int, u: int)
    requires TournamentsOk(db.customers.Keys, db.tournaments, db.ledger)
    requires db.customers.Keys == db.wallets.Keys
    ensures var db' := Last(db, JoinCommits(db, t, u));
            TournamentsOk(db'.customers.Keys, db'.tournaments, db'.ledger)
  {
    hide SumWhere, RowsFor, TournamentOk;
    if JoinRefusal(db, t, u) == None {
      var row := db.tournaments[t];
      var fee := row.entryFee;
      EnrolledOk(db.customers.Keys, row, u, SumWhere(db.ledger, ByRef(TournamentEntryRef(t))),
                 SumWhere(db.ledger, ByRef(TournamentCancelRef(t))), SumWhere(db.ledger, ByRef(TournamentPrizeRef(t))));
      if 0 < fee { PostRows(db, u, TournamentEntry, -fee, TournamentEntryRef(t)); }
    }
  }

  /** The refunds of a cancellation move one fee per participant, and nothing else. */
  lemma {:induction false} RefundSums(db: Db, t: int, fee: int, ps: seq<int>)
    requires forall i :: 0 <= i < |ps| ==> ps[i] in db.customers && ps[i] in db.wallets
    ensures var db' := Last(db, RefundCommits(db, t, fee, ps));
            && db' == db.(wallets := db'.wallets, ledger := db'.ledger)
            && GapsOf(db') == GapsOf(db).(tournaments := GapsOf(db).tournaments + fee * |ps|)
            && (forall r :: SumWhere(db'.ledger, ByRef(r))
                            == SumWhere(db.ledger, ByRef(r)) + if r == TournamentCancelRef(t) then fee * |ps| else 0)
            && (forall p :: RowsFor(db'.ledger, PaymentRef(p)) == RowsFor(db.ledger, PaymentRef(p)))
    decreases |ps|
  {
    hide GapsOf, SumWhere, RowsFor;
    if ps != [] {
      var refunded := Post(db, ps[0], Refund, fee, TournamentCancelRef(t));
      PostGaps(db, ps[0], Refund, fee, TournamentCancelRef(t));
      PostRows(db, ps[0], Refund, fee, TournamentCancelRef(t));
      RefundSums(refunded, t, fee, ps[1..]);
      OneMore(fee, |ps| - 1);
    }
  }

  lemma CancelKeeps(db: Db, t: int)
    requires CancelRefusal(db, t) == None
    requires TournamentsOk(db.customers.Keys, db.tournaments, db.ledger)
    requires db.customers.Keys == db.wallets.Keys
    ensures var db' := Last(db, CancelCommits(db, t));
            && GapsOf(db') == GapsOf(db)
            && TournamentsOk(db'.customers.Keys, db'.tournaments, db'.ledger)
            && db'.customers == db.customers && db'.payments == db.payments
            && (forall p :: RowsFor(db'.ledger, PaymentRef(p)) == RowsFor(db.ledger, PaymentRef(p)))
  {
    hide GapsOf, SumWhere, RowsFor, RefundCommits;
    var row := db.tournaments[t];
    var refunds := if 0 < row.entryFee then RefundCommits(db, t, row.entryFee, row.participants) else [];
    var refunded := Last(db, refunds);
    if 0 < row.entryFee { RefundSums(db, t, row.entryFee, row.participants); }
    TournamentGap(refunded, t, row.(status := TournamentCancelled));
  }

  lemma SettleGap(db: Db, t: int, scores: map<int, nat>)
    requires TournamentsOk(db.customers.Keys, db.tournaments, db.ledger)
    ensures GapsOf(Last(db, SettleCommits(db, t, scores))) == GapsOf(db)
  {
    hide GapsOf, SumWhere, WinnerOf;
    if SettleRefusal(db, t) == None {
      var row := db.tournaments[t];
      var winner := WinnerOf(db, t, scores);
      var settled := row.(status := Settled, winner := winner);
      TournamentGap(db, t, settled);
      if winner.Some? && row.prize.Some? && row.prize.value != 0
         && CreditRefusal(db, winner.value, row.prize.value) == None {
        PostGaps(db.(tournaments := db.tournaments[t := settled]), winner.value, TournamentPrize, row.prize.value,
                 TournamentPrizeRef(t));
      }
    }
  }

  lemma {:induction false} LeaderIsBest(db: Db, ps: seq<int>, scores: map<int, nat>)
    ensures var best := Leader(db, ps, scores);
            && (best == None <==> forall i :: 0 <= i < |ps| ==> ps[i] !in db.customers)
            && (best.Some? ==>
                  var (u, s) := best.value;
                  && u in ps && u in db.customers && s == (if u in scores then scores[u] else 0)
                  && forall i :: 0 <= i < |ps| && ps[i] in db.customers ==>
                       (if ps[i] in scores then scores[ps[i]] else 0) <= s)
  {
    if ps != [] {
      LeaderIsBest(db, ps[..|ps| - 1], scores);
    }
  }

  /** Settling names a participant of maximal positive score, or nobody when no known participant scored. */
  lemma WinnerIsBest(db: Db, t: int, scores: map<int, nat>)
    requires t in db.tournaments
    ensures var ps, w := db.tournaments[t].participants, WinnerOf(db, t, scores);
            && (w.Some? ==>
                  && w.value in ps && w.value in db.customers && w.value in scores && 0 < scores[w.value]
                  && forall u :: u in ps && u in db.customers && u in scores ==> scores[u] <= scores[w.value])
            && (w == None ==> forall u :: u in ps && u in db.customers && u in scores ==> scores[u] == 0)
  {
    LeaderIsBest(db, db.tournaments[t].participants, scores);
  }

  lemma SettleKeepsTournaments(db: Db, t: int, scores: map<int, nat>)
    requires TournamentsOk(db.customers.Keys, db.tournaments, db.ledger)
    ensures var db' := Last(db, SettleCommits(db, t, scores));
            TournamentsOk(db'.customers.Keys, db'.tournaments, db'.ledger)
  {
    hide SumWhere, RowsFor, WinnerOf;
    if SettleRefusal(db, t) == None {
      var row := db.tournaments[t];
      var winner := WinnerOf(db, t, scores);
      WinnerIsBest(db, t, scores);
      if winner.Some? && row.prize.Some? && row.prize.value != 0
         && CreditRefusal(db, winner.value, row.prize.value) == None {
        PostRows(db.(tournaments := db.tournaments[t := row.(status := Settled, winner := winner)]), winner.value,
                 TournamentPrize, row.prize.value, TournamentPrizeRef(t));
      }
    }
  }

  // ----- the calls that touch neither payments nor tournaments -----

  /** The ledger rows of payments and the ledger sums of tournaments are the same. */
  ghost predicate SameSides(l: seq<WalletRow>, l': seq<WalletRow>) {
    && (forall p :: RowsFor(l', PaymentRef(p)) == RowsFor(l, PaymentRef(p)))
    && (forall r :: ClassOf(r) == TournamentClass ==> SumWhere(l', ByRef(r)) == SumWhere(l, ByRef(r)))
  }

  lemma PostSides(db: Db, u: int, kind: WalletKind, amount: int, ref: Ref)
    requires u in db.wallets && ClassOf(ref) != PaymentClass && ClassOf(ref) != TournamentClass
    ensures SameSides(db.ledger, Post(db, u, kind, amount, ref).ledger)
  {
    hide SumWhere, RowsFor;
    PostRows(db, u, kind, amount, ref);
  }

  lemma SidesChain(a: seq<WalletRow>, b: seq<WalletRow>, c: seq<WalletRow>)
    requires SameSides(a, b) && SameSides(b, c)
    ensures SameSides(a, c)
  {
    hide SumWhere, RowsFor;
  }

  lemma SidesKeep(db: Db, db': Db)
    requires SameSides(db.ledger, db'.ledger) && db'.payments == db.payments && db'.tournaments == db.tournaments
    requires db.customers.Keys <= db'.customers.Keys
    requires NoneHalfPaid(db.payments, db.ledger) && TournamentsOk(db.customers.Keys, db.tournaments, db.ledger)
    ensures NoneHalfPaid(db'.payments, db'.ledger) && TournamentsOk(db'.customers.Keys, db'.tournaments, db'.ledger)
  {
    hide SumWhere, RowsFor;
  }

  predicate Sideways(call: Call) {
    !call.CreatePayment? && !call.Webhook? && !call.CreateTournament? && !call.Join? && !call.EndNow?
    && !call.Cancel? && !call.Settle?
  }

  /** A commit that leaves payments and tournaments and their ledger rows as they were. */
  ghost predicate Beside(db: Db, db': Db) {
    && SameSides(db.ledger, db'.ledger) && db'.payments == db.payments && db'.tournaments == db.tournaments
    && db.customers.Keys <= db'.customers.Keys
  }

  lemma PurchaseBeside(db: Db, u: int, p: int, quantity: int, coupon: Option<int>, id: int, now: int, cash: Cashback)
    ensures Beside(db, Last(db, PurchaseCommits(db, u, p, quantity, coupon, id, now, cash)))
  {
    hide CalculatePrice, PercentOf, SameSides;
    NothingBeside(db);
    if PurchaseRefusal(db, u, p, quantity, coupon, id, now) == None {
      var o := NewOrder(db, u, p, quantity, coupon, now);
      var paid := PayOrder(db, id, o, coupon);
      PostSides(db.(orders := paid.orders, coupons := paid.coupons), u, Purchase, -o.finalPrice, PayRef(id, o));
      if u in db.customers && CashbackFor(db, u, o.finalPrice, cash).Some? {
        var (r, amount) := CashbackFor(db, u, o.finalPrice, cash).value;
        var confirmed := ConfirmOrder(paid, id);
        if r in confirmed.wallets {
          PostSides(confirmed, r, Bonus, amount, CashbackRef(id));
          SidesChain(db.ledger, confirmed.ledger, Post(confirmed, r, Bonus, amount, CashbackRef(id)).ledger);
        }
      }
    }
  }

  lemma NothingBeside(db: Db)
    ensures SameSides(db.ledger, db.ledger)
  {
  }

  lemma AutoRenewBeside(db: Db, u: int, s: int, id: int, answer: RenewalAnswer)
    ensures Beside(db, Last(db, AutoRenewCommits(db, u, s, id, answer)))
  {
    hide SumWhere, RowsFor;
    if AutoRenewRefusal(db, u, s, id) == None {
      var (p, price) := RenewalPrice(db, u, s).value;
      var o := Order(u, p, 1, price, price, Pending, VpnRenewal, None);
      var paid := PayOrder(db, id, o, None);
      PostSides(db.(orders := paid.orders, coupons := paid.coupons), u, Purchase, -price, PayRef(id, o));
      if answer.Failed? { PostSides(paid, u, Refund, price, RenewalRefundRef(id)); }
    }
  }

  lemma VpnRenewBeside(db: Db, u: int, s: int, panelActive: bool, now: int, answer: RenewalAnswer)
    ensures Beside(db, Last(db, VpnRenewCommits(db, u, s, panelActive, now, answer)))
  {
    hide SumWhere, RowsFor, VpnRenewPrice;
    if VpnRenewRefusal(db, u, s, panelActive, now) == None {
      var price := VpnRenewPrice(db, u, s, now).value;
      VpnService(db, u, s, now);
      PostSides(db, u, Purchase, -price, VpnRenewRef(s, now));
      if answer.Failed? {
        PostSides(Post(db, u, Purchase, -price, VpnRenewRef(s, now)), u, Refund, price, VpnRenewRefundRef(s, now));
      }
    }
  }

  lemma ApproveBeside(db: Db, id: int)
    requires ApproveRefusal(db, id) == None
    ensures Beside(db, Decided(db, id))
  {
    hide SumWhere, RowsFor;
    var r := db.requests[id];
    if r.kind.Rial? {
      PostSides(db.(requests := db.requests[id := r.(status := Approved)]), r.user, Deposit, r.amount, DepositRef(id));
    }
  }

  lemma CallBeside(db: Db, call: Call)
    requires Sideways(call)
    ensures Beside(db, Last(db, Commits(db, call)))
  {
    hide PurchaseCommits, AutoRenewCommits, VpnRenewCommits, Decided, SumWhere, RowsFor, CreateCouponRefusal;
    match call
    case Buy(u, p, quantity, coupon, id, now, cash) => PurchaseBeside(db, u, p, quantity, coupon, id, now, cash);
    case AutoRenew(u, s, id, answer) => AutoRenewBeside(db, u, s, id, answer);
    case VpnRenew(u, s, panelActive, now, answer) => VpnRenewBeside(db, u, s, panelActive, now, answer);
    case Approve(id) => if ApproveRefusal(db, id) == None { ApproveBeside(db, id); }
    case _ =>
  }

  // ----- clean runs -----

  lemma OrderCallGap(db: Db, call: Call)
    requires call.Buy? || call.MarkDelivered? || call.AutoDeliver? || call.AutoRenew? || call.VpnRenew?
    requires db.customers.Keys == db.wallets.Keys
    ensures GapsOf(Last(db, Commits(db, call))) == GapsOf(db)
  {
    hide GapsOf, PurchaseCommits, AutoRenewCommits, VpnRenewCommits, AutoDeliverCommits;
    match call
    case Buy(u, p, quantity, coupon, id, now, cash) => PurchaseGap(db, u, p, quantity, coupon, id, now, cash);
    case MarkDelivered(id) =>
      if DeliveredRefusal(db, id) == None { OrderGap(db, id, db.orders[id].(status := Completed)); }
    case AutoDeliver(id, answer) => AutoDeliverGap(db, id, answer);
    case AutoRenew(u, s, id, answer) => AutoRenewGap(db, u, s, id, answer);
    case VpnRenew(u, s, panelActive, now, answer) => VpnRenewGap(db, u, s, panelActive, now, answer);
  }

  lemma PlainCallGap(db: Db, call: Call)
    requires call.Signup? || call.EditProduct? || call.CreateCoupon? || call.DeleteCoupon?
    ensures GapsOf(Last(db, Commits(db, call))) == GapsOf(db)
  {
    hide GapsOf, CreateCouponRefusal;
    OtherTables(db, Last(db, Commits(db, call)));
  }

  lemma RequestCallGap(db: Db, call: Call)
    requires call.CreateRequest? || call.Approve? || call.Reject?
    ensures GapsOf(Last(db, Commits(db, call))) == GapsOf(db)
  {
    hide GapsOf, Decided;
    match call
    case CreateRequest(id, u, amount, kind, tokens) =>
      RequestGap(db, id, Request(u, amount, kind, if kind.Token? then tokens else None, AwaitingDecision));
    case Approve(id) => if ApproveRefusal(db, id) == None { ApproveGap(db, id); }
    case Reject(id) =>
      if id in db.requests && db.requests[id].status.AwaitingDecision? {
        RequestGap(db, id, db.requests[id].(status := Rejected));
      }
  }

  lemma PaymentCallGap(db: Db, call: Call)
    requires call.CreatePayment? || call.Webhook?
    requires NoneHalfPaid(db.payments, db.ledger)
    ensures GapsOf(Last(db, Commits(db, call))) == GapsOf(db)
  {
    hide GapsOf, WebhookCommits, NoneHalfPaid;
    match call
    case CreatePayment(p, u, amount, quote) =>
      PaymentGap(db, p, Payment(u, amount, PaymentFailed, None, None));
      PaymentGap(db, p, Payment(u, amount, PaymentPending, None, quote));
    case Webhook(p, d) => WebhookGap(db, p, d);
  }

  lemma TournamentCallGap(db: Db, call: Call)
    requires call.CreateTournament? || call.Join? || call.EndNow? || call.Cancel? || call.Settle?
    requires db.customers.Keys == db.wallets.Keys
    requires TournamentsOk(db.customers.Keys, db.tournaments, db.ledger)
    ensures GapsOf(Last(db, Commits(db, call))) == GapsOf(db)
  {
    hide GapsOf, JoinCommits, CancelCommits, SettleCommits, TournamentsOk;
    match call
    case CreateTournament(t, fee, prize) =>
      TournamentGap(db, t, Tournament(fee, prize, TournamentActive, None, []));
    case Join(t, u) => JoinGap(db, t, u);
    case EndNow(t) => if t in db.tournaments { TournamentGap(db, t, db.tournaments[t].(status := Ended)); }
    case Cancel(t) => if CancelRefusal(db, t) == None { CancelKeeps(db, t); } else { CancelNothing(db, t); }
    case Settle(t, scores) => SettleGap(db, t, scores);
  }

  lemma CallGap(db: Db, call: Call)
    requires db.customers.Keys == db.wallets.Keys
    requires NoneHalfPaid(db.payments, db.ledger)
    requires TournamentsOk(db.customers.Keys, db.tournaments, db.ledger)
    ensures GapsOf(Last(db, Commits(db, call))) == GapsOf(db)
  {
    hide GapsOf, Commits, NoneHalfPaid, TournamentsOk;
    if call.Buy? || call.MarkDelivered? || call.AutoDeliver? || call.AutoRenew? || call.VpnRenew? {
      OrderCallGap(db, call);
    } else if call.Signup? || call.EditProduct? || call.CreateCoupon? || call.DeleteCoupon? {
      PlainCallGap(db, call);
    } else if call.CreateRequest? || call.Approve? || call.Reject? {
      RequestCallGap(db, call);
    } else if call.CreatePayment? || call.Webhook? {
      PaymentCallGap(db, call);
    } else {
      TournamentCallGap(db, call);
    }
  }

  lemma CancelNothing(db: Db, t: int)
    requires CancelRefusal(db, t).Some?
    ensures CancelCommits(db, t) == []
  {
  }

  /** Changing a tournament row where its sums allow it, or adding one. */
  lemma TournamentUpdate(users: set<int>, tournaments: map<int, Tournament>, l: seq<WalletRow>, t: int, row: Tournament)
    requires TournamentsOk(users, tournaments, l)
    requires TournamentOk(users, row, SumWhere(l, ByRef(TournamentEntryRef(t))),
                          SumWhere(l, ByRef(TournamentCancelRef(t))), SumWhere(l, ByRef(TournamentPrizeRef(t))))
    ensures TournamentsOk(users, tournaments[t := row], l)
  {
    hide SumWhere, TournamentOk;
  }

  lemma TournamentFacts(users: set<int>, tournaments: map<int, Tournament>, l: seq<WalletRow>, t: int)
    requires TournamentsOk(users, tournaments, l)
    ensures var entries, refunds, prizes :=
              SumWhere(l, ByRef(TournamentEntryRef(t))), SumWhere(l, ByRef(TournamentCancelRef(t))),
              SumWhere(l, ByRef(TournamentPrizeRef(t)));
            if t in tournaments then TournamentOk(users, tournaments[t], entries, refunds, prizes)
            else entries == 0 && refunds == 0 && prizes == 0
  {
    hide SumWhere, TournamentOk;
  }

  lemma LastStays(db: Db, commits: seq<Db>)
    requires AllStay(PaymentSide, db, commits)
    ensures Last(db, commits).payments == db.payments
    ensures forall p :: RowsFor(Last(db, commits).ledger, PaymentRef(p)) == RowsFor(db.ledger, PaymentRef(p))
  {
    hide RowsFor;
    if commits != [] { assert Stays(PaymentSide, db, commits[|commits| - 1]); }
  }

  lemma HalfPaidFrame(payments: map<int, Payment>, l: seq<WalletRow>, l': seq<WalletRow>)
    requires NoneHalfPaid(payments, l) && forall p :: RowsFor(l', PaymentRef(p)) == RowsFor(l, PaymentRef(p))
    ensures NoneHalfPaid(payments, l')
  {
    hide RowsFor;
  }

  lemma TournamentsFrame(users: set<int>, tournaments: map<int, Tournament>, l: seq<WalletRow>, l': seq<WalletRow>)
    requires TournamentsOk(users, tournaments, l)
    requires forall r :: ClassOf(r) == TournamentClass ==> SumWhere(l', ByRef(r)) == SumWhere(l, ByRef(r))
    ensures TournamentsOk(users, tournaments, l')
  {
    hide SumWhere, TournamentOk;
  }

  lemma NewPaymentKeepsOthers(payments: map<int, Payment>, l: seq<WalletRow>, p: int, row: Payment)
    requires p !in payments && NoneHalfPaid(payments, l)
    ensures NoneHalfPaid(payments[p := row], l)
  {
    hide RowsFor;
  }

  lemma CreatePaymentKeepsSides(db: Db, p: int, u: int, amount: int, quote: Option<int>)
    requires NoneHalfPaid(db.payments, db.ledger)
    ensures var db' := Last(db, Commits(db, CreatePayment(p, u, amount, quote)));
            NoneHalfPaid(db'.payments, db'.ledger) && db' == db.(payments := db'.payments)
  {
    hide NoneHalfPaid;
    if 0 < amount && p !in db.payments {
      NewPaymentKeepsOthers(db.payments, db.ledger, p, Payment(u, amount, PaymentFailed, None, None));
      NewPaymentKeepsOthers(db.payments, db.ledger, p, Payment(u, amount, PaymentPending, None, quote));
    }
  }

  lemma WebhookKeepsSides(db: Db, p: int, d: Notice)
    requires NoneHalfPaid(db.payments, db.ledger)
    requires TournamentsOk(db.customers.Keys, db.tournaments, db.ledger)
    ensures var db' := Last(db, Commits(db, Webhook(p, d)));
            NoneHalfPaid(db'.payments, db'.ledger) && TournamentsOk(db'.customers.Keys, db'.tournaments, db'.ledger)
  {
    hide WebhookCommits, NoneHalfPaid, TournamentsOk, SumWhere;
    WebhookSettles(db, p, d);
    WebhookBeside(db, p, d);
    TournamentsFrame(db.customers.Keys, db.tournaments, db.ledger, Last(db, WebhookCommits(db, p, d)).ledger);
  }

  lemma RowChangeKeepsTournaments(db: Db, call: Call)
    requires call.CreateTournament? || call.EndNow?
    requires TournamentsOk(db.customers.Keys, db.tournaments, db.ledger)
    ensures var db' := Last(db, Commits(db, call));
            TournamentsOk(db'.customers.Keys, db'.tournaments, db'.ledger)
            && db'.ledger == db.ledger && db'.payments == db.payments
  {
    hide TournamentsOk, SumWhere;
    match call
    case CreateTournament(t, fee, prize) =>
      TournamentFacts(db.customers.Keys, db.tournaments, db.ledger, t);
      if t !in db.tournaments {
        var row := Tournament(fee, prize, TournamentActive, None, []);
        TournamentUpdate(db.customers.Keys, db.tournaments, db.ledger, t, row);
      }
    case EndNow(t) =>
      TournamentFacts(db.customers.Keys, db.tournaments, db.ledger, t);
      if t in db.tournaments && db.tournaments[t].status.TournamentActive? {
        TournamentUpdate(db.customers.Keys, db.tournaments, db.ledger, t, db.tournaments[t].(status := Ended));
      }
  }

  lemma TournamentCallKeepsSides(db: Db, call: Call)
    requires call.Join? || call.Cancel? || call.Settle?
    requires db.customers.Keys == db.wallets.Keys
    requires NoneHalfPaid(db.payments, db.ledger)
    requires TournamentsOk(db.customers.Keys, db.tournaments, db.ledger)
    ensures var db' := Last(db, Commits(db, call));
            NoneHalfPaid(db'.payments, db'.ledger) && TournamentsOk(db'.customers.Keys, db'.tournaments, db'.ledger)
  {
    hide JoinCommits, CancelCommits, SettleCommits, NoneHalfPaid, TournamentsOk, SumWhere, RowsFor;
    var db' := Last(db, Commits(db, call));
    match call
    case Join(t, u) =>
      JoinKeepsTournaments(db, t, u);
      JoinStays(PaymentSide, db, t, u);
      LastStays(db, JoinCommits(db, t, u));
      HalfPaidFrame(db.payments, db.ledger, db'.ledger);
    case Cancel(t) =>
      if CancelRefusal(db, t) == None {
        CancelKeeps(db, t);
        HalfPaidFrame(db.payments, db.ledger, db'.ledger);
      } else {
        CancelNothing(db, t);
      }
    case Settle(t, scores) =>
      SettleKeepsTournaments(db, t, scores);
      SettleStays(PaymentSide, db, t, scores);
      LastStays(db, SettleCommits(db, t, scores));
      HalfPaidFrame(db.payments, db.ledger, db'.ledger);
  }

  /** A completed call keeps the payments settled and the tournaments matched. */
  lemma CallKeepsSides(db: Db, call: Call)
    requires db.customers.Keys == db.wallets.Keys
    requires NoneHalfPaid(db.payments, db.ledger)
    requires TournamentsOk(db.customers.Keys, db.tournaments, db.ledger)
    ensures var db' := Last(db, Commits(db, call));
            NoneHalfPaid(db'.payments, db'.ledger) && TournamentsOk(db'.customers.Keys, db'.tournaments, db'.ledger)
  {
    hide Commits, NoneHalfPaid, TournamentsOk, SameSides;
    if Sideways(call) {
      CallBeside(db, call);
      SidesKeep(db, Last(db, Commits(db, call)));
    } else if call.CreatePayment? {
      CreatePaymentKeepsSides(db, call.payment, call.user, call.amount, call.quote);
    } else if call.Webhook? {
      WebhookKeepsSides(db, call.payment, call.delivery);
    } else if call.CreateTournament? || call.EndNow? {
      RowChangeKeepsTournaments(db, call);
    } else {
      TournamentCallKeepsSides(db, call);
    }
  }

  lemma CallKeepsClean(db: Db, call: Call)
    requires Clean(db)
    ensures Clean(Last(db, Commits(db, call)))
  {
    hide Commits, GapsOf, NoneHalfPaid, TournamentsOk, WalletsOk, OrdersPaid, CouponsMatch, RequestsMatch,
         PaymentsMatch;
    CallGap(db, call);
    CallKeepsSides(db, call);
    EveryCommitIsSafe(db, call);
  }

  lemma EmptyIsClean()
    ensures Clean(EMPTY_DB)
  {
    hide Safe, GapsOf, NoneHalfPaid, TournamentsOk;
    EmptyIsSafe();
    NoGapsAtFirst();
    NothingOpenAtFirst();
  }

  lemma NoGapsAtFirst()
    ensures GapsOf(EMPTY_DB) == NO_GAPS
  {
    assert Values(EMPTY_DB.orders) == map[];
    assert Approvals(EMPTY_DB.requests) == map[];
    assert PaidAmounts(EMPTY_DB.payments) == map[];
    assert Takings(EMPTY_DB.tournaments) == map[];
  }

  lemma NothingOpenAtFirst()
    ensures NoneHalfPaid(EMPTY_DB.payments, EMPTY_DB.ledger)
    ensures TournamentsOk(EMPTY_DB.customers.Keys, EMPTY_DB.tournaments, EMPTY_DB.ledger)
  {
  }

  lemma {:induction false} CleanRunKeeps(db: Db, calls: seq<Call>)
    requires Clean(db)
    ensures Clean(CleanRun(db, calls))
    decreases |calls|
  {
    hide Clean, Commits;
    if calls != [] {
      CallKeepsClean(db, calls[0]);
      CleanRunKeeps(Last(db, Commits(db, calls[0])), calls[1..]);
    }
  }

  /**
   * After any calls that all completed, the total of the wallets is the approved toman deposits, the paid
   * payments and the referral cashbacks, less the revenue of orders, what `VPNRenewalService` kept and the
   * net takings of the tournaments.
   */
  lemma WalletsReconcile(calls: seq<Call>)
    ensures var db := CleanRun(EMPTY_DB, calls);
            Total(db.wallets)
            == Total(Approvals(db.requests)) + Total(PaidAmounts(db.payments)) + Sum(db.ledger, CashbackClass)
               - Revenue(db.orders) - RenewalTakings(db.ledger) - Total(Takings(db.tournaments))
  {
    hide CleanRun, NoneHalfPaid, TournamentsOk, OrdersPaid, CouponsMatch, RequestsMatch, PaymentsMatch,
         Total, SumWhere, Chained, Latest, Revenue;
    EmptyIsClean();
    CleanRunKeeps(EMPTY_DB, calls);
    LedgerSplits(CleanRun(EMPTY_DB, calls).ledger);
  }

  /** After any calls that all completed, each tournament's ledger rows add up to its closed form. */
  lemma TournamentSums(calls: seq<Call>, t: int)
    ensures var db := CleanRun(EMPTY_DB, calls);
            t in db.tournaments ==>
              TournamentOk(db.customers.Keys, db.tournaments[t],
                           SumWhere(db.ledger, ByRef(TournamentEntryRef(t))),
                           SumWhere(db.ledger, ByRef(TournamentCancelRef(t))),
                           SumWhere(db.ledger, ByRef(TournamentPrizeRef(t))))
  {
    hide CleanRun, NoneHalfPaid, OrdersPaid, CouponsMatch, RequestsMatch, PaymentsMatch, WalletsOk, GapsOf, SumWhere,
         TournamentsOk, TournamentOk;
    EmptyIsClean();
    CleanRunKeeps(EMPTY_DB, calls);
    var db := CleanRun(EMPTY_DB, calls);
    TournamentFacts(db.customers.Keys, db.tournaments, db.ledger, t);
  }
}

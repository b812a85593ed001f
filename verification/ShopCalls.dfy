/**
 * What the toman services commit.  `WalletService.credit` and `debit` commit inside the call, so most
 * services commit several times; each call is described by the list of database states it commits, in
 * order.  An empty list is a call that raised and was rolled back, or had nothing to do.
 */
module ShopCalls {
  import opened Options
  import opened Pricing
  import opened ShopTables

  datatype ShopError =
    | ProductUnavailable | PriceFailed(reason: PriceError)
    | CouponNotFound | CouponUsed | CouponExpired | InvalidPercent | CodeTaken
    | InvalidAmount | NoWallet | InsufficientBalance
    | NotFound | AlreadyDecided | AlreadyProcessed | DuplicateId
    | NotRenewable | ProviderFailed | UnknownPayment | UnclearAmount
    | TournamentClosed | AlreadyJoined | AlreadySettled | NotCancellable

  function CreditRefusal(db: Db, u: int, amount: int): Option<ShopError> {
    if amount <= 0 then Some(InvalidAmount)
    else if u !in db.wallets then Some(NoWallet)
    else None
  }

  function DebitRefusal(db: Db, u: int, amount: int): Option<ShopError> {
    if amount <= 0 then Some(InvalidAmount)
    else if u !in db.wallets then Some(NoWallet)
    else if db.wallets[u] < amount then Some(InsufficientBalance)
    else None
  }

  // ----- single commits -----

  /** The reference of the row that pays an order. */
  function PayRef(id: int, o: Order): Ref {
    if o.delivery.VpnRenewal? then RenewalOrderRef(id) else OrderRef(id)
  }

  function Redeemed(c: Coupon, u: int, id: int): Coupon {
    c.(used := true, usedBy := Some(u), usedOrder := Some(id))
  }

  /** The order row, the redeemed coupon and the debit, committed together by the debit. */
  function PayOrder(db: Db, id: int, o: Order, coupon: Option<int>): Db
    requires o.user in db.wallets && (coupon.Some? ==> coupon.value in db.coupons)
  {
    var ordered := db.(
      orders := db.orders[id := o],
      coupons := if coupon.Some? then db.coupons[coupon.value := Redeemed(db.coupons[coupon.value], o.user, id)]
                 else db.coupons);
    Post(ordered, o.user, Purchase, -o.finalPrice, PayRef(id, o))
  }

  function SetStatus(db: Db, id: int, status: OrderStatus): Db
    requires id in db.orders
  {
    db.(orders := db.orders[id := db.orders[id].(status := status)])
  }

  /** The order waits for delivery and the buyer's counters move. */
  function ConfirmOrder(db: Db, id: int): Db
    requires id in db.orders && db.orders[id].user in db.customers
  {
    var o := db.orders[id];
    var c := db.customers[o.user];
    SetStatus(db, id, WaitingAdmin).(
      customers := db.customers[o.user := c.(purchases := c.purchases + 1, spent := c.spent + o.finalPrice)])
  }

  // ----- purchases -----

  datatype Cashback = Cashback(enabled: bool, percent: int)

  function CouponRefusal(db: Db, c: int, now: int): Option<ShopError> {
    if c !in db.coupons then Some(CouponNotFound)
    else if db.coupons[c].used then Some(CouponUsed)
    else if db.coupons[c].expiresAt.Some? && db.coupons[c].expiresAt.value <= now then Some(CouponExpired)
    else None
  }

  /** The order a purchase would create, before it is paid. */
  function NewOrder(db: Db, u: int, p: int, quantity: int, coupon: Option<int>, now: int): Order
    requires p in db.products && CalculatePrice(db.products[p], quantity, now).Price?
    requires coupon.Some? ==> coupon.value in db.coupons
  {
    var price := CalculatePrice(db.products[p], quantity, now);
    if coupon == None then
      Order(u, p, price.quantity, price.unitPrice, price.total, Pending, Manual, None)
    else
      var c := db.coupons[coupon.value];
      Order(u, p, price.quantity, price.unitPrice, CouponPrice(price.total, c.percent), Pending, Manual, Some(c.code))
  }

  function PurchaseRefusal(db: Db, u: int, p: int, quantity: int, coupon: Option<int>, id: int, now: int)
    : Option<ShopError>
  {
    if p !in db.products || !db.products[p].active then Some(ProductUnavailable)
    else if CalculatePrice(db.products[p], quantity, now).NoPrice? then
      Some(PriceFailed(CalculatePrice(db.products[p], quantity, now).error))
    else if id in db.orders then Some(DuplicateId)
    else if coupon.Some? && CouponRefusal(db, coupon.value, now).Some? then CouponRefusal(db, coupon.value, now)
    else DebitRefusal(db, u, NewOrder(db, u, p, quantity, coupon, now).finalPrice)
  }

  /** The referrer to reward for a purchase and the reward. */
  function CashbackFor(db: Db, u: int, total: int, cash: Cashback): Option<(int, int)> {
    if u in db.customers && db.customers[u].referredBy.Some? && cash.enabled && 0 < cash.percent
       && 0 < PercentOf(total, cash.percent) && db.customers[u].referredBy.value in db.customers
    then Some((db.customers[u].referredBy.value, PercentOf(total, cash.percent)))
    else None
  }

  function PurchaseCommits(
      db: Db, u: int, p: int, quantity: int, coupon: Option<int>, id: int, now: int, cash: Cashback): seq<Db>
  {
    if PurchaseRefusal(db, u, p, quantity, coupon, id, now).Some? then []
    else
      var o := NewOrder(db, u, p, quantity, coupon, now);
      var paid := PayOrder(db, id, o, coupon);
      if u !in db.customers then [paid]
      else
        var confirmed := ConfirmOrder(paid, id);
        match CashbackFor(db, u, o.finalPrice, cash)
        case None => [paid, confirmed]
        case Some((r, amount)) =>
          if r !in confirmed.wallets then [paid]
          else
            var rewarded := Post(confirmed, r, Bonus, amount, CashbackRef(id));
            [paid, rewarded, rewarded]
  }

  function DeliveredRefusal(db: Db, id: int): Option<ShopError> {
    if id !in db.orders then Some(NotFound)
    else if !db.orders[id].status.WaitingAdmin? then Some(AlreadyProcessed)
    else None
  }

  /** Automatic delivery of an order: the panel's answer adds a service, then the order completes. */
  function DeliverCommits(db: Db, id: int, answer: Option<(int, Service)>): seq<Db>
    requires id in db.orders
  {
    match answer
    case None => []
    case Some((key, service)) =>
      var served := db.(services := db.services[key := service]);
      [served, served.(orders := served.orders[id := served.orders[id].(status := Completed, delivery := Api)])]
  }

  /** The automatic delivery that follows a purchase; its order waits for delivery. */
  function AutoDeliverCommits(db: Db, id: int, answer: Option<(int, Service)>): seq<Db> {
    if id !in db.orders || !db.orders[id].status.WaitingAdmin? || !db.orders[id].delivery.Manual?
       || (answer.Some? && answer.value.0 in db.services)
    then []
    else DeliverCommits(db, id, answer)
  }

  // ----- renewals -----

  /** How the provider part of a renewal ends; an exception the service does not catch is a crash. */
  datatype RenewalAnswer = Extended(expiresAt: Option<int>) | Failed

  /** The product and price an automatic renewal is charged by, if it can be renewed. */
  function RenewalPrice(db: Db, u: int, s: int): Option<(int, int)> {
    if s !in db.services || db.services[s].user != u || db.services[s].product == None then None
    else
      var p := db.services[s].product.value;
      if p !in db.products || !db.products[p].active then None
      else
        var price := if db.products[p].kind.Fixed? then db.products[p].fixedPrice else db.products[p].unitPrice;
        if price == None || price.value <= 0 then None else Some((p, price.value))
  }

  function AutoRenewRefusal(db: Db, u: int, s: int, id: int): Option<ShopError> {
    if RenewalPrice(db, u, s) == None then Some(NotRenewable)
    else if id in db.orders then Some(DuplicateId)
    else DebitRefusal(db, u, RenewalPrice(db, u, s).value.1)
  }

  function AutoRenewCommits(db: Db, u: int, s: int, id: int, answer: RenewalAnswer): seq<Db> {
    if AutoRenewRefusal(db, u, s, id).Some? then []
    else
      var (p, price) := RenewalPrice(db, u, s).value;
      var paid := PayOrder(db, id, Order(u, p, 1, price, price, Pending, VpnRenewal, None), None);
      match answer
      case Extended(expiresAt) =>
        var extended := paid.(services := paid.services[s := paid.services[s].(expiresAt := expiresAt)]);
        [paid, extended, SetStatus(extended, id, Completed)]
      case Failed =>
        var refunded := Post(paid, u, Refund, price, RenewalRefundRef(id));
        [paid, refunded, SetStatus(refunded, id, Refunded)]
  }

  /** The price `VPNRenewalService` charges: the product of the order the service came from. */
  function VpnRenewPrice(db: Db, u: int, s: int, now: int): Option<int> {
    if s !in db.services || db.services[s].user != u || db.services[s].order == None
       || db.services[s].order.value !in db.orders then None
    else
      var p := db.orders[db.services[s].order.value].product;
      if p !in db.products || !db.products[p].isVpn || CalculatePrice(db.products[p], 1, now).NoPrice? then None
      else Some(CalculatePrice(db.products[p], 1, now).total)
  }

  function VpnRenewRefusal(db: Db, u: int, s: int, panelActive: bool, now: int): Option<ShopError> {
    if VpnRenewPrice(db, u, s, now) == None || !panelActive then Some(NotRenewable)
    else DebitRefusal(db, u, VpnRenewPrice(db, u, s, now).value)
  }

  function VpnRenewCommits(db: Db, u: int, s: int, panelActive: bool, now: int, answer: RenewalAnswer): seq<Db> {
    if VpnRenewRefusal(db, u, s, panelActive, now).Some? then []
    else
      var price := VpnRenewPrice(db, u, s, now).value;
      var charged := Post(db, u, Purchase, -price, VpnRenewRef(s, now));
      match answer
      case Extended(expiresAt) =>
        [charged, charged.(services := charged.services[s := charged.services[s].(expiresAt := expiresAt)])]
      case Failed => [charged, Post(charged, u, Refund, price, VpnRenewRefundRef(s, now))]
  }

  // ----- coupons -----

  function CreateCouponRefusal(db: Db, c: int, code: string, percent: int): Option<ShopError> {
    if percent <= 0 || 90 < percent then Some(InvalidPercent)
    else if exists d :: d in db.coupons && db.coupons[d].code == code then Some(CodeTaken)
    else if c in db.coupons then Some(DuplicateId)
    else None
  }

  function DeleteCouponRefusal(db: Db, c: int): Option<ShopError> {
    if c !in db.coupons then Some(CouponNotFound)
    else if db.coupons[c].used then Some(CouponUsed)
    else None
  }

  // ----- manual deposits -----

  function CreateRequestRefusal(db: Db, id: int, amount: int, kind: DepositKind, tokens: Option<int>)
    : Option<ShopError>
  {
    if amount <= 0 then Some(InvalidAmount)
    else if kind.Token? && (tokens == None || tokens.value <= 0) then Some(InvalidAmount)
    else if id in db.requests then Some(DuplicateId)
    else None
  }

  function ApproveRefusal(db: Db, id: int): Option<ShopError> {
    if id !in db.requests then Some(NotFound)
    else if !db.requests[id].status.AwaitingDecision? then Some(AlreadyDecided)
    else if db.requests[id].kind.Rial? then CreditRefusal(db, db.requests[id].user, db.requests[id].amount)
    else if db.requests[id].tokenAmount == None || db.requests[id].tokenAmount.value <= 0 then Some(InvalidAmount)
    else None
  }

  /** The decision and, for a toman deposit, its credit: one commit, made by the credit. */
  function Decided(db: Db, id: int): Db
    requires ApproveRefusal(db, id) == None
  {
    var r := db.requests[id];
    var marked := db.(requests := db.requests[id := r.(status := Approved)]);
    if r.kind.Rial? then Post(marked, r.user, Deposit, r.amount, DepositRef(id)) else marked
  }

  // ----- external payments, one delivery at a time -----

  /** What a verified webhook says, and what the provider answers when asked for the amount. */
  datatype Notice = Notice(
    paid: bool, refused: bool, paidToman: Option<int>, reference: Option<int>, queried: Option<int>)

  /** The payment row after the fields a delivery always updates. */
  function Noted(payment: Payment, d: Notice): Payment {
    if payment.reference == None then payment.(reference := d.reference) else payment
  }

  /** The paid amount a delivery stands for; none when the service cannot tell and raises. */
  function PaidAmount(payment: Payment, d: Notice): Option<int> {
    var amount := if d.paidToman.Some? then d.paidToman
                  else if Noted(payment, d).reference == None then None
                  else d.queried;
    if amount.Some? && 0 < amount.value then amount else None
  }

  function MarkPayment(db: Db, p: int, payment: Payment): Db {
    db.(payments := db.payments[p := payment])
  }

  function NotPaidStatus(d: Notice): PaymentStatus {
    if d.refused then PaymentRejected else PaymentPending
  }

  predicate HasRow(db: Db, ref: Ref) {
    exists i :: 0 <= i < |db.ledger| && db.ledger[i].ref == ref
  }

  function CreditPayment(db: Db, p: int, payment: Payment, amount: int): Db
    requires payment.user in db.wallets
  {
    Post(MarkPayment(db, p, payment), payment.user, Deposit, amount, PaymentRef(p))
  }

  /** What one delivery does to the tables. */
  datatype Effect =
    | NoEffect
    | Marked(row: Payment)
    | Credited(noted: Payment, amount: int)

  function SettledRow(noted: Payment, amount: int): Payment {
    noted.(paid := Some(amount), status := Paid)
  }

  function WebhookEffect(db: Db, p: int, d: Notice): Effect {
    if p !in db.payments || db.payments[p].status.Paid? then NoEffect
    else
      var noted := Noted(db.payments[p], d);
      if !d.paid then Marked(noted.(status := NotPaidStatus(d)))
      else
        match PaidAmount(db.payments[p], d)
        case None => NoEffect
        case Some(amount) =>
          if amount < noted.amount then Marked(noted.(status := Underpaid))
          else if HasRow(db, PaymentRef(p)) then Marked(SettledRow(noted, amount))
          else if noted.user !in db.wallets then NoEffect
          else Credited(noted, amount)
  }

  /** Crediting commits before the payment row is marked paid. */
  function WebhookCommits(db: Db, p: int, d: Notice): seq<Db> {
    match WebhookEffect(db, p, d)
    case NoEffect => []
    case Marked(row) => [MarkPayment(db, p, row)]
    case Credited(noted, amount) =>
      var credited := CreditPayment(db, p, noted, amount);
      [credited, MarkPayment(credited, p, SettledRow(noted, amount))]
  }

  /** What the effect of a delivery presupposes. */
  lemma EffectFacts(db: Db, p: int, d: Notice)
    ensures match WebhookEffect(db, p, d)
            case NoEffect => true
            case Marked(row) =>
              && p in db.payments && !db.payments[p].status.Paid?
              && row.user == db.payments[p].user && row.amount == db.payments[p].amount
              && (row.status.Paid? ==> HasRow(db, PaymentRef(p)) && row.paid.Some? && row.amount <= row.paid.value)
            case Credited(noted, amount) =>
              && p in db.payments && !db.payments[p].status.Paid? && noted.status == db.payments[p].status
              && noted.user == db.payments[p].user && noted.amount == db.payments[p].amount <= amount
              && noted.user in db.wallets && 0 < amount && !HasRow(db, PaymentRef(p))
  {
  }

  // ----- tournaments -----

  /** The participant row needs a user row to refer to. */
  function JoinRefusal(db: Db, t: int, u: int): Option<ShopError> {
    if t !in db.tournaments then Some(NotFound)
    else if !db.tournaments[t].status.TournamentActive? then Some(TournamentClosed)
    else if u in db.tournaments[t].participants then Some(AlreadyJoined)
    else if 0 < db.tournaments[t].entryFee then DebitRefusal(db, u, db.tournaments[t].entryFee)
    else if u !in db.customers then Some(NotFound)
    else None
  }

  function Enrolled(db: Db, t: int, u: int): Db
    requires t in db.tournaments
  {
    var row := db.tournaments[t];
    db.(tournaments := db.tournaments[t := row.(participants := row.participants + [u])])
  }

  function JoinCommits(db: Db, t: int, u: int): seq<Db> {
    if JoinRefusal(db, t, u).Some? then []
    else if 0 < db.tournaments[t].entryFee then
      var paid := Post(db, u, TournamentEntry, -db.tournaments[t].entryFee, TournamentEntryRef(t));
      [paid, Enrolled(paid, t, u)]
    else [Enrolled(db, t, u)]
  }

  function CancelRefusal(db: Db, t: int): Option<ShopError> {
    if t !in db.tournaments then Some(NotFound)
    else if !db.tournaments[t].status.TournamentActive? && !db.tournaments[t].status.Ended? then Some(NotCancellable)
    else None
  }

  /** The refunds of a cancellation, one commit each; a participant without a user row is skipped. */
  function RefundCommits(db: Db, t: int, fee: int, ps: seq<int>): (commits: seq<Db>)
    ensures forall i :: 0 <= i < |commits| ==> commits[i].tournaments == db.tournaments
    decreases |ps|
  {
    if ps == [] then []
    else if ps[0] !in db.customers || ps[0] !in db.wallets then RefundCommits(db, t, fee, ps[1..])
    else
      var refunded := Post(db, ps[0], Refund, fee, TournamentCancelRef(t));
      [refunded] + RefundCommits(refunded, t, fee, ps[1..])
  }

  function Last(db: Db, commits: seq<Db>): Db {
    if commits == [] then db else commits[|commits| - 1]
  }

  function SetTournament(db: Db, t: int, status: TournamentStatus): Db
    requires t in db.tournaments
  {
    db.(tournaments := db.tournaments[t := db.tournaments[t].(status := status)])
  }

  function CancelCommits(db: Db, t: int): seq<Db> {
    if CancelRefusal(db, t).Some? then []
    else
      var row := db.tournaments[t];
      var refunds := if 0 < row.entryFee then RefundCommits(db, t, row.entryFee, row.participants) else [];
      refunds + [SetTournament(Last(db, refunds), t, TournamentCancelled)]
  }

  /** The first row of the leaderboard: of the known participants one with the highest score, the earliest
      to join among equals. */
  function Leader(db: Db, ps: seq<int>, scores: map<int, nat>): Option<(int, nat)> {
    if ps == [] then None
    else
      var best := Leader(db, ps[..|ps| - 1], scores);
      var u := ps[|ps| - 1];
      if u !in db.customers then best
      else
        var score := if u in scores then scores[u] else 0;
        if best == None || best.value.1 < score then Some((u, score)) else best
  }

  function SettleRefusal(db: Db, t: int): Option<ShopError> {
    if t !in db.tournaments then Some(NotFound)
    else if db.tournaments[t].status.Settled? then Some(AlreadySettled)
    else if db.tournaments[t].status.TournamentCancelled? then Some(TournamentClosed)
    else None
  }

  function WinnerOf(db: Db, t: int, scores: map<int, nat>): Option<int>
    requires t in db.tournaments
  {
    match Leader(db, db.tournaments[t].participants, scores)
    case None => None
    case Some((u, score)) => if 0 < score then Some(u) else None
  }

  /** The new status, the winner and the prize, in one commit. */
  function SettleCommits(db: Db, t: int, scores: map<int, nat>): seq<Db> {
    if SettleRefusal(db, t).Some? then []
    else
      var row := db.tournaments[t];
      var winner := WinnerOf(db, t, scores);
      var marked := db.(tournaments := db.tournaments[t := row.(status := Settled, winner := winner)]);
      if winner.Some? && row.prize.Some? && row.prize.value != 0 then
        if CreditRefusal(db, winner.value, row.prize.value).Some? then []
        else [Post(marked, winner.value, TournamentPrize, row.prize.value, TournamentPrizeRef(t))]
      else [marked]
  }

  // ----- all calls -----

  datatype Call =
    | Signup(user: int, referrer: Option<int>)
    | EditProduct(product: int, row: Product)
    | Buy(user: int, product: int, quantity: int, withCoupon: Option<int>, order: int, now: int, cash: Cashback)
    | MarkDelivered(order: int)
    | AutoDeliver(order: int, created: Option<(int, Service)>)
    | AutoRenew(user: int, service: int, order: int, answer: RenewalAnswer)
    | VpnRenew(user: int, service: int, panelActive: bool, now: int, answer: RenewalAnswer)
    | CreateCoupon(coupon: int, code: string, percent: int, expiresAt: Option<int>)
    | DeleteCoupon(coupon: int)
    | CreateRequest(request: int, user: int, amount: int, kind: DepositKind, tokens: Option<int>)
    | Approve(request: int)
    | Reject(request: int)
    | CreatePayment(payment: int, user: int, amount: int, quote: Option<int>)
    | Webhook(payment: int, delivery: Notice)
    | CreateTournament(tournament: int, entryFee: int, prize: Option<int>)
    | Join(tournament: int, user: int)
    | EndNow(tournament: int)
    | Cancel(tournament: int)
    | Settle(tournament: int, scores: map<int, nat>)

  function SignupRow(db: Db, u: int, referrer: Option<int>): Customer {
    Customer(if referrer.Some? && referrer.value in db.customers && referrer.value != u then referrer else None, 0, 0)
  }

  /** The states a call commits. */
  function Commits(db: Db, call: Call): seq<Db> {
    match call
    case Signup(u, referrer) =>
      if u in db.customers || u in db.wallets then []
      else [db.(customers := db.customers[u := SignupRow(db, u, referrer)], wallets := db.wallets[u := 0])]
    case EditProduct(p, row) => [db.(products := db.products[p := row])]
    case Buy(u, p, quantity, coupon, id, now, cash) => PurchaseCommits(db, u, p, quantity, coupon, id, now, cash)
    case MarkDelivered(id) => if DeliveredRefusal(db, id).Some? then [] else [SetStatus(db, id, Completed)]
    case AutoDeliver(id, answer) => AutoDeliverCommits(db, id, answer)
    case AutoRenew(u, s, id, answer) => AutoRenewCommits(db, u, s, id, answer)
    case VpnRenew(u, s, panelActive, now, answer) => VpnRenewCommits(db, u, s, panelActive, now, answer)
    case CreateCoupon(c, code, percent, expiresAt) =>
      if CreateCouponRefusal(db, c, code, percent).Some? then []
      else [db.(coupons := db.coupons[c := Coupon(code, percent, expiresAt, false, None, None)])]
    case DeleteCoupon(c) =>
      if DeleteCouponRefusal(db, c).Some? then [] else [db.(coupons := db.coupons - {c})]
    case CreateRequest(id, u, amount, kind, tokens) =>
      if CreateRequestRefusal(db, id, amount, kind, tokens).Some? then []
      else
        var row := Request(u, amount, kind, if kind.Token? then tokens else None, AwaitingDecision);
        [db.(requests := db.requests[id := row])]
    case Approve(id) => if ApproveRefusal(db, id).Some? then [] else [Decided(db, id)]
    case Reject(id) =>
      if id !in db.requests || !db.requests[id].status.AwaitingDecision? then []
      else [db.(requests := db.requests[id := db.requests[id].(status := Rejected)])]
    case CreatePayment(p, u, amount, quote) =>
      if amount <= 0 || p in db.payments then []
      else if quote == None then [MarkPayment(db, p, Payment(u, amount, PaymentFailed, None, None))]
      else [MarkPayment(db, p, Payment(u, amount, PaymentPending, None, quote))]
    case Webhook(p, d) => WebhookCommits(db, p, d)
    case CreateTournament(t, fee, prize) =>
      if t in db.tournaments then []
      else [db.(tournaments := db.tournaments[t := Tournament(fee, prize, TournamentActive, None, [])])]
    case Join(t, u) => JoinCommits(db, t, u)
    case EndNow(t) =>
      if t !in db.tournaments || !db.tournaments[t].status.TournamentActive? then []
      else [SetTournament(db, t, Ended)]
    case Cancel(t) => CancelCommits(db, t)
    case Settle(t, scores) => SettleCommits(db, t, scores)
  }

  // ----- runs -----

  /** A call whose process dies after `survive` commits; a number past the end is a call that completes. */
  datatype Event = Event(call: Call, survive: nat)

  function Persisted(db: Db, e: Event): Db {
    var commits := Commits(db, e.call);
    Last(db, if e.survive < |commits| then commits[..e.survive] else commits)
  }

  /** The database after calls of which any may have died after any of its commits. */
  function CrashRun(db: Db, events: seq<Event>): Db
    decreases |events|
  {
    if events == [] then db else CrashRun(Persisted(db, events[0]), events[1..])
  }

  /** The database after calls that all completed. */
  function CleanRun(db: Db, calls: seq<Call>): Db
    decreases |calls|
  {
    if calls == [] then db else CleanRun(Last(db, Commits(db, calls[0])), calls[1..])
  }
}

/** The toman side of the shop: its tables, and what one wallet posting does to them. */
module ShopTables {
  import opened Options
  import opened Totals
  import opened Ledgers
  import opened Pricing

  datatype WalletKind =
    | Deposit | Purchase | Refund | Bonus | AdminAdjustment | Withdrawal | TournamentEntry | TournamentPrize

  datatype Ref =
    | OrderRef(order: int)
    | CashbackRef(order: int)
    | RenewalOrderRef(order: int)
    | RenewalRefundRef(order: int)
    | VpnRenewRef(service: int, at: int)
    | VpnRenewRefundRef(service: int, at: int)
    | DepositRef(request: int)
    | PaymentRef(payment: int)
    | TournamentEntryRef(tournament: int)
    | TournamentCancelRef(tournament: int)
    | TournamentPrizeRef(tournament: int)

  type WalletRow = Entry<WalletKind, Ref>

  datatype Customer = Customer(referredBy: Option<int>, purchases: int, spent: int)

  datatype OrderStatus = Pending | WaitingAdmin | Completed | Refunded
  datatype Delivery = Manual | Api | VpnRenewal

  datatype Order = Order(
    user: int, product: int, quantity: int, unitPrice: int, finalPrice: int,
    status: OrderStatus, delivery: Delivery, coupon: Option<string>)

  datatype Coupon = Coupon(
    code: string, percent: int, expiresAt: Option<int>,
    used: bool, usedBy: Option<int>, usedOrder: Option<int>)

  datatype Service = Service(user: int, panel: int, order: Option<int>, product: Option<int>, expiresAt: Option<int>)

  datatype DepositKind = Rial | Token
  datatype RequestStatus = AwaitingDecision | Approved | Rejected
  datatype Request = Request(
    user: int, amount: int, kind: DepositKind, tokenAmount: Option<int>, status: RequestStatus)

  datatype PaymentStatus = PaymentPending | PaymentFailed | PaymentRejected | Underpaid | Paid
  datatype Payment = Payment(user: int, amount: int, status: PaymentStatus, paid: Option<int>, reference: Option<int>)

  datatype TournamentStatus = TournamentActive | Ended | Settled | TournamentCancelled
  datatype Tournament = Tournament(
    entryFee: int, prize: Option<int>, status: TournamentStatus, winner: Option<int>, participants: seq<int>)

  datatype Db = Db(
    customers: map<int, Customer>, wallets: map<int, int>, ledger: seq<WalletRow>,
    products: map<int, Product>, orders: map<int, Order>, coupons: map<int, Coupon>,
    services: map<int, Service>, requests: map<int, Request>, payments: map<int, Payment>,
    tournaments: map<int, Tournament>)

  const EMPTY_DB := Db(map[], map[], [], map[], map[], map[], map[], map[], map[], map[])

  /** The database after one wallet posting: the balance moves and the ledger grows by one row. */
  function Post(db: Db, u: int, kind: WalletKind, amount: int, ref: Ref): Db
    requires u in db.wallets
  {
    var before := db.wallets[u];
    db.(wallets := db.wallets[u := before + amount],
        ledger := db.ledger + [Entry(u, kind, amount, before, before + amount, ref)])
  }

  // ----- the wallet table and its ledger -----

  ghost predicate WalletsOk(wallets: map<int, int>, l: seq<WalletRow>) {
    && Chained(l)
    && (forall u :: u in wallets ==> 0 <= wallets[u] == Latest(l, u))
    && (forall i :: 0 <= i < |l| ==> l[i].user in wallets)
    && Total(wallets) == SumWhere(l, Everyone())
  }

  ghost function ByRef(ref: Ref): (int, WalletKind, Ref) -> bool {
    (u: int, k: WalletKind, r: Ref) => r == ref
  }

  /** The ledger rows with a given reference. */
  ghost function RowsFor(l: seq<WalletRow>, ref: Ref): seq<WalletRow> {
    Select(l, ByRef(ref))
  }

  lemma PostKeepsWallets(db: Db, u: int, kind: WalletKind, amount: int, ref: Ref)
    requires u in db.wallets && 0 <= db.wallets[u] + amount
    requires WalletsOk(db.wallets, db.ledger)
    ensures var db' := Post(db, u, kind, amount, ref); WalletsOk(db'.wallets, db'.ledger)
  {
    hide SumWhere, Total;
    var e := Post(db, u, kind, amount, ref).ledger[|db.ledger|];
    ChainAppend(db.ledger, e);
    SumAppend(db.ledger, e);
    TotalUpdate(db.wallets, u, e.after);
  }

  lemma PostRows(db: Db, u: int, kind: WalletKind, amount: int, ref: Ref)
    requires u in db.wallets
    ensures var db' := Post(db, u, kind, amount, ref);
            var e := Entry(u, kind, amount, db.wallets[u], db.wallets[u] + amount, ref);
            && (forall r :: RowsFor(db'.ledger, r)
                            == if r == ref then RowsFor(db.ledger, r) + [e] else RowsFor(db.ledger, r))
            && (forall p: (int, WalletKind, Ref) -> bool ::
                  SumWhere(db'.ledger, p) == SumWhere(db.ledger, p) + if p(u, kind, ref) then amount else 0)
  {
    hide SumWhere, Select;
    SelectAppend(db.ledger, Post(db, u, kind, amount, ref).ledger[|db.ledger|]);
    SumAppend(db.ledger, Post(db, u, kind, amount, ref).ledger[|db.ledger|]);
  }

  lemma PostSelects(db: Db, u: int, kind: WalletKind, amount: int, ref: Ref)
    requires u in db.wallets
    ensures var l := Post(db, u, kind, amount, ref).ledger;
            forall r :: RowsFor(l, r)
                        == if r == ref then RowsFor(db.ledger, r)
                                            + [Entry(u, kind, amount, db.wallets[u], db.wallets[u] + amount, ref)]
                           else RowsFor(db.ledger, r)
  {
    hide SumWhere, Select;
    PostRows(db, u, kind, amount, ref);
  }

  lemma PostRefSums(db: Db, u: int, kind: WalletKind, amount: int, ref: Ref)
    requires u in db.wallets
    ensures var l := Post(db, u, kind, amount, ref).ledger;
            forall r :: SumWhere(l, ByRef(r)) == SumWhere(db.ledger, ByRef(r)) + if r == ref then amount else 0
  {
    hide SumWhere, Select;
    PostRows(db, u, kind, amount, ref);
  }
}

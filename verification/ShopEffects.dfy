/**
 * What one call on the deposits, payments, orders, tournaments and users of the shop commits, said from the rows
 * before the call: when it is accepted, who is credited with how much, and the row it leaves.
 */
module ShopEffects {
  import opened Options
  import opened Ledgers
  import opened ShopTables
  import opened ShopCalls

  /** User `u` alone is credited with `amount`, under one new ledger row. */
  ghost predicate CreditsOne(db: Db, db': Db, u: int, kind: WalletKind, amount: int, ref: Ref) {
    && u in db.wallets
    && db'.wallets == db.wallets[u := db.wallets[u] + amount]
    && db'.ledger == db.ledger + [Entry(u, kind, amount, db.wallets[u], db.wallets[u] + amount, ref)]
  }

  ghost predicate NoMoney(db: Db, db': Db) {
    db'.wallets == db.wallets && db'.ledger == db.ledger
  }

  // ----- manual deposits -----

  /** A request is stored, undecided, exactly when its amounts are positive; only a token deposit keeps a token
      amount. */
  lemma RequestStored(db: Db, id: int, u: int, amount: int, kind: DepositKind, tokens: Option<int>)
    ensures var commits := Commits(db, CreateRequest(id, u, amount, kind, tokens));
            if && 0 < amount && id !in db.requests
               && (kind == Token ==> tokens.Some? && 0 < tokens.value)
            then
              && |commits| == 1
              && commits[0] == db.(requests := commits[0].requests)
              && (kind == Rial ==> commits[0].requests
                                   == db.requests[id := Request(u, amount, Rial, None, AwaitingDecision)])
              && (kind == Token ==> commits[0].requests
                                    == db.requests[id := Request(u, amount, Token, tokens, AwaitingDecision)])
            else commits == []
  {
  }

  /** An undecided request is approved once, in one commit: a toman deposit credits the asker with exactly the amount
      asked for, a token deposit moves no toman. */
  lemma ApprovalCredits(db: Db, id: int)
    ensures var commits := Commits(db, Approve(id));
            if && id in db.requests && db.requests[id].status == AwaitingDecision
               && (db.requests[id].kind == Rial ==> 0 < db.requests[id].amount && db.requests[id].user in db.wallets)
               && (db.requests[id].kind == Token ==>
                     db.requests[id].tokenAmount.Some? && 0 < db.requests[id].tokenAmount.value)
            then
              var r := db.requests[id];
              && |commits| == 1
              && commits[0].requests == db.requests[id := Request(r.user, r.amount, r.kind, r.tokenAmount, Approved)]
              && if r.kind == Rial then CreditsOne(db, commits[0], r.user, Deposit, r.amount, DepositRef(id))
                 else NoMoney(db, commits[0])
            else commits == []
  {
  }

  lemma RejectionDecides(db: Db, id: int)
    ensures var commits := Commits(db, Reject(id));
            if id in db.requests && db.requests[id].status == AwaitingDecision
            then
              var r := db.requests[id];
              var decided := Request(r.user, r.amount, r.kind, r.tokenAmount, Rejected);
              commits == [db.(requests := db.requests[id := decided])]
            else commits == []
  {
  }

  // ----- external payments -----

  /** A payment of a positive amount is stored: failed without the provider's reference when the provider fails,
      pending with it otherwise. */
  lemma PaymentStored(db: Db, p: int, u: int, amount: int, quote: Option<int>)
    ensures var commits := Commits(db, CreatePayment(p, u, amount, quote));
            if 0 < amount && p !in db.payments
            then
              && |commits| == 1 && commits[0] == db.(payments := commits[0].payments)
              && (quote == None ==> commits[0].payments
                                    == db.payments[p := Payment(u, amount, PaymentFailed, None, None)])
              && (quote.Some? ==> commits[0].payments
                                  == db.payments[p := Payment(u, amount, PaymentPending, None, quote)])
            else commits == []
  {
  }

  /** The provider's reference after a delivery: the first one ever stated. */
  function FirstReference(payment: Payment, d: Notice): Option<int> {
    if payment.reference.Some? then payment.reference else d.reference
  }

  /** The payment row alone changes, to this one. */
  ghost predicate Marks(db: Db, db': Db, p: int, row: Payment) {
    db' == db.(payments := db.payments[p := row])
  }

  predicate Open(db: Db, p: int) {
    p in db.payments && db.payments[p].status != Paid
  }

  /** A delivery about an unknown or a paid payment changes nothing. */
  lemma SettledPaymentsIgnoreNotices(db: Db, p: int, d: Notice)
    requires !Open(db, p)
    ensures Commits(db, Webhook(p, d)) == []
  {
  }

  /** A delivery that reports no payment moves no money; the payment is rejected exactly when the provider refused it,
      and pending otherwise. */
  lemma UnpaidNoticeMarks(db: Db, p: int, d: Notice)
    requires Open(db, p) && !d.paid
    ensures var commits, r := Commits(db, Webhook(p, d)), db.payments[p];
            && |commits| == 1
            && (d.refused ==>
                  Marks(db, commits[0], p, Payment(r.user, r.amount, PaymentRejected, r.paid, FirstReference(r, d))))
            && (!d.refused ==>
                  Marks(db, commits[0], p, Payment(r.user, r.amount, PaymentPending, r.paid, FirstReference(r, d))))
  {
  }

  /** What a paid notice states: its own amount, and without one the provider's answer for a known reference. */
  ghost predicate StatesAmount(payment: Payment, d: Notice, amount: int) {
    && 0 < amount
    && (d.paidToman.Some? ==> amount == d.paidToman.value)
    && (d.paidToman == None ==> FirstReference(payment, d).Some? && d.queried == Some(amount))
  }

  /** A paid notice without a recognisable positive amount raises, and nothing is kept. */
  lemma UnclearNoticeIsRefused(db: Db, p: int, d: Notice)
    requires Open(db, p) && d.paid
    requires forall amount :: !StatesAmount(db.payments[p], d, amount)
    ensures Commits(db, Webhook(p, d)) == []
  {
    var r := db.payments[p];
    if d.paidToman.Some? {
      assert !StatesAmount(r, d, d.paidToman.value);
    } else if d.queried.Some? {
      assert !StatesAmount(r, d, d.queried.value);
    }
  }

  /** A paid notice of too little is marked so and credits nothing; one of at least the invoice credits the payer with
      the whole amount paid, unless a row for the payment exists, and then records that amount as paid. */
  lemma PaidNoticeCredits(db: Db, p: int, d: Notice, amount: int)
    requires Open(db, p) && d.paid && StatesAmount(db.payments[p], d, amount)
    ensures var commits, r := Commits(db, Webhook(p, d)), db.payments[p];
            var reference := FirstReference(r, d);
            var paid := Payment(r.user, r.amount, Paid, Some(amount), reference);
            if amount < r.amount then
              |commits| == 1 && Marks(db, commits[0], p, Payment(r.user, r.amount, Underpaid, r.paid, reference))
            else if exists i :: 0 <= i < |db.ledger| && db.ledger[i].ref == PaymentRef(p) then
              |commits| == 1 && Marks(db, commits[0], p, paid)
            else if r.user !in db.wallets then commits == []
            else
              && |commits| == 2 && CreditsOne(db, commits[0], r.user, Deposit, amount, PaymentRef(p))
              && commits[0].payments == db.payments[p := Payment(r.user, r.amount, r.status, r.paid, reference)]
              && commits[1].payments == db.payments[p := paid] && NoMoney(commits[0], commits[1])
  {
    WebhookIs(db, p, d);
    hide Commits, WebhookEffect;
    PaidNoticeEffect(db, p, d, amount);
    var r := db.payments[p];
    var noted := Payment(r.user, r.amount, r.status, r.paid, FirstReference(r, d));
    assert db.payments[p := noted][p := SettledRow(noted, amount)] == db.payments[p := SettledRow(noted, amount)];
  }

  lemma WebhookIs(db: Db, p: int, d: Notice)
    ensures Commits(db, Webhook(p, d)) == WebhookCommits(db, p, d)
  {
    hide WebhookCommits;
  }

  lemma PaidNoticeEffect(db: Db, p: int, d: Notice, amount: int)
    requires Open(db, p) && d.paid && StatesAmount(db.payments[p], d, amount)
    ensures var r := db.payments[p];
            var noted := Payment(r.user, r.amount, r.status, r.paid, FirstReference(r, d));
            WebhookEffect(db, p, d)
            == if amount < r.amount then Marked(noted.(status := Underpaid))
               else if HasRow(db, PaymentRef(p)) then Marked(SettledRow(noted, amount))
               else if r.user !in db.wallets then NoEffect
               else Credited(noted, amount)
  {
    hide HasRow;
    assert PaidAmount(db.payments[p], d) == Some(amount);
  }

  // ----- orders -----

  /** A manual delivery completes an order that waits for it, and nothing else changes. */
  lemma DeliveryCompletes(db: Db, id: int)
    ensures var commits := Commits(db, MarkDelivered(id));
            if id in db.orders && db.orders[id].status == WaitingAdmin
            then
              var o := db.orders[id];
              commits == [db.(orders := db.orders[id := Order(o.user, o.product, o.quantity, o.unitPrice, o.finalPrice,
                                                              Completed, o.delivery, o.coupon)])]
            else commits == []
  {
  }

  /** The automatic delivery of a waiting order stores the account the panel made and then completes the order, which
      now counts as delivered by the API; without an account nothing changes. */
  lemma AutoDeliveryCompletes(db: Db, id: int, key: int, service: Service)
    requires id in db.orders && db.orders[id].status == WaitingAdmin && db.orders[id].delivery == Manual
    requires key !in db.services
    ensures Commits(db, AutoDeliver(id, None)) == []
    ensures var commits, o := Commits(db, AutoDeliver(id, Some((key, service)))), db.orders[id];
            && |commits| == 2
            && commits[0] == db.(services := db.services[key := service])
            && commits[1] == commits[0].(
                 orders := db.orders[id := Order(o.user, o.product, o.quantity, o.unitPrice, o.finalPrice,
                                                 Completed, Api, o.coupon)])
  {
  }

  // ----- tournaments and users -----

  /** A tournament opens active, with the given fee and prize and no participants, and is ended only while active. */
  lemma TournamentOpensAndEnds(db: Db, t: int, fee: int, prize: Option<int>)
    ensures t !in db.tournaments ==>
              Commits(db, CreateTournament(t, fee, prize))
              == [db.(tournaments := db.tournaments[t := Tournament(fee, prize, TournamentActive, None, [])])]
    ensures var commits := Commits(db, EndNow(t));
            if t in db.tournaments && db.tournaments[t].status == TournamentActive
            then
              var r := db.tournaments[t];
              commits == [db.(tournaments := db.tournaments[t := Tournament(r.entryFee, r.prize, Ended, r.winner,
                                                                            r.participants)])]
            else commits == []
  {
  }

  predicate Undecided(db: Db, t: int) {
    t in db.tournaments && (db.tournaments[t].status == TournamentActive || db.tournaments[t].status == Ended)
  }

  /** Settling an active or ended tournament stores the winner and credits exactly the prize to the winner, in one
      commit; a prize that cannot be credited undoes it, and any other tournament is left as it is. */
  lemma SettlementPaysPrize(db: Db, t: int, scores: map<int, nat>)
    ensures var commits := Commits(db, Settle(t, scores));
            if Undecided(db, t) then
              var r, winner := db.tournaments[t], WinnerOf(db, t, scores);
              var owed := if winner.Some? && r.prize.Some? then r.prize.value else 0;
              var settled := db.tournaments[t := Tournament(r.entryFee, r.prize, Settled, winner, r.participants)];
              if owed == 0 then commits == [db.(tournaments := settled)]
              else if owed < 0 || winner.value !in db.wallets then commits == []
              else
                && |commits| == 1 && commits[0].tournaments == settled
                && CreditsOne(db, commits[0], winner.value, TournamentPrize, owed, TournamentPrizeRef(t))
            else commits == []
  {
    hide WinnerOf;
  }

  /** Exactly an unused coupon can be removed. */
  lemma CouponRemoved(db: Db, c: int)
    ensures Commits(db, DeleteCoupon(c))
         == if c in db.coupons && !db.coupons[c].used then [db.(coupons := db.coupons - {c})] else []
  {
  }

  /** A new user starts with an empty wallet and without purchases; the referrer counts exactly when it is another known
      user. */
  lemma SignupOpensWallet(db: Db, u: int, referrer: Option<int>)
    requires u !in db.customers && u !in db.wallets
    ensures var commits := Commits(db, Signup(u, referrer));
            && |commits| == 1 && u in commits[0].customers
            && commits[0].wallets == db.wallets[u := 0] && commits[0].ledger == db.ledger
            && var c := commits[0].customers[u];
               && commits[0].customers == db.customers[u := c]
               && c.purchases == 0 && c.spent == 0
               && (c.referredBy.Some? <==> referrer.Some? && referrer.value in db.customers)
               && (c.referredBy.Some? ==> c.referredBy == referrer && referrer != Some(u))
  {
  }
}

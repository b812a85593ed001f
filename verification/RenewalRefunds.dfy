/** An automatic renewal and the panel it renews on, together: who is refunded and who is extended. */
module RenewalRefunds {
  import opened Options
  import opened Retry
  import opened ShopTables
  import opened ShopCalls
  import opened VpnPanels
  import opened Renewal

  /** What the shop learns of a renewal on the panel. */
  function AnswerOf(w: World, r: Renew): RenewalAnswer {
    if Renews(w, r) then Extended(Renewed(w, r).service.expireAt) else RenewalAnswer.Failed
  }

  /** The shop's database after the automatic renewal whose panel part is `r`. */
  function Settled(db: Db, u: int, s: int, id: int, w: World, r: Renew): Db {
    Last(db, AutoRenewCommits(db, u, s, id, AnswerOf(w, r)))
  }

  predicate Refunds(db: Db, db': Db, id: int) {
    id in db'.orders && db'.orders[id].status.Refunded? && db'.wallets == db.wallets
  }

  predicate Charges(db: Db, db': Db, u: int, id: int, price: int)
    requires u in db.wallets
  {
    && id in db'.orders && db'.orders[id].status.Completed?
    && db'.wallets == db.wallets[u := db.wallets[u] - price]
  }

  function PanelExpiry(w: World): Option<int>
    requires w.service.username in w.accounts
  {
    w.accounts[w.service.username].expireAt
  }

  /** Some attempt of the renewal took effect on the panel. */
  predicate TakesEffect(w: World, r: Renew) {
    SomeLands(r.changes, Attempts(ModifyCall(w, r), w.accounts, MAX_ATTEMPTS))
  }

  lemma SettledMoney(db: Db, u: int, s: int, id: int, answer: RenewalAnswer)
    requires AutoRenewRefusal(db, u, s, id) == None
    ensures u in db.wallets && RenewalPrice(db, u, s).Some?
    ensures var db' := Last(db, AutoRenewCommits(db, u, s, id, answer));
            if answer.Failed? then Refunds(db, db', id) && !Charges(db, db', u, id, RenewalPrice(db, u, s).value.1)
            else Charges(db, db', u, id, RenewalPrice(db, u, s).value.1) && !Refunds(db, db', id)
  {
    hide RenewalPrice;
    if answer.Failed? {
      var price := RenewalPrice(db, u, s).value.1;
      assert db.wallets[u := db.wallets[u] - price][u := db.wallets[u]] == db.wallets;
    }
  }

  /** The buyer is charged exactly when the renewal reports success and refunded in full otherwise; and the panel's
      date moves exactly when an attempt took effect and the renewal asks for another date.  So the buyer keeps the
      money although access was changed exactly when the renewal is reported failed, an attempt took effect, and
      the date differs. */
  lemma RefundedThoughExtended(db: Db, u: int, s: int, id: int, w: World, r: Renew)
    requires AutoRenewRefusal(db, u, s, id) == None && w.service.username in w.accounts
    ensures u in db.wallets && RenewalPrice(db, u, s).Some? && w.service.username in Renewed(w, r).accounts
    ensures Renewed(w, r).service.username == w.service.username
    ensures var db' := Settled(db, u, s, id, w, r);
            var moved := PanelExpiry(Renewed(w, r)) != PanelExpiry(w);
            && (Charges(db, db', u, id, RenewalPrice(db, u, s).value.1) <==> Renews(w, r))
            && (Refunds(db, db', id) <==> !Renews(w, r))
            && (moved <==> TakesEffect(w, r) && Changed(PanelExpiry(w), Expiry(w.service, r)) != PanelExpiry(w))
            && (Refunds(db, db', id) && moved
                <==> && !Renews(w, r) && TakesEffect(w, r)
                     && Changed(PanelExpiry(w), Expiry(w.service, r)) != PanelExpiry(w))
  {
    hide Renews, Renewed, SomeLands, Attempts, ModifyCall, Expiry, AutoRenewCommits, RenewalPrice, Refunds, Charges;
    SettledMoney(db, u, s, id, AnswerOf(w, r));
    RenewalExtendsOnce(w, r);
    EffectWhenReported(w, r);
  }

  lemma EffectWhenReported(w: World, r: Renew)
    requires w.service.username in w.accounts
    ensures Renews(w, r) ==> TakesEffect(w, r)
  {
    hide Renews, SomeLands, Attempts, Left, Result;
    ModifyOutcome(w, r);
  }

  /** For an account whose record agrees with its panel and a renewal by a positive number of days, whoever is charged
      has the new, later date; and whoever is refunded has it too exactly when an attempt took effect. */
  lemma NobodyPaysForNothing(db: Db, u: int, s: int, id: int, w: World, r: Renew)
    requires AutoRenewRefusal(db, u, s, id) == None && Agrees(w) && w.service.expireAt.Some?
    requires r.days.Some? && 0 < r.days.value
    ensures u in db.wallets && RenewalPrice(db, u, s).Some? && w.service.username in Renewed(w, r).accounts
    ensures Renewed(w, r).service.username == w.service.username
    ensures var db' := Settled(db, u, s, id, w, r);
            var date := NewExpire(w.service.expireAt, r.now, r.days.value);
            && w.service.expireAt.value < date
            && (Charges(db, db', u, id, RenewalPrice(db, u, s).value.1) ==> PanelExpiry(Renewed(w, r)) == Some(date))
            && (Refunds(db, db', id) ==> (PanelExpiry(Renewed(w, r)) == Some(date) <==> TakesEffect(w, r)))
  {
    hide Renews, Renewed, SomeLands, Attempts, ModifyCall, AutoRenewCommits, RenewalPrice, Refunds, Charges;
    SettledMoney(db, u, s, id, AnswerOf(w, r));
    RenewalExtendsOnce(w, r);
    EffectWhenReported(w, r);
  }
}

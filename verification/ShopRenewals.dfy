/** Automatic delivery and renewal of VPN products: money first, then the panel, with a refund when it fails.
    What the panel does is an argument of the call. */
module RenewalServices {
  import opened Options
  import opened Pricing
  import opened ShopTables
  import opened ShopCalls
  import opened ShopSessions

  class AutoDelivery {
    const session: Session

    constructor (session: Session)
      ensures this.session == session
    {
      this.session := session;
    }

    /** `created` is the service the provisioning stored, with its key, none when no panel answered. */
    method TryAutoDeliver(id: int, created: Option<(int, Service)>) returns (delivered: bool)
      requires session.Settled() && id in session.db.orders
      requires created.Some? ==> created.value.0 !in session.db.services
      modifies session
      ensures session.Settled() && delivered == created.Some?
      ensures session.db == Last(old(session.db), DeliverCommits(old(session.db), id, created))
      ensures session.history == old(session.history) + DeliverCommits(old(session.db), id, created)
    {
      if created == None { return false; }
      session.db := session.db.(services := session.db.services[created.value.0 := created.value.1]);
      session.Commit();
      var order := session.db.orders[id];
      order := order.(status := Completed);
      order := order.(delivery := Api);
      session.db := session.db.(orders := session.db.orders[id := order]);
      session.Commit();
      return true;
    }

    method TryAutoRenew(u: int, s: int, id: int, answer: RenewalAnswer)
      returns (renewed: bool, error: Option<ShopError>)
      requires session.Settled() && id !in session.db.orders
      modifies session
      ensures session.Settled()
      ensures error == AutoRenewRefusal(old(session.db), u, s, id) && renewed == (error == None && answer.Extended?)
      ensures session.db == Last(old(session.db), AutoRenewCommits(old(session.db), u, s, id, answer))
      ensures session.history == old(session.history) + AutoRenewCommits(old(session.db), u, s, id, answer)
    {
      hide PayOrder, RenewalPrice;
      ghost var db0 := session.db;
      error := Charge(u, s, id);
      if error.Some? { return false, error; }
      RenewalFacts(db0, u, s, id);
      FinishRenewal(s, id, answer);
      renewed := answer.Extended?;
    }

    /** The renewal order and its payment, in one commit. */
    method Charge(u: int, s: int, id: int) returns (error: Option<ShopError>)
      requires session.Settled() && id !in session.db.orders
      modifies session
      ensures session.Settled() && error == AutoRenewRefusal(old(session.db), u, s, id)
      ensures if error.Some? then session.db == old(session.db) && session.history == old(session.history)
              else session.db == PayOrder(old(session.db), id, RenewalOrder(old(session.db), u, s), None)
                   && session.history == old(session.history) + [session.db]
    {
      if s !in session.db.services || session.db.services[s].user != u { return Some(NotRenewable); }
      var service := session.db.services[s];
      if service.product == None { return Some(NotRenewable); }
      var p := service.product.value;
      if p !in session.db.products || !session.db.products[p].active { return Some(NotRenewable); }
      var product := session.db.products[p];
      var price := if product.kind == Fixed then product.fixedPrice else product.unitPrice;
      if price == None || price.value <= 0 { return Some(NotRenewable); }
      var order := Order(u, p, 1, price.value, price.value, Pending, VpnRenewal, None);
      session.db := session.db.(orders := session.db.orders[id := order]);
      var wallets := new WalletService(session);
      error := wallets.Debit(u, price.value, Purchase, RenewalOrderRef(id));
      if error.Some? { session.Rollback(); }
    }

    function RenewalOrder(db: Db, u: int, s: int): Order
      requires RenewalPrice(db, u, s).Some?
    {
      var (p, price) := RenewalPrice(db, u, s).value;
      Order(u, p, 1, price, price, Pending, VpnRenewal, None)
    }

    lemma RenewalFacts(db: Db, u: int, s: int, id: int)
      requires AutoRenewRefusal(db, u, s, id) == None
      ensures var o := RenewalOrder(db, u, s);
              var paid := PayOrder(db, id, o, None);
              && id in paid.orders && paid.orders[id] == o && o.user == u && u in paid.wallets && 0 < o.finalPrice
              && s in paid.services
    {
    }

    /** The panel's answer: the new date, or the refund. */
    method FinishRenewal(s: int, id: int, answer: RenewalAnswer)
      requires session.Settled() && id in session.db.orders && s in session.db.services
      requires session.db.orders[id].user in session.db.wallets && 0 < session.db.orders[id].finalPrice
      modifies session
      ensures session.Settled()
      ensures var db, o := old(session.db), old(session.db).orders[id];
              match answer
              case Extended(expiresAt) =>
                var extended := db.(services := db.services[s := db.services[s].(expiresAt := expiresAt)]);
                && session.db == SetStatus(extended, id, Completed)
                && session.history == old(session.history) + [extended, session.db]
              case Failed =>
                var refunded := Post(db, o.user, Refund, o.finalPrice, RenewalRefundRef(id));
                && session.db == SetStatus(refunded, id, Refunded)
                && session.history == old(session.history) + [refunded, session.db]
    {
      var order := session.db.orders[id];
      match answer {
        case Failed =>
          var wallets := new WalletService(session);
          var refused := wallets.Credit(order.user, order.finalPrice, Refund, RenewalRefundRef(id));
          session.db := session.db.(orders := session.db.orders[id := order.(status := Refunded)]);
          session.Commit();
        case Extended(expiresAt) =>
          var service := session.db.services[s];
          session.db := session.db.(services := session.db.services[s := service.(expiresAt := expiresAt)]);
          session.Commit();
          session.db := session.db.(orders := session.db.orders[id := order.(status := Completed)]);
          session.Commit();
      }
    }
  }

  class VPNRenewalService {
    const session: Session

    constructor (session: Session)
      ensures this.session == session
    {
      this.session := session;
    }

    method RenewService(s: int, u: int, panelActive: bool, now: int, answer: RenewalAnswer)
      returns (error: Option<ShopError>)
      requires session.Settled()
      modifies session
      ensures session.Settled()
      ensures session.db == Last(old(session.db), VpnRenewCommits(old(session.db), u, s, panelActive, now, answer))
      ensures session.history == old(session.history) + VpnRenewCommits(old(session.db), u, s, panelActive, now, answer)
      ensures error == if VpnRenewRefusal(old(session.db), u, s, panelActive, now).Some?
                       then VpnRenewRefusal(old(session.db), u, s, panelActive, now)
                       else if answer.Failed? then Some(ProviderFailed) else None
    {
      hide CalculatePrice;
      if s !in session.db.services || session.db.services[s].user != u { return Some(NotRenewable); }
      var service := session.db.services[s];
      if service.order == None || service.order.value !in session.db.orders { return Some(NotRenewable); }
      var p := session.db.orders[service.order.value].product;
      if p !in session.db.products || !session.db.products[p].isVpn { return Some(NotRenewable); }
      if !panelActive { return Some(NotRenewable); }
      var price := CalculatePrice(session.db.products[p], 1, now);
      if price.NoPrice? { return Some(NotRenewable); }
      var wallets := new WalletService(session);
      error := wallets.Debit(u, price.total, Purchase, VpnRenewRef(s, now));
      if error.Some? { return; }
      match answer {
        case Failed =>
          error := wallets.Credit(u, price.total, Refund, VpnRenewRefundRef(s, now));
          return Some(ProviderFailed);
        case Extended(expiresAt) =>
          session.db := session.db.(services := session.db.services[s := service.(expiresAt := expiresAt)]);
          session.Commit();
          return None;
      }
    }
  }
}

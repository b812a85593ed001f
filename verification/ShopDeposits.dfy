/** Manual deposit requests and external payments. */
module DepositServices {
  import opened Options
  import opened ShopTables
  import opened ShopCalls
  import opened ShopSessions

  class DepositService {
    const session: Session

    constructor (session: Session)
      ensures this.session == session
    {
      this.session := session;
    }

    method CreateRequest(id: int, u: int, amount: int, kind: DepositKind, tokens: Option<int>)
      returns (error: Option<ShopError>)
      requires session.Settled() && id !in session.db.requests
      modifies session
      ensures session.Settled()
      ensures error == CreateRequestRefusal(old(session.db), id, amount, kind, tokens)
      ensures var commits := Commits(old(session.db), Call.CreateRequest(id, u, amount, kind, tokens));
              session.db == Last(old(session.db), commits) && session.history == old(session.history) + commits
    {
      if amount <= 0 { return Some(InvalidAmount); }
      if kind == Token && (tokens == None || tokens.value <= 0) { return Some(InvalidAmount); }
      var tokenAmount := if kind == Rial then None else tokens;
      var request := Request(u, amount, kind, tokenAmount, AwaitingDecision);
      session.db := session.db.(requests := session.db.requests[id := request]);
      session.Commit();
      return None;
    }

    /** Marks the request approved; for a toman request the credit commits the decision with it. */
    method Approve(id: int) returns (error: Option<ShopError>)
      requires session.Settled()
      modifies session
      ensures session.Settled()
      ensures error == ApproveRefusal(old(session.db), id)
      ensures var commits := Commits(old(session.db), Call.Approve(id));
              session.db == Last(old(session.db), commits) && session.history == old(session.history) + commits
    {
      if id !in session.db.requests { return Some(NotFound); }
      var request := session.db.requests[id];
      if request.status != AwaitingDecision { return Some(AlreadyDecided); }
      session.db := session.db.(requests := session.db.requests[id := request.(status := Approved)]);
      if request.kind == Rial {
        var wallets := new WalletService(session);
        error := wallets.Credit(request.user, request.amount, Deposit, DepositRef(id));
        if error.Some? { session.Rollback(); }
      } else {
        if request.tokenAmount == None || request.tokenAmount.value <= 0 {
          session.Rollback();
          return Some(InvalidAmount);
        }
        session.Commit();
        return None;
      }
    }

    method Reject(id: int) returns (error: Option<ShopError>)
      requires session.Settled()
      modifies session
      ensures session.Settled()
      ensures error == None <==> id in old(session.db).requests && old(session.db).requests[id].status.AwaitingDecision?
      ensures var commits := Commits(old(session.db), Call.Reject(id));
              session.db == Last(old(session.db), commits) && session.history == old(session.history) + commits
    {
      if id !in session.db.requests { return Some(NotFound); }
      var request := session.db.requests[id];
      if request.status != AwaitingDecision { return Some(AlreadyDecided); }
      session.db := session.db.(requests := session.db.requests[id := request.(status := Rejected)]);
      session.Commit();
      return None;
    }
  }

  class PaymentService {
    const session: Session

    constructor (session: Session)
      ensures this.session == session
    {
      this.session := session;
    }

    /** `quote` is the provider's reference, none when the provider fails. */
    method CreateDeposit(p: int, u: int, amount: int, quote: Option<int>) returns (error: Option<ShopError>)
      requires session.Settled() && p !in session.db.payments
      modifies session
      ensures session.Settled()
      ensures error == if amount <= 0 then Some(InvalidAmount) else if quote == None then Some(ProviderFailed) else None
      ensures var commits := Commits(old(session.db), CreatePayment(p, u, amount, quote));
              session.db == Last(old(session.db), commits) && session.history == old(session.history) + commits
    {
      ghost var db0 := session.db;
      if amount <= 0 { return Some(InvalidAmount); }
      var tx := Payment(u, amount, PaymentPending, None, None);
      session.db := session.db.(payments := session.db.payments[p := tx]);
      if quote == None {
        session.db := session.db.(payments := session.db.payments[p := tx.(status := PaymentFailed)]);
        assert session.db.payments == db0.payments[p := tx.(status := PaymentFailed)];
        session.Commit();
        return Some(ProviderFailed);
      }
      session.db := session.db.(payments := session.db.payments[p := tx.(reference := quote)]);
      assert session.db.payments == db0.payments[p := tx.(reference := quote)];
      session.Commit();
      return None;
    }

    /** One delivery of a webhook whose signature is valid. */
    method HandleTronadoWebhook(p: int, d: Notice) returns (error: Option<ShopError>)
      requires session.Settled()
      modifies session
      ensures session.Settled()
      ensures session.db == Last(old(session.db), WebhookCommits(old(session.db), p, d))
      ensures session.history == old(session.history) + WebhookCommits(old(session.db), p, d)
      ensures error == None && p in old(session.db).payments && d.paid ==>
                p in session.db.payments && session.db.payments[p].status in {Paid, Underpaid}
    {
      ghost var db0 := session.db;
      if p !in session.db.payments { return Some(UnknownPayment); }
      var tx := session.db.payments[p];
      if tx.status == Paid { return None; }
      if d.reference.Some? && tx.reference == None {
        tx := tx.(reference := d.reference);
      }
      if !d.paid {
        tx := tx.(status := if d.refused then PaymentRejected else PaymentPending);
        session.db := session.db.(payments := session.db.payments[p := tx]);
        session.Commit();
        return None;
      }
      var paid := d.paidToman;
      if paid == None {
        if tx.reference == None { return Some(UnclearAmount); }
        paid := d.queried;
      }
      if paid == None || paid.value <= 0 { return Some(UnclearAmount); }
      if paid.value < tx.amount {
        tx := tx.(status := Underpaid);
        session.db := session.db.(payments := session.db.payments[p := tx]);
        session.Commit();
        return None;
      }
      session.db := session.db.(payments := session.db.payments[p := tx]);
      if !exists i :: 0 <= i < |session.db.ledger| && session.db.ledger[i].ref == PaymentRef(p) {
        var wallets := new WalletService(session);
        error := wallets.Credit(tx.user, paid.value, Deposit, PaymentRef(p));
        if error.Some? {
          session.Rollback();
          return;
        }
      }
      ghost var before := session.db;
      tx := tx.(paid := paid);
      tx := tx.(status := Paid);
      session.db := session.db.(payments := session.db.payments[p := tx]);
      assert before.payments[p := tx] == session.db.payments && session.db.payments == db0.payments[p := tx];
      session.Commit();
      return None;
    }
  }
}

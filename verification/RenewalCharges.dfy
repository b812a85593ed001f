/** What `VPNRenewalService` keeps, over runs that may crash after any commit. */
module RenewalCharges {
  import opened Options
  import opened Ledgers
  import opened ShopTables
  import opened ShopCalls
  import opened ShopRuns
  import opened ShopFrames
  import opened Reconciliation

  /** What a renewal at a moment took, net of its refunds; more than one call may share a moment. */
  ghost function NetAt(l: seq<WalletRow>, s: int, at: int): int {
    -SumWhere(l, ByRef(VpnRenewRef(s, at))) - SumWhere(l, ByRef(VpnRenewRefundRef(s, at)))
  }

  ghost predicate TakingsOk(l: seq<WalletRow>) {
    && SumWhere(l, RenewalRows()) <= 0
    && (forall s, at :: 0 <= NetAt(l, s, at))
  }

  lemma StaysKeepsTakings(db: Db, db': Db)
    requires Stays(RenewalSide, db, db') && TakingsOk(db.ledger)
    ensures TakingsOk(db'.ledger)
  {
    hide SumWhere;
    forall s, at
      ensures NetAt(db'.ledger, s, at) == NetAt(db.ledger, s, at)
    {
      assert Watches(RenewalSide, VpnRenewRef(s, at)) && Watches(RenewalSide, VpnRenewRefundRef(s, at));
    }
  }

  lemma PostTakings(db: Db, u: int, kind: WalletKind, amount: int, ref: Ref)
    requires u in db.wallets && Watches(RenewalSide, ref)
    ensures var l := Post(db, u, kind, amount, ref).ledger;
            && SumWhere(l, RenewalRows()) == SumWhere(db.ledger, RenewalRows()) + amount
            && (forall s, at ::
                  NetAt(l, s, at)
                  == NetAt(db.ledger, s, at)
                     - if ref == VpnRenewRef(s, at) || ref == VpnRenewRefundRef(s, at) then amount else 0)
  {
    hide SumWhere, RowsFor;
    PostRows(db, u, kind, amount, ref);
    PostRefSums(db, u, kind, amount, ref);
  }

  /** A renewal takes its price with the first commit and gives back at most that with the second. */
  lemma RenewalKeepsTakings(db: Db, u: int, s: int, panelActive: bool, now: int, answer: RenewalAnswer)
    requires TakingsOk(db.ledger)
    ensures var commits := VpnRenewCommits(db, u, s, panelActive, now, answer);
            forall i :: 0 <= i < |commits| ==> TakingsOk(commits[i].ledger)
  {
    hide SumWhere, NetAt, VpnRenewPrice, RenewalRows;
    if VpnRenewRefusal(db, u, s, panelActive, now) == None {
      var price := VpnRenewPrice(db, u, s, now).value;
      VpnService(db, u, s, now);
      PostTakings(db, u, Purchase, -price, VpnRenewRef(s, now));
      var charged := Post(db, u, Purchase, -price, VpnRenewRef(s, now));
      PostTakings(charged, u, Refund, price, VpnRenewRefundRef(s, now));
    }
  }

  lemma PersistedKeepsTakings(db: Db, e: Event)
    requires TakingsOk(db.ledger)
    ensures TakingsOk(Persisted(db, e).ledger)
  {
    hide Commits, TakingsOk, Stays, VpnRenewCommits;
    if e.call.VpnRenew? {
      var VpnRenew(u, s, panelActive, now, answer) := e.call;
      RenewalKeepsTakings(db, u, s, panelActive, now, answer);
      RenewCall(db, u, s, panelActive, now, answer);
    } else {
      PersistedStays(RenewalSide, db, e);
      StaysKeepsTakings(db, Persisted(db, e));
    }
  }

  lemma RenewCall(db: Db, u: int, s: int, panelActive: bool, now: int, answer: RenewalAnswer)
    ensures Commits(db, VpnRenew(u, s, panelActive, now, answer))
         == VpnRenewCommits(db, u, s, panelActive, now, answer)
  {
    hide VpnRenewCommits;
  }

  lemma {:induction false} RunKeepsTakings(db: Db, events: seq<Event>)
    requires TakingsOk(db.ledger)
    ensures TakingsOk(CrashRun(db, events).ledger)
    decreases |events|
  {
    hide TakingsOk, Persisted;
    if events != [] {
      PersistedKeepsTakings(db, events[0]);
      RunKeepsTakings(Persisted(db, events[0]), events[1..]);
    }
  }

  lemma {:induction false} ClassIsRenewals(l: seq<WalletRow>)
    ensures Sum(l, RenewalClass) == SumWhere(l, RenewalRows())
  {
    if l != [] {
      ClassIsRenewals(l[..|l| - 1]);
    }
  }

  /** Whatever call dies after whatever commit: the refunds of a service's renewals at a moment never exceed what
      was charged for them, and the takings in the reconciliation are never negative. */
  lemma RefundsNeverExceedCharges(events: seq<Event>, s: int, at: int)
    ensures var l := CrashRun(EMPTY_DB, events).ledger;
            && SumWhere(l, ByRef(VpnRenewRefundRef(s, at))) <= -SumWhere(l, ByRef(VpnRenewRef(s, at)))
            && 0 <= RenewalTakings(l)
  {
    hide CrashRun, SumWhere;
    assert TakingsOk(EMPTY_DB.ledger) by { NoTakings(); }
    RunKeepsTakings(EMPTY_DB, events);
    var l := CrashRun(EMPTY_DB, events).ledger;
    assert 0 <= NetAt(l, s, at);
    ClassIsRenewals(l);
  }

  lemma NoTakings()
    ensures TakingsOk(EMPTY_DB.ledger)
  {
  }
}

/** Who pays a tournament's fee and who gets it back, user by user. */
module TournamentFees {
  import opened Options
  import opened Ledgers
  import opened ShopTables
  import opened ShopCalls
  import opened ShopInvariants
  import opened ShopFrames
  import opened Reconciliation
  import opened ShopEffects

  /** The rows of one user under a reference. */
  ghost function RowsOf(l: seq<WalletRow>, u: int, ref: Ref): seq<WalletRow> {
    Select(RowsFor(l, ref), ByUser(u))
  }

  ghost predicate OneRow(rows: seq<WalletRow>, kind: WalletKind, amount: int) {
    |rows| == 1 && rows[0].kind == kind && rows[0].amount == amount
  }

  predicate PaidIn(tournaments: map<int, Tournament>, t: int, u: int) {
    t in tournaments && 0 < tournaments[t].entryFee && u in tournaments[t].participants
  }

  /** A participant has exactly one row that pays the fee and, once the tournament is cancelled, exactly one that gives
      it back; nobody else has any. */
  ghost predicate FeeRows(
    tournaments: map<int, Tournament>, t: int, entries: seq<WalletRow>, refunds: seq<WalletRow>, u: int)
  {
    && (if PaidIn(tournaments, t, u) then OneRow(entries, TournamentEntry, -tournaments[t].entryFee) else entries == [])
    && (if PaidIn(tournaments, t, u) && tournaments[t].status.TournamentCancelled?
        then OneRow(refunds, Refund, tournaments[t].entryFee) else refunds == [])
  }

  ghost predicate FeesOk(tournaments: map<int, Tournament>, l: seq<WalletRow>) {
    forall t, u :: FeeRows(tournaments, t, RowsOf(l, u, TournamentEntryRef(t)), RowsOf(l, u, TournamentCancelRef(t)), u)
  }

  lemma PostRowsOf(db: Db, u: int, kind: WalletKind, amount: int, ref: Ref)
    requires u in db.wallets
    ensures var l := Post(db, u, kind, amount, ref).ledger;
            var e := Entry(u, kind, amount, db.wallets[u], db.wallets[u] + amount, ref);
            forall v, r :: RowsOf(l, v, r) == if v == u && r == ref then RowsOf(db.ledger, v, r) + [e]
                                              else RowsOf(db.ledger, v, r)
  {
    hide RowsFor, Select, SumWhere;
    PostSelects(db, u, kind, amount, ref);
    SelectAppend(RowsFor(db.ledger, ref), Entry(u, kind, amount, db.wallets[u], db.wallets[u] + amount, ref));
  }

  lemma FrameKeepsFees(db: Db, db': Db)
    requires db'.tournaments == db.tournaments && FeesOk(db.tournaments, db.ledger)
    requires forall r :: Watches(FeeSide, r) ==> RowsFor(db'.ledger, r) == RowsFor(db.ledger, r)
    ensures FeesOk(db'.tournaments, db'.ledger)
  {
    hide RowsFor, Select, FeeRows;
    forall t, u
      ensures FeeRows(db'.tournaments, t, RowsOf(db'.ledger, u, TournamentEntryRef(t)),
                      RowsOf(db'.ledger, u, TournamentCancelRef(t)), u)
    {
      assert Watches(FeeSide, TournamentEntryRef(t)) && Watches(FeeSide, TournamentCancelRef(t));
      assert RowsOf(db'.ledger, u, TournamentEntryRef(t)) == RowsOf(db.ledger, u, TournamentEntryRef(t));
      assert RowsOf(db'.ledger, u, TournamentCancelRef(t)) == RowsOf(db.ledger, u, TournamentCancelRef(t));
    }
  }

  /** A row that keeps fee and participants and is cancelled neither before nor after. */
  lemma StatusKeepsFees(tournaments: map<int, Tournament>, l: seq<WalletRow>, t: int, row: Tournament)
    requires FeesOk(tournaments, l) && !row.status.TournamentCancelled?
    requires t in tournaments ==> row.entryFee == tournaments[t].entryFee
                                  && row.participants == tournaments[t].participants
                                  && !tournaments[t].status.TournamentCancelled?
    requires t !in tournaments ==> row.participants == []
    ensures FeesOk(tournaments[t := row], l)
  {
    hide RowsOf;
  }

  /** One more participant, with a row that pays the fee when there is one. */
  lemma EnrolledKeepsFees(tournaments: map<int, Tournament>, l: seq<WalletRow>, l': seq<WalletRow>, t: int, u: int)
    requires FeesOk(tournaments, l) && t in tournaments && u !in tournaments[t].participants
    requires !tournaments[t].status.TournamentCancelled?
    requires forall v, r :: (v != u || r != TournamentEntryRef(t)) ==> RowsOf(l', v, r) == RowsOf(l, v, r)
    requires if 0 < tournaments[t].entryFee
             then OneRow(RowsOf(l', u, TournamentEntryRef(t)), TournamentEntry, -tournaments[t].entryFee)
             else RowsOf(l', u, TournamentEntryRef(t)) == []
    ensures var row := tournaments[t];
            FeesOk(tournaments[t := row.(participants := row.participants + [u])], l')
  {
    hide RowsOf, OneRow;
    var row := tournaments[t];
    var more := tournaments[t := row.(participants := row.participants + [u])];
    forall s, v
      ensures FeeRows(more, s, RowsOf(l', v, TournamentEntryRef(s)), RowsOf(l', v, TournamentCancelRef(s)), v)
    {
      assert FeeRows(tournaments, s, RowsOf(l, v, TournamentEntryRef(s)), RowsOf(l, v, TournamentCancelRef(s)), v);
    }
  }

  lemma JoinKeepsFees(db: Db, t: int, u: int)
    requires FeesOk(db.tournaments, db.ledger)
    ensures var db' := Last(db, JoinCommits(db, t, u));
            FeesOk(db'.tournaments, db'.ledger)
  {
    hide RowsOf, FeesOk;
    if JoinRefusal(db, t, u) == None {
      var fee := db.tournaments[t].entryFee;
      NotYetPaid(db, t, u);
      if 0 < fee {
        PostRowsOf(db, u, TournamentEntry, -fee, TournamentEntryRef(t));
        var paid := Post(db, u, TournamentEntry, -fee, TournamentEntryRef(t));
        EnrolledKeepsFees(db.tournaments, db.ledger, paid.ledger, t, u);
      } else {
        EnrolledKeepsFees(db.tournaments, db.ledger, db.ledger, t, u);
      }
    }
  }

  lemma NotYetPaid(db: Db, t: int, u: int)
    requires FeesOk(db.tournaments, db.ledger) && t in db.tournaments && u !in db.tournaments[t].participants
    ensures RowsOf(db.ledger, u, TournamentEntryRef(t)) == []
  {
    hide RowsOf;
    assert FeeRows(db.tournaments, t, RowsOf(db.ledger, u, TournamentEntryRef(t)),
                   RowsOf(db.ledger, u, TournamentCancelRef(t)), u);
  }

  /** The refunds of a cancellation: each of the participants gets one row and the fee, and nobody else anything. */
  lemma {:induction false} RefundsReachEach(db: Db, t: int, fee: int, ps: seq<int>)
    requires forall i :: 0 <= i < |ps| ==> ps[i] in db.customers && ps[i] in db.wallets
    requires forall i, j :: 0 <= i < j < |ps| ==> ps[i] != ps[j]
    ensures var db' := Last(db, RefundCommits(db, t, fee, ps));
            && db'.wallets.Keys == db.wallets.Keys
            && (forall v :: v in db.wallets ==> db'.wallets[v] == db.wallets[v] + if v in ps then fee else 0)
            && (forall v, r :: r != TournamentCancelRef(t) || v !in ps ==>
                  RowsOf(db'.ledger, v, r) == RowsOf(db.ledger, v, r))
            && (forall v :: v in ps && RowsOf(db.ledger, v, TournamentCancelRef(t)) == [] ==>
                  OneRow(RowsOf(db'.ledger, v, TournamentCancelRef(t)), Refund, fee))
    decreases |ps|
  {
    hide RowsOf;
    if ps != [] {
      var refunded := Post(db, ps[0], Refund, fee, TournamentCancelRef(t));
      PostRowsOf(db, ps[0], Refund, fee, TournamentCancelRef(t));
      RefundsReachEach(refunded, t, fee, ps[1..]);
      assert forall v :: v in ps <==> v == ps[0] || v in ps[1..];
      assert ps[0] !in ps[1..];
    }
  }

  /** What a participant list must be like for the refunds to reach everyone on it. */
  lemma ParticipantsKnown(db: Db, t: int)
    requires t in db.tournaments && Clean(db)
    ensures var ps := db.tournaments[t].participants;
            && (forall i :: 0 <= i < |ps| ==> ps[i] in db.customers && ps[i] in db.wallets)
            && (forall i, j :: 0 <= i < j < |ps| ==> ps[i] != ps[j])
  {
    hide WalletsOk, OrdersPaid, CouponsMatch, RequestsMatch, PaymentsMatch;
    hide GapsOf, NoneHalfPaid, SumWhere, TournamentsOk;
    TournamentFacts(db.customers.Keys, db.tournaments, db.ledger, t);
  }

  lemma CancelKeepsFees(db: Db, t: int)
    requires FeesOk(db.tournaments, db.ledger) && Clean(db)
    ensures var db' := Last(db, CancelCommits(db, t));
            FeesOk(db'.tournaments, db'.ledger)
  {
    hide RowsOf, Clean;
    if CancelRefusal(db, t) == None {
      ParticipantsKnown(db, t);
      var row := db.tournaments[t];
      if 0 < row.entryFee { RefundsReachEach(db, t, row.entryFee, row.participants); }
    }
  }

  lemma SettleKeepsFees(db: Db, t: int, scores: map<int, nat>)
    requires FeesOk(db.tournaments, db.ledger)
    ensures var db' := Last(db, SettleCommits(db, t, scores));
            FeesOk(db'.tournaments, db'.ledger)
  {
    hide FeesOk, WinnerOf, RowsFor;
    if SettleRefusal(db, t) == None {
      var row := db.tournaments[t];
      var winner := WinnerOf(db, t, scores);
      var marked := db.(tournaments := db.tournaments[t := row.(status := Settled, winner := winner)]);
      StatusKeepsFees(db.tournaments, db.ledger, t, row.(status := Settled, winner := winner));
      if winner.Some? && row.prize.Some? && winner.value in db.wallets {
        PostSelects(marked, winner.value, TournamentPrize, row.prize.value, TournamentPrizeRef(t));
        FrameKeepsFees(marked, Post(marked, winner.value, TournamentPrize, row.prize.value, TournamentPrizeRef(t)));
      }
    }
  }

  lemma RowCallKeepsFees(db: Db, call: Call)
    requires call.CreateTournament? || call.EndNow?
    requires FeesOk(db.tournaments, db.ledger)
    ensures var db' := Last(db, Commits(db, call));
            FeesOk(db'.tournaments, db'.ledger)
  {
    hide FeesOk;
    match call
    case CreateTournament(t, fee, prize) =>
      if t !in db.tournaments {
        StatusKeepsFees(db.tournaments, db.ledger, t, Tournament(fee, prize, TournamentActive, None, []));
      }
    case EndNow(t) =>
      if t in db.tournaments && db.tournaments[t].status.TournamentActive? {
        StatusKeepsFees(db.tournaments, db.ledger, t, db.tournaments[t].(status := Ended));
      }
  }

  lemma TournamentCallIs(db: Db, call: Call)
    requires call.Join? || call.Cancel? || call.Settle?
    ensures Commits(db, call) == match call
                                 case Join(t, u) => JoinCommits(db, t, u)
                                 case Cancel(t) => CancelCommits(db, t)
                                 case Settle(t, scores) => SettleCommits(db, t, scores)
                                 case _ => []
  {
    hide JoinCommits, CancelCommits, SettleCommits;
  }

  lemma CallKeepsFees(db: Db, call: Call)
    requires FeesOk(db.tournaments, db.ledger) && Clean(db)
    ensures var db' := Last(db, Commits(db, call));
            FeesOk(db'.tournaments, db'.ledger)
  {
    hide Commits, Clean, FeesOk, JoinCommits, CancelCommits, SettleCommits, RowsFor;
    if call.Join? || call.Cancel? || call.Settle? {
      TournamentCallIs(db, call);
      match call
      case Join(t, u) => JoinKeepsFees(db, t, u);
      case Cancel(t) => CancelKeepsFees(db, t);
      case Settle(t, scores) => SettleKeepsFees(db, t, scores);
    } else if call.CreateTournament? || call.EndNow? {
      RowCallKeepsFees(db, call);
    } else {
      CommitsStay(FeeSide, db, call);
      var commits := Commits(db, call);
      if commits != [] {
        assert Stays(FeeSide, db, commits[|commits| - 1]);
        FrameKeepsFees(db, commits[|commits| - 1]);
      }
    }
  }

  lemma {:induction false} RunKeepsFees(db: Db, calls: seq<Call>)
    requires FeesOk(db.tournaments, db.ledger) && Clean(db)
    ensures FeesOk(CleanRun(db, calls).tournaments, CleanRun(db, calls).ledger)
    decreases |calls|
  {
    hide Clean, Commits, FeesOk;
    if calls != [] {
      CallKeepsFees(db, calls[0]);
      CallKeepsClean(db, calls[0]);
      RunKeepsFees(Last(db, Commits(db, calls[0])), calls[1..]);
    }
  }

  lemma NoFees()
    ensures FeesOk(EMPTY_DB.tournaments, EMPTY_DB.ledger)
  {
  }

  /** After any calls that all completed, user by user: a participant of a tournament with a fee has exactly one row
      that pays it and, exactly when the tournament is cancelled, exactly one that gives it back; nobody else has
      any. */
  lemma FeesUserByUser(calls: seq<Call>, t: int, u: int)
    ensures var db := CleanRun(EMPTY_DB, calls);
            FeeRows(db.tournaments, t, RowsOf(db.ledger, u, TournamentEntryRef(t)),
                    RowsOf(db.ledger, u, TournamentCancelRef(t)), u)
  {
    hide CleanRun, Clean, RowsOf, FeeRows;
    EmptyIsClean();
    NoFees();
    RunKeepsFees(EMPTY_DB, calls);
  }

  /** A completed cancellation of an active or ended tournament raises the wallet of each participant by exactly the
      fee, and no other wallet. */
  lemma CancelRefundsEach(calls: seq<Call>, t: int)
    requires Undecided(CleanRun(EMPTY_DB, calls), t)
    ensures var db := CleanRun(EMPTY_DB, calls);
            var db' := Last(db, CancelCommits(db, t));
            && t in db'.tournaments && db'.tournaments[t] == db.tournaments[t].(status := TournamentCancelled)
            && db'.wallets.Keys == db.wallets.Keys
            && (forall v :: v in db.wallets ==>
                  db'.wallets[v]
                  == db.wallets[v] + if v in db.tournaments[t].participants && 0 < db.tournaments[t].entryFee
                                     then db.tournaments[t].entryFee else 0)
  {
    hide CleanRun, Clean, RowsOf;
    EmptyIsClean();
    CleanRunKeeps(EMPTY_DB, calls);
    var db := CleanRun(EMPTY_DB, calls);
    ParticipantsKnown(db, t);
    var row := db.tournaments[t];
    if 0 < row.entryFee { RefundsReachEach(db, t, row.entryFee, row.participants); }
  }

  /** A completed join: exactly when the tournament is active, the user is new to it and covers the fee; the fee leaves
      the user's wallet, no other, and the user is added to the participants. */
  lemma JoinPaysFee(db: Db, t: int, u: int)
    requires db.customers.Keys == db.wallets.Keys
    ensures JoinRefusal(db, t, u) == None
            <==> && t in db.tournaments && db.tournaments[t].status.TournamentActive?
                 && u !in db.tournaments[t].participants && u in db.wallets
                 && (0 < db.tournaments[t].entryFee ==> db.tournaments[t].entryFee <= db.wallets[u])
    ensures JoinRefusal(db, t, u) == None ==>
              var db', row := Last(db, JoinCommits(db, t, u)), db.tournaments[t];
              && db'.tournaments == db.tournaments[t := row.(participants := row.participants + [u])]
              && db'.wallets == (if 0 < row.entryFee then db.wallets[u := db.wallets[u] - row.entryFee] else db.wallets)
  {
  }
}

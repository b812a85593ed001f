/** The prize of a tournament, over runs that may crash after any commit. */
module Prizes {
  import opened Options
  import opened Ledgers
  import opened ShopTables
  import opened ShopCalls
  import opened ShopFrames
  import opened Reconciliation

  /** A settled tournament with a winner and a prize. */
  predicate Won(tournaments: map<int, Tournament>, t: int) {
    && IsSettled(tournaments, t) && tournaments[t].winner.Some?
    && tournaments[t].prize.Some? && tournaments[t].prize.value != 0
  }

  /** Exactly one prize row, to the winner, who takes part, and with the amount of the prize. */
  ghost predicate PaidToWinner(row: Tournament, rows: seq<WalletRow>) {
    && |rows| == 1 && rows[0].kind == TournamentPrize
    && row.winner == Some(rows[0].user) && rows[0].user in row.participants
    && row.prize == Some(rows[0].amount) && 0 < rows[0].amount
  }

  /** The prize rows of every tournament, in any database. */
  ghost predicate PrizesOk(tournaments: map<int, Tournament>, l: seq<WalletRow>) {
    forall t ::
      var rows := RowsFor(l, TournamentPrizeRef(t));
      if Won(tournaments, t) then PaidToWinner(tournaments[t], rows) else rows == []
  }

  lemma StaysKeepsPrizes(db: Db, db': Db)
    requires Stays(PrizeSide, db, db') && PrizesOk(db.tournaments, db.ledger)
    ensures PrizesOk(db'.tournaments, db'.ledger)
  {
    hide RowsFor, PaidToWinner;
  }

  /** A settlement in one commit: the marked tournament and, when there is something to pay, the prize. */
  ghost predicate SettledOnce(db: Db, db': Db, t: int, winner: Option<int>) {
    && t in db.tournaments && !db.tournaments[t].status.Settled?
    && var row := db.tournaments[t].(status := Settled, winner := winner);
       && db'.tournaments == db.tournaments[t := row]
       && (forall r :: r != TournamentPrizeRef(t) ==> RowsFor(db'.ledger, r) == RowsFor(db.ledger, r))
       && (var was, now := RowsFor(db.ledger, TournamentPrizeRef(t)), RowsFor(db'.ledger, TournamentPrizeRef(t));
           if winner.Some? && row.prize.Some? && row.prize.value != 0
           then |now| == |was| + 1 && now[..|was|] == was && 0 < row.prize.value
                && now[|was|].user == winner.value && now[|was|].kind == TournamentPrize
                && now[|was|].amount == row.prize.value
           else now == was)
  }

  lemma SettleFacts(db: Db, t: int, scores: map<int, nat>)
    ensures var commits := SettleCommits(db, t, scores);
            commits == []
            || (|commits| == 1 && t in db.tournaments && SettledOnce(db, commits[0], t, WinnerOf(db, t, scores)))
  {
    hide RowsFor, WinnerOf, SumWhere;
    if SettleRefusal(db, t) == None {
      var row := db.tournaments[t];
      var winner := WinnerOf(db, t, scores);
      var marked := db.(tournaments := db.tournaments[t := row.(status := Settled, winner := winner)]);
      if winner.Some? && row.prize.Some? && winner.value in db.wallets {
        PostSelects(marked, winner.value, TournamentPrize, row.prize.value, TournamentPrizeRef(t));
      }
    }
  }

  lemma SettledKeepsPrizes(db: Db, db': Db, t: int, winner: Option<int>)
    requires SettledOnce(db, db', t, winner)
    requires winner.Some? ==> winner.value in db.tournaments[t].participants
    requires PrizesOk(db.tournaments, db.ledger)
    ensures PrizesOk(db'.tournaments, db'.ledger)
  {
    hide RowsFor;
    assert RowsFor(db.ledger, TournamentPrizeRef(t)) == [];
  }

  lemma PersistedKeepsPrizes(db: Db, e: Event)
    requires PrizesOk(db.tournaments, db.ledger)
    ensures PrizesOk(Persisted(db, e).tournaments, Persisted(db, e).ledger)
  {
    hide Commits, PrizesOk, Stays, SettledOnce;
    if e.call.Settle? {
      var t, scores := e.call.tournament, e.call.scores;
      SettlePersisted(db, t, scores, e.survive);
      if Persisted(db, e) != db {
        WinnerIsBest(db, t, scores);
        SettledKeepsPrizes(db, Persisted(db, e), t, WinnerOf(db, t, scores));
      }
    } else {
      PersistedStays(PrizeSide, db, e);
      StaysKeepsPrizes(db, Persisted(db, e));
    }
  }

  lemma SettlePersisted(db: Db, t: int, scores: map<int, nat>, survive: nat)
    ensures var db' := Persisted(db, Event(Settle(t, scores), survive));
            db' == db || (t in db.tournaments && SettledOnce(db, db', t, WinnerOf(db, t, scores)))
  {
    hide SettledOnce, WinnerOf, SettleCommits;
    SettleFacts(db, t, scores);
    SettleCall(db, t, scores);
  }

  lemma SettleCall(db: Db, t: int, scores: map<int, nat>)
    ensures Commits(db, Settle(t, scores)) == SettleCommits(db, t, scores)
  {
    hide SettleCommits;
  }

  lemma {:induction false} RunKeepsPrizes(db: Db, events: seq<Event>)
    requires PrizesOk(db.tournaments, db.ledger)
    ensures PrizesOk(CrashRun(db, events).tournaments, CrashRun(db, events).ledger)
    decreases |events|
  {
    hide PrizesOk, Persisted;
    if events != [] {
      PersistedKeepsPrizes(db, events[0]);
      RunKeepsPrizes(Persisted(db, events[0]), events[1..]);
    }
  }

  /** Whatever call dies after whatever commit: a tournament has exactly one prize row, to its winner, a participant,
      with the amount of its prize, when it is settled with a winner and a prize, and none otherwise. */
  lemma PrizePaidOnceToWinner(events: seq<Event>, t: int)
    ensures var db := CrashRun(EMPTY_DB, events);
            var rows := RowsFor(db.ledger, TournamentPrizeRef(t));
            if Won(db.tournaments, t) then PaidToWinner(db.tournaments[t], rows) else rows == []
  {
    hide CrashRun, RowsFor, PaidToWinner;
    assert PrizesOk(EMPTY_DB.tournaments, EMPTY_DB.ledger) by { NoPrizes(); }
    RunKeepsPrizes(EMPTY_DB, events);
  }

  lemma NoPrizes()
    ensures PrizesOk(EMPTY_DB.tournaments, EMPTY_DB.ledger)
  {
  }

  // ----- the winner that is stored -----

  /** Once settled, a tournament keeps its row through any run. */
  lemma {:induction false} SettledForever(db: Db, events: seq<Event>, t: int)
    requires IsSettled(db.tournaments, t)
    ensures var db' := CrashRun(db, events);
            t in db'.tournaments && db'.tournaments[t] == db.tournaments[t]
    decreases |events|
  {
    hide Persisted;
    if events != [] {
      StepKeepsSettled(db, events[0], t);
      SettledForever(Persisted(db, events[0]), events[1..], t);
    }
  }

  lemma StepKeepsSettled(db: Db, e: Event, t: int)
    requires IsSettled(db.tournaments, t)
    ensures var db' := Persisted(db, e);
            t in db'.tournaments && db'.tournaments[t] == db.tournaments[t]
  {
    hide Commits, Persisted, RowsFor;
    if e.call.Settle? {
      SettlePersisted(db, e.call.tournament, e.call.scores, e.survive);
    } else {
      PersistedStays(PrizeSide, db, e);
    }
  }

  /** Only a settlement of the tournament settles it, with the winner of that moment. */
  lemma StepSettles(db: Db, e: Event, t: int)
    requires !IsSettled(db.tournaments, t) && IsSettled(Persisted(db, e).tournaments, t)
    ensures e.call.Settle? && e.call.tournament == t && t in db.tournaments
    ensures Persisted(db, e).tournaments[t]
         == db.tournaments[t].(status := Settled, winner := WinnerOf(db, t, e.call.scores))
  {
    hide Commits, Persisted, RowsFor, WinnerOf;
    if e.call.Settle? {
      SettlePersisted(db, e.call.tournament, e.call.scores, e.survive);
    } else {
      PersistedStays(PrizeSide, db, e);
    }
  }

  lemma {:induction false} FindSettlement(db: Db, events: seq<Event>, t: int) returns (k: nat)
    requires !IsSettled(db.tournaments, t) && IsSettled(CrashRun(db, events).tournaments, t)
    ensures k < |events| && events[k].call.Settle? && events[k].call.tournament == t
    ensures var before := CrashRun(db, events[..k]);
            t in before.tournaments
            && CrashRun(db, events).tournaments[t]
               == before.tournaments[t].(status := Settled, winner := WinnerOf(before, t, events[k].call.scores))
    decreases |events|
  {
    hide Persisted, WinnerOf;
    var next := Persisted(db, events[0]);
    if IsSettled(next.tournaments, t) {
      k := 0;
      StepSettles(db, events[0], t);
      SettledForever(next, events[1..], t);
    } else {
      var n := FindSettlement(next, events[1..], t);
      k := n + 1;
      assert events[..k][0] == events[0] && events[..k][1..] == events[1..][..n];
    }
  }

  /** Whatever crashes: the winner a settled tournament stores was, when it was settled, a participant of maximal
      positive score, and there is none only if nobody known had scored; the participants are those of then. */
  lemma StoredWinnerWasBest(events: seq<Event>, t: int) returns (k: nat)
    requires IsSettled(CrashRun(EMPTY_DB, events).tournaments, t)
    ensures k < |events| && events[k].call.Settle? && events[k].call.tournament == t
    ensures var before, row, scores :=
              CrashRun(EMPTY_DB, events[..k]), CrashRun(EMPTY_DB, events).tournaments[t], events[k].call.scores;
            && t in before.tournaments && before.tournaments[t].participants == row.participants
            && (row.winner.Some? ==>
                  && row.winner.value in row.participants && row.winner.value in before.customers
                  && row.winner.value in scores && 0 < scores[row.winner.value]
                  && forall u :: u in row.participants && u in before.customers && u in scores ==>
                       scores[u] <= scores[row.winner.value])
            && (row.winner == None ==>
                  forall u :: u in row.participants && u in before.customers && u in scores ==> scores[u] == 0)
  {
    hide CrashRun, WinnerOf;
    k := FindSettlement(EMPTY_DB, events, t);
    WinnerIsBest(CrashRun(EMPTY_DB, events[..k]), t, events[k].call.scores);
  }

  // ----- calls that complete -----

  /** A run of calls that all complete is a run in which no call dies. */
  lemma {:induction false} CleanRunIsCrashRun(db: Db, calls: seq<Call>) returns (events: seq<Event>)
    ensures CleanRun(db, calls) == CrashRun(db, events)
    decreases |calls|
  {
    hide Commits;
    if calls == [] {
      events := [];
    } else {
      var e := Event(calls[0], |Commits(db, calls[0])|);
      var rest := CleanRunIsCrashRun(Persisted(db, e), calls[1..]);
      events := [e] + rest;
      assert events[1..] == rest;
    }
  }

  /** After any calls that all completed: participants are distinct known users, entries and refunds add up to the
      closed form of the status, and the prize is one row to the winner when settled with one, and none otherwise. */
  lemma TournamentClosedForm(calls: seq<Call>, t: int)
    ensures var db := CleanRun(EMPTY_DB, calls);
            t in db.tournaments ==>
              && TournamentOk(db.customers.Keys, db.tournaments[t],
                              SumWhere(db.ledger, ByRef(TournamentEntryRef(t))),
                              SumWhere(db.ledger, ByRef(TournamentCancelRef(t))),
                              SumWhere(db.ledger, ByRef(TournamentPrizeRef(t))))
              && (var rows := RowsFor(db.ledger, TournamentPrizeRef(t));
                  if Won(db.tournaments, t) then PaidToWinner(db.tournaments[t], rows) else rows == [])
  {
    hide *;
    TournamentSums(calls, t);
    var events := CleanRunIsCrashRun(EMPTY_DB, calls);
    PrizePaidOnceToWinner(events, t);
  }
}

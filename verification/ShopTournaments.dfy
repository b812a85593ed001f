/** Tournaments: entry fees, refunds, the leaderboard and the prize. */
module TournamentServices {
  import opened Options
  import opened Sorting
  import opened ShopTables
  import opened ShopCalls
  import opened ShopSessions

  /** The known participants with their scores, in the order of joining. */
  function Rows(db: Db, ps: seq<int>, scores: map<int, nat>): seq<(int, nat)> {
    if ps == [] then []
    else
      var u := ps[|ps| - 1];
      if u !in db.customers then Rows(db, ps[..|ps| - 1], scores)
      else Rows(db, ps[..|ps| - 1], scores) + [(u, if u in scores then scores[u] else 0)]
  }

  predicate HigherFirst(a: (int, nat), b: (int, nat)) {
    a.1 >= b.1
  }

  function Board(db: Db, ps: seq<int>, scores: map<int, nat>): seq<(int, nat)> {
    StableSort(Rows(db, ps, scores), HigherFirst)
  }

  /** The board lists the same rows by falling score. */
  lemma BoardIsSorted(db: Db, ps: seq<int>, scores: map<int, nat>)
    ensures multiset(Board(db, ps, scores)) == multiset(Rows(db, ps, scores))
    ensures Ordered(Board(db, ps, scores), HigherFirst)
  {
    hide StableSort;
    var any := (a: (int, nat), b: (int, nat)) => true;
    SortIsStable(Rows(db, ps, scores), HigherFirst, any);
    var order := Lexicographic(HigherFirst, any);
    assert forall a, b :: order(a, b) ==> HigherFirst(a, b);
  }

  lemma {:induction false} InsertFirst(s: seq<(int, nat)>, x: (int, nat))
    requires Ordered(s, HigherFirst)
    ensures var r := Insert(s, x, HigherFirst);
            r != [] && r[0] == if s == [] || !HigherFirst(s[0], x) then x else s[0]
  {
    if s != [] && !HigherFirst(s[|s| - 1], x) {
      InsertFirst(s[..|s| - 1], x);
    }
  }

  /** The first row of the board is the leader: the earliest to join among those with the highest score. */
  lemma {:induction false} BoardStartsWithLeader(db: Db, ps: seq<int>, scores: map<int, nat>)
    ensures Leader(db, ps, scores) == if Board(db, ps, scores) == [] then None else Some(Board(db, ps, scores)[0])
  {
    if ps != [] {
      var front, u := ps[..|ps| - 1], ps[|ps| - 1];
      BoardStartsWithLeader(db, front, scores);
      if u in db.customers {
        BoardIsSorted(db, front, scores);
        var row := (u, if u in scores then scores[u] else 0);
        InsertFirst(Board(db, front, scores), row);
        assert Rows(db, ps, scores)[..|Rows(db, ps, scores)| - 1] == Rows(db, front, scores);
        assert Board(db, ps, scores) == Insert(Board(db, front, scores), row, HigherFirst);
      }
    }
  }

  class TournamentService {
    const session: Session

    constructor (session: Session)
      ensures this.session == session
    {
      this.session := session;
    }

    method EndNow(t: int) returns (error: Option<ShopError>)
      requires session.Settled()
      modifies session
      ensures session.Settled()
      ensures error == None
              <==> t in old(session.db).tournaments && old(session.db).tournaments[t].status.TournamentActive?
      ensures var commits := Commits(old(session.db), Call.EndNow(t));
              session.db == Last(old(session.db), commits) && session.history == old(session.history) + commits
    {
      if t !in session.db.tournaments { return Some(NotFound); }
      var tournament := session.db.tournaments[t];
      if tournament.status != TournamentActive { return Some(TournamentClosed); }
      session.db := session.db.(tournaments := session.db.tournaments[t := tournament.(status := Ended)]);
      session.Commit();
      return None;
    }

    /** Refunds the fee of every participant, one commit each, then cancels. */
    method Cancel(t: int) returns (error: Option<ShopError>)
      requires session.Settled() && session.db.customers.Keys == session.db.wallets.Keys
      modifies session
      ensures session.Settled() && error == CancelRefusal(old(session.db), t)
      ensures session.db == Last(old(session.db), CancelCommits(old(session.db), t))
      ensures session.history == old(session.history) + CancelCommits(old(session.db), t)
    {
      hide Post;
      ghost var db0 := session.db;
      if t !in session.db.tournaments { return Some(NotFound); }
      var tournament := session.db.tournaments[t];
      if tournament.status !in {TournamentActive, Ended} { return Some(NotCancellable); }
      if tournament.entryFee > 0 {
        RefundAll(t, tournament.entryFee, tournament.participants);
      }
      session.db := session.db.(tournaments := session.db.tournaments[t := tournament.(status := TournamentCancelled)]);
      session.Commit();
      return None;
    }

    method RefundAll(t: int, fee: int, participants: seq<int>)
      requires session.Settled() && session.db.customers.Keys == session.db.wallets.Keys && 0 < fee
      modifies session
      ensures session.Settled() && session.db.tournaments == old(session.db).tournaments
      ensures session.db == Last(old(session.db), RefundCommits(old(session.db), t, fee, participants))
      ensures session.history == old(session.history) + RefundCommits(old(session.db), t, fee, participants)
    {
      ghost var commits := RefundCommits(session.db, t, fee, participants);
      var wallets := new WalletService(session);
      var i := 0;
      assert participants[0..] == participants;
      while i < |participants|
        invariant 0 <= i <= |participants|
        invariant session.Settled() && session.db.tournaments == old(session.db).tournaments
        invariant session.db.customers.Keys == session.db.wallets.Keys
        invariant var rest := RefundCommits(session.db, t, fee, participants[i..]);
                  && session.history + rest == old(session.history) + commits
                  && Last(session.db, rest) == Last(old(session.db), commits)
      {
        var p := participants[i];
        assert participants[i..][0] == p && participants[i..][1..] == participants[i + 1..];
        if p in session.db.customers {
          ghost var refunded := Post(session.db, p, Refund, fee, TournamentCancelRef(t));
          ghost var rest := RefundCommits(refunded, t, fee, participants[i + 1..]);
          var error := wallets.Credit(p, fee, Refund, TournamentCancelRef(t));
          assert RefundCommits(session.db, t, fee, participants[i + 1..]) == rest;
        }
        i := i + 1;
      }
    }

    method Join(t: int, u: int) returns (error: Option<ShopError>)
      requires session.Settled() && session.db.customers.Keys == session.db.wallets.Keys
      modifies session
      ensures session.Settled() && error == JoinRefusal(old(session.db), t, u)
      ensures session.db == Last(old(session.db), JoinCommits(old(session.db), t, u))
      ensures session.history == old(session.history) + JoinCommits(old(session.db), t, u)
    {
      if t !in session.db.tournaments { return Some(NotFound); }
      var tournament := session.db.tournaments[t];
      if tournament.status != TournamentActive { return Some(TournamentClosed); }
      if u in tournament.participants { return Some(AlreadyJoined); }
      if tournament.entryFee > 0 {
        var wallets := new WalletService(session);
        error := wallets.Debit(u, tournament.entryFee, TournamentEntry, TournamentEntryRef(t));
        if error.Some? { return; }
      }
      if u !in session.db.customers { return Some(NotFound); }
      session.db := session.db.(tournaments :=
        session.db.tournaments[t := tournament.(participants := tournament.participants + [u])]);
      session.Commit();
      return None;
    }

    method Leaderboard(t: int, limit: nat, scores: map<int, nat>) returns (rows: seq<(int, nat)>)
      ensures t !in session.db.tournaments ==> rows == []
      ensures t in session.db.tournaments ==>
                var board := Board(session.db, session.db.tournaments[t].participants, scores);
                rows == if limit < |board| then board[..limit] else board
    {
      hide StableSort;
      if t !in session.db.tournaments { return []; }
      var participants := session.db.tournaments[t].participants;
      rows := [];
      var i := 0;
      while i < |participants|
        invariant 0 <= i <= |participants|
        invariant rows == Rows(session.db, participants[..i], scores)
      {
        var p := participants[i];
        assert participants[..i + 1][..i] == participants[..i];
        if p in session.db.customers {
          rows := rows + [(p, if p in scores then scores[p] else 0)];
        }
        i := i + 1;
      }
      assert participants[..i] == participants;
      rows := StableSort(rows, HigherFirst);
      if limit < |rows| {
        rows := rows[..limit];
      }
    }

    /** Fixes the winner and pays the prize, in one commit. */
    method Settle(t: int, scores: map<int, nat>) returns (error: Option<ShopError>, winner: Option<int>)
      requires session.Settled()
      modifies session
      ensures session.Settled()
      ensures session.db == Last(old(session.db), SettleCommits(old(session.db), t, scores))
      ensures session.history == old(session.history) + SettleCommits(old(session.db), t, scores)
      ensures SettleRefusal(old(session.db), t).Some? ==> error == SettleRefusal(old(session.db), t)
      ensures error == None ==> t in old(session.db).tournaments && winner == WinnerOf(old(session.db), t, scores)
    {
      hide Leader, StableSort;
      winner := None;
      if t !in session.db.tournaments { return Some(NotFound), None; }
      var tournament := session.db.tournaments[t];
      if tournament.status == Settled { return Some(AlreadySettled), None; }
      if tournament.status !in {TournamentActive, Ended} { return Some(TournamentClosed), None; }
      var board := Leaderboard(t, 1, scores);
      BoardStartsWithLeader(session.db, tournament.participants, scores);
      if board != [] && board[0].1 > 0 {
        winner := Some(board[0].0);
      }
      tournament := tournament.(status := Settled, winner := winner);
      session.db := session.db.(tournaments := session.db.tournaments[t := tournament]);
      if winner.Some? && tournament.prize.Some? && tournament.prize.value != 0 {
        var wallets := new WalletService(session);
        error := wallets.Credit(winner.value, tournament.prize.value, TournamentPrize, TournamentPrizeRef(t));
        if error.Some? { session.Rollback(); }
      } else {
        session.Commit();
        error := None;
      }
    }
  }
}

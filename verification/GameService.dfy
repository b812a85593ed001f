/** The token and game services, working on the tables of one database session. */
module GameServices {
  import opened Options
  import opened Totals
  import opened Ledgers
  import opened TokenBooks
  import opened GameRules
  import opened GameInvariants
  import opened GameRuns
  import opened GameLifetime

  class Session {
    var users: map<int, User>
    var games: map<int, GameRow>
    var reactions: seq<Reaction>
    var ledger: seq<TokenEntry>
    var platform: seq<PlatformFee>

    ghost function View(): Tables
      reads this
    {
      Tables(users, games, reactions, ledger, platform)
    }

    ghost predicate Valid()
      reads this
    {
      Inv(View())
    }

    constructor ()
      ensures View() == EMPTY && Valid()
    {
      users, games, reactions, ledger, platform := map[], map[], [], [], [];
      new;
      EmptyInv();
    }
  }

  class TokenService {
    const session: Session

    constructor (session: Session)
      ensures this.session == session
    {
      this.session := session;
    }

    /** Moves the balance and the counters of one user and appends the ledger row. */
    method Record(u: int, kind: Kind, amount: int, ref: Ref) returns (error: Option<Error>)
      requires u in session.users
      modifies session
      ensures error == if old(session.users[u].balance) + amount < 0 then Some(InsufficientToken) else None
      ensures session.View() == if error == None then Post(old(session.View()), u, kind, amount, ref)
                                else old(session.View())
    {
      var user := session.users[u];
      var before := user.balance;
      var after := before + amount;
      if after < 0 {
        return Some(InsufficientToken);
      }
      user := user.(balance := after);
      if kind == Purchase {
        user := user.(purchased := user.purchased + amount);
      } else if kind in {GameEntry, ProductPurchase} {
        user := user.(spent := user.spent + -amount);
      } else if kind == GameWin {
        user := user.(won := user.won + amount);
      } else if kind == GameFee {
        user := user.(feesPaid := user.feesPaid + -amount);
      }
      session.users := session.users[u := user];
      session.ledger := session.ledger + [Entry(u, kind, amount, before, after, ref)];
      return None;
    }

    method Credit(u: int, amount: int, kind: Kind, ref: Ref) returns (error: Option<Error>)
      requires u in session.users ==> 0 <= session.users[u].balance
      modifies session
      ensures error == CreditRefusal(old(session.View()), u, amount)
      ensures session.View() == if error == None then Post(old(session.View()), u, kind, amount, ref)
                                else old(session.View())
    {
      if amount <= 0 { return Some(InvalidAmount); }
      if u !in session.users { return Some(UserNotFound); }
      error := Record(u, kind, amount, ref);
    }

    method Debit(u: int, amount: int, kind: Kind, ref: Ref) returns (error: Option<Error>)
      modifies session
      ensures error == DebitRefusal(old(session.View()), u, amount)
      ensures session.View() == if error == None then Post(old(session.View()), u, kind, -amount, ref)
                                else old(session.View())
    {
      if amount <= 0 { return Some(InvalidAmount); }
      if u !in session.users { return Some(UserNotFound); }
      if session.users[u].balance < amount { return Some(InsufficientToken); }
      error := Record(u, kind, -amount, ref);
    }

    /** Moves `amount` to the recipient; the fee comes from the sender on top. */
    method TransferTokens(sender: int, recipient: int, amount: int, num: int, den: nat, now: int)
      returns (error: Option<Error>)
      requires 0 < den && session.Valid()
      modifies session
      ensures session.Valid()
      ensures error == TransferRefusal(old(session.View()), sender, recipient, amount, num, den)
      ensures forall cfg ::
        session.View() == Apply(cfg, old(session.View()), Transfer(sender, recipient, amount, num, den, now))
    {
      hide Accounts, Surplus, Reactions, Post;
      if amount <= 0 { return Some(InvalidAmount); }
      if sender == recipient { return Some(SelfTransfer); }
      if num < 0 || num > 100 * den { return Some(InvalidPercent); }
      if sender !in session.users || recipient !in session.users { return Some(UserNotFound); }
      if session.users[recipient].blocked { return Some(RecipientBlocked); }
      var fee := FeeOf(amount, num, den);
      if session.users[sender].balance < amount + fee { return Some(InsufficientToken); }
      ghost var v := session.View();
      TransferKeepsInv(v, sender, recipient, amount, num, den, now);
      FeeBounds(amount, num, den);
      BalanceNotNegative(v, recipient);
      TransferPostings(v, sender, recipient, amount, num, den, now);
      var ref := TransferOf(sender, recipient, now);
      error := Record(sender, TransferOut, -amount, ref);
      if fee != 0 {
        error := Record(sender, TransferFee, -fee, ref);
      }
      error := Record(recipient, TransferIn, amount, ref);
    }

    /** The three postings of a transfer find their users and never go below zero. */
    lemma TransferPostings(t: Tables, u: int, v: int, amount: int, num: int, den: nat, now: int)
      requires 0 < den && TransferRefusal(t, u, v, amount, num, den) == None
      requires 0 <= FeeOf(amount, num, den) && 0 <= t.users[v].balance
      ensures var ref := TransferOf(u, v, now);
              var sent := Post(t, u, TransferOut, -amount, ref);
              && 0 <= t.users[u].balance - amount
              && u in sent.users && v in sent.users
              && 0 <= sent.users[u].balance - FeeOf(amount, num, den)
              && 0 <= sent.users[v].balance + amount
              && var charged := Post(sent, u, TransferFee, -FeeOf(amount, num, den), ref);
                 v in charged.users && 0 <= charged.users[v].balance + amount
    {
    }

    method AdminAdjust(u: int, amount: int, admin: int) returns (error: Option<Error>)
      requires session.Valid()
      modifies session
      ensures session.Valid()
      ensures error == AdjustRefusal(old(session.View()), u, amount)
      ensures forall cfg :: session.View() == Apply(cfg, old(session.View()), Adjust(u, amount, admin))
    {
      hide Accounts, Surplus, Reactions;
      if u !in session.users { return Some(UserNotFound); }
      var before := session.users[u].balance;
      var after := before + amount;
      if after < 0 { return Some(InsufficientToken); }
      AdjustKeepsInv(session.View(), u, amount, admin);
      session.users := session.users[u := session.users[u].(balance := after)];
      session.ledger := session.ledger + [Entry(u, AdminAdjustment, amount, before, after, Admin(admin))];
      return None;
    }
  }

  class GameService {
    const session: Session
    const cfg: Settings

    constructor (session: Session, cfg: Settings)
      ensures this.session == session && this.cfg == cfg
    {
      this.session, this.cfg := session, cfg;
    }

    method CreateGame(u: int, chat: int, id: int, entry: int, now: int) returns (error: Option<Error>)
      requires session.Valid() && id !in session.games
      modifies session
      ensures session.Valid()
      ensures error == CreateRefusal(cfg, old(session.View()), u, chat, id, entry)
      ensures session.View() == Apply(cfg, old(session.View()), Create(u, chat, id, entry, now))
    {
      hide Inv, Move, Recorded;
      if entry < cfg.minEntry || entry > cfg.maxEntry { return Some(EntryOutOfRange); }
      if cfg.gameChat.Some? && chat != cfg.gameChat.value { return Some(WrongChat); }
      ghost var v := session.View();
      ApplyKeepsInv(cfg, v, Create(u, chat, id, entry, now));
      var total := entry * 2;
      var fee := total / 10;
      var reward := total - fee;
      var tokens := new TokenService(session);
      error := tokens.Debit(u, entry, GameEntry, Game(id));
      if error.Some? { return; }
      session.games := session.games[id :=
        GameRow(chat, u, None, entry, total, fee, reward, Waiting, None, None, None, None, None,
                now, now + cfg.expirationSeconds * SECOND)];
      MoveOne(v, id, session.games[id], Posting(u, GameEntry, -entry));
    }

    method JoinGame(g: int, u: int, now: int) returns (error: Option<Error>)
      requires session.Valid()
      modifies session
      ensures session.Valid()
      ensures error == JoinRefusal(old(session.View()), g, u)
      ensures session.View() == Apply(cfg, old(session.View()), Join(g, u, now))
    {
      hide Inv, Move, Recorded;
      ghost var v := session.View();
      ApplyKeepsInv(cfg, v, Join(g, u, now));
      if g !in session.games { return Some(GameNotFound); }
      var game := session.games[g];
      if game.status != Waiting { return Some(GameClosed); }
      if u !in session.users { return Some(UserNotFound); }
      if u == game.creator { return Some(OwnGame); }
      var tokens := new TokenService(session);
      error := tokens.Debit(u, game.entry, GameEntry, Game(g));
      if error.Some? { return; }
      game := game.(opponent := Some(u));
      game := game.(status := Active);
      game := game.(readyAt := Some(now + cfg.reactionDelaySeconds * SECOND));
      game := game.(startedAt := None);
      game := game.(expiresAt := now + cfg.activeTimeoutSeconds * SECOND);
      session.games := session.games[g := game];
      MoveOne(v, g, game, Posting(u, GameEntry, -game.entry));
    }

    method CancelGame(g: int, u: int, now: int) returns (error: Option<Error>)
      requires session.Valid()
      modifies session
      ensures session.Valid()
      ensures error == CancelRefusal(old(session.View()), g, u)
      ensures session.View() == Apply(cfg, old(session.View()), Cancel(g, u, now))
    {
      hide Inv, Move, Recorded;
      ghost var v := session.View();
      ApplyKeepsInv(cfg, v, Cancel(g, u, now));
      if g !in session.games { return Some(GameNotFound); }
      var game := session.games[g];
      if game.creator !in session.users || game.creator != u { return Some(NotCreator); }
      if game.status != Waiting { return Some(GameClosed); }
      BalanceNotNegative(v, u);
      var tokens := new TokenService(session);
      error := tokens.Credit(u, game.entry, GameRefund, Game(g));
      if error.Some? { return; }
      game := game.(status := Cancelled);
      game := game.(completedAt := Some(now));
      session.games := session.games[g := game];
      MoveOne(v, g, game, Posting(u, GameRefund, game.entry));
    }

    /** Opens the reaction phase once; any other call does nothing. */
    method StartReaction(g: int, now: int) returns (started: bool)
      requires session.Valid()
      modifies session
      ensures session.Valid()
      ensures started <==> CanStart(old(session.View()), g)
      ensures session.View() == Apply(cfg, old(session.View()), Start(g, now))
    {
      hide Inv;
      ApplyKeepsInv(cfg, session.View(), Start(g, now));
      if g !in session.games || session.games[g].status != Active || session.games[g].startedAt != None {
        return false;
      }
      session.games := session.games[g := session.games[g].(startedAt := Some(now))];
      return true;
    }

    /** Records a reaction; the second one settles the game. */
    method ReactTo(g: int, u: int, now: int, tieToNewer: bool) returns (error: Option<Error>, ms: int)
      requires session.Valid()
      modifies session
      ensures session.Valid()
      ensures error == ReactRefusal(old(session.View()), g, u, now, tieToNewer)
      ensures session.View() == Apply(cfg, old(session.View()), React(g, u, now, tieToNewer))
    {
      hide Inv, SettledBy, ReactionsOf, Fastest, Apply, Reacted;
      ReactStep(session.View(), g, u, now, tieToNewer);
      if g !in session.games || session.games[g].status != Active || session.games[g].startedAt == None {
        return Some(GameClosed), 0;
      }
      var game := session.games[g];
      if u !in session.users || !(u == game.creator || game.opponent == Some(u)) { return Some(NotPlayer), 0; }
      if HasReacted(ReactionsOf(session.reactions, g), u) { return Some(AlreadyReacted), 0; }
      ms := AcceptReaction(g, u, now, tieToNewer);
      return None, ms;
    }

    /** The accepted part of a reaction call. */
    method AcceptReaction(g: int, u: int, now: int, tieToNewer: bool) returns (ms: int)
      requires session.Valid()
      requires g in session.games && session.games[g].status == Active && session.games[g].startedAt != None
      requires u in session.users && IsPlayer(session.games[g], u)
      requires !HasReacted(ReactionsOf(session.reactions, g), u)
      modifies session
      ensures ReactRefusal(old(session.View()), g, u, now, tieToNewer) == None
      ensures session.View() == Reacted(old(session.View()), g, u, now, tieToNewer)
    {
      hide Inv, SettledBy, ReactionsOf, Fastest, HasReacted, ReactionsOk;
      ghost var v := session.View();
      GameFacts(v, g);
      var game := session.games[g];
      ms := if now <= game.startedAt.value then 0 else (now - game.startedAt.value) / 1000;
      session.reactions := session.reactions + [Reaction(g, u, ms)];
      ReactionsAppend(v.reactions, Reaction(g, u, ms));
      var reactions := ReactionsOf(session.reactions, g);
      if |reactions| >= 2 {
        var winner := Fastest(reactions, tieToNewer);
        SettlersKnown(v, g, winner, reactions, tieToNewer);
        SettleFrame(v, g, winner.user, now, session.reactions);
        Settle(g, winner.user, now);
        ms := winner.ms;
      }
    }

    lemma ReactStep(t: Tables, g: int, u: int, now: int, tie: bool)
      requires Inv(t)
      ensures Inv(Apply(cfg, t, React(g, u, now, tie)))
      ensures Apply(cfg, t, React(g, u, now, tie))
           == if ReactRefusal(t, g, u, now, tie) == None then Reacted(t, g, u, now, tie) else t
    {
      ApplyKeepsInv(cfg, t, React(g, u, now, tie));
    }

    /** The settlement of two reactions: prize, platform fee and fee counters. */
    method Settle(g: int, winner: int, now: int)
      requires g in session.games && winner in session.users && 0 <= session.users[winner].balance
      requires 0 < session.games[g].reward
      modifies session
      ensures session.View() == SettledBy(old(session.View()), g, winner, now)
    {
      hide Move, Recorded, FeeShares;
      ghost var v := session.View();
      var game := session.games[g];
      var loser := if winner == game.creator then game.opponent else Some(game.creator);
      session.games := session.games[g := game.(winner := Some(winner), loser := loser,
                                                status := Completed, completedAt := Some(now))];
      var tokens := new TokenService(session);
      var error := tokens.Credit(winner, game.reward, GameWin, Game(g));
      session.platform := session.platform + [PlatformFee(g, game.fee)];
      MoveOne(v, g, session.games[g], Posting(winner, GameWin, game.reward));
      CountFees(game);
    }

    /** Adds the fee of a settled game to its players' counters, half to each. */
    method CountFees(game: GameRow)
      modifies session`users
      ensures session.users == FeeShares(old(session.users), game)
    {
      if game.creator in session.users && game.opponent.Some? && game.opponent.value in session.users {
        var half := game.fee / 2;
        var creator := session.users[game.creator];
        session.users := session.users[game.creator := creator.(feesPaid := creator.feesPaid + half)];
        var opponent := session.users[game.opponent.value];
        session.users := session.users[game.opponent.value :=
          opponent.(feesPaid := opponent.feesPaid + game.fee - half)];
      }
    }

    /** The fastest of the reactions of a valid game is one of its players, and the prize is positive. */
    lemma SettlersKnown(t: Tables, g: int, winner: Reaction, rs: seq<Reaction>, tie: bool)
      requires g in t.games && t.games[g].status == Active && RowOk(t.users.Keys, t.games[g])
      requires ReactionsOk(t.games[g], ReactionsOf(t.reactions, g))
      requires |rs| >= 2 && rs[..|rs| - 1] == ReactionsOf(t.reactions, g) && IsPlayer(t.games[g], rs[|rs| - 1].user)
      requires winner == Fastest(rs, tie)
      requires Inv(t)
      ensures winner.user in t.users && 0 <= t.users[winner.user].balance && 0 < t.games[g].reward
    {
      hide Inv, ReactionsOf;
      assert rs == [rs[0], rs[1]];
      FastestOfTwo(rs[0], rs[1], tie);
      BalanceNotNegative(t, winner.user);
    }

    // ----- the scheduler's two passes -----

    method ExpireWaitingGame(g: int, now: int)
      requires session.Valid() && Due(session.View(), g, Waiting, now)
      modifies session
      ensures session.Valid()
      ensures session.View() == Apply(cfg, old(session.View()), ExpireWaiting(g, now))
    {
      hide Inv, Move, Recorded;
      ghost var v := session.View();
      ApplyKeepsInv(cfg, v, ExpireWaiting(g, now));
      GameFacts(v, g);
      var game := session.games[g];
      if game.creator in session.users {
        BalanceNotNegative(v, game.creator);
        var tokens := new TokenService(session);
        var error := tokens.Credit(game.creator, game.entry, GameRefund, Game(g));
      }
      game := game.(status := Expired);
      game := game.(completedAt := Some(now));
      session.games := session.games[g := game];
      MoveOne(v, g, game, Posting(game.creator, GameRefund, game.entry));
    }

    method ExpireActiveGame(g: int, now: int)
      requires session.Valid() && Due(session.View(), g, Active, now)
      modifies session
      ensures session.Valid()
      ensures session.View() == Apply(cfg, old(session.View()), ExpireActive(g, now))
    {
      hide Inv, Move, Recorded, ReactionsOf;
      ghost var v := session.View();
      ApplyKeepsInv(cfg, v, ExpireActive(g, now));
      GameFacts(v, g);
      var game := session.games[g];
      var reactions := ReactionsOf(session.reactions, g);
      var tokens := new TokenService(session);
      if reactions == [] {
        BalanceNotNegative(v, game.creator);
        BalanceNotNegative(v, game.opponent.value);
        var error := tokens.Credit(game.creator, game.entry, GameRefund, Game(g));
        if game.opponent.Some? {
          error := tokens.Credit(game.opponent.value, game.entry, GameRefund, Game(g));
        }
        session.games := session.games[g := game.(status := Expired, completedAt := Some(now))];
        var p, q := Posting(game.creator, GameRefund, game.entry), Posting(game.opponent.value, GameRefund, game.entry);
        assert [p] + [q] == [p, q];
        MoveTwo(v, g, session.games[g], p, q);
      } else {
        var winner := reactions[0];
        BalanceNotNegative(v, winner.user);
        var loser := if winner.user == game.creator then game.opponent else Some(game.creator);
        var error := tokens.Credit(winner.user, game.reward, GameWin, Game(g));
        session.games := session.games[g := game.(winner := Some(winner.user), loser := loser,
                                                  status := Completed, completedAt := Some(now))];
        session.platform := session.platform + [PlatformFee(g, game.fee)];
        MoveOne(v, g, session.games[g], Posting(winner.user, GameWin, game.reward));
      }
    }

    /** Closes every waiting game whose deadline has come, except those whose row another session holds;
        the rows come in any order. */
    method ExpireWaitingGames(now: int, locked: set<int>) returns (closed: seq<int>)
      requires session.Valid()
      modifies session
      ensures session.Valid()
      ensures forall g :: g in closed <==> Due(old(session.View()), g, Waiting, now) && g !in locked
      ensures forall i, j :: 0 <= i < j < |closed| ==> closed[i] != closed[j]
      ensures session.View() == Run(cfg, old(session.View()), ExpireAll(true, closed, now))
    {
      hide Inv, Apply, Run, ReactionsOf;
      ghost var v := session.View();
      var todo := set g | g in session.games && session.games[g].status == Waiting
                          && session.games[g].expiresAt <= now && g !in locked;
      closed := [];
      RunNothing(v, true, now);
      while todo != {}
        invariant session.Valid()
        invariant session.View() == Run(cfg, v, ExpireAll(true, closed, now))
        invariant forall g :: (g in closed || g in todo) <==> Due(v, g, Waiting, now) && g !in locked
        invariant forall g :: g in todo ==> Due(session.View(), g, Waiting, now) && g !in closed
        invariant forall i, j :: 0 <= i < j < |closed| ==> closed[i] != closed[j]
        decreases |todo|
      {
        ghost var some := Pick(todo);
        var g :| g in todo;
        forall h | h in todo && h != g { OthersSameRow(cfg, session.View(), ExpireWaiting(g, now), h); }
        ExpireWaitingGame(g, now);
        RunOneMore(v, true, closed, g, now);
        closed, todo := closed + [g], todo - {g};
      }
    }

    /** Settles or refunds every active game whose deadline has come, with the same provisos. */
    method ExpireActiveGames(now: int, locked: set<int>) returns (closed: seq<int>)
      requires session.Valid()
      modifies session
      ensures session.Valid()
      ensures forall g :: g in closed <==> Due(old(session.View()), g, Active, now) && g !in locked
      ensures forall i, j :: 0 <= i < j < |closed| ==> closed[i] != closed[j]
      ensures session.View() == Run(cfg, old(session.View()), ExpireAll(false, closed, now))
    {
      hide Inv, Apply, Run, ReactionsOf;
      ghost var v := session.View();
      var todo := set g | g in session.games && session.games[g].status == Active
                          && session.games[g].expiresAt <= now && g !in locked;
      closed := [];
      RunNothing(v, false, now);
      while todo != {}
        invariant session.Valid()
        invariant session.View() == Run(cfg, v, ExpireAll(false, closed, now))
        invariant forall g :: (g in closed || g in todo) <==> Due(v, g, Active, now) && g !in locked
        invariant forall g :: g in todo ==> Due(session.View(), g, Active, now) && g !in closed
        invariant forall i, j :: 0 <= i < j < |closed| ==> closed[i] != closed[j]
        decreases |todo|
      {
        ghost var some := Pick(todo);
        var g :| g in todo;
        forall h | h in todo && h != g { OthersSameRow(cfg, session.View(), ExpireActive(g, now), h); }
        ExpireActiveGame(g, now);
        RunOneMore(v, false, closed, g, now);
        closed, todo := closed + [g], todo - {g};
      }
    }

    lemma RunNothing(t: Tables, waiting: bool, now: int)
      ensures Run(cfg, t, ExpireAll(waiting, [], now)) == t
    {
    }

    lemma RunOneMore(t: Tables, waiting: bool, ids: seq<int>, g: int, now: int)
      ensures Run(cfg, t, ExpireAll(waiting, ids + [g], now))
           == Apply(cfg, Run(cfg, t, ExpireAll(waiting, ids, now)),
                    if waiting then ExpireWaiting(g, now) else ExpireActive(g, now))
    {
      var s := if waiting then ExpireWaiting(g, now) else ExpireActive(g, now);
      assert ExpireAll(waiting, ids + [g], now) == ExpireAll(waiting, ids, now) + [s];
      RunAppend(cfg, t, ExpireAll(waiting, ids, now), s);
    }
  }
}

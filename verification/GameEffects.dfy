/**
 * What one call does to a player's tokens and to a game, said from the rows before the call: when it is accepted,
 * who pays and who is paid, the ledger rows it writes and the game row it leaves.
 */
module GameEffects {
  import opened Options
  import opened Totals
  import opened Ledgers
  import opened TokenBooks
  import opened GameRules
  import opened GameInvariants
  import opened GameRuns

  /** User `u` alone is paid `amount`, under one new ledger row. */
  ghost predicate PaysOne(t: Tables, t': Tables, u: int, kind: Kind, amount: int, ref: Ref) {
    && u in t.users && t'.users.Keys == t.users.Keys
    && t'.users[u].balance == t.users[u].balance + amount
    && t'.users[u].feesPaid == t.users[u].feesPaid && t'.users[u].blocked == t.users[u].blocked
    && (forall v :: v in t.users && v != u ==> t'.users[v] == t.users[v])
    && t'.ledger == t.ledger + [Entry(u, kind, amount, t.users[u].balance, t.users[u].balance + amount, ref)]
  }

  /** Only the game row `g` changes, besides users and ledger. */
  ghost predicate OnlyGame(t: Tables, t': Tables, g: int, row: GameRow) {
    t'.games == t.games[g := row] && t'.reactions == t.reactions && t'.platform == t.platform
  }

  ghost predicate NoGame(t: Tables, t': Tables) {
    t'.games == t.games && t'.reactions == t.reactions && t'.platform == t.platform
  }

  lemma PostPaysOne(t: Tables, u: int, kind: Kind, amount: int, ref: Ref)
    requires u in t.users && !kind.GameFee?
    ensures PaysOne(t, Post(t, u, kind, amount, ref), u, kind, amount, ref)
    ensures NoGame(t, Post(t, u, kind, amount, ref))
  {
  }

  // ----- tokens -----

  predicate TransferAccepted(t: Tables, u: int, v: int, amount: int, num: int, den: nat, fee: int) {
    && 0 < amount && u != v && 0 <= num <= 100 * den && u in t.users && v in t.users && !t.users[v].blocked
    && amount + fee <= t.users[u].balance
  }

  /** The transfer moves the amount, takes the fee from the sender on top, and touches nobody else. */
  ghost predicate TransferDone(t: Tables, t': Tables, u: int, v: int, amount: int, fee: int, ref: Ref)
    requires u in t.users && v in t.users
  {
    var a, b := t.users[u].balance, t.users[v].balance;
    && t'.users.Keys == t.users.Keys
    && t'.users[u].balance == a - amount - fee && t'.users[v].balance == b + amount
    && t'.users[u].blocked == t.users[u].blocked && t'.users[v].blocked == t.users[v].blocked
    && (forall w :: w in t.users && w != u && w != v ==> t'.users[w] == t.users[w])
    && t'.ledger == t.ledger + [Entry(u, TransferOut, -amount, a, a - amount, ref)]
                    + (if fee != 0 then [Entry(u, TransferFee, -fee, a - amount, a - amount - fee, ref)] else [])
                    + [Entry(v, TransferIn, amount, b, b + amount, ref)]
    && SumWhere(t'.ledger, TransferFeeRows()) == SumWhere(t.ledger, TransferFeeRows()) - fee
    && NoGame(t, t')
  }

  /** A transfer charges the fee its percentage names, and is accepted exactly when the sender can pay both. */
  lemma TransferEffect(
      cfg: Settings, t: Tables, t': Tables, u: int, v: int, amount: int, num: int, den: nat, now: int, fee: int)
    requires t' == Apply(cfg, t, Transfer(u, v, amount, num, den, now))
    requires 0 < den && 100 * den * fee <= amount * num < 100 * den * (fee + 1)
    ensures if TransferAccepted(t, u, v, amount, num, den, fee)
            then TransferDone(t, t', u, v, amount, fee, TransferOf(u, v, now)) else t' == t
    ensures TransferAccepted(t, u, v, amount, num, den, fee) <==> TransferRefusal(t, u, v, amount, num, den) == None
    ensures TransferRefusal(t, u, v, amount, num, den) == Some(InsufficientToken)
            <==> && 0 < amount && u != v && 0 <= num <= 100 * den && u in t.users && v in t.users
                 && !t.users[v].blocked && t.users[u].balance < amount + fee
  {
    hide SumWhere, FeeOf, Recorded, Total;
    if 0 < amount && 0 <= num <= 100 * den {
      FeeBounds(amount, num, den);
      FloorIsUnique(100 * den, amount * num, fee, FeeOf(amount, num, den));
      if TransferAccepted(t, u, v, amount, num, den, fee) {
        TransferPays(t, u, v, amount, num, den, now);
      }
    }
  }

  lemma FloorIsUnique(d: int, x: int, a: int, b: int)
    requires 0 < d && d * a <= x < d * (a + 1) && d * b <= x < d * (b + 1)
    ensures a == b
  {
    NotAbove(d, x, a, b);
    NotAbove(d, x, b, a);
  }

  lemma NotAbove(d: int, x: int, a: int, b: int)
    requires 0 < d && d * a <= x < d * (b + 1)
    ensures a <= b
  {
    assert 0 < d * (b + 1 - a);
  }

  /** The rows a transfer's charge leaves: the amount and the fee, both from the sender. */
  lemma SenderPays(t: Tables, charged: Tables, u: int, amount: int, fee: int, ref: Ref)
    requires u in t.users
    requires charged == var sent := Post(t, u, TransferOut, -amount, ref);
                        if fee != 0 then Post(sent, u, TransferFee, -fee, ref) else sent
    ensures NoGame(t, charged) && charged.users.Keys == t.users.Keys
    ensures charged.users[u].balance == t.users[u].balance - amount - fee
    ensures charged.users[u].blocked == t.users[u].blocked
    ensures forall w :: w in t.users && w != u ==> charged.users[w] == t.users[w]
    ensures var a := t.users[u].balance;
            charged.ledger
            == t.ledger + [Entry(u, TransferOut, -amount, a, a - amount, ref)]
               + if fee != 0 then [Entry(u, TransferFee, -fee, a - amount, a - amount - fee, ref)] else []
  {
    hide Post;
    var sent := Post(t, u, TransferOut, -amount, ref);
    PostPaysOne(t, u, TransferOut, -amount, ref);
    PostPaysOne(sent, u, TransferFee, -fee, ref);
  }

  lemma TransferFeeSum(t: Tables, u: int, v: int, amount: int, num: int, den: nat, now: int)
    requires 0 < den && TransferRefusal(t, u, v, amount, num, den) == None
    ensures SumWhere(Transferred(t, u, v, amount, num, den, now).ledger, TransferFeeRows())
         == SumWhere(t.ledger, TransferFeeRows()) - FeeOf(amount, num, den)
  {
    hide SumWhere, FeeOf, Total, Recorded;
    var ref, fee := TransferOf(u, v, now), FeeOf(amount, num, den);
    var sent := Post(t, u, TransferOut, -amount, ref);
    var charged := if fee != 0 then Post(sent, u, TransferFee, -fee, ref) else sent;
    PostSums(t, u, TransferOut, -amount, ref);
    PostSums(sent, u, TransferFee, -fee, ref);
    PostSums(charged, v, TransferIn, amount, ref);
  }

  lemma TransferPays(t: Tables, u: int, v: int, amount: int, num: int, den: nat, now: int)
    requires 0 < den && u != v && TransferRefusal(t, u, v, amount, num, den) == None
    ensures TransferDone(t, Transferred(t, u, v, amount, num, den, now), u, v, amount, FeeOf(amount, num, den),
                         TransferOf(u, v, now))
  {
    hide SumWhere, FeeOf;
    TransferFeeSum(t, u, v, amount, num, den, now);
    var ref, fee := TransferOf(u, v, now), FeeOf(amount, num, den);
    var sent := Post(t, u, TransferOut, -amount, ref);
    var charged := if fee != 0 then Post(sent, u, TransferFee, -fee, ref) else sent;
    hide Post;
    SenderPays(t, charged, u, amount, fee, ref);
    PostPaysOne(charged, v, TransferIn, amount, ref);
  }

  /** Tokens are issued exactly to known users in positive amounts. */
  lemma IssueEffect(cfg: Settings, t: Tables, t': Tables, u: int, amount: int, kind: IssueKind, ref: IssueRef)
    requires t' == Apply(cfg, t, Issue(u, amount, kind, ref))
    ensures if 0 < amount && u in t.users then PaysOne(t, t', u, kind, amount, ref) && NoGame(t, t') else t' == t
  {
  }

  /** An adjustment moves the balance by the given amount, up or down, but never below zero. */
  lemma AdjustEffect(cfg: Settings, t: Tables, t': Tables, u: int, amount: int, admin: int)
    requires t' == Apply(cfg, t, Adjust(u, amount, admin))
    ensures if u in t.users && 0 <= t.users[u].balance + amount
            then PaysOne(t, t', u, AdminAdjustment, amount, Admin(admin)) && NoGame(t, t') else t' == t
  {
  }

  // ----- opening and joining -----

  /** A game is opened exactly within the limits; the row holds twice the entry, a tenth of it as the fee. */
  lemma CreateEffect(cfg: Settings, t: Tables, t': Tables, u: int, chat: int, g: int, entry: int, now: int, fee: int)
    requires t' == Apply(cfg, t, Create(u, chat, g, entry, now))
    requires 10 * fee <= 2 * entry < 10 * (fee + 1)
    ensures if && 0 < entry && cfg.minEntry <= entry <= cfg.maxEntry
               && (cfg.gameChat == None || cfg.gameChat == Some(chat))
               && u in t.users && entry <= t.users[u].balance && g !in t.games
            then
              && PaysOne(t, t', u, GameEntry, -entry, Game(g))
              && OnlyGame(t, t', g, GameRow(chat, u, None, entry, 2 * entry, fee, 2 * entry - fee, Waiting,
                                            None, None, None, None, None,
                                            now, now + cfg.expirationSeconds * 1_000_000))
            else t' == t
  {
    hide Move, Recorded;
    if CreateRefusal(cfg, t, u, chat, g, entry) == None {
      MoveOne(t, g, NewGame(cfg, u, chat, entry, now), Posting(u, GameEntry, -entry));
      PostPaysOne(t, u, GameEntry, -entry, Game(g));
    }
  }

  /** A waiting game is joined exactly by another known user who can pay the entry; the clock of play starts. */
  lemma JoinEffect(cfg: Settings, t: Tables, t': Tables, g: int, u: int, now: int)
    requires t' == Apply(cfg, t, Join(g, u, now))
    requires Inv(t)
    ensures if && g in t.games && t.games[g].status == Waiting && u in t.users && u != t.games[g].creator
               && t.games[g].entry <= t.users[u].balance
            then
              var r := t.games[g];
              && PaysOne(t, t', u, GameEntry, -r.entry, Game(g))
              && OnlyGame(t, t', g, GameRow(r.chat, r.creator, Some(u), r.entry, r.pot, r.fee, r.reward, Active,
                                            r.winner, r.loser, Some(now + cfg.reactionDelaySeconds * 1_000_000), None,
                                            r.completedAt, r.createdAt, now + cfg.activeTimeoutSeconds * 1_000_000))
            else t' == t
  {
    hide Move, Recorded, Accounts, Surplus, Reactions;
    GameFacts(t, g);
    if JoinRefusal(t, g, u) == None {
      var r := t.games[g];
      var row := r.(opponent := Some(u), status := Active,
                    readyAt := Some(now + cfg.reactionDelaySeconds * SECOND), startedAt := None,
                    expiresAt := now + cfg.activeTimeoutSeconds * SECOND);
      MoveOne(t, g, row, Posting(u, GameEntry, -r.entry));
      PostPaysOne(t, u, GameEntry, -r.entry, Game(g));
    }
  }

  // ----- closing without a winner -----

  /** The row of a game closed at `now` without a winner. */
  ghost predicate ClosedAs(t: Tables, t': Tables, g: int, status: Status, now: int)
    requires g in t.games
  {
    var r := t.games[g];
    OnlyGame(t, t', g, GameRow(r.chat, r.creator, r.opponent, r.entry, r.pot, r.fee, r.reward, status,
                               r.winner, r.loser, r.readyAt, r.startedAt, Some(now), r.createdAt, r.expiresAt))
  }

  lemma RefundOne(t: Tables, g: int, u: int, amount: int, status: Status, now: int)
    requires g in t.games && u in t.users
    ensures var t' := Move(t, g, Closed(t.games[g], status, now), [Posting(u, GameRefund, amount)], []);
            PaysOne(t, t', u, GameRefund, amount, Game(g)) && ClosedAs(t, t', g, status, now)
  {
    hide Move, Recorded;
    MoveOne(t, g, Closed(t.games[g], status, now), Posting(u, GameRefund, amount));
    PostPaysOne(t, u, GameRefund, amount, Game(g));
  }

  /** Exactly the creator cancels, exactly a waiting game, and gets the entry back. */
  lemma CancelEffect(cfg: Settings, t: Tables, t': Tables, g: int, u: int, now: int)
    requires t' == Apply(cfg, t, Cancel(g, u, now))
    requires Inv(t)
    ensures if g in t.games && t.games[g].status == Waiting && u == t.games[g].creator
            then PaysOne(t, t', u, GameRefund, t.games[g].entry, Game(g)) && ClosedAs(t, t', g, Cancelled, now)
            else t' == t
  {
    hide Move, Accounts, Surplus, Reactions, PaysOne, ClosedAs;
    GameFacts(t, g);
    if CancelRefusal(t, g, u) == None {
      RefundOne(t, g, u, t.games[g].entry, Cancelled, now);
    }
  }

  /** A waiting game past its deadline is closed and its creator refunded. */
  lemma ExpireWaitingEffect(cfg: Settings, t: Tables, t': Tables, g: int, now: int)
    requires t' == Apply(cfg, t, ExpireWaiting(g, now))
    requires Inv(t)
    ensures if g in t.games && t.games[g].status == Waiting && t.games[g].expiresAt <= now
            then && PaysOne(t, t', t.games[g].creator, GameRefund, t.games[g].entry, Game(g))
                 && ClosedAs(t, t', g, Expired, now)
            else t' == t
  {
    hide Move, Accounts, Surplus, Reactions, PaysOne, ClosedAs;
    GameFacts(t, g);
    if CanExpireWaiting(t, g, now) {
      RefundOne(t, g, t.games[g].creator, t.games[g].entry, Expired, now);
    }
  }

  /** Both players get their entries back, under one ledger row each. */
  ghost predicate PaysBoth(t: Tables, t': Tables, u: int, v: int, kind: Kind, amount: int, ref: Ref) {
    && u in t.users && v in t.users && u != v && t'.users.Keys == t.users.Keys
    && t'.users[u].balance == t.users[u].balance + amount && t'.users[v].balance == t.users[v].balance + amount
    && (forall w :: w in t.users && w != u && w != v ==> t'.users[w] == t.users[w])
    && t'.ledger == t.ledger
                    + [Entry(u, kind, amount, t.users[u].balance, t.users[u].balance + amount, ref)]
                    + [Entry(v, kind, amount, t.users[v].balance, t.users[v].balance + amount, ref)]
  }

  lemma RefundTwo(t: Tables, g: int, u: int, v: int, amount: int, now: int)
    requires g in t.games && u in t.users && v in t.users && u != v
    ensures var t' := Move(t, g, Closed(t.games[g], Expired, now),
                           [Posting(u, GameRefund, amount), Posting(v, GameRefund, amount)], []);
            && PaysBoth(t, t', u, v, GameRefund, amount, Game(g)) && ClosedAs(t, t', g, Expired, now)
            && t'.reactions == t.reactions
  {
    hide Move;
    MoveTwo(t, g, Closed(t.games[g], Expired, now), Posting(u, GameRefund, amount), Posting(v, GameRefund, amount));
  }

  // ----- playing -----

  /** The reaction phase of an active game starts once. */
  lemma StartEffect(cfg: Settings, t: Tables, t': Tables, g: int, now: int)
    requires t' == Apply(cfg, t, Start(g, now))
    ensures if g in t.games && t.games[g].status == Active && t.games[g].startedAt == None
            then
              var r := t.games[g];
              && t'.users == t.users && t'.ledger == t.ledger
              && OnlyGame(t, t', g, GameRow(r.chat, r.creator, r.opponent, r.entry, r.pot, r.fee, r.reward, Active,
                                            r.winner, r.loser, r.readyAt, Some(now), r.completedAt, r.createdAt,
                                            r.expiresAt))
            else t' == t
  {
  }

  /** Player `winner` wins the game at `now`: the prize, the row, and the platform's fee. */
  ghost predicate WonBy(t: Tables, t': Tables, g: int, winner: int, now: int)
    requires g in t.games
  {
    var r := t.games[g];
    && winner in t.users && t'.users.Keys == t.users.Keys
    && t'.users[winner].balance == t.users[winner].balance + r.reward
    && (forall v :: v in t.users && v != winner ==> t'.users[v].balance == t.users[v].balance)
    && (forall v :: v in t.users ==> t'.users[v].blocked == t.users[v].blocked)
    && t'.ledger == t.ledger + [Entry(winner, GameWin, r.reward, t.users[winner].balance,
                                      t.users[winner].balance + r.reward, Game(g))]
    && t'.games == t.games[g := GameRow(r.chat, r.creator, r.opponent, r.entry, r.pot, r.fee, r.reward, Completed,
                                        Some(winner), if winner == r.creator then r.opponent else Some(r.creator),
                                        r.readyAt, r.startedAt, Some(now), r.createdAt, r.expiresAt)]
    && t'.platform == t.platform + [PlatformFee(g, r.fee)]
  }

  /** Each user's fee counter grows by the named share. */
  ghost predicate CountsFees(t: Tables, t': Tables, shares: map<int, int>) {
    forall v :: v in t.users && v in t'.users ==>
      t'.users[v].feesPaid == t.users[v].feesPaid + if v in shares then shares[v] else 0
  }

  lemma WinPays(t: Tables, g: int, winner: int, now: int)
    requires g in t.games && winner in t.users
    ensures var t' := Move(t, g, Won(t.games[g], winner, now), [Posting(winner, GameWin, t.games[g].reward)],
                           [PlatformFee(g, t.games[g].fee)]);
            WonBy(t, t', g, winner, now) && t'.reactions == t.reactions && CountsFees(t, t', map[])
  {
    hide Move;
    MoveOne(t, g, Won(t.games[g], winner, now), Posting(winner, GameWin, t.games[g].reward));
  }

  /** An overdue active game is refunded to both players when nobody reacted, and else won by who did. */
  lemma ExpireActiveEffect(cfg: Settings, t: Tables, t': Tables, g: int, now: int)
    requires t' == Apply(cfg, t, ExpireActive(g, now))
    requires Inv(t)
    ensures if g in t.games && t.games[g].status == Active && t.games[g].expiresAt <= now
            then
              var r, rs := t.games[g], ReactionsOf(t.reactions, g);
              && r.opponent.Some?
              && t'.reactions == t.reactions
              && if rs == []
                 then && PaysBoth(t, t', r.creator, r.opponent.value, GameRefund, r.entry, Game(g))
                      && ClosedAs(t, t', g, Expired, now)
                 else WonBy(t, t', g, rs[0].user, now) && CountsFees(t, t', map[])
            else t' == t
  {
    hide Move, Accounts, Surplus, Reactions, PaysBoth, ReactionsOf, WonBy, CountsFees;
    GameFacts(t, g);
    if CanExpireActive(t, g, now) {
      var r := t.games[g];
      if ReactionsOf(t.reactions, g) == [] {
        assert [Posting(r.creator, GameRefund, r.entry)] + [Posting(r.opponent.value, GameRefund, r.entry)]
            == [Posting(r.creator, GameRefund, r.entry), Posting(r.opponent.value, GameRefund, r.entry)];
        RefundTwo(t, g, r.creator, r.opponent.value, r.entry, now);
      } else {
        WinPays(t, g, ReactionsOf(t.reactions, g)[0].user, now);
      }
    }
  }

  /** The time recorded for a reaction: the whole milliseconds since the phase started, 0 before it. */
  ghost predicate MillisBetween(start: int, now: int, ms: int) {
    if now <= start then ms == 0 else 1000 * ms <= now - start < 1000 * (ms + 1)
  }

  predicate ReactAccepted(t: Tables, g: int, u: int) {
    && g in t.games && t.games[g].status == Active && t.games[g].startedAt.Some?
    && (u == t.games[g].creator || t.games[g].opponent == Some(u))
    && forall i :: 0 <= i < |ReactionsOf(t.reactions, g)| ==> ReactionsOf(t.reactions, g)[i].user != u
  }

  /** Of the two reactions the faster wins; the order a query gives equal times decides a tie. */
  ghost function WinnerOf(first: Reaction, u: int, ms: int, tieToNewer: bool): int {
    if ms < first.ms then u else if ms > first.ms then first.user else if tieToNewer then u else first.user
  }

  /** The first reaction of a started game is recorded alone; the second settles the game. */
  lemma ReactEffect(cfg: Settings, t: Tables, t': Tables, g: int, u: int, now: int, tie: bool, ms: int)
    requires t' == Apply(cfg, t, React(g, u, now, tie))
    requires ReactAccepted(t, g, u) ==> MillisBetween(t.games[g].startedAt.value, now, ms)
    requires Inv(t)
    ensures if ReactAccepted(t, g, u)
            then
              var r, rs := t.games[g], ReactionsOf(t.reactions, g);
              && |rs| <= 1 && r.opponent.Some?
              && t'.reactions == t.reactions + [Reaction(g, u, ms)]
              && if rs == [] then t' == t.(reactions := t.reactions + [Reaction(g, u, ms)])
                 else && WonBy(t, t', g, WinnerOf(rs[0], u, ms, tie), now)
                      && CountsFees(t, t', map[r.creator := r.fee / 2, r.opponent.value := r.fee - r.fee / 2])
            else t' == t
  {
    hide Move, Accounts, Surplus, Reactions, ReactionsOf, WonBy, CountsFees, FeeShares, SettledBy, Fastest;
    GameFacts(t, g);
    if ReactAccepted(t, g, u) {
      var rs, r := ReactionsOf(t.reactions, g), NewReaction(t, g, u, now);
      assert r == Reaction(g, u, ms);
      if rs != [] {
        var winner := WinnerOf(rs[0], u, ms, tie);
        assert rs + [r] == [rs[0], r];
        FastestOfTwo(rs[0], r, tie);
        SettleEffect(t, g, winner, now);
        SettleWith(t, SettledBy(t, g, winner, now), g, winner, now, t.reactions + [r]);
      }
    }
  }

  lemma SettleEffect(t: Tables, g: int, winner: int, now: int)
    requires g in t.games && winner in t.users && RowOk(t.users.Keys, t.games[g]) && t.games[g].opponent.Some?
    ensures var r, t' := t.games[g], SettledBy(t, g, winner, now);
            && WonBy(t, t', g, winner, now) && t'.reactions == t.reactions
            && CountsFees(t, t', map[r.creator := r.fee / 2, r.opponent.value := r.fee - r.fee / 2])
  {
    hide Move;
    WinPays(t, g, winner, now);
  }

  lemma SettleWith(t: Tables, t': Tables, g: int, winner: int, now: int, rs: seq<Reaction>)
    requires g in t.games && WonBy(t, t', g, winner, now)
    ensures WonBy(t, t'.(reactions := rs), g, winner, now)
    ensures forall shares :: CountsFees(t, t', shares) ==> CountsFees(t, t'.(reactions := rs), shares)
  {
  }

  // ----- users -----

  /** A registration adds an empty account to a new user only. */
  lemma RegisterEffect(cfg: Settings, t: Tables, t': Tables, u: int)
    requires t' == Apply(cfg, t, Register(u))
    ensures NoGame(t, t') && t'.ledger == t.ledger
    ensures t'.users == if u in t.users then t.users else t.users[u := User(0, 0, 0, 0, 0, false)]
  {
  }

  /** Blocking a user twice undoes it. */
  lemma ToggleTwice(cfg: Settings, t: Tables, u: int)
    ensures u in t.users ==> Apply(cfg, t, ToggleBlock(u)).users[u].blocked == !t.users[u].blocked
    ensures Apply(cfg, Apply(cfg, t, ToggleBlock(u)), ToggleBlock(u)) == t
  {
    if u in t.users {
      assert t.users[u := t.users[u]] == t.users;
    }
  }
}

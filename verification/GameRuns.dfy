/** Every call keeps the invariant; what follows for runs, for closed games and for the two settlements. */
module GameRuns {
  import opened Options
  import opened Totals
  import opened Ledgers
  import opened TokenBooks
  import opened GameRules
  import opened GameInvariants

  // ----- calls that touch no game -----

  lemma RegisterKeepsBooks(users: map<int, User>, l: seq<TokenEntry>, u: int)
    requires Books(users, l) && u !in users
    ensures Books(users[u := NEW_USER], l)
  {
    hide SumWhere, Latest, Chained;
    NoRows(l, u, OfKind(u, Purchase));
    NoRows(l, u, Spending(u));
    NoRows(l, u, OfKind(u, GameWin));
  }

  lemma RegisterKeepsInv(t: Tables, u: int)
    requires Inv(t) && u !in t.users
    ensures Inv(t.(users := t.users[u := NEW_USER]))
  {
    hide Books, Reactions, Positions, Nets, Fees, PlayerTotals, SumWhere, Total, FeeSum;
    RegisterKeepsBooks(t.users, t.ledger, u);
    TotalUpdate(Balances(t.users), u, 0);
    assert Balances(t.users[u := NEW_USER]) == Balances(t.users)[u := 0];
  }

  /** Two user tables that differ in other columns than the balance and the counters. */
  ghost predicate SameAccounts(a: map<int, User>, b: map<int, User>) {
    && a.Keys == b.Keys
    && forall u :: u in a ==>
         && a[u].balance == b[u].balance && a[u].purchased == b[u].purchased
         && a[u].spent == b[u].spent && a[u].won == b[u].won
  }

  lemma ColumnsKeepBooks(a: map<int, User>, b: map<int, User>, l: seq<TokenEntry>)
    requires SameAccounts(a, b) && Books(a, l)
    ensures Books(b, l) && Balances(a) == Balances(b)
  {
    hide SumWhere, Latest, Chained;
    var x, y := Balances(a), Balances(b);
    assert x.Keys == a.Keys && y.Keys == b.Keys;
    assert forall u :: u in x ==> x[u] == y[u];
    assert x == y;
  }

  lemma ColumnsKeepInv(t: Tables, users: map<int, User>)
    requires SameAccounts(t.users, users)
    requires Inv(t)
    ensures Inv(t.(users := users))
  {
    hide Books, Rows, Reactions, Positions, Nets, Fees, PlayerTotals, SumWhere, Total, FeeSum;
    ColumnsKeepBooks(t.users, users, t.ledger);
  }

  lemma BalanceNotNegative(t: Tables, u: int)
    requires Inv(t) && u in t.users
    ensures 0 <= t.users[u].balance == SumWhere(t.ledger, ByUser(u))
  {
    hide Rows, Reactions, Positions, Nets, Fees, PlayerTotals, CountersMatch, SumWhere, Surplus;
    ChainBalance(t.ledger, u);
  }

  lemma IssueKeepsInv(t: Tables, u: int, amount: int, kind: IssueKind, ref: IssueRef)
    requires Inv(t) && CreditRefusal(t, u, amount) == None
    ensures Inv(Post(t, u, kind, amount, ref))
  {
    hide Accounts, Surplus;
    BalanceNotNegative(t, u);
    PostKeepsAccounts(t, u, kind, amount, ref);
  }

  lemma AdjustKeepsInv(t: Tables, u: int, amount: int, admin: int)
    requires Inv(t) && AdjustRefusal(t, u, amount) == None
    ensures Inv(Post(t, u, AdminAdjustment, amount, Admin(admin)))
  {
    hide Accounts, Surplus;
    PostKeepsAccounts(t, u, AdminAdjustment, amount, Admin(admin));
  }

  lemma DivFloor(x: int, d: int, k: int)
    requires 0 < d && 0 <= x <= k * d
    ensures 0 <= x / d <= k
    ensures d * (x / d) <= x < d * (x / d + 1)
  {
    assert x == d * (x / d) + x % d;
  }

  /** The fee of a transfer is the greatest whole number of tokens within `num / den` percent of the amount. */
  lemma FeeBounds(amount: int, num: int, den: nat)
    requires 0 < den && 0 < amount && 0 <= num <= 100 * den
    ensures 0 <= FeeOf(amount, num, den) <= amount
    ensures 100 * den * FeeOf(amount, num, den) <= amount * num < 100 * den * (FeeOf(amount, num, den) + 1)
  {
    var d := 100 * den;
    assert 0 <= amount * num <= amount * d;
    DivFloor(amount * num, d, amount);
  }

  lemma TransferKeepsInv(t: Tables, u: int, v: int, amount: int, num: int, den: nat, now: int)
    requires Inv(t) && 0 < den && TransferRefusal(t, u, v, amount, num, den) == None
    ensures Inv(Transferred(t, u, v, amount, num, den, now))
  {
    hide Accounts, Surplus, FeeOf;
    var ref := TransferOf(u, v, now);
    var fee := FeeOf(amount, num, den);
    FeeBounds(amount, num, den);
    BalanceNotNegative(t, v);
    PostKeepsAccounts(t, u, TransferOut, -amount, ref);
    var sent := Post(t, u, TransferOut, -amount, ref);
    var charged := if fee != 0 then Post(sent, u, TransferFee, -fee, ref) else sent;
    if fee != 0 { PostKeepsAccounts(sent, u, TransferFee, -fee, ref); }
    PostKeepsAccounts(charged, v, TransferIn, amount, ref);
  }

  // ----- game calls -----

  /** What the invariant says of one game. */
  lemma GameFacts(t: Tables, g: int)
    requires Inv(t)
    ensures if g in t.games
            then RowOk(t.users.Keys, t.games[g]) && ReactionsOk(t.games[g], ReactionsOf(t.reactions, g))
            else ReactionsOf(t.reactions, g) == []
  {
    hide Books, Positions, Nets, Fees, PlayerTotals, Surplus, RowOk, ReactionsOk, ReactionsOf;
  }

  lemma CreateKeepsInv(cfg: Settings, t: Tables, u: int, chat: int, g: int, entry: int, now: int)
    requires Inv(t) && CreateRefusal(cfg, t, u, chat, g, entry) == None
    ensures Inv(Created(cfg, t, u, chat, g, entry, now))
  {
    hide Inv, Move, ReactionsOf, PostAll;
    GameFacts(t, g);
    var p := Posting(u, GameEntry, -entry);
    forall q: (int, Kind, Ref) -> bool { AddedOne(p, Game(g), q); }
    assert Affordable(t, [p], Game(g)) by { assert [p][1..] == []; }
    MoveKeepsInv(t, g, NewGame(cfg, u, chat, entry, now), [p], []);
  }

  lemma JoinKeepsInv(cfg: Settings, t: Tables, g: int, u: int, now: int)
    requires Inv(t) && JoinRefusal(t, g, u) == None
    ensures Inv(Joined(cfg, t, g, u, now))
  {
    hide Inv, Move, ReactionsOf, PostAll;
    GameFacts(t, g);
    var row := t.games[g].(opponent := Some(u), status := Active,
                           readyAt := Some(now + cfg.reactionDelaySeconds * SECOND), startedAt := None,
                           expiresAt := now + cfg.activeTimeoutSeconds * SECOND);
    var p := Posting(u, GameEntry, -row.entry);
    forall q: (int, Kind, Ref) -> bool { AddedOne(p, Game(g), q); }
    assert Affordable(t, [p], Game(g)) by { assert [p][1..] == []; }
    MoveKeepsInv(t, g, row, [p], []);
  }

  /** A single refund or prize of a positive amount settles what it claims to settle. */
  lemma PayOneKeepsAccounts(t: Tables, t': Tables, g: int, row: GameRow, p: Posting, fees: seq<PlatformFee>)
    requires p.user in t.users && t' == Move(t, g, row, [p], fees)
    requires g in t.games && !t.games[g].status.Completed?
    requires GameKind(p.kind) && 0 < p.amount
    requires RowOk(t.users.Keys, row)
    requires forall u :: Position(row, u) - Position(t.games[g], u) == if u == p.user then p.amount else 0
    requires Net(row) - Net(t.games[g]) == p.amount
    requires Escrow(t.games[g]) - Escrow(row) == p.amount + FeeSum(fees)
    requires fees == (if row.status.Completed? then [PlatformFee(g, row.fee)] else [])
    requires Inv(t)
    ensures Accounts(t') && Surplus(t') == 0
    ensures t'.reactions == t.reactions && t'.games == t.games[g := row]
  {
    hide Move, Accounts, Surplus, Reactions, PostAll, RowOk, FeeSum;
    BalanceNotNegative(t, p.user);
    forall q: (int, Kind, Ref) -> bool { AddedOne(p, Game(g), q); }
    assert Affordable(t, [p], Game(g)) by { assert [p][1..] == []; }
    MoveKeepsAccounts(t, g, row, [p], fees);
    MoveFrame(t, g, row, [p], fees);
  }

  lemma MoveFrame(t: Tables, g: int, row: GameRow, ps: seq<Posting>, fees: seq<PlatformFee>)
    requires forall p :: p in ps ==> p.user in t.users
    ensures var t' := Move(t, g, row, ps, fees);
            t'.reactions == t.reactions && t'.games == t.games[g := row] && t'.users.Keys == t.users.Keys
  {
    PostAllSums(t, ps, Game(g));
  }

  lemma PayOneKeepsInv(t: Tables, g: int, row: GameRow, p: Posting)
    requires g in t.games && !t.games[g].status.Completed?
    requires p.user in t.users && GameKind(p.kind) && 0 < p.amount
    requires RowOk(t.users.Keys, row) && ReactionsOk(row, ReactionsOf(t.reactions, g)) && !row.status.Completed?
    requires forall u :: Position(row, u) - Position(t.games[g], u) == if u == p.user then p.amount else 0
    requires Net(row) - Net(t.games[g]) == p.amount == Escrow(t.games[g]) - Escrow(row)
    requires Inv(t)
    ensures Inv(Move(t, g, row, [p], []))
  {
    hide Move, Accounts, Surplus, ReactionsOf, ReactionsOk, RowOk;
    PayOneKeepsAccounts(t, Move(t, g, row, [p], []), g, row, p, []);
    MoveReactions(t.games, t.reactions, g, row, t.reactions);
  }

  lemma CancelKeepsInv(t: Tables, g: int, u: int, now: int)
    requires Inv(t) && CancelRefusal(t, g, u) == None
    ensures Inv(CancelledAt(t, g, u, now))
  {
    hide Inv, Move, ReactionsOf;
    GameFacts(t, g);
    PayOneKeepsInv(t, g, Closed(t.games[g], Cancelled, now), Posting(u, GameRefund, t.games[g].entry));
  }

  lemma ExpireWaitingKeepsInv(t: Tables, g: int, now: int)
    requires Inv(t) && CanExpireWaiting(t, g, now)
    ensures Inv(ExpiredWaiting(t, g, now))
  {
    hide Inv, Move, ReactionsOf;
    GameFacts(t, g);
    var row := t.games[g];
    PayOneKeepsInv(t, g, Closed(row, Expired, now), Posting(row.creator, GameRefund, row.entry));
  }

  lemma OneFee(f: PlatformFee)
    ensures FeeSum([f]) == f.amount
  {
    assert [f][..0] == [];
  }

  /** Paying the prize to a player and the fee to the platform settles an active game. */
  lemma WinKeepsAccounts(t: Tables, t': Tables, g: int, winner: int, now: int)
    requires g in t.games && t.games[g].status.Active? && IsPlayer(t.games[g], winner) && winner in t.users
    requires t' == Move(t, g, Won(t.games[g], winner, now), [Posting(winner, GameWin, t.games[g].reward)],
                        [PlatformFee(g, t.games[g].fee)])
    requires Inv(t)
    ensures Accounts(t') && Surplus(t') == 0
    ensures t'.reactions == t.reactions && t'.games == t.games[g := Won(t.games[g], winner, now)]
  {
    hide Inv, Move, ReactionsOf, FeeSum, ReactionsOk;
    GameFacts(t, g);
    var row := t.games[g];
    OneFee(PlatformFee(g, row.fee));
    PayOneKeepsAccounts(t, t', g, Won(row, winner, now), Posting(winner, GameWin, row.reward),
                        [PlatformFee(g, row.fee)]);
  }

  lemma RefundBothKeepsInv(t: Tables, g: int, now: int)
    requires Inv(t) && CanExpireActive(t, g, now) && ReactionsOf(t.reactions, g) == []
    ensures Inv(ExpiredActive(t, g, now))
  {
    hide Inv, Move, ReactionsOf;
    GameFacts(t, g);
    var row := t.games[g];
    var p := Posting(row.creator, GameRefund, row.entry);
    var q := Posting(row.opponent.value, GameRefund, row.entry);
    assert [p] + [q] == [p, q];
    forall f: (int, Kind, Ref) -> bool { AddedTwo(p, q, Game(g), f); }
    BalanceNotNegative(t, p.user);
    BalanceNotNegative(t, q.user);
    assert Affordable(t, [p, q], Game(g)) by {
      var t1 := Post(t, p.user, p.kind, p.amount, Game(g));
      assert [p, q][1..] == [q] && [q][1..] == [];
      assert Affordable(t1, [q], Game(g));
    }
    MoveKeepsInv(t, g, Closed(row, Expired, now), [p, q], []);
  }

  lemma ExpireActiveKeepsInv(t: Tables, g: int, now: int)
    requires Inv(t) && CanExpireActive(t, g, now)
    ensures Inv(ExpiredActive(t, g, now))
  {
    hide Accounts, Surplus, Move, ReactionsOf;
    GameFacts(t, g);
    var rs := ReactionsOf(t.reactions, g);
    if rs == [] {
      RefundBothKeepsInv(t, g, now);
    } else {
      WinKeepsAccounts(t, ExpiredActive(t, g, now), g, rs[0].user, now);
      MoveReactions(t.games, t.reactions, g, Won(t.games[g], rs[0].user, now), t.reactions);
    }
  }

  lemma StartKeepsInv(t: Tables, g: int, now: int)
    requires Inv(t) && CanStart(t, g)
    ensures Inv(Started(t, g, now))
  {
    hide Books, SumWhere, Total, ReactionsOf, FeesOf, FeeSum;
    GameFacts(t, g);
    var games := t.games[g := t.games[g].(startedAt := Some(now))];
    assert Escrows(games) == Escrows(t.games);
    forall u ensures PositionsOf(games, u) == PositionsOf(t.games, u) {}
  }

  lemma FeeSharesKeepAccounts(users: map<int, User>, row: GameRow)
    ensures SameAccounts(users, FeeShares(users, row))
  {
  }

  lemma AccountsWith(t: Tables, users: map<int, User>, rs: seq<Reaction>)
    requires Accounts(t) && Surplus(t) == 0 && SameAccounts(t.users, users)
    requires Reactions(t.games, rs)
    ensures Inv(t.(users := users, reactions := rs))
  {
    hide Books, Rows, Reactions, Positions, Nets, Fees, PlayerTotals, SumWhere, Total, FeeSum;
    ColumnsKeepBooks(t.users, users, t.ledger);
  }

  lemma FastestOfTwo(a: Reaction, b: Reaction, tieToNewer: bool)
    ensures Fastest([a, b], tieToNewer) == if b.ms < a.ms || (b.ms == a.ms && tieToNewer) then b else a
  {
    assert [a, b][..1] == [a];
  }

  lemma ReactKeepsInv(t: Tables, g: int, u: int, now: int, tie: bool)
    requires ReactRefusal(t, g, u, now, tie) == None
    requires Inv(t)
    ensures Inv(Reacted(t, g, u, now, tie))
  {
    hide Accounts, Surplus, Move, ReactionsOf, FeeShares, Reactions;
    GameFacts(t, g);
    var r := NewReaction(t, g, u, now);
    var before := ReactionsOf(t.reactions, g);
    var rs := before + [r];
    ReactionsAppend(t.reactions, r);
    if |rs| < 2 {
      MoveReactions(t.games, t.reactions, g, t.games[g], t.reactions + [r]);
      assert t.games[g := t.games[g]] == t.games;
      AccountsWith(t, t.users, t.reactions + [r]);
    } else {
      var row := t.games[g];
      assert rs == [before[0], r];
      FastestOfTwo(before[0], r, tie);
      var winner := Fastest(rs, tie).user;
      var paid := Move(t, g, Won(row, winner, now), [Posting(winner, GameWin, row.reward)], [PlatformFee(g, row.fee)]);
      WinKeepsAccounts(t, paid, g, winner, now);
      FeeSharesKeepAccounts(paid.users, row);
      MoveReactions(t.games, t.reactions, g, Won(row, winner, now), t.reactions + [r]);
      AccountsWith(paid, FeeShares(paid.users, row), t.reactions + [r]);
    }
  }

  // ----- runs -----

  lemma ApplyKeepsInv(cfg: Settings, t: Tables, s: Step)
    requires Inv(t)
    ensures Inv(Apply(cfg, t, s))
  {
    hide Inv, Joined, Created, CancelledAt, Started, Reacted, ExpiredWaiting, ExpiredActive, Transferred, Post;
    match s
    case Register(u) => if u !in t.users { RegisterKeepsInv(t, u); }
    case ToggleBlock(u) => if u in t.users { ColumnsKeepInv(t, Apply(cfg, t, s).users); }
    case Issue(u, amount, kind, ref) =>
      if CreditRefusal(t, u, amount) == None { IssueKeepsInv(t, u, amount, kind, ref); }
    case Transfer(u, v, amount, num, den, now) =>
      if 0 < den && TransferRefusal(t, u, v, amount, num, den) == None {
        TransferKeepsInv(t, u, v, amount, num, den, now);
      }
    case Adjust(u, amount, admin) => if AdjustRefusal(t, u, amount) == None { AdjustKeepsInv(t, u, amount, admin); }
    case Create(u, chat, g, entry, now) =>
      if CreateRefusal(cfg, t, u, chat, g, entry) == None { CreateKeepsInv(cfg, t, u, chat, g, entry, now); }
    case Join(g, u, now) => if JoinRefusal(t, g, u) == None { JoinKeepsInv(cfg, t, g, u, now); }
    case Cancel(g, u, now) => if CancelRefusal(t, g, u) == None { CancelKeepsInv(t, g, u, now); }
    case Start(g, now) => if CanStart(t, g) { StartKeepsInv(t, g, now); }
    case React(g, u, now, tie) => if ReactRefusal(t, g, u, now, tie) == None { ReactKeepsInv(t, g, u, now, tie); }
    case ExpireWaiting(g, now) => if CanExpireWaiting(t, g, now) { ExpireWaitingKeepsInv(t, g, now); }
    case ExpireActive(g, now) => if CanExpireActive(t, g, now) { ExpireActiveKeepsInv(t, g, now); }
  }

  lemma {:induction false} RunKeepsInv(cfg: Settings, t: Tables, steps: seq<Step>)
    requires Inv(t)
    ensures Inv(Run(cfg, t, steps))
    decreases |steps|
  {
    hide Inv, Apply;
    if steps != [] {
      ApplyKeepsInv(cfg, t, steps[0]);
      RunKeepsInv(cfg, Apply(cfg, t, steps[0]), steps[1..]);
    }
  }
}

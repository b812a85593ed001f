/** The promises of the token escrow over whole runs. */
module GameTheorems {
  import opened Options
  import opened Totals
  import opened Ledgers
  import opened TokenBooks
  import opened GameRules
  import opened GameInvariants
  import opened GameRuns

  // ----- conservation and the per-game closed form -----

  /** In every reachable state the tokens in balances, in open games, kept as game fees and kept as
      transfer fees are exactly the tokens issued; and no balance is negative. */
  lemma TokensConserved(cfg: Settings, steps: seq<Step>)
    ensures var t := Run(cfg, EMPTY, steps);
            && Total(Balances(t.users)) + Total(Escrows(t.games)) + FeeSum(t.platform)
               - SumWhere(t.ledger, TransferFeeRows())
               == SumWhere(t.ledger, IssuedRows())
            && forall u :: u in t.users ==> 0 <= t.users[u].balance == SumWhere(t.ledger, ByUser(u))
  {
    hide Accounts, Reactions, Run, Total, SumWhere, FeeSum;
    EmptyInv();
    RunKeepsInv(cfg, EMPTY, steps);
    var t := Run(cfg, EMPTY, steps);
    forall u | u in t.users ensures 0 <= t.users[u].balance == SumWhere(t.ledger, ByUser(u)) {
      BalanceNotNegative(t, u);
    }
  }

  /** In every reachable state the ledger rows of a game add up to its closed form, per game and per
      player, and the platform holds one fee row for it exactly when it is completed. */
  lemma GameClosedForm(cfg: Settings, steps: seq<Step>, g: int, u: int)
    ensures var t := Run(cfg, EMPTY, steps);
            && SumWhere(t.ledger, OfGame(g)) == (if g in t.games then Net(t.games[g]) else 0)
            && SumWhere(t.ledger, InGame(u, g)) == (if g in t.games then Position(t.games[g], u) else 0)
            && FeesOf(t.platform, g)
               == if g in t.games && t.games[g].status.Completed? then [PlatformFee(g, t.games[g].fee)] else []
  {
    hide Surplus, Books, Rows, Reactions, Run, SumWhere, FeesOf, PlayerTotals;
    EmptyInv();
    RunKeepsInv(cfg, EMPTY, steps);
  }

  /** In every reachable state a game that waits, or was given up, has no reaction; an active one has at most one,
      by one of its players after the reaction phase began; a completed one has one or two, and two are by its two
      different players. */
  lemma ReactionsAreFew(cfg: Settings, steps: seq<Step>, g: int)
    ensures var t := Run(cfg, EMPTY, steps);
            var rs := ReactionsOf(t.reactions, g);
            if g !in t.games then rs == []
            else
              var row := t.games[g];
              && (forall i :: 0 <= i < |rs| ==> IsPlayer(row, rs[i].user))
              && (forall i, j :: 0 <= i < j < |rs| ==> rs[i].user != rs[j].user)
              && match row.status
                 case Waiting | Expired | Cancelled => rs == []
                 case Active => |rs| <= 1 && (rs != [] ==> row.startedAt.Some?)
                 case Completed => 1 <= |rs| <= 2
  {
    hide Inv, Run, ReactionsOf;
    EmptyInv();
    RunKeepsInv(cfg, EMPTY, steps);
    GameFacts(Run(cfg, EMPTY, steps), g);
  }

  // ----- a step changes at most one game; closed games never change -----

  function GameOf(s: Step): Option<int> {
    match s
    case Create(_, _, g, _, _) => Some(g)
    case Join(g, _, _) => Some(g)
    case Cancel(g, _, _) => Some(g)
    case Start(g, _) => Some(g)
    case React(g, _, _, _) => Some(g)
    case ExpireWaiting(g, _) => Some(g)
    case ExpireActive(g, _) => Some(g)
    case _ => None
  }

  /** Nothing recorded about game `g` differs: its row, its reactions, its ledger rows. */
  ghost predicate SameGame(t: Tables, t': Tables, g: int) {
    && (g in t.games <==> g in t'.games) && (g in t.games ==> t'.games[g] == t.games[g])
    && ReactionsOf(t'.reactions, g) == ReactionsOf(t.reactions, g)
    && Select(t'.ledger, OfGame(g)) == Select(t.ledger, OfGame(g))
  }

  lemma {:induction false} PostAllSame(t: Tables, ps: seq<Posting>, ref: Ref, g: int)
    requires forall p :: p in ps ==> p.user in t.users
    requires ref != Game(g)
    ensures SameGame(t, PostAll(t, ps, ref), g)
    decreases |ps|
  {
    if ps != [] {
      PostSame(t, ps[0].user, ps[0].kind, ps[0].amount, ref, g);
      PostAllSame(Post(t, ps[0].user, ps[0].kind, ps[0].amount, ref), ps[1..], ref, g);
    }
  }

  lemma PostSame(t: Tables, u: int, kind: Kind, amount: int, ref: Ref, g: int)
    requires u in t.users && ref != Game(g)
    ensures SameGame(t, Post(t, u, kind, amount, ref), g)
  {
    SelectAppend(t.ledger, Post(t, u, kind, amount, ref).ledger[|t.ledger|]);
  }

  lemma MoveSame(t: Tables, g: int, row: GameRow, ps: seq<Posting>, fees: seq<PlatformFee>, h: int)
    requires forall p :: p in ps ==> p.user in t.users
    requires g != h
    ensures SameGame(t, Move(t, g, row, ps, fees), h)
  {
    PostAllSame(t, ps, Game(g), h);
  }

  lemma OthersUntouched(cfg: Settings, t: Tables, s: Step, g: int)
    requires GameOf(s) != Some(g)
    ensures SameGame(t, Apply(cfg, t, s), g)
  {
    hide Move, PostAll, Select, ReactionsOf, Fastest, Post;
    match s
    case Register(u) =>
    case ToggleBlock(u) =>
    case Issue(u, amount, kind, ref) =>
      if CreditRefusal(t, u, amount) == None { PostSame(t, u, kind, amount, ref, g); }
    case Transfer(u, v, amount, num, den, now) =>
      if 0 < den && TransferRefusal(t, u, v, amount, num, den) == None {
        TransferSame(t, u, v, amount, num, den, now, g);
      }
    case Adjust(u, amount, admin) =>
      if AdjustRefusal(t, u, amount) == None { PostSame(t, u, AdminAdjustment, amount, Admin(admin), g); }
    case Create(u, chat, h, entry, now) =>
      if CreateRefusal(cfg, t, u, chat, h, entry) == None {
        MoveSame(t, h, NewGame(cfg, u, chat, entry, now), [Posting(u, GameEntry, -entry)], [], g);
      }
    case Join(h, u, now) =>
      if JoinRefusal(t, h, u) == None {
        var row := t.games[h].(opponent := Some(u), status := Active,
                               readyAt := Some(now + cfg.reactionDelaySeconds * SECOND), startedAt := None,
                               expiresAt := now + cfg.activeTimeoutSeconds * SECOND);
        MoveSame(t, h, row, [Posting(u, GameEntry, -row.entry)], [], g);
      }
    case Cancel(h, u, now) =>
      if CancelRefusal(t, h, u) == None {
        MoveSame(t, h, Closed(t.games[h], Cancelled, now), [Posting(u, GameRefund, t.games[h].entry)], [], g);
      }
    case Start(h, now) =>
    case React(h, u, now, tie) => if ReactRefusal(t, h, u, now, tie) == None { ReactSame(t, h, u, now, tie, g); }
    case ExpireWaiting(h, now) => if CanExpireWaiting(t, h, now) { ExpireWaitingSame(t, h, now, g); }
    case ExpireActive(h, now) => if CanExpireActive(t, h, now) { ExpireActiveSame(t, h, now, g); }
  }

  lemma TransferSame(t: Tables, u: int, v: int, amount: int, num: int, den: nat, now: int, g: int)
    requires 0 < den && TransferRefusal(t, u, v, amount, num, den) == None
    ensures SameGame(t, Transferred(t, u, v, amount, num, den, now), g)
  {
    hide Select, ReactionsOf, FeeOf;
    var ref := TransferOf(u, v, now);
    var fee := FeeOf(amount, num, den);
    PostSame(t, u, TransferOut, -amount, ref, g);
    var sent := Post(t, u, TransferOut, -amount, ref);
    var charged := if fee != 0 then Post(sent, u, TransferFee, -fee, ref) else sent;
    if fee != 0 { PostSame(sent, u, TransferFee, -fee, ref, g); }
    PostSame(charged, v, TransferIn, amount, ref, g);
  }

  lemma ReactSame(t: Tables, h: int, u: int, now: int, tie: bool, g: int)
    requires ReactRefusal(t, h, u, now, tie) == None && g != h
    ensures SameGame(t, Reacted(t, h, u, now, tie), g)
  {
    hide Move, PostAll, Select, ReactionsOf, Fastest, FeeShares;
    var r := NewReaction(t, h, u, now);
    ReactionsAppend(t.reactions, r);
    var rs := ReactionsOf(t.reactions, h) + [r];
    if |rs| >= 2 {
      var winner := Fastest(rs, tie).user;
      MoveSame(t, h, Won(t.games[h], winner, now), [Posting(winner, GameWin, t.games[h].reward)],
               [PlatformFee(h, t.games[h].fee)], g);
    }
  }

  lemma ExpireWaitingSame(t: Tables, h: int, now: int, g: int)
    requires CanExpireWaiting(t, h, now) && g != h
    ensures SameGame(t, ExpiredWaiting(t, h, now), g)
  {
    hide Move, PostAll, Select, ReactionsOf;
    var row := t.games[h];
    MoveSame(t, h, Closed(row, Expired, now),
             if row.creator in t.users then [Posting(row.creator, GameRefund, row.entry)] else [], [], g);
  }

  lemma ExpireActiveSame(t: Tables, h: int, now: int, g: int)
    requires CanExpireActive(t, h, now) && g != h
    ensures SameGame(t, ExpiredActive(t, h, now), g)
  {
    hide Move, PostAll, Select, ReactionsOf;
    var row := t.games[h];
    var rs := ReactionsOf(t.reactions, h);
    if rs == [] {
      var refunds := [Posting(row.creator, GameRefund, row.entry)]
                     + if row.opponent.Some? then [Posting(row.opponent.value, GameRefund, row.entry)] else [];
      MoveSame(t, h, Closed(row, Expired, now), refunds, [], g);
    } else {
      MoveSame(t, h, Won(row, rs[0].user, now), [Posting(rs[0].user, GameWin, row.reward)],
               [PlatformFee(h, row.fee)], g);
    }
  }

  predicate Terminal(row: GameRow) {
    row.status.Completed? || row.status.Expired? || row.status.Cancelled?
  }

  /** A call on a closed game is refused. */
  lemma ClosedGameRefuses(cfg: Settings, t: Tables, s: Step, g: int)
    requires g in t.games && Terminal(t.games[g]) && GameOf(s) == Some(g)
    ensures Apply(cfg, t, s) == t
  {
  }

  /** Once closed, a game keeps its row, its reactions and its ledger rows through any run. */
  lemma {:induction false} ClosedForever(cfg: Settings, t: Tables, steps: seq<Step>, g: int)
    requires g in t.games && Terminal(t.games[g])
    ensures SameGame(t, Run(cfg, t, steps), g)
    decreases |steps|
  {
    hide Apply, Select, ReactionsOf;
    if steps != [] {
      if GameOf(steps[0]) == Some(g) {
        ClosedGameRefuses(cfg, t, steps[0], g);
      } else {
        OthersUntouched(cfg, t, steps[0], g);
      }
      ClosedForever(cfg, Apply(cfg, t, steps[0]), steps[1..], g);
    }
  }

  // ----- progress -----

  /** How far a game still is from being closed. */
  ghost function Rank(t: Tables, g: int): nat
    requires g in t.games
  {
    match t.games[g].status
    case Waiting => 4
    case Active =>
      if t.games[g].startedAt == None then 3
      else if ReactionsOf(t.reactions, g) == [] then 2
      else 1
    case _ => 0
  }

  /** Every call that changes a game or its reactions brings it strictly closer to being closed. */
  lemma StepsMakeProgress(cfg: Settings, t: Tables, s: Step, g: int)
    requires g in t.games
    requires Inv(t)
    ensures var t' := Apply(cfg, t, s);
            && g in t'.games
            && (|| (t'.games[g] == t.games[g] && ReactionsOf(t'.reactions, g) == ReactionsOf(t.reactions, g))
                || Rank(t', g) < Rank(t, g))
  {
    hide Accounts, Reactions, Surplus, Move, ReactionsOf, Fastest, FeeShares, Post;
    if GameOf(s) != Some(g) {
      OthersUntouched(cfg, t, s, g);
    } else {
      GameFacts(t, g);
      MoveEffects(t, g);
      match s
      case React(_, u, now, tie) =>
        if ReactRefusal(t, g, u, now, tie) == None {
          ReactionsAppend(t.reactions, NewReaction(t, g, u, now));
        }
      case _ =>
    }
  }

  /** `MoveFrame`, for every move on a game. */
  lemma MoveEffects(t: Tables, g: int)
    ensures forall row, ps: seq<Posting>, fees | (forall p :: p in ps ==> p.user in t.users) ::
              && Move(t, g, row, ps, fees).games == t.games[g := row]
              && Move(t, g, row, ps, fees).reactions == t.reactions
  {
    forall row, ps: seq<Posting>, fees | (forall p :: p in ps ==> p.user in t.users)
      ensures && Move(t, g, row, ps, fees).games == t.games[g := row]
              && Move(t, g, row, ps, fees).reactions == t.reactions
    {
      MoveFrame(t, g, row, ps, fees);
    }
  }

  // ----- the two settlements agree on who wins -----

  function TimeOf(s: Step): Option<int> {
    match s
    case Transfer(_, _, _, _, _, now) => Some(now)
    case Create(_, _, _, _, now) => Some(now)
    case Join(_, _, now) => Some(now)
    case Cancel(_, _, now) => Some(now)
    case Start(_, now) => Some(now)
    case React(_, _, now, _) => Some(now)
    case ExpireWaiting(_, now) => Some(now)
    case ExpireActive(_, now) => Some(now)
    case _ => None
  }

  /** The clock never goes back, starting from `clock`. */
  predicate Nondecreasing(steps: seq<Step>, clock: int)
    decreases |steps|
  {
    steps == [] ||
    match TimeOf(steps[0])
    case None => Nondecreasing(steps[1..], clock)
    case Some(now) => clock <= now && Nondecreasing(steps[1..], now)
  }

  function Tick(s: Step, clock: int): int {
    match TimeOf(s) case None => clock case Some(now) => now
  }

  /** No recorded reaction of an open game lies after the clock, and where two reactions decided a
      game the first recorded won, unless both took the same time. */
  ghost predicate FairAt(row: GameRow, rs: seq<Reaction>, clock: int) {
    && (row.status.Active? && rs != [] ==>
          row.startedAt.Some? && rs[0].ms <= ElapsedMs(row.startedAt.value, clock))
    && (row.status.Completed? && |rs| == 2 ==>
          row.winner == Some(rs[0].user) || rs[0].ms == rs[1].ms)
  }

  ghost predicate Fair(t: Tables, clock: int) {
    forall g :: g in t.games ==> FairAt(t.games[g], ReactionsOf(t.reactions, g), clock)
  }

  lemma ReactIsFair(t: Tables, g: int, u: int, now: int, tie: bool, clock: int)
    requires ReactRefusal(t, g, u, now, tie) == None && clock <= now
    requires FairAt(t.games[g], ReactionsOf(t.reactions, g), clock)
    requires Inv(t)
    ensures var t' := Reacted(t, g, u, now, tie);
            g in t'.games && FairAt(t'.games[g], ReactionsOf(t'.reactions, g), now)
  {
    hide Accounts, Reactions, Surplus, Move, ReactionsOf, FeeShares;
    GameFacts(t, g);
    MoveEffects(t, g);
    var r := NewReaction(t, g, u, now);
    var before := ReactionsOf(t.reactions, g);
    ReactionsAppend(t.reactions, r);
    if before != [] {
      assert before + [r] == [before[0], r];
      FastestOfTwo(before[0], r, tie);
    }
  }

  lemma StepIsFair(cfg: Settings, t: Tables, s: Step, clock: int, g: int)
    requires TimeOf(s).Some? ==> clock <= TimeOf(s).value
    requires g in Apply(cfg, t, s).games
    requires Fair(t, clock)
    requires Inv(t)
    ensures FairAt(Apply(cfg, t, s).games[g], ReactionsOf(Apply(cfg, t, s).reactions, g), Tick(s, clock))
  {
    hide Accounts, Reactions, Surplus, Move, ReactionsOf, Fastest, FeeShares, Post;
    if GameOf(s) != Some(g) {
      OthersUntouched(cfg, t, s, g);
    } else {
      GameFacts(t, g);
      MoveEffects(t, g);
      match s
      case React(_, u, now, tie) =>
        if ReactRefusal(t, g, u, now, tie) == None { ReactIsFair(t, g, u, now, tie, clock); }
      case _ =>
    }
  }

  lemma {:induction false} RunIsFair(cfg: Settings, t: Tables, steps: seq<Step>, clock: int) returns (end: int)
    requires Inv(t) && Fair(t, clock) && Nondecreasing(steps, clock)
    ensures Inv(Run(cfg, t, steps)) && Fair(Run(cfg, t, steps), end)
    decreases |steps|
  {
    hide Inv, Apply, ReactionsOf, FairAt;
    if steps == [] {
      end := clock;
    } else {
      ApplyKeepsInv(cfg, t, steps[0]);
      var t' := Apply(cfg, t, steps[0]);
      forall g | g in t'.games ensures FairAt(t'.games[g], ReactionsOf(t'.reactions, g), Tick(steps[0], clock)) {
        StepIsFair(cfg, t, steps[0], clock, g);
      }
      end := RunIsFair(cfg, t', steps[1..], Tick(steps[0], clock));
    }
  }

  /** Under a clock that never goes back, both settlements name as winner and loser the two distinct
      players; the winner's recorded time is at most the loser's; and the first to react wins unless
      the two recorded times are equal. */
  lemma WinnersAreFirst(cfg: Settings, steps: seq<Step>, clock: int, g: int)
    requires Nondecreasing(steps, clock)
    ensures var t := Run(cfg, EMPTY, steps);
            var rs := ReactionsOf(t.reactions, g);
            g in t.games && t.games[g].status.Completed? ==>
              var row := t.games[g];
              && row.winner.Some? && row.loser.Some? && row.winner != row.loser
              && IsPlayer(row, row.winner.value) && IsPlayer(row, row.loser.value)
              && 1 <= |rs| <= 2
              && (row.winner == Some(rs[0].user) || (|rs| == 2 && rs[0].ms == rs[1].ms))
              && (forall i, j | 0 <= i < |rs| && 0 <= j < |rs| ::
                    row.winner == Some(rs[i].user) && row.loser == Some(rs[j].user) ==> rs[i].ms <= rs[j].ms)
  {
    hide Accounts, Reactions, Surplus, ReactionsOf, Run;
    EmptyInv();
    var end := RunIsFair(cfg, EMPTY, steps, clock);
    GameFacts(Run(cfg, EMPTY, steps), g);
  }
}

/**
 * What every call of the token and game services does to the tables, and when it is refused.
 * A refused call raises, and the session that made it is rolled back.
 */
module GameRules {
  import opened Options
  import opened TokenBooks

  datatype Error =
    | InvalidAmount | UserNotFound | InsufficientToken | SelfTransfer | InvalidPercent | RecipientBlocked
    | EntryOutOfRange | WrongChat | GameNotFound | GameClosed | OwnGame | NotCreator | NotPlayer
    | AlreadyReacted | DuplicateGame

  datatype Settings = Settings(
    minEntry: int, maxEntry: int, gameChat: Option<int>,
    expirationSeconds: int, reactionDelaySeconds: int, activeTimeoutSeconds: int)

  /** Instants are counted in microseconds. */
  const SECOND := 1_000_000

  // ----- postings outside games -----

  function CreditRefusal(t: Tables, u: int, amount: int): Option<Error> {
    if amount <= 0 then Some(InvalidAmount)
    else if u !in t.users then Some(UserNotFound)
    else None
  }

  function DebitRefusal(t: Tables, u: int, amount: int): Option<Error> {
    if amount <= 0 then Some(InvalidAmount)
    else if u !in t.users then Some(UserNotFound)
    else if t.users[u].balance < amount then Some(InsufficientToken)
    else None
  }

  /** The fee of a transfer: `num / den` percent of the amount, rounded down. */
  function FeeOf(amount: int, num: int, den: nat): int
    requires 0 < den
  {
    amount * num / (100 * den)
  }

  function TransferRefusal(t: Tables, sender: int, recipient: int, amount: int, num: int, den: nat): Option<Error>
    requires 0 < den
  {
    if amount <= 0 then Some(InvalidAmount)
    else if sender == recipient then Some(SelfTransfer)
    else if num < 0 || num > 100 * den then Some(InvalidPercent)
    else if sender !in t.users || recipient !in t.users then Some(UserNotFound)
    else if t.users[recipient].blocked then Some(RecipientBlocked)
    else if t.users[sender].balance < amount + FeeOf(amount, num, den) then Some(InsufficientToken)
    else None
  }

  function Transferred(t: Tables, sender: int, recipient: int, amount: int, num: int, den: nat, at: int): Tables
    requires 0 < den && TransferRefusal(t, sender, recipient, amount, num, den) == None
  {
    var ref := TransferOf(sender, recipient, at);
    var fee := FeeOf(amount, num, den);
    var sent := Post(t, sender, TransferOut, -amount, ref);
    var charged := if fee != 0 then Post(sent, sender, TransferFee, -fee, ref) else sent;
    Post(charged, recipient, TransferIn, amount, ref)
  }

  function AdjustRefusal(t: Tables, u: int, amount: int): Option<Error> {
    if u !in t.users then Some(UserNotFound)
    else if t.users[u].balance + amount < 0 then Some(InsufficientToken)
    else None
  }

  // ----- games -----

  /** One game call: postings that refer to the game, the new game row, and platform fee rows. */
  function Move(t: Tables, g: int, row: GameRow, ps: seq<Posting>, fees: seq<PlatformFee>): Tables
    requires forall p :: p in ps ==> p.user in t.users
  {
    PostAll(t, ps, Game(g)).(games := t.games[g := row], platform := t.platform + fees)
  }

  lemma MoveOne(t: Tables, g: int, row: GameRow, p: Posting)
    requires p.user in t.users
    ensures Move(t, g, row, [p], [])
         == Post(t, p.user, p.kind, p.amount, Game(g)).(games := t.games[g := row])
    ensures forall f ::
              Move(t, g, row, [p], [f])
              == Post(t, p.user, p.kind, p.amount, Game(g)).(games := t.games[g := row], platform := t.platform + [f])
  {
    PostAllOne(t, p, Game(g));
    assert t.platform + [] == t.platform;
  }

  lemma MoveTwo(t: Tables, g: int, row: GameRow, p: Posting, q: Posting)
    requires p.user in t.users && q.user in t.users
    ensures Move(t, g, row, [p, q], [])
         == Post(Post(t, p.user, p.kind, p.amount, Game(g)), q.user, q.kind, q.amount, Game(g)).(
              games := t.games[g := row])
  {
    PostAllTwo(t, p, q, Game(g));
    assert t.platform + [] == t.platform;
  }

  function CreateRefusal(cfg: Settings, t: Tables, u: int, chat: int, id: int, entry: int): Option<Error> {
    if entry < cfg.minEntry || entry > cfg.maxEntry then Some(EntryOutOfRange)
    else if cfg.gameChat.Some? && chat != cfg.gameChat.value then Some(WrongChat)
    else if DebitRefusal(t, u, entry).Some? then DebitRefusal(t, u, entry)
    else if id in t.games then Some(DuplicateGame)
    else None
  }

  function NewGame(cfg: Settings, u: int, chat: int, entry: int, now: int): GameRow
    requires 0 < entry
  {
    var pot := entry * 2;
    var fee := pot / 10;
    GameRow(chat, u, None, entry, pot, fee, pot - fee, Waiting, None, None, None, None, None,
            now, now + cfg.expirationSeconds * SECOND)
  }

  function Created(cfg: Settings, t: Tables, u: int, chat: int, id: int, entry: int, now: int): Tables
    requires CreateRefusal(cfg, t, u, chat, id, entry) == None
  {
    Move(t, id, NewGame(cfg, u, chat, entry, now), [Posting(u, GameEntry, -entry)], [])
  }

  function JoinRefusal(t: Tables, g: int, u: int): Option<Error> {
    if g !in t.games then Some(GameNotFound)
    else if t.games[g].status != Waiting then Some(GameClosed)
    else if u !in t.users then Some(UserNotFound)
    else if u == t.games[g].creator then Some(OwnGame)
    else DebitRefusal(t, u, t.games[g].entry)
  }

  function Joined(cfg: Settings, t: Tables, g: int, u: int, now: int): Tables
    requires JoinRefusal(t, g, u) == None
  {
    var row := t.games[g].(opponent := Some(u), status := Active,
                           readyAt := Some(now + cfg.reactionDelaySeconds * SECOND), startedAt := None,
                           expiresAt := now + cfg.activeTimeoutSeconds * SECOND);
    Move(t, g, row, [Posting(u, GameEntry, -row.entry)], [])
  }

  function CancelRefusal(t: Tables, g: int, u: int): Option<Error> {
    if g !in t.games then Some(GameNotFound)
    else if t.games[g].creator !in t.users || t.games[g].creator != u then Some(NotCreator)
    else if t.games[g].status != Waiting then Some(GameClosed)
    else CreditRefusal(t, u, t.games[g].entry)
  }

  function Closed(row: GameRow, status: Status, now: int): GameRow {
    row.(status := status, completedAt := Some(now))
  }

  function CancelledAt(t: Tables, g: int, u: int, now: int): Tables
    requires CancelRefusal(t, g, u) == None
  {
    Move(t, g, Closed(t.games[g], Cancelled, now), [Posting(u, GameRefund, t.games[g].entry)], [])
  }

  predicate CanStart(t: Tables, g: int) {
    g in t.games && t.games[g].status == Active && t.games[g].startedAt == None
  }

  function Started(t: Tables, g: int, now: int): Tables
    requires CanStart(t, g)
  {
    t.(games := t.games[g := t.games[g].(startedAt := Some(now))])
  }

  // ----- reactions and settlement -----

  function ReactionsOf(rs: seq<Reaction>, g: int): seq<Reaction> {
    if rs == [] then []
    else ReactionsOf(rs[..|rs| - 1], g) + if rs[|rs| - 1].game == g then [rs[|rs| - 1]] else []
  }

  predicate IsPlayer(row: GameRow, u: int) {
    u == row.creator || row.opponent == Some(u)
  }

  predicate HasReacted(rs: seq<Reaction>, u: int) {
    exists i :: 0 <= i < |rs| && rs[i].user == u
  }

  /** Whole milliseconds since the reaction phase started, never negative. */
  function ElapsedMs(startedAt: int, now: int): int {
    if now <= startedAt then 0 else (now - startedAt) / 1000
  }

  /** The reaction a query ordered by time puts first; the order among equal times is not fixed. */
  function Fastest(rs: seq<Reaction>, tieToNewer: bool): Reaction
    requires rs != []
  {
    var last := rs[|rs| - 1];
    if |rs| == 1 then last
    else
      var best := Fastest(rs[..|rs| - 1], tieToNewer);
      if last.ms < best.ms || (last.ms == best.ms && tieToNewer) then last else best
  }

  function Won(row: GameRow, winner: int, now: int): GameRow {
    Closed(row, Completed, now).(
      winner := Some(winner),
      loser := if winner == row.creator then row.opponent else Some(row.creator))
  }

  /** Each player's share of the fee, counted only by the settlement of two reactions. */
  function FeeShares(users: map<int, User>, row: GameRow): map<int, User> {
    if row.creator in users && row.opponent.Some? && row.opponent.value in users then
      var half := row.fee / 2;
      var first := users[row.creator := users[row.creator].(feesPaid := users[row.creator].feesPaid + half)];
      var o := row.opponent.value;
      first[o := first[o].(feesPaid := first[o].feesPaid + row.fee - half)]
    else users
  }

  function NewReaction(t: Tables, g: int, u: int, now: int): Reaction
    requires g in t.games && t.games[g].startedAt.Some?
  {
    Reaction(g, u, ElapsedMs(t.games[g].startedAt.value, now))
  }

  function ReactRefusal(t: Tables, g: int, u: int, now: int, tieToNewer: bool): Option<Error> {
    if g !in t.games || t.games[g].status != Active || t.games[g].startedAt == None then Some(GameClosed)
    else if u !in t.users || !IsPlayer(t.games[g], u) then Some(NotPlayer)
    else if HasReacted(ReactionsOf(t.reactions, g), u) then Some(AlreadyReacted)
    else
      var rs := ReactionsOf(t.reactions, g) + [NewReaction(t, g, u, now)];
      if |rs| < 2 then None
      else CreditRefusal(t, Fastest(rs, tieToNewer).user, t.games[g].reward)
  }

  /** The winner gets the prize, the platform the fee, and the players' fee counters move. */
  function SettledBy(t: Tables, g: int, winner: int, now: int): Tables
    requires g in t.games && winner in t.users
  {
    var row := t.games[g];
    var paid := Move(t, g, Won(row, winner, now), [Posting(winner, GameWin, row.reward)], [PlatformFee(g, row.fee)]);
    paid.(users := FeeShares(paid.users, row))
  }

  /** Settling looks at no reaction. */
  lemma SettleFrame(t: Tables, g: int, winner: int, now: int, rs: seq<Reaction>)
    requires g in t.games && winner in t.users
    ensures SettledBy(t.(reactions := rs), g, winner, now) == SettledBy(t, g, winner, now).(reactions := rs)
  {
    hide Move, Recorded, FeeShares;
    var row := t.games[g];
    MoveOne(t, g, Won(row, winner, now), Posting(winner, GameWin, row.reward));
    MoveOne(t.(reactions := rs), g, Won(row, winner, now), Posting(winner, GameWin, row.reward));
  }

  function Reacted(t: Tables, g: int, u: int, now: int, tieToNewer: bool): Tables
    requires ReactRefusal(t, g, u, now, tieToNewer) == None
  {
    var r := NewReaction(t, g, u, now);
    var rs := ReactionsOf(t.reactions, g) + [r];
    if |rs| < 2 then t.(reactions := t.reactions + [r])
    else SettledBy(t, g, Fastest(rs, tieToNewer).user, now).(reactions := t.reactions + [r])
  }

  // ----- the two passes of the scheduler, one row each -----

  predicate Due(t: Tables, g: int, status: Status, now: int) {
    g in t.games && t.games[g].status == status && t.games[g].expiresAt <= now
  }

  predicate CanExpireWaiting(t: Tables, g: int, now: int) {
    && Due(t, g, Waiting, now)
    && (t.games[g].creator in t.users ==> CreditRefusal(t, t.games[g].creator, t.games[g].entry) == None)
  }

  function ExpiredWaiting(t: Tables, g: int, now: int): Tables
    requires CanExpireWaiting(t, g, now)
  {
    var row := t.games[g];
    Move(t, g, Closed(row, Expired, now),
         if row.creator in t.users then [Posting(row.creator, GameRefund, row.entry)] else [], [])
  }

  predicate CanExpireActive(t: Tables, g: int, now: int) {
    && Due(t, g, Active, now)
    && var row := t.games[g];
       var rs := ReactionsOf(t.reactions, g);
       if rs == [] then
         && CreditRefusal(t, row.creator, row.entry) == None
         && (row.opponent.Some? ==> CreditRefusal(t, row.opponent.value, row.entry) == None)
       else CreditRefusal(t, rs[0].user, row.reward) == None
  }

  function ExpiredActive(t: Tables, g: int, now: int): Tables
    requires CanExpireActive(t, g, now)
  {
    var row := t.games[g];
    var rs := ReactionsOf(t.reactions, g);
    if rs == [] then
      var refunds := [Posting(row.creator, GameRefund, row.entry)]
                     + if row.opponent.Some? then [Posting(row.opponent.value, GameRefund, row.entry)] else [];
      Move(t, g, Closed(row, Expired, now), refunds, [])
    else
      Move(t, g, Won(row, rs[0].user, now),
           [Posting(rs[0].user, GameWin, row.reward)], [PlatformFee(g, row.fee)])
  }

  // ----- runs -----

  predicate Issuing(k: Kind) {
    k in {Purchase, JoinBonus, ReferralInviteBonus, DailyCheckin, WeeklyLeaderboardReward}
  }

  type IssueKind = k: Kind | Issuing(k) witness Purchase
  type IssueRef = r: Ref | !r.Game? witness NoRef

  datatype Step =
    | Register(user: int)
    | ToggleBlock(user: int)
    | Issue(user: int, amount: int, kind: IssueKind, ref: IssueRef)
    | Transfer(user: int, recipient: int, amount: int, num: int, den: nat, now: int)
    | Adjust(user: int, amount: int, admin: int)
    | Create(user: int, chat: int, game: int, entry: int, now: int)
    | Join(game: int, user: int, now: int)
    | Cancel(game: int, user: int, now: int)
    | Start(game: int, now: int)
    | React(game: int, user: int, now: int, tieToNewer: bool)
    | ExpireWaiting(game: int, now: int)
    | ExpireActive(game: int, now: int)

  /** The tables after one call; a refused call leaves them as they were. */
  function Apply(cfg: Settings, t: Tables, s: Step): Tables {
    match s
    case Register(u) => if u in t.users then t else t.(users := t.users[u := NEW_USER])
    case ToggleBlock(u) =>
      if u in t.users then t.(users := t.users[u := t.users[u].(blocked := !t.users[u].blocked)]) else t
    case Issue(u, amount, kind, ref) =>
      if CreditRefusal(t, u, amount) == None then Post(t, u, kind, amount, ref) else t
    case Transfer(u, recipient, amount, num, den, now) =>
      if 0 < den && TransferRefusal(t, u, recipient, amount, num, den) == None
      then Transferred(t, u, recipient, amount, num, den, now) else t
    case Adjust(u, amount, admin) =>
      if AdjustRefusal(t, u, amount) == None then Post(t, u, AdminAdjustment, amount, Admin(admin)) else t
    case Create(u, chat, g, entry, now) =>
      if CreateRefusal(cfg, t, u, chat, g, entry) == None then Created(cfg, t, u, chat, g, entry, now) else t
    case Join(g, u, now) => if JoinRefusal(t, g, u) == None then Joined(cfg, t, g, u, now) else t
    case Cancel(g, u, now) => if CancelRefusal(t, g, u) == None then CancelledAt(t, g, u, now) else t
    case Start(g, now) => if CanStart(t, g) then Started(t, g, now) else t
    case React(g, u, now, tie) =>
      if ReactRefusal(t, g, u, now, tie) == None then Reacted(t, g, u, now, tie) else t
    case ExpireWaiting(g, now) => if CanExpireWaiting(t, g, now) then ExpiredWaiting(t, g, now) else t
    case ExpireActive(g, now) => if CanExpireActive(t, g, now) then ExpiredActive(t, g, now) else t
  }

  function Run(cfg: Settings, t: Tables, steps: seq<Step>): Tables
    decreases |steps|
  {
    if steps == [] then t else Run(cfg, Apply(cfg, t, steps[0]), steps[1..])
  }

  lemma {:induction false} RunAppend(cfg: Settings, t: Tables, steps: seq<Step>, s: Step)
    ensures Run(cfg, t, steps + [s]) == Apply(cfg, Run(cfg, t, steps), s)
    decreases |steps|
  {
    hide Apply;
    if steps == [] {
      assert steps + [s] == [s] && [s][1..] == [];
      assert Run(cfg, t, [s]) == Run(cfg, Apply(cfg, t, s), [s][1..]);
    } else {
      assert (steps + [s])[1..] == steps[1..] + [s];
      RunAppend(cfg, Apply(cfg, t, steps[0]), steps[1..], s);
    }
  }
}

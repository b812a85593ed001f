module Options {
  datatype Option<+T> = None | Some(value: T)
}

/** The token tables and what one ledger posting does to them. */
module TokenBooks {
  import opened Options
  import opened Totals
  import opened Ledgers

  datatype Kind =
    | Purchase | GameEntry | ProductPurchase | GameWin | GameRefund | GameFee
    | TransferOut | TransferFee | TransferIn | AdminAdjustment
    | JoinBonus | ReferralInviteBonus | DailyCheckin | WeeklyLeaderboardReward

  datatype Ref =
    | NoRef
    | Game(id: int)
    | TransferOf(sender: int, recipient: int, at: int)
    | Admin(admin: int)
    | TokenDeposit(request: int)
    | JoinBonusOf(user: int)
    | ReferralInviteOf(user: int)
    | CheckinOf(user: int, day: int)
    | WeeklyLeaderboard(week: int, user: int)

  type TokenEntry = Entry<Kind, Ref>

  datatype User = User(
    balance: int, purchased: int, spent: int, won: int, feesPaid: int, blocked: bool)

  const NEW_USER := User(0, 0, 0, 0, 0, false)

  datatype Status = Waiting | Active | Completed | Expired | Cancelled

  datatype GameRow = GameRow(
    chat: int, creator: int, opponent: Option<int>,
    entry: int, pot: int, fee: int, reward: int,
    status: Status, winner: Option<int>, loser: Option<int>,
    readyAt: Option<int>, startedAt: Option<int>, completedAt: Option<int>,
    createdAt: int, expiresAt: int)

  datatype Reaction = Reaction(game: int, user: int, ms: int)

  datatype PlatformFee = PlatformFee(game: int, amount: int)

  datatype Tables = Tables(
    users: map<int, User>,
    games: map<int, GameRow>,
    reactions: seq<Reaction>,
    ledger: seq<TokenEntry>,
    platform: seq<PlatformFee>)

  const EMPTY := Tables(map[], map[], [], [], [])

  /** The counters and the balance of a user row after a posting of `amount`. */
  function Recorded(user: User, kind: Kind, amount: int): User {
    var moved := user.(balance := user.balance + amount);
    match kind
    case Purchase => moved.(purchased := user.purchased + amount)
    case GameEntry | ProductPurchase => moved.(spent := user.spent - amount)
    case GameWin => moved.(won := user.won + amount)
    case GameFee => moved.(feesPaid := user.feesPaid - amount)
    case _ => moved
  }

  /** The tables after one posting: the user's row moves and the ledger grows by one row. */
  function Post(t: Tables, u: int, kind: Kind, amount: int, ref: Ref): Tables
    requires u in t.users
  {
    var before := t.users[u].balance;
    t.(users := t.users[u := Recorded(t.users[u], kind, amount)],
       ledger := t.ledger + [Entry(u, kind, amount, before, before + amount, ref)])
  }

  datatype Posting = Posting(user: int, kind: Kind, amount: int)

  /** Several postings with the same reference, in order. */
  function PostAll(t: Tables, ps: seq<Posting>, ref: Ref): Tables
    requires forall p :: p in ps ==> p.user in t.users
    decreases |ps|
  {
    if ps == [] then t
    else PostAll(Post(t, ps[0].user, ps[0].kind, ps[0].amount, ref), ps[1..], ref)
  }

  lemma PostAllOne(t: Tables, p: Posting, ref: Ref)
    requires p.user in t.users
    ensures PostAll(t, [p], ref) == Post(t, p.user, p.kind, p.amount, ref)
  {
    assert [p][1..] == [];
  }

  lemma PostAllTwo(t: Tables, p: Posting, q: Posting, ref: Ref)
    requires p.user in t.users && q.user in t.users
    ensures PostAll(t, [p, q], ref)
         == Post(Post(t, p.user, p.kind, p.amount, ref), q.user, q.kind, q.amount, ref)
  {
    assert [p, q][1..] == [q];
    PostAllOne(Post(t, p.user, p.kind, p.amount, ref), q, ref);
  }

  /** No posting of the list takes a user below zero. */
  ghost predicate Affordable(t: Tables, ps: seq<Posting>, ref: Ref)
    decreases |ps|
  {
    ps == [] ||
    (&& ps[0].user in t.users
     && 0 <= t.users[ps[0].user].balance + ps[0].amount
     && Affordable(Post(t, ps[0].user, ps[0].kind, ps[0].amount, ref), ps[1..], ref))
  }

  /** What a list of postings adds to a ledger sum. */
  ghost function Added(ps: seq<Posting>, ref: Ref, p: (int, Kind, Ref) -> bool): int
  {
    if ps == [] then 0
    else (if p(ps[0].user, ps[0].kind, ref) then ps[0].amount else 0) + Added(ps[1..], ref, p)
  }

  ghost function OfKind(u: int, kind: Kind): (int, Kind, Ref) -> bool {
    (v: int, k: Kind, r: Ref) => v == u && k == kind
  }

  ghost function Spending(u: int): (int, Kind, Ref) -> bool {
    (v: int, k: Kind, r: Ref) => v == u && (k.GameEntry? || k.ProductPurchase?)
  }

  /** The counter columns of the user rows are ledger sums. */
  ghost predicate CountersMatch(users: map<int, User>, l: seq<TokenEntry>) {
    forall u :: u in users ==>
      && users[u].purchased == SumWhere(l, OfKind(u, Purchase))
      && users[u].spent == -SumWhere(l, Spending(u))
      && users[u].won == SumWhere(l, OfKind(u, GameWin))
  }

  /** The balance column shows what the ledger shows, and is never negative. */
  ghost predicate BalancesMatch(users: map<int, User>, l: seq<TokenEntry>) {
    && Chained(l)
    && (forall u :: u in users ==> 0 <= users[u].balance == Latest(l, u))
    && (forall i :: 0 <= i < |l| ==> l[i].user in users)
  }

  /** The user table and the ledger agree. */
  ghost predicate Books(users: map<int, User>, l: seq<TokenEntry>) {
    BalancesMatch(users, l) && CountersMatch(users, l)
  }

  ghost function Balances(users: map<int, User>): map<int, int> {
    map u | u in users :: users[u].balance
  }

  lemma PostKeepsBalances(t: Tables, u: int, kind: Kind, amount: int, ref: Ref)
    requires BalancesMatch(t.users, t.ledger) && u in t.users && 0 <= t.users[u].balance + amount
    ensures var t' := Post(t, u, kind, amount, ref); BalancesMatch(t'.users, t'.ledger)
  {
    ChainAppend(t.ledger, Post(t, u, kind, amount, ref).ledger[|t.ledger|]);
  }

  lemma PostSums(t: Tables, u: int, kind: Kind, amount: int, ref: Ref)
    requires u in t.users
    ensures forall p: (int, Kind, Ref) -> bool ::
              SumWhere(Post(t, u, kind, amount, ref).ledger, p)
              == SumWhere(t.ledger, p) + if p(u, kind, ref) then amount else 0
    ensures Total(Balances(Post(t, u, kind, amount, ref).users)) == Total(Balances(t.users)) + amount
  {
    var t' := Post(t, u, kind, amount, ref);
    SumAppend(t.ledger, t'.ledger[|t.ledger|]);
    TotalUpdate(Balances(t.users), u, t'.users[u].balance);
    assert Balances(t'.users) == Balances(t.users)[u := t'.users[u].balance];
  }

  lemma RecordedCounters(user: User, kind: Kind, amount: int)
    ensures var r := Recorded(user, kind, amount);
            && r.balance == user.balance + amount
            && r.purchased == user.purchased + (if kind == Purchase then amount else 0)
            && r.spent == user.spent - (if kind.GameEntry? || kind.ProductPurchase? then amount else 0)
            && r.won == user.won + (if kind == GameWin then amount else 0)
  {
  }

  lemma PostKeepsCounters(t: Tables, u: int, kind: Kind, amount: int, ref: Ref)
    requires CountersMatch(t.users, t.ledger) && u in t.users
    ensures var t' := Post(t, u, kind, amount, ref); CountersMatch(t'.users, t'.ledger)
  {
    hide SumWhere, Recorded;
    RecordedCounters(t.users[u], kind, amount);
    var t' := Post(t, u, kind, amount, ref);
    forall v | v in t'.users
      ensures t'.users[v].purchased == SumWhere(t'.ledger, OfKind(v, Purchase))
      ensures t'.users[v].spent == -SumWhere(t'.ledger, Spending(v))
      ensures t'.users[v].won == SumWhere(t'.ledger, OfKind(v, GameWin))
    {
      PostSums(t, u, kind, amount, ref);
    }
  }

  /** One affordable posting keeps the books. */
  lemma PostKeepsBooks(t: Tables, u: int, kind: Kind, amount: int, ref: Ref)
    requires Books(t.users, t.ledger) && u in t.users && 0 <= t.users[u].balance + amount
    ensures var t' := Post(t, u, kind, amount, ref); Books(t'.users, t'.ledger)
  {
    PostKeepsBalances(t, u, kind, amount, ref);
    PostKeepsCounters(t, u, kind, amount, ref);
  }

  lemma {:induction false} PostAllSums(t: Tables, ps: seq<Posting>, ref: Ref)
    requires forall p :: p in ps ==> p.user in t.users
    ensures var t' := PostAll(t, ps, ref);
            && t'.users.Keys == t.users.Keys
            && t'.games == t.games && t'.reactions == t.reactions && t'.platform == t.platform
            && Total(Balances(t'.users)) == Total(Balances(t.users)) + Added(ps, ref, Everyone())
            && forall p: (int, Kind, Ref) -> bool ::
                 SumWhere(t'.ledger, p) == SumWhere(t.ledger, p) + Added(ps, ref, p)
    decreases |ps|
  {
    hide SumWhere, Total, Recorded;
    if ps != [] {
      PostSums(t, ps[0].user, ps[0].kind, ps[0].amount, ref);
      PostAllSums(Post(t, ps[0].user, ps[0].kind, ps[0].amount, ref), ps[1..], ref);
    }
  }

  lemma {:induction false} PostAllKeepsBooks(t: Tables, ps: seq<Posting>, ref: Ref)
    requires Books(t.users, t.ledger) && Affordable(t, ps, ref)
    requires forall p :: p in ps ==> p.user in t.users
    ensures Books(PostAll(t, ps, ref).users, PostAll(t, ps, ref).ledger)
    decreases |ps|
  {
    hide Books, Recorded;
    if ps != [] {
      PostKeepsBooks(t, ps[0].user, ps[0].kind, ps[0].amount, ref);
      PostAllKeepsBooks(Post(t, ps[0].user, ps[0].kind, ps[0].amount, ref), ps[1..], ref);
    }
  }

  lemma AddedOne(a: Posting, ref: Ref, p: (int, Kind, Ref) -> bool)
    ensures Added([a], ref, p) == if p(a.user, a.kind, ref) then a.amount else 0
  {
    assert [a][1..] == [];
  }

  lemma AddedTwo(a: Posting, b: Posting, ref: Ref, p: (int, Kind, Ref) -> bool)
    ensures Added([a, b], ref, p)
         == (if p(a.user, a.kind, ref) then a.amount else 0) + (if p(b.user, b.kind, ref) then b.amount else 0)
  {
    assert [a, b][1..] == [b];
    AddedOne(b, ref, p);
  }
}

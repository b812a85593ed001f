/** What every call of the token and game services keeps, over any run from empty tables. */
module GameInvariants {
  import opened Options
  import opened Totals
  import opened Ledgers
  import opened TokenBooks
  import opened GameRules

  // ----- what a game row promises -----

  /** The net amount user `u` has paid (negative) or won (positive) through a game, from its row alone. */
  ghost function Position(row: GameRow, u: int): int {
    match row.status
    case Waiting => if u == row.creator then -row.entry else 0
    case Active => if IsPlayer(row, u) then -row.entry else 0
    case Completed =>
      if row.winner == Some(u) then row.reward - row.entry
      else if row.loser == Some(u) then -row.entry
      else 0
    case Expired | Cancelled => 0
  }

  /** The closed form of all ledger rows of a game. */
  ghost function Net(row: GameRow): int {
    match row.status
    case Waiting => -row.entry
    case Active => -2 * row.entry
    case Completed => -row.fee
    case Expired | Cancelled => 0
  }

  /** The tokens a game holds for its players. */
  ghost function Escrow(row: GameRow): int {
    match row.status
    case Waiting => row.entry
    case Active => 2 * row.entry
    case _ => 0
  }

  ghost predicate RowOk(users: set<int>, row: GameRow) {
    && 0 < row.entry && row.pot == 2 * row.entry && row.fee == row.pot / 10 && row.reward == row.pot - row.fee
    && row.creator in users
    && (row.opponent.Some? ==> row.opponent.value in users && row.opponent.value != row.creator)
    && (row.status.Completed? <==> row.winner.Some?)
    && (row.winner.Some? <==> row.loser.Some?)
    && match row.status
       case Waiting | Cancelled => row.opponent == None && row.startedAt == None
       case Active => row.opponent.Some?
       case Completed =>
         && row.opponent.Some?
         && (|| (row.winner == Some(row.creator) && row.loser == row.opponent)
             || (row.winner == row.opponent && row.loser == Some(row.creator)))
       case Expired => true
  }

  /** The reactions a game of this status can have. */
  ghost predicate ReactionsOk(row: GameRow, rs: seq<Reaction>) {
    match row.status
    case Waiting | Expired | Cancelled => rs == []
    case Active => rs == [] || (|rs| == 1 && row.startedAt.Some? && IsPlayer(row, rs[0].user))
    case Completed =>
      || (|rs| == 1 && row.winner == Some(rs[0].user))
      || (|rs| == 2 && rs[0].user != rs[1].user && IsPlayer(row, rs[0].user) && IsPlayer(row, rs[1].user)
          && (|| (row.winner == Some(rs[0].user) && rs[0].ms <= rs[1].ms)
              || (row.winner == Some(rs[1].user) && rs[1].ms <= rs[0].ms)))
  }

  function FeesOf(fees: seq<PlatformFee>, g: int): seq<PlatformFee> {
    if fees == [] then []
    else FeesOf(fees[..|fees| - 1], g) + if fees[|fees| - 1].game == g then [fees[|fees| - 1]] else []
  }

  function FeeSum(fees: seq<PlatformFee>): int {
    if fees == [] then 0 else FeeSum(fees[..|fees| - 1]) + fees[|fees| - 1].amount
  }

  // ----- ledger sums -----

  ghost function InGame(u: int, g: int): (int, Kind, Ref) -> bool {
    (v: int, k: Kind, r: Ref) => v == u && r == Game(g)
  }

  ghost function OfGame(g: int): (int, Kind, Ref) -> bool {
    (v: int, k: Kind, r: Ref) => r == Game(g)
  }

  ghost function AnyGame(u: int): (int, Kind, Ref) -> bool {
    (v: int, k: Kind, r: Ref) => v == u && r.Game?
  }

  ghost function IssuedRows(): (int, Kind, Ref) -> bool {
    (v: int, k: Kind, r: Ref) => Issuing(k) || k.AdminAdjustment?
  }

  ghost function TransferFeeRows(): (int, Kind, Ref) -> bool {
    (v: int, k: Kind, r: Ref) => k.TransferFee?
  }

  // ----- the invariant -----

  ghost predicate Rows(users: set<int>, games: map<int, GameRow>) {
    forall g :: g in games ==> RowOk(users, games[g])
  }

  ghost predicate Reactions(games: map<int, GameRow>, rs: seq<Reaction>) {
    forall g :: if g in games then ReactionsOk(games[g], ReactionsOf(rs, g)) else ReactionsOf(rs, g) == []
  }

  /** Every user's ledger rows in a game add up to the position the game row gives that user. */
  ghost predicate Positions(games: map<int, GameRow>, l: seq<TokenEntry>) {
    forall u, g :: SumWhere(l, InGame(u, g)) == if g in games then Position(games[g], u) else 0
  }

  /** All ledger rows of a game add up to its closed form. */
  ghost predicate Nets(games: map<int, GameRow>, l: seq<TokenEntry>) {
    forall g :: SumWhere(l, OfGame(g)) == if g in games then Net(games[g]) else 0
  }

  /** A platform fee row exists exactly for the completed games: one each, of the game's fee. */
  ghost predicate Fees(games: map<int, GameRow>, fees: seq<PlatformFee>) {
    forall g :: FeesOf(fees, g)
                == if g in games && games[g].status.Completed? then [PlatformFee(g, games[g].fee)] else []
  }

  ghost function PositionsOf(games: map<int, GameRow>, u: int): map<int, int> {
    map g | g in games :: Position(games[g], u)
  }

  ghost predicate PlayerTotals(games: map<int, GameRow>, l: seq<TokenEntry>) {
    forall u :: SumWhere(l, AnyGame(u)) == Total(PositionsOf(games, u))
  }

  ghost function Escrows(games: map<int, GameRow>): map<int, int> {
    map g | g in games :: Escrow(games[g])
  }

  /** Tokens in balances, held by games, kept as game fees and as transfer fees, less all ever issued. */
  ghost function Surplus(t: Tables): int {
    Total(Balances(t.users)) + Total(Escrows(t.games)) + FeeSum(t.platform)
    - SumWhere(t.ledger, TransferFeeRows())
    - SumWhere(t.ledger, IssuedRows())
  }

  /** The tables agree with each other about money. */
  ghost predicate Accounts(t: Tables) {
    && Books(t.users, t.ledger) && Rows(t.users.Keys, t.games)
    && Positions(t.games, t.ledger) && Nets(t.games, t.ledger)
    && Fees(t.games, t.platform) && PlayerTotals(t.games, t.ledger)
  }

  ghost predicate Inv(t: Tables) {
    Accounts(t) && Surplus(t) == 0 && Reactions(t.games, t.reactions)
  }

  // ----- preservation -----

  lemma EmptyInv()
    ensures Inv(EMPTY)
  {
    assert Balances(EMPTY.users) == map[];
    assert Escrows(EMPTY.games) == map[];
    assert forall u :: PositionsOf(EMPTY.games, u) == map[];
  }

  lemma FeesAppend(fees: seq<PlatformFee>, f: PlatformFee)
    ensures FeeSum(fees + [f]) == FeeSum(fees) + f.amount
    ensures forall g :: FeesOf(fees + [f], g) == if f.game == g then FeesOf(fees, g) + [f] else FeesOf(fees, g)
  {
    assert (fees + [f])[..|fees|] == fees;
  }

  lemma ReactionsAppend(rs: seq<Reaction>, r: Reaction)
    ensures forall g :: ReactionsOf(rs + [r], g)
                        == if r.game == g then ReactionsOf(rs, g) + [r] else ReactionsOf(rs, g)
  {
    assert (rs + [r])[..|rs|] == rs;
  }

  lemma PostKeepsGameSums(t: Tables, u: int, kind: Kind, amount: int, ref: Ref)
    requires Positions(t.games, t.ledger) && Nets(t.games, t.ledger) && PlayerTotals(t.games, t.ledger)
    requires u in t.users && !ref.Game?
    ensures var l := Post(t, u, kind, amount, ref).ledger;
            Positions(t.games, l) && Nets(t.games, l) && PlayerTotals(t.games, l)
  {
    hide SumWhere, Total, Recorded;
    PostSums(t, u, kind, amount, ref);
  }

  /** A posting that refers to no game leaves the games' accounts alone. */
  lemma PostKeepsAccounts(t: Tables, u: int, kind: Kind, amount: int, ref: Ref)
    requires Accounts(t)
    requires u in t.users && 0 <= t.users[u].balance + amount && !ref.Game?
    ensures var t' := Post(t, u, kind, amount, ref);
            && Accounts(t')
            && Surplus(t') == Surplus(t)
               + if Issuing(kind) || kind.AdminAdjustment? || kind.TransferFee? then 0 else amount
  {
    hide SumWhere, Total, Recorded, Books, Rows, Positions, Nets, Fees, PlayerTotals;
    PostKeepsBooks(t, u, kind, amount, ref);
    PostKeepsGameSums(t, u, kind, amount, ref);
    PostSums(t, u, kind, amount, ref);
    assert Post(t, u, kind, amount, ref).users.Keys == t.users.Keys;
  }

  ghost predicate GameKind(k: Kind) {
    k.GameEntry? || k.GameWin? || k.GameRefund?
  }

  lemma {:induction false} AddedToOthers(ps: seq<Posting>, g: int, p: (int, Kind, Ref) -> bool)
    requires forall i :: 0 <= i < |ps| ==> !p(ps[i].user, ps[i].kind, Game(g))
    ensures Added(ps, Game(g), p) == 0
  {
    if ps != [] {
      AddedToOthers(ps[1..], g, p);
    }
  }

  lemma {:induction false} AddedSame(
      ps: seq<Posting>, ref: Ref, p: (int, Kind, Ref) -> bool, q: (int, Kind, Ref) -> bool)
    requires forall i :: 0 <= i < |ps| ==>
               p(ps[i].user, ps[i].kind, ref) == q(ps[i].user, ps[i].kind, ref)
    ensures Added(ps, ref, p) == Added(ps, ref, q)
  {
    if ps != [] {
      AddedSame(ps[1..], ref, p, q);
    }
  }

  /** The settlement equations of a move: its postings are the change of every player's position. */
  ghost predicate Settles(t: Tables, g: int, row: GameRow, ps: seq<Posting>, fees: seq<PlatformFee>) {
    var prior := if g in t.games then Some(t.games[g]) else None;
    && (forall i :: 0 <= i < |ps| ==> ps[i].user in t.users && GameKind(ps[i].kind))
    && (forall u :: Added(ps, Game(g), InGame(u, g))
                    == Position(row, u) - (if prior.Some? then Position(prior.value, u) else 0))
    && Added(ps, Game(g), Everyone()) == Net(row) - (if prior.Some? then Net(prior.value) else 0)
    && (prior.Some? ==> !prior.value.status.Completed?)
    && fees == (if row.status.Completed? then [PlatformFee(g, row.fee)] else [])
    && Escrow(row) - (if prior.Some? then Escrow(prior.value) else 0) + FeeSum(fees)
       == -Added(ps, Game(g), Everyone())
  }

  lemma MovePositions(t: Tables, g: int, row: GameRow, ps: seq<Posting>, fees: seq<PlatformFee>)
    requires Positions(t.games, t.ledger) && Nets(t.games, t.ledger) && Settles(t, g, row, ps, fees)
    requires forall p :: p in ps ==> p.user in t.users
    ensures var t' := Move(t, g, row, ps, fees); Positions(t'.games, t'.ledger) && Nets(t'.games, t'.ledger)
  {
    hide SumWhere, Total, PostAll;
    PostAllSums(t, ps, Game(g));
    var t' := Move(t, g, row, ps, fees);
    forall u, h
      ensures SumWhere(t'.ledger, InGame(u, h)) == if h in t'.games then Position(t'.games[h], u) else 0
    {
      if h != g { AddedToOthers(ps, g, InGame(u, h)); }
    }
    forall h
      ensures SumWhere(t'.ledger, OfGame(h)) == if h in t'.games then Net(t'.games[h]) else 0
    {
      if h != g {
        AddedToOthers(ps, g, OfGame(h));
      } else {
        AddedSame(ps, Game(g), OfGame(g), Everyone());
      }
    }
  }

  lemma MovePlayerTotals(t: Tables, g: int, row: GameRow, ps: seq<Posting>, fees: seq<PlatformFee>)
    requires PlayerTotals(t.games, t.ledger) && Settles(t, g, row, ps, fees)
    requires forall p :: p in ps ==> p.user in t.users
    ensures var t' := Move(t, g, row, ps, fees); PlayerTotals(t'.games, t'.ledger)
  {
    hide SumWhere, Total, PostAll;
    var t' := Move(t, g, row, ps, fees);
    PostAllSums(t, ps, Game(g));
    forall u
      ensures SumWhere(t'.ledger, AnyGame(u)) == Total(PositionsOf(t'.games, u))
    {
      AddedSame(ps, Game(g), AnyGame(u), InGame(u, g));
      TotalUpdate(PositionsOf(t.games, u), g, Position(row, u));
      assert PositionsOf(t'.games, u) == PositionsOf(t.games, u)[g := Position(row, u)];
    }
  }

  lemma MoveFees(t: Tables, g: int, row: GameRow, fees: seq<PlatformFee>)
    requires Fees(t.games, t.platform)
    requires g in t.games ==> !t.games[g].status.Completed?
    requires fees == (if row.status.Completed? then [PlatformFee(g, row.fee)] else [])
    ensures Fees(t.games[g := row], t.platform + fees)
    ensures FeeSum(t.platform + fees) == FeeSum(t.platform) + FeeSum(fees)
  {
    hide FeesOf;
    if fees == [] {
      assert t.platform + fees == t.platform;
    } else {
      FeesAppend(t.platform, fees[0]);
      FeesAppend([], fees[0]);
      assert [] + [fees[0]] == fees;
    }
  }

  lemma MoveSurplus(t: Tables, g: int, row: GameRow, ps: seq<Posting>, fees: seq<PlatformFee>)
    requires Settles(t, g, row, ps, fees)
    requires forall p :: p in ps ==> p.user in t.users
    requires FeeSum(t.platform + fees) == FeeSum(t.platform) + FeeSum(fees)
    ensures Surplus(Move(t, g, row, ps, fees)) == Surplus(t)
  {
    hide SumWhere, Total, PostAll, FeeSum;
    PostAllSums(t, ps, Game(g));
    AddedToOthers(ps, g, TransferFeeRows());
    AddedToOthers(ps, g, IssuedRows());
    TotalUpdate(Escrows(t.games), g, Escrow(row));
    assert Escrows(t.games[g := row]) == Escrows(t.games)[g := Escrow(row)];
  }

  /** A move whose postings settle the game keeps the accounts and the global sum. */
  lemma MoveKeepsAccounts(t: Tables, g: int, row: GameRow, ps: seq<Posting>, fees: seq<PlatformFee>)
    requires Affordable(t, ps, Game(g)) && Settles(t, g, row, ps, fees)
    requires forall p :: p in ps ==> p.user in t.users
    requires RowOk(t.users.Keys, row)
    requires Accounts(t)
    ensures var t' := Move(t, g, row, ps, fees); Accounts(t') && Surplus(t') == Surplus(t)
  {
    hide SumWhere, Total, PostAll, Books, Positions, Nets, Fees, PlayerTotals, Surplus, RowOk;
    MoveFees(t, g, row, fees);
    MovePositions(t, g, row, ps, fees);
    MovePlayerTotals(t, g, row, ps, fees);
    MoveSurplus(t, g, row, ps, fees);
    PostAllKeepsBooks(t, ps, Game(g));
    PostAllSums(t, ps, Game(g));
  }

  lemma MoveReactions(games: map<int, GameRow>, rs: seq<Reaction>, g: int, row: GameRow, rs': seq<Reaction>)
    requires Reactions(games, rs)
    requires forall h :: h != g ==> ReactionsOf(rs', h) == ReactionsOf(rs, h)
    requires ReactionsOk(row, ReactionsOf(rs', g))
    ensures Reactions(games[g := row], rs')
  {
    hide ReactionsOf, ReactionsOk;
  }

  lemma MoveKeepsInv(t: Tables, g: int, row: GameRow, ps: seq<Posting>, fees: seq<PlatformFee>)
    requires Affordable(t, ps, Game(g)) && Settles(t, g, row, ps, fees)
    requires forall p :: p in ps ==> p.user in t.users
    requires RowOk(t.users.Keys, row)
    requires ReactionsOk(row, ReactionsOf(t.reactions, g))
    requires Inv(t)
    ensures Inv(Move(t, g, row, ps, fees))
  {
    hide Accounts, Surplus, PostAll, ReactionsOf, ReactionsOk;
    MoveKeepsAccounts(t, g, row, ps, fees);
    PostAllSums(t, ps, Game(g));
    MoveReactions(t.games, t.reactions, g, row, t.reactions);
  }
}

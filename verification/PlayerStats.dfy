/** The figures a player's profile derives from the game table, and the ledger they agree with. */
module PlayerStats {
  import opened Options
  import opened Totals
  import opened Ledgers
  import opened TokenBooks
  import opened GameRules
  import opened GameInvariants
  import opened GameRuns

  function Played(games: map<int, GameRow>, u: int): set<int> {
    set g | g in games && games[g].status.Completed? && IsPlayer(games[g], u)
  }

  function Wins(games: map<int, GameRow>, u: int): set<int> {
    set g | g in games && games[g].status.Completed? && games[g].winner == Some(u)
  }

  function Lost(games: map<int, GameRow>, u: int): set<int> {
    set g | g in games && games[g].status.Completed? && games[g].loser == Some(u)
  }

  /** The open games that hold an entry of `u`. */
  function Locked(games: map<int, GameRow>, u: int): set<int> {
    set g | g in games && (|| (games[g].status.Waiting? && games[g].creator == u)
                           || (games[g].status.Active? && IsPlayer(games[g], u)))
  }

  function Winners(games: map<int, GameRow>): set<int> {
    set g | g in games && games[g].status.Completed? && games[g].winner.Some? :: games[g].winner.value
  }

  /** The users with strictly more wins than `u`. */
  function Ahead(games: map<int, GameRow>, u: int): set<int> {
    set v | v in Winners(games) && |Wins(games, v)| > |Wins(games, u)|
  }

  datatype Profile = Profile(played: nat, wins: nat, losses: int, tokensLost: int, rank: nat)

  // ----- played minus wins is lost -----

  /** Played games split into won and lost ones, so the derived number of losses is the real one. */
  lemma LossesAreLostGames(t: Tables, u: int)
    requires Inv(t)
    ensures Played(t.games, u) == Wins(t.games, u) + Lost(t.games, u)
    ensures Wins(t.games, u) !! Lost(t.games, u)
    ensures |Played(t.games, u)| - |Wins(t.games, u)| == |Lost(t.games, u)|
  {
    hide Books, Positions, Nets, Fees, PlayerTotals, Surplus, Reactions;
    assert forall g :: g in t.games ==> RowOk(t.users.Keys, t.games[g]);
    forall g ensures g in Played(t.games, u) <==> g in Wins(t.games, u) + Lost(t.games, u) {
      if g in t.games { assert RowOk(t.users.Keys, t.games[g]); }
    }
    assert Played(t.games, u) == Wins(t.games, u) + Lost(t.games, u);
  }

  // ----- the ledger of a player -----

  ghost function Gain(row: GameRow): int {
    row.reward - row.entry
  }

  /** The sum of one column over the chosen games. */
  ghost function Column(games: map<int, GameRow>, chosen: set<int>, column: GameRow -> int): map<int, int> {
    map g | g in games && g in chosen :: column(games[g])
  }

  ghost function SumOf(games: map<int, GameRow>, chosen: set<int>, column: GameRow -> int): int {
    Total(Column(games, chosen, column))
  }

  ghost function Entries(): GameRow -> int {
    (row: GameRow) => row.entry
  }

  ghost function Gains(): GameRow -> int {
    (row: GameRow) => Gain(row)
  }

  /** One part of a player's positions, over all games. */
  ghost function Part(games: map<int, GameRow>, chosen: set<int>, column: GameRow -> int): map<int, int> {
    map g | g in games :: if g in chosen then column(games[g]) else 0
  }

  lemma PartSum(games: map<int, GameRow>, chosen: set<int>, column: GameRow -> int)
    ensures Total(Part(games, chosen, column)) == SumOf(games, chosen, column)
  {
    TotalSupport(Part(games, chosen, column), Column(games, chosen, column));
  }

  /** A player's game ledger: prizes net of the entry, less lost entries, less entries still locked. */
  lemma GameLedgerOfPlayer(t: Tables, u: int)
    requires Inv(t)
    ensures SumWhere(t.ledger, AnyGame(u))
         == SumOf(t.games, Wins(t.games, u), Gains())
            - SumOf(t.games, Lost(t.games, u), Entries())
            - SumOf(t.games, Locked(t.games, u), Entries())
  {
    hide Books, Positions, Nets, Fees, Surplus, Reactions, SumWhere, Total;
    var won := Part(t.games, Wins(t.games, u), Gains());
    var lost := Part(t.games, Lost(t.games, u), Entries());
    var locked := Part(t.games, Locked(t.games, u), Entries());
    var paid := map g | g in t.games :: lost[g] + locked[g];
    TotalAdd(paid, lost, locked);
    forall g | g in t.games ensures won[g] == PositionsOf(t.games, u)[g] + paid[g] {
      assert RowOk(t.users.Keys, t.games[g]);
    }
    TotalAdd(won, PositionsOf(t.games, u), paid);
    PartSum(t.games, Wins(t.games, u), Gains());
    PartSum(t.games, Lost(t.games, u), Entries());
    PartSum(t.games, Locked(t.games, u), Entries());
  }

  /** In every reachable state: played minus won games are the lost ones, and a player's game ledger is the
      prizes net of entries, less lost entries, less entries locked in open games. */
  lemma StatisticsAgree(cfg: Settings, steps: seq<Step>, u: int)
    ensures var t := Run(cfg, EMPTY, steps);
            && |Played(t.games, u)| - |Wins(t.games, u)| == |Lost(t.games, u)|
            && SumWhere(t.ledger, AnyGame(u))
               == SumOf(t.games, Wins(t.games, u), Gains())
                  - SumOf(t.games, Lost(t.games, u), Entries())
                  - SumOf(t.games, Locked(t.games, u), Entries())
  {
    hide *;
    EmptyInv();
    RunKeepsInv(cfg, EMPTY, steps);
    LossesAreLostGames(Run(cfg, EMPTY, steps), u);
    GameLedgerOfPlayer(Run(cfg, EMPTY, steps), u);
  }

  // ----- computing the profile -----

  /** Adds up a column over a set of games, in any order. */
  method SumEntries(games: map<int, GameRow>, chosen: set<int>) returns (sum: int)
    requires chosen <= games.Keys
    ensures sum == SumOf(games, chosen, Entries())
  {
    sum := 0;
    var todo := chosen;
    while todo != {}
      invariant todo <= chosen
      invariant sum + SumOf(games, todo, Entries()) == SumOf(games, chosen, Entries())
      decreases |todo|
    {
      ghost var some := Pick(todo);
      var g :| g in todo;
      TotalRemove(Column(games, todo, Entries()), g);
      assert Column(games, todo, Entries()) - {g} == Column(games, todo - {g}, Entries());
      sum := sum + games[g].entry;
      todo := todo - {g};
    }
    assert Column(games, {}, Entries()) == map[];
  }

  /** The profile query: the losses it derives are the games lost, and the tokens lost are the entries of
      exactly those games. */
  method ProfileOf(t: Tables, u: int) returns (p: Option<Profile>)
    requires Inv(t)
    ensures p.Some? <==> u in t.users
    ensures p.Some? ==>
              && p.value.losses == |Lost(t.games, u)| && p.value.wins == |Wins(t.games, u)|
              && p.value.played == p.value.wins + p.value.losses
              && p.value.tokensLost == SumOf(t.games, Lost(t.games, u), Entries())
              && p.value.rank == |Ahead(t.games, u)| + 1
  {
    if u !in t.users { return None; }
    LossesAreLostGames(t, u);
    var played := |Played(t.games, u)|;
    var wins := |Wins(t.games, u)|;
    var lost := SumEntries(t.games, Lost(t.games, u));
    return Some(Profile(played, wins, played - wins, lost, |Ahead(t.games, u)| + 1));
  }
}

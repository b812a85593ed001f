/** How long a game can stay open when the scheduler keeps running. */
module GameLifetime {
  import opened Options
  import opened TokenBooks
  import opened GameRules
  import opened GameInvariants
  import opened GameRuns
  import opened GameTheorems

  function ExpireAll(waiting: bool, ids: seq<int>, now: int): (steps: seq<Step>)
    ensures |steps| == |ids|
  {
    seq(|ids|, i requires 0 <= i < |ids| => if waiting then ExpireWaiting(ids[i], now) else ExpireActive(ids[i], now))
  }

  /** What happens at one instant: a call, or a scheduler pass over waiting and then active games.
      A pass lists the games its two queries return, in the order they return them. */
  datatype Event =
    | Call(step: Step)
    | Pass(now: int, waiting: seq<int>, active: seq<int>)

  function After(cfg: Settings, t: Tables, e: Event): Tables {
    match e
    case Call(s) => Apply(cfg, t, s)
    case Pass(now, waiting, active) =>
      Run(cfg, Run(cfg, t, ExpireAll(true, waiting, now)), ExpireAll(false, active, now))
  }

  /** An uncontended pass: its queries skip no row. */
  ghost predicate Uncontended(cfg: Settings, t: Tables, now: int, waiting: seq<int>, active: seq<int>) {
    && (forall g :: Due(t, g, Waiting, now) ==> g in waiting)
    && (forall g :: Due(Run(cfg, t, ExpireAll(true, waiting, now)), g, Active, now) ==> g in active)
  }

  function Instant(e: Event, clock: int): int {
    match e
    case Call(s) => Tick(s, clock)
    case Pass(now, _, _) => now
  }

  /** The clock never goes back, passes are uncontended, and nothing happens later than `gap` after
      the last pass. */
  ghost predicate Regular(cfg: Settings, t: Tables, events: seq<Event>, lastPass: int, clock: int, gap: int)
    decreases |events|
  {
    events == [] ||
    (var e := events[0];
     && clock <= Instant(e, clock) <= lastPass + gap
     && (e.Pass? ==> Uncontended(cfg, t, e.now, e.waiting, e.active))
     && Regular(cfg, After(cfg, t, e), events[1..], if e.Pass? then e.now else lastPass, Instant(e, clock), gap))
  }

  function RunEvents(cfg: Settings, t: Tables, events: seq<Event>): Tables
    decreases |events|
  {
    if events == [] then t else RunEvents(cfg, After(cfg, t, events[0]), events[1..])
  }

  function EndOf(events: seq<Event>, clock: int): int
    decreases |events|
  {
    if events == [] then clock else EndOf(events[1..], Instant(events[0], clock))
  }

  predicate Open(row: GameRow) {
    !Terminal(row)
  }

  // ----- one pass closes everything that is due -----

  /** A pass leaves every game it lists either not due or closed, and the other games as they were. */
  lemma {:induction false} ListedAreClosed(cfg: Settings, t: Tables, waiting: bool, ids: seq<int>, now: int)
    requires Inv(t)
    ensures var t' := Run(cfg, t, ExpireAll(waiting, ids, now));
            && Inv(t')
            && forall g :: if g in t.games
                 then && g in t'.games
                      && (t'.games[g] == t.games[g] || Terminal(t'.games[g]))
                      && (g in ids ==> !Due(t', g, if waiting then Waiting else Active, now))
                 else g !in t'.games
    decreases |ids|
  {
    hide Accounts, Reactions, Surplus, Apply, ReactionsOf, SameGame;
    if ids != [] {
      var steps := ExpireAll(waiting, ids, now);
      assert steps[1..] == ExpireAll(waiting, ids[1..], now);
      var t1 := Apply(cfg, t, steps[0]);
      ApplyKeepsInv(cfg, t, steps[0]);
      OneIsClosed(cfg, t, waiting, ids[0], now);
      ListedAreClosed(cfg, t1, waiting, ids[1..], now);
    }
  }

  lemma OneIsClosed(cfg: Settings, t: Tables, waiting: bool, g: int, now: int)
    requires Inv(t)
    ensures var t' := Apply(cfg, t, if waiting then ExpireWaiting(g, now) else ExpireActive(g, now));
            && (g in t.games <==> g in t'.games)
            && (g in t.games ==>
                  && (t'.games[g] == t.games[g] || Terminal(t'.games[g]))
                  && !Due(t', g, if waiting then Waiting else Active, now))
            && forall h :: h != g ==> (h in t.games <==> h in t'.games) && (h in t.games ==> t'.games[h] == t.games[h])
  {
    hide Accounts, Reactions, Surplus, Move, ReactionsOf;
    GameFacts(t, g);
    MoveEffects(t, g);
  }

  // ----- the bound -----

  /** Where the deadline of an open game lies, given the time of the last pass. */
  ghost predicate TimelyRow(cfg: Settings, row: GameRow, lastPass: int, gap: int) {
    match row.status
    case Waiting =>
      lastPass <= row.expiresAt == row.createdAt + cfg.expirationSeconds * SECOND
    case Active =>
      lastPass <= row.expiresAt
        <= row.createdAt + (cfg.expirationSeconds + cfg.activeTimeoutSeconds) * SECOND + gap
    case _ => true
  }

  ghost predicate Timely(cfg: Settings, t: Tables, lastPass: int, gap: int) {
    forall g :: g in t.games ==> TimelyRow(cfg, t.games[g], lastPass, gap)
  }

  lemma CallIsTimely(cfg: Settings, t: Tables, s: Step, lastPass: int, gap: int, g: int)
    requires 0 <= cfg.expirationSeconds && 0 <= cfg.activeTimeoutSeconds
    requires TimeOf(s).Some? ==> lastPass <= TimeOf(s).value <= lastPass + gap
    requires g in Apply(cfg, t, s).games
    requires Timely(cfg, t, lastPass, gap)
    ensures TimelyRow(cfg, Apply(cfg, t, s).games[g], lastPass, gap)
  {
    hide Move, ReactionsOf, Fastest, FeeShares, Post, SameGame;
    if GameOf(s) != Some(g) {
      OthersSameRow(cfg, t, s, g);
    } else {
      MoveEffects(t, g);
    }
  }

  lemma OthersSameRow(cfg: Settings, t: Tables, s: Step, g: int)
    requires GameOf(s) != Some(g)
    ensures var t' := Apply(cfg, t, s);
            (g in t.games <==> g in t'.games) && (g in t.games ==> t'.games[g] == t.games[g])
  {
    hide Apply;
    OthersUntouched(cfg, t, s, g);
  }

  lemma PassIsTimely(cfg: Settings, t: Tables, now: int, waiting: seq<int>, active: seq<int>, lastPass: int, gap: int)
    requires lastPass <= now && Uncontended(cfg, t, now, waiting, active)
    requires Timely(cfg, t, lastPass, gap)
    requires Inv(t)
    ensures var t' := After(cfg, t, Pass(now, waiting, active));
            Inv(t') && Timely(cfg, t', now, gap)
  {
    hide Inv, Run;
    ListedAreClosed(cfg, t, true, waiting, now);
    ListedAreClosed(cfg, Run(cfg, t, ExpireAll(true, waiting, now)), false, active, now);
  }

  /** An uncontended scheduler pass leaves no open game whose deadline has come. */
  lemma PassClosesDueGames(cfg: Settings, t: Tables, now: int, waiting: seq<int>, active: seq<int>)
    requires Uncontended(cfg, t, now, waiting, active)
    requires Inv(t)
    ensures var t' := After(cfg, t, Pass(now, waiting, active));
            forall g :: g in t'.games && Open(t'.games[g]) ==> now < t'.games[g].expiresAt
  {
    hide Inv, Run;
    ListedAreClosed(cfg, t, true, waiting, now);
    ListedAreClosed(cfg, Run(cfg, t, ExpireAll(true, waiting, now)), false, active, now);
  }

  lemma {:induction false} RunIsTimely(
      cfg: Settings, t: Tables, events: seq<Event>, lastPass: int, clock: int, gap: int) returns (lastPass': int)
    requires 0 <= cfg.expirationSeconds && 0 <= cfg.activeTimeoutSeconds
    requires lastPass <= clock <= lastPass + gap && Regular(cfg, t, events, lastPass, clock, gap)
    requires Timely(cfg, t, lastPass, gap)
    requires Inv(t)
    ensures Timely(cfg, RunEvents(cfg, t, events), lastPass', gap)
    ensures EndOf(events, clock) <= lastPass' + gap
    decreases |events|
  {
    hide Inv, Apply, Run, TimelyRow, Uncontended;
    if events == [] {
      lastPass' := lastPass;
    } else {
      var e := events[0];
      match e
      case Call(s) =>
        ApplyKeepsInv(cfg, t, s);
        forall g | g in Apply(cfg, t, s).games ensures TimelyRow(cfg, Apply(cfg, t, s).games[g], lastPass, gap) {
          CallIsTimely(cfg, t, s, lastPass, gap, g);
        }
        lastPass' := RunIsTimely(cfg, After(cfg, t, e), events[1..], lastPass, Instant(e, clock), gap);
      case Pass(now, waiting, active) =>
        PassIsTimely(cfg, t, now, waiting, active, lastPass, gap);
        lastPass' := RunIsTimely(cfg, After(cfg, t, e), events[1..], now, now, gap);
    }
  }

  /** A game still open is younger than the waiting limit, the active limit and two pass gaps together. */
  lemma OpenGamesAreYoung(cfg: Settings, events: seq<Event>, start: int, gap: int, g: int)
    requires 0 <= cfg.expirationSeconds && 0 <= cfg.activeTimeoutSeconds && 0 <= gap
    requires Regular(cfg, EMPTY, events, start, start, gap)
    ensures var t := RunEvents(cfg, EMPTY, events);
            g in t.games && Open(t.games[g]) ==>
              EndOf(events, start)
              <= t.games[g].createdAt + (cfg.expirationSeconds + cfg.activeTimeoutSeconds) * SECOND + 2 * gap
  {
    hide Inv, RunEvents, Regular;
    EmptyInv();
    var lastPass' := RunIsTimely(cfg, EMPTY, events, start, start, gap);
  }
}

/** Renewing a VPN account whose panel may act on a call and lose the reply. */
module Renewal {
  import opened Options
  import opened Retry
  import opened VpnPanels

  /** One day, in the unit of the clock. */
  const DAY := 24 * 60 * 60

  /** The later of now and the current expiry, plus the days. */
  function NewExpire(current: Option<int>, now: int, days: int): int {
    (if current.Some? && current.value > now then current.value else now) + days * DAY
  }

  /** One renewal call: its arguments, its moment, and how each attempt ends. */
  datatype Renew = Renew(
    now: int, days: Option<int>, limit: Change<Option<nat>>, changes: nat -> Attempt, resets: nat -> Attempt)

  /** The account's panel and the local record of the account. */
  datatype World = World(accounts: Accounts, service: VpnService)

  function Expiry(service: VpnService, r: Renew): Change<Option<int>> {
    if r.days.Some? && r.days.value != 0 then SetTo(Some(NewExpire(service.expireAt, r.now, r.days.value))) else Keep
  }

  function Recorded(service: VpnService, info: Info): VpnService {
    service.(active := true, limit := info.account.limit, used := info.account.used, expireAt := info.account.expireAt)
  }

  function ModifyCall(w: World, r: Renew): PanelCall {
    ModifyUser(w.service.username, r.limit, Expiry(w.service, r), r.changes)
  }

  function ResetCall(w: World, r: Renew): PanelCall {
    ResetTraffic(w.service.username, r.resets)
  }

  predicate Renews(w: World, r: Renew) {
    Result(ModifyCall(w, r), w.accounts, MAX_ATTEMPTS).Success?
  }

  /** The world a renewal leaves; a failed one leaves the record alone but perhaps not the panel. */
  function Renewed(w: World, r: Renew): World {
    var modified := Left(ModifyCall(w, r), w.accounts, MAX_ATTEMPTS);
    match Result(ModifyCall(w, r), w.accounts, MAX_ATTEMPTS)
    case Failed(_) => w.(accounts := modified)
    case Success(info) =>
      if r.limit.Keep? then World(modified, Recorded(w.service, info))
      else
        World(Left(ResetCall(w, r), modified, MAX_ATTEMPTS),
              match Result(ResetCall(w, r), modified, MAX_ATTEMPTS)
              case Success(latest) => Recorded(w.service, latest)
              case Failed(_) => Recorded(w.service, info))
  }

  // ----- an attempt repeated -----

  predicate SomeLands(script: nat -> Attempt, n: nat) {
    exists k: nat :: 1 <= k <= n && Lands(script(k))
  }

  lemma LandsStep(script: nat -> Attempt, n: nat)
    requires 1 <= n
    ensures SomeLands(script, n) <==> SomeLands(script, n - 1) || Lands(script(n))
  {
  }

  /** Because the new values are absolute, any number of attempts that take effect leave what one would. */
  lemma {:induction false} ModifyIsIdempotent(username: string, limit: Change<Option<nat>>, expire: Change<Option<int>>,
                                              script: nat -> Attempt, accounts: Accounts, n: nat)
    requires username in accounts
    ensures After(ModifyUser(username, limit, expire, script), accounts, n)
         == if SomeLands(script, n) then accounts[username := Modified(accounts[username], limit, expire)] else accounts
  {
    if n > 0 {
      ModifyIsIdempotent(username, limit, expire, script, accounts, n - 1);
      LandsStep(script, n);
      var call := ModifyUser(username, limit, expire, script);
      var before := After(call, accounts, n - 1);
      var once := accounts[username := Modified(accounts[username], limit, expire)];
      assert call(before, n) == Put(before, username, Modified(before[username], limit, expire), script(n));
      assert once[username := once[username]] == once;
    }
  }

  lemma {:induction false} ResetIsIdempotent(username: string, script: nat -> Attempt, accounts: Accounts, n: nat)
    requires username in accounts
    ensures After(ResetTraffic(username, script), accounts, n)
         == if SomeLands(script, n) then accounts[username := accounts[username].(used := 0)] else accounts
  {
    if n > 0 {
      ResetIsIdempotent(username, script, accounts, n - 1);
      LandsStep(script, n);
      var call := ResetTraffic(username, script);
      var before := After(call, accounts, n - 1);
      var once := accounts[username := accounts[username].(used := 0)];
      assert call(before, n) == Put(before, username, before[username].(used := 0), script(n));
      assert once[username := once[username]] == once;
    }
  }

  /** What a retried change leaves and reports. */
  lemma ModifyOutcome(w: World, r: Renew)
    requires w.service.username in w.accounts
    ensures var u, n := w.service.username, Attempts(ModifyCall(w, r), w.accounts, MAX_ATTEMPTS);
            var changed := Modified(w.accounts[u], r.limit, Expiry(w.service, r));
            && Left(ModifyCall(w, r), w.accounts, MAX_ATTEMPTS)
               == (if SomeLands(r.changes, n) then w.accounts[u := changed] else w.accounts)
            && (Renews(w, r) <==> r.changes(n).Answered?)
            && (Renews(w, r) ==> SomeLands(r.changes, n)
                                 && Result(ModifyCall(w, r), w.accounts, MAX_ATTEMPTS) == Success(Info(u, changed)))
  {
    hide After, Attempts, SomeLands;
    var u, call := w.service.username, ModifyCall(w, r);
    var n := Attempts(call, w.accounts, MAX_ATTEMPTS);
    var expire := Expiry(w.service, r);
    ModifyIsIdempotent(u, r.limit, expire, r.changes, w.accounts, n);
    ModifyIsIdempotent(u, r.limit, expire, r.changes, w.accounts, n - 1);
    LandsStep(r.changes, n);
    var before := After(call, w.accounts, n - 1);
    assert call(before, n) == Put(before, u, Modified(before[u], r.limit, expire), r.changes(n));
  }

  /** What the retried traffic reset leaves and reports. */
  lemma ResetOutcome(w: World, r: Renew, accounts: Accounts)
    requires w.service.username in accounts
    ensures var u, n := w.service.username, Attempts(ResetCall(w, r), accounts, MAX_ATTEMPTS);
            var cleared := accounts[u].(used := 0);
            && Left(ResetCall(w, r), accounts, MAX_ATTEMPTS)
               == (if SomeLands(r.resets, n) then accounts[u := cleared] else accounts)
            && (Result(ResetCall(w, r), accounts, MAX_ATTEMPTS).Success? ==>
                  && SomeLands(r.resets, n)
                  && Result(ResetCall(w, r), accounts, MAX_ATTEMPTS) == Success(Info(u, cleared)))
  {
    hide After, Attempts, SomeLands;
    var u, call := w.service.username, ResetCall(w, r);
    var n := Attempts(call, accounts, MAX_ATTEMPTS);
    ResetIsIdempotent(u, r.resets, accounts, n);
    ResetIsIdempotent(u, r.resets, accounts, n - 1);
    LandsStep(r.resets, n);
    var before := After(call, accounts, n - 1);
    assert call(before, n) == Put(before, u, before[u].(used := 0), r.resets(n));
  }

  // ----- one renewal -----

  /** The local record shows the panel's expiry and limit. */
  predicate Agrees(w: World) {
    && w.service.username in w.accounts
    && w.service.expireAt == w.accounts[w.service.username].expireAt
    && w.service.limit == w.accounts[w.service.username].limit
  }

  /** However many attempts take effect with their replies lost, a renewal that reports success moved the
      panel's expiry to the one new date and the record agrees with the panel; one that reports failure left
      the record alone, and the panel has the new date exactly when some attempt took effect. */
  lemma RenewalExtendsOnce(w: World, r: Renew)
    requires w.service.username in w.accounts
    ensures var u, w' := w.service.username, Renewed(w, r);
            && w'.service.username == u && u in w'.accounts
            && (Renews(w, r) ==>
                  && Agrees(w') && w'.service.active && w'.accounts[u].active
                  && w'.accounts[u].expireAt == Changed(w.accounts[u].expireAt, Expiry(w.service, r))
                  && w'.accounts[u].limit == Changed(w.accounts[u].limit, r.limit))
            && (!Renews(w, r) ==>
                  && w'.service == w.service
                  && w'.accounts[u] == if SomeLands(r.changes, Attempts(ModifyCall(w, r), w.accounts, MAX_ATTEMPTS))
                                       then Modified(w.accounts[u], r.limit, Expiry(w.service, r)) else w.accounts[u])
            && (forall v :: v in w.accounts && v != u ==> v in w'.accounts && w'.accounts[v] == w.accounts[v])
  {
    hide Left, Result, Attempts, SomeLands, ModifyCall, ResetCall, Expiry;
    ModifyOutcome(w, r);
    var modified := Left(ModifyCall(w, r), w.accounts, MAX_ATTEMPTS);
    ResetOutcome(w, r, modified);
  }

  /** A successful renewal by `d` days ends `d` times 86,400 seconds after the recorded expiry or after now, whichever
      is later; one that asks for no days leaves the panel's date. */
  lemma RenewalDate(w: World, r: Renew)
    requires w.service.username in w.accounts && Renews(w, r)
    ensures w.service.username in Renewed(w, r).accounts
    ensures var was, e := w.service.expireAt, Renewed(w, r).accounts[w.service.username].expireAt;
            if r.days == None || r.days == Some(0) then e == w.accounts[w.service.username].expireAt
            else
              var added := r.days.value * 86_400;
              && e.Some? && r.now + added <= e.value && (was.Some? ==> was.value + added <= e.value)
              && (e.value == r.now + added || (was.Some? && e.value == was.value + added))
  {
    hide Renews, Renewed;
    RenewalExtendsOnce(w, r);
  }

  /** A renewal keeps whose account it is, where it lives and what it was bought with. */
  lemma RenewalKeepsOwner(w: World, r: Renew)
    ensures var s, s' := w.service, Renewed(w, r).service;
            && s'.user == s.user && s'.panel == s.panel && s'.order == s.order && s'.product == s.product
            && s'.username == s.username
  {
    hide Left, Result;
  }

  /** After a successful renewal the recorded usage is the panel's unless a traffic reset took effect whose
      reply was lost for good and which had something to clear. */
  lemma UsageAgreesUnlessResetLost(w: World, r: Renew)
    requires w.service.username in w.accounts && Renews(w, r)
    ensures var u, w' := w.service.username, Renewed(w, r);
            var modified := Left(ModifyCall(w, r), w.accounts, MAX_ATTEMPTS);
            && u in w'.accounts
            && (w'.service.used == w'.accounts[u].used
                <==> !(&& r.limit.SetTo? && w.accounts[u].used != 0
                       && Result(ResetCall(w, r), modified, MAX_ATTEMPTS).Failed?
                       && SomeLands(r.resets, Attempts(ResetCall(w, r), modified, MAX_ATTEMPTS))))
  {
    hide Left, Result, Attempts, SomeLands, ModifyCall, ResetCall, Expiry;
    ModifyOutcome(w, r);
    var modified := Left(ModifyCall(w, r), w.accounts, MAX_ATTEMPTS);
    ResetOutcome(w, r, modified);
  }

  // ----- runs of renewals -----

  function Max(a: int, b: int): int {
    if a < b then b else a
  }

  /** The expiry after renewals of `days` days at the given times, one after the other. */
  function Chain(e0: int, times: seq<int>, days: int): int {
    if times == [] then e0 else Max(Chain(e0, times[..|times| - 1], days), times[|times| - 1]) + days * DAY
  }

  /** The candidates of the closed form: all renewals stacked on the old expiry, and all renewals from the
      `i`th on stacked on its moment. */
  function Candidate(e0: int, times: seq<int>, days: int, i: nat): int
    requires i <= |times|
  {
    if i == |times| then e0 + |times| * (days * DAY) else times[i] + (|times| - i) * (days * DAY)
  }

  /** The expiry is the greatest of the candidates. */
  lemma {:induction false} ChainIsGreatest(e0: int, times: seq<int>, days: int)
    returns (at: nat)
    ensures at <= |times| && Chain(e0, times, days) == Candidate(e0, times, days, at)
    ensures forall i :: 0 <= i <= |times| ==> Candidate(e0, times, days, i) <= Chain(e0, times, days)
  {
    if times == [] {
      at := 0;
    } else {
      var n := |times| - 1;
      var front := times[..n];
      var was := ChainIsGreatest(e0, front, days);
      forall i | 0 <= i <= |times|
        ensures i < n ==> Candidate(e0, times, days, i) == Candidate(e0, front, days, i) + days * DAY
        ensures i == n ==> Candidate(e0, times, days, i) == times[n] + days * DAY
        ensures i == n + 1 ==> Candidate(e0, times, days, i) == Candidate(e0, front, days, n) + days * DAY
      {
        Stack(n - i, days * DAY);
        Stack(n, days * DAY);
      }
      at := if Chain(e0, front, days) < times[n] then n else if was == n then n + 1 else was;
    }
  }

  lemma Stack(n: int, step: int)
    ensures (n + 1) * step == n * step + step
  {
  }

  /** No time is lost exactly when every renewal came before the expiry it extended. */
  lemma {:induction false} EarlyRenewalsLoseNothing(e0: int, times: seq<int>, days: int)
    requires 0 <= days
    ensures Chain(e0, times, days) >= e0 + |times| * (days * DAY)
    ensures Chain(e0, times, days) == e0 + |times| * (days * DAY)
            <==> forall i :: 0 <= i < |times| ==> times[i] <= e0 + i * (days * DAY)
  {
    if times != [] {
      var n := |times| - 1;
      var front := times[..n];
      EarlyRenewalsLoseNothing(e0, front, days);
      Stack(n, days * DAY);
      assert forall i :: 0 <= i < n ==> front[i] == times[i];
      if Chain(e0, times, days) == e0 + |times| * (days * DAY) {
        assert Max(Chain(e0, front, days), times[n]) == e0 + n * (days * DAY);
      }
    }
  }

  function RenewRun(w: World, rs: seq<Renew>): World
    decreases |rs|
  {
    if rs == [] then w else Renewed(RenewRun(w, rs[..|rs| - 1]), rs[|rs| - 1])
  }

  /** The moments of the renewals of a run that succeeded. */
  function Successes(w: World, rs: seq<Renew>): seq<int>
    decreases |rs|
  {
    if rs == [] then []
    else
      var front, last := rs[..|rs| - 1], rs[|rs| - 1];
      if Renews(RenewRun(w, front), last) then Successes(w, front) + [last.now] else Successes(w, front)
  }

  predicate EachBy(rs: seq<Renew>, days: int) {
    forall i :: 0 <= i < |rs| ==> rs[i].days == Some(days)
  }

  /** Over any run of renewals of an account with an expiry, lost replies, failed calls and retries
      notwithstanding, the recorded expiry counts exactly the renewals that reported success. */
  lemma {:induction false} RunCountsSuccesses(w: World, rs: seq<Renew>, days: int)
    requires w.service.username in w.accounts && w.service.expireAt.Some?
    requires 0 < days && EachBy(rs, days)
    ensures RenewRun(w, rs).service.username == w.service.username
    ensures w.service.username in RenewRun(w, rs).accounts
    ensures RenewRun(w, rs).service.expireAt == Some(Chain(w.service.expireAt.value, Successes(w, rs), days))
    decreases |rs|
  {
    hide Renews, Renewed;
    if rs != [] {
      var front, last := rs[..|rs| - 1], rs[|rs| - 1];
      RunCountsSuccesses(w, front, days);
      RenewalExtendsOnce(RenewRun(w, front), last);
      var s := Successes(w, front);
      assert (s + [last.now])[..|s|] == s;
    }
  }

  /** The closed form of a run: with `n` successful renewals at `t1 .. tn`, the recorded expiry is the greatest
      of `e0 + n days` and of every `ti + (n - i + 1) days`. */
  lemma RenewalClosedForm(w: World, rs: seq<Renew>, days: int)
    returns (at: nat)
    requires w.service.username in w.accounts && w.service.expireAt.Some?
    requires 0 < days && EachBy(rs, days)
    ensures var ts, e0, e := Successes(w, rs), w.service.expireAt.value, RenewRun(w, rs).service.expireAt;
            && at <= |ts| && e == Some(Candidate(e0, ts, days, at))
            && (forall i :: 0 <= i <= |ts| ==> Candidate(e0, ts, days, i) <= e.value)
  {
    hide *;
    RunCountsSuccesses(w, rs, days);
    at := ChainIsGreatest(w.service.expireAt.value, Successes(w, rs), days);
  }

  predicate InTimeOrder(rs: seq<Renew>) {
    forall i, j :: 0 <= i < j < |rs| ==> rs[i].now <= rs[j].now
  }

  predicate Covers(expiry: Option<int>, moment: int) {
    expiry.Some? && moment <= expiry.value
  }

  /** Every renewal adds days, and never fewer than the one before it. */
  predicate DaysNeverFall(rs: seq<Renew>) {
    && (forall i :: 0 <= i < |rs| ==> rs[i].days.Some? && 0 < rs[i].days.value)
    && (forall i, j :: 0 <= i < j < |rs| ==> rs[i].days.value <= rs[j].days.value)
  }

  /** Exactly when a renewal makes the panel's expiry `p` earlier: it asks for days, some attempt takes effect,
      and the new date, counted from the record, lies before `p`. */
  lemma ShortensExactly(w: World, r: Renew, p: int)
    requires w.service.username in w.accounts && w.accounts[w.service.username].expireAt == Some(p)
    ensures var u, w' := w.service.username, Renewed(w, r);
            && u in w'.accounts && w'.accounts[u].expireAt.Some?
            && (w'.accounts[u].expireAt.value < p
                <==> && r.days.Some? && r.days.value != 0
                     && SomeLands(r.changes, Attempts(ModifyCall(w, r), w.accounts, MAX_ATTEMPTS))
                     && NewExpire(w.service.expireAt, r.now, r.days.value) < p)
  {
    hide Renews, Renewed, SomeLands, Attempts, Result, Left;
    RenewalExtendsOnce(w, r);
    ModifyOutcome(w, r);
  }

  /** In a run whose days never fall no renewal, whether it reports success or failure, shortens the access the
      panel grants, and the panel is never more than one unrecorded renewal ahead of the record. */
  lemma {:induction false} AccessNeverShrinks(w: World, rs: seq<Renew>)
    requires Agrees(w) && w.service.expireAt.Some?
    requires DaysNeverFall(rs) && InTimeOrder(rs)
    ensures var u, w' := w.service.username, RenewRun(w, rs);
            && w'.service.username == u && u in w'.accounts && w'.service.expireAt.Some?
            && Covers(w'.accounts[u].expireAt, w'.service.expireAt.value)
            && (w'.accounts[u].expireAt == w'.service.expireAt
                || (rs != [] && w'.accounts[u].expireAt.value
                                <= NewExpire(w'.service.expireAt, rs[|rs| - 1].now, rs[|rs| - 1].days.value)))
            && (rs != [] ==>
                  var before := RenewRun(w, rs[..|rs| - 1]);
                  u in before.accounts && before.accounts[u].expireAt.Some?
                  && Covers(w'.accounts[u].expireAt, before.accounts[u].expireAt.value))
    decreases |rs|
  {
    hide Renews, Renewed;
    if rs != [] {
      var front, last := rs[..|rs| - 1], rs[|rs| - 1];
      AccessNeverShrinks(w, front);
      RenewalExtendsOnce(RenewRun(w, front), last);
      if front != [] {
        var previous := front[|front| - 1];
        assert previous.now <= last.now && previous.days.value <= last.days.value;
        assert previous.days.value * DAY <= last.days.value * DAY;
      }
    }
  }

  /** So no run of such renewals leaves less access than there was before it. */
  lemma {:induction false} AccessOutlastsStart(w: World, rs: seq<Renew>)
    requires Agrees(w) && w.service.expireAt.Some?
    requires DaysNeverFall(rs) && InTimeOrder(rs)
    ensures var u, w' := w.service.username, RenewRun(w, rs);
            u in w'.accounts && Covers(w'.accounts[u].expireAt, w.service.expireAt.value)
    decreases |rs|
  {
    hide Renewed;
    AccessNeverShrinks(w, rs);
    if rs != [] {
      AccessOutlastsStart(w, rs[..|rs| - 1]);
    }
  }

  /** A renewal that took effect but was reported failed, followed by a successful one: the second sets the panel
      back exactly when its date, counted from the same record, is the earlier one.  While the old expiry lies
      ahead, that is exactly when it is for fewer days. */
  lemma SecondRenewalShortensExactly(w: World, lost: Renew, next: Renew, e0: int, first: int, second: int)
    requires Agrees(w) && w.service.expireAt == Some(e0)
    requires first != 0 && second != 0 && lost.days == Some(first) && next.days == Some(second)
    requires !Renews(w, lost) && SomeLands(lost.changes, Attempts(ModifyCall(w, lost), w.accounts, MAX_ATTEMPTS))
    requires Renews(Renewed(w, lost), next)
    ensures var u, failed, renewed := w.service.username, Renewed(w, lost), Renewed(Renewed(w, lost), next);
            && u in failed.accounts && failed.accounts[u].expireAt == Some(NewExpire(Some(e0), lost.now, first))
            && u in renewed.accounts && renewed.accounts[u].expireAt == Some(NewExpire(Some(e0), next.now, second))
            && (lost.now <= e0 && next.now <= e0 ==>
                  (renewed.accounts[u].expireAt.value < failed.accounts[u].expireAt.value <==> second < first))
  {
    hide Renews, Renewed, SomeLands, Attempts, ModifyCall;
    RenewalExtendsOnce(w, lost);
    RenewalExtendsOnce(Renewed(w, lost), next);
  }
}

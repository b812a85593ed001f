/** Creating a VPN account: the panels are tried in order, each with retries, until one answers. */
module Provisioning {
  import opened Options
  import opened Retry
  import opened Sorting
  import opened VpnPanels

  /** What is asked of every panel, and how each attempt on each panel ends. */
  datatype Request = Request(
    username: string, limit: Option<nat>, expireAt: Option<int>, weather: (int, nat) -> Attempt)

  type Remote = map<int, Accounts>

  predicate AllReachable(panels: seq<Panel>, remote: Remote) {
    forall p :: p in panels ==> p.id in remote
  }

  function CreateOn(req: Request, p: Panel): PanelCall {
    CreateUser(req.username, NewAccount(req.limit, req.expireAt), (k: nat) => req.weather(p.id, k))
  }

  predicate Succeeds(req: Request, p: Panel, accounts: Accounts) {
    Result(CreateOn(req, p), accounts, MAX_ATTEMPTS).Success?
  }

  /** One panel's turn: how many attempts it got and the waits between them. */
  datatype Trial = Trial(panel: int, attempts: nat, waits: seq<real>)

  function TrialOf(req: Request, p: Panel, accounts: Accounts): Trial {
    var n := Attempts(CreateOn(req, p), accounts, MAX_ATTEMPTS);
    Trial(p.id, n, Delays(BASE_DELAY, n - 1))
  }

  function AfterTrial(req: Request, p: Panel, remote: Remote): Remote
    requires p.id in remote
  {
    remote[p.id := Left(CreateOn(req, p), remote[p.id], MAX_ATTEMPTS)]
  }

  /** What the search through a list of panels leaves and finds. */
  datatype Search = Search(remote: Remote, trials: seq<Trial>, chosen: Option<Panel>)

  function SearchPanels(req: Request, ps: seq<Panel>, remote: Remote): (r: Search)
    requires AllReachable(ps, remote)
    ensures r.remote.Keys == remote.Keys
    decreases |ps|
  {
    if ps == [] then Search(remote, [], None)
    else
      var p := ps[0];
      var after := AfterTrial(req, p, remote);
      if Succeeds(req, p, remote[p.id]) then Search(after, [TrialOf(req, p, remote[p.id])], Some(p))
      else
        var rest := SearchPanels(req, ps[1..], after);
        rest.(trials := [TrialOf(req, p, remote[p.id])] + rest.trials)
  }

  function Provision(req: Request, panels: seq<Panel>, remote: Remote): Search
    requires AllReachable(panels, remote) && DistinctIds(panels)
  {
    PickedInOrder(panels);
    SearchPanels(req, PickPanels(panels), remote)
  }

  /** Trying the first panel of a list leaves the others as they were. */
  lemma OthersUntried(req: Request, ps: seq<Panel>, remote: Remote)
    requires ps != [] && AllReachable(ps, remote) && DistinctIds(ps)
    ensures ps[0].id in remote && DistinctIds(ps[1..])
    ensures var after := AfterTrial(req, ps[0], remote);
            && AllReachable(ps[1..], after)
            && forall i :: 0 < i < |ps| ==> ps[i].id in remote && after[ps[i].id] == remote[ps[i].id]
  {
    hide Left, CreateOn;
    assert forall i :: 0 <= i < |ps| ==> ps[i] in ps;
  }

  /** The search stops at the first panel that succeeds: `k` panels failed, and at most one more was tried. */
  lemma {:induction false} SearchStops(req: Request, ps: seq<Panel>, remote: Remote)
    returns (k: nat)
    requires AllReachable(ps, remote) && DistinctIds(ps)
    ensures k <= |ps|
    ensures forall i :: 0 <= i < k ==> !Succeeds(req, ps[i], remote[ps[i].id])
    ensures k < |ps| ==> Succeeds(req, ps[k], remote[ps[k].id])
    ensures var s := SearchPanels(req, ps, remote);
            && s.chosen == (if k < |ps| then Some(ps[k]) else None)
            && |s.trials| == (if k < |ps| then k + 1 else k)
            && (forall i :: 0 <= i < |s.trials| ==> s.trials[i] == TrialOf(req, ps[i], remote[ps[i].id]))
    decreases |ps|
  {
    hide Succeeds, TrialOf, AfterTrial, DistinctIds;
    if ps == [] || Succeeds(req, ps[0], remote[ps[0].id]) {
      k := 0;
    } else {
      OthersUntried(req, ps, remote);
      var after := AfterTrial(req, ps[0], remote);
      var n := SearchStops(req, ps[1..], after);
      k := n + 1;
      var s, rest := SearchPanels(req, ps, remote), SearchPanels(req, ps[1..], after);
      assert s.trials == [TrialOf(req, ps[0], remote[ps[0].id])] + rest.trials;
    }
  }

  /** Each panel that was tried is left as its own retried call leaves it; no other panel changes. */
  lemma {:induction false} SearchLeaves(req: Request, ps: seq<Panel>, remote: Remote)
    requires AllReachable(ps, remote) && DistinctIds(ps)
    ensures var s := SearchPanels(req, ps, remote);
            && |s.trials| <= |ps|
            && (forall i :: 0 <= i < |s.trials| ==>
                  s.remote[ps[i].id] == Left(CreateOn(req, ps[i]), remote[ps[i].id], MAX_ATTEMPTS))
            && (forall id :: id in remote && (forall i :: 0 <= i < |s.trials| ==> ps[i].id != id)
                             ==> s.remote[id] == remote[id])
    decreases |ps|
  {
    hide Succeeds, TrialOf, Left, CreateOn;
    if ps != [] && !Succeeds(req, ps[0], remote[ps[0].id]) {
      OthersUntried(req, ps, remote);
      var after := AfterTrial(req, ps[0], remote);
      SearchLeaves(req, ps[1..], after);
      var s, rest := SearchPanels(req, ps, remote), SearchPanels(req, ps[1..], after);
      assert s.remote == rest.remote && |s.trials| == |rest.trials| + 1;
      assert forall i :: 0 <= i < |rest.trials| ==> ps[1..][i] == ps[i + 1];
    }
  }

  /** The account is created on exactly the least active panel, by priority, health and id, whose retried
      call succeeds, and nowhere exactly when every active panel fails. */
  lemma FailoverPicksLeast(req: Request, panels: seq<Panel>, remote: Remote, p: Panel)
    requires AllReachable(panels, remote) && DistinctIds(panels)
    ensures Provision(req, panels, remote).chosen == Some(p)
            <==> && p in panels && p.active && Succeeds(req, p, remote[p.id])
                 && (forall q :: q in panels && q.active && Before(q, p) ==> !Succeeds(req, q, remote[q.id]))
    ensures Provision(req, panels, remote).chosen == None
            <==> forall q :: q in panels && q.active ==> !Succeeds(req, q, remote[q.id])
  {
    hide *;
    PickedInOrder(panels);
    PickedDistinct(panels);
    ProvisionSearches(req, panels, remote);
    var ps := PickPanels(panels);
    ReachableIds(ps, remote);
    var k := SearchStops(req, ps, remote);
    var good := (q: Panel) => q.id in remote && Succeeds(req, q, remote[q.id]);
    assert forall q :: q in ps ==> good(q) == Succeeds(req, q, remote[q.id]);
    assert forall i :: 0 <= i < |ps| ==> ps[i] in ps;
    LeastGood(ps, good, k, p);
  }

  lemma ProvisionSearches(req: Request, panels: seq<Panel>, remote: Remote)
    requires AllReachable(panels, remote) && DistinctIds(panels)
    ensures AllReachable(PickPanels(panels), remote)
    ensures Provision(req, panels, remote) == SearchPanels(req, PickPanels(panels), remote)
  {
    hide PickPanels, SearchPanels;
    PickedInOrder(panels);
  }

  lemma ReachableIds(panels: seq<Panel>, remote: Remote)
    requires AllReachable(panels, remote)
    ensures forall p :: p in panels ==> p.id in remote
  {
  }

  /** In a list in order, the first good panel is the least good one. */
  lemma LeastGood(ps: seq<Panel>, good: Panel -> bool, k: nat, p: Panel)
    requires Ordered(ps, Before) && k <= |ps|
    requires forall i :: 0 <= i < k ==> !good(ps[i])
    requires k < |ps| ==> good(ps[k])
    ensures (k < |ps| && ps[k] == p)
            <==> p in ps && good(p) && forall q :: q in ps && Before(q, p) ==> !good(q)
    ensures k == |ps| <==> forall q :: q in ps ==> !good(q)
  {
    if p in ps && good(p) {
      var i :| 0 <= i < |ps| && ps[i] == p;
      assert k <= i;
      assert k < i ==> Before(ps[k], p);
    }
    if k < |ps| && ps[k] == p {
      forall q | q in ps && Before(q, p)
        ensures !good(q)
      {
        var i :| 0 <= i < |ps| && ps[i] == q;
        assert k < i ==> Before(p, q);
      }
    }
  }

  lemma PickedDistinct(panels: seq<Panel>)
    requires DistinctIds(panels)
    ensures DistinctIds(PickPanels(panels))
  {
    hide PickPanels;
    PickedInOrder(panels);
    var ps := PickPanels(panels);
    forall i, j | 0 <= i < j < |ps|
      ensures ps[i].id != ps[j].id
    {
      assert Before(ps[i], ps[j]);
      assert ps[i] in ps && ps[j] in ps;
      var a :| 0 <= a < |panels| && panels[a] == ps[i];
      var b :| 0 <= b < |panels| && panels[b] == ps[j];
    }
  }

  /** Panels are tried in order, at most four times each with waits of 1, 2 and 4, and a panel that is left
      behind refused outright or failed four times in a way worth retrying. */
  lemma TrialsAreBounded(req: Request, panels: seq<Panel>, remote: Remote, i: nat)
    requires AllReachable(panels, remote) && DistinctIds(panels)
    requires i < |Provision(req, panels, remote).trials|
    ensures i < |PickPanels(panels)| && PickPanels(panels)[i].id in remote
    ensures var s, p := Provision(req, panels, remote), PickPanels(panels)[i];
            var n, call := s.trials[i].attempts, CreateOn(req, p);
            && s.trials[i].panel == p.id && 1 <= n <= 4
            && s.trials[i].waits == [1.0, 2.0, 4.0][..n - 1]
            && (forall j | 1 <= j < n :: At(call, remote[p.id], j).Failed? && At(call, remote[p.id], j).retryable)
            && (s.chosen == Some(p) <==> At(call, remote[p.id], n).Success?)
            && (s.chosen != Some(p) ==> n == 4 || !At(call, remote[p.id], n).retryable)
  {
    hide PickPanels, SearchPanels, At, CreateOn;
    PickedInOrder(panels);
    PickedDistinct(panels);
    var ps := PickPanels(panels);
    var k := SearchStops(req, ps, remote);
    assert ps[i] in ps;
    var call, n := CreateOn(req, ps[i]), Provision(req, panels, remote).trials[i].attempts;
    RetryOutcome(call, remote[ps[i].id], MAX_ATTEMPTS);
    assert Stops(call, remote[ps[i].id], MAX_ATTEMPTS, n);
    FewDelays(n - 1);
  }

  lemma FewDelays(n: nat)
    requires n <= 3
    ensures Delays(BASE_DELAY, n) == [1.0, 2.0, 4.0][..n]
  {
    assert Power2(0) == 1 && Power2(1) == 2 && Power2(2) == 4;
  }

  /** An account that was reported created is on the chosen panel as asked, active and unused, and no untried panel
      changed. */
  lemma CreatedAsAsked(req: Request, panels: seq<Panel>, remote: Remote)
    requires AllReachable(panels, remote) && DistinctIds(panels)
    ensures var s := Provision(req, panels, remote);
            && s.remote.Keys == remote.Keys
            && (s.chosen.Some? ==> s.chosen.value.id in s.remote
                                   && req.username in s.remote[s.chosen.value.id]
                                   && s.remote[s.chosen.value.id][req.username]
                                      == Account(req.expireAt, req.limit, 0, true))
            && (forall id :: id in remote && (forall t :: t in s.trials ==> t.panel != id)
                             ==> s.remote[id] == remote[id])
  {
    hide PickPanels, SearchPanels;
    PickedInOrder(panels);
    PickedDistinct(panels);
    var ps := PickPanels(panels);
    var k := SearchStops(req, ps, remote);
    SearchLeaves(req, ps, remote);
    var s := Provision(req, panels, remote);
    assert forall i :: 0 <= i < |s.trials| ==> s.trials[i] in s.trials && s.trials[i].panel == ps[i].id;
    if k < |ps| {
      assert ps[k] in ps;
      CreatedByRetry(req, ps[k], remote[ps[k].id]);
    }
  }

  lemma CreatedByRetry(req: Request, p: Panel, accounts: Accounts)
    requires Succeeds(req, p, accounts)
    ensures Result(CreateOn(req, p), accounts, MAX_ATTEMPTS)
         == Success(Info(req.username, NewAccount(req.limit, req.expireAt)))
    ensures var left := Left(CreateOn(req, p), accounts, MAX_ATTEMPTS);
            req.username in left && left[req.username] == NewAccount(req.limit, req.expireAt)
  {
    hide After, Attempts;
    var call := CreateOn(req, p);
    var n := Attempts(call, accounts, MAX_ATTEMPTS);
    var before := After(call, accounts, n - 1);
    AfterStep(call, accounts, n);
    var account := NewAccount(req.limit, req.expireAt);
    assert call(before, n) == Put(before, req.username, account, req.weather(p.id, n));
  }

  lemma AfterStep<S, T>(func: (S, nat) -> Reply<S, T>, s: S, k: nat)
    requires 1 <= k
    ensures After(func, s, k) == func(After(func, s, k - 1), k).state
  {
  }
}

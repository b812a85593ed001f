/** The service that creates and renews VPN accounts. */
module VpnServices {
  import opened Options
  import opened Retry
  import opened VpnPanels
  import opened Provisioning
  import opened Renewal

  datatype VpnError = ServiceNotFound | NoAvailablePanel | ProviderFailed

  function FindPanel(panels: seq<Panel>, id: int): (r: Option<Panel>)
    ensures r.Some? ==> r.value in panels && r.value.id == id
    ensures r == None ==> forall p :: p in panels ==> p.id != id
  {
    if panels == [] then None
    else if panels[0].id == id then Some(panels[0])
    else FindPanel(panels[1..], id)
  }

  /** Why a renewal is refused before the panel is called. */
  function RenewRefusal(panels: seq<Panel>, services: map<int, VpnService>, id: int): Option<VpnError> {
    if id !in services then Some(ServiceNotFound)
    else
      var panel := FindPanel(panels, services[id].panel);
      if panel == None || !panel.value.active then Some(NoAvailablePanel) else None
  }

  /** A renewal reaches its panel exactly when the service is known and the panel it lives on is active. */
  lemma RenewalReachesPanel(panels: seq<Panel>, services: map<int, VpnService>, id: int)
    requires DistinctIds(panels)
    ensures RenewRefusal(panels, services, id) == None
            <==> id in services && exists p :: p in panels && p.id == services[id].panel && p.active
    ensures RenewRefusal(panels, services, id) == Some(ServiceNotFound) <==> id !in services
  {
    hide FindPanel;
    if id in services {
      var found := FindPanel(panels, services[id].panel);
      forall p | p in panels && p.id == services[id].panel
        ensures found == Some(p)
      {
        var i :| 0 <= i < |panels| && panels[i] == p;
        var j :| 0 <= j < |panels| && panels[j] == found.value;
      }
    }
  }

  function ServiceFor(user: int, order: Option<int>, product: Option<int>, panel: int, info: Info): VpnService {
    VpnService(user, panel, order, product, info.username, true, info.account.limit, info.account.used,
               info.account.expireAt)
  }

  /** What a panel answers when it has created the account. */
  function Created(req: Request): Info {
    Info(req.username, NewAccount(req.limit, req.expireAt))
  }

  /** The record shows the account its panel holds, column by column. */
  predicate ShowsPanel(remote: Remote, s: VpnService) {
    && s.panel in remote && s.username in remote[s.panel]
    && remote[s.panel][s.username] == Account(s.expireAt, s.limit, s.used, s.active)
  }

  /** The record of a created account names its buyer, order and product and the least active panel that answers, and
      shows what was asked for as the panel holds it. */
  lemma ProvisionedShowsPanel(req: Request, panels: seq<Panel>, remote: Remote, p: Panel,
                              user: int, order: Option<int>, product: Option<int>, s: VpnService)
    requires AllReachable(panels, remote) && DistinctIds(panels)
    requires Provision(req, panels, remote).chosen == Some(p)
    requires s == ServiceFor(user, order, product, p.id, Created(req))
    ensures p in panels && p.active && Succeeds(req, p, remote[p.id])
    ensures forall q :: q in panels && q.active && Before(q, p) ==> !Succeeds(req, q, remote[q.id])
    ensures s == VpnService(user, p.id, order, product, req.username, true, req.limit, 0, req.expireAt)
    ensures var left := Provision(req, panels, remote).remote;
            ShowsPanel(left, s) && Agrees(World(left[s.panel], s))
  {
    hide Provision, Succeeds, DistinctIds, AllReachable;
    FailoverPicksLeast(req, panels, remote, p);
    CreatedAsAsked(req, panels, remote);
  }

  /** What the renewals promise holds of every account the service itself created: after any run of renewals the record
      counts the successful ones from the date first asked for, and while the days never fall the panel never grants
      less than that date. */
  lemma ProvisionedRenewals(req: Request, panels: seq<Panel>, remote: Remote, p: Panel,
                            user: int, order: Option<int>, product: Option<int>, rs: seq<Renew>, days: int, w: World)
    requires AllReachable(panels, remote) && DistinctIds(panels) && p.id in remote
    requires Provision(req, panels, remote).chosen == Some(p) && req.expireAt.Some?
    requires p.id in Provision(req, panels, remote).remote
    requires w == World(Provision(req, panels, remote).remote[p.id],
                        ServiceFor(user, order, product, p.id, Created(req)))
    ensures 0 < days && EachBy(rs, days)
            ==> RenewRun(w, rs).service.expireAt == Some(Chain(req.expireAt.value, Successes(w, rs), days))
    ensures DaysNeverFall(rs) && InTimeOrder(rs)
            ==> && req.username in RenewRun(w, rs).accounts
                && Covers(RenewRun(w, rs).accounts[req.username].expireAt, req.expireAt.value)
  {
    hide Provision, RenewRun, Chain, Successes, EachBy, DaysNeverFall, InTimeOrder, AllReachable, DistinctIds;
    ProvisionedShowsPanel(req, panels, remote, p, user, order, product, w.service);
    if 0 < days && EachBy(rs, days) { RunCountsSuccesses(w, rs, days); }
    if DaysNeverFall(rs) && InTimeOrder(rs) { AccessOutlastsStart(w, rs); }
  }

  class VPNProvisioningService {
    var panels: seq<Panel>
    var services: map<int, VpnService>
    /** The user tables of the panels. */
    var remote: Remote
    /** The panels asked so far. */
    var trials: seq<Trial>

    ghost predicate Valid()
      reads this
    {
      AllReachable(panels, remote) && DistinctIds(panels)
    }

    constructor (panels: seq<Panel>, remote: Remote)
      requires AllReachable(panels, remote) && DistinctIds(panels)
      ensures this.panels == panels && this.remote == remote && services == map[] && trials == [] && Valid()
    {
      this.panels, this.remote, services, trials := panels, remote, map[], [];
    }

    method CallWithRetry(p: Panel, call: PanelCall) returns (result: Outcome<Info>, attempts: nat, waits: seq<real>)
      requires p.id in remote
      modifies this`remote
      ensures remote == old(remote)[p.id := Left(call, old(remote[p.id]), MAX_ATTEMPTS)]
      ensures result == Result(call, old(remote[p.id]), MAX_ATTEMPTS)
      ensures attempts == Attempts(call, old(remote[p.id]), MAX_ATTEMPTS) && waits == Delays(BASE_DELAY, attempts - 1)
      ensures old(Valid()) ==> Valid()
    {
      var accounts;
      accounts, result, attempts, waits := RetryProviderCall(call, remote[p.id], MAX_ATTEMPTS, BASE_DELAY);
      remote := remote[p.id := accounts];
    }

    /** Creates the account on the first panel that answers and records the service under `id`. */
    method ProvisionForUser(user: int, order: Option<int>, product: Option<int>, id: int, req: Request)
      returns (error: Option<VpnError>)
      requires Valid() && id !in services
      modifies this`services, this`remote, this`trials
      ensures Valid()
      ensures var s := Provision(req, panels, old(remote));
              && remote == s.remote && trials == old(trials) + s.trials
              && error == (if s.chosen == None then Some(NoAvailablePanel) else None)
              && services == (if s.chosen == None then old(services)
                              else old(services)[id := ServiceFor(user, order, product, s.chosen.value.id,
                                                                  Created(req))])
      ensures error == None ==>
                && id in services && ShowsPanel(remote, services[id])
                && services[id] == VpnService(user, services[id].panel, order, product, req.username, true,
                                              req.limit, 0, req.expireAt)
    {
      hide Result, Left, Attempts, Delays, PickPanels, SearchPanels, Provision, DistinctIds, CreateOn;
      ProvisionSearches(req, panels, remote);
      var picked := PickPanels(panels);
      ghost var s := SearchPanels(req, picked, remote);
      assert picked[0..] == picked;
      var i := 0;
      while i < |picked|
        invariant 0 <= i <= |picked|
        invariant Valid() && AllReachable(picked, remote) && services == old(services)
        invariant s.remote == SearchPanels(req, picked[i..], remote).remote
        invariant s.chosen == SearchPanels(req, picked[i..], remote).chosen
        invariant old(trials) + s.trials == trials + SearchPanels(req, picked[i..], remote).trials
      {
        var p := picked[i];
        ghost var before := remote;
        SearchUnfolds(req, picked, i, before);
        var result, attempts, waits := CallWithRetry(p, CreateOn(req, p));
        trials := trials + [Trial(p.id, attempts, waits)];
        if result.Success? {
          CreatedByRetry(req, p, before[p.id]);
          services := services[id := ServiceFor(user, order, product, p.id, result.value)];
          return None;
        }
        i := i + 1;
      }
      SearchNothing(req, remote);
      return Some(NoAvailablePanel);
    }

    lemma SearchUnfolds(req: Request, ps: seq<Panel>, i: nat, remote: Remote)
      requires i < |ps| && AllReachable(ps, remote)
      ensures ps[i].id in remote && AllReachable(ps, AfterTrial(req, ps[i], remote))
      ensures var p, after := ps[i], AfterTrial(req, ps[i], remote);
              var s, rest := SearchPanels(req, ps[i..], remote), SearchPanels(req, ps[i + 1..], after);
              var trial := TrialOf(req, p, remote[p.id]);
              if Succeeds(req, p, remote[p.id]) then s == Search(after, [trial], Some(p))
              else s == rest.(trials := [trial] + rest.trials)
    {
      hide Result, Left, Attempts, Delays, CreateOn;
      assert ps[i] in ps;
      assert ps[i..][0] == ps[i] && ps[i..][1..] == ps[i + 1..];
    }

    lemma SearchNothing(req: Request, remote: Remote)
      ensures AllReachable([], remote) && SearchPanels(req, [], remote) == Search(remote, [], None)
    {
    }

    /** Extends the account on its panel; the traffic reset is best effort. */
    method RenewService(id: int, r: Renew) returns (error: Option<VpnError>)
      requires Valid()
      modifies this`services, this`remote
      ensures Valid()
      ensures var refusal := RenewRefusal(panels, old(services), id);
              if refusal.Some? then error == refusal && services == old(services) && remote == old(remote)
              else
                var panel := old(services)[id].panel;
                && panel in old(remote)
                && var w := World(old(remote)[panel], old(services)[id]);
                   && error == (if Renews(w, r) then None else Some(ProviderFailed))
                   && remote == old(remote)[panel := Renewed(w, r).accounts]
                   && services == old(services)[id := Renewed(w, r).service]
    {
      hide Result, Left, Attempts, Delays, AllReachable, DistinctIds, FindPanel;
      ReachableIds(panels, remote);
      if id !in services { return Some(ServiceNotFound); }
      var service := services[id];
      var panel := FindPanel(panels, service.panel);
      if panel == None || !panel.value.active { return Some(NoAvailablePanel); }
      ghost var w := World(remote[service.panel], service);
      var expire := Keep;
      if r.days.Some? && r.days.value != 0 {
        var base := if service.expireAt.Some? && service.expireAt.value > r.now then service.expireAt.value else r.now;
        expire := SetTo(Some(base + r.days.value * DAY));
      }
      var result, _, _ := CallWithRetry(panel.value, ModifyUser(service.username, r.limit, expire, r.changes));
      if result.Failed? {
        assert services == old(services)[id := service];
        return Some(ProviderFailed);
      }
      var info := result.value;
      if r.limit.SetTo? {
        var reset, _, _ := CallWithRetry(panel.value, ResetTraffic(service.username, r.resets));
        if reset.Success? {
          info := reset.value;
        }
      }
      service := service.(active := true, limit := info.account.limit, used := info.account.used,
                          expireAt := info.account.expireAt);
      services := services[id := service];
      return None;
    }
  }
}

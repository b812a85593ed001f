/** The VPN panels, the order in which they are tried, and what a call does to one. */
module VpnPanels {
  import opened Options
  import opened Retry
  import opened Sorting

  // ----- the panel table and the order of the attempts -----

  datatype Panel = Panel(id: int, priority: int, active: bool, online: bool)

  predicate Differ(p: Panel, q: Panel) {
    p.id != q.id
  }

  predicate DistinctIds(panels: seq<Panel>) {
    Ordered(panels, Differ)
  }

  function Active(panels: seq<Panel>): seq<Panel> {
    if panels == [] then []
    else if panels[0].active then [panels[0]] + Active(panels[1..])
    else Active(panels[1..])
  }

  function Offline(p: Panel): int {
    if p.online then 0 else 1
  }

  predicate ByPriorityAndId(p: Panel, q: Panel) {
    p.priority < q.priority || (p.priority == q.priority && p.id <= q.id)
  }

  predicate ByPriorityAndHealth(p: Panel, q: Panel) {
    p.priority < q.priority || (p.priority == q.priority && Offline(p) <= Offline(q))
  }

  function ListActiveSorted(panels: seq<Panel>): seq<Panel> {
    StableSort(Active(panels), ByPriorityAndId)
  }

  function PickPanels(panels: seq<Panel>): seq<Panel> {
    StableSort(ListActiveSorted(panels), ByPriorityAndHealth)
  }

  /** Priority first, then the last known health, then the id. */
  predicate Before(p: Panel, q: Panel) {
    || p.priority < q.priority
    || (p.priority == q.priority && Offline(p) < Offline(q))
    || (p.priority == q.priority && Offline(p) == Offline(q) && p.id < q.id)
  }

  lemma ActiveMembers(panels: seq<Panel>)
    ensures forall p :: p in Active(panels) <==> p in panels && p.active
    ensures DistinctIds(panels) ==> DistinctIds(Active(panels))
  {
    if panels != [] {
      ActiveMembers(panels[1..]);
    }
  }

  predicate StrictlyById(p: Panel, q: Panel) {
    !ByPriorityAndId(q, p)
  }

  lemma Weaken(s: seq<Panel>, r: (Panel, Panel) -> bool, weaker: (Panel, Panel) -> bool)
    requires Ordered(s, r) && forall p, q :: r(p, q) ==> weaker(p, q)
    ensures Ordered(s, weaker)
  {
  }

  lemma SameMembers<T>(s: seq<T>, t: seq<T>)
    requires multiset(s) == multiset(t)
    ensures forall x :: x in s <==> x in t
  {
    forall x
      ensures x in s <==> x in t
    {
      assert x in s <==> x in multiset(s);
      assert x in t <==> x in multiset(t);
    }
  }

  /** Sorting by priority and health the list sorted by priority and id yields exactly the active panels in
      the strict order of priority, health and id. */
  lemma PickedInOrder(panels: seq<Panel>)
    requires DistinctIds(panels)
    ensures forall p :: p in PickPanels(panels) <==> p in panels && p.active
    ensures Ordered(PickPanels(panels), Before)
  {
    hide StableSort, Active;
    var active, listed, picked := Active(panels), ListActiveSorted(panels), PickPanels(panels);
    ActiveMembers(panels);
    SortIsStable(active, ByPriorityAndId, Differ);
    Weaken(listed, Lexicographic(ByPriorityAndId, Differ), StrictlyById);
    SortIsStable(listed, ByPriorityAndHealth, StrictlyById);
    Weaken(picked, Lexicographic(ByPriorityAndHealth, StrictlyById), Before);
    SameMembers(active, listed);
    SameMembers(listed, picked);
  }

  // ----- panels as machines with a user table -----

  datatype Account = Account(expireAt: Option<int>, limit: Option<nat>, used: nat, active: bool)
  type Accounts = map<string, Account>

  datatype Info = Info(username: string, account: Account)

  /** How one attempt on a panel ends.  A lost attempt may have taken effect. */
  datatype Attempt = Answered | Lost(landed: bool, retryable: bool)

  predicate Lands(a: Attempt) {
    a.Answered? || a.landed
  }

  /** An attempt to leave `account` under `username`. */
  function Put(accounts: Accounts, username: string, account: Account, a: Attempt): Reply<Accounts, Info> {
    Reply(if Lands(a) then accounts[username := account] else accounts,
          if a.Answered? then Success(Info(username, account)) else Failed(a.retryable))
  }

  type PanelCall = (Accounts, nat) -> Reply<Accounts, Info>

  /** A new account is active and has used nothing. */
  function NewAccount(limit: Option<nat>, expireAt: Option<int>): Account {
    Account(expireAt, limit, 0, true)
  }

  function CreateUser(username: string, account: Account, script: nat -> Attempt): PanelCall {
    (accounts: Accounts, k: nat) => Put(accounts, username, account, script(k))
  }

  datatype Change<T> = Keep | SetTo(value: T)

  function Changed<T>(was: T, c: Change<T>): T {
    if c.Keep? then was else c.value
  }

  function Modified(a: Account, limit: Change<Option<nat>>, expire: Change<Option<int>>): Account {
    a.(limit := Changed(a.limit, limit), expireAt := Changed(a.expireAt, expire), active := true)
  }

  /** A panel rejects a change to a user it does not have. */
  function ModifyUser(username: string, limit: Change<Option<nat>>, expire: Change<Option<int>>,
                      script: nat -> Attempt): PanelCall
  {
    (accounts: Accounts, k: nat) =>
      if username !in accounts then Reply(accounts, Failed(false))
      else Put(accounts, username, Modified(accounts[username], limit, expire), script(k))
  }

  function ResetTraffic(username: string, script: nat -> Attempt): PanelCall {
    (accounts: Accounts, k: nat) =>
      if username !in accounts then Reply(accounts, Failed(false))
      else Put(accounts, username, accounts[username].(used := 0), script(k))
  }

  // ----- the local record -----

  datatype VpnService = VpnService(
    user: int, panel: int, order: Option<int>, product: Option<int>, username: string,
    active: bool, limit: Option<nat>, used: nat, expireAt: Option<int>)

  const MAX_ATTEMPTS := 4
  const BASE_DELAY := 1.0
}

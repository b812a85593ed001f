/** Sums over a table held as a map. */
module Totals {

  lemma Pick<T>(s: set<T>) returns (x: T)
    requires s != {}
    ensures x in s
  {
    x :| x in s;
  }

  /** The sum of all values of a finite map; the order of summation is arbitrary. */
  ghost function Total<K>(m: map<K, int>): int
    decreases |m|
  {
    if m == map[] then 0
    else
      var k :| k in m;
      m[k] + Total(m - {k})
  }

  lemma {:induction false} TotalRemove<K>(m: map<K, int>, k: K)
    requires k in m
    ensures Total(m) == m[k] + Total(m - {k})
    decreases |m|
  {
    var j :| j in m && Total(m) == m[j] + Total(m - {j});
    if j != k {
      TotalRemove(m - {j}, k);
      TotalRemove(m - {k}, j);
      assert m - {j} - {k} == m - {k} - {j};
    }
  }

  /** Writing one row changes the sum by the difference in that row. */
  lemma TotalUpdate<K>(m: map<K, int>, k: K, v: int)
    ensures Total(m[k := v]) == Total(m) + v - (if k in m then m[k] else 0)
  {
    TotalRemove(m[k := v], k);
    assert m[k := v] - {k} == m - {k};
    if k in m {
      TotalRemove(m, k);
    } else {
      assert m - {k} == m;
    }
  }

  /** Two tables with the same keys add up row by row. */
  lemma {:induction false} TotalAdd<K>(a: map<K, int>, b: map<K, int>, c: map<K, int>)
    requires a.Keys == b.Keys == c.Keys
    requires forall k :: k in a ==> a[k] == b[k] + c[k]
    ensures Total(a) == Total(b) + Total(c)
    decreases |a|
  {
    if a != map[] {
      var k :| k in a;
      TotalRemove(a, k);
      TotalRemove(b, k);
      TotalRemove(c, k);
      TotalAdd(a - {k}, b - {k}, c - {k});
    }
  }

  /** Rows that hold zero can be left out of the sum. */
  lemma {:induction false} TotalSupport<K>(a: map<K, int>, b: map<K, int>)
    requires b.Keys <= a.Keys
    requires forall k :: k in b ==> a[k] == b[k]
    requires forall k :: k in a && k !in b ==> a[k] == 0
    ensures Total(a) == Total(b)
    decreases |a|
  {
    if a != map[] {
      var k :| k in a;
      TotalRemove(a, k);
      if k in b {
        TotalRemove(b, k);
        TotalSupport(a - {k}, b - {k});
      } else {
        TotalSupport(a - {k}, b);
      }
    }
  }
}

/**
 * The append-only ledger every balance of the shop is kept with: a row records the signed amount and
 * the balance before and after it.  Used for tokens, for toman wallets and for crypto wallets.
 */
module Ledgers {

  datatype Entry<Kind, Ref> = Entry(user: int, kind: Kind, amount: int, before: int, after: int, ref: Ref)

  /** The sum of the amounts of the rows whose user, kind and reference satisfy `p`. */
  ghost function SumWhere<K, R>(l: seq<Entry<K, R>>, p: (int, K, R) -> bool): int
  {
    if l == [] then 0
    else
      var e := l[|l| - 1];
      SumWhere(l[..|l| - 1], p) + if p(e.user, e.kind, e.ref) then e.amount else 0
  }

  /** The rows whose user, kind and reference satisfy `p`, in order. */
  ghost function Select<K, R>(l: seq<Entry<K, R>>, p: (int, K, R) -> bool): seq<Entry<K, R>>
  {
    if l == [] then []
    else
      var e := l[|l| - 1];
      Select(l[..|l| - 1], p) + if p(e.user, e.kind, e.ref) then [e] else []
  }

  lemma SumAppend<K, R>(l: seq<Entry<K, R>>, e: Entry<K, R>)
    ensures forall p: (int, K, R) -> bool ::
              SumWhere(l + [e], p) == SumWhere(l, p) + if p(e.user, e.kind, e.ref) then e.amount else 0
  {
    assert (l + [e])[..|l|] == l;
  }

  lemma SelectAppend<K, R>(l: seq<Entry<K, R>>, e: Entry<K, R>)
    ensures forall p: (int, K, R) -> bool ::
              Select(l + [e], p) == if p(e.user, e.kind, e.ref) then Select(l, p) + [e] else Select(l, p)
  {
    assert (l + [e])[..|l|] == l;
  }

  ghost function ByUser<K, R>(u: int): (int, K, R) -> bool {
    (v: int, k: K, r: R) => v == u
  }

  ghost function Everyone<K, R>(): (int, K, R) -> bool {
    (v: int, k: K, r: R) => true
  }

  /** The balance the ledger shows for `u`: the `after` of the last row of `u`, 0 before the first. */
  ghost function Latest<K, R>(l: seq<Entry<K, R>>, u: int): int
  {
    if l == [] then 0
    else if l[|l| - 1].user == u then l[|l| - 1].after
    else Latest(l[..|l| - 1], u)
  }

  /** Every row starts where the previous row of its user stopped, and never stops below zero. */
  ghost predicate Chained<K, R>(l: seq<Entry<K, R>>)
  {
    l == [] ||
    var e := l[|l| - 1];
    && Chained(l[..|l| - 1])
    && e.before == Latest(l[..|l| - 1], e.user)
    && e.after == e.before + e.amount
    && 0 <= e.after
  }

  lemma ChainAppend<K, R>(l: seq<Entry<K, R>>, e: Entry<K, R>)
    requires Chained(l) && e.before == Latest(l, e.user) && e.after == e.before + e.amount && 0 <= e.after
    ensures Chained(l + [e])
    ensures forall u :: Latest(l + [e], u) == if u == e.user then e.after else Latest(l, u)
  {
    assert (l + [e])[..|l|] == l;
  }

  /** A chained ledger shows for each user the sum of that user's amounts, which is never negative. */
  lemma {:induction false} ChainBalance<K, R>(l: seq<Entry<K, R>>, u: int)
    requires Chained(l)
    ensures Latest(l, u) == SumWhere(l, ByUser(u))
    ensures 0 <= Latest(l, u)
  {
    if l != [] {
      ChainBalance(l[..|l| - 1], u);
    }
  }

  /** A user without rows stands at zero in every sum. */
  lemma {:induction false} NoRows<K, R>(l: seq<Entry<K, R>>, u: int, p: (int, K, R) -> bool)
    requires forall i :: 0 <= i < |l| ==> l[i].user != u
    requires forall v, k, r :: p(v, k, r) ==> v == u
    ensures Latest(l, u) == 0 && SumWhere(l, p) == 0
  {
    if l != [] {
      NoRows(l[..|l| - 1], u, p);
    }
  }

  /** In a chained ledger consecutive rows of one user fit: each starts where the one before it stopped. */
  lemma {:induction false} ChainLinks<K, R>(l: seq<Entry<K, R>>, i: int, j: int)
    requires Chained(l) && 0 <= i < j < |l|
    requires l[i].user == l[j].user
    requires forall k :: i < k < j ==> l[k].user != l[j].user
    ensures l[j].before == l[i].after
  {
    if j == |l| - 1 {
      LatestIs(l[..j], i);
    } else {
      ChainLinks(l[..|l| - 1], i, j);
    }
  }

  lemma {:induction false} LatestIs<K, R>(l: seq<Entry<K, R>>, i: int)
    requires 0 <= i < |l|
    requires forall k :: i < k < |l| ==> l[k].user != l[i].user
    ensures Latest(l, l[i].user) == l[i].after
  {
    if i < |l| - 1 {
      LatestIs(l[..|l| - 1], i);
    }
  }

  /** The rows of a chained ledger up to any moment form a chained ledger themselves. */
  lemma {:induction false} ChainPrefix<K, R>(l: seq<Entry<K, R>>, n: nat)
    requires Chained(l) && n <= |l|
    ensures Chained(l[..n])
  {
    if n == |l| {
      assert l[..n] == l;
    } else {
      assert l[..|l| - 1][..n] == l[..n];
      ChainPrefix(l[..|l| - 1], n);
    }
  }
}

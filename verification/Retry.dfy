/**
 * Retrying a provider call.  The call itself is foreign: it is a function from the provider's state and
 * the number of the attempt to the state it leaves and the outcome it reports, and everything below
 * holds for every such function.
 */
module Retry {

  datatype Outcome<T> = Success(value: T) | Failed(retryable: bool)
  datatype Reply<S, T> = Reply(state: S, outcome: Outcome<T>)

  /** The provider's state after `k` attempts. */
  function After<S, T>(func: (S, nat) -> Reply<S, T>, s: S, k: nat): S {
    if k == 0 then s else func(After(func, s, k - 1), k).state
  }

  /** What attempt `k`, counted from one, reports. */
  function At<S, T>(func: (S, nat) -> Reply<S, T>, s: S, k: nat): Outcome<T>
    requires 1 <= k
  {
    func(After(func, s, k - 1), k).outcome
  }

  /** No attempt follows attempt `k`. */
  predicate Stops<S, T>(func: (S, nat) -> Reply<S, T>, s: S, maxAttempts: int, k: nat)
    requires 1 <= k
  {
    At(func, s, k).Success? || !At(func, s, k).retryable || maxAttempts <= k
  }

  /** The first attempt from `k` on that no other attempt follows. */
  function StopsFrom<S, T>(func: (S, nat) -> Reply<S, T>, s: S, maxAttempts: int, k: nat): (n: nat)
    requires 1 <= k
    ensures k <= n && Stops(func, s, maxAttempts, n)
    ensures forall j | k <= j < n :: !Stops(func, s, maxAttempts, j)
    ensures n <= maxAttempts || n == k
    decreases maxAttempts - k
  {
    if Stops(func, s, maxAttempts, k) then k else StopsFrom(func, s, maxAttempts, k + 1)
  }

  function Attempts<S, T>(func: (S, nat) -> Reply<S, T>, s: S, maxAttempts: int): (n: nat)
    ensures 1 <= n && (n <= maxAttempts || n == 1)
  {
    StopsFrom(func, s, maxAttempts, 1)
  }

  function Result<S, T>(func: (S, nat) -> Reply<S, T>, s: S, maxAttempts: int): Outcome<T> {
    At(func, s, Attempts(func, s, maxAttempts))
  }

  function Left<S, T>(func: (S, nat) -> Reply<S, T>, s: S, maxAttempts: int): S {
    After(func, s, Attempts(func, s, maxAttempts))
  }

  function Power2(n: nat): (p: nat)
    ensures 1 <= p
  {
    if n == 0 then 1 else 2 * Power2(n - 1)
  }

  /** The waits between `n + 1` attempts. */
  function Delays(base: real, n: nat): (s: seq<real>)
    ensures |s| == n
    ensures forall i :: 0 <= i < n ==> s[i] == base * Power2(i) as real
  {
    if n == 0 then [] else Delays(base, n - 1) + [base * Power2(n - 1) as real]
  }

  function SumOf(s: seq<real>): real {
    if s == [] then 0.0 else SumOf(s[..|s| - 1]) + s[|s| - 1]
  }

  method RetryProviderCall<S, T>(func: (S, nat) -> Reply<S, T>, start: S, maxAttempts: int, baseDelay: real)
    returns (state: S, result: Outcome<T>, attempts: nat, waits: seq<real>)
    ensures attempts == Attempts(func, start, maxAttempts)
    ensures state == Left(func, start, maxAttempts) && result == Result(func, start, maxAttempts)
    ensures waits == Delays(baseDelay, attempts - 1)
  {
    state, attempts, waits := start, 0, [];
    while true
      invariant state == After(func, start, attempts)
      invariant StopsFrom(func, start, maxAttempts, attempts + 1) == Attempts(func, start, maxAttempts)
      invariant waits == Delays(baseDelay, attempts)
      decreases maxAttempts - attempts
    {
      attempts := attempts + 1;
      var reply := func(state, attempts);
      state, result := reply.state, reply.outcome;
      if result.Success? {
        return;
      }
      if !result.retryable || attempts >= maxAttempts {
        return;
      }
      waits := waits + [baseDelay * Power2(attempts - 1) as real];
    }
  }

  /** Attempt `k` is made and all before it failed in a way worth retrying. */
  predicate Reaches<S, T>(func: (S, nat) -> Reply<S, T>, s: S, maxAttempts: int, k: nat) {
    && 1 <= k && (k <= maxAttempts || k == 1)
    && (forall j | 1 <= j < k :: At(func, s, j).Failed? && At(func, s, j).retryable)
  }

  /** A retried call succeeds exactly when some allowed attempt succeeds and every earlier one failed in a
      way worth retrying; it fails exactly when an attempt is refused outright, or the last allowed one fails. */
  lemma RetryOutcome<S, T>(func: (S, nat) -> Reply<S, T>, s: S, maxAttempts: int)
    ensures Reaches(func, s, maxAttempts, Attempts(func, s, maxAttempts))
    ensures Result(func, s, maxAttempts).Success?
            <==> exists k: nat :: Reaches(func, s, maxAttempts, k) && At(func, s, k).Success?
    ensures Result(func, s, maxAttempts).Failed?
            <==> exists k: nat :: Reaches(func, s, maxAttempts, k) && At(func, s, k).Failed?
                                  && (!At(func, s, k).retryable || maxAttempts <= k)
  {
    hide After, At;
    var n := Attempts(func, s, maxAttempts);
    forall j | 1 <= j < n
      ensures At(func, s, j).Failed? && At(func, s, j).retryable
    {
      assert !Stops(func, s, maxAttempts, j);
    }
    assert forall k | Reaches(func, s, maxAttempts, k) :: k <= n;
  }

  /** The waits double, so together they last `base * (2^n - 1)`. */
  lemma {:induction false} DelaysTotal(base: real, n: nat)
    ensures SumOf(Delays(base, n)) == base * (Power2(n) - 1) as real
  {
    hide *;
    if n == 0 {
      NoDelays(base);
    } else {
      DelaysTotal(base, n - 1);
      OneMoreDelay(base, n);
      Doubling(base, Power2(n - 1));
    }
  }

  lemma NoDelays(base: real)
    ensures SumOf(Delays(base, 0)) == base * (Power2(0) - 1) as real
  {
  }

  lemma OneMoreDelay(base: real, n: nat)
    requires 0 < n
    ensures Power2(n) == 2 * Power2(n - 1)
    ensures SumOf(Delays(base, n)) == SumOf(Delays(base, n - 1)) + base * Power2(n - 1) as real
  {
    hide SumOf;
    SumSnoc(Delays(base, n - 1), base * Power2(n - 1) as real);
  }

  lemma SumSnoc(s: seq<real>, x: real)
    ensures SumOf(s + [x]) == SumOf(s) + x
  {
    assert (s + [x])[..|s|] == s;
  }

  lemma Doubling(base: real, p: int)
    ensures base * (p - 1) as real + base * p as real == base * (2 * p - 1) as real
  {
    assert (p - 1) as real + p as real == (2 * p - 1) as real;
  }
}

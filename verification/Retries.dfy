/** The Retries middleware: whether a failed message is tried again, and how
    long it waits. */
module Retries {
  import opened Keyspace
  import opened Sequences

  const DEFAULT_MAX_BACKOFF := 86400000 * 7

  function Pow2(n: nat): nat {
    if n == 0 then 1 else 2 * Pow2(n - 1)
  }

  /** Python's `int`, which truncates towards zero. */
  function Truncated(x: real): int {
    if 0.0 <= x then x.Floor else -(-x).Floor
  }

  /** What `random.uniform` draws: a factor in [1, 2], then one in [0.5, 1]. */
  datatype Jitter = Jitter(extend: real, shrink: real)
  {
    predicate Drawn() { 1.0 <= extend <= 2.0 && 0.5 <= shrink <= 1.0 }
  }

  function Scaled(n: int, u: real): int { Truncated(n as real * u) }

  function Jittered(base: int, maxBackoff: int, j: Jitter): int {
    var extended := Scaled(base, j.extend);
    if extended > maxBackoff then Scaled(maxBackoff, j.shrink) else extended
  }

  /** `compute_backoff`: the backoff in milliseconds. */
  function Backoff(attempts: nat, factor: int, maxBackoff: int, maxExponent: nat, jitter: Option<Jitter>): int {
    var base := factor * Pow2(Min(attempts, maxExponent));
    if jitter.Some? then Jittered(base, maxBackoff, jitter.value) else Min(base, maxBackoff)
  }

  lemma Product(n: real, low: real, u: real, high: real)
    requires 0.0 <= n && low <= u <= high
    ensures n * low <= n * u <= n * high
  {
  }

  /** Truncation keeps a real between the integers it lies between. */
  lemma ScaledBetween(n: nat, u: real, low: nat, high: nat)
    requires low as real <= n as real * u <= high as real
    ensures low <= Scaled(n, u) <= high
  {
  }

  lemma Extends(base: nat, u: real)
    requires 1.0 <= u <= 2.0
    ensures base <= Scaled(base, u) <= 2 * base
  {
    hide Scaled;
    Product(base as real, 1.0, u, 2.0);
    ScaledBetween(base, u, base, 2 * base);
  }

  lemma Halved(n: nat, half: nat)
    requires 2 * half <= n
    ensures half as real <= n as real * 0.5
  {
    assert (2 * half) as real == 2.0 * half as real;
  }

  lemma Shrinks(maxBackoff: nat, u: real)
    requires 0.5 <= u <= 1.0
    ensures maxBackoff / 2 <= Scaled(maxBackoff, u) <= maxBackoff
  {
    hide Scaled;
    Product(maxBackoff as real, 0.5, u, 1.0);
    Halved(maxBackoff, maxBackoff / 2);
    ScaledBetween(maxBackoff, u, maxBackoff / 2, maxBackoff);
  }

  lemma JitterBounds(base: nat, maxBackoff: nat, j: Jitter)
    requires j.Drawn()
    ensures Min(base, maxBackoff / 2) <= Jittered(base, maxBackoff, j) <= Min(2 * base, maxBackoff)
  {
    hide Scaled;
    Extends(base, j.extend);
    Shrinks(maxBackoff, j.shrink);
  }

  /** The jitter spreads a backoff over at most a factor of two, and never above
      the maximum. */
  lemma BackoffBounds(attempts: nat, factor: nat, maxBackoff: nat, maxExponent: nat, j: Jitter)
    requires j.Drawn()
    ensures var base := factor * Pow2(Min(attempts, maxExponent));
            Min(base, maxBackoff / 2)
            <= Backoff(attempts, factor, maxBackoff, maxExponent, Some(j))
            <= Min(2 * base, maxBackoff)
  {
    JitterBounds(factor * Pow2(Min(attempts, maxExponent)), maxBackoff, j);
  }

  lemma Ratio(n: nat, v: nat)
    requires 0 < n
    ensures n as real * (v as real / n as real) == v as real
  {
  }

  lemma RatioBetween(n: nat, v: nat, low: real, high: real)
    requires 0 < n && low * n as real <= v as real <= high * n as real
    ensures low <= v as real / n as real <= high
  {
    var u := v as real / n as real;
    Ratio(n, v);
    if u < low {
      Product(n as real, u, low, low);
    }
    if high < u {
      Product(n as real, high, u, u);
    }
  }

  /** A factor within the bounds with which `n` is scaled to `v`. */
  lemma ScaledTo(n: nat, v: nat, low: real, high: real) returns (u: real)
    requires low <= high && low * n as real <= v as real <= high * n as real
    ensures low <= u <= high && Scaled(n, u) == v
  {
    if n == 0 {
      u := low;
    } else {
      RatioBetween(n, v, low, high);
      Ratio(n, v);
      u := v as real / n as real;
    }
  }

  lemma JitterSplits(base: nat, maxBackoff: nat, j: Jitter)
    requires j.Drawn()
    ensures var v := Jittered(base, maxBackoff, j);
            base <= v <= Min(2 * base, maxBackoff) || (maxBackoff < 2 * base && maxBackoff / 2 <= v <= maxBackoff)
  {
    hide Scaled;
    Extends(base, j.extend);
    Shrinks(maxBackoff, j.shrink);
  }

  lemma ExtendTo(base: nat, maxBackoff: nat, v: nat) returns (j: Jitter)
    requires base <= v <= Min(2 * base, maxBackoff)
    ensures j.Drawn() && Jittered(base, maxBackoff, j) == v
  {
    assert (2 * base) as real == 2.0 * base as real;
    var u := ScaledTo(base, v, 1.0, 2.0);
    j := Jitter(u, 1.0);
  }

  lemma ShrinkTo(base: nat, maxBackoff: nat, v: nat) returns (j: Jitter)
    requires maxBackoff < 2 * base && maxBackoff / 2 <= v <= maxBackoff
    ensures j.Drawn() && Jittered(base, maxBackoff, j) == v
  {
    Doubled(base);
    var u := 0.5;
    if maxBackoff <= 2 * v {
      assert (2 * v) as real == 2.0 * v as real;
      u := ScaledTo(maxBackoff, v, 0.5, 1.0);
    } else {
      HalfScaled(maxBackoff, v);
    }
    hide Scaled;
    j := Jitter(2.0, u);
  }

  lemma Doubled(n: nat)
    ensures Scaled(n, 2.0) == 2 * n
  {
    assert n as real * 2.0 == (2 * n) as real;
  }

  lemma HalfScaled(n: nat, v: nat)
    requires n == 2 * v + 1
    ensures Scaled(n, 0.5) == v
  {
    assert n as real == 2.0 * v as real + 1.0;
    assert n as real * 0.5 == v as real + 0.5;
  }

  /** Which backoffs the jitter can give: everything from the base up to twice the
      base or the maximum, and if twice the base exceeds the maximum then also the
      upper half of the maximum. */
  lemma BackoffExactly(attempts: nat, factor: nat, maxBackoff: nat, maxExponent: nat, v: nat)
    ensures var base := factor * Pow2(Min(attempts, maxExponent));
            (exists j: Jitter :: j.Drawn() && Backoff(attempts, factor, maxBackoff, maxExponent, Some(j)) == v)
            <==> base <= v <= Min(2 * base, maxBackoff)
                 || (maxBackoff < 2 * base && maxBackoff / 2 <= v <= maxBackoff)
  {
    hide Jittered, Pow2;
    var base: nat := BaseOf(factor, Min(attempts, maxExponent));
    if j: Jitter :| j.Drawn() && Backoff(attempts, factor, maxBackoff, maxExponent, Some(j)) == v {
      JitterSplits(base, maxBackoff, j);
    }
    if base <= v <= Min(2 * base, maxBackoff) {
      var j := ExtendTo(base, maxBackoff, v);
      assert Backoff(attempts, factor, maxBackoff, maxExponent, Some(j)) == v;
    } else if maxBackoff < 2 * base && maxBackoff / 2 <= v <= maxBackoff {
      var j := ShrinkTo(base, maxBackoff, v);
      assert Backoff(attempts, factor, maxBackoff, maxExponent, Some(j)) == v;
    }
  }

  lemma BaseOf(factor: nat, exponent: nat) returns (base: nat)
    ensures base == factor * Pow2(exponent)
  {
    base := factor * Pow2(exponent);
  }

  lemma {:induction false} Pow2Grows(n: nat, m: nat)
    requires n <= m
    ensures 1 <= Pow2(n) <= Pow2(m)
    decreases m
  {
    if n < m {
      Pow2Grows(n, m - 1);
    } else if 0 < m {
      Pow2Grows(n - 1, m - 1);
    }
  }

  lemma Times(factor: nat, a: nat, b: nat)
    requires a <= b
    ensures factor * a <= factor * b
  {
  }

  /** Without jitter, backoffs grow with the attempts up to the maximum, and stay
      equal from the maximum exponent on. */
  lemma PlainBackoffGrows(attempts: nat, more: nat, factor: nat, maxBackoff: int, maxExponent: nat)
    requires attempts <= more
    ensures Backoff(attempts, factor, maxBackoff, maxExponent, None)
            <= Backoff(more, factor, maxBackoff, maxExponent, None) <= maxBackoff
    ensures maxExponent <= attempts ==>
              Backoff(attempts, factor, maxBackoff, maxExponent, None)
              == Backoff(more, factor, maxBackoff, maxExponent, None)
  {
    Pow2Grows(Min(attempts, maxExponent), Min(more, maxExponent));
    Times(factor, Pow2(Min(attempts, maxExponent)), Pow2(Min(more, maxExponent)));
  }

  /** The first backoff is the factor, and each extra attempt doubles it, below
      the maximum. */
  lemma PlainBackoffDoubles(attempts: nat, factor: nat, maxBackoff: int, maxExponent: nat)
    ensures Backoff(0, factor, maxBackoff, maxExponent, None) == Min(factor, maxBackoff)
    ensures var backoff := Backoff(attempts, factor, maxBackoff, maxExponent, None);
            attempts < maxExponent && backoff < maxBackoff ==>
              Backoff(attempts + 1, factor, maxBackoff, maxExponent, None) == Min(2 * backoff, maxBackoff)
  {
    if attempts < maxExponent {
      assert factor * Pow2(attempts + 1) == 2 * (factor * Pow2(attempts));
    }
  }

  // ----- the decision after one attempt

  datatype Failure = Expected | AskedRetry(delay: Option<int>) | Unexpected

  datatype Policy = Policy(
    maxRetries: Option<int>,
    retryWhen: Option<(int, Failure) -> bool>,
    minBackoff: int,
    maxBackoff: int,
    onExhausted: Option<string>)

  /** What the actor named by `on_retry_exhausted` is told. */
  datatype Notice = Notice(actor: string, retries: nat, maxRetries: Option<int>)

  datatype Decision = Abort | Exhausted | Again(delay: int)

  /** `retry_when` takes precedence over `max_retries`. */
  predicate OutOfRetries(p: Policy, retries: int, failure: Failure) {
    if p.retryWhen.Some? then !p.retryWhen.value(retries, failure)
    else p.maxRetries.Some? && retries >= p.maxRetries.value
  }

  function Decide(p: Policy, retries: nat, failure: Failure, j: Jitter): Decision {
    if failure.Expected? then Abort
    else if OutOfRetries(p, retries, failure) then Exhausted
    else if failure.AskedRetry? && failure.delay.Some? then Again(failure.delay.value)
    else Again(Backoff(retries, p.minBackoff, Min(p.maxBackoff, DEFAULT_MAX_BACKOFF), 32, Some(j)))
  }

  // ----- a message that fails every time

  datatype Attempt = Attempt(retries: nat, failure: Failure, jitter: Jitter, decision: Decision)

  /** Deliveries of one message, without redelivery, until none follows. */
  ghost predicate Failing(p: Policy, attempts: seq<Attempt>) {
    && attempts != []
    && attempts[0].retries == 0
    && (forall i :: 0 <= i < |attempts| ==> AttemptAt(p, attempts, i))
  }

  ghost predicate AttemptAt(p: Policy, attempts: seq<Attempt>, i: nat)
    requires i < |attempts|
  {
    var a := attempts[i];
    && !a.failure.Expected? && a.jitter.Drawn()
    && a.decision == Decide(p, a.retries, a.failure, a.jitter)
    && (a.decision.Again? <==> i < |attempts| - 1)
    && (a.decision.Again? ==> attempts[i + 1].retries == a.retries + 1)
  }

  lemma {:induction false} CountsUp(p: Policy, attempts: seq<Attempt>, i: nat)
    requires Failing(p, attempts) && i < |attempts|
    ensures attempts[i].retries == i
  {
    if i > 0 {
      CountsUp(p, attempts, i - 1);
      assert AttemptAt(p, attempts, i - 1);
    }
  }

  /** It is processed exactly `max_retries + 1` times, and then failed. */
  lemma ProcessedExactly(p: Policy, attempts: seq<Attempt>)
    requires Failing(p, attempts) && p.retryWhen.None?
    ensures p.maxRetries.Some?
    ensures |attempts| == if p.maxRetries.value < 0 then 1 else p.maxRetries.value + 1
    ensures attempts[|attempts| - 1].decision == Exhausted
  {
    var n := |attempts|;
    CountsUp(p, attempts, n - 1);
    assert AttemptAt(p, attempts, n - 1);
    if n > 1 {
      CountsUp(p, attempts, n - 2);
      assert AttemptAt(p, attempts, n - 2);
    }
  }

  /** With a predicate, it is processed until the predicate first says no. */
  lemma ProcessedUntil(p: Policy, attempts: seq<Attempt>)
    requires Failing(p, attempts) && p.retryWhen.Some?
    ensures !p.retryWhen.value(|attempts| - 1, attempts[|attempts| - 1].failure)
    ensures forall i :: 0 <= i < |attempts| - 1 ==> p.retryWhen.value(i, attempts[i].failure)
  {
    CountsUp(p, attempts, |attempts| - 1);
    assert AttemptAt(p, attempts, |attempts| - 1);
    forall i | 0 <= i < |attempts| - 1 ensures p.retryWhen.value(i, attempts[i].failure) {
      CountsUp(p, attempts, i);
      assert AttemptAt(p, attempts, i);
    }
  }

  // ----- how long it waits altogether

  function Waited(attempts: seq<Attempt>): int {
    if attempts == [] then 0
    else
      Waited(attempts[..|attempts| - 1])
      + if attempts[|attempts| - 1].decision.Again? then attempts[|attempts| - 1].decision.delay else 0
  }

  function MostBackoff(p: Policy, n: nat): int {
    if n == 0 then 0
    else MostBackoff(p, n - 1) + Min(2 * (p.minBackoff * Pow2(Min(n - 1, 32))), Min(p.maxBackoff, DEFAULT_MAX_BACKOFF))
  }

  function LeastBackoff(p: Policy, n: nat): int {
    if n == 0 then 0
    else LeastBackoff(p, n - 1) + Min(p.minBackoff * Pow2(Min(n - 1, 32)), Min(p.maxBackoff, DEFAULT_MAX_BACKOFF) / 2)
  }

  /** The delays of the first `n` retries sum to within their bounds. */
  lemma {:induction false} WaitBounds(p: Policy, attempts: seq<Attempt>, n: nat)
    requires Failing(p, attempts) && n < |attempts|
    requires 0 <= p.minBackoff && 0 <= p.maxBackoff
    requires forall i :: 0 <= i < |attempts| ==> attempts[i].failure == Unexpected
    ensures LeastBackoff(p, n) <= Waited(attempts[..n]) <= MostBackoff(p, n)
  {
    if n > 0 {
      WaitBounds(p, attempts, n - 1);
      assert attempts[..n][..n - 1] == attempts[..n - 1];
      CountsUp(p, attempts, n - 1);
      assert AttemptAt(p, attempts, n - 1);
      BackoffBounds(n - 1, p.minBackoff, Min(p.maxBackoff, DEFAULT_MAX_BACKOFF), 32, attempts[n - 1].jitter);
    }
  }
}

/** Retry policies and `calculate_retry_delay`, in exact microseconds. */
module RetryDelay {
  import opened Basics

  const SECOND := 1_000_000

  datatype RetryPolicy = RetryPolicy(
    maximumAttempts: int, backoffBase: int, backoffCap: int, jitterMax: int, maximumRetryAfter: int,
    budgetScope: Text, budgetWindowId: Text)

  // `RetryPolicy.__init__` accepts these durations.
  predicate ValidPolicy(p: RetryPolicy) {
    p.maximumAttempts > 0 && 0 <= p.backoffBase <= p.backoffCap &&
    0 <= p.jitterMax <= 60 * SECOND && 0 <= p.maximumRetryAfter
  }

  // A jitter source: None is any value that is not a timedelta.
  type Jitter = int -> Option<int>

  function Pow2(n: nat): (r: int)
    ensures r >= 1
  {
    if n == 0 then 1 else 2 * Pow2(n - 1)
  }

  // The capped exponential part, with the shortcut at exponent 63.
  function Exponential(p: RetryPolicy, n: int): int
    requires n >= 1
  {
    if p.backoffBase == 0 || p.backoffBase >= p.backoffCap then Min(p.backoffBase, p.backoffCap)
    else if n - 1 >= 63 || Pow2(n - 1) * p.backoffBase >= p.backoffCap then p.backoffCap
    else p.backoffBase * Pow2(n - 1)
  }

  /** `calculate_retry_delay`; None is InvalidRetryPolicyError. */
  function Delay(p: RetryPolicy, n: int, retryAfter: Option<int>, jitter: Jitter): Option<int> {
    if n <= 0 then None else
      match jitter(n)
      case None => None
      case Some(extra) =>
        if extra < 0 || extra > p.jitterMax then None
        else
          var delay := Exponential(p, n) + extra;
          if retryAfter.Some? && retryAfter.value >= 0
          then Some(Max(delay, Min(retryAfter.value * SECOND, p.maximumRetryAfter)))
          else Some(delay)
  }

  lemma {:induction false} Pow2Monotone(a: nat, b: nat)
    requires a <= b
    ensures Pow2(a) <= Pow2(b)
    decreases b
  {
    if a < b { Pow2Monotone(a, b - 1); }
  }

  lemma ScaleMonotone(base: int, a: int, b: int)
    requires 0 <= base && a <= b
    ensures base * a <= base * b
  {
  }

  ghost predicate CappedDoubling(p: RetryPolicy, n: int)
    requires n >= 1
  {
    Exponential(p, n) == Min(p.backoffCap, p.backoffBase * Pow2(n - 1))
  }

  lemma DoublingBelowShortcut(p: RetryPolicy, n: int)
    requires ValidPolicy(p) && 1 <= n <= 63
    ensures CappedDoubling(p, n)
  {
    Pow2Monotone(0, n - 1);
    ScaleMonotone(p.backoffBase, 1, Pow2(n - 1));
  }

  /** min(cap, base * 2^(n-1)) for every n exactly when the cap is within base * 2^63. */
  lemma CappedDoublingIff(p: RetryPolicy)
    requires ValidPolicy(p)
    ensures (forall n :: n >= 1 ==> CappedDoubling(p, n))
       <==> (p.backoffBase == 0 || p.backoffCap <= p.backoffBase * Pow2(63))
  {
    if p.backoffBase == 0 || p.backoffCap <= p.backoffBase * Pow2(63) {
      forall n | n >= 1 ensures CappedDoubling(p, n) {
        if n <= 63 {
          DoublingBelowShortcut(p, n);
        } else {
          Pow2Monotone(63, n - 1);
          ScaleMonotone(p.backoffBase, Pow2(63), Pow2(n - 1));
          ScaleMonotone(p.backoffBase, 1, Pow2(n - 1));
        }
      }
    } else {
      Pow2Monotone(0, 63);
      ScaleMonotone(p.backoffBase, 1, Pow2(63));
      assert !CappedDoubling(p, 64);
    }
  }

  /** The exponential part never shrinks from one attempt to the next. */
  lemma ExponentialMonotone(p: RetryPolicy, n: int, m: int)
    requires ValidPolicy(p) && 1 <= n <= m
    ensures p.backoffBase <= Exponential(p, n) <= Exponential(p, m) <= p.backoffCap
  {
    Pow2Monotone(0, n - 1);
    Pow2Monotone(n - 1, m - 1);
    ScaleMonotone(p.backoffBase, 1, Pow2(n - 1));
    ScaleMonotone(p.backoffBase, Pow2(n - 1), Pow2(m - 1));
  }

  // An upper bound on any single delay.
  function DelayLimit(p: RetryPolicy): int { Max(p.backoffCap + p.jitterMax, p.maximumRetryAfter) }

  /** Every delay lies between the exponential part and the limit; without jitter and Retry-After it is the former. */
  lemma DelayBounds(p: RetryPolicy, n: int, retryAfter: Option<int>, jitter: Jitter)
    requires ValidPolicy(p) && Delay(p, n, retryAfter, jitter).Some?
    ensures n >= 1
    ensures Exponential(p, n) <= Delay(p, n, retryAfter, jitter).value <= DelayLimit(p)
    ensures retryAfter.None? && jitter(n) == Some(0) ==> Delay(p, n, retryAfter, jitter) == Some(Exponential(p, n))
    ensures retryAfter.Some? && retryAfter.value >= 0 ==>
              Min(retryAfter.value * SECOND, p.maximumRetryAfter) <= Delay(p, n, retryAfter, jitter).value
  {
    ExponentialMonotone(p, n, n);
  }

  /** The exponential part: the capped doubling up to attempt 63, the cap from attempt 64 on, and nothing for a base of zero. */
  lemma ExponentialIs(p: RetryPolicy, n: int)
    requires ValidPolicy(p) && n >= 1
    ensures Exponential(p, n) ==
            if p.backoffBase == 0 then 0 else if n <= 63 then Min(p.backoffCap, p.backoffBase * Pow2(n - 1)) else p.backoffCap
  {
    Pow2Monotone(0, n - 1);
    ScaleMonotone(p.backoffBase, 1, Pow2(n - 1));
  }

  /** A delay exists exactly for a positive attempt and a jitter within its bound; it is the least time that covers both the
      exponential part with its jitter and the capped Retry-After. */
  lemma DelayIs(p: RetryPolicy, n: int, retryAfter: Option<int>, jitter: Jitter)
    requires ValidPolicy(p)
    ensures Delay(p, n, retryAfter, jitter).Some? <==> n >= 1 && jitter(n).Some? && 0 <= jitter(n).value <= p.jitterMax
    ensures Delay(p, n, retryAfter, jitter).Some? ==>
              var delay := Delay(p, n, retryAfter, jitter).value;
              delay >= Exponential(p, n) + jitter(n).value &&
              (retryAfter.Some? && retryAfter.value >= 0 ==> delay >= Min(retryAfter.value * 1_000_000, p.maximumRetryAfter)) &&
              (delay == Exponential(p, n) + jitter(n).value ||
               (retryAfter.Some? && retryAfter.value >= 0 && delay == Min(retryAfter.value * 1_000_000, p.maximumRetryAfter)))
  {
    hide Exponential;
  }
}

/** Retry delays: the saturating doubling loop and its closed form. */
module RetryPolicies {
  import opened TaskStates

  /** Largest representable duration, in nanoseconds. */
  const DURATION_MAX := U64_MAX * 1_000_000_000 + 999_999_999

  datatype RetryPolicy = RetryPolicy(initialDelay: nat, maxDelay: nat)
  {
    /** What `RetryPolicy::new` accepts. */
    predicate Valid() {
      0 < initialDelay <= maxDelay <= DURATION_MAX
    }
  }

  function Min(a: nat, b: nat): nat {
    if a <= b then a else b
  }

  function Pow2(n: nat): nat {
    if n == 0 then 1 else 2 * Pow2(n - 1)
  }

  function Doubled(delay: nat, times: nat): nat {
    if times == 0 then delay else 2 * Doubled(delay, times - 1)
  }

  /** Delay after failed attempt `attempt`: doubled per earlier attempt, capped. */
  function Delay(policy: RetryPolicy, attempt: nat): nat {
    Min(policy.maxDelay, Doubled(policy.initialDelay, if attempt == 0 then 0 else attempt - 1))
  }

  lemma {:induction false} DoubledIsPower(delay: nat, times: nat)
    ensures Doubled(delay, times) == delay * Pow2(times)
  {
    if times > 0 {
      DoubledIsPower(delay, times - 1);
    }
  }

  lemma {:induction false} DoubledGrows(delay: nat, m: nat, n: nat)
    requires m <= n
    ensures Doubled(delay, m) <= Doubled(delay, n)
    decreases n
  {
    if m < n {
      DoubledGrows(delay, m, n - 1);
    }
  }

  /** The closed form: `min(max, initial * 2^(attempt - 1))`. */
  lemma DelayClosedForm(policy: RetryPolicy, attempt: nat)
    requires attempt >= 1
    ensures Delay(policy, attempt) == Min(policy.maxDelay, policy.initialDelay * Pow2(attempt - 1))
  {
    DoubledIsPower(policy.initialDelay, attempt - 1);
  }

  /** Delays never shrink as attempts accumulate, and never leave the configured range. */
  lemma DelayMonotone(policy: RetryPolicy, a: nat, b: nat)
    requires policy.Valid() && a <= b
    ensures policy.initialDelay <= Delay(policy, a) <= Delay(policy, b) <= policy.maxDelay
  {
    var m, n := if a == 0 then 0 else a - 1, if b == 0 then 0 else b - 1;
    DoubledGrows(policy.initialDelay, 0, m);
    DoubledGrows(policy.initialDelay, m, n);
  }

  function SaturatingDouble(delay: nat): nat {
    Min(2 * delay, DURATION_MAX)
  }

  method DelayForAttempt(policy: RetryPolicy, attempt: nat) returns (delay: nat)
    requires policy.Valid()
    ensures delay == Delay(policy, attempt)
  {
    delay := policy.initialDelay;
    var remaining := if attempt == 0 then 0 else attempt - 1;
    ghost var total := remaining;
    while remaining > 0 && delay < policy.maxDelay
      invariant 0 <= remaining <= total
      invariant delay == Min(policy.maxDelay, Doubled(policy.initialDelay, total - remaining))
    {
      delay := Min(SaturatingDouble(delay), policy.maxDelay);
      remaining := remaining - 1;
    }
    DoubledGrows(policy.initialDelay, total - remaining, total);
  }

  /** Persisted deadline of a requeue: whole milliseconds, saturating at the largest timestamp. */
  function RetryDeadline(policy: RetryPolicy, attempt: nat, now: nat): nat {
    Min(now + Min(Delay(policy, attempt) / 1_000_000, U64_MAX), U64_MAX)
  }

  /**
   The deadline of a requeue is not in the past and, unless it leaves the timestamp range,
   lies the delay in whole milliseconds ahead.
   */
  lemma RetryDeadlineMeaning(policy: RetryPolicy, attempt: nat, now: nat)
    requires policy.Valid() && attempt >= 1 && now <= U64_MAX
    ensures var millis := Min(policy.maxDelay, policy.initialDelay * Pow2(attempt - 1)) / 1_000_000;
      && now <= RetryDeadline(policy, attempt, now) <= U64_MAX
      && (now + millis <= U64_MAX ==> RetryDeadline(policy, attempt, now) == now + millis)
  {
    DelayClosedForm(policy, attempt);
  }
}

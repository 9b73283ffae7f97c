// Retry delays (internal/pipeline/pipeline.go) in 64-bit durations.
module RetryDelay {
  import opened Common

  const INT64_LIMIT := 0x8000_0000_0000_0000

  // What a 64-bit signed register holds of x.
  function Wrap(x: int): int {
    (x + INT64_LIMIT) % (2 * INT64_LIMIT) - INT64_LIMIT
  }

  function Pow2(n: nat): nat {
    if n == 0 then 1 else 2 * Pow2(n - 1)
  }

  // The delay after n doublings of a delay, as the loop computes it.
  function Delay(delay: Time, cap: Time, n: nat): Time
    decreases n
  {
    if n == 0 then Min(delay, cap)
    else
      var doubled := Wrap(delay * 2);
      if doubled >= cap then cap else Delay(doubled, cap, n - 1)
  }

  method Backoff(base: Time, cap: Time, attempt: int) returns (delay: Time)
    ensures delay == Delay(base, cap, Max(attempt - 1, 0))
  {
    delay := base;
    var i := 1;
    while i < attempt
      invariant 1 <= i && (i <= attempt || i == 1)
      invariant Delay(delay, cap, Max(attempt - i, 0)) == Delay(base, cap, Max(attempt - 1, 0))
    {
      delay := Wrap(delay * 2);
      if delay >= cap {
        return cap;
      }
      i := i + 1;
    }
    return Min(delay, cap);
  }

  // The first doubling of delay that reaches the cap, in unbounded arithmetic.
  function FirstAtCap(delay: Time, cap: Time): Time
    requires delay > 0
    decreases cap - delay
  {
    if 2 * delay >= cap then 2 * delay else FirstAtCap(2 * delay, cap)
  }

  predicate FitsInt64(delay: Time, cap: Time)
    requires delay > 0
  {
    FirstAtCap(delay, cap) < INT64_LIMIT
  }

  function Exponential(base: Time, cap: Time, n: nat): Time {
    Min(base * Pow2(n), cap)
  }

  lemma {:induction false} Pow2Grows(n: nat)
    ensures Pow2(n) > n
  {
    if n > 0 {
      Pow2Grows(n - 1);
    }
  }

  lemma {:induction false} DoubleFirst(x: int, n: nat)
    requires n > 0
    ensures x * Pow2(n) == 2 * x * Pow2(n - 1)
  {
  }

  lemma AtLeastOnce(x: Time, n: nat)
    requires x >= 0
    ensures x * Pow2(n) >= x
  {
    Pow2Grows(n);
    assert x * Pow2(n) == x + x * (Pow2(n) - 1);
  }

  // While no doubling overflows, the loop computes base * 2^n up to the cap.
  lemma {:induction false} DelayIsExponential(base: Time, cap: Time, n: nat)
    requires 0 < base < INT64_LIMIT && 0 < cap < INT64_LIMIT && FitsInt64(base, cap)
    ensures Delay(base, cap, n) == Exponential(base, cap, n)
    decreases n
  {
    if n > 0 {
      DoubleFirst(base, n);
      if 2 * base >= cap {
        AtLeastOnce(2 * base, n - 1);
      } else {
        DelayIsExponential(2 * base, cap, n - 1);
      }
    }
  }

  // Otherwise some attempt gets a wrong delay.
  lemma {:induction false} OverflowShows(base: Time, cap: Time) returns (n: nat)
    requires 0 < base < INT64_LIMIT && 0 < cap < INT64_LIMIT && !FitsInt64(base, cap)
    ensures Delay(base, cap, n) != Exponential(base, cap, n)
    decreases cap - base
  {
    if 2 * base >= cap {
      n := 1;
      assert Pow2(1) == 2 * Pow2(0);
      assert Delay(base, cap, 1) == Delay(Wrap(base * 2), cap, 0) == Wrap(base * 2);
    } else {
      var k := OverflowShows(2 * base, cap);
      n := k + 1;
      DoubleFirst(base, n);
    }
  }

  // The delay after n doublings is base * 2^n capped, for every n, exactly
  // when the doubling that first reaches the cap fits in 64 bits.
  lemma BackoffClosedForm(base: Time, cap: Time)
    requires 0 < base < INT64_LIMIT && 0 < cap < INT64_LIMIT
    ensures (forall n: nat :: Delay(base, cap, n) == Exponential(base, cap, n)) <==> FitsInt64(base, cap)
  {
    if FitsInt64(base, cap) {
      forall n: nat
        ensures Delay(base, cap, n) == Exponential(base, cap, n)
      {
        DelayIsExponential(base, cap, n);
      }
    } else {
      var n := OverflowShows(base, cap);
    }
  }

  // Delays below 2^62 ns (146 years) always fit.
  lemma {:induction false} SmallDelaysFit(base: Time, cap: Time)
    requires 0 < base < INT64_LIMIT / 2 && cap <= INT64_LIMIT / 2
    ensures FitsInt64(base, cap)
    decreases cap - base
  {
    if 2 * base < cap {
      SmallDelaysFit(2 * base, cap);
    }
  }

  // A later attempt never waits less.
  lemma BackoffMonotone(base: Time, cap: Time, m: nat, n: nat)
    requires 0 < base < INT64_LIMIT && 0 < cap < INT64_LIMIT && FitsInt64(base, cap)
    requires m <= n
    ensures 0 < Delay(base, cap, m) <= Delay(base, cap, n) <= cap
  {
    DelayIsExponential(base, cap, m);
    DelayIsExponential(base, cap, n);
    ExponentialMonotone(base, cap, m, n);
    AtLeastOnce(base, m);
  }

  lemma {:induction false} ExponentialMonotone(base: Time, cap: Time, m: nat, n: nat)
    requires 0 < base && m <= n
    ensures Exponential(base, cap, m) <= Exponential(base, cap, n)
  {
    if m < n {
      ExponentialMonotone(base, cap, m, n - 1);
      DoubleFirst(base, n);
      AtLeastOnce(base, n - 1);
    }
  }
}

/** withRetry: a retry loop with capped exponential delays. */
module Retry {

  /** What one call of the function does. */
  datatype Attempt<T> = Returned(value: T) | Threw(error: string)

  datatype Final<T> =
    | Value(value: T)
    | LastError(error: string)
    | RetryFailed                  // the throw after the loop

  function Min(a: real, b: real): real {
    if a < b then a else b
  }

  function Iterate(next: real -> real, first: real, n: nat): real {
    if n == 0 then first else next(Iterate(next, first, n - 1))
  }

  /** How the loop updates its delay. */
  function NextDelay(delay: real, maxTimeout: real, factor: real): real {
    Min(delay * factor, maxTimeout)
  }

  function Capped(maxTimeout: real, factor: real): real -> real {
    (delay: real) => NextDelay(delay, maxTimeout, factor)
  }

  function Scaled(factor: real): real -> real {
    (delay: real) => delay * factor
  }

  /** The wait after failure number `i`, counting from 0, as the loop updates it. */
  function DelayAt(minTimeout: real, maxTimeout: real, factor: real, i: nat): real {
    Iterate(Capped(maxTimeout, factor), minTimeout, i)
  }

  /** The delay without its cap. */
  function UncappedAt(minTimeout: real, factor: real, i: nat): real {
    Iterate(Scaled(factor), minTimeout, i)
  }

  function Pow(factor: real, n: nat): real {
    if n == 0 then 1.0 else Pow(factor, n - 1) * factor
  }

  /**
   `attempts(i)` is what the i-th call does, counting from 1. The function is called until it
   first succeeds or until it has failed `retries + 1` times, with the delays in between.
   The throw after the loop is reached exactly for a negative number of retries.
   */
  method WithRetry<T>(attempts: nat -> Attempt<T>, retries: int, minTimeout: real, maxTimeout: real, factor: real)
    returns (final: Final<T>, calls: nat, waits: seq<real>)
    ensures final.RetryFailed? <==> retries < 0
    ensures retries < 0 ==> calls == 0 && waits == []
    ensures retries >= 0 ==> 1 <= calls <= retries + 1 && |waits| == calls - 1
    ensures forall i | 1 <= i < calls :: attempts(i).Threw?
    ensures final.Value? <==> exists i | 1 <= i <= retries + 1 :: attempts(i).Returned?
    ensures final.Value? ==> attempts(calls) == Returned(final.value)
    ensures final.LastError? ==> calls == retries + 1 && attempts(calls) == Threw(final.error)
    ensures forall i | 0 <= i < |waits| :: waits[i] == DelayAt(minTimeout, maxTimeout, factor, i)
  {
    var currentDelay := minTimeout;
    var attempt := 1;
    calls, waits := 0, [];
    while attempt <= retries + 1
      invariant 1 <= attempt && (retries >= 0 ==> attempt <= retries + 1)
      invariant retries < 0 ==> attempt == 1
      invariant calls == attempt - 1 == |waits|
      invariant forall i | 1 <= i < attempt :: attempts(i).Threw?
      invariant forall i | 0 <= i < |waits| :: waits[i] == DelayAt(minTimeout, maxTimeout, factor, i)
      invariant currentDelay == DelayAt(minTimeout, maxTimeout, factor, attempt - 1)
    {
      calls := calls + 1;
      match attempts(attempt) {
        case Returned(value) =>
          return Value(value), calls, waits;
        case Threw(error) =>
          if attempt > retries {
            assert attempts(attempt).Threw?;
            return LastError(error), calls, waits;
          }
      }
      waits := waits + [currentDelay];
      assert Capped(maxTimeout, factor)(currentDelay) == NextDelay(currentDelay, maxTimeout, factor);
      currentDelay := Min(currentDelay * factor, maxTimeout);
      attempt := attempt + 1;
    }
    final := RetryFailed;
  }

  /* ---- The delays in closed form ---- */

  lemma MulLe(a: real, b: real, factor: real)
    requires a <= b && factor >= 0.0
    ensures a * factor <= b * factor
  {
  }

  lemma MulShrinks(a: real, b: real)
    requires a >= 0.0 && b <= 1.0
    ensures a * b <= a
  {
  }

  lemma MulNonNegative(a: real, b: real)
    requires a >= 0.0 && b >= 0.0
    ensures a * b >= 0.0
  {
  }

  lemma MulAssoc(a: real, b: real, c: real)
    ensures a * b * c == a * (b * c)
  {
  }

  /** The uncapped delay is minTimeout * factor ^ i. */
  lemma {:induction false} UncappedIsExponential(minTimeout: real, factor: real, i: nat)
    ensures UncappedAt(minTimeout, factor, i) == minTimeout * Pow(factor, i)
  {
    if i > 0 {
      UncappedIsExponential(minTimeout, factor, i - 1);
      MulAssoc(minTimeout, Pow(factor, i - 1), factor);
      assert UncappedAt(minTimeout, factor, i) == Scaled(factor)(UncappedAt(minTimeout, factor, i - 1));
    }
  }

  lemma ScaleBounds(factor: real, delay: real)
    requires factor >= 0.0 && delay >= 0.0
    ensures Scaled(factor)(delay) >= 0.0
    ensures factor <= 1.0 ==> Scaled(factor)(delay) <= delay
  {
    assert Scaled(factor)(delay) == delay * factor;
    MulNonNegative(delay, factor);
    if factor <= 1.0 {
      MulShrinks(delay, factor);
      assert delay * factor <= delay;
    }
  }

  lemma {:induction false} UncappedBounds(minTimeout: real, factor: real, i: nat)
    requires factor >= 0.0 && minTimeout >= 0.0
    ensures UncappedAt(minTimeout, factor, i) >= 0.0
    ensures factor <= 1.0 ==> UncappedAt(minTimeout, factor, i) <= minTimeout
  {
    if i > 0 {
      UncappedBounds(minTimeout, factor, i - 1);
      ScaleBounds(factor, UncappedAt(minTimeout, factor, i - 1));
    }
  }

  /** Capping before scaling makes no difference, because the delays grow once they are capped. */
  lemma CapStep(uncapped: real, maxTimeout: real, factor: real)
    requires factor >= 0.0 && maxTimeout >= 0.0
    requires maxTimeout < uncapped ==> factor >= 1.0
    ensures Capped(maxTimeout, factor)(Min(uncapped, maxTimeout)) == Min(Scaled(factor)(uncapped), maxTimeout)
  {
    if maxTimeout < uncapped {
      MulLe(maxTimeout, uncapped, factor);
      MulLe(1.0, factor, maxTimeout);
    }
  }

  /**
   The i-th wait is the uncapped exponential, capped: for growing and for shrinking delays.
   The first wait is not capped, so this needs minTimeout <= maxTimeout.
   */
  lemma {:induction false} DelayClosedForm(minTimeout: real, maxTimeout: real, factor: real, i: nat)
    requires factor >= 0.0 && 0.0 <= minTimeout <= maxTimeout
    ensures DelayAt(minTimeout, maxTimeout, factor, i) == Min(UncappedAt(minTimeout, factor, i), maxTimeout)
  {
    if i > 0 {
      DelayClosedForm(minTimeout, maxTimeout, factor, i - 1);
      UncappedBounds(minTimeout, factor, i - 1);
      CapStep(UncappedAt(minTimeout, factor, i - 1), maxTimeout, factor);
    }
  }

  predicate ClosedFormAt(minTimeout: real, maxTimeout: real, factor: real, i: nat) {
    DelayAt(minTimeout, maxTimeout, factor, i) == Min(minTimeout * Pow(factor, i), maxTimeout)
  }

  /** For a sane factor the waits are min(minTimeout * factor ^ i, maxTimeout) exactly when minTimeout <= maxTimeout. */
  lemma ClosedFormIff(minTimeout: real, maxTimeout: real, factor: real)
    requires factor >= 0.0 && minTimeout >= 0.0
    ensures (forall i: nat :: ClosedFormAt(minTimeout, maxTimeout, factor, i)) <==> minTimeout <= maxTimeout
  {
    if minTimeout <= maxTimeout {
      forall i: nat ensures ClosedFormAt(minTimeout, maxTimeout, factor, i) {
        DelayClosedForm(minTimeout, maxTimeout, factor, i);
        UncappedIsExponential(minTimeout, factor, i);
      }
    } else {
      assert Pow(factor, 0) == 1.0;
      assert !ClosedFormAt(minTimeout, maxTimeout, factor, 0);
    }
  }

  /* ---- The total wait ---- */

  function TotalDelay(minTimeout: real, maxTimeout: real, factor: real, n: nat): real {
    if n == 0 then 0.0
    else TotalDelay(minTimeout, maxTimeout, factor, n - 1) + DelayAt(minTimeout, maxTimeout, factor, n - 1)
  }

  /** minTimeout * (1 + factor + ... + factor ^ (n - 1)) */
  function GeometricSum(minTimeout: real, factor: real, n: nat): real {
    if n == 0 then 0.0 else GeometricSum(minTimeout, factor, n - 1) + UncappedAt(minTimeout, factor, n - 1)
  }

  function Sum(waits: seq<real>): real {
    if waits == [] then 0.0 else Sum(waits[..|waits| - 1]) + waits[|waits| - 1]
  }

  lemma {:induction false} SumOfDelays(waits: seq<real>, minTimeout: real, maxTimeout: real, factor: real)
    requires forall i | 0 <= i < |waits| :: waits[i] == DelayAt(minTimeout, maxTimeout, factor, i)
    ensures Sum(waits) == TotalDelay(minTimeout, maxTimeout, factor, |waits|)
  {
    if waits != [] {
      SumOfDelays(waits[..|waits| - 1], minTimeout, maxTimeout, factor);
    }
  }

  lemma MulStep(n: real, cap: real)
    ensures n * cap + cap == (n + 1.0) * cap
  {
  }

  function CapSum(maxTimeout: real, n: nat): real {
    if n == 0 then 0.0 else CapSum(maxTimeout, n - 1) + maxTimeout
  }

  lemma {:induction false} CapSumIs(maxTimeout: real, n: nat)
    ensures CapSum(maxTimeout, n) == n as real * maxTimeout
  {
    if n > 0 {
      CapSumIs(maxTimeout, n - 1);
      MulStep((n - 1) as real, maxTimeout);
      assert (n - 1) as real + 1.0 == n as real;
    }
  }

  lemma {:induction false} TotalDelayBounds(minTimeout: real, maxTimeout: real, factor: real, n: nat)
    requires factor >= 0.0 && 0.0 <= minTimeout <= maxTimeout
    ensures TotalDelay(minTimeout, maxTimeout, factor, n) <= CapSum(maxTimeout, n)
    ensures TotalDelay(minTimeout, maxTimeout, factor, n) <= GeometricSum(minTimeout, factor, n)
  {
    if n > 0 {
      TotalDelayBounds(minTimeout, maxTimeout, factor, n - 1);
      DelayClosedForm(minTimeout, maxTimeout, factor, n - 1);
    }
  }

  lemma CapSumBound(maxTimeout: real, n: nat, retries: nat)
    requires maxTimeout >= 0.0 && n <= retries
    ensures CapSum(maxTimeout, n) <= retries as real * maxTimeout
  {
    CapSumIs(maxTimeout, n);
    MulLe(n as real, retries as real, maxTimeout);
  }

  /**
   Whatever the function does, the waits of a run add up to at most retries times the cap,
   and to at most the uncapped geometric sum.
   */
  lemma TotalWaitBounds(waits: seq<real>, retries: nat, minTimeout: real, maxTimeout: real, factor: real)
    requires factor >= 0.0 && 0.0 <= minTimeout <= maxTimeout
    requires |waits| <= retries
    requires forall i | 0 <= i < |waits| :: waits[i] == DelayAt(minTimeout, maxTimeout, factor, i)
    ensures Sum(waits) <= retries as real * maxTimeout
    ensures Sum(waits) <= GeometricSum(minTimeout, factor, |waits|)
  {
    SumOfDelays(waits, minTimeout, maxTimeout, factor);
    TotalDelayBounds(minTimeout, maxTimeout, factor, |waits|);
    CapSumBound(maxTimeout, |waits|, retries);
  }
}

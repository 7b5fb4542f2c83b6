/** Exponential backoff of failed runs (cognix/scheduler/retry.py). */
module Retry {
  import opened Wrappers

  datatype Policy = Policy(base: int, cap: int)

  function Pow2(n: nat): (p: int)
    ensures p >= 1
  {
    if n == 0 then 1 else 2 * Pow2(n - 1)
  }

  function Delay(attempts: int, policy: Policy): int {
    Min(policy.base * Pow2(Max(attempts - 1, 0)), policy.cap)
  }

  /** Sum of the delays before retries 1, 2, ..., n. */
  function TotalBackoff(n: nat, policy: Policy): int {
    if n == 0 then 0 else TotalBackoff(n - 1, policy) + Delay(n, policy)
  }

  /** x doubled n times. */
  function Doubled(x: int, n: nat): int {
    if n == 0 then x else 2 * Doubled(x, n - 1)
  }

  lemma {:induction false} DoubledIsProduct(x: int, n: nat)
    ensures Doubled(x, n) == x * Pow2(n)
  {
    if n > 0 {
      DoubledIsProduct(x, n - 1);
      Rearrange(x, Pow2(n - 1));
    }
  }

  lemma Rearrange(x: int, p: int)
    ensures 2 * (x * p) == x * (2 * p)
  {
  }

  lemma DelayIs(attempts: int, policy: Policy)
    ensures Delay(attempts, policy) == Min(Doubled(policy.base, Max(attempts - 1, 0)), policy.cap)
  {
    DoubledIsProduct(policy.base, Max(attempts - 1, 0));
  }

  lemma {:induction false} DoubledMonotone(x: int, m: nat, n: nat)
    requires m <= n && x >= 0
    ensures 0 <= Doubled(x, m) <= Doubled(x, n)
  {
    if m < n {
      DoubledMonotone(x, m, n - 1);
    } else if n > 0 {
      DoubledMonotone(x, m - 1, n - 1);
    }
  }

  lemma {:induction false} DoubledSinks(x: int, n: nat)
    requires x < 0
    ensures Doubled(x, n) + n < 0
  {
    if n > 0 {
      DoubledSinks(x, n - 1);
    }
  }

  /** Delays never decrease from one attempt to the next, exactly when the base is not negative. */
  lemma DelaysNeverDecrease(policy: Policy)
    ensures policy.base >= 0 <==> forall i: int, j: int :: i <= j ==> Delay(i, policy) <= Delay(j, policy)
  {
    if policy.base >= 0 {
      forall i: int, j: int | i <= j ensures Delay(i, policy) <= Delay(j, policy) {
        DelayIs(i, policy);
        DelayIs(j, policy);
        DoubledMonotone(policy.base, Max(i - 1, 0), Max(j - 1, 0));
      }
    } else {
      var k: nat := Max(-policy.cap, 0);
      DoubledSinks(policy.base, k);
      DelayIs(k + 1, policy);
      DelayIs(k + 2, policy);
      assert Delay(k + 1, policy) > Delay(k + 2, policy);
    }
  }

  lemma {:induction false} TotalUnderSeries(n: nat, policy: Policy)
    ensures TotalBackoff(n, policy) <= Doubled(policy.base, n) - policy.base
    ensures TotalBackoff(n, policy) == Doubled(policy.base, n) - policy.base
       <==> forall k: nat :: k < n ==> Doubled(policy.base, k) <= policy.cap
  {
    if n > 0 {
      TotalUnderSeries(n - 1, policy);
      DelayIs(n, policy);
    }
  }

  lemma {:induction false} TotalUnderCap(n: nat, policy: Policy)
    ensures TotalBackoff(n, policy) <= n * policy.cap
  {
    if n > 0 {
      TotalUnderCap(n - 1, policy);
      assert n * policy.cap == (n - 1) * policy.cap + policy.cap;
    }
  }

  /** The whole backoff of n retries stays under both the uncapped series and n times the cap,
      and meets the uncapped series exactly when the cap never binds. */
  lemma TotalBackoffBounds(n: nat, policy: Policy)
    ensures TotalBackoff(n, policy) <= policy.base * Pow2(n) - policy.base
    ensures TotalBackoff(n, policy) <= n * policy.cap
    ensures TotalBackoff(n, policy) == policy.base * Pow2(n) - policy.base
       <==> forall k: nat :: k < n ==> Doubled(policy.base, k) <= policy.cap
  {
    TotalUnderSeries(n, policy);
    TotalUnderCap(n, policy);
    DoubledIsProduct(policy.base, n);
  }
}

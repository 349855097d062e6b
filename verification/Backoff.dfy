/** The two exponential delays: the health monitor's, and the download engine's. */
module Backoff {
  import opened Basics

  const SECOND := 1_000_000_000

  const HEALTH_BASE := 2 * SECOND
  const HEALTH_MAX := 120 * SECOND
  const RETRY_BASE := SECOND
  const RETRY_MAX := 30 * SECOND

  function Pow2(n: nat): (p: nat)
    ensures p >= 1
  {
    if n == 0 then 1 else 2 * Pow2(n - 1)
  }

  function Capped(d: int, max: int): int { if d < max then d else max }

  /** Go's shift of an int64. */
  function Shl(d: int, n: nat): int { Wrap64(d * Pow2(n)) }

  /** healthBackoff before jitter. */
  function HealthDelay(attempt: int): int {
    var a := if attempt < 0 then 0 else attempt;
    if a < 31 && 0 < Shl(HEALTH_BASE, a) < HEALTH_MAX then Shl(HEALTH_BASE, a) else HEALTH_MAX
  }

  /** The engine's backoff before jitter. */
  function RetryDelay(base: int, attempt: nat): int {
    if Shl(base, attempt) < RETRY_MAX then Shl(base, attempt) else RETRY_MAX
  }

  lemma {:induction false} Pow2Adds(a: nat, b: nat)
    ensures Pow2(a + b) == Pow2(a) * Pow2(b)
  {
    if b > 0 {
      Pow2Adds(a, b - 1);
      assert a + b - 1 == a + (b - 1);
    }
  }

  lemma {:induction false} Pow2Grows(a: nat, b: nat)
    requires a <= b
    ensures Pow2(a) <= Pow2(b)
  {
    if a < b {
      Pow2Grows(a, b - 1);
    }
  }

  lemma Pow2Six()
    ensures Pow2(6) == 64
  {
    assert Pow2(3) == 8;
    Pow2Adds(3, 3);
  }

  lemma Pow2Landmarks()
    ensures Pow2(30) == 0x4000_0000 && Pow2(33) == 0x2_0000_0000 && Pow2(55) == 0x80_0000_0000_0000
  {
    Pow2Six();
    Pow2Adds(6, 6);
    Pow2Adds(12, 12);
    Pow2Adds(24, 6);
    assert Pow2(3) == 8;
    Pow2Adds(30, 3);
    assert Pow2(1) == 2;
    Pow2Adds(24, 1);
    Pow2Adds(30, 25);
  }

  lemma HealthShift(attempt: nat, p: int)
    requires p == Pow2(attempt) && 1 <= p
    requires if attempt <= 30 then p <= 0x4000_0000 else p >= 0x4000_0000
    ensures HealthDelay(attempt) == Capped(HEALTH_BASE * p, HEALTH_MAX)
  {
    hide Pow2;
  }

  /** The monitor's delay is the true doubling capped at two minutes, for an outage of any length. */
  lemma {:induction false} HealthDelayExact(attempt: nat)
    ensures HealthDelay(attempt) == Capped(2_000_000_000 * Pow2(attempt), 120_000_000_000)
    ensures 2_000_000_000 <= HealthDelay(attempt) <= 120_000_000_000
    ensures HealthDelay(0 - attempt) == 2_000_000_000
  {
    hide Pow2, HealthDelay;
    Pow2Landmarks();
    if attempt <= 30 {
      Pow2Grows(attempt, 30);
    } else {
      Pow2Grows(30, attempt);
    }
    HealthShift(attempt, Pow2(attempt));
    FirstDelay(attempt);
  }

  /** An attempt number below zero counts as the first. */
  lemma FirstDelay(attempt: nat)
    ensures HealthDelay(0 - attempt) == 2_000_000_000
  {
  }

  /** For any base the engine's delay is the true doubling capped at half a minute while the doubling fits an int64. */
  lemma {:induction false} RetryDelayExact(base: int, attempt: nat)
    requires 0 < base && base * Pow2(attempt) <= MAX_INT64
    ensures RetryDelay(base, attempt) == Capped(base * Pow2(attempt), 30_000_000_000)
  {
    assert base * Pow2(attempt) > 0;
    hide Pow2;
  }

  /**
   * The shift is unguarded: with that many attempts configured the later ones would not wait at
   * all. Unreachable today, since nothing but a test sets RetryAttempts and its default is 5.
   */
  lemma {:induction false} RetryDelayVanishes(attempt: nat)
    requires attempt >= 55
    ensures RetryDelay(RETRY_BASE, attempt) == 0
  {
    Pow2Landmarks();
    Pow2Adds(55, attempt - 55);
    var k := Pow2(attempt - 55);
    hide Pow2;
    assert RETRY_BASE * (0x80_0000_0000_0000 * k) == 0x1_0000_0000_0000_0000 * (1953125 * k);
    WrapsToZero(1953125 * k);
  }

  /** The attempts past 33 whose wrapped doubling happens to lie above the cap. */
  const LUCKY: set<nat> := {37, 41, 42, 45, 47, 50, 51, 53}

  /** With the default base that is every attempt up to 33, and eight more by luck; a download makes five. */
  lemma {:induction false} RetryDelayByDefaultIff(attempt: nat)
    ensures RetryDelay(RETRY_BASE, attempt) == Capped(1_000_000_000 * Pow2(attempt), 30_000_000_000)
       <==> attempt <= 33 || attempt in LUCKY
  {
    hide Pow2;
    Pow2Landmarks();
    if attempt <= 33 {
      Pow2Grows(attempt, 33);
      RetryDelayExact(RETRY_BASE, attempt);
    } else if attempt >= 55 {
      Pow2Grows(33, attempt);
      RetryDelayVanishes(attempt);
    } else {
      Pow2Grows(33, attempt);
      WrappedAt(attempt - 33);
      hide Shl;
      assert Shl(RETRY_BASE, attempt) == WRAPPED[attempt - 33];
    }
  }

  /** The shifts by 33 and more, wrapped. */
  const WRAPPED: seq<int> := [
    8589934592000000000, -1266874889709551616, -2533749779419103232, -5067499558838206464,
    8311744956033138688, -1823254161643274240, -3646508323286548480, -7293016646573096960,
    3860710780563357696, 7721421561126715392, -3003900951456120832, -6007801902912241664,
    6431140267885068288, -5584463537939415040, 7277816997830721536, -3891110078048108544,
    -7782220156096217088, 2882303761517117440, 5764607523034234880, -6917529027641081856,
    4611686018427387904, -9223372036854775808
  ]

  /** Shifting once more doubles, and wraps at most once. */
  lemma ShlNext(d: int, n: nat)
    ensures var s := 2 * Shl(d, n);
      Shl(d, n + 1) == if s > MAX_INT64 then s - 0x1_0000_0000_0000_0000
                       else if s < MIN_INT64 then s + 0x1_0000_0000_0000_0000 else s
  {
    var x := d * Pow2(n);
    assert d * Pow2(n + 1) == 2 * x;
    hide Pow2;
    WrapDoubles(x);
  }

  lemma WrapDoubles(x: int)
    ensures var s := 2 * Wrap64(x);
      Wrap64(2 * x) == if s > MAX_INT64 then s - 0x1_0000_0000_0000_0000
                       else if s < MIN_INT64 then s + 0x1_0000_0000_0000_0000 else s
  {
    var n, q := 0x1_0000_0000_0000_0000, (x - MIN_INT64) / 0x1_0000_0000_0000_0000;
    assert x == Wrap64(x) + n * q;
    WrapShifts(2 * Wrap64(x), 2 * q);
  }

  lemma WrapShifts(s: int, q: int)
    requires 2 * MIN_INT64 <= s <= 2 * MAX_INT64
    ensures Wrap64(s + 0x1_0000_0000_0000_0000 * q)
         == if s > MAX_INT64 then s - 0x1_0000_0000_0000_0000
            else if s < MIN_INT64 then s + 0x1_0000_0000_0000_0000 else s
  {
    var n := 0x1_0000_0000_0000_0000;
    assert (s + n * q - MIN_INT64) % n == (s - MIN_INT64) % n;
  }

  lemma {:induction false} WrappedAt(k: nat)
    requires k <= 21
    ensures Shl(RETRY_BASE, 33 + k) == WRAPPED[k]
  {
    hide Pow2;
    if k == 0 {
      Pow2Landmarks();
    } else {
      WrappedAt(k - 1);
      ShlNext(RETRY_BASE, 33 + k - 1);
      hide Shl;
      assert 33 + k - 1 + 1 == 33 + k;
    }
  }

  lemma WrapsToZero(k: int)
    ensures Wrap64(0x1_0000_0000_0000_0000 * k) == 0
  {
    var n := 0x1_0000_0000_0000_0000;
    assert (n * k - MIN_INT64) % n == (0 - MIN_INT64) % n;
  }
}

// Rounded percentages and the health they yield. A rate is held in hundredths of a percent,
// so 5000 stands for 50.00. The three binary64 operations behind a rate may each be off by
// half a unit in the last place.
module Rates {
  import opened Backoff

  datatype Health = Healthy | Degraded | Critical

  const TWO_TO_THE_52 := 0x10_0000_0000_0000
  const TWO_TO_THE_53 := 0x20_0000_0000_0000

  // Up to here an exact tie between two hundredths is the only case in which the binary64
  // result can miss the true nearest one.
  const MAX_ATTEMPTS: nat := 100_000_000_000

  // m / 2^e is a binary64 number nearest to x, in the range metrics take.
  ghost predicate NearestDouble(x: real, m: int, e: nat) {
    TWO_TO_THE_52 <= m <= TWO_TO_THE_53 && -0.5 <= x * Pow2(e) as real - m as real <= 0.5
  }

  // r is the result of one binary64 operation whose exact result is x.
  ghost predicate Rounds(x: real, r: real) {
    (x == 0.0 && r == 0.0) || exists m, e: nat :: NearestDouble(x, m, e) && r == m as real / Pow2(e) as real
  }

  // Math.round: the nearest integer, ties upwards.
  function MathRound(v: real): int {
    (v + 0.5).Floor
  }

  // calculatePercentage and roundMetric: a quotient and two multiplications, each rounded.
  ghost predicate IsPercentage(numerator: nat, denominator: nat, rate: int) {
    if denominator <= 0 then rate == 0
    else exists quotient, percentage, hundredths ::
      RateSteps(numerator, denominator, quotient, percentage, hundredths) && rate == MathRound(hundredths)
  }

  ghost predicate RateSteps(numerator: nat, denominator: nat, quotient: real, percentage: real, hundredths: real)
    requires denominator > 0
  {
    && Rounds(numerator as real / denominator as real, quotient)
    && Rounds(quotient * 100.0, percentage)
    && Rounds(percentage * 100.0, hundredths)
  }

  function DeriveExecutionHealth(failed: nat, timedOut: nat, failureRate: int, timeoutRate: int): Health {
    if failureRate + timeoutRate >= 5000 then Critical
    else if failed > 0 || timedOut > 0 then Degraded
    else Healthy
  }

  // The true share numerator / denominator lies within half a hundredth of the rate.
  predicate Nearest(numerator: nat, denominator: nat, rate: int) {
    0 <= 2 * (denominator * rate) - 20000 * numerator + denominator <= 2 * denominator
  }

  // The share lies exactly between two hundredths and the lower one was taken.
  predicate TieRoundedDown(numerator: nat, denominator: nat, rate: int) {
    2 * (denominator * rate) + denominator == 20000 * numerator
  }

  // The share lies halfway between two hundredths.
  ghost predicate OnTie(numerator: nat, denominator: nat) {
    exists k: int :: TieRoundedDown(numerator, denominator, k)
  }

  // ---- rounding errors ----

  lemma RoundError(x: real, r: real)
    requires x >= 0.0 && Rounds(x, r)
    ensures -x <= 9_000_000_000_000_000.0 * (r - x) <= x
  {
    if !(x == 0.0 && r == 0.0) {
      var m, e: nat :| NearestDouble(x, m, e) && r == m as real / Pow2(e) as real;
      ScaledError(x, r, m as real, Pow2(e) as real);
    }
  }

  lemma ScaledError(x: real, r: real, m: real, unit: real)
    requires unit > 0.0 && r == m / unit && m >= TWO_TO_THE_52 as real && -0.5 <= x * unit - m <= 0.5
    ensures -x <= 9_000_000_000_000_000.0 * (r - x) <= x
  {
    assert r * unit == m;
    var error := 9_000_000_000_000_000.0 * (r - x);
    assert error * unit == 9_000_000_000_000_000.0 * (m - x * unit);
    CancelUnit(x - error, unit);
    CancelUnit(error + x, unit);
  }

  lemma CancelUnit(z: real, unit: real)
    requires unit > 0.0 && z * unit >= 0.0
    ensures z >= 0.0
  {
  }

  lemma NonNegative(x: real, y: real)
    requires x >= 0.0 && y >= 0.0
    ensures x * y >= 0.0
  {
  }

  // Three operations move the result by less than the twentieth part of 10^-10.
  lemma StepsError(numerator: nat, denominator: nat, quotient: real, percentage: real, hundredths: real)
    requires 0 < denominator && numerator <= denominator
    requires RateSteps(numerator, denominator, quotient, percentage, hundredths)
    ensures var x := 10000.0 * (numerator as real / denominator as real);
            -0.000_000_000_004_5 <= hundredths - x <= 0.000_000_000_004_5
  {
    hide Rounds;
    var y := numerator as real / denominator as real;
    assert 0.0 <= y <= 1.0;
    RoundError(y, quotient);
    RoundError(quotient * 100.0, percentage);
    RoundError(percentage * 100.0, hundredths);
  }

  lemma MagnifiedError(d: real, x: real, v: real, bound: real)
    requires 0.0 < d <= bound && -0.000_000_000_004_5 <= v - x <= 0.000_000_000_004_5
    ensures -0.000_000_000_004_5 * bound <= d * v - d * x <= 0.000_000_000_004_5 * bound
  {
    var z := v - x;
    assert d * v - d * x == d * z;
    NonNegative(d, 0.000_000_000_004_5 - z);
    NonNegative(d, z + 0.000_000_000_004_5);
  }

  // A rate is a nearest hundredth of a percent; only an exact tie may go either way.
  lemma RateIsNearest(numerator: nat, denominator: nat, rate: int)
    requires 0 < denominator <= MAX_ATTEMPTS && numerator <= denominator
    requires IsPercentage(numerator, denominator, rate)
    ensures Nearest(numerator, denominator, rate)
  {
    hide RateSteps;
    var quotient, percentage, hundredths :|
      RateSteps(numerator, denominator, quotient, percentage, hundredths) && rate == MathRound(hundredths);
    StepsError(numerator, denominator, quotient, percentage, hundredths);
    NearestFromError(numerator, denominator, rate, hundredths);
  }

  lemma NearestFromError(numerator: nat, denominator: nat, rate: int, v: real)
    requires 0 < denominator <= MAX_ATTEMPTS && rate == MathRound(v)
    requires var x := 10000.0 * (numerator as real / denominator as real);
             -0.000_000_000_004_5 <= v - x <= 0.000_000_000_004_5
    ensures Nearest(numerator, denominator, rate)
  {
    var d, n := denominator as real, numerator as real;
    var y := n / d;
    MagnifiedError(d, 10000.0 * y, v, MAX_ATTEMPTS as real);
    assert d * (10000.0 * y) == 10000.0 * n by {
      assert d * y == n;
    }
    HalfUnit(denominator, rate, v);
  }

  lemma HalfUnit(d: nat, rate: int, v: real)
    requires d > 0 && rate == MathRound(v)
    ensures (d * rate) as real - d as real / 2.0 <= d as real * v <= (d * rate) as real + d as real / 2.0
  {
    var over := v - rate as real;
    assert -0.5 <= over <= 0.5;
    assert d as real * v == (d * rate) as real + d as real * over;
    NonNegative(d as real, over + 0.5);
    NonNegative(d as real, 0.5 - over);
  }

  // ---- what the rates promise ----

  lemma Monotone(d: nat, x: int, y: int)
    requires d > 0 && x < y
    ensures d * x + d <= d * y
  {
    assert d * (y - x - 1) >= 0;
  }

  // Cancelling the common factor d from bounds on d * sum.
  lemma Cancel(d: nat, sum: int, lo: int, hi: int)
    requires d > 0 && d * lo < d * sum + d && d * sum < d * hi + d
    ensures lo <= sum <= hi
  {
    if sum < lo {
      Monotone(d, sum, lo);
    }
    if hi < sum {
      Monotone(d, hi, sum);
    }
  }

  // The three rates add up to 100.00 but for one hundredth either way.
  lemma RatesSum(completed: nat, failed: nat, timedOut: nat, success: int, failure: int, timeout: int)
    requires 0 < completed + failed + timedOut <= MAX_ATTEMPTS
    requires var d := completed + failed + timedOut;
             && IsPercentage(completed, d, success)
             && IsPercentage(failed, d, failure)
             && IsPercentage(timedOut, d, timeout)
    ensures 9999 <= success + failure + timeout <= 10001
  {
    hide IsPercentage;
    var d := completed + failed + timedOut;
    RateIsNearest(completed, d, success);
    RateIsNearest(failed, d, failure);
    RateIsNearest(timedOut, d, timeout);
    AddThree(d, success, failure, timeout);
    Cancel(d, success + failure + timeout, 9999, 10001);
  }

  lemma AddThree(d: nat, x: int, y: int, z: int)
    ensures d * (x + y + z) == d * x + d * y + d * z
  {
  }

  // More than half failing or timing out is always critical. Exactly half is critical unless
  // both rates lie on a tie and go down, so always when the failed share is on no tie.
  // Critical means at least 49.99 percent did; healthy means none did.
  lemma HealthMeaning(completed: nat, failed: nat, timedOut: nat, failure: int, timeout: int)
    requires 0 < completed + failed + timedOut <= MAX_ATTEMPTS
    requires var d := completed + failed + timedOut;
             IsPercentage(failed, d, failure) && IsPercentage(timedOut, d, timeout)
    ensures var d := completed + failed + timedOut;
            var health := DeriveExecutionHealth(failed, timedOut, failure, timeout);
            && (2 * (failed + timedOut) > d ==> health.Critical?)
            && (2 * (failed + timedOut) == d ==>
                  (health.Critical? <==> !(TieRoundedDown(failed, d, failure) && TieRoundedDown(timedOut, d, timeout))))
            && (2 * (failed + timedOut) == d && !OnTie(failed, d) ==> health.Critical?)
            && (health.Critical? ==> 10000 * (failed + timedOut) >= 4999 * d)
            && (health.Healthy? <==> failed + timedOut == 0)
  {
    hide IsPercentage;
    var d := completed + failed + timedOut;
    RateIsNearest(failed, d, failure);
    RateIsNearest(timedOut, d, timeout);
    var sum := failure + timeout;
    AddThree(d, failure, timeout, 0);
    if sum < 4999 {
      Monotone(d, sum, 4999);
    } else if 5000 < sum {
      Monotone(d, 5000, sum);
    }
  }

  // ---- the tie and the margins are reached ----

  // m / 2^e is nearer to x than any other binary64 number.
  ghost predicate OnlyDouble(x: real, m: int, e: nat) {
    TWO_TO_THE_52 < m < TWO_TO_THE_53 && -0.5 < x * Pow2(e) as real - m as real < 0.5
  }

  // The mantissas of one rate, each operation having a single nearest result.
  ghost predicate OnlySteps(n: nat, d: nat, m1: int, e1: nat, m2: int, e2: nat, m3: int, e3: nat)
    requires d > 0
  {
    && OnlyDouble(n as real / d as real, m1, e1)
    && OnlyDouble(m1 as real / Pow2(e1) as real * 100.0, m2, e2)
    && OnlyDouble(m2 as real / Pow2(e2) as real * 100.0, m3, e3)
  }

  lemma OnlyRounds(x: real, m: int, e: nat)
    requires OnlyDouble(x, m, e)
    ensures Rounds(x, m as real / Pow2(e) as real)
  {
    hide Pow2;
    assert NearestDouble(x, m, e);
  }

  lemma StepsGiveRate(n: nat, d: nat, m1: int, e1: nat, m2: int, e2: nat, m3: int, e3: nat)
    requires d > 0 && OnlySteps(n, d, m1, e1, m2, e2, m3, e3)
    ensures IsPercentage(n, d, MathRound(m3 as real / Pow2(e3) as real))
  {
    hide Pow2, OnlyDouble, Rounds, MathRound;
    var q, p, v := m1 as real / Pow2(e1) as real, m2 as real / Pow2(e2) as real, m3 as real / Pow2(e3) as real;
    OnlyRounds(n as real / d as real, m1, e1);
    OnlyRounds(q * 100.0, m2, e2);
    OnlyRounds(p * 100.0, m3, e3);
    assert RateSteps(n, d, q, p, v);
  }

  lemma {:induction false} PowerSum(a: nat, b: nat)
    ensures Pow2(a + b) == Pow2(a) * Pow2(b)
  {
    if a > 0 {
      PowerSum(a - 1, b);
    }
  }

  lemma Powers()
    ensures Pow2(40) == 0x10000000000
    ensures Pow2(41) == 0x20000000000
    ensures Pow2(42) == 0x40000000000
    ensures Pow2(43) == 0x80000000000
    ensures Pow2(46) == 0x400000000000
    ensures Pow2(47) == 0x800000000000
    ensures Pow2(48) == 0x1000000000000
    ensures Pow2(49) == 0x2000000000000
    ensures Pow2(53) == 0x20000000000000
    ensures Pow2(54) == 0x40000000000000
    ensures Pow2(55) == 0x80000000000000
    ensures Pow2(56) == 0x100000000000000
  {
    assert Pow2(6) == 64 && Pow2(7) == 128 && Pow2(8) == 256 && Pow2(9) == 512 && Pow2(10) == 1024;
    PowerSum(10, 10);
    PowerSum(20, 20);
    PowerSum(6, 40);
    PowerSum(7, 40);
    PowerSum(8, 40);
    PowerSum(9, 40);
    PowerSum(7, 46);
    PowerSum(8, 46);
    PowerSum(9, 46);
    PowerSum(10, 46);
  }

  // 2000 completed, 363 failed and 1637 timed out is exactly half, both rates go down to
  // 9.07 and 40.92, and the code calls it degraded.
  lemma HalfCanBeDegraded()
    ensures OnlySteps(363, 4000, 6539226658941960, 56, 5108770827298406, 49, 7982454417653759, 43)
    ensures OnlySteps(1637, 4000, 7372392590005502, 54, 5759681710941798, 47, 8999502673346559, 41)
    ensures IsPercentage(363, 4000, 907) && IsPercentage(1637, 4000, 4092)
    ensures DeriveExecutionHealth(363, 1637, 907, 4092).Degraded?
  {
    Powers();
    hide Pow2;
    StepsGiveRate(363, 4000, 6539226658941960, 56, 5108770827298406, 49, 7982454417653759, 43);
    StepsGiveRate(1637, 4000, 7372392590005502, 54, 5759681710941798, 47, 8999502673346559, 41);
  }

  // A third of each kind makes 99.99, four to one to one makes 100.01, and a share of
  // exactly 49.99 percent, 4999 failed and 4999 timed out of 20000, is called critical.
  lemma MarginsAreMet()
    ensures IsPercentage(1, 3, 3333)
    ensures IsPercentage(4, 6, 6667) && IsPercentage(1, 6, 1667)
    ensures IsPercentage(4999, 20000, 2500) && DeriveExecutionHealth(4999, 4999, 2500, 2500).Critical?
  {
    Powers();
    hide Pow2;
    StepsGiveRate(1, 3, 6004799503160661, 54, 4691249611844266, 47, 7330077518506666, 41);
    StepsGiveRate(4, 6, 6004799503160661, 53, 4691249611844266, 46, 7330077518506666, 40);
    StepsGiveRate(1, 6, 6004799503160661, 55, 4691249611844266, 48, 7330077518506666, 42);
    StepsGiveRate(4999, 20000, 9005397814890044, 55, 7035467042882847, 48, 5496458627252224, 41);
  }
}

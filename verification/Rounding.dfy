/** Money arithmetic: JavaScript's Math.round, and the amounts and fees computed with it. */
module Rounding {

  /** Math.round: to the nearest integer, halves upwards. */
  function MathRound(x: real): int {
    (x + 0.5).Floor
  }

  /** Math.round(n / 100): integer division of n + 50, also for negative n (Dafny's `/` floors here). */
  function RoundHundredths(n: int): (r: int)
    ensures r == (n + 50) / 100
  {
    var x := n as real / 100.0 + 0.5;
    var q := (n + 50) / 100;
    assert q as real <= x < (q + 1) as real by {
      assert 100 * q <= n + 50 < 100 * q + 100;
      assert (100 * q) as real <= (n + 50) as real < (100 * q + 100) as real;
      assert x == (n + 50) as real / 100.0;
    }
    MathRound(n as real / 100.0)
  }

  /** The percentage of an amount, as carts and renewals round it. */
  function PercentOf(amount: int, pct: int): int {
    RoundHundredths(amount * pct)
  }

  /** A percentage between 0 and 100 of a non-negative amount lies between nothing and the amount,
      and is the exact value to the nearest cent, halves upwards. */
  lemma PercentBounds(amount: int, pct: int)
    requires 0 <= amount && 0 <= pct <= 100
    ensures 0 <= PercentOf(amount, pct) <= amount
    ensures -50 < 100 * PercentOf(amount, pct) - amount * pct <= 50
  {
    assert 0 <= amount * pct <= amount * 100;
  }

  /** Buying more never costs less: the price net of a fixed percentage is non-decreasing. */
  lemma NetPriceMonotone(s: int, t: int, pct: int)
    requires 0 <= s <= t && 0 <= pct <= 100
    ensures s - PercentOf(s, pct) <= t - PercentOf(t, pct)
  {
    assert (t - s) * pct <= (t - s) * 100;
    assert t * pct == s * pct + (t - s) * pct;
  }

  /** COP has no decimals at the providers: stored hundredths become whole pesos. */
  function ChargedPesos(totalCents: int): int {
    RoundHundredths(totalCents)
  }

  /** The marketplace fee on a payment, only when a percentage is configured. */
  function MarketplaceFee(amount: int, feePct: real): int {
    if feePct > 0.0 then MathRound(amount as real * feePct / 100.0) else 0
  }

  lemma ChargedWithinFiftyCents(totalCents: int)
    ensures -50 < 100 * ChargedPesos(totalCents) - totalCents <= 50
  {}

  lemma MathRoundNearest(x: real)
    ensures x - 0.5 < MathRound(x) as real <= x + 0.5
  {}

  lemma Scale(a: real, b: real, p: real)
    requires a <= b && 0.0 <= p
    ensures a * p <= b * p
  {}

  /** The peso amount times a percentage, against the exact product of the total in hundredths. */
  lemma ScaledDistance(t: real, a: real, p: real) returns (exact: real, target: real)
    requires t - 50.0 <= 100.0 * a <= t + 50.0 && 0.0 <= p
    ensures exact == a * p && target == t * p
    ensures target - 50.0 * p <= 100.0 * exact <= target + 50.0 * p
  {
    exact, target := a * p, t * p;
    var up, down := t + 50.0 - 100.0 * a, 100.0 * a - t + 50.0;
    Scale(0.0, up, p);
    Scale(0.0, down, p);
    assert up * p == target + 50.0 * p - 100.0 * exact;
    assert down * p == 100.0 * exact - target + 50.0 * p;
  }

  lemma FeeDistance(t: real, a: real, f: real, p: real)
    requires t - 50.0 <= 100.0 * a <= t + 50.0 && 0.0 <= p
    requires a * p / 100.0 - 0.5 <= f <= a * p / 100.0 + 0.5
    ensures -5000.0 - 50.0 * p <= 10000.0 * f - t * p <= 5000.0 + 50.0 * p
  {
    var exact, target := ScaledDistance(t, a, p);
    assert exact - 50.0 <= 100.0 * f <= exact + 50.0;
  }

  /** The twice rounded fee never exceeds the payment, and stays within half a peso, plus half a peso's
      percentage, of the exact percentage of the stored total. */
  lemma FeeBounds(totalCents: int, feePct: real)
    requires 0 <= totalCents && 0.0 <= feePct <= 100.0
    ensures var amount := ChargedPesos(totalCents);
            var fee := MarketplaceFee(amount, feePct);
            && 0 <= fee <= amount
            && -50.0 < 100.0 * fee as real - amount as real * feePct <= 50.0
            && -5000.0 - 50.0 * feePct <= 10000.0 * fee as real - totalCents as real * feePct <= 5000.0 + 50.0 * feePct
  {
    var amount := ChargedPesos(totalCents);
    var fee := MarketplaceFee(amount, feePct);
    ChargedWithinFiftyCents(totalCents);
    MathRoundNearest(amount as real * feePct / 100.0);
    assert 0 <= fee <= amount by {
      Scale(feePct, 100.0, amount as real);
      Scale(0.0, amount as real, feePct);
    }
    FeeDistance(totalCents as real, amount as real, fee as real, feePct);
  }
}

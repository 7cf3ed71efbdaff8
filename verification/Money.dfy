/** Whole minor units in the one currency the platform has, kept inside the range a JSON number can
    carry exactly. */
module Money {
  import opened Common

  const MAX_SAFE := 9007199254740991
  const BASIS := 10000
  const INT64 := 0x1_0000_0000_0000_0000

  /** What New lets through. Every amount is built by New or decoded by the same rule. */
  type Amount = minor: int | -MAX_SAFE <= minor <= MAX_SAFE

  datatype MoneyError = OutOfRange | DivideByZero

  predicate InRange(minor: int) {
    -MAX_SAFE <= minor <= MAX_SAFE
  }

  function New(minor: int): Result<Amount, MoneyError> {
    if InRange(minor) then Ok(minor) else Err(OutOfRange)
  }

  function Add(a: Amount, b: Amount): Result<Amount, MoneyError> {
    New(a + b)
  }

  function Sub(a: Amount, b: Amount): Result<Amount, MoneyError> {
    New(a - b)
  }

  /** Two's complement: what is left of a sum in a 64-bit signed integer. */
  function Wrap(x: int): int {
    (x + INT64 / 2) % INT64 - INT64 / 2
  }

  /** An amount is refused exactly when a JSON number could not carry it: beyond 2^53 - 1 either way. */
  lemma RangeIsTheSafeOne(minor: int)
    ensures New(minor).Ok? <==> -9007199254740991 <= minor <= 9007199254740991
    ensures New(minor).Ok? ==> New(minor).value == minor
  {
  }

  // --- rounding ---------------------------------------------------------------------------------

  /** Division that truncates towards zero, as Go's big-integer QuoRem does. */
  function Truncated(n: int, d: int): int
    requires d > 0
  {
    if n >= 0 then n / d else -((-n) / d)
  }

  function Abs(x: int): nat {
    if x < 0 then -x else x
  }

  /** Truncate, then move one away from zero when the remainder is at least half. */
  function RoundHalfAway(n: int, d: int): int
    requires d > 0
  {
    var q := Truncated(n, d);
    if 2 * Abs(n - q * d) < d then q
    else if n < 0 then q - 1
    else q + 1
  }

  function ApplyRate(a: Amount, num: int, den: int): Result<Amount, MoneyError> {
    if den == 0 then Err(DivideByZero)
    else if den < 0 then New(RoundHalfAway(-(a * num), -den))
    else New(RoundHalfAway(a * num, den))
  }

  /** `x` is within half of `d` of `n`, and when exactly half away it lies no nearer to zero than `n`. */
  predicate Near(x: int, n: int, d: int) {
    && 2 * Abs(n - x) <= d
    && (2 * Abs(n - x) == d ==> Abs(x) >= Abs(n))
  }

  /** `q` is a whole number nearest to n / d, and of two equally near the one further from zero. */
  predicate NearestHalfAway(q: int, n: int, d: int) {
    Near(q * d, n, d)
  }

  lemma RoundsToNearest(n: int, d: int)
    requires d > 0
    ensures NearestHalfAway(RoundHalfAway(n, d), n, d)
  {
    var t := Truncated(n, d);
    assert (t + 1) * d == t * d + d && (t - 1) * d == t * d - d;
  }

  lemma MultiplesAreApart(q: int, r: int, d: int)
    requires d > 0 && q < r
    ensures q * d + d <= r * d
    ensures q * d >= 0 || q * d <= -d
  {
    assert r * d - q * d - d == (r - q - 1) * d;
    if q < 0 {
      assert q * d + d == (q + 1) * d;
    }
  }

  lemma OnlyOneIsNear(x: int, y: int, n: int, d: int)
    requires d > 0 && x + d <= y
    requires x >= 0 || x <= -d
    ensures !(Near(x, n, d) && Near(y, n, d))
  {
  }

  /** The rounding is exactly half away from zero: it meets the definition and nothing else does. */
  lemma RoundsHalfAway(n: int, d: int, q: int)
    requires d > 0
    ensures NearestHalfAway(q, n, d) <==> q == RoundHalfAway(n, d)
  {
    var r := RoundHalfAway(n, d);
    RoundsToNearest(n, d);
    if q < r {
      MultiplesAreApart(q, r, d);
      OnlyOneIsNear(q * d, r * d, n, d);
    } else if r < q {
      MultiplesAreApart(r, q, d);
      OnlyOneIsNear(r * d, q * d, n, d);
    }
  }

  lemma NearnessIsMonotone(x: int, y: int, n: int, m: int, d: int)
    requires d > 0 && n <= m && Near(x, n, d) && Near(y, m, d)
    requires x >= 0 || x <= -d
    requires y >= 0 || y <= -d
    ensures x < y + d
  {
  }

  /** A rate is refused only for a zero denominator or a result out of range; otherwise it answers the whole
      number nearest to the exact share, halves away from zero. */
  lemma RateIsNearest(a: Amount, num: int, den: int, q: int)
    ensures den > 0 ==> (ApplyRate(a, num, den) == Ok(q) <==> NearestHalfAway(q, a * num, den) && InRange(q))
    ensures den < 0 ==> (ApplyRate(a, num, den) == Ok(q) <==> NearestHalfAway(q, -(a * num), -den) && InRange(q))
    ensures den == 0 ==> ApplyRate(a, num, den) == Err(DivideByZero)
  {
    if den > 0 {
      RoundsHalfAway(a * num, den, q);
    } else if den < 0 {
      RoundsHalfAway(-(a * num), -den, q);
    }
  }

  /** A larger amount never rounds to less. */
  lemma RoundingIsMonotone(n: int, m: int, d: int)
    requires d > 0 && n <= m
    ensures RoundHalfAway(n, d) <= RoundHalfAway(m, d)
  {
    var q, r := RoundHalfAway(n, d), RoundHalfAway(m, d);
    RoundsToNearest(n, d);
    RoundsToNearest(m, d);
    if r < q {
      MultiplesAreApart(r, q, d);
      MultiplesAreApart(q, q + 1, d);
      NearnessIsMonotone(q * d, r * d, n, m, d);
    }
  }

  /** A rate between nothing and the whole takes between nothing and the whole. */
  lemma RateTakesAPart(a: Amount, bps: int)
    requires a >= 0 && 0 <= bps <= BASIS
    ensures ApplyRate(a, bps, BASIS).Ok?
    ensures 0 <= ApplyRate(a, bps, BASIS).value <= a
  {
    assert 0 <= a * bps <= a * BASIS;
    RoundingIsMonotone(0, a * bps, BASIS);
    RoundingIsMonotone(a * bps, a * BASIS, BASIS);
    RoundsHalfAway(a * BASIS, BASIS, a);
    RoundsHalfAway(0, BASIS, 0);
  }

  lemma ProductIsMonotone(a: int, b: int, k: nat)
    requires a <= b
    ensures a * k <= b * k
  {
    assert b * k - a * k == (b - a) * k;
  }

  lemma RateIsMonotone(a: Amount, b: Amount, bps: int)
    requires 0 <= a <= b && 0 <= bps <= BASIS
    ensures ApplyRate(a, bps, BASIS).Ok? && ApplyRate(b, bps, BASIS).Ok?
    ensures ApplyRate(a, bps, BASIS).value <= ApplyRate(b, bps, BASIS).value
  {
    RateTakesAPart(a, bps);
    RateTakesAPart(b, bps);
    ProductIsMonotone(a, b, bps);
    RoundingIsMonotone(a * bps, b * bps, BASIS);
  }
}

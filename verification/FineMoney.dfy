/** Overdue days, amounts and totals, with the service's 64-bit integers. */
module FineMoney {
  import opened Domain

  const MAX_INT64: int := 9_223_372_036_854_775_807
  const MIN_INT64: int := -9_223_372_036_854_775_808

  /** Go's int64 conversion of an exact integer result: wrap around modulo 2^64. */
  function Wrap64(x: int): (r: int)
    ensures MIN_INT64 <= r <= MAX_INT64
    ensures MIN_INT64 <= x <= MAX_INT64 ==> r == x
  {
    (x - MIN_INT64) % 18_446_744_073_709_551_616 + MIN_INT64
  }

  lemma WrapOfSum(x: int, y: int)
    ensures Wrap64(Wrap64(x) + y) == Wrap64(x + y)
  {
  }

  /** time.Time.Sub: the elapsed nanoseconds, saturating at the ends of int64. */
  function Elapsed(earlier: int, later: int): int {
    var d := later - earlier;
    if d > MAX_INT64 then MAX_INT64 else if d < MIN_INT64 then MIN_INT64 else d
  }

  /** The day count: the ceiling of elapsed time over 24 hours. */
  function DaysBetween(earlier: int, later: int): int {
    -((-Elapsed(earlier, later)) / NANOS_PER_DAY)
  }

  const MAX_DAYS: int := 106_752

  /** For an overdue loan the day count is the exact ceiling below saturation, grows with
      the clock, and stays within a range no date can leave. */
  lemma DaysAreTheCeiling(due: int, now: int)
    requires due < now
    ensures 1 <= DaysBetween(due, now) <= MAX_DAYS
    ensures now - due <= MAX_INT64 ==>
      (DaysBetween(due, now) - 1) * NANOS_PER_DAY < now - due <= DaysBetween(due, now) * NANOS_PER_DAY
    ensures forall later :: now <= later ==> DaysBetween(due, now) <= DaysBetween(due, later)
  {
  }

  /** The amount of a fine, as the 64-bit product. */
  function FineAmount(due: int, now: int, rate: int): int {
    Wrap64(DaysBetween(due, now) * rate)
  }

  /** The largest daily rate for which no fine can overflow. */
  const SAFE_RATE: int := MAX_INT64 / MAX_DAYS

  /** For rates up to the bound the 64-bit amount is the exact product of days and rate. */
  lemma AmountsAreExact(due: int, now: int, rate: int)
    requires due < now && 0 <= rate <= SAFE_RATE
    ensures FineAmount(due, now, rate) == DaysBetween(due, now) * rate
    ensures 0 <= FineAmount(due, now, rate) <= MAX_INT64
  {
    DaysAreTheCeiling(due, now);
    ProductBound(DaysBetween(due, now), rate);
  }

  lemma ProductBound(days: int, rate: int)
    requires 0 <= days <= MAX_DAYS && 0 <= rate <= SAFE_RATE
    ensures 0 <= days * rate <= MAX_INT64
  {
    assert days * rate <= MAX_DAYS * rate;
    assert MAX_DAYS * rate <= MAX_DAYS * SAFE_RATE;
  }

  /** A loan overdue by as long as an instant can express is charged MAX_DAYS, which overflows at
      every rate above the bound. */
  lemma LongestOverflows(rate: int)
    requires rate > SAFE_RATE
    ensures DaysBetween(0, MAX_INT64) == MAX_DAYS && FineAmount(0, MAX_INT64, rate) != MAX_DAYS * rate
  {
    assert MAX_DAYS * rate >= MAX_DAYS * (SAFE_RATE + 1) > MAX_INT64;
  }

  ghost predicate AmountIsExact(due: int, now: int, rate: int) {
    FineAmount(due, now, rate) == DaysBetween(due, now) * rate
  }

  /** The bound is exact: a rate gives every overdue loan its exact amount if and only if it is
      at most the bound. */
  lemma RateIsSafe(rate: int)
    requires rate >= 0
    ensures (forall due, now | due < now :: AmountIsExact(due, now, rate)) <==> rate <= SAFE_RATE
  {
    if rate <= SAFE_RATE {
      forall due, now | due < now ensures AmountIsExact(due, now, rate) {
        AmountsAreExact(due, now, rate);
      }
    } else {
      LongestOverflows(rate);
      assert !AmountIsExact(0, MAX_INT64, rate);
    }
  }
}

/**
 * Instants and calendar arithmetic as the lifecycle policies use them.
 *
 * An instant is a count of nanoseconds since 1970-01-01T00:00:00Z, unbounded.
 * Go's `time.Time.AddDate` (with its month-end normalisation) is not modelled:
 * a `Calendar` value carries it as an arbitrary function, so every property
 * proved about the policies holds for every calendar, unless a lemma says
 * otherwise with an explicit `Monotone` or `Forward` precondition.
 */
module Clock {
  import opened Wrappers

  type Time = int

  const NanosPerSecond: int := 1_000_000_000

  /** Go's zero `time.Time`: January 1, year 1, 00:00:00 UTC. */
  const ZeroTime: Time := -62_135_596_800 * NanosPerSecond

  /** `addDate(t, years, months, days)` stands for `t.AddDate(years, months, days)`. */
  datatype Calendar = Calendar(addDate: (Time, int, int, int) -> Time)

  function AddMonths(cal: Calendar, t: Time, months: int): Time
  {
    cal.addDate(t, 0, months, 0)
  }

  function AddDays(cal: Calendar, t: Time, days: int): Time
  {
    cal.addDate(t, 0, 0, days)
  }

  /** `a.Before(b)`: strictly earlier. */
  predicate Before(a: Time, b: Time)
  {
    a < b
  }

  /**
   * `(*v1.Time).IsZero`: a nil reference and a reference to the zero instant are
   * both "unset".
   */
  predicate IsZero(t: Option<Time>)
  {
    t.None? || t.value == ZeroTime
  }

  /** The instant of a set timestamp, or None when it is unset in the sense of IsZero. */
  function Stamp(t: Option<Time>): (r: Option<Time>)
    ensures r.None? <==> IsZero(t)
    ensures r.Some? ==> r.value == t.value && r.value != ZeroTime
  {
    if IsZero(t) then None else t
  }

  /**
   * `t.Unix()`: whole seconds since the epoch, rounded toward negative
   * infinity (not toward zero) for instants before 1970.
   */
  function UnixSeconds(t: Time): (s: int)
    ensures s * NanosPerSecond <= t < (s + 1) * NanosPerSecond
  {
    t / NanosPerSecond
  }

  /** Adding a fixed period never reverses the order of two instants. */
  ghost predicate Monotone(cal: Calendar)
  {
    forall t1: Time, t2: Time, years: int, months: int, days: int
      | t1 <= t2 :: cal.addDate(t1, years, months, days) <= cal.addDate(t2, years, months, days)
  }

  /** Adding more months, or more days, to one instant gives a strictly later instant. */
  ghost predicate Forward(cal: Calendar)
  {
    && (forall t: Time, m1: int, m2: int | m1 < m2 :: AddMonths(cal, t, m1) < AddMonths(cal, t, m2))
    && (forall t: Time, d1: int, d2: int | d1 < d2 :: AddDays(cal, t, d1) < AddDays(cal, t, d2))
  }
}

/** Timestamps as PostgreSQL stores them: whole microseconds since the Unix epoch, in UTC. */
module Clock {
  type Time = int

  const SECOND: int := 1_000_000
  const HOUR: int := 3_600 * SECOND
  const DAY: int := 24 * HOUR

  /** `date_trunc('hour', t)`; floors, before the epoch too. */
  function TruncHour(t: Time): (h: Time)
    ensures h <= t < h + HOUR && h % HOUR == 0
  {
    t - t % HOUR
  }

  /** `date_trunc('day', t)::date`, as a day number. */
  function DayOf(t: Time): (d: int)
    ensures d * DAY <= t < (d + 1) * DAY
  {
    t / DAY
  }

  /** An aligned boundary never falls inside an hour: a row is past it exactly when its hour is. */
  lemma AlignedBoundary(boundary: Time, t: Time)
    requires boundary % HOUR == 0
    ensures t >= boundary <==> TruncHour(t) >= boundary
  {
    var q, p := t / HOUR, boundary / HOUR;
    assert TruncHour(t) == q * HOUR && boundary == p * HOUR;
    if q * HOUR < p * HOUR {
      assert q < p;
      assert (q + 1) * HOUR <= p * HOUR;
    }
  }

  /** An hour lies within one day. */
  lemma HourWithinDay(t: Time)
    ensures DayOf(TruncHour(t)) == DayOf(t)
  {
    var d, hours := DayOf(t), 24 * DayOf(t);
    assert d * DAY == hours * HOUR;
    WholeHours(hours);
    AlignedBoundary(d * DAY, t);
    OneDay(TruncHour(t), d);
  }

  lemma HourEndsWithinDay(t: Time)
    ensures DayOf(t) * DAY <= TruncHour(t) && TruncHour(t) + HOUR <= (DayOf(t) + 1) * DAY
  {
    var d, end := DayOf(t), 24 * (DayOf(t) + 1);
    HourWithinDay(t);
    assert (d + 1) * DAY == end * HOUR;
    WholeHours(end);
    OneHourApart(TruncHour(t), (d + 1) * DAY);
  }

  lemma OneHourApart(a: Time, b: Time)
    requires a % HOUR == 0 && b % HOUR == 0 && a < b
    ensures a + HOUR <= b
  {
  }

  lemma WholeHours(n: int)
    ensures (n * HOUR) % HOUR == 0
  {
  }

  lemma OneDay(t: Time, d: int)
    requires d * DAY <= t < (d + 1) * DAY
    ensures DayOf(t) == d
  {
  }
}

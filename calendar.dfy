/** Dates, times of day and timestamps as integers.

    A date is its proleptic Gregorian ordinal, the number Python's
    `date.toordinal()` gives it: day 1 is 1 January of year 1, a Monday.
    A timestamp counts whole seconds from midnight at the start of day 0, so
    the timestamp of second `s` of day `d` is `d * 86400 + s`. Sub-second
    precision is not modelled. */
module Calendar {

  type Day = int
  type Datetime = int

  const SecondsPerMinute := 60
  const SecondsPerHour := 3600
  const SecondsPerDay := 86400

  /** A `datetime.time` without microseconds. */
  datatype Time = Time(hour: int, minute: int, second: int)

  /** The ranges `datetime.time` accepts. */
  predicate ValidTime(t: Time) {
    0 <= t.hour < 24 && 0 <= t.minute < 60 && 0 <= t.second < 60
  }

  function SecondsOfDay(t: Time): int {
    t.hour * SecondsPerHour + t.minute * SecondsPerMinute + t.second
  }

  /** `datetime.datetime.combine(day, time)`. */
  function Combine(d: Day, t: Time): Datetime {
    d * SecondsPerDay + SecondsOfDay(t)
  }

  /** `timestamp.date()`: the day a timestamp falls on. */
  function DayOf(t: Datetime): Day {
    t / SecondsPerDay
  }

  /** `timestamp.time()`: the time of day of a timestamp. */
  function TimeOf(t: Datetime): (r: Time)
    ensures ValidTime(r)
  {
    var s := t % SecondsPerDay;
    Time(s / SecondsPerHour, (s % SecondsPerHour) / SecondsPerMinute, s % SecondsPerMinute)
  }

  /** Euclidean division is determined by its quotient and remainder. */
  lemma DivModOf(x: int, m: int, q: int, r: int)
    requires m > 0 && 0 <= r < m && x == q * m + r
    ensures x / m == q && x % m == r
  {
    var q0, r0 := x / m, x % m;
    assert q0 * m + r0 == q * m + r;
    if q0 < q {
      MulDiff(q, q0, m);
      MulAtLeast(q - q0, m);
    } else if q < q0 {
      MulDiff(q0, q, m);
      MulAtLeast(q0 - q, m);
    }
  }

  lemma MulDiff(a: int, b: int, m: int)
    ensures (a - b) * m == a * m - b * m
  {
  }

  lemma MulAtLeast(k: int, m: int)
    requires k >= 1 && m > 0
    ensures k * m >= m
  {
    assert (k - 1) * m >= 0;
    MulDiff(k, 1, m);
  }

  /** Splitting a combined timestamp gives back its day and its time. */
  lemma CombineSplits(d: Day, t: Time)
    requires ValidTime(t)
    ensures DayOf(Combine(d, t)) == d && TimeOf(Combine(d, t)) == t
    ensures Combine(DayOf(Combine(d, t)), TimeOf(Combine(d, t))) == Combine(d, t)
  {
    var s := SecondsOfDay(t);
    var inHour := t.minute * SecondsPerMinute + t.second;
    assert 0 <= inHour < SecondsPerHour;
    assert 0 <= s < SecondsPerDay;
    DivModOf(Combine(d, t), SecondsPerDay, d, s);
    DivModOf(s, SecondsPerHour, t.hour, inHour);
    DivModOf(inHour, SecondsPerMinute, t.minute, t.second);
    DivModOf(s, SecondsPerMinute, t.hour * 60 + t.minute, t.second);
  }

  /** A timestamp is the combination of its day and its time of day. */
  lemma SplitCombines(t: Datetime)
    ensures Combine(DayOf(t), TimeOf(t)) == t
  {
    var s := t % SecondsPerDay;
    var h, rest := s / SecondsPerHour, s % SecondsPerHour;
    var m, sec := rest / SecondsPerMinute, rest % SecondsPerMinute;
    assert t == DayOf(t) * SecondsPerDay + s;
    assert s == h * SecondsPerHour + rest;
    assert rest == m * SecondsPerMinute + sec;
    assert 0 <= rest < SecondsPerHour;
    DivModOf(s, SecondsPerMinute, h * 60 + m, sec);
  }

  /** `date.isoweekday()`: Monday is 1 and Sunday is 7. */
  function IsoWeekday(d: Day): (w: int)
    ensures 1 <= w <= 7
  {
    (d - 1) % 7 + 1
  }

  /** The weekday advances by one each day and wraps from Sunday to Monday. */
  lemma WeekdayStep(d: Day, n: nat)
    ensures IsoWeekday(d + n) == (IsoWeekday(d) - 1 + n) % 7 + 1
  {
    var q, r := (d - 1) / 7, (d - 1) % 7;
    var q2, r2 := (r + n) / 7, (r + n) % 7;
    assert d - 1 == q * 7 + r;
    assert r + n == q2 * 7 + r2;
    DivModOf(d + n - 1, 7, q + q2, r2);
  }

  predicate IsLeap(y: int) {
    y % 4 == 0 && (y % 100 != 0 || y % 400 == 0)
  }

  /** Days in the years before year `y` (Python's `_days_before_year`). */
  function DaysBeforeYear(y: int): int
    requires y >= 1
  {
    var p := y - 1;
    p * 365 + p / 4 - p / 100 + p / 400
  }

  /** Days in the months of year `y` before month `m` (Python's `_days_before_month`). */
  function DaysBeforeMonth(y: int, m: int): int
    requires 1 <= m <= 12
  {
    var before := [0, 31, 59, 90, 120, 151, 181, 212, 243, 273, 304, 334];
    before[m - 1] + (if m > 2 && IsLeap(y) then 1 else 0)
  }

  /** `date(y, m, d).toordinal()`. */
  function Ordinal(y: int, m: int, d: int): Day
    requires y >= 1 && 1 <= m <= 12
  {
    DaysBeforeYear(y) + DaysBeforeMonth(y, m) + d
  }

  /** The ordinal calendar starts on a Monday, as `date.isoweekday()` says of 1 January 1. */
  lemma FirstDayIsMonday()
    ensures DaysBeforeYear(1) == 0 && DaysBeforeMonth(1, 1) == 0
    ensures Ordinal(1, 1, 1) == 1 && IsoWeekday(1) == 1
  {
  }
}

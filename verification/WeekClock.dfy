/** Instants and the weekly period (internal/platform/common/clock.go). An
    instant is a count of nanoseconds since 1970-01-01 00:00 UTC. */
module WeekClock {

  const SECOND: int := 1_000_000_000
  const HOUR: int := 3600 * SECOND
  const DAY: int := 24 * HOUR
  const WEEK: int := 7 * DAY
  const MONDAY: int := 1

  /** The day number of an instant: whole days since the epoch. */
  function DayOf(t: int): int {
    t / DAY
  }

  /** Days of the week count from Sunday = 0; the epoch was a Thursday. */
  function Weekday(t: int): int {
    (DayOf(t) + 4) % 7
  }

  function StartOfWeek(t: int): int {
    var day := DayOf(t) * DAY;
    var daysSinceMonday := (Weekday(day) - MONDAY + 7) % 7;
    day - daysSinceMonday * DAY
  }

  /** Monday 1970-01-05, 00:00 UTC. */
  const FIRST_MONDAY: int := 4 * DAY

  /** Whole weeks before or after that Monday. */
  predicate IsWeekStart(w: int) {
    (w - FIRST_MONDAY) % WEEK == 0
  }

  lemma DayContains(t: int)
    ensures DayOf(t) * DAY <= t < (DayOf(t) + 1) * DAY
  {
  }

  lemma MondayDays(d: int)
    ensures ((d + 4) % 7 - 1 + 7) % 7 == (d + 3) % 7
    ensures d - (d + 3) % 7 - 4 == (d - 4) / 7 * 7
  {
  }

  lemma DayOfMidnight(d: int)
    ensures DayOf(d * DAY) == d && (d * DAY) % DAY == 0
  {
  }

  lemma WholeWeeks(w: int, n: int)
    requires w == FIRST_MONDAY + n * WEEK
    ensures IsWeekStart(w)
  {
  }

  lemma WeeksApart(a: int, b: int)
    requires IsWeekStart(a) && IsWeekStart(b) && -WEEK < a - b < WEEK
    ensures a == b
  {
    var m, n := (a - FIRST_MONDAY) / WEEK, (b - FIRST_MONDAY) / WEEK;
    assert a == FIRST_MONDAY + m * WEEK && b == FIRST_MONDAY + n * WEEK;
    assert (m - n) * WEEK == a - b;
  }

  /** The period of an instant is a Monday midnight at most a week back. */
  lemma WeekContains(t: int)
    ensures IsWeekStart(StartOfWeek(t))
    ensures StartOfWeek(t) <= t < StartOfWeek(t) + WEEK
  {
    var d := DayOf(t);
    DayContains(t);
    DayOfMidnight(d);
    MondayDays(d);
    assert StartOfWeek(t) == (d - (d + 3) % 7) * DAY;
    WholeWeeks(StartOfWeek(t), (d - 4) / 7);
  }

  /** No other Monday midnight has the instant in its week. */
  lemma WeekIsUnique(w: int, t: int)
    requires IsWeekStart(w) && w <= t < w + WEEK
    ensures StartOfWeek(t) == w
  {
    WeekContains(t);
    WeeksApart(w, StartOfWeek(t));
  }

  /** Whole weeks counted from a known Monday, with no weekday in it. */
  lemma WeekIsFloor(t: int)
    ensures StartOfWeek(t) == 4 * DAY + (t - 4 * DAY) / WEEK * WEEK
  {
    WeekIsUnique(4 * DAY + (t - 4 * DAY) / WEEK * WEEK, t);
  }

  lemma NextMonday(monday: int)
    requires IsWeekStart(monday)
    ensures IsWeekStart(monday + WEEK)
  {
  }

  lemma NextWeek(t: int)
    ensures StartOfWeek(t + WEEK) == StartOfWeek(t) + WEEK
  {
    WeekContains(t);
    NextMonday(StartOfWeek(t));
    WeekIsUnique(StartOfWeek(t) + WEEK, t + WEEK);
  }

  lemma WeeksAreOrdered(t: int, u: int)
    requires t <= u
    ensures StartOfWeek(t) <= StartOfWeek(u)
  {
    WeekContains(t);
    WeekContains(u);
    if u < StartOfWeek(t) + WEEK {
      WeekIsUnique(StartOfWeek(t), u);
    }
  }
}

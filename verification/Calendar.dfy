/** Days and weeks of the UTC calendar. Instants count nanoseconds since
    Thursday 1970-01-01 00:00, and may be negative. */
module Calendar {
  type Instant = int

  const SECOND: int := 1_000_000_000
  const DAY: int := 86400 * SECOND
  const WEEK: int := 7 * DAY

  function DayOf(t: Instant): int {
    t / DAY
  }

  /** 0 is Sunday. */
  function Weekday(t: Instant): int {
    (DayOf(t) + 4) % 7
  }

  /** The Sunday 00:00 that begins the week of `t`. */
  function SundayOf(t: Instant): Instant {
    (DayOf(t) - Weekday(t)) * DAY
  }

  /** The Monday 00:00 on or before `t`: six days back on a Sunday, otherwise
      back to the day after Sunday; then cut to the day. */
  function MondayOf(t: Instant): Instant {
    var wd := Weekday(t);
    (if wd == 0 then DayOf(t) - 6 else DayOf(t) - wd + 1) * DAY
  }

  function NextDay(t: Instant): Instant {
    (DayOf(t) + 1) * DAY
  }

  /** The `n`-th Sunday 00:00; number 0 is the one before the epoch. */
  function Sunday(n: int): Instant {
    (7 * n - 4) * DAY
  }

  /** The `n`-th Monday 00:00; number 0 is the one before the epoch. */
  function Monday(n: int): Instant {
    (7 * n - 3) * DAY
  }

  lemma Multiples(w: int, d: int)
    requires w > 0
    ensures d >= 1 ==> w * d >= w
    ensures d <= -1 ==> w * d <= -w
  {
    if d >= 1 {
      assert w * d == w * (d - 1) + w && w * (d - 1) >= 0;
    } else if d <= -1 {
      assert w * d == w * (d + 1) - w && w * (d + 1) <= 0;
    }
  }

  lemma OneRemainder(x: int, w: int, q: int, r: int)
    requires w > 0 && 0 <= r < w && x == w * q + r
    ensures x % w == r
  {
    var d := x / w - q;
    assert w * d == w * (x / w) - w * q;
    Multiples(w, d);
  }

  lemma DayBounds(t: Instant)
    ensures DayOf(t) * DAY <= t < (DayOf(t) + 1) * DAY
  {
  }

  lemma WeekSpan(n: int)
    ensures Sunday(n + 1) == Sunday(n) + WEEK && Monday(n + 1) == Monday(n) + WEEK
    ensures Monday(n) == Sunday(n) + DAY
  {
  }

  /** The week of an instant begins at the one Sunday 00:00 it has not passed
      by a week. */
  lemma SundayIsTheWeek(t: Instant, n: int)
    ensures SundayOf(t) == Sunday((DayOf(t) + 4) / 7)
    ensures Sunday(n) <= t < Sunday(n + 1) <==> SundayOf(t) == Sunday(n)
  {
    DayBounds(t);
    var d := DayOf(t) + 4;
    assert d == 7 * (d / 7) + d % 7;
    assert DayOf(t) - Weekday(t) == 7 * (d / 7) - 4;
    if Sunday(n) <= t < Sunday(n + 1) {
      assert 7 * n <= d < 7 * n + 7;
      assert d / 7 == n;
    }
    if SundayOf(t) == Sunday(n) {
      assert d / 7 == n;
    }
  }

  /** Likewise from Monday to Monday. */
  lemma MondayIsTheWeek(t: Instant, n: int)
    ensures MondayOf(t) == Monday((DayOf(t) + 3) / 7)
    ensures Monday(n) <= t < Monday(n + 1) <==> MondayOf(t) == Monday(n)
  {
    DayBounds(t);
    var d := DayOf(t) + 3;
    assert d == 7 * (d / 7) + d % 7;
    assert (if Weekday(t) == 0 then DayOf(t) - 6 else DayOf(t) - Weekday(t) + 1) == 7 * (d / 7) - 3;
    if Monday(n) <= t < Monday(n + 1) {
      assert 7 * n <= d < 7 * n + 7;
      assert d / 7 == n;
    }
    if MondayOf(t) == Monday(n) {
      assert d / 7 == n;
    }
  }

  /** A period starts at the 00:00 of a Monday, less than seven days before any of
      its instants; day 0, the one of the epoch, was a Thursday. */
  lemma PeriodStart(t: Instant) returns (day: int)
    ensures MondayOf(t) == day * 24 * 60 * 60 * 1_000_000_000 && day % 7 == 4
    ensures MondayOf(t) <= t < MondayOf(t) + 7 * 24 * 60 * 60 * 1_000_000_000
  {
    DayBounds(t);
    var d := DayOf(t) + 3;
    assert d == 7 * (d / 7) + d % 7;
    day := 7 * (d / 7) - 3;
    MondayIsTheWeek(t, 0);
    OneRemainder(day, 7, d / 7 - 1, 4);
  }

  /** The number of the week, from Monday to Monday, of an instant. */
  function WeekNo(t: Instant): int {
    (DayOf(t) + 3) / 7
  }

  lemma WeekNoIs(t: Instant, n: int)
    ensures MondayOf(t) == Monday(WeekNo(t))
    ensures Monday(n) <= t < Monday(n) + WEEK <==> WeekNo(t) == n
  {
    MondayIsTheWeek(t, n);
    WeekSpan(n);
    MondaysInOrder(n, WeekNo(t));
    MondaysInOrder(WeekNo(t), n);
  }

  lemma MondaysInOrder(n: int, m: int)
    ensures Monday(n) < Monday(m) + WEEK <==> n <= m
    ensures Monday(n) + WEEK == Monday(n + 1)
    ensures Monday(n) == Monday(m) <==> n == m
  {
  }

  lemma WeekNoGrows(t: Instant, u: Instant)
    requires t <= u
    ensures WeekNo(t) <= WeekNo(u)
  {
    assert DayOf(t) <= DayOf(u);
  }
}

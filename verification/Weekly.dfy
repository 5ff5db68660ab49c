/** The scheduler that holds races at given hours of given days of the week. */
module Weekly {
  import opened Rows
  import opened Calendar
  import opened Sorting

  /** For each day from Sunday on, the hours of its races, as times after the
      00:00 UTC of that day. Hours of other time zones may be negative or lie
      beyond the day. */
  datatype Scheduler = Scheduler(days: seq<seq<int>>)

  predicate Wellformed(s: Scheduler) {
    |s.days| == 7
  }

  /** The hours of the days below `dow`, as times after Sunday 00:00. */
  function Hours(s: Scheduler, dow: nat): seq<int>
    requires Wellformed(s) && dow <= 7
  {
    if dow == 0 then []
    else
      var hours := s.days[dow - 1];
      Hours(s, dow - 1) + seq(|hours|, i requires 0 <= i < |hours| => (dow - 1) * DAY + hours[i])
  }

  /** `h` is an hour of the week. */
  predicate IsHour(s: Scheduler, h: int)
    requires Wellformed(s)
  {
    h in Hours(s, 7)
  }

  /** The least date of the week of `t` after `t`. */
  ghost predicate FirstOfWeek(s: Scheduler, t: Instant, r: Option<Instant>)
    requires Wellformed(s)
  {
    match r
    case None => forall h | IsHour(s, h) :: SundayOf(t) + h <= t
    case Some(e) =>
      && IsHour(s, e - SundayOf(t)) && t < e
      && forall h | IsHour(s, h) && t < SundayOf(t) + h :: e <= SundayOf(t) + h
  }

  function LeastAfter(base: Instant, hours: seq<int>, t: Instant): Option<Instant> {
    if hours == [] then None
    else
      var r := LeastAfter(base, hours[..|hours| - 1], t);
      var e := base + hours[|hours| - 1];
      if e <= t || (r.Some? && r.value <= e) then r else Some(e)
  }

  lemma {:induction false} LeastAfterIs(base: Instant, hours: seq<int>, t: Instant)
    ensures match LeastAfter(base, hours, t)
      case None => forall h | h in hours :: base + h <= t
      case Some(e) => e - base in hours && t < e && forall h | h in hours && t < base + h :: e <= base + h
  {
    if hours != [] {
      LeastAfterIs(base, hours[..|hours| - 1], t);
      assert forall h :: h in hours <==> h in hours[..|hours| - 1] || h == hours[|hours| - 1];
    }
  }

  function Next(s: Scheduler, t: Instant, max: Instant): Option<Instant>
    requires Wellformed(s)
    decreases if t <= max then max - t + 1 else 0
  {
    if t > max then None else
      var r := LeastAfter(SundayOf(t), Hours(s, 7), t);
      if r.None? then Next(s, NextDay(t), max)
      else if r.value > max then None
      else r
  }

  method FlattenHours(s: Scheduler, t: Instant) returns (ret: seq<Instant>)
    requires Wellformed(s)
    ensures SortedBy(ret, InstantKey)
    ensures forall e :: e in ret <==> IsHour(s, e - SundayOf(t))
  {
    var start := SundayOf(t);
    ret := HoursOfDays(s, start, |s.days|);
    ret := SortSeq(ret, InstantKey);
  }

  method HoursOfDays(s: Scheduler, start: Instant, days: nat) returns (ret: seq<Instant>)
    requires Wellformed(s) && days <= |s.days|
    ensures AreHours(s, ret, start, days)
  {
    ret := [];
    NoHoursYet(s, start, 0);
    for dow := 0 to days
      invariant AreHours(s, ret, start, dow)
    {
      ret := AppendDay(s, ret, start, dow);
    }
  }

  lemma NoHoursYet(s: Scheduler, start: Instant, dow: nat)
    requires Wellformed(s) && dow == 0
    ensures AreHours(s, [], start, dow)
  {
  }

  method AppendDay(s: Scheduler, before: seq<Instant>, start: Instant, dow: nat) returns (ret: seq<Instant>)
    requires Wellformed(s) && dow < 7 && AreHours(s, before, start, dow)
    ensures AreHours(s, ret, start, dow + 1)
  {
    ret := AppendHours(before, start + dow * DAY, s.days[dow]);
    HoursNext(s, before, ret, start, dow);
  }

  /** The hours of the days below `dow` of the week that begins at `start`. */
  ghost predicate AreHours(s: Scheduler, dates: seq<Instant>, start: Instant, dow: nat)
    requires Wellformed(s) && dow <= 7
  {
    forall e :: e in dates <==> e - start in Hours(s, dow)
  }

  lemma HoursNext(s: Scheduler, before: seq<Instant>, after: seq<Instant>, start: Instant, dow: nat)
    requires Wellformed(s) && dow < 7 && AreHours(s, before, start, dow)
    requires Appended(before, after, start + dow * DAY, s.days[dow], |s.days[dow]|)
    ensures AreHours(s, after, start, dow + 1)
  {
    HoursOfDay(s, dow);
    forall e ensures e in after <==> e - start in Hours(s, dow + 1) {
      ShiftedHour(e, start, dow * DAY, s.days[dow]);
    }
  }

  /** `e` is one of the first `n` hours of a day. */
  predicate IsAt(e: Instant, day: Instant, hours: seq<int>, n: nat)
    requires n <= |hours|
  {
    exists k | 0 <= k < n :: e == day + hours[k]
  }

  lemma ShiftedHour(e: Instant, start: Instant, day: Instant, hours: seq<int>)
    ensures IsAt(e, start + day, hours, |hours|) <==> IsAt(e - start, day, hours, |hours|)
  {
  }

  /** The first `n` hours of a day were added. */
  ghost predicate Appended(before: seq<Instant>, after: seq<Instant>, day: Instant, hours: seq<int>, n: nat)
    requires n <= |hours|
  {
    forall e :: e in after <==> e in before || IsAt(e, day, hours, n)
  }

  method AppendHours(before: seq<Instant>, day: Instant, hours: seq<int>) returns (ret: seq<Instant>)
    ensures Appended(before, ret, day, hours, |hours|)
  {
    ret := before;
    for i := 0 to |hours|
      invariant Appended(before, ret, day, hours, i)
    {
      ghost var was := ret;
      ret := ret + [day + hours[i]];
      assert forall e :: e in ret <==> e in was || e == day + hours[i];
      forall e ensures IsAt(e, day, hours, i + 1) <==> IsAt(e, day, hours, i) || e == day + hours[i] {}
    }
  }

  function InstantKey(t: Instant): real {
    t as real
  }

  lemma HoursOfDay(s: Scheduler, dow: nat)
    requires Wellformed(s) && dow < 7
    ensures forall h :: h in Hours(s, dow + 1) <==>
              h in Hours(s, dow) || IsAt(h, dow * DAY, s.days[dow], |s.days[dow]|)
  {
    var today := seq(|s.days[dow]|, i requires 0 <= i < |s.days[dow]| => dow * DAY + s.days[dow][i]);
    assert Hours(s, dow + 1) == Hours(s, dow) + today;
    forall k | 0 <= k < |s.days[dow]| ensures dow * DAY + s.days[dow][k] in today {
      assert today[k] == dow * DAY + s.days[dow][k];
    }
  }

  /** Tries the week of `t`, then goes on from the next midnight. */
  method NextBetween(s: Scheduler, t: Instant, max: Instant) returns (r: Option<Instant>)
    requires Wellformed(s)
    ensures r == Next(s, t, max)
    decreases if t <= max then max - t + 1 else 0
  {
    if t > max {
      return None;
    }
    var hours := FlattenHours(s, t);
    for i := 0 to |hours|
      invariant forall k | 0 <= k < i :: hours[k] <= t
    {
      var next := hours[i];
      if next <= t {
        continue;
      }
      FirstIsLeast(s, t, hours, i);
      if next > max {
        return None;
      }
      return Some(next);
    }
    NoneLeft(s, t, hours);
    r := NextBetween(s, NextDay(t), max);
  }

  lemma {:induction false} NoneLeft(s: Scheduler, t: Instant, hours: seq<Instant>)
    requires Wellformed(s) && forall e :: e in hours <==> IsHour(s, e - SundayOf(t))
    requires forall k | 0 <= k < |hours| :: hours[k] <= t
    ensures LeastAfter(SundayOf(t), Hours(s, 7), t).None?
  {
    LeastAfterIs(SundayOf(t), Hours(s, 7), t);
    var r := LeastAfter(SundayOf(t), Hours(s, 7), t);
    var e := if r.Some? then r.value else t;
    assert e in hours ==> e <= t;
  }

  lemma {:induction false} FirstIsLeast(s: Scheduler, t: Instant, hours: seq<Instant>, i: nat)
    requires Wellformed(s) && i < |hours|
    requires SortedBy(hours, InstantKey) && forall e :: e in hours <==> IsHour(s, e - SundayOf(t))
    requires t < hours[i] && forall k | 0 <= k < i :: hours[k] <= t
    ensures LeastAfter(SundayOf(t), Hours(s, 7), t) == Some(hours[i])
  {
    var base := SundayOf(t);
    LeastAfterIs(base, Hours(s, 7), t);
    assert hours[i] in hours;
    assert t < base + (hours[i] - base);
    var e := LeastAfter(base, Hours(s, 7), t).value;
    assert e in hours;
    var k :| 0 <= k < |hours| && hours[k] == e;
    assert k >= i;
    assert InstantKey(hours[i]) <= InstantKey(hours[k]);
  }

  // ------------------------------------------------------- what it should do

  /** `e` is a date of the schedule: an hour of the `n`-th week, for some `n`. */
  ghost predicate IsDate(s: Scheduler, e: Instant)
    requires Wellformed(s)
  {
    exists n :: IsHour(s, e - Sunday(n))
  }

  /** The `i`-th hour of weekday `d`, Sunday being 0, in the `n`-th week from the
      one of the epoch, which was a Thursday. */
  predicate HappensOn(s: Scheduler, e: Instant, n: int, d: int, i: int)
    requires Wellformed(s)
  {
    && 0 <= d < 7 && 0 <= i < |s.days[d]|
    && e == (7 * n + d - 4) * 24 * 60 * 60 * 1_000_000_000 + s.days[d][i]
  }

  /** The `i`-th hour of weekday `d`, counted from Sunday 00:00. */
  predicate IsHourOn(s: Scheduler, h: int, d: int, i: int)
    requires Wellformed(s)
  {
    0 <= d < 7 && 0 <= i < |s.days[d]| && h == d * DAY + s.days[d][i]
  }

  lemma {:induction false} HourIs(s: Scheduler, dow: nat, h: int)
    requires Wellformed(s) && dow <= 7
    ensures h in Hours(s, dow) <==> exists d, i :: d < dow && IsHourOn(s, h, d, i)
  {
    if dow > 0 {
      var today := dow - 1;
      HoursOfDay(s, today);
      HourIs(s, today, h);
      forall i | IsHourOn(s, h, today, i) ensures IsAt(h, today * DAY, s.days[today], |s.days[today]|) {
      }
      if IsAt(h, today * DAY, s.days[today], |s.days[today]|) {
        var i :| 0 <= i < |s.days[today]| && h == today * DAY + s.days[today][i];
        assert IsHourOn(s, h, today, i);
      }
    }
  }

  lemma OnDay(s: Scheduler, e: Instant, n: int, d: int, i: int)
    requires Wellformed(s)
    ensures HappensOn(s, e, n, d, i) <==> IsHourOn(s, e - Sunday(n), d, i)
  {
  }

  /** The dates of the schedule: its hours, each week. */
  lemma DatesAre(s: Scheduler, e: Instant)
    requires Wellformed(s)
    ensures IsDate(s, e) <==> exists n, d, i :: HappensOn(s, e, n, d, i)
  {
    if IsDate(s, e) {
      var n :| IsHour(s, e - Sunday(n));
      HourIs(s, |s.days|, e - Sunday(n));
      var d, i :| IsHourOn(s, e - Sunday(n), d, i);
      OnDay(s, e, n, d, i);
    }
    forall n, d, i | HappensOn(s, e, n, d, i) ensures IsDate(s, e) {
      OnDay(s, e, n, d, i);
      HourIs(s, |s.days|, e - Sunday(n));
      assert IsHour(s, e - Sunday(n));
    }
  }

  ghost predicate IsFirst(s: Scheduler, t: Instant, max: Instant, r: Option<Instant>)
    requires Wellformed(s)
  {
    match r
    case None => forall e | IsDate(s, e) && t < e :: e > max
    case Some(e) => IsDate(s, e) && t < e <= max && forall f | IsDate(s, f) && t < f :: e <= f
  }

  /** Whatever the time zones, what is found is a date after `t` and not after
      `max`. */
  lemma {:induction false} NextIsDate(s: Scheduler, t: Instant, max: Instant)
    requires Wellformed(s)
    ensures var r := Next(s, t, max); r.Some? ==> IsDate(s, r.value) && t < r.value <= max
    decreases if t <= max then max - t + 1 else 0
  {
    if t <= max {
      LeastAfterIs(SundayOf(t), Hours(s, 7), t);
      SundayIsTheWeek(t, 0);
      if LeastAfter(SundayOf(t), Hours(s, 7), t).None? {
        NextIsDate(s, NextDay(t), max);
      } else {
        var e := LeastAfter(SundayOf(t), Hours(s, 7), t).value;
        assert IsHour(s, e - Sunday((DayOf(t) + 4) / 7));
      }
    }
  }

  // ------------------------------------------------- hours and weeks modulo

  /** The same hour, moved by whole weeks into the week that ends with it at the
      latest: after Sunday 00:00 and up to the next one. */
  function InWeekHour(h: int): int {
    if h % WEEK == 0 then WEEK else h % WEEK
  }

  lemma SundaysApart(m: int, n: int)
    ensures Sunday(m) == Sunday(n) + (m - n) * WEEK
    ensures m < n ==> Sunday(m + 1) <= Sunday(n)
  {
  }

  /** Whatever week it is counted from, an instant after the `n`-th Sunday 00:00
      and up to the next one is at one and the same hour. */
  lemma SameHour(e: Instant, m: int, n: int)
    requires Sunday(n) < e <= Sunday(n + 1)
    ensures InWeekHour(e - Sunday(m)) == e - Sunday(n)
  {
    WeekSpan(n);
    SundaysApart(n, m);
    SundaysApart(n + 1, m);
    var r := e - Sunday(n);
    if r == WEEK {
      OneRemainder(e - Sunday(m), WEEK, n + 1 - m, 0);
    } else {
      OneRemainder(e - Sunday(m), WEEK, n - m, r);
    }
  }

  /** The week that an instant ends or lies in. */
  lemma WeekOfDate(e: Instant) returns (n: int)
    ensures Sunday(n) < e <= Sunday(n + 1)
    ensures SundayOf(e - 1) == Sunday(n)
  {
    n := (DayOf(e - 1) + 4) / 7;
    SundayIsTheWeek(e - 1, n);
  }

  /** The earliest hour after Sunday 00:00. */
  ghost predicate IsEarliest(s: Scheduler, m: int)
    requires Wellformed(s)
  {
    0 < m <= WEEK && IsHour(s, m) && forall h | IsHour(s, h) && 0 < h :: m <= h
  }

  /** Each hour that a time zone moves out of the week is also there within it,
      so that one of the next week's is met there; and if the week has hours
      beyond its end but none at it, the earliest hour of the next week is among
      them. */
  ghost predicate CoversItsWeek(s: Scheduler)
    requires Wellformed(s)
  {
    && (forall h | IsHour(s, h) :: IsHour(s, InWeekHour(h)))
    && (IsHour(s, WEEK) || (forall h | IsHour(s, h) :: h <= WEEK)
        || exists m :: IsEarliest(s, m) && IsHour(s, WEEK + m))
  }

  /** The dates of a week are then its hours. */
  lemma DateInWeek(s: Scheduler, n: int, e: Instant)
    requires Wellformed(s) && CoversItsWeek(s) && Sunday(n) < e <= Sunday(n + 1)
    ensures IsDate(s, e) <==> IsHour(s, e - Sunday(n))
  {
    if IsDate(s, e) {
      var m :| IsHour(s, e - Sunday(m));
      SameHour(e, m, n);
    }
  }

  lemma {:induction false} EarliestOf(hours: seq<int>) returns (m: int)
    requires exists h :: h in hours && 0 < h <= WEEK
    ensures m in hours && 0 < m <= WEEK && forall h | h in hours && 0 < h :: m <= h
  {
    m :| m in hours && 0 < m <= WEEK;
    if h :| h in hours && 0 < h < m {
      m := EarliestBelow(hours, h);
    }
  }

  lemma {:induction false} EarliestBelow(hours: seq<int>, k: int) returns (m: int)
    requires k in hours && 0 < k <= WEEK
    ensures m in hours && 0 < m <= k && forall h | h in hours && 0 < h :: m <= h
    decreases k
  {
    m := k;
    if h :| h in hours && 0 < h < k {
      m := EarliestBelow(hours, h);
    }
  }

  /** No date of a later week comes before that week's earliest hour. */
  lemma LaterDates(s: Scheduler, n: int, m: int, f: Instant)
    requires Wellformed(s) && CoversItsWeek(s) && IsEarliest(s, m)
    requires IsDate(s, f) && Sunday(n) < f
    ensures Sunday(n) + m <= f
  {
    var k := WeekOfDate(f);
    DateInWeek(s, k, f);
    if k < n {
      SundaysApart(k, n);
    } else {
      SundaysApart(k, n);
    }
  }

  /** The next midnight is in the same week, or is Sunday 00:00. */
  lemma NextDayInWeek(t: Instant, n: int)
    requires Sunday(n) <= t < Sunday(n + 1)
    ensures t < NextDay(t) <= Sunday(n + 1)
  {
    DayBounds(t);
  }

  // -------------------------------------------------- when it finds the first

  /** What is left of the week of `t` is the first date, even if it lies past
      the end of the week. */
  lemma LeastIsFirst(s: Scheduler, t: Instant, n: int, e: Instant, f: Instant)
    requires Wellformed(s) && CoversItsWeek(s) && Sunday(n) <= t < Sunday(n + 1)
    requires IsHour(s, e - Sunday(n)) && t < e && forall h | IsHour(s, h) && t < Sunday(n) + h :: e <= Sunday(n) + h
    requires IsDate(s, f) && t < f
    ensures e <= f
  {
    WeekSpan(n);
    if f <= Sunday(n + 1) {
      DateInWeek(s, n, f);
      assert t < Sunday(n) + (f - Sunday(n));
    } else if e > Sunday(n + 1) {
      assert !IsHour(s, WEEK);
      var m :| IsEarliest(s, m) && IsHour(s, WEEK + m);
      LaterDates(s, n + 1, m, f);
      assert t < Sunday(n) + (WEEK + m);
    }
  }

  /** When the week has no hour left, there is no date up to the next midnight. */
  lemma NotByMidnight(s: Scheduler, t: Instant, n: int, f: Instant)
    requires Wellformed(s) && CoversItsWeek(s) && Sunday(n) <= t < Sunday(n + 1)
    requires forall h | IsHour(s, h) :: Sunday(n) + h <= t
    requires IsDate(s, f) && t < f
    ensures NextDay(t) < f
  {
    NextDayInWeek(t, n);
    if f <= Sunday(n + 1) {
      DateInWeek(s, n, f);
    }
  }

  lemma {:induction false} NextIsFirst(s: Scheduler, t: Instant, max: Instant)
    requires Wellformed(s) && CoversItsWeek(s)
    ensures IsFirst(s, t, max, Next(s, t, max))
    decreases if t <= max then max - t + 1 else 0
  {
    if t <= max {
      var n := (DayOf(t) + 4) / 7;
      SundayIsTheWeek(t, n);
      LeastAfterIs(SundayOf(t), Hours(s, 7), t);
      var r := LeastAfter(SundayOf(t), Hours(s, 7), t);
      if r.None? {
        DayBounds(t);
        NextIsFirst(s, NextDay(t), max);
        forall f | IsDate(s, f) && t < f ensures NextDay(t) < f {
          NotByMidnight(s, t, n, f);
        }
      } else {
        assert IsHour(s, r.value - Sunday(n));
        forall f | IsDate(s, f) && t < f ensures r.value <= f {
          LeastIsFirst(s, t, n, r.value, f);
        }
      }
    }
  }

  ghost predicate AlwaysFirst(s: Scheduler)
    requires Wellformed(s)
  {
    forall t, max :: IsFirst(s, t, max, Next(s, t, max))
  }

  /** From the instant before a date, the date must be an hour of its own week. */
  lemma FoundInItsWeek(s: Scheduler, n: int, e: Instant)
    requires Wellformed(s) && AlwaysFirst(s) && IsDate(s, e) && Sunday(n) < e <= Sunday(n + 1)
    ensures IsHour(s, e - Sunday(n))
  {
    var t := e - 1;
    SundayIsTheWeek(t, n);
    LeastAfterIs(Sunday(n), Hours(s, 7), t);
    assert IsFirst(s, t, e, Next(s, t, e));
    assert Next(s, t, e) == Some(e);
    if LeastAfter(Sunday(n), Hours(s, 7), t).None? {
      DayBounds(t);
      NextIsDate(s, NextDay(t), e);
    }
  }

  lemma HoursAreCovered(s: Scheduler, h: int)
    requires Wellformed(s) && AlwaysFirst(s) && IsHour(s, h)
    ensures IsHour(s, InWeekHour(h))
  {
    var e := Sunday(0) + h;
    assert IsHour(s, e - Sunday(0));
    var n := WeekOfDate(e);
    FoundInItsWeek(s, n, e);
    SameHour(e, 0, n);
  }

  /** The last instant of a week is followed by the least hour beyond it. */
  lemma FoundBeyond(s: Scheduler, g: int, max: Instant) returns (v: Instant)
    requires Wellformed(s) && AlwaysFirst(s) && IsHour(s, g) && g >= WEEK
    requires IsDate(s, max) && Sunday(1) <= max
    ensures Sunday(1) <= v <= max && IsHour(s, v - Sunday(0))
  {
    var t := Sunday(1) - 1;
    WeekSpan(0);
    assert SundayOf(t) == Sunday(0) by { SundayIsTheWeek(t, 0); }
    LeastAfterIs(Sunday(0), Hours(s, 7), t);
    assert t < Sunday(0) + g;
    v := LeastAfter(Sunday(0), Hours(s, 7), t).value;
    assert IsFirst(s, t, max, Next(s, t, max));
    assert Next(s, t, max) == Some(v);
  }

  /** From the last instant of a week that has hours beyond its end only, the
      next date must be among those. */
  lemma BeyondIsCovered(s: Scheduler, m: int, g: int)
    requires Wellformed(s) && AlwaysFirst(s) && IsEarliest(s, m)
    requires !IsHour(s, WEEK) && IsHour(s, g) && g > WEEK
    ensures IsHour(s, WEEK + m)
  {
    var max := Sunday(1) + m;
    assert IsHour(s, max - Sunday(1)) && IsDate(s, max);
    var v := FoundBeyond(s, g, max);
    WeekSpan(0);
    assert v != Sunday(1);
    assert InWeekHour(v - Sunday(0)) == v - Sunday(1) by {
      WeekSpan(1);
      SameHour(v, 0, 1);
    }
    HoursAreCovered(s, v - Sunday(0));
  }

  /** The scheduler always finds the first date exactly when its hours cover
      their week. */
  lemma FirstIff(s: Scheduler)
    requires Wellformed(s)
    ensures AlwaysFirst(s) <==> CoversItsWeek(s)
  {
    if CoversItsWeek(s) {
      forall t, max ensures IsFirst(s, t, max, Next(s, t, max)) {
        NextIsFirst(s, t, max);
      }
    }
    if AlwaysFirst(s) {
      forall h | IsHour(s, h) ensures IsHour(s, InWeekHour(h)) {
        HoursAreCovered(s, h);
      }
      if g :| IsHour(s, g) && g > WEEK && !IsHour(s, WEEK) {
        assert IsHour(s, InWeekHour(g)) && 0 < InWeekHour(g) <= WEEK;
        var m := EarliestOf(Hours(s, 7));
        assert IsEarliest(s, m);
        BeyondIsCovered(s, m, g);
      }
    }
  }

  // ------------------------------------------------------------- hours of UTC

  /** All hours are of UTC: each lies in its own day. */
  predicate Utc(s: Scheduler) {
    Wellformed(s) && forall d, i | 0 <= d < 7 && 0 <= i < |s.days[d]| :: 0 <= s.days[d][i] < DAY
  }

  lemma {:induction false} UtcHours(s: Scheduler, dow: nat, h: int)
    requires Utc(s) && dow <= 7 && h in Hours(s, dow)
    ensures 0 <= h < dow * DAY
  {
    HoursOfDay(s, dow - 1);
    if h in Hours(s, dow - 1) {
      UtcHours(s, dow - 1, h);
    }
  }

  /** With hours of UTC that is when no race is on Sunday 00:00. */
  lemma UtcFirstIff(s: Scheduler)
    requires Utc(s)
    ensures AlwaysFirst(s) <==> !IsHour(s, 0)
    ensures CoversItsWeek(s) <==> !IsHour(s, 0)
  {
    FirstIff(s);
    forall h | IsHour(s, h) ensures 0 <= h < WEEK && InWeekHour(h) == if h == 0 then WEEK else h {
      UtcHours(s, 7, h);
      UtcHour(h);
    }
  }

  lemma UtcHour(h: int)
    requires 0 <= h < WEEK
    ensures InWeekHour(h) == if h == 0 then WEEK else h
  {
    OneRemainder(h, WEEK, 0, h);
  }
}

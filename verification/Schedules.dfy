/** The page of coming races: for every league, the dates its scheduler gives
    one after the other, merged in the order of time. */
module Schedules {
  import opened Rows
  import opened Calendar
  import opened Sorting
  import Rolling
  import Weekly

  datatype Scheduler =
    | RollingScheduler(rolling: Rolling.Scheduler)
    | DayOfWeekScheduler(weekly: Weekly.Scheduler)
    | VoidScheduler

  predicate Usable(s: Scheduler) {
    s.DayOfWeekScheduler? ==> Weekly.Wellformed(s.weekly)
  }

  function Next(s: Scheduler, t: Instant, max: Instant): Option<Instant>
    requires Usable(s)
  {
    match s
    case RollingScheduler(r) => Rolling.Next(r, t, max)
    case DayOfWeekScheduler(w) => Weekly.Next(w, t, max)
    case VoidScheduler => None
  }

  /** Only a rolling scheduler can fail, by dividing by zero. */
  ghost predicate Answers(s: Scheduler, t: Instant, max: Instant) {
    s.RollingScheduler? ==> Rolling.NeverDividesByZero(s.rolling, t, max)
  }

  method NextBetween(s: Scheduler, t: Instant, max: Instant) returns (r: Option<Instant>)
    requires Usable(s) && Answers(s, t, max)
    ensures r == Next(s, t, max)
  {
    match s
    case RollingScheduler(rolling) => r := Rolling.NextBetween(rolling, t, max);
    case DayOfWeekScheduler(weekly) => r := Weekly.NextBetween(weekly, t, max);
    case VoidScheduler => r := None;
  }

  ghost predicate IsDate(s: Scheduler, e: Instant)
    requires Usable(s)
  {
    match s
    case RollingScheduler(r) => Rolling.IsDate(r, e)
    case DayOfWeekScheduler(w) => Weekly.IsDate(w, e)
    case VoidScheduler => false
  }

  lemma NextIsDate(s: Scheduler, t: Instant, max: Instant)
    requires Usable(s)
    ensures var r := Next(s, t, max); r.Some? ==> IsDate(s, r.value) && t <= r.value <= max
  {
    match s
    case RollingScheduler(r) => Rolling.NextIsAfter(r, t, max);
    case DayOfWeekScheduler(w) => Weekly.NextIsDate(w, t, max);
    case VoidScheduler =>
  }

  // ------------------------------------------------ going from date to date

  /** A date that is its own successor. */
  ghost predicate Sticks(s: Scheduler, e: Instant, end: Instant)
    requires Usable(s)
  {
    Next(s, e, end) == Some(e)
  }

  /** From the epoch on, only rolling schedulers with a negative offset stick, at
      all of their dates. */
  lemma SticksIff(s: Scheduler, e: Instant, end: Instant)
    requires Usable(s) && 0 <= e <= end
    ensures Sticks(s, e, end) <==> s.RollingScheduler? && s.rolling.offset < 0 && IsDate(s, e)
  {
    match s
    case RollingScheduler(r) => Rolling.SticksIff(r, e, end);
    case DayOfWeekScheduler(w) => Weekly.NextIsDate(w, e, end);
    case VoidScheduler =>
  }

  lemma StuckBelow(s: Scheduler, t: Instant, e: Instant, end: Instant)
    requires Usable(s) && Sticks(s, e, end) && t <= e
    ensures Next(s, t, end).Some? && Next(s, t, end).value <= e
  {
    match s
    case RollingScheduler(r) => Rolling.StuckBelow(r, t, e, end);
    case DayOfWeekScheduler(w) => Weekly.NextIsDate(w, e, end);
    case VoidScheduler =>
  }

  /** Where a loop that starts at `start` and goes from date to date is after `n`
      rounds; it is over when there is no date left before `end`. */
  function Round(s: Scheduler, start: Instant, end: Instant, n: nat): (r: Option<Instant>)
    requires Usable(s)
    ensures r.Some? ==> r.value < end
  {
    var r := if n == 0 then Some(start)
      else
        var t := Round(s, start, end, n - 1);
        if t.None? then None else Next(s, t.value, end);
    if r.Some? && r.value < end then r else None
  }

  ghost predicate LoopEnds(s: Scheduler, start: Instant, end: Instant)
    requires Usable(s)
  {
    exists n: nat :: Round(s, start, end, n).None?
  }

  ghost predicate NothingSticks(s: Scheduler, start: Instant, end: Instant)
    requires Usable(s)
  {
    forall e {:trigger Sticks(s, e, end)} | start <= e < end :: !Sticks(s, e, end)
  }

  lemma {:induction false} RoundsAdvance(s: Scheduler, start: Instant, end: Instant, n: nat)
    requires Usable(s) && NothingSticks(s, start, end)
    ensures var r := Round(s, start, end, n); r.Some? ==> start + n <= r.value
  {
    if n > 0 {
      RoundsAdvance(s, start, end, n - 1);
      var t := Round(s, start, end, n - 1);
      if t.Some? {
        NextIsDate(s, t.value, end);
        assert !Sticks(s, t.value, end);
      }
    }
  }

  lemma {:induction false} RoundsAreStuck(s: Scheduler, start: Instant, end: Instant, e: Instant, n: nat)
    requires Usable(s) && start <= e < end && Sticks(s, e, end)
    ensures var r := Round(s, start, end, n); r.Some? && r.value <= e
  {
    if n > 0 {
      RoundsAreStuck(s, start, end, e, n - 1);
      StuckBelow(s, Round(s, start, end, n - 1).value, e, end);
    }
  }

  /** The loop ends exactly when no date it has to pass sticks. */
  lemma LoopEndsUnlessStuck(s: Scheduler, start: Instant, end: Instant)
    requires Usable(s)
    ensures LoopEnds(s, start, end) <==> NothingSticks(s, start, end)
  {
    if NothingSticks(s, start, end) {
      var n: nat := if start < end then end - start else 0;
      RoundsAdvance(s, start, end, n);
      assert Round(s, start, end, n).None?;
    } else {
      var e :| start <= e < end && Sticks(s, e, end);
      forall n: nat ensures Round(s, start, end, n).Some? {
        RoundsAreStuck(s, start, end, e, n);
      }
    }
  }

  /** From the epoch on that is: unless the scheduler is a rolling one with a
      negative offset and a date before the end. */
  lemma LoopEndsIff(s: Scheduler, start: Instant, end: Instant)
    requires Usable(s) && start >= 0
    ensures LoopEnds(s, start, end) <==>
            (s.RollingScheduler? && s.rolling.offset < 0 ==> forall e | IsDate(s, e) :: !(start <= e < end))
  {
    LoopEndsUnlessStuck(s, start, end);
    forall e | start <= e < end
      ensures Sticks(s, e, end) <==> s.RollingScheduler? && s.rolling.offset < 0 && IsDate(s, e)
    {
      SticksIff(s, e, end);
    }
  }

  // ---------------------------------------------------- finding the first date

  /** A scheduler that misses no date from `start` on: a rolling one without
      positive offset and from the epoch on, or a weekly one whose hours cover
      their week. */
  ghost predicate Regular(s: Scheduler, start: Instant) {
    && Usable(s)
    && (s.RollingScheduler? ==> s.rolling.offset <= 0 && start >= 0)
    && (s.DayOfWeekScheduler? ==> Weekly.CoversItsWeek(s.weekly))
  }

  lemma RegularFindsFirst(s: Scheduler, t: Instant, max: Instant)
    requires Regular(s, t) && !Sticks(s, t, max)
    ensures match Next(s, t, max)
      case None => forall e | IsDate(s, e) && t < e :: e > max
      case Some(e) => IsDate(s, e) && t < e <= max && forall f | IsDate(s, f) && t < f :: e <= f
  {
    match s
    case RollingScheduler(r) =>
      Rolling.NextIsFirst(r, t, max);
      forall e | IsDate(s, e) && t < e
        ensures match Next(s, t, max) case None => e > max case Some(f) => f <= e
      {
        assert Rolling.IsDate(r, e) && Rolling.Past(e, t, r.offset < 0);
      }
    case DayOfWeekScheduler(w) =>
      Weekly.NextIsFirst(w, t, max);
      forall e | IsDate(s, e) && t < e
        ensures match Next(s, t, max) case None => e > max case Some(f) => f <= e
      {
        assert Weekly.IsDate(w, e);
      }
    case VoidScheduler =>
  }

  // ------------------------------------------------------------- one league

  /** Dates strictly between two instants, once each, in order. */
  ghost predicate ListsSome(s: Scheduler, start: Instant, end: Instant, dates: seq<Instant>)
    requires Usable(s)
  {
    && (forall i, j | 0 <= i < j < |dates| :: dates[i] < dates[j])
    && (forall e | e in dates :: IsDate(s, e) && start < e < end)
  }

  /** All the dates strictly between two instants. */
  ghost predicate Lists(s: Scheduler, start: Instant, end: Instant, dates: seq<Instant>)
    requires Usable(s)
  {
    ListsSome(s, start, end, dates) && forall e | IsDate(s, e) && start < e < end :: e in dates
  }

  /** There is only one such list. */
  lemma {:induction false} ListsOnce(s: Scheduler, start: Instant, end: Instant, a: seq<Instant>, b: seq<Instant>)
    requires Usable(s) && Lists(s, start, end, a) && Lists(s, start, end, b)
    ensures a == b
  {
    assert forall e :: e in a <==> IsDate(s, e) && start < e < end;
    assert forall e :: e in b <==> IsDate(s, e) && start < e < end;
    SameMembers(a, b);
  }

  lemma {:induction false} SameMembers(a: seq<Instant>, b: seq<Instant>)
    requires forall i, j | 0 <= i < j < |a| :: a[i] < a[j]
    requires forall i, j | 0 <= i < j < |b| :: b[i] < b[j]
    requires forall e :: e in a <==> e in b
    ensures a == b
  {
    var first := if b != [] then b[0] else 0;
    assert b != [] ==> first in b;
    if a != [] {
      assert a[0] in a && a[0] in b;
      assert b[0] in b && b[0] in a;
      assert a[0] == b[0];
      forall e ensures e in a[1..] <==> e in b[1..] {
        assert e in a[1..] <==> e in a && e != a[0];
        assert e in b[1..] <==> e in b && e != b[0];
      }
      SameMembers(a[1..], b[1..]);
    }
  }

  /** A date shows that the scheduler does not divide by zero. */
  lemma StillAnswers(s: Scheduler, start: Instant, t: Instant, max: Instant)
    requires Usable(s) && Answers(s, start, max) && (t == start || IsDate(s, t))
    ensures Answers(s, t, max)
  {
  }

  /** The loop ends and nothing is divided by zero. */
  ghost predicate CanBeListed(s: Scheduler, start: Instant, end: Instant) {
    Usable(s) && LoopEnds(s, start, end) && (start < end ==> Answers(s, start, end))
  }

  method DatesBetween(s: Scheduler, start: Instant, end: Instant) returns (ret: seq<Instant>)
    requires CanBeListed(s, start, end)
    ensures ListsSome(s, start, end, ret)
    ensures Regular(s, start) ==> Lists(s, start, end, ret)
  {
    LoopEndsUnlessStuck(s, start, end);
    ret := [];
    var lastFoundStart := start;
    var next := Some(start);
    while next.Some? && next.value < end
      invariant start <= lastFoundStart == (if ret == [] then start else ret[|ret| - 1])
      invariant next.Some? ==> lastFoundStart <= next.value
      invariant next.Some? ==> next.value == start || IsDate(s, next.value)
      invariant ListsSome(s, start, end, ret)
      invariant Regular(s, start) ==> forall e | IsDate(s, e) && start < e < end ::
                  if e <= lastFoundStart then e in ret else next.Some? && next.value <= e
      decreases next.Some?, if next.Some? then end - next.value else 0
    {
      var t := next.value;
      if t != lastFoundStart {
        lastFoundStart := t;
        ret := ret + [t];
      }
      NextIsDate(s, t, end);
      StillAnswers(s, start, t, end);
      assert !Sticks(s, t, end);
      if Regular(s, start) {
        RegularFindsFirst(s, t, end);
      }
      next := NextBetween(s, t, end);
    }
  }

  // ------------------------------------------------------------ all leagues

  datatype League = League(name: string, scheduler: Scheduler)
  datatype ScheduleEntry = ScheduleEntry(leagueName: string, startDate: Instant)

  function StartKey(e: ScheduleEntry): real {
    e.startDate as real
  }

  function EntriesOf(name: string, dates: seq<Instant>): (r: seq<ScheduleEntry>)
    ensures |r| == |dates|
  {
    seq(|dates|, i requires 0 <= i < |dates| => ScheduleEntry(name, dates[i]))
  }

  /** The entries of the first leagues, given their lists. */
  function Together(leagues: seq<League>, lists: seq<seq<Instant>>): seq<ScheduleEntry>
    requires |lists| <= |leagues|
  {
    if lists == [] then []
    else Together(leagues, lists[..|lists| - 1]) + EntriesOf(leagues[|lists| - 1].name, lists[|lists| - 1])
  }

  /** The dates of one league: all there are, if its scheduler misses none. */
  ghost predicate IsListOf(s: Scheduler, start: Instant, end: Instant, dates: seq<Instant>) {
    Usable(s) && ListsSome(s, start, end, dates) && (Regular(s, start) ==> Lists(s, start, end, dates))
  }

  method ListOf(s: Scheduler, start: Instant, end: Instant) returns (dates: seq<Instant>)
    requires CanBeListed(s, start, end)
    ensures IsListOf(s, start, end, dates)
  {
    dates := DatesBetween(s, start, end);
  }

  // -------------------------------------------------- what the page shows

  /** The league races at that date, strictly between the bounds. */
  ghost predicate Races(l: League, start: Instant, end: Instant, e: ScheduleEntry) {
    && l.name == e.leagueName && start < e.startDate < end
    && Usable(l.scheduler) && IsDate(l.scheduler, e.startDate)
  }

  /** The first `n` leagues whose lists have the entry. */
  ghost function Listing(leagues: seq<League>, lists: seq<seq<Instant>>, e: ScheduleEntry, n: nat): set<int>
    requires n <= |lists| <= |leagues|
  {
    set k | 0 <= k < n && leagues[k].name == e.leagueName && e.startDate in lists[k]
  }

  lemma {:induction false} CountOfDistinct(dates: seq<Instant>, e: Instant)
    requires forall i, j | 0 <= i < j < |dates| :: dates[i] < dates[j]
    ensures multiset(dates)[e] == if e in dates then 1 else 0
  {
    if dates != [] {
      var n := |dates| - 1;
      assert dates == dates[..n] + [dates[n]];
      CountOfDistinct(dates[..n], e);
    }
  }

  lemma {:induction false} CountOfEntries(name: string, dates: seq<Instant>, e: ScheduleEntry)
    ensures multiset(EntriesOf(name, dates))[e] == if name == e.leagueName then multiset(dates)[e.startDate] else 0
  {
    var entries := EntriesOf(name, dates);
    if dates != [] {
      var n := |dates| - 1;
      assert dates == dates[..n] + [dates[n]];
      assert entries == EntriesOf(name, dates[..n]) + [ScheduleEntry(name, dates[n])];
      CountOfEntries(name, dates[..n], e);
    }
  }

  lemma ListingNext(leagues: seq<League>, lists: seq<seq<Instant>>, e: ScheduleEntry, n: nat)
    requires n < |lists| <= |leagues|
    ensures |Listing(leagues, lists, e, n + 1)| ==
            |Listing(leagues, lists, e, n)|
            + if leagues[n].name == e.leagueName && e.startDate in lists[n] then 1 else 0
  {
    var more := if leagues[n].name == e.leagueName && e.startDate in lists[n] then {n} else {};
    assert Listing(leagues, lists, e, n + 1) == Listing(leagues, lists, e, n) + more;
  }

  /** Each league that lists a date adds one entry. */
  lemma {:induction false} CountOfTogether(leagues: seq<League>, lists: seq<seq<Instant>>, e: ScheduleEntry, n: nat)
    requires n <= |lists| <= |leagues|
    requires forall k | 0 <= k < n :: forall i, j | 0 <= i < j < |lists[k]| :: lists[k][i] < lists[k][j]
    ensures multiset(Together(leagues, lists[..n]))[e] == |Listing(leagues, lists, e, n)|
  {
    if n > 0 {
      var front := lists[..n];
      assert front[..n - 1] == lists[..n - 1];
      CountOfTogether(leagues, lists, e, n - 1);
      CountOfEntries(leagues[n - 1].name, lists[n - 1], e);
      CountOfDistinct(lists[n - 1], e.startDate);
      ListingNext(leagues, lists, e, n - 1);
    }
  }

  /** The leagues that race at that date. */
  ghost function Racing(leagues: seq<League>, start: Instant, end: Instant, e: ScheduleEntry): set<int> {
    set k | 0 <= k < |leagues| && Races(leagues[k], start, end, e)
  }

  /** Those of them whose scheduler misses no date. */
  ghost function RacingForSure(leagues: seq<League>, start: Instant, end: Instant, e: ScheduleEntry): set<int> {
    set k | 0 <= k < |leagues| && Races(leagues[k], start, end, e) && Regular(leagues[k].scheduler, start)
  }

  lemma SubsetCounts<T>(a: set<T>, b: set<T>)
    requires a <= b
    ensures |a| <= |b|
  {
    assert b == a + (b - a);
  }

  /** An entry is shown at most once for each league that races then, and once for
      each of them whose scheduler misses no date. */
  ghost predicate ShowsRaces(leagues: seq<League>, start: Instant, end: Instant, ret: seq<ScheduleEntry>,
                             e: ScheduleEntry)
  {
    && |RacingForSure(leagues, start, end, e)| <= multiset(ret)[e] <= |Racing(leagues, start, end, e)|
    && (e in ret ==> exists k | 0 <= k < |leagues| :: Races(leagues[k], start, end, e))
  }

  lemma {:induction false} TogetherShows(leagues: seq<League>, lists: seq<seq<Instant>>, start: Instant, end: Instant,
                                         e: ScheduleEntry)
    requires |lists| == |leagues|
    requires forall k | 0 <= k < |leagues| :: IsListOf(leagues[k].scheduler, start, end, lists[k])
    ensures ShowsRaces(leagues, start, end, Together(leagues, lists), e)
  {
    assert lists[..|lists|] == lists;
    CountOfTogether(leagues, lists, e, |lists|);
    var shown := Listing(leagues, lists, e, |lists|);
    forall k | 0 <= k < |leagues|
      ensures k in shown ==> k in Racing(leagues, start, end, e)
      ensures k in RacingForSure(leagues, start, end, e) ==> k in shown
    {
      assert IsListOf(leagues[k].scheduler, start, end, lists[k]);
    }
    SubsetCounts(shown, Racing(leagues, start, end, e));
    SubsetCounts(RacingForSure(leagues, start, end, e), shown);
    if e in Together(leagues, lists) {
      assert e in multiset(Together(leagues, lists));
      var k :| k in shown;
      assert Races(leagues[k], start, end, e);
    }
  }

  lemma SameShows(leagues: seq<League>, start: Instant, end: Instant, a: seq<ScheduleEntry>, b: seq<ScheduleEntry>,
                  e: ScheduleEntry)
    requires multiset(a) == multiset(b) && ShowsRaces(leagues, start, end, a, e)
    ensures ShowsRaces(leagues, start, end, b, e)
  {
    assert e in b ==> e in multiset(a);
  }

  /** When all schedulers miss no date, an entry is shown exactly once for each
      league that races then. */
  lemma ShownOncePerLeague(leagues: seq<League>, start: Instant, end: Instant, ret: seq<ScheduleEntry>,
                           e: ScheduleEntry)
    requires ShowsRaces(leagues, start, end, ret, e)
    requires forall k | 0 <= k < |leagues| :: Regular(leagues[k].scheduler, start)
    ensures multiset(ret)[e] == |set k | 0 <= k < |leagues| && Races(leagues[k], start, end, e)|
  {
    assert RacingForSure(leagues, start, end, e) == Racing(leagues, start, end, e);
  }

  method GetSchedulesBetween(leagues: seq<League>, start: Instant, end: Instant)
    returns (ret: seq<ScheduleEntry>)
    requires forall k | 0 <= k < |leagues| :: CanBeListed(leagues[k].scheduler, start, end)
    ensures forall e | e in ret :: exists k | 0 <= k < |leagues| :: Races(leagues[k], start, end, e)
    ensures forall e :: ShowsRaces(leagues, start, end, ret, e)
    ensures (forall k | 0 <= k < |leagues| :: Regular(leagues[k].scheduler, start)) ==>
              forall e :: multiset(ret)[e] == |set k | 0 <= k < |leagues| && Races(leagues[k], start, end, e)|
    ensures forall i, j | 0 <= i < j < |ret| :: ret[i].startDate <= ret[j].startDate
  {
    var entries, lists := ListsOfAll(leagues, start, end);
    ret := SortSeq(entries, StartKey);
    forall e ensures ShowsRaces(leagues, start, end, ret, e) {
      TogetherShows(leagues, lists, start, end, e);
      SameShows(leagues, start, end, entries, ret, e);
    }
    if forall k | 0 <= k < |leagues| :: Regular(leagues[k].scheduler, start) {
      forall e ensures multiset(ret)[e] == |set k | 0 <= k < |leagues| && Races(leagues[k], start, end, e)| {
        ShownOncePerLeague(leagues, start, end, ret, e);
      }
    }
    forall e | e in ret ensures exists k | 0 <= k < |leagues| :: Races(leagues[k], start, end, e) {
      assert ShowsRaces(leagues, start, end, ret, e);
    }
    forall i, j | 0 <= i < j < |ret| ensures ret[i].startDate <= ret[j].startDate {
      assert StartKey(ret[i]) <= StartKey(ret[j]);
    }
  }

  method ListsOfAll(leagues: seq<League>, start: Instant, end: Instant)
    returns (ret: seq<ScheduleEntry>, ghost lists: seq<seq<Instant>>)
    requires forall k | 0 <= k < |leagues| :: CanBeListed(leagues[k].scheduler, start, end)
    ensures |lists| == |leagues|
    ensures forall k | 0 <= k < |leagues| :: IsListOf(leagues[k].scheduler, start, end, lists[k])
    ensures ret == Together(leagues, lists)
  {
    ret, lists := [], [];
    for k := 0 to |leagues|
      invariant |lists| == k
      invariant forall i | 0 <= i < k :: IsListOf(leagues[i].scheduler, start, end, lists[i])
      invariant ret == Together(leagues, lists)
    {
      var league := leagues[k];
      assert CanBeListed(league.scheduler, start, end);
      var dates := ListOf(league.scheduler, start, end);
      ret := ret + EntriesOf(league.name, dates);
      assert (lists + [dates])[..k] == lists;
      lists := lists + [dates];
    }
  }
}

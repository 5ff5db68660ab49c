/** Ratings over the runs of the ladder: the updates made each time sessions of a
    league close, against a rerank of what the run leaves. */
module RankedRuns {
  import opened Rows
  import opened Sequences
  import opened MatchHistory
  import opened Lifecycle
  import opened LifecycleInvariant
  import opened LifecycleMatchSteps
  import opened Runs
  import opened Calendar
  import opened Ranking
  import opened Incremental

  // -------------------------------------------------- what rating sees of rows

  ghost predicate IsStarted(db: Db, league: LeagueId, m: MatchId) {
    m in db.matches && db.matches[m].league == league && db.matches[m].startedAt.Some?
  }

  predicate Playable(x: Match) {
    |x.entries| == 2 && x.startedAt.Some?
  }

  function StartedOf(x: Match): Started
    requires Playable(x)
  {
    Started(x.startedAt.value * SECOND, Game(x.entries[0].player, x.entries[1].player, x.entries[0].outcome))
  }

  ghost predicate AllPlayable(db: Db, ids: seq<MatchId>) {
    forall m | m in ids :: m in db.matches && Playable(db.matches[m])
  }

  function ListOf(db: Db, ids: seq<MatchId>): (ms: seq<Started>)
    requires AllPlayable(db, ids)
  {
    if ids == [] then [] else ListOf(db, ids[..|ids| - 1]) + [StartedOf(db.matches[ids[|ids| - 1]])]
  }

  /** The started matches of a league, each once, in any order. */
  ghost predicate AreStarted(db: Db, league: LeagueId, ids: seq<MatchId>) {
    Distinct(ids) && AllPlayable(db, ids) && forall m :: m in ids <==> IsStarted(db, league, m)
  }

  ghost predicate ListsStarted(db: Db, league: LeagueId, ms: seq<Started>) {
    exists ids :: AreStarted(db, league, ids) && ms == ListOf(db, ids)
  }

  lemma {:induction false} SequenceOf(s: set<MatchId>) returns (ids: seq<MatchId>)
    ensures Distinct(ids) && forall m :: m in ids <==> m in s
  {
    if s == {} {
      ids := [];
    } else {
      var m :| m in s;
      var rest := SequenceOf(s - {m});
      ids := rest + [m];
    }
  }

  lemma ListExists(db: Db, league: LeagueId)
    requires Recorded(db)
    ensures exists ms :: ListsStarted(db, league, ms)
  {
    var ids := SequenceOf(set m | m in db.matches && IsStarted(db, league, m));
    RowsHaveTwoEntries(db);
    assert AreStarted(db, league, ids);
    assert ListsStarted(db, league, ListOf(db, ids));
  }

  /** What the query for the started matches answers, in some order. */
  ghost function Query(db: Db, league: LeagueId): (ms: seq<Started>)
    requires Recorded(db)
    ensures ListsStarted(db, league, ms)
  {
    ListExists(db, league);
    var ms :| ListsStarted(db, league, ms);
    ms
  }

  lemma {:induction false} ListHas(db: Db, ids: seq<MatchId>, x: Started)
    requires AllPlayable(db, ids)
    ensures x in ListOf(db, ids) <==> exists m | m in ids :: StartedOf(db.matches[m]) == x
  {
    if ids != [] {
      var front, last := ids[..|ids| - 1], ids[|ids| - 1];
      ListHas(db, front, x);
      assert forall m :: m in ids <==> m in front || m == last;
    }
  }

  // ------------------------------------------------------- starts are for good

  lemma StepKeepsStart(db: Db, a: Action, m: MatchId)
    requires Inv(db) && Enabled(db, a)
    requires m in db.matches && db.matches[m].startedAt.Some?
    ensures m in Do(db, a).matches && SameMatch(db.matches[m], Do(db, a).matches[m])
    ensures Do(db, a).matches[m].startedAt == db.matches[m].startedAt
  {
    StepExtendsJournal(db, a, m);
    StepKeepsInv(db, a);
    StartDateStays(db, Do(db, a), m, EventsOf(db, a, m));
  }

  lemma {:induction false} StartIndexStays(h: seq<Event>, more: seq<Event>)
    requires StartIndex(h).Some?
    ensures StartIndex(h + more) == StartIndex(h)
  {
    if more == [] {
      assert h + more == h;
    } else {
      var front, last := more[..|more| - 1], more[|more| - 1];
      StartIndexStays(h, front);
      IndexAfter(h + front, last, 0);
      assert h + front + [last] == h + more;
    }
  }

  lemma StartDateStays(db: Db, d: Db, m: MatchId, es: seq<Event>)
    requires Recorded(db) && Recorded(d) && Extends(db, d, m, es)
    requires m in db.matches && db.matches[m].startedAt.Some?
    ensures d.matches[m].startedAt == db.matches[m].startedAt
  {
    TellsStored(db, m);
    TellsStored(d, m);
    StartIndexStays(db.journal[m], es);
  }

  lemma TellsStored(db: Db, m: MatchId)
    requires Recorded(db) && m in db.matches
    ensures |db.matches[m].entries| == 2 && Tells(db.journal[m], db.matches[m])
  {
    assert Explains(db.journal[m], db.matches[m], db.clock);
    HistoryTells(Origin(db.matches[m]), db.journal[m]);
  }

  lemma SameMatchIs(x: Match, y: Match)
    requires SameMatch(x, y)
    ensures y.league == x.league
    ensures y.entries[0].player == x.entries[0].player && y.entries[1].player == x.entries[1].player
  {
    assert Origin(x) == Origin(y);
    assert Origin(x).entries[0].player == x.entries[0].player && Origin(x).entries[1].player == x.entries[1].player;
  }

  lemma StepGrows(db: Db, a: Action, league: LeagueId, ms0: seq<Started>, ms1: seq<Started>)
    requires Inv(db) && Enabled(db, a)
    requires ListsStarted(db, league, ms0) && ListsStarted(Do(db, a), league, ms1)
    ensures Grows(ms0, ms1)
  {
    var d := Do(db, a);
    var ids0: seq<MatchId> :| AreStarted(db, league, ids0) && ms0 == ListOf(db, ids0);
    var ids1: seq<MatchId> :| AreStarted(d, league, ids1) && ms1 == ListOf(d, ids1);
    forall x | x in ms0 ensures Keeps(ms1, x) {
      ListHas(db, ids0, x);
      var m :| m in ids0 && StartedOf(db.matches[m]) == x;
      StepKeepsStarted(db, a, league, m);
      var y := StartedOf(d.matches[m]);
      ListHas(d, ids1, y);
      assert y in ms1;
    }
  }

  lemma StepKeepsStarted(db: Db, a: Action, league: LeagueId, m: MatchId)
    requires Inv(db) && Enabled(db, a) && IsStarted(db, league, m) && Playable(db.matches[m])
    ensures IsStarted(Do(db, a), league, m) && Playable(Do(db, a).matches[m])
    ensures SameStart(StartedOf(db.matches[m]), StartedOf(Do(db, a).matches[m]))
  {
    StepKeepsStart(db, a, m);
    SameMatchIs(db.matches[m], Do(db, a).matches[m]);
  }

  lemma GrowsOn(a: seq<Started>, b: seq<Started>, c: seq<Started>)
    requires Grows(a, b) && Grows(b, c)
    ensures Grows(a, c)
  {
    forall x | x in a ensures Keeps(c, x) {
      assert Keeps(b, x);
      var y :| y in b && SameStart(x, y);
      assert Keeps(c, y);
      var z :| z in c && SameStart(y, z);
      assert SameStart(x, z);
    }
  }

  /** What is listed at the beginning of a run is there at its end. */
  lemma {:induction false} RunGrows(db: Db, acts: seq<Action>, league: LeagueId, ms0: seq<Started>, ms: seq<Started>)
    requires Inv(db) && CanRun(db, acts)
    requires ListsStarted(db, league, ms0) && ListsStarted(Run(db, acts), league, ms)
    ensures Grows(ms0, ms)
    decreases |acts|
  {
    if acts == [] {
      SameListGrows(db, league, ms0, ms);
    } else {
      StepKeepsInv(db, acts[0]);
      var d := Do(db, acts[0]);
      var ms1 := Query(d, league);
      StepGrows(db, acts[0], league, ms0, ms1);
      RunGrows(d, acts[1..], league, ms1, ms);
      GrowsOn(ms0, ms1, ms);
    }
  }

  lemma SameListGrows(db: Db, league: LeagueId, ms0: seq<Started>, ms: seq<Started>)
    requires ListsStarted(db, league, ms0) && ListsStarted(db, league, ms)
    ensures Grows(ms0, ms)
  {
    var ids0: seq<MatchId> :| AreStarted(db, league, ids0) && ms0 == ListOf(db, ids0);
    var ids: seq<MatchId> :| AreStarted(db, league, ids) && ms == ListOf(db, ids);
    forall x | x in ms0 ensures Keeps(ms, x) {
      ListHas(db, ids0, x);
      ListHas(db, ids, x);
      assert x in ms && SameStart(x, x);
    }
  }

  /** No listed match starts after the clock. */
  lemma StartedByNow(db: Db, league: LeagueId, ms: seq<Started>)
    requires Recorded(db) && ListsStarted(db, league, ms)
    ensures forall k | 0 <= k < |ms| :: ms[k].at <= db.clock * SECOND
  {
    var ids: seq<MatchId> :| AreStarted(db, league, ids) && ms == ListOf(db, ids);
    forall k | 0 <= k < |ms| ensures ms[k].at <= db.clock * SECOND {
      ListHas(db, ids, ms[k]);
      var m :| m in ids && StartedOf(db.matches[m]) == ms[k];
      StartIsPast(db, m);
    }
  }

  lemma StartIsPast(db: Db, m: MatchId)
    requires Recorded(db) && m in db.matches && db.matches[m].startedAt.Some?
    ensures db.matches[m].startedAt.value <= db.clock
  {
    StoredStart(db, m);
    ExplainedBefore(db.journal[m], db.matches[m], db.clock);
  }

  lemma StoredStart(db: Db, m: MatchId)
    requires Recorded(db) && m in db.matches
    ensures db.matches[m].startedAt == TimeOf(db.journal[m], StartIndex(db.journal[m]))
    ensures Explains(db.journal[m], db.matches[m], db.clock)
  {
    TellsStored(db, m);
  }

  lemma {:induction false} ExplainedBefore(h: seq<Event>, x: Match, clock: Time)
    requires Explains(h, x, clock) && StartIndex(h).Some?
    ensures h[StartIndex(h).value].at <= clock
  {
    StartIsBeforeLast(Origin(x), h);
  }

  lemma {:induction false} StartIsBeforeLast(x: Match, h: seq<Event>)
    requires |x.entries| == 2 && LegalHistory(x, h) && StartIndex(h).Some?
    ensures h != [] && h[StartIndex(h).value].at <= h[|h| - 1].at
  {
    TimesInOrder(x, h, StartIndex(h).value, |h| - 1);
  }

  // ------------------------------------------------------ updates at closings

  /** The action closes a session of the league. */
  ghost predicate Closes(db: Db, a: Action, league: LeagueId) {
    a.CloseSessions? && exists s | s in db.sessions :: db.sessions[s].league == league && DueToClose(db, s, a.now)
  }

  /** The updates of a league's ratings over a run: one at each closing. */
  ghost function Updates(db: Db, acts: seq<Action>, league: LeagueId): seq<Made>
    requires Inv(db) && CanRun(db, acts)
    decreases |acts|
  {
    if acts == [] then []
    else
      StepKeepsInv(db, acts[0]);
      var d := Do(db, acts[0]);
      var rest := Updates(d, acts[1..], league);
      if Closes(db, acts[0], league) then [Made(acts[0].now * SECOND, Query(d, league))] + rest else rest
  }

  /** Its first action, and the rest. */
  lemma SplitFirst(db: Db, acts: seq<Action>, league: LeagueId) returns (d: Db, head: seq<Made>)
    requires Inv(db) && CanRun(db, acts) && acts != []
    ensures Inv(d) && CanRun(d, acts[1..]) && Run(d, acts[1..]) == Run(db, acts) && d == AfterFirst(db, acts)
    ensures db.clock <= d.clock <= Run(db, acts).clock
    ensures Updates(db, acts, league) == head + Updates(d, acts[1..], league)
    ensures head == if Closes(db, acts[0], league) then [Made(d.clock * SECOND, Query(d, league))] else []
  {
    StepKeepsInv(db, acts[0]);
    StepClock(db, acts[0]);
    d := Do(db, acts[0]);
    head := if Closes(db, acts[0], league) then [Made(d.clock * SECOND, Query(d, league))] else [];
    ClockAdvances(d, acts[1..]);
  }

  lemma {:induction false} FirstGrows(db: Db, acts: seq<Action>, league: LeagueId, ms0: seq<Started>, ms1: seq<Started>)
    requires Inv(db) && CanRun(db, acts) && acts != []
    requires ListsStarted(db, league, ms0) && ListsStarted(AfterFirst(db, acts), league, ms1)
    ensures Grows(ms0, ms1)
  {
    StepGrows(db, acts[0], league, ms0, ms1);
  }

  /** All updates have seen the list `ms`, and are made between two times. */
  ghost predicate AllLater(us: seq<Made>, ms: seq<Started>, from: Instant, to: Instant) {
    us != [] ==> Grows(ms, us[0].ms) && from <= us[0].now <= to && AllLater(us[1..], ms, from, to)
  }

  lemma {:induction false} EarlierStill(us: seq<Made>, ms0: seq<Started>, ms1: seq<Started>, from0: Instant,
                                        from1: Instant, to: Instant)
    requires Grows(ms0, ms1) && from0 <= from1 && AllLater(us, ms1, from1, to)
    ensures AllLater(us, ms0, from0, to)
  {
    if us != [] {
      GrowsOn(ms0, ms1, us[0].ms);
      EarlierStill(us[1..], ms0, ms1, from0, from1, to);
    }
  }

  lemma {:induction false} AllLaterAt(us: seq<Made>, ms: seq<Started>, from: Instant, to: Instant, j: nat)
    requires AllLater(us, ms, from, to) && j < |us|
    ensures Grows(ms, us[j].ms) && from <= us[j].now <= to
  {
    if j > 0 {
      AllLaterAt(us[1..], ms, from, to, j - 1);
    }
  }

  /** Each update comes before the others, and before the list at the end. */
  ghost predicate InOrder(us: seq<Made>, ms: seq<Started>, to: Instant) {
    us != [] ==>
      && AllLater(us[1..], us[0].ms, us[0].now, to)
      && us[0].now <= to && Grows(us[0].ms, ms)
      && InOrder(us[1..], ms, to)
  }

  lemma {:induction false} InOrderAt(us: seq<Made>, ms: seq<Started>, to: Instant, i: nat)
    requires InOrder(us, ms, to) && i < |us|
    ensures us[i].now <= to && Grows(us[i].ms, ms)
    ensures forall j | i < j < |us| :: us[i].now <= us[j].now && Grows(us[i].ms, us[j].ms)
  {
    if i > 0 {
      InOrderAt(us[1..], ms, to, i - 1);
      assert forall j | i < j < |us| :: us[j] == us[1..][j - 1];
    } else {
      forall j | 0 < j < |us| ensures us[0].now <= us[j].now && Grows(us[0].ms, us[j].ms) {
        AllLaterAt(us[1..], us[0].ms, us[0].now, to, j - 1);
      }
    }
  }

  lemma HeadOnTop(head: seq<Made>, rest: seq<Made>)
    requires |head| <= 1
    ensures head == [] ==> head + rest == rest
    ensures head != [] ==> head + rest != [] && (head + rest)[0] == head[0] && (head + rest)[1..] == rest
  {
  }

  lemma {:induction false} UpdatesAreLater(db: Db, acts: seq<Action>, league: LeagueId, ms0: seq<Started>)
    requires Inv(db) && CanRun(db, acts) && ListsStarted(db, league, ms0)
    ensures AllLater(Updates(db, acts, league), ms0, db.clock * SECOND, Run(db, acts).clock * SECOND)
    decreases |acts|
  {
    if acts != [] {
      var d, head := SplitFirst(db, acts, league);
      var ms1, rest, to := Query(d, league), Updates(d, acts[1..], league), Run(db, acts).clock * SECOND;
      FirstGrows(db, acts, league, ms0, ms1);
      UpdatesAreLater(d, acts[1..], league, ms1);
      EarlierStill(rest, ms0, ms1, db.clock * SECOND, d.clock * SECOND, to);
      HeadOnTop(head, rest);
    }
  }

  lemma {:induction false} UpdatesAreInOrder(db: Db, acts: seq<Action>, league: LeagueId, ms: seq<Started>)
    requires Inv(db) && CanRun(db, acts) && ListsStarted(Run(db, acts), league, ms)
    ensures InOrder(Updates(db, acts, league), ms, Run(db, acts).clock * SECOND)
    decreases |acts|
  {
    if acts != [] {
      var d, head := SplitFirst(db, acts, league);
      var ms1 := Query(d, league);
      UpdatesAreInOrder(d, acts[1..], league, ms);
      UpdatesAreLater(d, acts[1..], league, ms1);
      RunGrows(d, acts[1..], league, ms1, ms);
      HeadOnTop(head, Updates(d, acts[1..], league));
    }
  }

  /** Those of a run from the beginning. */
  ghost function RunUpdates(acts: seq<Action>, league: LeagueId): seq<Made>
    requires CanRun(EMPTY_DB, acts)
  {
    EmptyIsGood();
    Updates(EMPTY_DB, acts, league)
  }

  /** The updates of a run are such as the incremental ratings are about. */
  lemma {:induction false} UpdatesAreMade(acts: seq<Action>, league: LeagueId, ms: seq<Started>, now: Instant)
    requires CanRun(EMPTY_DB, acts) && ListsStarted(Run(EMPTY_DB, acts), league, ms)
    requires Run(EMPTY_DB, acts).clock * SECOND <= now
    ensures MadeUntil(RunUpdates(acts, league), ms, now)
  {
    EmptyIsGood();
    var made, to := Updates(EMPTY_DB, acts, league), Run(EMPTY_DB, acts).clock * SECOND;
    UpdatesAreInOrder(EMPTY_DB, acts, league, ms);
    RunKeepsInv(EMPTY_DB, acts);
    StartedByNow(Run(EMPTY_DB, acts), league, ms);
    InOrderIsMade(made, ms, to, now);
  }

  lemma {:induction false} InOrderIsMade(made: seq<Made>, ms: seq<Started>, to: Instant, now: Instant)
    requires InOrder(made, ms, to) && to <= now && forall k | 0 <= k < |ms| :: ms[k].at <= to
    ensures MadeUntil(made, ms, now)
  {
    forall i | 0 <= i < |made|
      ensures made[i].now <= now && Grows(made[i].ms, ms)
      ensures forall j | i < j < |made| :: made[i].now <= made[j].now && Grows(made[i].ms, made[j].ms)
    {
      InOrderAt(made, ms, to, i);
    }
  }

  lemma {:induction false} ClockAdvances(db: Db, acts: seq<Action>)
    requires Inv(db) && CanRun(db, acts)
    ensures db.clock <= Run(db, acts).clock
    decreases |acts|
  {
    if acts != [] {
      StepKeepsInv(db, acts[0]);
      StepClock(db, acts[0]);
      ClockAdvances(Do(db, acts[0]), acts[1..]);
    }
  }

  lemma StepClock(db: Db, a: Action)
    requires Recorded(db) && Enabled(db, a)
    ensures db.clock <= Do(db, a).clock == TimeOfAction(db, a)
  {
  }

  // ------------------------------------------------------------- quiet weeks

  /** A started match of the league whose start lies in week `n`. */
  ghost predicate InWeekNo(db: Db, league: LeagueId, n: int, m: MatchId) {
    IsStarted(db, league, m) && WeekNo(db.matches[m].startedAt.value * SECOND) == n
  }

  /** From `db` on, nothing happens to the matches of week `n`. */
  ghost predicate QuietWeek(db: Db, acts: seq<Action>, league: LeagueId, n: int)
    requires CanRun(db, acts)
  {
    forall m {:trigger Untouched(db, acts, league, n, m)} :: Untouched(db, acts, league, n, m)
  }

  ghost predicate Untouched(db: Db, acts: seq<Action>, league: LeagueId, n: int, m: MatchId)
    requires CanRun(db, acts)
  {
    InWeekNo(Run(db, acts), league, n, m) ==> EventsIn(db, acts, m) == []
  }

  /** A match without events between is the same row. */
  lemma QuietRow(db: Db, d: Db, m: MatchId)
    requires Recorded(db) && Recorded(d) && Extends(db, d, m, [])
    requires m in d.matches && d.matches[m].startedAt.Some?
    ensures m in db.matches && db.matches[m] == d.matches[m]
  {
    TellsStored(d, m);
    assert d.journal[m] != [];
    assert JournalOf(db, m) + [] == JournalOf(db, m);
    assert Explains(db.journal[m], db.matches[m], db.clock) && Explains(d.journal[m], d.matches[m], d.clock);
  }

  /** The matches of a quiet week are the same at both ends of the run. */
  lemma {:induction false} QuietRows(db: Db, acts: seq<Action>, league: LeagueId, n: int, m: MatchId)
    requires Inv(db) && CanRun(db, acts) && QuietWeek(db, acts, league, n)
    ensures InWeekNo(db, league, n, m) <==> InWeekNo(Run(db, acts), league, n, m)
    ensures InWeekNo(db, league, n, m) ==> db.matches[m] == Run(db, acts).matches[m]
  {
    var d := Run(db, acts);
    RunKeepsInv(db, acts);
    JournalIsTheRun(db, acts, m);
    if InWeekNo(db, league, n, m) {
      StartDateStays(db, d, m, EventsIn(db, acts, m));
      SameMatchIs(db.matches[m], d.matches[m]);
    }
    assert Untouched(db, acts, league, n, m);
    if InWeekNo(d, league, n, m) {
      QuietRow(db, d, m);
    }
  }

  // ----------------------------------------------------- the games of one week

  function WeekIds(db: Db, ids: seq<MatchId>, n: int): (w: seq<MatchId>)
    requires AllPlayable(db, ids)
  {
    if ids == [] then []
    else
      var last := ids[|ids| - 1];
      WeekIds(db, ids[..|ids| - 1], n) + if WeekNo(db.matches[last].startedAt.value * SECOND) == n then [last] else []
  }

  function GamesOf(db: Db, ids: seq<MatchId>): seq<Game>
    requires AllPlayable(db, ids)
  {
    seq(|ids|, k requires 0 <= k < |ids| => StartedOf(db.matches[ids[k]]).game)
  }

  lemma {:induction false} WeekIdsAre(db: Db, ids: seq<MatchId>, n: int)
    requires AllPlayable(db, ids) && Distinct(ids)
    ensures Distinct(WeekIds(db, ids, n)) && AllPlayable(db, WeekIds(db, ids, n))
    ensures forall m :: m in WeekIds(db, ids, n) <==> m in ids && WeekNo(db.matches[m].startedAt.value * SECOND) == n
  {
    if ids != [] {
      var front, last := ids[..|ids| - 1], ids[|ids| - 1];
      WeekIdsAre(db, front, n);
      assert forall m :: m in ids <==> m in front || m == last;
      assert last !in front;
    }
  }

  lemma {:induction false} InWeekNext(ms: seq<Started>, x: Started, n: int)
    ensures InWeek(ms + [x], Monday(n)) == InWeek(ms, Monday(n)) + if WeekNo(x.at) == n then [x.game] else []
  {
    assert (ms + [x])[..|ms + [x]| - 1] == ms;
    WeekNoIs(x.at, n);
  }

  /** The week's games of a list are those of the week's matches. */
  lemma {:induction false} WeekOfList(db: Db, ids: seq<MatchId>, n: int)
    requires AllPlayable(db, ids) && Distinct(ids) && AllPlayable(db, WeekIds(db, ids, n))
    ensures InWeek(ListOf(db, ids), Monday(n)) == GamesOf(db, WeekIds(db, ids, n))
  {
    if ids != [] {
      var front, last := ids[..|ids| - 1], ids[|ids| - 1];
      WeekIdsAre(db, front, n);
      WeekOfList(db, front, n);
      InWeekNext(ListOf(db, front), StartedOf(db.matches[last]), n);
    }
  }

  lemma GamesDrop(db: Db, ids: seq<MatchId>, i: nat)
    requires AllPlayable(db, ids) && i < |ids|
    ensures AllPlayable(db, Drop(ids, i))
    ensures multiset(GamesOf(db, ids)) == multiset(GamesOf(db, Drop(ids, i))) + multiset{GamesOf(db, ids)[i]}
  {
    DropCounts(GamesOf(db, ids), i);
    assert GamesOf(db, Drop(ids, i)) == Drop(GamesOf(db, ids), i);
  }

  lemma {:induction false} GamesRearranged(db: Db, a: seq<MatchId>, b: seq<MatchId>)
    requires AllPlayable(db, a) && AllPlayable(db, b) && multiset(a) == multiset(b)
    ensures multiset(GamesOf(db, a)) == multiset(GamesOf(db, b))
  {
    if a == [] {
      assert |multiset(b)| == 0;
    } else {
      var n := |a| - 1;
      var j := FindLast(a, b);
      GamesDrop(db, a, n);
      GamesDrop(db, b, j);
      assert Drop(a, n) == a[..n];
      GamesRearranged(db, a[..n], Drop(b, j));
    }
  }

  /** Two listings with the same rows of a week have the same bag of its games. */
  lemma {:induction false} SameRowsSameGames(db: Db, d: Db, league: LeagueId, n: int, ids0: seq<MatchId>,
                                             ids1: seq<MatchId>)
    requires AreStarted(db, league, ids0) && AreStarted(d, league, ids1)
    requires forall m :: InWeekNo(db, league, n, m) <==> InWeekNo(d, league, n, m)
    requires forall m | InWeekNo(db, league, n, m) :: m in d.matches && db.matches[m] == d.matches[m]
    ensures multiset(InWeek(ListOf(db, ids0), Monday(n))) == multiset(InWeek(ListOf(d, ids1), Monday(n)))
  {
    WeekIdsAre(db, ids0, n);
    WeekIdsAre(d, ids1, n);
    var w0, w1 := WeekIds(db, ids0, n), WeekIds(d, ids1, n);
    forall m ensures m in w0 <==> m in w1 {
      assert m in w0 <==> InWeekNo(db, league, n, m);
      assert m in w1 <==> InWeekNo(d, league, n, m);
    }
    SameDistinct(w0, w1);
    WeekOfList(db, ids0, n);
    WeekOfList(d, ids1, n);
    SameGamesOf(db, d, league, n, w0);
    GamesRearranged(d, w0, w1);
  }

  lemma SameGamesOf(db: Db, d: Db, league: LeagueId, n: int, w: seq<MatchId>)
    requires AllPlayable(db, w) && forall m | m in w :: InWeekNo(db, league, n, m)
    requires forall m | InWeekNo(db, league, n, m) :: m in d.matches && db.matches[m] == d.matches[m]
    ensures AllPlayable(d, w) && GamesOf(db, w) == GamesOf(d, w)
  {
    forall k | 0 <= k < |w| ensures db.matches[w[k]] == d.matches[w[k]] {
      assert w[k] in w;
    }
  }

  lemma {:induction false} QuietGames(db: Db, acts: seq<Action>, league: LeagueId, n: int, ms0: seq<Started>,
                                      ms: seq<Started>)
    requires Inv(db) && CanRun(db, acts) && QuietWeek(db, acts, league, n)
    requires ListsStarted(db, league, ms0) && ListsStarted(Run(db, acts), league, ms)
    ensures multiset(InWeek(ms0, Monday(n))) == multiset(InWeek(ms, Monday(n)))
  {
    var d := Run(db, acts);
    var ids0: seq<MatchId> :| AreStarted(db, league, ids0) && ms0 == ListOf(db, ids0);
    var ids1: seq<MatchId> :| AreStarted(d, league, ids1) && ms == ListOf(d, ids1);
    forall m
      ensures InWeekNo(db, league, n, m) <==> InWeekNo(d, league, n, m)
      ensures InWeekNo(db, league, n, m) ==> db.matches[m] == d.matches[m]
    {
      QuietRows(db, acts, league, n, m);
    }
    SameRowsSameGames(db, d, league, n, ids0, ids1);
  }

  lemma {:induction false} StaysQuiet(db: Db, acts: seq<Action>, d: Db, league: LeagueId, n: int)
    requires CanRun(db, acts) && acts != [] && d == AfterFirst(db, acts)
    requires CanRun(d, acts[1..]) && Run(d, acts[1..]) == Run(db, acts)
    ensures QuietWeek(db, acts, league, n) ==> QuietWeek(d, acts[1..], league, n)
  {
    if QuietWeek(db, acts, league, n) {
      forall m ensures Untouched(d, acts[1..], league, n, m) {
        assert Untouched(db, acts, league, n, m);
      }
    }
  }

  /** How often a game is in week `n` of a list. */
  function Times(ms: seq<Started>, n: int, x: Game): nat {
    multiset(InWeek(ms, Monday(n)))[x]
  }

  /** The update sees the games of week `n` as the list `ms` has them. */
  ghost predicate Sees(u: Made, ms: seq<Started>, n: int) {
    forall x {:trigger Times(u.ms, n, x)} :: Times(u.ms, n, x) == Times(ms, n, x)
  }

  lemma {:induction false} SeesBag(u: Made, ms: seq<Started>, n: int)
    ensures Sees(u, ms, n) ==> multiset(InWeek(u.ms, Monday(n))) == multiset(InWeek(ms, Monday(n)))
  {
    if Sees(u, ms, n) {
      forall x ensures multiset(InWeek(u.ms, Monday(n)))[x] == multiset(InWeek(ms, Monday(n)))[x] {
        assert Times(u.ms, n, x) == Times(ms, n, x);
      }
    }
  }

  ghost predicate AllSee(us: seq<Made>, ms: seq<Started>, n: int) {
    us != [] ==> Sees(us[0], ms, n) && AllSee(us[1..], ms, n)
  }

  lemma {:induction false} AllSeeAt(us: seq<Made>, ms: seq<Started>, n: int, j: nat)
    requires AllSee(us, ms, n) && j < |us|
    ensures Sees(us[j], ms, n)
  {
    if j > 0 {
      AllSeeAt(us[1..], ms, n, j - 1);
    }
  }

  lemma {:induction false} AlsoSee(head: seq<Made>, rest: seq<Made>, ms: seq<Started>, n: int)
    requires |head| <= 1 && (head != [] ==> Sees(head[0], ms, n)) && AllSee(rest, ms, n)
    ensures AllSee(head + rest, ms, n)
  {
    HeadOnTop(head, rest);
  }

  /** In a quiet week, all updates see the week's games as they are at the end. */
  lemma {:induction false} QuietUpdates(db: Db, acts: seq<Action>, league: LeagueId, n: int, ms: seq<Started>)
    requires Inv(db) && CanRun(db, acts) && QuietWeek(db, acts, league, n)
    requires ListsStarted(Run(db, acts), league, ms)
    ensures AllSee(Updates(db, acts, league), ms, n)
    decreases |acts|
  {
    if acts != [] {
      var d, head := SplitFirst(db, acts, league);
      StaysQuiet(db, acts, d, league, n);
      QuietUpdates(d, acts[1..], league, n, ms);
      QuietGames(d, acts[1..], league, n, Query(d, league), ms);
      AlsoSee(head, Updates(d, acts[1..], league), ms, n);
    }
  }

  // ------------------------------------------------------------ main result

  /** The first action is a closing in week `n`, after which nothing happens to
      the matches of the week. */
  ghost predicate ClosesLast(db: Db, acts: seq<Action>, league: LeagueId, n: int)
    requires CanRun(db, acts) && acts != []
  {
    && Closes(db, acts[0], league)
    && WeekNo(AfterFirst(db, acts).clock * SECOND) == n
    && QuietWeek(AfterFirst(db, acts), acts[1..], league, n)
  }

  /** In week `n` there is a closing after which nothing happens to the matches
      of the week: after the last start and the last end. */
  ghost predicate ClosedLate(db: Db, acts: seq<Action>, league: LeagueId, n: int)
    requires CanRun(db, acts)
    decreases |acts|
  {
    acts != [] &&
    (ClosesLast(db, acts, league, n) || ClosedLate(AfterFirst(db, acts), acts[1..], league, n))
  }

  lemma {:induction false} LastClosing(db: Db, acts: seq<Action>, league: LeagueId, n: int, ms: seq<Started>)
    requires Inv(db) && CanRun(db, acts) && acts != [] && ClosesLast(db, acts, league, n)
    requires ListsStarted(Run(db, acts), league, ms)
    ensures Updates(db, acts, league) != [] && WeekNo(Updates(db, acts, league)[0].now) == n
    ensures AllSee(Updates(db, acts, league), ms, n)
  {
    var d, head := SplitFirst(db, acts, league);
    QuietUpdates(d, acts[1..], league, n, ms);
    QuietGames(d, acts[1..], league, n, Query(d, league), ms);
    AlsoSee(head, Updates(d, acts[1..], league), ms, n);
  }

  /** From some update of week `n` on, all see the games as `ms` has them. */
  ghost predicate SeeLate(us: seq<Made>, ms: seq<Started>, n: int) {
    us != [] && ((WeekNo(us[0].now) == n && AllSee(us, ms, n)) || SeeLate(us[1..], ms, n))
  }

  lemma {:induction false} SeeLateAt(us: seq<Made>, ms: seq<Started>, n: int) returns (i: nat)
    requires SeeLate(us, ms, n)
    ensures i < |us| && WeekNo(us[i].now) == n && forall j | i <= j < |us| :: Sees(us[j], ms, n)
  {
    if WeekNo(us[0].now) == n && AllSee(us, ms, n) {
      i := 0;
      forall j | 0 <= j < |us| ensures Sees(us[j], ms, n) {
        AllSeeAt(us, ms, n, j);
      }
    } else {
      var k := SeeLateAt(us[1..], ms, n);
      i := k + 1;
      forall j | i <= j < |us| ensures Sees(us[j], ms, n) {
        assert us[j] == us[1..][j - 1];
      }
    }
  }

  /** From the update of that closing on, the week's games are seen as they are
      at the end. */
  lemma {:induction false} LateUpdate(db: Db, acts: seq<Action>, league: LeagueId, n: int, ms: seq<Started>)
    requires Inv(db) && CanRun(db, acts) && ClosedLate(db, acts, league, n)
    requires ListsStarted(Run(db, acts), league, ms)
    ensures SeeLate(Updates(db, acts, league), ms, n)
    decreases |acts|
  {
    if ClosesLast(db, acts, league, n) {
      LastClosing(db, acts, league, n, ms);
    } else {
      var d, head := SplitFirst(db, acts, league);
      LateUpdate(d, acts[1..], league, n, ms);
      HeadOnTop(head, Updates(d, acts[1..], league));
    }
  }

  lemma {:induction false} WeekIsClosed<R>(g: Glicko<R>, acts: seq<Action>, league: LeagueId, ms: seq<Started>,
                                           n0: int, n: int)
    requires CanRun(EMPTY_DB, acts) && ListsStarted(Run(EMPTY_DB, acts), league, ms)
    requires ClosedLate(EMPTY_DB, acts, league, n)
    ensures Covers(g, Weeks(RunUpdates(acts, league)), ms, n0, n)
  {
    EmptyIsGood();
    var made := Updates(EMPTY_DB, acts, league);
    LateUpdate(EMPTY_DB, acts, league, n, ms);
    LateIsCovered(g, made, ms, n0, n);
  }

  lemma {:induction false} LateIsCovered<R>(g: Glicko<R>, made: seq<Made>, ms: seq<Started>, n0: int, n: int)
    requires SeeLate(made, ms, n)
    ensures Covers(g, Weeks(made), ms, n0, n)
  {
    var us := Weeks(made);
    var i := SeeLateAt(made, ms, n);
    assert us[i].week == n;
    var j := LastExists(us, i, n);
    SeesBag(made[j], ms, n);
    SameGamesCover(g, us, ms, n0, n, j);
  }

  /** Over any run of the ladder: if each week from a league's first match on has
      a closing after its last start and its last end, the ratings updated at the
      closings are those of a rerank. */
  lemma {:induction false} ClosingsAreRerank<R(!new)>(g: Glicko<R>, acts: seq<Action>, league: LeagueId,
                                                      ms: seq<Started>, now: Instant)
    requires KeepsPlayers(g) && CanRun(EMPTY_DB, acts)
    requires ListsStarted(Run(EMPTY_DB, acts), league, ms) && Run(EMPTY_DB, acts).clock * SECOND <= now
    requires ms != [] ==> forall n | WeekNo(FirstStart(ms)) <= n <= WeekNo(now) :: ClosedLate(EMPTY_DB, acts, league, n)
    ensures UpdatedAlong(g, RunUpdates(acts, league)) == Rerank(g, ms, now)
  {
    var made := RunUpdates(acts, league);
    UpdatesAreMade(acts, league, ms, now);
    assert Covered(g, Weeks(made), ms, WeekNo(now)) by {
      if ms != [] {
        var n0 := WeekNo(FirstStart(ms));
        forall n | n0 <= n <= WeekNo(now) ensures Covers(g, Weeks(made), ms, n0, n) {
          WeekIsClosed(g, acts, league, ms, n0, n);
        }
      }
    }
    AlongIsRerankIff(g, made, ms, now);
  }

  // ------------------------------------------------------ a race over midnight

  /** None of the league's started matches is the player's. */
  ghost predicate NotRaced(db: Db, league: LeagueId, p: PlayerId) {
    forall m | IsStarted(db, league, m) && Playable(db.matches[m]) :: !Plays(StartedOf(db.matches[m]), p)
  }

  /** No session of the league closes in week `n`. */
  ghost predicate NoClosing(db: Db, acts: seq<Action>, league: LeagueId, n: int)
    requires CanRun(db, acts)
    decreases |acts|
  {
    acts != [] ==>
      && !(Closes(db, acts[0], league) && WeekNo(AfterFirst(db, acts).clock * SECOND) == n)
      && NoClosing(AfterFirst(db, acts), acts[1..], league, n)
  }

  /** There is a moment up to which the player has not raced, and from which on
      no session closes in week `n`. */
  ghost predicate StartsUnseen(db: Db, acts: seq<Action>, league: LeagueId, p: PlayerId, n: int)
    requires CanRun(db, acts)
    decreases |acts|
  {
    || (NotRaced(db, league, p) && NoClosing(db, acts, league, n))
    || (acts != [] && StartsUnseen(AfterFirst(db, acts), acts[1..], league, p, n))
  }

  lemma NotRacedBefore(db: Db, a: Action, league: LeagueId, p: PlayerId)
    requires Inv(db) && Enabled(db, a) && NotRaced(Do(db, a), league, p)
    ensures NotRaced(db, league, p)
  {
    forall m | IsStarted(db, league, m) && Playable(db.matches[m]) ensures !Plays(StartedOf(db.matches[m]), p) {
      StepKeepsStarted(db, a, league, m);
    }
  }

  lemma {:induction false} NotRacedSoFar(db: Db, acts: seq<Action>, league: LeagueId, p: PlayerId, n: int)
    requires Inv(db) && CanRun(db, acts) && StartsUnseen(db, acts, league, p, n)
    ensures NotRaced(db, league, p)
    decreases |acts|
  {
    if !NotRaced(db, league, p) {
      var d, head := SplitFirst(db, acts, league);
      NotRacedSoFar(d, acts[1..], league, p, n);
      NotRacedBefore(db, acts[0], league, p);
    }
  }

  lemma {:induction false} ListMisses(db: Db, league: LeagueId, ms: seq<Started>, p: PlayerId, n: int)
    requires NotRaced(db, league, p) && ListsStarted(db, league, ms)
    ensures p !in PlayersOf(InWeek(ms, Monday(n)))
  {
    var ids: seq<MatchId> :| AreStarted(db, league, ids) && ms == ListOf(db, ids);
    InWeekPlayers(ms, Monday(n), p);
    forall x | x in ms ensures !PlaysIn(x, Monday(n), p) {
      ListHas(db, ids, x);
      var m :| m in ids && StartedOf(db.matches[m]) == x;
      assert IsStarted(db, league, m);
    }
  }

  /** None of the updates of week `n` saw the player. */
  ghost predicate NoneSees(us: seq<Made>, p: PlayerId, n: int) {
    us != [] ==> (WeekNo(us[0].now) == n ==> !SeesPlayer(us[0], p, n)) && NoneSees(us[1..], p, n)
  }

  lemma {:induction false} NoneSeesAt(us: seq<Made>, p: PlayerId, n: int, i: nat)
    requires NoneSees(us, p, n) && i < |us| && WeekNo(us[i].now) == n
    ensures !SeesPlayer(us[i], p, n)
  {
    if i > 0 {
      NoneSeesAt(us[1..], p, n, i - 1);
    }
  }

  lemma {:induction false} NoClosingNoUpdate(db: Db, acts: seq<Action>, league: LeagueId, p: PlayerId, n: int)
    requires Inv(db) && CanRun(db, acts) && NoClosing(db, acts, league, n)
    ensures NoneSees(Updates(db, acts, league), p, n)
    decreases |acts|
  {
    if acts != [] {
      var d, head := SplitFirst(db, acts, league);
      NoClosingNoUpdate(d, acts[1..], league, p, n);
      HeadOnTop(head, Updates(d, acts[1..], league));
    }
  }

  lemma {:induction false} UpdatesMiss(db: Db, acts: seq<Action>, league: LeagueId, p: PlayerId, n: int)
    requires Inv(db) && CanRun(db, acts) && StartsUnseen(db, acts, league, p, n)
    ensures NoneSees(Updates(db, acts, league), p, n)
    decreases |acts|
  {
    if NotRaced(db, league, p) && NoClosing(db, acts, league, n) {
      NoClosingNoUpdate(db, acts, league, p, n);
    } else {
      var d, head := SplitFirst(db, acts, league);
      UpdatesMiss(d, acts[1..], league, p, n);
      NotRacedSoFar(d, acts[1..], league, p, n);
      ListMisses(d, league, Query(d, league), p, n);
      HeadOnTop(head, Updates(d, acts[1..], league));
    }
  }

  /** Over any run of the ladder: if a player's first race starts in week `n` and
      no session of the league closes from then to the end of that week, the
      ratings updated at the closings are not those of a rerank. */
  lemma {:induction false} FirstRaceIsLost<R(!new)>(g: Glicko<R>, acts: seq<Action>, league: LeagueId,
                                                    ms: seq<Started>, now: Instant, k: nat, p: PlayerId,
                                                    n: int)
    requires KeepsPlayers(g) && CanRun(EMPTY_DB, acts)
    requires ListsStarted(Run(EMPTY_DB, acts), league, ms) && Run(EMPTY_DB, acts).clock * SECOND <= now
    requires k < |ms| && Plays(ms[k], p) && WeekNo(ms[k].at) == n && NoRaceBefore(ms, p, n)
    requires StartsUnseen(EMPTY_DB, acts, league, p, n)
    ensures UpdatedAlong(g, RunUpdates(acts, league)) != Rerank(g, ms, now)
  {
    EmptyIsGood();
    var made := Updates(EMPTY_DB, acts, league);
    UpdatesAreMade(acts, league, ms, now);
    UpdatesMiss(EMPTY_DB, acts, league, p, n);
    forall i | 0 <= i < |made| && WeekNo(made[i].now) == n ensures !SeesPlayer(made[i], p, n) {
      NoneSeesAt(made, p, n, i);
    }
    OverMidnightIsLost(g, made, ms, now, k, p, n);
  }
}

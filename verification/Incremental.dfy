/** Ratings updated along the way, every time a session closes, against
    ratings computed anew: they are the same tables exactly when every week was
    last updated from games that rate as they do at present. */
module Incremental {
  import opened Rows
  import opened Calendar
  import opened Ranking

  /** One update: the week it was made in, and the started matches as they were
      then; the outcomes of running matches are provisional. */
  datatype Upd = Upd(week: int, ms: seq<Started>)

  function Incr<R>(g: Glicko<R>, us: seq<Upd>): Tables<R> {
    if us == [] then Empty() else
      var u := us[|us| - 1];
      UpdateWeek(g, Incr(g, us[..|us| - 1]), u.ms, u.week)
  }

  /** Later, more matches may have started; outcomes may differ. */
  ghost predicate Grows(a: seq<Started>, b: seq<Started>) {
    forall x {:trigger Keeps(b, x)} | x in a :: Keeps(b, x)
  }

  ghost predicate Keeps(b: seq<Started>, x: Started) {
    exists y | y in b :: SameStart(x, y)
  }

  predicate SameStart(x: Started, y: Started) {
    y.at == x.at && y.game.p1 == x.game.p1 && y.game.p2 == x.game.p2
  }

  /** Updates in the order of time. */
  ghost predicate Ordered(us: seq<Upd>) {
    |us| > 1 ==>
      var a, b := us[|us| - 2], us[|us| - 1];
      a.week <= b.week && Grows(a.ms, b.ms) && Ordered(us[..|us| - 1])
  }

  lemma {:induction false} WeeksInOrder(us: seq<Upd>, i: nat, j: nat)
    requires Ordered(us) && i <= j < |us|
    ensures us[i].week <= us[j].week
  {
    if j < |us| - 1 {
      WeeksInOrder(us[..|us| - 1], i, j);
    } else if i < j {
      WeeksInOrder(us[..|us| - 1], i, j - 1);
    }
  }

  /** ... that lead to the present: the matches `ms` in week `present`. */
  ghost predicate Timeline(us: seq<Upd>, ms: seq<Started>, present: int) {
    && Ordered(us)
    && (forall i | 0 <= i < |us| :: us[i].week <= present && Grows(us[i].ms, ms))
    && (forall k | 0 <= k < |ms| :: WeekNo(ms[k].at) <= present)
  }

  /** Update `i` is the last of week `n`. */
  ghost predicate LastOf(us: seq<Upd>, i: nat, n: int) {
    && i < |us| && us[i].week == n
    && forall j | i < j < |us| :: us[j].week != n
  }

  /** The ratings of week `n`, week after week from `n0`, from the matches as
      they are at present. */
  function Final<R>(g: Glicko<R>, ms: seq<Started>, n0: int, n: int): map<PlayerId, R>
    decreases n - n0
  {
    if n < n0 then map[] else Rated(g, Final(g, ms, n0, n - 1), InWeek(ms, Monday(n)))
  }

  ghost predicate RateAlike<R>(g: Glicko<R>, base: map<PlayerId, R>, x: seq<Game>, y: seq<Game>) {
    Rated(g, base, x) == Rated(g, base, y)
  }

  /** The games the last update of week `n` saw rate like those of the week at
      present, on top of the final ratings of the week before. */
  ghost predicate Covers<R>(g: Glicko<R>, us: seq<Upd>, ms: seq<Started>, n0: int, n: int) {
    exists i: nat {:trigger LastOf(us, i, n)} :: LastOf(us, i, n) &&
      RateAlike(g, Final(g, ms, n0, n - 1), InWeek(us[i].ms, Monday(n)), InWeek(ms, Monday(n)))
  }

  /** So it is with all weeks, from the first match's to the present one. */
  ghost predicate Covered<R>(g: Glicko<R>, us: seq<Upd>, ms: seq<Started>, present: int) {
    ms != [] ==> forall n | WeekNo(FirstStart(ms)) <= n <= present :: Covers(g, us, ms, WeekNo(FirstStart(ms)), n)
  }

  // ----------------------------------------------------------------- rating

  predicate PlaysIn(x: Started, monday: Instant, p: PlayerId) {
    monday <= x.at < monday + WEEK && (x.game.p1 == p || x.game.p2 == p)
  }

  lemma {:induction false} InWeekPlayers(ms: seq<Started>, monday: Instant, p: PlayerId)
    ensures p in PlayersOf(InWeek(ms, monday)) <==> exists x | x in ms :: PlaysIn(x, monday, p)
  {
    if ms != [] {
      var front, last := ms[..|ms| - 1], ms[|ms| - 1];
      InWeekPlayers(front, monday, p);
      PlayersNext(InWeek(front, monday), last.game);
      assert forall x :: x in ms <==> x in front || x == last;
      assert InWeek(ms, monday) == InWeek(front, monday) || InWeek(ms, monday) == InWeek(front, monday) + [last.game];
      assert (exists x | x in ms :: PlaysIn(x, monday, p)) <==>
             (exists x | x in front :: PlaysIn(x, monday, p)) || PlaysIn(last, monday, p);
    }
  }

  lemma {:induction false} PlayersGrow(a: seq<Started>, b: seq<Started>, monday: Instant)
    requires Grows(a, b)
    ensures PlayersOf(InWeek(a, monday)) <= PlayersOf(InWeek(b, monday))
  {
    forall p | p in PlayersOf(InWeek(a, monday)) ensures p in PlayersOf(InWeek(b, monday)) {
      InWeekPlayers(a, monday, p);
      InWeekPlayers(b, monday, p);
      var x :| x in a && PlaysIn(x, monday, p);
      assert Keeps(b, x);
      var y :| y in b && SameStart(x, y);
      assert PlaysIn(y, monday, p);
    }
  }

  lemma RatedKeys<R(!new)>(g: Glicko<R>, base: map<PlayerId, R>, games: seq<Game>)
    requires KeepsPlayers(g)
    ensures Rated(g, base, games).Keys == base.Keys + PlayersOf(games)
  {
    var players := WithNewcomers(base, g.base, PlayersOf(games));
    forall x | x in multiset(games) ensures x.p1 in players && x.p2 in players {
      assert x in games && x.p1 in PlayersOf(games) && x.p2 in PlayersOf(games);
    }
    assert KeepsPlayersOf(g, players, multiset(games));
  }

  lemma SameBag(x: seq<Game>, y: seq<Game>)
    requires multiset(x) == multiset(y)
    ensures PlayersOf(x) == PlayersOf(y)
  {
    assert forall a :: a in x <==> a in multiset(x);
    assert forall a :: a in y <==> a in multiset(y);
  }

  lemma MergeCovered<K, V>(a: map<K, V>, b: map<K, V>)
    requires a.Keys <= b.Keys
    ensures a + b == b
  {
  }

  lemma UpsertedWeek<R>(history: map<Instant, map<PlayerId, R>>, m: Instant, r: map<PlayerId, R>, v: Instant)
    ensures WeekOf(UpsertWeek(history, m, r), v) == if v == m then WeekOf(history, m) + r else WeekOf(history, v)
  {
  }

  // -------------------------------------------------- what the weeks end up as

  /** The rows of week `v` after an update of week `n`. */
  lemma {:induction false} WeekAfter<R>(g: Glicko<R>, t: Tables<R>, ms: seq<Started>, n: int, v: int)
    ensures WeekOf(UpdateWeek(g, t, ms, n).history, Monday(v)) ==
            if v == n
            then WeekOf(t.history, Monday(n)) + Rated(g, WeekOf(t.history, Monday(n - 1)), InWeek(ms, Monday(n)))
            else WeekOf(t.history, Monday(v))
  {
    assert Monday(v) == Monday(n) <==> v == n by { MondaysInOrder(v, n); }
    UpsertedWeek(t.history, Monday(n), Rated(g, WeekOf(t.history, Monday(n - 1)), InWeek(ms, Monday(n))), Monday(v));
  }

  lemma {:induction false} NotVisitedIsEmpty<R>(g: Glicko<R>, us: seq<Upd>, n: int)
    requires forall i | 0 <= i < |us| :: us[i].week != n
    ensures WeekOf(Incr(g, us).history, Monday(n)) == map[]
  {
    if us != [] {
      var front, u := us[..|us| - 1], us[|us| - 1];
      NotVisitedIsEmpty(g, front, n);
      WeekAfter(g, Incr(g, front), u.ms, u.week, n);
    }
  }

  /** Week `n` is rated from the matches `ms`, on top of the week before. */
  ghost predicate IsRated<R>(g: Glicko<R>, history: map<Instant, map<PlayerId, R>>, ms: seq<Started>, n: int) {
    WeekOf(history, Monday(n)) == Rated(g, WeekOf(history, Monday(n - 1)), InWeek(ms, Monday(n)))
  }

  lemma RatedByFirst<R>(g: Glicko<R>, t: Tables<R>, ms: seq<Started>, n: int)
    requires WeekOf(t.history, Monday(n)) == map[]
    ensures IsRated(g, UpdateWeek(g, t, ms, n).history, ms, n)
  {
    WeekAfter(g, t, ms, n, n);
    WeekAfter(g, t, ms, n, n - 1);
  }

  /** A second update of a week rates all the players of the first. */
  lemma RatedBySecond<R(!new)>(g: Glicko<R>, t: Tables<R>, ms0: seq<Started>, ms: seq<Started>, n: int)
    requires KeepsPlayers(g) && Grows(ms0, ms) && IsRated(g, t.history, ms0, n)
    ensures IsRated(g, UpdateWeek(g, t, ms, n).history, ms, n)
  {
    WeekAfter(g, t, ms, n, n);
    WeekAfter(g, t, ms, n, n - 1);
    var base, a, b := WeekOf(t.history, Monday(n - 1)), InWeek(ms0, Monday(n)), InWeek(ms, Monday(n));
    PlayersGrow(ms0, ms, Monday(n));
    RatedKeys(g, base, a);
    RatedKeys(g, base, b);
    MergeCovered(Rated(g, base, a), Rated(g, base, b));
  }

  lemma {:induction false} FirstUpdate<R>(g: Glicko<R>, us: seq<Upd>, n: int)
    requires Ordered(us) && us != [] && us[|us| - 1].week == n
    requires |us| > 1 ==> us[|us| - 2].week != n
    ensures IsRated(g, Incr(g, us).history, us[|us| - 1].ms, n)
  {
    var front := us[..|us| - 1];
    FirstOfWeek(us, n);
    NotVisitedIsEmpty(g, front, n);
    RatedByFirst(g, Incr(g, front), us[|us| - 1].ms, n);
  }

  lemma {:induction false} FirstOfWeek(us: seq<Upd>, n: int)
    requires Ordered(us) && us != [] && us[|us| - 1].week == n
    requires |us| > 1 ==> us[|us| - 2].week != n
    ensures forall j | 0 <= j < |us| - 1 :: us[j].week != n
  {
    forall j | 0 <= j < |us| - 1 ensures us[j].week != n {
      WeeksInOrder(us, j, |us| - 2);
    }
  }

  /** The week of the last update is rated from the matches it saw. */
  lemma {:induction false} LastIsRated<R(!new)>(g: Glicko<R>, us: seq<Upd>, n: int)
    requires KeepsPlayers(g) && Ordered(us) && us != [] && us[|us| - 1].week == n
    ensures IsRated(g, Incr(g, us).history, us[|us| - 1].ms, n)
    decreases |us|
  {
    var k := |us| - 1;
    if k > 0 && us[k - 1].week == n {
      LastIsRated(g, us[..k], n);
      RatedBySecond(g, Incr(g, us[..k]), us[k - 1].ms, us[k].ms, n);
    } else {
      FirstUpdate(g, us, n);
    }
  }

  lemma {:induction false} OtherWeekStays<R>(g: Glicko<R>, front: seq<Upd>, u: Upd, n: int)
    requires u.week != n
    ensures WeekOf(Incr(g, front + [u]).history, Monday(n)) == WeekOf(Incr(g, front).history, Monday(n))
  {
    assert (front + [u])[..|front + [u]| - 1] == front;
    WeekAfter(g, Incr(g, front), u.ms, u.week, n);
  }

  /** The rows of a week stay as they are through updates of others. */
  lemma {:induction false} WeekStays<R>(g: Glicko<R>, us: seq<Upd>, more: seq<Upd>, n: int)
    requires forall u | u in more :: u.week != n
    ensures WeekOf(Incr(g, us + more).history, Monday(n)) == WeekOf(Incr(g, us).history, Monday(n))
    decreases |more|
  {
    if more == [] {
      assert us + more == us;
    } else {
      var k := |more| - 1;
      assert us + more == us + more[..k] + [more[k]];
      WeekStays(g, us, more[..k], n);
      OtherWeekStays(g, us + more[..k], more[k], n);
    }
  }

  /** The rows of a week are those of its last update, on top of the final rows
      of the week before: earlier updates leave no trace. */
  lemma {:induction false} WeekIsRated<R(!new)>(g: Glicko<R>, us: seq<Upd>, i: nat, n: int)
    requires KeepsPlayers(g) && Ordered(us) && LastOf(us, i, n)
    ensures IsRated(g, Incr(g, us).history, us[i].ms, n)
  {
    var front := us[..i + 1];
    assert front[|front| - 1] == us[i];
    OrderedFront(us, i + 1);
    LastIsRated(g, front, n);
    WeekItselfStays(g, us, i, n);
    WeekBeforeStays(g, us, i, n);
    SameWeeks(g, Incr(g, front).history, Incr(g, us).history, us[i].ms, n);
  }

  lemma {:induction false} WeekItselfStays<R>(g: Glicko<R>, us: seq<Upd>, i: nat, n: int)
    requires LastOf(us, i, n)
    ensures WeekOf(Incr(g, us).history, Monday(n)) == WeekOf(Incr(g, us[..i + 1]).history, Monday(n))
  {
    assert us == us[..i + 1] + us[i + 1..];
    WeekStays(g, us[..i + 1], us[i + 1..], n);
  }

  lemma {:induction false} WeekBeforeStays<R>(g: Glicko<R>, us: seq<Upd>, i: nat, n: int)
    requires Ordered(us) && i < |us| && us[i].week == n
    ensures WeekOf(Incr(g, us).history, Monday(n - 1)) == WeekOf(Incr(g, us[..i + 1]).history, Monday(n - 1))
  {
    forall j | i < j < |us| ensures us[j].week != n - 1 {
      WeeksInOrder(us, i, j);
    }
    assert us == us[..i + 1] + us[i + 1..];
    WeekStays(g, us[..i + 1], us[i + 1..], n - 1);
  }

  lemma SameWeeks<R>(g: Glicko<R>, a: map<Instant, map<PlayerId, R>>, b: map<Instant, map<PlayerId, R>>,
                     ms: seq<Started>, n: int)
    requires IsRated(g, a, ms, n)
    requires WeekOf(b, Monday(n)) == WeekOf(a, Monday(n)) && WeekOf(b, Monday(n - 1)) == WeekOf(a, Monday(n - 1))
    ensures IsRated(g, b, ms, n)
  {
  }

  lemma {:induction false} OrderedFront(us: seq<Upd>, k: nat)
    requires Ordered(us) && k <= |us|
    ensures Ordered(us[..k])
    decreases |us|
  {
    if k == |us| {
      assert us[..k] == us;
    } else {
      if |us| > 1 {
        OrderedFront(us[..|us| - 1], k);
      }
      assert us[..|us| - 1][..k] == us[..k];
    }
  }

  // --------------------------------------------------- before the first match

  lemma {:induction false} NoGames(ms: seq<Started>, n: int)
    requires forall k | 0 <= k < |ms| :: WeekNo(ms[k].at) != n
    ensures InWeek(ms, Monday(n)) == []
  {
    if ms != [] {
      NoGames(ms[..|ms| - 1], n);
      WeekNoIs(ms[|ms| - 1].at, n);
    }
  }

  /** No game in the weeks before `n0`, in any of the updates. */
  ghost predicate NothingBefore(us: seq<Upd>, n0: int) {
    forall i, m | 0 <= i < |us| && m < n0 :: InWeek(us[i].ms, Monday(m)) == []
  }

  lemma {:induction false} FirstWeek(ms: seq<Started>, n0: int)
    requires ms != [] && n0 == WeekNo(FirstStart(ms))
    ensures forall k | 0 <= k < |ms| :: n0 <= WeekNo(ms[k].at)
  {
    forall k | 0 <= k < |ms| ensures n0 <= WeekNo(ms[k].at) {
      FirstStartIsFirst(ms, k);
      WeekNoGrows(FirstStart(ms), ms[k].at);
    }
  }

  lemma {:induction false} TimelineStarts(us: seq<Upd>, ms: seq<Started>, present: int, n0: int)
    requires Timeline(us, ms, present) && ms != [] && n0 == WeekNo(FirstStart(ms))
    ensures NothingBefore(us, n0) && n0 <= present
  {
    FirstWeek(ms, n0);
    forall i, m | 0 <= i < |us| && m < n0 ensures InWeek(us[i].ms, Monday(m)) == [] {
      assert Grows(us[i].ms, ms);
      forall k | 0 <= k < |us[i].ms| ensures WeekNo(us[i].ms[k].at) != m {
        assert us[i].ms[k] in us[i].ms;
        assert Keeps(ms, us[i].ms[k]);
        var y :| y in ms && SameStart(us[i].ms[k], y);
      }
      NoGames(us[i].ms, m);
    }
    assert n0 <= WeekNo(ms[0].at);
  }

  lemma NothingRated<R(!new)>(g: Glicko<R>)
    requires KeepsPlayers(g)
    ensures Rated(g, map[], []) == map[]
  {
    RatedKeys(g, map[], []);
  }

  lemma {:induction false} EmptyAfter<R(!new)>(g: Glicko<R>, t: Tables<R>, ms: seq<Started>, m: int, n: int)
    requires KeepsPlayers(g) && InWeek(ms, Monday(n)) == []
    requires WeekOf(t.history, Monday(n)) == map[] && WeekOf(t.history, Monday(n - 1)) == map[]
    ensures WeekOf(UpdateWeek(g, t, ms, m).history, Monday(n)) == map[]
  {
    NothingRated(g);
    WeekAfter(g, t, ms, m, n);
  }

  lemma {:induction false} EmptyBefore<R(!new)>(g: Glicko<R>, us: seq<Upd>, n0: int, n: int)
    requires KeepsPlayers(g) && NothingBefore(us, n0) && n < n0
    ensures WeekOf(Incr(g, us).history, Monday(n)) == map[]
    decreases |us|
  {
    if us != [] {
      var front, u := us[..|us| - 1], us[|us| - 1];
      var t := Incr(g, front);
      assert WeekOf(t.history, Monday(n)) == map[] && WeekOf(t.history, Monday(n - 1)) == map[] by {
        EmptyBefore(g, front, n0, n);
        EmptyBefore(g, front, n0, n - 1);
      }
      EmptyAfter(g, t, u.ms, u.week, n);
    }
  }

  // ------------------------------------------------------- the final ratings

  lemma RatedByBag<R>(g: Glicko<R>, base: map<PlayerId, R>, x: seq<Game>, y: seq<Game>)
    requires multiset(x) == multiset(y)
    ensures Rated(g, base, x) == Rated(g, base, y)
  {
    SameBag(x, y);
  }

  /** It is enough that the last update of the week saw the same games, with the
      same outcomes, in any order. */
  lemma {:induction false} SameGamesCover<R>(g: Glicko<R>, us: seq<Upd>, ms: seq<Started>, n0: int, n: int, i: nat)
    requires LastOf(us, i, n)
    requires multiset(InWeek(us[i].ms, Monday(n))) == multiset(InWeek(ms, Monday(n)))
    ensures Covers(g, us, ms, n0, n)
  {
    var base, x, y := Final(g, ms, n0, n - 1), InWeek(us[i].ms, Monday(n)), InWeek(ms, Monday(n));
    RatedByBag(g, base, x, y);
    assert LastOf(us, i, n) && RateAlike(g, base, x, y);
  }

  /** When the weeks are covered, their rows are the final ratings. */
  lemma {:induction false} WeeksAreFinal<R(!new)>(g: Glicko<R>, us: seq<Upd>, ms: seq<Started>, n0: int, n: int)
    requires KeepsPlayers(g) && Ordered(us) && NothingBefore(us, n0)
    requires forall m | n0 <= m <= n :: Covers(g, us, ms, n0, m)
    ensures WeekOf(Incr(g, us).history, Monday(n)) == Final(g, ms, n0, n)
    decreases n - n0
  {
    if n < n0 {
      EmptyBefore(g, us, n0, n);
    } else {
      WeeksAreFinal(g, us, ms, n0, n - 1);
      assert Covers(g, us, ms, n0, n);
      var i: nat :| LastOf(us, i, n) &&
        RateAlike(g, Final(g, ms, n0, n - 1), InWeek(us[i].ms, Monday(n)), InWeek(ms, Monday(n)));
      WeekIsRated(g, us, i, n);
    }
  }

  // ------------------------------------------------------- the running table

  /** From week `n0` on, no week goes without an update. */
  ghost predicate NoGap(us: seq<Upd>, n0: int) {
    forall i | 0 < i < |us| && us[i].week > n0 :: us[i].week <= us[i - 1].week + 1
  }

  ghost predicate Visited(us: seq<Upd>, n: int) {
    exists i: nat :: i < |us| && us[i].week == n
  }

  lemma VisitedHasNoGap(us: seq<Upd>, ms: seq<Started>, present: int, n0: int)
    requires Timeline(us, ms, present) && n0 <= present
    requires forall n | n0 <= n <= present :: Visited(us, n)
    ensures NoGap(us, n0)
    ensures us != [] && us[|us| - 1].week == present
  {
    forall i | 0 < i < |us| && us[i].week > n0 ensures us[i].week <= us[i - 1].week + 1 {
      assert Visited(us, us[i].week - 1);
      var j: nat :| j < |us| && us[j].week == us[i].week - 1;
      if i <= j {
        WeeksInOrder(us, i, j);
      }
      WeeksInOrder(us, j, i - 1);
    }
    assert Visited(us, present);
    var j: nat :| j < |us| && us[j].week == present;
    WeeksInOrder(us, j, |us| - 1);
  }

  /** The players of the running table, and those of week `n` so far, are all
      rated by an update of week `n` from the matches `ms`. */
  ghost predicate RatesAll<R>(t: Tables<R>, ms: seq<Started>, n: int) {
    var players := WeekOf(t.history, Monday(n - 1)).Keys + PlayersOf(InWeek(ms, Monday(n)));
    t.rating.Keys <= players && WeekOf(t.history, Monday(n)).Keys <= players
  }

  lemma RunningNext<R(!new)>(g: Glicko<R>, t: Tables<R>, ms: seq<Started>, n: int)
    requires KeepsPlayers(g) && RatesAll(t, ms, n)
    ensures UpdateWeek(g, t, ms, n).rating == WeekOf(UpdateWeek(g, t, ms, n).history, Monday(n))
  {
    var base, games := WeekOf(t.history, Monday(n - 1)), InWeek(ms, Monday(n));
    WeekAfter(g, t, ms, n, n);
    RatedKeys(g, base, games);
    MergeCovered(t.rating, Rated(g, base, games));
    MergeCovered(WeekOf(t.history, Monday(n)), Rated(g, base, games));
  }

  /** Without gaps, the next update rates everybody. */
  lemma {:induction false} NextRatesAll<R(!new)>(g: Glicko<R>, us: seq<Upd>, n0: int, t: Tables<R>)
    requires KeepsPlayers(g) && Ordered(us) && |us| > 1 && NothingBefore(us, n0) && NoGap(us, n0)
    requires t == Incr(g, us[..|us| - 1]) && t.rating == WeekOf(t.history, Monday(us[|us| - 2].week))
    ensures RatesAll(t, us[|us| - 1].ms, us[|us| - 1].week)
  {
    var k := |us| - 1;
    var p := us[k - 1].week;
    if p == us[k].week {
      SameWeekRatesAll(g, us, t);
    } else {
      FirstOfWeek(us, us[k].week);
      NotVisitedIsEmpty(g, us[..k], us[k].week);
      if p < us[k].week - 1 {
        assert NothingBefore(us[..k], n0);
        EmptyBefore(g, us[..k], n0, p);
      }
    }
  }

  lemma {:induction false} SameWeekRatesAll<R(!new)>(g: Glicko<R>, us: seq<Upd>, t: Tables<R>)
    requires KeepsPlayers(g) && Ordered(us) && |us| > 1 && us[|us| - 2].week == us[|us| - 1].week
    requires t == Incr(g, us[..|us| - 1]) && t.rating == WeekOf(t.history, Monday(us[|us| - 2].week))
    ensures RatesAll(t, us[|us| - 1].ms, us[|us| - 1].week)
  {
    var k := |us| - 1;
    LastIsRated(g, us[..k], us[k].week);
    RatedRatesAll(g, t, us[k - 1].ms, us[k].ms, us[k].week);
  }

  lemma RatedRatesAll<R(!new)>(g: Glicko<R>, t: Tables<R>, ms0: seq<Started>, ms: seq<Started>, n: int)
    requires KeepsPlayers(g) && Grows(ms0, ms) && IsRated(g, t.history, ms0, n)
    requires t.rating == WeekOf(t.history, Monday(n))
    ensures RatesAll(t, ms, n)
  {
    PlayersGrow(ms0, ms, Monday(n));
    RatedKeys(g, WeekOf(t.history, Monday(n - 1)), InWeek(ms0, Monday(n)));
  }

  /** Without gaps, the running table is the last updated week. */
  lemma {:induction false} RunningIsLast<R(!new)>(g: Glicko<R>, us: seq<Upd>, n0: int)
    requires KeepsPlayers(g) && Ordered(us) && us != [] && NothingBefore(us, n0) && NoGap(us, n0)
    ensures Incr(g, us).rating == WeekOf(Incr(g, us).history, Monday(us[|us| - 1].week))
    decreases |us|
  {
    var k := |us| - 1;
    var t := Incr(g, us[..k]);
    assert RatesAll(t, us[k].ms, us[k].week) by {
      if k > 0 {
        RunningIsLast(g, us[..k], n0);
        NextRatesAll(g, us, n0, t);
      }
    }
    RunningNext(g, t, us[k].ms, us[k].week);
  }

  // ------------------------------------------------- from weeks to the tables

  /** Only rows of updated weeks are stored. */
  lemma {:induction false} HistoryKeys<R>(g: Glicko<R>, us: seq<Upd>, w: Instant)
    requires w in Incr(g, us).history
    ensures Incr(g, us).history[w] != map[]
    ensures exists i :: 0 <= i < |us| && w == Monday(us[i].week)
  {
    var front, u := us[..|us| - 1], us[|us| - 1];
    if w in Incr(g, front).history {
      HistoryKeys(g, front, w);
      var i :| 0 <= i < |front| && w == Monday(front[i].week);
      assert w == Monday(us[i].week);
    } else {
      assert w == Monday(us[|us| - 1].week);
    }
  }

  lemma {:induction false} SameHistory<R>(g: Glicko<R>, a: seq<Upd>, b: seq<Upd>)
    requires forall n :: WeekOf(Incr(g, a).history, Monday(n)) == WeekOf(Incr(g, b).history, Monday(n))
    ensures Incr(g, a).history == Incr(g, b).history
  {
    var h, k := Incr(g, a).history, Incr(g, b).history;
    forall w ensures w in h <==> w in k {
      HistoryHas(g, a, b, w);
      HistoryHas(g, b, a, w);
    }
    forall w | w in h ensures h[w] == k[w] {
      HistoryHas(g, a, b, w);
    }
  }

  lemma {:induction false} HistoryHas<R>(g: Glicko<R>, a: seq<Upd>, b: seq<Upd>, w: Instant)
    requires forall n :: WeekOf(Incr(g, a).history, Monday(n)) == WeekOf(Incr(g, b).history, Monday(n))
    ensures w in Incr(g, a).history ==> w in Incr(g, b).history && Incr(g, a).history[w] == Incr(g, b).history[w]
  {
    if w in Incr(g, a).history {
      HistoryKeys(g, a, w);
      var i :| 0 <= i < |a| && w == Monday(a[i].week);
      assert WeekOf(Incr(g, a).history, Monday(a[i].week)) == WeekOf(Incr(g, b).history, Monday(a[i].week));
    }
  }

  // ------------------------------------------------------------- the rerank

  /** A rerank is one update per week, all seeing the matches as they are. */
  function WeekByWeek(ms: seq<Started>, n0: int, n1: int): seq<Upd> {
    seq(if n0 <= n1 then n1 - n0 + 1 else 0, i requires 0 <= i => Upd(n0 + i, ms))
  }

  lemma {:induction false} IncrMore<R>(g: Glicko<R>, us: seq<Upd>, u: Upd)
    ensures Incr(g, us + [u]) == UpdateWeek(g, Incr(g, us), u.ms, u.week)
  {
    assert (us + [u])[..|us + [u]| - 1] == us;
  }

  lemma WeekByWeekNext(us: seq<Upd>, ms: seq<Started>, n: int, n1: int)
    ensures n > n1 ==> us + WeekByWeek(ms, n, n1) == us
    ensures n <= n1 ==> us + WeekByWeek(ms, n, n1) == (us + [Upd(n, ms)]) + WeekByWeek(ms, n + 1, n1)
  {
    if n <= n1 {
      assert WeekByWeek(ms, n, n1) == [Upd(n, ms)] + WeekByWeek(ms, n + 1, n1);
    }
  }

  lemma {:induction false} ReplayIsIncr<R>(g: Glicko<R>, us: seq<Upd>, ms: seq<Started>, n: int, n1: int)
    ensures Replay(g, Incr(g, us), ms, n, n1) == Incr(g, us + WeekByWeek(ms, n, n1))
    decreases n1 - n
  {
    WeekByWeekNext(us, ms, n, n1);
    if n <= n1 {
      var more := us + [Upd(n, ms)];
      assert Replay(g, Incr(g, us), ms, n, n1) == Replay(g, Incr(g, more), ms, n + 1, n1) by {
        IncrMore(g, us, Upd(n, ms));
        ReplayOne(g, Incr(g, us), ms, n, n1);
      }
      ReplayIsIncr(g, more, ms, n + 1, n1);
    }
  }

  lemma {:induction false} RerankIsIncr<R>(g: Glicko<R>, ms: seq<Started>, present: int, n0: int)
    requires ms != [] && n0 == WeekNo(FirstStart(ms))
    ensures RerankTo(g, ms, present) == Incr(g, WeekByWeek(ms, n0, present))
  {
    var weeks := WeekByWeek(ms, n0, present);
    assert [] + weeks == weeks;
    ReplayIsIncr(g, [], ms, n0, present);
    assert Incr(g, []) == Empty();
  }

  lemma WeekByWeekCovers<R>(g: Glicko<R>, ms: seq<Started>, n0: int, n1: int, n: int)
    requires n0 <= n <= n1
    ensures Covers(g, WeekByWeek(ms, n0, n1), ms, n0, n)
  {
    assert LastOf(WeekByWeek(ms, n0, n1), n - n0, n);
  }

  lemma WeekByWeekTimeline(ms: seq<Started>, n0: int, n1: int)
    requires forall k | 0 <= k < |ms| :: WeekNo(ms[k].at) <= n1
    ensures Timeline(WeekByWeek(ms, n0, n1), ms, n1)
  {
    WeekByWeekOrdered(ms, n0, n1);
  }

  lemma {:induction false} WeekByWeekOrdered(ms: seq<Started>, n0: int, n1: int)
    ensures Ordered(WeekByWeek(ms, n0, n1))
    decreases n1 - n0
  {
    if n0 < n1 {
      WeekByWeekOrdered(ms, n0, n1 - 1);
      assert WeekByWeek(ms, n0, n1)[..n1 - n0] == WeekByWeek(ms, n0, n1 - 1);
    }
  }

  /** A covered timeline ends with the final ratings in both tables. */
  lemma {:induction false} CoveredIsFinal<R(!new)>(g: Glicko<R>, us: seq<Upd>, ms: seq<Started>, present: int, n0: int)
    requires KeepsPlayers(g) && Timeline(us, ms, present) && NothingBefore(us, n0) && n0 <= present
    requires forall n | n0 <= n <= present :: Covers(g, us, ms, n0, n)
    ensures Incr(g, us).rating == Final(g, ms, n0, present)
    ensures forall n :: WeekOf(Incr(g, us).history, Monday(n)) == if n <= present then Final(g, ms, n0, n) else map[]
  {
    forall n | n0 <= n <= present ensures Visited(us, n) {
      assert Covers(g, us, ms, n0, n);
    }
    VisitedHasNoGap(us, ms, present, n0);
    RunningIsLast(g, us, n0);
    forall n ensures WeekOf(Incr(g, us).history, Monday(n)) == if n <= present then Final(g, ms, n0, n) else map[] {
      if n <= present {
        WeeksAreFinal(g, us, ms, n0, n);
      } else {
        NotVisitedIsEmpty(g, us, n);
      }
    }
  }

  lemma NothingKept(a: seq<Started>)
    ensures Grows(a, []) ==> a == []
  {
    if a != [] {
      assert a[0] in a && !Keeps([], a[0]);
    }
  }

  lemma {:induction false} NothingStarted<R(!new)>(g: Glicko<R>, us: seq<Upd>)
    requires KeepsPlayers(g) && forall i | 0 <= i < |us| :: us[i].ms == []
    ensures Incr(g, us) == Empty()
  {
    if us != [] {
      NothingStarted(g, us[..|us| - 1]);
      NothingRated(g);
    }
  }

  /** Covered: the tables updated along the way are those of a rerank. */
  lemma {:induction false} CoveredIsRerank<R(!new)>(g: Glicko<R>, us: seq<Upd>, ms: seq<Started>, present: int)
    requires KeepsPlayers(g) && Timeline(us, ms, present) && Covered(g, us, ms, present)
    ensures Incr(g, us) == RerankTo(g, ms, present)
  {
    if ms == [] {
      forall i | 0 <= i < |us| ensures us[i].ms == [] {
        NothingKept(us[i].ms);
      }
      NothingStarted(g, us);
    } else {
      var n0 := WeekNo(FirstStart(ms));
      TimelineStarts(us, ms, present, n0);
      CoveredIsFinal(g, us, ms, present, n0);
      RerankIsFinal(g, ms, present, n0);
      RerankIsIncr(g, ms, present, n0);
      SameHistory(g, us, WeekByWeek(ms, n0, present));
    }
  }

  // ------------------------------------------------------------ the converse

  lemma {:induction false} LastExists(us: seq<Upd>, i: nat, n: int) returns (j: nat)
    requires i < |us| && us[i].week == n
    ensures LastOf(us, j, n) && i <= j
    decreases |us| - i
  {
    if k :| i < k < |us| && us[k].week == n {
      j := LastExists(us, k, n);
    } else {
      j := i;
    }
  }

  /** From the first match's week on there are players to rate. */
  lemma {:induction false} FinalHasPlayers<R(!new)>(g: Glicko<R>, ms: seq<Started>, n0: int, n: int, p: PlayerId)
    requires KeepsPlayers(g) && n0 <= n && p in PlayersOf(InWeek(ms, Monday(n0)))
    ensures p in Final(g, ms, n0, n)
    decreases n - n0
  {
    RatedKeys(g, Final(g, ms, n0, n - 1), InWeek(ms, Monday(n)));
    if n > n0 {
      FinalHasPlayers(g, ms, n0, n - 1, p);
    }
  }

  lemma {:induction false} FirstStartIsAStart(ms: seq<Started>) returns (k: nat)
    requires ms != []
    ensures k < |ms| && ms[k].at == FirstStart(ms)
  {
    if |ms| > 1 && FirstStart(ms[..|ms| - 1]) <= ms[|ms| - 1].at {
      k := FirstStartIsAStart(ms[..|ms| - 1]);
    } else {
      k := |ms| - 1;
    }
  }

  /** What a rerank makes of the weeks. */
  lemma {:induction false} RerankIsFinal<R(!new)>(g: Glicko<R>, ms: seq<Started>, present: int, n0: int)
    requires KeepsPlayers(g) && ms != [] && n0 == WeekNo(FirstStart(ms))
    requires forall k | 0 <= k < |ms| :: WeekNo(ms[k].at) <= present
    ensures n0 <= present
    ensures RerankTo(g, ms, present).rating == Final(g, ms, n0, present)
    ensures forall n :: WeekOf(RerankTo(g, ms, present).history, Monday(n)) ==
              if n <= present then Final(g, ms, n0, n) else map[]
  {
    var weeks := WeekByWeek(ms, n0, present);
    WeekByWeekTimeline(ms, n0, present);
    TimelineStarts(weeks, ms, present, n0);
    forall n | n0 <= n <= present ensures Covers(g, weeks, ms, n0, n) {
      WeekByWeekCovers(g, ms, n0, present, n);
    }
    CoveredIsFinal(g, weeks, ms, present, n0);
    RerankIsIncr(g, ms, present, n0);
  }

  /** Some player is rated from the first match's week on. */
  lemma {:induction false} FinalIsNotEmpty<R(!new)>(g: Glicko<R>, ms: seq<Started>, n0: int, n: int)
    requires KeepsPlayers(g) && ms != [] && n0 == WeekNo(FirstStart(ms)) && n0 <= n
    ensures Final(g, ms, n0, n) != map[]
  {
    var k := FirstStartIsAStart(ms);
    WeekNoIs(ms[k].at, n0);
    InWeekPlayers(ms, Monday(n0), ms[k].game.p1);
    assert PlaysIn(ms[k], Monday(n0), ms[k].game.p1);
    FinalHasPlayers(g, ms, n0, n, ms[k].game.p1);
  }

  /** Equal tables: then every week was covered. */
  lemma {:induction false} RerankIsCovered<R(!new)>(g: Glicko<R>, us: seq<Upd>, ms: seq<Started>, present: int)
    requires KeepsPlayers(g) && Timeline(us, ms, present)
    requires Incr(g, us) == RerankTo(g, ms, present)
    ensures Covered(g, us, ms, present)
  {
    if ms != [] {
      var n0 := WeekNo(FirstStart(ms));
      RerankIsFinal(g, ms, present, n0);
      forall n | n0 <= n <= present ensures Covers(g, us, ms, n0, n) {
        FinalIsNotEmpty(g, ms, n0, n);
        WeekIsCovered(g, us, ms, n0, n);
      }
    }
  }

  lemma WeekIsCovered<R(!new)>(g: Glicko<R>, us: seq<Upd>, ms: seq<Started>, n0: int, n: int)
    requires KeepsPlayers(g) && Ordered(us) && n0 <= n
    requires WeekOf(Incr(g, us).history, Monday(n)) == Final(g, ms, n0, n) != map[]
    requires WeekOf(Incr(g, us).history, Monday(n - 1)) == Final(g, ms, n0, n - 1)
    ensures Covers(g, us, ms, n0, n)
  {
    assert exists i :: 0 <= i < |us| && us[i].week == n by {
      if forall i | 0 <= i < |us| :: us[i].week != n {
        NotVisitedIsEmpty(g, us, n);
      }
    }
    var i :| 0 <= i < |us| && us[i].week == n;
    var j := LastExists(us, i, n);
    WeekIsRated(g, us, j, n);
  }

  // ------------------------------------------------------------ main results

  /** An update as it is made: at some time, from the matches as they are. */
  datatype Made = Made(now: Instant, ms: seq<Started>)

  function UpdatedAlong<R>(g: Glicko<R>, made: seq<Made>): Tables<R> {
    if made == [] then Empty() else
      var u := made[|made| - 1];
      Update(g, UpdatedAlong(g, made[..|made| - 1]), u.ms, u.now)
  }

  function Weeks(made: seq<Made>): seq<Upd> {
    seq(|made|, i requires 0 <= i < |made| => Upd(WeekNo(made[i].now), made[i].ms))
  }

  /** Updates in the order of time, up to the present. */
  ghost predicate MadeUntil(made: seq<Made>, ms: seq<Started>, now: Instant) {
    && (forall i, j | 0 <= i < j < |made| :: made[i].now <= made[j].now && Grows(made[i].ms, made[j].ms))
    && (forall i | 0 <= i < |made| :: made[i].now <= now && Grows(made[i].ms, ms))
    && (forall k | 0 <= k < |ms| :: ms[k].at <= now)
  }

  lemma {:induction false} AlongIsIncr<R>(g: Glicko<R>, made: seq<Made>)
    ensures UpdatedAlong(g, made) == Incr(g, Weeks(made))
  {
    if made != [] {
      AlongIsIncr(g, made[..|made| - 1]);
      assert Weeks(made)[..|made| - 1] == Weeks(made[..|made| - 1]);
    }
  }

  lemma {:induction false} WeeksOrdered(made: seq<Made>)
    requires forall i, j | 0 <= i < j < |made| :: made[i].now <= made[j].now && Grows(made[i].ms, made[j].ms)
    ensures Ordered(Weeks(made))
  {
    if |made| > 1 {
      var k := |made| - 1;
      WeekNoGrows(made[k - 1].now, made[k].now);
      WeeksOrdered(made[..k]);
      assert Weeks(made)[..k] == Weeks(made[..k]);
    }
  }

  lemma WeeksTimeline(made: seq<Made>, ms: seq<Started>, now: Instant)
    requires MadeUntil(made, ms, now)
    ensures Timeline(Weeks(made), ms, WeekNo(now))
  {
    var us := Weeks(made);
    WeeksOrdered(made);
    forall i | 0 <= i < |us| ensures us[i].week <= WeekNo(now) {
      WeekNoGrows(made[i].now, now);
    }
    forall k | 0 <= k < |ms| ensures WeekNo(ms[k].at) <= WeekNo(now) {
      WeekNoGrows(ms[k].at, now);
    }
  }

  /** Ratings updated along the way equal a rerank, in both tables, exactly when
      the last update of each week since the first match saw games that rate as
      those of the week do at present. */
  lemma {:induction false} AlongIsRerankIff<R(!new)>(g: Glicko<R>, made: seq<Made>, ms: seq<Started>, now: Instant)
    requires KeepsPlayers(g) && MadeUntil(made, ms, now)
    ensures UpdatedAlong(g, made) == Rerank(g, ms, now) <==> Covered(g, Weeks(made), ms, WeekNo(now))
  {
    AlongIsIncr(g, made);
    WeeksTimeline(made, ms, now);
    if Covered(g, Weeks(made), ms, WeekNo(now)) {
      CoveredIsRerank(g, Weeks(made), ms, WeekNo(now));
    }
    if UpdatedAlong(g, made) == Rerank(g, ms, now) {
      RerankIsCovered(g, Weeks(made), ms, WeekNo(now));
    }
  }

  /** A week from the first match's on without an update: then the tables are
      not those of a rerank. */
  lemma {:induction false} SkippedWeekIsLost<R(!new)>(g: Glicko<R>, made: seq<Made>, ms: seq<Started>, now: Instant,
                                                      n: int)
    requires KeepsPlayers(g) && MadeUntil(made, ms, now) && ms != []
    requires WeekNo(FirstStart(ms)) <= n <= WeekNo(now)
    requires forall i | 0 <= i < |made| :: WeekNo(made[i].now) != n
    ensures UpdatedAlong(g, made) != Rerank(g, ms, now)
  {
    assert !Covers(g, Weeks(made), ms, WeekNo(FirstStart(ms)), n);
    AlongIsRerankIff(g, made, ms, now);
  }

  // ------------------------------------------------- a race over midnight

  predicate Plays(x: Started, p: PlayerId) {
    x.game.p1 == p || x.game.p2 == p
  }

  /** The player has no race before week `n`. */
  ghost predicate NoRaceBefore(ms: seq<Started>, p: PlayerId, n: int) {
    forall x | x in ms && Plays(x, p) :: n <= WeekNo(x.at)
  }

  /** The update saw the player race in week `n`. */
  predicate SeesPlayer(u: Made, p: PlayerId, n: int) {
    p in PlayersOf(InWeek(u.ms, Monday(n)))
  }

  lemma {:induction false} NoRaceIn(ms: seq<Started>, p: PlayerId, n: int)
    requires NoRaceBefore(ms, p, n + 1)
    ensures p !in PlayersOf(InWeek(ms, Monday(n)))
  {
    InWeekPlayers(ms, Monday(n), p);
    forall x | x in ms ensures !PlaysIn(x, Monday(n), p) {
      if Plays(x, p) {
        WeekNoIs(x.at, n);
      }
    }
  }

  /** Nobody is rated before their first race. */
  lemma {:induction false} NotRatedYet<R(!new)>(g: Glicko<R>, ms: seq<Started>, n0: int, n: int, p: PlayerId)
    requires KeepsPlayers(g) && NoRaceBefore(ms, p, n + 1)
    ensures p !in Final(g, ms, n0, n)
    decreases n - n0
  {
    if n >= n0 {
      NotRatedYet(g, ms, n0, n - 1, p);
      NoRaceIn(ms, p, n);
      RatedKeys(g, Final(g, ms, n0, n - 1), InWeek(ms, Monday(n)));
    }
  }

  /** Games without a newcomer do not rate like games with them. */
  lemma NewcomerIsMissing<R(!new)>(g: Glicko<R>, base: map<PlayerId, R>, x: seq<Game>, y: seq<Game>, p: PlayerId)
    requires KeepsPlayers(g) && p !in base && p !in PlayersOf(x) && p in PlayersOf(y)
    ensures !RateAlike(g, base, x, y)
  {
    RatedKeys(g, base, x);
    RatedKeys(g, base, y);
  }

  lemma {:induction false} UnseenIsUncovered<R(!new)>(g: Glicko<R>, made: seq<Made>, ms: seq<Started>, n0: int,
                                                      n: int, p: PlayerId)
    requires KeepsPlayers(g) && NoRaceBefore(ms, p, n) && p in PlayersOf(InWeek(ms, Monday(n)))
    requires forall i | 0 <= i < |made| && WeekNo(made[i].now) == n :: !SeesPlayer(made[i], p, n)
    ensures !Covers(g, Weeks(made), ms, n0, n)
  {
    var us, base := Weeks(made), Final(g, ms, n0, n - 1);
    assert NoRaceBefore(ms, p, (n - 1) + 1);
    NotRatedYet(g, ms, n0, n - 1, p);
    forall i: nat | LastOf(us, i, n) ensures !RateAlike(g, base, InWeek(us[i].ms, Monday(n)), InWeek(ms, Monday(n))) {
      assert !SeesPlayer(made[i], p, n);
      NewcomerIsMissing(g, base, InWeek(us[i].ms, Monday(n)), InWeek(ms, Monday(n)), p);
    }
  }

  /** A race in week `n` starts between the first match and the present. */
  lemma {:induction false} RaceIsBetween(ms: seq<Started>, now: Instant, k: nat)
    requires k < |ms| && ms[k].at <= now
    ensures WeekNo(FirstStart(ms)) <= WeekNo(ms[k].at) <= WeekNo(now)
  {
    FirstStartIsFirst(ms, k);
    WeekNoGrows(FirstStart(ms), ms[k].at);
    WeekNoGrows(ms[k].at, now);
  }

  lemma {:induction false} UncoveredIsLost<R(!new)>(g: Glicko<R>, made: seq<Made>, ms: seq<Started>, now: Instant,
                                                    n: int)
    requires KeepsPlayers(g) && MadeUntil(made, ms, now) && ms != []
    requires WeekNo(FirstStart(ms)) <= n <= WeekNo(now) && !Covers(g, Weeks(made), ms, WeekNo(FirstStart(ms)), n)
    ensures UpdatedAlong(g, made) != Rerank(g, ms, now)
  {
    AlongIsRerankIff(g, made, ms, now);
  }

  lemma {:induction false} RacerIsSeen(ms: seq<Started>, k: nat, p: PlayerId, n: int)
    requires k < |ms| && Plays(ms[k], p) && WeekNo(ms[k].at) == n
    ensures p in PlayersOf(InWeek(ms, Monday(n)))
  {
    WeekNoIs(ms[k].at, n);
    InWeekPlayers(ms, Monday(n), p);
    assert PlaysIn(ms[k], Monday(n), p);
  }

  /** Updates are made for the week they are made in, from the matches started
      by then. When none of the updates of the week of a player's first race saw
      them, however many there are, the tables are not those of a rerank. So it
      is with a race that starts before Monday 00:00 UTC when no session closes
      from its start to that midnight. */
  lemma {:induction false} OverMidnightIsLost<R(!new)>(g: Glicko<R>, made: seq<Made>, ms: seq<Started>, now: Instant,
                                                       k: nat, p: PlayerId, n: int)
    requires KeepsPlayers(g) && MadeUntil(made, ms, now)
    requires k < |ms| && Plays(ms[k], p) && WeekNo(ms[k].at) == n && NoRaceBefore(ms, p, n)
    requires forall i | 0 <= i < |made| && WeekNo(made[i].now) == n :: !SeesPlayer(made[i], p, n)
    ensures UpdatedAlong(g, made) != Rerank(g, ms, now)
  {
    RaceIsBetween(ms, now, k);
    RacerIsSeen(ms, k, p, n);
    UnseenIsUncovered(g, made, ms, WeekNo(FirstStart(ms)), n, p);
    UncoveredIsLost(g, made, ms, now, n);
  }

  // -------------------------------------------------- a week without updates

  lemma {:induction false} AfterAGap<R(!new)>(g: Glicko<R>, us: seq<Upd>, n: int)
    requires KeepsPlayers(g) && Ordered(us) && us != [] && us[|us| - 1].week == n
    requires forall i | 0 <= i < |us| :: us[i].week != n - 1
    ensures WeekOf(Incr(g, us).history, Monday(n)) == Rated(g, map[], InWeek(us[|us| - 1].ms, Monday(n)))
  {
    LastIsRated(g, us, n);
    NotVisitedIsEmpty(g, us, n - 1);
  }

  lemma {:induction false} GapForgets<R(!new)>(g: Glicko<R>, made: seq<Made>, n: int)
    requires KeepsPlayers(g) && Ordered(Weeks(made)) && made != [] && n == WeekNo(made[|made| - 1].now)
    requires forall i | 0 <= i < |made| :: WeekNo(made[i].now) != n - 1
    ensures WeekOf(UpdatedAlong(g, made).history, Monday(n)) == Rated(g, map[], InWeek(made[|made| - 1].ms, Monday(n)))
  {
    AlongIsIncr(g, made);
    AfterAGap(g, Weeks(made), n);
  }

  /** A week without an update is forgotten: the updates of the next one rate its
      games as if nobody had ever played, and the tables are not those of a
      rerank, now or after any more updates. */
  lemma {:induction false} SkippedWeekForgets<R(!new)>(g: Glicko<R>, made: seq<Made>, more: seq<Made>,
                                                       ms: seq<Started>, now: Instant)
    requires KeepsPlayers(g) && MadeUntil(made + more, ms, now) && made != [] && ms != []
    requires var n := WeekNo(made[|made| - 1].now);
      WeekNo(FirstStart(ms)) < n && forall i | 0 <= i < |made| :: WeekNo(made[i].now) != n - 1
    ensures var n := WeekNo(made[|made| - 1].now);
      WeekOf(UpdatedAlong(g, made).history, Monday(n)) == Rated(g, map[], InWeek(made[|made| - 1].ms, Monday(n)))
    ensures UpdatedAlong(g, made + more) != Rerank(g, ms, now)
  {
    var last, n := |made| - 1, WeekNo(made[|made| - 1].now);
    var all := made + more;
    assert forall i | 0 <= i < |made| :: all[i] == made[i];
    MadeBefore(made, more, ms, now);
    assert Ordered(Weeks(made)) by { WeeksTimeline(made, ms, now); }
    GapForgets(g, made, n);
    WeekNoGrows(made[last].now, now);
    forall i | 0 <= i < |all| ensures WeekNo(all[i].now) != n - 1 {
      if i >= |made| {
        assert all[last].now <= all[i].now;
        WeekNoGrows(all[last].now, all[i].now);
      }
    }
    SkippedWeekIsLost(g, all, ms, now, n - 1);
  }

  lemma MadeBefore(made: seq<Made>, more: seq<Made>, ms: seq<Started>, now: Instant)
    requires MadeUntil(made + more, ms, now)
    ensures MadeUntil(made, ms, now)
  {
    var all := made + more;
    assert forall i | 0 <= i < |made| :: all[i] == made[i];
  }

  /** Repeating an update in the same week, with the same matches, changes
      nothing. */
  lemma UpdateTwice<R>(g: Glicko<R>, t: Tables<R>, ms: seq<Started>, now: Instant, later: Instant)
    requires WeekNo(later) == WeekNo(now)
    ensures Update(g, Update(g, t, ms, now), ms, later) == Update(g, t, ms, now)
  {
    var n := WeekNo(now);
    WeekAfter(g, t, ms, n, n);
    WeekAfter(g, t, ms, n, n - 1);
    var r := Rated(g, WeekOf(t.history, Monday(n - 1)), InWeek(ms, Monday(n)));
    assert (t.rating + r) + r == t.rating + r;
    assert (WeekOf(t.history, Monday(n)) + r) + r == WeekOf(t.history, Monday(n)) + r;
  }
}

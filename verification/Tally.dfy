/** Rating systems that only add up: each game is worth something to each of its
    players. Their ratings can be counted by hand, and show which games the
    tables are made of. */
module Tally {
  import opened Rows
  import opened Calendar
  import opened Ranking
  import opened Incremental

  /** What a game is worth to a player: nothing to those who do not play it. */
  type Worth = w: (PlayerId, Game) -> int |
    forall p: PlayerId, x: Game :: x.p1 != p && x.p2 != p ==> w(p, x) == 0
    witness (p, x) => 0

  // ------------------------------------------------------- adding up a bag

  ghost function SumOf(w: Worth, p: PlayerId, games: multiset<Game>): int
    decreases |games|
  {
    if games == multiset{} then 0
    else
      var x :| x in games;
      w(p, x) + SumOf(w, p, games - multiset{x})
  }

  lemma SumStep(w: Worth, p: PlayerId, games: multiset<Game>) returns (y: Game)
    requires games != multiset{}
    ensures y in games && SumOf(w, p, games) == w(p, y) + SumOf(w, p, games - multiset{y})
  {
    y :| y in games && SumOf(w, p, games) == w(p, y) + SumOf(w, p, games - multiset{y});
  }

  lemma TwoLess<T>(bag: multiset<T>, x: T, y: T)
    requires x in bag && y in bag && x != y
    ensures y in bag - multiset{x} && x in bag - multiset{y}
    ensures bag - multiset{y} - multiset{x} == bag - multiset{x} - multiset{y}
  {
  }

  lemma {:induction false} SumWithout(w: Worth, p: PlayerId, games: multiset<Game>, x: Game)
    requires x in games
    ensures SumOf(w, p, games) == w(p, x) + SumOf(w, p, games - multiset{x})
    decreases |games|
  {
    var y := SumStep(w, p, games);
    if y != x {
      TwoLess(games, x, y);
      SumWithout(w, p, games - multiset{y}, x);
      SumWithout(w, p, games - multiset{x}, y);
    }
  }

  lemma {:induction false} SumWith(w: Worth, p: PlayerId, games: multiset<Game>, x: Game)
    ensures SumOf(w, p, games + multiset{x}) == SumOf(w, p, games) + w(p, x)
  {
    SumWithout(w, p, games + multiset{x}, x);
    assert games + multiset{x} - multiset{x} == games;
  }

  /** The system: nobody has anything at first, and games add what they are
      worth. */
  ghost function TallyOf(w: Worth): Glicko<int> {
    Glicko(0, (base: map<PlayerId, int>, games: multiset<Game>) => map p | p in base :: base[p] + SumOf(w, p, games))
  }

  lemma TallyKeepsPlayers(w: Worth)
    ensures KeepsPlayers(TallyOf(w))
  {
    forall base: map<PlayerId, int>, games: multiset<Game>
      ensures KeepsPlayersOf(TallyOf(w), base, games)
    {
    }
  }

  // ----------------------------------------------------- counting over a list

  /** What the matches up to week `n` are worth to a player. */
  ghost function TotalTo(w: Worth, ms: seq<Started>, p: PlayerId, n: int): int {
    if ms == [] then 0
    else
      var last := ms[|ms| - 1];
      TotalTo(w, ms[..|ms| - 1], p, n) + if WeekNo(last.at) <= n then w(p, last.game) else 0
  }

  /** What all matches are worth to a player. */
  ghost function Total(w: Worth, ms: seq<Started>, p: PlayerId): int {
    if ms == [] then 0 else Total(w, ms[..|ms| - 1], p) + w(p, ms[|ms| - 1].game)
  }

  /** What the matches of the week that starts at `monday` are worth to a player. */
  ghost function TotalOfWeek(w: Worth, ms: seq<Started>, p: PlayerId, monday: Instant): int {
    if ms == [] then 0
    else
      var last := ms[|ms| - 1];
      TotalOfWeek(w, ms[..|ms| - 1], p, monday)
      + if monday <= last.at < monday + WEEK then w(p, last.game) else 0
  }

  lemma BagNext(games: seq<Game>, x: Game)
    ensures multiset(games + [x]) == multiset(games) + multiset{x}
  {
  }

  lemma {:induction false} TotalOfWeekIs(w: Worth, ms: seq<Started>, p: PlayerId, monday: Instant)
    ensures TotalOfWeek(w, ms, p, monday) == SumOf(w, p, multiset(InWeek(ms, monday)))
  {
    if ms != [] {
      var front, last := ms[..|ms| - 1], ms[|ms| - 1];
      TotalOfWeekIs(w, front, p, monday);
      if monday <= last.at < monday + WEEK {
        BagNext(InWeek(front, monday), last.game);
        SumWith(w, p, multiset(InWeek(front, monday)), last.game);
      } else {
        assert InWeek(ms, monday) == InWeek(front, monday);
      }
    }
  }

  lemma {:induction false} WeekAdds(w: Worth, ms: seq<Started>, p: PlayerId, n: int)
    ensures TotalTo(w, ms, p, n) == TotalTo(w, ms, p, n - 1) + TotalOfWeek(w, ms, p, Monday(n))
  {
    if ms != [] {
      WeekAdds(w, ms[..|ms| - 1], p, n);
      WeekNoIs(ms[|ms| - 1].at, n);
    }
  }

  lemma {:induction false} NothingYet(w: Worth, ms: seq<Started>, p: PlayerId, n: int)
    requires forall x | x in ms && Plays(x, p) :: n < WeekNo(x.at)
    ensures TotalTo(w, ms, p, n) == 0
  {
    if ms != [] {
      var last := ms[|ms| - 1];
      NothingYet(w, ms[..|ms| - 1], p, n);
      assert last in ms;
      assert !Plays(last, p) ==> w(p, last.game) == 0;
    }
  }

  lemma {:induction false} AllByNow(w: Worth, ms: seq<Started>, p: PlayerId, n: int)
    requires forall x | x in ms :: WeekNo(x.at) <= n
    ensures TotalTo(w, ms, p, n) == Total(w, ms, p)
  {
    if ms != [] {
      AllByNow(w, ms[..|ms| - 1], p, n);
      assert ms[|ms| - 1] in ms;
    }
  }

  // --------------------------------------------------------- rating one week

  /** Rating a period rates those who were rated and those who play, each with
      what they had and what the games are worth to them. */
  lemma {:induction false} PeriodAdds(w: Worth, base: map<PlayerId, int>, games: seq<Game>, p: PlayerId)
    ensures var r := Rated(TallyOf(w), base, games);
      && (p in r <==> p in base || p in PlayersOf(games))
      && (p in r ==> r[p] == (if p in base then base[p] else 0) + SumOf(w, p, multiset(games)))
  {
  }

  // ------------------------------------------------------------------ reranks

  lemma RatedStill<R(!new)>(g: Glicko<R>, ms: seq<Started>, n0: int, n: int, p: PlayerId)
    requires KeepsPlayers(g) && n0 <= n && p in Final(g, ms, n0, n - 1)
    ensures p in Final(g, ms, n0, n)
  {
    RatedKeys(g, Final(g, ms, n0, n - 1), InWeek(ms, Monday(n)));
  }

  lemma {:induction false} RatedNow<R(!new)>(g: Glicko<R>, ms: seq<Started>, n0: int, n: int, p: PlayerId)
    requires KeepsPlayers(g) && n0 <= n && p in PlayersOf(InWeek(ms, Monday(n)))
    ensures p in Final(g, ms, n0, n)
  {
    RatedKeys(g, Final(g, ms, n0, n - 1), InWeek(ms, Monday(n)));
  }

  lemma {:induction false} StillRatedOn<R(!new)>(g: Glicko<R>, ms: seq<Started>, n0: int, m: int, n: int, p: PlayerId)
    requires KeepsPlayers(g) && n0 <= m <= n && p in Final(g, ms, n0, m)
    ensures p in Final(g, ms, n0, n)
    decreases n - m
  {
    if m < n {
      StillRatedOn(g, ms, n0, m, n - 1, p);
      RatedStill(g, ms, n0, n, p);
    }
  }

  /** Who plays in a week is rated from then on. */
  lemma {:induction false} FinalHasRacers<R(!new)>(g: Glicko<R>, ms: seq<Started>, n0: int, m: int, n: int,
                                                   p: PlayerId)
    requires KeepsPlayers(g) && n0 <= m <= n && p in PlayersOf(InWeek(ms, Monday(m)))
    ensures p in Final(g, ms, n0, n)
  {
    RatedNow(g, ms, n0, m, p);
    StillRatedOn(g, ms, n0, m, n, p);
  }

  /** Some race of the player is in a week up to `n`. */
  ghost predicate RacedBy(ms: seq<Started>, p: PlayerId, n: int) {
    exists x | x in ms :: Plays(x, p) && WeekNo(x.at) <= n
  }

  lemma {:induction false} RatedIffRaced<R(!new)>(g: Glicko<R>, ms: seq<Started>, n0: int, n: int, p: PlayerId)
    requires KeepsPlayers(g) && forall x | x in ms :: n0 <= WeekNo(x.at)
    ensures p in Final(g, ms, n0, n) <==> RacedBy(ms, p, n)
  {
    if RacedBy(ms, p, n) {
      var x :| x in ms && Plays(x, p) && WeekNo(x.at) <= n;
      var k :| 0 <= k < |ms| && ms[k] == x;
      RacerIsSeen(ms, k, p, WeekNo(x.at));
      FinalHasRacers(g, ms, n0, WeekNo(x.at), n, p);
    } else {
      NotRatedYet(g, ms, n0, n, p);
    }
  }

  lemma {:induction false} FinalTallies(w: Worth, ms: seq<Started>, n0: int, n: int, p: PlayerId)
    requires forall x | x in ms :: n0 <= WeekNo(x.at)
    ensures p in Final(TallyOf(w), ms, n0, n) ==> Final(TallyOf(w), ms, n0, n)[p] == TotalTo(w, ms, p, n)
    decreases n - n0
  {
    if n >= n0 {
      var g := TallyOf(w);
      TallyKeepsPlayers(w);
      FinalTallies(w, ms, n0, n - 1, p);
      RatedIffRaced(g, ms, n0, n - 1, p);
      if !RacedBy(ms, p, n - 1) {
        NothingYet(w, ms, p, n - 1);
      }
      WeekAdds(w, ms, p, n);
      TotalOfWeekIs(w, ms, p, Monday(n));
      PeriodAdds(w, Final(g, ms, n0, n - 1), InWeek(ms, Monday(n)), p);
    }
  }

  /** After a rerank exactly those who have raced are rated, with what all their
      matches are worth to them; and so it is with the rows of each week, and the
      matches up to it. */
  lemma {:induction false} RerankTallies(w: Worth, ms: seq<Started>, now: Instant, p: PlayerId)
    requires forall k | 0 <= k < |ms| :: ms[k].at <= now
    ensures var t := Rerank(TallyOf(w), ms, now);
      && (p in t.rating <==> exists x | x in ms :: Plays(x, p))
      && (p in t.rating ==> t.rating[p] == Total(w, ms, p))
      && forall n | n <= WeekNo(now) && p in WeekOf(t.history, Monday(n)) ::
           WeekOf(t.history, Monday(n))[p] == TotalTo(w, ms, p, n)
  {
    if ms != [] {
      var n0, present := WeekNo(FirstStart(ms)), WeekNo(now);
      TallyKeepsPlayers(w);
      StartsBetween(ms, now, n0, present);
      RerankIsFinal(TallyOf(w), ms, present, n0);
      RatedIffRaced(TallyOf(w), ms, n0, present, p);
      FinalTallies(w, ms, n0, present, p);
      AllByNow(w, ms, p, present);
      forall n ensures p in Final(TallyOf(w), ms, n0, n) ==> Final(TallyOf(w), ms, n0, n)[p] == TotalTo(w, ms, p, n) {
        FinalTallies(w, ms, n0, n, p);
      }
    }
  }

  lemma {:induction false} StartsBetween(ms: seq<Started>, now: Instant, n0: int, present: int)
    requires ms != [] && n0 == WeekNo(FirstStart(ms)) && present == WeekNo(now)
    requires forall k | 0 <= k < |ms| :: ms[k].at <= now
    ensures forall k | 0 <= k < |ms| :: n0 <= WeekNo(ms[k].at) <= present
  {
    forall k | 0 <= k < |ms| ensures n0 <= WeekNo(ms[k].at) <= present {
      RaceIsBetween(ms, now, k);
    }
  }

  /** The player has a match that started in the week of `now`. */
  ghost predicate RacesInWeek(ms: seq<Started>, now: Instant, p: PlayerId) {
    exists x | x in ms :: Plays(x, p) && MondayOf(now) <= x.at < MondayOf(now) + WEEK
  }

  lemma {:induction false} RacersOfWeek(ms: seq<Started>, now: Instant, p: PlayerId)
    ensures p in PlayersOf(InWeek(ms, MondayOf(now))) <==> RacesInWeek(ms, now, p)
  {
    InWeekPlayers(ms, MondayOf(now), p);
    assert forall x :: PlaysIn(x, MondayOf(now), p) <==> Plays(x, p) && MondayOf(now) <= x.at < MondayOf(now) + WEEK;
  }

  lemma {:induction false} WeekRates(w: Worth, before: map<PlayerId, int>, ms: seq<Started>, now: Instant, p: PlayerId)
    ensures var r := Rated(TallyOf(w), before, InWeek(ms, MondayOf(now)));
      && (p in r <==> p in before || RacesInWeek(ms, now, p))
      && (p in r ==> r[p] == (if p in before then before[p] else 0) + TotalOfWeek(w, ms, p, MondayOf(now)))
  {
    PeriodAdds(w, before, InWeek(ms, MondayOf(now)), p);
    RacersOfWeek(ms, now, p);
    TotalOfWeekIs(w, ms, p, MondayOf(now));
  }

  lemma ThisWeek(now: Instant)
    ensures Monday(WeekNo(now)) == MondayOf(now) && Monday(WeekNo(now) - 1) == MondayOf(now) - WEEK
  {
    WeekNoIs(now, 0);
    MondaysInOrder(WeekNo(now) - 1, 0);
  }

  /** The running table after an update, in which some are rated anew. */
  lemma {:induction false} RunningAfter<R>(g: Glicko<R>, t: Tables<R>, ms: seq<Started>, now: Instant)
    ensures Update(g, t, ms, now).rating ==
            t.rating + Rated(g, WeekOf(t.history, MondayOf(now) - WEEK), InWeek(ms, MondayOf(now)))
  {
    ThisWeek(now);
    RunningAfterWeek(g, t, ms, WeekNo(now), MondayOf(now), MondayOf(now) - WEEK);
  }

  lemma {:induction false} RunningAfterWeek<R>(g: Glicko<R>, t: Tables<R>, ms: seq<Started>, n: int, monday: Instant,
                                               before: Instant)
    requires monday == Monday(n) && before == Monday(n - 1)
    ensures UpdateWeek(g, t, ms, n).rating == t.rating + Rated(g, WeekOf(t.history, before), InWeek(ms, monday))
  {
  }

  /** An update adds the games of the week of `now` to the rows of the week
      before. */
  lemma {:induction false} UpdateTallies(w: Worth, t: Tables<int>, ms: seq<Started>, now: Instant, p: PlayerId)
    ensures var d, before := Update(TallyOf(w), t, ms, now), WeekOf(t.history, MondayOf(now) - WEEK);
      if p in before || RacesInWeek(ms, now, p) then
        && p in d.rating
        && d.rating[p] == (if p in before then before[p] else 0) + TotalOfWeek(w, ms, p, MondayOf(now))
      else
        (p in d.rating <==> p in t.rating) && (p in t.rating ==> d.rating[p] == t.rating[p])
  {
    RunningAfter(TallyOf(w), t, ms, now);
    WeekRates(w, WeekOf(t.history, MondayOf(now) - WEEK), ms, now, p);
  }
}

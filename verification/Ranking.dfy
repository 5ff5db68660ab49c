/** The ratings of one league: the running table, the table of closed weeks,
    and their update from the matches of a week. */
module Ranking {
  import opened Rows
  import opened Calendar

  /** A match as rating sees it: the outcome is that of the first entry. */
  datatype Game = Game(p1: PlayerId, p2: PlayerId, outcome: Outcome)

  /** A match that has started. */
  datatype Started = Started(at: Instant, game: Game)

  /** The rating system: what a newcomer gets, and what a period of games makes
      of the players' ratings. The arithmetic is not looked into. */
  datatype Glicko<!R> = Glicko(base: R, calculate: (map<PlayerId, R>, multiset<Game>) -> map<PlayerId, R>)

  /** One row per player, and one per week and player; the latter are grouped
      by week, and a week without rows is not there. */
  datatype Tables<R> = Tables(rating: map<PlayerId, R>, history: map<Instant, map<PlayerId, R>>)

  function PlayersOf(games: seq<Game>): set<PlayerId> {
    (set g | g in games :: g.p1) + (set g | g in games :: g.p2)
  }

  /** A period rates the players it is given, and nobody else. */
  ghost predicate KeepsPlayers<R(!new)>(g: Glicko<R>) {
    forall base: map<PlayerId, R>, games: multiset<Game> {:trigger KeepsPlayersOf(g, base, games)} ::
      KeepsPlayersOf(g, base, games)
  }

  ghost predicate KeepsPlayersOf<R>(g: Glicko<R>, base: map<PlayerId, R>, games: multiset<Game>) {
    (forall x | x in games :: x.p1 in base && x.p2 in base) ==> g.calculate(base, games).Keys == base.Keys
  }

  /** The games of the week that starts at `monday`. */
  function InWeek(ms: seq<Started>, monday: Instant): seq<Game> {
    if ms == [] then []
    else
      var last := ms[|ms| - 1];
      InWeek(ms[..|ms| - 1], monday) + if monday <= last.at < monday + WEEK then [last.game] else []
  }

  /** The rows of one week. */
  function WeekOf<R>(history: map<Instant, map<PlayerId, R>>, monday: Instant): map<PlayerId, R> {
    if monday in history then history[monday] else map[]
  }

  /** The rows of one week are inserted or replaced. */
  function UpsertWeek<R>(history: map<Instant, map<PlayerId, R>>, monday: Instant, ratings: map<PlayerId, R>):
    map<Instant, map<PlayerId, R>>
  {
    if ratings == map[] then history else history[monday := WeekOf(history, monday) + ratings]
  }

  function WithNewcomers<R>(base: map<PlayerId, R>, newcomer: R, players: set<PlayerId>): map<PlayerId, R> {
    base + map p | p in players && p !in base :: newcomer
  }

  /** A week's games rated on top of earlier ratings. */
  function Rated<R>(g: Glicko<R>, base: map<PlayerId, R>, games: seq<Game>): map<PlayerId, R> {
    g.calculate(WithNewcomers(base, g.base, PlayersOf(games)), multiset(games))
  }

  /** The update of the `n`-th week: its games on top of the week before. */
  function UpdateWeek<R>(g: Glicko<R>, t: Tables<R>, ms: seq<Started>, n: int): Tables<R> {
    var result := Rated(g, WeekOf(t.history, Monday(n - 1)), InWeek(ms, Monday(n)));
    Tables(t.rating + result, UpsertWeek(t.history, Monday(n), result))
  }

  function Update<R>(g: Glicko<R>, t: Tables<R>, ms: seq<Started>, now: Instant): Tables<R> {
    UpdateWeek(g, t, ms, WeekNo(now))
  }

  function Empty<R>(): Tables<R> {
    Tables(map[], map[])
  }

  /** Updates for the weeks from `n` to `n1`. */
  function Replay<R>(g: Glicko<R>, t: Tables<R>, ms: seq<Started>, n: int, n1: int): Tables<R>
    decreases n1 - n
  {
    if n > n1 then t else Replay(g, UpdateWeek(g, t, ms, n), ms, n + 1, n1)
  }

  lemma ReplayOne<R>(g: Glicko<R>, t: Tables<R>, ms: seq<Started>, n: int, n1: int)
    requires n <= n1
    ensures Replay(g, t, ms, n, n1) == Replay(g, UpdateWeek(g, t, ms, n), ms, n + 1, n1)
  {
  }

  function FirstStart(ms: seq<Started>): Instant
    requires ms != []
  {
    var last := ms[|ms| - 1].at;
    if |ms| == 1 then last
    else
      var first := FirstStart(ms[..|ms| - 1]);
      if first <= last then first else last
  }

  /** All ratings computed anew, up to week `present`. */
  function RerankTo<R>(g: Glicko<R>, ms: seq<Started>, present: int): Tables<R> {
    if ms == [] then Empty() else Replay(g, Empty(), ms, WeekNo(FirstStart(ms)), present)
  }

  function Rerank<R>(g: Glicko<R>, ms: seq<Started>, now: Instant): Tables<R> {
    RerankTo(g, ms, WeekNo(now))
  }

  // --------------------------------------------------------------- the tables

  class RankingTables<R(!new)> {
    var rating: map<PlayerId, R>
    var history: map<Instant, map<PlayerId, R>>

    function State(): Tables<R>
      reads this
    {
      Tables(rating, history)
    }

    constructor ()
      ensures State() == Empty()
    {
      rating, history := map[], map[];
    }

    method GetGlickoPlayersForLeague(periodStart: Instant) returns (ret: map<PlayerId, R>)
      ensures ret == WeekOf(history, periodStart)
    {
      ret := map[];
      var rows := WeekOf(history, periodStart);
      var todo := rows.Keys;
      while todo != {}
        invariant todo <= rows.Keys
        invariant ret == map p | p in rows && p !in todo :: rows[p]
      {
        var p :| p in todo;
        ret := ret[p := rows[p]];
        todo := todo - {p};
      }
    }

    method UpdateRunningPeriodRatings(players: map<PlayerId, R>)
      modifies this`rating
      ensures rating == old(rating) + players
    {
      var todo := players.Keys;
      while todo != {}
        invariant todo <= players.Keys
        invariant rating == old(rating) + (map p | p in players && p !in todo :: players[p])
      {
        var p :| p in todo;
        rating := rating[p := players[p]];
        todo := todo - {p};
      }
    }

    method CloseRatingPeriod(currentPeriodStart: Instant, players: map<PlayerId, R>)
      modifies this`history
      ensures history == UpsertWeek(old(history), currentPeriodStart, players)
    {
      ghost var rows := WeekOf(history, currentPeriodStart);
      ghost var done: map<PlayerId, R> := map[];
      var todo := players.Keys;
      while todo != {}
        invariant todo <= players.Keys && done.Keys == players.Keys - todo
        invariant forall p | p in done :: done[p] == players[p]
        invariant history == if done == map[] then old(history) else old(history)[currentPeriodStart := rows + done]
      {
        var p :| p in todo;
        assert WeekOf(history, currentPeriodStart) == rows + done;
        history := history[currentPeriodStart := WeekOf(history, currentPeriodStart)[p := players[p]]];
        assert (rows + done)[p := players[p]] == rows + done[p := players[p]];
        done := done[p := players[p]];
        todo := todo - {p};
      }
      assert done == players;
    }

    method UpdateLeagueRankings(g: Glicko<R>, ms: seq<Started>, now: Instant)
      modifies this
      ensures State() == Update(g, old(State()), ms, now)
    {
      var currentPeriodStart := MondayOf(now);
      WeekNoIs(now, 0);
      MondaysInOrder(WeekNo(now) - 1, 0);
      var glickoPlayers := GetGlickoPlayersForLeague(currentPeriodStart - WEEK);
      var matches := GetMatchesByPeriod(ms, currentPeriodStart, currentPeriodStart + WEEK);
      glickoPlayers := ComputePeriod(g, matches, glickoPlayers);
      UpdateRunningPeriodRatings(glickoPlayers);
      CloseRatingPeriod(currentPeriodStart, glickoPlayers);
    }

    /** `mondays` are the weeks it goes through. */
    method RerankLeague(g: Glicko<R>, ms: seq<Started>, now: Instant) returns (ghost mondays: seq<Instant>)
      modifies this
      ensures State() == Rerank(g, ms, now)
      ensures ms == [] ==> mondays == []
      ensures ms != [] ==> AreMondays(mondays, WeekNo(FirstStart(ms)), WeekNo(now))
    {
      rating, history, mondays := map[], map[], [];
      if ms == [] {
        return;
      }
      var first := GetFirstMatchStart(ms);
      WeekNoIs(first, 0);
      WeekNoIs(now, 0);
      MondaysInOrder(WeekNo(now), 0);
      mondays := UpdateEachWeek(g, ms, MondayOf(first), MondayOf(now) + WEEK, WeekNo(first), WeekNo(now));
    }

    method UpdateOneWeek(g: Glicko<R>, ms: seq<Started>, i: Instant, ghost n: int, ghost n1: int)
      requires i == Monday(n) && n <= n1
      modifies this
      ensures Replay(g, State(), ms, n + 1, n1) == Replay(g, old(State()), ms, n, n1)
    {
      WeekNoIs(i, n);
      UpdateLeagueRankings(g, ms, i);
      ReplayOne(g, old(State()), ms, n, n1);
    }

    /** The loop of a rerank, from one Monday to another. */
    method UpdateEachWeek(g: Glicko<R>, ms: seq<Started>, firstPeriodStart: Instant, curPeriodEnd: Instant,
                          ghost n0: int, ghost n1: int)
      returns (ghost mondays: seq<Instant>)
      requires firstPeriodStart == Monday(n0) && curPeriodEnd == Monday(n1) + WEEK
      modifies this
      ensures State() == Replay(g, old(State()), ms, n0, n1)
      ensures AreMondays(mondays, n0, n1)
    {
      mondays := [];
      var i := firstPeriodStart;
      ghost var n := n0;
      while i < curPeriodEnd
        invariant i == Monday(n) && n0 <= n && n - 1 <= (if n0 <= n1 then n1 else n0 - 1)
        invariant Replay(g, State(), ms, n, n1) == Replay(g, old(State()), ms, n0, n1)
        invariant AreMondays(mondays, n0, n - 1)
        decreases n1 - n
      {
        assert n <= n1 && i + WEEK == Monday(n + 1) by { MondaysInOrder(n, n1); }
        UpdateOneWeek(g, ms, i, n, n1);
        mondays := MondaysNext(mondays, n0, n);
        i, n := i + WEEK, n + 1;
      }
      assert n > n1 by { MondaysInOrder(n, n1); }
    }
  }

  /** The Mondays from week `n0` to week `n1`, in order. */
  ghost predicate AreMondays(mondays: seq<Instant>, n0: int, n1: int) {
    && |mondays| == (if n0 <= n1 then n1 - n0 + 1 else 0)
    && forall i | 0 <= i < |mondays| :: mondays[i] == Monday(n0 + i)
  }

  ghost function MondaysNext(mondays: seq<Instant>, n0: int, n: int): (r: seq<Instant>)
    requires n0 <= n && AreMondays(mondays, n0, n - 1)
    ensures AreMondays(r, n0, n)
  {
    mondays + [Monday(n)]
  }

  /** Every match started by now falls in exactly one of the weeks a rerank goes
      through. */
  lemma {:induction false} EveryMatchOnce(ms: seq<Started>, now: Instant, mondays: seq<Instant>, k: nat)
    requires k < |ms| && ms[k].at <= now
    requires AreMondays(mondays, WeekNo(FirstStart(ms)), WeekNo(now))
    ensures var i := WeekNo(ms[k].at) - WeekNo(FirstStart(ms));
      && 0 <= i < |mondays| && mondays[i] <= ms[k].at < mondays[i] + WEEK
      && forall j | 0 <= j < |mondays| && mondays[j] <= ms[k].at < mondays[j] + WEEK :: j == i
  {
    var n, n0 := WeekNo(ms[k].at), WeekNo(FirstStart(ms));
    FirstStartIsFirst(ms, k);
    WeekNoGrows(FirstStart(ms), ms[k].at);
    WeekNoGrows(ms[k].at, now);
    forall j | 0 <= j < |mondays| ensures mondays[j] <= ms[k].at < mondays[j] + WEEK <==> j == n - n0 {
      WeekNoIs(ms[k].at, n0 + j);
    }
  }

  lemma {:induction false} FirstStartIsFirst(ms: seq<Started>, k: nat)
    requires k < |ms|
    ensures FirstStart(ms) <= ms[k].at
  {
    if k < |ms| - 1 {
      FirstStartIsFirst(ms[..|ms| - 1], k);
    }
  }

  method GetFirstMatchStart(ms: seq<Started>) returns (first: Instant)
    requires ms != []
    ensures first == FirstStart(ms)
  {
    first := ms[0].at;
    for i := 1 to |ms|
      invariant first == FirstStart(ms[..i])
    {
      assert ms[..i + 1][..i] == ms[..i];
      if ms[i].at < first {
        first := ms[i].at;
      }
    }
    assert ms[..|ms|] == ms;
  }

  method GetMatchesByPeriod(ms: seq<Started>, from: Instant, to: Instant) returns (games: seq<Game>)
    requires to == from + WEEK
    ensures games == InWeek(ms, from)
  {
    games := [];
    for i := 0 to |ms|
      invariant games == InWeek(ms[..i], from)
    {
      assert ms[..i + 1][..i] == ms[..i];
      if from <= ms[i].at < to {
        games := games + [ms[i].game];
      }
    }
    assert ms[..|ms|] == ms;
  }

  lemma OneNewcomer<R>(base: map<PlayerId, R>, newcomer: R, players: set<PlayerId>, p: PlayerId)
    ensures WithNewcomers(base, newcomer, players + {p}) ==
            var m := WithNewcomers(base, newcomer, players);
            if p in m then m else m[p := newcomer]
  {
  }

  lemma PlayersNext(games: seq<Game>, g: Game)
    ensures PlayersOf(games + [g]) == PlayersOf(games) + {g.p1} + {g.p2}
  {
    var more := games + [g];
    assert forall x :: x in more <==> x in games || x == g;
  }

  /** Adds the newcomers as their games come, then rates the period. */
  method ComputePeriod<R>(g: Glicko<R>, matches: seq<Game>, glickoPlayers: map<PlayerId, R>)
    returns (rated: map<PlayerId, R>)
    ensures rated == Rated(g, glickoPlayers, matches)
  {
    var players := glickoPlayers;
    var games: multiset<Game> := multiset{};
    for k := 0 to |matches|
      invariant players == WithNewcomers(glickoPlayers, g.base, PlayersOf(matches[..k]))
      invariant games == multiset(matches[..k])
    {
      var p1, p2 := matches[k].p1, matches[k].p2;
      ghost var seen := PlayersOf(matches[..k]);
      OneNewcomer(glickoPlayers, g.base, seen, p1);
      OneNewcomer(glickoPlayers, g.base, seen + {p1}, p2);
      PlayersNext(matches[..k], matches[k]);
      assert matches[..k + 1] == matches[..k] + [matches[k]];
      if p1 !in players {
        players := players[p1 := g.base];
      }
      if p2 !in players {
        players := players[p2 := g.base];
      }
      games := games + multiset{matches[k]};
    }
    assert matches[..|matches|] == matches;
    rated := g.calculate(players, games);
  }
}

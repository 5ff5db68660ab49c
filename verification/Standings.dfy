/** Ratings that count races, over the runs of the ladder: the tables updated at
    the closings are made of each started match once, with its outcome. */
module Standings {
  import opened Rows
  import opened Sequences
  import opened MatchHistory
  import opened Lifecycle
  import opened LifecycleInvariant
  import opened Runs
  import opened Calendar
  import opened Ranking
  import opened Incremental
  import opened RankedRuns
  import opened Tally

  // ----------------------------------------------------------- what is counted

  predicate PlaysGame(p: PlayerId, x: Game) {
    x.p1 == p || x.p2 == p
  }

  /** The outcome of a game is that of its first player. */
  predicate Wins(p: PlayerId, x: Game) {
    (x.p1 == p && x.outcome.Win?) || (x.p2 == p && x.outcome.Loss?)
  }

  predicate Loses(p: PlayerId, x: Game) {
    (x.p1 == p && x.outcome.Loss?) || (x.p2 == p && x.outcome.Win?)
  }

  function Played(p: PlayerId): Game -> bool {
    (x: Game) => PlaysGame(p, x)
  }

  function Winning(p: PlayerId): Game -> bool {
    (x: Game) => Wins(p, x)
  }

  function Losing(p: PlayerId): Game -> bool {
    (x: Game) => Loses(p, x)
  }

  /** A game counts as one. */
  function Games(): Worth {
    (p: PlayerId, x: Game) => if PlaysGame(p, x) then 1 else 0
  }

  /** A game counts for who won it, and against who lost it. */
  function Balance(): Worth {
    (p: PlayerId, x: Game) => (if Wins(p, x) then 1 else 0) - (if Loses(p, x) then 1 else 0)
  }

  // --------------------------------------------------------- over a plain list

  /** Where in a list the matches are that someone won, lost, or played. */
  ghost function Places(ms: seq<Started>, holds: Game -> bool): set<int> {
    set k | 0 <= k < |ms| && holds(ms[k].game)
  }

  lemma PlacesNext(ms: seq<Started>, holds: Game -> bool)
    requires ms != []
    ensures var n := |ms| - 1;
      |Places(ms, holds)| == |Places(ms[..n], holds)| + if holds(ms[n].game) then 1 else 0
  {
    var n := |ms| - 1;
    assert Places(ms, holds) == Places(ms[..n], holds) + if holds(ms[n].game) then {n} else {};
  }

  lemma {:induction false} TotalsCount(ms: seq<Started>, p: PlayerId)
    ensures Total(Games(), ms, p) == |Places(ms, Played(p))|
    ensures Total(Balance(), ms, p) == |Places(ms, Winning(p))| - |Places(ms, Losing(p))|
  {
    if ms != [] {
      TotalsCount(ms[..|ms| - 1], p);
      PlacesNext(ms, Played(p));
      PlacesNext(ms, Winning(p));
      PlacesNext(ms, Losing(p));
    }
  }

  /** After a rerank each player who has raced is rated with the number of their
      matches, or with their wins less their losses, by the system that counts
      those. */
  lemma RerankCounts(ms: seq<Started>, now: Instant, p: PlayerId)
    requires forall k | 0 <= k < |ms| :: ms[k].at <= now
    ensures var games, balance := Rerank(TallyOf(Games()), ms, now).rating, Rerank(TallyOf(Balance()), ms, now).rating;
      && (p in games <==> exists x | x in ms :: Plays(x, p))
      && (p in balance <==> p in games)
      && (p in games ==>
            && games[p] == |Places(ms, Played(p))|
            && balance[p] == |Places(ms, Winning(p))| - |Places(ms, Losing(p))|)
  {
    RerankTallies(Games(), ms, now, p);
    RerankTallies(Balance(), ms, now, p);
    TotalsCount(ms, p);
  }

  // ------------------------------------------------------------- over the rows

  /** The started matches of a league in which a player has some entry. */
  ghost function MatchesWith(db: Db, league: LeagueId, holds: Entry -> bool): set<MatchId> {
    set m | m in db.matches && db.matches[m].league == league && db.matches[m].startedAt.Some?
            && exists k | 0 <= k < |db.matches[m].entries| :: holds(db.matches[m].entries[k])
  }

  /** The identifiers of a list whose games hold. */
  ghost function Selected(db: Db, ids: seq<MatchId>, holds: Game -> bool): set<MatchId>
    requires AllPlayable(db, ids)
  {
    set m | m in ids && holds(StartedOf(db.matches[m]).game)
  }

  lemma {:induction false} PlacesAreRows(db: Db, ids: seq<MatchId>, holds: Game -> bool)
    requires AllPlayable(db, ids) && Distinct(ids)
    ensures |Places(ListOf(db, ids), holds)| == |Selected(db, ids, holds)|
  {
    if ids != [] {
      var front, last := ids[..|ids| - 1], ids[|ids| - 1];
      DistinctParts(ids, front, [last]);
      PlacesAreRows(db, front, holds);
      var ms := ListOf(db, ids);
      PlacesNext(ms, holds);
      assert ms[..|ms| - 1] == ListOf(db, front);
      assert last in [last] && last !in front;
      assert Selected(db, ids, holds) ==
             Selected(db, front, holds) + if holds(StartedOf(db.matches[last]).game) then {last} else {};
    }
  }

  function Entered(p: PlayerId): Entry -> bool {
    (e: Entry) => e.player == p
  }

  function Won(p: PlayerId): Entry -> bool {
    (e: Entry) => e.player == p && e.outcome == Win
  }

  function Lost(p: PlayerId): Entry -> bool {
    (e: Entry) => e.player == p && e.outcome == Loss
  }

  ghost predicate HasEntry(x: Match, holds: Entry -> bool) {
    exists k | 0 <= k < |x.entries| :: holds(x.entries[k])
  }

  /** What rating sees of a match is what its entries say. */
  lemma GameIsRow(db: Db, m: MatchId, p: PlayerId)
    requires Recorded(db) && m in db.matches && Playable(db.matches[m])
    ensures var x, game := db.matches[m], StartedOf(db.matches[m]).game;
      && (PlaysGame(p, game) <==> HasEntry(x, Entered(p)))
      && (Wins(p, game) <==> HasEntry(x, Won(p)))
      && (Loses(p, game) <==> HasEntry(x, Lost(p)))
  {
    ExplainedIsSound(db.journal[m], db.matches[m], db.clock);
    SoundGame(db.matches[m], p);
  }

  lemma SoundGame(x: Match, p: PlayerId)
    requires Sound(x) && Playable(x)
    ensures var game := StartedOf(x).game;
      && (PlaysGame(p, game) <==> HasEntry(x, Entered(p)))
      && (Wins(p, game) <==> HasEntry(x, Won(p)))
      && (Loses(p, game) <==> HasEntry(x, Lost(p)))
  {
    var a, b := x.entries[0], x.entries[1];
    assert a.outcome.Win? <==> b.outcome.Loss?;
    assert a.outcome.Loss? <==> b.outcome.Win?;
    EntryOf(x, Entered(p));
    EntryOf(x, Won(p));
    EntryOf(x, Lost(p));
  }

  lemma EntryOf(x: Match, holds: Entry -> bool)
    requires |x.entries| == 2
    ensures HasEntry(x, holds) <==> holds(x.entries[0]) || holds(x.entries[1])
  {
  }

  lemma SelectedRows(db: Db, league: LeagueId, ids: seq<MatchId>, game: Game -> bool, holds: Entry -> bool)
    requires AreStarted(db, league, ids)
    requires forall m | m in ids :: game(StartedOf(db.matches[m]).game) <==> HasEntry(db.matches[m], holds)
    ensures Selected(db, ids, game) == MatchesWith(db, league, holds)
  {
    forall m ensures m in Selected(db, ids, game) <==> m in MatchesWith(db, league, holds) {
      assert m in ids <==> IsStarted(db, league, m);
    }
  }

  lemma PlacesCount(db: Db, league: LeagueId, ms: seq<Started>, game: Game -> bool, holds: Entry -> bool)
    requires Recorded(db) && ListsStarted(db, league, ms)
    requires forall m | m in db.matches && Playable(db.matches[m]) ::
               game(StartedOf(db.matches[m]).game) <==> HasEntry(db.matches[m], holds)
    ensures |Places(ms, game)| == |MatchesWith(db, league, holds)|
  {
    var ids: seq<MatchId> :| AreStarted(db, league, ids) && ms == ListOf(db, ids);
    PlacesAreRows(db, ids, game);
    SelectedRows(db, league, ids, game, holds);
  }

  lemma {:induction false} TotalsAreRows(db: Db, league: LeagueId, ms: seq<Started>, p: PlayerId)
    requires Recorded(db) && ListsStarted(db, league, ms)
    ensures Total(Games(), ms, p) == |MatchesWith(db, league, Entered(p))|
    ensures Total(Balance(), ms, p) == |MatchesWith(db, league, Won(p))|
                                       - |MatchesWith(db, league, Lost(p))|
  {
    forall m | m in db.matches && Playable(db.matches[m])
      ensures PlaysGame(p, StartedOf(db.matches[m]).game) <==> HasEntry(db.matches[m], Entered(p))
      ensures Wins(p, StartedOf(db.matches[m]).game) <==>
              HasEntry(db.matches[m], Won(p))
      ensures Loses(p, StartedOf(db.matches[m]).game) <==>
              HasEntry(db.matches[m], Lost(p))
    {
      GameIsRow(db, m, p);
    }
    TotalsCount(ms, p);
    PlacesCount(db, league, ms, Played(p), Entered(p));
    PlacesCount(db, league, ms, Winning(p), Won(p));
    PlacesCount(db, league, ms, Losing(p), Lost(p));
  }

  lemma RacersAreRows(db: Db, league: LeagueId, ms: seq<Started>, p: PlayerId)
    requires Recorded(db) && ListsStarted(db, league, ms)
    ensures (exists x | x in ms :: Plays(x, p)) <==> MatchesWith(db, league, Entered(p)) != {}
  {
    var ids: seq<MatchId> :| AreStarted(db, league, ids) && ms == ListOf(db, ids);
    var rows := MatchesWith(db, league, Entered(p));
    forall m | m in ids ensures Plays(StartedOf(db.matches[m]), p) <==> m in rows {
      GameIsRow(db, m, p);
      assert IsStarted(db, league, m);
      assert HasEntry(db.matches[m], Entered(p)) <==> m in rows;
    }
    if x :| x in ms && Plays(x, p) {
      ListHas(db, ids, x);
    }
    if m :| m in rows {
      assert IsStarted(db, league, m) && m in ids;
      ListHas(db, ids, StartedOf(db.matches[m]));
    }
  }

  /** Over any run of the ladder whose weeks are closed late enough, the tables
      updated at the closings rate exactly the players with a started match in the
      league, with the number of those, or with those they won less those they
      lost, by the system that counts that. */
  lemma {:induction false} ClosingsCount(acts: seq<Action>, league: LeagueId, ms: seq<Started>, now: Instant,
                                         p: PlayerId)
    requires CanRun(EMPTY_DB, acts)
    requires ListsStarted(Run(EMPTY_DB, acts), league, ms) && Run(EMPTY_DB, acts).clock * SECOND <= now
    requires ms != [] ==> forall n | WeekNo(FirstStart(ms)) <= n <= WeekNo(now) :: ClosedLate(EMPTY_DB, acts, league, n)
    ensures var db, made := Run(EMPTY_DB, acts), RunUpdates(acts, league);
      var games, balance := UpdatedAlong(TallyOf(Games()), made).rating, UpdatedAlong(TallyOf(Balance()), made).rating;
      && (p in games <==> MatchesWith(db, league, Entered(p)) != {})
      && (p in balance <==> p in games)
      && (p in games ==>
            && games[p] == |MatchesWith(db, league, Entered(p))|
            && balance[p] == |MatchesWith(db, league, Won(p))|
                             - |MatchesWith(db, league, Lost(p))|)
  {
    var db := Run(EMPTY_DB, acts);
    EmptyIsGood();
    RunKeepsInv(EMPTY_DB, acts);
    TallyKeepsPlayers(Games());
    TallyKeepsPlayers(Balance());
    ClosingsAreRerank(TallyOf(Games()), acts, league, ms, now);
    ClosingsAreRerank(TallyOf(Balance()), acts, league, ms, now);
    StartedByNow(db, league, ms);
    RerankTallies(Games(), ms, now, p);
    RerankTallies(Balance(), ms, now, p);
    TotalsAreRows(db, league, ms, p);
    RacersAreRows(db, league, ms, p);
  }
}

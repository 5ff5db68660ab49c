/** The transactions that change matches keep the invariant: the start of a
    session, a player's forfeit or completion, and matchmaking. */
module LifecycleMatchSteps {
  import opened Rows
  import opened Sequences
  import opened MatchHistory
  import opened Lifecycle
  import opened LifecycleInvariant

  // ------------------------------------------------ events on known matches

  /** A match after some events: same players, and who had ended has ended. */
  ghost predicate Evolves(x: Match, y: Match) {
    && |x.entries| == |y.entries| == 2 && x.session == y.session && x.league == y.league
    && forall k | 0 <= k < 2 ::
         x.entries[k].player == y.entries[k].player && (x.entries[k].HasEnded() ==> y.entries[k].HasEnded())
  }

  ghost predicate MatchesEvolve(db: Db, d: Db) {
    && d.matches.Keys == db.matches.Keys
    && forall m | m in db.matches :: Evolves(db.matches[m], d.matches[m])
  }

  lemma EvolutionKeepsSeats(db: Db, d: Db)
    requires MatchesEvolve(db, d)
    ensures OneSeat(db) ==> OneSeat(d)
    ensures forall s, p :: HasSeat(d, s, p) <==> HasSeat(db, s, p)
    ensures forall s, p :: EndedIn(db, s, p) ==> EndedIn(d, s, p)
    ensures forall s :: Matched(d, s) <==> Matched(db, s)
  {
    forall m: MatchId, k: nat, s: SessionId, p: PlayerId
      ensures Sits(d, m, k, s, p) <==> Sits(db, m, k, s, p)
    {
      if m in db.matches {
        assert Evolves(db.matches[m], d.matches[m]);
      }
    }
    forall s, p | EndedIn(db, s, p) ensures EndedIn(d, s, p) {
      var m: MatchId, k: nat :| Sits(db, m, k, s, p) && db.matches[m].entries[k].HasEnded();
      assert Evolves(db.matches[m], d.matches[m]);
      assert Sits(d, m, k, s, p) && d.matches[m].entries[k].HasEnded();
    }
  }

  predicate SameButStarted(x: Session, y: Session) {
    y == x.(status := y.status) && y.Open() == x.Open() && (x.status.Rank() >= 2 ==> y.status.Rank() >= 2)
  }

  /** A step of events on matches in which sessions at most change status
      between the open ones. */
  lemma EvolutionKeeps(db: Db, d: Db)
    requires MatchesEvolve(db, d)
    requires OneSeat(db) && AllSeated(db) && OneCommitment(db) && PendingFresh(db) && CountingFresh(db)
    requires d.sessions.Keys == db.sessions.Keys && d.pending == db.pending && d.counting == db.counting
    requires forall s | s in db.sessions :: SameButStarted(db.sessions[s], d.sessions[s])
    requires forall s | s in db.pending :: d.sessions[s] == db.sessions[s]
    ensures OneSeat(d) && AllSeated(d) && OneCommitment(d) && PendingFresh(d) && CountingFresh(d)
  {
    EvolutionKeepsSeats(db, d);
    forall s, p | Live(d, s, p) ensures Live(db, s, p) {}
  }

  lemma ApplyEvolves(x: Match, e: Event)
    requires |x.entries| == 2
    ensures Evolves(x, Apply(x, e))
  {
  }

  lemma StartExplained(db: Db, id: SessionId, now: Time, m: MatchId)
    requires Recorded(db) && db.clock <= now && id in db.sessions && m in db.matches
    ensures var d := AfterStart(db, id, now);
      Evolves(db.matches[m], d.matches[m]) && Explains(d.journal[m], d.matches[m], now)
  {
    assert Explains(db.journal[m], db.matches[m], db.clock);
    if StartsWith(db.matches[m], id) {
      ExplainNext(db.journal[m], db.matches[m], db.clock, Start(now));
    }
  }

  lemma StartedRow(x: Match, now: Time)
    requires |x.entries| == 2
    ensures var y := Apply(x, Start(now)); y.startedAt.Some? && y.endedAt == x.endedAt && Evolves(x, y)
  {
  }

  lemma EndedRow(x: Match, e: Event)
    requires |x.entries| == 2 && !e.Start?
    ensures Apply(x, e).startedAt == x.startedAt && Evolves(x, Apply(x, e))
  {
  }

  lemma PlacedAfter(db: Db, d: Db, x: Match, y: Match)
    requires Placed(db, x) && Evolves(x, y)
    requires x.session in d.sessions && d.sessions[x.session].players == db.sessions[x.session].players
    requires d.sessions[x.session].league == db.sessions[x.session].league
    requires InPhase(y, d.sessions[x.session].status)
    ensures Placed(d, y)
  {
    forall k | 0 <= k < 2 ensures y.entries[k].player in d.sessions[y.session].players {
      assert x.entries[k].player in db.sessions[x.session].players;
    }
  }

  lemma StartPlaced(db: Db, id: SessionId, now: Time, m: MatchId)
    requires Recorded(db) && m in db.matches && CanStart(db, id, now)
    requires Placed(db, db.matches[m])
    ensures Placed(AfterStart(db, id, now), AfterStart(db, id, now).matches[m])
  {
    var d := AfterStart(db, id, now);
    assert |db.matches[m].entries| == 2 by { assert Explains(db.journal[m], db.matches[m], db.clock); }
    StartedRow(db.matches[m], now);
    PlacedAfter(db, d, db.matches[m], d.matches[m]);
  }

  lemma StartKeepsMatches(db: Db, id: SessionId, now: Time)
    requires Recorded(db) && MatchesPlaced(db) && db.clock <= now && CanStart(db, id, now)
    ensures var d := AfterStart(db, id, now);
      MatchesEvolve(db, d) && Recorded(d) && MatchesPlaced(d)
  {
    var d := AfterStart(db, id, now);
    forall m | m in db.matches
      ensures Evolves(db.matches[m], d.matches[m])
      ensures Explains(d.journal[m], d.matches[m], now)
      ensures Placed(d, d.matches[m])
    {
      StartExplained(db, id, now, m);
      StartPlaced(db, id, now, m);
    }
  }

  lemma StartKeepsInv(db: Db, id: SessionId, now: Time)
    requires Inv(db) && db.clock <= now && CanStart(db, id, now)
    ensures Inv(AfterStart(db, id, now))
  {
    StartKeepsMatches(db, id, now);
    EvolutionKeeps(db, AfterStart(db, id, now));
  }

  /** A second start of a session in progress finds nothing to start. */
  lemma StartAgainIsIdle(db: Db, id: SessionId, now: Time)
    requires Recorded(db) && MatchesPlaced(db) && id in db.sessions && db.sessions[id].status.InProgress?
    ensures forall m | m in db.matches :: |db.matches[m].entries| == 2
    ensures StartedMatches(db, id, now) == db.matches && StartedJournal(db, id, now) == db.journal
  {
    RowsHaveTwoEntries(db);
    forall m | m in db.matches ensures !StartsWith(db.matches[m], id) {
      assert Placed(db, db.matches[m]);
    }
  }

  /** Unless the session has been closed, the end of a countdown is the start of
      the session, or finds it started. */
  lemma CountdownIsStart(db: Db, id: SessionId, now: Time)
    requires Recorded(db) && MatchesPlaced(db) && CountingFresh(db) && CountedDown(db, id, now)
    requires !db.sessions[id].status.Closed?
    ensures forall m | m in db.matches :: |db.matches[m].entries| == 2
    ensures db.sessions[id].status.Preparing? ==>
              && CanStart(db, id, now)
              && AfterEndCountdown(db, id, now) == AfterStart(db, id, now).(counting := db.counting - {id})
    ensures !db.sessions[id].status.Preparing? ==>
              AfterEndCountdown(db, id, now) == db.(counting := db.counting - {id}, clock := now)
  {
    RowsHaveTwoEntries(db);
    if !db.sessions[id].status.Preparing? {
      StartAgainIsIdle(db, id, now);
      assert db.sessions[id := db.sessions[id]] == db.sessions;
    }
  }

  lemma EndCountdownKeepsInv(db: Db, id: SessionId, now: Time)
    requires Inv(db) && db.clock <= now && CountedDown(db, id, now) && !db.sessions[id].status.Closed?
    ensures forall m | m in db.matches :: |db.matches[m].entries| == 2
    ensures Inv(AfterEndCountdown(db, id, now))
  {
    CountdownIsStart(db, id, now);
    if db.sessions[id].status.Preparing? {
      StartKeepsInv(db, id, now);
      var d := AfterStart(db, id, now);
      AsideKeepsInv(d, d.pending, d.counting - {id}, now);
    } else {
      AsideKeepsInv(db, db.pending, db.counting - {id}, now);
    }
  }

  /** The lookup guards the end of a race: the entry it leads to has not
      ended, although the source does not ask. */
  lemma EndIsLegal(db: Db, id: SessionId, p: PlayerId, m: MatchId, k: nat, forfeit: bool, now: Time)
    requires Inv(db) && CanEnd(db, id, p, m, k, forfeit, now)
    ensures |db.matches[m].entries| == 2 && k < 2
    ensures Legal(db.matches[m], EndEvent(k, forfeit, now))
  {
    ActiveIsTheLiveOne(db, p, id);
    assert Explains(db.journal[m], db.matches[m], db.clock);
  }

  lemma EndKeepsInv(db: Db, id: SessionId, p: PlayerId, m: MatchId, k: nat, forfeit: bool, now: Time)
    requires Inv(db) && db.clock <= now && CanEnd(db, id, p, m, k, forfeit, now)
    ensures Inv(AfterEvent(db, m, EndEvent(k, forfeit, now)))
  {
    EndIsLegal(db, id, p, m, k, forfeit, now);
    EventKeepsInv(db, m, EndEvent(k, forfeit, now));
  }

  lemma EventKeepsMatches(db: Db, m: MatchId, e: Event)
    requires Recorded(db) && db.clock <= e.at && m in db.matches && |db.matches[m].entries| == 2
    requires Legal(db.matches[m], e)
    ensures Recorded(AfterEvent(db, m, e)) && MatchesEvolve(db, AfterEvent(db, m, e))
  {
    var d := AfterEvent(db, m, e);
    forall n | n in db.matches
      ensures Evolves(db.matches[n], d.matches[n]) && Explains(d.journal[n], d.matches[n], e.at)
    {
      assert Explains(db.journal[n], db.matches[n], db.clock);
      if n == m {
        ExplainNext(db.journal[m], db.matches[m], db.clock, e);
        ApplyEvolves(db.matches[m], e);
      }
    }
  }

  lemma EventKeepsInv(db: Db, m: MatchId, e: Event)
    requires Inv(db) && db.clock <= e.at && m in db.matches && |db.matches[m].entries| == 2
    requires !e.Start? && Legal(db.matches[m], e)
    requires db.matches[m].session in db.sessions && db.sessions[db.matches[m].session].status.Rank() in {2, 3}
    ensures Inv(AfterEvent(db, m, e))
  {
    var d := AfterEvent(db, m, e);
    EventKeepsMatches(db, m, e);
    EvolutionKeeps(db, d);
    EndedRow(db.matches[m], e);
    EventPlaced(db, d, m);
  }

  lemma EventPlaced(db: Db, d: Db, m: MatchId)
    requires MatchesPlaced(db) && MatchesEvolve(db, d) && d.sessions == db.sessions
    requires m in db.matches && db.matches[m].session in db.sessions
    requires db.sessions[db.matches[m].session].status.Rank() in {2, 3}
    requires d.matches == db.matches[m := d.matches[m]] && d.matches[m].startedAt == db.matches[m].startedAt
    ensures MatchesPlaced(d)
  {
    forall n | n in d.matches ensures Placed(d, d.matches[n]) {
      assert Placed(db, db.matches[n]);
      if n == m {
        PlacedAfter(db, d, db.matches[m], d.matches[m]);
      }
    }
  }

  // ------------------------------------------------------------ matchmaking

  lemma {:induction false} SeatedLength(seats: seq<Seat>)
    ensures |Seated(seats)| == 2 * |seats|
  {
    if seats != [] {
      SeatedLength(seats[..|seats| - 1]);
    }
  }

  lemma {:induction false} SeatedAt(seats: seq<Seat>, i: nat)
    requires i < |seats|
    ensures |Seated(seats)| == 2 * |seats|
    ensures Seated(seats)[2 * i] == seats[i].p && Seated(seats)[2 * i + 1] == seats[i].q
  {
    SeatedLength(seats[..|seats| - 1]);
    if i < |seats| - 1 {
      SeatedAt(seats[..|seats| - 1], i);
    }
  }

  lemma SeatOf(seats: seq<Seat>, p: PlayerId) returns (t: Seat)
    requires p in Seated(seats)
    ensures t in seats && (t.p == p || t.q == p)
  {
    SeatedLength(seats);
    var i :| 0 <= i < |Seated(seats)| && Seated(seats)[i] == p;
    SeatedAt(seats, i / 2);
    t := seats[i / 2];
  }

  /** Two places at the tables taken by one player are one place. */
  lemma {:induction false} OnePlace(seats: seq<Seat>, t: Seat, u: Seat)
    requires Distinct(Seated(seats)) && t in seats && u in seats
    ensures t.p != t.q
    ensures t.p == u.p || t.q == u.q ==> t == u
    ensures t.p != u.q
  {
    var i, j :| 0 <= i < |seats| && seats[i] == t && 0 <= j < |seats| && seats[j] == u;
    SeatedAt(seats, i);
    SeatedAt(seats, j);
  }

  /** There is one new row for each seat, with an empty journal. */
  lemma {:induction false} NewMatchesAre(league: LeagueId, id: SessionId, seats: seq<Seat>)
    ensures NewMatches(league, id, seats).Keys == NewJournal(seats).Keys == set t | t in seats :: t.id
    ensures forall m | m in NewJournal(seats) :: NewJournal(seats)[m] == []
    ensures DistinctSeats(seats) ==> forall t | t in seats ::
              NewMatches(league, id, seats)[t.id] == NewMatch(league, id, t.p, t.q)
  {
    if seats != [] {
      var front, last := seats[..|seats| - 1], seats[|seats| - 1];
      NewMatchesAre(league, id, front);
      assert forall t :: t in seats <==> t in front || t == last;
    }
  }

  /** The seats of a session that is matchmade, and nothing else, appear. */
  lemma SeatsAfter(db: Db, id: SessionId, seats: seq<Seat>, m: MatchId, k: nat, s: SessionId, p: PlayerId)
    requires CanMatchMake(db, id, seats)
    ensures Sits(AfterMatchMake(db, id, seats), m, k, s, p) <==>
            Sits(db, m, k, s, p) ||
            (s == id && exists t | t in seats :: t.id == m && ((k == 0 && p == t.p) || (k == 1 && p == t.q)))
  {
    NewMatchesAre(db.pending[id].league, id, seats);
    if t :| t in seats && t.id == m {
      assert NewMatches(db.pending[id].league, id, seats)[m] == NewMatch(db.pending[id].league, id, t.p, t.q);
    }
  }

  /** What matchmaking does to the session at hand. */
  lemma {:induction false} MatchMakeSeatsAll(db: Db, id: SessionId, seats: seq<Seat>)
    requires Inv(db) && CanMatchMake(db, id, seats)
    ensures var d := AfterMatchMake(db, id, seats);
      && d.sessions[id] == db.sessions[id].(players := KickOdd(db.sessions[id].players))
      && Distinct(Seated(seats))
      && (forall p :: p in d.sessions[id].players <==> p in Seated(seats))
      && (forall p | p in d.sessions[id].players :: HasSeat(d, id, p))
  {
    var d := AfterMatchMake(db, id, seats);
    assert GoodSession(db.sessions[id]);
    DistinctRearranged(KickOdd(db.sessions[id].players), Seated(seats));
    forall p | p in d.sessions[id].players ensures HasSeat(d, id, p) {
      var t := SeatOf(seats, p);
      SeatsAfter(db, id, seats, t.id, 0, id, p);
      SeatsAfter(db, id, seats, t.id, 1, id, p);
      assert Sits(d, t.id, 0, id, p) || Sits(d, t.id, 1, id, p);
    }
  }

  lemma {:induction false} MatchMakeOneSeat(db: Db, id: SessionId, seats: seq<Seat>)
    requires OneSeat(db) && CanMatchMake(db, id, seats) && !Matched(db, id) && Distinct(Seated(seats))
    ensures OneSeat(AfterMatchMake(db, id, seats))
  {
    var d := AfterMatchMake(db, id, seats);
    forall m: MatchId, n: MatchId, j: nat, k: nat, s: SessionId, p: PlayerId
      | Sits(d, m, j, s, p) && Sits(d, n, k, s, p)
      ensures m == n && j == k
    {
      SeatsAfter(db, id, seats, m, j, s, p);
      SeatsAfter(db, id, seats, n, k, s, p);
      if s == id {
        assert !Sits(db, m, j, s, p) && !Sits(db, n, k, s, p);
        var t :| t in seats && t.id == m && ((j == 0 && p == t.p) || (j == 1 && p == t.q));
        var u :| u in seats && u.id == n && ((k == 0 && p == u.p) || (k == 1 && p == u.q));
        OnePlace(seats, t, u);
        OnePlace(seats, u, t);
      }
    }
  }

  lemma MatchMakeRecorded(db: Db, id: SessionId, seats: seq<Seat>)
    requires Recorded(db) && CanMatchMake(db, id, seats)
    ensures Recorded(AfterMatchMake(db, id, seats))
  {
    NewMatchesAre(db.pending[id].league, id, seats);
    var d := AfterMatchMake(db, id, seats);
    forall m | m in d.matches ensures Explains(d.journal[m], d.matches[m], d.clock) {
      if m in db.matches {
        assert Explains(db.journal[m], db.matches[m], db.clock);
      }
    }
  }

  lemma OldMatchPlaced(db: Db, id: SessionId, seats: seq<Seat>, m: MatchId)
    requires MatchesPlaced(db) && CanMatchMake(db, id, seats) && !Matched(db, id) && m in db.matches
    ensures Placed(AfterMatchMake(db, id, seats), AfterMatchMake(db, id, seats).matches[m])
  {
    NewMatchesAre(db.pending[id].league, id, seats);
    assert Placed(db, db.matches[m]) && db.matches[m].session != id;
    assert AfterMatchMake(db, id, seats).matches[m] == db.matches[m];
  }

  lemma {:induction false} SeatsAreOfPlayers(seats: seq<Seat>, t: Seat, players: seq<PlayerId>)
    requires t in seats && multiset(Seated(seats)) == multiset(players)
    ensures t.p in players && t.q in players
  {
    var i :| 0 <= i < |seats| && seats[i] == t;
    SeatedAt(seats, i);
    assert t.p in multiset(Seated(seats)) && t.q in multiset(Seated(seats));
    assert t.p in multiset(players) && t.q in multiset(players);
  }

  lemma NewMatchPlaced(db: Db, id: SessionId, seats: seq<Seat>, t: Seat)
    requires id in db.pending && DistinctSeats(seats) && db.pending[id].status.Preparing?
    requires t.p in KickOdd(db.pending[id].players) && t.q in KickOdd(db.pending[id].players)
    ensures Placed(AfterMatchMake(db, id, seats), NewMatch(db.pending[id].league, id, t.p, t.q))
  {
  }

  lemma MatchMakePlaced(db: Db, id: SessionId, seats: seq<Seat>)
    requires MatchesPlaced(db) && PendingFresh(db) && CanMatchMake(db, id, seats)
    ensures MatchesPlaced(AfterMatchMake(db, id, seats))
  {
    NewMatchesAre(db.pending[id].league, id, seats);
    var d := AfterMatchMake(db, id, seats);
    forall m | m in d.matches ensures Placed(d, d.matches[m]) {
      if m in db.matches {
        OldMatchPlaced(db, id, seats, m);
      } else {
        var t :| t in seats && t.id == m;
        SeatsAreOfPlayers(seats, t, KickOdd(db.pending[id].players));
        NewMatchPlaced(db, id, seats, t);
      }
    }
  }

  lemma MatchMakeKeepsEnded(db: Db, id: SessionId, seats: seq<Seat>, s: SessionId, p: PlayerId)
    requires CanMatchMake(db, id, seats)
    requires EndedIn(db, s, p)
    ensures EndedIn(AfterMatchMake(db, id, seats), s, p)
  {
    NewMatchesAre(db.pending[id].league, id, seats);
    var d := AfterMatchMake(db, id, seats);
    var m: MatchId, k: nat :| Sits(db, m, k, s, p) && db.matches[m].entries[k].HasEnded();
    assert d.matches[m] == db.matches[m];
    assert Sits(d, m, k, s, p);
  }

  lemma MatchMakeCommitments(db: Db, id: SessionId, seats: seq<Seat>)
    requires OneCommitment(db) && PendingFresh(db) && CanMatchMake(db, id, seats)
    ensures OneCommitment(AfterMatchMake(db, id, seats))
  {
    var d := AfterMatchMake(db, id, seats);
    forall s: SessionId, p: PlayerId | EndedIn(db, s, p) ensures EndedIn(d, s, p) {
      MatchMakeKeepsEnded(db, id, seats, s, p);
    }
    forall s, p | Live(d, s, p) ensures Live(db, s, p) {}
  }

  lemma MatchMakeMatches(db: Db, id: SessionId, seats: seq<Seat>, s: SessionId)
    requires CanMatchMake(db, id, seats)
    ensures Matched(AfterMatchMake(db, id, seats), s) ==> s == id || Matched(db, s)
  {
    NewMatchesAre(db.pending[id].league, id, seats);
  }

  lemma MatchMakeAllSeated(db: Db, id: SessionId, seats: seq<Seat>)
    requires AllSeated(db) && CanMatchMake(db, id, seats)
    requires forall p | p in AfterMatchMake(db, id, seats).sessions[id].players ::
              HasSeat(AfterMatchMake(db, id, seats), id, p)
    ensures AllSeated(AfterMatchMake(db, id, seats))
  {
    var d := AfterMatchMake(db, id, seats);
    forall s, p | s in d.sessions && Matched(d, s) && p in d.sessions[s].players ensures HasSeat(d, s, p) {
      if s != id {
        MatchMakeMatches(db, id, seats, s);
        assert HasSeat(db, s, p);
        var m: MatchId, k: nat :| Sits(db, m, k, s, p);
        SeatsAfter(db, id, seats, m, k, s, p);
      }
    }
  }

  lemma MatchMakePending(db: Db, id: SessionId, seats: seq<Seat>)
    requires PendingFresh(db) && CanMatchMake(db, id, seats)
    ensures PendingFresh(AfterMatchMake(db, id, seats))
  {
    var d := AfterMatchMake(db, id, seats);
    forall s | s in d.pending ensures !Matched(d, s) {
      MatchMakeMatches(db, id, seats, s);
    }
  }

  lemma MatchMakeCounting(db: Db, id: SessionId, seats: seq<Seat>)
    requires CountingFresh(db) && id in db.pending
    ensures CountingFresh(AfterMatchMake(db, id, seats))
  {
  }

  lemma MatchMakeSessions(db: Db, id: SessionId, seats: seq<Seat>)
    requires SessionsGood(db) && OneSlot(db) && PendingFresh(db) && id in db.pending && DistinctSeats(seats)
    ensures SessionsGood(AfterMatchMake(db, id, seats)) && OneSlot(AfterMatchMake(db, id, seats))
  {
    assert GoodSession(db.sessions[id]);
  }

  lemma MatchMakeKeepsInv(db: Db, id: SessionId, seats: seq<Seat>)
    requires Inv(db) && CanMatchMake(db, id, seats)
    ensures Inv(AfterMatchMake(db, id, seats))
  {
    assert db.sessions[id] == db.pending[id] && !Matched(db, id);
    MatchMakeSeatsAll(db, id, seats);
    MatchMakeSessions(db, id, seats);
    MatchMakeRecorded(db, id, seats);
    MatchMakePlaced(db, id, seats);
    MatchMakeOneSeat(db, id, seats);
    MatchMakeCommitments(db, id, seats);
    MatchMakeAllSeated(db, id, seats);
    MatchMakePending(db, id, seats);
    MatchMakeCounting(db, id, seats);
  }

  // ------------------------------------------------------------ every action

  lemma DaemonKeepsInv(db: Db, a: Action)
    requires Inv(db) && Enabled(db, a)
    requires a.Create? || a.MakeJoinable? || a.Prepare? || a.DropPending? || a.CloseSessions?
          || a.BeginCountdown? || a.Restart?
    ensures Inv(Do(db, a))
  {
    match a
    case Create(id, league, startDate) => CreateKeepsInv(db, id, league, startDate);
    case MakeJoinable(now) => MakeJoinableKeepsInv(db, now);
    case Prepare(now) => PrepareKeepsInv(db, now);
    case DropPending => DropPendingKeepsInv(db);
    case CloseSessions(now) => CloseKeepsInv(db, now);
    case BeginCountdown(id, now) => BeginCountdownKeepsInv(db, id, now);
    case Restart => AsideKeepsInv(db, map[], map[], db.clock);
  }

  lemma WriteSeedIsIdle(db: Db, m: MatchId)
    requires m in db.matches
    ensures AfterWriteSeed(db, m) == db <==> db.matches[m].startedAt.None? && db.matches[m].endedAt.None?
  {
    assert AfterWriteSeed(db, m).matches[m] == db.matches[m].(startedAt := None, endedAt := None);
    if db.matches[m].startedAt.None? && db.matches[m].endedAt.None? {
      assert AfterWriteSeed(db, m).matches == db.matches;
    }
  }

  lemma RaceKeepsInv(db: Db, a: Action)
    requires Inv(db) && Enabled(db, a)
    requires a.MatchMake? || a.EndRace? || a.WriteSeed?
    ensures Inv(Do(db, a))
  {
    match a
    case MatchMake(id, seats) => MatchMakeKeepsInv(db, id, seats);
    case EndRace(id, p, m, k, forfeit, now) => EndKeepsInv(db, id, p, m, k, forfeit, now);
    case WriteSeed(m) => WriteSeedIsIdle(db, m);
  }

  lemma StartsKeepInv(db: Db, a: Action)
    requires Inv(db) && Enabled(db, a)
    requires a.StartSession? || a.EndCountdown?
    ensures Inv(Do(db, a))
  {
    match a
    case StartSession(id, now) => StartKeepsInv(db, id, now);
    case EndCountdown(id, now) => EndCountdownKeepsInv(db, id, now);
  }

  lemma PlayersKeepInv(db: Db, a: Action)
    requires Inv(db) && Enabled(db, a)
    requires a.Join? || a.Cancel?
    ensures Inv(Do(db, a))
  {
    match a
    case Join(id, p, now) => JoinKeepsInv(db, id, p, now);
    case Cancel(id, p, now) => CancelKeepsInv(db, id, p, now);
  }

  /** Every transaction keeps the invariant, whatever chance and SQL choose. */
  lemma StepKeepsInv(db: Db, a: Action)
    requires Inv(db) && Enabled(db, a)
    ensures Inv(Do(db, a))
  {
    if a.Join? || a.Cancel? {
      PlayersKeepInv(db, a);
    } else if a.StartSession? || a.EndCountdown? {
      StartsKeepInv(db, a);
    } else if a.MatchMake? || a.EndRace? || a.WriteSeed? {
      RaceKeepsInv(db, a);
    } else {
      DaemonKeepsInv(db, a);
    }
  }
}

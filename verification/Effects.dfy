/** What each transaction does to the rows, field by field. */
module Effects {
  import opened Rows
  import opened Sequences
  import opened MatchHistory
  import opened Lifecycle
  import opened LifecycleInvariant
  import opened LifecycleMatchSteps

  // ------------------------------------------------- who may join and end

  /** The player has an entry in a match of the session that has ended. */
  ghost predicate HasEndedIn(db: Db, s: SessionId, p: PlayerId) {
    exists m: MatchId, k: nat :: Sits(db, m, k, s, p) && db.matches[m].entries[k].endedAt.Some?
  }

  /** The player is listed in a session under way, and has not ended in it. */
  ghost predicate IsBusy(db: Db, s: SessionId, p: PlayerId) {
    && s in db.sessions && p in db.sessions[s].players && !HasEndedIn(db, s, p)
    && (db.sessions[s].status.Joinable? || db.sessions[s].status.Preparing? || db.sessions[s].status.InProgress?)
  }

  /** What is stored of a seat. */
  lemma SeatIsSound(db: Db, m: MatchId, k: nat, s: SessionId, p: PlayerId)
    requires Recorded(db) && Sits(db, m, k, s, p)
    ensures k < 2 && (db.matches[m].entries[k].HasEnded() <==> db.matches[m].entries[k].endedAt.Some?)
  {
    ExplainedIsSound(db.journal[m], db.matches[m], db.clock);
  }

  lemma EndedIsEnded(db: Db, s: SessionId, p: PlayerId)
    requires Recorded(db)
    ensures HasEndedIn(db, s, p) <==> EndedIn(db, s, p)
  {
    if HasEndedIn(db, s, p) {
      var m: MatchId, k: nat :| Sits(db, m, k, s, p) && db.matches[m].entries[k].endedAt.Some?;
      SeatIsSound(db, m, k, s, p);
    }
    if EndedIn(db, s, p) {
      var m: MatchId, k: nat :| Sits(db, m, k, s, p) && db.matches[m].entries[k].HasEnded();
      SeatIsSound(db, m, k, s, p);
    }
  }

  lemma BusyIsLive(db: Db, s: SessionId, p: PlayerId)
    requires Recorded(db)
    ensures IsBusy(db, s, p) <==> Live(db, s, p)
  {
    EndedIsEnded(db, s, p);
  }

  /** Whoever is not busy may join a session that does not list them. */
  ghost predicate MayJoin(db: Db, id: SessionId, p: PlayerId) {
    id in db.sessions && p !in db.sessions[id].players && forall s: SessionId :: !IsBusy(db, s, p)
  }

  lemma JoinGuard(db: Db, id: SessionId, p: PlayerId)
    requires Inv(db)
    ensures CanJoinUnchecked(db, id, p) <==> MayJoin(db, id, p)
  {
    forall s: SessionId ensures IsBusy(db, s, p) <==> Live(db, s, p) {
      BusyIsLive(db, s, p);
    }
    ActiveIsTheLiveOne(db, p, id);
  }

  /** Side `k` of match `m` is the player's and can be ended: its session is in
      preparation or in progress, it has not ended, and to be completed it must
      have started. */
  ghost predicate MayEnd(db: Db, id: SessionId, p: PlayerId, m: MatchId, k: nat, forfeit: bool) {
    && Sits(db, m, k, id, p) && id in db.sessions
    && (db.sessions[id].status.Preparing? || db.sessions[id].status.InProgress?)
    && db.matches[m].entries[k].endedAt == None
    && (!forfeit ==> db.matches[m].entries[k].status == EntryStatus.InProgress)
  }

  lemma EndGuard(db: Db, id: SessionId, p: PlayerId, m: MatchId, k: nat, forfeit: bool, now: Time)
    requires Inv(db)
    ensures CanEnd(db, id, p, m, k, forfeit, now) <==> MayEnd(db, id, p, m, k, forfeit)
  {
    if Sits(db, m, k, id, p) {
      ActiveIsTheLiveOne(db, p, id);
      SeatIsSound(db, m, k, id, p);
      SeatIsPlaced(db, m, k, id, p);
      OnlyItsSeat(db, id, p, m, k);
    }
  }

  lemma NobodyMayEnd(db: Db, p: PlayerId, forfeit: bool, now: Time)
    requires Inv(db) && forall s, n, j :: !CanEnd(db, s, p, n, j, forfeit, now)
    ensures forall s, n, j :: !MayEnd(db, s, p, n, j, forfeit)
  {
    forall s, n, j ensures !MayEnd(db, s, p, n, j, forfeit) {
      EndGuard(db, s, p, n, j, forfeit, now);
    }
  }

  lemma SeatIsPlaced(db: Db, m: MatchId, k: nat, s: SessionId, p: PlayerId)
    requires MatchesPlaced(db) && Sits(db, m, k, s, p)
    ensures s in db.sessions && p in db.sessions[s].players
  {
    assert Placed(db, db.matches[m]);
  }

  lemma OnlyItsSeat(db: Db, s: SessionId, p: PlayerId, m: MatchId, k: nat)
    requires OneSeat(db) && Sits(db, m, k, s, p)
    ensures EndedIn(db, s, p) <==> db.matches[m].entries[k].HasEnded()
  {
  }

  // ---------------------------------------------------------- ends of races

  /** Side `k` gave up at `now`: against another who gave up it is a draw,
      otherwise the opponent wins. */
  ghost predicate HasForfeited(x: Match, y: Match, k: nat, now: Time)
    requires |x.entries| == 2 && |y.entries| == 2 && k < 2
  {
    var o := 1 - k;
    var draw := x.entries[o].status.Forfeit?;
    && y.entries[k].status == EntryStatus.Forfeit && y.entries[k].endedAt == Some(now)
    && y.entries[k].outcome == (if draw then Draw else Loss)
    && y.entries[o].outcome == (if draw then Draw else Win)
  }

  /** Side `k` finished at `now`: it loses to another who had finished, and wins
      otherwise. */
  ghost predicate HasFinished(x: Match, y: Match, k: nat, now: Time)
    requires |x.entries| == 2 && |y.entries| == 2 && k < 2
  {
    var o := 1 - k;
    var late := x.entries[o].status.Finished?;
    && y.entries[k].status == EntryStatus.Finished && y.entries[k].endedAt == Some(now)
    && y.entries[k].outcome == (if late then Loss else Win)
    && y.entries[o].outcome == (if late then Win else Loss)
  }

  /** Nothing else of the match changes, but its end date when both sides have
      now ended. */
  ghost predicate OtherwiseSame(x: Match, y: Match, k: nat, now: Time)
    requires |x.entries| == 2 && |y.entries| == 2 && k < 2
  {
    var o := 1 - k;
    && y.league == x.league && y.session == x.session && y.startedAt == x.startedAt
    && y.endedAt == (if x.entries[o].endedAt.Some? then Some(now) else x.endedAt)
    && y.entries[k].player == x.entries[k].player && y.entries[k].startedAt == x.entries[k].startedAt
    && y.entries[o].player == x.entries[o].player && y.entries[o].startedAt == x.entries[o].startedAt
    && y.entries[o].status == x.entries[o].status && y.entries[o].endedAt == x.entries[o].endedAt
  }

  /** Only match `m` changes, and time passes. */
  ghost predicate OnlyMatch(db: Db, d: Db, m: MatchId, now: Time) {
    && m in d.matches && d.matches == db.matches[m := d.matches[m]]
    && d.sessions == db.sessions && d.pending == db.pending && d.counting == db.counting && d.clock == now
  }

  lemma ForfeitedRows(x: Match, k: nat, now: Time)
    requires Sound(x) && k < 2 && Legal(x, Event.Forfeit(k, now))
    ensures var y := Apply(x, Event.Forfeit(k, now));
      HasForfeited(x, y, k, now) && OtherwiseSame(x, y, k, now)
  {
  }

  lemma FinishedRows(x: Match, k: nat, now: Time)
    requires Sound(x) && k < 2 && Legal(x, Complete(k, now))
    ensures var y := Apply(x, Complete(k, now));
      HasFinished(x, y, k, now) && OtherwiseSame(x, y, k, now)
  {
  }

  lemma EndedRow(x: Match, k: nat, forfeit: bool, now: Time)
    requires Sound(x) && k < 2 && Legal(x, EndEvent(k, forfeit, now))
    ensures var y := Apply(x, EndEvent(k, forfeit, now));
      && OtherwiseSame(x, y, k, now)
      && (forfeit ==> HasForfeited(x, y, k, now))
      && (!forfeit ==> HasFinished(x, y, k, now))
  {
    if forfeit {
      ForfeitedRows(x, k, now);
    } else {
      FinishedRows(x, k, now);
    }
  }

  /** What a player's forfeit or completion does. */
  lemma EndedRows(db: Db, id: SessionId, p: PlayerId, m: MatchId, k: nat, forfeit: bool, now: Time)
    requires Inv(db) && CanEnd(db, id, p, m, k, forfeit, now)
    ensures k < 2 && |db.matches[m].entries| == 2
    ensures var d := AfterEvent(db, m, EndEvent(k, forfeit, now));
      && OnlyMatch(db, d, m, now)
      && |d.matches[m].entries| == 2 && OtherwiseSame(db.matches[m], d.matches[m], k, now)
      && (forfeit ==> HasForfeited(db.matches[m], d.matches[m], k, now))
      && (!forfeit ==> HasFinished(db.matches[m], d.matches[m], k, now))
  {
    EndIsLegal(db, id, p, m, k, forfeit, now);
    ExplainedIsSound(db.journal[m], db.matches[m], db.clock);
    EndedRow(db.matches[m], k, forfeit, now);
  }

  // ------------------------------------------------------------- daemon ticks

  /** Sessions are added, that wait and list nobody. */
  ghost predicate CreatesOnly(before: map<SessionId, Session>, after: map<SessionId, Session>) {
    && (forall s | s in before :: s in after && after[s] == before[s])
    && (forall s | s in after && s !in before :: after[s].status == SessionStatus.Waiting && after[s].players == [])
  }

  /** The tables of matches stay, each session at most changes its status, and
      time passes. */
  ghost predicate OnlyStatuses(db: Db, d: Db, now: Time) {
    && d.matches == db.matches && d.journal == db.journal && d.counting == db.counting && d.clock == now
    && d.sessions.Keys == db.sessions.Keys
    && forall s | s in db.sessions :: d.sessions[s] == db.sessions[s].(status := d.sessions[s].status)
  }

  /** A waiting session opens from one hour to a quarter of an hour before its
      start. */
  predicate Opens(x: Session, now: Time) {
    x.status.Waiting? && x.startDate - 60 * 60 <= now < x.startDate - 15 * 60
  }

  /** A joinable session is due from a quarter of an hour before its start. */
  predicate Prepares(x: Session, now: Time) {
    x.status.Joinable? && x.startDate - 15 * 60 <= now < x.startDate
  }

  /** A session that has started is over when all its matches have ended. */
  ghost predicate IsOver(db: Db, s: SessionId, now: Time)
    requires s in db.sessions
  {
    && db.sessions[s].startDate < now
    && forall m | m in db.matches && db.matches[m].session == s :: db.matches[m].endedAt.Some?
  }

  /** A tick that opens what is to be opened, and leaves nothing behind. */
  ghost predicate OpensAll(db: Db, d: Db, now: Time) {
    && OnlyStatuses(db, d, now) && d.pending == db.pending
    && (forall s | s in db.sessions ::
          d.sessions[s].status == if Opens(db.sessions[s], now) then SessionStatus.Joinable else db.sessions[s].status)
    && (forall s | s in d.sessions :: !Opens(d.sessions[s], now))
  }

  /** A tick that prepares what is due, or closes it for want of players, and
      carries on the rows it prepared. */
  ghost predicate PreparesAll(db: Db, d: Db, now: Time) {
    && OnlyStatuses(db, d, now)
    && (forall s | s in db.sessions ::
          d.sessions[s].status ==
            if !Prepares(db.sessions[s], now) then db.sessions[s].status
            else if |db.sessions[s].players| < 2 then SessionStatus.Closed
            else SessionStatus.Preparing)
    && (forall s :: s in d.pending <==>
          s in db.sessions && Prepares(db.sessions[s], now) && |db.sessions[s].players| >= 2)
    && (forall s | s in d.pending :: d.pending[s] == d.sessions[s])
    && (forall s | s in d.sessions :: !Prepares(d.sessions[s], now))
  }

  /** A tick that closes what is over; a session it leaves open past its start
      has a match that goes on. */
  ghost predicate ClosesAll(db: Db, d: Db, now: Time) {
    && OnlyStatuses(db, d, now) && d.pending == db.pending
    && (forall s | s in db.sessions ::
          d.sessions[s].status == if IsOver(db, s, now) then SessionStatus.Closed else db.sessions[s].status)
    && (forall s | s in d.sessions && d.sessions[s].startDate < now && !d.sessions[s].status.Closed? ::
          exists m | m in d.matches :: d.matches[m].session == s && d.matches[m].endedAt.None?)
  }

  lemma OpenedRows(db: Db, now: Time)
    ensures OpensAll(db, AfterMakeJoinable(db, now), now)
  {
  }

  lemma PreparedRows(db: Db, now: Time)
    ensures PreparesAll(db, AfterPrepare(db, now), now)
  {
  }

  lemma ClosedRows(db: Db, now: Time)
    ensures ClosesAll(db, AfterClose(db, now), now)
  {
  }

  // --------------------------------------------------------- joins and leaves

  /** Only session `id` changes, in its list of players, and time passes. */
  ghost predicate OnlyList(db: Db, d: Db, id: SessionId, now: Time) {
    && id in db.sessions && id in d.sessions
    && d.sessions == db.sessions[id := db.sessions[id].(players := d.sessions[id].players)]
    && d.matches == db.matches && d.journal == db.journal
    && d.pending == db.pending && d.counting == db.counting && d.clock == now
  }

  /** A joinable session of the league that is still to start. */
  predicate IsOpenFor(x: Session, league: LeagueId, now: Time) {
    x.league == league && x.status == SessionStatus.Joinable && x.startDate > now
  }

  /** The player is listed last, and the session is what commits them. */
  lemma JoinedRow(db: Db, id: SessionId, p: PlayerId, now: Time)
    requires Inv(db) && CanJoinUnchecked(db, id, p)
    ensures var d := AfterJoin(db, id, p, now);
      && OnlyList(db, d, id, now) && d.sessions[id].players == db.sessions[id].players + [p]
      && (db.sessions[id].status.Joinable? ==> forall t: SessionId :: Live(d, t, p) <==> t == id)
  {
    var d := AfterJoin(db, id, p, now);
    SameSeats(db, d);
    if db.sessions[id].status.Joinable? {
      NobodyEndedYet(db, id, p);
      forall t: SessionId ensures Live(d, t, p) <==> t == id {
        assert !Live(db, t, p);
      }
    }
  }

  lemma NobodyEndedYet(db: Db, id: SessionId, p: PlayerId)
    requires MatchesPlaced(db) && id in db.sessions && db.sessions[id].status.Joinable?
    ensures !EndedIn(db, id, p)
  {
  }

  lemma {:induction false} WithoutOne(players: seq<PlayerId>, p: PlayerId) returns (i: nat)
    requires Distinct(players) && p in players
    ensures i < |players| && players[i] == p && Without(players, p) == players[..i] + players[i + 1..]
  {
    if players[0] == p {
      i := 0;
      WithoutNone(players[1..], p);
    } else {
      i := WithoutOne(players[1..], p);
      i := i + 1;
      assert players[..i] == [players[0]] + players[1..][..i - 1];
    }
  }

  lemma {:induction false} WithoutNone(players: seq<PlayerId>, p: PlayerId)
    requires p !in players
    ensures Without(players, p) == players
  {
    if players != [] {
      WithoutNone(players[1..], p);
    }
  }

  /** The session commits the player, and is joinable until a quarter of an hour
      before its start. */
  ghost predicate MayLeave(db: Db, id: SessionId, p: PlayerId, now: Time) {
    Live(db, id, p) && db.sessions[id].status == SessionStatus.Joinable && now <= db.sessions[id].startDate - 15 * 60
  }

  lemma LeavesActiveOnly(db: Db, id: SessionId, p: PlayerId, now: Time)
    requires Inv(db) && Live(db, id, p)
    ensures (exists s: SessionId :: MayLeave(db, s, p, now)) <==> db.sessions[id].CanCancel(now)
  {
    if db.sessions[id].CanCancel(now) {
      assert MayLeave(db, id, p, now);
    }
  }

  /** The player leaves their place, and all others keep theirs. */
  ghost predicate LeavesPlace(x: Session, y: Session, p: PlayerId) {
    exists i | 0 <= i < |x.players| :: x.players[i] == p && y.players == x.players[..i] + x.players[i + 1..]
  }

  /** After a cancellation no session commits the player any more. */
  lemma CancelledRow(db: Db, id: SessionId, p: PlayerId, now: Time)
    requires Inv(db) && CanCancel(db, id, p, now)
    ensures var d := AfterCancel(db, id, p, now);
      && OnlyList(db, d, id, now) && LeavesPlace(db.sessions[id], d.sessions[id], p)
      && forall t: SessionId :: !Live(d, t, p)
  {
    ActiveIsTheLiveOne(db, p, id);
    assert GoodSession(db.sessions[id]);
    var i := WithoutOne(db.sessions[id].players, p);
    var d := AfterCancel(db, id, p, now);
    SameSeats(db, d);
    WithoutIsSublist(db.sessions[id].players, p);
    forall t: SessionId ensures !Live(d, t, p) {
      assert t != id ==> !Live(db, t, p);
    }
  }

  // ------------------------------------------------------------------- starts

  /** In preparation, and to start in a minute and a half at most. */
  predicate IsDue(x: Session, now: Time) {
    x.status.Preparing? && x.startDate - 90 <= now
  }

  /** A match at the start of its session: it and the entries that wait start at
      `now`, an entry that was forfeited stays. */
  ghost predicate Starts(x: Match, y: Match, now: Time) {
    && |x.entries| == |y.entries| == 2
    && y.startedAt == Some(now)
    && y.league == x.league && y.session == x.session && y.endedAt == x.endedAt
    && forall k | 0 <= k < 2 ::
         y.entries[k] ==
           if x.entries[k].status.Waiting?
           then x.entries[k].(status := EntryStatus.InProgress, startedAt := Some(now))
           else x.entries[k]
  }

  /** Only the matches of session `id` without a start date start, and the
      session is in progress. */
  ghost predicate StartsSession(db: Db, d: Db, id: SessionId, now: Time) {
    && id in db.sessions && id in d.sessions
    && d.sessions == db.sessions[id := db.sessions[id].(status := SessionStatus.InProgress)]
    && d.matches.Keys == db.matches.Keys && d.clock == now
    && forall m | m in db.matches ::
         if db.matches[m].session == id && db.matches[m].startedAt.None?
         then Starts(db.matches[m], d.matches[m], now)
         else d.matches[m] == db.matches[m]
  }

  lemma StartedRows(db: Db, id: SessionId, now: Time)
    requires id in db.sessions && db.journal.Keys == db.matches.Keys
    requires forall m | m in db.matches :: |db.matches[m].entries| == 2
    ensures StartsSession(db, AfterStart(db, id, now), id, now)
  {
  }

  lemma CountedDownRows(db: Db, id: SessionId, now: Time)
    requires CountingFresh(db) && CountedDown(db, id, now) && db.journal.Keys == db.matches.Keys
    requires forall m | m in db.matches :: |db.matches[m].entries| == 2
    ensures StartsSession(db, AfterEndCountdown(db, id, now), id, now)
  {
    StartedRows(db, id, now);
  }

  /** All that is due is in progress, but for some that are still to be started;
      the others stay. */
  ghost predicate StartsDue(before: map<SessionId, Session>, after: map<SessionId, Session>, now: Time,
                            todo: set<SessionId>)
  {
    && after.Keys == before.Keys
    && forall s | s in before ::
         after[s] == if IsDue(before[s], now) && s !in todo
                     then before[s].(status := SessionStatus.InProgress) else before[s]
  }

  lemma StartsOneMore(before: map<SessionId, Session>, after: map<SessionId, Session>, now: Time,
                      todo: set<SessionId>, s: SessionId)
    requires StartsDue(before, after, now, todo) && s in todo && s in before && IsDue(before[s], now)
    ensures StartsDue(before, after[s := after[s].(status := SessionStatus.InProgress)], now, todo - {s})
  {
  }

  /** Countdowns go on, and begin for sessions that are due only. */
  ghost predicate CountsDue(sessions: map<SessionId, Session>, before: map<SessionId, Session>,
                            after: map<SessionId, Session>, now: Time)
  {
    && (forall s | s in before :: s in after && after[s] == before[s])
    && (forall s | s in after && s !in before :: s in sessions && IsDue(sessions[s], now) && after[s] == sessions[s])
  }

  lemma CountsOn(sessions: map<SessionId, Session>, a: map<SessionId, Session>, b: map<SessionId, Session>,
                 c: map<SessionId, Session>, now: Time)
    requires CountsDue(sessions, a, b, now) && CountsDue(sessions, b, c, now)
    ensures CountsDue(sessions, a, c, now)
  {
  }

  // -------------------------------------------------------------- matchmaking

  /** A match as it is created: nothing has happened yet. */
  ghost predicate IsNew(x: Match, league: LeagueId, id: SessionId, t: Seat) {
    && x.league == league && x.session == id && x.startedAt == None && x.endedAt == None
    && |x.entries| == 2 && x.entries[0].player == t.p && x.entries[1].player == t.q
    && forall k | 0 <= k < 2 ::
         && x.entries[k].status == EntryStatus.Waiting && x.entries[k].outcome == Draw
         && x.entries[k].startedAt == None && x.entries[k].endedAt == None
  }

  /** An odd list less its last player. */
  function LessTheOdd(players: seq<PlayerId>): seq<PlayerId> {
    players[..|players| - |players| % 2]
  }

  /** An odd list loses its last player, each seat makes one new match of the
      session's league, and the other rows stay. */
  ghost predicate MatchMakes(db: Db, d: Db, id: SessionId, seats: seq<Seat>) {
    && id in db.sessions
    && d.sessions == db.sessions[id := db.sessions[id].(players := LessTheOdd(db.sessions[id].players))]
    && (forall m | m in db.matches :: m in d.matches && d.matches[m] == db.matches[m])
    && (forall m :: m in d.matches <==> m in db.matches || exists t | t in seats :: t.id == m)
    && (forall t | t in seats ::
          t.id !in db.matches && t.id in d.matches && IsNew(d.matches[t.id], db.sessions[id].league, id, t))
  }

  lemma NewRows(db: Db, id: SessionId, seats: seq<Seat>)
    requires CanMatchMake(db, id, seats)
    ensures var d := AfterMatchMake(db, id, seats);
      && (forall m | m in db.matches :: m in d.matches && d.matches[m] == db.matches[m])
      && (forall m :: m in d.matches <==> m in db.matches || exists t | t in seats :: t.id == m)
      && (forall t | t in seats :: d.matches[t.id] == NewMatch(db.pending[id].league, id, t.p, t.q))
  {
    NewMatchesAre(db.pending[id].league, id, seats);
  }

  lemma LessTheOddIsKick(players: seq<PlayerId>)
    ensures LessTheOdd(players) == KickOdd(players)
  {
    assert players[..|players|] == players;
  }

  lemma MatchMadeRows(db: Db, id: SessionId, seats: seq<Seat>)
    requires PendingFresh(db) && CanMatchMake(db, id, seats)
    ensures MatchMakes(db, AfterMatchMake(db, id, seats), id, seats)
  {
    NewRows(db, id, seats);
    LessTheOddIsKick(db.sessions[id].players);
  }
}

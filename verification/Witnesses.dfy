/** Runs of the ladder that end where its unchecked assumptions are needed. */
module Witnesses {
  import opened Rows
  import opened MatchHistory
  import opened Lifecycle
  import opened LifecycleInvariant
  import opened LifecycleMatchSteps
  import opened Runs
  import opened Assumptions
  import opened Reopening

  ghost predicate Reachable(db: Db) {
    exists acts :: CanRun(EMPTY_DB, acts) && Run(EMPTY_DB, acts) == db
  }

  lemma EmptyIsReachable()
    ensures Reachable(EMPTY_DB)
  {
    assert CanRun(EMPTY_DB, []) && Run(EMPTY_DB, []) == EMPTY_DB;
  }

  lemma Reach(db: Db, a: Action)
    requires Reachable(db) && Recorded(db) && Enabled(db, a)
    ensures Reachable(Do(db, a))
  {
    var acts: seq<Action> :| CanRun(EMPTY_DB, acts) && Run(EMPTY_DB, acts) == db;
    RunOne(db, a);
    RunOn(EMPTY_DB, acts, [a]);
    assert CanRun(EMPTY_DB, acts + [a]) && Run(EMPTY_DB, acts + [a]) == Do(db, a);
  }

  lemma ReachableIsGood(db: Db)
    requires Reachable(db)
    ensures Inv(db)
  {
    var acts: seq<Action> :| CanRun(EMPTY_DB, acts) && Run(EMPTY_DB, acts) == db;
    EmptyIsGood();
    RunKeepsInv(EMPTY_DB, acts);
  }

  /** Session 0 of league 0, that starts an hour after the epoch. */
  function Slot(status: SessionStatus, players: seq<PlayerId>): Session {
    Session(0, 3600, status, players)
  }

  /** Nothing but that session. */
  function OnlySlot(status: SessionStatus, players: seq<PlayerId>, clock: Time): Db {
    Db(map[0 := Slot(status, players)], map[], map[], map[], map[], clock)
  }

  lemma WaitingIsReachable()
    ensures Reachable(OnlySlot(SessionStatus.Waiting, [], 0))
  {
    EmptyIsReachable();
    Reach(EMPTY_DB, Create(0, 0, 3600));
    assert Do(EMPTY_DB, Create(0, 0, 3600)) == OnlySlot(SessionStatus.Waiting, [], 0);
  }

  /** An unchecked join of a session that is not open yet breaks the invariant. */
  lemma EarlyJoinBreaks() returns (db: Db, p: PlayerId)
    ensures Reachable(db) && 0 in db.sessions && CanJoinUnchecked(db, 0, p)
    ensures !Inv(AfterJoin(db, 0, p, db.clock))
  {
    db, p := OnlySlot(SessionStatus.Waiting, [], 0), 1;
    WaitingIsReachable();
    assert !GoodSession(AfterJoin(db, 0, p, 0).sessions[0]);
  }

  lemma JoinableIsReachable()
    ensures Reachable(OnlySlot(SessionStatus.Joinable, [], 0))
  {
    var db := OnlySlot(SessionStatus.Waiting, [], 0);
    WaitingIsReachable();
    Reach(db, MakeJoinable(0));
    assert Do(db, MakeJoinable(0)).sessions == OnlySlot(SessionStatus.Joinable, [], 0).sessions;
  }

  lemma JoinedIsReachable(players: seq<PlayerId>, p: PlayerId)
    requires Reachable(OnlySlot(SessionStatus.Joinable, players, 0)) && p !in players
    ensures Reachable(OnlySlot(SessionStatus.Joinable, players + [p], 0))
  {
    var db := OnlySlot(SessionStatus.Joinable, players, 0);
    Reach(db, Join(0, p, 0));
    assert Do(db, Join(0, p, 0)).sessions == OnlySlot(SessionStatus.Joinable, players + [p], 0).sessions;
  }

  /** Two players in preparation, carried to matchmaking. */
  function Carried(): Db {
    OnlySlot(SessionStatus.Preparing, [1, 2], 2700).(pending := map[0 := Slot(SessionStatus.Preparing, [1, 2])])
  }

  lemma CarriedIsReachable()
    ensures Reachable(Carried())
  {
    JoinableIsReachable();
    JoinedIsReachable([], 1);
    assert [] + [1] == [1] && [1] + [2] == [1, 2];
    JoinedIsReachable([1], 2);
    PreparedIsCarried();
  }

  lemma PreparedIsCarried()
    requires Reachable(OnlySlot(SessionStatus.Joinable, [1, 2], 0))
    ensures Reachable(Carried())
  {
    var db := OnlySlot(SessionStatus.Joinable, [1, 2], 0);
    assert Prepared(db, 2700) == Carried().pending;
    assert Do(db, Prepare(2700)).sessions == Carried().sessions;
    Reach(db, Prepare(2700));
  }

  // ------------------------------------------------- a countdown of a closed one

  /** The preparing transaction succeeded, the matchmaking one did not. */
  lemma UnmatchedIsReachable()
    ensures Reachable(OnlySlot(SessionStatus.Preparing, [1, 2], 2700))
  {
    CarriedIsReachable();
    Reach(Carried(), DropPending);
    assert Do(Carried(), DropPending) == OnlySlot(SessionStatus.Preparing, [1, 2], 2700);
  }

  function Counted(status: SessionStatus, clock: Time): Db {
    OnlySlot(status, [1, 2], clock).(counting := map[0 := Slot(SessionStatus.Preparing, [1, 2])])
  }

  lemma CountedIsReachable()
    ensures Reachable(Counted(SessionStatus.Preparing, 3510))
  {
    var db, a := OnlySlot(SessionStatus.Preparing, [1, 2], 2700), BeginCountdown(0, 3510);
    UnmatchedIsReachable();
    Reach(db, a);
    assert Do(db, a) == Counted(SessionStatus.Preparing, 3510);
  }

  lemma ClosedIsReachable()
    ensures Reachable(Counted(SessionStatus.Closed, 3601))
  {
    var db, a := Counted(SessionStatus.Preparing, 3510), CloseSessions(3601);
    CountedIsReachable();
    Reach(db, a);
    assert Do(db, a).sessions == Counted(SessionStatus.Closed, 3601).sessions;
  }

  /** A session closed for want of matches is opened again by its countdown. */
  lemma CountdownReopens() returns (db: Db)
    ensures Reachable(db) && Recorded(db) && CountedDown(db, 0, db.clock)
    ensures db.sessions[0].status.Closed? && !SafeStart(db, 0, db.clock)
  {
    db := Counted(SessionStatus.Closed, 3601);
    ClosedIsReachable();
    ReachableIsGood(db);
    CountdownIsSafeIff(db, 0, 3601);
  }

  // ------------------------------------- a countdown that commits a player twice

  /** Session 1 of league 1, an hour after the one of `OnlySlot`. */
  function Another(status: SessionStatus, players: seq<PlayerId>): Session {
    Session(1, 7200, status, players)
  }

  function Beside(status: SessionStatus, players: seq<PlayerId>): Db {
    Counted(SessionStatus.Closed, 3601).(sessions :=
      map[0 := Slot(SessionStatus.Closed, [1, 2]), 1 := Another(status, players)])
  }

  lemma BesideIsReachable()
    ensures Reachable(Beside(SessionStatus.Waiting, []))
  {
    var db := Counted(SessionStatus.Closed, 3601);
    ClosedIsReachable();
    assert Recorded(db) by { ReachableIsGood(db); }
    Reach(db, Create(1, 1, 7200));
    assert Do(db, Create(1, 1, 7200)).sessions == Beside(SessionStatus.Waiting, []).sessions;
  }

  lemma OpeningBeside()
    ensures AfterMakeJoinable(Beside(SessionStatus.Waiting, []), 3601) == Beside(SessionStatus.Joinable, [])
  {
    assert AfterMakeJoinable(Beside(SessionStatus.Waiting, []), 3601).sessions ==
      Beside(SessionStatus.Joinable, []).sessions;
  }

  lemma BesideIsOpened()
    ensures Reachable(Beside(SessionStatus.Joinable, []))
  {
    var db := Beside(SessionStatus.Waiting, []);
    BesideIsReachable();
    assert Recorded(db) by { ReachableIsGood(db); }
    OpeningBeside();
    Reach(db, MakeJoinable(3601));
  }

  lemma JoiningBeside()
    ensures CanJoin(Beside(SessionStatus.Joinable, []), 1, 1)
    ensures AfterJoin(Beside(SessionStatus.Joinable, []), 1, 1, 3601) == Beside(SessionStatus.Joinable, [1])
  {
    assert [] + [1] == [1];
    assert AfterJoin(Beside(SessionStatus.Joinable, []), 1, 1, 3601).sessions ==
      Beside(SessionStatus.Joinable, [1]).sessions;
  }

  lemma BesideIsJoined()
    ensures Reachable(Beside(SessionStatus.Joinable, [1]))
  {
    var db := Beside(SessionStatus.Joinable, []);
    BesideIsOpened();
    assert Recorded(db) by { ReachableIsGood(db); }
    JoiningBeside();
    Reach(db, Join(1, 1, 3601));
  }

  /** A player of the closed session has joined another race when the countdown
      ends: they are then committed twice. */
  lemma CountdownCommitsTwice() returns (db: Db)
    ensures Reachable(db) && Recorded(db) && CountedDown(db, 0, db.clock)
    ensures forall m | m in db.matches :: |db.matches[m].entries| == 2
    ensures !Inv(AfterEndCountdown(db, 0, db.clock))
  {
    db := Beside(SessionStatus.Joinable, [1]);
    BesideIsJoined();
    ReachableIsGood(db);
    assert Live(db, 1, 1);
    assert 1 in db.sessions[0].players && !EndedIn(db, 0, 1) && RacesElsewhere(db, 0, 1);
    CountdownKeepsInvIff(db, 0, 3601);
  }

  // ------------------------------------------------------------ a late seed

  function Matched0(status: SessionStatus, m: Match, h: seq<Event>, clock: Time): Db {
    OnlySlot(status, [1, 2], clock).(matches := map[0 := m], journal := map[0 := h])
  }

  lemma SeatingOfTwo()
    ensures CanMatchMake(Carried(), 0, [Seat(0, 1, 2)])
    ensures AfterMatchMake(Carried(), 0, [Seat(0, 1, 2)]) ==
              Matched0(SessionStatus.Preparing, NewMatch(0, 0, 1, 2), [], 2700)
  {
    var seats := [Seat(0, 1, 2)];
    assert Seated(seats) == [1, 2] by {
      SeatedAt(seats, 0);
    }
    assert KickOdd([1, 2]) == [1, 2];
    assert seats[..0] == [];
    NewMatchesAre(0, 0, seats);
    var d := AfterMatchMake(Carried(), 0, seats);
    assert d.matches == map[0 := NewMatch(0, 0, 1, 2)] && d.journal == map[0 := []];
    assert d.pending == map[] && d.sessions == map[0 := Slot(SessionStatus.Preparing, [1, 2])];
  }

  lemma MatchedIsReachable()
    ensures Reachable(Matched0(SessionStatus.Preparing, NewMatch(0, 0, 1, 2), [], 2700))
  {
    CarriedIsReachable();
    SeatingOfTwo();
    Reach(Carried(), MatchMake(0, [Seat(0, 1, 2)]));
  }

  function Started0(): Db {
    Matched0(SessionStatus.InProgress, StartMatch(NewMatch(0, 0, 1, 2), 3600), [Start(3600)], 3600)
  }

  lemma StartOfOne(db: Db)
    requires Recorded(db) && db == Matched0(SessionStatus.Preparing, NewMatch(0, 0, 1, 2), [], 2700)
    ensures forall m | m in db.matches :: |db.matches[m].entries| == 2
    ensures AfterStart(db, 0, 3600) == Started0()
  {
    var d := AfterStart(db, 0, 3600);
    assert [] + [Start(3600)] == [Start(3600)];
    assert d.matches == Started0().matches && d.journal == Started0().journal;
    assert d.sessions == Started0().sessions;
  }

  lemma StartedIsReachable()
    ensures Reachable(Started0())
  {
    var db := Matched0(SessionStatus.Preparing, NewMatch(0, 0, 1, 2), [], 2700);
    MatchedIsReachable();
    assert Recorded(db) by { ReachableIsGood(db); }
    StartOfOne(db);
    Reach(db, StartSession(0, 3600));
  }

  /** A seed that lands after the start of its match breaks the invariant. */
  lemma LateSeedBreaks() returns (db: Db, m: MatchId)
    ensures Reachable(db) && m in db.matches && !Inv(AfterWriteSeed(db, m))
  {
    db, m := Started0(), 0;
    StartedIsReachable();
    ReachableIsGood(db);
    WriteSeedIsSafeIff(db, m);
  }

  // ------------------------------------------- an ended match that still starts

  function BothForfeited(): Match {
    var m := NewMatch(0, 0, 1, 2);
    Apply(Apply(m, Event.Forfeit(0, 2800)), Event.Forfeit(1, 2900))
  }

  lemma ForfeitIsReachable(m: Match, h: seq<Event>, k: nat, clock: Time, now: Time)
    requires Reachable(Matched0(SessionStatus.Preparing, m, h, clock)) && clock <= now
    requires |m.entries| == 2 && k < 2 && m.session == 0 && m.entries[0].player == 1 && m.entries[1].player == 2
    requires !m.entries[k].HasEnded()
    ensures var e := Event.Forfeit(k, now);
      Reachable(Matched0(SessionStatus.Preparing, Apply(m, e), h + [e], now))
  {
    var db := Matched0(SessionStatus.Preparing, m, h, clock);
    var a := EndRace(0, m.entries[k].player, 0, k, true, now);
    assert Recorded(db) && CanEnd(db, 0, m.entries[k].player, 0, k, true, now) by {
      CanForfeitInPreparation(m, h, k, clock, now);
    }
    ForfeitOfOne(m, h, k, clock, now);
    Reach(db, a);
  }

  lemma ForfeitOfOne(m: Match, h: seq<Event>, k: nat, clock: Time, now: Time)
    requires |m.entries| == 2
    ensures AfterEvent(Matched0(SessionStatus.Preparing, m, h, clock), 0, Event.Forfeit(k, now)) ==
            Matched0(SessionStatus.Preparing, Apply(m, Event.Forfeit(k, now)), h + [Event.Forfeit(k, now)], now)
  {
    var d := AfterEvent(Matched0(SessionStatus.Preparing, m, h, clock), 0, Event.Forfeit(k, now));
    assert d.matches == map[0 := Apply(m, Event.Forfeit(k, now))];
    assert d.journal == map[0 := h + [Event.Forfeit(k, now)]];
  }

  lemma CanForfeitInPreparation(m: Match, h: seq<Event>, k: nat, clock: Time, now: Time)
    requires Reachable(Matched0(SessionStatus.Preparing, m, h, clock))
    requires |m.entries| == 2 && k < 2 && m.session == 0 && m.entries[0].player == 1 && m.entries[1].player == 2
    requires !m.entries[k].HasEnded()
    ensures var db := Matched0(SessionStatus.Preparing, m, h, clock);
      Recorded(db) && CanEnd(db, 0, m.entries[k].player, 0, k, true, now)
  {
    var db := Matched0(SessionStatus.Preparing, m, h, clock);
    ReachableIsGood(db);
    var p := m.entries[k].player;
    assert Sits(db, 0, k, 0, p);
    assert Unended(db, 0, p);
    UnendedIsLive(db, 0, p);
    ActiveIsTheLiveOne(db, p, 0);
  }

  const FORFEITS: seq<Event> := [Event.Forfeit(0, 2800), Event.Forfeit(1, 2900)]

  lemma ForfeitedIsReachable()
    ensures Reachable(Matched0(SessionStatus.Preparing, BothForfeited(), FORFEITS, 2900))
  {
    var m := NewMatch(0, 0, 1, 2);
    var one := Apply(m, Event.Forfeit(0, 2800));
    MatchedIsReachable();
    ForfeitIsReachable(m, [], 0, 2700, 2800);
    ForfeitIsReachable(one, [] + [Event.Forfeit(0, 2800)], 1, 2800, 2900);
    assert [] + [Event.Forfeit(0, 2800)] + [Event.Forfeit(1, 2900)] == FORFEITS;
  }

  /** Two forfeits in preparation end the match, and the start of the session
      still writes its start date. */
  lemma EndedMatchStarts() returns (db: Db)
    ensures Reachable(db) && 0 in db.matches && |db.matches[0].entries| == 2
    ensures db.matches[0].HasEnded() && CanStart(db, 0, 3600) && StartsWith(db.matches[0], 0)
  {
    db := Matched0(SessionStatus.Preparing, BothForfeited(), FORFEITS, 2900);
    ForfeitedIsReachable();
  }

  function ForfeitedCounted(status: SessionStatus, clock: Time): Db {
    Counted(status, clock).(matches := map[0 := BothForfeited()], journal := map[0 := FORFEITS])
  }

  lemma ForfeitedIsCounted()
    ensures Reachable(ForfeitedCounted(SessionStatus.Preparing, 3510))
  {
    var db := Matched0(SessionStatus.Preparing, BothForfeited(), FORFEITS, 2900);
    ForfeitedIsReachable();
    assert Recorded(db) by { ReachableIsGood(db); }
    Reach(db, BeginCountdown(0, 3510));
    assert Do(db, BeginCountdown(0, 3510)) == ForfeitedCounted(SessionStatus.Preparing, 3510);
  }

  lemma ClosingForfeited()
    ensures AfterClose(ForfeitedCounted(SessionStatus.Preparing, 3510), 3601) ==
              ForfeitedCounted(SessionStatus.Closed, 3601)
  {
    var db := ForfeitedCounted(SessionStatus.Preparing, 3510);
    assert DueToClose(db, 0, 3601);
    assert AfterClose(db, 3601).sessions == ForfeitedCounted(SessionStatus.Closed, 3601).sessions;
  }

  lemma ForfeitedIsClosed()
    ensures Reachable(ForfeitedCounted(SessionStatus.Closed, 3601))
  {
    var db := ForfeitedCounted(SessionStatus.Preparing, 3510);
    ForfeitedIsCounted();
    assert Recorded(db) by { ReachableIsGood(db); }
    ClosingForfeited();
    Reach(db, CloseSessions(3601));
  }

  /** So does a countdown after the session was closed: it opens a session whose
      matches have ended, and gives them a start date. */
  lemma CountdownReopensMatched() returns (db: Db)
    ensures Reachable(db) && Recorded(db) && CountedDown(db, 0, db.clock)
    ensures db.sessions[0].status.Closed? && !SafeStart(db, 0, db.clock)
    ensures 0 in db.matches && db.matches[0].HasEnded() && StartsWith(db.matches[0], 0)
  {
    db := ForfeitedCounted(SessionStatus.Closed, 3601);
    ForfeitedIsClosed();
    ReachableIsGood(db);
    CountdownIsSafeIff(db, 0, 3601);
  }
}

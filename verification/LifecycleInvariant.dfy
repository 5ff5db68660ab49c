/** Every transaction keeps the invariant of the lifecycle. */
module LifecycleInvariant {
  import opened Rows
  import opened Sequences
  import opened MatchHistory
  import opened Lifecycle

  // ------------------------------------------------- histories of one match

  lemma {:induction false} ReplayKeepsIdentity(m: Match, h: seq<Event>)
    requires |m.entries| == 2
    ensures var r := Replay(m, h);
      r.league == m.league && r.session == m.session &&
      r.entries[0].player == m.entries[0].player && r.entries[1].player == m.entries[1].player
  {
    if h != [] {
      ReplayKeepsIdentity(m, h[..|h| - 1]);
    }
  }

  lemma ExplainedIsSound(h: seq<Event>, m: Match, clock: Time)
    requires Explains(h, m, clock)
    ensures Sound(m)
  {
    HistoryIsSound(Origin(m), h);
  }

  lemma ExplainNext(h: seq<Event>, m: Match, clock: Time, e: Event)
    requires Explains(h, m, clock) && Legal(m, e) && clock <= e.at
    ensures Explains(h + [e], Apply(m, e), e.at)
    ensures Origin(Apply(m, e)) == Origin(m)
  {
    assert (h + [e])[..|h + [e]| - 1] == h;
    ReplayKeepsIdentity(Origin(m), h);
    ReplayKeepsIdentity(Origin(m), h + [e]);
  }

  lemma RowsHaveTwoEntries(db: Db)
    requires Recorded(db)
    ensures forall m | m in db.matches :: |db.matches[m].entries| == 2
  {
    forall m | m in db.matches ensures |db.matches[m].entries| == 2 {
      assert Explains(db.journal[m], db.matches[m], db.clock);
    }
  }

  // -------------------------------------------------------- lookup theorems

  /** An unended entry always lies in a session that commits its player: the
      fallback of the active session lookup never finds what the first loop
      missed. */
  lemma UnendedIsLive(db: Db, s: SessionId, p: PlayerId)
    requires Recorded(db) && MatchesPlaced(db) && OneSeat(db)
    requires Unended(db, s, p)
    ensures Live(db, s, p)
  {
    var m: MatchId, k: nat :| Sits(db, m, k, s, p) && !db.matches[m].entries[k].HasEnded();
    UnendedIsOpen(db, m, k, s, p);
    assert forall n: MatchId, j: nat | Sits(db, n, j, s, p) :: n == m && j == k;
  }

  lemma UnendedIsOpen(db: Db, m: MatchId, k: nat, s: SessionId, p: PlayerId)
    requires Recorded(db) && MatchesPlaced(db) && Sits(db, m, k, s, p) && !db.matches[m].entries[k].HasEnded()
    ensures s in db.sessions && db.sessions[s].Open() && p in db.sessions[s].players
  {
    assert Placed(db, db.matches[m]);
    assert Sound(db.matches[m]) by { ExplainedIsSound(db.journal[m], db.matches[m], db.clock); }
    UnendedIsInPhase(db.matches[m], k, db.sessions[s].status);
  }

  lemma UnendedIsInPhase(x: Match, k: nat, status: SessionStatus)
    requires Sound(x) && k < 2 && !x.entries[k].HasEnded() && InPhase(x, status)
    ensures status.Preparing? || status.InProgress?
  {
  }

  /** The lookup has one possible answer: the only session that commits the
      player. */
  lemma ActiveIsTheLiveOne(db: Db, p: PlayerId, s: SessionId)
    requires Recorded(db) && MatchesPlaced(db) && OneSeat(db) && OneCommitment(db)
    ensures Active(db, p, s) <==> Live(db, s, p)
    ensures NoActive(db, p) <==> forall t :: !Live(db, t, p)
  {
    forall t: SessionId | Unended(db, t, p) ensures Live(db, t, p) {
      UnendedIsLive(db, t, p);
    }
  }

  // --------------------------------------------- steps on the sessions table

  /** A step that touches sessions only, and of a session that is past joining
      at most closes it when its matches have ended. */
  ghost predicate SessionStep(db: Db, d: Db) {
    && d.matches == db.matches && d.journal == db.journal && db.clock <= d.clock
    && forall s | s in db.sessions :: s in d.sessions && RowStep(db, s, d.sessions[s])
  }

  ghost predicate RowStep(db: Db, s: SessionId, t: Session)
    requires s in db.sessions
  {
    db.sessions[s].status.Rank() >= 2 ==>
      && t == db.sessions[s].(status := t.status)
      && (t.status == db.sessions[s].status ||
          (t.status.Closed? && forall m | m in db.matches && db.matches[m].session == s :: db.matches[m].HasEnded()))
  }

  lemma SameSeats(db: Db, d: Db)
    requires d.matches == db.matches
    ensures OneSeat(db) ==> OneSeat(d)
    ensures forall s, p :: HasSeat(d, s, p) <==> HasSeat(db, s, p)
    ensures forall s, p :: EndedIn(d, s, p) <==> EndedIn(db, s, p)
    ensures forall s :: Matched(d, s) <==> Matched(db, s)
  {
    forall m: MatchId, k: nat, s: SessionId, p: PlayerId
      ensures Sits(d, m, k, s, p) <==> Sits(db, m, k, s, p)
    {}
  }

  lemma MatchedIsPlaced(db: Db, s: SessionId)
    requires MatchesPlaced(db) && Matched(db, s)
    ensures s in db.sessions && db.sessions[s].status.Rank() >= 2
  {
    var m :| m in db.matches && db.matches[m].session == s;
    assert Placed(db, db.matches[m]);
  }

  lemma RecordedStays(db: Db, d: Db)
    requires d.matches == db.matches && d.journal == db.journal && db.clock <= d.clock
    requires Recorded(db)
    ensures Recorded(d)
  {
    forall m | m in d.matches ensures Explains(d.journal[m], d.matches[m], d.clock) {
      assert Explains(db.journal[m], db.matches[m], db.clock);
    }
  }

  lemma PlacedStay(db: Db, d: Db)
    requires SessionStep(db, d) && MatchesPlaced(db)
    ensures MatchesPlaced(d)
  {
    forall m | m in d.matches ensures Placed(d, d.matches[m]) {
      assert Placed(db, db.matches[m]);
    }
  }

  /** What a step on sessions keeps about matches. */
  lemma SessionStepKeeps(db: Db, d: Db)
    requires SessionStep(db, d)
    requires Recorded(db) && MatchesPlaced(db) && OneSeat(db) && AllSeated(db)
    ensures Recorded(d) && MatchesPlaced(d) && OneSeat(d) && AllSeated(d)
  {
    RecordedStays(db, d);
    PlacedStay(db, d);
    SameSeats(db, d);
    forall s, p | s in d.sessions && Matched(d, s) && p in d.sessions[s].players
      ensures HasSeat(d, s, p)
    {
      MatchedIsPlaced(db, s);
    }
  }

  /** Commitments only shrink when every open row was open before with at
      least the same players. */
  lemma CommitmentsShrink(db: Db, d: Db)
    requires d.matches == db.matches
    requires forall s, p | s in d.sessions && d.sessions[s].Open() && p in d.sessions[s].players ::
               s in db.sessions && db.sessions[s].Open() && p in db.sessions[s].players
    ensures OneCommitment(db) ==> OneCommitment(d)
  {
    SameSeats(db, d);
    forall s, p | Live(d, s, p) ensures Live(db, s, p) {}
  }

  lemma UnmatchedStays(db: Db, d: Db)
    requires d.matches == db.matches
    requires MatchesPlaced(db)
    requires forall s | s in d.pending :: s in d.sessions && d.pending[s] == d.sessions[s]
               && d.sessions[s].status.Preparing? && |d.sessions[s].players| >= 2
    requires forall s | s in d.pending ::
               (s in db.sessions && db.sessions[s].status.Rank() < 2) || (s in db.pending && PendingFresh(db))
    ensures PendingFresh(d)
  {
    SameSeats(db, d);
    forall s | s in d.pending ensures !Matched(d, s) {
      if Matched(db, s) {
        MatchedIsPlaced(db, s);
      }
    }
  }

  /** No row past joining is counted down and carried to matchmaking at once. */
  lemma CountingStays(db: Db, d: Db)
    requires SessionStep(db, d) && CountingFresh(db) && d.counting == db.counting
    requires forall s | s in d.pending && s in db.sessions :: s in db.pending || db.sessions[s].status.Rank() < 2
    ensures CountingFresh(d)
  {
    forall s | s in d.counting
      ensures s in d.sessions && s !in d.pending && d.sessions[s].status.Rank() >= 2
      ensures d.sessions[s] == d.counting[s].(status := d.sessions[s].status)
    {
      assert RowStep(db, s, d.sessions[s]);
    }
  }

  lemma CreateKeepsInv(db: Db, id: SessionId, league: LeagueId, startDate: Time)
    requires Inv(db) && CanCreate(db, id, league, startDate)
    ensures Inv(AfterCreate(db, id, league, startDate))
  {
    var d := AfterCreate(db, id, league, startDate);
    SessionStepKeeps(db, d);
    CommitmentsShrink(db, d);
    UnmatchedStays(db, d);
    CountingStays(db, d);
  }

  lemma OpenIsStep(db: Db, now: Time)
    requires SessionsGood(db) && OneSlot(db) && db.clock <= now
    ensures SessionStep(db, AfterMakeJoinable(db, now))
    ensures SessionsGood(AfterMakeJoinable(db, now)) && OneSlot(AfterMakeJoinable(db, now))
  {
    assert forall s | s in db.sessions :: GoodSession(db.sessions[s]);
  }

  lemma MakeJoinableKeepsInv(db: Db, now: Time)
    requires Inv(db) && db.clock <= now
    ensures Inv(AfterMakeJoinable(db, now))
  {
    var d := AfterMakeJoinable(db, now);
    OpenIsStep(db, now);
    SessionStepKeeps(db, d);
    CommitmentsShrink(db, d);
    UnmatchedStays(db, d);
    CountingStays(db, d);
  }

  lemma PrepareIsStep(db: Db, now: Time)
    requires SessionsGood(db) && OneSlot(db) && db.clock <= now
    ensures SessionStep(db, AfterPrepare(db, now))
    ensures SessionsGood(AfterPrepare(db, now)) && OneSlot(AfterPrepare(db, now))
  {
    assert forall s | s in db.sessions :: GoodSession(db.sessions[s]);
  }

  lemma PrepareKeepsInv(db: Db, now: Time)
    requires Inv(db) && db.clock <= now && db.pending == map[]
    ensures Inv(AfterPrepare(db, now))
  {
    var d := AfterPrepare(db, now);
    PrepareIsStep(db, now);
    SessionStepKeeps(db, d);
    CommitmentsShrink(db, d);
    UnmatchedStays(db, d);
    CountingStays(db, d);
  }

  lemma DropPendingKeepsInv(db: Db)
    requires Inv(db)
    ensures Inv(db.(pending := map[]))
  {
    var d := db.(pending := map[]);
    SessionStepKeeps(db, d);
    CommitmentsShrink(db, d);
    UnmatchedStays(db, d);
    CountingStays(db, d);
  }

  /** Beside the tables, rows can be forgotten or counted down, and time can
      pass. */
  lemma AsideKeepsInv(db: Db, pending: map<SessionId, Session>, counting: map<SessionId, Session>, now: Time)
    requires Inv(db) && db.clock <= now
    requires forall s | s in pending :: s in db.pending && pending[s] == db.pending[s]
    requires CountingFresh(db.(pending := pending, counting := counting))
    ensures Inv(db.(pending := pending, counting := counting, clock := now))
  {
    var d := db.(pending := pending, counting := counting, clock := now);
    RecordedStays(db, d);
    PlacedStay(db, d);
    SameSeats(db, d);
    CommitmentsShrink(db, d);
  }

  lemma BeginCountdownKeepsInv(db: Db, id: SessionId, now: Time)
    requires Inv(db) && db.clock <= now && CanBeginCountdown(db, id, now)
    ensures Inv(AfterBeginCountdown(db, id, now))
  {
    AsideKeepsInv(db, db.pending, db.counting[id := db.sessions[id]], now);
  }

  lemma CloseIsStep(db: Db, now: Time)
    requires db.clock <= now
    ensures SessionStep(db, AfterClose(db, now))
  {
  }

  lemma CloseKeepsRows(db: Db, now: Time)
    requires SessionsGood(db) && OneSlot(db)
    ensures SessionsGood(AfterClose(db, now)) && OneSlot(AfterClose(db, now))
  {
    assert forall s | s in db.sessions :: GoodSession(db.sessions[s]);
  }

  lemma CloseKeepsInv(db: Db, now: Time)
    requires Inv(db) && db.clock <= now && db.pending == map[]
    ensures Inv(AfterClose(db, now))
  {
    var d := AfterClose(db, now);
    CloseIsStep(db, now);
    SessionStepKeeps(db, d);
    CloseKeepsRows(db, now);
    CommitmentsShrink(db, d);
    UnmatchedStays(db, d);
    CountingStays(db, d);
  }

  lemma JoinIsStep(db: Db, id: SessionId, p: PlayerId, now: Time)
    requires SessionsGood(db) && OneSlot(db) && db.clock <= now && CanJoin(db, id, p)
    ensures SessionStep(db, AfterJoin(db, id, p, now))
    ensures SessionsGood(AfterJoin(db, id, p, now)) && OneSlot(AfterJoin(db, id, p, now))
  {
    assert GoodSession(AfterJoin(db, id, p, now).sessions[id]);
  }

  lemma JoinKeepsInv(db: Db, id: SessionId, p: PlayerId, now: Time)
    requires Inv(db) && db.clock <= now && CanJoin(db, id, p)
    ensures Inv(AfterJoin(db, id, p, now))
  {
    var d := AfterJoin(db, id, p, now);
    JoinIsStep(db, id, p, now);
    SessionStepKeeps(db, d);
    SameSeats(db, d);
    forall s, q | Live(d, s, q) ensures Live(db, s, q) || (s == id && q == p) {}
    UnmatchedStays(db, d);
    CountingStays(db, d);
  }

  lemma {:induction false} WithoutIsSublist(players: seq<PlayerId>, p: PlayerId)
    ensures forall q :: q in Without(players, p) <==> q in players && q != p
    ensures Distinct(players) ==> Distinct(Without(players, p))
  {
    if players != [] {
      var rest := players[1..];
      WithoutIsSublist(rest, p);
      if Distinct(players) {
        assert Distinct(rest);
        assert players[0] !in rest;
      }
    }
  }

  lemma CancelKeepsInv(db: Db, id: SessionId, p: PlayerId, now: Time)
    requires Inv(db) && db.clock <= now && CanCancel(db, id, p, now)
    ensures Inv(AfterCancel(db, id, p, now))
  {
    var d := AfterCancel(db, id, p, now);
    WithoutIsSublist(db.sessions[id].players, p);
    SessionStepKeeps(db, d);
    CommitmentsShrink(db, d);
    UnmatchedStays(db, d);
    CountingStays(db, d);
  }

  // ----------------------------------------------------------------- windows

  /** The windows of the daemon's ticks fit together: what it opens can still be
      cancelled; up to its start a joinable session can be cancelled or is due
      to be prepared, both at the deadline only; a session that was not opened
      in time never is. */
  lemma WindowsMeet(s: Session, now: Time, later: Time)
    requires now <= later
    ensures s.status.Waiting? && JoinableRow(s, now) != s ==>
              JoinableRow(s, now).CanCancel(now) && !DueToPrepare(JoinableRow(s, now), now)
    ensures s.status.Joinable? && now < s.startDate ==> s.CanCancel(now) || DueToPrepare(s, now)
    ensures s.status.Joinable? && now < s.startDate ==>
              (s.CanCancel(now) && DueToPrepare(s, now) <==> now == s.startDate - PREPARATION_BEFORE)
    ensures s.status.Waiting? && s.startDate - PREPARATION_BEFORE <= now ==> JoinableRow(s, later) == s
  {
  }
}

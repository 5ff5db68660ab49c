/** How much the ladder depends on things it does not check itself: the page
    that only offers joinable sessions, the seed generator's write landing
    early, and the countdown starting a session it read a while ago. */
module Assumptions {
  import opened Rows
  import opened Lifecycle
  import opened LifecycleInvariant
  import opened LifecycleMatchSteps
  import opened Runs

  /** Joining is a step of the lifecycle: the invariant holds after it, and the
      row goes on as rows do, in any run that follows. */
  ghost predicate SafeJoin(db: Db, id: SessionId, p: PlayerId, now: Time)
    requires id in db.sessions
  {
    Inv(AfterJoin(db, id, p, now)) && Forward(db.sessions[id], AfterJoin(db, id, p, now).sessions[id])
  }

  /** Joining by identifier, for a player who passes the checks the source does
      make, is safe exactly when the session is joinable: the guard it leaves to
      the page. */
  lemma JoinIsSafeIff(db: Db, id: SessionId, p: PlayerId, now: Time)
    requires Inv(db) && db.clock <= now && CanJoinUnchecked(db, id, p)
    ensures SafeJoin(db, id, p, now) <==> db.sessions[id].status.Joinable?
  {
    var players, after := db.sessions[id].players, AfterJoin(db, id, p, now).sessions[id];
    assert |after.players| == |players| + 1;
    if db.sessions[id].status.Joinable? {
      JoinKeepsInv(db, id, p, now);
    } else if db.sessions[id].status.Waiting? {
      assert !GoodSession(after);
    }
  }

  /** A seed that lands late breaks the lifecycle: the write keeps the
      invariant exactly when the match is as it was created. */
  lemma WriteSeedIsSafeIff(db: Db, m: MatchId)
    requires Inv(db) && m in db.matches
    ensures Inv(AfterWriteSeed(db, m)) <==> db.matches[m].startedAt.None? && db.matches[m].endedAt.None?
  {
    WriteSeedIsIdle(db, m);
    var d := AfterWriteSeed(db, m);
    if Inv(d) {
      var x, y := db.matches[m], d.matches[m];
      assert Explains(db.journal[m], x, db.clock) && Explains(db.journal[m], y, db.clock);
      assert Origin(x) == Origin(y);
    }
  }

  /** The end of a countdown is a step of the lifecycle: the invariant holds
      after it, and the status goes at most one up. */
  ghost predicate SafeStart(db: Db, id: SessionId, now: Time)
    requires Recorded(db) && CountedDown(db, id, now)
  {
    RowsHaveTwoEntries(db);
    Inv(AfterEndCountdown(db, id, now)) && MovesUp(db.sessions[id].status, SessionStatus.InProgress)
  }

  /** The end of a countdown is safe exactly when the session has not been closed
      meanwhile; otherwise it opens it again. */
  lemma CountdownIsSafeIff(db: Db, id: SessionId, now: Time)
    requires Inv(db) && db.clock <= now && CountedDown(db, id, now)
    ensures SafeStart(db, id, now) <==> !db.sessions[id].status.Closed?
  {
    RowsHaveTwoEntries(db);
    if !db.sessions[id].status.Closed? {
      EndCountdownKeepsInv(db, id, now);
    }
  }
}

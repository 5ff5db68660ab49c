/** What is at stake when a countdown opens a closed session again: whether a
    player is committed twice. */
module Reopening {
  import opened Rows
  import opened MatchHistory
  import opened Lifecycle
  import opened LifecycleInvariant
  import opened LifecycleMatchSteps

  /** Another session than `id` commits the player. */
  ghost predicate RacesElsewhere(db: Db, id: SessionId, p: PlayerId) {
    exists t: SessionId :: t != id && Live(db, t, p)
  }

  /** Of those listed, nobody who has not ended races elsewhere. */
  ghost predicate AllFree(db: Db, id: SessionId)
    requires id in db.sessions
  {
    forall p | p in db.sessions[id].players && !EndedIn(db, id, p) :: !RacesElsewhere(db, id, p)
  }

  // ----------------------------------------------------------------- matches

  /** The same players have ended, and the others go on. */
  predicate SameEnds(x: Match, y: Match) {
    && |x.entries| == |y.entries| == 2
    && x.entries[0].HasEnded() == y.entries[0].HasEnded()
    && x.entries[1].HasEnded() == y.entries[1].HasEnded()
  }

  lemma StartKeepsEnds(x: Match, now: Time)
    requires |x.entries| == 2
    ensures SameEnds(x, Apply(x, Start(now)))
  {
  }

  lemma CountedPlaced(db: Db, d: Db, id: SessionId, x: Match, y: Match)
    requires Placed(db, x) && Evolves(x, y) && id in db.sessions
    requires d.sessions == db.sessions[id := db.sessions[id].(status := SessionStatus.InProgress)]
    requires y.startedAt.Some? || x.session != id
    requires x.session != id ==> y == x
    ensures Placed(d, y)
  {
    PlacedAfter(db, d, x, y);
  }

  lemma CountedRow(db: Db, id: SessionId, now: Time, m: MatchId)
    requires Recorded(db) && MatchesPlaced(db) && CountingFresh(db)
    requires db.clock <= now && CountedDown(db, id, now) && m in db.matches
    ensures forall n | n in db.matches :: |db.matches[n].entries| == 2
    ensures var y := AfterEndCountdown(db, id, now).matches[m];
      Evolves(db.matches[m], y) && SameEnds(db.matches[m], y)
    ensures Placed(AfterEndCountdown(db, id, now), AfterEndCountdown(db, id, now).matches[m])
  {
    RowsHaveTwoEntries(db);
    var d, x := AfterEndCountdown(db, id, now), db.matches[m];
    StartedRow(x, now);
    StartKeepsEnds(x, now);
    CountedPlaced(db, d, id, x, d.matches[m]);
  }

  lemma CountedExplained(db: Db, id: SessionId, now: Time)
    requires Recorded(db) && db.clock <= now && CountedDown(db, id, now)
    ensures forall n | n in db.matches :: |db.matches[n].entries| == 2
    ensures Recorded(AfterEndCountdown(db, id, now))
  {
    RowsHaveTwoEntries(db);
    forall m | m in db.matches
      ensures Explains(AfterEndCountdown(db, id, now).journal[m], AfterEndCountdown(db, id, now).matches[m], now)
    {
      StartExplained(db, id, now, m);
    }
  }

  lemma SameEndsSame(db: Db, d: Db)
    requires d.matches.Keys == db.matches.Keys
    requires forall m | m in db.matches :: Evolves(db.matches[m], d.matches[m]) && SameEnds(db.matches[m], d.matches[m])
    ensures forall s, p :: EndedIn(d, s, p) <==> EndedIn(db, s, p)
  {
    forall m: MatchId, k: nat, s: SessionId, p: PlayerId
      ensures Sits(d, m, k, s, p) <==> Sits(db, m, k, s, p)
      ensures Sits(db, m, k, s, p) ==> d.matches[m].entries[k].HasEnded() == db.matches[m].entries[k].HasEnded()
    {
      if m in db.matches {
        assert Evolves(db.matches[m], d.matches[m]) && SameEnds(db.matches[m], d.matches[m]);
      }
    }
  }

  lemma CountdownEvolves(db: Db, id: SessionId, now: Time)
    requires Recorded(db) && MatchesPlaced(db) && CountingFresh(db)
    requires db.clock <= now && CountedDown(db, id, now)
    ensures forall n | n in db.matches :: |db.matches[n].entries| == 2
    ensures var d := AfterEndCountdown(db, id, now);
      && MatchesEvolve(db, d) && MatchesPlaced(d)
      && forall m | m in db.matches :: SameEnds(db.matches[m], d.matches[m])
  {
    RowsHaveTwoEntries(db);
    var d := AfterEndCountdown(db, id, now);
    forall m | m in db.matches
      ensures Evolves(db.matches[m], d.matches[m]) && SameEnds(db.matches[m], d.matches[m]) && Placed(d, d.matches[m])
    {
      CountedRow(db, id, now, m);
    }
  }

  lemma CountdownKeepsMatches(db: Db, id: SessionId, now: Time)
    requires Recorded(db) && MatchesPlaced(db) && CountingFresh(db)
    requires db.clock <= now && CountedDown(db, id, now)
    ensures forall n | n in db.matches :: |db.matches[n].entries| == 2
    ensures var d := AfterEndCountdown(db, id, now);
      MatchesEvolve(db, d) && Recorded(d) && MatchesPlaced(d)
    ensures forall s, p :: EndedIn(AfterEndCountdown(db, id, now), s, p) <==> EndedIn(db, s, p)
  {
    CountedExplained(db, id, now);
    CountdownEvolves(db, id, now);
    SameEndsSame(db, AfterEndCountdown(db, id, now));
  }

  // ------------------------------------------------------------- commitments

  /** All but the one commitment is kept, whatever the status. */
  lemma CountdownKeepsRest(db: Db, id: SessionId, now: Time)
    requires Inv(db) && db.clock <= now && CountedDown(db, id, now)
    ensures forall n | n in db.matches :: |db.matches[n].entries| == 2
    ensures Inv(AfterEndCountdown(db, id, now)) <==> OneCommitment(AfterEndCountdown(db, id, now))
  {
    CountdownKeepsMatches(db, id, now);
    var d := AfterEndCountdown(db, id, now);
    EvolutionKeepsSeats(db, d);
    assert d.sessions == db.sessions[id := db.sessions[id].(status := SessionStatus.InProgress)];
    assert SessionsGood(d) && OneSlot(d);
    assert PendingFresh(d) && CountingFresh(d);
    assert AllSeated(d);
  }

  /** Opening a row commits those listed who have not ended in it. */
  lemma OpeningCommits(db: Db, d: Db, id: SessionId)
    requires OneCommitment(db) && id in db.sessions
    requires d.sessions == db.sessions[id := db.sessions[id].(status := SessionStatus.InProgress)]
    requires forall s, p :: EndedIn(d, s, p) <==> EndedIn(db, s, p)
    ensures OneCommitment(d) <==> AllFree(db, id)
  {
    forall s: SessionId, p: PlayerId
      ensures s != id ==> (Live(d, s, p) <==> Live(db, s, p))
      ensures Live(d, id, p) <==> p in db.sessions[id].players && !EndedIn(db, id, p)
    {
    }
    if OneCommitment(d) {
      forall p, t: SessionId | p in db.sessions[id].players && !EndedIn(db, id, p) && t != id
        ensures !Live(db, t, p)
      {
        assert Live(d, id, p);
      }
    }
    if AllFree(db, id) {
      forall s: SessionId, t: SessionId, p: PlayerId | Live(d, s, p) && Live(d, t, p) ensures s == t {
        if s == id && t != id {
          assert RacesElsewhere(db, id, p);
        } else if s != id && t == id {
          assert RacesElsewhere(db, id, p);
        }
      }
    }
  }

  /** The end of a countdown, also one that opens its session again, keeps the
      invariant exactly when no listed player who has not ended in it has joined
      another race meanwhile. */
  lemma CountdownKeepsInvIff(db: Db, id: SessionId, now: Time)
    requires Inv(db) && db.clock <= now && CountedDown(db, id, now)
    ensures forall n | n in db.matches :: |db.matches[n].entries| == 2
    ensures Inv(AfterEndCountdown(db, id, now)) <==> AllFree(db, id)
  {
    CountdownKeepsMatches(db, id, now);
    CountdownKeepsRest(db, id, now);
    OpeningCommits(db, AfterEndCountdown(db, id, now), id);
  }

  lemma SeatsHaveEnded(db: Db, m: MatchId, k: nat, s: SessionId, p: PlayerId)
    requires Recorded(db) && MatchesPlaced(db) && Sits(db, m, k, s, p)
    requires db.sessions[s].status.Closed?
    ensures EndedIn(db, s, p)
  {
    assert Placed(db, db.matches[m]);
    ExplainedIsSound(db.journal[m], db.matches[m], db.clock);
    assert Sits(db, m, k, s, p) && db.matches[m].entries[k].HasEnded();
  }

  /** Once a session with matches is closed all its players have ended: opening
      it again commits nobody. */
  lemma MatchedIsFree(db: Db, id: SessionId)
    requires Inv(db) && id in db.sessions && Matched(db, id) && db.sessions[id].status.Closed?
    ensures AllFree(db, id)
  {
    forall p | p in db.sessions[id].players ensures EndedIn(db, id, p) {
      assert HasSeat(db, id, p);
      var m: MatchId, k: nat :| Sits(db, m, k, id, p);
      SeatsHaveEnded(db, m, k, id, p);
    }
  }
}

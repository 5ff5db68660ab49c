/** The transactions as the source runs them, over tables that they change row
    by row. Each is an action of the lifecycle, or is refused and changes
    nothing. */
module Ladder {
  import opened Rows
  import opened Sequences
  import opened MatchHistory
  import opened Lifecycle
  import opened LifecycleInvariant
  import opened LifecycleMatchSteps
  import opened Reopening
  import opened Effects
  import opened Records
  import opened Runs
  import opened Pairing
  import opened RangedPairing

  datatype Refusal =
    | UnknownSession
    | AlreadyRegistered
    | RaceInProgress
    | NothingJoinable
    | NotInARace
    | NotCancellable
    | CancelInstead
    | AlreadyFinished
    | NotStarted
    | NoMatch

  datatype Reply = Accepted | Refused(why: Refusal)

  /** A number no row uses, in the place of a random identifier. */
  method FreshId(used: set<nat>) returns (id: nat)
    ensures id !in used
  {
    id := 0;
    var seen := {};
    while id in used
      invariant forall n: nat :: n in seen <==> n < id
      invariant seen <= used
      decreases |used - seen|
    {
      seen := seen + {id};
      assert id in used - (seen - {id});
      id := id + 1;
    }
  }

  class Ladder {
    var sessions: map<SessionId, Session>
    var matches: map<MatchId, Match>
    ghost var journal: map<MatchId, seq<Event>>
    ghost var pending: map<SessionId, Session>
    /** The rows that countdowns carry. */
    var counting: map<SessionId, Session>
    ghost var clock: Time

    ghost function State(): Db
      reads this
    {
      Db(sessions, matches, journal, pending, counting, clock)
    }

    ghost predicate Valid()
      reads this
    {
      Inv(State())
    }

    constructor ()
      ensures State() == EMPTY_DB && Valid()
    {
      sessions, matches, counting := map[], map[], map[];
      journal, pending, clock := map[], map[], 0;
    }

    // ------------------------------------------------------------- the daemon

    /** For each league, the next date of its schedule, if any. */
    method CreateNextScheduledMatchSessions(next: seq<(LeagueId, Option<Time>)>) returns (ghost acts: seq<Action>)
      requires Valid()
      modifies this`sessions
      ensures Valid()
      ensures CanRun(old(State()), acts) && State() == Run(old(State()), acts)
      ensures forall a | a in acts :: a.Create?
      ensures forall i | 0 <= i < |next| && next[i].1.Some? :: HasSlot(State(), next[i].0, next[i].1.value)
      ensures CreatesOnly(old(sessions), sessions)
      ensures forall s | s in sessions && s !in old(sessions) ::
                (sessions[s].league, Some(sessions[s].startDate)) in next
    {
      acts := [];
      for i := 0 to |next|
        invariant Valid() && CreatesOnly(old(sessions), sessions)
        invariant forall s | s in sessions && s !in old(sessions) ::
                    (sessions[s].league, Some(sessions[s].startDate)) in next
        invariant CanRun(old(State()), acts) && State() == Run(old(State()), acts)
        invariant forall a | a in acts :: a.Create?
        invariant forall k | 0 <= k < i && next[k].1.Some? :: HasSlot(State(), next[k].0, next[k].1.value)
      {
        if next[i].1.Some? {
          assert (next[i].0, Some(next[i].1.value)) == next[i];
          ghost var more := CreateSession(next[i].0, next[i].1.value);
          RunOn(old(State()), acts, more);
          acts := acts + more;
        }
      }
    }

    method CreateSession(league: LeagueId, startDate: Time) returns (ghost acts: seq<Action>)
      requires Valid()
      modifies this`sessions
      ensures Valid()
      ensures HasSlot(State(), league, startDate)
      ensures CreatesOnly(old(sessions), sessions)
      ensures forall s | s in sessions && s !in old(sessions) ::
                sessions[s].league == league && sessions[s].startDate == startDate
      ensures forall l, d :: HasSlot(old(State()), l, d) ==> HasSlot(State(), l, d)
      ensures forall a | a in acts :: a.Create?
      ensures CanRun(old(State()), acts) && State() == Run(old(State()), acts)
    {
      acts := [];
      var found := set s | s in sessions && sessions[s].league == league && sessions[s].startDate == startDate;
      if found != {} {
        assert HasSlot(State(), league, startDate) by {
          var s :| s in found;
        }
      } else {
        var id := FreshId(sessions.Keys);
        ghost var before := State();
        assert forall s | s in sessions :: s !in found;
        assert CanCreate(before, id, league, startDate);
        RunOne(before, Create(id, league, startDate));
        CreateKeepsInv(before, id, league, startDate);
        acts := [Create(id, league, startDate)];
        sessions := sessions[id := NewSession(league, startDate)];
        assert sessions[id] == NewSession(league, startDate);
        SlotsStay(before, State());
      }
    }

    /** Writes a status to each of the selected rows. */
    method PutInStatus(selected: set<SessionId>, status: SessionStatus)
      requires selected <= sessions.Keys
      modifies this`sessions
      ensures sessions == map s | s in old(sessions) ::
                if s in selected then old(sessions)[s].(status := status) else old(sessions)[s]
    {
      var todo := selected;
      while todo != {}
        invariant todo <= selected && sessions.Keys == old(sessions).Keys
        invariant forall s | s in old(sessions) ::
          sessions[s] == if s in selected && s !in todo then old(sessions)[s].(status := status) else old(sessions)[s]
      {
        var s :| s in todo;
        sessions := sessions[s := sessions[s].(status := status)];
        todo := todo - {s};
      }
    }

    /** Waiting rows that start soon enough become joinable. */
    method OpenSelected(now: Time)
      modifies this`sessions, this`clock
      ensures State() == AfterMakeJoinable(old(State()), now)
    {
      var selected := set s | s in sessions && sessions[s].status.Waiting?
        && now + PREPARATION_BEFORE < sessions[s].startDate <= now + JOINABLE_BEFORE;
      PutInStatus(selected, SessionStatus.Joinable);
      clock := now;
      assert sessions == AfterMakeJoinable(old(State()), now).sessions;
    }

    method MakeMatchSessionsJoinable(now: Time)
      requires Valid() && clock <= now
      modifies this`sessions, this`clock
      ensures State() == AfterMakeJoinable(old(State()), now)
      ensures Valid()
      ensures OpensAll(old(State()), State(), now)
    {
      OpenedRows(State(), now);
      MakeJoinableKeepsInv(State(), now);
      OpenSelected(now);
    }

    /** Closes the selected rows that have less than two players and puts the
        others in preparation. */
    method PrepareSelected(selected: set<SessionId>, ghost now: Time) returns (ret: map<SessionId, Session>)
      requires selected == set s | s in sessions && DueToPrepare(sessions[s], now)
      modifies this`sessions
      ensures sessions == map s | s in old(sessions) :: PrepareRow(old(sessions)[s], now)
      ensures ret == map s |
                s in old(sessions) && DueToPrepare(old(sessions)[s], now) && |old(sessions)[s].players| >= 2 ::
                PrepareRow(old(sessions)[s], now)
    {
      ret := map[];
      var todo := selected;
      while todo != {}
        invariant todo <= selected && sessions.Keys == old(sessions).Keys
        invariant forall s | s in old(sessions) ::
          sessions[s] == if s in todo then old(sessions)[s] else PrepareRow(old(sessions)[s], now)
        invariant ret.Keys == set s | s in selected - todo && |old(sessions)[s].players| >= 2
        invariant forall s | s in ret :: ret[s] == PrepareRow(old(sessions)[s], now)
      {
        var s :| s in todo;
        if |sessions[s].players| < 2 {
          sessions := sessions[s := sessions[s].(status := SessionStatus.Closed)];
        } else {
          sessions := sessions[s := sessions[s].(status := SessionStatus.Preparing)];
          ret := ret[s := sessions[s]];
        }
        todo := todo - {s};
      }
    }

    /** Returns the rows it put in preparation. */
    method MakeMatchSessionsPreparing(now: Time) returns (ret: map<SessionId, Session>)
      requires Valid() && clock <= now && pending == map[]
      modifies this`sessions, this`pending, this`clock
      ensures Valid() && State() == AfterPrepare(old(State()), now)
      ensures ret == pending && PreparesAll(old(State()), State(), now)
    {
      PreparedRows(State(), now);
      PrepareKeepsInv(State(), now);
      ret := PrepareDue(now);
    }

    method PrepareDue(now: Time) returns (ret: map<SessionId, Session>)
      modifies this`sessions, this`pending, this`clock
      ensures State() == AfterPrepare(old(State()), now) && ret == pending
    {
      ghost var db := State();
      ret := PrepareSelected((set s | s in sessions && DueToPrepare(sessions[s], now)), now);
      clock, pending := now, ret;
      assert ret == Prepared(db, now);
      assert State() == AfterPrepare(db, now);
    }

    /** Stale sessions with no match that goes on. */
    method GetMatchSessionsToEnd(now: Time) returns (selected: set<SessionId>)
      ensures selected == set s | s in sessions && DueToClose(State(), s, now)
      ensures forall s :: s in selected <==>
                s in sessions && !sessions[s].status.Closed? && IsOver(State(), s, now)
    {
      var stale := set s | s in sessions && sessions[s].startDate < now && !sessions[s].status.Closed?;
      selected := {};
      var todo := stale;
      while todo != {}
        invariant todo <= stale
        invariant selected == set s | s in stale - todo && DueToClose(State(), s, now)
      {
        var s :| s in todo;
        if forall m | m in matches && matches[m].session == s :: matches[m].HasEnded() {
          selected := selected + {s};
        }
        todo := todo - {s};
      }
    }

    method CloseSelected(now: Time)
      modifies this`sessions, this`clock
      ensures State() == AfterClose(old(State()), now)
    {
      var selected := GetMatchSessionsToEnd(now);
      PutInStatus(selected, SessionStatus.Closed);
      clock := now;
      assert sessions == AfterClose(old(State()), now).sessions;
    }

    method CloseMatchSessions(now: Time)
      requires Valid() && clock <= now && pending == map[]
      modifies this`sessions, this`clock
      ensures State() == AfterClose(old(State()), now)
      ensures Valid()
      ensures ClosesAll(old(State()), State(), now)
    {
      ClosedRows(State(), now);
      CloseKeepsInv(State(), now);
      CloseSelected(now);
    }

    // -------------------------------------------------------------- lookups

    ghost predicate TwoEntriesEach()
      reads this
    {
      forall m | m in matches :: |matches[m].entries| == 2
    }

    /** The first of some sessions, by start date. */
    method Earliest(rows: set<SessionId>) returns (s: SessionId)
      requires rows != {} && rows <= sessions.Keys
      ensures s in rows
      ensures forall t | t in rows :: sessions[s].startDate <= sessions[t].startDate
    {
      s :| s in rows;
      var todo := rows - {s};
      while todo != {}
        invariant todo <= rows && s in rows
        invariant forall t | t in rows - todo :: sessions[s].startDate <= sessions[t].startDate
      {
        var t :| t in todo;
        if sessions[t].startDate < sessions[s].startDate {
          s := t;
        }
        todo := todo - {t};
      }
    }

    method GetMatchByPlayerAndSession(p: PlayerId, s: SessionId) returns (r: Option<MatchId>)
      ensures r.Some? ==> exists k: nat :: Sits(State(), r.value, k, s, p)
      ensures r.None? ==> !HasSeat(State(), s, p)
    {
      var found := set m | m in matches && matches[m].session == s
        && exists k | 0 <= k < |matches[m].entries| :: matches[m].entries[k].player == p;
      if found == {} {
        r := None;
        forall m: MatchId, k: nat ensures !Sits(State(), m, k, s, p) {
          assert m !in found;
        }
      } else {
        var m :| m in found;
        r := Some(m);
        ghost var k :| 0 <= k < |matches[m].entries| && matches[m].entries[k].player == p;
        assert Sits(State(), m, k, s, p);
      }
    }

    /** The side of a player in a match; an error for strangers. */
    function SideOf(m: Match, p: PlayerId): (r: Option<nat>)
      ensures r.Some? ==> |m.entries| == 2 && r.value < 2 && m.entries[r.value].player == p
      ensures r.None? && |m.entries| == 2 ==> m.entries[0].player != p && m.entries[1].player != p
    {
      if |m.entries| != 2 then None
      else if m.entries[0].player == p then Some(0)
      else if m.entries[1].player == p then Some(1)
      else None
    }

    lemma OnlySeat(m: MatchId, k: nat, s: SessionId, p: PlayerId)
      requires OneSeat(State()) && Sits(State(), m, k, s, p)
      ensures EndedIn(State(), s, p) <==> matches[m].entries[k].HasEnded()
    {
    }

    method GetPlayerActiveSession(p: PlayerId) returns (r: Option<SessionId>)
      requires OneSeat(State()) && TwoEntriesEach()
      requires forall m | m in matches :: matches[m].session in sessions
      ensures r.Some? ==> Active(State(), p, r.value)
      ensures r.None? ==> NoActive(State(), p)
    {
      var rows := set s | s in sessions && sessions[s].Open() && p in sessions[s].players;
      while rows != {}
        invariant rows <= set s | s in sessions && sessions[s].Open() && p in sessions[s].players
        invariant forall s | Live(State(), s, p) :: s in rows
      {
        var s := Earliest(rows);
        var m := GetMatchByPlayerAndSession(p, s);
        if m.None? {
          assert Live(State(), s, p);
          return Some(s);
        }
        var k := SideOf(matches[m.value], p);
        OnlySeat(m.value, k.value, s, p);
        if !matches[m.value].entries[k.value].HasEnded() {
          assert Live(State(), s, p);
          return Some(s);
        }
        rows := rows - {s};
      }
      r := GetPlayerActiveStartedSession(p);
    }

    /** The fallback: a session where an entry of the player goes on. */
    method GetPlayerActiveStartedSession(p: PlayerId) returns (r: Option<SessionId>)
      requires forall m | m in matches :: matches[m].session in sessions
      ensures r.Some? ==> r.value in sessions && Unended(State(), r.value, p)
      ensures r.Some? ==> forall t | t in sessions && Unended(State(), t, p) ::
                sessions[r.value].startDate <= sessions[t].startDate
      ensures r.None? ==> forall s: SessionId :: !Unended(State(), s, p)
    {
      var found := set m | m in matches &&
        exists k | 0 <= k < |matches[m].entries| ::
          matches[m].entries[k].player == p && !matches[m].entries[k].HasEnded();
      var rows := set m | m in found :: matches[m].session;
      if rows == {} {
        assert forall m | m in found :: matches[m].session in rows;
        forall s: SessionId, m: MatchId, k: nat | Sits(State(), m, k, s, p) ensures matches[m].entries[k].HasEnded() {
          assert m !in found;
        }
        r := None;
      } else {
        var s := Earliest(rows);
        ghost var m :| m in found && matches[m].session == s;
        ghost var k :|
          0 <= k < |matches[m].entries| && matches[m].entries[k].player == p && !matches[m].entries[k].HasEnded();
        assert Sits(State(), m, k, s, p);
        forall t: SessionId, n: MatchId, j: nat | Sits(State(), n, j, t, p) && !matches[n].entries[j].HasEnded()
          ensures t in rows
        {
          assert n in found;
        }
        r := Some(s);
      }
    }

    lemma LookupReady()
      requires Valid()
      ensures OneSeat(State()) && TwoEntriesEach()
      ensures forall m | m in matches :: matches[m].session in sessions
    {
      RowsHaveTwoEntries(State());
      forall m | m in matches ensures matches[m].session in sessions {
        assert Placed(State(), matches[m]);
      }
    }

    // ------------------------------------------------------------ the players

    /** Does not look at the status of the session: the page that calls this only
        offers joinable ones, and then it is the join of the lifecycle. */
    method JoinMatchSessionByID(id: SessionId, p: PlayerId, now: Time) returns (r: Reply)
      requires Valid() && clock <= now
      modifies this`sessions, this`clock
      ensures r.Accepted? <==> MayJoin(old(State()), id, p)
      ensures r.Accepted? ==> State() == AfterJoin(old(State()), id, p, now)
      ensures r.Accepted? ==> OnlyList(old(State()), State(), id, now)
      ensures r.Accepted? ==> sessions[id].players == old(sessions)[id].players + [p]
      ensures old(CanJoin(State(), id, p)) ==> forall t: SessionId :: Live(State(), t, p) <==> t == id
      ensures r.Refused? ==> unchanged(this)
      ensures r != Refused(NothingJoinable)
      ensures r == Refused(UnknownSession) <==> id !in old(sessions)
      ensures r == Refused(AlreadyRegistered) <==> id in old(sessions) && p in old(sessions)[id].players
      ensures old(CanJoin(State(), id, p)) || r.Refused? ==> Valid()
    {
      ghost var db := State();
      JoinGuard(db, id, p);
      LookupReady();
      if id !in sessions {
        return Refused(UnknownSession);
      }
      var session := new MatchSession(sessions[id]);
      var listed := session.HasPlayerID(p);
      if listed {
        return Refused(AlreadyRegistered);
      }
      var active := GetPlayerActiveSession(p);
      if active.Some? {
        return Refused(RaceInProgress);
      }
      session.AddPlayerID([p]);
      assert Registered(sessions[id].players, [p][..0]) == sessions[id].players;
      sessions := sessions[id := session.Row()];
      clock := now;
      JoinedRow(db, id, p, now);
      if CanJoin(db, id, p) {
        JoinKeepsInv(db, id, p, now);
      }
      r := Accepted;
    }

    /** The sessions of a league that can be joined, by status and date. */
    function JoinableNow(league: LeagueId, now: Time): set<SessionId>
      reads this`sessions
    {
      set s | s in sessions
        && sessions[s].league == league && sessions[s].status.Joinable? && now < sessions[s].startDate
    }

    method JoinCurrentMatchSession(league: LeagueId, p: PlayerId, now: Time) returns (r: Reply, id: SessionId)
      requires Valid() && clock <= now
      modifies this`sessions, this`clock
      ensures Valid()
      ensures r == Refused(NothingJoinable) <==>
                forall s | s in old(sessions) :: !IsOpenFor(old(sessions)[s], league, now)
      ensures r != Refused(NothingJoinable) ==> id in old(sessions) && IsOpenFor(old(sessions)[id], league, now)
      ensures r != Refused(NothingJoinable) ==>
                forall s | s in old(sessions) && IsOpenFor(old(sessions)[s], league, now) ::
                  old(sessions)[id].startDate <= old(sessions)[s].startDate
      ensures r != Refused(NothingJoinable) ==> (r.Accepted? <==> MayJoin(old(State()), id, p))
      ensures r.Accepted? ==> State() == AfterJoin(old(State()), id, p, now)
      ensures r.Accepted? ==> OnlyList(old(State()), State(), id, now)
      ensures r.Accepted? ==> sessions[id].players == old(sessions)[id].players + [p]
      ensures r.Accepted? ==> forall t: SessionId :: Live(State(), t, p) <==> t == id
      ensures r.Refused? ==> unchanged(this)
    {
      id := 0;
      var open := JoinableNow(league, now);
      assert forall s | s in sessions :: IsOpenFor(sessions[s], league, now) <==> s in open;
      if open == {} {
        return Refused(NothingJoinable), 0;
      }
      id := Earliest(open);
      JoinGuard(State(), id, p);
      r := JoinMatchSessionByID(id, p, now);
    }

    method CancelActiveMatchSession(p: PlayerId, now: Time) returns (r: Reply, ghost id: SessionId)
      requires Valid() && clock <= now
      modifies this`sessions, this`clock
      ensures Valid()
      ensures r.Accepted? <==> exists s: SessionId :: MayLeave(old(State()), s, p, now)
      ensures r.Accepted? ==> CanCancel(old(State()), id, p, now) && State() == AfterCancel(old(State()), id, p, now)
      ensures r.Accepted? ==> OnlyList(old(State()), State(), id, now)
      ensures r.Accepted? ==> LeavesPlace(old(sessions)[id], sessions[id], p)
      ensures r.Accepted? ==> forall t: SessionId :: !Live(State(), t, p)
      ensures r.Refused? ==> unchanged(this)
      ensures r == Refused(NotInARace) <==> NoActive(old(State()), p)
    {
      ghost var db := State();
      LookupReady();
      var active := GetPlayerActiveSession(p);
      OneAnswer(db, p);
      if active.None? {
        return Refused(NotInARace), 0;
      }
      id := active.value;
      ActiveIsTheLiveOne(db, p, active.value);
      LeavesActiveOnly(db, active.value, p, now);
      var done := LeaveSession(active.value, p, now);
      if !done {
        return Refused(NotCancellable), 0;
      }
      assert CanCancel(db, active.value, p, now);
      CancelKeepsInv(db, active.value, p, now);
      CancelledRow(db, active.value, p, now);
      r := Accepted;
    }

    /** Takes the player off the list if the session can still be cancelled. */
    method LeaveSession(id: SessionId, p: PlayerId, now: Time) returns (done: bool)
      requires id in sessions && sessions[id].players != []
      modifies this`sessions, this`clock
      ensures done <==> old(sessions[id].CanCancel(now))
      ensures done ==> State() == AfterCancel(old(State()), id, p, now)
      ensures !done ==> unchanged(this)
    {
      var session := new MatchSession(sessions[id]);
      done := session.Row().CanCancel(now);
      if done {
        session.RemovePlayerID(p);
        sessions := sessions[id := session.Row()];
        clock := now;
      }
    }

    // --------------------------------------------------------- ends of races

    method CanForfeit(session: MatchSession, now: Time) returns (r: Reply)
      ensures r.Accepted? <==> session.status.Preparing? || session.status.InProgress?
      ensures r == Refused(CancelInstead) <==> session.status.Joinable? && now <= session.startDate - 15 * 60
      ensures r == Refused(AlreadyFinished) <==> session.status.Closed?
      ensures r.Refused? ==> r.why in {CancelInstead, AlreadyFinished, NotStarted}
    {
      if session.Row().CanCancel(now) {
        return Refused(CancelInstead);
      }
      if session.status.Closed? {
        return Refused(AlreadyFinished);
      }
      if !session.status.Preparing? && !session.status.InProgress? {
        return Refused(NotStarted);
      }
      r := Accepted;
    }

    /** Loads the two entries and the match, ends the race of one side, and
        writes the three rows back. */
    method EndEntry(m: MatchId, k: nat, forfeit: bool, now: Time)
      requires m in matches && m in journal && |matches[m].entries| == 2 && k < 2
      requires !forfeit ==> !matches[m].entries[1 - k].status.Waiting?
      modifies this`matches, this`journal, this`clock
      ensures State() == AfterEvent(old(State()), m, EndEvent(k, forfeit, now))
    {
      var mtch := new MatchRecord(matches[m]);
      var self := new MatchEntry(matches[m].entries[k]);
      var against := new MatchEntry(matches[m].entries[1 - k]);
      if forfeit {
        self.Forfeit(against, mtch, now);
      } else {
        self.Complete(against, mtch, now);
      }
      matches := matches[m := matches[m].(entries := matches[m].entries[k := self.Row()][1 - k := against.Row()])];
      matches := matches[m := matches[m].(startedAt := mtch.startedAt, endedAt := mtch.endedAt)];
      assert matches == old(matches)[m := Apply(old(matches)[m], EndEvent(k, forfeit, now))];
      journal, clock := journal[m := journal[m] + [EndEvent(k, forfeit, now)]], now;
    }

    method GetActiveMatchAndEntriesForPlayer(p: PlayerId, now: Time)
      returns (r: Reply, id: SessionId, m: MatchId, k: nat)
      requires OneSeat(State()) && TwoEntriesEach()
      requires forall n | n in matches :: matches[n].session in sessions
      ensures r.Accepted? ==>
                Active(State(), p, id) && sessions[id].CanForfeit(now) && Sits(State(), m, k, id, p) && k < 2
      ensures r.Refused? ==> CannotEnd(State(), p, now, r.why)
    {
      id, m, k := 0, 0, 0;
      var active := GetPlayerActiveSession(p);
      if active.None? {
        return Refused(NotInARace), 0, 0, 0;
      }
      id := active.value;
      var session := new MatchSession(sessions[id]);
      r := CanForfeit(session, now);
      if r.Refused? {
        return r, 0, 0, 0;
      }
      var found := GetMatchByPlayerAndSession(p, id);
      if found.None? {
        return Refused(NoMatch), 0, 0, 0;
      }
      m := found.value;
      var side := SideOf(matches[m], p);
      k := side.value;
    }

    /** A player's `!done` or `!forfeit`. */
    method EndActiveMatch(p: PlayerId, forfeit: bool, now: Time)
      returns (r: Reply, ghost id: SessionId, ghost m: MatchId, ghost k: nat)
      requires Valid() && clock <= now
      modifies this`matches, this`journal, this`clock
      ensures Valid()
      ensures r.Accepted? ==> MayEnd(old(State()), id, p, m, k, forfeit) && |old(matches)[m].entries| == 2
      ensures r.Accepted? ==> State() == AfterEvent(old(State()), m, EndEvent(k, forfeit, now))
      ensures r.Accepted? ==> k < 2
      ensures r.Accepted? ==> OnlyMatch(old(State()), State(), m, now) && |matches[m].entries| == 2
      ensures r.Accepted? && !forfeit ==> HasFinished(old(matches)[m], matches[m], k, now)
      ensures r.Accepted? && forfeit ==> HasForfeited(old(matches)[m], matches[m], k, now)
      ensures r.Accepted? ==> OtherwiseSame(old(matches)[m], matches[m], k, now)
      ensures r.Refused? ==> unchanged(this) && forall s, n, j :: !MayEnd(State(), s, p, n, j, forfeit)
    {
      ghost var db := State();
      LookupReady();
      var session, match_, side;
      r, session, match_, side := GetActiveMatchAndEntriesForPlayer(p, now);
      id, m, k := session, match_, side;
      if r.Refused? {
        NothingToEnd(db, p, forfeit, now, r.why);
        NobodyMayEnd(db, p, forfeit, now);
        return;
      }
      if !forfeit && !matches[match_].entries[side].status.InProgress? {
        NothingToComplete(db, id, p, m, k, now);
        NobodyMayEnd(db, p, forfeit, now);
        return Refused(NotStarted), id, m, k;
      }
      EndReady(db, id, p, m, k, forfeit, now);
      EndEntry(match_, side, forfeit, now);
      EndKeepsInv(db, id, p, m, k, forfeit, now);
      EndedRows(db, id, p, m, k, forfeit, now);
      EndGuard(db, id, p, m, k, forfeit, now);
    }

    // ------------------------------------------------ the start of a session

    method StartEntries(m: MatchId, now: Time)
      requires m in matches && |matches[m].entries| == 2
      modifies this`matches
      ensures matches == old(matches)[m := Apply(old(matches)[m], Start(now))]
    {
      var row := matches[m].(startedAt := Some(now));
      for l := 0 to 2
        invariant row == old(matches)[m].(startedAt := Some(now), entries := row.entries)
        invariant |row.entries| == 2
        invariant forall k | 0 <= k < 2 ::
          row.entries[k] == if k < l then StartEntry(old(matches)[m].entries[k], now) else old(matches)[m].entries[k]
      {
        if row.entries[l].status.Waiting? {
          var entry := row.entries[l].(status := EntryStatus.InProgress, startedAt := Some(now));
          row := row.(entries := row.entries[l := entry]);
        }
      }
      assert row == Apply(old(matches)[m], Start(now));
      matches := matches[m := row];
    }

    method StartMatchesOf(id: SessionId, now: Time)
      requires TwoEntriesEach()
      modifies this`matches
      ensures matches.Keys == old(matches).Keys
      ensures forall m | m in old(matches) ::
        matches[m] == if StartsWith(old(matches)[m], id) then Apply(old(matches)[m], Start(now)) else old(matches)[m]
    {
      ghost var before := matches;
      var selected := set m | m in matches && StartsWith(matches[m], id);
      var todo := selected;
      while todo != {}
        invariant todo <= selected && matches.Keys == before.Keys
        invariant forall m | m in before ::
          matches[m] == if m in selected && m !in todo then Apply(before[m], Start(now)) else before[m]
      {
        var m :| m in todo;
        StartEntries(m, now);
        todo := todo - {m};
      }
    }

    /** An error for a session that is not in preparation. */
    method StartMatchSession(id: SessionId, now: Time) returns (ok: bool)
      requires TwoEntriesEach() && journal.Keys == matches.Keys
      requires id in sessions
      modifies this`sessions, this`matches, this`journal, this`clock
      ensures ok <==> old(sessions[id].status.Preparing?)
      ensures ok ==> State() == AfterStart(old(State()), id, now)
      ensures ok ==> StartsSession(old(State()), State(), id, now)
      ensures !ok ==> unchanged(this)
    {
      ok := sessions[id].status.Preparing?;
      if !ok {
        return;
      }
      ghost var db := State();
      sessions := sessions[id := sessions[id].(status := SessionStatus.InProgress)];
      StartMatchesOf(id, now);
      assert matches == StartedMatches(db, id, now);
      journal, clock := StartedJournal(db, id, now), now;
      StartedRows(db, id, now);
    }

    /** One start among those of a tick. */
    method StartOne(id: SessionId, now: Time)
      requires Valid() && clock <= now && CanStart(State(), id, now)
      modifies this`sessions, this`matches, this`journal, this`clock
      ensures Valid() && CanRun(old(State()), [StartSession(id, now)])
      ensures State() == Run(old(State()), [StartSession(id, now)])
      ensures clock == now && id in sessions
      ensures sessions == old(sessions)[id := old(sessions)[id].(status := SessionStatus.InProgress)]
    {
      RowsHaveTwoEntries(State());
      RunOne(State(), StartSession(id, now));
      StartKeepsInv(State(), id, now);
      var ok := StartMatchSession(id, now);
    }

    /** Starts at once what is due. */
    method InstantlyStartMatchSessions(now: Time) returns (ghost acts: seq<Action>)
      requires Valid() && clock <= now && pending == map[]
      modifies this`sessions, this`matches, this`journal, this`clock
      ensures Valid()
      ensures CanRun(old(State()), acts) && State() == Run(old(State()), acts)
      ensures forall a | a in acts :: a.StartSession? && a.now == now
      ensures StartsDue(old(sessions), sessions, now, {})
    {
      acts := [];
      var todo := set s | s in sessions
        && sessions[s].status.Preparing? && sessions[s].startDate <= now + COUNTDOWN_LEAD;
      while todo != {}
        invariant Valid() && clock <= now && todo <= sessions.Keys
        invariant CanRun(old(State()), acts) && State() == Run(old(State()), acts)
        invariant forall a | a in acts :: a.StartSession? && a.now == now
        invariant forall s | s in todo :: s in old(sessions) && IsDue(old(sessions)[s], now)
        invariant StartsDue(old(sessions), sessions, now, todo)
      {
        var s :| s in todo;
        StartsOneMore(old(sessions), sessions, now, todo, s);
        StartOne(s, now);
        RunOn(old(State()), acts, [StartSession(s, now)]);
        acts := acts + [StartSession(s, now)];
        todo := todo - {s};
      }
    }

    /** Begins a countdown for each session that is due and has none. */
    method StartMatchSessions(now: Time) returns (ghost acts: seq<Action>)
      requires Valid() && clock <= now && pending == map[]
      modifies this`counting, this`clock
      ensures Valid()
      ensures CanRun(old(State()), acts) && State() == Run(old(State()), acts)
      ensures forall a | a in acts :: a.BeginCountdown? && a.now == now
      ensures forall s | s in sessions && IsDue(sessions[s], now) :: s in counting
      ensures CountsDue(sessions, old(counting), counting, now)
    {
      acts := [];
      var todo := set s | s in sessions
        && sessions[s].status.Preparing? && sessions[s].startDate <= now + COUNTDOWN_LEAD;
      ghost var due, db := todo, State();
      while todo != {}
        invariant Valid() && clock <= now && todo <= due
        invariant CanRun(db, acts) && State() == Run(db, acts)
        invariant forall a | a in acts :: a.BeginCountdown? && a.now == now
        invariant due <= todo + counting.Keys
        invariant CountsDue(sessions, db.counting, counting, now)
      {
        var s :| s in todo;
        ghost var before := counting;
        ghost var more := BeginIfNone(s, now);
        RunOn(db, acts, more);
        CountsOn(sessions, db.counting, before, counting, now);
        acts := acts + more;
        todo := todo - {s};
      }
    }

    method BeginIfNone(id: SessionId, now: Time) returns (ghost acts: seq<Action>)
      requires Valid() && clock <= now && pending == map[] && id in sessions && IsDue(sessions[id], now)
      modifies this`counting, this`clock
      ensures Valid() && clock <= now
      ensures CanRun(old(State()), acts) && State() == Run(old(State()), acts)
      ensures forall a | a in acts :: a.BeginCountdown? && a.now == now
      ensures counting.Keys == old(counting).Keys + {id}
      ensures CountsDue(sessions, old(counting), counting, now)
    {
      acts := [];
      if id !in counting {
        BeginCountdown(id, now);
        acts := [Action.BeginCountdown(id, now)];
      }
    }

    method BeginCountdown(id: SessionId, now: Time)
      requires Valid() && clock <= now && CanBeginCountdown(State(), id, now)
      modifies this`counting, this`clock
      ensures Valid() && CanRun(old(State()), [Action.BeginCountdown(id, now)])
      ensures State() == Run(old(State()), [Action.BeginCountdown(id, now)])
      ensures clock == now && counting == old(counting)[id := sessions[id]]
    {
      RunOne(State(), Action.BeginCountdown(id, now));
      BeginCountdownKeepsInv(State(), id, now);
      counting, clock := counting[id := sessions[id]], now;
    }

    /** Starts the matches of a session, and writes back the row the countdown
        carries. */
    method StartCounted(id: SessionId, now: Time)
      requires TwoEntriesEach() && journal.Keys == matches.Keys && id in counting
      modifies this`sessions, this`matches, this`journal, this`counting, this`clock
      ensures State() == AfterEndCountdown(old(State()), id, now)
    {
      ghost var db := State();
      var session := counting[id].(status := SessionStatus.InProgress);
      StartMatchesOf(id, now);
      assert matches == StartedMatches(db, id, now);
      sessions, counting := sessions[id := session], counting - {id};
      journal, clock := StartedJournal(db, id, now), now;
    }

    /** The end of a countdown, which does not look at what is stored: unless the
        session has been closed meanwhile, it is a step of the lifecycle; also
        otherwise, all is well if nobody has joined another race. */
    method EndCountdown(id: SessionId, now: Time)
      requires Valid() && clock <= now && CountedDown(State(), id, now)
      modifies this`sessions, this`matches, this`journal, this`counting, this`clock
      ensures old(TwoEntriesEach()) && State() == AfterEndCountdown(old(State()), id, now)
      ensures StartsSession(old(State()), State(), id, now)
      ensures !old(sessions[id].status.Closed?) ==> Valid()
      ensures Valid() <==> old(AllFree(State(), id))
    {
      RowsHaveTwoEntries(State());
      ghost var db := State();
      StartCounted(id, now);
      CountdownKeepsInvIff(db, id, now);
      CountedDownRows(db, id, now);
      if !db.sessions[id].status.Closed? {
        EndCountdownKeepsInv(db, id, now);
      }
    }

    // ------------------------------------------------------------ matchmaking

    /** Drops the odd player, and writes the carried row back. */
    method EnsureSessionIsValidForMatchMaking(id: SessionId, copy: Session) returns (kept: Session, ok: bool)
      modifies this`sessions
      ensures kept == WrittenBack(copy)
      ensures sessions == old(sessions)[id := kept]
      ensures ok <==> |copy.players| >= 2 && copy.status.Preparing?
    {
      var session := new MatchSession(copy);
      var players := session.playerIDs;
      if |players| % 2 == 1 {
        session.RemovePlayerID(players[|players| - 1]);
      }
      sessions := sessions[id := session.Row()];
      kept := session.Row();
      ok := |players| >= 2 && kept.status.Preparing?;
    }

    method InsertMatch(league: LeagueId, id: SessionId, p: PlayerId, q: PlayerId, ghost before: map<MatchId, Match>,
                       ghost seats: seq<Seat>)
      returns (ghost t: Seat)
      requires Inserted(before, league, id, seats, matches)
      modifies this`matches
      ensures t == Seat(t.id, p, q)
      ensures Inserted(before, league, id, seats + [t], matches)
    {
      var m := FreshId(matches.Keys);
      t := Seat(m, p, q);
      InsertedNext(before, league, id, seats, matches, t);
      matches := matches[m := NewMatch(league, id, p, q)];
    }

    /** Inserts a match with two entries for every pair. */
    method InsertMatches(league: LeagueId, id: SessionId, pairs: seq<Pair>) returns (ghost seats: seq<Seat>)
      modifies this`matches
      ensures SeatsPairs(seats, pairs) && Inserted(old(matches), league, id, seats, matches)
    {
      ghost var before := matches;
      seats := [];
      InsertedNone(matches, league, id);
      for k := 0 to |pairs|
        invariant SeatsPairs(seats, pairs[..k])
        invariant Inserted(before, league, id, seats, matches)
      {
        ghost var t := InsertMatch(league, id, pairs[k].p1.id, pairs[k].p2.id, before, seats);
        seats := seats + [t];
      }
      assert pairs[..|pairs|] == pairs;
    }

    /** Pairs the players of a carried row, and creates their matches. */
    method MatchMakeSession(id: SessionId, copy: Session, ratings: map<(LeagueId, PlayerId), PlayerRating>)
      returns (ghost seats: seq<Seat>)
      requires Valid() && id in pending && pending[id] == copy
      modifies this`sessions, this`matches, this`journal, this`pending
      ensures Valid() && clock == old(clock)
      ensures CanMatchMake(old(State()), id, seats) && State() == AfterMatchMake(old(State()), id, seats)
      ensures SeatsBySkill(copy.league, LessTheOdd(copy.players), ratings, seats)
      ensures MatchMakes(old(State()), State(), id, seats)
    {
      ghost var db := State();
      CarriedRow(db, id);
      WithoutIsKick(copy.players);
      var ok, panic;
      ok, panic, seats := CreateMatches(id, copy, ratings);
      CreatedIsMatchMade(db, id, ratings, seats, State());
      MatchMakeKeepsInv(db, id, seats);
      MatchMadeRows(db, id, seats);
    }

    method PairAndInsert(id: SessionId, kept: Session, ratings: map<(LeagueId, PlayerId), PlayerRating>)
      returns (ghost seats: seq<Seat>)
      requires !CannotPair(kept.players)
      modifies this`matches
      ensures Creates(old(matches), id, kept.league, kept.players, ratings, seats, matches)
    {
      var players := GetSessionPlayers(kept.league, kept.players, ratings);
      var pairs;
      ghost var es;
      pairs, es := RangedPairPlayers(players);
      seats := InsertMatches(kept.league, id, pairs);
      PairsSeatThePlayers(kept.players, players, pairs, seats);
    }

    method PairAndClear(id: SessionId, kept: Session, ratings: map<(LeagueId, PlayerId), PlayerRating>)
      returns (ghost seats: seq<Seat>)
      requires !CannotPair(kept.players)
      modifies this`matches, this`journal, this`pending
      ensures Creates(old(matches), id, kept.league, kept.players, ratings, seats, matches)
      ensures journal == old(journal) + NewJournal(seats) && pending == old(pending) - {id}
    {
      seats := PairAndInsert(id, kept, ratings);
      journal, pending := journal + NewJournal(seats), pending - {id};
    }

    /** For any row. Does nothing for one that is not in preparation; of one with
        less than two players, only writes the row back. What is left of a list
        with repetitions may be odd, and then pairing panics. */
    method CreateMatches(id: SessionId, copy: Session, ratings: map<(LeagueId, PlayerId), PlayerRating>)
      returns (ok: bool, panic: bool, ghost seats: seq<Seat>)
      modifies this`sessions, this`matches, this`journal, this`pending
      ensures ok || panic <==> copy.status.Preparing? && |copy.players| >= 2
      ensures panic ==> CannotPair(WithoutOdd(copy.players))
      ensures ok ==> !CannotPair(WithoutOdd(copy.players))
      ensures sessions == if copy.status.Preparing? then old(sessions)[id := WrittenBack(copy)] else old(sessions)
      ensures ok ==> Creates(old(matches), id, copy.league, WithoutOdd(copy.players), ratings, seats, matches)
      ensures ok ==> journal == old(journal) + NewJournal(seats) && pending == old(pending) - {id}
      ensures !ok ==> matches == old(matches) && journal == old(journal) && pending == old(pending)
    {
      ok, panic, seats := false, false, [];
      if !copy.status.Preparing? {
        return;
      }
      var kept;
      kept, ok := EnsureSessionIsValidForMatchMaking(id, copy);
      if ok && CannotPair(kept.players) {
        return false, true, [];
      }
      if ok {
        seats := PairAndClear(id, kept, ratings);
      }
    }

    /** One matchmaking among those of a pass. */
    method MatchMakeCarried(s: SessionId, copies: map<SessionId, Session>,
                            ratings: map<(LeagueId, PlayerId), PlayerRating>)
      returns (ghost a: Action)
      requires Valid() && s in pending && s in copies && pending[s] == copies[s]
      modifies this`sessions, this`matches, this`journal, this`pending
      ensures Valid() && pending == old(pending) - {s}
      ensures MatchMakesBySkill(a, copies, ratings)
      ensures CanRun(old(State()), [a]) && State() == Run(old(State()), [a])
    {
      ghost var db := State();
      ghost var seats := MatchMakeSession(s, copies[s], ratings);
      a := MatchMake(s, seats);
      MatchMakeRuns(db, s, seats);
    }

    method DoMatchMaking(copies: map<SessionId, Session>, ratings: map<(LeagueId, PlayerId), PlayerRating>)
      returns (ghost acts: seq<Action>)
      requires Valid() && copies == pending
      modifies this`sessions, this`matches, this`journal, this`pending
      ensures Valid() && pending == map[]
      ensures CanRun(old(State()), acts) && State() == Run(old(State()), acts)
      ensures forall a | a in acts :: MatchMakesBySkill(a, copies, ratings)
    {
      acts := [];
      var todo := copies.Keys;
      while todo != {}
        invariant Valid() && todo <= copies.Keys && todo == pending.Keys
        invariant forall s | s in todo :: pending[s] == copies[s]
        invariant CanRun(old(State()), acts) && State() == Run(old(State()), acts)
        invariant forall a | a in acts :: MatchMakesBySkill(a, copies, ratings)
      {
        var s :| s in todo;
        ghost var a := MatchMakeCarried(s, copies, ratings);
        RunOn(old(State()), acts, [a]);
        acts := acts + [a];
        todo := todo - {s};
      }
    }
  }

  /** The odd player is removed wherever they are listed. */
  function WithoutOdd(players: seq<PlayerId>): seq<PlayerId> {
    if |players| % 2 == 1 then Without(players, players[|players| - 1]) else players
  }

  function WrittenBack(copy: Session): Session {
    copy.(players := WithoutOdd(copy.players))
  }

  /** An odd number of players is not paired, unless it is only one. */
  predicate CannotPair(players: seq<PlayerId>) {
    |players| >= 2 && |players| % 2 == 1
  }

  function ToSeat(players: seq<PlayerId>): seq<PlayerId> {
    if |players| < 2 then [] else players
  }

  /** Without repetitions the odd player is the last one, and the others can be
      paired. */
  lemma WithoutIsKick(players: seq<PlayerId>)
    requires Distinct(players)
    ensures WithoutOdd(players) == KickOdd(players) == LessTheOdd(players)
    ensures |players| >= 2 ==> ToSeat(KickOdd(players)) == KickOdd(players) && !CannotPair(KickOdd(players))
  {
    LessTheOddIsKick(players);
    if |players| % 2 == 1 {
      RemovingTheLast(players);
    }
  }

  /** What matchmaking writes for a carried row is its step in the lifecycle. */
  lemma {:induction false} CreatedIsMatchMade(db: Db, id: SessionId, ratings: map<(LeagueId, PlayerId), PlayerRating>,
                                              seats: seq<Seat>, d: Db)
    requires id in db.pending && Distinct(db.pending[id].players) && |db.pending[id].players| >= 2
    requires d.sessions == db.sessions[id := WrittenBack(db.pending[id])]
    requires var copy := db.pending[id];
      Creates(db.matches, id, copy.league, WithoutOdd(copy.players), ratings, seats, d.matches)
    requires d.journal == db.journal + NewJournal(seats) && d.pending == db.pending - {id}
    requires d.counting == db.counting && d.clock == db.clock
    ensures CanMatchMake(db, id, seats) && d == AfterMatchMake(db, id, seats)
    ensures SeatsBySkill(db.pending[id].league, LessTheOdd(db.pending[id].players), ratings, seats)
  {
    WithoutIsKick(db.pending[id].players);
  }

  datatype PlayerRating = PlayerRating(rating: real, deviation: real)

  /** The rating of a player without a row. */
  const BASE_RATING := PlayerRating(1500.0, 350.0)

  function RatedPlayer(league: LeagueId, id: PlayerId, ratings: map<(LeagueId, PlayerId), PlayerRating>): Player {
    var r := if (league, id) in ratings then ratings[(league, id)] else BASE_RATING;
    Player(id, r.rating, r.deviation)
  }

  /** The listed players in order, each with their stored rating in the league, or
      1500 and 350 without one. */
  ghost predicate AreRated(players: seq<Player>, league: LeagueId, ids: seq<PlayerId>,
                           ratings: map<(LeagueId, PlayerId), PlayerRating>)
  {
    && |players| == |ids|
    && forall i | 0 <= i < |ids| ::
         && players[i].id == ids[i]
         && ((league, ids[i]) in ratings ==> players[i].rating == ratings[(league, ids[i])].rating
                                             && players[i].deviation == ratings[(league, ids[i])].deviation)
         && ((league, ids[i]) !in ratings ==> players[i].rating == 1500.0 && players[i].deviation == 350.0)
  }

  /** The seats are those of the listed players, paired by their ratings. */
  ghost predicate SeatsBySkill(league: LeagueId, ids: seq<PlayerId>, ratings: map<(LeagueId, PlayerId), PlayerRating>,
                               seats: seq<Seat>)
  {
    if |ids| < 2 then seats == []
    else exists players, pairs, es ::
      AreRated(players, league, ids, ratings) && PairedBySkill(players, pairs, es) && SeatsPairs(seats, pairs)
  }

  /** Matches were inserted for the listed players, by skill, each seated once. */
  ghost predicate Creates(before: map<MatchId, Match>, id: SessionId, league: LeagueId, ids: seq<PlayerId>,
                          ratings: map<(LeagueId, PlayerId), PlayerRating>, seats: seq<Seat>,
                          after: map<MatchId, Match>)
  {
    && Inserted(before, league, id, seats, after)
    && multiset(Seated(seats)) == multiset(ToSeat(ids))
    && SeatsBySkill(league, ids, ratings, seats)
  }

  lemma {:induction false} MatchMakeRuns(db: Db, id: SessionId, seats: seq<Seat>)
    requires Recorded(db) && CanMatchMake(db, id, seats)
    ensures CanRun(db, [MatchMake(id, seats)])
    ensures Run(db, [MatchMake(id, seats)]) == AfterMatchMake(db, id, seats)
  {
    RunOne(db, MatchMake(id, seats));
  }

  /** The matchmaking of a carried row, by skill. */
  ghost predicate MatchMakesBySkill(a: Action, copies: map<SessionId, Session>,
                                    ratings: map<(LeagueId, PlayerId), PlayerRating>)
  {
    && a.MatchMake? && a.id in copies
    && SeatsBySkill(copies[a.id].league, LessTheOdd(copies[a.id].players), ratings, a.seats)
  }

  method GetSessionPlayers(league: LeagueId, ids: seq<PlayerId>, ratings: map<(LeagueId, PlayerId), PlayerRating>)
    returns (players: seq<Player>)
    ensures AreRated(players, league, ids, ratings)
  {
    players := [];
    for i := 0 to |ids|
      invariant |players| == i && forall k | 0 <= k < i :: players[k] == RatedPlayer(league, ids[k], ratings)
    {
      players := players + [RatedPlayer(league, ids[i], ratings)];
    }
  }

  lemma CarriedRow(db: Db, id: SessionId)
    requires Inv(db) && id in db.pending
    ensures Distinct(db.pending[id].players) && |db.pending[id].players| >= 2 && db.pending[id].status.Preparing?
  {
    assert GoodSession(db.sessions[id]);
  }

  function Ids(players: seq<Player>): seq<PlayerId> {
    seq(|players|, i requires 0 <= i < |players| => players[i].id)
  }

  /** Rearranged players have rearranged identifiers. */
  lemma {:induction false} IdsRearranged(a: seq<Player>, b: seq<Player>)
    requires multiset(a) == multiset(b)
    ensures multiset(Ids(a)) == multiset(Ids(b))
  {
    if a == [] {
      assert |multiset(b)| == 0;
    } else {
      var n := |a| - 1;
      var j := FindLast(a, b);
      IdsRearranged(a[..n], Drop(b, j));
      IdsDrop(a, n);
      IdsDrop(b, j);
      assert Drop(a, n) == a[..n];
    }
  }

  lemma IdsDrop(players: seq<Player>, i: nat)
    requires i < |players|
    ensures multiset(Ids(players)) == multiset(Ids(Drop(players, i))) + multiset{players[i].id}
  {
    DropCounts(Ids(players), i);
    assert Ids(Drop(players, i)) == Drop(Ids(players), i);
  }

  lemma {:induction false} SeatsHaveTheIds(pairs: seq<Pair>, seats: seq<Seat>)
    requires SeatsPairs(seats, pairs)
    ensures Seated(seats) == Ids(Flat(pairs))
  {
    if pairs != [] {
      var n := |pairs| - 1;
      SeatsHaveTheIds(pairs[..n], seats[..n]);
      assert Ids(Flat(pairs)) == Ids(Flat(pairs[..n])) + [pairs[n].p1.id, pairs[n].p2.id];
    }
  }

  lemma {:induction false} PairsSeatThePlayers(ids: seq<PlayerId>, players: seq<Player>, pairs: seq<Pair>,
                                               seats: seq<Seat>)
    requires |players| == |ids| && forall i | 0 <= i < |ids| :: players[i].id == ids[i]
    requires |players| != 1 ==> multiset(Flat(pairs)) == multiset(players)
    requires |players| < 2 ==> pairs == []
    requires SeatsPairs(seats, pairs)
    ensures multiset(Seated(seats)) == multiset(ToSeat(ids))
  {
    SeatsHaveTheIds(pairs, seats);
    if |players| >= 2 {
      IdsAre(ids, players);
      IdsRearranged(Flat(pairs), players);
    } else {
      assert Ids([]) == [];
    }
  }

  lemma IdsAre(ids: seq<PlayerId>, players: seq<Player>)
    requires |players| == |ids| && forall i | 0 <= i < |ids| :: players[i].id == ids[i]
    ensures ids == Ids(players)
  {
  }

  /** One seat per pair, for the same players. */
  ghost predicate SeatsPairs(seats: seq<Seat>, pairs: seq<Pair>) {
    |seats| == |pairs| && forall i | 0 <= i < |pairs| :: seats[i].p == pairs[i].p1.id && seats[i].q == pairs[i].p2.id
  }

  /** Rows for the seats have been added, under new identifiers. */
  ghost predicate Inserted(before: map<MatchId, Match>, league: LeagueId, id: SessionId, seats: seq<Seat>,
                           after: map<MatchId, Match>) {
    && DistinctSeats(seats)
    && (forall t | t in seats :: t.id !in before)
    && after == before + NewMatches(league, id, seats)
  }

  lemma InsertedNone(before: map<MatchId, Match>, league: LeagueId, id: SessionId)
    ensures Inserted(before, league, id, [], before)
  {
  }

  lemma DistinctSeatsNext(seats: seq<Seat>, t: Seat)
    requires DistinctSeats(seats) && forall u | u in seats :: u.id != t.id
    ensures DistinctSeats(seats + [t])
    ensures forall u :: u in seats + [t] <==> u in seats || u == t
  {
  }

  lemma UpdateRight<K, V>(a: map<K, V>, b: map<K, V>, k: K, v: V)
    ensures (a + b)[k := v] == a + b[k := v]
  {
  }

  lemma UnusedId(before: map<MatchId, Match>, league: LeagueId, id: SessionId, seats: seq<Seat>,
                 after: map<MatchId, Match>, m: MatchId)
    requires Inserted(before, league, id, seats, after) && m !in after
    ensures m !in before && forall u | u in seats :: u.id != m
  {
    NewMatchesAre(league, id, seats);
    forall u | u in seats ensures u.id in after {
      assert u.id in NewMatches(league, id, seats);
    }
  }

  lemma InsertedNext(before: map<MatchId, Match>, league: LeagueId, id: SessionId, seats: seq<Seat>,
                     after: map<MatchId, Match>, t: Seat)
    requires Inserted(before, league, id, seats, after) && t.id !in after
    ensures Inserted(before, league, id, seats + [t], after[t.id := NewMatch(league, id, t.p, t.q)])
  {
    UnusedId(before, league, id, seats, after, t.id);
    DistinctSeatsNext(seats, t);
    assert (seats + [t])[..|seats + [t]| - 1] == seats;
    UpdateRight(before, NewMatches(league, id, seats), t.id, NewMatch(league, id, t.p, t.q));
  }

  /** What the lookup of an active match can run into. */
  ghost predicate CannotEnd(db: Db, p: PlayerId, now: Time, why: Refusal) {
    match why
    case NotInARace => NoActive(db, p)
    case CancelInstead => exists s: SessionId :: Active(db, p, s) && db.sessions[s].CanCancel(now)
    case AlreadyFinished => exists s: SessionId :: Active(db, p, s) && db.sessions[s].status.Closed?
    case NotStarted => exists s: SessionId :: Active(db, p, s) && db.sessions[s].status.Rank() < 2
    case NoMatch => exists s: SessionId :: Active(db, p, s) && !HasSeat(db, s, p)
    case _ => false
  }

  lemma NothingToEnd(db: Db, p: PlayerId, forfeit: bool, now: Time, why: Refusal)
    requires Inv(db) && CannotEnd(db, p, now, why)
    ensures forall s, n, j :: !CanEnd(db, s, p, n, j, forfeit, now)
  {
    OneAnswer(db, p);
  }

  lemma NothingToComplete(db: Db, id: SessionId, p: PlayerId, m: MatchId, k: nat, now: Time)
    requires Inv(db) && Active(db, p, id) && Sits(db, m, k, id, p) && !db.matches[m].entries[k].status.InProgress?
    ensures forall s, n, j :: !CanEnd(db, s, p, n, j, false, now)
  {
    OneAnswer(db, p);
    assert forall n: MatchId, j: nat | Sits(db, n, j, id, p) :: n == m && j == k;
  }

  lemma EndReady(db: Db, id: SessionId, p: PlayerId, m: MatchId, k: nat, forfeit: bool, now: Time)
    requires Inv(db) && db.clock <= now && CanEnd(db, id, p, m, k, forfeit, now)
    ensures m in db.journal && |db.matches[m].entries| == 2 && k < 2
    ensures !forfeit ==> !db.matches[m].entries[1 - k].status.Waiting?
  {
    ExplainedIsSound(db.journal[m], db.matches[m], db.clock);
    EndIsLegal(db, id, p, m, k, forfeit, now);
  }

  lemma OneAnswer(db: Db, p: PlayerId)
    requires Inv(db)
    ensures forall s: SessionId, t: SessionId :: Active(db, p, s) && Active(db, p, t) ==> s == t
    ensures NoActive(db, p) ==> forall s: SessionId :: !Active(db, p, s)
  {
    forall s: SessionId ensures Active(db, p, s) <==> Live(db, s, p) {
      ActiveIsTheLiveOne(db, p, s);
    }
  }

  ghost predicate HasSlot(db: Db, league: LeagueId, startDate: Time) {
    exists s | s in db.sessions :: db.sessions[s].league == league && db.sessions[s].startDate == startDate
  }

  lemma SlotsStay(db: Db, d: Db)
    requires forall s | s in db.sessions :: s in d.sessions && d.sessions[s] == db.sessions[s]
    ensures forall l, t :: HasSlot(db, l, t) ==> HasSlot(d, l, t)
  {
    forall l, t | HasSlot(db, l, t) ensures HasSlot(d, l, t) {
      var s :| s in db.sessions && db.sessions[s].league == l && db.sessions[s].startDate == t;
      assert d.sessions[s] == db.sessions[s];
    }
  }
}

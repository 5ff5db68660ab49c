/** What holds in every reachable state, and over whole runs. */
module Runs {
  import opened Rows
  import opened Sequences
  import opened MatchHistory
  import opened Lifecycle
  import opened LifecycleInvariant
  import opened LifecycleMatchSteps

  ghost predicate CanRun(db: Db, acts: seq<Action>)
    decreases |acts|
  {
    acts != [] ==> Recorded(db) && Enabled(db, acts[0]) && CanRun(Do(db, acts[0]), acts[1..])
  }

  ghost function Run(db: Db, acts: seq<Action>): Db
    requires CanRun(db, acts)
    decreases |acts|
  {
    if acts == [] then db else Run(Do(db, acts[0]), acts[1..])
  }

  lemma {:induction false} RunKeepsInv(db: Db, acts: seq<Action>)
    requires Inv(db) && CanRun(db, acts)
    ensures Inv(Run(db, acts))
    decreases |acts|
  {
    if acts != [] {
      StepKeepsInv(db, acts[0]);
      RunKeepsInv(Do(db, acts[0]), acts[1..]);
    }
  }

  /** After the first action of a run. */
  ghost function AfterFirst(db: Db, acts: seq<Action>): Db
    requires acts != [] && CanRun(db, acts)
  {
    Do(db, acts[0])
  }

  lemma {:induction false} RunRest(db: Db, acts: seq<Action>)
    requires acts != [] && CanRun(db, acts)
    ensures CanRun(AfterFirst(db, acts), acts[1..]) && Run(db, acts) == Run(AfterFirst(db, acts), acts[1..])
  {
  }

  lemma {:induction false} RunLonger(db: Db, a: seq<Action>, b: seq<Action>)
    requires a != [] && CanRun(db, a) && CanRun(AfterFirst(db, a), a[1..] + b)
    ensures CanRun(db, a + b) && Run(db, a + b) == Run(AfterFirst(db, a), a[1..] + b)
  {
    assert (a + b)[0] == a[0] && (a + b)[1..] == a[1..] + b;
  }

  lemma {:induction false} RunOn(db: Db, a: seq<Action>, b: seq<Action>)
    requires CanRun(db, a) && CanRun(Run(db, a), b)
    ensures CanRun(db, a + b) && Run(db, a + b) == Run(Run(db, a), b)
    decreases |a|
  {
    if a == [] {
      assert a + b == b;
    } else {
      RunRest(db, a);
      RunOn(AfterFirst(db, a), a[1..], b);
      RunLonger(db, a, b);
    }
  }

  lemma {:induction false} RunOne(db: Db, a: Action)
    requires Recorded(db) && Enabled(db, a)
    ensures CanRun(db, [a]) && Run(db, [a]) == Do(db, a)
  {
    assert [a][1..] == [];
  }

  lemma EmptyIsGood()
    ensures Inv(EMPTY_DB)
  {
  }

  // ------------------------------------------------ in every reachable state

  /** A player has at most one commitment, and the lookup finds exactly it. */
  lemma {:induction false} OneActiveRace(acts: seq<Action>, p: PlayerId, s: SessionId, t: SessionId)
    requires CanRun(EMPTY_DB, acts)
    ensures var db := Run(EMPTY_DB, acts);
      && (Live(db, s, p) && Live(db, t, p) ==> s == t)
      && (Unended(db, s, p) ==> Live(db, s, p))
      && (Active(db, p, s) <==> Live(db, s, p))
  {
    EmptyIsGood();
    RunKeepsInv(EMPTY_DB, acts);
    ActiveIsTheLiveOne(Run(EMPTY_DB, acts), p, s);
    if Unended(Run(EMPTY_DB, acts), s, p) {
      UnendedIsLive(Run(EMPTY_DB, acts), s, p);
    }
  }

  /** The entries of a session with matches are one per listed player; a
      closed session has only ended matches. */
  lemma {:induction false} SessionsAndSeats(acts: seq<Action>, s: SessionId)
    requires CanRun(EMPTY_DB, acts) && s in Run(EMPTY_DB, acts).sessions
    ensures var db := Run(EMPTY_DB, acts); var row := db.sessions[s];
      && Distinct(row.players)
      && (row.status.Waiting? ==> row.players == [])
      && (row.status.Rank() < 2 ==> !Matched(db, s))
      && (Matched(db, s) ==> forall p :: p in row.players <==> HasSeat(db, s, p))
      && (forall m, n, j, k, p :: Sits(db, m, j, s, p) && Sits(db, n, k, s, p) ==> m == n && j == k)
      && (row.status.Closed? ==> forall m | m in db.matches && db.matches[m].session == s :: db.matches[m].HasEnded())
      && (forall m | m in db.matches && db.matches[m].session == s :: db.matches[m].league == row.league)
  {
    EmptyIsGood();
    RunKeepsInv(EMPTY_DB, acts);
    var db := Run(EMPTY_DB, acts);
    assert GoodSession(db.sessions[s]);
    if Matched(db, s) {
      MatchedIsPlaced(db, s);
      forall p | HasSeat(db, s, p) ensures p in db.sessions[s].players {
        var m: MatchId, k: nat :| Sits(db, m, k, s, p);
        assert Placed(db, db.matches[m]);
      }
    }
    forall m | m in db.matches && db.matches[m].session == s
      ensures db.matches[m].league == db.sessions[s].league
      ensures db.sessions[s].status.Closed? ==> db.matches[m].HasEnded()
    {
      assert Placed(db, db.matches[m]);
    }
  }

  /** What the daemon carries from its preparing transaction to its matchmaking
      one is still what is stored, whatever players did in between. */
  lemma {:induction false} CarriedRowsAreStored(acts: seq<Action>, s: SessionId)
    requires CanRun(EMPTY_DB, acts) && s in Run(EMPTY_DB, acts).pending
    ensures var db := Run(EMPTY_DB, acts);
      && s in db.sessions && db.sessions[s] == db.pending[s]
      && db.sessions[s].status.Preparing? && |db.sessions[s].players| >= 2 && !Matched(db, s)
  {
    EmptyIsGood();
    RunKeepsInv(EMPTY_DB, acts);
  }

  /** What a countdown carries differs from what is stored in the status only,
      and the stored one is not behind. */
  lemma {:induction false} CountedRowsAreStored(acts: seq<Action>, s: SessionId)
    requires CanRun(EMPTY_DB, acts) && s in Run(EMPTY_DB, acts).counting
    ensures var db := Run(EMPTY_DB, acts);
      && s in db.sessions && db.sessions[s] == db.counting[s].(status := db.sessions[s].status)
      && db.counting[s].status.Preparing? && db.sessions[s].status.Rank() >= 2
  {
    EmptyIsGood();
    RunKeepsInv(EMPTY_DB, acts);
  }

  /** Whenever the source gets to complete an entry, the opponent is not
      waiting: the panic cannot happen. */
  lemma {:induction false} NoPanicOnComplete(acts: seq<Action>, id: SessionId, p: PlayerId, m: MatchId, k: nat,
                                             now: Time)
    requires CanRun(EMPTY_DB, acts)
    requires CanEnd(Run(EMPTY_DB, acts), id, p, m, k, false, now)
    ensures var x := Run(EMPTY_DB, acts).matches[m];
      |x.entries| == 2 && k < 2 && CompleteRows(x.entries[k], x.entries[1 - k], now).Some?
  {
    EmptyIsGood();
    RunKeepsInv(EMPTY_DB, acts);
    var db := Run(EMPTY_DB, acts);
    assert Explains(db.journal[m], db.matches[m], db.clock);
    EndIsLegal(db, id, p, m, k, false, now);
    CompleteNeverPanics(Origin(db.matches[m]), db.journal[m], k, now);
  }

  // ------------------------------------------------------- events of a match

  /** The events of match `m` among the actions of a run. */
  ghost function EventsIn(db: Db, acts: seq<Action>, m: MatchId): seq<Event>
    requires CanRun(db, acts)
    decreases |acts|
  {
    if acts == [] then [] else EventsOf(db, acts[0], m) + EventsIn(Do(db, acts[0]), acts[1..], m)
  }

  ghost function EventsOf(db: Db, a: Action, m: MatchId): seq<Event> {
    match a
    case StartSession(id, now) => if m in db.matches && StartsWith(db.matches[m], id) then [Start(now)] else []
    case EndCountdown(id, now) => if m in db.matches && StartsWith(db.matches[m], id) then [Start(now)] else []
    case EndRace(_, _, n, k, forfeit, now) => if n == m then [EndEvent(k, forfeit, now)] else []
    case _ => []
  }

  ghost function JournalOf(db: Db, m: MatchId): seq<Event> {
    if m in db.journal then db.journal[m] else []
  }

  /** From `db` to `d`, match `m` went through `es` and kept its identity. */
  ghost predicate Extends(db: Db, d: Db, m: MatchId, es: seq<Event>) {
    && JournalOf(d, m) == JournalOf(db, m) + es
    && (m in db.matches ==> m in d.matches && SameMatch(db.matches[m], d.matches[m]))
  }

  ghost predicate SameMatch(x: Match, y: Match) {
    |x.entries| == 2 && |y.entries| == 2 && Origin(x) == Origin(y)
  }

  lemma StartExtends(db: Db, d: Db, id: SessionId, now: Time, m: MatchId)
    requires Recorded(db)
    requires forall n | n in db.matches :: |db.matches[n].entries| == 2
    requires d.matches == StartedMatches(db, id, now) && d.journal == StartedJournal(db, id, now)
    ensures Extends(db, d, m, if m in db.matches && StartsWith(db.matches[m], id) then [Start(now)] else [])
  {
    if m in db.matches {
      assert Explains(db.journal[m], db.matches[m], db.clock);
    }
  }

  lemma EventExtends(db: Db, n: MatchId, e: Event, m: MatchId)
    requires Recorded(db) && n in db.matches && |db.matches[n].entries| == 2
    ensures Extends(db, AfterEvent(db, n, e), m, if n == m then [e] else [])
  {
    ApplyEvolves(db.matches[n], e);
    if m in db.matches {
      assert Explains(db.journal[m], db.matches[m], db.clock);
    }
  }

  lemma MatchMakeExtends(db: Db, id: SessionId, seats: seq<Seat>, m: MatchId)
    requires Recorded(db) && CanMatchMake(db, id, seats)
    ensures Extends(db, AfterMatchMake(db, id, seats), m, [])
  {
    NewMatchesAre(db.pending[id].league, id, seats);
    if m in db.matches {
      assert Explains(db.journal[m], db.matches[m], db.clock);
    }
  }

  lemma SameMatchesExtend(db: Db, d: Db, m: MatchId)
    requires Recorded(db) && d.matches == db.matches && d.journal == db.journal
    ensures Extends(db, d, m, [])
  {
    if m in db.matches {
      assert Explains(db.journal[m], db.matches[m], db.clock);
    }
  }

  lemma EndExtends(db: Db, a: Action, m: MatchId)
    requires Inv(db) && Enabled(db, a) && a.EndRace?
    ensures Extends(db, Do(db, a), m, EventsOf(db, a, m))
  {
    EndIsLegal(db, a.id, a.p, a.m, a.k, a.forfeit, a.now);
    EventExtends(db, a.m, EndEvent(a.k, a.forfeit, a.now), m);
  }

  lemma StartsExtend(db: Db, a: Action, m: MatchId)
    requires Recorded(db) && Enabled(db, a) && (a.StartSession? || a.EndCountdown?)
    ensures Extends(db, Do(db, a), m, EventsOf(db, a, m))
  {
    RowsHaveTwoEntries(db);
    StartExtends(db, Do(db, a), a.id, a.now, m);
  }

  lemma SeedExtends(db: Db, a: Action, m: MatchId)
    requires Recorded(db) && Enabled(db, a) && a.WriteSeed?
    ensures Extends(db, Do(db, a), m, EventsOf(db, a, m))
  {
    WriteSeedIsIdle(db, a.m);
    SameMatchesExtend(db, Do(db, a), m);
  }

  lemma QuietExtends(db: Db, a: Action, m: MatchId)
    requires Recorded(db) && Enabled(db, a)
    requires !a.StartSession? && !a.EndCountdown? && !a.EndRace? && !a.MatchMake? && !a.WriteSeed?
    ensures Extends(db, Do(db, a), m, EventsOf(db, a, m))
  {
    SameMatchesExtend(db, Do(db, a), m);
  }

  lemma StepExtendsJournal(db: Db, a: Action, m: MatchId)
    requires Inv(db) && Enabled(db, a)
    ensures Extends(db, Do(db, a), m, EventsOf(db, a, m))
  {
    if a.StartSession? || a.EndCountdown? {
      StartsExtend(db, a, m);
    } else if a.EndRace? {
      EndExtends(db, a, m);
    } else if a.MatchMake? {
      MatchMakeExtends(db, a.id, a.seats, m);
    } else if a.WriteSeed? {
      SeedExtends(db, a, m);
    } else {
      QuietExtends(db, a, m);
    }
  }

  lemma ExtendsOn(x: Db, y: Db, z: Db, m: MatchId, es: seq<Event>, fs: seq<Event>)
    requires Extends(x, y, m, es) && Extends(y, z, m, fs)
    ensures Extends(x, z, m, es + fs)
  {
  }

  /** The journal is the run itself: what a match went through since it was
      created is exactly its starts, forfeits and completions in the run. */
  lemma {:induction false} JournalIsTheRun(db: Db, acts: seq<Action>, m: MatchId)
    requires Inv(db) && CanRun(db, acts)
    ensures Extends(db, Run(db, acts), m, EventsIn(db, acts, m))
    decreases |acts|
  {
    if acts == [] {
      SameMatchesExtend(db, db, m);
    } else {
      var d := Do(db, acts[0]);
      StepKeepsInv(db, acts[0]);
      StepExtendsJournal(db, acts[0], m);
      JournalIsTheRun(d, acts[1..], m);
      ExtendsOn(db, d, Run(d, acts[1..]), m, EventsOf(db, acts[0], m), EventsIn(d, acts[1..], m));
    }
  }

  /** The rows of a match are what the rules of a race make of the run: its
      starts, forfeits and completions, in their order, tell every field. */
  lemma {:induction false} MatchesFollowTheRules(acts: seq<Action>, m: MatchId)
    requires CanRun(EMPTY_DB, acts) && m in Run(EMPTY_DB, acts).matches
    ensures Sound(Run(EMPTY_DB, acts).matches[m])
    ensures Tells(EventsIn(EMPTY_DB, acts, m), Run(EMPTY_DB, acts).matches[m])
  {
    EmptyIsGood();
    RunKeepsInv(EMPTY_DB, acts);
    JournalIsTheRun(EMPTY_DB, acts, m);
    var db := Run(EMPTY_DB, acts);
    assert Explains(db.journal[m], db.matches[m], db.clock);
    assert db.journal[m] == EventsIn(EMPTY_DB, acts, m);
    HistoryIsSound(Origin(db.matches[m]), db.journal[m]);
    HistoryTells(Origin(db.matches[m]), db.journal[m]);
  }

  /** The action is a forfeit or completion by side `k` of match `m`. */
  predicate IsEnd(a: Action, m: MatchId, k: nat) {
    a.EndRace? && a.m == m && a.k == k
  }

  lemma {:induction false} EventsNext(db: Db, acts: seq<Action>, m: MatchId)
    requires acts != [] && CanRun(db, acts)
    ensures CanRun(AfterFirst(db, acts), acts[1..])
    ensures EventsIn(db, acts, m) == EventsOf(db, acts[0], m) + EventsIn(AfterFirst(db, acts), acts[1..], m)
  {
  }

  lemma EndsOfStep(db: Db, a: Action, m: MatchId, k: nat)
    ensures IsEnd(a, m, k) ==>
              EventsOf(db, a, m) == [if a.forfeit then Event.Forfeit(k, a.now) else Complete(k, a.now)]
    ensures forall e | e in EventsOf(db, a, m) && EndsSide(e, k) :: IsEnd(a, m, k)
  {
  }

  lemma {:induction false} EndIsInRun(db: Db, acts: seq<Action>, m: MatchId, k: nat, e: Event)
    requires CanRun(db, acts) && e in EventsIn(db, acts, m) && EndsSide(e, k)
    ensures exists a | a in acts :: IsEnd(a, m, k)
    decreases |acts|
  {
    EventsNext(db, acts, m);
    EndsOfStep(db, acts[0], m, k);
    if e in EventsOf(db, acts[0], m) {
      assert acts[0] in acts;
    } else {
      EndIsInRun(AfterFirst(db, acts), acts[1..], m, k, e);
      var a :| a in acts[1..] && IsEnd(a, m, k);
      assert a in acts;
    }
  }

  /** What an accepted forfeit or completion is among the events of the match. */
  lemma {:induction false} RunHasEnd(db: Db, acts: seq<Action>, m: MatchId, k: nat, a: Action)
    requires CanRun(db, acts) && a in acts && IsEnd(a, m, k)
    ensures (if a.forfeit then Event.Forfeit(k, a.now) else Complete(k, a.now)) in EventsIn(db, acts, m)
    decreases |acts|
  {
    EventsNext(db, acts, m);
    if a == acts[0] {
      EndsOfStep(db, acts[0], m, k);
    } else {
      RunHasEnd(AfterFirst(db, acts), acts[1..], m, k, a);
    }
  }

  lemma {:induction false} OnlyEndTells(x: Match, h: seq<Event>, k: nat, e: Event)
    requires |x.entries| == 2 && Fresh(Origin(x)) && LegalHistory(Origin(x), h) && Tells(h, x)
    requires k < 2 && e in h && EndsSide(e, k)
    ensures x.entries[k].status == (if e.Forfeit? then EntryStatus.Forfeit else Finished)
    ensures x.entries[k].endedAt == Some(e.at)
  {
    var i :| 0 <= i < |h| && h[i] == e;
    EndsOnce(Origin(x), h, k, i);
    assert TellsEntry(h, k, x.entries[k]);
  }

  lemma {:induction false} EndOfRun(acts: seq<Action>, m: MatchId, k: nat, a: Action)
    requires CanRun(EMPTY_DB, acts) && m in Run(EMPTY_DB, acts).matches && k < 2
    requires a in acts && IsEnd(a, m, k)
    ensures |Run(EMPTY_DB, acts).matches[m].entries| == 2
    ensures var e := Run(EMPTY_DB, acts).matches[m].entries[k];
      e.status == (if a.forfeit then EntryStatus.Forfeit else Finished) && e.endedAt == Some(a.now)
  {
    MatchesFollowTheRules(acts, m);
    RunIsLegal(acts, m);
    RunHasEnd(EMPTY_DB, acts, m, k, a);
    OnlyEndTells(Run(EMPTY_DB, acts).matches[m], EventsIn(EMPTY_DB, acts, m), k,
                 if a.forfeit then Event.Forfeit(k, a.now) else Complete(k, a.now));
  }

  lemma {:induction false} RunIsLegal(acts: seq<Action>, m: MatchId)
    requires CanRun(EMPTY_DB, acts) && m in Run(EMPTY_DB, acts).matches
    ensures |Run(EMPTY_DB, acts).matches[m].entries| == 2
    ensures Fresh(Origin(Run(EMPTY_DB, acts).matches[m]))
    ensures LegalHistory(Origin(Run(EMPTY_DB, acts).matches[m]), EventsIn(EMPTY_DB, acts, m))
  {
    EmptyIsGood();
    RunKeepsInv(EMPTY_DB, acts);
    JournalIsTheRun(EMPTY_DB, acts, m);
    var db := Run(EMPTY_DB, acts);
    assert Explains(db.journal[m], db.matches[m], db.clock);
    assert db.journal[m] == EventsIn(EMPTY_DB, acts, m);
  }

  /** An entry has ended exactly when some accepted action of its side ended it,
      and then it is finished by a completion, forfeited by a forfeit, at the
      time of that action: the only one. */
  lemma {:induction false} EntriesEndAsAsked(acts: seq<Action>, m: MatchId, k: nat)
    requires CanRun(EMPTY_DB, acts) && m in Run(EMPTY_DB, acts).matches && k < 2
    ensures |Run(EMPTY_DB, acts).matches[m].entries| == 2
    ensures var e := Run(EMPTY_DB, acts).matches[m].entries[k];
      && (e.status.Finished? <==> exists a | a in acts :: IsEnd(a, m, k) && !a.forfeit)
      && (e.status.Forfeit? <==> exists a | a in acts :: IsEnd(a, m, k) && a.forfeit)
      && (forall a | a in acts && IsEnd(a, m, k) :: e.endedAt == Some(a.now))
  {
    MatchesFollowTheRules(acts, m);
    var e := Run(EMPTY_DB, acts).matches[m].entries[k];
    forall a | a in acts && IsEnd(a, m, k)
      ensures e.status == (if a.forfeit then EntryStatus.Forfeit else Finished) && e.endedAt == Some(a.now)
    {
      EndOfRun(acts, m, k, a);
    }
    if e.HasEnded() {
      var h := EventsIn(EMPTY_DB, acts, m);
      assert TellsEntry(h, k, e);
      EndIsInRun(EMPTY_DB, acts, m, k, h[EndIndex(h, k).value]);
    }
  }

  /** Once a match has ended, nothing in any later run changes its entries or
      its end date, nor its start date once set. */
  lemma {:induction false} EndedForGood(db: Db, acts: seq<Action>, m: MatchId)
    requires Inv(db) && CanRun(db, acts)
    requires m in db.matches && db.matches[m].HasEnded()
    ensures m in Run(db, acts).matches
    ensures var x, y := db.matches[m], Run(db, acts).matches[m];
      y == x.(startedAt := y.startedAt) && (x.startedAt.Some? ==> y == x)
  {
    JournalIsTheRun(db, acts, m);
    RunKeepsInv(db, acts);
    var d := Run(db, acts);
    assert Explains(db.journal[m], db.matches[m], db.clock) && Explains(d.journal[m], d.matches[m], d.clock);
    EndedMatchStays(Origin(db.matches[m]), db.journal[m], EventsIn(db, acts, m));
  }

  // --------------------------------------------------- sessions over a run

  /** One step up, or to Closed, or no change. */
  predicate MovesUp(s: SessionStatus, t: SessionStatus) {
    t == s || t.Rank() == s.Rank() + 1 || t.Closed?
  }

  /** The list as it was, or less its odd last joiner. */
  ghost predicate SameOrKicked(s: seq<PlayerId>, t: seq<PlayerId>) {
    t == s || (|s| % 2 == 1 && t == s[..|s| - 1])
  }

  /** A session row after some steps. */
  ghost predicate Forward(x: Session, y: Session) {
    && y.league == x.league && y.startDate == x.startDate
    && x.status.Rank() <= y.status.Rank()
    && (x.status.Rank() >= 2 ==> SameOrKicked(x.players, y.players))
  }

  ghost predicate SessionForward(db: Db, d: Db, s: SessionId) {
    s in db.sessions ==> s in d.sessions && Forward(db.sessions[s], d.sessions[s])
  }

  /** One transaction moves a session at most one status up, or closes it, and
      once it is preparing only matchmaking can drop its odd last joiner. */
  ghost predicate StepsForward(x: Session, y: Session, a: Action, s: SessionId) {
    && Forward(x, y) && MovesUp(x.status, y.status)
    && (y.players != x.players && x.status.Rank() >= 2 ==> a.MatchMake? && a.id == s && |x.players| % 2 == 1)
  }

  lemma MatchMakeOnSession(db: Db, a: Action, s: SessionId)
    requires PendingFresh(db) && a.MatchMake? && CanMatchMake(db, a.id, a.seats) && s in db.sessions
    ensures s in AfterMatchMake(db, a.id, a.seats).sessions
    ensures StepsForward(db.sessions[s], AfterMatchMake(db, a.id, a.seats).sessions[s], a, s)
  {
    assert db.pending[a.id] == db.sessions[a.id];
  }

  lemma RaceOnSession(db: Db, a: Action, s: SessionId)
    requires Recorded(db) && CountingFresh(db) && Enabled(db, a) && s in db.sessions
    requires a.StartSession? || a.EndCountdown? || a.EndRace? || a.WriteSeed?
    ensures s in Do(db, a).sessions && StepsForward(db.sessions[s], Do(db, a).sessions[s], a, s)
  {
  }

  lemma TickOnSession(db: Db, a: Action, s: SessionId)
    requires Recorded(db) && Enabled(db, a) && s in db.sessions
    requires a.Create? || a.MakeJoinable? || a.Prepare? || a.CloseSessions?
    ensures s in Do(db, a).sessions && StepsForward(db.sessions[s], Do(db, a).sessions[s], a, s)
  {
  }

  lemma StepOnSession(db: Db, a: Action, s: SessionId)
    requires PendingFresh(db) && CountingFresh(db) && Recorded(db) && Enabled(db, a) && s in db.sessions
    ensures s in Do(db, a).sessions && StepsForward(db.sessions[s], Do(db, a).sessions[s], a, s)
  {
    if a.MatchMake? {
      MatchMakeOnSession(db, a, s);
    } else if a.StartSession? || a.EndCountdown? || a.EndRace? || a.WriteSeed? {
      RaceOnSession(db, a, s);
    } else if a.Create? || a.MakeJoinable? || a.Prepare? || a.CloseSessions? {
      TickOnSession(db, a, s);
    }
  }

  lemma ForwardOn(x: Db, y: Db, z: Db, s: SessionId)
    requires SessionForward(x, y, s) && SessionForward(y, z, s)
    ensures SessionForward(x, z, s)
  {
  }

  lemma {:induction false} SessionsMoveForward(db: Db, acts: seq<Action>, s: SessionId)
    requires Inv(db) && CanRun(db, acts)
    ensures SessionForward(db, Run(db, acts), s)
    decreases |acts|
  {
    if acts != [] {
      var d := Do(db, acts[0]);
      StepKeepsInv(db, acts[0]);
      if s in db.sessions {
        StepOnSession(db, acts[0], s);
      }
      SessionsMoveForward(d, acts[1..], s);
      ForwardOn(db, d, Run(d, acts[1..]), s);
    }
  }

  lemma StepKeepsMatched(db: Db, a: Action, s: SessionId)
    requires Inv(db) && Enabled(db, a) && Matched(db, s)
    ensures Matched(Do(db, a), s)
    ensures a.MatchMake? ==> a.id != s
  {
    var m :| m in db.matches && db.matches[m].session == s;
    StepExtendsJournal(db, a, m);
  }

  /** No matchmaking of session `s` among the actions. */
  predicate NoMatchMaking(acts: seq<Action>, s: SessionId) {
    acts != [] ==> !(acts[0].MatchMake? && acts[0].id == s) && NoMatchMaking(acts[1..], s)
  }

  /** A session that has matches is never matchmade again. */
  lemma {:induction false} MatchmadeOnce(db: Db, acts: seq<Action>, s: SessionId)
    requires Inv(db) && CanRun(db, acts) && Matched(db, s)
    ensures NoMatchMaking(acts, s)
    decreases |acts|
  {
    if acts != [] {
      StepKeepsInv(db, acts[0]);
      StepKeepsMatched(db, acts[0], s);
      MatchmadeOnce(Do(db, acts[0]), acts[1..], s);
    }
  }

  /** Hence a session is matchmade at most once. */
  lemma {:induction false} NeverMatchmadeTwice(db: Db, id: SessionId, seats: seq<Seat>, acts: seq<Action>)
    requires Inv(db) && CanMatchMake(db, id, seats)
    requires CanRun(AfterMatchMake(db, id, seats), acts)
    ensures NoMatchMaking(acts, id)
  {
    MatchMakeKeepsInv(db, id, seats);
    MatchMakeMakesMatches(db, id, seats);
    MatchmadeOnce(AfterMatchMake(db, id, seats), acts, id);
  }

  lemma MatchMakeMakesMatches(db: Db, id: SessionId, seats: seq<Seat>)
    requires Inv(db) && CanMatchMake(db, id, seats)
    ensures Matched(AfterMatchMake(db, id, seats), id)
  {
    var d := AfterMatchMake(db, id, seats);
    MatchMakeSeatsAll(db, id, seats);
    var p := d.sessions[id].players[0];
    assert HasSeat(d, id, p);
  }

  /** A row past joining that is not carried to matchmaking only ever changes
      its status. */
  lemma {:induction false} OnlyTheStatusChanges(db: Db, acts: seq<Action>, s: SessionId)
    requires Inv(db) && CanRun(db, acts)
    requires s in db.sessions && db.sessions[s].status.Rank() >= 2 && s !in db.pending
    ensures var d := Run(db, acts);
      && s in d.sessions && d.sessions[s] == db.sessions[s].(status := d.sessions[s].status)
      && db.sessions[s].status.Rank() <= d.sessions[s].status.Rank() && s !in d.pending
    decreases |acts|
  {
    if acts != [] {
      StepKeepsInv(db, acts[0]);
      StepOnSession(db, acts[0], s);
      StepOnPending(db, acts[0], s);
      OnlyTheStatusChanges(Do(db, acts[0]), acts[1..], s);
    }
  }

  lemma StepOnPending(db: Db, a: Action, s: SessionId)
    requires Recorded(db) && Enabled(db, a)
    requires s in db.sessions && db.sessions[s].status.Rank() >= 2 && s !in db.pending
    ensures s !in Do(db, a).pending
    ensures !(a.MatchMake? && a.id == s)
  {
  }
}

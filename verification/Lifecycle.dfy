/** The race lifecycle as a state machine over the tables. One action is one
    transaction of the source; actions of players and of the daemon interleave
    freely. Choices the source leaves to chance or to SQL are part of the
    action. */
module Lifecycle {
  import opened Rows
  import opened Sequences
  import opened MatchHistory

  /** The tables, and four things the rows do not show: the events each match
      went through, the rows the daemon carries from its preparing transaction
      to its matchmaking one, those its countdowns carry, and the clock. */
  datatype Db = Db(
    sessions: map<SessionId, Session>,
    matches: map<MatchId, Match>,
    journal: map<MatchId, seq<Event>>,
    pending: map<SessionId, Session>,
    counting: map<SessionId, Session>,
    clock: Time)

  const EMPTY_DB := Db(map[], map[], map[], map[], map[], 0)

  /** A match to create: two players under a new identifier. */
  datatype Seat = Seat(id: MatchId, p: PlayerId, q: PlayerId)

  // ---------------------------------------------------------------- queries

  /** Entry `k` of match `m` is the one of player `p` in session `s`. */
  ghost predicate Sits(db: Db, m: MatchId, k: nat, s: SessionId, p: PlayerId) {
    m in db.matches && k < |db.matches[m].entries| && db.matches[m].session == s && db.matches[m].entries[k].player == p
  }

  ghost predicate HasSeat(db: Db, s: SessionId, p: PlayerId) {
    exists m: MatchId, k: nat :: Sits(db, m, k, s, p)
  }

  ghost predicate EndedIn(db: Db, s: SessionId, p: PlayerId) {
    exists m: MatchId, k: nat :: Sits(db, m, k, s, p) && db.matches[m].entries[k].HasEnded()
  }

  ghost predicate Matched(db: Db, s: SessionId) {
    exists m | m in db.matches :: db.matches[m].session == s
  }

  /** The session commits the player: it lists them, is open, and they have
      not ended their race in it. */
  ghost predicate Live(db: Db, s: SessionId, p: PlayerId) {
    s in db.sessions && db.sessions[s].Open() && p in db.sessions[s].players && !EndedIn(db, s, p)
  }

  /** What the fallback query looks for: an unended entry, in any session. */
  ghost predicate Unended(db: Db, s: SessionId, p: PlayerId) {
    exists m: MatchId, k: nat :: Sits(db, m, k, s, p) && !db.matches[m].entries[k].HasEnded()
  }

  /** `s` may be the answer of the active session lookup: the earliest session
      that commits the player or else the earliest with an unended entry. */
  ghost predicate Active(db: Db, p: PlayerId, s: SessionId) {
    s in db.sessions &&
    if exists t :: Live(db, t, p) then
      Live(db, s, p) && forall t :: Live(db, t, p) ==> db.sessions[s].startDate <= db.sessions[t].startDate
    else Unended(db, s, p) && forall t | t in db.sessions && Unended(db, t, p) ::
           db.sessions[s].startDate <= db.sessions[t].startDate
  }

  ghost predicate NoActive(db: Db, p: PlayerId) {
    forall s :: !Live(db, s, p) && !Unended(db, s, p)
  }

  // ------------------------------------------------------------- row changes

  function JoinableRow(s: Session, now: Time): Session {
    if s.status.Waiting? && now + PREPARATION_BEFORE < s.startDate <= now + JOINABLE_BEFORE
    then s.(status := SessionStatus.Joinable) else s
  }

  predicate DueToPrepare(s: Session, now: Time) {
    s.status.Joinable? && now < s.startDate <= now + PREPARATION_BEFORE
  }

  function PrepareRow(s: Session, now: Time): Session {
    if !DueToPrepare(s, now) then s
    else if |s.players| < 2 then s.(status := SessionStatus.Closed)
    else s.(status := SessionStatus.Preparing)
  }

  /** With an odd count the last to join is dropped. */
  function KickOdd(players: seq<PlayerId>): seq<PlayerId> {
    if |players| % 2 == 1 then players[..|players| - 1] else players
  }

  function Without(players: seq<PlayerId>, p: PlayerId): seq<PlayerId> {
    if players == [] then []
    else if players[0] == p then Without(players[1..], p)
    else [players[0]] + Without(players[1..], p)
  }

  predicate DueToClose(db: Db, id: SessionId, now: Time)
    requires id in db.sessions
  {
    && db.sessions[id].startDate < now
    && !db.sessions[id].status.Closed?
    && forall m | m in db.matches && db.matches[m].session == id :: db.matches[m].HasEnded()
  }

  predicate StartsWith(m: Match, id: SessionId) {
    m.session == id && m.startedAt.None?
  }

  function NewMatches(league: LeagueId, id: SessionId, seats: seq<Seat>): map<MatchId, Match> {
    if seats == [] then map[] else
      var t := seats[|seats| - 1];
      NewMatches(league, id, seats[..|seats| - 1])[t.id := NewMatch(league, id, t.p, t.q)]
  }

  function NewJournal(seats: seq<Seat>): map<MatchId, seq<Event>> {
    if seats == [] then map[] else NewJournal(seats[..|seats| - 1])[seats[|seats| - 1].id := []]
  }

  predicate DistinctSeats(seats: seq<Seat>) {
    forall t, u | t in seats && u in seats && t.id == u.id :: t == u
  }

  /** Both players of every seat, in order. */
  function Seated(seats: seq<Seat>): seq<PlayerId> {
    if seats == [] then [] else Seated(seats[..|seats| - 1]) + [seats[|seats| - 1].p, seats[|seats| - 1].q]
  }

  // ------------------------------------------- transactions: guard and effect

  ghost predicate CanCreate(db: Db, id: SessionId, league: LeagueId, startDate: Time) {
    && id !in db.sessions
    && forall s | s in db.sessions :: db.sessions[s].league != league || db.sessions[s].startDate != startDate
  }

  function AfterCreate(db: Db, id: SessionId, league: LeagueId, startDate: Time): Db {
    db.(sessions := db.sessions[id := NewSession(league, startDate)])
  }

  function AfterMakeJoinable(db: Db, now: Time): Db {
    db.(sessions := map s | s in db.sessions :: JoinableRow(db.sessions[s], now), clock := now)
  }

  function Prepared(db: Db, now: Time): map<SessionId, Session> {
    map s | s in db.sessions && DueToPrepare(db.sessions[s], now) && |db.sessions[s].players| >= 2 ::
      PrepareRow(db.sessions[s], now)
  }

  function AfterPrepare(db: Db, now: Time): Db {
    db.(sessions := map s | s in db.sessions :: PrepareRow(db.sessions[s], now),
        pending := Prepared(db, now),
        clock := now)
  }

  ghost predicate CanMatchMake(db: Db, id: SessionId, seats: seq<Seat>) {
    && id in db.pending
    && DistinctSeats(seats)
    && (forall t | t in seats :: t.id !in db.matches)
    && multiset(Seated(seats)) == multiset(KickOdd(db.pending[id].players))
  }

  /** Everything is computed from the carried copy, not from the stored row. */
  function AfterMatchMake(db: Db, id: SessionId, seats: seq<Seat>): Db
    requires id in db.pending
  {
    var copy := db.pending[id];
    db.(sessions := db.sessions[id := copy.(players := KickOdd(copy.players))],
        matches := db.matches + NewMatches(copy.league, id, seats),
        journal := db.journal + NewJournal(seats),
        pending := db.pending - {id})
  }

  ghost predicate CanStart(db: Db, id: SessionId, now: Time) {
    && id in db.sessions && id !in db.pending
    && db.sessions[id].status.Preparing?
    && db.sessions[id].startDate <= now + COUNTDOWN_LEAD
  }

  function StartedMatches(db: Db, id: SessionId, now: Time): map<MatchId, Match>
    requires forall m | m in db.matches :: |db.matches[m].entries| == 2
  {
    map m | m in db.matches ::
      if StartsWith(db.matches[m], id) then Apply(db.matches[m], Start(now)) else db.matches[m]
  }

  function StartedJournal(db: Db, id: SessionId, now: Time): map<MatchId, seq<Event>>
    requires db.journal.Keys == db.matches.Keys
  {
    map m | m in db.matches ::
      if StartsWith(db.matches[m], id) then db.journal[m] + [Start(now)] else db.journal[m]
  }

  function AfterStart(db: Db, id: SessionId, now: Time): Db
    requires id in db.sessions && db.journal.Keys == db.matches.Keys
    requires forall m | m in db.matches :: |db.matches[m].entries| == 2
  {
    db.(sessions := db.sessions[id := db.sessions[id].(status := SessionStatus.InProgress)],
        matches := StartedMatches(db, id, now),
        journal := StartedJournal(db, id, now),
        clock := now)
  }

  ghost predicate CanBeginCountdown(db: Db, id: SessionId, now: Time) {
    CanStart(db, id, now) && id !in db.counting
  }

  function AfterBeginCountdown(db: Db, id: SessionId, now: Time): Db
    requires id in db.sessions
  {
    db.(counting := db.counting[id := db.sessions[id]], clock := now)
  }

  /** The countdown is over at the start date of the row it carries. */
  ghost predicate CountedDown(db: Db, id: SessionId, now: Time) {
    id in db.counting && id in db.sessions && db.counting[id].startDate <= now
  }

  /** It starts the matches that have not started, and writes back the row it
      carries: whatever is stored is overwritten. */
  function AfterEndCountdown(db: Db, id: SessionId, now: Time): Db
    requires id in db.counting && db.journal.Keys == db.matches.Keys
    requires forall m | m in db.matches :: |db.matches[m].entries| == 2
  {
    db.(sessions := db.sessions[id := db.counting[id].(status := SessionStatus.InProgress)],
        matches := StartedMatches(db, id, now),
        journal := StartedJournal(db, id, now),
        counting := db.counting - {id},
        clock := now)
  }

  function CloseRow(db: Db, s: SessionId, now: Time): Session
    requires s in db.sessions
  {
    if DueToClose(db, s, now) then db.sessions[s].(status := SessionStatus.Closed) else db.sessions[s]
  }

  function AfterClose(db: Db, now: Time): Db {
    db.(sessions := map s | s in db.sessions :: CloseRow(db, s, now), clock := now)
  }

  /** What the source checks itself: it does not look at the status. */
  ghost predicate CanJoinUnchecked(db: Db, id: SessionId, p: PlayerId) {
    id in db.sessions && p !in db.sessions[id].players && NoActive(db, p)
  }

  ghost predicate CanJoin(db: Db, id: SessionId, p: PlayerId) {
    CanJoinUnchecked(db, id, p) && db.sessions[id].status.Joinable?
  }

  function AfterJoin(db: Db, id: SessionId, p: PlayerId, now: Time): Db
    requires id in db.sessions
  {
    db.(sessions := db.sessions[id := db.sessions[id].(players := db.sessions[id].players + [p])], clock := now)
  }

  ghost predicate CanCancel(db: Db, id: SessionId, p: PlayerId, now: Time) {
    Active(db, p, id) && db.sessions[id].CanCancel(now)
  }

  function AfterCancel(db: Db, id: SessionId, p: PlayerId, now: Time): Db
    requires id in db.sessions
  {
    db.(sessions := db.sessions[id := db.sessions[id].(players := Without(db.sessions[id].players, p))], clock := now)
  }

  /** The source never asks if the player's own entry has ended. */
  ghost predicate CanEnd(db: Db, id: SessionId, p: PlayerId, m: MatchId, k: nat, forfeit: bool, now: Time) {
    && Active(db, p, id) && db.sessions[id].CanForfeit(now)
    && Sits(db, m, k, id, p)
    && (!forfeit ==> db.matches[m].entries[k].status.InProgress?)
  }

  function EndEvent(k: nat, forfeit: bool, now: Time): Event {
    if forfeit then Event.Forfeit(k, now) else Complete(k, now)
  }

  function AfterEvent(db: Db, m: MatchId, e: Event): Db
    requires m in db.matches && m in db.journal && |db.matches[m].entries| == 2
  {
    db.(matches := db.matches[m := Apply(db.matches[m], e)],
        journal := db.journal[m := db.journal[m] + [e]],
        clock := e.at)
  }

  /** The seed generator writes back the match as it was created. */
  function AfterWriteSeed(db: Db, m: MatchId): Db
    requires m in db.matches
  {
    db.(matches := db.matches[m := db.matches[m].(startedAt := None, endedAt := None)])
  }

  // ---------------------------------------------------------------- actions

  datatype Action =
    | Create(id: SessionId, league: LeagueId, startDate: Time)
    | MakeJoinable(now: Time)
    | Prepare(now: Time)
    | MatchMake(id: SessionId, seats: seq<Seat>)
    | DropPending
    | StartSession(id: SessionId, now: Time)
    | BeginCountdown(id: SessionId, now: Time)
    | EndCountdown(id: SessionId, now: Time)
    | Restart
    | CloseSessions(now: Time)
    | Join(id: SessionId, p: PlayerId, now: Time)
    | Cancel(id: SessionId, p: PlayerId, now: Time)
    | EndRace(id: SessionId, p: PlayerId, m: MatchId, k: nat, forfeit: bool, now: Time)
    | WriteSeed(m: MatchId)

  function TimeOfAction(db: Db, a: Action): Time {
    if a.Create? || a.MatchMake? || a.DropPending? || a.Restart? || a.WriteSeed? then db.clock else a.now
  }

  ghost predicate Enabled(db: Db, a: Action) {
    && db.clock <= TimeOfAction(db, a)
    && match a
       case Create(id, league, startDate) => CanCreate(db, id, league, startDate)
       case MakeJoinable(_) => true
       case Prepare(_) => db.pending == map[]
       case MatchMake(id, seats) => CanMatchMake(db, id, seats)
       case DropPending => true
       case StartSession(id, now) => CanStart(db, id, now)
       case BeginCountdown(id, now) => CanBeginCountdown(db, id, now)
       // Nobody makes sure that the session has not been closed meanwhile.
       case EndCountdown(id, now) => CountedDown(db, id, now) && !db.sessions[id].status.Closed?
       case Restart => true
       case CloseSessions(_) => db.pending == map[]
       case Join(id, p, _) => CanJoin(db, id, p)
       case Cancel(id, p, now) => CanCancel(db, id, p, now)
       case EndRace(id, p, m, k, forfeit, now) => CanEnd(db, id, p, m, k, forfeit, now)
       case WriteSeed(m) => m in db.matches && db.matches[m].startedAt.None? && db.matches[m].endedAt.None?
  }

  function Do(db: Db, a: Action): Db
    requires Recorded(db) && Enabled(db, a)
  {
    match a
    case Create(id, league, startDate) => AfterCreate(db, id, league, startDate)
    case MakeJoinable(now) => AfterMakeJoinable(db, now)
    case Prepare(now) => AfterPrepare(db, now)
    case MatchMake(id, seats) => AfterMatchMake(db, id, seats)
    case DropPending => db.(pending := map[])
    case StartSession(id, now) => AfterStart(db, id, now)
    case BeginCountdown(id, now) => AfterBeginCountdown(db, id, now)
    case EndCountdown(id, now) => AfterEndCountdown(db, id, now)
    case Restart => db.(pending := map[], counting := map[])
    case CloseSessions(now) => AfterClose(db, now)
    case Join(id, p, now) => AfterJoin(db, id, p, now)
    case Cancel(id, p, now) => AfterCancel(db, id, p, now)
    case EndRace(id, p, m, k, forfeit, now) => AfterEvent(db, m, EndEvent(k, forfeit, now))
    case WriteSeed(m) => AfterWriteSeed(db, m)
  }

  // -------------------------------------------------------------- invariant

  function Origin(m: Match): Match
    requires |m.entries| == 2
  {
    NewMatch(m.league, m.session, m.entries[0].player, m.entries[1].player)
  }

  /** The row is the replay of a legal history that happened before `clock`. */
  ghost predicate Explains(h: seq<Event>, m: Match, clock: Time) {
    && |m.entries| == 2
    && LegalHistory(Origin(m), h)
    && m == Replay(Origin(m), h)
    && (h != [] ==> h[|h| - 1].at <= clock)
  }

  ghost predicate Recorded(db: Db) {
    && db.journal.Keys == db.matches.Keys
    && forall m | m in db.matches :: Explains(db.journal[m], db.matches[m], db.clock)
  }

  ghost predicate GoodSession(s: Session) {
    Distinct(s.players) && (s.status.Waiting? ==> s.players == [])
  }

  ghost predicate SessionsGood(db: Db) {
    forall s | s in db.sessions :: GoodSession(db.sessions[s])
  }

  /** No league has two sessions on one date. */
  ghost predicate OneSlot(db: Db) {
    forall s, t | s in db.sessions && t in db.sessions
      && db.sessions[s].league == db.sessions[t].league
      && db.sessions[s].startDate == db.sessions[t].startDate :: s == t
  }

  /** How far a match is, against the status of its session. */
  predicate InPhase(m: Match, status: SessionStatus) {
    match status
    case Waiting => false
    case Joinable => false
    case Preparing => m.startedAt.None?
    case InProgress => m.startedAt.Some?
    case Closed => m.HasEnded()
  }

  ghost predicate MatchesPlaced(db: Db) {
    forall m | m in db.matches :: Placed(db, db.matches[m])
  }

  ghost predicate Placed(db: Db, m: Match) {
    && m.session in db.sessions && m.league == db.sessions[m.session].league
    && InPhase(m, db.sessions[m.session].status)
    && forall k | 0 <= k < |m.entries| :: m.entries[k].player in db.sessions[m.session].players
  }

  /** A player has one seat per session. */
  ghost predicate OneSeat(db: Db) {
    forall m: MatchId, n: MatchId, j: nat, k: nat, s: SessionId, p: PlayerId ::
      Sits(db, m, j, s, p) && Sits(db, n, k, s, p) ==> m == n && j == k
  }

  /** Once a session has matches, all its players sit in one. */
  ghost predicate AllSeated(db: Db) {
    forall s, p | s in db.sessions && Matched(db, s) && p in db.sessions[s].players :: HasSeat(db, s, p)
  }

  ghost predicate OneCommitment(db: Db) {
    forall s: SessionId, t: SessionId, p: PlayerId :: Live(db, s, p) && Live(db, t, p) ==> s == t
  }

  /** What the daemon carries to matchmaking is still what is stored. */
  ghost predicate PendingFresh(db: Db) {
    forall s | s in db.pending ::
      && s in db.sessions && db.pending[s] == db.sessions[s]
      && db.sessions[s].status.Preparing? && |db.sessions[s].players| >= 2
      && !Matched(db, s)
  }

  /** What a countdown carries differs from what is stored in the status only. */
  ghost predicate CountingFresh(db: Db) {
    forall s | s in db.counting ::
      && s in db.sessions && s !in db.pending
      && db.counting[s].status.Preparing? && db.sessions[s].status.Rank() >= 2
      && db.sessions[s] == db.counting[s].(status := db.sessions[s].status)
  }

  ghost predicate Inv(db: Db) {
    && Recorded(db) && SessionsGood(db) && OneSlot(db)
    && MatchesPlaced(db) && OneSeat(db) && AllSeated(db)
    && OneCommitment(db) && PendingFresh(db) && CountingFresh(db)
  }
}

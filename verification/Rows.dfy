/** The rows of the ladder's tables. Times are whole seconds since the epoch. */
module Rows {
  type PlayerId = nat
  type LeagueId = nat
  type SessionId = nat
  type MatchId = nat
  type Time = int

  datatype Option<+T> = None | Some(value: T)

  /** Offsets from the start date at which a session changes status. */
  const JOINABLE_BEFORE: int := 3600
  const PREPARATION_BEFORE: int := 900
  /** Head start given to the countdown of a session that is about to begin. */
  const COUNTDOWN_LEAD: int := 90

  datatype SessionStatus = Waiting | Joinable | Preparing | InProgress | Closed
  {
    /** The number stored in the Status column. */
    function Rank(): nat {
      match this
      case Waiting => 0
      case Joinable => 1
      case Preparing => 2
      case InProgress => 3
      case Closed => 4
    }
  }

  datatype EntryStatus = Waiting | InProgress | Finished | Forfeit

  datatype Outcome = Loss | Draw | Win
  {
    /** The number stored in the Outcome column. */
    function Points(): int {
      match this
      case Loss => -1
      case Draw => 0
      case Win => 1
    }
  }

  /** One player's side of a match. */
  datatype Entry = Entry(
    player: PlayerId,
    startedAt: Option<Time>,
    endedAt: Option<Time>,
    status: EntryStatus,
    outcome: Outcome)
  {
    predicate HasEnded() {
      status.Finished? || status.Forfeit?
    }
  }

  function NewEntry(player: PlayerId): Entry {
    Entry(player, None, None, EntryStatus.Waiting, Draw)
  }

  datatype Match = Match(
    league: LeagueId,
    session: SessionId,
    startedAt: Option<Time>,
    endedAt: Option<Time>,
    entries: seq<Entry>)
  {
    /** The source has no match status: a match has ended when its end date is set. */
    predicate HasEnded() {
      endedAt.Some?
    }
  }

  function NewMatch(league: LeagueId, session: SessionId, p: PlayerId, q: PlayerId): Match {
    Match(league, session, None, None, [NewEntry(p), NewEntry(q)])
  }

  /** A race slot of a league; `players` is kept in the order of joining. */
  datatype Session = Session(
    league: LeagueId,
    startDate: Time,
    status: SessionStatus,
    players: seq<PlayerId>)
  {
    predicate CanCancel(now: Time) {
      status.Joinable? && now <= startDate - PREPARATION_BEFORE
    }

    predicate CanForfeit(now: Time) {
      !CanCancel(now) && (status.Preparing? || status.InProgress?)
    }

    /** The statuses under which the source looks for a player's active session. */
    predicate Open() {
      status.Joinable? || status.Preparing? || status.InProgress?
    }
  }

  function NewSession(league: LeagueId, startDate: Time): Session {
    Session(league, startDate, SessionStatus.Waiting, [])
  }
}

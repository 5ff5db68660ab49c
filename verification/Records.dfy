/** The source's structures, loaded from rows, changed in place, and written
    back by the transactions. */
module Records {
  import opened Rows
  import opened Sequences
  import opened MatchHistory
  import opened Lifecycle

  class MatchRecord {
    const league: LeagueId
    const session: SessionId
    var startedAt: Option<Time>
    var endedAt: Option<Time>

    constructor (m: Match)
      ensures league == m.league && session == m.session && startedAt == m.startedAt && endedAt == m.endedAt
    {
      league, session, startedAt, endedAt := m.league, m.session, m.startedAt, m.endedAt;
    }

    method End(now: Time)
      modifies this`endedAt
      ensures endedAt == Some(now)
    {
      endedAt := Some(now);
    }
  }

  class MatchEntry {
    const player: PlayerId
    var startedAt: Option<Time>
    var endedAt: Option<Time>
    var status: EntryStatus
    var outcome: Outcome

    constructor (e: Entry)
      ensures Row() == e
    {
      player, startedAt, endedAt, status, outcome := e.player, e.startedAt, e.endedAt, e.status, e.outcome;
    }

    function Row(): Entry
      reads this
    {
      Entry(player, startedAt, endedAt, status, outcome)
    }

    method Forfeit(against: MatchEntry, mtch: MatchRecord, now: Time)
      requires this != against
      modifies this, against, mtch`endedAt
      ensures var s := ForfeitRows(old(Row()), old(against.Row()), now);
        && Row() == s.self && against.Row() == s.against
        && mtch.endedAt == if s.ends then Some(now) else old(mtch.endedAt)
    {
      endedAt := Some(now);
      status := EntryStatus.Forfeit;
      match against.status
      case Waiting =>
        outcome := Loss;
        against.outcome := Win;
      case InProgress =>
        outcome := Loss;
        against.outcome := Win;
      case Finished =>
        outcome := Loss;
        against.outcome := Win;
        mtch.End(now);
      case Forfeit =>
        outcome := Draw;
        against.outcome := Draw;
        mtch.End(now);
    }

    /** Panics on a waiting opponent. */
    method Complete(against: MatchEntry, mtch: MatchRecord, now: Time)
      requires this != against
      requires !against.status.Waiting?
      modifies this, against, mtch`endedAt
      ensures var s := CompleteRows(old(Row()), old(against.Row()), now);
        && s.Some? && Row() == s.value.self && against.Row() == s.value.against
        && mtch.endedAt == if s.value.ends then Some(now) else old(mtch.endedAt)
    {
      endedAt := Some(now);
      status := Finished;
      match against.status
      case InProgress =>
        outcome := Win;
        against.outcome := Loss;
      case Forfeit =>
        outcome := Win;
        against.outcome := Loss;
        mtch.End(now);
      case Finished =>
        outcome := Loss;
        against.outcome := Win;
        mtch.End(now);
    }
  }

  /** Registering a list of players, skipping those already there. */
  function Registered(players: seq<PlayerId>, more: seq<PlayerId>): seq<PlayerId> {
    if more == [] then players
    else
      var front := Registered(players, more[..|more| - 1]);
      if more[|more| - 1] in front then front else front + [more[|more| - 1]]
  }

  /** Nobody is listed twice, nobody is lost, and those already there keep
      their places in front of the new ones. */
  lemma {:induction false} RegisteredOnce(players: seq<PlayerId>, more: seq<PlayerId>)
    ensures Distinct(players) ==> Distinct(Registered(players, more))
    ensures players <= Registered(players, more)
    ensures forall p :: p in Registered(players, more) <==> p in players || p in more
  {
    if more != [] {
      RegisteredOnce(players, more[..|more| - 1]);
    }
  }

  /** Leaving undoes joining. */
  lemma {:induction false} LeavingUndoesJoining(players: seq<PlayerId>, p: PlayerId)
    requires p !in players
    ensures Without(players + [p], p) == players
  {
    if players == [] {
      assert [p][1..] == [];
    } else {
      LeavingUndoesJoining(players[1..], p);
      assert (players + [p])[1..] == players[1..] + [p];
    }
  }

  lemma {:induction false} WithoutAtTheEnd(s: seq<PlayerId>, x: PlayerId, p: PlayerId)
    ensures Without(s + [x], p) == if x == p then Without(s, p) else Without(s, p) + [x]
  {
    if s == [] {
      assert s + [x] == [x] && [x][1..] == [];
    } else {
      WithoutAtTheEnd(s[1..], x, p);
      assert (s + [x])[1..] == s[1..] + [x] && (s + [x])[0] == s[0];
    }
  }

  class MatchSession {
    const league: LeagueId
    var startDate: Time
    var status: SessionStatus
    var playerIDs: seq<PlayerId>

    constructor (s: Session)
      ensures Row() == s
    {
      league, startDate, status, playerIDs := s.league, s.startDate, s.status, s.players;
    }

    function Row(): Session
      reads this
    {
      Session(league, startDate, status, playerIDs)
    }

    method HasPlayerID(needle: PlayerId) returns (found: bool)
      ensures found <==> needle in playerIDs
    {
      for i := 0 to |playerIDs|
        invariant needle !in playerIDs[..i]
      {
        if playerIDs[i] == needle {
          return true;
        }
      }
      found := false;
    }

    method AddPlayerID(uuids: seq<PlayerId>)
      modifies this`playerIDs
      ensures playerIDs == Registered(old(playerIDs), uuids)
    {
      for i := 0 to |uuids|
        invariant playerIDs == Registered(old(playerIDs), uuids[..i])
      {
        assert uuids[..i + 1][..i] == uuids[..i];
        var known := HasPlayerID(uuids[i]);
        if !known {
          playerIDs := playerIDs + [uuids[i]];
        }
      }
      assert uuids[..|uuids|] == uuids;
    }

    /** The source sizes its buffer to one less than the list. */
    method RemovePlayerID(toRemove: PlayerId)
      requires |playerIDs| > 0
      modifies this`playerIDs
      ensures playerIDs == Without(old(playerIDs), toRemove)
    {
      var filtered, ids := [], playerIDs;
      for k := 0 to |ids|
        invariant playerIDs == ids && filtered == Without(ids[..k], toRemove)
      {
        WithoutAtTheEnd(ids[..k], ids[k], toRemove);
        assert ids[..k + 1] == ids[..k] + [ids[k]];
        if ids[k] != toRemove {
          filtered := filtered + [ids[k]];
        }
      }
      assert ids[..|ids|] == ids;
      playerIDs := filtered;
    }
  }

  /** On a list without repetition, removing the last joiner is cutting the
      list short. */
  lemma {:induction false} RemovingTheLast(players: seq<PlayerId>)
    requires Distinct(players) && players != []
    ensures Without(players, players[|players| - 1]) == players[..|players| - 1]
  {
    var p := players[|players| - 1];
    assert players == players[..|players| - 1] + [p];
    assert p !in players[..|players| - 1];
    LeavingUndoesJoining(players[..|players| - 1], p);
  }
}

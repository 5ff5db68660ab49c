/** What happens to one match: its start, and the forfeit or completion of
    each side. A match is compared with the list of events it went through. */
module MatchHistory {
  import opened Rows

  datatype Event =
    | Start(at: Time)
    | Forfeit(side: nat, at: Time)
    | Complete(side: nat, at: Time)

  /** Both rows after one side ended its race; `ends` tells if the match ends too. */
  datatype Settled = Settled(self: Entry, against: Entry, ends: bool)

  function ForfeitRows(self: Entry, against: Entry, now: Time): Settled {
    var me := self.(endedAt := Some(now), status := EntryStatus.Forfeit);
    match against.status
    case Waiting => Settled(me.(outcome := Loss), against.(outcome := Win), false)
    case InProgress => Settled(me.(outcome := Loss), against.(outcome := Win), false)
    case Finished => Settled(me.(outcome := Loss), against.(outcome := Win), true)
    case Forfeit => Settled(me.(outcome := Draw), against.(outcome := Draw), true)
  }

  /** `None` stands for the panic on an opponent that is still waiting. */
  function CompleteRows(self: Entry, against: Entry, now: Time): Option<Settled> {
    var me := self.(endedAt := Some(now), status := Finished);
    match against.status
    case Waiting => None
    case InProgress => Some(Settled(me.(outcome := Win), against.(outcome := Loss), false))
    case Forfeit => Some(Settled(me.(outcome := Win), against.(outcome := Loss), true))
    case Finished => Some(Settled(me.(outcome := Loss), against.(outcome := Win), true))
  }

  function Settle(m: Match, k: nat, s: Settled, now: Time): Match
    requires |m.entries| == 2 && k < 2
  {
    m.(entries := m.entries[k := s.self][1 - k := s.against],
       endedAt := if s.ends then Some(now) else m.endedAt)
  }

  function StartEntry(e: Entry, now: Time): Entry {
    if e.status.Waiting? then e.(status := EntryStatus.InProgress, startedAt := Some(now)) else e
  }

  function StartMatch(m: Match, now: Time): Match
    requires |m.entries| == 2
  {
    m.(startedAt := Some(now), entries := [StartEntry(m.entries[0], now), StartEntry(m.entries[1], now)])
  }

  function Apply(m: Match, e: Event): (r: Match)
    requires |m.entries| == 2
    ensures |r.entries| == 2
  {
    match e
    case Start(at) => StartMatch(m, at)
    case Forfeit(k, at) =>
      if k < 2 then Settle(m, k, ForfeitRows(m.entries[k], m.entries[1 - k], at), at) else m
    case Complete(k, at) =>
      if k >= 2 then m else
        match CompleteRows(m.entries[k], m.entries[1 - k], at)
        case None => m
        case Some(s) => Settle(m, k, s, at)
  }

  /** The guards under which the source lets an event happen. None of them
      looks at the opponent. */
  predicate Legal(m: Match, e: Event)
    requires |m.entries| == 2
  {
    match e
    case Start(_) => m.startedAt.None?
    case Forfeit(k, _) => k < 2 && !m.entries[k].HasEnded()
    case Complete(k, _) => k < 2 && m.entries[k].status.InProgress?
  }

  function Replay(m: Match, h: seq<Event>): (r: Match)
    requires |m.entries| == 2
    ensures |r.entries| == 2
  {
    if h == [] then m else Apply(Replay(m, h[..|h| - 1]), h[|h| - 1])
  }

  predicate LegalHistory(m: Match, h: seq<Event>)
    requires |m.entries| == 2
  {
    h != [] ==>
      && LegalHistory(m, h[..|h| - 1])
      && Legal(Replay(m, h[..|h| - 1]), h[|h| - 1])
      && (|h| > 1 ==> h[|h| - 2].at <= h[|h| - 1].at)
  }

  predicate EndsSide(e: Event, k: nat) {
    !e.Start? && e.side == k
  }

  /** Where in the history side `k` ended its race. */
  function EndIndex(h: seq<Event>, k: nat): (r: Option<nat>)
    ensures r.Some? ==> r.value < |h| && EndsSide(h[r.value], k)
  {
    if h == [] then None else
      var r := EndIndex(h[..|h| - 1], k);
      if r.Some? then r
      else if EndsSide(h[|h| - 1], k) then Some(|h| - 1)
      else None
  }

  /** Where in the history the match was started. */
  function StartIndex(h: seq<Event>): (r: Option<nat>)
    ensures r.Some? ==> r.value < |h| && h[r.value].Start?
  {
    if h == [] then None else
      var r := StartIndex(h[..|h| - 1]);
      if r.Some? then r
      else if h[|h| - 1].Start? then Some(|h| - 1)
      else None
  }

  /** Both are the first of their kind, and miss none. */
  lemma {:induction false} IndicesAreFirst(h: seq<Event>, k: nat, i: nat)
    requires i < |h|
    ensures EndsSide(h[i], k) ==> EndIndex(h, k).Some? && EndIndex(h, k).value <= i
    ensures h[i].Start? ==> StartIndex(h).Some? && StartIndex(h).value <= i
  {
    if i < |h| - 1 {
      IndicesAreFirst(h[..|h| - 1], k, i);
    }
  }

  predicate Forfeited(h: seq<Event>, k: nat) {
    var i := EndIndex(h, k);
    i.Some? && h[i.value].Forfeit?
  }

  predicate Completed(h: seq<Event>, k: nat) {
    var i := EndIndex(h, k);
    i.Some? && h[i.value].Complete?
  }

  /** The rules of a race: two forfeits draw, a lone forfeit loses, otherwise
      the first to complete wins. Until somebody ends, it is a draw. */
  function Verdict(h: seq<Event>, k: nat): Outcome
    requires k < 2
  {
    if Forfeited(h, k) then
      if Forfeited(h, 1 - k) then Draw else Loss
    else if Forfeited(h, 1 - k) then Win
    else if Completed(h, k) then
      if Completed(h, 1 - k) && EndIndex(h, 1 - k).value < EndIndex(h, k).value then Loss else Win
    else if Completed(h, 1 - k) then Loss
    else Draw
  }

  function StatusAfter(h: seq<Event>, k: nat): EntryStatus {
    if Forfeited(h, k) then EntryStatus.Forfeit
    else if Completed(h, k) then Finished
    else if StartIndex(h).Some? then EntryStatus.InProgress
    else EntryStatus.Waiting
  }

  /** An entry is started by the match, unless it was forfeited before. */
  function EntryStartedAt(h: seq<Event>, k: nat): Option<Time> {
    var s := StartIndex(h);
    var e := EndIndex(h, k);
    if s.Some? && (e.Some? ==> s.value < e.value) then Some(h[s.value].at) else None
  }

  function TimeOf(h: seq<Event>, i: Option<nat>): Option<Time>
    requires i.Some? ==> i.value < |h|
  {
    if i.Some? then Some(h[i.value].at) else None
  }

  /** The match ends with the later of its two sides. */
  function MatchEndedAt(h: seq<Event>): Option<Time> {
    var a, b := EndIndex(h, 0), EndIndex(h, 1);
    if a.Some? && b.Some? then Some(h[if a.value < b.value then b.value else a.value].at) else None
  }

  /** Every field of a match, computed from its history alone. */
  ghost predicate Tells(h: seq<Event>, m: Match)
    requires |m.entries| == 2
  {
    && m.startedAt == TimeOf(h, StartIndex(h))
    && m.endedAt == MatchEndedAt(h)
    && forall k | 0 <= k < 2 :: TellsEntry(h, k, m.entries[k])
  }

  ghost predicate TellsEntry(h: seq<Event>, k: nat, e: Entry)
    requires k < 2
  {
    && e.status == StatusAfter(h, k)
    && e.outcome == Verdict(h, k)
    && e.startedAt == EntryStartedAt(h, k)
    && e.endedAt == TimeOf(h, EndIndex(h, k))
  }

  lemma {:induction false} IndexAfter(g: seq<Event>, e: Event, k: nat)
    ensures EndIndex(g + [e], k) ==
            if EndIndex(g, k).Some? then EndIndex(g, k)
            else if EndsSide(e, k) then Some(|g|) else None
    ensures StartIndex(g + [e]) ==
            if StartIndex(g).Some? then StartIndex(g)
            else if e.Start? then Some(|g|) else None
    ensures EndIndex(g, k).Some? ==> (g + [e])[EndIndex(g, k).value] == g[EndIndex(g, k).value]
    ensures StartIndex(g).Some? ==> (g + [e])[StartIndex(g).value] == g[StartIndex(g).value]
  {
    assert (g + [e])[..|g|] == g;
  }

  /** A legal event takes the rows told by a history to those told by the longer one. */
  lemma TellsNext(g: seq<Event>, e: Event, m: Match)
    requires |m.entries| == 2
    requires Tells(g, m) && Legal(m, e) && CompletedAfterStart(g)
    ensures Tells(g + [e], Apply(m, e))
    ensures CompletedAfterStart(g + [e])
  {
    IndexAfter(g, e, 0);
    IndexAfter(g, e, 1);
    match e
    case Start(_) => TellsStart(g, e, m);
    case Forfeit(k, _) => TellsForfeit(g, e, m);
    case Complete(k, _) => TellsComplete(g, e, m);
  }

  /** What a start adds to the reading of a history for side `k`. */
  lemma {:induction false} StartReads(g: seq<Event>, e: Event, k: nat, o: nat)
    requires e.Start? && k + o == 1 && StartIndex(g).None?
    requires !Completed(g, k)
    ensures var h := g + [e];
      && StatusAfter(h, k) == (if StatusAfter(g, k).Waiting? then EntryStatus.InProgress else StatusAfter(g, k))
      && Verdict(h, k) == Verdict(g, k)
      && EntryStartedAt(g, k).None?
      && EntryStartedAt(h, k) == (if StatusAfter(g, k).Waiting? then Some(e.at) else None)
      && TimeOf(h, EndIndex(h, k)) == TimeOf(g, EndIndex(g, k))
      && TimeOf(h, StartIndex(h)) == Some(e.at)
      && MatchEndedAt(h) == MatchEndedAt(g)
  {
    IndexAfter(g, e, k);
    IndexAfter(g, e, o);
  }

  lemma {:induction false} StartTells(g: seq<Event>, e: Event, k: nat, o: nat, self: Entry)
    requires e.Start? && k + o == 1 && StartIndex(g).None? && !Completed(g, k)
    requires TellsEntry(g, k, self)
    ensures TellsEntry(g + [e], k, StartEntry(self, e.at))
  {
    StartReads(g, e, k, o);
  }

  lemma TellsStart(g: seq<Event>, e: Event, m: Match)
    requires |m.entries| == 2
    requires Tells(g, m) && Legal(m, e) && CompletedAfterStart(g)
    requires e.Start?
    ensures Tells(g + [e], Apply(m, e))
  {
    assert TellsEntry(g, 0, m.entries[0]) && TellsEntry(g, 1, m.entries[1]);
    StartTells(g, e, 0, 1, m.entries[0]);
    StartTells(g, e, 1, 0, m.entries[1]);
    StartReads(g, e, 0, 1);
  }

  /** What any end of side `k` adds to the reading of a history. */
  lemma {:induction false} EndReads(g: seq<Event>, e: Event, k: nat, o: nat)
    requires EndsSide(e, k) && k + o == 1
    requires EndIndex(g, k).None?
    ensures var h := g + [e];
      && Forfeited(h, k) == e.Forfeit? && Completed(h, k) == e.Complete?
      && Forfeited(h, o) == Forfeited(g, o) && Completed(h, o) == Completed(g, o)
      && EndIndex(h, k) == Some(|g|) && EndIndex(h, o) == EndIndex(g, o)
      && StatusAfter(h, o) == StatusAfter(g, o)
      && EntryStartedAt(h, k) == EntryStartedAt(g, k) && EntryStartedAt(h, o) == EntryStartedAt(g, o)
      && MatchEndedAt(g).None? && MatchEndedAt(h) == (if EndIndex(g, o).Some? then Some(e.at) else None)
      && TimeOf(h, EndIndex(h, k)) == Some(e.at) && TimeOf(h, EndIndex(h, o)) == TimeOf(g, EndIndex(g, o))
      && TimeOf(h, StartIndex(h)) == TimeOf(g, StartIndex(g))
  {
    IndexAfter(g, e, k);
    IndexAfter(g, e, o);
  }

  /** What a forfeit of side `k` adds to the reading of a history. */
  lemma {:induction false} ForfeitReads(g: seq<Event>, e: Event, k: nat, o: nat)
    requires e.Forfeit? && e.side == k && k + o == 1
    requires EndIndex(g, k).None?
    ensures var h := g + [e];
      && StatusAfter(h, k) == EntryStatus.Forfeit && StatusAfter(h, o) == StatusAfter(g, o)
      && Verdict(h, k) == (if Forfeited(g, o) then Draw else Loss)
      && Verdict(h, o) == (if Forfeited(g, o) then Draw else Win)
      && EntryStartedAt(h, k) == EntryStartedAt(g, k) && EntryStartedAt(h, o) == EntryStartedAt(g, o)
      && MatchEndedAt(g).None? && MatchEndedAt(h) == (if EndIndex(g, o).Some? then Some(e.at) else None)
      && TimeOf(h, EndIndex(h, k)) == Some(e.at) && TimeOf(h, EndIndex(h, o)) == TimeOf(g, EndIndex(g, o))
      && TimeOf(h, StartIndex(h)) == TimeOf(g, StartIndex(g))
  {
    EndReads(g, e, k, o);
  }

  lemma {:induction false} ForfeitTells(g: seq<Event>, e: Event, k: nat, o: nat, self: Entry, against: Entry)
    requires e.Forfeit? && e.side == k && k + o == 1 && EndIndex(g, k).None?
    requires TellsEntry(g, k, self) && TellsEntry(g, o, against)
    ensures var s := ForfeitRows(self, against, e.at);
      && TellsEntry(g + [e], k, s.self) && TellsEntry(g + [e], o, s.against)
      && MatchEndedAt(g).None? && MatchEndedAt(g + [e]) == (if s.ends then Some(e.at) else None)
  {
    ForfeitReads(g, e, k, o);
    assert EndIndex(g, o).Some? <==> against.HasEnded();
  }

  lemma TellsForfeit(g: seq<Event>, e: Event, m: Match)
    requires |m.entries| == 2
    requires Tells(g, m) && Legal(m, e)
    requires e.Forfeit?
    ensures Tells(g + [e], Apply(m, e))
  {
    var k, o := e.side, 1 - e.side;
    assert TellsEntry(g, k, m.entries[k]) && TellsEntry(g, o, m.entries[o]);
    ForfeitTells(g, e, k, o, m.entries[k], m.entries[o]);
    IndexAfter(g, e, k);
  }

  /** What a completion by side `k` adds to the reading of a history. */
  lemma {:induction false} CompleteReads(g: seq<Event>, e: Event, k: nat, o: nat)
    requires e.Complete? && e.side == k && k + o == 1
    requires EndIndex(g, k).None?
    ensures var h := g + [e];
      && StatusAfter(h, k) == Finished && StatusAfter(h, o) == StatusAfter(g, o)
      && Verdict(h, k) == (if Completed(g, o) then Loss else Win)
      && Verdict(h, o) == (if Completed(g, o) then Win else Loss)
      && EntryStartedAt(h, k) == EntryStartedAt(g, k) && EntryStartedAt(h, o) == EntryStartedAt(g, o)
      && MatchEndedAt(g).None? && MatchEndedAt(h) == (if EndIndex(g, o).Some? then Some(e.at) else None)
      && TimeOf(h, EndIndex(h, k)) == Some(e.at) && TimeOf(h, EndIndex(h, o)) == TimeOf(g, EndIndex(g, o))
      && TimeOf(h, StartIndex(h)) == TimeOf(g, StartIndex(g))
  {
    EndReads(g, e, k, o);
  }

  lemma {:induction false} CompleteTells(g: seq<Event>, e: Event, k: nat, o: nat, self: Entry, against: Entry)
    requires e.Complete? && e.side == k && k + o == 1 && EndIndex(g, k).None?
    requires TellsEntry(g, k, self) && TellsEntry(g, o, against) && !against.status.Waiting?
    ensures CompleteRows(self, against, e.at).Some?
    ensures var s := CompleteRows(self, against, e.at).value;
      && TellsEntry(g + [e], k, s.self) && TellsEntry(g + [e], o, s.against)
      && MatchEndedAt(g).None? && MatchEndedAt(g + [e]) == (if s.ends then Some(e.at) else None)
  {
    CompleteReads(g, e, k, o);
    assert EndIndex(g, o).Some? <==> against.HasEnded();
  }

  lemma {:induction false} RunningIsStarted(g: seq<Event>, k: nat, o: nat)
    requires StatusAfter(g, k) == EntryStatus.InProgress
    ensures EndIndex(g, k).None? && StartIndex(g).Some? && StatusAfter(g, o) != EntryStatus.Waiting
  {
  }

  lemma {:induction false} TellsComplete(g: seq<Event>, e: Event, m: Match)
    requires |m.entries| == 2
    requires Tells(g, m) && Legal(m, e)
    requires e.Complete?
    ensures Tells(g + [e], Apply(m, e))
    ensures CompleteRows(m.entries[e.side], m.entries[1 - e.side], e.at).Some?
    ensures StartIndex(g).Some?
  {
    var k, o := e.side, 1 - e.side;
    assert TellsEntry(g, k, m.entries[k]) && TellsEntry(g, o, m.entries[o]);
    RunningIsStarted(g, k, o);
    CompleteTells(g, e, k, o, m.entries[k], m.entries[o]);
    IndexAfter(g, e, k);
  }

  /** Nobody completes a race before its start. */
  ghost predicate CompletedAfterStart(h: seq<Event>) {
    forall k | 0 <= k < 2 :: Completed(h, k) ==>
      StartIndex(h).Some? && StartIndex(h).value < EndIndex(h, k).value
  }

  ghost predicate Fresh(m: Match) {
    |m.entries| == 2 && m == NewMatch(m.league, m.session, m.entries[0].player, m.entries[1].player)
  }

  /** For every legal interleaving of a fresh match's start, forfeits and
      completions, the stored rows are what the rules of a race say about the
      order of events. */
  lemma {:induction false} HistoryTells(m: Match, h: seq<Event>)
    requires Fresh(m) && LegalHistory(m, h)
    ensures Tells(h, Replay(m, h)) && CompletedAfterStart(h)
  {
    if h == [] {
      assert TellsEntry(h, 0, m.entries[0]) && TellsEntry(h, 1, m.entries[1]);
    } else {
      var g := h[..|h| - 1];
      assert g + [h[|h| - 1]] == h;
      HistoryTells(m, g);
      TellsNext(g, h[|h| - 1], Replay(m, g));
    }
  }

  lemma {:induction false} TimesInOrder(m: Match, h: seq<Event>, i: nat, j: nat)
    requires |m.entries| == 2 && LegalHistory(m, h)
    requires i <= j < |h|
    ensures h[i].at <= h[j].at
  {
    if j < |h| - 1 {
      TimesInOrder(m, h[..|h| - 1], i, j);
    } else if i < j {
      TimesInOrder(m, h[..|h| - 1], i, j - 1);
    }
  }

  /** The state of one match between any two transactions. */
  ghost predicate Sound(m: Match) {
    && |m.entries| == 2
    // Before the start both sides wait or gave up; after it nobody waits.
    && (forall k | 0 <= k < 2 :: m.entries[k].status.Waiting? ==> m.startedAt.None?)
    && (forall k | 0 <= k < 2 :: m.entries[k].status.InProgress? || m.entries[k].status.Finished? ==> m.startedAt.Some?)
    // Outcomes cancel out.
    && m.entries[0].outcome.Points() + m.entries[1].outcome.Points() == 0
    // A match ends with its second side.
    && (m.HasEnded() <==> m.entries[0].HasEnded() && m.entries[1].HasEnded())
    && forall k | 0 <= k < 2 :: SoundEntry(m.entries[k])
  }

  ghost predicate SoundEntry(e: Entry) {
    && (e.HasEnded() <==> e.endedAt.Some?)
    && (e.status.Finished? ==> e.startedAt.Some? && e.startedAt.value <= e.endedAt.value)
    && (e.HasEnded() && e.startedAt.None? ==> e.status.Forfeit?)
  }

  lemma {:induction false} HistoryIsSound(m: Match, h: seq<Event>)
    requires Fresh(m) && LegalHistory(m, h)
    ensures Sound(Replay(m, h))
  {
    HistoryTells(m, h);
    var r := Replay(m, h);
    forall k | 0 <= k < 2
      ensures SoundEntry(r.entries[k])
      ensures r.entries[k].status.Waiting? ==> r.startedAt.None?
      ensures r.entries[k].status.InProgress? || r.entries[k].status.Finished? ==> r.startedAt.Some?
    {
      assert TellsEntry(h, k, r.entries[k]);
      if Completed(h, k) {
        TimesInOrder(m, h, StartIndex(h).value, EndIndex(h, k).value);
      }
    }
    assert TellsEntry(h, 0, r.entries[0]) && TellsEntry(h, 1, r.entries[1]);
  }

  lemma {:induction false} EndIsNew(m: Match, h: seq<Event>, e: Event, k: nat)
    requires Fresh(m) && LegalHistory(m, h) && Legal(Replay(m, h), e) && EndsSide(e, k)
    ensures EndIndex(h, k).None?
  {
    HistoryTells(m, h);
    var x := Replay(m, h);
    assert !x.entries[k].HasEnded();
    assert TellsEntry(h, k, x.entries[k]);
  }

  /** A side ends its race once: its first end is its only one. */
  lemma {:induction false} EndsOnce(m: Match, h: seq<Event>, k: nat, i: nat)
    requires Fresh(m) && LegalHistory(m, h) && i < |h| && EndsSide(h[i], k)
    ensures EndIndex(h, k) == Some(i)
  {
    var n := |h| - 1;
    if i < n {
      EndsOnce(m, h[..n], k, i);
    } else {
      EndIsNew(m, h[..n], h[n], k);
    }
  }

  /** The panic in the source's `complete` is unreachable: whenever a side may
      complete, its opponent is not waiting. */
  lemma {:induction false} CompleteNeverPanics(m: Match, h: seq<Event>, k: nat, now: Time)
    requires Fresh(m) && LegalHistory(m, h)
    requires Legal(Replay(m, h), Complete(k, now))
    ensures CompleteRows(Replay(m, h).entries[k], Replay(m, h).entries[1 - k], now).Some?
  {
    HistoryIsSound(m, h);
  }

  /** No forfeit or completion is possible in an ended match. The one event
      that still can change it is the start, and it can happen exactly when
      both sides forfeited before it; it then writes the start date only. */
  lemma {:induction false} EndedMatchIsFrozen(m: Match, h: seq<Event>, e: Event)
    requires Fresh(m) && LegalHistory(m, h)
    requires Replay(m, h).HasEnded()
    ensures Legal(Replay(m, h), e) <==> e.Start? && StartIndex(h).None?
    ensures Legal(Replay(m, h), e) ==> Forfeited(h, 0) && Forfeited(h, 1)
    ensures Legal(Replay(m, h), e) ==> Apply(Replay(m, h), e) == Replay(m, h).(startedAt := Some(e.at))
  {
    HistoryTells(m, h);
    HistoryIsSound(m, h);
    var r := Replay(m, h);
    assert TellsEntry(h, 0, r.entries[0]) && TellsEntry(h, 1, r.entries[1]);
    if e.Start? {
      assert StartMatch(r, e.at).entries == r.entries;
    }
  }

  /** Hence whatever follows, the entries and the end date of an ended match
      stay, and so does its start date once it is set. */
  lemma {:induction false} EndedMatchStays(m: Match, h: seq<Event>, more: seq<Event>)
    requires Fresh(m) && LegalHistory(m, h) && LegalHistory(m, h + more)
    requires Replay(m, h).HasEnded()
    ensures Replay(m, h + more) == Replay(m, h).(startedAt := Replay(m, h + more).startedAt)
    ensures Replay(m, h).startedAt.Some? ==> Replay(m, h + more) == Replay(m, h)
  {
    if more == [] {
      assert h + more == h;
    } else {
      var front, last := more[..|more| - 1], more[|more| - 1];
      assert (h + more)[..|h + more| - 1] == h + front;
      EndedMatchStays(m, h, front);
      EndedMatchIsFrozen(m, h + front, last);
      HistoryTells(m, h + front);
    }
  }
}

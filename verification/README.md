# Kaepora's racing ladder: a verified model

Kaepora runs a ladder of one-against-one races. A daemon opens race sessions,
pairs the players who joined, starts their matches, closes the sessions and
updates ratings; players join, cancel, complete and forfeit in between; a
sampler draws random settings for the shuffled races. This project models those
five cores and proves what they are for.

| core | files | what is proved |
|---|---|---|
| Race lifecycle | `Rows`, `MatchHistory`, `Lifecycle`, `LifecycleInvariant`, `LifecycleMatchSteps`, `Effects`, `Runs`, `Assumptions`, `Reopening`, `Witnesses`, `Records`, `Ladder` | a state machine over the tables whose steps are the transactions; one invariant over every interleaving of daemon and players; the outcome of each match from the order of its events; the code as methods over records and tables that take exactly those steps |
| Player pairing | `Sorting`, `Pairing`, `RangedPairing`, `PairingBound` | everybody plays once, the range phase is a maximal matching and so forms at least half of the pairs possible, which is all it forms on some players, the fallback draws neighbours; for every outcome of every draw |
| Ratings | `Calendar`, `Ranking`, `Incremental`, `RankedRuns`, `Tally`, `Standings` | weekly updates made along the way equal a recomputation exactly when the last update of each week saw games that rate as they do at present; the closings of a run make such updates if there is one late enough each week; rated by a system that only counts, the tables hold each started match once, with its outcome |
| Schedules | `Calendar`, `Rolling`, `Weekly`, `Schedules` | when the searches find the first date, when the loop of coming races ends, and that its list is complete and in order; all with their exact conditions |
| Shuffled settings | `Settings`, `Sampler`, `Bridge` | the sampler is the replay of its picks, independent of map order, keeps its budget and leaves the bridge settings coherent |

How the parts fit:

- The tables are maps. A transaction is one atomic step (`internal/back/back.go:92-107`).
  `Lifecycle` gives each one a guard and an effect as functions of the tables;
  the methods of the class `Ladder.Ladder` do the same work row by row, with
  the loops and the loaded records of the source, and their contracts say that
  they take that step or refuse and change nothing.
- Four things the rows do not show are kept beside them: the events each match
  went through (`journal`), the rows the daemon carries from its preparing
  transaction to its matchmaking one (`pending`), those its countdowns carry
  (`counting`), and the time of the last step (`clock`). The first and the last
  only serve the statements; `Runs.JournalIsTheRun` shows that the journal is
  the run itself.
- The runs start sessions both ways the source has: in one transaction
  (`StartSession`), and by a countdown that reads the row in one transaction and
  writes it back in another, up to 90 seconds and any other steps later
  (`BeginCountdown`, `EndCountdown`). A countdown may end in a run unless its
  session has been closed meanwhile, which the source leaves to chance.
- The steps are functions of the tables. What they do to the rows is stated apart
  from them, field by field and in plain numbers, in `Effects`, and again in the
  contracts of the methods.
- Random draws are choices with nothing known but their range, and SQL and the
  sort library may answer in any order their contract allows. The settings
  sampler takes its draws from an oracle, so that two runs can be compared.
- Times are integers: seconds in the lifecycle, nanoseconds in the schedulers.
  The clock never goes back.
- No lemma is left to Dafny's automatic induction. In version 4.11 its hypothesis
  may speak of values of other types and prove too much; `--manual-lemma-induction`
  changes nothing here.

## What came out

Some properties hold only under a condition. Where it says "exactly when", that
condition is proved in both directions.

- An ended match is frozen but for one case: when both sides forfeited before
  the start, the start of the session still writes the match's start date
  (`MatchHistory.EndedMatchIsFrozen`, `Witnesses.EndedMatchStarts`).
- Joining by identifier does not look at the session's status and relies on the
  page (`resources/web/templates/includes/current_races.html:26`). It is a step
  of the lifecycle, one that keeps the invariant and changes the row as rows go
  on, exactly when the session is joinable (`Assumptions.JoinIsSafeIff`); a join
  of a reachable waiting session breaks the invariant (`Witnesses.EarlyJoinBreaks`).
- The seed generator writes back the whole match as it was created. That is
  harmless exactly when the match has neither started nor ended
  (`Assumptions.WriteSeedIsSafeIff`, `Witnesses.LateSeedBreaks`); the existing
  test waits for it (`internal/back/back_matchmaking_test.go:77`).
- The countdown writes back a session row it read up to 90 seconds earlier.
  Whatever happened meanwhile, only the status can have changed, and the write
  is safe exactly when the session has not been closed; otherwise it opens it
  again (`Assumptions.CountdownIsSafeIff`). That takes a session closed before
  its countdown ended, which was prepared but never matched
  (`Witnesses.CountdownReopens`) or whose matches had all ended by forfeits
  before the start (`Witnesses.CountdownReopensMatched`). Opening it again keeps
  the invariant exactly when no listed player who has not ended in it is
  committed to another session (`Reopening.CountdownKeepsInvIff`). With matches
  that is always so, as all its players have ended (`Reopening.MatchedIsFree`);
  without, a player may have joined another race meanwhile and is then committed
  to both (`Witnesses.CountdownCommitsTwice`).
- Ratings updated along the way equal a recomputation exactly when the last
  update of each week since the first match saw games that rate as those of the
  week do at present, on top of the final ratings of the week before
  (`Incremental.AlongIsRerankIff`). The same games with the same outcomes always
  do (`Incremental.SameGamesCover`); whether others may depends on the rating
  system, of which nothing is used but that it rates the players it is given. A
  run meets the condition when each week has a closing after its last start and
  last end (`RankedRuns.ClosingsAreRerank`). Two ways to miss it. An update is
  made for the week it is made in: when a player's first race starts before
  Monday 00:00 UTC and no session of the league closes from its start to that
  midnight, no update of its own week sees it, however many sessions closed
  before, and the ratings differ (`Incremental.OverMidnightIsLost`,
  `RankedRuns.FirstRaceIsLost`). And a week without any update makes the next one
  rate its games as if nobody had ever played, which no later update mends
  (`Incremental.SkippedWeekForgets`).
- A rolling schedule with a positive offset misses dates, because the search
  starts one period too late (`Rolling.RightIff`). With a negative offset every
  date from the epoch on is its own successor (`Rolling.SticksIff`), so that the
  loop that lists coming races ends exactly when there is no date from its start
  to its end (`Schedules.LoopEndsIff`).
- A weekly schedule looks at the hours of one calendar week of UTC at a time. It
  always finds the first date exactly when each hour that its time zone moves
  out of that week is also there within it, and, if some lie beyond the end but
  none at it, the earliest of the next week is among them (`Weekly.FirstIff`).
  With hours of UTC that is when no race is on Sunday 00:00
  (`Weekly.UtcFirstIff`).
- The bridge settings are coherent after every pick if only the known ones
  exist, no value implies one and "bridge" is only ever open or vanilla; for a
  pick of "bridge" the last condition is also necessary
  (`Bridge.BridgeIsCoherent`, `Bridge.BridgePickDecides`).

Where the code and its description differ, the model follows the code: the
comment on waiting sessions speaks of 30 minutes where the constant is an hour
(`internal/back/match_session.go:18-19`, `29`); the sampler's comment allows
going over the budget, which the code never does
(`internal/generator/oot/settings/settings.go:71-73`, `114`); the schedulers'
interface promises the first event, which holds under the conditions above
(`internal/back/schedule/schedule.go:14-15`).

## Model

| member | source | states |
|---|---|---|
| MatchHistory.HistoryTells | internal/back/match_entry.go:89-129 | for every legal interleaving of a match's start, forfeits and completions, every stored field is what the rules of a race say about the order of events: two forfeits draw, a lone forfeit loses, otherwise the first to complete wins; start and end dates are those of the events |
| MatchHistory.HistoryIsSound | internal/back/match_entry.go:89-129 | before the start both sides wait or gave up, after it nobody waits; the outcomes sum to zero; the match has ended exactly when both sides have; a finished entry started no later than it ended, and an ended entry without a start date is a forfeit |
| MatchHistory.IndicesAreFirst | internal/back/match_entry.go:89-129 | the events a verdict is read from are the first end of a side and the first start, and none is overlooked |
| MatchHistory.CompleteNeverPanics | internal/back/match_entry.go:110-116 | whenever a side may complete, its opponent is not waiting: the "unreachable" panic is unreachable |
| MatchHistory.EndedMatchIsFrozen | internal/back/match_session.go:343-378 | in an ended match no forfeit and no completion is possible; a start is possible exactly when there was none, then both sides forfeited, and it writes the start date only |
| MatchHistory.EndedMatchStays | internal/back/match.go:80-89 | whatever events follow, the entries and the end date of an ended match stay, and so does a start date once set |
| MatchHistory.EndsOnce | internal/back/back_racing.go:129-137 | in every legal history a side ends its race once at most |
| Records.MatchEntry.Forfeit | internal/back/match_entry.go:89-108 | changes both entries and the match in place to the rows the history speaks of, for each status of the opponent |
| Records.MatchEntry.Complete | internal/back/match_entry.go:110-129 | likewise for a completion; an opponent that waits is the panic |
| Records.MatchRecord.End | internal/back/match.go:80-82 | sets the end date |
| Records.MatchSession.HasPlayerID | internal/back/match_session.go:58-66 | tells whether a player is listed |
| Records.MatchSession.AddPlayerID | internal/back/match_session.go:254-265 | appends, in order, the players not listed yet |
| Records.RegisteredOnce | internal/back/match_session.go:254-265 | registering keeps the list free of repetitions, loses nobody, adds nobody else, and keeps those already there in front |
| Records.MatchSession.RemovePlayerID | internal/back/match_session.go:268-279 | takes out all occurrences of a player and keeps the order of the rest |
| Records.LeavingUndoesJoining | internal/back/match_session.go:254-279 | removing a player who just joined gives the list back |
| Records.RemovingTheLast | internal/back/back_matchmaking.go:274-276 | on a list without repetition, removing the last joiner is cutting the list short |
| LifecycleInvariant.UnendedIsLive | internal/back/match_session.go:150-170 | an unended entry always lies in a session that commits its player: the fallback of the lookup never finds what its loop missed |
| LifecycleInvariant.ActiveIsTheLiveOne | internal/back/match_session.go:102-145 | the lookup has one possible answer, the only open session that lists the player and that they have not ended; none exactly when there is no such session |
| LifecycleInvariant.WindowsMeet | internal/back/back_periodic.go:91-107 | what a tick opens can still be cancelled; up to its start a joinable session can be cancelled or is due to be prepared, both at the deadline only; a session not opened in time never is |
| LifecycleInvariant.JoinKeepsInv | internal/back/back_racing.go:73-109 | a join keeps the invariant: one commitment per player, no player listed twice |
| LifecycleInvariant.CancelKeepsInv | internal/back/back_racing.go:192-220 | a cancellation keeps the invariant |
| LifecycleInvariant.PrepareKeepsInv | internal/back/back_periodic.go:127-173 | preparing keeps the invariant, and the rows it carries on are unmatched, have two players at least and equal the stored ones |
| LifecycleInvariant.CloseKeepsInv | internal/back/back_periodic.go:298-358 | closing keeps the invariant |
| LifecycleMatchSteps.MatchMakeSeatsAll | internal/back/back_matchmaking.go:187-230 | matchmaking writes back the stored row less at most its odd last joiner, and gives exactly the remaining players one seat each |
| LifecycleMatchSteps.MatchMakeKeepsInv | internal/back/back_matchmaking.go:187-297 | matchmaking from the carried copy keeps the invariant, whatever pairs are drawn |
| LifecycleMatchSteps.StartKeepsInv | internal/back/match_session.go:336-381 | the start of a session keeps the invariant |
| LifecycleMatchSteps.CountdownIsStart | internal/back/back_periodic.go:217-278 | unless its session has been closed, the end of a countdown, from a row read any time before, is the start of the session, or finds it started and changes no table |
| LifecycleMatchSteps.EndCountdownKeepsInv | internal/back/back_periodic.go:265-277 | the end of a countdown keeps the invariant unless the session has been closed |
| LifecycleMatchSteps.EndIsLegal | internal/back/back_racing.go:121-137 | the entry the lookup leads a forfeit or completion to has not ended, although nobody asks |
| LifecycleMatchSteps.EndKeepsInv | internal/back/back_racing.go:121-152 | a forfeit or completion keeps the invariant |
| Effects.EndGuard | internal/back/back_racing.go:121-137 | a player can forfeit exactly where their session is in preparation or in progress and their entry has not ended, and complete exactly if it is also running |
| Effects.EndedRows | internal/back/back_racing.go:129-143 | a completion leaves the entry finished now, lost if the opponent had finished and won otherwise; a forfeit leaves it forfeited now, a draw if the opponent had forfeited and lost otherwise; the opponent gets the converse outcome, the match ends if they had ended, and nothing else changes |
| Effects.JoinGuard | internal/back/back_racing.go:73-95 | a player is accepted exactly if the session does not list them and no session under way does in which they have not ended |
| Effects.JoinedRow | internal/back/back_racing.go:97-109 | a join puts the player last, changes nothing else, and is then their only commitment if the session is joinable |
| Effects.CancelledRow | internal/back/back_racing.go:192-220 | a cancellation takes the player out of their place, leaves the others in theirs and all else as it was, and leaves the player without commitment |
| Effects.StartedRows | internal/back/match_session.go:336-381 | a start sets the date of each match of the session that has none, and of its waiting entries, now running; forfeited entries and other matches stay |
| Effects.MatchMadeRows | internal/back/back_matchmaking.go:187-230 | matchmaking cuts an odd list short by its last player, adds one untouched match of the session and its league for each seat, and changes no other row |
| LifecycleMatchSteps.StepKeepsInv | internal/back/back_periodic.go:13-50 | every transaction, those of countdowns and restarts included, keeps the invariant, whatever chance and SQL choose |
| Runs.RunKeepsInv | internal/back/back_periodic.go:13-50 | so does every run of the daemon and the players, in any interleaving |
| Runs.OneActiveRace | internal/back/match_session.go:102-170 | in every reachable state a player has at most one commitment, every unended entry is in it, and the lookup finds exactly it |
| Runs.SessionsAndSeats | internal/back/back_matchmaking.go:187-230 | in every reachable state players are listed once, waiting sessions list nobody, sessions before preparation have no match, a session with matches has one entry for each listed player and no other, its matches are of its league, and a closed session has only ended matches |
| Runs.CarriedRowsAreStored | internal/back/back_periodic.go:30-39 | the rows carried from the preparing transaction to the matchmaking one still equal the stored ones, whatever players did in between |
| Runs.CountedRowsAreStored | internal/back/back_periodic.go:217-278 | the rows countdowns carry differ from the stored ones in the status only, and the stored status is not behind |
| Runs.NoPanicOnComplete | internal/back/back_racing.go:129-137 | in no reachable state does a completion that passes the checks meet a waiting opponent |
| Runs.JournalIsTheRun | internal/back/back_racing.go:121-152 | the events of a match are exactly its starts, forfeits and completions in the run, and its players, league and session never change |
| Runs.MatchesFollowTheRules | internal/back/match_entry.go:89-129 | in every reachable state the rows of every match are what the rules of a race make of the run |
| Runs.EntriesEndAsAsked | internal/back/back_racing.go:121-152 | in every reachable state an entry is finished exactly if its side completed in the run, forfeited exactly if it gave up, and ended at the time it did |
| Runs.EndedForGood | internal/back/match.go:85-89 | nothing in any later run changes the entries or the end date of an ended match, nor its start date once set |
| Runs.StepOnSession | internal/back/back_periodic.go:91-173 | a transaction moves a session at most one status up, or closes it; from preparation on its list changes only by the odd kick of matchmaking |
| Runs.SessionsMoveForward | internal/back/match_session.go:28-34 | over any run the status of a session never decreases, its league and date stay, and its list changes only by the odd kick once it is in preparation |
| Runs.MatchmadeOnce | internal/back/back_matchmaking.go:187-191 | a session with matches is never matchmade in any later run |
| Runs.NeverMatchmadeTwice | internal/back/back_matchmaking.go:187-230 | a session that was matchmade is never matchmade again |
| Runs.OnlyTheStatusChanges | internal/back/back_periodic.go:184-186 | of a row past joining and not carried to matchmaking, no later run changes anything but the status |
| Assumptions.JoinIsSafeIff | internal/back/back_racing.go:38-52 | the join by identifier, for a player it accepts, keeps the invariant and takes the row on as rows go on, exactly when the session is joinable |
| Assumptions.WriteSeedIsSafeIff | internal/back/back_matchmaking.go:144-154 | the write of a seed keeps the invariant exactly when the match has neither started nor ended |
| Assumptions.CountdownIsSafeIff | internal/back/back_periodic.go:217-278 | the end of a countdown keeps the invariant and moves the status at most one up exactly when the session has not been closed meanwhile |
| Reopening.CountdownKeepsInvIff | internal/back/back_periodic.go:265-277 | whatever the status of the session, the end of its countdown keeps the invariant exactly when no listed player who has not ended in it is committed to another session |
| Reopening.MatchedIsFree | internal/back/back_periodic.go:301-340 | a closed session with matches has only players who have ended in it: opening it again commits nobody |
| Witnesses.EarlyJoinBreaks | internal/back/back_racing.go:38-52 | a run from empty tables leads to a waiting session that an accepted join breaks |
| Witnesses.CountdownReopens | internal/back/back_periodic.go:265-277 | a run leads to a countdown whose session was closed meanwhile, and whose end is not safe |
| Witnesses.CountdownReopensMatched | internal/back/back_periodic.go:265-277 | a run leads to such a countdown of a session whose only match was forfeited by both sides, and would still be given a start date |
| Witnesses.CountdownCommitsTwice | internal/back/back_periodic.go:265-277 | a run leads to such a countdown whose end breaks the invariant: a player of the session has joined another |
| Witnesses.LateSeedBreaks | internal/back/back_matchmaking.go:144-154 | a run leads to a started match whose seed write breaks the invariant |
| Witnesses.EndedMatchStarts | internal/back/match_session.go:343-378 | a run leads to a match ended by two forfeits that its session is still to start |
| Ladder.Ladder.CreateNextScheduledMatchSessions | internal/back/back_periodic.go:54-87 | only creates waiting sessions without players, at dates that are asked for, and afterwards every league has one at its next date |
| Ladder.Ladder.CreateSession | internal/back/back_periodic.go:68-79 | creates a session unless the league has one on that date |
| Ladder.Ladder.MakeMatchSessionsJoinable | internal/back/back_periodic.go:91-123 | opens exactly the waiting sessions from one hour to a quarter of an hour before their start, changes nothing else, and keeps the invariant |
| Ladder.Ladder.PrepareSelected | internal/back/back_periodic.go:136-161 | closes sessions of less than two players, puts the others in preparation and returns exactly those |
| Ladder.Ladder.MakeMatchSessionsPreparing | internal/back/back_periodic.go:127-173 | of the joinable sessions in their last quarter of an hour, closes those of less than two players, puts the others in preparation and carries exactly those on; changes nothing else, and is the preparing step of the lifecycle |
| Ladder.Ladder.GetMatchSessionsToEnd | internal/back/back_periodic.go:298-340 | selects exactly the open sessions past their start whose matches have all ended |
| Ladder.Ladder.CloseMatchSessions | internal/back/back_periodic.go:342-361 | closes exactly those, changes nothing else, and keeps the invariant; an open session left past its start has a match that goes on |
| Ladder.Ladder.StartMatchSession | internal/back/match_session.go:336-381 | puts a session in preparation in progress and starts its matches, the waiting entries only; an error for any other session |
| Ladder.Ladder.StartMatchSessions | internal/back/back_periodic.go:175-189 | is a run of countdowns that begin, after which each session in preparation that starts within 90 seconds has one, begun for no other |
| Ladder.Ladder.EndCountdown | internal/back/back_periodic.go:265-277 | reads nothing again: starts from the carried row and writes it back, which is the end of the countdown; keeps the invariant unless the session was closed, and then exactly when none of its players is committed twice |
| Ladder.Ladder.InstantlyStartMatchSessions | internal/back/back_periodic.go:192-215 | is a run of starts, of exactly the sessions in preparation that start within 90 seconds |
| Ladder.Ladder.GetMatchByPlayerAndSession | internal/back/match.go:152-170 | finds a match of the player in the session, or there is none |
| Ladder.Ladder.SideOf | internal/back/match.go:218-230 | the entry of the player, or an error when they have none in the match |
| Ladder.Ladder.GetPlayerActiveSession | internal/back/match_session.go:102-145 | answers with the earliest session that commits the player, else with the fallback's; none only if there is neither |
| Ladder.Ladder.GetPlayerActiveStartedSession | internal/back/match_session.go:150-170 | answers with the earliest session with an unended entry of the player, if any |
| Ladder.Ladder.JoinMatchSessionByID | internal/back/back_racing.go:38-95 | accepts exactly a player who is not listed and not busy, in a session of any status, and appends them; otherwise nothing changes, with the reason; keeps the invariant if the session is joinable |
| Ladder.Ladder.JoinCurrentMatchSession | internal/back/back_racing.go:54-71 | joins the earliest joinable session of the league that is still to start; refused exactly when there is none or the player may not; what commits the player is then that session |
| Ladder.Ladder.CancelActiveMatchSession | internal/back/back_racing.go:192-220 | accepted exactly when a joinable session commits the player, up to a quarter of an hour before its start; then they are out of the list and nobody else is; otherwise nothing changes |
| Ladder.Ladder.CanForfeit | internal/back/match_session.go:301-315 | accepts a session in preparation or in progress, and gives the reason in the source's order otherwise |
| Ladder.Ladder.EndEntry | internal/back/back_racing.go:129-143 | the two entries and the match, loaded, changed and written back, are the event applied to the row |
| Ladder.Ladder.GetActiveMatchAndEntriesForPlayer | internal/back/back_matchmaking.go:324-350 | finds the active session, match and side, or gives a reason that rules out any |
| Ladder.Ladder.EndActiveMatch | internal/back/back_racing.go:121-152 | ends the race of the player as asked, finished or forfeited, now, with the outcome the opponent's status gives, and changes nothing else; refused, and nothing changes, exactly when they may not |
| Ladder.Ladder.EnsureSessionIsValidForMatchMaking | internal/back/back_matchmaking.go:267-297 | of an odd list drops the last player, wherever listed, writes the carried row back, and goes on exactly with two players at least in preparation |
| Ladder.Ladder.PairAndInsert | internal/back/back_matchmaking.go:201-227 | inserts a match under a new identifier for each pair, which together seat exactly the listed players, paired by skill from their stored ratings, or nobody if there are less than two |
| Ladder.Ladder.CreateMatches | internal/back/back_matchmaking.go:187-230 | for any row, stored or not and with repetitions or not: nothing unless it is in preparation, only the row written back with less than two players, the panic exactly when an odd number of more than one is left to pair, else one seat for each listed player |
| Ladder.Ladder.MatchMakeSession | internal/back/back_matchmaking.go:187-230 | for a carried row it is always the matchmaking step of the lifecycle |
| Ladder.Ladder.DoMatchMaking | internal/back/back_matchmaking.go:23-37 | is a run of matchmakings, one for each carried row, each paired by skill from the stored ratings |
| Ladder.GetSessionPlayers | internal/back/back_matchmaking.go:244-262 | the listed players in order, each with the rating stored for the league, or 1500 and 350 |
| Ladder.PairsSeatThePlayers | internal/back/back_matchmaking.go:206-227 | pairs that rearrange the players make seats that rearrange the listed identifiers; a single player is in none |
| Sorting.Sort | internal/back/back_pair_players.go:20 | the library sort: an ordered rearrangement in place, ties in any order |
| Pairing.RandomInt | internal/back/back_matchmaking.go:307-319 | a draw lies between its bounds; an empty range is the panic |
| Pairing.RandomLowIndex | internal/back/back_pair_players.go:203-210 | a draw is a legal index |
| Pairing.RemovePlayer | internal/back/back_pair_players.go:42-44 | shifting the array in place leaves the line without the player at that index |
| Pairing.DrawIsWindowed | internal/back/back_pair_players.go:29-34 | the second draw is legal and, back in the line of both, lands within the window around the first |
| Pairing.DrawPair | internal/back/back_pair_players.go:25-34 | takes two players out of the line with at most the window's size of others strictly between them |
| Pairing.DrawsConserve | internal/back/back_pair_players.go:24-37 | the draws lose and invent nobody and leave the line in rating order |
| Pairing.LinesMakeNearPairs | internal/back/back_pair_players.go:20-51 | whatever is drawn from a line in the order of ratings: of those drawn after a pair at most one has a rating strictly between theirs, two with more than eight players, three with more than sixteen |
| Pairing.OrderedRandomPairPlayers | internal/back/back_pair_players.go:12-40 | empties the sorted line by such draws; everybody is paired once, and of those drawn after a pair at most one has a rating between theirs, two with more than eight players, three with more than sixteen |
| RangedPairing.RangeOf | internal/back/back_pair_players.go:132-157 | the range of a player holds all others that overlap, each once, with their distances, closest first; without any, the index stays 0 |
| RangedPairing.GetOverlappingRanges | internal/back/back_pair_players.go:128-161 | the ranges of all players, one each, rearranged so that those with fewest options come first |
| RangedPairing.OverlapMeans | internal/back/player_rating.go:33-36 | two players overlap if their ranges of twice the deviation around their ratings meet, and do not if these are two points apart |
| RangedPairing.FewestAndClosest | internal/back/back_pair_players.go:128-161 | players with fewer options come first, and to each the opponents closest in rating, to the point |
| RangedPairing.PairByRange | internal/back/back_pair_players.go:69-107 | for every pick the pairs are a maximal matching of the overlaps, formed range after range, and with those left over make up all players |
| RangedPairing.HalfOfAnyMatching | internal/back/back_pair_players.go:73-107 | any matching of overlapping players has at most twice as many pairs |
| RangedPairing.FormedIsMaximal | internal/back/back_pair_players.go:73-107 | whatever the order of equals and the picks, what the loop forms is a maximal matching |
| PairingBound.HalfIsReached | internal/back/back_pair_players.go:69-107 | the bound of half is tight for the loop: on some eight players, with ranges in an allowed order, it can form two pairs where four are possible |
| RangedPairing.PairLeftovers | internal/back/back_pair_players.go:109-119 | those left over, an even number, are paired by draws from their sorted line, so that at most one, two or three of those drawn later have a rating between those of a pair |
| RangedPairing.RangedPairPlayers | internal/back/back_pair_players.go:61-122 | half as many pairs as players, everybody used once; first a maximal matching of the overlaps, formed range after range, then those left over, so that at most one, two or three of those drawn later have a rating between those of a pair; no panic fires on an even list |
| RangedPairing.NobodyTwice | internal/back/back_pair_players.go:61-122 | with distinct players nobody meets themselves and nobody is in two pairs |
| Calendar.MondayIsTheWeek | internal/back/back_ranking.go:109-119 | the start of a period is the one Monday 00:00 UTC that its time has not passed by a week |
| Calendar.PeriodStart | internal/back/back_ranking.go:109-119 | the start of a period is a Monday 00:00 UTC, by the epoch's being a Thursday, less than seven days before |
| Calendar.SundayIsTheWeek | internal/back/schedule/day_of_week.go:77 | likewise for the Sunday a weekly schedule counts from |
| Ranking.ComputePeriod | internal/back/back_ranking.go:65-106 | rates the base players and the players of the matches, newcomers from the base rating, from the bag of matches |
| Ranking.GetMatchesByPeriod | internal/back/match.go:172-191 | the matches started in the week, bounds as in the query |
| Ranking.GetFirstMatchStart | internal/back/match.go:244-257 | the earliest start |
| Ranking.RankingTables.GetGlickoPlayersForLeague | internal/back/player_rating.go:79-99 | the rows of one week |
| Ranking.RankingTables.UpdateRunningPeriodRatings | internal/back/back_ranking.go:43-63 | inserts or replaces the rows of the rated players and no others |
| Ranking.RankingTables.CloseRatingPeriod | internal/back/back_ranking.go:152-175 | likewise in the table of weeks, for one week only |
| Ranking.RankingTables.UpdateLeagueRankings | internal/back/back_ranking.go:18-41 | rates the week of the given time on top of the week before, in both tables |
| Ranking.RankingTables.RerankLeague | internal/back/back_ranking.go:178-233 | both tables computed anew, going through each Monday from the first match's week to the present one once, in order |
| Ranking.EveryMatchOnce | internal/back/back_ranking.go:212-228 | every started match falls in exactly one of those weeks |
| Tally.PeriodAdds | internal/back/back_ranking.go:79-97 | with games that are worth something to their players, a period gives everybody who was rated or plays what they had and what its games are worth to them |
| Tally.UpdateTallies | internal/back/back_ranking.go:18-41 | an update gives those players their rows of the week before and the worth of the matches that started in the week, and leaves the running rows of others |
| Tally.RerankTallies | internal/back/back_ranking.go:178-233 | a rerank rates exactly who has raced, with the worth of all their matches, and the rows of each week are the worth of the matches up to it |
| Standings.RerankCounts | internal/back/back_ranking.go:178-233 | by a system that counts games, a rerank gives everybody the number of their matches; by one that counts wins and losses, their difference |
| Incremental.RerankIsFinal | internal/back/back_ranking.go:212-228 | after a rerank each week is rated on top of the one before, and the running table is the last week, same players and same ratings |
| Incremental.WeekIsRated | internal/back/back_ranking.go:18-41 | the rows of a week are those of its last update on top of the week before: earlier updates, from unfinished matches, leave no trace |
| Incremental.RunningIsLast | internal/back/back_ranking.go:36-63 | when no week went without an update, the running table is the last updated week |
| Incremental.CoveredIsRerank | internal/back/back_ranking.go:178-233 | when the last update of each week saw games that rate as they do at present, both tables are those of a rerank |
| Incremental.SameGamesCover | internal/back/back_ranking.go:79-100 | an update that saw the games of the week, in any order, is such an update |
| Incremental.RerankIsCovered | internal/back/back_ranking.go:178-233 | and only then, for any rating system that rates the players it is given |
| Incremental.AlongIsRerankIff | internal/back/back_periodic.go:363-374 | both together, for updates made at any times |
| Incremental.SkippedWeekIsLost | internal/back/back_periodic.go:363-374 | a week from the first match on without any update: the tables are not those of a rerank |
| Incremental.OverMidnightIsLost | internal/back/back_periodic.go:363-374 | when none of the updates of the week of a player's first race saw them, however many there were, the tables are not those of a rerank: a race that starts before Monday 00:00 UTC, with no closing from its start to that midnight |
| Incremental.SkippedWeekForgets | internal/back/back_ranking.go:24-27 | when the week before had no update, whatever was played earlier, the last update leaves its week rated from nobody's ratings; the tables are not those of a rerank, nor after any more updates |
| Incremental.UpdateTwice | internal/back/back_ranking.go:150-151 | repeating an update in a week with the same matches changes nothing |
| RankedRuns.UpdatesAreMade | internal/back/back_periodic.go:342-374 | the updates made at the closings of any run are in the order of time and see more and more started matches, which never lose their start |
| RankedRuns.ClosingsAreRerank | internal/back/back_periodic.go:342-374 | for any run: when each week from the first match on has a closing after the last event of its matches, the tables updated at the closings are those of a rerank of what the run leaves |
| Standings.ClosingsCount | internal/back/back_periodic.go:342-374 | over any such run the tables updated at the closings rate exactly who has an entry in a started match of the league, with the number of those matches, or of those won less those lost, by the outcomes stored |
| RankedRuns.FirstRaceIsLost | internal/back/back_periodic.go:342-374 | for any run: when a player's first race starts in a week in which no session of the league closes any more, the tables updated at the closings are not those of a rerank |
| Rolling.NextBetween | internal/back/schedule/rolling.go:22-49 | the loop ends, and gives what the search by periods gives; it may be asked of any scheduler that does not come to divide by a modulus of zero |
| Rolling.NextIsFirst | internal/back/schedule/rolling.go:22-49 | from the epoch on: without offset the first date strictly after the time, with a negative one the first not before it, up to the limit; none exactly when there is none |
| Rolling.NextIsAfter | internal/back/schedule/rolling.go:22-49 | at any time and with any offset, what is found is a date not before the time, and strictly after it without a negative offset |
| Rolling.PositiveOffsetMisses | internal/back/schedule/rolling.go:29-33 | with a positive offset, the date of any chosen period is missed from the start of that period, or from the epoch if it started before |
| Rolling.RightIff | internal/back/schedule/rolling.go:22-49 | the search is right from the epoch on exactly when the offset is not positive, or no date lies after the epoch |
| Rolling.DatesAre | internal/back/schedule/rolling.go:22-49 | the dates are the starts of the periods whose number leaves one of the remainders, of its own sign, moved by the offset |
| Rolling.SticksIff | internal/back/schedule/rolling.go:22-49 | from the epoch on, a time is its own successor exactly when it is a date and the offset is negative |
| Weekly.FlattenHours | internal/back/schedule/day_of_week.go:74-107 | exactly the hours of the week of the time, in order |
| Weekly.DatesAre | internal/back/schedule/day_of_week.go:74-107 | the dates are the hours of each weekday, each week, counted from a Thursday as the first day |
| Weekly.NextBetween | internal/back/schedule/day_of_week.go:47-71 | the recursion over days ends, and gives the least hour of the first week that has one left |
| Weekly.NextIsDate | internal/back/schedule/day_of_week.go:47-71 | whatever the time zones, what is found is a date after the time and not after the limit |
| Weekly.NextIsFirst | internal/back/schedule/day_of_week.go:47-71 | with hours that cover their week, the first date after the time, across weeks; none exactly when there is none |
| Weekly.FirstIff | internal/back/schedule/day_of_week.go:47-71 | hours of any time zone: the scheduler always finds the first date exactly when they cover their week |
| Weekly.UtcFirstIff | internal/back/schedule/day_of_week.go:47-71 | with UTC hours, exactly when none is on Sunday 00:00 |
| Schedules.RegularFindsFirst | internal/back/schedule/schedule.go:14-16 | both schedulers, a rolling one from the epoch on without positive offset and a weekly one whose hours cover their week, keep the promise of their interface, but for a date that is its own successor |
| Schedules.LoopEndsUnlessStuck | internal/web/races.go:305-318 | going from date to date ends exactly when no date on the way is its own successor, from any start |
| Schedules.LoopEndsIff | internal/web/races.go:305-318 | from the epoch on: unless the scheduler is a rolling one with a negative offset and there is a date from the start on and before the end |
| Schedules.DatesBetween | internal/web/races.go:305-318 | wherever the loop ends and nothing is divided by zero: lists dates strictly between the bounds, once each, in order; all of them, for the schedulers above |
| Schedules.ListsOnce | internal/web/races.go:305-318 | there is only one such list |
| Schedules.ShownOncePerLeague | internal/web/races.go:296-325 | when all schedulers miss no date, an entry is shown exactly once for each league of that name that races then |
| Schedules.GetSchedulesBetween | internal/web/races.go:296-325 | each entry is a date of a league of that name strictly between the bounds, shown at most once for each such league and once for each whose scheduler misses none, in the order of time; wherever each of the loops ends |
| Settings.HandleBridgeSettings | internal/generator/oot/settings/settings.go:143-179 | changes the result in place as the bridge rule says |
| Settings.SumWeights | internal/generator/oot/settings/settings.go:40-49 | the sum of all weights, in whatever order the map gives its keys |
| Settings.WeightOfWithout | internal/generator/oot/settings/settings.go:40-49 | each value adds its own weight |
| Settings.WeightSumAnyOrder | internal/generator/oot/settings/settings.go:40-49 | with exact weights the order of the keys does not matter |
| Settings.SortedKeys | internal/generator/oot/settings/settings.go:82-87 | all keys, sorted |
| Settings.SortedOnce | internal/generator/oot/settings/settings.go:82-87 | there is one sorted list of the keys: map order does not show |
| Settings.TrySetting | internal/generator/oot/settings/settings.go:97-131 | the loop over the values of a setting is its fold, which ends in a panic on a picked bridge setting whose name does not split |
| Settings.Shuffle | internal/generator/oot/settings/settings.go:74-139 | the sampler is a pure fold over its draws, and needs no map order; it panics exactly when the picks of the fold have such a name |
| Settings.SameDraws | internal/generator/oot/settings/settings.go:82-95 | two runs with the same draws give the same result |
| Sampler.SettingTakesFirst | internal/generator/oot/settings/settings.go:97-131 | a setting takes its first value that has a weight, whose own draw is at most its share of all weights, and that fits the budget, and none only if there is none; draws are used up by weighted values only |
| Sampler.PassTriesEach | internal/generator/oot/settings/settings.go:96-131 | a pass tries every setting in its order: it has a value by its turn, or takes its first acceptable one then |
| Sampler.ShuffleIsPasses | internal/generator/oot/settings/settings.go:89-136 | a shuffle makes as many passes as it takes to come within the tolerance, and a thousand at most, each over the keys shuffled once more |
| Sampler.ShuffleIsReplay | internal/generator/oot/settings/settings.go:89-136 | the result is the replay of the picks, left to right: value, what it implies, bridge rule; each setting is picked at most once and had no value before; what was spent is the total cost of the picks, whatever was overwritten later |
| Sampler.ShuffleSetsLast | internal/generator/oot/settings/settings.go:96-136 | a shuffle panics exactly if it picks a bridge setting without an underscore in its name; otherwise a setting that is none of the bridge's has a value exactly if some pick is of it or implies it, and it is what the last such pick implies, or else picks |
| Sampler.PassSpends | internal/generator/oot/settings/settings.go:112-119 | a pass spends nothing or stays within its budget |
| Sampler.BudgetIsKept | internal/generator/oot/settings/settings.go:77-136 | the budget is never exceeded; when the sampler stops within the tolerance, the rest lies between the last two tolerances, which differ by one at most and never pass nine |
| Bridge.SecondPartOfName | internal/generator/oot/settings/settings.go:166 | the name of a bridge setting splits into its kind |
| Bridge.BridgePickDecides | internal/generator/oot/settings/settings.go:143-179 | picking a bridge setting sets all five, the others to 0 and "bridge" to the picked kind, exactly unless it is a "bridge" that is neither open nor vanilla |
| Bridge.PicksAreCoherent | internal/generator/oot/settings/settings.go:96-131 | any replay of fresh picks has no bridge setting, or all five with exactly one picked |
| Bridge.BridgeIsCoherent | internal/generator/oot/settings/settings.go:74-179 | so does every shuffle, after any number of its picks |

## Left out

- SQL, row scanning, identifiers and encodings: tables are maps, queries are selections over them, new identifiers are unused numbers.
- Ratings are held for one league at a time; rows of different leagues never meet in the source's queries. The updates of a run are taken at the instant of the closing, with no step in between; one update stands for those of all sessions of the league that close at once, which are the same (`Incremental.UpdateTwice`).
- Glicko-2 arithmetic: a function of the base ratings and the bag of games, of which the proofs use at most that it rates the players it is given. Which bags of games rate alike is thus not told; some different ones do, as when two players win one game each instead of drawing both.
- Float rounding: ratings and weights are real numbers; the independence of map order holds for exact weights.
- Machine integers: times, costs and ranges are unbounded; none of the modelled code is meant to reach 64 bits.
- Time zones and daylight saving: the hours of a weekly schedule are already parsed and given as times after their day's 00:00 UTC, the same each week; hours that do not parse are not there.
- The library sort is modelled by its contract, with a selection sort that breaks ties arbitrarily in its place.
- Sampling probabilities and the quality of randomness: only the range of a draw matters. The sampler's random source is an oracle in place of a generator seeded from a string.
- Notifications, the Discord bot, web handlers, authentication, templates and charts.
- Seed generation: only the write of the finished seed is modelled, as the action `WriteSeed`.
- A matchmaking or start that handles several sessions in one transaction is modelled session by session; its rollback as a whole is not, nor what becomes of a transaction in which pairing panics. What remains when the daemon fails between preparing and matchmaking is the action `DropPending`.
- The countdown's messages and sleeps. That its session is not closed before it ends is a guard of the action `EndCountdown`, as the source does not see to it; what happens otherwise is `Reopening.CountdownKeepsInvIff`.
- Two starts, ends or closings of the daemon do not overlap each other: preparing and closing happen with no row carried between transactions, as in one pass of the daemon.
- Development helpers, fixtures and administration of leagues, which bypass the lifecycle.
- Statistics, leaderboards, stream links and generator identifiers: easy or made of SQL.
- Rolling.RightIff: speaks of times from the epoch on; before it the source's division rounds towards zero and the search starts too late.

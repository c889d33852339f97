# Taekwondo match engine — a Dafny model

This project models `GameEngine` of game-engine.js, the match engine of a
taekwondo scoreboard. Up to three judges vote for points from handheld devices.
The engine turns their votes into a score. It also runs the round timer, counts
penalties (gamjeom), settles round ends and golden point, and keeps the table
of judge seats.

The engine is an immutable `Engine` record. It holds the configuration, the
match state, the consensus vote buffer, the judge table and a `timerActive`
flag. That flag stands for the source's interval handle. Every engine method is
a pure function from one `Engine` to the next. The two hidden inputs of the
source are explicit parameters:

- `now` is the wall-clock time of a vote, in milliseconds. `AddScore` takes it.
- `elapsed` is the time a timer tick subtracts, in milliseconds. `Tick` takes it.

Files and modules:

- `match_types.dfy`, module `MatchTypes`: sides, zones, status and verdict; the
  `{red, blue}` counters; the configuration and match-state records; seat numbers
  as `parseInt` produces them (an integer or NaN).
- `votes.dfy`, module `Votes`: the consensus buffer. It covers pruning to the
  window, the distinct-judge count and the purge of a pair after consensus.
  `AgreeingJudges` is a reference definition of the count, written as a set
  comprehension. `Submit` is proved to agree with it.
- `seats.dfy`, module `Seats`: the judge table. It is a sequence in key
  insertion order, so a snapshot lists the seats in registration order.
- `engine.dfy`, module `GameEngine`: the engine and its transitions. `Command`
  and `Step` describe everything that can happen to the engine. `Inv` is the
  invariant that every reachable engine keeps.
- `scenarios.dfy`, module `Scenarios`: properties of runs of several steps.

The remaining time is an integer number of milliseconds:
`timer = roundDuration * 1000`. `roundDuration` stays in seconds and the
consensus window in milliseconds, as in the configuration of the source.

The source does not validate configuration values, so they are plain
integers. Seat numbers get no check other than the range test. A NaN seat
number passes that test, because NaN compares false both ways. It also never
clashes with another seat under `===`. The model reproduces both effects
(`Seats.NaNAlwaysAccepted`).

## Model

| member | source | states |
|---|---|---|
| MatchTypes.ParseColor | game-engine.js:153 | exactly "red" and "blue" are accepted sides, and the parsed side names the input string |
| MatchTypes.ParseZone | game-engine.js:154 | exactly "body", "head" and "tech" are accepted zones, and the parsed zone names the input string |
| MatchTypes.Opponent | game-engine.js:201 | the opponent of a side is the other side |
| Votes.Recent | game-engine.js:166-167 | pruning keeps a vote if and only if `now - time <= consensusWindow` (inclusive bound), never adding votes |
| Votes.Matching | game-engine.js:170 | the selection holds exactly the buffered votes for the given side and zone |
| Votes.Without | game-engine.js:175-176 | the purge holds exactly the buffered votes not for the given side and zone |
| Votes.Judges | game-engine.js:171 | the set of judge ids contains exactly the ids of some vote in the list, and is no larger than the list |
| Votes.Submit | game-engine.js:163-180 | after appending and pruning, a vote completes consensus iff the distinct in-window judges for its pair reach the minimum; every in-window vote of another pair survives; after consensus no buffered vote is for the pair; below the threshold every in-window vote survives; other pairs' subsequences are unchanged |
| Votes.CountIsAgreeingJudges | game-engine.js:167-173 | the recursive prune-select-count equals the reference set of distinct in-window judges for the pair |
| Votes.WithoutKeepsOthers | game-engine.js:176 | purging one pair leaves the votes of every other pair exactly as they were, in order |
| Votes.MatchingWithoutPartition | game-engine.js:170-176 | selection and purge split the buffer: together they hold every vote exactly as often as the buffer |
| Votes.SingleJudgeCountsOnce | game-engine.js:171-173 | if one judge cast every vote for a pair, the distinct count for that pair is at most one |
| Votes.StaleVotesDoNotCount | game-engine.js:167-171 | every judge counted after pruning has a vote for the pair inside the window |
| Seats.Register | game-engine.js:216-228 | a registration is accepted iff the number is in range and no connected entry under another connection holds it; a rejection changes nothing; an accepted one leaves a connected entry for the connection, in place if it existed (other entries and key order kept) or appended; seat exclusivity is preserved |
| Seats.Disconnect | game-engine.js:230-234 | only the connected flag of the connection's existing entry is cleared; keys, numbers and other entries are unchanged; seat exclusivity is preserved |
| Seats.Remove | game-engine.js:236-238 | the connection's entry, if any, is deleted and the others keep their order (the table is the entries before it followed by those after it); an absent connection changes nothing; every other connection's entry survives; afterwards the connection is not in the table and seat exclusivity holds |
| Seats.RemoveAt | game-engine.js:236-238 | deleting one entry keeps every other connection's entry, adds none, keeps seat exclusivity and, with unique ids, leaves the connection absent |
| Seats.Listing | game-engine.js:64 | the snapshot lists one (seat number, connected) pair per table entry, in table order, with no connection ids |
| Seats.SeatHandover | game-engine.js:216-233 | A takes seat 2; B is refused seat 2 while A is connected; after A disconnects, B gets seat 2 |
| Seats.NaNAlwaysAccepted | game-engine.js:218-223 | a NaN seat number is always accepted, even when other connected entries hold NaN |
| GameEngine.Reset | game-engine.js:7-44 | reset gives the default configuration, an idle round 1 with a 120 s timer, zero counters, no winner, no votes, no judges, no timer, and satisfies the invariant |
| GameEngine.NewMatch | game-engine.js:241-255 | a new match keeps configuration and judges, empties the buffer, stops the timer and starts idle in round 1 with a full timer, zero counters and no winner |
| GameEngine.Merge | game-engine.js:48-52 | given fields overwrite, missing fields keep their value, and zone points merge zone by zone |
| GameEngine.UpdateConfig | game-engine.js:47-57 | the configuration becomes the merge; only the remaining time may change in the state, and it is reset to the new duration exactly when the status is idle or roundEnd |
| GameEngine.UpdateConfigIdempotent | game-engine.js:47-57 | applying the same patch twice equals applying it once |
| GameEngine.GetState | game-engine.js:60-66 | the snapshot copies configuration and state and lists each seat's number and flag in table order |
| GameEngine.StopTimer | game-engine.js:101-106 | stopping leaves no active timer and changes nothing else |
| GameEngine.StartTimer | game-engine.js:70-76 | starting is a no-op at matchEnd or with an active timer; from any other status it activates the timer and sets running, changing nothing else |
| GameEngine.PauseTimer | game-engine.js:94-99 | pausing changes nothing unless running; from running it stops the timer and sets paused, keeping the remaining time |
| GameEngine.StartTimerIdempotent | game-engine.js:71-72 | starting twice is the same as starting once |
| GameEngine.PauseStartRoundTrip | game-engine.js:70-99 | on reachable engines, start then pause restores a paused engine, and pause then start restores a running one |
| GameEngine.DetermineWinner | game-engine.js:137-143 | the verdict is never unset; red wins iff its score-plus-penalty-points total is strictly higher, blue likewise, and a draw iff the totals are equal |
| GameEngine.DetermineWinnerSymmetric | game-engine.js:137-143 | exchanging the two sides exchanges the verdict |
| GameEngine.HandleRoundEnd | game-engine.js:108-135 | golden-point expiry sets only status matchEnd and the computed winner; a tied last round with golden point enabled sets only status roundEnd, golden point and a full timer; any other last round sets only matchEnd and the computed winner, never a draw when golden point is enabled; an earlier round sets only roundEnd, the next round number and a full timer; every other field is kept |
| GameEngine.Tick | game-engine.js:77-89 | without an active timer nothing happens; otherwise the remaining time drops by `elapsed`; the round ends, with the timer stopped and the status roundEnd or matchEnd, exactly when the time reaches zero; the time is not negative afterwards for a non-negative duration, and a non-negative tick never raises the time of a still-running round |
| GameEngine.NextRound | server.js:116-122 | only from roundEnd the status becomes idle, with round, timer and everything else kept |
| GameEngine.NextRoundThenStart | server.js:116-122 | confirming the next round and then starting gives the same engine as starting directly |
| GameEngine.ApplyScore | game-engine.js:183-193 | the side's score grows by the zone's points and nothing else is counted; in golden point a positive award ends the match with that side as winner and the timer stopped; otherwise status, winner and timer are kept |
| GameEngine.AddScore | game-engine.js:151-160 | a vote while not running, or with a side other than red/blue or a zone other than body/head/tech, changes nothing and returns null; a vote that passes the guards is counted; a null result never changes the match state |
| GameEngine.CastVote | game-engine.js:156-180 | without consensus a counted vote scores at once and returns the snapshot; with consensus it scores iff the distinct in-window judges for its pair reach the minimum; the new buffer holds only in-window votes from the old buffer plus the new vote, every in-window vote of another pair in its order, no vote of the pair after a score and every in-window vote below the threshold; a score is exactly the zone's points, and no score leaves everything but the buffer unchanged |
| GameEngine.AddPenalty | game-engine.js:197-212 | an invalid side changes nothing; a valid one adds one penalty to the side and one penalty point to the opponent, whatever the status, and nothing else is counted; at ten penalties the match ends with the opponent as winner and the timer stopped; below ten, status, winner and timer are kept |
| GameEngine.RegisterJudge | game-engine.js:216-228 | only the judge table changes, exactly as the table-level registration changes it; the registration is accepted iff the number is in range and not held by another connected entry, and then the connection holds a connected entry with that number |
| GameEngine.DisconnectJudge | game-engine.js:230-234 | only the judge table changes, exactly as the table-level disconnect changes it: same connection ids in the same order, and the connection's entry ends up disconnected |
| GameEngine.RemoveJudge | game-engine.js:236-238 | only the judge table changes, exactly as the table-level removal changes it: other entries are kept in order and the connection's entry is gone |
| GameEngine.StepPreservesInv | game-engine.js:24-33 | every command and tick keeps the invariant: the timer is active iff running, a winner is set iff matchEnd, the round is at least 1, each side's penalty points equal the opponent's penalties, and seats stay exclusive |
| GameEngine.RunPreservesInv | game-engine.js:24-33 | every sequence of commands keeps the invariant, so it holds for every engine reachable from reset |
| GameEngine.StepKeepsScoresNonNeg | game-engine.js:183-193 | while every zone's point value is non-negative and a configuration change sets no negative one, every command and tick keeps both scores non-negative and the point values non-negative |
| GameEngine.RunKeepsScoresNonNeg | game-engine.js:183-193 | over any run whose configuration changes set no negative point value, starting from non-negative scores and point values, the scores never go negative |
| GameEngine.MatchEndIsTerminal | game-engine.js:71 | from matchEnd, every command but new match keeps matchEnd, and only a penalty changes the match state |
| Scenarios.ValidVoteIsCounted | game-engine.js:152-154 | a valid side and zone while running is counted as `CastVote`; in any other status the vote is ignored with a null result |
| Scenarios.SameJudgeNeverScoresAlone | game-engine.js:163-178 | with two judges required, any number of counted votes by one judge for a pair never changes the match state, and the buffer keeps only that judge's votes for the pair |
| Scenarios.TwoJudgesAgree | game-engine.js:163-178 | two distinct judges voting for a pair within the window score its points once; the first vote scores nothing and the pair's votes are purged afterwards |
| Scenarios.FirstVoteWaits | game-engine.js:163-180 | the first vote for a pair with nothing pending is buffered and scores nothing |
| Scenarios.SecondVoteScores | game-engine.js:170-177 | a second judge's in-window vote for a buffered pair scores the zone's points once and purges the pair |
| Scenarios.AwardedOnlyOnce | game-engine.js:173-177 | right after a pair scores, the next vote for it does not score again when two judges are required |
| Scenarios.StaleVotesNeverReachConsensus | game-engine.js:166-173 | votes older than the window never complete a consensus, whoever cast them |
| Scenarios.ImmediateScoring | game-engine.js:156-160 | without consensus every valid vote while running scores the zone's points at once |
| Scenarios.GoldenPointSuddenDeath | game-engine.js:187-192 | in a running golden-point round a positive award, direct or by consensus, ends the match for the scoring side, stops the timer and keeps the invariant; without consensus every such vote scores; a vote short of consensus changes nothing |
| Scenarios.GoldenPointExpiryDraw | game-engine.js:112-115 | a golden-point round that expires with level totals ends the match in a draw |
| Scenarios.GoldenPointPenaltyDecidesExpiry | game-engine.js:112-115 | a penalty during golden point breaks the tie, so the expiry makes the opponent the winner |
| Scenarios.LastRoundTie | game-engine.js:116-127 | a tied last round goes to golden point with a full timer when enabled, and otherwise ends as a draw |
| Scenarios.TenthPenaltyDisqualifies | game-engine.js:204-209 | the tenth penalty against a side ends the match for the opponent whatever the scores |
| Scenarios.PenaltyAfterMatchEndRewritesWinner | game-engine.js:197-209 | penalties have no status guard: after the match has ended, ten penalties against the winner reverse the winner |
| Scenarios.NewMatchForgetsHistory | game-engine.js:241-255 | a new match depends only on configuration and judges, and a second new match changes nothing |
| Scenarios.ResetIsNewMatch | game-engine.js:7-44 | reset is a new match under the default configuration with no judges |
| Scenarios.TwoRoundExample | game-engine.js:108-135 | with two 1 s rounds and golden point on, the first expiry moves to round 2 with a full timer, and a 0-0 second expiry enters golden point |

## Left out

- Transport (server.js): HTTP static serving, the Socket.IO wiring and broadcasts, QR codes and local-IP discovery are I/O. Only the `admin:nextRound` transition is modelled, as `NextRound`.
- Transport guard: the transport passes a score on only from a registered, connected judge. `AddScore` accepts any judge id, as the engine method does.
- Clients (public/*/script.js): rendering, gestures, sound and timer formatting are pure presentation of a snapshot.
- `setInterval`, `clearInterval` and `Date.now()`: these become the `timerActive` flag and the `now` and `elapsed` parameters. The `onTick` and `onRoundEnd` callbacks only report snapshots, so they are not modelled.
- Float seconds: the remaining time is integer milliseconds, so the `elapsed / 1000` division is not modelled.
- `startTimer` return value: it returns `undefined` on its early exits and a snapshot otherwise. The transport ignores it, so it is not modelled.
- JavaScript coercion: `parseInt` is applied before the model (a seat number arrives as `Num(n)` or `NaN`). `Object.assign` of keys outside the configuration record is not modelled, nor is the deletion of `points` from the caller's patch. Zone points are integers, so `points[zone] || 0` is the zone's value. Every configuration field is an integer or boolean here: the admin client sends `parseInt` of each field, so an empty field arrives as NaN, and NaN values are not modelled. With a NaN `rounds` the last round is never reached (game-engine.js:109), with a NaN `roundDuration` the round never ends (game-engine.js:81-83), and a NaN point value scores nothing.
- Key order of the judge table: a JavaScript object lists integer-like keys first, in ascending order. The model keeps plain insertion order, which holds for Socket.IO's non-numeric connection ids.
- Deep copying in `getState`: values are immutable here, so a snapshot is just the value.
- GameEngine.Tick: a non-negative remaining time after a tick is stated only for a non-negative `roundDuration`. Round-end resolution copies the configured duration unvalidated, so a negative duration yields a negative timer.
- `reset` as a command: the source calls `reset()` only from the constructor, so `Reset()` is the starting engine and not a `Command`. Called on a running engine it would drop the interval handle without clearing it; that path does not exist in the program.
- Score non-negativity: scores stay non-negative only while every point value is, because `updateConfig` does not validate values and a negative point value makes a score negative. `Inv` therefore does not carry it. `GameEngine.RunKeepsScoresNonNeg` proves it under that condition.
- Round bound: the engine does not keep `currentRound <= rounds`, because `updateConfig` can lower `rounds` mid-match. `Inv` states only `currentRound >= 1`.
- Golden-point expiry: the comment at game-engine.js:113 calls an expired golden-point round a draw, but the code calls `_determineWinner`, and the model follows the code. A penalty, or a negative point value, scored during golden point can therefore decide the expiry (`Scenarios.GoldenPointPenaltyDecidesExpiry`).

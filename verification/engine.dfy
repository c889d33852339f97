/**
  The match engine: `GameEngine` of game-engine.js as an immutable record
  and pure transitions. The two hidden inputs of the source become
  parameters: the wall-clock `now` of a score vote, and the `elapsed` time a
  timer tick subtracts. The interval handle is the flag `timerActive`.
 */
module GameEngine {
  import opened MatchTypes
  import opened Votes
  import opened Seats

  datatype Engine = Engine(
    config: Config,
    state: MatchState,
    votes: seq<Vote>,
    seats: seq<Seat>,
    timerActive: bool)

  /** What `getState` hands out: copies of config and state, and the judge list. */
  datatype Snapshot = Snapshot(config: Config, state: MatchState, judges: seq<JudgeView>)

  /** The engine after a score vote, and what `addScore` returned (None for null). */
  datatype Scored = Scored(engine: Engine, result: Option<Snapshot>)

  /** A partial configuration: a field left `None` keeps its value; zone points merge key by key. */
  datatype PointsPatch = PointsPatch(body: Option<int>, head: Option<int>, tech: Option<int>)

  datatype ConfigPatch = ConfigPatch(
    rounds: Option<int>,
    roundDuration: Option<int>,
    goldenPoint: Option<bool>,
    consensusEnabled: Option<bool>,
    consensusWindow: Option<int>,
    consensusMinJudges: Option<int>,
    points: Option<PointsPatch>)

  /** The disqualification threshold on one side's penalty count. */
  const Disqualification := 10

  /**
    What every reachable engine satisfies: the timer runs exactly while the
    status is `Running`; a winner is set exactly when the match has ended;
    rounds count from 1; each side's penalty points equal the opponent's
    penalty count; and the judge table keeps its seat exclusivity.
   */
  ghost predicate Inv(e: Engine) {
    && (e.timerActive <==> e.state.status == Running)
    && (e.state.winner != Undecided <==> e.state.status == MatchEnd)
    && e.state.currentRound >= 1
    && e.state.penalties.red >= 0 && e.state.penalties.blue >= 0
    && e.state.penaltyPoints.blue == e.state.penalties.red
    && e.state.penaltyPoints.red == e.state.penalties.blue
    && SeatsInv(e.seats)
  }

  // ─── Lifecycle ───────────────────────────────────────────────

  /** `reset` (also the constructor): default configuration, a fresh match, no votes, no judges. */
  function Reset(): (e: Engine)
    ensures e.config == DefaultConfig && e.votes == [] && e.seats == [] && !e.timerActive
    ensures e.state.status == Idle && e.state.currentRound == 1 && !e.state.isGoldenPoint
    ensures e.state.timer == 120 * MillisPerSecond && e.state.winner == Undecided
    ensures forall c :: e.state.scores.Get(c) == 0 && e.state.penalties.Get(c) == 0 && e.state.penaltyPoints.Get(c) == 0
    ensures Inv(e)
  {
    Engine(DefaultConfig, InitialState(DefaultConfig), [], [], false)
  }

  /** `newMatch`: stops the timer and starts a fresh match under the current configuration and judges. */
  function NewMatch(e: Engine): (r: Engine)
    ensures r.config == e.config && r.seats == e.seats && r.votes == [] && !r.timerActive
    ensures r.state.status == Idle && r.state.currentRound == 1 && !r.state.isGoldenPoint
    ensures r.state.timer == e.config.roundDuration * MillisPerSecond && r.state.winner == Undecided
    ensures forall c :: r.state.scores.Get(c) == 0 && r.state.penalties.Get(c) == 0 && r.state.penaltyPoints.Get(c) == 0
    ensures SeatsInv(e.seats) ==> Inv(r)
  {
    StopTimer(e).(state := InitialState(e.config), votes := [])
  }

  // ─── Configuration ───────────────────────────────────────────

  function Pick<T>(o: Option<T>, keep: T): T {
    if o.Some? then o.value else keep
  }

  /** The merge of `updateConfig`: given fields overwrite, missing ones are kept. */
  function Merge(c: Config, p: ConfigPatch): (r: Config)
    ensures p.rounds.Some? ==> r.rounds == p.rounds.value
    ensures p.rounds.None? ==> r.rounds == c.rounds
    ensures p.roundDuration.Some? ==> r.roundDuration == p.roundDuration.value
    ensures p.roundDuration.None? ==> r.roundDuration == c.roundDuration
    ensures r.goldenPoint == Pick(p.goldenPoint, c.goldenPoint)
    ensures r.consensusEnabled == Pick(p.consensusEnabled, c.consensusEnabled)
    ensures r.consensusWindow == Pick(p.consensusWindow, c.consensusWindow)
    ensures r.consensusMinJudges == Pick(p.consensusMinJudges, c.consensusMinJudges)
    ensures p.points.None? ==> r.points == c.points
    ensures forall z :: p.points.Some? ==> r.points.Of(z) == Pick(PatchFor(p.points.value, z), c.points.Of(z))
  {
    var pts :=
      if p.points.Some? then
        Points(Pick(p.points.value.body, c.points.body),
               Pick(p.points.value.head, c.points.head),
               Pick(p.points.value.tech, c.points.tech))
      else c.points;
    Config(
      Pick(p.rounds, c.rounds),
      Pick(p.roundDuration, c.roundDuration),
      Pick(p.goldenPoint, c.goldenPoint),
      Pick(p.consensusEnabled, c.consensusEnabled),
      Pick(p.consensusWindow, c.consensusWindow),
      Pick(p.consensusMinJudges, c.consensusMinJudges),
      pts)
  }

  function PatchFor(q: PointsPatch, z: Zone): Option<int> {
    match z
    case Body => q.body
    case Head => q.head
    case Tech => q.tech
  }

  /**
    `updateConfig`: merges the patch; while the round has not started
    (`Idle` or `RoundEnd`) the remaining time is reset to the possibly new
    round duration. Nothing else changes.
   */
  function UpdateConfig(e: Engine, p: ConfigPatch): (r: Engine)
    ensures r.config == Merge(e.config, p)
    ensures r.votes == e.votes && r.seats == e.seats && r.timerActive == e.timerActive
    ensures r.state == e.state.(timer := r.state.timer)
    ensures e.state.status in {Idle, RoundEnd} ==> r.state.timer == r.config.roundDuration * MillisPerSecond
    ensures e.state.status !in {Idle, RoundEnd} ==> r.state.timer == e.state.timer
  {
    var c := Merge(e.config, p);
    if e.state.status == Idle || e.state.status == RoundEnd then
      e.(config := c, state := e.state.(timer := RoundTimer(c)))
    else
      e.(config := c)
  }

  /** Applying the same patch twice is the same as applying it once. */
  lemma UpdateConfigIdempotent(e: Engine, p: ConfigPatch)
    ensures UpdateConfig(UpdateConfig(e, p), p) == UpdateConfig(e, p)
  {
  }

  // ─── Snapshot ────────────────────────────────────────────────

  /** `getState`: the configuration, the state, and each judge's seat and flag in table order. */
  function GetState(e: Engine): (s: Snapshot)
    ensures s.config == e.config && s.state == e.state
    ensures |s.judges| == |e.seats|
    ensures forall k :: 0 <= k < |e.seats| ==> s.judges[k] == JudgeView(e.seats[k].number, e.seats[k].connected)
  {
    Snapshot(e.config, e.state, Listing(e.seats))
  }

  // ─── Timer ───────────────────────────────────────────────────

  /** `_stopTimerInternal`: drops the interval handle if there is one; idempotent. */
  function StopTimer(e: Engine): (r: Engine)
    ensures !r.timerActive
    ensures r.config == e.config && r.state == e.state && r.votes == e.votes && r.seats == e.seats
  {
    e.(timerActive := false)
  }

  /**
    `startTimer`: a no-op once the match has ended or while the timer is
    already active; otherwise, from any other status, the timer starts and
    the status becomes `Running`, with nothing else changed.
   */
  function StartTimer(e: Engine): (r: Engine)
    ensures e.state.status == MatchEnd || e.timerActive ==> r == e
    ensures e.state.status != MatchEnd && !e.timerActive ==>
              r.timerActive && r.state.status == Running
              && r.state == e.state.(status := Running)
              && r.config == e.config && r.votes == e.votes && r.seats == e.seats
  {
    if e.state.status == MatchEnd || e.timerActive then e
    else e.(state := e.state.(status := Running), timerActive := true)
  }

  /** `pauseTimer`: only from `Running`, to `Paused`, keeping the remaining time. */
  function PauseTimer(e: Engine): (r: Engine)
    ensures e.state.status != Running ==> r == e
    ensures e.state.status == Running ==>
              !r.timerActive && r.state == e.state.(status := Paused)
              && r.config == e.config && r.votes == e.votes && r.seats == e.seats
  {
    if e.state.status != Running then e
    else StopTimer(e).(state := e.state.(status := Paused))
  }

  /** Starting is idempotent. */
  lemma StartTimerIdempotent(e: Engine)
    ensures StartTimer(StartTimer(e)) == StartTimer(e)
  {
  }

  /** Pause and start undo each other on reachable engines. */
  lemma PauseStartRoundTrip(e: Engine)
    requires Inv(e)
    ensures e.state.status == Paused ==> PauseTimer(StartTimer(e)) == e
    ensures e.state.status == Running ==> StartTimer(PauseTimer(e)) == e
  {
  }

  /** `_determineWinner`: the strictly higher score-plus-penalty-points total wins; equal totals draw. */
  function DetermineWinner(s: MatchState): (v: Verdict)
    ensures v != Undecided
    ensures v == Wins(Red) <==> s.Total(Red) > s.Total(Blue)
    ensures v == Wins(Blue) <==> s.Total(Blue) > s.Total(Red)
    ensures v == Draw <==> s.Total(Red) == s.Total(Blue)
  {
    var redTotal := s.scores.red + s.penaltyPoints.red;
    var blueTotal := s.scores.blue + s.penaltyPoints.blue;
    if redTotal > blueTotal then Wins(Red)
    else if blueTotal > redTotal then Wins(Blue)
    else Draw
  }

  /** The state with the two sides exchanged. */
  function Swap(s: MatchState): MatchState {
    s.(scores := Tally(s.scores.blue, s.scores.red),
       penalties := Tally(s.penalties.blue, s.penalties.red),
       penaltyPoints := Tally(s.penaltyPoints.blue, s.penaltyPoints.red))
  }

  /** Winner determination favours neither side: exchanging the sides exchanges the verdict. */
  lemma DetermineWinnerSymmetric(s: MatchState)
    ensures DetermineWinner(Swap(s)) == match DetermineWinner(s)
                                        case Wins(c) => Wins(Opponent(c))
                                        case other => other
  {
  }

  /**
    `_handleRoundEnd`: an expired golden-point round ends the match with the
    computed winner; an expired last round with equal totals enters golden
    point when it is enabled, and otherwise ends the match; an expired
    earlier round advances the round. Scores and penalties never change.
   */
  function HandleRoundEnd(e: Engine): (r: Engine)
    ensures r.config == e.config && r.votes == e.votes && r.seats == e.seats && r.timerActive == e.timerActive
    ensures r.state.scores == e.state.scores && r.state.penalties == e.state.penalties
    ensures r.state.penaltyPoints == e.state.penaltyPoints
    ensures e.state.isGoldenPoint ==>
              r.state == e.state.(status := MatchEnd, winner := DetermineWinner(e.state))
              && r.state.winner != Undecided
    ensures !e.state.isGoldenPoint && e.state.currentRound >= e.config.rounds
            && e.state.Total(Red) == e.state.Total(Blue) && e.config.goldenPoint ==>
              r.state == e.state.(status := RoundEnd, isGoldenPoint := true,
                                  timer := e.config.roundDuration * MillisPerSecond)
    ensures !e.state.isGoldenPoint && e.state.currentRound >= e.config.rounds
            && (e.state.Total(Red) != e.state.Total(Blue) || !e.config.goldenPoint) ==>
              r.state == e.state.(status := MatchEnd, winner := DetermineWinner(e.state))
              && (e.config.goldenPoint ==> r.state.winner != Draw)
    ensures !e.state.isGoldenPoint && e.state.currentRound < e.config.rounds ==>
              r.state == e.state.(status := RoundEnd, currentRound := e.state.currentRound + 1,
                                  timer := e.config.roundDuration * MillisPerSecond)
  {
    var s := e.state;
    var isLastRound := s.currentRound >= e.config.rounds;
    if s.isGoldenPoint then
      e.(state := s.(status := MatchEnd, winner := DetermineWinner(s)))
    else if isLastRound then
      if s.Total(Red) == s.Total(Blue) && e.config.goldenPoint then
        e.(state := s.(status := RoundEnd, isGoldenPoint := true, timer := RoundTimer(e.config)))
      else
        e.(state := s.(status := MatchEnd, winner := DetermineWinner(s)))
    else
      e.(state := s.(status := RoundEnd, currentRound := s.currentRound + 1, timer := RoundTimer(e.config)))
  }

  /**
    One tick of the interval: `elapsed` ms come off the remaining time,
    clamped at zero; on reaching zero the timer stops and the round ends.
    Without an active timer there is no tick.
   */
  function Tick(e: Engine, elapsed: int): (r: Engine)
    ensures !e.timerActive ==> r == e
    ensures e.timerActive && e.state.timer - elapsed > 0 ==>
              r == e.(state := e.state.(timer := e.state.timer - elapsed))
    ensures e.timerActive && e.state.timer - elapsed <= 0 ==>
              !r.timerActive && r.state.status in {RoundEnd, MatchEnd}
              && r == HandleRoundEnd(e.(state := e.state.(timer := 0), timerActive := false))
    ensures e.timerActive && e.config.roundDuration >= 0 ==> r.state.timer >= 0
    ensures e.timerActive && elapsed >= 0 && r.timerActive ==> r.state.timer <= e.state.timer
  {
    if !e.timerActive then e
    else
      var t := if e.state.timer - elapsed > 0 then e.state.timer - elapsed else 0;
      if t <= 0 then
        HandleRoundEnd(StopTimer(e.(state := e.state.(timer := 0))))
      else
        e.(state := e.state.(timer := t))
  }

  /** The transport's `admin:nextRound`: from `RoundEnd` back to `Idle`, keeping round and timer. */
  function NextRound(e: Engine): (r: Engine)
    ensures e.state.status != RoundEnd ==> r == e
    ensures e.state.status == RoundEnd ==>
              r.state == e.state.(status := Idle)
              && r.config == e.config && r.votes == e.votes && r.seats == e.seats && r.timerActive == e.timerActive
  {
    if e.state.status == RoundEnd then e.(state := e.state.(status := Idle)) else e
  }

  /** Confirming the next round first changes nothing about how the round then starts. */
  lemma NextRoundThenStart(e: Engine)
    requires Inv(e) && e.state.status == RoundEnd
    ensures StartTimer(NextRound(e)) == StartTimer(e)
  {
  }

  // ─── Scoring ─────────────────────────────────────────────────

  /**
    `_applyScore`: adds the zone's points to the side's score; in a golden
    point round a positive award stops the timer and ends the match with
    that side as winner.
   */
  function ApplyScore(e: Engine, c: Color, z: Zone): (r: Engine)
    ensures r.state.scores.Get(c) == e.state.scores.Get(c) + e.config.points.Of(z)
    ensures r.state.scores.Get(Opponent(c)) == e.state.scores.Get(Opponent(c))
    ensures r.state.penalties == e.state.penalties && r.state.penaltyPoints == e.state.penaltyPoints
    ensures r.state.currentRound == e.state.currentRound && r.state.timer == e.state.timer
    ensures r.state.isGoldenPoint == e.state.isGoldenPoint
    ensures r.config == e.config && r.votes == e.votes && r.seats == e.seats
    ensures e.state.isGoldenPoint && e.config.points.Of(z) > 0 ==>
              r.state.status == MatchEnd && r.state.winner == Wins(c) && !r.timerActive
    ensures !(e.state.isGoldenPoint && e.config.points.Of(z) > 0) ==>
              r.state.status == e.state.status && r.state.winner == e.state.winner
              && r.timerActive == e.timerActive
  {
    var pts := e.config.points.Of(z);
    var s := e.state.(scores := e.state.scores.Add(c, pts));
    if s.isGoldenPoint && pts > 0 then
      StopTimer(e).(state := s.(status := MatchEnd, winner := Wins(c)))
    else
      e.(state := s)
  }

  /** Whether `addScore` gets past its three guards. */
  predicate ScoreAccepted(e: Engine, color: string, zone: string) {
    e.state.status == Running && ParseColor(color).Some? && ParseZone(zone).Some?
  }

  /**
    `addScore`: ignored, with a null result, unless the match is running
    and side and zone are valid; a vote that passes these guards is counted
    by `CastVote`.
   */
  function AddScore(e: Engine, judge: SeatNo, color: string, zone: string, now: int): (r: Scored)
    ensures !ScoreAccepted(e, color, zone) ==> r == Scored(e, None)
    ensures ScoreAccepted(e, color, zone) ==>
              r == CastVote(e, judge, ParseColor(color).value, ParseZone(zone).value, now)
    ensures r.result.None? ==> r.engine.state == e.state && r.engine.timerActive == e.timerActive
  {
    if !ScoreAccepted(e, color, zone) then Scored(e, None)
    else CastVote(e, judge, ParseColor(color).value, ParseZone(zone).value, now)
  }

  /**
    The body of `addScore` after its guards. Without consensus the vote
    scores at once. With consensus it is buffered at time `now`, the buffer
    is pruned to the window, and the score is applied once when enough
    distinct judges agree on this side+zone, after which the pair's votes
    are purged.
   */
  function CastVote(e: Engine, judge: SeatNo, c: Color, z: Zone, now: int): (r: Scored)
    ensures r.result.Some? ==> r.result.value == GetState(r.engine)
    ensures r.result.Some? ==> r.engine == ApplyScore(e, c, z).(votes := r.engine.votes)
    ensures r.result.None? ==> r.engine == e.(votes := r.engine.votes)
    ensures !e.config.consensusEnabled ==> r.result.Some? && r.engine.votes == e.votes
    ensures e.config.consensusEnabled ==>
              (r.result.Some? <==>
                 |AgreeingJudges(e.votes + [Vote(judge, c, z, now)], now, e.config.consensusWindow, c, z)|
                   >= e.config.consensusMinJudges)
    ensures e.config.consensusEnabled ==>
              forall w :: w in r.engine.votes ==> InWindow(w, now, e.config.consensusWindow)
    ensures e.config.consensusEnabled ==>
              forall w :: (w in e.votes + [Vote(judge, c, z, now)] && InWindow(w, now, e.config.consensusWindow)
                           && !IsFor(w, c, z)) ==> w in r.engine.votes
    ensures e.config.consensusEnabled && r.result.Some? ==>
              forall w :: w in r.engine.votes ==> !IsFor(w, c, z)
    ensures e.config.consensusEnabled && r.result.None? ==>
              forall w :: (w in e.votes + [Vote(judge, c, z, now)] && InWindow(w, now, e.config.consensusWindow))
                          ==> w in r.engine.votes
    ensures e.config.consensusEnabled ==>
              forall w :: w in r.engine.votes ==> w in e.votes + [Vote(judge, c, z, now)]
    ensures e.config.consensusEnabled ==>
              forall c', z' :: (c', z') != (c, z) ==>
                Matching(r.engine.votes, c', z')
                  == Matching(Recent(e.votes + [Vote(judge, c, z, now)], now, e.config.consensusWindow), c', z')
    ensures e.config.consensusEnabled ==>
              r.engine.votes == Submit(e.votes, Vote(judge, c, z, now),
                                       e.config.consensusWindow, e.config.consensusMinJudges).buffer
  {
    if !e.config.consensusEnabled then
      var e' := ApplyScore(e, c, z);
      Scored(e', Some(GetState(e')))
    else
      var d := Submit(e.votes, Vote(judge, c, z, now), e.config.consensusWindow, e.config.consensusMinJudges);
      if d.awarded then
        var e' := ApplyScore(e, c, z).(votes := d.buffer);
        Scored(e', Some(GetState(e')))
      else
        Scored(e.(votes := d.buffer), None)
  }

  // ─── Penalties ───────────────────────────────────────────────

  /**
    `addPenalty`: for a valid side, one more penalty for it and one more
    penalty point for the opponent, whatever the status; reaching ten
    penalties stops the timer and makes the opponent the winner. An invalid
    side changes nothing.
   */
  function AddPenalty(e: Engine, color: string): (r: Engine)
    ensures ParseColor(color).None? ==> r == e
    ensures r.config == e.config && r.votes == e.votes && r.seats == e.seats
    ensures r.state.scores == e.state.scores && r.state.currentRound == e.state.currentRound
    ensures r.state.timer == e.state.timer && r.state.isGoldenPoint == e.state.isGoldenPoint
    ensures ParseColor(color).Some? ==>
              var c := ParseColor(color).value;
              && r.state.penalties.Get(c) == e.state.penalties.Get(c) + 1
              && r.state.penalties.Get(Opponent(c)) == e.state.penalties.Get(Opponent(c))
              && r.state.penaltyPoints.Get(Opponent(c)) == e.state.penaltyPoints.Get(Opponent(c)) + 1
              && r.state.penaltyPoints.Get(c) == e.state.penaltyPoints.Get(c)
              && (r.state.penalties.Get(c) >= Disqualification ==>
                    r.state.status == MatchEnd && r.state.winner == Wins(Opponent(c)) && !r.timerActive)
              && (r.state.penalties.Get(c) < Disqualification ==>
                    r.state.status == e.state.status && r.state.winner == e.state.winner
                    && r.timerActive == e.timerActive)
  {
    match ParseColor(color)
    case None => e
    case Some(c) =>
      var opponent := Opponent(c);
      var s := e.state.(penalties := e.state.penalties.Add(c, 1),
                        penaltyPoints := e.state.penaltyPoints.Add(opponent, 1));
      if s.penalties.Get(c) >= Disqualification then
        StopTimer(e).(state := s.(status := MatchEnd, winner := Wins(opponent)))
      else
        e.(state := s)
  }

  // ─── Judges ──────────────────────────────────────────────────

  /** `registerJudge` on the engine: only the judge table can change. */
  function RegisterJudge(e: Engine, socket: string, n: SeatNo): (r: (bool, Engine))
    ensures r.0 <==> !OutOfRange(n) && !Taken(e.seats, socket, n)
    ensures r.1 == e.(seats := r.1.seats)
    ensures !r.0 ==> r.1 == e
    ensures r.0 ==> IndexOf(r.1.seats, socket) >= 0 && r.1.seats[IndexOf(r.1.seats, socket)] == Seat(socket, n, true)
    ensures r.1.seats == Register(e.seats, socket, n).seats
  {
    var reg := Register(e.seats, socket, n);
    (reg.accepted, e.(seats := reg.seats))
  }

  /** `disconnectJudge` on the engine: only the judge table can change. */
  function DisconnectJudge(e: Engine, socket: string): (r: Engine)
    ensures r == e.(seats := r.seats)
    ensures Sockets(r.seats) == Sockets(e.seats)
    ensures IndexOf(e.seats, socket) >= 0 ==> !r.seats[IndexOf(e.seats, socket)].connected
    ensures r.seats == Disconnect(e.seats, socket)
  {
    e.(seats := Disconnect(e.seats, socket))
  }

  /** `removeJudge` on the engine: only the judge table can change. */
  function RemoveJudge(e: Engine, socket: string): (r: Engine)
    ensures r == e.(seats := r.seats)
    ensures forall s :: s in e.seats && s.socket != socket ==> s in r.seats
    ensures SeatsInv(e.seats) ==> IndexOf(r.seats, socket) == -1
    ensures r.seats == Remove(e.seats, socket)
  {
    e.(seats := Remove(e.seats, socket))
  }

  // ─── Commands ────────────────────────────────────────────────

  /**
    Everything that can happen to a constructed engine: the transport's
    commands and the timer tick. `reset` is not among them: only the
    constructor calls it, and `Reset()` is the starting point of a run.
   */
  datatype Command =
    | Configure(patch: ConfigPatch)
    | RegisterSeat(socket: string, seat: SeatNo)
    | DisconnectSeat(socket: string)
    | RemoveSeat(socket: string)
    | SubmitScore(judge: SeatNo, color: string, zone: string, now: int)
    | SubmitPenalty(color: string)
    | StartClock
    | PauseClock
    | TickClock(elapsed: int)
    | StartNewMatch
    | AdvanceRound

  function Step(e: Engine, cmd: Command): Engine {
    match cmd
    case Configure(p) => UpdateConfig(e, p)
    case RegisterSeat(s, n) => RegisterJudge(e, s, n).1
    case DisconnectSeat(s) => DisconnectJudge(e, s)
    case RemoveSeat(s) => RemoveJudge(e, s)
    case SubmitScore(j, c, z, now) => AddScore(e, j, c, z, now).engine
    case SubmitPenalty(c) => AddPenalty(e, c)
    case StartClock => StartTimer(e)
    case PauseClock => PauseTimer(e)
    case TickClock(dt) => Tick(e, dt)
    case StartNewMatch => NewMatch(e)
    case AdvanceRound => NextRound(e)
  }

  function Run(e: Engine, cmds: seq<Command>): Engine
    decreases |cmds|
  {
    if cmds == [] then e else Run(Step(e, cmds[0]), cmds[1..])
  }

  /** Every command keeps the engine invariant. */
  lemma StepPreservesInv(e: Engine, cmd: Command)
    requires Inv(e)
    ensures Inv(Step(e, cmd))
  {
    match cmd
    case RegisterSeat(s, n) =>
      assert SeatsInv(Register(e.seats, s, n).seats);
    case DisconnectSeat(s) =>
      assert SeatsInv(Disconnect(e.seats, s));
    case RemoveSeat(s) =>
      assert SeatsInv(Remove(e.seats, s));
    case _ =>
  }

  /** Every engine reachable from `reset` satisfies the invariant. */
  lemma {:induction false} RunPreservesInv(e: Engine, cmds: seq<Command>)
    requires Inv(e)
    ensures Inv(Run(e, cmds))
    decreases |cmds|
  {
    if cmds != [] {
      StepPreservesInv(e, cmds[0]);
      RunPreservesInv(Step(e, cmds[0]), cmds[1..]);
    }
  }

  /** Every zone is worth a non-negative number of points. */
  predicate PointsNonNeg(c: Config) {
    forall z :: c.points.Of(z) >= 0
  }

  /** A configuration patch that sets no negative point value. */
  predicate PatchNonNeg(p: ConfigPatch) {
    p.points.Some? ==> forall z :: PatchFor(p.points.value, z).Some? ==> PatchFor(p.points.value, z).value >= 0
  }

  predicate ScoresNonNeg(s: MatchState) {
    s.scores.red >= 0 && s.scores.blue >= 0
  }

  /**
    Scores stay non-negative as long as every point value is. The
    configuration is not validated, so this is not part of `Inv`: a negative
    point value makes a score negative.
   */
  lemma StepKeepsScoresNonNeg(e: Engine, cmd: Command)
    requires ScoresNonNeg(e.state) && PointsNonNeg(e.config)
    requires cmd.Configure? ==> PatchNonNeg(cmd.patch)
    ensures ScoresNonNeg(Step(e, cmd).state) && PointsNonNeg(Step(e, cmd).config)
  {
  }

  /** Over a run whose configuration changes set no negative point value, scores never go negative. */
  lemma {:induction false} RunKeepsScoresNonNeg(e: Engine, cmds: seq<Command>)
    requires ScoresNonNeg(e.state) && PointsNonNeg(e.config)
    requires forall k :: 0 <= k < |cmds| && cmds[k].Configure? ==> PatchNonNeg(cmds[k].patch)
    ensures ScoresNonNeg(Run(e, cmds).state) && PointsNonNeg(Run(e, cmds).config)
    decreases |cmds|
  {
    if cmds != [] {
      StepKeepsScoresNonNeg(e, cmds[0]);
      RunKeepsScoresNonNeg(Step(e, cmds[0]), cmds[1..]);
    }
  }

  /**
    `matchEnd` is terminal until a new match: no other command leaves it,
    and only a penalty touches the match state at all.
   */
  lemma MatchEndIsTerminal(e: Engine, cmd: Command)
    requires Inv(e) && e.state.status == MatchEnd
    requires !cmd.StartNewMatch?
    ensures Step(e, cmd).state.status == MatchEnd
    ensures !cmd.SubmitPenalty? ==> Step(e, cmd).state == e.state
  {
  }
}

/**
  Properties of whole runs of the match engine: the consensus rule over
  several votes, golden point, disqualification and the reset operations.
 */
module Scenarios {
  import opened MatchTypes
  import opened Votes
  import opened GameEngine

  // ─── Consensus ───────────────────────────────────────────────

  /** A vote with a valid side and zone while running is counted; otherwise it is ignored. */
  lemma ValidVoteIsCounted(e: Engine, j: SeatNo, c: Color, z: Zone, now: int)
    ensures e.state.status == Running ==>
              AddScore(e, j, ColorName(c), ZoneName(z), now) == CastVote(e, j, c, z, now)
    ensures e.state.status != Running ==>
              AddScore(e, j, ColorName(c), ZoneName(z), now) == Scored(e, None)
  {
    ParseNames(c, z);
  }

  /** One judge's counted votes for the same pair, at the given instants. */
  function RepeatVotes(e: Engine, j: SeatNo, c: Color, z: Zone, times: seq<int>): Engine
    decreases |times|
  {
    if times == [] then e
    else RepeatVotes(CastVote(e, j, c, z, times[0]).engine, j, c, z, times[1..])
  }

  /**
    With at least two agreeing judges required, one judge alone never
    scores, however many votes they cast: the match state is unchanged and
    the buffer holds votes for the pair from that judge only.
   */
  lemma {:induction false} SameJudgeNeverScoresAlone(e: Engine, j: SeatNo, c: Color, z: Zone, times: seq<int>)
    requires e.config.consensusEnabled && e.config.consensusMinJudges >= 2
    requires forall w :: w in e.votes && IsFor(w, c, z) ==> w.judgeId == j
    ensures RepeatVotes(e, j, c, z, times).state == e.state
    ensures forall w :: w in RepeatVotes(e, j, c, z, times).votes && IsFor(w, c, z) ==> w.judgeId == j
    decreases |times|
  {
    if times != [] {
      var v := Vote(j, c, z, times[0]);
      var r := CastVote(e, j, c, z, times[0]);
      SingleJudgeCountsOnce(e.votes + [v], times[0], e.config.consensusWindow, c, z, j);
      assert r.result.None?;
      SameJudgeNeverScoresAlone(r.engine, j, c, z, times[1..]);
    }
  }

  /**
    Two different judges agreeing on a pair within the window, with no
    earlier votes for it pending: the first vote scores nothing, the second
    applies the zone's points exactly once and purges the pair's votes.
   */
  lemma TwoJudgesAgree(e: Engine, j1: SeatNo, j2: SeatNo, c: Color, z: Zone, t1: int, t2: int)
    requires e.config.consensusEnabled && e.config.consensusMinJudges == 2
    requires forall w :: w in e.votes ==> !IsFor(w, c, z)
    requires j1 != j2 && 0 <= t2 - t1 <= e.config.consensusWindow
    ensures CastVote(e, j1, c, z, t1).result.None?
    ensures var r2 := CastVote(CastVote(e, j1, c, z, t1).engine, j2, c, z, t2);
            && r2.result.Some?
            && r2.engine.state.scores.Get(c) == e.state.scores.Get(c) + e.config.points.Of(z)
            && r2.engine.state.scores.Get(Opponent(c)) == e.state.scores.Get(Opponent(c))
            && forall w :: w in r2.engine.votes ==> !IsFor(w, c, z)
  {
    FirstVoteWaits(e, j1, c, z, t1);
    SecondVoteScores(e, CastVote(e, j1, c, z, t1).engine, j1, j2, c, z, t1, t2);
  }

  /** The first vote for a pair with nothing pending is buffered and scores nothing. */
  lemma FirstVoteWaits(e: Engine, j: SeatNo, c: Color, z: Zone, t: int)
    requires e.config.consensusEnabled && e.config.consensusMinJudges == 2 && e.config.consensusWindow >= 0
    requires forall w :: w in e.votes ==> !IsFor(w, c, z)
    ensures CastVote(e, j, c, z, t).result.None?
    ensures var e1 := CastVote(e, j, c, z, t).engine;
            e1.state == e.state && e1.config == e.config && Vote(j, c, z, t) in e1.votes
  {
    SingleJudgeCountsOnce(e.votes + [Vote(j, c, z, t)], t, e.config.consensusWindow, c, z, j);
    assert Vote(j, c, z, t) in e.votes + [Vote(j, c, z, t)];
  }

  /** A second judge's vote within the window completes the consensus. */
  lemma SecondVoteScores(e: Engine, e1: Engine, j1: SeatNo, j2: SeatNo, c: Color, z: Zone, t1: int, t2: int)
    requires e1.config.consensusEnabled && e1.config.consensusMinJudges == 2
    requires Vote(j1, c, z, t1) in e1.votes && e1.state == e.state && e1.config == e.config
    requires j1 != j2 && 0 <= t2 - t1 <= e1.config.consensusWindow
    ensures var r2 := CastVote(e1, j2, c, z, t2);
            && r2.result.Some?
            && r2.engine.state.scores.Get(c) == e.state.scores.Get(c) + e.config.points.Of(z)
            && r2.engine.state.scores.Get(Opponent(c)) == e.state.scores.Get(Opponent(c))
            && forall w :: w in r2.engine.votes ==> !IsFor(w, c, z)
  {
    var v1 := Vote(j1, c, z, t1);
    var v2 := Vote(j2, c, z, t2);
    var agree := AgreeingJudges(e1.votes + [v2], t2, e1.config.consensusWindow, c, z);
    assert v1 in e1.votes + [v2] && v2 in e1.votes + [v2];
    assert j1 in agree && j2 in agree;
    assert |{j1, j2}| == 2;
    SubsetCard({j1, j2}, agree);
  }

  lemma SubsetCard<T>(a: set<T>, b: set<T>)
    requires a <= b
    ensures |a| <= |b|
  {
    assert b == a + (b - a);
  }

  /**
    Once a pair has scored, the very next vote for it, from any judge at any
    time, does not score again when two judges are required.
   */
  lemma AwardedOnlyOnce(e: Engine, j1: SeatNo, j2: SeatNo, c: Color, z: Zone, t1: int, t2: int)
    requires e.config.consensusEnabled && e.config.consensusMinJudges >= 2
    requires CastVote(e, j1, c, z, t1).result.Some?
    ensures CastVote(CastVote(e, j1, c, z, t1).engine, j2, c, z, t2).result.None?
  {
    var e1 := CastVote(e, j1, c, z, t1).engine;
    SingleJudgeCountsOnce(e1.votes + [Vote(j2, c, z, t2)], t2, e1.config.consensusWindow, c, z, j2);
  }

  /**
    Votes older than the window never help: when every other vote for the
    pair is stale, a judge's fresh vote does not reach a consensus of two,
    whoever cast the stale ones.
   */
  lemma StaleVotesNeverReachConsensus(e: Engine, j: SeatNo, c: Color, z: Zone, now: int)
    requires e.config.consensusEnabled && e.config.consensusMinJudges >= 2
    requires forall w :: w in e.votes && IsFor(w, c, z) ==> now - w.time > e.config.consensusWindow
    ensures CastVote(e, j, c, z, now).result.None?
    ensures CastVote(e, j, c, z, now).engine.state == e.state
  {
    var agree := AgreeingJudges(e.votes + [Vote(j, c, z, now)], now, e.config.consensusWindow, c, z);
    assert agree <= {j};
    SubsetCard(agree, {j});
  }

  /** Without consensus every valid vote while running scores the zone's points at once. */
  lemma ImmediateScoring(e: Engine, j: SeatNo, c: Color, z: Zone, now: int)
    requires e.state.status == Running && !e.config.consensusEnabled
    ensures var r := AddScore(e, j, ColorName(c), ZoneName(z), now);
            && r.result.Some?
            && r.engine.state.scores.Get(c) == e.state.scores.Get(c) + e.config.points.Of(z)
  {
    ValidVoteIsCounted(e, j, c, z, now);
  }

  // ─── Golden point ────────────────────────────────────────────

  /**
    In a golden-point round any positive award ends the match at once for
    the scoring side, whether it scores directly or through a consensus;
    a vote that does not reach consensus changes nothing.
   */
  lemma GoldenPointSuddenDeath(e: Engine, j: SeatNo, c: Color, z: Zone, now: int)
    requires Inv(e) && e.state.status == Running && e.state.isGoldenPoint
    requires e.config.points.Of(z) > 0
    ensures var r := AddScore(e, j, ColorName(c), ZoneName(z), now);
            && (!e.config.consensusEnabled ==> r.result.Some?)
            && (r.result.Some? ==>
                  r.engine.state.status == MatchEnd && r.engine.state.winner == Wins(c)
                  && !r.engine.timerActive && Inv(r.engine))
            && (r.result.None? ==> r.engine.state == e.state && r.engine.timerActive)
  {
    ValidVoteIsCounted(e, j, c, z, now);
    StepPreservesInv(e, SubmitScore(j, ColorName(c), ZoneName(z), now));
  }

  /** A golden-point round that expires with the totals still level ends the match in a draw. */
  lemma GoldenPointExpiryDraw(e: Engine, elapsed: int)
    requires Inv(e) && e.state.status == Running && e.state.isGoldenPoint
    requires e.state.Total(Red) == e.state.Total(Blue) && elapsed >= e.state.timer
    ensures Tick(e, elapsed).state.status == MatchEnd
    ensures Tick(e, elapsed).state.winner == Draw
  {
  }

  /**
    Expiry of a golden-point round is decided by the totals, not declared a
    draw: a penalty during the round breaks the tie for the opponent.
   */
  lemma GoldenPointPenaltyDecidesExpiry(e: Engine, elapsed: int)
    requires Inv(e) && e.state.status == Running && e.state.isGoldenPoint
    requires e.state.Total(Red) == e.state.Total(Blue) && e.state.penalties.red < 9
    requires elapsed >= e.state.timer
    ensures Tick(AddPenalty(e, "red"), elapsed).state.winner == Wins(Blue)
  {
    assert ParseColor("red") == Some(Red);
  }

  /**
    At the end of the last round with level totals, golden point decides:
    enabled, the round is replayed as golden point with a full timer;
    disabled, the match ends in a draw.
   */
  lemma LastRoundTie(e: Engine, elapsed: int)
    requires Inv(e) && e.state.status == Running && !e.state.isGoldenPoint
    requires e.state.currentRound >= e.config.rounds
    requires e.state.Total(Red) == e.state.Total(Blue) && elapsed >= e.state.timer
    ensures e.config.goldenPoint ==>
              Tick(e, elapsed).state.status == RoundEnd && Tick(e, elapsed).state.isGoldenPoint
              && Tick(e, elapsed).state.timer == e.config.roundDuration * MillisPerSecond
    ensures !e.config.goldenPoint ==>
              Tick(e, elapsed).state.status == MatchEnd && Tick(e, elapsed).state.winner == Draw
  {
  }

  // ─── Penalties ───────────────────────────────────────────────

  /** The tenth penalty against a side ends the match for the opponent, whatever the scores. */
  lemma TenthPenaltyDisqualifies(e: Engine, c: Color)
    requires e.state.penalties.Get(c) == Disqualification - 1
    ensures AddPenalty(e, ColorName(c)).state.status == MatchEnd
    ensures AddPenalty(e, ColorName(c)).state.winner == Wins(Opponent(c))
    ensures AddPenalty(e, ColorName(c)).state.scores == e.state.scores
  {
    ParseNames(c, Body);
  }

  /**
    Penalties are not guarded by the status: after red has been
    disqualified, a tenth penalty against blue turns the winner to red.
   */
  lemma PenaltyAfterMatchEndRewritesWinner(e: Engine)
    requires e.state.status == MatchEnd && e.state.winner == Wins(Blue)
    requires e.state.penalties.blue == Disqualification - 1
    ensures AddPenalty(e, "blue").state.status == MatchEnd
    ensures AddPenalty(e, "blue").state.winner == Wins(Red)
  {
    assert ParseColor("blue") == Some(Blue);
  }

  // ─── Lifecycle ───────────────────────────────────────────────

  /** A new match depends only on the configuration and the judges, not on what happened before. */
  lemma NewMatchForgetsHistory(e1: Engine, e2: Engine)
    requires e1.config == e2.config && e1.seats == e2.seats
    ensures NewMatch(e1) == NewMatch(e2)
    ensures NewMatch(NewMatch(e1)) == NewMatch(e1)
  {
  }

  /** `reset` is a new match under the default configuration with an empty judge table. */
  lemma ResetIsNewMatch(e: Engine)
    ensures NewMatch(e.(config := DefaultConfig, seats := [])) == Reset()
  {
  }

  /**
    The example run: two one-second rounds, golden point on, no consensus.
    The first expiry advances to round 2 with a full timer; when round 2
    also expires at 0-0 the match goes to golden point.
   */
  lemma TwoRoundExample()
    ensures var e0 := UpdateConfig(Reset(), ConfigPatch(Some(2), Some(1), Some(true), Some(false), None, None, None));
            var e1 := Tick(StartTimer(e0), 1000);
            var e2 := Tick(StartTimer(e1), 1000);
            && e1.state.status == RoundEnd && e1.state.currentRound == 2 && e1.state.timer == 1000
            && e2.state.status == RoundEnd && e2.state.isGoldenPoint && e2.state.timer == 1000
            && e2.state.currentRound == 2
  {
  }
}

/**
  Plain value types shared by the match engine: sides, scoring zones, the
  match status, per-side counters, the configuration record and the match
  state record of `GameEngine` (game-engine.js).
 */
module MatchTypes {

  datatype Option<T> = None | Some(value: T)

  /** The two sides of the mat. */
  datatype Color = Red | Blue

  /** The scoring zones a judge can vote for. */
  datatype Zone = Body | Head | Tech

  datatype Status = Idle | Running | Paused | RoundEnd | MatchEnd

  /** The `winner` field: unset (null), one side, or a draw. */
  datatype Verdict = Undecided | Wins(side: Color) | Draw

  /** A seat number after JavaScript's `parseInt`: an integer or NaN. */
  datatype SeatNo = Num(n: int) | NaN

  function Opponent(c: Color): (o: Color)
    ensures o != c
  {
    if c == Red then Blue else Red
  }

  function ColorName(c: Color): string {
    match c
    case Red => "red"
    case Blue => "blue"
  }

  function ZoneName(z: Zone): string {
    match z
    case Body => "body"
    case Head => "head"
    case Tech => "tech"
  }

  /** Accepts exactly the strings "red" and "blue". */
  function ParseColor(s: string): (r: Option<Color>)
    ensures r.Some? <==> (s == "red" || s == "blue")
    ensures r.Some? ==> ColorName(r.value) == s
  {
    if s == "red" then Some(Red)
    else if s == "blue" then Some(Blue)
    else None
  }

  /** Accepts exactly the strings "body", "head" and "tech". */
  function ParseZone(s: string): (r: Option<Zone>)
    ensures r.Some? <==> (s == "body" || s == "head" || s == "tech")
    ensures r.Some? ==> ZoneName(r.value) == s
  {
    if s == "body" then Some(Body)
    else if s == "head" then Some(Head)
    else if s == "tech" then Some(Tech)
    else None
  }

  lemma ParseNames(c: Color, z: Zone)
    ensures ParseColor(ColorName(c)) == Some(c)
    ensures ParseZone(ZoneName(z)) == Some(z)
  {
  }

  /** A `{ red, blue }` counter record. */
  datatype Tally = Tally(red: int, blue: int) {

    function Get(c: Color): int {
      if c == Red then red else blue
    }

    /** Adds `n` to one side; the other side is untouched. */
    function Add(c: Color, n: int): (t: Tally)
      ensures t.Get(c) == Get(c) + n
      ensures t.Get(Opponent(c)) == Get(Opponent(c))
    {
      if c == Red then Tally(red + n, blue) else Tally(red, blue + n)
    }
  }

  const Zero := Tally(0, 0)

  /** The zone-to-points table. */
  datatype Points = Points(body: int, head: int, tech: int) {
    function Of(z: Zone): int {
      match z
      case Body => body
      case Head => head
      case Tech => tech
    }
  }

  /**
    The configuration record. `roundDuration` is in seconds and
    `consensusWindow` in milliseconds, as in the source; nothing is range
    checked, so every field is a plain `int`.
   */
  datatype Config = Config(
    rounds: int,
    roundDuration: int,
    goldenPoint: bool,
    consensusEnabled: bool,
    consensusWindow: int,
    consensusMinJudges: int,
    points: Points)

  const DefaultConfig := Config(3, 120, true, true, 1000, 2, Points(2, 3, 1))

  /** The remaining time is kept in integer milliseconds. */
  const MillisPerSecond := 1000

  /** A full round's worth of remaining time for the given configuration. */
  function RoundTimer(c: Config): int {
    c.roundDuration * MillisPerSecond
  }

  /** The match-state record. */
  datatype MatchState = MatchState(
    status: Status,
    currentRound: int,
    isGoldenPoint: bool,
    timer: int,
    scores: Tally,
    penalties: Tally,
    penaltyPoints: Tally,
    winner: Verdict)
  {
    /** A side's total: its score plus the points awarded from the opponent's penalties. */
    function Total(c: Color): int {
      scores.Get(c) + penaltyPoints.Get(c)
    }
  }

  /** The state a new match starts from under configuration `c`. */
  function InitialState(c: Config): MatchState {
    MatchState(Idle, 1, false, RoundTimer(c), Zero, Zero, Zero, Undecided)
  }
}

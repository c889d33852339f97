/**
  The consensus vote buffer of `GameEngine.addScore` (game-engine.js:162-180):
  a rolling list of judge votes, pruned to a time window on every insertion,
  in which a side+zone pair reaches consensus once enough distinct judges
  have voted for it.
 */
module Votes {
  import opened MatchTypes

  /** One buffered vote; `time` is the wall-clock instant in milliseconds. */
  datatype Vote = Vote(judgeId: SeatNo, color: Color, zone: Zone, time: int)

  /** The pruning test: a vote survives when it is at most `window` ms older than `now`. */
  predicate InWindow(v: Vote, now: int, window: int) {
    now - v.time <= window
  }

  predicate IsFor(v: Vote, c: Color, z: Zone) {
    v.color == c && v.zone == z
  }

  /** Pruning: keeps, in order, exactly the votes inside the window. */
  function Recent(buf: seq<Vote>, now: int, window: int): (r: seq<Vote>)
    ensures |r| <= |buf|
    ensures forall v :: v in r <==> v in buf && InWindow(v, now, window)
  {
    if buf == [] then []
    else
      var rest := Recent(buf[1..], now, window);
      assert forall v :: v in buf <==> v == buf[0] || v in buf[1..];
      if InWindow(buf[0], now, window) then [buf[0]] + rest else rest
  }

  /** The votes for one side+zone pair, in buffer order. */
  function Matching(buf: seq<Vote>, c: Color, z: Zone): (r: seq<Vote>)
    ensures |r| <= |buf|
    ensures forall v :: v in r <==> v in buf && IsFor(v, c, z)
  {
    if buf == [] then []
    else
      var rest := Matching(buf[1..], c, z);
      assert forall v :: v in buf <==> v == buf[0] || v in buf[1..];
      if IsFor(buf[0], c, z) then [buf[0]] + rest else rest
  }

  /** The purge after consensus: drops every vote for one side+zone pair, keeping the rest in order. */
  function Without(buf: seq<Vote>, c: Color, z: Zone): (r: seq<Vote>)
    ensures |r| <= |buf|
    ensures forall v :: v in r <==> v in buf && !IsFor(v, c, z)
  {
    if buf == [] then []
    else
      var rest := Without(buf[1..], c, z);
      assert forall v :: v in buf <==> v == buf[0] || v in buf[1..];
      if IsFor(buf[0], c, z) then rest else [buf[0]] + rest
  }

  /** The distinct judge identities among some votes (a JavaScript `Set` of the ids). */
  function Judges(votes: seq<Vote>): (r: set<SeatNo>)
    ensures |r| <= |votes|
    ensures forall j :: j in r <==> exists v :: v in votes && v.judgeId == j
  {
    if votes == [] then {}
    else
      var rest := Judges(votes[1..]);
      assert forall v :: v in votes <==> v == votes[0] || v in votes[1..];
      {votes[0].judgeId} + rest
  }

  /**
    Reference definition of the consensus count: the number of distinct
    judges that have a vote for `c`+`z` inside the window.
   */
  ghost function AgreeingJudges(buf: seq<Vote>, now: int, window: int, c: Color, z: Zone): set<SeatNo> {
    set v | v in buf && InWindow(v, now, window) && IsFor(v, c, z) :: v.judgeId
  }

  /** The outcome of one submitted vote: whether it completed a consensus, and the buffer afterwards. */
  datatype Decision = Decision(awarded: bool, buffer: seq<Vote>)

  /**
    Appends `v` (stamped with the current time `v.time`), prunes, counts the
    distinct judges for `v`'s side+zone and, when they reach `minJudges`,
    purges that pair from the buffer.
   */
  function Submit(buf: seq<Vote>, v: Vote, window: int, minJudges: int): (d: Decision)
    ensures d.awarded <==> |AgreeingJudges(buf + [v], v.time, window, v.color, v.zone)| >= minJudges
    ensures forall w :: w in d.buffer ==> w in buf + [v] && InWindow(w, v.time, window)
    ensures forall w :: w in buf + [v] && InWindow(w, v.time, window) && !IsFor(w, v.color, v.zone) ==> w in d.buffer
    ensures d.awarded ==> forall w :: w in d.buffer ==> !IsFor(w, v.color, v.zone)
    ensures !d.awarded ==> forall w :: w in buf + [v] && InWindow(w, v.time, window) ==> w in d.buffer
    ensures forall c, z :: (c, z) != (v.color, v.zone) ==>
              Matching(d.buffer, c, z) == Matching(Recent(buf + [v], v.time, window), c, z)
  {
    var pruned := Recent(buf + [v], v.time, window);
    var count := |Judges(Matching(pruned, v.color, v.zone))|;
    CountIsAgreeingJudges(buf + [v], v.time, window, v.color, v.zone);
    if count >= minJudges then
      WithoutKeepsOthers(pruned, v.color, v.zone);
      Decision(true, Without(pruned, v.color, v.zone))
    else
      Decision(false, pruned)
  }

  /** The recursive count agrees with the reference definition. */
  lemma CountIsAgreeingJudges(buf: seq<Vote>, now: int, window: int, c: Color, z: Zone)
    ensures Judges(Matching(Recent(buf, now, window), c, z)) == AgreeingJudges(buf, now, window, c, z)
  {
  }

  /** Purging one pair leaves the votes of every other pair exactly as they were, in order. */
  lemma {:induction false} WithoutKeepsOthers(buf: seq<Vote>, c: Color, z: Zone)
    ensures forall c', z' :: (c', z') != (c, z) ==> Matching(Without(buf, c, z), c', z') == Matching(buf, c', z')
  {
    if buf != [] {
      WithoutKeepsOthers(buf[1..], c, z);
    }
  }

  /** Matching and Without split the buffer: no vote is lost or duplicated. */
  lemma {:induction false} MatchingWithoutPartition(buf: seq<Vote>, c: Color, z: Zone)
    ensures multiset(Matching(buf, c, z)) + multiset(Without(buf, c, z)) == multiset(buf)
  {
    if buf != [] {
      var rest := buf[1..];
      MatchingWithoutPartition(rest, c, z);
      assert buf == [buf[0]] + rest;
      assert multiset(buf) == multiset{buf[0]} + multiset(rest);
      if IsFor(buf[0], c, z) {
        assert Matching(buf, c, z) == [buf[0]] + Matching(rest, c, z);
        assert Without(buf, c, z) == Without(rest, c, z);
      } else {
        assert Matching(buf, c, z) == Matching(rest, c, z);
        assert Without(buf, c, z) == [buf[0]] + Without(rest, c, z);
      }
    }
  }

  /** However many votes one judge casts for a pair, the distinct count for it is at most one. */
  lemma SingleJudgeCountsOnce(buf: seq<Vote>, now: int, window: int, c: Color, z: Zone, j: SeatNo)
    requires forall v :: v in buf && IsFor(v, c, z) ==> v.judgeId == j
    ensures |AgreeingJudges(buf, now, window, c, z)| <= 1
  {
    var s := AgreeingJudges(buf, now, window, c, z);
    assert s <= {j};
    if s != {} {
      assert s == {j};
    }
  }

  /** A vote outside the window contributes nothing: every counted judge has an in-window vote. */
  lemma StaleVotesDoNotCount(buf: seq<Vote>, now: int, window: int, c: Color, z: Zone, j: SeatNo)
    requires j in Judges(Matching(Recent(buf, now, window), c, z))
    ensures exists v :: v in buf && IsFor(v, c, z) && v.judgeId == j && now - v.time <= window
  {
  }
}

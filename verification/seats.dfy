/**
  The judge table of `GameEngine` (game-engine.js:43, 64, 216-238): entries
  keyed by transport connection id, each holding a seat number and a
  connected flag. A JavaScript object keeps string keys in insertion order,
  so the table is a sequence in which a connection id occurs at most once.
 */
module Seats {
  import opened MatchTypes

  datatype Seat = Seat(socket: string, number: SeatNo, connected: bool)

  /** What a snapshot shows of a seat: never the connection id. */
  datatype JudgeView = JudgeView(id: SeatNo, connected: bool)

  datatype Registration = Registration(accepted: bool, seats: seq<Seat>)

  /** The range check `num < 1 || num > 3`; NaN compares false both ways, so it is never out of range. */
  predicate OutOfRange(n: SeatNo) {
    n.Num? && (n.n < 1 || n.n > 3)
  }

  /** JavaScript's `===` on seat numbers: NaN equals nothing, not even NaN. */
  predicate StrictSame(a: SeatNo, b: SeatNo) {
    a.Num? && b.Num? && a.n == b.n
  }

  /** Connection ids are unique, and no two connected entries hold the same seat number. */
  ghost predicate SeatsInv(seats: seq<Seat>) {
    && (forall i, j :: 0 <= i < j < |seats| ==> seats[i].socket != seats[j].socket)
    && (forall i, j :: 0 <= i < j < |seats| && seats[i].connected && seats[j].connected ==>
          !StrictSame(seats[i].number, seats[j].number))
  }

  /** The position of a connection id in the table, or -1 when it is absent. */
  function IndexOf(seats: seq<Seat>, socket: string): (i: int)
    ensures -1 <= i < |seats|
    ensures i >= 0 ==> seats[i].socket == socket
    ensures i >= 0 ==> forall k :: 0 <= k < i ==> seats[k].socket != socket
    ensures i == -1 <==> forall k :: 0 <= k < |seats| ==> seats[k].socket != socket
  {
    if seats == [] then -1
    else if seats[0].socket == socket then 0
    else
      var j := IndexOf(seats[1..], socket);
      if j == -1 then -1 else j + 1
  }

  /** The connection ids in table order (the object's key order). */
  function Sockets(seats: seq<Seat>): (r: seq<string>)
    ensures |r| == |seats|
    ensures forall k :: 0 <= k < |seats| ==> r[k] == seats[k].socket
  {
    seq(|seats|, k requires 0 <= k < |seats| => seats[k].socket)
  }

  /** Whether a connected entry under a different connection id already holds `n`. */
  predicate Taken(seats: seq<Seat>, socket: string, n: SeatNo) {
    exists k :: 0 <= k < |seats| && seats[k].connected && StrictSame(seats[k].number, n) && seats[k].socket != socket
  }

  /**
    `registerJudge`: rejects seat numbers out of range and seats held by
    another connected entry; otherwise writes a connected entry for the
    connection, in place when it is already in the table, at the end when not.
   */
  function Register(seats: seq<Seat>, socket: string, n: SeatNo): (r: Registration)
    ensures r.accepted <==> !OutOfRange(n) && !Taken(seats, socket, n)
    ensures !r.accepted ==> r.seats == seats
    ensures r.accepted ==> IndexOf(r.seats, socket) >= 0 && r.seats[IndexOf(r.seats, socket)] == Seat(socket, n, true)
    ensures r.accepted && IndexOf(seats, socket) >= 0 ==>
              Sockets(r.seats) == Sockets(seats)
              && forall k :: 0 <= k < |seats| && seats[k].socket != socket ==> r.seats[k] == seats[k]
    ensures r.accepted && IndexOf(seats, socket) == -1 ==> r.seats == seats + [Seat(socket, n, true)]
    ensures SeatsInv(seats) ==> SeatsInv(r.seats)
  {
    if OutOfRange(n) || Taken(seats, socket, n) then Registration(false, seats)
    else
      var i := IndexOf(seats, socket);
      var entry := Seat(socket, n, true);
      if i >= 0 then
        IndexOfUnique(seats[i := entry], socket, i);
        Registration(true, seats[i := entry])
      else
        IndexOfUnique(seats + [entry], socket, |seats|);
        Registration(true, seats + [entry])
  }

  /** Under unique connection ids, the id at position `i` is found at `i`. */
  lemma {:induction false} IndexOfUnique(seats: seq<Seat>, socket: string, i: int)
    requires 0 <= i < |seats| && seats[i].socket == socket
    requires forall k :: 0 <= k < i ==> seats[k].socket != socket
    ensures IndexOf(seats, socket) == i
  {
    if i > 0 {
      IndexOfUnique(seats[1..], socket, i - 1);
    }
  }

  /** `disconnectJudge`: clears the connected flag of an existing entry; nothing else changes. */
  function Disconnect(seats: seq<Seat>, socket: string): (r: seq<Seat>)
    ensures Sockets(r) == Sockets(seats)
    ensures forall k :: 0 <= k < |seats| && seats[k].socket != socket ==> r[k] == seats[k]
    ensures forall k :: 0 <= k < |seats| ==> r[k].number == seats[k].number
    ensures IndexOf(seats, socket) >= 0 ==> !r[IndexOf(seats, socket)].connected
    ensures SeatsInv(seats) ==> SeatsInv(r)
  {
    var i := IndexOf(seats, socket);
    if i >= 0 then seats[i := seats[i].(connected := false)] else seats
  }

  /** `removeJudge`: deletes the entry of the connection, keeping the order of the others. */
  function Remove(seats: seq<Seat>, socket: string): (r: seq<Seat>)
    ensures IndexOf(seats, socket) == -1 ==> r == seats
    ensures IndexOf(seats, socket) >= 0 ==> |r| == |seats| - 1
    ensures IndexOf(seats, socket) >= 0 ==>
              r == seats[..IndexOf(seats, socket)] + seats[IndexOf(seats, socket) + 1..]
    ensures forall s :: s in r ==> s in seats
    ensures forall s :: s in seats && s.socket != socket ==> s in r
    ensures SeatsInv(seats) ==> SeatsInv(r) && IndexOf(r, socket) == -1
  {
    var i := IndexOf(seats, socket);
    if i >= 0 then
      RemoveAt(seats, socket, i);
      seats[..i] + seats[i + 1..]
    else seats
  }

  /**
    Deleting the entry at `i` keeps every entry of another connection and
    seat exclusivity, and under unique ids drops the connection.
   */
  lemma RemoveAt(seats: seq<Seat>, socket: string, i: int)
    requires 0 <= i < |seats| && seats[i].socket == socket
    ensures forall s :: s in seats[..i] + seats[i + 1..] ==> s in seats
    ensures forall s :: s in seats && s.socket != socket ==> s in seats[..i] + seats[i + 1..]
    ensures SeatsInv(seats) ==>
              SeatsInv(seats[..i] + seats[i + 1..]) && IndexOf(seats[..i] + seats[i + 1..], socket) == -1
  {
    var r := seats[..i] + seats[i + 1..];
    assert forall k :: 0 <= k < |r| ==> r[k] == seats[if k < i then k else k + 1];
  }

  /** The judge list of a snapshot: seat number and connected flag of each entry, in table order. */
  function Listing(seats: seq<Seat>): (r: seq<JudgeView>)
    ensures |r| == |seats|
    ensures forall k :: 0 <= k < |seats| ==> r[k].id == seats[k].number && r[k].connected == seats[k].connected
  {
    seq(|seats|, k requires 0 <= k < |seats| => JudgeView(seats[k].number, seats[k].connected))
  }

  /**
    Seat exclusivity: A takes seat 2; B is refused seat 2 while A is
    connected; once A disconnects, B gets seat 2.
   */
  lemma SeatHandover(seats: seq<Seat>, a: string, b: string)
    requires SeatsInv(seats) && a != b
    requires !Taken(seats, a, Num(2))
    ensures Register(seats, a, Num(2)).accepted
    ensures !Register(Register(seats, a, Num(2)).seats, b, Num(2)).accepted
    ensures Register(Disconnect(Register(seats, a, Num(2)).seats, a), b, Num(2)).accepted
  {
  }

  /**
    NaN seat numbers pass the range check and never collide under `===`, so
    any connection can register as NaN, even while another connected entry
    already holds NaN.
   */
  lemma NaNAlwaysAccepted(seats: seq<Seat>, socket: string)
    ensures Register(seats, socket, NaN).accepted
  {
  }
}

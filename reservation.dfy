/** The booking record and the overlap rule of the reservation store.
    Times are instants (for instance minutes since an epoch): the store parses
    its date strings into instants before comparing them, and only the
    comparison matters here. */
module Reservations {

  /** One booking. `id` and `createdAt` come from the clock when the booking
      is made; `start` and `end` delimit the booked window. */
  datatype Reservation = Reservation(
    id: int,
    room: string,
    start: int,
    end: int,
    reserverName: string,
    createdAt: int)

  /** The message returned when a booking is refused. */
  const ConflictMessage: string := "選択した時間帯は既に予約されています。"

  /** The three-clause test the store applies to a candidate window [s, e)
      and an existing window [s0, e0): the candidate starts inside the
      existing one, ends inside it, or contains it. */
  predicate ClauseOverlap(s: int, e: int, s0: int, e0: int)
  {
    (s >= s0 && s < e0) || (e > s0 && e <= e0) || (s <= s0 && e >= e0)
  }

  /** The standard overlap test for half-open windows. */
  predicate HalfOpenOverlap(s: int, e: int, s0: int, e0: int)
  {
    s < e0 && e > s0
  }

  predicate WellFormed(r: Reservation)
  {
    r.start < r.end
  }

  /** Whether `existing` stops `candidate` from being booked. */
  predicate ConflictsWith(candidate: Reservation, existing: Reservation)
  {
    existing.room == candidate.room &&
    ClauseOverlap(candidate.start, candidate.end, existing.start, existing.end)
  }

  /** Whether some stored booking conflicts with the candidate. */
  predicate HasTimeConflict(reservations: seq<Reservation>, candidate: Reservation)
  {
    exists i :: 0 <= i < |reservations| && ConflictsWith(candidate, reservations[i])
  }

  /** The collection after an attempt to book `candidate`: unchanged on a
      conflict, otherwise the candidate appended at the end. */
  function Accept(reservations: seq<Reservation>, candidate: Reservation): seq<Reservation>
  {
    if HasTimeConflict(reservations, candidate) then reservations else reservations + [candidate]
  }

  /** The collection after a series of booking attempts, oldest first. */
  function Replay(reservations: seq<Reservation>, candidates: seq<Reservation>): seq<Reservation>
    decreases |candidates|
  {
    if candidates == [] then reservations
    else Replay(Accept(reservations, candidates[0]), candidates[1..])
  }

  /** No two bookings of the same room overlap. */
  predicate NoSameRoomOverlap(reservations: seq<Reservation>)
  {
    forall i, j :: 0 <= i < j < |reservations| && reservations[i].room == reservations[j].room ==>
      !HalfOpenOverlap(reservations[i].start, reservations[i].end, reservations[j].start, reservations[j].end)
  }

  /** The store's consistency invariant: every window is non-empty and no two
      bookings of the same room overlap. */
  predicate Consistent(reservations: seq<Reservation>)
  {
    (forall i :: 0 <= i < |reservations| ==> WellFormed(reservations[i])) &&
    NoSameRoomOverlap(reservations)
  }

  /** The bookings of one room, in stored order. */
  function SameRoom(reservations: seq<Reservation>, room: string): (r: seq<Reservation>)
    ensures |r| <= |reservations|
    ensures forall k :: 0 <= k < |r| ==> r[k].room == room
  {
    if reservations == [] then []
    else if reservations[0].room == room then [reservations[0]] + SameRoom(reservations[1..], room)
    else SameRoom(reservations[1..], room)
  }

  // ---------------------------------------------------------------------
  // The overlap rule

  /** Every half-open overlap is caught by one of the three clauses, for
      any windows at all. */
  lemma OverlapImpliesClause(s: int, e: int, s0: int, e0: int)
    ensures HalfOpenOverlap(s, e, s0, e0) ==> ClauseOverlap(s, e, s0, e0)
  {
  }

  /** For non-empty windows the three clauses say exactly "the half-open
      windows overlap". */
  lemma ClauseIffHalfOpen(s: int, e: int, s0: int, e0: int)
    requires s < e && s0 < e0
    ensures ClauseOverlap(s, e, s0, e0) <==> HalfOpenOverlap(s, e, s0, e0)
  {
  }

  /** Against an empty stored window [t, t) the clauses fire whenever t lies
      in the closed candidate window, while the half-open test needs t
      strictly inside it: an empty stored window still blocks a candidate
      that starts or ends at t. */
  lemma EmptyStoredWindow(s: int, e: int, t: int)
    ensures ClauseOverlap(s, e, t, t) <==> s <= t <= e
    ensures HalfOpenOverlap(s, e, t, t) <==> s < t < e
  {
  }

  /** An empty candidate window [t, t) is refused by the clauses whenever t
      lies in the closed stored window, while the half-open test needs t
      strictly inside it. */
  lemma EmptyCandidateWindow(t: int, s0: int, e0: int)
    requires s0 < e0
    ensures ClauseOverlap(t, t, s0, e0) <==> s0 <= t <= e0
    ensures HalfOpenOverlap(t, t, s0, e0) <==> s0 < t < e0
  {
  }

  /** Back-to-back bookings of the same room are allowed. */
  lemma BackToBackNoConflict(candidate: Reservation, existing: Reservation)
    requires WellFormed(candidate) && WellFormed(existing)
    requires candidate.end == existing.start || candidate.start == existing.end
    ensures !ConflictsWith(candidate, existing)
  {
  }

  /** A candidate that overlaps a same-room booking, by partial overlap or by
      containment, is refused. */
  lemma OverlapIsConflict(reservations: seq<Reservation>, candidate: Reservation, i: int)
    requires 0 <= i < |reservations| && reservations[i].room == candidate.room
    requires HalfOpenOverlap(candidate.start, candidate.end, reservations[i].start, reservations[i].end)
    ensures HasTimeConflict(reservations, candidate)
    ensures Accept(reservations, candidate) == reservations
  {
    OverlapImpliesClause(candidate.start, candidate.end, reservations[i].start, reservations[i].end);
  }

  // ---------------------------------------------------------------------
  // Rooms are independent

  /** The conflict check scans the collection front to back. */
  lemma ConflictCons(head: Reservation, rest: seq<Reservation>, candidate: Reservation)
    ensures HasTimeConflict([head] + rest, candidate) <==>
      ConflictsWith(candidate, head) || HasTimeConflict(rest, candidate)
  {
    var all := [head] + rest;
    assert all[0] == head;
    if HasTimeConflict(rest, candidate) {
      var k :| 0 <= k < |rest| && ConflictsWith(candidate, rest[k]);
      assert all[k + 1] == rest[k];
    }
    if HasTimeConflict(all, candidate) {
      var k :| 0 <= k < |all| && ConflictsWith(candidate, all[k]);
      if k > 0 {
        assert all[k] == rest[k - 1];
        assert ConflictsWith(candidate, rest[k - 1]);
      }
    }
  }

  /** Only bookings of the candidate's room matter to the conflict check. */
  lemma {:induction false} ConflictOnlySameRoom(reservations: seq<Reservation>, candidate: Reservation)
    ensures HasTimeConflict(reservations, candidate) == HasTimeConflict(SameRoom(reservations, candidate.room), candidate)
  {
    if reservations != [] {
      var head, rest := reservations[0], reservations[1..];
      assert reservations == [head] + rest;
      ConflictCons(head, rest, candidate);
      ConflictOnlySameRoom(rest, candidate);
      if head.room == candidate.room {
        ConflictCons(head, SameRoom(rest, candidate.room), candidate);
      }
    }
  }

  /** A room with no bookings accepts any window, however it relates to the
      windows booked in other rooms. */
  lemma OtherRoomsNeverConflict(reservations: seq<Reservation>, candidate: Reservation)
    requires forall i :: 0 <= i < |reservations| ==> reservations[i].room != candidate.room
    ensures !HasTimeConflict(reservations, candidate)
    ensures Accept(reservations, candidate) == reservations + [candidate]
  {
  }

  // ---------------------------------------------------------------------
  // The invariant

  /** A booking attempt either leaves the collection unchanged or appends
      exactly the candidate, keeping every earlier booking in place. */
  lemma AcceptAppendsOrKeeps(reservations: seq<Reservation>, candidate: Reservation)
    ensures var after := Accept(reservations, candidate);
      (after == reservations <==> HasTimeConflict(reservations, candidate)) &&
      (!HasTimeConflict(reservations, candidate) ==>
        |after| == |reservations| + 1 && after[..|reservations|] == reservations &&
        after[|reservations|] == candidate)
  {
    if HasTimeConflict(reservations, candidate) {
    } else {
      assert |reservations + [candidate]| != |reservations|;
    }
  }

  /** Accepting a booking only after the conflict check keeps same-room
      bookings disjoint, whatever the windows (no well-formedness needed). */
  lemma AcceptKeepsNoOverlap(reservations: seq<Reservation>, candidate: Reservation)
    requires NoSameRoomOverlap(reservations)
    ensures NoSameRoomOverlap(Accept(reservations, candidate))
  {
    if !HasTimeConflict(reservations, candidate) {
      var after := reservations + [candidate];
      forall i, j | 0 <= i < j < |after| && after[i].room == after[j].room
        ensures !HalfOpenOverlap(after[i].start, after[i].end, after[j].start, after[j].end)
      {
        if j == |reservations| {
          assert !ConflictsWith(candidate, reservations[i]);
          OverlapImpliesClause(candidate.start, candidate.end, reservations[i].start, reservations[i].end);
        } else {
          assert after[i] == reservations[i] && after[j] == reservations[j];
        }
      }
    }
  }

  /** The invariant is kept by every booking attempt whose window is
      non-empty, whichever branch is taken. */
  lemma AcceptKeepsConsistent(reservations: seq<Reservation>, candidate: Reservation)
    requires Consistent(reservations) && WellFormed(candidate)
    ensures Consistent(Accept(reservations, candidate))
  {
    AcceptKeepsNoOverlap(reservations, candidate);
    var after := Accept(reservations, candidate);
    forall i | 0 <= i < |after| ensures WellFormed(after[i]) {
      if i < |reservations| {
        assert after[i] == reservations[i];
      }
    }
  }

  /** Starting from a consistent collection, any series of booking attempts
      with non-empty windows ends in a consistent collection. */
  lemma {:induction false} ReplayConsistent(reservations: seq<Reservation>, candidates: seq<Reservation>)
    requires Consistent(reservations)
    requires forall k :: 0 <= k < |candidates| ==> WellFormed(candidates[k])
    ensures Consistent(Replay(reservations, candidates))
    decreases |candidates|
  {
    if candidates != [] {
      AcceptKeepsConsistent(reservations, candidates[0]);
      ReplayConsistent(Accept(reservations, candidates[0]), candidates[1..]);
    }
  }

  /** Replaying booking attempts never loses or reorders an accepted
      booking: the original collection is a prefix of the result. */
  lemma {:induction false} ReplayExtends(reservations: seq<Reservation>, candidates: seq<Reservation>)
    ensures var after := Replay(reservations, candidates);
      |reservations| <= |after| <= |reservations| + |candidates| &&
      after[..|reservations|] == reservations
    decreases |candidates|
  {
    if candidates != [] {
      var next := Accept(reservations, candidates[0]);
      AcceptAppendsOrKeeps(reservations, candidates[0]);
      ReplayExtends(next, candidates[1..]);
      var after := Replay(next, candidates[1..]);
      assert after[..|reservations|] == after[..|next|][..|reservations|];
    }
  }
}

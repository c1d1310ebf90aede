/** The on-screen list: a copy of the stored bookings ordered by start
    time. The script sorts a spread copy with a stable sort, so the stored
    (insertion) order is untouched and bookings with equal start times keep
    their stored order. */
module Listing {
  import opened Reservations

  /** Puts `x` in front of the first booking that starts no earlier than it. */
  function InsertByStart(x: Reservation, s: seq<Reservation>): seq<Reservation>
    decreases |s|
  {
    if s == [] || x.start <= s[0].start then [x] + s
    else [s[0]] + InsertByStart(x, s[1..])
  }

  /** The bookings in chronological order of their start times. */
  function SortByStart(reservations: seq<Reservation>): seq<Reservation>
    decreases |reservations|
  {
    if reservations == [] then []
    else InsertByStart(reservations[0], SortByStart(reservations[1..]))
  }

  predicate SortedByStart(s: seq<Reservation>)
  {
    forall i, j :: 0 <= i < j < |s| ==> s[i].start <= s[j].start
  }

  /** The bookings starting at instant `t`, in order. */
  function StartingAt(s: seq<Reservation>, t: int): seq<Reservation>
    decreases |s|
  {
    if s == [] then []
    else (if s[0].start == t then [s[0]] else []) + StartingAt(s[1..], t)
  }

  lemma {:induction false} InsertPermutes(x: Reservation, s: seq<Reservation>)
    ensures multiset(InsertByStart(x, s)) == multiset(s) + multiset{x}
    decreases |s|
  {
    if s != [] && x.start > s[0].start {
      InsertPermutes(x, s[1..]);
      assert s == [s[0]] + s[1..];
    }
  }

  lemma {:induction false} InsertSorted(x: Reservation, s: seq<Reservation>)
    requires SortedByStart(s)
    ensures SortedByStart(InsertByStart(x, s))
    decreases |s|
  {
    if s != [] && x.start > s[0].start {
      var tail := InsertByStart(x, s[1..]);
      InsertSorted(x, s[1..]);
      InsertPermutes(x, s[1..]);
      forall k | 0 <= k < |tail| ensures s[0].start <= tail[k].start {
        assert tail[k] in multiset(tail);
        assert tail[k] == x || tail[k] in multiset(s[1..]);
        if tail[k] != x {
          var m :| 0 <= m < |s[1..]| && s[1..][m] == tail[k];
          assert s[m + 1] == tail[k];
        }
      }
    }
  }

  /** The chronological list holds exactly the stored bookings. */
  lemma {:induction false} SortPermutes(reservations: seq<Reservation>)
    ensures multiset(SortByStart(reservations)) == multiset(reservations)
    ensures |SortByStart(reservations)| == |reservations|
    decreases |reservations|
  {
    if reservations != [] {
      SortPermutes(reservations[1..]);
      InsertPermutes(reservations[0], SortByStart(reservations[1..]));
      assert reservations == [reservations[0]] + reservations[1..];
      assert |SortByStart(reservations)| == |multiset(SortByStart(reservations))|;
    }
  }

  /** The chronological list is ordered by start time. */
  lemma {:induction false} SortIsSorted(reservations: seq<Reservation>)
    ensures SortedByStart(SortByStart(reservations))
    decreases |reservations|
  {
    if reservations != [] {
      SortIsSorted(reservations[1..]);
      InsertSorted(reservations[0], SortByStart(reservations[1..]));
    }
  }

  lemma {:induction false} InsertStable(x: Reservation, s: seq<Reservation>, t: int)
    ensures StartingAt(InsertByStart(x, s), t) == (if x.start == t then [x] else []) + StartingAt(s, t)
    decreases |s|
  {
    if s == [] || x.start <= s[0].start {
      assert ([x] + s)[1..] == s;
    } else {
      InsertStable(x, s[1..], t);
      assert ([s[0]] + InsertByStart(x, s[1..]))[1..] == InsertByStart(x, s[1..]);
    }
  }

  /** The sort is stable: for every start instant, the bookings starting
      then appear in the list in their stored order. */
  lemma {:induction false} SortIsStable(reservations: seq<Reservation>, t: int)
    ensures StartingAt(SortByStart(reservations), t) == StartingAt(reservations, t)
    decreases |reservations|
  {
    if reservations != [] {
      SortIsStable(reservations[1..], t);
      InsertStable(reservations[0], SortByStart(reservations[1..]), t);
    }
  }
}

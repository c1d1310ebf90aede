/** The reservation store: an in-memory, insertion-ordered collection of
    bookings mirrored to one slot of the browser's local storage. */
module Manager {
  import opened Reservations
  import opened CsvExport

  /** The one key under which the collection is persisted. */
  const StorageKey: string := "roomReservations"

  /** The browser's local storage. Each slot holds the collection that the
      stored text deserialises to; serialising bookings (numbers and strings
      only) and reading them back gives the same bookings. */
  class Storage {
    var items: map<string, seq<Reservation>>

    constructor (items: map<string, seq<Reservation>>)
      ensures this.items == items
    {
      this.items := items;
    }
  }

  /** What loading finds in `items`: the persisted collection, or nothing
      when the slot is absent. */
  function Loaded(items: map<string, seq<Reservation>>): seq<Reservation>
  {
    if StorageKey in items then items[StorageKey] else []
  }

  /** The outcome of a booking attempt. */
  datatype AddResult = Added(reservation: Reservation) | Refused(message: string)

  class ReservationManager {
    var reservations: seq<Reservation>
    const storage: Storage

    /** Loading from storage now would give back the in-memory collection. */
    ghost predicate Mirrored()
      reads this, storage
    {
      Loaded(storage.items) == reservations
    }

    /** Opens the store on `storage`, loading what it holds. */
    constructor (storage: Storage)
      ensures this.storage == storage
      ensures reservations == Loaded(storage.items)
      ensures Mirrored()
    {
      this.storage := storage;
      new;
      reservations := LoadReservations();
    }

    /** Reads the persisted collection; an absent slot gives no bookings. */
    method LoadReservations() returns (loaded: seq<Reservation>)
      ensures StorageKey !in storage.items ==> loaded == []
      ensures StorageKey in storage.items ==> loaded == storage.items[StorageKey]
    {
      if StorageKey in storage.items {
        loaded := storage.items[StorageKey];
      } else {
        loaded := [];
      }
    }

    /** Overwrites the slot with the whole collection; other slots keep
      their contents. */
    method SaveReservations()
      modifies storage
      ensures storage.items == old(storage.items)[StorageKey := reservations]
      ensures Mirrored()
    {
      storage.items := storage.items[StorageKey := reservations];
    }

    /** Tries to book `room` from `startDateTime` to `endDateTime`. `now`
        and `createdAt` are the clock readings that become the booking's id
        and creation time. On a conflict nothing changes; otherwise the
        booking is appended and the collection persisted. */
    method AddReservation(room: string, startDateTime: int, endDateTime: int, reserverName: string,
                          now: int, createdAt: int) returns (result: AddResult)
      modifies this, storage
      ensures var candidate := Reservation(now, room, startDateTime, endDateTime, reserverName, createdAt);
        if HasTimeConflict(old(reservations), candidate) then
          result == Refused(ConflictMessage) &&
          reservations == old(reservations) &&
          storage.items == old(storage.items)
        else
          result == Added(candidate) &&
          reservations == old(reservations) + [candidate] &&
          storage.items == old(storage.items)[StorageKey := reservations]
      ensures result.Added? ==> Mirrored()
      ensures old(Mirrored()) ==> Mirrored()
      ensures old(Consistent(reservations)) && startDateTime < endDateTime ==> Consistent(reservations)
    {
      var candidate := Reservation(now, room, startDateTime, endDateTime, reserverName, createdAt);
      if Consistent(reservations) && startDateTime < endDateTime {
        AcceptKeepsConsistent(reservations, candidate);
      }
      if HasTimeConflict(reservations, candidate) {
        return Refused(ConflictMessage);
      }
      reservations := reservations + [candidate];
      SaveReservations();
      result := Added(candidate);
    }

    /** The export text of the stored collection, or nothing when it is
        empty. */
    method GenerateCsv(fmt: int -> string) returns (csv: Option<string>)
      ensures csv.None? <==> reservations == []
      ensures csv == Csv(reservations, fmt)
    {
      csv := Csv(reservations, fmt);
    }

    /** The stored collection, in insertion order. */
    method GetAllReservations() returns (all: seq<Reservation>)
      ensures all == reservations
    {
      all := reservations;
    }
  }

  /** Opening a second store on the same storage after any sequence of
      saves reproduces the collection, field for field and in order. */
  method Reopen(m: ReservationManager) returns (again: ReservationManager)
    requires m.Mirrored()
    ensures again.storage == m.storage
    ensures again.reservations == m.reservations
  {
    again := new ReservationManager(m.storage);
  }

  /** A client run from empty storage: back-to-back bookings of one room
      are both accepted, an overlapping one is refused, and the same window
      in another room is accepted. */
  method BookingScenario(storage: Storage) returns (first: AddResult, second: AddResult,
                                                     overlapping: AddResult, otherRoom: AddResult)
    requires StorageKey !in storage.items
    modifies storage
    ensures first.Added? && second.Added? && overlapping.Refused? && otherRoom.Added?
    ensures StorageKey in storage.items && |storage.items[StorageKey]| == 3
  {
    var m := new ReservationManager(storage);
    first := m.AddReservation("A", 600, 660, "Sato", 1, 1);
    second := m.AddReservation("A", 660, 720, "Suzuki", 2, 2);
    assert !ConflictsWith(Reservation(2, "A", 660, 720, "Suzuki", 2), m.reservations[0]);
    overlapping := m.AddReservation("A", 630, 690, "Tanaka", 3, 3);
    assert ConflictsWith(Reservation(3, "A", 630, 690, "Tanaka", 3), m.reservations[0]);
    otherRoom := m.AddReservation("B", 630, 690, "Tanaka", 4, 4);
    assert "B" != "A";
  }
}

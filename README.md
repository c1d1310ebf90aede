# Meeting-room reservation store, modelled in Dafny

This project models the reservation store of a browser room-booking page
(`ReservationManager` in `script.js`). The store keeps an insertion-ordered
collection of bookings. It refuses a new booking when its window overlaps a
booking of the same room. It appends accepted bookings and mirrors the
whole collection to one slot (`roomReservations`) of local storage. It
exports the collection as comma-joined CSV text. The page's list view shows
a copy sorted by start time.

Files:

- `reservation.dfy`, module `Reservations`: the booking record, the
  three-clause overlap test, the conflict check (`HasTimeConflict`), the
  effect of one booking attempt on the collection (`Accept`) and of a series
  of attempts (`Replay`), and the consistency invariant (non-empty windows,
  no two same-room bookings overlapping).
- `csv.dfy`, module `CsvExport`: `Join` (the script's array join) with its
  inverse `Split`, the export lines and text, and the shape of the export.
- `listing.dfy`, module `Listing`: the stable sort by start time used by the
  list view.
- `manager.dfy`, module `Manager`: the `Storage` class (local storage) and
  the `ReservationManager` class, whose methods change the collection and
  the storage slot in place.

Times are integers (instants such as minutes since an epoch). The script
parses its date strings into `Date` values before comparing them, and only
the comparison matters to the store. Rendering an instant as display text
is a parameter `fmt: int -> string` of the export.

Three points about the code's behaviour:

- The code's three-clause test equals the half-open overlap test only for
  non-empty windows. An empty stored window `[t, t)` still blocks a
  candidate that starts or ends at `t` (`Reservations.EmptyStoredWindow`),
  and an empty candidate `[t, t)` is refused at either end of a stored
  window (`Reservations.EmptyCandidateWindow`).
- The store has no `list()` that sorts. `get_all_reservations` returns the
  stored order; the sort happens in the list view (`script.js:123-125`).
- Loading has no guard against a malformed stored value.

## Model

| member | source | states |
|---|---|---|
| `Reservations.OverlapImpliesClause` | script.js:56-60 | for any windows, a half-open overlap satisfies one of the three clauses |
| `Reservations.ClauseIffHalfOpen` | script.js:56-60 | for non-empty windows, the three clauses hold exactly when the half-open windows overlap |
| `Reservations.ClauseOverlap` | script.js:56-60 | the three clauses: the candidate starts inside the stored window, ends inside it, or contains it |
| `Reservations.HasTimeConflict` | script.js:43-62 | some stored booking of the candidate's room meets the three clauses |
| `Reservations.Accept` | script.js:33-39 | the collection after one attempt: unchanged on a conflict, otherwise the candidate appended |
| `Reservations.EmptyStoredWindow` | script.js:56-60 | against an empty stored window `[t, t)` the clauses hold exactly when `s <= t <= e`, the half-open test exactly when `s < t < e` |
| `Reservations.EmptyCandidateWindow` | script.js:56-60 | for an empty candidate `[t, t)` and a non-empty stored window the clauses hold exactly when `s0 <= t <= e0`, the half-open test exactly when `s0 < t < e0` |
| `Reservations.BackToBackNoConflict` | script.js:57-59 | a non-empty window ending where another starts, or starting where it ends, is no conflict |
| `Reservations.OverlapIsConflict` | script.js:33-35 | a candidate overlapping a same-room booking (partially or by containment) is refused and the collection is unchanged |
| `Reservations.ConflictCons` | script.js:49-61 | the conflict check holds for a collection exactly when it holds for its first booking or for the rest |
| `Reservations.ConflictOnlySameRoom` | script.js:48-50 | the conflict check gives the same answer on the collection and on the bookings of the candidate's room alone |
| `Reservations.OtherRoomsNeverConflict` | script.js:49-50 | if no booking is in the candidate's room, the candidate is accepted and appended, whatever windows other rooms hold |
| `Reservations.AcceptAppendsOrKeeps` | script.js:33-39 | an attempt leaves the collection unchanged exactly on a conflict; otherwise the length grows by one, earlier bookings keep position and value, and the last one is the candidate |
| `Reservations.AcceptKeepsNoOverlap` | script.js:33-39 | an attempt keeps same-room bookings disjoint, with no condition on the windows |
| `Reservations.AcceptKeepsConsistent` | script.js:33-39 | with a non-empty candidate window (checked by the caller at script.js:264), an attempt keeps the invariant on either branch |
| `Reservations.ReplayConsistent` | script.js:22-40 | any series of attempts with non-empty windows, from a consistent collection, ends consistent |
| `Reservations.ReplayExtends` | script.js:37 | a series of attempts never drops or reorders stored bookings: the old collection is a prefix, and at most one booking is added per attempt |
| `CsvExport.Join` | script.js:86-88 | the parts with one separator between consecutive parts, as the script's `join` |
| `CsvExport.Row` | script.js:74-82 | a booking's five fields: prefixed room, formatted start, formatted end, name, formatted creation time |
| `CsvExport.Csv` | script.js:65-68 | the export is absent exactly when the collection is empty |
| `CsvExport.Lines` | script.js:70-88 | the export has the header line, then line i+1 is booking i's fields joined by commas, in stored order |
| `CsvExport.SplitJoin` | script.js:86-88 | splitting a join at the separator gives back the parts, when no part contains the separator |
| `CsvExport.JoinAvoids` | script.js:86-88 | joining adds no character except the separator |
| `CsvExport.RowSeparatorFree` | script.js:74-82 | the five fields hold no comma or newline when room, name and formatted instants hold none |
| `CsvExport.LineSplitsIntoRow` | script.js:74-87 | a booking's line holds no newline and splits back into its five fields |
| `CsvExport.HeaderSplitsIntoLabels` | script.js:71-86 | the header line holds no newline and splits into the five labels |
| `CsvExport.CsvShape` | script.js:65-91 | for N > 0 bookings whose texts hold no separator, the export splits into N+1 lines: the header, then each booking in stored order as exactly 5 fields |
| `CsvExport.CommaInNameSplitsField` | script.js:74-87 | without escaping, a name containing a comma makes the line split into 6 fields |
| `Listing.SortByStart` | script.js:123-125 | the copy of the collection sorted by start time by stable insertion |
| `Listing.SortPermutes` | script.js:123-125 | the chronological list has the same bookings as the collection, with multiplicity |
| `Listing.SortIsSorted` | script.js:123-125 | the chronological list is ordered by start time |
| `Listing.SortIsStable` | script.js:123-125 | bookings with equal start times keep their stored order in the list |
| `Manager.Storage.constructor` | script.js:12-18 | local storage as a map from key to the deserialised collection, created with the given slots |
| `Manager.Loaded` | script.js:12-13 | what loading finds: the slot's collection, or no bookings when the key is absent |
| `Manager.ReservationManager.constructor` | script.js:6-8 | a new store holds what loading the storage gives and mirrors it |
| `Manager.ReservationManager.LoadReservations` | script.js:11-14 | loading gives the persisted collection, or no bookings when the slot is absent |
| `Manager.ReservationManager.SaveReservations` | script.js:17-19 | saving overwrites the slot with the whole collection, leaves other slots alone, and a later load gives the collection back |
| `Manager.ReservationManager.AddReservation` | script.js:22-40 | on a conflict: the refusal message, with collection and storage unchanged; otherwise: the new booking returned, appended, and the whole collection persisted; the mirror and the invariant (for a non-empty window) are kept |
| `Manager.ReservationManager.GenerateCsv` | script.js:65-91 | the export is absent exactly when the collection is empty, otherwise the header and one line per booking in stored order |
| `Manager.ReservationManager.GetAllReservations` | script.js:105-107 | returns the stored collection in insertion order |
| `Manager.Reopen` | script.js:6-19 | a second store opened on saved storage holds the same bookings in the same order |
| `Manager.BookingScenario` | script.js:22-61 | from empty storage: back-to-back bookings are accepted, an overlap is refused, and the same window in another room is accepted |

## Left out

- `format_date_time` (script.js:94-102): the locale rendering of `toLocaleString('ja-JP', …)` is host-library behaviour; the export takes the renderer as the parameter `fmt`.
- Date parsing (script.js:45-46, 52-53, 77-80): windows and creation times are integer instants; timezone handling and invalid date strings are not modelled.
- Clock readings (`Date.now()` and `new Date().toISOString()`, script.js:24, 29) are the parameters `now` and `createdAt` of `AddReservation`. The id is therefore not shown unique: two bookings in the same millisecond get the same id in the source too.
- JSON serialisation (script.js:13, 18): a storage slot holds the collection itself. A stored empty string (which the script treats as absent) and malformed JSON are not modelled.
- Manager.ReservationManager.AddReservation: storage never fails in the model. In the script `localStorage.setItem` (script.js:18) can throw, for instance on a full quota or disabled storage; since the push (script.js:37) runs before the save (script.js:38), the array would then hold a booking that the slot lacks and `add_reservation` would throw. The mirror (`Mirrored`) is proved only for storage that never fails.
- Manager.ReservationManager.constructor: `localStorage.getItem` (script.js:12) can throw too; the model's load always succeeds.
- Manager.ReservationManager.AddReservation: the record returned on success (script.js:39) is the very object pushed into the array, so a caller could change the stored booking through it; the model returns a value.
- `Manager.ReservationManager.GetAllReservations`: returns the collection as a value; the script returns the live array, which a caller could mutate (aliasing).
- `Manager.ReservationManager.GenerateCsv`: formatting comes from the parameter `fmt`.
- `CsvExport.CsvShape`: the line and field counts need fields without commas and newlines, because the script does no quoting; `CsvExport.CommaInNameSplitsField` shows what happens otherwise.
- The rest of the page (script.js:110-297 except the sort at 123-125): list rendering, CSV download, notifications, form handling and default times are DOM and browser glue.

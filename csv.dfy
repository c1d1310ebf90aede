/** CSV export of the stored bookings: a header line, then one line per
    booking in stored order, fields joined with a plain comma and lines with
    a newline, without quoting. */
module CsvExport {
  import opened Reservations

  datatype Option<T> = None | Some(value: T)

  /** The five column labels: room, start, end, reserver, booked at. */
  const Headers: seq<string> := ["会議室", "開始日時", "終了日時", "予約者名", "予約日時"]

  /** Prefix put in front of the room identifier in the first column. */
  const RoomPrefix: string := "会議室"

  /** Joins `parts` with `sep` between consecutive parts, as a script
      array's join does; no parts give the empty text. */
  function Join(parts: seq<string>, sep: char): string
    decreases |parts|
  {
    if |parts| == 0 then ""
    else if |parts| == 1 then parts[0]
    else parts[0] + [sep] + Join(parts[1..], sep)
  }

  /** Cuts `s` at every `sep`, as a script string's split does: the empty
      text gives one empty part, and there is always one part more than
      there are separators. */
  function Split(s: string, sep: char): (parts: seq<string>)
    ensures |parts| >= 1
    decreases |s|
  {
    if s == [] then [""]
    else if s[0] == sep then [""] + Split(s[1..], sep)
    else
      var rest := Split(s[1..], sep);
      [[s[0]] + rest[0]] + rest[1..]
  }

  /** A field that neither the field separator nor the line separator can
      cut in two. */
  predicate SeparatorFree(s: string)
  {
    ',' !in s && '\n' !in s
  }

  /** The five fields of one booking's line; `fmt` renders an instant as
      display text. */
  function Row(r: Reservation, fmt: int -> string): seq<string>
  {
    [RoomPrefix + r.room, fmt(r.start), fmt(r.end), r.reserverName, fmt(r.createdAt)]
  }

  /** The lines of the export: the header line, then one line per booking,
      in stored order. */
  function Lines(reservations: seq<Reservation>, fmt: int -> string): (lines: seq<string>)
    ensures |lines| == |reservations| + 1
    ensures lines[0] == Join(Headers, ',')
    ensures forall i :: 0 <= i < |reservations| ==> lines[i + 1] == Join(Row(reservations[i], fmt), ',')
  {
    [Join(Headers, ',')] + seq(|reservations|, i requires 0 <= i < |reservations| => Join(Row(reservations[i], fmt), ','))
  }

  /** The export: nothing for an empty collection, otherwise the lines
      joined with newlines. */
  function Csv(reservations: seq<Reservation>, fmt: int -> string): (csv: Option<string>)
    ensures csv.None? <==> |reservations| == 0
  {
    if |reservations| == 0 then None else Some(Join(Lines(reservations, fmt), '\n'))
  }

  // ---------------------------------------------------------------------
  // Join and Split

  /** Joining a part in front of at least one more part puts one
      separator after it. */
  lemma JoinCons(p: string, rest: seq<string>, sep: char)
    requires |rest| >= 1
    ensures Join([p] + rest, sep) == p + [sep] + Join(rest, sep)
  {
    assert ([p] + rest)[1..] == rest;
  }

  /** Text without a separator is one part. */
  lemma {:induction false} SplitNoSeparator(s: string, sep: char)
    requires sep !in s
    ensures Split(s, sep) == [s]
    decreases |s|
  {
    if s != [] {
      SplitNoSeparator(s[1..], sep);
      assert [s[0]] + s[1..] == s;
    }
  }

  /** A separator-free prefix followed by a separator becomes the first
      part. */
  lemma {:induction false} SplitAtSeparator(a: string, b: string, sep: char)
    requires sep !in a
    ensures Split(a + [sep] + b, sep) == [a] + Split(b, sep)
    decreases |a|
  {
    if a == [] {
      assert a + [sep] + b == [sep] + b;
    } else {
      SplitAtSeparator(a[1..], b, sep);
      var s := a + [sep] + b;
      assert s[0] == a[0] && s[1..] == a[1..] + [sep] + b;
      assert [a[0]] + a[1..] == a;
    }
  }

  /** Splitting undoes joining when no part contains the separator. */
  lemma {:induction false} SplitJoin(parts: seq<string>, sep: char)
    requires |parts| >= 1
    requires forall k :: 0 <= k < |parts| ==> sep !in parts[k]
    ensures Split(Join(parts, sep), sep) == parts
    decreases |parts|
  {
    if |parts| == 1 {
      SplitNoSeparator(parts[0], sep);
    } else {
      SplitJoin(parts[1..], sep);
      SplitAtSeparator(parts[0], Join(parts[1..], sep), sep);
      assert [parts[0]] + parts[1..] == parts;
    }
  }

  /** Joining introduces no character other than the separator. */
  lemma {:induction false} JoinAvoids(parts: seq<string>, sep: char, c: char)
    requires c != sep
    requires forall k :: 0 <= k < |parts| ==> c !in parts[k]
    ensures c !in Join(parts, sep)
    decreases |parts|
  {
    if |parts| > 1 {
      JoinAvoids(parts[1..], sep, c);
    }
  }

  // ---------------------------------------------------------------------
  // Shape of the export

  /** The fields of a line can contain no comma or newline when the room,
      the reserver's name and every formatted instant contain none. */
  lemma RowSeparatorFree(r: Reservation, fmt: int -> string)
    requires SeparatorFree(r.room) && SeparatorFree(r.reserverName)
    requires forall t :: SeparatorFree(fmt(t))
    ensures forall k :: 0 <= k < 5 ==> SeparatorFree(Row(r, fmt)[k])
  {
    var row := Row(r, fmt);
    assert SeparatorFree(fmt(r.start)) && SeparatorFree(fmt(r.end)) && SeparatorFree(fmt(r.createdAt));
    assert SeparatorFree(RoomPrefix);
    assert row[0] == RoomPrefix + r.room;
  }

  /** A booking's line holds no newline and splits back into its five
      fields when its texts contain no separator. */
  lemma LineSplitsIntoRow(r: Reservation, fmt: int -> string)
    requires SeparatorFree(r.room) && SeparatorFree(r.reserverName)
    requires forall t :: SeparatorFree(fmt(t))
    ensures '\n' !in Join(Row(r, fmt), ',')
    ensures Split(Join(Row(r, fmt), ','), ',') == Row(r, fmt)
  {
    RowSeparatorFree(r, fmt);
    JoinAvoids(Row(r, fmt), ',', '\n');
    SplitJoin(Row(r, fmt), ',');
  }

  /** The header line holds no newline and splits into the five labels. */
  lemma HeaderSplitsIntoLabels()
    ensures '\n' !in Join(Headers, ',')
    ensures Split(Join(Headers, ','), ',') == Headers
  {
    assert forall k :: 0 <= k < |Headers| ==> SeparatorFree(Headers[k]);
    JoinAvoids(Headers, ',', '\n');
    SplitJoin(Headers, ',');
  }

  /** For a non-empty collection whose texts contain no separator, the
      export has exactly one line more than there are bookings: the header,
      then the bookings in stored order, each line splitting back into its
      five fields. */
  lemma CsvShape(reservations: seq<Reservation>, fmt: int -> string)
    requires |reservations| > 0
    requires forall i :: 0 <= i < |reservations| ==>
      SeparatorFree(reservations[i].room) && SeparatorFree(reservations[i].reserverName)
    requires forall t :: SeparatorFree(fmt(t))
    ensures Csv(reservations, fmt).Some?
    ensures var lines := Split(Csv(reservations, fmt).value, '\n');
      |lines| == |reservations| + 1 &&
      Split(lines[0], ',') == Headers &&
      forall i :: 0 <= i < |reservations| ==>
        Split(lines[i + 1], ',') == Row(reservations[i], fmt) && |Split(lines[i + 1], ',')| == 5
  {
    var lines := Lines(reservations, fmt);
    HeaderSplitsIntoLabels();
    forall k | 0 <= k < |lines| ensures '\n' !in lines[k] {
      if k > 0 {
        LineSplitsIntoRow(reservations[k - 1], fmt);
      }
    }
    SplitJoin(lines, '\n');
    forall i | 0 <= i < |reservations|
      ensures Split(lines[i + 1], ',') == Row(reservations[i], fmt)
    {
      LineSplitsIntoRow(reservations[i], fmt);
    }
  }

  /** Without escaping, a comma in the reserver's name shifts the columns:
      the line splits into six fields, the name cut in two. */
  lemma CommaInNameSplitsField(r: Reservation, fmt: int -> string, a: string, b: string)
    requires SeparatorFree(r.room) && SeparatorFree(a) && SeparatorFree(b)
    requires r.reserverName == a + [','] + b
    requires forall t :: SeparatorFree(fmt(t))
    ensures Split(Join(Row(r, fmt), ','), ',') ==
      [RoomPrefix + r.room, fmt(r.start), fmt(r.end), a, b, fmt(r.createdAt)]
    ensures |Split(Join(Row(r, fmt), ','), ',')| == 6
  {
    var tail := [fmt(r.createdAt)];
    var row := [RoomPrefix + r.room] + ([fmt(r.start)] + ([fmt(r.end)] + ([r.reserverName] + tail)));
    var fields := [RoomPrefix + r.room] + ([fmt(r.start)] + ([fmt(r.end)] + ([a] + ([b] + tail))));
    assert row == Row(r, fmt);
    assert SeparatorFree(RoomPrefix);
    assert SeparatorFree(fmt(r.start)) && SeparatorFree(fmt(r.end)) && SeparatorFree(fmt(r.createdAt));
    JoinCons(r.reserverName, tail, ',');
    JoinCons(b, tail, ',');
    JoinCons(a, [b] + tail, ',');
    assert Join([r.reserverName] + tail, ',') == Join([a] + ([b] + tail), ',');
    JoinCons(fmt(r.end), [r.reserverName] + tail, ',');
    JoinCons(fmt(r.end), [a] + ([b] + tail), ',');
    JoinCons(fmt(r.start), [fmt(r.end)] + ([r.reserverName] + tail), ',');
    JoinCons(fmt(r.start), [fmt(r.end)] + ([a] + ([b] + tail)), ',');
    JoinCons(RoomPrefix + r.room, row[1..], ',');
    JoinCons(RoomPrefix + r.room, fields[1..], ',');
    assert row[1..] == [fmt(r.start)] + ([fmt(r.end)] + ([r.reserverName] + tail));
    assert fields[1..] == [fmt(r.start)] + ([fmt(r.end)] + ([a] + ([b] + tail)));
    assert Join(row, ',') == Join(fields, ',');
    SplitJoin(fields, ',');
  }
}

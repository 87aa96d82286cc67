/** The organiser's booking export, backend/controllers/organizerController.js
    (`exportBookingData`): every booking for the organiser's events flattened
    into one row per physical ticket, each with its own serial. */
module Export {
  import opened Wrappers
  import opened Tickets
  import opened Bookings
  import opened Organizer
  import Events
  import Text
  import Seqs

  /** One row of the export. */
  datatype ExportRow = ExportRow(
    serial: string,
    bookingId: string,
    eventName: string,
    ticketType: string,
    pricePaid: nat,
    attendeeName: string,
    attendeeEmail: string,
    attendeePhone: string,
    paymentStatus: string)

  /** `T-`, the booking id without its first three characters, `-`, the counter. */
  function SerialId(bookingId: string, counter: nat): string {
    "T-" + Text.SliceFrom(bookingId, 3) + "-" + Text.Decimal(counter)
  }

  /** A serial ends in its counter: two equal serials carry the same counter,
      so distinct counters give distinct serials. */
  lemma {:induction false} SerialIdDeterminesCounter(b1: string, c1: nat, b2: string, c2: nat)
    requires SerialId(b1, c1) == SerialId(b2, c2)
    ensures c1 == c2
  {
    var s := SerialId(b1, c1);
    var d1, d2 := Text.Decimal(c1), Text.Decimal(c2);
    assert s[|s| - |d1|..] == d1;
    assert s[|s| - |d2|..] == d2;
    assert s[|s| - |d1| - 1] == '-';
    assert s[|s| - |d2| - 1] == '-';
    assert d1 == d2;
    Text.DecimalRoundTrip(c1);
    Text.DecimalRoundTrip(c2);
  }

  /** `PAYMENT_STATUS`: the status upper-cased. */
  function PaymentStatus(s: Status): (r: string)
    ensures Text.ToLower(r) == StatusName(s)
    ensures forall i :: 0 <= i < |r| ==> !('a' <= r[i] <= 'z')
  {
    StatusNameIsLower(s);
    Text.LowerUpperRoundTrip(StatusName(s));
    Text.ToUpper(StatusName(s))
  }

  /** Status names are written in lower case. */
  lemma StatusNameIsLower(s: Status)
    ensures Text.ToLower(StatusName(s)) == StatusName(s)
  {
    var n := StatusName(s);
    assert forall i :: 0 <= i < |n| ==> 'a' <= n[i] <= 'z';
    Text.ToLowerNoUpper(n);
  }

  function RowOf(b: Booking, t: TicketLine, eventName: string, counter: nat): (r: ExportRow)
    ensures r.serial == SerialId(b.bookingId, counter) && r.bookingId == b.bookingId
    ensures r.ticketType == t.typeName && r.pricePaid == t.price && r.paymentStatus == PaymentStatus(b.status)
    ensures RowOfLine(r, b, t, eventName)
  {
    ExportRow(SerialId(b.bookingId, counter), b.bookingId, eventName, t.typeName, t.price,
              b.attendee.name, b.attendee.email, b.attendee.phone, PaymentStatus(b.status))
  }

  /** `row` describes a unit of line `t` of booking `b`: the booking's id,
      event name, attendee and upper-cased status, the line's type and price. */
  predicate RowOfLine(row: ExportRow, b: Booking, t: TicketLine, eventName: string) {
    row.bookingId == b.bookingId && row.eventName == eventName
    && row.attendeeName == b.attendee.name && row.attendeeEmail == b.attendee.email
    && row.attendeePhone == b.attendee.phone && row.paymentStatus == PaymentStatus(b.status)
    && row.ticketType == t.typeName && row.pricePaid == t.price
  }

  /** One physical ticket: a unit of line `line` of booking `booking`. */
  datatype Unit = Unit(booking: Booking, line: TicketLine)

  /** The units of a booking's lines, line by line, `quantity` of each. */
  function LineUnits(b: Booking, lines: seq<TicketLine>): (r: seq<Unit>)
    ensures |r| == SumQuantity(lines)
    ensures forall i :: 0 <= i < |r| ==> r[i].booking == b && r[i].line in lines
    decreases |lines|
  {
    if |lines| == 0 then []
    else seq(lines[0].quantity, _ => Unit(b, lines[0])) + LineUnits(b, lines[1..])
  }

  /** Every line with a positive quantity yields at least one unit. */
  lemma {:induction false} LineUnitsComplete(b: Booking, lines: seq<TicketLine>, t: TicketLine)
    requires t in lines && t.quantity > 0
    ensures Unit(b, t) in LineUnits(b, lines)
    decreases |lines|
  {
    var r := LineUnits(b, lines);
    if lines[0] == t {
      assert r[0] == Unit(b, t);
    } else {
      LineUnitsComplete(b, lines[1..], t);
      var tail := LineUnits(b, lines[1..]);
      var k :| 0 <= k < |tail| && tail[k] == Unit(b, t);
      assert r[lines[0].quantity + k] == Unit(b, t);
    }
  }

  /** The units of a list of bookings, booking by booking: the order in
      which the export's nested loops visit the tickets. */
  function Units(bookings: seq<Booking>): (r: seq<Unit>)
    ensures |r| == Seqs.SumBy(bookings, UnitsOf)
    ensures forall i :: 0 <= i < |r| ==> r[i].booking in bookings && r[i].line in r[i].booking.tickets
    decreases |bookings|
  {
    if |bookings| == 0 then []
    else LineUnits(bookings[0], bookings[0].tickets) + Units(bookings[1..])
  }

  /** Every line with a positive quantity of every booking yields a unit. */
  lemma {:induction false} UnitsComplete(bookings: seq<Booking>, b: Booking, t: TicketLine)
    requires b in bookings && t in b.tickets && t.quantity > 0
    ensures Unit(b, t) in Units(bookings)
    decreases |bookings|
  {
    var r := Units(bookings);
    var head := LineUnits(bookings[0], bookings[0].tickets);
    if bookings[0] == b {
      LineUnitsComplete(b, b.tickets, t);
      var k :| 0 <= k < |head| && head[k] == Unit(b, t);
      assert r[k] == Unit(b, t);
    } else {
      UnitsComplete(bookings[1..], b, t);
      var tail := Units(bookings[1..]);
      var k :| 0 <= k < |tail| && tail[k] == Unit(b, t);
      assert r[|head| + k] == Unit(b, t);
    }
  }

  /** The units of bookings sorted oldest first are in the same order: a
      later unit never belongs to an older booking. */
  lemma {:induction false} UnitsOldestFirst(bookings: seq<Booking>, i: nat, j: nat)
    requires Seqs.SortedBy(bookings, Oldest) && i <= j < |Units(bookings)|
    ensures Units(bookings)[i].booking.createdAt <= Units(bookings)[j].booking.createdAt
    decreases |bookings|
  {
    var r := Units(bookings);
    var head := LineUnits(bookings[0], bookings[0].tickets);
    var tail := Units(bookings[1..]);
    var u := |head|;
    if j < u {
      assert r[i] == head[i] && r[j] == head[j];
    } else if i < u {
      assert r[i] == head[i] && r[j] == tail[j - u];
      FirstIsOldest(bookings, tail[j - u].booking);
    } else {
      SortedTail(bookings);
      UnitsOldestFirst(bookings[1..], i - u, j - u);
      assert r[i] == tail[i - u] && r[j] == tail[j - u];
    }
  }

  /** In bookings sorted oldest first, the first is no newer than any later one. */
  lemma FirstIsOldest(bookings: seq<Booking>, b: Booking)
    requires Seqs.SortedBy(bookings, Oldest) && |bookings| > 0 && b in bookings[1..]
    ensures bookings[0].createdAt <= b.createdAt
  {
    var k :| 0 <= k < |bookings[1..]| && bookings[1..][k] == b;
    assert Oldest(bookings[0]) <= Oldest(bookings[k + 1]);
  }

  /** Dropping the first of bookings sorted oldest first leaves them sorted. */
  lemma SortedTail(bookings: seq<Booking>)
    requires Seqs.SortedBy(bookings, Oldest) && |bookings| > 0
    ensures Seqs.SortedBy(bookings[1..], Oldest)
  {
    forall a, c | 0 <= a < c < |bookings[1..]| ensures Oldest(bookings[1..][a]) <= Oldest(bookings[1..][c]) {
      assert Oldest(bookings[a + 1]) <= Oldest(bookings[c + 1]);
    }
  }

  /** The name the export shows for a booking's event. */
  function EventName(events: seq<Events.Event>, id: Id): string {
    match FindEvent(events, id)
    case None => "N/A"
    case Some(k) => events[k].title
  }

  /** The rows of a list of units, one each; the counter runs on from
      `start` as the export's `ticketCounter++` does, so the row at
      position `i` carries counter `start + i`. */
  function Rows(units: seq<Unit>, events: seq<Events.Event>, start: nat): (r: seq<ExportRow>)
    ensures |r| == |units|
  {
    seq(|units|, i requires 0 <= i < |units| =>
      RowOf(units[i].booking, units[i].line, EventName(events, units[i].booking.eventId), start + i))
  }

  /** Row `i` carries counter `start + i` and describes unit `i`. */
  lemma RowsDescribe(units: seq<Unit>, events: seq<Events.Event>, start: nat)
    ensures var r := Rows(units, events, start);
      forall i :: 0 <= i < |r| ==>
        r[i].serial == SerialId(r[i].bookingId, start + i)
        && RowOfLine(r[i], units[i].booking, units[i].line, EventName(events, units[i].booking.eventId))
  {
  }

  function Oldest(b: Booking): int {
    b.createdAt
  }

  /** `exportBookingData`: every booking of the organiser's events, whatever
      its status, oldest first, one row per unit booked; the counter starts
      at 1 and runs across all bookings. Row `i` describes unit `i` of the
      bookings sorted oldest first, under its event's title. */
  function ExportBookingData(db: Db, organizerId: Id): (r: seq<ExportRow>)
    ensures var forOwn := BookingsFor(db.bookings, OwnEvents(db.events, organizerId));
      |r| == Seqs.SumBy(forOwn, UnitsOf)
    ensures forall i :: 0 <= i < |r| ==> r[i].serial == SerialId(r[i].bookingId, i + 1)
    ensures var own := OwnEvents(db.events, organizerId);
      var units := Units(Seqs.SortByKey(BookingsFor(db.bookings, own), Oldest));
      |r| == |units|
      && forall i :: 0 <= i < |r| ==>
        RowOfLine(r[i], units[i].booking, units[i].line, EventName(own, units[i].booking.eventId))
  {
    var own := OwnEvents(db.events, organizerId);
    var forOwn := BookingsFor(db.bookings, own);
    var sorted := Seqs.SortByKey(forOwn, Oldest);
    Seqs.SumByPermutation(sorted, forOwn, UnitsOf);
    RowsDescribe(Units(sorted), own, 1);
    Rows(Units(sorted), own, 1)
  }

  /** The export lists bookings oldest first: a later row never describes a
      booking created after that of an earlier row. */
  lemma ExportOldestFirst(db: Db, organizerId: Id, i: nat, j: nat)
    requires i <= j < |ExportBookingData(db, organizerId)|
    ensures var units := Units(Seqs.SortByKey(BookingsFor(db.bookings, OwnEvents(db.events, organizerId)), Oldest));
      units[i].booking.createdAt <= units[j].booking.createdAt
  {
    UnitsOldestFirst(Seqs.SortByKey(BookingsFor(db.bookings, OwnEvents(db.events, organizerId)), Oldest), i, j);
  }

  /** Nothing is dropped: every ticket line with a positive quantity of every
      booking for the organiser's events, whatever its status, is exported. */
  lemma ExportCoversEveryTicket(db: Db, organizerId: Id, b: Booking, t: TicketLine)
    requires b in BookingsFor(db.bookings, OwnEvents(db.events, organizerId))
    requires t in b.tickets && t.quantity > 0
    ensures Unit(b, t) in Units(Seqs.SortByKey(BookingsFor(db.bookings, OwnEvents(db.events, organizerId)), Oldest))
  {
    var forOwn := BookingsFor(db.bookings, OwnEvents(db.events, organizerId));
    var sorted := Seqs.SortByKey(forOwn, Oldest);
    assert b in multiset(forOwn);
    UnitsComplete(sorted, b, t);
  }

  /** Export serials are pairwise distinct. */
  lemma ExportSerialsDistinct(db: Db, organizerId: Id, i: nat, j: nat)
    requires i < j < |ExportBookingData(db, organizerId)|
    ensures ExportBookingData(db, organizerId)[i].serial != ExportBookingData(db, organizerId)[j].serial
  {
    SerialsDistinct(ExportBookingData(db, organizerId), i, j);
  }

  /** Rows whose serials carry their one-based positions have distinct serials. */
  lemma SerialsDistinct(r: seq<ExportRow>, i: nat, j: nat)
    requires forall k :: 0 <= k < |r| ==> r[k].serial == SerialId(r[k].bookingId, k + 1)
    requires i < j < |r|
    ensures r[i].serial != r[j].serial
  {
    if r[i].serial == r[j].serial {
      SerialIdDeterminesCounter(r[i].bookingId, i + 1, r[j].bookingId, j + 1);
    }
  }
}

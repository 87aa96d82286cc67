/** Check-in at the door, backend/controllers/attendanceController.js.
    The QR token is verified by a parameter standing for the JWT check;
    `None` means an invalid or expired token.

    The handler marks a booking by setting `attended` and `checkInTime`,
    but the booking schema (backend/models/bookingModel.js) declares
    neither path, and Mongoose in its default strict mode saves only
    declared paths. So, as written, the mark never reaches the store: a
    second scan of the same ticket is accepted again, and the attendance
    list never shows anyone present. `VerifyAttendanceAsWritten` models
    that; `VerifyAttendance` models the evidently intended one-shot
    check-in, with the mark kept in `Booking.checkIn`. */
module Attendance {
  import opened Wrappers
  import opened Bookings
  import Events
  import Seqs
  import Payment

  /** The success answers of a scan: a fresh check-in, or the
      `success: false` answer for a ticket already used. */
  datatype CheckIn =
    | Marked(bookingId: string, attendee: Attendee, eventTitle: string, checkInTime: int)
    | AlreadyCheckedIn

  /** The store after a scan, and the answer. */
  datatype Scan = Scan(db: Db, reply: Result<CheckIn, HttpError>)

  /** `booking.attended`, as read back from the store. */
  predicate Attended(b: Booking) {
    b.checkIn.Some?
  }

  /** What a save keeps of a booking as written: the schema has no path for
      the check-in, so it is dropped. */
  function Persisted(b: Booking): (r: Booking)
    ensures !Attended(r)
    ensures r.(checkIn := b.checkIn) == b
  {
    b.(checkIn := None)
  }

  /** The scan as written. Token errors are 400 "Invalid or expired QR", an
      unknown booking is 404. When the booked event is gone the handler
      fails after saving, which the catch also reports as 400. */
  function VerifyAttendanceAsWritten(db: Db, token: string, verify: string -> Option<Id>, now: int): (r: Scan)
    ensures verify(token).None? ==> r == Scan(db, Err(HttpError(400, "Invalid or expired QR")))
    ensures verify(token).Some? && FindBooking(db.bookings, verify(token).value).None? ==>
      r == Scan(db, Err(HttpError(404, "Booking not found")))
    ensures r.reply.Err? ==> r.reply.error.status in {400, 404}
  {
    match verify(token)
    case None => Scan(db, Err(HttpError(400, "Invalid or expired QR")))
    case Some(id) =>
      match FindBooking(db.bookings, id)
      case None => Scan(db, Err(HttpError(404, "Booking not found")))
      case Some(k) =>
        var b := db.bookings[k];
        if Attended(b) then Scan(db, Ok(AlreadyCheckedIn))
        else
          var saved := Db(db.bookings[k := Persisted(b.(checkIn := Some(now)))], db.events);
          match FindEvent(db.events, b.eventId)
          case None => Scan(saved, Err(HttpError(400, "Invalid or expired QR")))
          case Some(e) => Scan(saved, Ok(Marked(b.bookingId, b.attendee, db.events[e].title, now)))
  }

  /** No stored booking carries a check-in. */
  predicate NoneAttended(db: Db) {
    forall i :: 0 <= i < |db.bookings| ==> !Attended(db.bookings[i])
  }

  /** As written, the store never learns of a check-in. */
  lemma AsWrittenNeverRecords(db: Db, token: string, verify: string -> Option<Id>, now: int)
    requires NoneAttended(db)
    ensures NoneAttended(VerifyAttendanceAsWritten(db, token, verify, now).db)
  {
  }

  /** The discrepancy: as written, scanning the same ticket twice is
      accepted twice. */
  lemma AsWrittenAcceptsSecondScan(db: Db, token: string, verify: string -> Option<Id>, t1: int, t2: int)
    requires NoneAttended(db)
    requires VerifyAttendanceAsWritten(db, token, verify, t1).reply.Ok?
    ensures var first := VerifyAttendanceAsWritten(db, token, verify, t1);
      first.reply.value.Marked?
      && VerifyAttendanceAsWritten(first.db, token, verify, t2).reply.Ok?
      && VerifyAttendanceAsWritten(first.db, token, verify, t2).reply.value.Marked?
  {
    var first := VerifyAttendanceAsWritten(db, token, verify, t1);
    var id := verify(token).value;
    var k := FindBooking(db.bookings, id).value;
    var b := db.bookings[k];
    assert first.db.bookings == db.bookings;
  }

  /** The scan as evidently intended: the check-in time is stored, so a
      ticket can be used once. */
  function VerifyAttendance(db: Db, token: string, verify: string -> Option<Id>, now: int): (r: Scan)
    ensures verify(token).None? ==> r == Scan(db, Err(HttpError(400, "Invalid or expired QR")))
    ensures verify(token).Some? && FindBooking(db.bookings, verify(token).value).None? ==>
      r == Scan(db, Err(HttpError(404, "Booking not found")))
    ensures r.reply.Err? ==> r.reply.error.status in {400, 404}
    ensures r.reply.Ok? && r.reply.value.Marked? ==> r.reply.value.checkInTime == now
    ensures r.reply == Ok(AlreadyCheckedIn) ==> r.db == db
    ensures r.reply.Ok? && r.reply.value.Marked? <==>
      verify(token).Some? && FindBooking(db.bookings, verify(token).value).Some?
      && !Attended(db.bookings[FindBooking(db.bookings, verify(token).value).value])
      && FindEvent(db.events, db.bookings[FindBooking(db.bookings, verify(token).value).value].eventId).Some?
    ensures r.reply.Ok? && r.reply.value.Marked? ==>
      var k := FindBooking(db.bookings, verify(token).value).value;
      r.db.events == db.events && |r.db.bookings| == |db.bookings|
      && r.db.bookings[k] == db.bookings[k].(checkIn := Some(now))
      && r.reply.value.bookingId == db.bookings[k].bookingId
      && forall i :: 0 <= i < |db.bookings| && i != k ==> r.db.bookings[i] == db.bookings[i]
  {
    match verify(token)
    case None => Scan(db, Err(HttpError(400, "Invalid or expired QR")))
    case Some(id) =>
      match FindBooking(db.bookings, id)
      case None => Scan(db, Err(HttpError(404, "Booking not found")))
      case Some(k) =>
        var b := db.bookings[k];
        if Attended(b) then Scan(db, Ok(AlreadyCheckedIn))
        else
          var saved := Db(db.bookings[k := b.(checkIn := Some(now))], db.events);
          match FindEvent(db.events, b.eventId)
          case None => Scan(saved, Err(HttpError(400, "Invalid or expired QR")))
          case Some(e) => Scan(saved, Ok(Marked(b.bookingId, b.attendee, db.events[e].title, now)))
  }

  /** A ticket is admitted once: after a check-in, every later scan of the
      same token answers "Already checked in" and changes nothing. */
  lemma CheckInIsOneShot(db: Db, token: string, verify: string -> Option<Id>, t1: int, t2: int)
    requires VerifyAttendance(db, token, verify, t1).reply.Ok?
    ensures var first := VerifyAttendance(db, token, verify, t1);
      VerifyAttendance(first.db, token, verify, t2) == Scan(first.db, Ok(AlreadyCheckedIn))
  {
    var first := VerifyAttendance(db, token, verify, t1);
    var id := verify(token).value;
    var k := FindBooking(db.bookings, id).value;
    var b := db.bookings[k];
    if !Attended(b) {
      assert first.db.bookings == db.bookings[k := b.(checkIn := Some(t1))];
      Payment.FindBookingAfterUpdate(db.bookings, k, b.(checkIn := Some(t1)), id);
    }
  }

  /** One entry of the attendance list. */
  datatype Entry = Entry(bookingId: string, name: string, email: string, status: string, checkInTime: Option<int>)

  function EntryOf(b: Booking): (r: Entry)
    ensures r.status == "Present" <==> Attended(b)
    ensures r.status in {"Present", "Absent"}
  {
    Entry(b.bookingId, b.attendee.name, b.attendee.email, if Attended(b) then "Present" else "Absent", b.checkIn)
  }

  /** `getAttendanceList`: one entry per booking of the event, in store
      order, present exactly when checked in. */
  function AttendanceList(db: Db, eventId: Id): (r: seq<Entry>)
    ensures var ofEvent := Seqs.Filter(db.bookings, (b: Booking) => b.eventId == eventId);
      |r| == |ofEvent|
      && forall i :: 0 <= i < |r| ==> r[i].bookingId == ofEvent[i].bookingId
                                      && (r[i].status == "Present" <==> Attended(ofEvent[i]))
  {
    var ofEvent := Seqs.Filter(db.bookings, (b: Booking) => b.eventId == eventId);
    seq(|ofEvent|, i requires 0 <= i < |ofEvent| => EntryOf(ofEvent[i]))
  }

  /** As written nobody is ever listed present. */
  lemma AsWrittenListAllAbsent(db: Db, eventId: Id)
    requires NoneAttended(db)
    ensures forall i :: 0 <= i < |AttendanceList(db, eventId)| ==> AttendanceList(db, eventId)[i].status == "Absent"
  {
    var ofEvent := Seqs.Filter(db.bookings, (b: Booking) => b.eventId == eventId);
    assert forall i :: 0 <= i < |ofEvent| ==> ofEvent[i] in db.bookings;
  }

  /** With the intended check-in, a checked-in booking is listed present. */
  lemma CheckedInListedPresent(db: Db, token: string, verify: string -> Option<Id>, now: int)
    requires VerifyAttendance(db, token, verify, now).reply.Ok?
    ensures var after := VerifyAttendance(db, token, verify, now).db;
      var k := FindBooking(db.bookings, verify(token).value).value;
      k < |after.bookings| && EntryOf(after.bookings[k]).status == "Present"
  {
  }
}

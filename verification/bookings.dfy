/** The Booking record (backend/models/bookingModel.js) and the booking
    endpoints of backend/controllers/bookingController.js, over an in-memory
    store `Db` of bookings and events. */
module Bookings {
  import opened Wrappers
  import opened Tickets
  import Events
  import Text
  import Seqs

  datatype Status = Created | Confirmed | Cancelled | Refunded

  datatype PaymentMethod = Card | Upi | Bank

  datatype Attendee = Attendee(name: string, email: string, phone: string)

  /** A stored booking. `id` is the store's identifier, `bookingId` the
      human-readable one. The order, payment and signature fields are unset
      until the gateway supplies them. `checkIn` is the check-in time; the
      stored schema has no path for it (see module Attendance). */
  datatype Booking = Booking(
    id: Id,
    bookingId: string,
    eventId: Id,
    userId: Id,
    tickets: seq<TicketLine>,
    totalAmount: nat,
    attendee: Attendee,
    paymentMethod: PaymentMethod,
    status: Status,
    razorpayOrderId: Option<string>,
    paymentId: Option<string>,
    signature: Option<string>,
    checkIn: Option<int>,
    createdAt: int)

  /** The store the booking endpoints read and write. */
  datatype Db = Db(bookings: seq<Booking>, events: seq<Events.Event>)

  function StatusName(s: Status): string {
    match s
    case Created => "created"
    case Confirmed => "confirmed"
    case Cancelled => "cancelled"
    case Refunded => "refunded"
  }

  /** The schema's `enum` check on `status`. */
  function ParseStatus(x: string): (r: Option<Status>)
    ensures r.Some? ==> StatusName(r.value) == x
  {
    if x == "created" then Some(Created)
    else if x == "confirmed" then Some(Confirmed)
    else if x == "cancelled" then Some(Cancelled)
    else if x == "refunded" then Some(Refunded)
    else None
  }

  /** Every status has a name the enum check accepts, and it reads back as itself. */
  lemma StatusRoundTrip(s: Status)
    ensures ParseStatus(StatusName(s)) == Some(s)
  {
  }

  function MethodName(m: PaymentMethod): string {
    match m
    case Card => "card"
    case Upi => "upi"
    case Bank => "bank"
  }

  /** The schema's `enum` check on `paymentMethod`. */
  function ParseMethod(x: string): (r: Option<PaymentMethod>)
    ensures r.Some? ==> MethodName(r.value) == x
    ensures r.None? ==> forall m: PaymentMethod :: MethodName(m) != x
  {
    if x == "card" then Some(Card)
    else if x == "upi" then Some(Upi)
    else if x == "bank" then Some(Bank)
    else None
  }

  /** No two bookings share a store id or a booking id, and no two carry
      the same gateway order id (the schema's unique indexes). */
  predicate KeysUnique(bookings: seq<Booking>) {
    forall i, j :: 0 <= i < j < |bookings| ==>
      bookings[i].id != bookings[j].id
      && bookings[i].bookingId != bookings[j].bookingId
      && (bookings[i].razorpayOrderId.Some? ==> bookings[i].razorpayOrderId != bookings[j].razorpayOrderId)
  }

  /** Whether a booking with these keys would collide with a stored one on a unique index. */
  predicate Collides(bookings: seq<Booking>, id: Id, bookingId: string, orderId: string) {
    exists i :: 0 <= i < |bookings| &&
      (bookings[i].id == id || bookings[i].bookingId == bookingId || bookings[i].razorpayOrderId == Some(orderId))
  }

  /** The default human-readable id: `BK`, the creation time in
      milliseconds, then a random integer below 1000. */
  function DefaultBookingId(now: nat, rand: nat): (r: string)
    requires rand < 1000
    ensures |r| > 2 && r[..2] == "BK"
    ensures forall i :: 2 <= i < |r| ==> Text.IsDigit(r[i])
  {
    "BK" + Text.Decimal(now) + Text.Decimal(rand)
  }

  /** Creation times from 2001 to 2286 have thirteen digits. */
  predicate ThirteenDigitTime(now: nat) {
    Text.Pow10(12) <= now < Text.Pow10(13)
  }

  /** Within the thirteen-digit era the default id determines the creation
      time and the random part: equal default ids come only from equal
      draws in the same millisecond. */
  lemma {:induction false} DefaultBookingIdInjective(now1: nat, rand1: nat, now2: nat, rand2: nat)
    requires rand1 < 1000 && rand2 < 1000
    requires ThirteenDigitTime(now1) && ThirteenDigitTime(now2)
    requires DefaultBookingId(now1, rand1) == DefaultBookingId(now2, rand2)
    ensures now1 == now2 && rand1 == rand2
  {
    Text.DecimalLength(now1, 13);
    Text.DecimalLength(now2, 13);
    var s := DefaultBookingId(now1, rand1);
    var d1, d2 := Text.Decimal(now1), Text.Decimal(now2);
    assert s[2..15] == d1;
    assert s[2..15] == d2;
    assert s[15..] == Text.Decimal(rand1);
    assert s[15..] == Text.Decimal(rand2);
    Text.DecimalRoundTrip(now1);
    Text.DecimalRoundTrip(now2);
    Text.DecimalRoundTrip(rand1);
    Text.DecimalRoundTrip(rand2);
  }

  /** Without the thirteen-digit restriction the default id is ambiguous:
      time 1 with draw 23 and time 12 with draw 3 both give `BK123`. */
  lemma DefaultBookingIdAmbiguousForShortTimes()
    ensures DefaultBookingId(1, 23) == DefaultBookingId(12, 3) == "BK123"
  {
  }

  /** The placeholder access code of a ticket: `TICKET-` and characters 2 to 9 of the booking id. */
  function AccessCode(bookingId: string): (r: string)
    ensures 7 <= |r| <= 15 && r[..7] == "TICKET-"
    ensures |bookingId| >= 10 ==> r[7..] == bookingId[2..10]
  {
    "TICKET-" + Text.Slice(bookingId, 2, 10)
  }

  /** For a default id the access code is the first eight digits of the
      creation time: the random part never reaches it, so all bookings
      made within the same hundred seconds share one code. */
  lemma AccessCodeOfDefaultId(now: nat, rand: nat)
    requires rand < 1000
    requires ThirteenDigitTime(now)
    ensures |Text.Decimal(now)| == 13
    ensures AccessCode(DefaultBookingId(now, rand)) == "TICKET-" + Text.Decimal(now)[..8]
  {
    Text.DecimalLength(now, 13);
    var s := DefaultBookingId(now, rand);
    assert s[2..10] == Text.Decimal(now)[..8];
  }

  /** The request body of `createBooking`. A missing `totalAmount` is `None`;
      a missing payment method is `""`. */
  datatype BookingRequest = BookingRequest(
    attendee: Attendee,
    eventId: Id,
    selectedTickets: seq<TicketLine>,
    totalAmount: Option<nat>,
    paymentMethod: string)

  /** The order sent to the payment gateway: the amount in paise. */
  datatype PaymentOrder = PaymentOrder(amount: nat, currency: string)

  function GatewayOrder(totalAmount: nat): (r: PaymentOrder)
    ensures r.amount % 100 == 0 && r.amount / 100 == totalAmount
    ensures r.currency == "INR"
  {
    PaymentOrder(totalAmount * 100, "INR")
  }

  predicate EventExists(events: seq<Events.Event>, id: Id) {
    exists k :: 0 <= k < |events| && events[k].id == id
  }

  /** The schema's `required` checks: Mongoose refuses an empty string. */
  predicate AttendeeComplete(a: Attendee) {
    a.name != "" && a.email != "" && a.phone != ""
  }

  /** The ticket schema's `required` type: every booked line names one. */
  predicate TicketsComplete(lines: seq<TicketLine>) {
    forall t :: t in lines ==> t.typeName != ""
  }

  /** The booking `createBooking` would insert. */
  function NewBooking(userId: Id, req: BookingRequest, pm: PaymentMethod, orderId: string, id: Id, bookingId: string, now: int): Booking
    requires req.totalAmount.Some?
  {
    Booking(id, bookingId, req.eventId, userId, req.selectedTickets, req.totalAmount.value, req.attendee,
            pm, Created, Some(orderId), None, None, None, now)
  }

  /** `createBooking`. `gatewayOrder` is the order id the gateway returned,
      `None` when it refused the order; `id`, `bookingId` and `now` are what
      the store assigns. Every failure after the event lookup is a 400. */
  function CreateBooking(db: Db, userId: Id, req: BookingRequest, gatewayOrder: Option<string>, id: Id, bookingId: string, now: int)
    : (r: Result<(Db, Booking, PaymentOrder), HttpError>)
    ensures r.Err? && r.error.status == 404 <==> !EventExists(db.events, req.eventId)
    ensures r.Err? ==> r.error.status in {400, 404}
    ensures r.Ok? <==> EventExists(db.events, req.eventId) && req.totalAmount.Some? && gatewayOrder.Some?
                       && AttendeeComplete(req.attendee) && TicketsComplete(req.selectedTickets)
                       && (req.paymentMethod == "" || ParseMethod(req.paymentMethod).Some?)
                       && !Collides(db.bookings, id, bookingId, gatewayOrder.value)
    ensures r.Ok? ==> var (db', b, order) := r.value;
      db'.events == db.events && db'.bookings == db.bookings + [b]
      && b.status == Created && b.userId == userId && b.eventId == req.eventId
      && b.tickets == req.selectedTickets && b.totalAmount == req.totalAmount.value
      && b.paymentMethod == (if req.paymentMethod == "" then Upi else ParseMethod(req.paymentMethod).value)
      && b.razorpayOrderId == gatewayOrder && b.paymentId.None? && b.checkIn.None?
      && order == GatewayOrder(b.totalAmount)
  {
    if !EventExists(db.events, req.eventId) then Err(HttpError(404, "Event not found"))
    else if req.totalAmount.None? || gatewayOrder.None? then Err(HttpError(400, "Payment order could not be created"))
    else if !AttendeeComplete(req.attendee) || !TicketsComplete(req.selectedTickets) then
      Err(HttpError(400, "Booking validation failed"))
    else
      var pm := if req.paymentMethod == "" then Some(Upi) else ParseMethod(req.paymentMethod);
      if pm.None? then Err(HttpError(400, "Booking validation failed"))
      else
        var b := NewBooking(userId, req, pm.value, gatewayOrder.value, id, bookingId, now);
        if Collides(db.bookings, id, bookingId, gatewayOrder.value) then Err(HttpError(400, "Duplicate key"))
        else Ok((Db(db.bookings + [b], db.events), b, GatewayOrder(b.totalAmount)))
  }

  /** Creating a booking keeps the unique indexes unique. */
  lemma CreateBookingKeepsKeysUnique(db: Db, userId: Id, req: BookingRequest, gatewayOrder: Option<string>, id: Id, bookingId: string, now: int)
    requires KeysUnique(db.bookings)
    requires CreateBooking(db, userId, req, gatewayOrder, id, bookingId, now).Ok?
    ensures KeysUnique(CreateBooking(db, userId, req, gatewayOrder, id, bookingId, now).value.0.bookings)
  {
    var (db', b, _) := CreateBooking(db, userId, req, gatewayOrder, id, bookingId, now).value;
    assert !Collides(db.bookings, id, bookingId, gatewayOrder.value);
    forall i, j | 0 <= i < j < |db'.bookings|
      ensures db'.bookings[i].id != db'.bookings[j].id
      ensures db'.bookings[i].bookingId != db'.bookings[j].bookingId
      ensures db'.bookings[i].razorpayOrderId.Some? ==> db'.bookings[i].razorpayOrderId != db'.bookings[j].razorpayOrderId
    {
      if j == |db.bookings| {
        assert db'.bookings[j] == b;
        assert db'.bookings[i] == db.bookings[i];
      }
    }
  }

  /** `Booking.findById(id)`: the position of the booking with store id `id`. */
  function FindBooking(bookings: seq<Booking>, id: Id): (r: Option<nat>)
    ensures r.None? <==> forall i :: 0 <= i < |bookings| ==> bookings[i].id != id
    ensures r.Some? ==> r.value < |bookings| && bookings[r.value].id == id
    ensures r.Some? ==> forall i :: 0 <= i < r.value ==> bookings[i].id != id
  {
    Seqs.FirstIndex(bookings, (b: Booking) => b.id == id)
  }

  /** `Event.findById(id)`. */
  function FindEvent(events: seq<Events.Event>, id: Id): (r: Option<nat>)
    ensures r.None? <==> !EventExists(events, id)
    ensures r.Some? ==> r.value < |events| && events[r.value].id == id
  {
    Seqs.FirstIndex(events, (e: Events.Event) => e.id == id)
  }

  /** `getBookingById`: the booking, or 404. */
  function GetBookingById(db: Db, id: Id): (r: Result<Booking, HttpError>)
    ensures r.Err? <==> forall i :: 0 <= i < |db.bookings| ==> db.bookings[i].id != id
    ensures r.Err? ==> r.error.status == 404
    ensures r.Ok? ==> r.value in db.bookings && r.value.id == id
  {
    match FindBooking(db.bookings, id)
    case None => Err(HttpError(404, "Booking not found"))
    case Some(i) => Ok(db.bookings[i])
  }

  /** A booking listed by `getBookings`: the caller's, and of the requested
      status when one is given (`""` means none). */
  predicate Listed(b: Booking, userId: Id, status: string) {
    b.userId == userId && (status == "" || StatusName(b.status) == status)
  }

  /** One entry of `getBookings`: the booking joined with its event. */
  datatype BookingView = BookingView(
    bookingId: string,
    status: Status,
    totalPaid: nat,
    eventTitle: string,
    eventDate: int,
    image: Option<string>,
    tickets: seq<TicketLine>)

  /** A booked line as listed: type, quantity and price, `sold` dropped. */
  function ListedLine(t: TicketLine): TicketLine {
    TicketLine(t.typeName, t.price, t.quantity, 0)
  }

  function ViewOf(b: Booking, e: Events.Event): (v: BookingView)
    ensures v.totalPaid == b.totalAmount && v.bookingId == b.bookingId && v.status == b.status
    ensures |v.tickets| == |b.tickets|
    ensures forall i :: 0 <= i < |b.tickets| ==>
      v.tickets[i].typeName == b.tickets[i].typeName && v.tickets[i].quantity == b.tickets[i].quantity
      && v.tickets[i].price == b.tickets[i].price
  {
    BookingView(b.bookingId, b.status, b.totalAmount, e.title, e.date,
                if |e.images| > 0 then Some(e.images[0]) else None,
                seq(|b.tickets|, i requires 0 <= i < |b.tickets| => ListedLine(b.tickets[i])))
  }

  /** The views of the listed bookings. A listed booking whose event is gone
      makes the handler throw outside any error handling: no answer (`None`). */
  function Views(bookings: seq<Booking>, events: seq<Events.Event>): (r: Option<seq<BookingView>>)
    ensures r.None? <==> exists i :: 0 <= i < |bookings| && !EventExists(events, bookings[i].eventId)
    ensures r.Some? ==> |r.value| == |bookings|
    ensures r.Some? ==> forall i :: 0 <= i < |bookings| ==>
      r.value[i] == ViewOf(bookings[i], events[FindEvent(events, bookings[i].eventId).value])
    decreases |bookings|
  {
    if |bookings| == 0 then Some([])
    else
      match FindEvent(events, bookings[0].eventId)
      case None => None
      case Some(k) =>
        match Views(bookings[1..], events)
        case None =>
          assert forall i :: 0 <= i < |bookings| - 1 ==> bookings[1..][i] == bookings[i + 1];
          None
        case Some(rest) => Some([ViewOf(bookings[0], events[k])] + rest)
  }

  /** `getBookings`: the caller's bookings, optionally of one status, in stored order. */
  function GetBookings(db: Db, userId: Id, status: string): (r: Option<seq<BookingView>>)
    ensures var listed := Seqs.Filter(db.bookings, (b: Booking) => Listed(b, userId, status));
      r.None? <==> exists i :: 0 <= i < |listed| && !EventExists(db.events, listed[i].eventId)
    ensures var listed := Seqs.Filter(db.bookings, (b: Booking) => Listed(b, userId, status));
      r.Some? ==> (|r.value| == |listed|
                   && forall i :: 0 <= i < |listed| ==>
                        r.value[i] == ViewOf(listed[i], db.events[FindEvent(db.events, listed[i].eventId).value]))
  {
    var listed := Seqs.Filter(db.bookings, (b: Booking) => Listed(b, userId, status));
    var r := Views(listed, db.events);
    assert r.None? <==> exists i :: 0 <= i < |listed| && !EventExists(db.events, listed[i].eventId);
    r
  }

  /** The listed bookings are exactly the caller's bookings of the requested status. */
  lemma GetBookingsSelects(db: Db, userId: Id, status: string, b: Booking)
    ensures b in Seqs.Filter(db.bookings, (x: Booking) => Listed(x, userId, status))
        <==> b in db.bookings && b.userId == userId && (status == "" || ParseStatus(status) == Some(b.status))
  {
    if status != "" && StatusName(b.status) == status {
      StatusRoundTrip(b.status);
    }
  }

  /** The answer of `cancelBooking`. */
  datatype CancelReceipt = CancelReceipt(id: Id, status: Status, refundAmount: nat, refundStatus: string)

  /** `cancelBooking`: 404 for an unknown booking; otherwise the status
      becomes `cancelled` whatever it was, and the full amount is reported
      as refunded. The event is not touched. */
  function CancelBooking(db: Db, id: Id): (r: Result<(Db, CancelReceipt), HttpError>)
    ensures r.Err? <==> FindBooking(db.bookings, id).None?
    ensures r.Err? ==> r.error.status == 404
    ensures r.Ok? ==> var (db', receipt) := r.value; var k := FindBooking(db.bookings, id).value;
      db'.events == db.events
      && db'.bookings == db.bookings[k := db.bookings[k].(status := Cancelled)]
      && receipt == CancelReceipt(id, Cancelled, db.bookings[k].totalAmount, "processed")
  {
    match FindBooking(db.bookings, id)
    case None => Err(HttpError(404, "Booking not found"))
    case Some(k) =>
      var b := db.bookings[k];
      Ok((Db(db.bookings[k := b.(status := Cancelled)], db.events),
          CancelReceipt(id, Cancelled, b.totalAmount, "processed")))
  }

  /** Cancelling twice is cancelling once, and the second answer is the same. */
  lemma CancelIdempotent(db: Db, id: Id)
    requires CancelBooking(db, id).Ok?
    ensures var (db', receipt) := CancelBooking(db, id).value;
      CancelBooking(db', id) == Ok((db', receipt))
  {
    var (db', receipt) := CancelBooking(db, id).value;
    var k := FindBooking(db.bookings, id).value;
    assert forall i :: 0 <= i < |db'.bookings| ==> db'.bookings[i].id == db.bookings[i].id;
    assert FindBooking(db'.bookings, id) == Some(k) by {
      assert forall i :: 0 <= i < k ==> db'.bookings[i].id != id;
    }
    assert db'.bookings[k := db'.bookings[k].(status := Cancelled)] == db'.bookings;
  }

  /** The data of a downloadable ticket. */
  datatype TicketData = TicketData(bookingId: string, attendeeName: string, eventTitle: string, eventDate: int,
                                   tickets: seq<TicketLine>, totalAmount: nat, accessCode: string)

  /** `downloadTicket`, looked up by the human-readable booking id: 404 when
      unknown, 403 when the caller is not the buyer, 500 when the booked
      event is gone (the handler reads its title). */
  function DownloadTicket(db: Db, bookingId: string, caller: Id): (r: Result<TicketData, HttpError>)
    ensures (forall i :: 0 <= i < |db.bookings| ==> db.bookings[i].bookingId != bookingId)
            <==> r.Err? && r.error.status == 404
    ensures r.Ok? ==> exists i :: 0 <= i < |db.bookings| && db.bookings[i].bookingId == bookingId
                                 && db.bookings[i].userId == caller
    ensures r.Ok? ==> r.value.bookingId == bookingId && r.value.accessCode == AccessCode(bookingId)
    ensures r.Err? ==> r.error.status in {403, 404, 500}
    ensures var k := Seqs.FirstIndex(db.bookings, (b: Booking) => b.bookingId == bookingId);
      (k.Some? && db.bookings[k.value].userId != caller <==> r.Err? && r.error.status == 403)
      && (k.Some? && db.bookings[k.value].userId == caller && FindEvent(db.events, db.bookings[k.value].eventId).None?
          <==> r.Err? && r.error.status == 500)
      && (k.Some? && db.bookings[k.value].userId == caller && FindEvent(db.events, db.bookings[k.value].eventId).Some?
          <==> r.Ok?)
    ensures r.Ok? ==> var b := db.bookings[Seqs.FirstIndex(db.bookings, (b: Booking) => b.bookingId == bookingId).value];
      var ev := db.events[FindEvent(db.events, b.eventId).value];
      r.value.attendeeName == b.attendee.name && r.value.tickets == b.tickets && r.value.totalAmount == b.totalAmount
      && r.value.eventTitle == ev.title && r.value.eventDate == ev.date
  {
    match Seqs.FirstIndex(db.bookings, (b: Booking) => b.bookingId == bookingId)
    case None => Err(HttpError(404, "Booking not found"))
    case Some(k) =>
      var b := db.bookings[k];
      if b.userId != caller then Err(HttpError(403, "Unauthorized access to booking"))
      else
        match FindEvent(db.events, b.eventId)
        case None => Err(HttpError(500, "Cannot read properties of null"))
        case Some(e) =>
          var ev := db.events[e];
          Ok(TicketData(b.bookingId, b.attendee.name, ev.title, ev.date, b.tickets, b.totalAmount, AccessCode(b.bookingId)))
  }

  /** With unique booking ids, only the buyer of a booking can download its ticket. */
  lemma DownloadOnlyByOwner(db: Db, bookingId: string, caller: Id, k: nat)
    requires KeysUnique(db.bookings)
    requires k < |db.bookings| && db.bookings[k].bookingId == bookingId
    requires DownloadTicket(db, bookingId, caller).Ok?
    ensures db.bookings[k].userId == caller
  {
    var i :| 0 <= i < |db.bookings| && db.bookings[i].bookingId == bookingId && db.bookings[i].userId == caller;
    assert i == k;
  }
}

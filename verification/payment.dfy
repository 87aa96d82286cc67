/** Payment confirmation, `verifyPayment` of
    backend/controllers/paymentController.js: a signature gate, then one
    all-or-nothing step that moves the booked units of every line from the
    event's remaining stock (`quantity`) to its `sold` count, adds them to
    the event's attendees and stamps the booking with the payment. The
    keyed hash (HMAC with SHA-256, section 2 of RFC 2104) is a parameter. */
module Payment {
  import opened Wrappers
  import opened Tickets
  import opened Bookings
  import Events
  import Text

  /** The text the gateway signs: the order id, `|`, the payment id. */
  function SignedPayload(orderId: string, paymentId: string): string {
    orderId + "|" + paymentId
  }

  /** When neither id holds a `|`, the signed text determines both ids. */
  lemma SignedPayloadSplits(orderId: string, paymentId: string)
    requires '|' !in orderId && '|' !in paymentId
    ensures Text.Split(SignedPayload(orderId, paymentId), '|') == [orderId, paymentId]
  {
    var parts := [orderId, paymentId];
    assert Text.Join(parts[1..], '|') == paymentId;
    assert Text.Join(parts, '|') == SignedPayload(orderId, paymentId);
    Text.SplitJoin(parts, '|');
  }

  /** Units booked against catalogue entry `i`: the lines of its type, when
      it is the entry a lookup by that type finds. */
  function Taken(stock: seq<TicketLine>, lines: seq<TicketLine>, i: nat): nat
    requires i < |stock|
  {
    if IsFirstOfType(stock, i) then Demand(lines, stock[i].typeName) else 0
  }

  /** Every booked type is on sale, and no entry is asked for more units
      than it has left. */
  predicate Feasible(stock: seq<TicketLine>, lines: seq<TicketLine>) {
    AllOnSale(stock, lines) && WithinStock(stock, lines)
  }

  /** Every booked type is in the catalogue. */
  predicate AllOnSale(stock: seq<TicketLine>, lines: seq<TicketLine>) {
    forall k :: 0 <= k < |lines| ==> FindType(stock, lines[k].typeName).Some?
  }

  /** No entry is asked for more units than it has left. */
  predicate WithinStock(stock: seq<TicketLine>, lines: seq<TicketLine>) {
    forall i :: 0 <= i < |stock| ==> Taken(stock, lines, i) <= stock[i].quantity
  }

  /** The entry `j` after booking `q` more of its units. */
  function Move(t: TicketLine, q: nat): (r: TicketLine)
    requires q <= t.quantity
    ensures r.quantity + q == t.quantity && r.sold == t.sold + q
    ensures r.typeName == t.typeName && r.price == t.price
  {
    t.(quantity := t.quantity - q, sold := t.sold + q)
  }

  /** The loop over the booked lines, in order: each line is matched to the
      first entry of its type, whatever its price, refused when that entry
      has fewer units left than the line asks for, and otherwise moves its
      units from `quantity` to `sold`. The answer carries the new catalogue
      and the number of attendees to add. */
  function ApplyLines(stock: seq<TicketLine>, lines: seq<TicketLine>): (r: Result<(seq<TicketLine>, nat), HttpError>)
    ensures r.Ok? ==> SameTypes(stock, r.value.0)
    ensures r.Ok? ==> r.value.1 == SumQuantity(lines)
    ensures r.Err? ==> r.error.status == 400
    decreases |lines|
  {
    if |lines| == 0 then Ok((stock, 0))
    else
      var l := lines[0];
      match FindType(stock, l.typeName)
      case None => Err(HttpError(400, "Ticket type not found on event"))
      case Some(j) =>
        if stock[j].quantity < l.quantity then Err(HttpError(400, "Not enough tickets available"))
        else
          Extend(ApplyLines(stock[j := Move(stock[j], l.quantity)], lines[1..]), l.quantity)
  }

  /** The rest of the loop's outcome, with `q` more attendees on success. */
  function Extend(rest: Result<(seq<TicketLine>, nat), HttpError>, q: nat): Result<(seq<TicketLine>, nat), HttpError> {
    match rest
    case Err(e) => Err(e)
    case Ok((final, added)) => Ok((final, added + q))
  }

  /** Type lookup, and so `Taken`, reads only the type names. */
  lemma TakenSameTypes(a: seq<TicketLine>, b: seq<TicketLine>, lines: seq<TicketLine>, i: nat)
    requires SameTypes(a, b) && i < |a|
    ensures IsFirstOfType(a, i) <==> IsFirstOfType(b, i)
    ensures Taken(a, lines, i) == Taken(b, lines, i)
  {
    FindTypeSameTypes(a, b, a[i].typeName);
  }

  /** Booking the first line against entry `j` accounts for the first line
      in the `Taken` of every entry. */
  lemma TakenStep(stock: seq<TicketLine>, lines: seq<TicketLine>, j: nat, i: nat)
    requires |lines| > 0 && i < |stock|
    requires FindType(stock, lines[0].typeName) == Some(j)
    ensures Taken(stock, lines, i) == Taken(stock, lines[1..], i) + (if i == j then lines[0].quantity else 0)
  {
    if IsFirstOfType(stock, i) && i != j {
      assert stock[i].typeName != lines[0].typeName;
    }
  }

  /** The catalogue after a successful loop: every entry has given up
      exactly the units booked against it, from `quantity` to `sold`, and
      keeps its type and price. */
  lemma {:induction false} ApplyLinesEffect(stock: seq<TicketLine>, lines: seq<TicketLine>)
    requires ApplyLines(stock, lines).Ok?
    ensures var final := ApplyLines(stock, lines).value.0;
      forall i :: 0 <= i < |stock| ==>
        final[i].quantity + Taken(stock, lines, i) == stock[i].quantity
        && final[i].sold == stock[i].sold + Taken(stock, lines, i)
        && final[i].price == stock[i].price
    decreases |lines|
  {
    if |lines| > 0 {
      var j := FindType(stock, lines[0].typeName).value;
      var next := stock[j := Move(stock[j], lines[0].quantity)];
      ApplyLinesEffect(next, lines[1..]);
      EffectStep(stock, lines, j, ApplyLines(next, lines[1..]).value.0);
    }
  }

  /** If the rest of the loop moved `Taken(next, rest, i)` units of every
      entry of the catalogue after the first line, then the whole loop moved
      `Taken(stock, lines, i)` of every entry of the original one. */
  lemma EffectStep(stock: seq<TicketLine>, lines: seq<TicketLine>, j: nat, final: seq<TicketLine>)
    requires |lines| > 0 && FindType(stock, lines[0].typeName) == Some(j)
    requires stock[j].quantity >= lines[0].quantity
    requires var next := stock[j := Move(stock[j], lines[0].quantity)];
      |final| == |next| && forall i :: 0 <= i < |next| ==>
        final[i].quantity + Taken(next, lines[1..], i) == next[i].quantity
        && final[i].sold == next[i].sold + Taken(next, lines[1..], i)
        && final[i].price == next[i].price
    ensures forall i :: 0 <= i < |stock| ==>
      final[i].quantity + Taken(stock, lines, i) == stock[i].quantity
      && final[i].sold == stock[i].sold + Taken(stock, lines, i)
      && final[i].price == stock[i].price
  {
    var next := stock[j := Move(stock[j], lines[0].quantity)];
    assert SameTypes(stock, next);
    forall i | 0 <= i < |stock|
      ensures final[i].quantity + Taken(stock, lines, i) == stock[i].quantity
      ensures final[i].sold == stock[i].sold + Taken(stock, lines, i)
      ensures final[i].price == stock[i].price
    {
      TakenSameTypes(stock, next, lines[1..], i);
      TakenStep(stock, lines, j, i);
      if i == j {
        assert next[i].quantity + lines[0].quantity == stock[i].quantity;
      } else {
        assert next[i] == stock[i];
      }
    }
  }


  /** The loop succeeds exactly when the booking is feasible against the
      catalogue it starts from: checking line by line against the shrinking
      stock refuses what checking the totals refuses. */
  lemma {:induction false} ApplyLinesOkIff(stock: seq<TicketLine>, lines: seq<TicketLine>)
    ensures ApplyLines(stock, lines).Ok? <==> Feasible(stock, lines)
    decreases |lines|
  {
    if |lines| == 0 {
      forall i | 0 <= i < |stock| ensures Taken(stock, lines, i) == 0 {
      }
    } else {
      var l := lines[0];
      match FindType(stock, l.typeName)
      case None =>
        assert FindType(stock, lines[0].typeName).None?;
      case Some(j) =>
        assert IsFirstOfType(stock, j);
        TakenStep(stock, lines, j, j);
        if stock[j].quantity >= l.quantity {
          ApplyLinesOkIff(stock[j := Move(stock[j], l.quantity)], lines[1..]);
          FeasibleStep(stock, lines, j);
        }
    }
  }

  /** Booking the first line against its entry leaves a catalogue on which
      the remaining lines are feasible exactly when all lines were feasible
      on the original one. */
  lemma FeasibleStep(stock: seq<TicketLine>, lines: seq<TicketLine>, j: nat)
    requires |lines| > 0 && FindType(stock, lines[0].typeName) == Some(j)
    requires stock[j].quantity >= lines[0].quantity
    ensures Feasible(stock, lines) <==> Feasible(stock[j := Move(stock[j], lines[0].quantity)], lines[1..])
  {
    WithinStockStep(stock, lines, j);
    AllOnSaleStep(stock, lines, j);
  }

  lemma WithinStockStep(stock: seq<TicketLine>, lines: seq<TicketLine>, j: nat)
    requires |lines| > 0 && FindType(stock, lines[0].typeName) == Some(j)
    requires stock[j].quantity >= lines[0].quantity
    ensures WithinStock(stock, lines) <==> WithinStock(stock[j := Move(stock[j], lines[0].quantity)], lines[1..])
  {
    var next := stock[j := Move(stock[j], lines[0].quantity)];
    if WithinStock(stock, lines) {
      forall i | 0 <= i < |next| ensures Taken(next, lines[1..], i) <= next[i].quantity {
        EntryStep(stock, lines, j, i);
      }
    }
    if WithinStock(next, lines[1..]) {
      forall i | 0 <= i < |stock| ensures Taken(stock, lines, i) <= stock[i].quantity {
        EntryStep(stock, lines, j, i);
      }
    }
  }

  /** One entry's stock check before and after booking the first line. */
  lemma EntryStep(stock: seq<TicketLine>, lines: seq<TicketLine>, j: nat, i: nat)
    requires |lines| > 0 && FindType(stock, lines[0].typeName) == Some(j)
    requires stock[j].quantity >= lines[0].quantity && i < |stock|
    ensures var next := stock[j := Move(stock[j], lines[0].quantity)];
      Taken(stock, lines, i) <= stock[i].quantity <==> Taken(next, lines[1..], i) <= next[i].quantity
  {
    var next := stock[j := Move(stock[j], lines[0].quantity)];
    assert SameTypes(stock, next);
    TakenSameTypes(stock, next, lines[1..], i);
    TakenStep(stock, lines, j, i);
  }

  lemma AllOnSaleStep(stock: seq<TicketLine>, lines: seq<TicketLine>, j: nat)
    requires |lines| > 0 && FindType(stock, lines[0].typeName) == Some(j)
    requires stock[j].quantity >= lines[0].quantity
    ensures AllOnSale(stock, lines) <==> AllOnSale(stock[j := Move(stock[j], lines[0].quantity)], lines[1..])
  {
    var next := stock[j := Move(stock[j], lines[0].quantity)];
    assert SameTypes(stock, next);
    forall k | 0 <= k < |lines[1..]|
      ensures FindType(next, lines[1..][k].typeName) == FindType(stock, lines[k + 1].typeName)
    {
      FindTypeSameTypes(stock, next, lines[k + 1].typeName);
    }
    if AllOnSale(next, lines[1..]) {
      forall k | 0 <= k < |lines| ensures FindType(stock, lines[k].typeName).Some? {
        if k > 0 {
          assert lines[1..][k - 1] == lines[k];
        }
      }
    }
  }


  /** The loop reads only the type and quantity of a booked line: the price
      the buyer saw plays no part. */
  lemma {:induction false} ApplyLinesIgnoresPrice(stock: seq<TicketLine>, lines: seq<TicketLine>, repriced: seq<TicketLine>)
    requires |lines| == |repriced|
    requires forall k :: 0 <= k < |lines| ==>
      lines[k].typeName == repriced[k].typeName && lines[k].quantity == repriced[k].quantity
    ensures ApplyLines(stock, lines) == ApplyLines(stock, repriced)
    decreases |lines|
  {
    if |lines| > 0 {
      assert repriced[0].typeName == lines[0].typeName && repriced[0].quantity == lines[0].quantity;
      match FindType(stock, lines[0].typeName)
      case None =>
      case Some(j) =>
        if stock[j].quantity >= lines[0].quantity {
          ApplyLinesIgnoresPrice(stock[j := Move(stock[j], lines[0].quantity)], lines[1..], repriced[1..]);
        }
    }
  }

  /** The body of a `verifyPayment` request. */
  datatype VerifyRequest = VerifyRequest(bookingId: Id, orderId: string, paymentId: string, signature: string)

  /** The store after the request, and the answer. */
  datatype Outcome = Outcome(db: Db, reply: Result<Booking, HttpError>)

  /** The booking stamped with the payment. */
  function Stamp(b: Booking, req: VerifyRequest): (r: Booking)
    ensures r.status == Confirmed
    ensures r.paymentId == Some(req.paymentId) && r.signature == Some(req.signature)
    ensures r.razorpayOrderId == Some(req.orderId)
    ensures r.(status := b.status, paymentId := b.paymentId, signature := b.signature, razorpayOrderId := b.razorpayOrderId) == b
  {
    b.(status := Confirmed, paymentId := Some(req.paymentId), signature := Some(req.signature), razorpayOrderId := Some(req.orderId))
  }

  /** The signature in the request is the keyed hash of the signed text. */
  predicate SignatureValid(req: VerifyRequest, hmac: (string, string) -> string, secret: string) {
    hmac(secret, SignedPayload(req.orderId, req.paymentId)) == req.signature
  }

  /** Some booking other than the one at `k` already carries this order id,
      so saving the stamped booking breaks the unique index. */
  predicate OrderIdTaken(bookings: seq<Booking>, k: nat, orderId: string) {
    exists i :: 0 <= i < |bookings| && i != k && bookings[i].razorpayOrderId == Some(orderId)
  }

  /** `verifyPayment`. `hmac(key, text)` is the keyed hash and `secret` the
      gateway secret. Checks in order: signature (400), booking (404),
      already confirmed (success, nothing changes), event (404), the line
      loop (400), the unique order id on save (500, through the error
      handler). Every failure leaves the store as it was. */
  function VerifyPayment(db: Db, req: VerifyRequest, hmac: (string, string) -> string, secret: string): (r: Outcome)
    ensures r.reply.Err? ==> r.db == db
    ensures !SignatureValid(req, hmac, secret) ==> r == Outcome(db, Err(HttpError(400, "Payment verification failed")))
    ensures SignatureValid(req, hmac, secret) && FindBooking(db.bookings, req.bookingId).None? ==>
      r == Outcome(db, Err(HttpError(404, "Booking not found")))
    ensures SignatureValid(req, hmac, secret) && FindBooking(db.bookings, req.bookingId).Some?
            && db.bookings[FindBooking(db.bookings, req.bookingId).value].status == Confirmed ==>
      r == Outcome(db, Ok(db.bookings[FindBooking(db.bookings, req.bookingId).value]))
    ensures SignatureValid(req, hmac, secret) && FindBooking(db.bookings, req.bookingId).Some?
            && db.bookings[FindBooking(db.bookings, req.bookingId).value].status != Confirmed
            && FindEvent(db.events, db.bookings[FindBooking(db.bookings, req.bookingId).value].eventId).None? ==>
      r == Outcome(db, Err(HttpError(404, "Event not found")))
    ensures r.reply.Ok? ==> SignatureValid(req, hmac, secret) && r.reply.value.status == Confirmed
    ensures r.reply.Err? ==> r.reply.error.status in {400, 404, 500}
  {
    if !SignatureValid(req, hmac, secret) then Outcome(db, Err(HttpError(400, "Payment verification failed")))
    else
      match FindBooking(db.bookings, req.bookingId)
      case None => Outcome(db, Err(HttpError(404, "Booking not found")))
      case Some(k) =>
        var b := db.bookings[k];
        if b.status == Confirmed then Outcome(db, Ok(b))
        else
          match FindEvent(db.events, b.eventId)
          case None => Outcome(db, Err(HttpError(404, "Event not found")))
          case Some(e) =>
            var ev := db.events[e];
            match ApplyLines(ev.tickets, b.tickets)
            case Err(err) => Outcome(db, Err(err))
            case Ok((stock, added)) =>
              if OrderIdTaken(db.bookings, k, req.orderId) then Outcome(db, Err(HttpError(500, "Duplicate key")))
              else
                var b' := Stamp(b, req);
                Outcome(Db(db.bookings[k := b'], db.events[e := ev.(tickets := stock, attendees := ev.attendees + added)]),
                        Ok(b'))
  }

  /** A first confirmation succeeds exactly when the signature is valid,
      the booking and its event exist, the booked lines are feasible
      against the event's stock and the order id is free. */
  lemma VerifyPaymentSucceedsIff(db: Db, req: VerifyRequest, hmac: (string, string) -> string, secret: string, k: nat, e: nat)
    requires FindBooking(db.bookings, req.bookingId) == Some(k)
    requires db.bookings[k].status != Confirmed
    requires FindEvent(db.events, db.bookings[k].eventId) == Some(e)
    ensures VerifyPayment(db, req, hmac, secret).reply.Ok? <==>
      SignatureValid(req, hmac, secret) && Feasible(db.events[e].tickets, db.bookings[k].tickets)
      && !OrderIdTaken(db.bookings, k, req.orderId)
  {
    ApplyLinesOkIff(db.events[e].tickets, db.bookings[k].tickets);
  }

  /** What a successful first confirmation writes: the booking is stamped,
      the event's entries give up exactly the booked units from `quantity`
      to `sold` (so `quantity + sold` is kept per entry), attendees grow by
      the number of booked units, and no other record changes. */
  lemma VerifyPaymentEffect(db: Db, req: VerifyRequest, hmac: (string, string) -> string, secret: string, k: nat, e: nat)
    requires FindBooking(db.bookings, req.bookingId) == Some(k)
    requires db.bookings[k].status != Confirmed
    requires FindEvent(db.events, db.bookings[k].eventId) == Some(e)
    requires VerifyPayment(db, req, hmac, secret).reply.Ok?
    ensures var r := VerifyPayment(db, req, hmac, secret); var b := db.bookings[k]; var ev := db.events[e];
      var ev' := r.db.events[e];
      r.db.bookings == db.bookings[k := Stamp(b, req)]
      && r.reply == Ok(Stamp(b, req))
      && |r.db.events| == |db.events|
      && (forall x :: 0 <= x < |db.events| && x != e ==> r.db.events[x] == db.events[x])
      && ev' == ev.(tickets := ev'.tickets, attendees := ev'.attendees)
      && ev'.attendees == ev.attendees + SumQuantity(b.tickets)
      && SameTypes(ev.tickets, ev'.tickets)
      && forall i :: 0 <= i < |ev.tickets| ==>
           ev'.tickets[i].quantity + Taken(ev.tickets, b.tickets, i) == ev.tickets[i].quantity
           && ev'.tickets[i].sold == ev.tickets[i].sold + Taken(ev.tickets, b.tickets, i)
           && ev'.tickets[i].quantity + ev'.tickets[i].sold == ev.tickets[i].quantity + ev.tickets[i].sold
           && ev'.tickets[i].price == ev.tickets[i].price
  {
    ApplyLinesEffect(db.events[e].tickets, db.bookings[k].tickets);
  }

  /** Updating a booking without changing its store id does not move any lookup. */
  lemma FindBookingAfterUpdate(bookings: seq<Booking>, k: nat, b: Booking, id: Id)
    requires k < |bookings| && b.id == bookings[k].id
    ensures FindBooking(bookings[k := b], id) == FindBooking(bookings, id)
  {
    var after := bookings[k := b];
    assert forall i :: 0 <= i < |after| ==> after[i].id == bookings[i].id;
    match FindBooking(bookings, id)
    case None =>
    case Some(x) =>
      assert forall i :: 0 <= i < x ==> after[i].id != id;
  }

  /** Confirming again is a success that changes nothing and answers with
      the booking as the first confirmation left it. */
  lemma VerifyPaymentIdempotent(db: Db, req: VerifyRequest, hmac: (string, string) -> string, secret: string)
    requires VerifyPayment(db, req, hmac, secret).reply.Ok?
    ensures var r := VerifyPayment(db, req, hmac, secret);
      VerifyPayment(r.db, req, hmac, secret) == r
  {
    var r := VerifyPayment(db, req, hmac, secret);
    var k := FindBooking(db.bookings, req.bookingId).value;
    if db.bookings[k].status != Confirmed {
      var e := FindEvent(db.events, db.bookings[k].eventId).value;
      VerifyPaymentEffect(db, req, hmac, secret, k, e);
      FindBookingAfterUpdate(db.bookings, k, Stamp(db.bookings[k], req), req.bookingId);
    }
  }

  /** A confirmation keeps the unique indexes unique. */
  lemma VerifyPaymentKeepsKeysUnique(db: Db, req: VerifyRequest, hmac: (string, string) -> string, secret: string)
    requires KeysUnique(db.bookings)
    ensures KeysUnique(VerifyPayment(db, req, hmac, secret).db.bookings)
  {
    var r := VerifyPayment(db, req, hmac, secret);
    if r.db != db {
      var k := FindBooking(db.bookings, req.bookingId).value;
      var e := FindEvent(db.events, db.bookings[k].eventId).value;
      VerifyPaymentEffect(db, req, hmac, secret, k, e);
      assert !OrderIdTaken(db.bookings, k, req.orderId);
      var after := r.db.bookings;
      forall i, j | 0 <= i < j < |after|
        ensures after[i].id != after[j].id
        ensures after[i].bookingId != after[j].bookingId
        ensures after[i].razorpayOrderId.Some? ==> after[i].razorpayOrderId != after[j].razorpayOrderId
      {
        if i == k {
          assert after[j] == db.bookings[j];
        } else if j == k {
          assert after[i] == db.bookings[i];
        } else {
          assert after[i] == db.bookings[i] && after[j] == db.bookings[j];
        }
      }
    }
  }

  /** Stock never goes negative and never grows through a confirmation:
      each entry's remaining quantity after is at most the one before. */
  lemma VerifyPaymentOnlyShrinksStock(db: Db, req: VerifyRequest, hmac: (string, string) -> string, secret: string, x: nat, i: nat)
    requires x < |db.events| && i < |db.events[x].tickets|
    ensures var after := VerifyPayment(db, req, hmac, secret).db.events;
      |after| == |db.events| && |after[x].tickets| == |db.events[x].tickets|
      && after[x].tickets[i].quantity <= db.events[x].tickets[i].quantity
      && after[x].tickets[i].quantity + after[x].tickets[i].sold == db.events[x].tickets[i].quantity + db.events[x].tickets[i].sold
  {
    var r := VerifyPayment(db, req, hmac, secret);
    if r.db != db {
      var k := FindBooking(db.bookings, req.bookingId).value;
      var e := FindEvent(db.events, db.bookings[k].eventId).value;
      VerifyPaymentEffect(db, req, hmac, secret, k, e);
    }
  }
}

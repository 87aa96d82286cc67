/** The ticket picker of the event page, Code/frontend/src/pages/EventDetail.jsx:
    the availability it shows per ticket type, the units already picked,
    when the +/- buttons are enabled, and where checkout leads.

    The page computes availability as stock minus units sold. The backend's
    confirmation (`Payment.ApplyLines`) already takes confirmed units off
    `quantity`, so the page counts every sale twice: after 60 of 100 units
    are sold the page shows -20 available and disables "+", while the
    backend would still confirm the remaining 40. `AvailableAsWritten` is
    the page's count; `Available` is the count the backend enforces. */
module EventDetail {
  import opened Wrappers
  import Tickets
  import Cart
  import Payment

  /** `getAvailableTickets` as written: `(quantity || available || 0) - (sold || 0)`.
      Tickets from the API carry no `available` field; `shown` stands for it. */
  function AvailableAsWritten(t: Tickets.TicketLine, shown: Option<int>): (r: int)
    ensures t.quantity != 0 ==> r == t.quantity - t.sold
    ensures t.quantity == 0 && (shown.None? || shown.value == 0) ==> r + t.sold == 0
  {
    var stock := if t.quantity != 0 then t.quantity
                 else if shown.Some? && shown.value != 0 then shown.value
                 else 0;
    stock - t.sold
  }

  /** The count the backend enforces: `quantity` is what is left for sale. */
  function Available(t: Tickets.TicketLine): (r: nat)
    ensures r == t.quantity
    ensures forall q: nat :: q <= r ==> Payment.Move(t, q).quantity == r - q
  {
    t.quantity
  }

  /** `getSelectedQuantity`: the units picked of a type, 0 when none. */
  function Selected(lines: seq<Cart.CartLine>, typeName: string): (r: nat)
    ensures Cart.FindLine(lines, typeName).None? ==> r == 0
    ensures Cart.FindLine(lines, typeName).Some? ==> r == lines[Cart.FindLine(lines, typeName).value].quantity
  {
    match Cart.FindLine(lines, typeName)
    case None => 0
    case Some(k) => lines[k].quantity
  }

  /** "-" is enabled once something of the type is picked. */
  predicate MinusEnabled(lines: seq<Cart.CartLine>, typeName: string) {
    Selected(lines, typeName) != 0
  }

  /** "+" is enabled while fewer units are picked than `available`. */
  predicate PlusEnabled(lines: seq<Cart.CartLine>, typeName: string, available: int) {
    Selected(lines, typeName) < available
  }

  /** What "+" dispatches: the ticket with the count shown. */
  function OfferOf(t: Tickets.TicketLine, available: int): (r: Cart.Offer)
    ensures r.typeName == t.typeName && r.price == t.price && r.available == available
  {
    Cart.Offer(t.typeName, t.price, t.quantity, t.sold, available)
  }

  /** Each "+" adds exactly one unit of its type. */
  lemma PlusAddsOne(c: Cart.Cart, t: Tickets.TicketLine, available: int)
    ensures Selected(Cart.AddTicket(c, OfferOf(t, available)).lines, t.typeName) == Selected(c.lines, t.typeName) + 1
  {
    var added := Cart.AddTicket(c, OfferOf(t, available)).lines;
    match Cart.FindLine(c.lines, t.typeName)
    case Some(k) =>
      assert forall i :: 0 <= i < |added| ==> added[i].typeName == c.lines[i].typeName;
      assert Cart.FindLine(added, t.typeName) == Some(k);
    case None =>
      var n := |c.lines|;
      assert forall i :: 0 <= i < n ==> added[i] == c.lines[i];
      assert added[n].typeName == t.typeName;
      assert Cart.FindLine(added, t.typeName) == Some(n);
  }

  /** The buttons never pick more than the count they are given: an enabled
      "+" leaves the picked units at most `available`. */
  lemma PlusStaysWithin(c: Cart.Cart, t: Tickets.TicketLine, available: int)
    requires PlusEnabled(c.lines, t.typeName, available)
    ensures Selected(Cart.AddTicket(c, OfferOf(t, available)).lines, t.typeName) <= available
  {
    PlusAddsOne(c, t, available);
  }

  /** With the backend's count, whatever the buttons allow to be picked of
      a type, the confirmation can take from the stock. */
  lemma PickedFitsStock(c: Cart.Cart, t: Tickets.TicketLine)
    requires PlusEnabled(c.lines, t.typeName, Available(t))
    ensures Selected(Cart.AddTicket(c, OfferOf(t, Available(t))).lines, t.typeName) <= t.quantity
  {
    PlusStaysWithin(c, t, Available(t));
  }

  /** The page's count drops by twice the units confirmed. */
  lemma AsWrittenCountsSalesTwice(t: Tickets.TicketLine, q: nat)
    requires q < t.quantity
    ensures AvailableAsWritten(Payment.Move(t, q), None) == AvailableAsWritten(t, None) - 2 * q
    ensures Available(Payment.Move(t, q)) == Available(t) - q
  {
  }

  /** The discrepancy on one input: 40 units left after 60 sales. The page
      disables "+" on an empty cart, though the backend confirms all 40. */
  lemma AsWrittenBlocksRemainingStock()
    ensures var t := Tickets.TicketLine("General Admission", 500, 40, 60);
      AvailableAsWritten(t, None) == -20
      && !PlusEnabled([], t.typeName, AvailableAsWritten(t, None))
      && PlusEnabled([], t.typeName, Available(t))
      && Payment.ApplyLines([t], [Tickets.TicketLine("General Admission", 500, 40, 0)]).Ok?
  {
    var t := Tickets.TicketLine("General Admission", 500, 40, 60);
    var line := Tickets.TicketLine("General Admission", 500, 40, 0);
    Payment.ApplyLinesOkIff([t], [line]);
    assert Payment.Feasible([t], [line]) by {
      assert Payment.Taken([t], [line], 0) == 40 by {
        assert Tickets.IsFirstOfType([t], 0);
        assert Tickets.Demand([line], t.typeName) == 40 by {
          assert [line][1..] == [];
        }
      }
    }
  }

  /** Where "Proceed to Checkout" leads: checkout when signed in, else login. */
  function CheckoutLink(signedIn: bool, eventId: string): (r: string)
    ensures signedIn ==> r == "/checkout/" + eventId
    ensures !signedIn ==> r == "/login"
  {
    if signedIn then "/checkout/" + eventId else "/login"
  }
}

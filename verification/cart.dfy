/** The ticket cart, frontend/src/store/slices/bookingSlice.js: the lines a
    buyer has picked on an event page and their running total. */
module Cart {
  import Tickets
  import Seqs
  import Bookings
  import opened Wrappers

  /** A cart line: the event's ticket as shown, with `quantity` replaced by
      the number of units picked and the `available` count the page
      computed when it was first added. */
  datatype CartLine = CartLine(typeName: string, price: nat, quantity: nat, sold: nat, available: int)

  /** What the page dispatches to add a unit: the event's ticket (whose
      `quantity` is its stock) with its `available` count. */
  datatype Offer = Offer(typeName: string, price: nat, stock: nat, sold: nat, available: int)

  datatype Cart = Cart(lines: seq<CartLine>, totalAmount: nat, currentBooking: Option<Bookings.Booking>)

  const Empty: Cart := Cart([], 0, None)

  /** Sum of `price * quantity` over the lines. */
  function Total(lines: seq<CartLine>): nat
    decreases |lines|
  {
    if |lines| == 0 then 0 else lines[0].price * lines[0].quantity + Total(lines[1..])
  }

  lemma {:induction false} TotalAppend(a: seq<CartLine>, b: seq<CartLine>)
    ensures Total(a + b) == Total(a) + Total(b)
    decreases |a|
  {
    if |a| == 0 {
      assert a + b == b;
    } else {
      TotalAppend(a[1..], b);
      assert (a + b)[1..] == a[1..] + b;
    }
  }

  /** Changing one line's quantity moves the total by its price times the change. */
  lemma {:induction false} TotalUpdate(lines: seq<CartLine>, k: nat, q: nat)
    requires k < |lines|
    ensures Total(lines[k := lines[k].(quantity := q)]) + lines[k].price * lines[k].quantity
            == Total(lines) + lines[k].price * q
    decreases |lines|
  {
    if k > 0 {
      TotalUpdate(lines[1..], k - 1, q);
      assert lines[k := lines[k].(quantity := q)][1..] == lines[1..][k - 1 := lines[k].(quantity := q)];
    }
  }

  /** Removing one line takes its amount off the total. */
  lemma TotalRemove(lines: seq<CartLine>, k: nat)
    requires k < |lines|
    ensures Total(lines[..k] + lines[k + 1..]) + lines[k].price * lines[k].quantity == Total(lines)
  {
    TotalAppend(lines[..k], lines[k + 1..]);
    TotalAppend(lines[..k], lines[k..]);
    assert lines == lines[..k] + lines[k..];
    assert lines[k..][1..] == lines[k + 1..];
  }

  /** The first line of a type. */
  function FindLine(lines: seq<CartLine>, typeName: string): (r: Option<nat>)
    ensures r.None? <==> forall i :: 0 <= i < |lines| ==> lines[i].typeName != typeName
    ensures r.Some? ==> r.value < |lines| && lines[r.value].typeName == typeName
    ensures r.Some? ==> forall i :: 0 <= i < r.value ==> lines[i].typeName != typeName
  {
    Seqs.FirstIndex(lines, (l: CartLine) => l.typeName == typeName)
  }


  /** The cart's invariant: one line per type, every line at least one
      unit, and the total equal to what the lines cost. */
  predicate Valid(c: Cart) {
    DistinctTypes(c.lines) && Positive(c.lines) && c.totalAmount == Total(c.lines)
  }

  /** One line per type. */
  predicate DistinctTypes(lines: seq<CartLine>) {
    forall i, j :: 0 <= i < j < |lines| ==> lines[i].typeName != lines[j].typeName
  }

  /** Every line holds at least one unit. */
  predicate Positive(lines: seq<CartLine>) {
    forall i :: 0 <= i < |lines| ==> lines[i].quantity >= 1
  }

  /** `addTicket`: one more unit of an existing line of the type, or a new
      line of one unit at the end; then the total is recomputed. */
  function AddTicket(c: Cart, t: Offer): (r: Cart)
    ensures r.totalAmount == Total(r.lines)
    ensures r.currentBooking == c.currentBooking
    ensures FindLine(c.lines, t.typeName).Some? ==> var k := FindLine(c.lines, t.typeName).value;
      r.lines == c.lines[k := c.lines[k].(quantity := c.lines[k].quantity + 1)]
    ensures FindLine(c.lines, t.typeName).None? ==>
      r.lines == c.lines + [CartLine(t.typeName, t.price, 1, t.sold, t.available)]
  {
    var lines := match FindLine(c.lines, t.typeName)
      case Some(k) => c.lines[k := c.lines[k].(quantity := c.lines[k].quantity + 1)]
      case None => c.lines + [CartLine(t.typeName, t.price, 1, t.sold, t.available)];
    Cart(lines, Total(lines), c.currentBooking)
  }

  /** `removeTicket`: one unit fewer of the first line of the type, dropping
      the line at its last unit; nothing happens for a type not in the cart. */
  function RemoveTicket(c: Cart, typeName: string): (r: Cart)
    ensures r.totalAmount == Total(r.lines)
    ensures r.currentBooking == c.currentBooking
    ensures FindLine(c.lines, typeName).None? ==> r.lines == c.lines
    ensures FindLine(c.lines, typeName).Some? ==> var k := FindLine(c.lines, typeName).value;
      if c.lines[k].quantity > 1 then r.lines == c.lines[k := c.lines[k].(quantity := c.lines[k].quantity - 1)]
      else r.lines == c.lines[..k] + c.lines[k + 1..]
  {
    var lines := match FindLine(c.lines, typeName)
      case None => c.lines
      case Some(k) =>
        if c.lines[k].quantity > 1 then c.lines[k := c.lines[k].(quantity := c.lines[k].quantity - 1)]
        else c.lines[..k] + c.lines[k + 1..];
    Cart(lines, Total(lines), c.currentBooking)
  }

  /** `clearBooking`. */
  function ClearBooking(c: Cart): (r: Cart)
    ensures r.lines == [] && r.totalAmount == 0 && r.currentBooking.None?
    ensures Valid(r)
  {
    Empty
  }

  /** Adding keeps the invariant, and grows the total by the unit price of the line. */
  lemma AddTicketValid(c: Cart, t: Offer)
    requires Valid(c)
    ensures Valid(AddTicket(c, t))
    ensures FindLine(c.lines, t.typeName).None? ==> AddTicket(c, t).totalAmount == c.totalAmount + t.price
    ensures FindLine(c.lines, t.typeName).Some? ==>
      AddTicket(c, t).totalAmount == c.totalAmount + c.lines[FindLine(c.lines, t.typeName).value].price
  {
    match FindLine(c.lines, t.typeName)
    case Some(k) =>
      AddExistingValid(c, k);
    case None =>
      AddNewValid(c, CartLine(t.typeName, t.price, 1, t.sold, t.available));
  }

  /** One more unit of line `k` keeps the invariant and adds its price. */
  lemma AddExistingValid(c: Cart, k: nat)
    requires Valid(c) && k < |c.lines|
    ensures var lines := c.lines[k := c.lines[k].(quantity := c.lines[k].quantity + 1)];
      Valid(Cart(lines, Total(lines), c.currentBooking)) && Total(lines) == c.totalAmount + c.lines[k].price
  {
    var line := c.lines[k];
    var lines := c.lines[k := line.(quantity := line.quantity + 1)];
    TotalUpdate(c.lines, k, line.quantity + 1);
    assert line.price * (line.quantity + 1) == line.price * line.quantity + line.price;
    assert DistinctTypes(lines) by {
      assert forall i :: 0 <= i < |lines| ==> lines[i].typeName == c.lines[i].typeName;
    }
    assert Positive(lines) by {
      assert forall i :: 0 <= i < |lines| ==> lines[i].quantity >= c.lines[i].quantity;
    }
  }

  /** A new line of one unit, of a type not in the cart, keeps the invariant
      and adds its price. */
  lemma AddNewValid(c: Cart, line: CartLine)
    requires Valid(c) && line.quantity == 1
    requires forall i :: 0 <= i < |c.lines| ==> c.lines[i].typeName != line.typeName
    ensures var lines := c.lines + [line];
      Valid(Cart(lines, Total(lines), c.currentBooking)) && Total(lines) == c.totalAmount + line.price
  {
    var lines := c.lines + [line];
    TotalAppend(c.lines, [line]);
    assert Total([line]) == line.price by {
      assert [line][1..] == [];
    }
    assert forall i :: 0 <= i < |c.lines| ==> lines[i] == c.lines[i];
  }

  /** Removing keeps the invariant. */
  lemma RemoveTicketValid(c: Cart, typeName: string)
    requires Valid(c)
    ensures Valid(RemoveTicket(c, typeName))
  {
    match FindLine(c.lines, typeName)
    case None =>
    case Some(k) =>
      var line := c.lines[k];
      if line.quantity > 1 {
        var lines := c.lines[k := line.(quantity := line.quantity - 1)];
        assert DistinctTypes(lines) by {
          assert forall i :: 0 <= i < |lines| ==> lines[i].typeName == c.lines[i].typeName;
        }
        assert Positive(lines);
      } else {
        DropLineValid(c.lines, k);
      }
  }

  /** Dropping one line keeps one line per type and every line positive. */
  lemma DropLineValid(lines: seq<CartLine>, k: nat)
    requires DistinctTypes(lines) && Positive(lines) && k < |lines|
    ensures DistinctTypes(lines[..k] + lines[k + 1..]) && Positive(lines[..k] + lines[k + 1..])
  {
    var r := lines[..k] + lines[k + 1..];
    assert forall i :: 0 <= i < |r| ==> r[i] == (if i < k then lines[i] else lines[i + 1]);
  }

  /** Removing a unit of a type in the cart takes its unit price off the total. */
  lemma RemoveTicketTotal(c: Cart, typeName: string)
    requires c.totalAmount == Total(c.lines)
    requires FindLine(c.lines, typeName).Some?
    requires c.lines[FindLine(c.lines, typeName).value].quantity >= 1
    ensures RemoveTicket(c, typeName).totalAmount + c.lines[FindLine(c.lines, typeName).value].price == c.totalAmount
  {
    var k := FindLine(c.lines, typeName).value;
    var line := c.lines[k];
    var r := RemoveTicket(c, typeName);
    OneUnitLess(line.price, line.quantity);
    if line.quantity == 1 {
      assert r.lines == c.lines[..k] + c.lines[k + 1..];
      TotalRemove(c.lines, k);
    } else {
      assert r.lines == c.lines[k := line.(quantity := line.quantity - 1)];
      TotalUpdate(c.lines, k, line.quantity - 1);
    }
  }

  lemma OneUnitLess(price: nat, quantity: nat)
    requires quantity >= 1
    ensures price * quantity == price * (quantity - 1) + price
    ensures quantity == 1 ==> price * quantity == price
  {
  }

  /** Adding a unit of a type and taking it away again restores the lines. */
  lemma AddThenRemove(c: Cart, t: Offer)
    requires forall i :: 0 <= i < |c.lines| ==> c.lines[i].quantity >= 1
    ensures RemoveTicket(AddTicket(c, t), t.typeName).lines == c.lines
  {
    var added := AddTicket(c, t).lines;
    match FindLine(c.lines, t.typeName)
    case Some(k) =>
      assert FindLine(added, t.typeName) == Some(k) by {
        assert forall i :: 0 <= i < |added| ==> added[i].typeName == c.lines[i].typeName;
      }
      assert added[k := added[k].(quantity := added[k].quantity - 1)] == c.lines;
    case None =>
      var n := |c.lines|;
      assert forall i :: 0 <= i < n ==> added[i] == c.lines[i];
      assert added[n].typeName == t.typeName;
      assert FindLine(added, t.typeName) == Some(n);
      assert added[..n] + added[n + 1..] == c.lines;
  }
}

/** The ticket line shared by an event's catalogue and a booking's lines
    (backend/models/ticketModel.js). A line has no identifier of its own; it
    is found by its type name. On a catalogue entry `quantity` is the stock
    still for sale and `sold` counts the units already confirmed; on a
    booked line `quantity` is the number of units bought and `price` the
    unit price the buyer saw. Money is in whole rupees. */
module Tickets {
  import opened Wrappers
  import Seqs

  datatype TicketLine = TicketLine(typeName: string, price: nat, quantity: nat, sold: nat)

  /** A line as the schema stores it when `sold` is not given: `sold` defaults to 0. */
  function NewLine(typeName: string, price: nat, quantity: nat): (t: TicketLine)
    ensures t.sold == 0
    ensures t.typeName == typeName && t.price == price && t.quantity == quantity
  {
    TicketLine(typeName, price, quantity, 0)
  }

  /** Sum of the `quantity` fields. */
  function SumQuantity(lines: seq<TicketLine>): nat
    decreases |lines|
  {
    if |lines| == 0 then 0 else lines[0].quantity + SumQuantity(lines[1..])
  }

  /** Sum of the `sold` fields. */
  function SumSold(lines: seq<TicketLine>): nat
    decreases |lines|
  {
    if |lines| == 0 then 0 else lines[0].sold + SumSold(lines[1..])
  }

  /** Sum of the unit prices, not weighted by quantity. */
  function SumPrice(lines: seq<TicketLine>): nat
    decreases |lines|
  {
    if |lines| == 0 then 0 else lines[0].price + SumPrice(lines[1..])
  }

  /** Sum of `price * quantity`: what the lines cost. */
  function LineTotal(lines: seq<TicketLine>): nat
    decreases |lines|
  {
    if |lines| == 0 then 0 else lines[0].price * lines[0].quantity + LineTotal(lines[1..])
  }

  /** Units requested of one type across all lines. */
  function Demand(lines: seq<TicketLine>, typeName: string): nat
    decreases |lines|
  {
    if |lines| == 0 then 0
    else (if lines[0].typeName == typeName then lines[0].quantity else 0) + Demand(lines[1..], typeName)
  }

  /** `lines.find(t => t.type === typeName)` as an index. */
  function FindType(lines: seq<TicketLine>, typeName: string): (r: Option<nat>)
    ensures r.None? <==> forall i :: 0 <= i < |lines| ==> lines[i].typeName != typeName
    ensures r.Some? ==> r.value < |lines| && lines[r.value].typeName == typeName
    ensures r.Some? ==> forall i :: 0 <= i < r.value ==> lines[i].typeName != typeName
  {
    Seqs.FirstIndex(lines, (l: TicketLine) => l.typeName == typeName)
  }

  /** Two line lists with the same type names, position by position. */
  predicate SameTypes(a: seq<TicketLine>, b: seq<TicketLine>) {
    |a| == |b| && forall i :: 0 <= i < |a| ==> a[i].typeName == b[i].typeName
  }

  /** Lookup by type only reads the type names. */
  lemma FindTypeSameTypes(a: seq<TicketLine>, b: seq<TicketLine>, typeName: string)
    requires SameTypes(a, b)
    ensures FindType(a, typeName) == FindType(b, typeName)
  {
  }

  /** `j` is the first catalogue entry of its type, the one a lookup by type finds. */
  predicate IsFirstOfType(lines: seq<TicketLine>, j: nat)
    requires j < |lines|
  {
    FindType(lines, lines[j].typeName) == Some(j)
  }

  lemma {:induction false} SumQuantityAppend(a: seq<TicketLine>, b: seq<TicketLine>)
    ensures SumQuantity(a + b) == SumQuantity(a) + SumQuantity(b)
    decreases |a|
  {
    if |a| > 0 {
      SumQuantityAppend(a[1..], b);
      assert (a + b)[1..] == a[1..] + b;
    } else {
      assert a + b == b;
    }
  }

  /** Changing one line's quantity changes the total by the same amount. */
  lemma {:induction false} SumQuantityUpdate(lines: seq<TicketLine>, j: nat, t: TicketLine)
    requires j < |lines|
    ensures SumQuantity(lines[j := t]) + lines[j].quantity == SumQuantity(lines) + t.quantity
    decreases |lines|
  {
    if j > 0 {
      SumQuantityUpdate(lines[1..], j - 1, t);
      assert lines[j := t][1..] == lines[1..][j - 1 := t];
    } else {
      assert lines[j := t][1..] == lines[1..];
    }
  }

  /** Changing one line's sold count changes the total by the same amount. */
  lemma {:induction false} SumSoldUpdate(lines: seq<TicketLine>, j: nat, t: TicketLine)
    requires j < |lines|
    ensures SumSold(lines[j := t]) + lines[j].sold == SumSold(lines) + t.sold
    decreases |lines|
  {
    if j > 0 {
      SumSoldUpdate(lines[1..], j - 1, t);
      assert lines[j := t][1..] == lines[1..][j - 1 := t];
    } else {
      assert lines[j := t][1..] == lines[1..];
    }
  }

  /** A type's demand is at most the total quantity requested. */
  lemma {:induction false} DemandBounded(lines: seq<TicketLine>, typeName: string)
    ensures Demand(lines, typeName) <= SumQuantity(lines)
    decreases |lines|
  {
    if |lines| > 0 {
      DemandBounded(lines[1..], typeName);
    }
  }

  /** A type no line names has no demand. */
  lemma {:induction false} DemandAbsent(lines: seq<TicketLine>, typeName: string)
    requires forall i :: 0 <= i < |lines| ==> lines[i].typeName != typeName
    ensures Demand(lines, typeName) == 0
    decreases |lines|
  {
    if |lines| > 0 {
      DemandAbsent(lines[1..], typeName);
    }
  }
}

/** Organiser reporting, backend/controllers/organizerController.js: the
    dashboard statistics and the enriched list of the organiser's events. */
module Organizer {
  import opened Wrappers
  import opened Tickets
  import opened Bookings
  import Events
  import Text
  import Seqs

  /** A booking that counts towards the dashboard: anything not cancelled. */
  predicate Active(b: Booking) {
    b.status != Cancelled
  }

  function AmountOf(b: Booking): nat {
    b.totalAmount
  }

  /** The units a booking holds: the sum of its line quantities. */
  function UnitsOf(b: Booking): nat {
    SumQuantity(b.tickets)
  }

  /** The organiser's events, in store order. */
  function OwnEvents(events: seq<Events.Event>, organizerId: Id): (r: seq<Events.Event>)
    ensures forall e :: e in r <==> e in events && e.organizerId == organizerId
  {
    Seqs.Filter(events, (e: Events.Event) => e.organizerId == organizerId)
  }

  predicate ForSomeEvent(events: seq<Events.Event>, b: Booking) {
    exists k :: 0 <= k < |events| && events[k].id == b.eventId
  }

  /** The bookings made for any of `events`. */
  function BookingsFor(bookings: seq<Booking>, events: seq<Events.Event>): (r: seq<Booking>)
    ensures forall b :: b in r <==> b in bookings && ForSomeEvent(events, b)
  {
    Seqs.Filter(bookings, (b: Booking) => ForSomeEvent(events, b))
  }

  datatype Stats = Stats(totalEvents: nat, totalRevenue: nat, ticketsSold: nat)

  /** The `stats` of `getDashboard` (the average rating is left out): the
      number of own events, and the amounts and units of the active
      bookings for them. */
  function DashboardStats(db: Db, organizerId: Id): (r: Stats)
    ensures var own := OwnEvents(db.events, organizerId);
      var active := Seqs.Filter(BookingsFor(db.bookings, own), Active);
      r.totalEvents == |own|
      && r.totalRevenue == Seqs.SumBy(active, AmountOf)
      && r.ticketsSold == Seqs.SumBy(active, UnitsOf)
  {
    var own := OwnEvents(db.events, organizerId);
    var active := Seqs.Filter(BookingsFor(db.bookings, own), Active);
    Stats(|own|, Seqs.SumBy(active, AmountOf), Seqs.SumBy(active, UnitsOf))
  }

  /** A cancelled booking adds nothing to the dashboard: storing one more
      leaves every statistic as it was. */
  lemma DashboardIgnoresCancelled(db: Db, organizerId: Id, b: Booking)
    requires b.status == Cancelled
    ensures DashboardStats(Db(db.bookings + [b], db.events), organizerId) == DashboardStats(db, organizerId)
  {
    var own := OwnEvents(db.events, organizerId);
    var p := (x: Booking) => ForSomeEvent(own, x);
    if p(b) {
      assert BookingsFor(db.bookings + [b], own) == BookingsFor(db.bookings, own) + [b] by {
        Seqs.FilterAppendAccepted(db.bookings, b, p);
      }
      Seqs.FilterAppendRejected(BookingsFor(db.bookings, own), b, Active);
    } else {
      Seqs.FilterAppendRejected(db.bookings, b, p);
    }
  }

  /** The revenue of all bookings of the organiser splits into the
      dashboard's revenue and that of the cancelled bookings. */
  lemma RevenueSplitsOnCancellation(db: Db, organizerId: Id)
    ensures var forOwn := BookingsFor(db.bookings, OwnEvents(db.events, organizerId));
      DashboardStats(db, organizerId).totalRevenue
      + Seqs.SumBy(Seqs.Filter(forOwn, (b: Booking) => !Active(b)), AmountOf)
      == Seqs.SumBy(forOwn, AmountOf)
  {
    var forOwn := BookingsFor(db.bookings, OwnEvents(db.events, organizerId));
    Seqs.SumByFilterSplit(forOwn, AmountOf, Active, (b: Booking) => !Active(b));
  }

  /** One entry of an organiser's event list. Events carry no `status`, so
      it is always the fallback "Published". */
  datatype EventSummary = EventSummary(id: Id, title: string, date: int, status: string,
                                       totalTickets: nat, ticketsSold: nat, revenue: nat, rating: nat)

  predicate OfEvent(id: Id, b: Booking) {
    b.eventId == id
  }

  /** The dashboard's entry for an event: stock left from the catalogue,
      units sold from the catalogue's `sold` counts, revenue from the active
      bookings of the event. */
  function DashboardSummary(e: Events.Event, active: seq<Booking>): (r: EventSummary)
    ensures r.totalTickets == SumQuantity(e.tickets) && r.ticketsSold == SumSold(e.tickets)
    ensures r.revenue == Seqs.SumBy(Seqs.Filter(active, (b: Booking) => OfEvent(e.id, b)), AmountOf)
    ensures r.status == "Published" && r.id == e.id
  {
    EventSummary(e.id, e.title, e.date, "Published", SumQuantity(e.tickets), SumSold(e.tickets),
                 Seqs.SumBy(Seqs.Filter(active, (b: Booking) => OfEvent(e.id, b)), AmountOf), e.rating)
  }

  function MapSummaries(events: seq<Events.Event>, active: seq<Booking>): (r: seq<EventSummary>)
    ensures |r| == |events|
    ensures forall i :: 0 <= i < |events| ==> r[i] == DashboardSummary(events[i], active)
  {
    seq(|events|, i requires 0 <= i < |events| => DashboardSummary(events[i], active))
  }

  const RecentEventsLimit: nat := 10
  const RecentBookingsLimit: nat := 5

  /** `recentEvents` as written: the summaries are sorted by a `createdAt`
      they do not carry. Every comparison is `NaN`, which the sort treats as
      "equal", and the sort is stable, so the store order is kept. */
  function RecentEventsAsWritten(db: Db, organizerId: Id): (r: seq<EventSummary>)
    ensures var own := OwnEvents(db.events, organizerId);
      |r| == if |own| < RecentEventsLimit then |own| else RecentEventsLimit
    ensures var own := OwnEvents(db.events, organizerId);
      forall i :: 0 <= i < |r| ==> r[i].id == own[i].id
  {
    var own := OwnEvents(db.events, organizerId);
    var active := Seqs.Filter(BookingsFor(db.bookings, own), Active);
    Seqs.Take(MapSummaries(own, active), RecentEventsLimit)
  }

  /** Newest first by creation time. */
  function NewestFirst(e: Events.Event): int {
    -e.createdAt
  }

  /** `recentEvents` as evidently intended: the ten most recently created
      events, newest first. */
  function RecentEvents(db: Db, organizerId: Id): (r: seq<EventSummary>)
    ensures var own := OwnEvents(db.events, organizerId);
      |r| == if |own| < RecentEventsLimit then |own| else RecentEventsLimit
  {
    var own := OwnEvents(db.events, organizerId);
    var active := Seqs.Filter(BookingsFor(db.bookings, own), Active);
    Seqs.Take(MapSummaries(Seqs.SortByKey(own, NewestFirst), active), RecentEventsLimit)
  }

  /** The corrected list is newest first, and no own event left out is
      newer than one listed. */
  lemma RecentEventsNewestFirst(db: Db, organizerId: Id)
    ensures var own := OwnEvents(db.events, organizerId);
      var sorted := Seqs.SortByKey(own, NewestFirst);
      var r := RecentEvents(db, organizerId);
      (forall i :: 0 <= i < |r| ==> r[i].id == sorted[i].id)
      && (forall i, j :: 0 <= i < j < |r| ==> sorted[i].createdAt >= sorted[j].createdAt)
      && (forall i, j :: 0 <= i < |r| <= j < |sorted| ==> sorted[i].createdAt >= sorted[j].createdAt)
  {
    var own := OwnEvents(db.events, organizerId);
    var sorted := Seqs.SortByKey(own, NewestFirst);
    assert forall i, j :: 0 <= i < j < |sorted| ==> NewestFirst(sorted[i]) <= NewestFirst(sorted[j]);
  }

  /** The discrepancy: two own events stored oldest first stay oldest
      first in the list as written, while the corrected list puts the
      newer one first. */
  lemma RecentEventsOrderWitness(older: Events.Event, newer: Events.Event)
    requires older.organizerId == newer.organizerId && older.id != newer.id
    requires older.createdAt < newer.createdAt
    ensures var db := Db([], [older, newer]);
      RecentEventsAsWritten(db, older.organizerId)[0].id == older.id
      && RecentEvents(db, older.organizerId)[0].id == newer.id
  {
    var db := Db([], [older, newer]);
    OwnPair(older, newer);
    RecentEventsNewestFirst(db, older.organizerId);
    NewerSortsFirst(older, newer);
  }

  /** Both events of a pair with one organiser are that organiser's own. */
  lemma OwnPair(a: Events.Event, b: Events.Event)
    requires a.organizerId == b.organizerId
    ensures OwnEvents([a, b], a.organizerId) == [a, b]
  {
    var events := [a, b];
    assert events[1..] == [b];
    assert events[1..][1..] == [];
  }

  /** Of two events, sorting newest first puts the newer one first. */
  lemma NewerSortsFirst(older: Events.Event, newer: Events.Event)
    requires older.createdAt < newer.createdAt
    ensures Seqs.SortByKey([older, newer], NewestFirst)[0] == newer
  {
    var sorted := Seqs.SortByKey([older, newer], NewestFirst);
    assert multiset(sorted) == multiset{older, newer};
    assert sorted[0] in multiset(sorted) && sorted[1] in multiset(sorted);
    assert NewestFirst(sorted[0]) <= NewestFirst(sorted[1]);
  }

  function NewestBookingFirst(b: Booking): int {
    -b.createdAt
  }

  /** `recentBookings`: the five most recent active bookings for the
      organiser's events (all of them when there are fewer), newest first;
      no such booking left out is newer than one listed. */
  function RecentBookings(db: Db, organizerId: Id): (r: seq<Booking>)
    ensures var forOwn := BookingsFor(db.bookings, OwnEvents(db.events, organizerId));
      |r| == var n := |Seqs.Filter(forOwn, Active)|; if n < RecentBookingsLimit then n else RecentBookingsLimit
    ensures var forOwn := BookingsFor(db.bookings, OwnEvents(db.events, organizerId));
      forall i :: 0 <= i < |r| ==> r[i] in forOwn && Active(r[i])
    ensures forall i, j :: 0 <= i < j < |r| ==> r[i].createdAt >= r[j].createdAt
    ensures var forOwn := BookingsFor(db.bookings, OwnEvents(db.events, organizerId));
      forall b :: b in forOwn && Active(b) && b !in r ==> forall i :: 0 <= i < |r| ==> r[i].createdAt >= b.createdAt
  {
    var forOwn := BookingsFor(db.bookings, OwnEvents(db.events, organizerId));
    var active := Seqs.Filter(forOwn, Active);
    var top := Seqs.SmallestByKey(active, NewestBookingFirst, RecentBookingsLimit);
    NewestTop(active, top);
    top
  }

  /** The smallest keys under `NewestBookingFirst` are the newest bookings. */
  lemma NewestTop(active: seq<Booking>, top: seq<Booking>)
    requires top == Seqs.SmallestByKey(active, NewestBookingFirst, RecentBookingsLimit)
    ensures forall i, j :: 0 <= i < j < |top| ==> top[i].createdAt >= top[j].createdAt
    ensures forall b :: b in active && b !in top ==> forall i :: 0 <= i < |top| ==> top[i].createdAt >= b.createdAt
  {
    assert forall i, j :: 0 <= i < j < |top| ==> NewestBookingFirst(top[i]) <= NewestBookingFirst(top[j]);
  }

  /** The entry of `getOrganizerEvents` for an event: units from the
      non-cancelled bookings of the event, revenue from the confirmed ones. */
  function ListSummary(e: Events.Event, forOwn: seq<Booking>): (r: EventSummary)
    ensures r.totalTickets == SumQuantity(e.tickets) && r.status == "Published"
    ensures r.ticketsSold == Seqs.SumBy(Seqs.Filter(forOwn, (b: Booking) => OfEvent(e.id, b) && Active(b)), UnitsOf)
    ensures r.revenue == Seqs.SumBy(Seqs.Filter(forOwn, (b: Booking) => OfEvent(e.id, b) && b.status == Confirmed), AmountOf)
  {
    EventSummary(e.id, e.title, e.date, "Published", SumQuantity(e.tickets),
                 Seqs.SumBy(Seqs.Filter(forOwn, (b: Booking) => OfEvent(e.id, b) && Active(b)), UnitsOf),
                 Seqs.SumBy(Seqs.Filter(forOwn, (b: Booking) => OfEvent(e.id, b) && b.status == Confirmed), AmountOf),
                 e.rating)
  }

  /** In the event list, revenue counts only confirmed bookings, so it is
      never more than the revenue of the event's non-cancelled bookings. */
  lemma ListRevenueAtMostActive(e: Events.Event, forOwn: seq<Booking>)
    ensures ListSummary(e, forOwn).revenue
            <= Seqs.SumBy(Seqs.Filter(forOwn, (b: Booking) => OfEvent(e.id, b) && Active(b)), AmountOf)
  {
    Seqs.SumByFilterMono(forOwn, AmountOf,
      (b: Booking) => OfEvent(e.id, b) && b.status == Confirmed,
      (b: Booking) => OfEvent(e.id, b) && Active(b));
  }

  /** The handler fetches only the bookings of the events on the page; for
      an event on the page that yields the same summary as all bookings. */
  lemma SummaryOverAllBookings(e: Events.Event, shown: seq<Events.Event>, bookings: seq<Booking>)
    requires e in shown
    ensures ListSummary(e, BookingsFor(bookings, shown)) == ListSummary(e, bookings)
  {
    var f := (b: Booking) => ForSomeEvent(shown, b);
    var active := (b: Booking) => OfEvent(e.id, b) && Active(b);
    var confirmed := (b: Booking) => OfEvent(e.id, b) && b.status == Confirmed;
    var k :| 0 <= k < |shown| && shown[k] == e;
    forall b | OfEvent(e.id, b) ensures f(b) {
      assert shown[k].id == b.eventId;
    }
    Seqs.FilterFilter(bookings, f, active, active);
    Seqs.FilterFilter(bookings, f, confirmed, confirmed);
  }

  /** Every summary of a page, computed over all bookings. */
  lemma SummariesOverAllBookings(shown: seq<Events.Event>, bookings: seq<Booking>)
    ensures forall i :: 0 <= i < |shown| ==>
      ListSummary(shown[i], BookingsFor(bookings, shown)) == ListSummary(shown[i], bookings)
  {
    forall i | 0 <= i < |shown|
      ensures ListSummary(shown[i], BookingsFor(bookings, shown)) == ListSummary(shown[i], bookings)
    {
      SummaryOverAllBookings(shown[i], shown, bookings);
    }
  }

  function ListSummaries(shown: seq<Events.Event>, forShown: seq<Booking>): (r: seq<EventSummary>)
    ensures |r| == |shown|
    ensures forall i :: 0 <= i < |shown| ==> r[i] == ListSummary(shown[i], forShown)
  {
    seq(|shown|, i requires 0 <= i < |shown| => ListSummary(shown[i], forShown))
  }

  const DefaultListLimit: nat := 100

  datatype EventPage = EventPage(events: seq<EventSummary>, currentPage: int, totalPages: Option<nat>, totalItems: nat)

  /** `getOrganizerEvents`: one page of the organiser's events (default
      page 1 of 100), each with its summary. A negative skip is refused by
      the store (500). */
  function OrganizerEvents(db: Db, organizerId: Id, page: int, limit: nat): (r: Result<EventPage, HttpError>)
    ensures r.Err? <==> (page - 1) * limit < 0
    ensures r.Ok? ==> var own := OwnEvents(db.events, organizerId);
      r.value.totalItems == |own|
      && (limit > 0 ==> r.value.totalPages == Some(Events.CeilDiv(|own|, limit)))
      && (limit > 0 ==> |r.value.events| <= limit)
      && forall i :: 0 <= i < |r.value.events| ==>
           (page - 1) * limit + i < |own| && r.value.events[i].id == own[(page - 1) * limit + i].id
           && r.value.events[i].status == "Published"
    ensures r.Ok? ==> var own := OwnEvents(db.events, organizerId);
      var skip := (page - 1) * limit;
      |r.value.events| == (if skip >= |own| then 0 else if limit == 0 then |own| - skip else Events.Min(limit, |own| - skip))
      && forall i :: 0 <= i < |r.value.events| ==> r.value.events[i] == ListSummary(own[skip + i], db.bookings)
  {
    var own := OwnEvents(db.events, organizerId);
    var skip := (page - 1) * limit;
    if skip < 0 then Err(HttpError(500, "Server error"))
    else
      var shown := Events.PageOf(own, skip, limit);
      var forShown := BookingsFor(db.bookings, shown);
      SummariesOverAllBookings(shown, db.bookings);
      Ok(EventPage(ListSummaries(shown, forShown), page, if limit > 0 then Some(Events.CeilDiv(|own|, limit)) else None, |own|))
  }
}

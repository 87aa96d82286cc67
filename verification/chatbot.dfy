/** The deterministic parts of the assistant,
    Code/backend/controllers/chatBotController.js: the keyword intent
    classifier, the request check, and the database context handed to the
    language model. The model call itself is not part of this model. */
module Chatbot {
  import opened Wrappers
  import Text
  import Seqs
  import Tickets
  import Events
  import Bookings
  import Users
  import Organizer

  /** One row of an intent table: a name and its keywords. */
  datatype Intent = Intent(name: string, keywords: seq<string>)

  const General: string := "general"

  const UserIntents: seq<Intent> := [
    Intent("ticket_inquiry", ["ticket", "booking", "confirmation", "seat", "qr", "purchase"]),
    Intent("event_schedule", ["schedule", "time", "when", "date", "program", "timing"]),
    Intent("payment_status", ["payment", "paid", "refund", "transaction", "receipt", "money"]),
    Intent("event_search", ["events", "find", "search", "available", "upcoming", "category"]),
    Intent("venue_info", ["venue", "location", "address", "directions", "parking", "where"])
  ]

  const OrganizerIntents: seq<Intent> := [
    Intent("event_management", ["create", "event", "manage", "edit", "delete", "setup"]),
    Intent("attendee_analytics", ["attendees", "registered", "participants", "sold", "analytics"]),
    Intent("ticket_management", ["tickets", "pricing", "types", "quantity", "discount"]),
    Intent("platform_help", ["how", "tutorial", "guide", "help", "instructions"])
  ]

  const GuestIntents: seq<Intent> := [
    Intent("event_search", ["events", "find", "search", "available", "upcoming", "category"]),
    Intent("venue_info", ["venue", "location", "address", "directions", "parking", "where"]),
    Intent("platform_help", ["how", "register", "login", "signup", "help", "instructions"])
  ]

  /** The intent table of a role; an unknown role uses the `user` table. */
  function IntentTable(role: string): (r: seq<Intent>)
    ensures role != "organizer" && role != "guest" ==> r == UserIntents
    ensures |r| >= 3
    ensures forall i :: 0 <= i < |r| ==> r[i].name != General
  {
    if role == "organizer" then OrganizerIntents
    else if role == "guest" then GuestIntents
    else UserIntents
  }

  /** Some keyword of the intent occurs in the (lower-cased) query. */
  predicate Mentions(query: string, intent: Intent) {
    exists i :: 0 <= i < |intent.keywords| && Text.Includes(query, intent.keywords[i])
  }

  /** `classifyIntent`: the first intent in table order that the
      lower-cased query mentions, else "general". */
  function Classify(query: string, role: string): (r: string)
    ensures var q := Text.ToLower(query); var t := IntentTable(role);
      (r == General <==> forall i :: 0 <= i < |t| ==> !Mentions(q, t[i]))
      && (r != General ==> exists i :: 0 <= i < |t| && t[i].name == r && Mentions(q, t[i])
                                       && forall j :: 0 <= j < i ==> !Mentions(q, t[j]))
  {
    var q := Text.ToLower(query);
    var t := IntentTable(role);
    match Seqs.FirstIndex(t, (it: Intent) => Mentions(q, it))
    case None => General
    case Some(k) => t[k].name
  }

  /** The answer is "general" or a name from the role's table. */
  lemma ClassifyInTable(query: string, role: string)
    ensures var r := Classify(query, role);
      r == General || exists i :: 0 <= i < |IntentTable(role)| && IntentTable(role)[i].name == r
  {
  }

  /** Classification ignores letter case: it sees the query lower-cased. */
  lemma ClassifyIgnoresCase(query: string, role: string)
    ensures Classify(Text.ToLower(query), role) == Classify(query, role)
  {
    Text.ToLowerIdempotent(query);
  }

  /** A role outside the table falls back to the `user` intents. */
  lemma UnknownRoleIsUser(query: string, role: string)
    requires role != "organizer" && role != "guest"
    ensures Classify(query, role) == Classify(query, "user")
  {
  }

  /** The table order decides: ticket inquiries come first in the user
      table, so any question that mentions a ticket is a ticket inquiry,
      whatever schedule, payment or venue words it also holds. */
  lemma TableOrderDecides(query: string)
    requires Text.Includes(Text.ToLower(query), "ticket")
    ensures Classify(query, "user") == "ticket_inquiry"
  {
    var q := Text.ToLower(query);
    assert Mentions(q, UserIntents[0]) by {
      assert UserIntents[0].keywords[0] == "ticket";
    }
  }

  /** The role the assistant answers: the user's, or "guest" without one. */
  function ChatRole(user: Option<Users.User>): (r: string)
    ensures user.None? <==> r == "guest"
    ensures user.Some? ==> r == Users.RoleName(user.value.role)
  {
    if user.None? then "guest" else Users.RoleName(user.value.role)
  }

  datatype Classified = Classified(intent: string, role: string)

  /** The request check of `chatBotHandler`: a missing or blank message is
      400; otherwise the intent is classified under the caller's role. */
  function CheckMessage(message: Option<string>, user: Option<Users.User>): (r: Result<Classified, HttpError>)
    ensures r.Err? <==> message.None? || Text.IsBlank(message.value)
    ensures r.Err? ==> r.error == HttpError(400, "Message is required")
    ensures r.Ok? ==> r.value.role == ChatRole(user) && r.value.intent == Classify(message.value, ChatRole(user))
  {
    if message.None? || Text.IsBlank(message.value) then Err(HttpError(400, "Message is required"))
    else
      var role := ChatRole(user);
      Ok(Classified(Classify(message.value, role), role))
  }

  /** A guest is only ever classified into the guest table. */
  lemma GuestIntentsOnly(message: Option<string>)
    requires CheckMessage(message, None).Ok?
    ensures CheckMessage(message, None).value.intent in {"event_search", "venue_info", "platform_help", General}
  {
    var r := CheckMessage(message, None).value.intent;
    if r != General {
      var i :| 0 <= i < |GuestIntents| && GuestIntents[i].name == r;
    }
  }

  /** A booking as the ticket context summarises it. */
  datatype BookingInfo = BookingInfo(bookingId: Id, eventTitle: Option<string>, ticketTypes: seq<string>,
                                     quantity: nat, totalPrice: nat, status: Bookings.Status, bookingDate: int)

  datatype EventInfo = EventInfo(title: string, date: int, venue: Events.Venue, price: nat, category: string)

  datatype ManagedInfo = ManagedInfo(title: string, date: int, attendees: nat, ticketsSold: nat)

  /** The context object: empty for intents without data, and for the
      organiser-only intents when the caller is not an organiser. */
  datatype Context =
    | NoContext
    | BookingsContext(bookings: seq<BookingInfo>)
    | EventsContext(events: seq<EventInfo>)
    | ManagedContext(userEvents: seq<ManagedInfo>)
    | AnalyticsContext(totalEvents: nat, totalAttendees: nat, upcomingEvents: nat)

  function TypesOf(lines: seq<Tickets.TicketLine>): (r: seq<string>)
    ensures |r| == |lines| && forall i :: 0 <= i < |r| ==> r[i] == lines[i].typeName
  {
    seq(|lines|, i requires 0 <= i < |lines| => lines[i].typeName)
  }

  /** One booking of the ticket context. The event title is absent when the
      event is gone; the "total price" adds unit prices without weighting
      them by quantity. */
  function InfoOf(b: Bookings.Booking, events: seq<Events.Event>): (r: BookingInfo)
    ensures r.bookingId == b.id && r.status == b.status && r.bookingDate == b.createdAt
    ensures r.quantity == Tickets.SumQuantity(b.tickets) && r.totalPrice == Tickets.SumPrice(b.tickets)
    ensures r.eventTitle.Some? <==> Bookings.FindEvent(events, b.eventId).Some?
  {
    var title := match Bookings.FindEvent(events, b.eventId)
      case None => None
      case Some(k) => Some(events[k].title);
    BookingInfo(b.id, title, TypesOf(b.tickets), Tickets.SumQuantity(b.tickets), Tickets.SumPrice(b.tickets), b.status, b.createdAt)
  }

  /** For lines of single units the unweighted total is what the lines
      cost, and the quantity is the number of lines. */
  lemma {:induction false} SinglesPriceTotal(lines: seq<Tickets.TicketLine>)
    requires forall i :: 0 <= i < |lines| ==> lines[i].quantity == 1
    ensures Tickets.SumPrice(lines) == Tickets.LineTotal(lines)
    ensures Tickets.SumQuantity(lines) == |lines|
    decreases |lines|
  {
    if |lines| > 0 {
      SinglesPriceTotal(lines[1..]);
    }
  }

  /** Two tickets of one type at 100 cost 200, yet the context reports 100. */
  lemma UnweightedPriceDiffers()
    ensures var lines := [Tickets.TicketLine("VIP", 100, 2, 0)];
      Tickets.SumPrice(lines) == 100 && Tickets.LineTotal(lines) == 200
  {
    var lines := [Tickets.TicketLine("VIP", 100, 2, 0)];
    assert lines[1..] == [];
  }

  const SearchLimit: nat := 10

  /** Whether a context may be filled for this intent and role. */
  predicate OrganizerOnly(intent: string) {
    intent == "event_management" || intent == "attendee_analytics"
  }

  /** The caller's own events. A guest has no id and owns nothing. */
  function OwnedBy(events: seq<Events.Event>, userId: Option<Id>): (r: seq<Events.Event>)
    ensures userId.None? ==> r == []
    ensures userId.Some? ==> r == Organizer.OwnEvents(events, userId.value)
  {
    if userId.None? then [] else Organizer.OwnEvents(events, userId.value)
  }

  /** `id` is the id of a stored booking of the caller. */
  predicate CallerBookingId(db: Bookings.Db, userId: Option<Id>, id: Id) {
    exists b :: b in db.bookings && Some(b.userId) == userId && b.id == id
  }

  /** The bookings made by the caller, in store order. */
  function BookingsOfCaller(bookings: seq<Bookings.Booking>, userId: Option<Id>): (r: seq<Bookings.Booking>)
    ensures forall b :: b in r <==> b in bookings && Some(b.userId) == userId
  {
    Seqs.Filter(bookings, (b: Bookings.Booking) => Some(b.userId) == userId)
  }

  /** The events not yet past, in store order. */
  function UpcomingEvents(events: seq<Events.Event>, now: int): (r: seq<Events.Event>)
    ensures forall e :: e in r <==> e in events && e.date >= now
  {
    Seqs.Filter(events, (e: Events.Event) => e.date >= now)
  }

  function EventInfoOf(e: Events.Event): EventInfo {
    EventInfo(e.title, e.date, e.venue, e.price, e.category)
  }

  function ManagedOf(e: Events.Event): ManagedInfo {
    ManagedInfo(e.title, e.date, e.attendees, Tickets.SumSold(e.tickets))
  }

  /** `getDatabaseContext` without its failure path. Each intent fills its
      own kind of context: every booking of the caller, in store order; the
      first ten upcoming events in store order; one entry per own event;
      totals over the own events. The organiser intents give nothing to
      other roles. */
  function DatabaseContext(intent: string, userId: Option<Id>, role: string, db: Bookings.Db, now: int): (r: Context)
    ensures OrganizerOnly(intent) && role != "organizer" ==> r == NoContext
    ensures intent !in {"ticket_inquiry", "event_search", "event_management", "attendee_analytics"} ==> r == NoContext
    ensures r.BookingsContext? <==> intent == "ticket_inquiry"
    ensures r.EventsContext? <==> intent == "event_search"
    ensures r.ManagedContext? <==> intent == "event_management" && role == "organizer"
    ensures r.AnalyticsContext? <==> intent == "attendee_analytics" && role == "organizer"
    ensures r.BookingsContext? ==> forall i :: 0 <= i < |r.bookings| ==> CallerBookingId(db, userId, r.bookings[i].bookingId)
    ensures r.BookingsContext? ==> var mine := BookingsOfCaller(db.bookings, userId);
      |r.bookings| == |mine| && forall i :: 0 <= i < |mine| ==> r.bookings[i] == InfoOf(mine[i], db.events)
    ensures r.BookingsContext? ==> forall b :: b in db.bookings && Some(b.userId) == userId ==>
      exists i :: 0 <= i < |r.bookings| && r.bookings[i].bookingId == b.id
    ensures r.EventsContext? ==> |r.events| <= SearchLimit && forall i :: 0 <= i < |r.events| ==> r.events[i].date >= now
    ensures r.EventsContext? ==> var upcoming := UpcomingEvents(db.events, now);
      |r.events| == (if |upcoming| < SearchLimit then |upcoming| else SearchLimit)
      && forall i :: 0 <= i < |r.events| ==> r.events[i] == EventInfoOf(upcoming[i])
    ensures r.ManagedContext? ==> var own := OwnedBy(db.events, userId);
      |r.userEvents| == |own| && forall i :: 0 <= i < |own| ==> r.userEvents[i] == ManagedOf(own[i])
    ensures r.AnalyticsContext? ==> r.upcomingEvents <= r.totalEvents && r.totalEvents == |OwnedBy(db.events, userId)|
    ensures r.AnalyticsContext? ==> var own := OwnedBy(db.events, userId);
      r.totalAttendees == Seqs.SumBy(own, (e: Events.Event) => e.attendees)
      && r.upcomingEvents == |Seqs.Filter(own, (e: Events.Event) => e.date > now)|
  {
    if intent == "ticket_inquiry" then
      TicketContextComplete(db, userId);
      TicketContext(db, userId)
    else if intent == "event_search" then SearchContext(db.events, now)
    else if intent == "event_management" && role == "organizer" then ManagedContextOf(OwnedBy(db.events, userId))
    else if intent == "attendee_analytics" && role == "organizer" then AnalyticsContextOf(OwnedBy(db.events, userId), now)
    else NoContext
  }

  /** The management context: one entry per own event, in order. */
  function ManagedContextOf(own: seq<Events.Event>): (r: Context)
    ensures r.ManagedContext?
    ensures |r.userEvents| == |own| && forall i :: 0 <= i < |own| ==> r.userEvents[i] == ManagedOf(own[i])
  {
    ManagedContext(seq(|own|, i requires 0 <= i < |own| => ManagedOf(own[i])))
  }

  /** The analytics context: totals over the own events; the upcoming ones
      are among them. */
  function AnalyticsContextOf(own: seq<Events.Event>, now: int): (r: Context)
    ensures r.AnalyticsContext?
    ensures r.totalEvents == |own| && r.upcomingEvents <= r.totalEvents
    ensures r.totalAttendees == Seqs.SumBy(own, (e: Events.Event) => e.attendees)
    ensures r.upcomingEvents == |Seqs.Filter(own, (e: Events.Event) => e.date > now)|
  {
    AnalyticsContext(|own|, Seqs.SumBy(own, (e: Events.Event) => e.attendees),
                     |Seqs.Filter(own, (e: Events.Event) => e.date > now)|)
  }

  /** The ticket context: one entry per booking of the caller, in store order. */
  function TicketContext(db: Bookings.Db, userId: Option<Id>): (r: Context)
    ensures r.BookingsContext?
    ensures forall i :: 0 <= i < |r.bookings| ==> CallerBookingId(db, userId, r.bookings[i].bookingId)
    ensures var mine := BookingsOfCaller(db.bookings, userId);
      |r.bookings| == |mine| && forall i :: 0 <= i < |mine| ==> r.bookings[i] == InfoOf(mine[i], db.events)
  {
    var mine := BookingsOfCaller(db.bookings, userId);
    var infos := InfosOf(mine, db.events);
    assert forall i :: 0 <= i < |infos| ==>
      mine[i] in db.bookings && Some(mine[i].userId) == userId && infos[i].bookingId == mine[i].id;
    BookingsContext(infos)
  }

  /** The ticket context lists every booking of the caller. */
  lemma TicketContextComplete(db: Bookings.Db, userId: Option<Id>)
    ensures var r := TicketContext(db, userId).bookings;
      forall b :: b in db.bookings && Some(b.userId) == userId ==>
        exists i :: 0 <= i < |r| && r[i].bookingId == b.id
  {
    CallerBookingsListed(BookingsOfCaller(db.bookings, userId), TicketContext(db, userId).bookings, db, userId);
  }

  function InfosOf(mine: seq<Bookings.Booking>, events: seq<Events.Event>): (r: seq<BookingInfo>)
    ensures |r| == |mine| && forall i :: 0 <= i < |mine| ==> r[i] == InfoOf(mine[i], events)
  {
    seq(|mine|, i requires 0 <= i < |mine| => InfoOf(mine[i], events))
  }

  /** The search context: the first ten upcoming events, in store order. */
  function SearchContext(events: seq<Events.Event>, now: int): (r: Context)
    ensures r.EventsContext?
    ensures |r.events| <= SearchLimit && forall i :: 0 <= i < |r.events| ==> r.events[i].date >= now
    ensures var upcoming := UpcomingEvents(events, now);
      |r.events| == (if |upcoming| < SearchLimit then |upcoming| else SearchLimit)
      && forall i :: 0 <= i < |r.events| ==> r.events[i] == EventInfoOf(upcoming[i])
  {
    var upcoming := Seqs.Take(UpcomingEvents(events, now), SearchLimit);
    assert forall i :: 0 <= i < |upcoming| ==> upcoming[i] in UpcomingEvents(events, now);
    EventsContext(seq(|upcoming|, i requires 0 <= i < |upcoming| => EventInfoOf(upcoming[i])))
  }

  /** Every booking of the caller has an entry in the ticket context. */
  lemma CallerBookingsListed(mine: seq<Bookings.Booking>, infos: seq<BookingInfo>, db: Bookings.Db, userId: Option<Id>)
    requires mine == BookingsOfCaller(db.bookings, userId)
    requires |infos| == |mine| && forall i :: 0 <= i < |mine| ==> infos[i].bookingId == mine[i].id
    ensures forall b :: b in db.bookings && Some(b.userId) == userId ==>
      exists i :: 0 <= i < |infos| && infos[i].bookingId == b.id
  {
    forall b | b in db.bookings && Some(b.userId) == userId
      ensures exists i :: 0 <= i < |infos| && infos[i].bookingId == b.id
    {
      assert b in mine;
      var i :| 0 <= i < |mine| && mine[i] == b;
      assert infos[i].bookingId == b.id;
    }
  }
}

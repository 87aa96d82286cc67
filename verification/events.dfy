/** The event catalogue: the Event record (backend/models/eventModel.js) and
    the pure parts of backend/controllers/eventController.js — ticket-type
    construction, the sold-preserving update, the organiser check on update
    and delete, pagination arithmetic, sort keys and the recommendation
    fallback. Dates and creation times are milliseconds since the epoch. */
module Events {
  import opened Wrappers
  import opened Tickets
  import Seqs

  /** The only coordinate kind the schema allows. */
  datatype GeoKind = Point

  datatype Venue = Venue(name: string, address: string, capacity: nat, kind: GeoKind, coordinates: seq<int>)

  datatype Event = Event(
    id: Id,
    title: string,
    description: string,
    category: string,
    date: int,
    startTime: string,
    endTime: string,
    images: seq<string>,
    venue: Venue,
    price: nat,
    organizerId: Id,
    organizerName: string,
    tickets: seq<TicketLine>,
    rating: nat,
    attendees: nat,
    featured: bool,
    createdAt: int)

  const GeneralAdmission: string := "General Admission"
  const Vip: string := "VIP"
  const DefaultGeneralQuantity: nat := 100
  const DefaultVipQuantity: nat := 50
  const DefaultCapacity: nat := 100
  const DefaultImage: string := "default-event-image.jpg"

  /** `parseInt(x) || d`: an absent or zero number falls back to `d`. */
  function IntOr(x: Option<nat>, d: nat): (r: nat)
    ensures x.Some? && x.value != 0 ==> r == x.value
    ensures x.None? || x.value == 0 ==> r == d
  {
    if x.Some? && x.value != 0 then x.value else d
  }

  /** `x || d` on strings: the empty string falls back to `d`. */
  function StrOr(x: string, d: string): (r: string)
    ensures x != "" ==> r == x
    ensures x == "" ==> r == d
  {
    if x != "" then x else d
  }

  /** The fields of the event form as the backend receives them. A number
      field is `None` when absent or empty; `date` is `None` when it does not
      parse; `coordinates` is the `(lng, lat)` pair, `None` when the object
      or either number is missing. */
  datatype EventForm = EventForm(
    title: string,
    description: string,
    category: string,
    date: Option<int>,
    startTime: string,
    endTime: string,
    venueName: string,
    venueAddress: string,
    location: string,
    venueCapacity: Option<nat>,
    coordinates: Option<(int, int)>,
    generalPrice: Option<nat>,
    generalQuantity: Option<nat>,
    vipPrice: Option<nat>,
    vipQuantity: Option<nat>,
    featured: bool)

  datatype Organizer = Organizer(id: Id, name: string)

  /** A price field that is present and positive. */
  predicate PositivePrice(p: Option<nat>) {
    p.Some? && p.value > 0
  }

  /** The catalogue a new event starts with: General Admission is required
      and priced above zero; VIP is added only when its price is above zero. */
  function CreateTickets(form: EventForm): (r: Result<seq<TicketLine>, HttpError>)
    ensures r.Ok? <==> PositivePrice(form.generalPrice)
    ensures r.Err? ==> r.error.status == 400
    ensures r.Ok? ==> |r.value| == (if PositivePrice(form.vipPrice) then 2 else 1)
    ensures r.Ok? ==> SumSold(r.value) == 0
    ensures r.Ok? ==> r.value[0] == TicketLine(GeneralAdmission, form.generalPrice.value,
                                               IntOr(form.generalQuantity, DefaultGeneralQuantity), 0)
    ensures r.Ok? && |r.value| == 2 ==>
      r.value[1] == TicketLine(Vip, form.vipPrice.value, IntOr(form.vipQuantity, DefaultVipQuantity), 0)
  {
    if !PositivePrice(form.generalPrice) then
      Err(HttpError(400, "General admission ticket is required"))
    else
      var general := NewLine(GeneralAdmission, form.generalPrice.value, IntOr(form.generalQuantity, DefaultGeneralQuantity));
      if PositivePrice(form.vipPrice) then
        var lines := [general, NewLine(Vip, form.vipPrice.value, IntOr(form.vipQuantity, DefaultVipQuantity))];
        assert lines[1..][1..] == [];
        assert SumSold(lines[1..]) == lines[1].sold + SumSold(lines[1..][1..]);
        Ok(lines)
      else
        Ok([general])
  }

  /** What the schema demands of a new event beyond its tickets: every
      required string is non-empty (the address may come from `location`),
      the date and both coordinates parse, and the organiser has a name. */
  predicate Complete(form: EventForm, organizer: Organizer) {
    form.title != "" && form.description != "" && form.category != ""
    && form.date.Some? && form.startTime != "" && form.endTime != ""
    && form.venueName != "" && StrOr(form.venueAddress, form.location) != ""
    && form.coordinates.Some? && organizer.name != ""
  }

  /** `createEvent`: builds the stored event from the form, the organiser
      and the URLs of the uploaded images. The ticket check answers 400
      first; a form the schema refuses fails on insertion, which the
      handler reports as 500. */
  function CreateEvent(form: EventForm, organizer: Organizer, uploaded: seq<string>, id: Id, now: int): (r: Result<Event, HttpError>)
    ensures r.Ok? <==> PositivePrice(form.generalPrice) && Complete(form, organizer)
    ensures !PositivePrice(form.generalPrice) ==> r.Err? && r.error.status == 400
    ensures PositivePrice(form.generalPrice) && !Complete(form, organizer) ==> r.Err? && r.error.status == 500
    ensures r.Ok? ==> r.value.attendees == 0 && r.value.rating == 0
    ensures r.Ok? ==> r.value.price == form.generalPrice.value
    ensures r.Ok? ==> SumSold(r.value.tickets) == 0
    ensures r.Ok? ==> CreateTickets(form).Ok? && r.value.tickets == CreateTickets(form).value
    ensures r.Ok? ==> r.value.organizerId == organizer.id
    ensures r.Ok? ==> r.value.images == (if |uploaded| > 0 then uploaded else [DefaultImage])
    ensures r.Ok? ==> r.value.venue.capacity == IntOr(form.venueCapacity, DefaultCapacity)
    ensures r.Ok? ==> r.value.venue.address == StrOr(form.venueAddress, form.location)
    ensures r.Ok? ==> r.value.date == form.date.value
                      && r.value.venue.coordinates == [form.coordinates.value.0, form.coordinates.value.1]
  {
    match CreateTickets(form)
    case Err(e) => Err(e)
    case Ok(tickets) =>
      if !Complete(form, organizer) then Err(HttpError(500, "Event validation failed"))
      else
        Ok(Event(
          id, form.title, form.description, form.category, form.date.value, form.startTime, form.endTime,
          if |uploaded| > 0 then uploaded else [DefaultImage],
          Venue(form.venueName, StrOr(form.venueAddress, form.location),
                IntOr(form.venueCapacity, DefaultCapacity), Point,
                [form.coordinates.value.0, form.coordinates.value.1]),
          form.generalPrice.value, organizer.id, organizer.name, tickets, 0, 0, form.featured, now))
  }

  /** The fields an update may carry; `""` and `None` mean not supplied. */
  datatype UpdateForm = UpdateForm(
    title: string,
    description: string,
    category: string,
    date: Option<int>,
    location: string,
    venue: Option<Venue>,
    featured: Option<bool>,
    generalPrice: Option<nat>,
    generalQuantity: Option<nat>,
    vipPrice: Option<nat>,
    vipQuantity: Option<nat>)

  /** `existingTickets.find(t => t.type === type)?.sold || 0`. */
  function SoldOf(tickets: seq<TicketLine>, typeName: string): (r: nat)
    ensures FindType(tickets, typeName).None? ==> r == 0
    ensures FindType(tickets, typeName).Some? ==> r == tickets[FindType(tickets, typeName).value].sold
  {
    match FindType(tickets, typeName)
    case None => 0
    case Some(j) => tickets[j].sold
  }

  /** The sold count carried over for a type is that of its first line in
      the stored catalogue (its only line when types are distinct), and 0
      for a type the catalogue lacks. */
  lemma SoldOfFirstLine(tickets: seq<TicketLine>, i: nat)
    requires i < |tickets|
    requires forall j :: 0 <= j < i ==> tickets[j].typeName != tickets[i].typeName
    ensures SoldOf(tickets, tickets[i].typeName) == tickets[i].sold
    ensures forall t :: (forall j :: 0 <= j < |tickets| ==> tickets[j].typeName != t) ==> SoldOf(tickets, t) == 0
  {
  }

  /** The rebuilt catalogue of an update: a type is kept only when its price
      is re-submitted, and it keeps the sold count it had. */
  function UpdatedTickets(prev: seq<TicketLine>, form: UpdateForm): seq<TicketLine> {
    (if form.generalPrice.Some?
     then [TicketLine(GeneralAdmission, form.generalPrice.value, IntOr(form.generalQuantity, 0), SoldOf(prev, GeneralAdmission))]
     else [])
    + (if form.vipPrice.Some?
       then [TicketLine(Vip, form.vipPrice.value, IntOr(form.vipQuantity, 0), SoldOf(prev, Vip))]
       else [])
  }

  /** `updateEvent`: not found is 404, a caller other than the organiser is
      403; otherwise supplied fields replace stored ones and the rest stay.
      A `location` string takes precedence over a venue object, and a string
      cannot be stored in the nested venue, so the update fails with 500. */
  function UpdateEvent(stored: Option<Event>, caller: Id, form: UpdateForm, uploaded: Option<seq<string>>): (r: Result<Event, HttpError>)
    ensures stored.None? <==> r.Err? && r.error.status == 404
    ensures stored.Some? && stored.value.organizerId != caller <==> r.Err? && r.error.status == 403
    ensures stored.Some? && stored.value.organizerId == caller && form.location != ""
            <==> r.Err? && r.error.status == 500
    ensures r.Ok? ==> stored.Some? && stored.value.organizerId == caller
    ensures r.Ok? ==> r.value.id == stored.value.id && r.value.organizerId == stored.value.organizerId
                      && r.value.organizerName == stored.value.organizerName
    ensures r.Ok? ==> r.value.attendees == stored.value.attendees && r.value.rating == stored.value.rating
    ensures r.Ok? ==> r.value.startTime == stored.value.startTime && r.value.endTime == stored.value.endTime
                      && r.value.createdAt == stored.value.createdAt
    ensures r.Ok? ==> (form.title != "" ==> r.value.title == form.title)
                      && (form.title == "" ==> r.value.title == stored.value.title)
    ensures r.Ok? ==> (form.description != "" ==> r.value.description == form.description)
                      && (form.description == "" ==> r.value.description == stored.value.description)
    ensures r.Ok? ==> (form.category != "" ==> r.value.category == form.category)
                      && (form.category == "" ==> r.value.category == stored.value.category)
    ensures r.Ok? ==> (form.date.Some? ==> r.value.date == form.date.value)
                      && (form.date.None? ==> r.value.date == stored.value.date)
    ensures r.Ok? ==> (form.venue.Some? ==> r.value.venue == form.venue.value)
                      && (form.venue.None? ==> r.value.venue == stored.value.venue)
    ensures r.Ok? ==> (form.featured.Some? ==> r.value.featured == form.featured.value)
                      && (form.featured.None? ==> r.value.featured == stored.value.featured)
    ensures r.Ok? ==> (form.generalPrice.Some? ==> r.value.price == form.generalPrice.value)
                      && (form.generalPrice.None? ==> r.value.price == stored.value.price)
    ensures r.Ok? ==> (uploaded.Some? ==> r.value.images == uploaded.value)
                      && (uploaded.None? ==> r.value.images == stored.value.images)
  {
    match stored
    case None => Err(HttpError(404, "Event not found"))
    case Some(e) =>
      if e.organizerId != caller then Err(HttpError(403, "Not authorized to update this event"))
      else if form.location != "" then Err(HttpError(500, "Cast to venue failed"))
      else
        Ok(e.(
          title := StrOr(form.title, e.title),
          description := StrOr(form.description, e.description),
          category := StrOr(form.category, e.category),
          date := form.date.GetOr(e.date),
          venue := form.venue.GetOr(e.venue),
          images := uploaded.GetOr(e.images),
          featured := form.featured.GetOr(e.featured),
          price := if form.generalPrice.Some? then form.generalPrice.value else e.price,
          tickets := UpdatedTickets(e.tickets, form)))
  }

  /** Every type in an updated catalogue was re-submitted and carries the
      sold count the stored catalogue had for it; nothing else is kept. */
  lemma UpdateKeepsSold(stored: Option<Event>, caller: Id, form: UpdateForm, uploaded: Option<seq<string>>)
    requires UpdateEvent(stored, caller, form, uploaded).Ok?
    ensures var e := UpdateEvent(stored, caller, form, uploaded).value;
      forall i :: 0 <= i < |e.tickets| ==>
        e.tickets[i].sold == SoldOf(stored.value.tickets, e.tickets[i].typeName)
        && ((e.tickets[i].typeName == GeneralAdmission && form.generalPrice.Some?)
            || (e.tickets[i].typeName == Vip && form.vipPrice.Some?))
    ensures var e := UpdateEvent(stored, caller, form, uploaded).value;
      |e.tickets| == (if form.generalPrice.Some? then 1 else 0) + (if form.vipPrice.Some? then 1 else 0)
  {
  }

  /** `deleteEvent` on the stored collection: 404 and 403 as for update;
      otherwise exactly the found event is removed. */
  function DeleteEvent(events: seq<Event>, id: Id, caller: Id): (r: Result<seq<Event>, HttpError>)
    ensures Seqs.FirstIndex(events, (e: Event) => e.id == id).None? <==> r.Err? && r.error.status == 404
    ensures var k := Seqs.FirstIndex(events, (e: Event) => e.id == id);
      k.Some? && events[k.value].organizerId != caller <==> r.Err? && r.error.status == 403
    ensures var k := Seqs.FirstIndex(events, (e: Event) => e.id == id);
      k.Some? && events[k.value].organizerId == caller <==> r.Ok?
    ensures r.Err? ==> r.error.status in {403, 404}
    ensures r.Ok? ==> |r.value| + 1 == |events|
    ensures r.Ok? ==> exists k :: 0 <= k < |events| && events[k].id == id && events[k].organizerId == caller
                                  && multiset(r.value) + multiset{events[k]} == multiset(events)
  {
    match Seqs.FirstIndex(events, (e: Event) => e.id == id)
    case None => Err(HttpError(404, "Event not found"))
    case Some(k) =>
      if events[k].organizerId != caller then Err(HttpError(403, "Not authorized to delete this event"))
      else
        assert events == events[..k] + [events[k]] + events[k + 1..];
        Ok(events[..k] + events[k + 1..])
  }

  /** The pagination block of a listing. `totalPages` is `None` where
      JavaScript yields `Infinity` or `NaN` (a zero limit). */
  datatype PageInfo = PageInfo(currentPage: int, totalPages: Option<nat>, totalItems: nat, hasNext: bool, hasPrev: bool)

  const DefaultPage: int := 1
  const DefaultLimit: nat := 12

  /** `Math.ceil(total / limit)` for a positive limit. */
  function CeilDiv(total: nat, limit: nat): (r: nat)
    requires limit > 0
    ensures r * limit >= total
    ensures r == 0 || (r - 1) * limit < total
  {
    (total + limit - 1) / limit
  }

  /** The skip offset and the pagination block of `getEvents`. A negative
      skip is refused by the store, which the handler reports as 500. */
  function Paginate(page: int, limit: nat, total: nat): (r: Result<(nat, PageInfo), HttpError>)
    ensures r.Err? <==> (page - 1) * limit < 0
    ensures r.Ok? ==> r.value.0 == (page - 1) * limit
    ensures r.Ok? ==> (r.value.1.hasPrev <==> page > 1)
    ensures r.Ok? && limit > 0 ==> r.value.1.totalPages == Some(CeilDiv(total, limit))
    ensures r.Ok? && limit > 0 ==> (r.value.1.hasNext <==> page < r.value.1.totalPages.value)
    ensures r.Ok? ==> (r.value.1.hasNext <==> r.value.0 + limit < total)
  {
    var skip := (page - 1) * limit;
    if skip < 0 then Err(HttpError(500, "skip must be non-negative"))
    else
      var pages := if limit > 0 then Some(CeilDiv(total, limit)) else None;
      var hasNext := page * limit < total;
      assert limit > 0 ==> (hasNext <==> page < pages.value) by {
        if limit > 0 {
          HasNextIffBeforeLastPage(page, limit, total);
        }
      }
      Ok((skip, PageInfo(page, pages, total, hasNext, page > 1)))
  }

  /** For a positive limit, one more page exists exactly when the page
      number is below the page count. */
  lemma HasNextIffBeforeLastPage(page: int, limit: nat, total: nat)
    requires limit > 0
    ensures page * limit < total <==> page < CeilDiv(total, limit)
  {
    var c: int := CeilDiv(total, limit);
    if page >= c {
      MulMonotone(c, page, limit);
    } else {
      MulMonotone(page, c - 1, limit);
    }
  }

  lemma MulMonotone(a: int, b: int, k: nat)
    requires a <= b
    ensures a * k <= b * k
  {
    assert (b - a) * k >= 0;
  }

  /** The page the store returns: `skip` elements dropped, then at most
      `limit` kept (a zero limit keeps all). */
  function PageOf(sorted: seq<Event>, skip: nat, limit: nat): (r: seq<Event>)
    ensures limit > 0 ==> |r| <= limit
    ensures forall i :: 0 <= i < |r| ==> skip + i < |sorted| && r[i] == sorted[skip + i]
    ensures skip + limit <= |sorted| && limit > 0 ==> |r| == limit
    ensures |r| == if skip >= |sorted| then 0
                   else if limit == 0 then |sorted| - skip
                   else Min(limit, |sorted| - skip)
  {
    if skip >= |sorted| then []
    else if limit == 0 || skip + limit > |sorted| then sorted[skip..]
    else sorted[skip..skip + limit]
  }

  /** The orderings a listing can ask for. */
  datatype SortField = ByDate | ByPrice | ByRating | ByAttendees | ByCreatedAt

  datatype SortSpec = SortSpec(field: SortField, ascending: bool)

  /** The `sortOptions` table of `getEvents`, newest first otherwise. */
  function BackendSort(sortBy: string): (r: SortSpec)
    ensures sortBy !in {"date", "price", "rating", "popular"} ==> r == SortSpec(ByCreatedAt, false)
    ensures r.ascending <==> sortBy in {"date", "price"}
    ensures sortBy == "date" ==> r == SortSpec(ByDate, true)
    ensures sortBy == "price" ==> r == SortSpec(ByPrice, true)
    ensures sortBy == "rating" ==> r == SortSpec(ByRating, false)
    ensures sortBy == "popular" ==> r == SortSpec(ByAttendees, false)
    ensures r.field == ByCreatedAt <==> sortBy !in {"date", "price", "rating", "popular"}
  {
    if sortBy == "date" then SortSpec(ByDate, true)
    else if sortBy == "price" then SortSpec(ByPrice, true)
    else if sortBy == "rating" then SortSpec(ByRating, false)
    else if sortBy == "popular" then SortSpec(ByAttendees, false)
    else SortSpec(ByCreatedAt, false)
  }

  function FieldValue(e: Event, f: SortField): int {
    match f
    case ByDate => e.date
    case ByPrice => e.price
    case ByRating => e.rating
    case ByAttendees => e.attendees
    case ByCreatedAt => e.createdAt
  }

  /** The integer the ascending sort compares: the field, negated for a descending order. */
  function SortKey(spec: SortSpec): Event -> int {
    (e: Event) => if spec.ascending then FieldValue(e, spec.field) else -FieldValue(e, spec.field)
  }

  /** Orders events by a sort specification; a permutation of the input. */
  function SortEvents(events: seq<Event>, spec: SortSpec): (r: seq<Event>)
    ensures multiset(r) == multiset(events)
    ensures forall e :: e in r <==> e in events
    ensures spec.ascending ==> forall i, j :: 0 <= i < j < |r| ==> FieldValue(r[i], spec.field) <= FieldValue(r[j], spec.field)
    ensures !spec.ascending ==> forall i, j :: 0 <= i < j < |r| ==> FieldValue(r[i], spec.field) >= FieldValue(r[j], spec.field)
  {
    var r := Seqs.SortByKey(events, SortKey(spec));
    assert forall i, j :: 0 <= i < j < |r| ==> SortKey(spec)(r[i]) <= SortKey(spec)(r[j]);
    assert forall e :: e in r <==> e in multiset(r);
    assert forall e :: e in events <==> e in multiset(events);
    r
  }

  const RecommendationFallbackLimit: nat := 10

  /** `getRecommendedEvents`. `interests` is `None` when the user does not
      exist (404). With no interests the answer is up to ten featured
      upcoming events; otherwise every upcoming event in one of the
      categories of interest; both by date, earliest first. */
  function RecommendedEvents(interests: Option<seq<string>>, events: seq<Event>, now: int): (r: Result<seq<Event>, HttpError>)
    ensures interests.None? <==> r.Err?
    ensures r.Err? ==> r.error.status == 404
    ensures r.Ok? ==> forall i :: 0 <= i < |r.value| ==> r.value[i].date >= now && r.value[i] in events
    ensures r.Ok? && |interests.value| == 0 ==>
      |r.value| == Min(RecommendationFallbackLimit, |Seqs.Filter(events, (e: Event) => FeaturedFrom(e, now))|)
      && forall i :: 0 <= i < |r.value| ==> r.value[i].featured
    ensures r.Ok? && |interests.value| == 0 ==>
      forall e :: e in events && FeaturedFrom(e, now) && e !in r.value ==>
        forall i :: 0 <= i < |r.value| ==> r.value[i].date <= e.date
    ensures r.Ok? && |interests.value| > 0 ==>
      forall e :: e in r.value <==> e in events && e.date >= now && e.category in interests.value
    ensures r.Ok? && |interests.value| > 0 ==>
      multiset(r.value) == multiset(Seqs.Filter(events, (e: Event) => e.category in interests.value && e.date >= now))
    ensures r.Ok? ==> forall i, j :: 0 <= i < j < |r.value| ==> r.value[i].date <= r.value[j].date
  {
    match interests
    case None => Err(HttpError(404, "User not found."))
    case Some(cats) =>
      if |cats| == 0 then Ok(FeaturedUpcoming(events, now)) else Ok(UpcomingIn(cats, events, now))
  }

  /** A featured event on or after `now`. */
  predicate FeaturedFrom(e: Event, now: int) {
    e.featured && e.date >= now
  }

  function DateOf(e: Event): int {
    e.date
  }

  function Min(a: nat, b: nat): nat {
    if a <= b then a else b
  }

  /** The fallback: the ten earliest featured upcoming events (all of them
      when there are fewer), earliest first; no featured upcoming event left
      out is earlier than one returned. */
  function FeaturedUpcoming(events: seq<Event>, now: int): (r: seq<Event>)
    ensures |r| == Min(RecommendationFallbackLimit, |Seqs.Filter(events, (e: Event) => FeaturedFrom(e, now))|)
    ensures forall i :: 0 <= i < |r| ==> r[i].featured && r[i].date >= now && r[i] in events
    ensures forall i, j :: 0 <= i < j < |r| ==> r[i].date <= r[j].date
    ensures forall e :: e in events && FeaturedFrom(e, now) && e !in r ==>
      forall i :: 0 <= i < |r| ==> r[i].date <= e.date
  {
    var candidates := Seqs.Filter(events, (e: Event) => FeaturedFrom(e, now));
    var top := Seqs.SmallestByKey(candidates, DateOf, RecommendationFallbackLimit);
    SmallestFeatured(events, now, candidates, top);
    top
  }

  /** What the fallback's contract needs from `SmallestByKey`, stated on dates. */
  lemma SmallestFeatured(events: seq<Event>, now: int, candidates: seq<Event>, top: seq<Event>)
    requires candidates == Seqs.Filter(events, (e: Event) => FeaturedFrom(e, now))
    requires top == Seqs.SmallestByKey(candidates, DateOf, RecommendationFallbackLimit)
    ensures forall i :: 0 <= i < |top| ==> top[i].featured && top[i].date >= now && top[i] in events
    ensures forall i, j :: 0 <= i < j < |top| ==> top[i].date <= top[j].date
    ensures forall e :: e in events && FeaturedFrom(e, now) && e !in top ==>
      forall i :: 0 <= i < |top| ==> top[i].date <= e.date
  {
    assert forall i :: 0 <= i < |top| ==> top[i] in candidates;
    assert forall i, j :: 0 <= i < j < |top| ==> DateOf(top[i]) <= DateOf(top[j]);
    assert forall e :: e in candidates && e !in top ==> forall i :: 0 <= i < |top| ==> DateOf(top[i]) <= DateOf(e);
  }

  /** Every upcoming event in one of the categories, earliest first. */
  function UpcomingIn(cats: seq<string>, events: seq<Event>, now: int): (r: seq<Event>)
    ensures forall i :: 0 <= i < |r| ==> r[i].date >= now && r[i] in events
    ensures forall e :: e in r <==> e in events && e.date >= now && e.category in cats
    ensures multiset(r) == multiset(Seqs.Filter(events, (e: Event) => e.category in cats && e.date >= now))
    ensures forall i, j :: 0 <= i < j < |r| ==> r[i].date <= r[j].date
  {
    var candidates := Seqs.Filter(events, (e: Event) => e.category in cats && e.date >= now);
    var sorted := SortEvents(candidates, SortSpec(ByDate, true));
    assert forall i :: 0 <= i < |sorted| ==> sorted[i] in candidates;
    sorted
  }
}

/** The event discovery page, frontend/src/pages/EventDiscovery.jsx: which
    loaded events it lists under the current filters, and in what order. */
module Discovery {
  import opened Wrappers
  import Text
  import Seqs
  import Events
  import EventsSlice

  /** The shapes the loaded `events` value can take: an API response whose
      `data.events` is an array, a bare array, or anything else. Entries
      may be null. */
  datatype Loaded =
    | Response(dataEvents: seq<Option<Events.Event>>)
    | Bare(events: seq<Option<Events.Event>>)
    | Other

  /** `getEventsList`. */
  function EventsList(loaded: Loaded): (r: seq<Option<Events.Event>>)
    ensures loaded.Response? ==> r == loaded.dataEvents
    ensures loaded.Bare? ==> r == loaded.events
    ensures loaded.Other? ==> r == []
  {
    match loaded
    case Response(es) => es
    case Bare(es) => es
    case Other => []
  }

  /** The text the location filter searches: the venue's address, else its
      name, else nothing (the events carry no separate `location`). */
  function LocationText(e: Events.Event): (r: string)
    ensures e.venue.address != "" ==> r == e.venue.address
    ensures e.venue.address == "" && e.venue.name != "" ==> r == e.venue.name
    ensures e.venue.address == "" && e.venue.name == "" ==> r == ""
  {
    if e.venue.address != "" then e.venue.address
    else if e.venue.name != "" then e.venue.name
    else ""
  }

  /** Case-insensitive `haystack.includes(needle)`. */
  predicate Mentions(haystack: string, needle: string) {
    Text.Includes(Text.ToLower(haystack), Text.ToLower(needle))
  }

  /** The filter predicate: a non-null event in the chosen category ('All'
      admits every one), priced within the inclusive range, whose title
      mentions the search text and whose location text mentions the
      location, an empty text admitting every event. */
  predicate Shown(entry: Option<Events.Event>, f: EventsSlice.Filters) {
    entry.Some?
    && var e := entry.value;
    (f.category == EventsSlice.AllCategories || e.category == f.category)
    && f.priceMin <= e.price <= f.priceMax
    && (f.search == "" || Mentions(e.title, f.search))
    && (f.location == "" || Mentions(LocationText(e), f.location))
  }

  /** `filteredEvents`, with the null entries already gone. */
  function FilteredEvents(list: seq<Option<Events.Event>>, f: EventsSlice.Filters): (r: seq<Events.Event>)
    ensures |r| <= |list|
    ensures forall e :: e in r <==> Some(e) in list && Shown(Some(e), f)
    decreases |list|
  {
    if |list| == 0 then []
    else
      var rest := FilteredEvents(list[1..], f);
      assert forall x :: x in list <==> x == list[0] || x in list[1..];
      if Shown(list[0], f) then [list[0].value] + rest else rest
  }

  /** Filtering keeps the order of the list: what the first part shows
      comes before what the second part shows. */
  lemma {:induction false} FilteredEventsKeepOrder(a: seq<Option<Events.Event>>, b: seq<Option<Events.Event>>, f: EventsSlice.Filters)
    ensures FilteredEvents(a + b, f) == FilteredEvents(a, f) + FilteredEvents(b, f)
    decreases |a|
  {
    if |a| > 0 {
      assert (a + b)[1..] == a[1..] + b;
      FilteredEventsKeepOrder(a[1..], b, f);
    } else {
      assert a + b == b;
    }
  }

  /** The initial filters admit every event priced from 0 to 1000. */
  lemma InitialFiltersAdmit(e: Events.Event)
    requires e.price <= 1000
    ensures Shown(Some(e), EventsSlice.InitialFilters)
  {
  }

  /** An empty search text admits every title, whatever its case. */
  lemma EmptySearchAdmits(title: string)
    ensures Mentions(title, "")
  {
    Text.IncludesEmpty(Text.ToLower(title));
  }

  /** The sort options of the page: date and price ascending, rating and
      popularity descending; any other key keeps the order. */
  function DiscoverySort(sortBy: string): (r: Option<Events.SortSpec>)
    ensures r.None? <==> sortBy !in {"date", "price", "rating", "popular"}
    ensures r.Some? ==> (r.value.ascending <==> sortBy in {"date", "price"})
  {
    if sortBy == "date" then Some(Events.SortSpec(Events.ByDate, true))
    else if sortBy == "price" then Some(Events.SortSpec(Events.ByPrice, true))
    else if sortBy == "rating" then Some(Events.SortSpec(Events.ByRating, false))
    else if sortBy == "popular" then Some(Events.SortSpec(Events.ByAttendees, false))
    else None
  }

  /** `sortedEvents`: a permutation of the filtered list, ordered by the key;
      an unknown key (comparator 0, stable sort) leaves it as it is. */
  function SortedEvents(filtered: seq<Events.Event>, sortBy: string): (r: seq<Events.Event>)
    ensures multiset(r) == multiset(filtered)
    ensures DiscoverySort(sortBy).None? ==> r == filtered
    ensures sortBy == "date" ==> forall i, j :: 0 <= i < j < |r| ==> r[i].date <= r[j].date
    ensures sortBy == "price" ==> forall i, j :: 0 <= i < j < |r| ==> r[i].price <= r[j].price
    ensures sortBy == "rating" ==> forall i, j :: 0 <= i < j < |r| ==> r[i].rating >= r[j].rating
    ensures sortBy == "popular" ==> forall i, j :: 0 <= i < j < |r| ==> r[i].attendees >= r[j].attendees
  {
    match DiscoverySort(sortBy)
    case None => filtered
    case Some(spec) => Events.SortEvents(filtered, spec)
  }

  /** What the page lists. */
  function Listed(loaded: Loaded, f: EventsSlice.Filters, sortBy: string): (r: seq<Events.Event>)
    ensures forall e :: e in r <==> Some(e) in EventsList(loaded) && Shown(Some(e), f)
  {
    var filtered := FilteredEvents(EventsList(loaded), f);
    var r := SortedEvents(filtered, sortBy);
    assert forall e :: e in r <==> e in multiset(r);
    assert forall e :: e in filtered <==> e in multiset(filtered);
    r
  }
}

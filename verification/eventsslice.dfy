/** The events store of the front end, frontend/src/store/slices/eventsSlice.js:
    the loaded list, the event being viewed, and the discovery filters. */
module EventsSlice {
  import opened Wrappers
  import Events

  /** The discovery filters. `priceRange` is the pair `[min, max]`. */
  datatype Filters = Filters(category: string, priceMin: int, priceMax: int, date: Option<int>, location: string, search: string)

  datatype State = State(events: seq<Events.Event>, currentEvent: Option<Events.Event>, categories: seq<string>, filters: Filters)

  const AllCategories: string := "All"

  const InitialFilters: Filters := Filters(AllCategories, 0, 1000, None, "", "")

  const Initial: State := State([], None,
    ["All", "Technology", "Music", "Business", "Sports", "Arts", "Food", "Health"], InitialFilters)

  /** The keys a `setFilters` payload carries; an absent key is `None`. The
      price range is one key, replaced as a whole. */
  datatype FilterPatch = FilterPatch(category: Option<string>, priceRange: Option<(int, int)>, date: Option<Option<int>>,
                                     location: Option<string>, search: Option<string>)

  /** `{ ...filters, ...payload }`. */
  function MergeFilters(f: Filters, p: FilterPatch): (r: Filters)
    ensures r.category == p.category.GetOr(f.category)
    ensures p.priceRange.Some? ==> r.priceMin == p.priceRange.value.0 && r.priceMax == p.priceRange.value.1
    ensures p.priceRange.None? ==> r.priceMin == f.priceMin && r.priceMax == f.priceMax
    ensures r.date == p.date.GetOr(f.date)
    ensures r.location == p.location.GetOr(f.location)
    ensures r.search == p.search.GetOr(f.search)
  {
    Filters(
      if p.category.Some? then p.category.value else f.category,
      if p.priceRange.Some? then p.priceRange.value.0 else f.priceMin,
      if p.priceRange.Some? then p.priceRange.value.1 else f.priceMax,
      if p.date.Some? then p.date.value else f.date,
      if p.location.Some? then p.location.value else f.location,
      if p.search.Some? then p.search.value else f.search)
  }

  /** `setFilters`: only the filters change. */
  function SetFilters(s: State, p: FilterPatch): (r: State)
    ensures r.(filters := s.filters) == s
    ensures r.filters == MergeFilters(s.filters, p)
  {
    s.(filters := MergeFilters(s.filters, p))
  }

  /** An empty payload changes nothing; a later payload wins over an earlier one. */
  lemma SetFiltersLaws(s: State, p: FilterPatch, q: FilterPatch)
    ensures SetFilters(s, FilterPatch(None, None, None, None, None)) == s
    ensures q.category.Some? && q.priceRange.Some? && q.date.Some? && q.location.Some? && q.search.Some? ==>
      SetFilters(SetFilters(s, p), q) == SetFilters(s, q)
  {
  }

  /** `setSearch`: only the search text changes. */
  function SetSearch(s: State, text: string): (r: State)
    ensures r.filters.search == text
    ensures r.filters.(search := s.filters.search) == s.filters
    ensures r.(filters := s.filters) == s
  {
    s.(filters := s.filters.(search := text))
  }

  /** `setSearch` is `setFilters` with only a search key. */
  lemma SetSearchIsPatch(s: State, text: string)
    ensures SetSearch(s, text) == SetFilters(s, FilterPatch(None, None, None, None, Some(text)))
  {
  }

  /** `setEvents`: the list is replaced. */
  function SetEvents(s: State, events: seq<Events.Event>): (r: State)
    ensures r.events == events && r.(events := s.events) == s
  {
    s.(events := events)
  }

  /** `setCurrentEvent`: the first loaded event with the id, or none. */
  function SetCurrentEvent(s: State, id: Id): (r: State)
    ensures r.(currentEvent := s.currentEvent) == s
    ensures r.currentEvent.None? <==> forall i :: 0 <= i < |s.events| ==> s.events[i].id != id
    ensures r.currentEvent.Some? ==> r.currentEvent.value in s.events && r.currentEvent.value.id == id
  {
    s.(currentEvent := FindById(s.events, id))
  }

  /** `events.find(event => event._id === id) || null`. */
  function FindById(events: seq<Events.Event>, id: Id): (r: Option<Events.Event>)
    ensures r.None? <==> forall i :: 0 <= i < |events| ==> events[i].id != id
    ensures r.Some? ==> r.value in events && r.value.id == id
    ensures r.Some? ==> exists k :: 0 <= k < |events| && events[k] == r.value && forall i :: 0 <= i < k ==> events[i].id != id
    decreases |events|
  {
    if |events| == 0 then None
    else if events[0].id == id then Some(events[0])
    else
      var r := FindById(events[1..], id);
      assert forall i :: 1 <= i < |events| ==> events[i] == events[1..][i - 1];
      if r.Some? then
        var k :| 0 <= k < |events[1..]| && events[1..][k] == r.value && forall i :: 0 <= i < k ==> events[1..][i].id != id;
        assert events[k + 1] == r.value;
        r
      else r
  }

  /** `clearCurrentEvent`. */
  function ClearCurrentEvent(s: State): (r: State)
    ensures r.currentEvent.None? && r.(currentEvent := s.currentEvent) == s
  {
    s.(currentEvent := None)
  }

  /** Viewing an event and clearing it again is just clearing. */
  lemma ViewThenClear(s: State, id: Id)
    ensures ClearCurrentEvent(SetCurrentEvent(s, id)) == ClearCurrentEvent(s)
  {
  }
}

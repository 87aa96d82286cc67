/** The booking tabs of the user dashboard,
    frontend/src/pages/UserDashboard/UserDashboard.jsx: which of the user's
    listed bookings each tab shows, and the counts on the tab labels. */
module UserDashboard {
  import Seqs
  import opened Bookings

  /** Upcoming: confirmed or merely created, for an event not yet past. */
  predicate Upcoming(v: BookingView, now: int) {
    (v.status == Confirmed || v.status == Created) && v.eventDate >= now
  }

  /** Past: confirmed, for an event that has passed. */
  predicate Past(v: BookingView, now: int) {
    v.status == Confirmed && v.eventDate < now
  }

  /** Cancelled: cancelled, whatever the date. */
  predicate CancelledTab(v: BookingView) {
    v.status == Cancelled
  }

  /** The test `filteredBookings` applies for the active tab; any other tab
      (the profile) shows no bookings. */
  predicate InTab(v: BookingView, tab: string, now: int) {
    if tab == "upcoming" then Upcoming(v, now)
    else if tab == "past" then Past(v, now)
    else if tab == "cancelled" then CancelledTab(v)
    else false
  }

  /** `filteredBookings`. */
  function FilteredBookings(views: seq<BookingView>, tab: string, now: int): (r: seq<BookingView>)
    ensures forall v :: v in r <==> v in views && InTab(v, tab, now)
  {
    Seqs.Filter(views, (v: BookingView) => InTab(v, tab, now))
  }

  /** The profile tab, like any tab other than the three booking tabs,
      lists no bookings. */
  lemma OtherTabEmpty(views: seq<BookingView>, tab: string, now: int)
    requires tab !in {"upcoming", "past", "cancelled"}
    ensures FilteredBookings(views, tab, now) == []
  {
    Seqs.FilterNone(views, (v: BookingView) => InTab(v, tab, now));
  }

  /** The label counts, each written out separately in `tabs`. */
  function UpcomingCount(views: seq<BookingView>, now: int): nat {
    |Seqs.Filter(views, (b: BookingView) => (b.status == Confirmed || b.status == Created) && b.eventDate >= now)|
  }

  function PastCount(views: seq<BookingView>, now: int): nat {
    |Seqs.Filter(views, (b: BookingView) => b.status == Confirmed && b.eventDate < now)|
  }

  function CancelledCount(views: seq<BookingView>): nat {
    |Seqs.Filter(views, (b: BookingView) => b.status == Cancelled)|
  }

  /** Each label counts exactly the bookings its tab lists. */
  lemma CountsMatchTabs(views: seq<BookingView>, now: int)
    ensures UpcomingCount(views, now) == |FilteredBookings(views, "upcoming", now)|
    ensures PastCount(views, now) == |FilteredBookings(views, "past", now)|
    ensures CancelledCount(views) == |FilteredBookings(views, "cancelled", now)|
  {
    Seqs.FilterSameTest(views, (b: BookingView) => (b.status == Confirmed || b.status == Created) && b.eventDate >= now,
                   (v: BookingView) => InTab(v, "upcoming", now));
    Seqs.FilterSameTest(views, (b: BookingView) => b.status == Confirmed && b.eventDate < now,
                   (v: BookingView) => InTab(v, "past", now));
    Seqs.FilterSameTest(views, (b: BookingView) => b.status == Cancelled,
                   (v: BookingView) => InTab(v, "cancelled", now));
  }

  /** The tabs never share a booking. */
  lemma TabsDisjoint(v: BookingView, now: int)
    ensures !(Upcoming(v, now) && Past(v, now))
    ensures !(Upcoming(v, now) && CancelledTab(v))
    ensures !(Past(v, now) && CancelledTab(v))
  {
  }

  /** A booking appears in no tab exactly when it is created for a past
      event, or refunded. */
  predicate Unlisted(v: BookingView, now: int) {
    (v.status == Created && v.eventDate < now) || v.status == Refunded
  }

  lemma NoTabIffUnlisted(v: BookingView, now: int)
    ensures !Upcoming(v, now) && !Past(v, now) && !CancelledTab(v) <==> Unlisted(v, now)
  {
  }

  /** The three counts and the unlisted bookings together account for
      every booking once. */
  lemma {:induction false} CountsPartition(views: seq<BookingView>, now: int)
    ensures UpcomingCount(views, now) + PastCount(views, now) + CancelledCount(views)
            + |Seqs.Filter(views, (v: BookingView) => Unlisted(v, now))| == |views|
    decreases |views|
  {
    if |views| > 0 {
      CountsPartition(views[1..], now);
    }
  }
}

/** The organiser dashboard page, frontend/src/pages/OrganizerDashboard.jsx:
    the CSV serialiser behind the export button, the status filter of the
    event list, and the tickets trend.

    The serialiser quotes every data field and doubles its inner quotes,
    as rules 5 to 7 of section 2 of RFC 4180 describe; it joins records
    with LF rather than CRLF and writes the header names unquoted. Its
    partner here is a reader for one quoted record, `ParseRecord`. */
module OrgDashboard {
  import opened Wrappers
  import Text
  import Seqs
  import Tickets
  import Bookings
  import Organizer

  /** One object of the exported data: its keys in insertion order, each
      with its value already converted to text (`'' + row[header]`). */
  type Row = seq<(string, string)>

  function Keys(row: Row): (r: seq<string>)
    ensures |r| == |row| && forall i :: 0 <= i < |row| ==> r[i] == row[i].0
  {
    seq(|row|, i requires 0 <= i < |row| => row[i].0)
  }

  /** `'' + row[header]`: the value under the key, or "undefined" when the
      row lacks it. */
  function Lookup(row: Row, key: string): (r: string)
    ensures (forall i :: 0 <= i < |row| ==> row[i].0 != key) ==> r == "undefined"
    ensures (exists i :: 0 <= i < |row| && row[i].0 == key) ==>
      exists i :: 0 <= i < |row| && row[i].0 == key && r == row[i].1
    decreases |row|
  {
    if |row| == 0 then "undefined"
    else if row[0].0 == key then row[0].1
    else
      assert forall i :: 1 <= i < |row| ==> row[1..][i - 1] == row[i];
      Lookup(row[1..], key)
  }

  /** `value.replace(/"/g, '""')`. */
  function Escape(s: string): (r: string)
    ensures |r| >= |s|
    ensures '"' !in s ==> r == s
    decreases |s|
  {
    if |s| == 0 then ""
    else if s[0] == '"' then "\"\"" + Escape(s[1..])
    else [s[0]] + Escape(s[1..])
  }

  /** A field as written: escaped and wrapped in double quotes. */
  function Quote(s: string): (r: string)
    ensures |r| >= 2 && r[0] == '"' && r[|r| - 1] == '"'
  {
    "\"" + Escape(s) + "\""
  }

  function QuoteAll(values: seq<string>): (r: seq<string>)
    ensures |r| == |values| && forall i :: 0 <= i < |values| ==> r[i] == Quote(values[i])
  {
    seq(|values|, i requires 0 <= i < |values| => Quote(values[i]))
  }

  /** The data line of a row: its values under the headers, quoted and
      joined by commas. */
  function DataLine(headers: seq<string>, row: Row): string {
    Text.Join(QuoteAll(seq(|headers|, i requires 0 <= i < |headers| => Lookup(row, headers[i]))), ',')
  }

  /** The lines of the document: the header line (the first row's keys
      joined by commas), then one line per row. */
  function CsvLines(data: seq<Row>): (r: seq<string>)
    requires |data| > 0
    ensures |r| == 1 + |data|
    ensures r[0] == Text.Join(Keys(data[0]), ',')
    ensures forall i :: 0 <= i < |data| ==> r[i + 1] == DataLine(Keys(data[0]), data[i])
  {
    var headers := Keys(data[0]);
    [Text.Join(headers, ',')] + seq(|data|, i requires 0 <= i < |data| => DataLine(headers, data[i]))
  }

  /** `convertToCSV`'s text: nothing for empty data, else the lines joined
      by LF. */
  function ConvertToCsv(data: seq<Row>): (r: Option<string>)
    ensures r.None? <==> |data| == 0
    ensures r.Some? ==> r.value == Text.Join(CsvLines(data), '\n')
  {
    if |data| == 0 then None else Some(Text.Join(CsvLines(data), '\n'))
  }

  /** Reads the body of a quoted field up to its closing quote, turning each
      doubled quote back into one. Yields the value and what follows the
      closing quote, or `None` when the quote is never closed. */
  function ParseBody(s: string): (r: Option<(string, string)>)
    ensures r.Some? ==> |r.value.1| < |s|
    decreases |s|
  {
    if |s| == 0 then None
    else if s[0] == '"' then
      if |s| >= 2 && s[1] == '"' then
        match ParseBody(s[2..])
        case None => None
        case Some(p) => Some(("\"" + p.0, p.1))
      else Some(("", s[1..]))
    else
      match ParseBody(s[1..])
      case None => None
      case Some(p) => Some(([s[0]] + p.0, p.1))
  }

  /** One or more quoted fields separated by commas, to the end. */
  function ParseFields(s: string): (r: Option<seq<string>>)
    ensures r.Some? ==> |r.value| >= 1
    decreases |s|
  {
    if |s| == 0 || s[0] != '"' then None
    else
      match ParseBody(s[1..])
      case None => None
      case Some(p) =>
        if p.1 == "" then Some([p.0])
        else if p.1[0] != ',' then None
        else
          match ParseFields(p.1[1..])
          case None => None
          case Some(rest) => Some([p.0] + rest)
  }

  /** A record of quoted fields; the empty line holds none. */
  function ParseRecord(s: string): (r: Option<seq<string>>)
    ensures r == Some([]) <==> s == ""
  {
    if s == "" then Some([]) else ParseFields(s)
  }

  /** The body of an escaped value, closed by a quote, reads back as the
      value, leaving whatever followed as long as it does not start with
      another quote. */
  lemma {:induction false} ParseBodyEscape(v: string, rest: string)
    requires rest == "" || rest[0] != '"'
    ensures ParseBody(Escape(v) + "\"" + rest) == Some((v, rest))
    decreases |v|
  {
    var s := Escape(v) + "\"" + rest;
    if |v| == 0 {
      assert s == "\"" + rest;
    } else if v[0] == '"' {
      ParseBodyEscape(v[1..], rest);
      assert s == "\"\"" + (Escape(v[1..]) + "\"" + rest);
      assert s[2..] == Escape(v[1..]) + "\"" + rest;
      assert "\"" + v[1..] == v;
    } else {
      ParseBodyEscape(v[1..], rest);
      assert s == [v[0]] + (Escape(v[1..]) + "\"" + rest);
      assert s[1..] == Escape(v[1..]) + "\"" + rest;
      assert [v[0]] + v[1..] == v;
    }
  }

  /** Quoted fields joined by commas read back as the values. */
  lemma {:induction false} ParseFieldsQuoted(values: seq<string>)
    requires |values| >= 1
    ensures ParseFields(Text.Join(QuoteAll(values), ',')) == Some(values)
    decreases |values|
  {
    var q := QuoteAll(values);
    var s := Text.Join(q, ',');
    if |values| == 1 {
      assert s == "\"" + (Escape(values[0]) + "\"" + "");
      ParseBodyEscape(values[0], "");
      assert s[1..] == Escape(values[0]) + "\"" + "";
      assert values == [values[0]];
    } else {
      var tail := Text.Join(q[1..], ',');
      assert q[1..] == QuoteAll(values[1..]);
      ParseFieldsQuoted(values[1..]);
      var after := "," + tail;
      assert s == "\"" + (Escape(values[0]) + "\"" + after);
      assert s[1..] == Escape(values[0]) + "\"" + after;
      ParseBodyEscape(values[0], after);
      assert after[1..] == tail;
      assert [values[0]] + values[1..] == values;
    }
  }

  /** Every data line reads back as exactly the row's values under the
      headers: one field per header, whatever quotes, commas or line
      breaks the values contain. */
  lemma DataLineRoundTrip(headers: seq<string>, row: Row)
    ensures var fields := ParseRecord(DataLine(headers, row));
      fields.Some? && |fields.value| == |headers|
      && forall i :: 0 <= i < |headers| ==> fields.value[i] == Lookup(row, headers[i])
  {
    var values := seq(|headers|, i requires 0 <= i < |headers| => Lookup(row, headers[i]));
    if |headers| == 0 {
      assert DataLine(headers, row) == "";
    } else {
      ParseFieldsQuoted(values);
      assert DataLine(headers, row) != "" by {
        assert |QuoteAll(values)[0]| >= 2;
      }
    }
  }

  /** `displayedEvents`: 'All' keeps every event, any other filter the
      events whose status equals it. */
  function DisplayedEvents(events: seq<Organizer.EventSummary>, filter: string): (r: seq<Organizer.EventSummary>)
    ensures forall e :: e in r <==> e in events && (filter == "All" || e.status == filter)
  {
    Seqs.Filter(events, (e: Organizer.EventSummary) => filter == "All" || e.status == filter)
  }

  /** The 'All' filter keeps the list as it is. */
  lemma AllKeepsEverything(events: seq<Organizer.EventSummary>)
    ensures DisplayedEvents(events, "All") == events
  {
    Seqs.FilterAll(events, (e: Organizer.EventSummary) => "All" == "All" || e.status == "All");
  }

  /** The server labels every listed event "Published", so on a listed
      page any filter other than 'All' and "Published" shows nothing. */
  lemma OnlyPublishedShows(db: Bookings.Db, organizerId: Id, page: int, limit: nat, filter: string)
    requires Organizer.OrganizerEvents(db, organizerId, page, limit).Ok?
    requires filter != "All" && filter != "Published"
    ensures DisplayedEvents(Organizer.OrganizerEvents(db, organizerId, page, limit).value.events, filter) == []
  {
    var events := Organizer.OrganizerEvents(db, organizerId, page, limit).value.events;
    Seqs.FilterNone(events, (e: Organizer.EventSummary) => filter == "All" || e.status == filter);
  }

  /** `ticketsTrend`: the units of each recent booking, the sum of its
      line quantities. */
  function TicketsTrend(recent: seq<Bookings.Booking>): (r: seq<nat>)
    ensures |r| == |recent|
    ensures forall i :: 0 <= i < |recent| ==> r[i] == Organizer.UnitsOf(recent[i])
  {
    seq(|recent|, i requires 0 <= i < |recent| => Tickets.SumQuantity(recent[i].tickets))
  }

  function Sum(xs: seq<nat>): nat
    decreases |xs|
  {
    if |xs| == 0 then 0 else xs[0] + Sum(xs[1..])
  }

  lemma {:induction false} SumTrend(recent: seq<Bookings.Booking>)
    ensures Sum(TicketsTrend(recent)) == Seqs.SumBy(recent, Organizer.UnitsOf)
    decreases |recent|
  {
    if |recent| > 0 {
      SumTrend(recent[1..]);
      assert TicketsTrend(recent)[1..] == TicketsTrend(recent[1..]);
    }
  }

  /** The trend of the recent bookings never shows more units than the
      dashboard's tickets sold. */
  lemma TrendWithinTicketsSold(db: Bookings.Db, organizerId: Id)
    ensures Sum(TicketsTrend(Organizer.RecentBookings(db, organizerId)))
            <= Organizer.DashboardStats(db, organizerId).ticketsSold
  {
    var active := Seqs.Filter(Organizer.BookingsFor(db.bookings, Organizer.OwnEvents(db.events, organizerId)), Organizer.Active);
    var sorted := Seqs.SortByKey(active, Organizer.NewestBookingFirst);
    SumTrend(Organizer.RecentBookings(db, organizerId));
    Seqs.SumByTake(sorted, Organizer.RecentBookingsLimit, Organizer.UnitsOf);
    Seqs.SumByPermutation(sorted, active, Organizer.UnitsOf);
  }
}

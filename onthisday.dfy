/**
 * The On-This-Day half of the collection: the shape of the daily feed, the
 * per-event normalisation of the inline loop in `main`, and the records the
 * 366-day walk produces.
 */
module OnThisDay {
  import opened Options
  import opened Text
  import opened Calendar
  import opened Records
  import opened CrimeKeywords

  /**
   * A page an event refers to. `desktopUrl` is `content_urls.desktop.page`,
   * None when any level of it is missing; `coordinates` is the JSON object,
   * if the page has one.
   */
  datatype Page = Page(
    title: string,
    description: Option<string>,
    desktopUrl: Option<string>,
    extract: Option<string>,
    coordinates: Option<map<string, Value>>)

  datatype Event = Event(text: string, year: Option<int>, pages: Option<seq<Page>>)

  /** The daily feed's JSON body; `events` may be missing. */
  datatype DayFeed = DayFeed(events: Option<seq<Event>>)

  /**
   * The request for the feed of a zero-padded month and day: the body, or None
   * where the request raises (transport failure, HTTP error status, bad JSON).
   */
  type Fetcher = (string, string) -> Option<DayFeed>

  function Min(a: int, b: int): int
  {
    if a <= b then a else b
  }

  /** `if coords_data := p.get("coordinates")`: the page has a non-empty coordinates object. */
  predicate HasCoordinates(p: Page)
  {
    p.coordinates.Some? && |p.coordinates.value| > 0
  }

  /** The position of the first page among `pages[:MAX_PAGES]` that has coordinates. */
  function CoordinatePage(pages: seq<Page>): (r: Option<nat>)
    ensures r.Some? ==> r.value < Min(|pages|, MAX_PAGES) && HasCoordinates(pages[r.value])
    ensures r.Some? ==> forall j :: 0 <= j < r.value ==> !HasCoordinates(pages[j])
    ensures r.None? ==> forall j :: 0 <= j < Min(|pages|, MAX_PAGES) ==> !HasCoordinates(pages[j])
  {
    CoordinatePageFrom(pages, 0)
  }

  function CoordinatePageFrom(pages: seq<Page>, i: nat): (r: Option<nat>)
    requires i <= Min(|pages|, MAX_PAGES)
    ensures r.Some? ==> i <= r.value < Min(|pages|, MAX_PAGES) && HasCoordinates(pages[r.value])
    ensures r.Some? ==> forall j :: i <= j < r.value ==> !HasCoordinates(pages[j])
    ensures r.None? ==> forall j :: i <= j < Min(|pages|, MAX_PAGES) ==> !HasCoordinates(pages[j])
    decreases Min(|pages|, MAX_PAGES) - i
  {
    if i == Min(|pages|, MAX_PAGES) then None
    else if HasCoordinates(pages[i]) then Some(i)
    else CoordinatePageFrom(pages, i + 1)
  }

  /** The `coordinates` the scan settles on: that page's object, or None for the initial "". */
  function Coordinates(pages: seq<Page>): Option<map<string, Value>>
  {
    match CoordinatePage(pages)
    case Some(i) => pages[i].coordinates
    case None => None
  }

  /** `coordinates.get(key, "") if isinstance(coordinates, dict) else ""`. */
  function CoordinateField(coordinates: Option<map<string, Value>>, key: string): Value
  {
    match coordinates
    case Some(c) => if key in c then c[key] else Str("")
    case None => Str("")
  }

  /**
   * The loop `for p in pages[:MAX_PAGES]` that keeps the first truthy
   * `p.get("coordinates")` and breaks.
   */
  method FindCoordinates(pages: seq<Page>) returns (coordinates: Option<map<string, Value>>)
    ensures coordinates == Coordinates(pages)
    ensures coordinates.Some? ==> |coordinates.value| > 0
  {
    coordinates := None;
    var window := pages[..Min(|pages|, MAX_PAGES)];
    var i := 0;
    while i < |window|
      invariant 0 <= i <= |window|
      invariant forall j :: 0 <= j < i ==> !HasCoordinates(pages[j])
      invariant coordinates == None
    {
      var p := window[i];
      if p.coordinates.Some? && |p.coordinates.value| > 0 {
        coordinates := p.coordinates;
        break;
      }
      i := i + 1;
    }
  }

  /** A page title as shown: `title.replace("_", " ")`. */
  function DisplayTitle(p: Page): (r: string)
    ensures |r| == |p.title| && '_' !in r
  {
    ReplaceChar(p.title, '_', ' ')
  }

  /** `p.get("content_urls", {}).get("desktop", {}).get("page", "")`. */
  function DesktopUrl(p: Page): string
  {
    p.desktopUrl.GetOr("")
  }

  /** The titles of `pages[1:MAX_PAGES]`, as shown. */
  function RelatedTitles(pages: seq<Page>): (r: seq<string>)
    requires |pages| > 0
    ensures |r| == Min(|pages|, MAX_PAGES) - 1 && |r| <= MAX_PAGES - 1
    ensures forall i :: 0 <= i < |r| ==> r[i] == DisplayTitle(pages[i + 1])
  {
    var n := Min(|pages|, MAX_PAGES) - 1;
    seq(n, i requires 0 <= i < n => DisplayTitle(pages[i + 1]))
  }

  /** The "title: url" pairs of `pages[1:MAX_PAGES]`. */
  function RelatedLinks(pages: seq<Page>): (r: seq<string>)
    requires |pages| > 0
    ensures |r| == |RelatedTitles(pages)|
    ensures forall i :: 0 <= i < |r| ==> r[i] == RelatedTitles(pages)[i] + ": " + DesktopUrl(pages[i + 1])
  {
    var n := Min(|pages|, MAX_PAGES) - 1;
    seq(n, i requires 0 <= i < n => DisplayTitle(pages[i + 1]) + ": " + DesktopUrl(pages[i + 1]))
  }

  /** The event passes the three filters: a keyword, a year at or after the cutoff, some pages. */
  predicate Kept(ev: Event)
  {
    CrimeKeyword(ev.text).Some? && ev.year.Some? && ev.year.value >= YEAR_CUTOFF && |ev.pages.GetOr([])| > 0
  }

  /**
   * The body of the event loop for one event of the feed of day `md`: a record
   * on that day, or the reason the event is passed over.
   */
  function EventRecord(ev: Event, md: MonthDay): Normalized
    requires Valid(md)
  {
    match CrimeKeyword(ev.text)
    case None => Rejected(NoKeyword)
    case Some(crimeType) =>
      if ev.year.None? || ev.year.value < YEAR_CUTOFF then Rejected(MissingOrEarlyYear)
      else
        var pages := ev.pages.GetOr([]);
        if |pages| == 0 then Rejected(NoPages)
        else
          var coordinates := Coordinates(pages);
          Accepted(md, Record(
            OnThisDay, Pad2(md.month), Pad2(md.day), ev.year.value, "", ev.text,
            DisplayTitle(pages[0]), pages[0].description.GetOr(""), crimeType, DesktopUrl(pages[0]),
            CoordinateField(coordinates, "lat"), CoordinateField(coordinates, "lon"),
            pages[0].extract.GetOr(""), Join(RelatedTitles(pages), ", "), Join(RelatedLinks(pages), ", ")))
  }

  /**
   * An event is kept exactly when it passes the three filters, each failed
   * filter has its own reason, and a kept event's record is built from the
   * day, the matched keyword and the event's first pages.
   */
  lemma EventRecordFields(ev: Event, md: MonthDay)
    requires Valid(md)
    ensures EventRecord(ev, md).Accepted? <==> Kept(ev)
    ensures CrimeKeyword(ev.text).None? ==> EventRecord(ev, md) == Rejected(NoKeyword)
    ensures CrimeKeyword(ev.text).Some? && (ev.year.None? || ev.year.value < YEAR_CUTOFF) ==>
              EventRecord(ev, md) == Rejected(MissingOrEarlyYear)
    ensures CrimeKeyword(ev.text).Some? && ev.year.Some? && ev.year.value >= YEAR_CUTOFF && |ev.pages.GetOr([])| == 0 ==>
              EventRecord(ev, md) == Rejected(NoPages)
    ensures EventRecord(ev, md).Accepted? ==>
              var pages := ev.pages.value;
              var rec := EventRecord(ev, md).record;
              && EventRecord(ev, md).date == md && RecordOn(rec, md)
              && rec.source == OnThisDay
              && rec.yearOfEvent == ev.year.value >= YEAR_CUTOFF
              && rec.event == ev.text
              && rec.crimeType == CrimeKeyword(ev.text).value && IsKeyword(rec.crimeType)
              && rec.title == DisplayTitle(pages[0]) && '_' !in rec.title
              && rec.description == pages[0].description.GetOr("")
              && rec.url == DesktopUrl(pages[0])
              && rec.extract == pages[0].extract.GetOr("")
              && rec.country == ""
              && rec.latitude == CoordinateField(Coordinates(pages), "lat")
              && rec.longitude == CoordinateField(Coordinates(pages), "lon")
              && rec.relatedTopics == Join(RelatedTitles(pages), ", ")
              && rec.topicPageUrls == Join(RelatedLinks(pages), ", ")
  {
  }

  /** The per-event body of the loop, lifted out of `main`; the coordinate scan is its inner loop. */
  method NormalizeEvent(ev: Event, md: MonthDay) returns (r: Normalized)
    requires Valid(md)
    ensures r == EventRecord(ev, md)
    ensures r.Accepted? <==> Kept(ev)
  {
    EventRecordFields(ev, md);
    var crimeType := CrimeKeyword(ev.text);
    if crimeType.None? {
      return Rejected(NoKeyword);
    }
    if ev.year.None? || ev.year.value < YEAR_CUTOFF {
      return Rejected(MissingOrEarlyYear);
    }
    var pages := ev.pages.GetOr([]);
    if |pages| == 0 {
      return Rejected(NoPages);
    }
    var coordinates := FindCoordinates(pages);
    r := Accepted(md, Record(
      OnThisDay, Pad2(md.month), Pad2(md.day), ev.year.value, "", ev.text,
      DisplayTitle(pages[0]), pages[0].description.GetOr(""), crimeType.value, DesktopUrl(pages[0]),
      CoordinateField(coordinates, "lat"), CoordinateField(coordinates, "lon"),
      pages[0].extract.GetOr(""), Join(RelatedTitles(pages), ", "), Join(RelatedLinks(pages), ", ")));
  }

  /** The outcomes for one day: none when the fetch failed, else one per event of the feed. */
  function DayResults(feed: Option<DayFeed>, md: MonthDay): seq<Normalized>
    requires Valid(md)
  {
    match feed
    case None => []
    case Some(f) =>
      var events := f.events.GetOr([]);
      seq(|events|, i requires 0 <= i < |events| => EventRecord(events[i], md))
  }

  /**
   * A failed fetch gives no outcome; a fetched feed gives the outcome of each
   * of its events, in order, and none when `events` is missing.
   */
  lemma DayResultsOfFeed(feed: Option<DayFeed>, md: MonthDay)
    requires Valid(md)
    ensures AllFiled(DayResults(feed, md))
    ensures feed.None? ==> DayResults(feed, md) == []
    ensures feed.Some? ==> |DayResults(feed, md)| == |feed.value.events.GetOr([])|
    ensures feed.Some? ==> forall i :: 0 <= i < |DayResults(feed, md)| ==>
              DayResults(feed, md)[i] == EventRecord(feed.value.events.GetOr([])[i], md)
    ensures forall i :: 0 <= i < |DayResults(feed, md)| && DayResults(feed, md)[i].Accepted? ==>
              DayResults(feed, md)[i].date == md
  {
  }

  /** The feed the loop requests for a day: the URL carries the zero-padded month and day. */
  function FeedOf(fetch: Fetcher, md: MonthDay): Option<DayFeed>
    requires Valid(md)
  {
    fetch(Pad2(md.month), Pad2(md.day))
  }

  /** The number of days the walk requests, the days of the leap year 2024. */
  const DAYS_WALKED: nat := 366

  /** The outcomes of the first `n` days of the walk over 2024, in walking order. */
  function ResultsUpTo(fetch: Fetcher, n: nat): seq<Normalized>
    requires n <= 366
  {
    if n == 0 then []
    else
      OrdinalRoundTrip(n);
      ResultsUpTo(fetch, n - 1) + DayResults(FeedOf(fetch, DateOfOrdinal(n)), DateOfOrdinal(n))
  }

  /** Walking one more day appends that day's outcomes. */
  lemma ResultsUpToStep(fetch: Fetcher, n: nat, md: MonthDay)
    requires n < 366 && md == DateOfOrdinal(n + 1)
    ensures Valid(md)
    ensures ResultsUpTo(fetch, n + 1) == ResultsUpTo(fetch, n) + DayResults(FeedOf(fetch, md), md)
  {
    OrdinalRoundTrip(n + 1);
  }

  /** The records the walk keeps for its `n`-th day are filed under that day, the day whose feed it requested. */
  lemma DayOfWalkIsDated(fetch: Fetcher, n: nat)
    requires 1 <= n <= 366
    ensures forall i :: |ResultsUpTo(fetch, n - 1)| <= i < |ResultsUpTo(fetch, n)| && ResultsUpTo(fetch, n)[i].Accepted? ==>
              ResultsUpTo(fetch, n)[i].date == DateOfOrdinal(n)
  {
    var md := DateOfOrdinal(n);
    ResultsUpToStep(fetch, n - 1, md);
    DayResultsOfFeed(FeedOf(fetch, md), md);
  }

  /** The accepted outcomes all come from this source, at or after the cutoff, with a keyword as crime type. */
  predicate KeptFromFeed(ns: seq<Normalized>)
  {
    forall i :: 0 <= i < |ns| && ns[i].Accepted? ==>
      && ns[i].record.yearOfEvent >= YEAR_CUTOFF
      && IsKeyword(ns[i].record.crimeType)
      && ns[i].record.source == OnThisDay
  }

  /** The records kept from outcomes of this source all have a year at or after the cutoff and a keyword as type. */
  lemma {:induction false} KeptRecordsFromFeed(ns: seq<Normalized>)
    requires KeptFromFeed(ns)
    ensures forall k :: 0 <= k < |KeptRecords(ns)| ==>
              KeptRecords(ns)[k].yearOfEvent >= YEAR_CUTOFF && IsKeyword(KeptRecords(ns)[k].crimeType)
  {
    if |ns| > 0 {
      var init := ns[..|ns| - 1];
      assert KeptFromFeed(init) by {
        forall i | 0 <= i < |init| && init[i].Accepted?
          ensures init[i].record.yearOfEvent >= YEAR_CUTOFF && IsKeyword(init[i].record.crimeType)
        {
          assert init[i] == ns[i];
        }
      }
      KeptRecordsFromFeed(init);
    }
  }

  lemma DayResultsKeptFromFeed(feed: Option<DayFeed>, md: MonthDay)
    requires Valid(md)
    ensures AllFiled(DayResults(feed, md)) && KeptFromFeed(DayResults(feed, md))
  {
    DayResultsOfFeed(feed, md);
    var ns := DayResults(feed, md);
    forall i | 0 <= i < |ns| && ns[i].Accepted?
      ensures ns[i].record.yearOfEvent >= YEAR_CUTOFF && IsKeyword(ns[i].record.crimeType)
      ensures ns[i].record.source == OnThisDay
    {
      assert ns[i] == EventRecord(feed.value.events.GetOr([])[i], md);
      EventRecordFields(feed.value.events.GetOr([])[i], md);
    }
  }

  lemma ConcatFiled(a: seq<Normalized>, b: seq<Normalized>)
    requires AllFiled(a) && AllFiled(b) && KeptFromFeed(a) && KeptFromFeed(b)
    ensures AllFiled(a + b) && KeptFromFeed(a + b)
  {
    var ab := a + b;
    forall i | |a| <= i < |ab|
      ensures ab[i] == b[i - |a|]
    {
    }
  }

  /** Walking one more day keeps every kept record filed, at or after the cutoff, with a keyword as type. */
  lemma ResultsUpToFiledStep(fetch: Fetcher, n: nat)
    requires n < 366
    requires AllFiled(ResultsUpTo(fetch, n)) && KeptFromFeed(ResultsUpTo(fetch, n))
    ensures AllFiled(ResultsUpTo(fetch, n + 1)) && KeptFromFeed(ResultsUpTo(fetch, n + 1))
  {
    var md := DateOfOrdinal(n + 1);
    ResultsUpToStep(fetch, n, md);
    DayResultsKeptFromFeed(FeedOf(fetch, md), md);
    ConcatFiled(ResultsUpTo(fetch, n), DayResults(FeedOf(fetch, md), md));
  }

  /**
   * Every record the walk keeps sits on the day filed beside it, and has a
   * year at or after the cutoff and a keyword as crime type.
   */
  lemma ResultsUpToFiled(fetch: Fetcher, n: nat)
    requires n <= 366
    ensures AllFiled(ResultsUpTo(fetch, n)) && KeptFromFeed(ResultsUpTo(fetch, n))
  {
    var walked := 0;
    while walked < n
      invariant walked <= n
      invariant AllFiled(ResultsUpTo(fetch, walked)) && KeptFromFeed(ResultsUpTo(fetch, walked))
    {
      ResultsUpToFiledStep(fetch, walked);
      walked := walked + 1;
    }
  }
}

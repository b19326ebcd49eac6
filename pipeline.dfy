/**
 * The collection state of `main` and the run that fills and exports it: the
 * flat list of rows and the date-grouped map (a `defaultdict(list)`) are
 * created empty, filled by the Wikidata pass and the 366-day On-This-Day
 * walk, and handed to the export once.
 */
module Pipeline {
  import opened Options
  import opened Calendar
  import opened Records
  import opened Sorting
  import Wikidata
  import OnThisDay
  import Export

  /** The switches `GET_WIKIDATA` and `GET_ON_THIS_DAY`. */
  const GET_WIKIDATA := true
  const GET_ON_THIS_DAY := true

  predicate AllValid(dates: seq<MonthDay>)
  {
    forall i :: 0 <= i < |dates| ==> Valid(dates[i])
  }

  /** Every row sits on the day filed beside it. */
  predicate AllOn(rows: seq<Record>, dates: seq<MonthDay>)
    requires |rows| == |dates|
  {
    |rows| == 0 || (AllOn(rows[..|rows| - 1], dates[..|dates| - 1]) && RecordOn(rows[|rows| - 1], dates[|dates| - 1]))
  }

  lemma {:induction false} AllOnIndexed(rows: seq<Record>, dates: seq<MonthDay>)
    requires |rows| == |dates| && AllOn(rows, dates)
    ensures forall i :: 0 <= i < |rows| ==> RecordOn(rows[i], dates[i])
  {
    if |rows| > 0 {
      var n := |rows| - 1;
      AllOnIndexed(rows[..n], dates[..n]);
      forall i | 0 <= i < n
        ensures RecordOn(rows[i], dates[i])
      {
        assert rows[..n][i] == rows[i] && dates[..n][i] == dates[i];
      }
    }
  }

  /** `events_by_date[key].append(entry)` on a `defaultdict(list)`. */
  function FileUnder(m: map<string, seq<Entry>>, key: string, entry: Entry): map<string, seq<Entry>>
  {
    m[key := (if key in m then m[key] else []) + [entry]]
  }

  /** Filing adds the entry under its key and keeps every entry filed before. */
  lemma FilingKeeps(m: map<string, seq<Entry>>, key: string, entry: Entry, k: string, e: Entry)
    ensures key in FileUnder(m, key, entry) && entry in FileUnder(m, key, entry)[key]
    ensures k in m && e in m[k] ==> k in FileUnder(m, key, entry) && e in FileUnder(m, key, entry)[k]
  {
    var filed := (if key in m then m[key] else []) + [entry];
    assert filed[|filed| - 1] == entry;
    if k in m && e in m[k] && k == key {
      var j :| 0 <= j < |m[k]| && m[k][j] == e;
      assert filed[j] == e;
    }
  }

  /** The key order of a dict after a lookup of `key` that creates it when missing. */
  function NoteKey(keys: seq<string>, key: string): seq<string>
  {
    if key in keys then keys else keys + [key]
  }

  /**
   * The date-grouped map after filing `rows[i]` under the label of `dates[i]`,
   * for each i in order: `events_by_date[label].append({event: payload})`.
   */
  function Group(rows: seq<Record>, dates: seq<MonthDay>): map<string, seq<Entry>>
    requires |rows| == |dates| && AllValid(dates)
  {
    if |rows| == 0 then map[]
    else
      var n := |rows| - 1;
      FileUnder(Group(rows[..n], dates[..n]), DateLabel(dates[n]), EntryOf(rows[n]))
  }

  /** The entries of the records filed under `key`, in filing order. */
  function EntriesUnder(rows: seq<Record>, dates: seq<MonthDay>, key: string): seq<Entry>
    requires |rows| == |dates| && AllValid(dates)
  {
    if |rows| == 0 then []
    else
      var n := |rows| - 1;
      EntriesUnder(rows[..n], dates[..n], key) + (if DateLabel(dates[n]) == key then [EntryOf(rows[n])] else [])
  }

  /**
   * Lockstep: the map holds a label exactly when some record was filed under
   * it, and under each label exactly the entries of the records filed there,
   * one per record, in filing order.
   */
  lemma {:induction false} GroupIsLockstep(rows: seq<Record>, dates: seq<MonthDay>)
    requires |rows| == |dates| && AllValid(dates)
    ensures forall key :: key in Group(rows, dates) <==> |EntriesUnder(rows, dates, key)| > 0
    ensures forall key :: key in Group(rows, dates) ==> Group(rows, dates)[key] == EntriesUnder(rows, dates, key)
  {
    if |rows| > 0 {
      var n := |rows| - 1;
      GroupIsLockstep(rows[..n], dates[..n]);
    }
  }

  /** Every record is filed under the label of its own day. */
  lemma {:induction false} EveryRecordIsGrouped(rows: seq<Record>, dates: seq<MonthDay>, i: int)
    requires |rows| == |dates| && AllValid(dates) && 0 <= i < |rows|
    ensures DateLabel(dates[i]) in Group(rows, dates)
    ensures EntryOf(rows[i]) in Group(rows, dates)[DateLabel(dates[i])]
  {
    var n := |rows| - 1;
    var key, entry := DateLabel(dates[i]), EntryOf(rows[i]);
    if i < n {
      EveryRecordIsGrouped(rows[..n], dates[..n], i);
      assert dates[..n][i] == dates[i] && rows[..n][i] == rows[i];
      FilingKeeps(Group(rows[..n], dates[..n]), DateLabel(dates[n]), EntryOf(rows[n]), key, entry);
    } else {
      FilingKeeps(Group(rows[..n], dates[..n]), key, entry, key, entry);
    }
  }

  /** The order in which the labels first became keys of the map. */
  function KeyOrder(dates: seq<MonthDay>): seq<string>
    requires AllValid(dates)
  {
    if |dates| == 0 then []
    else
      var n := |dates| - 1;
      NoteKey(KeyOrder(dates[..n]), DateLabel(dates[n]))
  }

  lemma Associative<T>(a: seq<T>, b: seq<T>, c: seq<T>)
    ensures (a + b) + c == a + (b + c)
  {
  }

  /** An accumulator holding `base + prefix` that is then extended by `step` holds `base + whole`. */
  lemma ExtendedByStep<T>(base: seq<T>, held: seq<T>, extended: seq<T>, prefix: seq<T>, step: seq<T>, whole: seq<T>)
    requires held == base + prefix && extended == held + step && whole == prefix + step
    ensures extended == base + whole
  {
    Associative(base, prefix, step);
  }

  predicate NoDuplicates<T(==)>(s: seq<T>)
  {
    forall i, j :: 0 <= i < j < |s| ==> s[i] != s[j]
  }

  /** A sequence without repeats holds each value at most once. */
  lemma {:induction false} CountedOnce<T>(s: seq<T>, x: T)
    requires NoDuplicates(s)
    ensures multiset(s)[x] <= 1
  {
    if |s| > 0 {
      var rest := s[1..];
      assert s == [s[0]] + rest;
      assert NoDuplicates(rest) by {
        forall i, j | 0 <= i < j < |rest| ensures rest[i] != rest[j] {
          assert rest[i] == s[i + 1] && rest[j] == s[j + 1];
        }
      }
      CountedOnce(rest, x);
      if x == s[0] {
        assert x !in rest by {
          forall i | 0 <= i < |rest| ensures rest[i] != x {
            assert rest[i] == s[i + 1];
          }
        }
      }
    }
  }

  /** A value at two positions is counted at least twice. */
  lemma CountedTwice<T>(s: seq<T>, i: int, j: int)
    requires 0 <= i < j < |s| && s[i] == s[j]
    ensures multiset(s)[s[i]] >= 2
  {
    assert s == s[..j] + [s[j]] + s[j + 1..];
    assert s[..j][i] == s[i];
    assert s[i] in multiset(s[..j]);
  }

  /** The key order lists each key of the map once. */
  lemma {:induction false} KeyOrderListsKeys(rows: seq<Record>, dates: seq<MonthDay>)
    requires |rows| == |dates| && AllValid(dates)
    ensures NoDuplicates(KeyOrder(dates))
    ensures forall key :: key in KeyOrder(dates) <==> key in Group(rows, dates)
    ensures forall key :: key in KeyOrder(dates) ==> exists md :: Valid(md) && key == DateLabel(md)
  {
    if |rows| > 0 {
      var n := |rows| - 1;
      KeyOrderListsKeys(rows[..n], dates[..n]);
    }
  }

  /** Filing one more record that sits on its day keeps every record on its day and files it under its label. */
  lemma FilingStep(rows: seq<Record>, dates: seq<MonthDay>, r: Record, d: MonthDay)
    requires |rows| == |dates| && AllValid(dates) && AllOn(rows, dates) && RecordOn(r, d)
    ensures AllValid(dates + [d]) && AllOn(rows + [r], dates + [d])
    ensures Group(rows + [r], dates + [d]) == FileUnder(Group(rows, dates), DateLabel(d), EntryOf(r))
    ensures KeyOrder(dates + [d]) == NoteKey(KeyOrder(dates), DateLabel(d))
  {
    assert (rows + [r])[..|rows|] == rows;
    assert (dates + [d])[..|dates|] == dates;
  }

  /** The map's items in its key order. */
  function ItemsOf(rows: seq<Record>, dates: seq<MonthDay>): (items: seq<Export.Group>)
    requires |rows| == |dates| && AllValid(dates)
    ensures |items| == |KeyOrder(dates)|
    ensures forall i :: 0 <= i < |items| ==>
              items[i].0 == KeyOrder(dates)[i] && items[i].1 == EntriesUnder(rows, dates, items[i].0)
  {
    KeyOrderListsKeys(rows, dates);
    GroupIsLockstep(rows, dates);
    var keys := KeyOrder(dates);
    seq(|keys|, i requires 0 <= i < |keys| => (keys[i], Group(rows, dates)[keys[i]]))
  }

  /**
   * The JSON object's items, sorted by the day their label names, are strictly
   * chronological: each label names a day of 2024 and no two items share one.
   */
  lemma GroupedIsChronological(rows: seq<Record>, dates: seq<MonthDay>, grouped: seq<Export.Group>)
    requires |rows| == |dates| && AllValid(dates)
    requires multiset(grouped) == multiset(ItemsOf(rows, dates)) && SortedBy(grouped, Export.GroupLe)
    ensures forall i, j :: 0 <= i < j < |grouped| ==> Export.LabelKey(grouped[i].0) < Export.LabelKey(grouped[j].0)
  {
    var items := ItemsOf(rows, dates);
    var keys := KeyOrder(dates);
    KeyOrderListsKeys(rows, dates);
    assert NoDuplicates(items) by {
      forall i, j | 0 <= i < j < |items| ensures items[i] != items[j] {
        assert items[i].0 == keys[i] && items[j].0 == keys[j];
      }
    }
    forall i, j | 0 <= i < j < |grouped|
      ensures Export.LabelKey(grouped[i].0) < Export.LabelKey(grouped[j].0)
    {
      assert grouped[i] in multiset(items) && grouped[j] in multiset(items);
      var p :| 0 <= p < |items| && items[p] == grouped[i];
      var q :| 0 <= q < |items| && items[q] == grouped[j];
      assert keys[p] in keys && keys[q] in keys;
      var a :| Valid(a) && keys[p] == DateLabel(a);
      var b :| Valid(b) && keys[q] == DateLabel(b);
      LabelRoundTrip(a);
      LabelRoundTrip(b);
      if Export.LabelKey(grouped[i].0) == Export.LabelKey(grouped[j].0) {
        DayOfYearRoundTrip(a);
        DayOfYearRoundTrip(b);
        assert p == q;
        CountedTwice(grouped, i, j);
        CountedOnce(items, grouped[i]);
        assert false;
      }
    }
  }

  /** The collection state shared by both passes. */
  class Accumulators {
    /** `all_rows`. */
    var rows: seq<Record>
    /** `events_by_date`. */
    var eventsByDate: map<string, seq<Entry>>
    /** The insertion order of `events_by_date`'s keys. */
    var keyOrder: seq<string>
    /** The day each row was filed under. */
    ghost var dates: seq<MonthDay>

    ghost predicate Valid()
      reads this
    {
      && |dates| == |rows|
      && AllValid(dates)
      && AllOn(rows, dates)
      && eventsByDate == Group(rows, dates)
      && keyOrder == KeyOrder(dates)
    }

    constructor ()
      ensures Valid() && rows == [] && dates == [] && eventsByDate == map[] && keyOrder == []
    {
      rows, eventsByDate, keyOrder := [], map[], [];
      dates := [];
    }

    /**
     * Appends the row to the flat list and `{event: payload}` to the list of
     * the record's date label, creating that list (and key) when it is new.
     */
    method Add(date: MonthDay, record: Record)
      requires Valid() && RecordOn(record, date)
      modifies this
      ensures Valid()
      ensures rows == old(rows) + [record] && dates == old(dates) + [date]
      ensures eventsByDate == FileUnder(old(eventsByDate), DateLabel(date), EntryOf(record))
    {
      var key := DateLabel(date);
      FilingStep(rows, dates, record, date);
      rows, dates := rows + [record], dates + [date];
      eventsByDate, keyOrder := FileUnder(eventsByDate, key, EntryOf(record)), NoteKey(keyOrder, key);
    }

    /** Files an accepted outcome and drops a rejected one. */
    method File(outcome: Normalized)
      requires Valid() && (outcome.Accepted? ==> RecordOn(outcome.record, outcome.date))
      modifies this
      ensures Valid()
      ensures rows == old(rows) + KeptRecords([outcome]) && dates == old(dates) + KeptDates([outcome])
    {
      if outcome.Accepted? {
        Add(outcome.date, outcome.record);
      }
    }

    /**
     * The body of a loop over the outcomes `ns`: files `ns[i]` after the
     * records kept from the outcomes before it.
     */
    method FileNext(outcome: Normalized, ghost ns: seq<Normalized>, ghost i: nat, ghost rows0: seq<Record>, ghost dates0: seq<MonthDay>)
      requires i < |ns| && outcome == ns[i] && (outcome.Accepted? ==> RecordOn(outcome.record, outcome.date))
      requires Valid() && rows == rows0 + KeptRecords(ns[..i]) && dates == dates0 + KeptDates(ns[..i])
      modifies this
      ensures Valid() && rows == rows0 + KeptRecords(ns[..i + 1]) && dates == dates0 + KeptDates(ns[..i + 1])
      ensures |KeptRecords(ns[..i + 1])| == |KeptRecords(ns[..i])| + if outcome.Accepted? then 1 else 0
    {
      KeptStep(ns, i);
      ghost var rowsHeld, datesHeld := rows, dates;
      File(outcome);
      ExtendedByStep(rows0, rowsHeld, rows, KeptRecords(ns[..i]), KeptRecords([ns[i]]), KeptRecords(ns[..i + 1]));
      ExtendedByStep(dates0, datesHeld, dates, KeptDates(ns[..i]), KeptDates([ns[i]]), KeptDates(ns[..i + 1]));
    }

    /**
     * `process_wikidata_results`: nothing happens when the answer has no
     * `results.bindings`; otherwise every row is either filed or counted as
     * skipped, and the two counters add up to the number of rows.
     */
    method ProcessWikidataResults(data: Option<Wikidata.Response>, parse: Wikidata.IsoParser)
      returns (processed: nat, skipped: nat)
      requires Valid()
      modifies this
      ensures Valid()
      ensures Wikidata.Bindings(data).None? ==>
                rows == old(rows) && dates == old(dates) && processed == 0 && skipped == 0
      ensures Wikidata.Bindings(data).Some? ==>
                var ns := Wikidata.NormalizeAll(Wikidata.Bindings(data).value, parse);
                && rows == old(rows) + KeptRecords(ns)
                && dates == old(dates) + KeptDates(ns)
                && processed == |KeptRecords(ns)|
                && processed + skipped == |Wikidata.Bindings(data).value|
    {
      processed, skipped := 0, 0;
      var bindings := Wikidata.Bindings(data);
      if bindings.None? {
        return;
      }
      var results := bindings.value;
      ghost var ns := Wikidata.NormalizeAll(results, parse);
      var i := 0;
      while i < |results|
        invariant 0 <= i <= |results| && Valid()
        invariant rows == old(rows) + KeptRecords(ns[..i]) && dates == old(dates) + KeptDates(ns[..i])
        invariant processed == |KeptRecords(ns[..i])| && processed + skipped == i
      {
        var outcome := Wikidata.NormalizeBinding(results[i], parse);
        FileNext(outcome, ns, i, old(rows), old(dates));
        if outcome.Accepted? {
          processed := processed + 1;
        } else {
          skipped := skipped + 1;
        }
        i := i + 1;
      }
      assert ns[..i] == ns;
    }

    /**
     * The event loop for one day of the walk: each kept event of the day's
     * feed is filed under that day; a failed fetch files nothing.
     */
    method CollectDay(feed: Option<OnThisDay.DayFeed>, md: MonthDay)
      requires Valid() && Calendar.Valid(md)
      modifies this
      ensures Valid()
      ensures rows == old(rows) + KeptRecords(OnThisDay.DayResults(feed, md))
      ensures dates == old(dates) + KeptDates(OnThisDay.DayResults(feed, md))
    {
      OnThisDay.DayResultsOfFeed(feed, md);
      ghost var ns := OnThisDay.DayResults(feed, md);
      if feed.None? {
        return;
      }
      var events := feed.value.events.GetOr([]);
      var i := 0;
      while i < |events|
        invariant 0 <= i <= |events| && Valid()
        invariant rows == old(rows) + KeptRecords(ns[..i]) && dates == old(dates) + KeptDates(ns[..i])
      {
        var outcome := OnThisDay.NormalizeEvent(events[i], md);
        FileNext(outcome, ns, i, old(rows), old(dates));
        i := i + 1;
      }
      assert ns[..i] == ns;
    }

    /** The accumulators hold what they held at `rows0`/`dates0`, then the records kept from `ns`. */
    ghost predicate Extends(rows0: seq<Record>, dates0: seq<MonthDay>, ns: seq<Normalized>)
      reads this
    {
      rows == rows0 + KeptRecords(ns) && dates == dates0 + KeptDates(ns)
    }

    /** The accumulators hold what they held at `rows0`/`dates0`, then the records kept from the first `n` days. */
    ghost predicate Walked(fetch: OnThisDay.Fetcher, n: nat, rows0: seq<Record>, dates0: seq<MonthDay>)
      reads this
      requires n <= OnThisDay.DAYS_WALKED
    {
      Extends(rows0, dates0, OnThisDay.ResultsUpTo(fetch, n))
    }

    /**
     * One step of the walk: request the feed of the `day`-th day of 2024 and
     * file its kept events after those of the `walkedDays` days before.
     */
    method WalkDay(fetch: OnThisDay.Fetcher, day: nat, ghost walkedDays: nat, ghost rows0: seq<Record>, ghost dates0: seq<MonthDay>)
      requires day == walkedDays + 1 && day <= OnThisDay.DAYS_WALKED
      requires Valid() && Walked(fetch, walkedDays, rows0, dates0)
      modifies this
      ensures Valid() && Walked(fetch, day, rows0, dates0)
    {
      ghost var walked := OnThisDay.ResultsUpTo(fetch, walkedDays);
      var md := DateOfOrdinal(day);
      OnThisDay.ResultsUpToStep(fetch, walkedDays, md);
      var feed := fetch(Pad2(md.month), Pad2(md.day));
      ghost var today := OnThisDay.DayResults(feed, md);
      CollectDay(feed, md);
      KeptAppend(walked, today);
      Associative(rows0, KeptRecords(walked), KeptRecords(today));
      Associative(dates0, KeptDates(walked), KeptDates(today));
      assert Extends(rows0, dates0, walked + today);
    }

    /** The walk `for day in range(1, 367)` over the days of 2024, one feed request per day. */
    method CollectOnThisDay(fetch: OnThisDay.Fetcher)
      requires Valid()
      modifies this
      ensures Valid()
      ensures rows == old(rows) + KeptRecords(OnThisDay.ResultsUpTo(fetch, OnThisDay.DAYS_WALKED))
      ensures dates == old(dates) + KeptDates(OnThisDay.ResultsUpTo(fetch, OnThisDay.DAYS_WALKED))
    {
      var day := 1;
      ghost var walkedDays := 0;
      assert Walked(fetch, walkedDays, rows, dates);
      while day <= OnThisDay.DAYS_WALKED
        invariant 1 <= day <= OnThisDay.DAYS_WALKED + 1 && walkedDays == day - 1
        invariant Valid() && Walked(fetch, walkedDays, old(rows), old(dates))
      {
        WalkDay(fetch, day, walkedDays, old(rows), old(dates));
        walkedDays := day;
        day := day + 1;
      }
    }

    /** `events_by_date.items()`, in key order. */
    function Items(): (items: seq<Export.Group>)
      reads this
      requires Valid()
      ensures items == ItemsOf(rows, dates)
    {
      KeyOrderListsKeys(rows, dates);
      var keys, groups := keyOrder, eventsByDate;
      assert forall i :: 0 <= i < |keys| ==> keys[i] in groups;
      seq(|keys|, i requires 0 <= i < |keys| => (keys[i], groups[keys[i]]))
    }
  }

  /** What the Wikidata pass normalises: nothing when the pass is off or the answer is malformed. */
  function WikidataOutcomes(data: Option<Wikidata.Response>, parse: Wikidata.IsoParser): (ns: seq<Normalized>)
    ensures AllFiled(ns)
  {
    if GET_WIKIDATA && Wikidata.Bindings(data).Some? then Wikidata.NormalizeAll(Wikidata.Bindings(data).value, parse)
    else []
  }

  /** What the On-This-Day walk normalises: nothing when the walk is off. */
  function WalkOutcomes(fetch: OnThisDay.Fetcher): (ns: seq<Normalized>)
    ensures AllFiled(ns)
  {
    if GET_ON_THIS_DAY then
      OnThisDay.ResultsUpToFiled(fetch, OnThisDay.DAYS_WALKED);
      OnThisDay.ResultsUpTo(fetch, OnThisDay.DAYS_WALKED)
    else []
  }

  lemma FiledAppend(a: seq<Normalized>, b: seq<Normalized>)
    requires AllFiled(a) && AllFiled(b)
    ensures AllFiled(a + b)
  {
    var ab := a + b;
    forall i | |a| <= i < |ab|
      ensures ab[i] == b[i - |a|]
    {
    }
  }

  /** Every outcome of a run, Wikidata first, then the walk in day order. */
  function Outcomes(data: Option<Wikidata.Response>, parse: Wikidata.IsoParser, fetch: OnThisDay.Fetcher): (ns: seq<Normalized>)
    ensures AllFiled(ns)
    ensures AllValid(KeptDates(ns))
  {
    var ns := WikidataOutcomes(data, parse) + WalkOutcomes(fetch);
    FiledAppend(WikidataOutcomes(data, parse), WalkOutcomes(fetch));
    KeptIsAccepted(ns);
    ns
  }

  /** The records all have a year at or after the cutoff. */
  predicate AfterCutoff(records: seq<Record>)
  {
    forall k :: 0 <= k < |records| ==> records[k].yearOfEvent >= YEAR_CUTOFF
  }

  lemma WalkHonoursCutoff(fetch: OnThisDay.Fetcher)
    ensures AfterCutoff(KeptRecords(WalkOutcomes(fetch)))
  {
    OnThisDay.ResultsUpToFiled(fetch, OnThisDay.DAYS_WALKED);
    OnThisDay.KeptRecordsFromFeed(WalkOutcomes(fetch));
  }

  lemma WikidataHonoursCutoff(data: Option<Wikidata.Response>, parse: Wikidata.IsoParser)
    requires Wikidata.Bindings(data).Some? ==> Wikidata.HonoursCutoff(Wikidata.Bindings(data).value, parse)
    ensures AfterCutoff(KeptRecords(WikidataOutcomes(data, parse)))
  {
    if Wikidata.Bindings(data).Some? {
      Wikidata.KeptHonourCutoff(Wikidata.Bindings(data).value, parse);
    }
  }

  /**
   * Every record a run keeps, from either source, has a year at or after the
   * cutoff: the Wikidata answer by the query's own filter, the walk by the
   * year test of its event loop.
   */
  lemma OutcomesHonourCutoff(data: Option<Wikidata.Response>, parse: Wikidata.IsoParser, fetch: OnThisDay.Fetcher)
    requires Wikidata.Bindings(data).Some? ==> Wikidata.HonoursCutoff(Wikidata.Bindings(data).value, parse)
    ensures forall k :: 0 <= k < |KeptRecords(Outcomes(data, parse, fetch))| ==>
              KeptRecords(Outcomes(data, parse, fetch))[k].yearOfEvent >= YEAR_CUTOFF
  {
    var wiki, walk := WikidataOutcomes(data, parse), WalkOutcomes(fetch);
    WikidataHonoursCutoff(data, parse);
    WalkHonoursCutoff(fetch);
    KeptAppend(wiki, walk);
    assert AfterCutoff(KeptRecords(wiki) + KeptRecords(walk));
  }

  /** The DataFrame's input: one dict per collected record. */
  function RowsOf(records: seq<Record>): (rows: seq<Row>)
    ensures |rows| == |records|
    ensures forall k :: 0 <= k < |records| ==> rows[k] == RowOf(records[k])
    ensures forall k, c :: 0 <= k < |rows| && c in COLUMN_ORDER ==> c in rows[k]
    ensures forall k :: 0 <= k < |rows| ==>
              && MonthColumn in rows[k] && rows[k][MonthColumn] == Str(records[k].month)
              && DayColumn in rows[k] && rows[k][DayColumn] == Str(records[k].day)
              && YearOfEventColumn in rows[k] && rows[k][YearOfEventColumn] == Int(records[k].yearOfEvent)
  {
    seq(|records|, k requires 0 <= k < |records| => RowOf(records[k]))
  }

  /**
   * `pd.DataFrame(all_rows)` on collected rows already has every column of
   * `column_order`, so the loop that adds missing columns adds none.
   */
  lemma CollectedFrameIsComplete(records: seq<Record>)
    requires |records| > 0
    ensures forall i :: 0 <= i < |COLUMN_ORDER| ==> COLUMN_ORDER[i] in Export.FrameOf(RowsOf(records)).columns
  {
    var rows := RowsOf(records);
    forall i | 0 <= i < |COLUMN_ORDER|
      ensures COLUMN_ORDER[i] in Export.FrameOf(rows).columns
    {
      assert COLUMN_ORDER[i] in rows[0];
    }
  }

  /** Both passes over fresh, empty accumulators. */
  method Collect(data: Option<Wikidata.Response>, parse: Wikidata.IsoParser, fetch: OnThisDay.Fetcher)
    returns (acc: Accumulators)
    ensures fresh(acc) && acc.Valid()
    ensures acc.rows == KeptRecords(Outcomes(data, parse, fetch)) && acc.dates == KeptDates(Outcomes(data, parse, fetch))
  {
    acc := new Accumulators();
    ghost var wikidataPart := WikidataOutcomes(data, parse);
    if GET_WIKIDATA {
      var processed, skipped := acc.ProcessWikidataResults(data, parse);
    }
    assert acc.rows == KeptRecords(wikidataPart) && acc.dates == KeptDates(wikidataPart);
    if GET_ON_THIS_DAY {
      acc.CollectOnThisDay(fetch);
    }
    KeptAppend(wikidataPart, WalkOutcomes(fetch));
  }

  /**
   * `main` without its I/O: the Wikidata answer, the timestamp parser and the
   * day-feed fetcher are parameters. No output when nothing was collected;
   * otherwise the table is the shaped rows of every kept record, ordered by
   * (month, day, year_of_event), and the JSON object holds every date label
   * with its entries, in strictly chronological order.
   */
  method Run(data: Option<Wikidata.Response>, parse: Wikidata.IsoParser, fetch: OnThisDay.Fetcher)
    returns (out: Option<Export.Output>)
    ensures var ns := Outcomes(data, parse, fetch);
            out.None? <==> |KeptRecords(ns)| == 0
    ensures var ns := Outcomes(data, parse, fetch);
            out.Some? ==>
              && multiset(out.value.table) == multiset(Export.ShapeAll(RowsOf(KeptRecords(ns))))
              && SortedBy(out.value.table, Export.RowLe)
              && multiset(out.value.grouped) == multiset(ItemsOf(KeptRecords(ns), KeptDates(ns)))
              && forall i, j :: 0 <= i < j < |out.value.grouped| ==>
                   Export.LabelKey(out.value.grouped[i].0) < Export.LabelKey(out.value.grouped[j].0)
  {
    var acc := Collect(data, parse, fetch);
    var items := acc.Items();
    KeyOrderListsKeys(acc.rows, acc.dates);
    assert Export.LabelsParse(items) by {
      forall i | 0 <= i < |items|
        ensures ParseLabel(items[i].0).Some?
      {
        assert items[i].0 in KeyOrder(acc.dates);
        var md :| Valid(md) && items[i].0 == DateLabel(md);
        LabelRoundTrip(md);
      }
    }
    out := Export.Export(RowsOf(acc.rows), items);
    if out.Some? {
      GroupedIsChronological(acc.rows, acc.dates, out.value.grouped);
    }
  }
}

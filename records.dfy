/**
 * The canonical event record both sources are normalised into, its rendering
 * as the Python row dict, the payload stored in the date-grouped map, and the
 * per-record outcome of normalisation.
 */
module Records {
  import opened Calendar

  /** Minimum year of an On-This-Day event. */
  const YEAR_CUTOFF := 1900
  /** Number of leading pages scanned for coordinates and related topics. */
  const MAX_PAGES := 5

  /** A JSON number from the feed, copied through verbatim and never computed with. */
  datatype Coordinate = Coordinate(literal: string)

  /** A cell of a row dict: JSON null, an integer, a non-integer number kept as its text, or a string. */
  datatype Value = Null | Int(i: int) | Num(c: Coordinate) | Str(s: string)

  datatype Source = Wikidata | OnThisDay

  function SourceName(s: Source): string
  {
    match s
    case Wikidata => "Wikidata"
    case OnThisDay => "OnThisDay"
  }

  /** One collected event, field for field the row dict both normalisers build. */
  datatype Record = Record(
    source: Source,
    month: string,
    day: string,
    yearOfEvent: int,
    country: string,
    event: string,
    title: string,
    description: string,
    crimeType: string,
    url: string,
    latitude: Value,
    longitude: Value,
    extract: string,
    relatedTopics: string,
    topicPageUrls: string)

  /** The keys of a row dict. */
  datatype Column =
    | SourceColumn | MonthColumn | DayColumn | YearOfEventColumn | CountryColumn | EventColumn
    | TitleColumn | DescriptionColumn | CrimeTypeColumn | UrlColumn | LatitudeColumn
    | LongitudeColumn | ExtractColumn | RelatedTopicsColumn | TopicPageUrlsColumn

  /** The export's `column_order`, which names every column once. */
  const COLUMN_ORDER: seq<Column> := [
    SourceColumn, MonthColumn, DayColumn, YearOfEventColumn, CountryColumn, EventColumn, TitleColumn,
    DescriptionColumn, CrimeTypeColumn, UrlColumn, LatitudeColumn, LongitudeColumn, ExtractColumn,
    RelatedTopicsColumn, TopicPageUrlsColumn]

  /** The header text of each column, as written in the row dicts and the CSV header. */
  function ColumnName(c: Column): string
  {
    match c
    case SourceColumn => "source"
    case MonthColumn => "month"
    case DayColumn => "day"
    case YearOfEventColumn => "year_of_event"
    case CountryColumn => "country"
    case EventColumn => "event"
    case TitleColumn => "title"
    case DescriptionColumn => "description"
    case CrimeTypeColumn => "crime_type"
    case UrlColumn => "url"
    case LatitudeColumn => "latitude"
    case LongitudeColumn => "longitude"
    case ExtractColumn => "extract"
    case RelatedTopicsColumn => "related_topics"
    case TopicPageUrlsColumn => "topic_page_urls"
  }

  /** A row dict, keyed by column. */
  type Row = map<Column, Value>

  /** The keys dropped from a row to form its payload in the date-grouped map. */
  const NOT_IN_PAYLOAD: set<Column> := {MonthColumn, DayColumn, LatitudeColumn, LongitudeColumn, SourceColumn}

  /** The row dict appended to the flat list. */
  function RowOf(r: Record): (row: Row)
    ensures forall i :: 0 <= i < |COLUMN_ORDER| ==> COLUMN_ORDER[i] in row
  {
    map[
      SourceColumn := Str(SourceName(r.source)), MonthColumn := Str(r.month), DayColumn := Str(r.day),
      YearOfEventColumn := Int(r.yearOfEvent), CountryColumn := Str(r.country),
      EventColumn := Str(r.event), TitleColumn := Str(r.title),
      DescriptionColumn := Str(r.description), CrimeTypeColumn := Str(r.crimeType),
      UrlColumn := Str(r.url), LatitudeColumn := r.latitude, LongitudeColumn := r.longitude,
      ExtractColumn := Str(r.extract), RelatedTopicsColumn := Str(r.relatedTopics),
      TopicPageUrlsColumn := Str(r.topicPageUrls)]
  }

  /** The value of `{k: v for k, v in row.items() if k not in [...]}` for a record's row. */
  datatype Payload = Payload(
    yearOfEvent: int,
    country: string,
    event: string,
    title: string,
    description: string,
    crimeType: string,
    url: string,
    extract: string,
    relatedTopics: string,
    topicPageUrls: string)

  function PayloadOf(r: Record): Payload
  {
    Payload(r.yearOfEvent, r.country, r.event, r.title, r.description, r.crimeType, r.url,
            r.extract, r.relatedTopics, r.topicPageUrls)
  }

  /** The payload as the dict it is in the source. */
  function PayloadRow(p: Payload): Row
  {
    map[
      YearOfEventColumn := Int(p.yearOfEvent), CountryColumn := Str(p.country),
      EventColumn := Str(p.event), TitleColumn := Str(p.title),
      DescriptionColumn := Str(p.description), CrimeTypeColumn := Str(p.crimeType),
      UrlColumn := Str(p.url), ExtractColumn := Str(p.extract),
      RelatedTopicsColumn := Str(p.relatedTopics), TopicPageUrlsColumn := Str(p.topicPageUrls)]
  }

  /**
   * The payload is the record's row without its positional keys: month, day,
   * latitude, longitude and source; every other key keeps its value.
   */
  lemma PayloadIsRowWithoutPositionalKeys(r: Record)
    ensures PayloadRow(PayloadOf(r)) == map k | k in RowOf(r) && k !in NOT_IN_PAYLOAD :: RowOf(r)[k]
  {
    var row := RowOf(r);
    var m := map k | k in row && k !in NOT_IN_PAYLOAD :: row[k];
    var p := PayloadRow(PayloadOf(r));
    forall k ensures k in m <==> k in p {
      match k
      case SourceColumn =>
      case MonthColumn =>
      case DayColumn =>
      case LatitudeColumn =>
      case LongitudeColumn =>
      case _ => assert k in row;
    }
  }

  /** A single-entry mapping `{event_text: payload}` in the date-grouped map. */
  datatype Entry = Entry(eventText: string, payload: Payload)

  function EntryOf(r: Record): Entry
  {
    Entry(r.event, PayloadOf(r))
  }

  /** Why a source item was not turned into a record. */
  datatype Reason =
    | MissingDate           // Wikidata: no date value, or an empty one
    | UnparseableDate       // Wikidata: the timestamp does not parse
    | UnresolvedLabel       // Wikidata: no label, an empty one, or one starting with 'Q'
    | NoKeyword             // On-This-Day: the text has no crime keyword
    | MissingOrEarlyYear    // On-This-Day: no year, or one before YEAR_CUTOFF
    | NoPages               // On-This-Day: no referenced pages

  /** The outcome of normalising one source item: a record filed under a day, or a skip. */
  datatype Normalized = Accepted(date: MonthDay, record: Record) | Rejected(reason: Reason)

  /** The record sits on the given day: its month and day are that day, zero-padded. */
  predicate RecordOn(r: Record, md: MonthDay)
  {
    Valid(md) && r.month == Pad2(md.month) && r.day == Pad2(md.day)
  }

  /** The records of the accepted outcomes, in order. */
  function KeptRecords(ns: seq<Normalized>): (rs: seq<Record>)
    ensures |rs| <= |ns|
  {
    if |ns| == 0 then []
    else KeptRecords(ns[..|ns| - 1]) + (if ns[|ns| - 1].Accepted? then [ns[|ns| - 1].record] else [])
  }

  /** The days of the accepted outcomes, in the same order as KeptRecords. */
  function KeptDates(ns: seq<Normalized>): (ds: seq<MonthDay>)
    ensures |ds| == |KeptRecords(ns)|
  {
    if |ns| == 0 then []
    else KeptDates(ns[..|ns| - 1]) + (if ns[|ns| - 1].Accepted? then [ns[|ns| - 1].date] else [])
  }

  /** Extending a prefix by one outcome keeps what that outcome alone keeps. */
  lemma KeptStep(ns: seq<Normalized>, i: int)
    requires 0 <= i < |ns|
    ensures KeptRecords(ns[..i + 1]) == KeptRecords(ns[..i]) + KeptRecords([ns[i]])
    ensures KeptDates(ns[..i + 1]) == KeptDates(ns[..i]) + KeptDates([ns[i]])
  {
    assert ns[..i + 1] == ns[..i] + [ns[i]];
    KeptAppend(ns[..i], [ns[i]]);
  }

  /** Every accepted outcome of the list sits on its day. */
  predicate AllFiled(ns: seq<Normalized>)
  {
    forall i :: 0 <= i < |ns| && ns[i].Accepted? ==> RecordOn(ns[i].record, ns[i].date)
  }

  lemma {:induction false} KeptAppend(a: seq<Normalized>, b: seq<Normalized>)
    ensures KeptRecords(a + b) == KeptRecords(a) + KeptRecords(b)
    ensures KeptDates(a + b) == KeptDates(a) + KeptDates(b)
    decreases |b|
  {
    if |b| > 0 {
      var ab := a + b;
      assert ab[..|ab| - 1] == a + b[..|b| - 1];
      KeptAppend(a, b[..|b| - 1]);
    } else {
      assert a + b == a;
    }
  }

  /** Each kept record sits on the day kept beside it. */
  lemma {:induction false} KeptIsAccepted(ns: seq<Normalized>)
    requires AllFiled(ns)
    ensures forall k :: 0 <= k < |KeptRecords(ns)| ==> RecordOn(KeptRecords(ns)[k], KeptDates(ns)[k])
  {
    if |ns| > 0 {
      var init := ns[..|ns| - 1];
      assert AllFiled(init) by {
        forall i | 0 <= i < |init| && init[i].Accepted? ensures RecordOn(init[i].record, init[i].date) {
          assert init[i] == ns[i];
        }
      }
      KeptIsAccepted(init);
    }
  }
}

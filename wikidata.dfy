/**
 * The Wikidata half of the collection: the shape of the query's JSON answer
 * and the per-row normalisation of `process_wikidata_results`.
 */
module Wikidata {
  import opened Options
  import opened Text
  import opened Calendar
  import opened Records

  /** One result row: each present field name with the `value` string of its binding. */
  type Binding = map<string, string>

  /** The JSON answer; `results` and `results.bindings` may each be missing. */
  datatype Results = Results(bindings: Option<seq<Binding>>)
  datatype Response = Response(results: Option<Results>)

  /**
   * The rows to process, or None when the processor returns at once: there is
   * no answer (a failed query, or an empty body), or `results` or
   * `results.bindings` is missing.
   */
  function Bindings(data: Option<Response>): (r: Option<seq<Binding>>)
    ensures r.Some? <==> data.Some? && data.value.results.Some? && data.value.results.value.bindings.Some?
  {
    match data
    case None => None
    case Some(response) =>
      match response.results
      case None => None
      case Some(results) => results.bindings
  }

  /** `item.get(name, {}).get('value')`. */
  function Field(item: Binding, name: string): Option<string>
  {
    if name in item then Some(item[name]) else None
  }

  // ---- parsed timestamps ----

  predicate IsLeapYear(year: int)
  {
    year % 4 == 0 && (year % 100 != 0 || year % 400 == 0)
  }

  function DaysIn(year: int, month: int): int
    requires 1 <= month <= 12
  {
    if month == 2 then (if IsLeapYear(year) then 29 else 28) else DaysInMonth(month)
  }

  /** The date part of a `datetime`: it always names an existing proleptic Gregorian day. */
  datatype DateTime = DateTime(year: int, month: int, day: int)

  predicate IsDate(dt: DateTime)
  {
    1 <= dt.year <= 9999 && 1 <= dt.month <= 12 && 1 <= dt.day <= DaysIn(dt.year, dt.month)
  }

  type ParsedDate = dt: DateTime | IsDate(dt) witness DateTime(2024, 1, 1)

  /** `datetime.fromisoformat`: a parsed date, or None where it raises ValueError. */
  type IsoParser = string -> Option<ParsedDate>

  /** The day of the year a parsed date falls on; every date exists in the leap year 2024. */
  function MonthDayOf(dt: ParsedDate): (md: MonthDay)
    ensures Valid(md) && md.month == dt.month && md.day == dt.day
  {
    MonthDay(dt.month, dt.day)
  }

  /** The text handed to the parser: the date value with every 'Z' replaced by "+00:00". */
  function IsoText(dateValue: string): (r: string)
    ensures 'Z' !in r
    ensures 'Z' !in dateValue ==> r == dateValue
  {
    ReplaceWith(dateValue, 'Z', "+00:00")
  }

  /**
   * The rewrite is determined piece by piece: it distributes over
   * concatenation, turns a lone 'Z' into "+00:00" and keeps any other character.
   */
  lemma IsoTextPieces(a: string, b: string, c: char)
    ensures IsoText(a + b) == IsoText(a) + IsoText(b)
    ensures IsoText([c]) == if c == 'Z' then "+00:00" else [c]
  {
    ReplaceWithAppend(a, b, 'Z', "+00:00");
  }

  /** `if not date_str`: the date field is missing or empty. */
  predicate DateMissing(item: Binding)
  {
    Field(item, "date").GetOr("") == ""
  }

  /** `if not event_text or event_text.startswith('Q')`: the label was not resolved to text. */
  predicate LabelUnresolved(item: Binding)
  {
    var text := Field(item, "itemLabel").GetOr("");
    text == "" || text[0] == 'Q'
  }

  /**
   * The body of the loop of `process_wikidata_results` for one row: a record
   * on the parsed date, or the reason the row is skipped. The checks run in
   * the source's order: date present, date parses, label resolved.
   */
  function NormalizeBinding(item: Binding, parse: IsoParser): (r: Normalized)
    ensures DateMissing(item) ==> r == Rejected(MissingDate)
    ensures !DateMissing(item) && parse(IsoText(item["date"])).None? ==> r == Rejected(UnparseableDate)
    ensures !DateMissing(item) && parse(IsoText(item["date"])).Some? && LabelUnresolved(item) ==>
              r == Rejected(UnresolvedLabel)
    ensures r.Accepted? <==>
              !DateMissing(item) && parse(IsoText(item["date"])).Some? && !LabelUnresolved(item)
    ensures r.Accepted? ==>
              var dt := parse(IsoText(item["date"])).value;
              var rec := r.record;
              && RecordOn(rec, r.date) && r.date.month == dt.month && r.date.day == dt.day
              && DecimalValue(rec.month) == dt.month && DecimalValue(rec.day) == dt.day
              && rec.yearOfEvent == dt.year
              && rec.source == Wikidata
              && rec.event == rec.title == item["itemLabel"] && rec.event != "" && rec.event[0] != 'Q'
              && rec.description == "Source: Wikidata"
              && rec.crimeType == Lower(Field(item, "crimeTypeLabel").GetOr("crime"))
              && rec.country == Field(item, "countryLabel").GetOr("")
              && rec.url == Field(item, "article").GetOr("")
              && rec.latitude == rec.longitude == Str("")
              && rec.extract == rec.relatedTopics == rec.topicPageUrls == ""
  {
    var dateValue := Field(item, "date").GetOr("");
    if dateValue == "" then Rejected(MissingDate)
    else
      match parse(IsoText(dateValue))
      case None => Rejected(UnparseableDate)
      case Some(dt) =>
        var eventText := Field(item, "itemLabel").GetOr("");
        if eventText == "" || eventText[0] == 'Q' then Rejected(UnresolvedLabel)
        else
          var md := MonthDayOf(dt);
          Pad2IsDecimal(dt.month);
          Pad2IsDecimal(dt.day);
          Accepted(md, Record(
            Wikidata, Pad2(dt.month), Pad2(dt.day), dt.year,
            Field(item, "countryLabel").GetOr(""), eventText, eventText, "Source: Wikidata",
            Lower(Field(item, "crimeTypeLabel").GetOr("crime")), Field(item, "article").GetOr(""),
            Str(""), Str(""), "", "", ""))
  }

  /** The outcome of every row, in order. */
  function NormalizeAll(bindings: seq<Binding>, parse: IsoParser): (ns: seq<Normalized>)
    ensures |ns| == |bindings| && AllFiled(ns)
    ensures forall i :: 0 <= i < |bindings| ==> ns[i] == NormalizeBinding(bindings[i], parse)
  {
    seq(|bindings|, i requires 0 <= i < |bindings| => NormalizeBinding(bindings[i], parse))
  }

  /**
   * The year cutoff is the query's `FILTER(YEAR(?date) >= ...)`, not checked
   * again here: when every parsable date of the answer honours it, so does
   * every record kept.
   */
  predicate HonoursCutoff(bindings: seq<Binding>, parse: IsoParser)
  {
    forall i :: 0 <= i < |bindings| && !DateMissing(bindings[i]) && parse(IsoText(bindings[i]["date"])).Some? ==>
      parse(IsoText(bindings[i]["date"])).value.year >= YEAR_CUTOFF
  }

  lemma {:induction false} KeptHonourCutoff(bindings: seq<Binding>, parse: IsoParser)
    requires HonoursCutoff(bindings, parse)
    ensures forall k :: 0 <= k < |KeptRecords(NormalizeAll(bindings, parse))| ==>
              KeptRecords(NormalizeAll(bindings, parse))[k].yearOfEvent >= YEAR_CUTOFF
  {
    if |bindings| > 0 {
      var init := bindings[..|bindings| - 1];
      assert NormalizeAll(bindings, parse)[..|bindings| - 1] == NormalizeAll(init, parse);
      assert HonoursCutoff(init, parse) by {
        forall i | 0 <= i < |init| ensures init[i] == bindings[i] { }
      }
      KeptHonourCutoff(init, parse);
    }
  }
}

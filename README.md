# Crime anniversaries: the record pipeline

`crime_anniversaries.py` collects crime-related events from two sources and
exports them as a CSV table and a JSON object grouped by calendar day. This
project models its record-normalisation and merge pipeline and proves what it
promises.

The pipeline has four stages:

- **Wikidata rows** (`process_wikidata_results`). Each result row of the SPARQL
  answer is skipped when its date is missing or unparseable, or when its label
  is missing or starts with `Q`. Otherwise it becomes a record with zero-padded
  `month`/`day`, a lower-cased `crime_type` (default `crime`) and the fixed
  Wikidata field values. The row is appended to the flat `all_rows` list and
  `{event: payload}` to `events_by_date["<Month> <day>"]`.
- **The On-This-Day walk** (inline in `main`). The walk goes over the 366 days
  of the leap year 2024 and requests each day's feed by zero-padded month and
  day. It keeps each event that has a crime keyword, a year of at least
  `YEAR_CUTOFF` = 1900 and at least one page. From a kept event it builds:
  - the record's title, description, URL and extract from the first page;
  - the coordinates of the first page among `pages[:MAX_PAGES]` (`MAX_PAGES` = 5)
    that has any;
  - the related topics and links from `pages[1:MAX_PAGES]`.

  The record goes to the same two accumulators.
- **Export.** Nothing is written when no row was collected. Otherwise:
  - missing columns are added with `""`;
  - the 15 columns are selected in their fixed order, with nulls filled as `""`;
  - rows are sorted by `(month, day, year_of_event)`;
  - the date-label keys are sorted by parsing each label back against 2024.
- **`main`**, as `Pipeline.Run`. It runs both passes and then the export. The
  Wikidata answer, the ISO timestamp parser and the day-feed fetcher are its
  parameters.

Modules:

| file | module | what it holds |
|---|---|---|
| options.dfy | Options | `Option` |
| text.dfy | Text | Python's string order, ASCII `lower`, `replace`, `join` |
| calendar.dfy | Calendar | leap-year days, `calendar.month_name`, zero padding, date labels and their parser, day ordinals |
| keywords.dfy | CrimeKeywords | the `CRIME_RE` search: its alternatives in the engine's try order, the leftmost match |
| records.dfy | Records | `YEAR_CUTOFF`, `MAX_PAGES`, the record, its row dict, its payload, normalisation outcomes |
| wikidata.dfy | Wikidata | the SPARQL answer's shape and the per-row normaliser |
| onthisday.dfy | OnThisDay | the feed's shape, the per-event normaliser, the coordinate scan, the 366-day walk |
| sorting.dfy | Sorting | a sort by a total preorder, standing in for pandas' and Python's sorts |
| export.dfy | Export | the column fill, the column selection, the row order and the date-label order |
| pipeline.dfy | Pipeline | the two accumulators as a class, both passes, and `main` |

The accumulators are the class `Pipeline.Accumulators`. Its fields are:

- `rows` (`all_rows`);
- `eventsByDate` (`events_by_date`);
- `keyOrder`, the insertion order of that dict's keys, which `sorted(... .items())` starts from;
- a ghost `dates`, the day each row was filed under.

Its invariant `Valid` is the lockstep. `eventsByDate` is exactly the grouping
of `rows` by the date label of its day (`Pipeline.Group`), and `keyOrder`
lists the labels in first-filed order. Every operation that changes the
accumulators is proved against functions of its input:

- `NormalizeAll` for Wikidata;
- `DayResults` and `ResultsUpTo` for the walk;
- `KeptRecords`/`KeptDates` to keep the accepted outcomes.

## Model

| member | source | states |
|---|---|---|
| Calendar.OrdinalRoundTrip | crime_anniversaries.py:160-163 | day `n` (1..366) of the walk, `2024-01-01 + (n-1) days`, is a valid month/day whose ordinal is `n` |
| Calendar.DayOfYearRoundTrip | crime_anniversaries.py:160-163 | every valid month/day of a leap year is reached by the walk, at the day given by its ordinal |
| Calendar.DayOfYearOrder | crime_anniversaries.py:160-163 | one day precedes another in the calendar exactly when its ordinal is smaller |
| Calendar.LeapYearDaysChronological | crime_anniversaries.py:160-168 | the walk visits 366 days, each a valid month/day, in strictly chronological order |
| Calendar.LeapYearDaysComplete | crime_anniversaries.py:160-168 | every valid month/day, 02/29 included, is visited exactly once, at position ordinal − 1 |
| Calendar.Pad2IsDecimal | crime_anniversaries.py:121 | `f"{n:02}"` is two digits whose decimal value is `n` |
| Calendar.DayTextIsDecimal | crime_anniversaries.py:122 | `f"{day}"` for a day of the month is one or two digits with no leading zero and value `day` |
| Calendar.PaddedOrder | crime_anniversaries.py:244 | string order on two zero-padded numbers agrees with numeric order, both directions |
| Calendar.MonthNumber | crime_anniversaries.py:257 | `%B` finds the month whose full name is the text, or reports that none has it |
| Calendar.LabelRoundTrip | crime_anniversaries.py:255-258 | parsing `"<Month> <day>"` against 2024 gives back the month/day it was built from (lines 122 and 168) |
| Calendar.LabelInjective | crime_anniversaries.py:122 | two days share a date label only when they are the same day |
| Text.StrLeTotal | crime_anniversaries.py:244 | Python's string order, which sorts `month` and `day`, compares any two strings |
| Text.StrLeAntisymmetric | crime_anniversaries.py:244 | two strings that are each ≤ the other are equal |
| Text.StrLeTransitive | crime_anniversaries.py:244 | the string order is transitive |
| Text.ReplaceChar | crime_anniversaries.py:193 | `replace` keeps the length, changes exactly the target characters, and leaves no target behind |
| CrimeKeywords.FirstAlternative | crime_anniversaries.py:42-53 | at one position, the first alternative of the pattern that matches, with none before it matching |
| CrimeKeywords.SearchIsLeftmost | crime_anniversaries.py:181 | `search` reports a match at the leftmost position where any alternative matches, and no match only when no position has one |
| CrimeKeywords.CrimeKeyword | crime_anniversaries.py:181-189 | a keyword is reported exactly when some alternative occurs as a whole word (case-insensitively); it is one of the alternatives and occurs in the text |
| CrimeKeywords.CrimeKeywordIsLeftmost | crime_anniversaries.py:181-189 | the reported keyword is the alternative of the leftmost match that `search` finds: no alternative matches earlier in the text, and none tried before it matches at that position |
| Records.PayloadIsRowWithoutPositionalKeys | crime_anniversaries.py:133 | the payload is the row without `month`, `day`, `latitude`, `longitude` and `source`; every other key keeps its value (the same comprehension is at line 219) |
| Records.RowOf | crime_anniversaries.py:124-130 | every row dict has all 15 columns of `column_order` (the On-This-Day row at lines 209-216 has the same keys) |
| Records.KeptAppend | crime_anniversaries.py:107-138 | the records kept from two runs of items in a row are those kept from each, in order |
| Records.KeptIsAccepted | crime_anniversaries.py:121-134 | each kept record sits on the day kept beside it (its `month`/`day` are that day, zero-padded) (the On-This-Day records, lines 167-168 and 217-220, likewise) |
| Wikidata.Bindings | crime_anniversaries.py:101-104 | the rows are processed exactly when the answer exists and has `results` and `results.bindings` (the caller at lines 152-155 hands over the answer) |
| Text.ReplaceWith | crime_anniversaries.py:112 | `replace` with a one-character target leaves no target behind, keeps a text without the target unchanged, and maps a single character to the replacement when it is the target and to itself otherwise |
| Text.ReplaceWithAppend | crime_anniversaries.py:112 | `replace` distributes over concatenation, so together with the single-character cases it fixes the whole result |
| Text.ReplaceCharIsReplaceWith | crime_anniversaries.py:193 | with a one-character replacement (`'_'` to `' '` here), the character-wise `replace` and the general one give the same text |
| Wikidata.IsoText | crime_anniversaries.py:112 | the text handed to `fromisoformat` has no `Z` left, and a date value without `Z` is handed over unchanged |
| Wikidata.IsoTextPieces | crime_anniversaries.py:112 | the rewrite distributes over concatenation, turns each `Z` into `+00:00` and keeps every other character |
| Wikidata.NormalizeBinding | crime_anniversaries.py:109-134 | a missing date, an unparseable date, or a label that is missing or starts with `Q` each give their own skip, and a row is accepted exactly when none holds; for an accepted row, it states every field of the record: zero-padded month and day of the parsed date, its year, the label as event and title, `Source: Wikidata`, the lower-cased type defaulting to `crime`, country, url, empty coordinates and extras |
| Wikidata.NormalizeAll | crime_anniversaries.py:104-107 | one outcome per row, in order, each filed on its own day |
| Wikidata.KeptHonourCutoff | crime_anniversaries.py:107-134 | when every parsable date of the answer has year ≥ `YEAR_CUTOFF` (the query's filter), so does every record kept (the filter is at line 82) |
| OnThisDay.CoordinatePage | crime_anniversaries.py:198-202 | the first page among `pages[:MAX_PAGES]` with a non-empty coordinates object, or none when no such page exists |
| OnThisDay.FindCoordinates | crime_anniversaries.py:198-202 | the loop with `break` yields the coordinates of exactly that page, or none |
| OnThisDay.DisplayTitle | crime_anniversaries.py:193 | the shown title keeps the length and contains no `_` (line 205 shows related titles the same way) |
| OnThisDay.RelatedTitles | crime_anniversaries.py:204-205 | the titles of `pages[1:MAX_PAGES]`: `min(len, MAX_PAGES) − 1` entries, at most `MAX_PAGES − 1`, each the shown title of its page |
| OnThisDay.RelatedLinks | crime_anniversaries.py:204-207 | one `"title: url"` entry per related title, in the same order |
| OnThisDay.EventRecordFields | crime_anniversaries.py:180-216 | an event is kept exactly when it has a keyword, a year ≥ `YEAR_CUTOFF` and pages, and each failed filter gives its own reason; for a kept event, it states every field of the record: the day's zero-padded month and day, the year, the text, the matched keyword as crime type, the first page's shown title, description, url and extract, the coordinates of the first page with any, and the joined related topics and links |
| OnThisDay.NormalizeEvent | crime_anniversaries.py:180-216 | the per-event body, with its coordinate loop, computes exactly `EventRecord` |
| OnThisDay.DayResultsOfFeed | crime_anniversaries.py:172-180 | a failed fetch gives no outcome, and a fetched feed gives one per event (none when `events` is missing), and each accepted outcome is filed under the day requested |
| OnThisDay.DayResultsKeptFromFeed | crime_anniversaries.py:178-216 | every event kept from one day's feed sits on the day filed beside it, has year ≥ `YEAR_CUTOFF`, a crime keyword as type and `OnThisDay` as source |
| OnThisDay.ResultsUpToStep | crime_anniversaries.py:160-180 | walking one more day appends that day's outcomes, from the feed requested with its zero-padded month and day |
| OnThisDay.DayOfWalkIsDated | crime_anniversaries.py:160-180 | the records the walk keeps on its n-th iteration are filed under the n-th day of 2024, the day whose feed that iteration requested |
| OnThisDay.ResultsUpToFiledStep | crime_anniversaries.py:160-220 | one more iteration of the day loop keeps every kept record on the day filed beside it, with year ≥ `YEAR_CUTOFF` and a crime keyword as type |
| OnThisDay.ResultsUpToFiled | crime_anniversaries.py:160-220 | every record the walk keeps sits on the day filed beside it, has year ≥ `YEAR_CUTOFF`, and has a crime keyword as type |
| OnThisDay.KeptRecordsFromFeed | crime_anniversaries.py:184-186 | the records kept from this source's outcomes all have year ≥ `YEAR_CUTOFF` and a crime keyword as type |
| Sorting.InsertPermutes | crime_anniversaries.py:244 | inserting into a sorted list adds exactly that element (the label sort at lines 256-258 uses the same sort) |
| Sorting.InsertSorted | crime_anniversaries.py:244 | inserting into a sorted list keeps it sorted (the label sort at lines 256-258 uses the same sort) |
| Sorting.SortBy | crime_anniversaries.py:244 | the result is sorted and is a permutation of the input (the label sort at lines 256-258 uses the same sort) |
| Export.AddMissingColumns | crime_anniversaries.py:241-243 | after the loop, every column of `column_order` is present; a cell keeps its value where the column existed, and is `""` in a column the loop added |
| Export.Select | crime_anniversaries.py:244 | the selection has one row per row and one cell per chosen column; no cell is null; a cell keeps the row's non-null value, and is `""` where the row lacked the column or held null |
| Export.Shape | crime_anniversaries.py:234-244 | a shaped row has exactly the 15 columns in `column_order`, no null, `""` where the row lacked the column or held null, and the row's own value everywhere else |
| Export.ValueLeIsTotalOrder | crime_anniversaries.py:244 | the order on cell values is total, antisymmetric and transitive |
| Export.RowLeIsTotalPreorder | crime_anniversaries.py:244 | the `(month, day, year_of_event)` order on rows is a total preorder |
| Export.RowOrderIsChronological | crime_anniversaries.py:244 | on collected records, the row order is month, then day, then year, compared as numbers |
| Export.GroupLeIsTotalPreorder | crime_anniversaries.py:256-258 | the order of the date-label items is a total preorder |
| Export.GroupOrderIsChronological | crime_anniversaries.py:256-258 | two items of different days are ordered exactly as their days are in the calendar |
| Export.ShapeAll | crime_anniversaries.py:240-244 | one shaped row per collected row, in order, each of 15 cells and none of them null |
| Export.Export | crime_anniversaries.py:226-258 | no output exactly when there are no rows; otherwise the table is a sorted permutation of the shaped rows, each with 15 cells, and the grouped items are a permutation of the input sorted by date label |
| Pipeline.AllOnIndexed | crime_anniversaries.py:121-131 | every row of the accumulators sits on its filed day (the On-This-Day rows, lines 167-168 and 217, likewise) |
| Pipeline.GroupIsLockstep | crime_anniversaries.py:217-220 | a label is a key of `events_by_date` exactly when some record was filed under it, and its list is the entries of those records in filing order (the Wikidata rows are filed the same way at lines 131-134) |
| Pipeline.EveryRecordIsGrouped | crime_anniversaries.py:217-220 | the entry of every row sits in the list of its day's label (the Wikidata rows are filed the same way at lines 131-134) |
| Pipeline.KeyOrderListsKeys | crime_anniversaries.py:255-258 | the key order has no duplicates, lists exactly the keys of `events_by_date`, and each is the label of a valid day |
| Pipeline.FilingStep | crime_anniversaries.py:217-220 | filing one more record appends `{event: payload}` to its label's list, creating the key if new, and leaves every other key unchanged (the Wikidata rows are filed the same way at lines 131-134) |
| Pipeline.ItemsOf | crime_anniversaries.py:255-256 | item i is the i-th key in insertion order, paired with the entries of exactly the records filed under it, in filing order |
| Pipeline.GroupedIsChronological | crime_anniversaries.py:255-258 | the sorted items have strictly increasing days, so each label appears once and in calendar order |
| Pipeline.Accumulators.constructor | crime_anniversaries.py:148-149 | the accumulators start empty |
| Pipeline.Accumulators.Add | crime_anniversaries.py:217-220 | one row is appended, `{event: payload}` is appended under the record's date label, and nothing else changes; the lockstep invariant is kept (the Wikidata rows are filed the same way at lines 131-134) |
| Pipeline.Accumulators.File | crime_anniversaries.py:107-138 | an accepted outcome is filed and a skip leaves both accumulators unchanged |
| Pipeline.Accumulators.FileNext | crime_anniversaries.py:107-138 | one iteration of a per-item loop files the i-th outcome after the records kept from those before it, and the kept count grows by one exactly when that outcome is accepted |
| Pipeline.Accumulators.ProcessWikidataResults | crime_anniversaries.py:99-139 | a malformed answer changes nothing; otherwise the accumulators gain exactly the kept records of the rows in order, `processed` counts them, and `processed + skipped` is the number of rows |
| Pipeline.Accumulators.CollectDay | crime_anniversaries.py:172-220 | one day's loop files exactly the kept events of that day's feed, in order |
| Pipeline.Accumulators.WalkDay | crime_anniversaries.py:160-220 | one iteration of the day loop extends the accumulators by that day's outcomes |
| Pipeline.Accumulators.CollectOnThisDay | crime_anniversaries.py:158-222 | the walk over days 1..366 files exactly the kept events of all days, in day order |
| Pipeline.Accumulators.Items | crime_anniversaries.py:255-256 | the dict's items in insertion order |
| Pipeline.Outcomes | crime_anniversaries.py:151-220 | every outcome of a run, Wikidata first, each record on its day |
| Pipeline.OutcomesHonourCutoff | crime_anniversaries.py:99-220 | when the Wikidata answer honours the query's year filter, every record a run keeps, from either source, has year ≥ `YEAR_CUTOFF` |
| Pipeline.RowsOf | crime_anniversaries.py:240 | one row dict per collected record, in order; every row has all 15 columns, with the record's padded month and day as strings and its year as an integer |
| Pipeline.CollectedFrameIsComplete | crime_anniversaries.py:240-243 | the DataFrame of collected rows already has every column of `column_order`, so the loop that adds missing columns adds none |
| Pipeline.Collect | crime_anniversaries.py:146-220 | after both passes, the accumulators hold exactly the kept records of all outcomes, in order, in lockstep |
| Pipeline.Run | crime_anniversaries.py:144-266 | no output exactly when nothing was kept; otherwise the table is a permutation of the shaped rows of every kept record, sorted by `(month, day, year_of_event)`, and the grouped items are a permutation of the per-label groups, with strictly increasing days |

## Left out

- HTTP is not modelled: `query_wikidata_crimes`, the session, its headers and timeouts, `raise_for_status` and `RequestException`. The Wikidata answer is a parameter (`None` for a failed query or an empty body). A day's feed comes from a `fetch` parameter that returns `None` where the request raises.
- The SPARQL query text and its year `FILTER` are not modelled. They run on the Wikidata server, so the filter appears only as the precondition of `Wikidata.KeptHonourCutoff` and `Pipeline.OutcomesHonourCutoff`.
- `datetime.fromisoformat` is a parameter, a parser that returns a valid date or `None`. Time of day and time zone are dropped, as the source uses only the date.
- `CrimeKeywords.CrimeKeyword` models `re.IGNORECASE`, `\w` and `str.lower` for ASCII letters only. Non-ASCII letters next to a keyword, or Unicode case folding, are not modelled.
- `Text.Lower` lower-cases ASCII letters only, where the source's `str.lower` is full Unicode.
- `Calendar.ParseLabel` accepts `"<Month> <day>"` as built at lines 122 and 168, and also a zero-padded day such as `"March 05"`, as `%d` does. The whitespace and case variants that `strptime` also accepts are not modelled, because every label the pipeline files has the built form.
- JSON `null` is modelled only for coordinate values. A `null` description, extract or desktop URL (lines 194-196) would also reach `fillna('')` at line 244 as `None`; that path is not modelled.
- A missing `text` or page `title` makes the source raise `KeyError`. The model's input types make these fields mandatory.
- Coordinates that are truthy but not a dict are not modelled. Coordinates are an object, so the `isinstance` test always holds.
- The `try`/`except ValueError` around the date arithmetic at lines 161-165 cannot raise for days 1..366 of 2024. The model has no skip there.
- Sort columns of mixed types at line 244 are not modelled. They cannot occur: every collected row has a string `month` and `day` and an integer `year_of_event`. `Export.RowLe` still compares any two cells, ranking numbers before strings, so that its order is total.
- `Sorting.SortBy`: the sorts are stated as sorted permutations, not as stable ones. The row sort on three columns is a stable lexsort in pandas, and Python's `sorted` is stable, so rows with equal `(month, day, year_of_event)` keep their collection order there; the model does not state that order.
- A date label that does not parse is not modelled. The source's sort key would raise `ValueError`, but `Pipeline.Run` proves every label parses.
- Only the key order matters in `dict(sorted(...))`, so it is modelled by `keyOrder`; the dict itself is `eventsByDate`.
- `time.sleep`, the `strftime` timestamp, file names, `os.makedirs`, `to_csv` quoting and encoding, `json.dump` formatting and all `print` logging are side effects and are not modelled. The `processed`/`skipped` counters are returned rather than printed.
- `GET_WIKIDATA` and `GET_ON_THIS_DAY` are constants set to true, as in the source. Their false branches are kept in the model.

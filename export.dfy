/**
 * The export step of `main`: the flat list becomes a table with the fixed
 * column order, missing and null cells as "", rows ordered by
 * (month, day, year_of_event); the date-grouped map's items are ordered by the
 * day their label parses to. Nothing is produced when nothing was collected.
 */
module Export {
  import opened Options
  import opened Text
  import opened Calendar
  import opened Records
  import opened Sorting

  // ---- the table ----

  /** A DataFrame: the set of its columns and, per row, the cells the row dict has. */
  datatype Frame = Frame(columns: set<Column>, rows: seq<Row>)

  /** Every key of every row is a column, as in a frame built from dicts. */
  predicate Covers(df: Frame)
  {
    forall k, c :: 0 <= k < |df.rows| && c in df.rows[k] ==> c in df.columns
  }

  /** `pd.DataFrame(all_rows)`: the columns are the keys found in any row. */
  function FrameOf(rows: seq<Row>): (df: Frame)
    ensures df.rows == rows && Covers(df)
    ensures forall c :: c in df.columns ==> exists k :: 0 <= k < |rows| && c in rows[k]
  {
    Frame(set k, c | 0 <= k < |rows| && c in rows[k] :: c, rows)
  }

  /** A cell of the frame; a row without that key holds NaN, modelled as Null. */
  function Cell(df: Frame, k: int, c: Column): Value
    requires 0 <= k < |df.rows|
  {
    if c in df.rows[k] then df.rows[k][c] else Null
  }

  /** `df[column] = value`. */
  function SetColumn(df: Frame, column: Column, value: Value): (r: Frame)
    ensures r.columns == df.columns + {column} && |r.rows| == |df.rows|
    ensures forall k, c :: 0 <= k < |df.rows| ==>
              Cell(r, k, c) == if c == column then value else Cell(df, k, c)
  {
    Frame(df.columns + {column}, seq(|df.rows|, k requires 0 <= k < |df.rows| => df.rows[k][column := value]))
  }

  /** `if col not in df.columns: df[col] = ''`. */
  function FillColumn(df: Frame, column: Column): Frame
  {
    if column in df.columns then df else SetColumn(df, column, Str(""))
  }

  /** `filled` is `df` after the first `i` columns of the order were filled in. */
  ghost predicate FilledUpTo(df: Frame, filled: Frame, i: int)
    requires 0 <= i <= |COLUMN_ORDER|
  {
    && |filled.rows| == |df.rows|
    && filled.columns == df.columns + (set j | 0 <= j < i :: COLUMN_ORDER[j])
    && forall k, c :: 0 <= k < |df.rows| ==>
         Cell(filled, k, c) == if c !in df.columns && c in COLUMN_ORDER[..i] then Str("") else Cell(df, k, c)
  }

  lemma FillStep(df: Frame, filled: Frame, i: int)
    requires 0 <= i < |COLUMN_ORDER| && FilledUpTo(df, filled, i)
    ensures FilledUpTo(df, FillColumn(filled, COLUMN_ORDER[i]), i + 1)
  {
    var column := COLUMN_ORDER[i];
    var next := FillColumn(filled, column);
    assert COLUMN_ORDER[..i + 1] == COLUMN_ORDER[..i] + [column];
    assert (set j | 0 <= j < i + 1 :: COLUMN_ORDER[j]) == (set j | 0 <= j < i :: COLUMN_ORDER[j]) + {column};
    forall k, c | 0 <= k < |df.rows|
      ensures Cell(next, k, c) == if c !in df.columns && c in COLUMN_ORDER[..i + 1] then Str("") else Cell(df, k, c)
    {
      if column !in filled.columns && c == column {
        assert c !in df.columns;
      }
    }
  }

  /**
   * `for col in column_order: if col not in df.columns: df[col] = ''`: afterwards
   * every column of the order exists, the added ones hold "" and the others are
   * untouched.
   */
  method AddMissingColumns(df: Frame) returns (filled: Frame)
    requires Covers(df)
    ensures forall i :: 0 <= i < |COLUMN_ORDER| ==> COLUMN_ORDER[i] in filled.columns
    ensures |filled.rows| == |df.rows|
    ensures forall k, c :: 0 <= k < |df.rows| ==>
              Cell(filled, k, c) == if c !in df.columns && c in COLUMN_ORDER then Str("") else Cell(df, k, c)
  {
    filled := df;
    var i := 0;
    while i < |COLUMN_ORDER|
      invariant 0 <= i <= |COLUMN_ORDER| && FilledUpTo(df, filled, i)
    {
      var column := COLUMN_ORDER[i];
      FillStep(df, filled, i);
      ghost var next := FillColumn(filled, column);
      if column !in filled.columns {
        filled := SetColumn(filled, column, Str(""));
      }
      assert filled == next;
      i := i + 1;
    }
    assert COLUMN_ORDER[..i] == COLUMN_ORDER;
    forall j | 0 <= j < |COLUMN_ORDER|
      ensures COLUMN_ORDER[j] in filled.columns
    {
      assert COLUMN_ORDER[j] in set j' | 0 <= j' < i :: COLUMN_ORDER[j'];
    }
  }

  /** `fillna('')`. */
  function FillNa(v: Value): Value
  {
    if v.Null? then Str("") else v
  }

  /** `df[columns].fillna('')`; selecting a column the frame lacks would raise KeyError. */
  function Select(df: Frame, columns: seq<Column>): (table: seq<seq<Value>>)
    requires forall j :: 0 <= j < |columns| ==> columns[j] in df.columns
    ensures |table| == |df.rows|
    ensures forall k :: 0 <= k < |table| ==> |table[k]| == |columns|
    ensures forall k, j :: 0 <= k < |table| && 0 <= j < |columns| ==> !table[k][j].Null?
    ensures forall k, j :: 0 <= k < |table| && 0 <= j < |columns| ==>
              (if columns[j] in df.rows[k] && !df.rows[k][columns[j]].Null? then table[k][j] == df.rows[k][columns[j]]
               else table[k][j] == Str(""))
  {
    seq(|df.rows|, k requires 0 <= k < |df.rows| =>
      seq(|columns|, j requires 0 <= j < |columns| => FillNa(Cell(df, k, columns[j]))))
  }

  /**
   * What one row dict becomes in the export: its value for each column of the
   * fixed order, with a missing key or a null value written as "".
   */
  function Shape(row: Row): (r: seq<Value>)
    ensures |r| == |COLUMN_ORDER|
    ensures forall j :: 0 <= j < |r| ==> !r[j].Null?
    ensures forall j :: 0 <= j < |r| && COLUMN_ORDER[j] !in row ==> r[j] == Str("")
    ensures forall j :: 0 <= j < |r| && COLUMN_ORDER[j] in row ==>
              r[j] == if row[COLUMN_ORDER[j]].Null? then Str("") else row[COLUMN_ORDER[j]]
  {
    seq(|COLUMN_ORDER|, j requires 0 <= j < |COLUMN_ORDER| =>
      if COLUMN_ORDER[j] in row then FillNa(row[COLUMN_ORDER[j]]) else Str(""))
  }

  // ---- the order of the table's rows ----

  /** Value ranks: the feed's values of one column always share a kind. */
  function Rank(v: Value): int
  {
    match v
    case Null => 0
    case Int(_) => 1
    case Num(_) => 2
    case Str(_) => 3
  }

  /** `<=` on cells: integers numerically; strings, and coordinates (kept as their literal text), by their text. */
  predicate ValueLe(a: Value, b: Value)
  {
    if Rank(a) != Rank(b) then Rank(a) < Rank(b)
    else
      match a
      case Null => true
      case Int(x) => x <= b.i
      case Num(x) => StrLe(x.literal, b.c.literal)
      case Str(x) => StrLe(x, b.s)
  }

  predicate ValueLt(a: Value, b: Value)
  {
    ValueLe(a, b) && a != b
  }

  lemma ValueLeIsTotalOrder(a: Value, b: Value, c: Value)
    ensures ValueLe(a, b) || ValueLe(b, a)
    ensures ValueLe(a, b) && ValueLe(b, a) ==> a == b
    ensures ValueLe(a, b) && ValueLe(b, c) ==> ValueLe(a, c)
  {
    match a
    case Null =>
    case Int(_) =>
    case Num(x) =>
      if Rank(b) == 2 {
        StrLeTotal(x.literal, b.c.literal);
        if ValueLe(a, b) && ValueLe(b, a) {
          StrLeAntisymmetric(x.literal, b.c.literal);
        }
        if ValueLe(a, b) && ValueLe(b, c) && Rank(c) == 2 {
          StrLeTransitive(x.literal, b.c.literal, c.c.literal);
        }
      }
    case Str(x) =>
      if Rank(b) == 3 {
        StrLeTotal(x, b.s);
        if ValueLe(a, b) && ValueLe(b, a) {
          StrLeAntisymmetric(x, b.s);
        }
        if ValueLe(a, b) && ValueLe(b, c) && Rank(c) == 3 {
          StrLeTransitive(x, b.s, c.s);
        }
      }
  }

  /** The cell of an exported row in column `j` (Null past the end, which a shaped row never is). */
  function At(r: seq<Value>, j: nat): Value
  {
    if j < |r| then r[j] else Null
  }

  /** `sort_values(["month", "day", "year_of_event"])`: lexicographic on columns 1, 2 and 3. */
  predicate RowLe(a: seq<Value>, b: seq<Value>)
  {
    || ValueLt(At(a, 1), At(b, 1))
    || (At(a, 1) == At(b, 1) && ValueLt(At(a, 2), At(b, 2)))
    || (At(a, 1) == At(b, 1) && At(a, 2) == At(b, 2) && ValueLe(At(a, 3), At(b, 3)))
  }

  lemma RowLeIsTotalPreorder()
    ensures TotalPreorder(RowLe)
  {
    forall a, b
      ensures RowLe(a, b) || RowLe(b, a)
    {
      ValueLeIsTotalOrder(At(a, 1), At(b, 1), At(b, 1));
      ValueLeIsTotalOrder(At(a, 2), At(b, 2), At(b, 2));
      ValueLeIsTotalOrder(At(a, 3), At(b, 3), At(b, 3));
    }
    forall a, b, c | RowLe(a, b) && RowLe(b, c)
      ensures RowLe(a, c)
    {
      ValueLeIsTotalOrder(At(a, 1), At(b, 1), At(c, 1));
      ValueLeIsTotalOrder(At(b, 1), At(c, 1), At(a, 1));
      ValueLeIsTotalOrder(At(c, 1), At(a, 1), At(b, 1));
      ValueLeIsTotalOrder(At(a, 2), At(b, 2), At(c, 2));
      ValueLeIsTotalOrder(At(b, 2), At(c, 2), At(a, 2));
      ValueLeIsTotalOrder(At(c, 2), At(a, 2), At(b, 2));
      ValueLeIsTotalOrder(At(a, 3), At(b, 3), At(c, 3));
    }
  }

  /** The shaped row's sort columns hold the record's padded month, padded day and year. */
  lemma SortKeyColumns(r: Record)
    ensures At(Shape(RowOf(r)), 1) == Str(r.month)
    ensures At(Shape(RowOf(r)), 2) == Str(r.day)
    ensures At(Shape(RowOf(r)), 3) == Int(r.yearOfEvent)
  {
    var a := Shape(RowOf(r));
    assert a[1] == Str(r.month) && a[2] == Str(r.day) && a[3] == Int(r.yearOfEvent);
  }

  /**
   * On exported records the row order is chronological: month, then day, then
   * year, all compared as numbers, because month and day are zero-padded.
   */
  lemma RowOrderIsChronological(r1: Record, d1: MonthDay, r2: Record, d2: MonthDay)
    requires RecordOn(r1, d1) && RecordOn(r2, d2)
    ensures RowLe(Shape(RowOf(r1)), Shape(RowOf(r2))) <==>
              || d1.month < d2.month
              || (d1.month == d2.month && d1.day < d2.day)
              || (d1.month == d2.month && d1.day == d2.day && r1.yearOfEvent <= r2.yearOfEvent)
  {
    SortKeyColumns(r1);
    SortKeyColumns(r2);
    PaddedOrder(d1.month, d2.month);
    PaddedOrder(d1.day, d2.day);
    Pad2IsDecimal(d1.month);
    Pad2IsDecimal(d2.month);
    Pad2IsDecimal(d1.day);
    Pad2IsDecimal(d2.day);
    assert r1.month == r2.month <==> d1.month == d2.month;
    assert r1.day == r2.day <==> d1.day == d2.day;
  }

  // ---- the order of the grouped output ----

  /** An item of the date-grouped map: a date label and its entries. */
  type Group = (string, seq<Entry>)

  /**
   * The key `strptime(f"{label} 2024", "%B %d %Y")`, as the day's position in
   * the year (0 for a label that does not parse, where the source raises).
   */
  function LabelKey(dateLabel: string): int
  {
    match ParseLabel(dateLabel)
    case Some(md) => DayOfYear(md)
    case None => 0
  }

  predicate GroupLe(a: Group, b: Group)
  {
    LabelKey(a.0) <= LabelKey(b.0)
  }

  lemma GroupLeIsTotalPreorder()
    ensures TotalPreorder(GroupLe)
  {
  }

  /** Groups come out in the chronological order of the days their labels name. */
  lemma GroupOrderIsChronological(a: MonthDay, b: MonthDay, ea: seq<Entry>, eb: seq<Entry>)
    requires Valid(a) && Valid(b) && a != b
    ensures GroupLe((DateLabel(a), ea), (DateLabel(b), eb)) <==> Before(a, b)
  {
    LabelRoundTrip(a);
    LabelRoundTrip(b);
    DayOfYearOrder(a, b);
    DayOfYearOrder(b, a);
    DayOfYearRoundTrip(a);
    DayOfYearRoundTrip(b);
  }

  // ---- the export ----

  /** The CSV table and the date-grouped JSON object, in the order they are written. */
  datatype Output = Output(table: seq<seq<Value>>, grouped: seq<Group>)

  /** Every label of the grouped map parses, so that sorting it does not raise. */
  predicate LabelsParse(items: seq<Group>)
  {
    forall i :: 0 <= i < |items| ==> ParseLabel(items[i].0).Some?
  }

  /** The table the export writes, one shaped row per row dict: 15 cells each, none of them null. */
  function ShapeAll(rows: seq<Row>): (table: seq<seq<Value>>)
    ensures |table| == |rows|
    ensures forall k :: 0 <= k < |rows| ==> table[k] == Shape(rows[k])
    ensures forall k :: 0 <= k < |rows| ==> |table[k]| == |COLUMN_ORDER|
    ensures forall k, j :: 0 <= k < |rows| && 0 <= j < |table[k]| ==> !table[k][j].Null?
  {
    seq(|rows|, k requires 0 <= k < |rows| => Shape(rows[k]))
  }

  /**
   * The export block: nothing when the flat list is empty; otherwise the shaped
   * rows, sorted by (month, day, year_of_event), and the grouped items, sorted
   * by the day of their label.
   */
  method Export(rows: seq<Row>, items: seq<Group>) returns (out: Option<Output>)
    requires |rows| > 0 ==> LabelsParse(items)
    ensures out.None? <==> |rows| == 0
    ensures out.Some? ==> multiset(out.value.table) == multiset(ShapeAll(rows))
    ensures out.Some? ==> SortedBy(out.value.table, RowLe)
    ensures out.Some? ==> forall k :: 0 <= k < |out.value.table| ==> |out.value.table[k]| == |COLUMN_ORDER|
    ensures out.Some? ==> multiset(out.value.grouped) == multiset(items)
    ensures out.Some? ==> SortedBy(out.value.grouped, GroupLe)
  {
    if |rows| == 0 {
      return None;
    }
    var df := FrameOf(rows);
    df := AddMissingColumns(df);
    var selected := Select(df, COLUMN_ORDER);
    assert selected == ShapeAll(rows) by {
      forall k | 0 <= k < |rows|
        ensures selected[k] == Shape(rows[k])
      {
        forall j | 0 <= j < |COLUMN_ORDER|
          ensures selected[k][j] == Shape(rows[k])[j]
        {
          var c := COLUMN_ORDER[j];
          assert c in COLUMN_ORDER;
          if c !in rows[k] && c in FrameOf(rows).columns {
            assert Cell(FrameOf(rows), k, c) == Null;
          }
        }
      }
    }
    RowLeIsTotalPreorder();
    GroupLeIsTotalPreorder();
    var table := SortBy(selected, RowLe);
    var grouped := SortBy(items, GroupLe);
    out := Some(Output(table, grouped));
    forall k | 0 <= k < |table|
      ensures |table[k]| == |COLUMN_ORDER|
    {
      assert table[k] in multiset(selected);
    }
  }
}

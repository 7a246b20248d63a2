/**
 * `read_sheet` as a whole: the fetched table is renamed through the header
 * classifier, completed with the missing canonical columns, and its `date`
 * and `amount` columns are converted; when the sheet cannot be fetched, an
 * empty table with the canonical columns is returned instead.
 */
module Reading {
  import opened Wrappers
  import opened Text
  import opened Headers
  import opened Amounts
  import opened Schema

  /** The years a pandas timestamp can hold. */
  type Year = y: int | 1677 <= y <= 2262 witness 1970
  type Month = m: int | 1 <= m <= 12 witness 1
  type Day = d: int | 1 <= d <= 31 witness 1

  datatype Date = Date(year: Year, month: Month, day: Day)

  /**
   * A row of the table `read_sheet` returns: its converted date (`None` for
   * a cell `to_datetime` could not read), its amount, the two text columns
   * the dashboard groups by, and all its cells as text.
   */
  datatype Expense = Expense(date: Option<Date>, amount: real, tool: string, department: string, cells: seq<string>)

  /**
   * The table `read_sheet` returns. `dated` tells whether its `date` column
   * has the datetime type (it does after conversion, and does not in the
   * fallback table), which decides whether `.dt` may be used on it.
   */
  datatype Sheet = Sheet(columns: seq<string>, rows: seq<Expense>, dated: bool)

  /** Why `read_sheet` raises instead of returning. */
  datatype ReadError =
    | DuplicateColumn(name: string) // two headers were renamed to "date", or two to "amount"
    | NotANumber(cell: string)      // an amount cell `astype(float)` refuses once sanitised

  /** The table returned when the CSV cannot be read: the canonical columns and no rows. */
  function Fallback(): (s: Sheet)
    ensures s.columns == Canonical && s.rows == [] && !s.dated
  {
    Sheet(Canonical, [], false)
  }

  function Count(columns: seq<string>, c: string): nat
  {
    if columns == [] then 0 else (if columns[0] == c then 1 else 0) + Count(columns[1..], c)
  }

  lemma {:induction false} CountPositive(columns: seq<string>, c: string)
    ensures Count(columns, c) > 0 <==> c in columns
  {
    if columns != [] {
      CountPositive(columns[1..], c);
      assert columns == [columns[0]] + columns[1..];
    }
  }

  /** A header list without repeats has each name at most once. */
  lemma {:induction false} CountAtMostOne(columns: seq<string>, c: string)
    requires forall i, j :: 0 <= i < j < |columns| ==> columns[i] != columns[j]
    ensures Count(columns, c) <= 1
  {
    if columns != [] {
      CountAtMostOne(columns[1..], c);
      if columns[0] == c {
        assert forall j :: 0 <= j < |columns[1..]| ==> columns[1..][j] == columns[j + 1];
        CountPositive(columns[1..], c);
      }
    }
  }

  /** The first of `names` that heads more than one column, if any. */
  function FirstDuplicate(columns: seq<string>, names: seq<string>): (r: Option<string>)
    ensures r.None? <==> forall c :: c in names ==> Count(columns, c) <= 1
    ensures r.Some? ==> r.value in names && Count(columns, r.value) > 1
  {
    if names == [] then None
    else if Count(columns, names[0]) > 1 then
      assert names[0] in names;
      Some(names[0])
    else
      var r := FirstDuplicate(columns, names[1..]);
      assert forall c :: c in names ==> c == names[0] || c in names[1..];
      r
  }

  /** The position of the column headed `c`. */
  function IndexOf(columns: seq<string>, c: string): (i: nat)
    requires c in columns
    ensures i < |columns| && columns[i] == c
    ensures forall j :: 0 <= j < i ==> columns[j] != c
  {
    if columns[0] == c then 0 else 1 + IndexOf(columns[1..], c)
  }

  /** Where the columns the conversion reads sit in a row. */
  datatype Layout = Layout(date: nat, amount: nat, tool: nat, department: nat)

  predicate Fits(layout: Layout, row: seq<string>)
  {
    layout.date < |row| && layout.amount < |row| && layout.tool < |row| && layout.department < |row|
  }

  /** One row after `to_datetime` and the amount conversion. */
  function ConvertRow(row: seq<string>, layout: Layout, parseDate: string -> Option<Date>): (r: Result<Expense, ReadError>)
    requires Fits(layout, row)
    ensures r.Ok? <==> ParseAmount(row[layout.amount]).Some?
    ensures r.Err? ==> r.error == NotANumber(row[layout.amount])
    ensures r.Ok? ==> r.value.amount == ParseAmount(row[layout.amount]).value && r.value.amount >= 0.0
    ensures r.Ok? ==> r.value == Expense(parseDate(row[layout.date]), r.value.amount, row[layout.tool], row[layout.department], row)
  {
    match ParseAmount(row[layout.amount])
    case None => Err(NotANumber(row[layout.amount]))
    case Some(v) => Ok(Expense(parseDate(row[layout.date]), v, row[layout.tool], row[layout.department], row))
  }

  /** Every row converted; the first amount that does not convert makes the whole conversion fail. */
  function ConvertRows(rows: seq<seq<string>>, layout: Layout, parseDate: string -> Option<Date>): (r: Result<seq<Expense>, ReadError>)
    requires forall k :: 0 <= k < |rows| ==> Fits(layout, rows[k])
    ensures r.Ok? <==> forall k :: 0 <= k < |rows| ==> ConvertRow(rows[k], layout, parseDate).Ok?
    ensures r.Ok? ==> |r.value| == |rows|
    ensures r.Ok? ==> forall k :: 0 <= k < |rows| ==> r.value[k] == ConvertRow(rows[k], layout, parseDate).value
  {
    if rows == [] then Ok([])
    else
      var tail := rows[1..];
      assert forall k :: 0 <= k < |tail| ==> tail[k] == rows[k + 1];
      var first := ConvertRow(rows[0], layout, parseDate);
      var rest := ConvertRows(tail, layout, parseDate);
      if first.Err? then Err(first.error)
      else if rest.Err? then Err(rest.error)
      else Ok([first.value] + rest.value)
  }

  /** The layout of a table that has every canonical column. */
  function LayoutOf(columns: seq<string>): (l: Layout)
    requires forall c :: c in Canonical ==> c in columns
    ensures l.date < |columns| && columns[l.date] == "date"
    ensures l.amount < |columns| && columns[l.amount] == "amount"
    ensures l.tool < |columns| && columns[l.tool] == "tool"
    ensures l.department < |columns| && columns[l.department] == "department"
  {
    assert "date" in Canonical && "amount" in Canonical && "tool" in Canonical && "department" in Canonical;
    Layout(IndexOf(columns, "date"), IndexOf(columns, "amount"), IndexOf(columns, "tool"), IndexOf(columns, "department"))
  }

  /**
   * A converted row whose fields are read from its own cells: the amount is
   * the sanitised amount cell's value, the date is the parsed date cell, and
   * the tool and department are those cells as they stand.
   */
  predicate FromCells(e: Expense, columns: seq<string>, parseDate: string -> Option<Date>)
    requires forall c :: c in Canonical ==> c in columns
    requires |e.cells| == |columns|
  {
    var l := LayoutOf(columns);
    ParseAmount(e.cells[l.amount]) == Some(e.amount) && e.date == parseDate(e.cells[l.date]) &&
    e.tool == e.cells[l.tool] && e.department == e.cells[l.department]
  }

  /**
   * The columns the "format data" step converts, in the order it converts
   * them. When two headers were renamed to one of them, selecting it gives a
   * table rather than a column, and the conversion raises.
   */
  const Converted: seq<string> := ["date", "amount"]

  /** The "format data" step on a completed table. */
  function Convert(f: Frame, parseDate: string -> Option<Date>): (r: Result<Sheet, ReadError>)
    requires Rectangular(f)
    requires forall c :: c in Canonical ==> c in f.columns
    ensures r.Ok? ==> r.value.columns == f.columns && r.value.dated && |r.value.rows| == |f.rows|
    ensures r.Ok? ==> forall k :: 0 <= k < |f.rows| ==> r.value.rows[k].cells == f.rows[k]
    ensures r.Ok? ==> forall k :: 0 <= k < |f.rows| ==> r.value.rows[k].amount >= 0.0
    ensures r.Ok? ==> forall k :: 0 <= k < |f.rows| ==> FromCells(r.value.rows[k], f.columns, parseDate)
  {
    match FirstDuplicate(f.columns, Converted)
    case Some(c) => Err(DuplicateColumn(c))
    case None =>
      var layout := LayoutOf(f.columns);
      match ConvertRows(f.rows, layout, parseDate)
      case Err(e) => Err(e)
      case Ok(rows) => Ok(Sheet(f.columns, rows, true))
  }

  /** What `read_sheet` returns for a fetch result (`None` when `read_csv` raised). */
  function ReadSheetSpec(fetched: Option<Frame>, parseDate: string -> Option<Date>): Result<Sheet, ReadError>
    requires fetched.Some? ==> Rectangular(fetched.value)
  {
    match fetched
    case None => Ok(Fallback())
    case Some(f) =>
      var g := Complete(Renamed(f));
      CompleteFills(Renamed(f));
      Convert(g, parseDate)
  }

  /** `read_sheet`: the `col_map` loop, the rename, the completion loop and the conversion. */
  method ReadSheet(fetched: Option<Frame>, parseDate: string -> Option<Date>) returns (r: Result<Sheet, ReadError>)
    requires fetched.Some? ==> Rectangular(fetched.value)
    ensures r == ReadSheetSpec(fetched, parseDate)
  {
    if fetched.None? {
      return Ok(Fallback());
    }
    var f := fetched.value;
    var colMap := MapColumns(f.columns);
    var renamed := Frame(seq(|f.columns|, i requires 0 <= i < |f.columns| => colMap[f.columns[i]]), f.rows);
    assert renamed == Renamed(f);
    var completed := AddMissingColumns(renamed);
    CompleteFills(renamed);
    r := Convert(completed, parseDate);
  }

  // ---- What `read_sheet` guarantees ----

  /** Every canonical column is present, on the fallback path and after completion. */
  lemma ReadSheetHasCanonical(fetched: Option<Frame>, parseDate: string -> Option<Date>)
    requires fetched.Some? ==> Rectangular(fetched.value)
    ensures ReadSheetSpec(fetched, parseDate).Ok? ==>
      forall c :: c in Canonical ==> c in ReadSheetSpec(fetched, parseDate).value.columns
  {
    if fetched.Some? {
      CompleteHasCanonical(Renamed(fetched.value));
    }
  }

  /**
   * The cells of the fetched rows are kept in place, the added cells are "",
   * and every row's fields are read from its cells, so every amount is the
   * sanitised amount cell's value, which is never negative.
   */
  lemma ReadSheetRows(f: Frame, parseDate: string -> Option<Date>)
    requires Rectangular(f)
    ensures ReadSheetSpec(Some(f), parseDate).Ok? ==>
      var s := ReadSheetSpec(Some(f), parseDate).value;
      |s.rows| == |f.rows| && s.dated && (forall c :: c in Canonical ==> c in s.columns) &&
      forall k :: 0 <= k < |f.rows| ==>
        s.rows[k].cells[..|f.columns|] == f.rows[k] &&
        (forall j :: |f.columns| <= j < |s.columns| ==> s.rows[k].cells[j] == "") &&
        s.rows[k].amount >= 0.0 &&
        |s.rows[k].cells| == |s.columns| && FromCells(s.rows[k], s.columns, parseDate)
  {
    var h := Renamed(f);
    var g := Complete(h);
    CompleteKeeps(h);
    CompleteFills(h);
    var r := Convert(g, parseDate);
    assert ReadSheetSpec(Some(f), parseDate) == r;
    if r.Ok? {
      var s := r.value;
      forall k | 0 <= k < |f.rows|
        ensures s.rows[k].cells[..|f.columns|] == f.rows[k]
        ensures forall j :: |f.columns| <= j < |s.columns| ==> s.rows[k].cells[j] == ""
      {
        assert s.rows[k].cells == g.rows[k] && h.rows[k] == f.rows[k];
      }
    }
  }

  /**
   * Once "date" and "amount" each head one column, converting a completed table
   * fails exactly when some amount cell does not convert.
   */
  lemma ConvertFailsIff(g: Frame, parseDate: string -> Option<Date>)
    requires Rectangular(g)
    requires forall c :: c in Canonical ==> c in g.columns
    requires Count(g.columns, "date") <= 1 && Count(g.columns, "amount") <= 1
    ensures Convert(g, parseDate).Err? <==>
      exists k :: 0 <= k < |g.rows| && ParseAmount(g.rows[k][IndexOf(g.columns, "amount")]).None?
  {
    var layout := LayoutOf(g.columns);
    assert FirstDuplicate(g.columns, Converted).None? by {
      assert forall c :: c in Converted ==> c == "date" || c == "amount";
    }
    assert layout.amount == IndexOf(g.columns, "amount");
    var converted := ConvertRows(g.rows, layout, parseDate);
    assert Convert(g, parseDate).Err? <==> converted.Err?;
    if converted.Err? {
      var k :| 0 <= k < |g.rows| && ConvertRow(g.rows[k], layout, parseDate).Err?;
      assert ParseAmount(g.rows[k][layout.amount]).None?;
    } else {
      forall k | 0 <= k < |g.rows| ensures ParseAmount(g.rows[k][layout.amount]).Some? {
        assert ConvertRow(g.rows[k], layout, parseDate).Ok?;
      }
    }
  }

  /** Two headers that are both renamed to "date", or both to "amount", make the read fail rather than pick one. */
  lemma ConvertDuplicate(g: Frame, parseDate: string -> Option<Date>, c: string)
    requires Rectangular(g)
    requires forall c :: c in Canonical ==> c in g.columns
    requires c in Converted && Count(g.columns, c) > 1
    ensures Convert(g, parseDate).Err? && Convert(g, parseDate).error.DuplicateColumn?
  {
  }
}

/**
 * The figures `/api/data` computes from `read_sheet`'s table: the optional
 * calendar-month filter, the total, the per-tool and per-department
 * breakdowns, and the trend of the latest months (`last_months`).
 */
module Reports {
  import opened Wrappers
  import opened Text
  import opened Headers
  import opened Schema
  import opened Reading
  import opened Grouping

  // ---- The month filter ----

  /** The row has a date, and that date falls in calendar month `k`. */
  predicate InMonth(e: Expense, k: int)
  {
    e.date.Some? && e.date.value.month == k
  }

  /** `df[df["date"].dt.month == k]`: the rows of month `k`, in their order. */
  function RowsInMonth(rows: seq<Expense>, k: int): (r: seq<Expense>)
    ensures |r| <= |rows|
    ensures forall e :: e in r <==> e in rows && InMonth(e, k)
  {
    if rows == [] then []
    else
      assert rows == [rows[0]] + rows[1..];
      (if InMonth(rows[0], k) then [rows[0]] else []) + RowsInMonth(rows[1..], k)
  }

  /**
   * The month filter of `api_data`. "All" skips it; otherwise `.dt` on a
   * date column without the datetime type, or `int` on a text that is not an
   * integer, raises, and the bare `except` leaves the table as it was.
   */
  function MonthFilter(s: Sheet, month: string): (t: Sheet)
    ensures t.columns == s.columns && t.dated == s.dated
  {
    if month == "All" || !s.dated then s
    else
      match ParseInt(month)
      case None => s
      case Some(k) => Sheet(s.columns, RowsInMonth(s.rows, k), s.dated)
  }

  lemma MonthFilterUnchanged(s: Sheet, month: string)
    requires month == "All" || !s.dated || ParseInt(month).None?
    ensures MonthFilter(s, month) == s
  {
  }

  /** Filtering works row by row: a single row is kept exactly when it is dated in month `k` ... */
  lemma RowsInMonthSingle(e: Expense, k: int)
    ensures RowsInMonth([e], k) == if InMonth(e, k) then [e] else []
  {
    assert [e][1..] == [];
  }

  /** ... and the filter distributes over concatenation, so the kept rows stay in their order. */
  lemma {:induction false} RowsInMonthAppend(a: seq<Expense>, b: seq<Expense>, k: int)
    ensures RowsInMonth(a + b, k) == RowsInMonth(a, k) + RowsInMonth(b, k)
    decreases |a|
  {
    if a == [] {
      assert a + b == b;
    } else {
      assert (a + b)[0] == a[0];
      assert (a + b)[1..] == a[1..] + b;
      RowsInMonthAppend(a[1..], b, k);
    }
  }

  /** Every row dated in month `k` is kept as often as it occurs, and no other row is kept. */
  lemma {:induction false} RowsInMonthCount(rows: seq<Expense>, k: int)
    ensures forall e :: multiset(RowsInMonth(rows, k))[e] == if InMonth(e, k) then multiset(rows)[e] else 0
    decreases |rows|
  {
    if rows != [] {
      RowsInMonthCount(rows[1..], k);
      assert rows == [rows[0]] + rows[1..];
      assert multiset(rows) == multiset([rows[0]]) + multiset(rows[1..]);
      var head := if InMonth(rows[0], k) then [rows[0]] else [];
      assert RowsInMonth(rows, k) == head + RowsInMonth(rows[1..], k);
      assert multiset(RowsInMonth(rows, k)) == multiset(head) + multiset(RowsInMonth(rows[1..], k));
    }
  }

  /**
   * With an integer `k`, exactly the rows dated in month `k` are kept, each
   * as often as it occurs, in their order.
   */
  lemma MonthFilterKeeps(s: Sheet, month: string, k: int)
    requires month != "All" && s.dated && ParseInt(month) == Some(k)
    ensures forall e :: e in MonthFilter(s, month).rows <==> e in s.rows && InMonth(e, k)
    ensures forall e :: multiset(MonthFilter(s, month).rows)[e] == if InMonth(e, k) then multiset(s.rows)[e] else 0
    ensures MonthFilter(s, month).rows == RowsInMonth(s.rows, k)
  {
    RowsInMonthCount(s.rows, k);
  }

  /** A month number outside 1..12 keeps no row at all. */
  lemma MonthFilterOutOfRange(s: Sheet, month: string, k: int)
    requires month != "All" && s.dated && ParseInt(month) == Some(k)
    requires k < 1 || k > 12
    ensures MonthFilter(s, month).rows == []
  {
    RowsInMonthNone(s.rows, k);
  }

  lemma {:induction false} RowsInMonthNone(rows: seq<Expense>, k: int)
    requires k < 1 || k > 12
    ensures RowsInMonth(rows, k) == []
    decreases |rows|
  {
    if rows != [] {
      RowsInMonthNone(rows[1..], k);
    }
  }

  lemma ExampleMonthThirteen(s: Sheet)
    requires s.dated
    ensures MonthFilter(s, "13").rows == []
  {
    assert NatToString(13) == "13";
    ParseIntOfNatToString(13);
    MonthFilterOutOfRange(s, "13", 13);
  }

  lemma ExampleMonthName(s: Sheet)
    ensures MonthFilter(s, "March") == s
  {
    ParseIntNeedsDigit("March");
  }

  // ---- The total ----

  /** `float(df["amount"].sum())`. */
  function Total(rows: seq<Expense>): real
  {
    if rows == [] then 0.0 else Total(rows[..|rows| - 1]) + rows[|rows| - 1].amount
  }

  predicate NonNegative(rows: seq<Expense>)
  {
    forall k :: 0 <= k < |rows| ==> rows[k].amount >= 0.0
  }

  lemma {:induction false} TotalNonNegative(rows: seq<Expense>)
    requires NonNegative(rows)
    ensures Total(rows) >= 0.0
    decreases |rows|
  {
    if rows != [] {
      TotalNonNegative(rows[..|rows| - 1]);
    }
  }

  lemma {:induction false} TotalAppend(a: seq<Expense>, b: seq<Expense>)
    ensures Total(a + b) == Total(a) + Total(b)
    decreases |b|
  {
    if b == [] {
      assert a + b == a;
    } else {
      assert (a + b)[..|a + b| - 1] == a + b[..|b| - 1];
      TotalAppend(a, b[..|b| - 1]);
    }
  }

  /** Filtering by month never raises the total of non-negative amounts. */
  lemma {:induction false} RowsInMonthTotal(rows: seq<Expense>, k: int)
    requires NonNegative(rows)
    ensures Total(RowsInMonth(rows, k)) <= Total(rows)
    decreases |rows|
  {
    if rows != [] {
      var head := if InMonth(rows[0], k) then [rows[0]] else [];
      assert rows == [rows[0]] + rows[1..];
      assert NonNegative(rows[1..]);
      RowsInMonthTotal(rows[1..], k);
      TotalAppend(head, RowsInMonth(rows[1..], k));
      TotalAppend([rows[0]], rows[1..]);
      assert Total([rows[0]]) == rows[0].amount by {
        assert [rows[0]][..0] == [];
      }
      if head == [] {
        assert Total(head) == 0.0;
      }
    }
  }

  // ---- The breakdowns ----

  datatype GroupBy = ByTool | ByDepartment

  function KeyOf(e: Expense, column: GroupBy): string
  {
    match column
    case ByTool => e.tool
    case ByDepartment => e.department
  }

  /** Each row as the (key, amount) pair `groupby(key)["amount"]` looks at. */
  function Pairs(rows: seq<Expense>, column: GroupBy): (p: seq<(string, real)>)
    ensures |p| == |rows|
    ensures forall k :: 0 <= k < |rows| ==> p[k] == (KeyOf(rows[k], column), rows[k].amount)
  {
    seq(|rows|, k requires 0 <= k < |rows| => (KeyOf(rows[k], column), rows[k].amount))
  }

  /** Larger amounts first. */
  function Descending(e: (string, real)): real
  {
    -e.1
  }

  /**
   * `df.groupby(key)["amount"].sum().reset_index().sort_values("amount",
   * ascending=False)`; among equal amounts the first key seen comes first.
   */
  function Breakdown(rows: seq<Expense>, column: GroupBy): seq<(string, real)>
  {
    SortBy(Grouped(Pairs(rows, column)), Descending)
  }

  /** The entries run from the largest amount to the smallest. */
  lemma BreakdownDescending(rows: seq<Expense>, column: GroupBy)
    ensures forall i, j :: 0 <= i < j < |Breakdown(rows, column)| ==> Breakdown(rows, column)[i].1 >= Breakdown(rows, column)[j].1
  {
    var b := Breakdown(rows, column);
    assert SortedBy(b, Descending);
    forall i, j | 0 <= i < j < |b| ensures b[i].1 >= b[j].1 {
      assert Descending(b[i]) <= Descending(b[j]);
    }
  }

  /** An entry is a key that some row has, paired with the sum of that key's amounts. */
  lemma BreakdownEntries(rows: seq<Expense>, column: GroupBy)
    ensures forall e: (string, real) :: e in Breakdown(rows, column) <==>
      (exists k :: 0 <= k < |rows| && KeyOf(rows[k], column) == e.0) && e.1 == SumFor(Pairs(rows, column), e.0)
  {
    var p := Pairs(rows, column);
    GroupedEntries(p);
    PermutationMembers(Grouped(p), Breakdown(rows, column));
    PairsHasKey(rows, column);
  }

  /** A key is among the pairs exactly when some row has it. */
  lemma PairsHasKey(rows: seq<Expense>, column: GroupBy)
    ensures forall key :: HasKey(Pairs(rows, column), key) <==> exists k :: 0 <= k < |rows| && KeyOf(rows[k], column) == key
  {
    var p := Pairs(rows, column);
    forall key ensures HasKey(p, key) <==> exists k :: 0 <= k < |rows| && KeyOf(rows[k], column) == key {
      if HasKey(p, key) {
        var k :| 0 <= k < |p| && p[k].0 == key;
        assert KeyOf(rows[k], column) == key;
      }
      if exists k :: 0 <= k < |rows| && KeyOf(rows[k], column) == key {
        var k :| 0 <= k < |rows| && KeyOf(rows[k], column) == key;
        assert p[k].0 == key;
      }
    }
  }

  /** One entry per distinct key: no key is listed twice, and every key is listed. */
  lemma BreakdownDistinct(rows: seq<Expense>, column: GroupBy)
    ensures |Breakdown(rows, column)| == |Keys(Pairs(rows, column))|
    ensures forall i, j :: 0 <= i < j < |Breakdown(rows, column)| ==> Breakdown(rows, column)[i].0 != Breakdown(rows, column)[j].0
  {
    var p := Pairs(rows, column);
    var g := Grouped(p);
    var b := Breakdown(rows, column);
    PermutationLength(g, b);
    GroupedDistinctKeys(p);
    assert Distinct(g);
    PermutationDistinct(g, b);
    BreakdownEntries(rows, column);
    forall i, j | 0 <= i < j < |b| ensures b[i].0 != b[j].0 {
      assert b[i] in b && b[j] in b;
      assert b[i] != b[j];
    }
  }

  lemma {:induction false} PairsTotal(rows: seq<Expense>, column: GroupBy)
    ensures Sum(Pairs(rows, column)) == Total(rows)
    decreases |rows|
  {
    if rows != [] {
      var init := rows[..|rows| - 1];
      PairsTotal(init, column);
      assert Pairs(rows, column)[..|rows| - 1] == Pairs(init, column);
    }
  }

  /** The breakdown accounts for the whole total: its amounts add up to it. */
  lemma BreakdownTotal(rows: seq<Expense>, column: GroupBy)
    ensures Sum(Breakdown(rows, column)) == Total(rows)
  {
    SumSortBy(Grouped(Pairs(rows, column)), Descending);
    GroupedTotal(Pairs(rows, column));
    PairsTotal(rows, column);
  }

  // ---- The trend ----

  /** A calendar month, as `to_period("M")` gives it. */
  datatype Period = Period(year: Year, month: Month)

  function PeriodOf(d: Date): Period
  {
    Period(d.year, d.month)
  }

  /** The number of months since the start of year 0: periods compare as their ordinals do. */
  function Ordinal(p: Period): int
  {
    p.year * 12 + p.month
  }

  lemma OrdinalInjective(p: Period, q: Period)
    ensures Ordinal(p) == Ordinal(q) ==> p == q
  {
    if p.year < q.year {
      assert Ordinal(p) <= p.year * 12 + 12 <= q.year * 12 < Ordinal(q);
    } else if p.year > q.year {
      assert Ordinal(q) <= q.year * 12 + 12 <= p.year * 12 < Ordinal(p);
    }
  }

  predicate InPeriod(e: Expense, p: Period)
  {
    e.date.Some? && PeriodOf(e.date.value) == p
  }

  /** `df.dropna(subset=["date"])` with the `month` column: (period, amount) for each dated row. */
  function DatedPairs(rows: seq<Expense>): (r: seq<(Period, real)>)
    ensures forall p :: HasKey(r, p) <==> exists k :: 0 <= k < |rows| && InPeriod(rows[k], p)
  {
    if rows == [] then []
    else
      var init := rows[..|rows| - 1];
      var last := rows[|rows| - 1];
      var head := DatedPairs(init);
      var r := head + (if last.date.Some? then [(PeriodOf(last.date.value), last.amount)] else []);
      assert forall p :: HasKey(r, p) <==> HasKey(head, p) || InPeriod(last, p) by {
        forall p | HasKey(r, p) ensures HasKey(head, p) || InPeriod(last, p) {
          var i :| 0 <= i < |r| && r[i].0 == p;
          if i < |head| {
            assert head[i].0 == p;
          }
        }
        forall p | HasKey(head, p) ensures HasKey(r, p) {
          var i :| 0 <= i < |head| && head[i].0 == p;
          assert r[i].0 == p;
        }
        forall p | InPeriod(last, p) ensures HasKey(r, p) {
          assert r[|head|].0 == p;
        }
      }
      assert forall p :: (exists k :: 0 <= k < |rows| && InPeriod(rows[k], p)) <==>
        (exists k :: 0 <= k < |init| && InPeriod(init[k], p)) || InPeriod(last, p) by {
        assert forall k :: 0 <= k < |init| ==> rows[k] == init[k];
      }
      r
  }

  /** The rows dated in period `p`, in their order. */
  function RowsInPeriod(rows: seq<Expense>, p: Period): (r: seq<Expense>)
    ensures forall e :: e in r <==> e in rows && InPeriod(e, p)
  {
    if rows == [] then []
    else
      var init := rows[..|rows| - 1];
      var last := rows[|rows| - 1];
      assert rows == init + [last];
      RowsInPeriod(init, p) + (if InPeriod(last, p) then [last] else [])
  }

  lemma TotalSnoc(rows: seq<Expense>, e: Expense)
    ensures Total(rows + [e]) == Total(rows) + e.amount
  {
    assert (rows + [e])[..|rows|] == rows;
  }

  /** The amount the dated pairs hold for a period is the total of that period's rows. */
  lemma {:induction false} DatedPairsSum(rows: seq<Expense>, p: Period)
    ensures SumFor(DatedPairs(rows), p) == Total(RowsInPeriod(rows, p))
    decreases |rows|
  {
    if rows != [] {
      var init := rows[..|rows| - 1];
      var last := rows[|rows| - 1];
      DatedPairsSum(init, p);
      var head := DatedPairs(init);
      if last.date.Some? {
        SumForAppend(head, (PeriodOf(last.date.value), last.amount), p);
      } else {
        assert head + [] == head;
      }
      if InPeriod(last, p) {
        TotalSnoc(RowsInPeriod(init, p), last);
      } else {
        assert RowsInPeriod(init, p) + [] == RowsInPeriod(init, p);
      }
    }
  }

  /** Earlier months first. */
  function Chronological(e: (Period, real)): real
  {
    Ordinal(e.0) as real
  }

  /** `groupby("month")["amount"].sum().reset_index().sort_values("month")`. */
  function MonthlyTotals(rows: seq<Expense>): seq<(Period, real)>
  {
    SortBy(Grouped(DatedPairs(rows)), Chronological)
  }

  const MonthAbbr: seq<string> :=
    ["Jan", "Feb", "Mar", "Apr", "May", "Jun", "Jul", "Aug", "Sep", "Oct", "Nov", "Dec"]

  lemma MonthAbbrLength(i: nat)
    requires i < 12
    ensures |MonthAbbr[i]| == 3
  {
  }

  /** `strftime("%b %Y")` with English month names. */
  function Label(p: Period): string
  {
    MonthAbbr[p.month - 1] + " " + NatToString(p.year)
  }

  datatype TrendPoint = TrendPoint(period: Period, amount: real, caption: string)

  datatype ApiError =
    | ReadFailed(cause: ReadError) // `read_sheet` raised
    | NotDatetime                  // `.dt` used on a date column without the datetime type
    | NotOneColumn(name: string)   // `groupby` on a name that heads more than one column

  function Min(a: nat, b: nat): nat
  {
    if a <= b then a else b
  }

  /** The last `n` elements of `s`, or all of them when there are fewer. */
  function Latest<T>(s: seq<T>, n: nat): (t: seq<T>)
    ensures |t| == Min(n, |s|)
    ensures forall i :: 0 <= i < |t| ==> t[i] == s[|s| - |t| + i]
  {
    s[|s| - Min(n, |s|)..]
  }

  /** Each monthly total as a trend point labelled with its month. */
  function Points(t: seq<(Period, real)>): (pts: seq<TrendPoint>)
    ensures |pts| == |t|
    ensures forall i :: 0 <= i < |t| ==> pts[i] == TrendPoint(t[i].0, t[i].1, Label(t[i].0))
  {
    seq(|t|, i requires 0 <= i < |t| => TrendPoint(t[i].0, t[i].1, Label(t[i].0)))
  }

  /** `last_months(df, n)`: the totals of the latest `n` months that have dated rows, oldest first. */
  function LastMonths(s: Sheet, n: nat): Result<seq<TrendPoint>, ApiError>
  {
    if !s.dated then Err(NotDatetime)
    else Ok(Points(Latest(MonthlyTotals(s.rows), n)))
  }

  lemma LastMonthsUndated(s: Sheet, n: nat)
    requires !s.dated
    ensures LastMonths(s, n) == Err(NotDatetime)
  {
  }

  /** The facts about the sorted monthly totals the trend lemmas share. */
  lemma MonthlyTotalsFacts(rows: seq<Expense>)
    ensures |MonthlyTotals(rows)| == |Keys(DatedPairs(rows))|
    ensures forall e: (Period, real) :: e in MonthlyTotals(rows) <==>
      HasKey(DatedPairs(rows), e.0) && e.1 == SumFor(DatedPairs(rows), e.0)
    ensures forall i, j :: 0 <= i < j < |MonthlyTotals(rows)| ==>
      Ordinal(MonthlyTotals(rows)[i].0) < Ordinal(MonthlyTotals(rows)[j].0)
  {
    var d := DatedPairs(rows);
    var g := Grouped(d);
    var m := MonthlyTotals(rows);
    PermutationLength(g, m);
    GroupedEntries(d);
    PermutationMembers(g, m);
    GroupedDistinctKeys(d);
    assert Distinct(g);
    PermutationDistinct(g, m);
    assert SortedBy(m, Chronological);
    forall i, j | 0 <= i < j < |m| ensures Ordinal(m[i].0) < Ordinal(m[j].0) {
      assert Chronological(m[i]) <= Chronological(m[j]);
      assert m[i] in m && m[j] in m;
      OrdinalInjective(m[i].0, m[j].0);
      assert m[i] != m[j];
    }
  }

  /** At most `n` points, and fewer only when fewer months have dated rows. */
  lemma TrendLength(s: Sheet, n: nat)
    requires s.dated
    ensures |LastMonths(s, n).value| == Min(n, |Keys(DatedPairs(s.rows))|)
    ensures |LastMonths(s, n).value| <= n
  {
    MonthlyTotalsFacts(s.rows);
  }

  /**
   * The points run strictly forward in time, each holds the sum of the
   * amounts of its month's dated rows, each month has a dated row, and the
   * label names the month.
   */
  lemma TrendPoints(s: Sheet, n: nat)
    requires s.dated
    ensures var pts := LastMonths(s, n).value;
      (forall i, j :: 0 <= i < j < |pts| ==> Ordinal(pts[i].period) < Ordinal(pts[j].period)) &&
      (forall i :: 0 <= i < |pts| ==>
        pts[i].amount == SumFor(DatedPairs(s.rows), pts[i].period) &&
        (exists k :: 0 <= k < |s.rows| && InPeriod(s.rows[k], pts[i].period)) &&
        pts[i].caption == Label(pts[i].period))
  {
    var m := MonthlyTotals(s.rows);
    var t := Latest(m, n);
    var pts := LastMonths(s, n).value;
    MonthlyTotalsFacts(s.rows);
    forall i | 0 <= i < |pts| ensures pts[i].amount == SumFor(DatedPairs(s.rows), pts[i].period) &&
      HasKey(DatedPairs(s.rows), pts[i].period) {
      assert pts[i].period == t[i].0 && pts[i].amount == t[i].1;
      assert t[i] == m[|m| - Min(n, |m|) + i];
      assert t[i] in m;
    }
  }

  /** In a sequence ascending by month, a month missing from the tail comes before all of the tail. */
  lemma LatestExcludes(m: seq<(Period, real)>, n: nat, p: Period, j: nat)
    requires forall i, k :: 0 <= i < k < |m| ==> Ordinal(m[i].0) < Ordinal(m[k].0)
    requires j < |m| && m[j].0 == p
    requires forall i :: 0 <= i < |Latest(m, n)| ==> Latest(m, n)[i].0 != p
    ensures forall i :: 0 <= i < |Latest(m, n)| ==> Ordinal(p) < Ordinal(Latest(m, n)[i].0)
  {
    var t := Latest(m, n);
    var start := |m| - |t|;
    assert forall i :: start <= i < |m| ==> m[i].0 != p by {
      forall i | start <= i < |m| ensures m[i].0 != p {
        assert t[i - start] == m[i];
      }
    }
    forall i | 0 <= i < |t| ensures Ordinal(p) < Ordinal(t[i].0) {
      assert t[i] == m[start + i];
    }
  }

  /** Each point's amount is the total of the rows dated in its month. */
  lemma TrendTotals(s: Sheet, n: nat)
    requires s.dated
    ensures var pts := LastMonths(s, n).value;
      forall i :: 0 <= i < |pts| ==> pts[i].amount == Total(RowsInPeriod(s.rows, pts[i].period))
  {
    var pts := LastMonths(s, n).value;
    TrendPoints(s, n);
    forall i | 0 <= i < |pts| ensures pts[i].amount == Total(RowsInPeriod(s.rows, pts[i].period)) {
      DatedPairsSum(s.rows, pts[i].period);
    }
  }

  /** The points are the latest months: every month with dated rows that is left out comes before all of them. */
  lemma TrendLatest(s: Sheet, n: nat, p: Period)
    requires s.dated
    requires exists k :: 0 <= k < |s.rows| && InPeriod(s.rows[k], p)
    requires forall i :: 0 <= i < |LastMonths(s, n).value| ==> LastMonths(s, n).value[i].period != p
    ensures forall i :: 0 <= i < |LastMonths(s, n).value| ==> Ordinal(p) < Ordinal(LastMonths(s, n).value[i].period)
  {
    var m := MonthlyTotals(s.rows);
    var t := Latest(m, n);
    var pts := LastMonths(s, n).value;
    assert pts == Points(t);
    var j := MonthlyTotalsHas(s.rows, p);
    MonthlyTotalsAscending(s.rows);
    assert forall i :: 0 <= i < |t| ==> t[i].0 == pts[i].period;
    LatestExcludes(m, n, p, j);
  }

  /** The monthly totals run strictly forward in time. */
  lemma MonthlyTotalsAscending(rows: seq<Expense>)
    ensures forall i, j :: 0 <= i < j < |MonthlyTotals(rows)| ==>
      Ordinal(MonthlyTotals(rows)[i].0) < Ordinal(MonthlyTotals(rows)[j].0)
  {
    MonthlyTotalsFacts(rows);
  }

  /** Every month with a dated row has its entry among the monthly totals. */
  lemma MonthlyTotalsHas(rows: seq<Expense>, p: Period) returns (j: nat)
    requires exists k :: 0 <= k < |rows| && InPeriod(rows[k], p)
    ensures j < |MonthlyTotals(rows)| && MonthlyTotals(rows)[j].0 == p
  {
    var d := DatedPairs(rows);
    var m := MonthlyTotals(rows);
    MonthlyTotalsFacts(rows);
    assert HasKey(d, p);
    var e := (p, SumFor(d, p));
    assert e in m;
    var i :| 0 <= i < |m| && m[i] == e;
    j := i;
  }

  lemma NatToStringFourDigits(y: nat)
    requires 1000 <= y < 10000
    ensures |NatToString(y)| == 4
  {
    assert |NatToString(y / 10)| == 3 by {
      assert |NatToString(y / 100)| == 2 by {
        assert |NatToString(y / 1000)| == 1;
      }
    }
  }

  /** A label is the month's abbreviation, a space and the year's four digits, which read back as the year. */
  lemma LabelShape(p: Period)
    ensures |Label(p)| == 8
    ensures Label(p)[..3] == MonthAbbr[p.month - 1] && Label(p)[3] == ' '
    ensures ParseInt(Label(p)[4..]) == Some(p.year)
  {
    var a := MonthAbbr[p.month - 1];
    var y := NatToString(p.year);
    NatToStringFourDigits(p.year);
    MonthAbbrLength(p.month - 1);
    assert Label(p) == a + " " + y;
    assert Label(p)[4..] == y;
    ParseIntOfNatToString(p.year);
  }

  // ---- The response of `/api/data` ----

  datatype Dashboard = Dashboard(
    total: real,
    vendor: seq<(string, real)>,
    department: seq<(string, real)>,
    trendMonths: seq<string>,
    trendValues: seq<real>)

  /**
   * `api_data`: `month` is the query parameter (absent means "All"); `first`
   * and `second` are the results of its two `read_sheet` calls, the first for
   * the figures and the second for the trend. The steps run in the order of
   * the handler, and the first one that raises decides the error.
   */
  function ApiData(month: Option<string>, first: Result<Sheet, ReadError>, second: Result<Sheet, ReadError>): Result<Dashboard, ApiError>
  {
    match first
    case Err(e) => Err(ReadFailed(e))
    case Ok(sheet) =>
      var rows := MonthFilter(sheet, if month.Some? then month.value else "All").rows;
      if Count(sheet.columns, "tool") > 1 then Err(NotOneColumn("tool"))
      else if Count(sheet.columns, "department") > 1 then Err(NotOneColumn("department"))
      else match second
      case Err(e) => Err(ReadFailed(e))
      case Ok(later) =>
        match LastMonths(later, 6)
        case Err(e) => Err(e)
        case Ok(pts) =>
          Ok(Dashboard(
            Total(rows),
            Breakdown(rows, ByTool),
            Breakdown(rows, ByDepartment),
            seq(|pts|, i requires 0 <= i < |pts| => pts[i].caption),
            seq(|pts|, i requires 0 <= i < |pts| => pts[i].amount)))
  }

  /** Grouping by a name that heads two columns makes the request fail, whatever the month. */
  lemma ApiDataNotOneColumn(month: Option<string>, first: Sheet, second: Result<Sheet, ReadError>)
    requires Count(first.columns, "tool") > 1 || Count(first.columns, "department") > 1
    ensures ApiData(month, Ok(first), second).Err? && ApiData(month, Ok(first), second).error.NotOneColumn?
  {
  }

  /**
   * When the sheet cannot be fetched, `read_sheet` returns its fallback table
   * twice, and the trend's `.dt` call makes the whole request fail.
   */
  lemma ApiDataFetchFailure(month: Option<string>)
    ensures ApiData(month, Ok(Fallback()), Ok(Fallback())) == Err(NotDatetime)
  {
    CanonicalDistinct();
    CountAtMostOne(Canonical, "tool");
    CountAtMostOne(Canonical, "department");
    ApiDataUndated(month, Fallback(), Fallback());
  }

  /** A trend sheet whose dates were never converted makes the request fail at `.dt`. */
  lemma ApiDataUndated(month: Option<string>, first: Sheet, second: Sheet)
    requires Count(first.columns, "tool") <= 1 && Count(first.columns, "department") <= 1
    requires !second.dated
    ensures ApiData(month, Ok(first), Ok(second)) == Err(NotDatetime)
  {
  }

  /** The month filter keeps only rows the sheet had, so the amounts stay non-negative. */
  lemma MonthFilterNonNegative(s: Sheet, month: string)
    requires NonNegative(s.rows)
    ensures NonNegative(MonthFilter(s, month).rows)
  {
    var rows := MonthFilter(s, month).rows;
    forall k | 0 <= k < |rows| ensures rows[k].amount >= 0.0 {
      assert rows[k] in s.rows;
    }
  }

  /**
   * A response's figures: the total is the filtered rows' total and is never
   * negative, and each breakdown adds up to that total and runs from the
   * largest amount down.
   */
  lemma ApiDataFigures(month: Option<string>, first: Sheet, second: Result<Sheet, ReadError>)
    requires NonNegative(first.rows)
    requires ApiData(month, Ok(first), second).Ok?
    ensures var d := ApiData(month, Ok(first), second).value;
      var rows := MonthFilter(first, if month.Some? then month.value else "All").rows;
      d.total == Total(rows) && d.total >= 0.0 &&
      Sum(d.vendor) == d.total && Sum(d.department) == d.total &&
      (forall i, j :: 0 <= i < j < |d.vendor| ==> d.vendor[i].1 >= d.vendor[j].1) &&
      (forall i, j :: 0 <= i < j < |d.department| ==> d.department[i].1 >= d.department[j].1)
  {
    var rows := MonthFilter(first, if month.Some? then month.value else "All").rows;
    ApiDataFromRows(month, first, second);
    MonthFilterNonNegative(first, if month.Some? then month.value else "All");
    TotalNonNegative(rows);
    BreakdownTotal(rows, ByTool);
    BreakdownTotal(rows, ByDepartment);
    BreakdownDescending(rows, ByTool);
    BreakdownDescending(rows, ByDepartment);
  }

  /** The figures of a response are computed from the filtered rows. */
  lemma ApiDataFromRows(month: Option<string>, first: Sheet, second: Result<Sheet, ReadError>)
    requires ApiData(month, Ok(first), second).Ok?
    ensures var d := ApiData(month, Ok(first), second).value;
      var rows := MonthFilter(first, if month.Some? then month.value else "All").rows;
      d.total == Total(rows) && d.vendor == Breakdown(rows, ByTool) && d.department == Breakdown(rows, ByDepartment)
  {
  }

  /** A response's trend has at most six points, one label per value, taken from `last_months(…, 6)` in order. */
  lemma ApiDataTrend(month: Option<string>, first: Sheet, second: Result<Sheet, ReadError>)
    requires ApiData(month, Ok(first), second).Ok?
    ensures var d := ApiData(month, Ok(first), second).value;
      var pts := LastMonths(second.value, 6).value;
      |d.trendMonths| == |d.trendValues| == |pts| <= 6 &&
      (forall i :: 0 <= i < |pts| ==> d.trendMonths[i] == pts[i].caption && d.trendValues[i] == pts[i].amount)
  {
    TrendLength(second.value, 6);
  }
}

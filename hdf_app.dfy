/** The HDF5 dashboard (streamlit_hdf_app.py): the filter options gathered
    across stores, the stores it opens, the category columns it offers, the
    `where` text it passes to `HDFStore.select`, the columns it reads, and
    `aggregate_for_chart`, which writes two columns into the frame it is
    given. */
module HdfApp {
  import opened Wrappers
  import opened Text
  import opened Table
  import opened Sql
  import LexOrder
  import DuckDbApp

  const IS_FRAUD := "is_fraud"
  const SCORE_LEVEL := "score_level"
  const EVENT_TIME := "EVENT_TIME"
  const EVENT_VALUE := "EVENT_VALUE"
  const CATEGORY_GROUP := "category_group"
  const TIME_AGG := "time_agg"
  const STRING_COL := "string_col"
  const OTHER := "Other"

  // ---------------------------------------------------------------------
  // get_unique_values

  /** One opened store: the values each of its columns holds. */
  datatype Store = Store(columns: map<string, seq<string>>)

  /** The values of `column` over every store that has it. */
  function ValuesIn(stores: seq<Store>, column: string): (r: set<string>)
    ensures forall x :: x in r <==>
      exists i :: 0 <= i < |stores| && column in stores[i].columns && x in stores[i].columns[column]
  {
    set i, x | 0 <= i < |stores| && column in stores[i].columns && x in stores[i].columns[column] :: x
  }

  lemma ValuesInSnoc(stores: seq<Store>, k: nat, column: string)
    requires k < |stores|
    ensures ValuesIn(stores[..k + 1], column) ==
      ValuesIn(stores[..k], column) + (if column in stores[k].columns then set x | x in stores[k].columns[column] else {})
  {
    var a := stores[..k + 1];
    assert forall i :: 0 <= i < k ==> a[i] == stores[..k][i];
    assert a[k] == stores[k];
  }

  /** The loop over the stores that gathers the column's values into a set,
      a store without the column being skipped; then `sorted`. */
  method UniqueValues(stores: seq<Store>, column: string) returns (r: seq<string>)
    ensures r == LexOrder.SortSet(ValuesIn(stores, column))
    ensures LexOrder.Sorted(r)
    ensures forall x :: x in r <==>
      exists i :: 0 <= i < |stores| && column in stores[i].columns && x in stores[i].columns[column]
  {
    var seen: set<string> := {};
    for k := 0 to |stores|
      invariant seen == ValuesIn(stores[..k], column)
    {
      ValuesInSnoc(stores, k, column);
      if column in stores[k].columns {
        seen := seen + set x | x in stores[k].columns[column];
      }
    }
    assert stores[..|stores|] == stores;
    r := LexOrder.SortSet(seen);
  }

  // ---------------------------------------------------------------------
  // The stores

  /** The paths of `paths` that are in `keep`, in order. */
  function KeepIn(paths: seq<string>, keep: set<string>): (r: seq<string>)
    ensures forall p :: p in r <==> p in paths && p in keep
    ensures |r| <= |paths|
  {
    if paths == [] then []
    else
      var rest := KeepIn(paths[1..], keep);
      assert forall p :: p in paths <==> p == paths[0] || p in paths[1..];
      if paths[0] in keep then [paths[0]] + rest else rest
  }

  /** The selected paths that exist, then those whose store opened. */
  function Stores(paths: seq<string>, existing: set<string>, openable: set<string>): (r: seq<string>)
    ensures forall p :: p in r <==> p in paths && p in existing && p in openable
    ensures |r| <= |paths|
  {
    KeepIn(KeepIn(paths, existing), openable)
  }

  /** The stores are exactly the selected paths that exist and opened, in
      selection order. */
  lemma {:induction false} StoresKeep(paths: seq<string>, existing: set<string>, openable: set<string>)
    ensures Stores(paths, existing, openable) == KeepIn(paths, existing * openable)
  {
    if paths != [] {
      StoresKeep(paths[1..], existing, openable);
    }
  }

  // ---------------------------------------------------------------------
  // The category column

  function Candidates(cols: seq<string>): (r: seq<string>)
    ensures forall x :: x in r <==> x in cols && (Contains(x, STRING_COL) || x == SCORE_LEVEL)
    ensures Distinct(cols) ==> Distinct(r)
  {
    if cols == [] then []
    else
      var rest := Candidates(cols[1..]);
      assert forall x :: x in cols <==> x == cols[0] || x in cols[1..];
      assert Distinct(cols) ==> Distinct(cols[1..]) && cols[0] !in cols[1..] by {
        if Distinct(cols) {
          forall k | 1 <= k < |cols| ensures cols[k] != cols[0] { }
        }
      }
      if Contains(cols[0], STRING_COL) || cols[0] == SCORE_LEVEL then
        DistinctCons(cols[0], rest);
        [cols[0]] + rest
      else rest
  }

  /** The category columns offered: the names containing "string_col", with
      score_level taken out again. */
  function CategoricalColumns(cols: seq<string>): seq<string> {
    RemoveFirst(Candidates(cols), SCORE_LEVEL)
  }

  lemma ScoreLevelIsNoStringCol()
    ensures !Contains(SCORE_LEVEL, STRING_COL)
  {
    forall i | 0 <= i <= |SCORE_LEVEL| ensures !OccursAt(SCORE_LEVEL, STRING_COL, i) {
      if 0 <= i <= |SCORE_LEVEL| - |STRING_COL| {
        if i == 0 {
          assert SCORE_LEVEL[0..10][1] == 'c';
        } else {
          assert SCORE_LEVEL[1..11][0] == 'c';
        }
      }
    }
  }

  /** For a table's distinct column names, the columns offered are exactly
      those whose name contains "string_col". */
  lemma CategoricalColumnsMembers(cols: seq<string>)
    requires Distinct(cols)
    ensures forall x :: x in CategoricalColumns(cols) <==> x in cols && Contains(x, STRING_COL)
  {
    ScoreLevelIsNoStringCol();
  }

  // ---------------------------------------------------------------------
  // The `where` text

  /** `repr(v)` inside a list. */
  function ReprLiteral(v: Literal): string {
    if v.Str? then "'" + v.s + "'" else PyStr(v)
  }

  /** `str(values)` for a list. */
  function ListRepr(items: seq<Literal>): string {
    "[" + Join(seq(|items|, k requires 0 <= k < |items| => ReprLiteral(items[k])), ", ") + "]"
  }

  /** One condition: `col in [...]`. */
  datatype Term = Term(col: string, items: seq<Literal>)

  function RenderTerm(t: Term): string {
    t.col + " in " + ListRepr(t.items)
  }

  function RenderTerms(ts: seq<Term>): (r: seq<string>)
    ensures |r| == |ts|
  {
    seq(|ts|, k requires 0 <= k < |ts| => RenderTerm(ts[k]))
  }

  /** The conditions appended: one per non-empty selection, is_fraud first. */
  function WhereTerms(fraud: seq<Literal>, levels: seq<Literal>): seq<Term> {
    (if fraud != [] then [Term(IS_FRAUD, fraud)] else []) + (if levels != [] then [Term(SCORE_LEVEL, levels)] else [])
  }

  /** The statements that fill `where_conditions` and join them. */
  method BuildWhereQuery(fraud: seq<Literal>, levels: seq<Literal>) returns (q: Option<string>)
    ensures q.None? <==> fraud == [] && levels == []
    ensures q.Some? ==> q.value == Join(RenderTerms(WhereTerms(fraud, levels)), " & ")
  {
    var conditions: seq<string> := [];
    if fraud != [] {
      conditions := conditions + [RenderTerm(Term(IS_FRAUD, fraud))];
    }
    if levels != [] {
      conditions := conditions + [RenderTerm(Term(SCORE_LEVEL, levels))];
    }
    assert conditions == RenderTerms(WhereTerms(fraud, levels));
    q := if conditions != [] then Some(Join(conditions, " & ")) else None;
  }

  /** Whether a row's value in the term's column is one of its items. */
  predicate Holds(t: Term, row: map<string, Literal>) {
    t.col in row && exists j :: 0 <= j < |t.items| && Matches(row[t.col], t.items[j])
  }

  /** Whether a row meets every term. */
  predicate Selects(ts: seq<Term>, row: map<string, Literal>) {
    forall k :: 0 <= k < |ts| ==> Holds(ts[k], row)
  }

  /** The rows `select` reads: those whose is_fraud is one of the chosen
      values and whose score_level is one of the chosen levels, an empty
      selection leaving its column unfiltered (no `where` at all when both
      are empty). */
  lemma WhereMeaning(fraud: seq<Literal>, levels: seq<Literal>, row: map<string, Literal>)
    ensures Selects(WhereTerms(fraud, levels), row) <==>
      && (fraud == [] || (IS_FRAUD in row && exists j :: 0 <= j < |fraud| && Matches(row[IS_FRAUD], fraud[j])))
      && (levels == [] || (SCORE_LEVEL in row && exists j :: 0 <= j < |levels| && Matches(row[SCORE_LEVEL], levels[j])))
  {
    var ts := WhereTerms(fraud, levels);
    var f := Term(IS_FRAUD, fraud);
    var l := Term(SCORE_LEVEL, levels);
    if fraud != [] && levels != [] {
      assert ts == [f, l];
      SelectsTwo(f, l, row);
    } else if fraud != [] {
      assert ts == [f];
      SelectsOne(f, row);
    } else if levels != [] {
      assert ts == [l];
      SelectsOne(l, row);
    } else {
      assert ts == [];
    }
  }

  lemma SelectsOne(t: Term, row: map<string, Literal>)
    ensures Selects([t], row) <==> Holds(t, row)
  {
    assert [t][0] == t;
  }

  lemma SelectsTwo(t: Term, u: Term, row: map<string, Literal>)
    ensures Selects([t, u], row) <==> Holds(t, row) && Holds(u, row)
  {
    var ts := [t, u];
    if Selects(ts, row) {
      assert Holds(ts[0], row) && Holds(ts[1], row);
    }
    if Holds(t, row) && Holds(u, row) {
      forall k | 0 <= k < |ts| ensures Holds(ts[k], row) {
        assert ts[k] == if k == 0 then t else u;
      }
    }
  }

  // ---------------------------------------------------------------------
  // The columns read

  const FIXED: set<Option<string>> := {Some(EVENT_VALUE), Some(EVENT_TIME), Some(IS_FRAUD), Some(SCORE_LEVEL)}

  /** `list(set([agg_col, "EVENT_VALUE", "EVENT_TIME", "is_fraud",
      "score_level"]))`; agg_col is None when no category column exists. */
  function RequiredColumns(agg: Option<string>): (r: set<Option<string>>)
    ensures forall c :: c in r <==> c == agg || c in FIXED
    ensures |r| == if agg in FIXED then 4 else 5
  {
    assert |FIXED| == 4 by {
      assert FIXED == {Some(EVENT_VALUE)} + {Some(EVENT_TIME)} + {Some(IS_FRAUD)} + {Some(SCORE_LEVEL)};
      assert Some(EVENT_VALUE) != Some(EVENT_TIME) && EVENT_VALUE[6] != EVENT_TIME[6];
      assert Some(IS_FRAUD) !in {Some(EVENT_VALUE), Some(EVENT_TIME)};
      assert Some(SCORE_LEVEL) !in {Some(EVENT_VALUE), Some(EVENT_TIME), Some(IS_FRAUD)};
    }
    assert agg in FIXED ==> {agg} + FIXED == FIXED;
    assert agg !in FIXED ==> |{agg} + FIXED| == |FIXED| + 1;
    {agg} + FIXED
  }

  // ---------------------------------------------------------------------
  // aggregate_for_chart

  /** The period units the chart offers; the weekly unit is not part of
      this model. */
  datatype Period = Monthly | Daily

  /** `to_period(unit).start_time`. */
  function PeriodStart(t: DateTime, p: Period): DateTime {
    match p
    case Monthly => MonthStart(t)
    case Daily => DayStart(t)
  }

  /** `df[agg_col].where(df[agg_col].isin(top_cats), "Other")` on one cell. */
  function GroupCell(cell: Cell, tops: seq<Value>): Cell {
    if cell.Some? && cell.value in tops then cell else Some(StrV(OTHER))
  }

  /** The time_agg cell; NaT stays NaT. */
  function PeriodCell(cell: Cell, p: Period): Cell {
    if cell.Some? && cell.value.TimeV? then Some(TimeV(PeriodStart(cell.value.t, p))) else None
  }

  function Grouped(rows: seq<Row>, agg: string, tops: seq<Value>): seq<Row> {
    SetColumn(rows, CATEGORY_GROUP, seq(|rows|, i requires 0 <= i < |rows| => GroupCell(Get(rows[i], agg), tops)))
  }

  function Periods(rows: seq<Row>, p: Period): seq<Row> {
    SetColumn(rows, TIME_AGG, seq(|rows|, i requires 0 <= i < |rows| => PeriodCell(Get(rows[i], EVENT_TIME), p)))
  }

  /** A row's group: (time_agg, category_group); rows with a null key are
      dropped by `groupby`. */
  function Key(row: Row): Option<(DateTime, Value)> {
    var t := Get(row, TIME_AGG);
    var g := Get(row, CATEGORY_GROUP);
    if t.Some? && t.value.TimeV? && g.Some? then Some((t.value.t, g.value)) else None
  }

  /** What a row adds to its group: 1 for `size()`, the value for `sum()`
      (NaN adds nothing). */
  function Measure(row: Row, valueCol: Option<string>): int {
    if valueCol.None? then 1 else IntOf(Get(row, valueCol.value))
  }

  function GroupTotal(rows: seq<Row>, key: (DateTime, Value), valueCol: Option<string>): int {
    if rows == [] then 0
    else (if Key(rows[0]) == Some(key) then Measure(rows[0], valueCol) else 0) + GroupTotal(rows[1..], key, valueCol)
  }

  function KeySet(rows: seq<Row>): (r: set<(DateTime, Value)>)
    ensures forall k :: k in r <==> exists i :: 0 <= i < |rows| && Key(rows[i]) == Some(k)
  {
    set i | 0 <= i < |rows| && Key(rows[i]).Some? :: Key(rows[i]).value
  }

  /** The grouped table the chart plots; with `size()` every group it holds
      counts at least one row. */
  function Summary(rows: seq<Row>, valueCol: Option<string>): (r: map<(DateTime, Value), int>)
    ensures forall k :: k in r <==> exists i :: 0 <= i < |rows| && Key(rows[i]) == Some(k)
    ensures valueCol.None? ==> forall k :: k in r ==> 1 <= r[k] <= |rows|
  {
    GroupSizes(rows);
    map k | k in KeySet(rows) :: GroupTotal(rows, k, valueCol)
  }

  /** A group's size is at most the number of rows, and at least one when
      some row has its key. */
  lemma {:induction false} GroupSizes(rows: seq<Row>)
    ensures forall k :: 0 <= GroupTotal(rows, k, None) <= |rows|
    ensures forall k :: k in KeySet(rows) ==> GroupTotal(rows, k, None) >= 1
  {
    if rows != [] {
      GroupSizes(rows[1..]);
      forall k | k in KeySet(rows) ensures GroupTotal(rows, k, None) >= 1 {
        if Key(rows[0]) != Some(k) {
          var i :| 0 <= i < |rows| && Key(rows[i]) == Some(k);
          assert Key(rows[1..][i - 1]) == Some(k);
        }
      }
    }
  }

  lemma {:induction false} GroupTotalConcat(a: seq<Row>, b: seq<Row>, key: (DateTime, Value), valueCol: Option<string>)
    ensures GroupTotal(a + b, key, valueCol) == GroupTotal(a, key, valueCol) + GroupTotal(b, key, valueCol)
  {
    if a == [] {
      assert a + b == b;
    } else {
      assert (a + b)[0] == a[0] && (a + b)[1..] == a[1..] + b;
      GroupTotalConcat(a[1..], b, key, valueCol);
    }
  }

  /** The frame is the concatenation of what each store returned; the chart
      of the whole is the per-store charts added up, group by group. */
  lemma SummaryConcat(a: seq<Row>, b: seq<Row>, valueCol: Option<string>)
    ensures Summary(a + b, valueCol).Keys == Summary(a, valueCol).Keys + Summary(b, valueCol).Keys
    ensures forall k :: k in Summary(a + b, valueCol) ==>
      Summary(a + b, valueCol)[k] ==
        (if k in Summary(a, valueCol) then Summary(a, valueCol)[k] else 0)
        + (if k in Summary(b, valueCol) then Summary(b, valueCol)[k] else 0)
  {
    forall k ensures k in KeySet(a + b) <==> k in KeySet(a) || k in KeySet(b) {
      if k in KeySet(a + b) {
        var i :| 0 <= i < |a + b| && Key((a + b)[i]) == Some(k);
        if i >= |a| {
          assert (a + b)[i] == b[i - |a|];
        }
      }
      if k in KeySet(a) {
        var i :| 0 <= i < |a| && Key(a[i]) == Some(k);
        assert (a + b)[i] == a[i];
      }
      if k in KeySet(b) {
        var i :| 0 <= i < |b| && Key(b[i]) == Some(k);
        assert (a + b)[|a| + i] == b[i];
      }
    }
    forall k | k in KeySet(a + b)
      ensures GroupTotal(a + b, k, valueCol) ==
        (if k in KeySet(a) then GroupTotal(a, k, valueCol) else 0) + (if k in KeySet(b) then GroupTotal(b, k, valueCol) else 0)
    {
      GroupTotalConcat(a, b, k, valueCol);
      if k !in KeySet(a) {
        GroupTotalAbsent(a, k, valueCol);
      }
      if k !in KeySet(b) {
        GroupTotalAbsent(b, k, valueCol);
      }
    }
  }

  lemma {:induction false} GroupTotalAbsent(rows: seq<Row>, key: (DateTime, Value), valueCol: Option<string>)
    requires key !in KeySet(rows)
    ensures GroupTotal(rows, key, valueCol) == 0
  {
    if rows != [] {
      assert Key(rows[0]) != Some(key);
      assert forall i :: 1 <= i < |rows| ==> rows[1..][i - 1] == rows[i];
      GroupTotalAbsent(rows[1..], key, valueCol);
    }
  }

  /** For a string column and a non-empty top list, the frame's "Other"
      grouping is the DuckDB dashboard's category_group CASE. */
  lemma GroupingAgreesWithDuckDb(col: string, tops: seq<string>, v: string)
    requires tops != []
    ensures GroupCell(Some(StrV(v)), seq(|tops|, k requires 0 <= k < |tops| => StrV(tops[k])))
         == Some(StrV(DuckDbApp.CategoryGroup(col, tops, v)))
  {
    DuckDbApp.CategoryGroupRule(col, tops, v);
    var vs := seq(|tops|, k requires 0 <= k < |tops| => StrV(tops[k]));
    if v in tops {
      var k :| 0 <= k < |tops| && tops[k] == v;
      assert vs[k] == StrV(v);
    } else {
      assert StrV(v) !in vs;
    }
  }

  datatype ChartError = MissingColumn(name: string) | NotDatetime

  /** The frame after the call, and its result. category_group is written
      first; a missing or non-datetime EVENT_TIME then raises with that
      column already in place. */
  function Chart(f: Frame, agg: string, tops: seq<Value>, p: Period, valueCol: Option<string>)
    : (r: (Frame, Result<map<(DateTime, Value), int>, ChartError>))
    ensures |r.0.rows| == |f.rows|
    ensures !HasColumn(f.columns, agg) ==> r == (f, Err(MissingColumn(agg)))
    ensures r.1.Ok? ==> HasColumn(r.0.columns, CATEGORY_GROUP) && HasColumn(r.0.columns, TIME_AGG)
  {
    if !HasColumn(f.columns, agg) then (f, Err(MissingColumn(agg)))
    else
      var g := Frame(WithColumn(f.columns, CATEGORY_GROUP, Text), Grouped(f.rows, agg, tops));
      var ty := TypeOf(f.columns, EVENT_TIME);
      if ty.None? then (g, Err(MissingColumn(EVENT_TIME)))
      else if ty != Some(Timestamp) then (g, Err(NotDatetime))
      else
        var t := Frame(WithColumn(g.columns, TIME_AGG, Timestamp), Periods(g.rows, p));
        if valueCol.Some? && !HasColumn(t.columns, valueCol.value) then (t, Err(MissingColumn(valueCol.value)))
        else (t, Ok(Summary(t.rows, valueCol)))
  }

  /** aggregate_for_chart, writing into the frame it is passed. */
  method AggregateForChart(df: DataFrame, agg: string, tops: seq<Value>, p: Period, valueCol: Option<string>)
    returns (r: Result<map<(DateTime, Value), int>, ChartError>)
    modifies df
    ensures (df.Value(), r) == Chart(old(df.Value()), agg, tops, p, valueCol)
  {
    if !HasColumn(df.columns, agg) {
      return Err(MissingColumn(agg));
    }
    var ty := TypeOf(df.columns, EVENT_TIME);
    df.rows := Grouped(df.rows, agg, tops);
    df.columns := WithColumn(df.columns, CATEGORY_GROUP, Text);
    if ty.None? {
      return Err(MissingColumn(EVENT_TIME));
    }
    if ty != Some(Timestamp) {
      return Err(NotDatetime);
    }
    df.rows := Periods(df.rows, p);
    df.columns := WithColumn(df.columns, TIME_AGG, Timestamp);
    if valueCol.Some? && !HasColumn(df.columns, valueCol.value) {
      return Err(MissingColumn(valueCol.value));
    }
    r := Ok(Summary(df.rows, valueCol));
  }

  /** On success every row keeps its cells and gains its group (the value
      when it is a top category, "Other" otherwise) and the start of its
      period; the row count does not change. */
  lemma ChartRows(f: Frame, agg: string, tops: seq<Value>, p: Period, valueCol: Option<string>, i: int)
    requires Chart(f, agg, tops, p, valueCol).1.Ok?
    requires 0 <= i < |f.rows|
    ensures var g := Chart(f, agg, tops, p, valueCol).0;
      && |g.rows| == |f.rows|
      && Get(g.rows[i], CATEGORY_GROUP) ==
           (if Get(f.rows[i], agg).Some? && Get(f.rows[i], agg).value in tops then Get(f.rows[i], agg) else Some(StrV(OTHER)))
      && (Get(f.rows[i], EVENT_TIME).Some? && Get(f.rows[i], EVENT_TIME).value.TimeV? ==>
            Get(g.rows[i], TIME_AGG) == Some(TimeV(PeriodStart(Get(f.rows[i], EVENT_TIME).value.t, p))))
      && (forall d :: d != CATEGORY_GROUP && d != TIME_AGG ==> Get(g.rows[i], d) == Get(f.rows[i], d))
  {
    var g1 := Grouped(f.rows, agg, tops);
    assert Get(g1[i], EVENT_TIME) == Get(f.rows[i], EVENT_TIME);
  }

  /** Without an EVENT_TIME column the call raises after category_group has
      been written into the frame. */
  lemma MissingTimeLeavesGroup(f: Frame, agg: string, tops: seq<Value>, p: Period, valueCol: Option<string>)
    requires HasColumn(f.columns, agg) && !HasColumn(f.columns, EVENT_TIME) && !HasColumn(f.columns, TIME_AGG)
    ensures Chart(f, agg, tops, p, valueCol).1 == Err(MissingColumn(EVENT_TIME))
    ensures HasColumn(Chart(f, agg, tops, p, valueCol).0.columns, CATEGORY_GROUP)
    ensures !HasColumn(Chart(f, agg, tops, p, valueCol).0.columns, TIME_AGG)
  {
    assert TIME_AGG != CATEGORY_GROUP;
    assert TypeOf(WithColumn(f.columns, CATEGORY_GROUP, Text), TIME_AGG) == TypeOf(f.columns, TIME_AGG);
  }
}

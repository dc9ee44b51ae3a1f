/** The text the DuckDB dashboard (streamlit_duckdb_app.py) composes: the
    file list of the source view, the IN-clause filters of the filtered
    view, the category_group CASE condition, and the choice of category
    column. */
module DuckDbApp {
  import opened Wrappers
  import opened Text
  import opened Sql
  import ScoreLevel

  const IS_FRAUD := "is_fraud"
  const SCORE_LEVEL := "score_level"
  const DEFAULT_CATEGORY := "string_col_0"
  const OTHER := "Other"

  /** `f"'{v}'"`: single quotes around the text, nothing escaped. */
  function PlainQuote(s: string): string {
    "'" + s + "'"
  }

  function PlainQuoteAll(items: seq<string>): (r: seq<string>)
    ensures |r| == |items|
    ensures forall k :: 0 <= k < |items| ==> r[k] == PlainQuote(items[k])
  {
    seq(|items|, k requires 0 <= k < |items| => PlainQuote(items[k]))
  }

  predicate QuoteFree(items: seq<string>) {
    forall k :: 0 <= k < |items| ==> '\'' !in items[k]
  }

  /** Without a quote inside, plain quoting is SQL's own quoting. */
  lemma PlainQuoteAllIsQuoteAll(items: seq<string>)
    requires QuoteFree(items)
    ensures PlainQuoteAll(items) == QuoteAll(items)
  {
    assert forall k :: 0 <= k < |items| ==> PlainQuoteAll(items)[k] == QuoteAll(items)[k];
  }

  /** The path list of `read_parquet([...])`. An empty selection gives None:
      load_data_into_duckdb returns False before touching the connection. */
  function FileList(paths: seq<string>): (r: Option<string>)
    ensures r.None? <==> paths == []
  {
    if paths == [] then None else Some(Join(PlainQuoteAll(paths), ", "))
  }

  /** The database reads the selected paths back, in order, from the list,
      as long as no path holds a quote character. */
  lemma FileListRoundTrip(paths: seq<string>)
    requires paths != [] && QuoteFree(paths)
    ensures ReadList(FileList(paths).value) == Some(paths)
  {
    PlainQuoteAllIsQuoteAll(paths);
    ListRoundTrip(paths);
  }

  // ---------------------------------------------------------------------
  // The filtered view's WHERE text.

  /** `format_value` as written: a string in quotes with nothing escaped,
      any other value through `str()`. */
  function FormatValueAsWritten(v: Literal): string {
    if v.Str? then PlainQuote(v.s) else PyStr(v)
  }

  /** `build_in_clause` as written. */
  function InClauseAsWritten(values: seq<Literal>): string {
    if values == [] then "1=1"
    else "IN (" + Join(seq(|values|, k requires 0 <= k < |values| => FormatValueAsWritten(values[k])), ", ") + ")"
  }

  /** `f"{col} {build_in_clause(values)}"`. */
  function FilterAsWritten(col: string, values: seq<Literal>): string {
    col + " " + InClauseAsWritten(values)
  }

  /** The score levels a user keeps, as the labels the CASE produces. */
  function LevelLiterals(levels: seq<ScoreLevel.Level>): (r: seq<Literal>)
    ensures |r| == |levels|
    ensures forall k :: 0 <= k < |levels| ==> r[k] == Str(ScoreLevel.DashboardLabel(levels[k]))
  {
    seq(|levels|, k requires 0 <= k < |levels| => Str(ScoreLevel.DashboardLabel(levels[k])))
  }

  /** `WHERE {fraud_filter} AND {level_filter}` as written. */
  function WhereAsWritten(fraud: seq<Literal>, levels: seq<ScoreLevel.Level>): (r: string)
    ensures StartsWith(r, IS_FRAUD + " ")
    ensures fraud == [] ==> StartsWith(r, IS_FRAUD + " 1=1")
  {
    FilterAsWritten(IS_FRAUD, fraud) + " AND " + FilterAsWritten(SCORE_LEVEL, LevelLiterals(levels))
  }

  /** One filter as intended: an empty selection filters nothing (the
      comment on `return "1=1"` says "always true"), otherwise the column
      must hold one of the values. */
  function FilterCond(col: string, values: seq<Literal>): Cond {
    if values == [] then Always else In(col, false, values)
  }

  function WhereCond(fraud: seq<Literal>, levels: seq<ScoreLevel.Level>): Cond {
    And(FilterCond(IS_FRAUD, fraud), FilterCond(SCORE_LEVEL, LevelLiterals(levels)))
  }

  /** The WHERE text as intended: `1=1` stands alone for an empty selection
      and string values have their quotes doubled. */
  function Where(fraud: seq<Literal>, levels: seq<ScoreLevel.Level>): string {
    Render(WhereCond(fraud, levels))
  }

  /** A value the as-written formatting spells as SQL does. */
  predicate SafeValue(v: Literal) {
    v != Null && (v.Str? ==> '\'' !in v.s)
  }

  lemma FormatAgrees(values: seq<Literal>)
    requires forall k :: 0 <= k < |values| ==> SafeValue(values[k])
    ensures seq(|values|, k requires 0 <= k < |values| => FormatValueAsWritten(values[k]))
         == seq(|values|, k requires 0 <= k < |values| => RenderLiteral(values[k]))
  {
  }

  lemma LabelsQuoteFree(levels: seq<ScoreLevel.Level>)
    ensures forall k :: 0 <= k < |levels| ==> SafeValue(LevelLiterals(levels)[k])
  {
    forall k | 0 <= k < |levels| ensures SafeValue(LevelLiterals(levels)[k]) {
      match levels[k]
      case Low => assert ScoreLevel.DashboardLabel(levels[k]) == ['L', 'o', 'w'];
      case Mid => assert ScoreLevel.DashboardLabel(levels[k]) == ['M', 'i', 'd'];
      case High => assert ScoreLevel.DashboardLabel(levels[k]) == ['H', 'i', 'g', 'h'];
    }
  }

  /** With both selections non-empty and no quote inside a string value, the
      text as written is the intended condition. */
  lemma WhereAgrees(fraud: seq<Literal>, levels: seq<ScoreLevel.Level>)
    requires fraud != [] && levels != []
    requires forall k :: 0 <= k < |fraud| ==> SafeValue(fraud[k])
    ensures WhereAsWritten(fraud, levels) == Where(fraud, levels)
  {
    assert FilterAsWritten(IS_FRAUD, fraud) == Render(FilterCond(IS_FRAUD, fraud)) by {
      FilterAgrees(IS_FRAUD, fraud);
    }
    var ls := LevelLiterals(levels);
    assert FilterAsWritten(SCORE_LEVEL, ls) == Render(FilterCond(SCORE_LEVEL, ls)) by {
      LabelsQuoteFree(levels);
      FilterAgrees(SCORE_LEVEL, ls);
    }
  }

  /** One non-empty filter of safe values reads the same both ways. */
  lemma FilterAgrees(col: string, values: seq<Literal>)
    requires values != []
    requires forall k :: 0 <= k < |values| ==> SafeValue(values[k])
    ensures FilterAsWritten(col, values) == Render(FilterCond(col, values))
  {
    FormatAgrees(values);
  }

  /** With no is_fraud value selected the text as written starts with
      `is_fraud 1=1`, which no condition renders to: the view cannot be
      created. */
  lemma EmptyFraudSelectionIsNoCondition(levels: seq<ScoreLevel.Level>)
    ensures StartsWith(WhereAsWritten([], levels), "is_fraud 1=1")
    ensures forall c :: PlainNames(c) ==> Render(c) != WhereAsWritten([], levels)
  {
    var rest := " AND " + FilterAsWritten(SCORE_LEVEL, LevelLiterals(levels));
    assert WhereAsWritten([], levels) == IS_FRAUD + " 1=1" + rest;
    forall c | PlainNames(c) ensures Render(c) != WhereAsWritten([], levels) {
      NameThenTrueIsNoCondition(IS_FRAUD, rest, c);
    }
  }

  /** The same slip in the level filter: an empty level selection ends the
      text with `score_level 1=1`. */
  lemma EmptyLevelSelectionText(fraud: seq<Literal>)
    ensures EndsWith(WhereAsWritten(fraud, []), "score_level 1=1")
  {
  }

  /** The intended WHERE keeps exactly the rows whose is_fraud is one of the
      chosen values (any row when none is chosen) and whose score_level is
      one of the chosen labels (any row when none is chosen). */
  lemma WhereMeaning(fraud: seq<Literal>, levels: seq<ScoreLevel.Level>, row: map<string, Literal>)
    ensures Holds(WhereCond(fraud, levels), row) <==>
      && (fraud == [] || (IS_FRAUD in row && exists k :: 0 <= k < |fraud| && Matches(row[IS_FRAUD], fraud[k])))
      && (levels == [] || (SCORE_LEVEL in row &&
            (exists k :: 0 <= k < |levels| && Matches(row[SCORE_LEVEL], Str(ScoreLevel.DashboardLabel(levels[k]))))))
  {
    var ls := LevelLiterals(levels);
    if levels != [] && SCORE_LEVEL in row {
      assert (exists k :: 0 <= k < |ls| && Matches(row[SCORE_LEVEL], ls[k])) <==>
        (exists k :: 0 <= k < |levels| && Matches(row[SCORE_LEVEL], Str(ScoreLevel.DashboardLabel(levels[k]))));
    }
  }

  /** A quote inside a string value breaks the literal as written: `a'b`
      becomes `'a'b'`, which the database does not read as the value. */
  lemma QuoteInValueMisread()
    ensures FormatValueAsWritten(Str("a'b")) == "'a'b'"
    ensures ReadList(FormatValueAsWritten(Str("a'b"))) != Some(["a'b"])
  {
    var t := FormatValueAsWritten(Str("a'b"));
    assert t[1..] == "a'b'";
    assert ReadBody("'b'") == Some(("", "b'"));
    assert "a'b'"[1..] == "'b'";
    var b := ReadBody("a'b'");
    assert b == Some((['a'] + "", "b'"));
    assert ['a'] + "" == "a";
  }

  /** Quoting the values as SQL does reads every list of strings back exactly. */
  lemma RenderedValuesReadBack(values: seq<string>)
    requires values != []
    ensures ReadList(RenderItems(seq(|values|, k requires 0 <= k < |values| => Str(values[k])))) == Some(values)
  {
    var ls := seq(|values|, k requires 0 <= k < |values| => Str(values[k]));
    assert seq(|ls|, k requires 0 <= k < |ls| => RenderLiteral(ls[k])) == QuoteAll(values);
    ListRoundTrip(values);
  }

  // ---------------------------------------------------------------------
  // The category_group CASE of aggregate_for_chart.

  /** `build_in_clause_for_agg` as written: `IN ('')` for an empty list. */
  function AggInClauseAsWritten(values: seq<string>): string {
    if values == [] then "IN ('')" else "IN (" + Join(PlainQuoteAll(values), ", ") + ")"
  }

  function StrLiterals(values: seq<string>): (r: seq<Literal>)
    ensures |r| == |values|
    ensures forall k :: 0 <= k < |values| ==> r[k] == Str(values[k])
  {
    seq(|values|, k requires 0 <= k < |values| => Str(values[k]))
  }

  /** The condition `WHEN {agg_col} IN (...)` stands for. */
  function AggCond(col: string, tops: seq<string>): Cond {
    In(col, false, if tops == [] then [Str("")] else StrLiterals(tops))
  }

  /** With no quote inside a top category the text is that condition. */
  lemma AggConditionRenders(col: string, tops: seq<string>)
    requires QuoteFree(tops)
    ensures col + " " + AggInClauseAsWritten(tops) == Render(AggCond(col, tops))
  {
    if tops == [] {
      assert RenderItems([Str("")]) == Quote("");
    } else {
      var ls := StrLiterals(tops);
      assert seq(|ls|, k requires 0 <= k < |ls| => RenderLiteral(ls[k])) == PlainQuoteAll(tops);
    }
  }

  /** category_group of a row whose category column holds `v`. */
  function CategoryGroup(col: string, tops: seq<string>, v: string): string {
    if Holds(AggCond(col, tops), map[col := Str(v)]) then v else OTHER
  }

  /** A value stays itself exactly when it is one of the top categories and
      becomes "Other" otherwise; with no top category, `IN ('')` keeps the
      empty string and sends every other value to "Other". */
  lemma CategoryGroupRule(col: string, tops: seq<string>, v: string)
    ensures tops != [] ==> CategoryGroup(col, tops, v) == (if v in tops then v else OTHER)
    ensures tops == [] ==> CategoryGroup(col, tops, v) == (if v == "" then "" else OTHER)
  {
    var row := map[col := Str(v)];
    if tops != [] && v in tops {
      var k :| 0 <= k < |tops| && tops[k] == v;
      assert Matches(row[col], StrLiterals(tops)[k]);
    }
    if tops == [] && v == "" {
      assert Matches(row[col], [Str("")][0]);
    }
  }

  // ---------------------------------------------------------------------
  // The category column.

  datatype SchemaRow = SchemaRow(name: string, ty: string)

  predicate DistinctNames(schema: seq<SchemaRow>) {
    forall i, j :: 0 <= i < j < |schema| ==> schema[i].name != schema[j].name
  }

  /** The names whose DESCRIBE type is VARCHAR, in schema order. */
  function VarcharNames(schema: seq<SchemaRow>): (r: seq<string>)
    ensures forall x :: x in r <==> exists k :: 0 <= k < |schema| && schema[k].ty == "VARCHAR" && schema[k].name == x
    ensures DistinctNames(schema) ==> Distinct(r)
  {
    if schema == [] then []
    else
      var rest := VarcharNames(schema[1..]);
      assert forall k :: 1 <= k < |schema| ==> schema[1..][k - 1] == schema[k];
      assert DistinctNames(schema) ==> DistinctNames(schema[1..]) && schema[0].name !in rest;
      if schema[0].ty == "VARCHAR" then [schema[0].name] + rest else rest
  }

  /** The category columns offered: the VARCHAR columns except score_level. */
  function CategoricalColumns(schema: seq<SchemaRow>): seq<string> {
    RemoveFirst(VarcharNames(schema), SCORE_LEVEL)
  }

  lemma CategoricalColumnsMembers(schema: seq<SchemaRow>)
    requires DistinctNames(schema)
    ensures forall x :: x in CategoricalColumns(schema) <==>
      x != SCORE_LEVEL && exists k :: 0 <= k < |schema| && schema[k].ty == "VARCHAR" && schema[k].name == x
  {
  }

  /** The column the selectbox starts on: string_col_0 when offered, else the
      first one; None when nothing is offered (agg_col is None). */
  function DefaultIndex(cols: seq<string>): (r: Option<nat>)
    ensures r.None? <==> cols == []
    ensures r.Some? ==> r.value < |cols|
    ensures r.Some? ==> (cols[r.value] == DEFAULT_CATEGORY <==> DEFAULT_CATEGORY in cols)
    ensures r.Some? && DEFAULT_CATEGORY in cols ==> forall j :: 0 <= j < r.value ==> cols[j] != DEFAULT_CATEGORY
    ensures r.Some? && DEFAULT_CATEGORY !in cols ==> r.value == 0
  {
    if cols == [] then None
    else if DEFAULT_CATEGORY in cols then IndexOf(cols, DEFAULT_CATEGORY)
    else Some(0)
  }
}

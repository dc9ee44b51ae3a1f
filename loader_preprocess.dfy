/** `DataLoader.preprocess` (data_loader.py): the loader's row-cleaning and
    derivation rules, a pure function of one frame and the sorted
    thresholds. */
module LoaderPreprocess {
  import opened Wrappers
  import opened Table
  import Fill
  import opened ScoreLevel

  const SCORE: string := "SCORE"
  const EVENT_VALUE: string := "EVENT_VALUE"
  const IS_FRAUD: string := "is_fraud"
  const EVENT_TIME: string := "EVENT_TIME"
  const SCORE_LEVEL: string := "score_level"
  const EVENT_MONTH: string := "event_month"
  const UNKNOWN: string := "unknown"

  /** Why polars refuses the plan when it is collected: a column the
      expressions name is missing, or has a type the expression cannot take. */
  datatype SchemaError = MissingColumn(name: string) | WrongType(name: string)

  function Require(cols: seq<Column>, name: string, ty: ColType): Option<SchemaError> {
    var t := TypeOf(cols, name);
    if t.None? then Some(MissingColumn(name))
    else if t.value != ty then Some(WrongType(name))
    else None
  }

  /** is_fraud may hold booleans or 0/1 integers: `fill_null(False)` on an
      integer column takes the integer supertype, so the fill value is 0. */
  function RequireFlag(cols: seq<Column>): Option<SchemaError> {
    var t := TypeOf(cols, IS_FRAUD);
    if t.None? then Some(MissingColumn(IS_FRAUD))
    else if t.value != Boolean && t.value != Numeric then Some(WrongType(IS_FRAUD))
    else None
  }

  /** The columns `preprocess` names, each with a type its expression can
      take: SCORE and EVENT_VALUE numeric, is_fraud boolean or integer,
      EVENT_TIME a parsed timestamp (for `dt.truncate`). A text column among
      them is refused because `pl.col(pl.Utf8)` would produce the same name a
      second time in one `with_columns`. */
  function CheckSchema(cols: seq<Column>): (r: Option<SchemaError>)
    ensures r.None? <==>
      && TypeOf(cols, SCORE) == Some(Numeric) && TypeOf(cols, EVENT_VALUE) == Some(Numeric)
      && TypeOf(cols, IS_FRAUD) in {Some(Boolean), Some(Numeric)}
      && TypeOf(cols, EVENT_TIME) == Some(Timestamp)
  {
    var checks := [Require(cols, SCORE, Numeric), Require(cols, EVENT_VALUE, Numeric),
                   RequireFlag(cols), Require(cols, EVENT_TIME, Timestamp)];
    if checks[0].Some? then checks[0]
    else if checks[1].Some? then checks[1]
    else if checks[2].Some? then checks[2]
    else checks[3]
  }

  /** The names selected by `pl.col(pl.Utf8)`, in schema order. */
  function TextNames(cols: seq<Column>): seq<string> {
    NamesOfType(cols, Text)
  }

  /** `fill_null(v)` on each of the named columns, one after the other. */
  function FillColumns(rows: seq<Row>, names: seq<string>, v: Value): (r: seq<Row>)
    ensures |r| == |rows|
    ensures forall i, c :: 0 <= i < |rows| ==>
      Get(r[i], c) == if c in names then FillNull(Get(rows[i], c), v) else Get(rows[i], c)
  {
    if names == [] then rows
    else
      var front := names[..|names| - 1];
      var last := names[|names| - 1];
      var before := FillColumns(rows, front, v);
      var r := FillColumn(before, last, v);
      forall i, c | 0 <= i < |rows|
        ensures Get(r[i], c) == if c in names then FillNull(Get(rows[i], c), v) else Get(rows[i], c)
      {
        assert names == front + [last];
        assert c in names <==> c in front || c == last;
      }
      r
  }

  /** The score_level column derived from the (already filled) SCORE column. */
  function LevelCells(rows: seq<Row>, t: Thresholds): (r: seq<Cell>)
    ensures |r| == |rows|
    ensures forall i :: 0 <= i < |rows| ==> r[i] == Some(StrV(Label(LevelOf(IntOf(Get(rows[i], SCORE)), t))))
  {
    seq(|rows|, i requires 0 <= i < |rows| => Some(StrV(Label(LevelOf(IntOf(Get(rows[i], SCORE)), t)))))
  }

  /** The month of a timestamp cell; null stays null. */
  function MonthOf(cell: Cell): Cell {
    if cell.Some? && cell.value.TimeV? then Some(TimeV(MonthStart(cell.value.t))) else None
  }

  function MonthCells(rows: seq<Row>): (r: seq<Cell>)
    ensures |r| == |rows|
    ensures forall i :: 0 <= i < |rows| ==> r[i] == MonthOf(Get(rows[i], EVENT_TIME))
  {
    seq(|rows|, i requires 0 <= i < |rows| => MonthOf(Get(rows[i], EVENT_TIME)))
  }

  /** What `fill_null(False)` writes into a null is_fraud cell: false in a
      boolean column, 0 in an integer one. */
  function FraudFill(cols: seq<Column>): (v: Value)
    ensures TypeOf(cols, IS_FRAUD) == Some(Numeric) ==> v == IntV(0)
    ensures TypeOf(cols, IS_FRAUD) != Some(Numeric) ==> v == BoolV(false)
  {
    if TypeOf(cols, IS_FRAUD) == Some(Numeric) then IntV(0) else BoolV(false)
  }

  /** The first `with_columns`: the fills and the forward fill of EVENT_TIME. */
  function FilledRows(cols: seq<Column>, rows: seq<Row>): (r: seq<Row>)
    ensures |r| == |rows|
  {
    var r1 := FillColumn(rows, SCORE, IntV(0));
    var r2 := FillColumn(r1, EVENT_VALUE, IntV(0));
    var r3 := FillColumns(r2, TextNames(cols), StrV(UNKNOWN));
    var r4 := FillColumn(r3, IS_FRAUD, FraudFill(cols));
    SetColumn(r4, EVENT_TIME, Fill.ForwardFill(ColumnCells(r4, EVENT_TIME)))
  }

  /** The rule columns are not text columns once the schema is accepted. */
  lemma RuleColumnsNotText(cols: seq<Column>)
    requires CheckSchema(cols).None?
    ensures SCORE !in TextNames(cols) && EVENT_VALUE !in TextNames(cols)
    ensures IS_FRAUD !in TextNames(cols) && EVENT_TIME !in TextNames(cols)
  {
  }

  /** The cells of row `i` after the fills of SCORE, EVENT_VALUE, the text
      columns and is_fraud, before EVENT_TIME is touched. */
  lemma FillsAt(cols: seq<Column>, rows: seq<Row>, i: int)
    requires CheckSchema(cols).None? && 0 <= i < |rows|
    ensures var r4 := FillColumn(FillColumns(FillColumn(FillColumn(rows, SCORE, IntV(0)), EVENT_VALUE, IntV(0)),
                                             TextNames(cols), StrV(UNKNOWN)), IS_FRAUD, FraudFill(cols));
      && Get(r4[i], SCORE) == FillNull(Get(rows[i], SCORE), IntV(0))
      && Get(r4[i], EVENT_VALUE) == FillNull(Get(rows[i], EVENT_VALUE), IntV(0))
      && Get(r4[i], IS_FRAUD) == FillNull(Get(rows[i], IS_FRAUD), FraudFill(cols))
      && Get(r4[i], EVENT_TIME) == Get(rows[i], EVENT_TIME)
      && (forall c :: c in TextNames(cols) ==> Get(r4[i], c) == FillNull(Get(rows[i], c), StrV(UNKNOWN)))
      && (forall c :: c !in TextNames(cols) && c !in {SCORE, EVENT_VALUE, IS_FRAUD} ==>
            Get(r4[i], c) == Get(rows[i], c))
  {
    RuleColumnsNotText(cols);
  }

  /** One row of the first `with_columns`, column by column. */
  lemma FilledRowAt(cols: seq<Column>, rows: seq<Row>, i: int)
    requires CheckSchema(cols).None? && 0 <= i < |rows|
    ensures var r := FilledRows(cols, rows);
      && Get(r[i], SCORE) == FillNull(Get(rows[i], SCORE), IntV(0))
      && Get(r[i], EVENT_VALUE) == FillNull(Get(rows[i], EVENT_VALUE), IntV(0))
      && Get(r[i], IS_FRAUD) == FillNull(Get(rows[i], IS_FRAUD), FraudFill(cols))
      && Get(r[i], EVENT_TIME) == Fill.LastSome(ColumnCells(rows, EVENT_TIME)[..i + 1])
      && (forall c :: c in TextNames(cols) && c != EVENT_TIME && c != IS_FRAUD ==>
            Get(r[i], c) == FillNull(Get(rows[i], c), StrV(UNKNOWN)))
      && (forall c :: c !in TextNames(cols) && c !in {SCORE, EVENT_VALUE, IS_FRAUD, EVENT_TIME} ==>
            Get(r[i], c) == Get(rows[i], c))
  {
    var r4 := FillColumn(FillColumns(FillColumn(FillColumn(rows, SCORE, IntV(0)), EVENT_VALUE, IntV(0)),
                                     TextNames(cols), StrV(UNKNOWN)), IS_FRAUD, FraudFill(cols));
    FillsAt(cols, rows, i);
    var times := ColumnCells(r4, EVENT_TIME);
    assert times == ColumnCells(rows, EVENT_TIME) by {
      RuleColumnsNotText(cols);
      forall k | 0 <= k < |rows| ensures times[k] == ColumnCells(rows, EVENT_TIME)[k] {
        FillsAt(cols, rows, k);
      }
    }
    Fill.ForwardFillAt(times, i);
  }

  /** The second `with_columns`: score_level and event_month, both computed
      from the filled columns. */
  function Derived(rows: seq<Row>, t: Thresholds): (r: seq<Row>)
    ensures |r| == |rows|
    ensures forall i :: 0 <= i < |rows| ==>
      && Get(r[i], SCORE_LEVEL) == Some(StrV(Label(LevelOf(IntOf(Get(rows[i], SCORE)), t))))
      && Get(r[i], EVENT_MONTH) == MonthOf(Get(rows[i], EVENT_TIME))
    ensures forall i, d :: 0 <= i < |rows| && d != SCORE_LEVEL && d != EVENT_MONTH ==>
      Get(r[i], d) == Get(rows[i], d)
  {
    SetColumn(SetColumn(rows, SCORE_LEVEL, LevelCells(rows, t)), EVENT_MONTH, MonthCells(rows))
  }

  /** `preprocess(lf)` once collected: the whole-null rows dropped, the fills,
      then score_level and event_month added. Polars evaluates the plan when
      the frame is collected, so a schema the expressions cannot take is an
      error for the whole frame. */
  function Preprocess(f: Frame, t: Thresholds): (r: Result<Frame, SchemaError>)
    ensures r.Err? <==> CheckSchema(f.columns).Some?
    ensures r.Ok? ==> |r.value.rows| == |DropAllNull(f.columns, f.rows)| <= |f.rows|
  {
    var err := CheckSchema(f.columns);
    if err.Some? then Err(err.value)
    else
      var rows := Derived(FilledRows(f.columns, DropAllNull(f.columns, f.rows)), t);
      var cols := WithColumn(WithColumn(f.columns, SCORE_LEVEL, Text), EVENT_MONTH, Timestamp);
      Ok(Frame(cols, rows))
  }

  /** A column none of the rules touch (numeric_col_* among them). */
  predicate Untouched(cols: seq<Column>, c: string) {
    c !in {SCORE, EVENT_VALUE, IS_FRAUD, EVENT_TIME, SCORE_LEVEL, EVENT_MONTH} && c !in TextNames(cols)
  }

  /** Row `i` of the output is row `i` of the kept rows after both
      `with_columns`. */
  lemma PreprocessRowIs(f: Frame, t: Thresholds, i: int)
    requires CheckSchema(f.columns).None?
    requires 0 <= i < |DropAllNull(f.columns, f.rows)|
    ensures Preprocess(f, t).value.rows[i] == Derived(FilledRows(f.columns, DropAllNull(f.columns, f.rows)), t)[i]
  {
  }

  /** What `preprocess` does to the named columns of one surviving row: SCORE
      and EVENT_VALUE null become 0, is_fraud null becomes false; EVENT_TIME
      takes the nearest non-null value at or above it within this frame (and
      stays null above the first one); score_level is the level of the filled
      SCORE; event_month is the start of the month of the filled EVENT_TIME. */
  lemma PreprocessRowAt(f: Frame, t: Thresholds, i: int)
    requires CheckSchema(f.columns).None?
    requires 0 <= i < |DropAllNull(f.columns, f.rows)|
    ensures var kept := DropAllNull(f.columns, f.rows);
      var row := Preprocess(f, t).value.rows[i];
      && Get(row, SCORE) == FillNull(Get(kept[i], SCORE), IntV(0))
      && Get(row, EVENT_VALUE) == FillNull(Get(kept[i], EVENT_VALUE), IntV(0))
      && Get(row, IS_FRAUD) == FillNull(Get(kept[i], IS_FRAUD), FraudFill(f.columns))
      && Get(row, EVENT_TIME) == Fill.LastSome(ColumnCells(kept, EVENT_TIME)[..i + 1])
      && Get(row, SCORE_LEVEL) == Some(StrV(Label(LevelOf(IntOf(Get(row, SCORE)), t))))
      && Get(row, EVENT_MONTH) == MonthOf(Get(row, EVENT_TIME))
  {
    var kept := DropAllNull(f.columns, f.rows);
    PreprocessRowIs(f, t, i);
    FilledRowAt(f.columns, kept, i);
  }

  /** The other columns of one surviving row: a null text cell becomes
      "unknown", and a column no rule names (numeric_col_* among them) is left
      as it was. */
  lemma PreprocessOtherColumns(f: Frame, t: Thresholds, i: int, c: string)
    requires CheckSchema(f.columns).None?
    requires 0 <= i < |DropAllNull(f.columns, f.rows)|
    requires c != SCORE_LEVEL && c != EVENT_MONTH && c != IS_FRAUD && c != EVENT_TIME
    ensures var kept := DropAllNull(f.columns, f.rows);
      var row := Preprocess(f, t).value.rows[i];
      && (c in TextNames(f.columns) ==> Get(row, c) == FillNull(Get(kept[i], c), StrV(UNKNOWN)))
      && (Untouched(f.columns, c) ==> Get(row, c) == Get(kept[i], c))
  {
    var kept := DropAllNull(f.columns, f.rows);
    PreprocessRowIs(f, t, i);
    FilledRowAt(f.columns, kept, i);
  }

  /** The rows `preprocess` keeps are exactly the rows with a non-null cell,
      in their order, and none of the four filled columns is null afterwards. */
  lemma PreprocessKeepsRows(f: Frame, t: Thresholds)
    requires CheckSchema(f.columns).None?
    ensures var out := Preprocess(f, t).value.rows;
      && (out != [] <==> exists k :: 0 <= k < |f.rows| && !AllNull(f.columns, f.rows[k]))
      && forall i :: 0 <= i < |out| ==>
           && Get(out[i], SCORE).Some? && Get(out[i], EVENT_VALUE).Some?
           && Get(out[i], IS_FRAUD).Some? && Get(out[i], SCORE_LEVEL).Some?
  {
    var kept := DropAllNull(f.columns, f.rows);
    forall i | 0 <= i < |kept|
      ensures var out := Preprocess(f, t).value.rows;
        Get(out[i], SCORE).Some? && Get(out[i], EVENT_VALUE).Some?
        && Get(out[i], IS_FRAUD).Some? && Get(out[i], SCORE_LEVEL).Some?
    {
      PreprocessRowAt(f, t, i);
    }
    if kept != [] {
      assert kept[0] in f.rows;
    }
  }

  /** A 0/1 integer is_fraud column is accepted: the frame is preprocessed,
      a null flag becomes 0, and every flag written is still 0 or 1. */
  lemma IntegerFlagsKept(f: Frame, t: Thresholds)
    requires TypeOf(f.columns, SCORE) == Some(Numeric) && TypeOf(f.columns, EVENT_VALUE) == Some(Numeric)
    requires TypeOf(f.columns, IS_FRAUD) == Some(Numeric) && TypeOf(f.columns, EVENT_TIME) == Some(Timestamp)
    requires forall k :: 0 <= k < |f.rows| ==> Get(f.rows[k], IS_FRAUD) in {None, Some(IntV(0)), Some(IntV(1))}
    ensures Preprocess(f, t).Ok?
    ensures var kept := DropAllNull(f.columns, f.rows);
      var out := Preprocess(f, t).value.rows;
      forall i :: 0 <= i < |out| ==>
        && Get(out[i], IS_FRAUD) == FillNull(Get(kept[i], IS_FRAUD), IntV(0))
        && Get(out[i], IS_FRAUD) in {Some(IntV(0)), Some(IntV(1))}
  {
    var kept := DropAllNull(f.columns, f.rows);
    forall i | 0 <= i < |kept|
      ensures var out := Preprocess(f, t).value.rows;
        && Get(out[i], IS_FRAUD) == FillNull(Get(kept[i], IS_FRAUD), IntV(0))
        && Get(out[i], IS_FRAUD) in {Some(IntV(0)), Some(IntV(1))}
    {
      PreprocessRowAt(f, t, i);
      var k :| 0 <= k < |f.rows| && f.rows[k] == kept[i];
    }
  }

  /** With a non-null SCORE of 600 and thresholds (500, 1500), or a null SCORE,
      the level is as the loader's own defaults give it. */
  lemma LevelExamples()
    ensures LevelOf(IntOf(FillNull(Some(IntV(600)), IntV(0))), SortThresholds(1500, 500)) == Mid
    ensures LevelOf(IntOf(FillNull(None, IntV(0))), SortThresholds(500, 1500)) == Low
  {
  }
}

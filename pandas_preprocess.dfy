/** `preprocess_pandas` (convert_to_hdf.py): the pandas restatement of the
    loader's cleaning rules, applied to a DataFrame in place. Unlike the polars
    version every rule is skipped when its column is missing, is_fraud is
    normalised through an explicit table, and EVENT_TIME is filled in both
    directions. */
module PandasPreprocess {
  import opened Wrappers
  import opened Table
  import Fill
  import opened ScoreLevel
  import opened LoaderPreprocess

  /** The `map_dict` of `preprocess_pandas`: the texts "True"/"1", the number 1
      and True map to True; "False"/"0", 0 and False map to False; anything
      else (null included) maps to NaN. */
  function FraudMap(cell: Cell): (r: Option<bool>)
    ensures cell.Some? && cell.value in {StrV("True"), StrV("1"), IntV(1), BoolV(true)} <==> r == Some(true)
    ensures cell.Some? && cell.value in {StrV("False"), StrV("0"), IntV(0), BoolV(false)} <==> r == Some(false)
  {
    match cell
    case Some(StrV(s)) =>
      if s == "True" || s == "1" then Some(true)
      else if s == "False" || s == "0" then Some(false)
      else None
    case Some(IntV(n)) => if n == 1 then Some(true) else if n == 0 then Some(false) else None
    case Some(BoolV(b)) => Some(b)
    case _ => None
  }

  /** `map(map_dict).fillna(False).astype(bool)` on one cell. */
  function FraudFlag(cell: Cell): bool {
    FraudMap(cell).GetOr(false)
  }

  function FraudCells(rows: seq<Row>): (r: seq<Cell>)
    ensures |r| == |rows|
    ensures forall i :: 0 <= i < |rows| ==> r[i] == Some(BoolV(FraudFlag(Get(rows[i], IS_FRAUD))))
  {
    seq(|rows|, i requires 0 <= i < |rows| => Some(BoolV(FraudFlag(Get(rows[i], IS_FRAUD)))))
  }

  /** `pd.to_datetime(errors="coerce")` on one cell: a timestamp stays, anything
      else becomes NaT. */
  function Coerce(cell: Cell): Cell {
    if cell.Some? && cell.value.TimeV? then cell else None
  }

  function CoercedTimes(rows: seq<Row>): (r: seq<Cell>)
    ensures |r| == |rows|
    ensures forall i :: 0 <= i < |rows| ==> r[i] == Coerce(Get(rows[i], EVENT_TIME))
  {
    seq(|rows|, i requires 0 <= i < |rows| => Coerce(Get(rows[i], EVENT_TIME)))
  }

  /** EVENT_TIME after `to_datetime`, `ffill` and `bfill`. */
  function FilledTimes(rows: seq<Row>): (r: seq<Cell>)
    ensures |r| == |rows|
  {
    Fill.BackFill(Fill.ForwardFill(CoercedTimes(rows)))
  }

  /** `np.select([SCORE < t1, (SCORE >= t1) & (SCORE < t2)], ["low", "mid"], "high")`. */
  function SelectCells(rows: seq<Row>, t: Thresholds): (r: seq<Cell>)
    ensures |r| == |rows|
    ensures forall i :: 0 <= i < |rows| ==> r[i] == Some(StrV(Label(SelectLevel(IntOf(Get(rows[i], SCORE)), t))))
  {
    seq(|rows|, i requires 0 <= i < |rows| => Some(StrV(Label(SelectLevel(IntOf(Get(rows[i], SCORE)), t)))))
  }

  /** `select_dtypes(include=["object"])`: text and mixed-object columns. */
  function ObjectNames(cols: seq<Column>): seq<string> {
    NamesOfTypes(cols, {Text, Object})
  }

  /** The object columns the "unknown" loop fills: all but is_fraud and
      EVENT_TIME, in the loop's order. */
  function FillTargets(names: seq<string>): (r: seq<string>)
    ensures forall c :: c in r <==> c in names && c != IS_FRAUD && c != EVENT_TIME
  {
    if names == [] then []
    else
      var front := FillTargets(names[..|names| - 1]);
      var last := names[|names| - 1];
      assert names == names[..|names| - 1] + [last];
      if last != IS_FRAUD && last != EVENT_TIME then front + [last] else front
  }

  lemma FillTargetsSnoc(names: seq<string>, x: string)
    ensures FillTargets(names + [x]) ==
      if x != IS_FRAUD && x != EVENT_TIME then FillTargets(names) + [x] else FillTargets(names)
  {
    assert (names + [x])[..|names|] == names;
  }

  lemma FillColumnsSnoc(rows: seq<Row>, names: seq<string>, x: string, v: Value)
    ensures FillColumns(rows, names + [x], v) == FillColumn(FillColumns(rows, names, v), x, v)
  {
    assert (names + [x])[..|names|] == names;
  }

  /** One turn of the "unknown" loop: the next name is filled unless it is
      is_fraud or EVENT_TIME. */
  lemma FillStep(rows: seq<Row>, names: seq<string>, k: int)
    requires 0 <= k < |names|
    ensures var done := FillColumns(rows, FillTargets(names[..k]), StrV(UNKNOWN));
      FillColumns(rows, FillTargets(names[..k + 1]), StrV(UNKNOWN)) ==
        if names[k] != IS_FRAUD && names[k] != EVENT_TIME then FillColumn(done, names[k], StrV(UNKNOWN)) else done
  {
    var x := names[k];
    assert names[..k + 1] == names[..k] + [x];
    FillTargetsSnoc(names[..k], x);
    if x != IS_FRAUD && x != EVENT_TIME {
      FillColumnsSnoc(rows, FillTargets(names[..k]), x, StrV(UNKNOWN));
    }
  }

  /** The schema after is_fraud has been normalised to booleans. */
  function FraudColumns(cols: seq<Column>): seq<Column> {
    if HasColumn(cols, IS_FRAUD) then WithColumn(cols, IS_FRAUD, Boolean) else cols
  }

  /** The schema `preprocess_pandas` leaves: is_fraud boolean, EVENT_TIME a
      timestamp, score_level (text) when SCORE exists, event_month when
      EVENT_TIME exists. */
  function PandasColumns(cols: seq<Column>): seq<Column> {
    var c1 := FraudColumns(cols);
    var c2 := if HasColumn(c1, EVENT_TIME) then WithColumn(c1, EVENT_TIME, Timestamp) else c1;
    var c3 := if HasColumn(c2, SCORE) then WithColumn(c2, SCORE_LEVEL, Text) else c2;
    if HasColumn(c3, EVENT_TIME) && TypeOf(c3, EVENT_TIME) == Some(Timestamp) then WithColumn(c3, EVENT_MONTH, Timestamp) else c3
  }

  /** Steps 1 and 2 up to the is_fraud normalisation. */
  function CleanRows(cols: seq<Column>, rows: seq<Row>): (r: seq<Row>)
    ensures |r| == |DropAllNull(cols, rows)|
  {
    var r0 := DropAllNull(cols, rows);
    var r1 := if HasColumn(cols, SCORE) then FillColumn(r0, SCORE, IntV(0)) else r0;
    var r2 := if HasColumn(cols, EVENT_VALUE) then FillColumn(r1, EVENT_VALUE, IntV(0)) else r1;
    if HasColumn(cols, IS_FRAUD) then SetColumn(r2, IS_FRAUD, FraudCells(r2)) else r2
  }

  /** The rows up to the EVENT_TIME step: the "unknown" loop included. */
  function TextFilledRows(cols: seq<Column>, rows: seq<Row>): (r: seq<Row>)
    ensures |r| == |DropAllNull(cols, rows)|
  {
    FillColumns(CleanRows(cols, rows), FillTargets(ObjectNames(FraudColumns(cols))), StrV(UNKNOWN))
  }

  /** The rows `preprocess_pandas` leaves. */
  function PandasRows(cols: seq<Column>, rows: seq<Row>, t: Thresholds): (r: seq<Row>)
    ensures |r| == |DropAllNull(cols, rows)|
  {
    var r4 := TextFilledRows(cols, rows);
    var r5 := if HasColumn(cols, EVENT_TIME) then SetColumn(r4, EVENT_TIME, FilledTimes(r4)) else r4;
    var r6 := if HasColumn(cols, SCORE) then SetColumn(r5, SCORE_LEVEL, SelectCells(r5, t)) else r5;
    if HasColumn(cols, EVENT_TIME) then SetColumn(r6, EVENT_MONTH, MonthCells(r6)) else r6
  }

  /** `preprocess_pandas(df, [a, b])`, updating `df` step by step as the
      source does: the cleaning, the "unknown" loop, then the EVENT_TIME and
      derived columns. */
  method Preprocess(df: DataFrame, a: int, b: int)
    modifies df
    ensures df.columns == PandasColumns(old(df.columns))
    ensures df.rows == PandasRows(old(df.columns), old(df.rows), SortThresholds(a, b))
  {
    Clean(df);
    FillText(df, old(df.columns), old(df.rows));
    Finish(df, old(df.columns), old(df.rows), SortThresholds(a, b));
  }

  /** Steps 1 and 2 up to the is_fraud normalisation. */
  method Clean(df: DataFrame)
    modifies df
    ensures df.columns == FraudColumns(old(df.columns))
    ensures df.rows == CleanRows(old(df.columns), old(df.rows))
  {
    df.rows := DropAllNull(df.columns, df.rows);
    if HasColumn(df.columns, SCORE) {
      df.rows := FillColumn(df.rows, SCORE, IntV(0));
    }
    if HasColumn(df.columns, EVENT_VALUE) {
      df.rows := FillColumn(df.rows, EVENT_VALUE, IntV(0));
    }
    if HasColumn(df.columns, IS_FRAUD) {
      df.rows := SetColumn(df.rows, IS_FRAUD, FraudCells(df.rows));
      df.columns := WithColumn(df.columns, IS_FRAUD, Boolean);
    }
  }

  /** The loop that fills the object columns with "unknown". */
  method FillText(df: DataFrame, ghost cols0: seq<Column>, ghost rows0: seq<Row>)
    requires df.columns == FraudColumns(cols0) && df.rows == CleanRows(cols0, rows0)
    modifies df
    ensures df.columns == FraudColumns(cols0)
    ensures df.rows == TextFilledRows(cols0, rows0)
  {
    var stringCols := ObjectNames(df.columns);
    ghost var cleaned := df.rows;
    var k := 0;
    while k < |stringCols|
      invariant 0 <= k <= |stringCols|
      invariant df.columns == FraudColumns(cols0)
      invariant df.rows == FillColumns(cleaned, FillTargets(stringCols[..k]), StrV(UNKNOWN))
    {
      var col := stringCols[k];
      ghost var next := FillColumns(cleaned, FillTargets(stringCols[..k + 1]), StrV(UNKNOWN));
      if col != IS_FRAUD && col != EVENT_TIME {
        assert next == FillColumn(df.rows, col, StrV(UNKNOWN)) by {
          FillStep(cleaned, stringCols, k);
        }
        df.rows := FillColumn(df.rows, col, StrV(UNKNOWN));
      } else {
        assert next == df.rows by {
          FillStep(cleaned, stringCols, k);
        }
      }
      k := k + 1;
    }
    assert stringCols[..k] == stringCols;
    assert df.rows == FillColumns(cleaned, FillTargets(ObjectNames(FraudColumns(cols0))), StrV(UNKNOWN));
  }

  /** EVENT_TIME coerced and filled both ways, then score_level and
      event_month. */
  method Finish(df: DataFrame, ghost cols0: seq<Column>, ghost rows0: seq<Row>, t: Thresholds)
    requires df.columns == FraudColumns(cols0) && df.rows == TextFilledRows(cols0, rows0)
    modifies df
    ensures df.columns == PandasColumns(cols0)
    ensures df.rows == PandasRows(cols0, rows0, t)
  {
    if HasColumn(df.columns, EVENT_TIME) {
      df.rows := SetColumn(df.rows, EVENT_TIME, FilledTimes(df.rows));
      df.columns := WithColumn(df.columns, EVENT_TIME, Timestamp);
    }
    if HasColumn(df.columns, SCORE) {
      df.rows := SetColumn(df.rows, SCORE_LEVEL, SelectCells(df.rows, t));
      df.columns := WithColumn(df.columns, SCORE_LEVEL, Text);
    }
    if HasColumn(df.columns, EVENT_TIME) && TypeOf(df.columns, EVENT_TIME) == Some(Timestamp) {
      df.rows := SetColumn(df.rows, EVENT_MONTH, MonthCells(df.rows));
      df.columns := WithColumn(df.columns, EVENT_MONTH, Timestamp);
    }
  }

  /** Row `i` of the result, as the last three steps build it from the
      text-filled rows. */
  lemma PandasRowIs(cols: seq<Column>, rows: seq<Row>, t: Thresholds, i: int)
    requires 0 <= i < |DropAllNull(cols, rows)|
    ensures var r4 := TextFilledRows(cols, rows);
      var row := PandasRows(cols, rows, t)[i];
      && (forall c :: c != EVENT_TIME && c != SCORE_LEVEL && c != EVENT_MONTH ==> Get(row, c) == Get(r4[i], c))
      && (HasColumn(cols, EVENT_TIME) ==> Get(row, EVENT_TIME) == FilledTimes(r4)[i])
      && (!HasColumn(cols, EVENT_TIME) ==> Get(row, EVENT_TIME) == Get(r4[i], EVENT_TIME))
      && (HasColumn(cols, SCORE) ==> Get(row, SCORE_LEVEL) == Some(StrV(Label(SelectLevel(IntOf(Get(r4[i], SCORE)), t)))))
      && (HasColumn(cols, EVENT_TIME) ==> Get(row, EVENT_MONTH) == MonthOf(Get(row, EVENT_TIME)))
  {
    var r4 := TextFilledRows(cols, rows);
    var r5 := if HasColumn(cols, EVENT_TIME) then SetColumn(r4, EVENT_TIME, FilledTimes(r4)) else r4;
    var r6 := if HasColumn(cols, SCORE) then SetColumn(r5, SCORE_LEVEL, SelectCells(r5, t)) else r5;
    var r7 := if HasColumn(cols, EVENT_TIME) then SetColumn(r6, EVENT_MONTH, MonthCells(r6)) else r6;
    assert PandasRows(cols, rows, t) == r7;
    assert Get(r5[i], SCORE) == Get(r4[i], SCORE);
    assert Get(r5[i], EVENT_TIME) == (if HasColumn(cols, EVENT_TIME) then FilledTimes(r4)[i] else Get(r4[i], EVENT_TIME));
    assert Get(r6[i], EVENT_TIME) == Get(r5[i], EVENT_TIME);
    assert Get(r7[i], EVENT_TIME) == Get(r6[i], EVENT_TIME);
    assert HasColumn(cols, SCORE) ==> Get(r6[i], SCORE_LEVEL) == Some(StrV(Label(SelectLevel(IntOf(Get(r4[i], SCORE)), t))));
    assert Get(r7[i], SCORE_LEVEL) == Get(r6[i], SCORE_LEVEL);
    forall c | c != EVENT_TIME && c != SCORE_LEVEL && c != EVENT_MONTH
      ensures Get(r7[i], c) == Get(r4[i], c)
    {
      assert Get(r5[i], c) == Get(r4[i], c);
      assert Get(r6[i], c) == Get(r5[i], c);
    }
  }

  lemma CleanRowsAt(cols: seq<Column>, rows: seq<Row>, i: int)
    requires 0 <= i < |DropAllNull(cols, rows)|
    ensures var kept := DropAllNull(cols, rows);
      var r := CleanRows(cols, rows)[i];
      && Get(r, SCORE) == (if HasColumn(cols, SCORE) then FillNull(Get(kept[i], SCORE), IntV(0)) else Get(kept[i], SCORE))
      && Get(r, EVENT_VALUE) == (if HasColumn(cols, EVENT_VALUE) then FillNull(Get(kept[i], EVENT_VALUE), IntV(0)) else Get(kept[i], EVENT_VALUE))
      && Get(r, IS_FRAUD) == (if HasColumn(cols, IS_FRAUD) then Some(BoolV(FraudFlag(Get(kept[i], IS_FRAUD)))) else Get(kept[i], IS_FRAUD))
      && Get(r, EVENT_TIME) == Get(kept[i], EVENT_TIME)
  {
    var r0 := DropAllNull(cols, rows);
    var r1 := if HasColumn(cols, SCORE) then FillColumn(r0, SCORE, IntV(0)) else r0;
    var r2 := if HasColumn(cols, EVENT_VALUE) then FillColumn(r1, EVENT_VALUE, IntV(0)) else r1;
    var r3 := if HasColumn(cols, IS_FRAUD) then SetColumn(r2, IS_FRAUD, FraudCells(r2)) else r2;
    assert CleanRows(cols, rows) == r3;
    assert Get(r1[i], SCORE) == (if HasColumn(cols, SCORE) then FillNull(Get(r0[i], SCORE), IntV(0)) else Get(r0[i], SCORE));
    assert Get(r2[i], SCORE) == Get(r1[i], SCORE);
    assert Get(r2[i], EVENT_VALUE) == (if HasColumn(cols, EVENT_VALUE) then FillNull(Get(r0[i], EVENT_VALUE), IntV(0)) else Get(r0[i], EVENT_VALUE)) by {
      assert Get(r1[i], EVENT_VALUE) == Get(r0[i], EVENT_VALUE);
    }
    assert Get(r2[i], IS_FRAUD) == Get(r0[i], IS_FRAUD) by {
      assert Get(r1[i], IS_FRAUD) == Get(r0[i], IS_FRAUD);
    }
    assert Get(r2[i], EVENT_TIME) == Get(r0[i], EVENT_TIME) by {
      assert Get(r1[i], EVENT_TIME) == Get(r0[i], EVENT_TIME);
    }
  }

  /** EVENT_TIME of row `i`: the filled coerced column of the cleaned rows. */
  lemma PandasTimeAt(cols: seq<Column>, rows: seq<Row>, t: Thresholds, i: int)
    requires HasColumn(cols, EVENT_TIME)
    requires 0 <= i < |DropAllNull(cols, rows)|
    ensures Get(PandasRows(cols, rows, t)[i], EVENT_TIME) == FilledTimes(TextFilledRows(cols, rows))[i]
  {
    PandasRowIs(cols, rows, t, i);
  }

  /** The coerced EVENT_TIME column is the same before and after the cleaning
      steps, which do not touch it. */
  lemma CoercedUnchanged(cols: seq<Column>, rows: seq<Row>)
    ensures CoercedTimes(TextFilledRows(cols, rows)) == CoercedTimes(DropAllNull(cols, rows))
  {
    var kept := DropAllNull(cols, rows);
    forall i | 0 <= i < |kept|
      ensures CoercedTimes(TextFilledRows(cols, rows))[i] == CoercedTimes(kept)[i]
    {
      CleanRowAt(cols, rows, i);
    }
  }

  /** The cells the cleaning steps leave in the named columns of one row, up
      to the EVENT_TIME step. */
  lemma CleanRowAt(cols: seq<Column>, rows: seq<Row>, i: int)
    requires 0 <= i < |DropAllNull(cols, rows)|
    ensures var kept := DropAllNull(cols, rows);
      var r4 := TextFilledRows(cols, rows)[i];
      && Get(r4, SCORE) == (if HasColumn(cols, SCORE) then FillNull(Get(kept[i], SCORE), IntV(0)) else Get(kept[i], SCORE))
      && Get(r4, EVENT_VALUE) == (if HasColumn(cols, EVENT_VALUE) then FillNull(Get(kept[i], EVENT_VALUE), IntV(0)) else Get(kept[i], EVENT_VALUE))
      && Get(r4, IS_FRAUD) == (if HasColumn(cols, IS_FRAUD) then Some(BoolV(FraudFlag(Get(kept[i], IS_FRAUD)))) else Get(kept[i], IS_FRAUD))
      && Get(r4, EVENT_TIME) == Get(kept[i], EVENT_TIME)
  {
    var targets := FillTargets(ObjectNames(FraudColumns(cols)));
    var cr := CleanRows(cols, rows);
    CleanRowsAt(cols, rows, i);
    assert IS_FRAUD !in targets && EVENT_TIME !in targets;
    assert !HasColumn(cols, SCORE) ==> SCORE !in targets;
    assert !HasColumn(cols, EVENT_VALUE) ==> EVENT_VALUE !in targets;
    assert HasColumn(cols, SCORE) ==> Get(cr[i], SCORE).Some?;
    assert HasColumn(cols, EVENT_VALUE) ==> Get(cr[i], EVENT_VALUE).Some?;
  }

  /** What `preprocess_pandas` leaves in the named columns of one surviving
      row. Each rule applies only when its column exists: SCORE and
      EVENT_VALUE null become 0; is_fraud becomes the boolean `map_dict`
      gives, false for anything the table lacks; score_level is the loader's
      level of the filled SCORE; event_month is the month of the filled
      EVENT_TIME. */
  lemma PandasRowAt(cols: seq<Column>, rows: seq<Row>, t: Thresholds, i: int)
    requires 0 <= i < |DropAllNull(cols, rows)|
    ensures var kept := DropAllNull(cols, rows);
      var row := PandasRows(cols, rows, t)[i];
      && Get(row, SCORE) == (if HasColumn(cols, SCORE) then FillNull(Get(kept[i], SCORE), IntV(0)) else Get(kept[i], SCORE))
      && Get(row, EVENT_VALUE) == (if HasColumn(cols, EVENT_VALUE) then FillNull(Get(kept[i], EVENT_VALUE), IntV(0)) else Get(kept[i], EVENT_VALUE))
      && Get(row, IS_FRAUD) == (if HasColumn(cols, IS_FRAUD) then Some(BoolV(FraudFlag(Get(kept[i], IS_FRAUD)))) else Get(kept[i], IS_FRAUD))
      && (HasColumn(cols, SCORE) ==> Get(row, SCORE_LEVEL) == Some(StrV(Label(LevelOf(IntOf(Get(row, SCORE)), t)))))
      && (HasColumn(cols, EVENT_TIME) ==> Get(row, EVENT_MONTH) == MonthOf(Get(row, EVENT_TIME)))
  {
    PandasRowIs(cols, rows, t, i);
    CleanRowAt(cols, rows, i);
    SelectAgreesWithLoader(IntOf(Get(TextFilledRows(cols, rows)[i], SCORE)), t);
  }

  /** An object column other than is_fraud and EVENT_TIME has no null left:
      each null cell became "unknown". */
  lemma PandasTextAt(cols: seq<Column>, rows: seq<Row>, t: Thresholds, i: int, c: string)
    requires 0 <= i < |DropAllNull(cols, rows)|
    requires TypeOf(cols, c) == Some(Text) || TypeOf(cols, c) == Some(Object)
    requires c !in {SCORE, EVENT_VALUE, IS_FRAUD, EVENT_TIME, SCORE_LEVEL, EVENT_MONTH}
    ensures Get(PandasRows(cols, rows, t)[i], c) == FillNull(Get(DropAllNull(cols, rows)[i], c), StrV(UNKNOWN))
  {
    var r4 := TextFilledRows(cols, rows);
    assert Get(PandasRows(cols, rows, t)[i], c) == Get(r4[i], c) by {
      PandasRowIs(cols, rows, t, i);
    }
    assert c in FillTargets(ObjectNames(FraudColumns(cols))) by {
      assert TypeOf(FraudColumns(cols), c) == TypeOf(cols, c);
    }
    CleanRowsOther(cols, rows, i, c);
  }

  /** The cleaning steps leave every column but SCORE, EVENT_VALUE and
      is_fraud as it was. */
  lemma CleanRowsOther(cols: seq<Column>, rows: seq<Row>, i: int, c: string)
    requires 0 <= i < |DropAllNull(cols, rows)|
    requires c != SCORE && c != EVENT_VALUE && c != IS_FRAUD
    ensures Get(CleanRows(cols, rows)[i], c) == Get(DropAllNull(cols, rows)[i], c)
  {
  }

  /** EVENT_TIME after `to_datetime`, `ffill` and `bfill`: if any cell of the
      frame holds a timestamp, none is null; otherwise all are. */
  lemma PandasTimesComplete(cols: seq<Column>, rows: seq<Row>, t: Thresholds)
    requires HasColumn(cols, EVENT_TIME)
    ensures var c := CoercedTimes(DropAllNull(cols, rows));
      var out := PandasRows(cols, rows, t);
      && ((exists k :: 0 <= k < |c| && c[k].Some?) ==> forall i :: 0 <= i < |out| ==> Get(out[i], EVENT_TIME).Some?)
      && ((forall k :: 0 <= k < |c| ==> c[k].None?) ==> forall i :: 0 <= i < |out| ==> Get(out[i], EVENT_TIME).None?)
  {
    PandasTimes(cols, rows, t);
    Fill.FillBothWays(CoercedTimes(DropAllNull(cols, rows)));
  }

  /** EVENT_TIME of every output row is the coerced column filled forward
      then backward. */
  lemma PandasTimes(cols: seq<Column>, rows: seq<Row>, t: Thresholds)
    requires HasColumn(cols, EVENT_TIME)
    ensures var r := Fill.BackFill(Fill.ForwardFill(CoercedTimes(DropAllNull(cols, rows))));
      var out := PandasRows(cols, rows, t);
      forall i :: 0 <= i < |out| ==> Get(out[i], EVENT_TIME) == r[i]
  {
    var out := PandasRows(cols, rows, t);
    var r := Fill.BackFill(Fill.ForwardFill(CoercedTimes(DropAllNull(cols, rows))));
    assert FilledTimes(TextFilledRows(cols, rows)) == r by {
      CoercedUnchanged(cols, rows);
    }
    forall i | 0 <= i < |out| ensures Get(out[i], EVENT_TIME) == r[i] {
      PandasTimeAt(cols, rows, t, i);
    }
  }

  /** The two cleaning rules part on a leading null EVENT_TIME: the loader's
      forward fill leaves the first row null, the pandas back fill takes the
      timestamp below it. */
  lemma LeadingNullTime(f: Frame, t: Thresholds, x: DateTime)
    requires CheckSchema(f.columns).None?
    requires var kept := DropAllNull(f.columns, f.rows);
      |kept| >= 2 && Get(kept[0], EVENT_TIME).None? && Get(kept[1], EVENT_TIME) == Some(TimeV(x))
    ensures Get(LoaderPreprocess.Preprocess(f, t).value.rows[0], EVENT_TIME).None?
    ensures Get(PandasRows(f.columns, f.rows, t)[0], EVENT_TIME) == Some(TimeV(x))
  {
    LoaderLeadingNull(f, t);
    var kept := DropAllNull(f.columns, f.rows);
    LeadingNullBackFill(CoercedTimes(kept), x);
    CoercedUnchanged(f.columns, f.rows);
    PandasTimeAt(f.columns, f.rows, t, 0);
  }

  lemma LoaderLeadingNull(f: Frame, t: Thresholds)
    requires CheckSchema(f.columns).None?
    requires var kept := DropAllNull(f.columns, f.rows);
      |kept| >= 1 && Get(kept[0], EVENT_TIME).None?
    ensures Get(LoaderPreprocess.Preprocess(f, t).value.rows[0], EVENT_TIME).None?
  {
    var kept := DropAllNull(f.columns, f.rows);
    var times := ColumnCells(kept, EVENT_TIME);
    assert Fill.LastSome(times[..1]) == None by {
      assert times[..1] == [None];
    }
    assert Get(LoaderPreprocess.Preprocess(f, t).value.rows[0], EVENT_TIME) == Fill.LastSome(times[..1]) by {
      PreprocessRowAt(f, t, 0);
    }
  }

  lemma LeadingNullBackFill(c: seq<Cell>, x: DateTime)
    requires |c| >= 2 && c[0] == None && c[1] == Some(TimeV(x))
    ensures Fill.BackFill(Fill.ForwardFill(c))[0] == Some(TimeV(x))
  {
    Fill.ForwardFillAt(c, 0);
    Fill.ForwardFillAt(c, 1);
    assert c[..1] == [None];
    var ff := Fill.ForwardFill(c);
    Fill.BackFillAt(ff, 0);
    assert ff[0..][0] == None && ff[0..][1] == Some(TimeV(x));
  }

  /** The values of the converter's own end-to-end example: is_fraud read as
      "True", "False", empty and "False" becomes true, false, false, false
      (lower-case "true" is not in the table), and SCORE 100, 600, 1600 and a
      null filled to 0 fall in low, mid, high and low for thresholds 500 and
      1500. */
  lemma ConvertExampleValues()
    ensures [FraudFlag(Some(StrV("True"))), FraudFlag(Some(StrV("False"))), FraudFlag(None), FraudFlag(Some(StrV("False")))]
      == [true, false, false, false]
    ensures !FraudFlag(Some(StrV("true")))
    ensures var t := SortThresholds(1500, 500);
      [Label(SelectLevel(100, t)), Label(SelectLevel(600, t)), Label(SelectLevel(1600, t)),
       Label(SelectLevel(IntOf(FillNull(None, IntV(0))), t))] == ["low", "mid", "high", "low"]
  {
  }
}

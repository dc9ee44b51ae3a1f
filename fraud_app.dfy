/** The analysis dashboard (fraud_analysis_app.py): the analysis axes it
    offers, the value options per axis, the filters the user's picks record,
    the WHERE text built from them, and the confusion matrix with recall and
    false-positive rate. */
module FraudApp {
  import opened Wrappers
  import opened Text
  import opened Sql

  const EXCLUDED: set<string> := {"EVENT_TIME", "SCORE", "is_fraud", "is_correct_label"}
  const MANUAL_INPUT := "（値を直接入力する）"
  const MAX_OPTIONS := 500

  // ---------------------------------------------------------------------
  // Axes and options.

  predicate Selectable(col: string) {
    col !in EXCLUDED && !StartsWith(col, "__")
  }

  /** The analysis axes offered: every column but the four fixed ones and
      the `__`-prefixed ones, in schema order. */
  function SelectableColumns(cols: seq<string>): (r: seq<string>)
    ensures forall x :: x in r <==> x in cols && Selectable(x)
    ensures |r| <= |cols|
  {
    if cols == [] then []
    else
      var rest := SelectableColumns(cols[1..]);
      assert forall x :: x in cols <==> x == cols[0] || x in cols[1..];
      if Selectable(cols[0]) then [cols[0]] + rest else rest
  }

  /** Filtering keeps the schema order: it distributes over concatenation. */
  lemma {:induction false} SelectableConcat(a: seq<string>, b: seq<string>)
    ensures SelectableColumns(a + b) == SelectableColumns(a) + SelectableColumns(b)
  {
    if a == [] {
      assert a + b == b;
    } else {
      assert (a + b)[0] == a[0] && (a + b)[1..] == a[1..] + b;
      SelectableConcat(a[1..], b);
    }
  }

  /** The axes selected at first: the first two offered, or all of them when
      fewer than two are offered. */
  function DefaultDims(offered: seq<string>): (r: seq<string>)
    ensures |r| == (if |offered| < 2 then |offered| else 2)
    ensures r == offered[..|r|]
  {
    if |offered| > 1 then offered[..2] else offered
  }

  /** The selectbox options: the manual-entry sentinel, then at most the
      first 500 distinct values. */
  function Options(distinct: seq<Literal>): (r: seq<Literal>)
    ensures |r| >= 1 && r[0] == Str(MANUAL_INPUT)
    ensures |r| - 1 == (if |distinct| > MAX_OPTIONS then MAX_OPTIONS else |distinct|)
    ensures r[1..] == distinct[..|r| - 1]
  {
    if |distinct| > MAX_OPTIONS then [Str(MANUAL_INPUT)] + distinct[..MAX_OPTIONS]
    else [Str(MANUAL_INPUT)] + distinct
  }

  // ---------------------------------------------------------------------
  // Filters.

  /** What the user did on one axis: the option chosen, and the text typed
      when that option is the manual entry. */
  datatype Pick = Pick(selected: Literal, typed: string)

  /** The value one axis records: the typed text when the manual entry is
      chosen and something was typed, the chosen value when it is truthy,
      nothing otherwise. */
  function Recorded(p: Pick): (r: Option<Literal>)
    ensures r.Some? <==>
      (p.selected == Str(MANUAL_INPUT) && p.typed != "") || (p.selected != Str(MANUAL_INPUT) && Truthy(p.selected))
    ensures r.Some? && p.selected == Str(MANUAL_INPUT) ==> r.value == Str(p.typed)
    ensures r.Some? && p.selected != Str(MANUAL_INPUT) ==> r.value == p.selected
  {
    if p.selected == Str(MANUAL_INPUT) then
      if p.typed != "" then Some(Str(p.typed)) else None
    else if Truthy(p.selected) then Some(p.selected)
    else None
  }

  /** The `filters` dict as its items in insertion order; every value list
      holds exactly one value, kept here as that value. */
  type Filters = seq<(string, Literal)>

  function Keys(f: Filters): (r: seq<string>)
    ensures |r| == |f|
  {
    if f == [] then [] else [f[0].0] + Keys(f[1..])
  }

  /** `filters[col]`, None when the key is absent. */
  function Lookup(f: Filters, col: string): Option<Literal> {
    if f == [] then None else if f[0].0 == col then Some(f[0].1) else Lookup(f[1..], col)
  }

  /** `filters[col] = [v]`: an existing key keeps its place and takes the new
      value, a new key goes last. */
  function Put(f: Filters, col: string, v: Literal): (r: Filters)
    ensures Lookup(r, col) == Some(v)
    ensures forall c :: c != col ==> Lookup(r, c) == Lookup(f, c)
  {
    if f == [] then [(col, v)]
    else if f[0].0 == col then [(col, v)] + f[1..]
    else [f[0]] + Put(f[1..], col, v)
  }

  /** Putting a key keeps the keys distinct and adds at most that key. */
  lemma {:induction false} PutKeys(f: Filters, col: string, v: Literal)
    requires Distinct(Keys(f))
    ensures Distinct(Keys(Put(f, col, v)))
    ensures forall c :: c in Keys(Put(f, col, v)) <==> c == col || c in Keys(f)
  {
    if f != [] {
      var r := Put(f, col, v);
      DistinctCons(f[0].0, Keys(f[1..]));
      if f[0].0 == col {
        DistinctCons(col, Keys(f[1..]));
      } else {
        PutKeys(f[1..], col, v);
        assert Keys(r) == [f[0].0] + Keys(Put(f[1..], col, v));
        DistinctCons(f[0].0, Keys(Put(f[1..], col, v)));
      }
    }
  }

  /** The filters after the first `|dims|` axes. */
  function FiltersOf(dims: seq<string>, picks: seq<Pick>): Filters
    requires |dims| == |picks|
    decreases |dims|
  {
    if dims == [] then []
    else
      var n := |dims| - 1;
      var f := FiltersOf(dims[..n], picks[..n]);
      var v := Recorded(picks[n]);
      if v.Some? then Put(f, dims[n], v.value) else f
  }

  /** The loop over the selected axes that fills `filters`. */
  method RecordFilters(dims: seq<string>, picks: seq<Pick>) returns (filters: Filters)
    requires |dims| == |picks|
    ensures filters == FiltersOf(dims, picks)
  {
    filters := [];
    for k := 0 to |dims|
      invariant filters == FiltersOf(dims[..k], picks[..k])
    {
      assert dims[..k + 1][..k] == dims[..k] && picks[..k + 1][..k] == picks[..k];
      var v := Recorded(picks[k]);
      if v.Some? {
        filters := Put(filters, dims[k], v.value);
      }
    }
    assert dims[..|dims|] == dims && picks[..|picks|] == picks;
  }

  lemma {:induction false} FiltersDistinct(dims: seq<string>, picks: seq<Pick>)
    requires |dims| == |picks|
    ensures Distinct(Keys(FiltersOf(dims, picks)))
    decreases |dims|
  {
    if dims != [] {
      var n := |dims| - 1;
      FiltersDistinct(dims[..n], picks[..n]);
      var v := Recorded(picks[n]);
      if v.Some? {
        PutKeys(FiltersOf(dims[..n], picks[..n]), dims[n], v.value);
      }
    }
  }

  /** An axis has no filter exactly when no pick on it records a value. */
  lemma {:induction false} FiltersAbsent(dims: seq<string>, picks: seq<Pick>, col: string)
    requires |dims| == |picks|
    ensures Lookup(FiltersOf(dims, picks), col).None? <==>
      forall i :: 0 <= i < |dims| && dims[i] == col ==> Recorded(picks[i]).None?
    decreases |dims|
  {
    if dims != [] {
      var n := |dims| - 1;
      FiltersAbsent(dims[..n], picks[..n], col);
      assert forall i :: 0 <= i < n ==> dims[..n][i] == dims[i] && picks[..n][i] == picks[i];
      var v := Recorded(picks[n]);
      if v.Some? && dims[n] == col {
        assert Lookup(FiltersOf(dims, picks), col) == v;
      } else {
        assert Lookup(FiltersOf(dims, picks), col) == Lookup(FiltersOf(dims[..n], picks[..n]), col);
      }
    }
  }

  /** A filter holds the value of the last pick on its axis that records one. */
  lemma {:induction false} FiltersLast(dims: seq<string>, picks: seq<Pick>, col: string)
    requires |dims| == |picks|
    ensures Lookup(FiltersOf(dims, picks), col).Some? ==>
      exists i :: 0 <= i < |dims| && dims[i] == col && Recorded(picks[i]) == Lookup(FiltersOf(dims, picks), col)
        && forall j :: i < j < |dims| && dims[j] == col ==> Recorded(picks[j]).None?
    decreases |dims|
  {
    if dims != [] {
      var n := |dims| - 1;
      var f := FiltersOf(dims[..n], picks[..n]);
      var v := Recorded(picks[n]);
      if v.Some? && dims[n] == col {
        assert Lookup(FiltersOf(dims, picks), col) == v;
        assert dims[n] == col && Recorded(picks[n]) == v;
      } else {
        assert Lookup(FiltersOf(dims, picks), col) == Lookup(f, col);
        if Lookup(f, col).Some? {
          var ds, ps := dims[..n], picks[..n];
          FiltersLast(ds, ps, col);
          var i :| 0 <= i < n && ds[i] == col && Recorded(ps[i]) == Lookup(f, col)
            && forall j :: i < j < n && ds[j] == col ==> Recorded(ps[j]).None?;
          assert dims[i] == col && Recorded(picks[i]) == Lookup(f, col) by {
            assert ds[i] == dims[i] && ps[i] == picks[i];
          }
          forall j | i < j < |dims| && dims[j] == col ensures Recorded(picks[j]).None? {
            if j < n {
              assert ds[j] == dims[j] && ps[j] == picks[j];
            }
          }
        }
      }
    }
  }

  /** An axis has a filter exactly when some pick on it records a value, and
      the filter holds the value of the last such pick; no axis is filtered
      twice. */
  lemma FiltersLookup(dims: seq<string>, picks: seq<Pick>, col: string)
    requires |dims| == |picks|
    ensures Distinct(Keys(FiltersOf(dims, picks)))
    ensures Lookup(FiltersOf(dims, picks), col).None? <==>
      forall i :: 0 <= i < |dims| && dims[i] == col ==> Recorded(picks[i]).None?
    ensures Lookup(FiltersOf(dims, picks), col).Some? ==>
      exists i :: 0 <= i < |dims| && dims[i] == col && Recorded(picks[i]) == Lookup(FiltersOf(dims, picks), col)
        && forall j :: i < j < |dims| && dims[j] == col ==> Recorded(picks[j]).None?
  {
    FiltersDistinct(dims, picks);
    FiltersAbsent(dims, picks, col);
    FiltersLast(dims, picks, col);
  }

  // ---------------------------------------------------------------------
  // The WHERE text.

  /** One clause: `"col" IN ('v')`, the value through `str()` with every
      quote doubled. */
  function Clause(col: string, v: Literal): string {
    "\"" + col + "\" IN (" + "'" + Escape(PyStr(v)) + "'" + ")"
  }

  function ClauseCond(col: string, v: Literal): Cond {
    In(col, true, [Str(PyStr(v))])
  }

  function Clauses(f: Filters): (r: seq<string>)
    ensures |r| == |f|
    ensures forall k :: 0 <= k < |f| ==> r[k] == Clause(f[k].0, f[k].1)
  {
    seq(|f|, k requires 0 <= k < |f| => Clause(f[k].0, f[k].1))
  }

  /** The condition the filters stand for: all clauses together. */
  function WhereCond(f: Filters): Cond {
    if f == [] then Always
    else if |f| == 1 then ClauseCond(f[0].0, f[0].1)
    else And(ClauseCond(f[0].0, f[0].1), WhereCond(f[1..]))
  }

  /** The loop that fills `where_clauses`, then the join: `1=1` with no
      filter, the clauses joined by ` AND ` otherwise. */
  method BuildWhere(f: Filters) returns (whereSql: string)
    ensures whereSql == Render(WhereCond(f))
  {
    var clauses: seq<string> := [];
    for k := 0 to |f|
      invariant clauses == Clauses(f[..k])
    {
      clauses := clauses + [Clause(f[k].0, f[k].1)];
    }
    assert f[..|f|] == f;
    whereSql := if clauses == [] then "1=1" else Join(clauses, " AND ");
    if f != [] {
      ClausesRender(f);
    }
  }

  lemma ClauseRenders(col: string, v: Literal)
    ensures Clause(col, v) == Render(ClauseCond(col, v))
  {
    var items := [Str(PyStr(v))];
    var e := Escape(PyStr(v));
    assert RenderItems(items) == "'" + e + "'" by {
      assert seq(|items|, k requires 0 <= k < |items| => RenderLiteral(items[k])) == [Quote(PyStr(v))];
    }
    assert Render(ClauseCond(col, v)) == NameText(col, true) + " IN (" + ("'" + e + "'") + ")";
    ClauseText(col, e);
  }

  /** The clause's f-string, regrouped as the renderer builds it. */
  lemma ClauseText(col: string, e: string)
    ensures "\"" + col + "\" IN (" + "'" + e + "'" + ")" == ("\"" + col + "\"") + " IN (" + ("'" + e + "'") + ")"
  {
    assert "\" IN (" == "\"" + " IN (";
  }

  /** The joined clauses are the rendering of the whole condition. */
  lemma {:induction false} ClausesRender(f: Filters)
    requires f != []
    ensures Join(Clauses(f), " AND ") == Render(WhereCond(f))
  {
    ClauseRenders(f[0].0, f[0].1);
    if |f| > 1 {
      assert Clauses(f)[1..] == Clauses(f[1..]);
      ClausesRender(f[1..]);
    }
  }

  /** The WHERE keeps exactly the rows that match every recorded filter:
      column `col` holds the value `str(v)`. */
  lemma {:induction false} WhereMeaning(f: Filters, row: map<string, Literal>)
    ensures Holds(WhereCond(f), row) <==>
      forall i :: 0 <= i < |f| ==> f[i].0 in row && Matches(row[f[i].0], Str(PyStr(f[i].1)))
  {
    if f != [] {
      assert Holds(ClauseCond(f[0].0, f[0].1), row) <==>
        f[0].0 in row && Matches(row[f[0].0], Str(PyStr(f[0].1))) by {
        assert [Str(PyStr(f[0].1))][0] == Str(PyStr(f[0].1));
      }
      if |f| > 1 {
        WhereMeaning(f[1..], row);
        assert forall i :: 1 <= i < |f| ==> f[1..][i - 1] == f[i];
      }
    }
  }

  /** Doubling the quotes keeps the value intact: the database reads the
      literal of every clause back as exactly `str(v)`. */
  lemma ClauseValueReadsBack(col: string, v: Literal)
    ensures Clause(col, v) == "\"" + col + "\" IN (" + Quote(PyStr(v)) + ")"
    ensures ReadList(Quote(PyStr(v))) == Some([PyStr(v)])
  {
    ListRoundTrip([PyStr(v)]);
    assert QuoteAll([PyStr(v)]) == [Quote(PyStr(v))];
  }

  // ---------------------------------------------------------------------
  // Confusion matrix.

  /** The two columns the matrix reads from one row; None is SQL NULL. */
  datatype Scored = Scored(isFraud: Option<bool>, score: Option<int>)

  datatype Outcome = TP | FP | TN | FN

  /** `adjusted_score >= threshold_mid`; NULL when SCORE is NULL. */
  function Positive(r: Scored, adjustment: int, mid: int): Option<bool> {
    if r.score.None? then None else Some(r.score.value + adjustment >= mid)
  }

  /** The WHEN condition of the CASE that feeds each of tp, fp, tn and fn. */
  predicate CaseHolds(o: Outcome, r: Scored, adjustment: int, mid: int) {
    var p := Positive(r, adjustment, mid);
    match o
    case TP => r.isFraud == Some(true) && p == Some(true)
    case FP => r.isFraud == Some(false) && p == Some(true)
    case TN => r.isFraud == Some(false) && p == Some(false)
    case FN => r.isFraud == Some(true) && p == Some(false)
  }

  /** The cell a row falls in. */
  function Classify(r: Scored, adjustment: int, mid: int): (o: Option<Outcome>)
    ensures o.None? <==> r.isFraud.None? || r.score.None?
    ensures o == Some(TP) || o == Some(FN) <==> o.Some? && r.isFraud == Some(true)
    ensures o == Some(TP) || o == Some(FP) <==> o.Some? && r.score.value + adjustment >= mid
  {
    if r.isFraud.None? || r.score.None? then None
    else
      var positive := r.score.value + adjustment >= mid;
      Some(if r.isFraud.value then (if positive then TP else FN) else (if positive then FP else TN))
  }

  /** A row with is_fraud and SCORE both present meets exactly one of the four
      CASE conditions, the one Classify names; a row with either missing
      meets none. */
  lemma ExactlyOneCase(r: Scored, adjustment: int, mid: int, o: Outcome)
    ensures CaseHolds(o, r, adjustment, mid) <==> Classify(r, adjustment, mid) == Some(o)
    ensures Classify(r, adjustment, mid).None? <==> r.isFraud.None? || r.score.None?
  {
  }

  function Indicator(o: Outcome, r: Scored, adjustment: int, mid: int): int {
    if CaseHolds(o, r, adjustment, mid) then 1 else 0
  }

  /** `SUM(CASE WHEN ... THEN 1 ELSE 0 END)`: NULL over no rows. */
  function CaseSum(o: Outcome, rows: seq<Scored>, adjustment: int, mid: int): Option<int> {
    if rows == [] then None
    else
      var rest := CaseSum(o, rows[1..], adjustment, mid);
      Some(Indicator(o, rows[0], adjustment, mid) + rest.GetOr(0))
  }

  /** `cm_df[o][0] or 0`. */
  function CellCount(o: Outcome, rows: seq<Scored>, adjustment: int, mid: int): nat {
    var s := CaseSum(o, rows, adjustment, mid).GetOr(0);
    CaseSumBounds(o, rows, adjustment, mid);
    s
  }

  /** Rows where the CASE for `o` holds, counted directly. */
  function Hits(o: Outcome, rows: seq<Scored>, adjustment: int, mid: int): nat {
    if rows == [] then 0 else Indicator(o, rows[0], adjustment, mid) + Hits(o, rows[1..], adjustment, mid)
  }

  lemma {:induction false} CaseSumBounds(o: Outcome, rows: seq<Scored>, adjustment: int, mid: int)
    ensures CaseSum(o, rows, adjustment, mid).GetOr(0) == Hits(o, rows, adjustment, mid)
  {
    if rows != [] {
      CaseSumBounds(o, rows[1..], adjustment, mid);
    }
  }

  function Complete(rows: seq<Scored>): nat {
    if rows == [] then 0
    else (if rows[0].isFraud.Some? && rows[0].score.Some? then 1 else 0) + Complete(rows[1..])
  }

  function Frauds(rows: seq<Scored>): nat {
    if rows == [] then 0
    else (if rows[0].isFraud == Some(true) && rows[0].score.Some? then 1 else 0) + Frauds(rows[1..])
  }

  function NonFrauds(rows: seq<Scored>): nat {
    if rows == [] then 0
    else (if rows[0].isFraud == Some(false) && rows[0].score.Some? then 1 else 0) + NonFrauds(rows[1..])
  }

  /** The four cells add up to the rows with both columns present; tp + fn is
      the number of frauds and fp + tn the number of non-frauds, whatever
      the adjustment and threshold. */
  lemma {:induction false} CellsPartition(rows: seq<Scored>, adjustment: int, mid: int)
    ensures CellCount(TP, rows, adjustment, mid) + CellCount(FP, rows, adjustment, mid)
          + CellCount(TN, rows, adjustment, mid) + CellCount(FN, rows, adjustment, mid) == Complete(rows)
    ensures CellCount(TP, rows, adjustment, mid) + CellCount(FN, rows, adjustment, mid) == Frauds(rows)
    ensures CellCount(FP, rows, adjustment, mid) + CellCount(TN, rows, adjustment, mid) == NonFrauds(rows)
  {
    HitsPartition(rows, adjustment, mid);
    CaseSumBounds(TP, rows, adjustment, mid);
    CaseSumBounds(FP, rows, adjustment, mid);
    CaseSumBounds(TN, rows, adjustment, mid);
    CaseSumBounds(FN, rows, adjustment, mid);
  }

  lemma {:induction false} HitsPartition(rows: seq<Scored>, adjustment: int, mid: int)
    ensures Hits(TP, rows, adjustment, mid) + Hits(FP, rows, adjustment, mid)
          + Hits(TN, rows, adjustment, mid) + Hits(FN, rows, adjustment, mid) == Complete(rows)
    ensures Hits(TP, rows, adjustment, mid) + Hits(FN, rows, adjustment, mid) == Frauds(rows)
    ensures Hits(FP, rows, adjustment, mid) + Hits(TN, rows, adjustment, mid) == NonFrauds(rows)
  {
    if rows != [] {
      HitsPartition(rows[1..], adjustment, mid);
      var r := rows[0];
      assert Indicator(TP, r, adjustment, mid) + Indicator(FN, r, adjustment, mid)
        == (if r.isFraud == Some(true) && r.score.Some? then 1 else 0);
      assert Indicator(FP, r, adjustment, mid) + Indicator(TN, r, adjustment, mid)
        == (if r.isFraud == Some(false) && r.score.Some? then 1 else 0);
      if r.isFraud.Some? {
        if r.isFraud.value {
          assert r.isFraud == Some(true);
        } else {
          assert r.isFraud == Some(false);
        }
      }
    }
  }

  /** Raising the score adjustment only moves rows from negative to positive:
      tp and fp never fall. */
  lemma {:induction false} PositivesGrow(rows: seq<Scored>, a1: int, a2: int, mid: int)
    requires a1 <= a2
    ensures Hits(TP, rows, a1, mid) <= Hits(TP, rows, a2, mid)
    ensures Hits(FP, rows, a1, mid) <= Hits(FP, rows, a2, mid)
  {
    if rows != [] {
      PositivesGrow(rows[1..], a1, a2, mid);
    }
  }

  /** A rate with a zero guard: `num / den if den > 0 else 0`. */
  datatype Rate = Rate(num: nat, den: nat)

  function Guarded(num: nat, den: nat): (r: Rate)
    requires num <= den
    ensures r.den >= 1 && r.num <= r.den
    ensures den > 0 ==> r == Rate(num, den)
    ensures den == 0 ==> r.num == 0
  {
    if den > 0 then Rate(num, den) else Rate(0, 1)
  }

  /** The confusion counts of the filtered rows. */
  datatype Matrix = Matrix(tp: nat, fp: nat, tn: nat, fn: nat)

  function Confusion(rows: seq<Scored>, adjustment: int, mid: int): (m: Matrix)
    ensures m.tp + m.fn == Frauds(rows) && m.fp + m.tn == NonFrauds(rows)
    ensures m.tp + m.fp + m.tn + m.fn == Complete(rows)
  {
    CellsPartition(rows, adjustment, mid);
    Matrix(CellCount(TP, rows, adjustment, mid), CellCount(FP, rows, adjustment, mid),
           CellCount(TN, rows, adjustment, mid), CellCount(FN, rows, adjustment, mid))
  }

  /** recall = tp / (tp + fn), 0 when there is no fraud. */
  function Recall(m: Matrix): (r: Rate)
    ensures r.den >= 1 && r.num <= r.den
    ensures r.num == 0 <==> m.tp == 0
    ensures m.tp + m.fn > 0 ==> r == Rate(m.tp, m.tp + m.fn)
  {
    Guarded(m.tp, m.tp + m.fn)
  }

  /** fpr = fp / (fp + tn), 0 when there is no non-fraud. */
  function FalsePositiveRate(m: Matrix): (r: Rate)
    ensures r.den >= 1 && r.num <= r.den
    ensures r.num == 0 <==> m.fp == 0
    ensures m.fp + m.tn > 0 ==> r == Rate(m.fp, m.fp + m.tn)
  {
    Guarded(m.fp, m.fp + m.tn)
  }

  /** Over the same rows, a larger score adjustment gives a recall and a
      false-positive rate at least as large: the denominators stay, the
      numerators grow. */
  lemma RatesGrowWithAdjustment(rows: seq<Scored>, a1: int, a2: int, mid: int)
    requires a1 <= a2
    ensures Recall(Confusion(rows, a1, mid)).den == Recall(Confusion(rows, a2, mid)).den
    ensures Recall(Confusion(rows, a1, mid)).num <= Recall(Confusion(rows, a2, mid)).num
    ensures FalsePositiveRate(Confusion(rows, a1, mid)).den == FalsePositiveRate(Confusion(rows, a2, mid)).den
    ensures FalsePositiveRate(Confusion(rows, a1, mid)).num <= FalsePositiveRate(Confusion(rows, a2, mid)).num
  {
    CellsPartition(rows, a1, mid);
    CellsPartition(rows, a2, mid);
    CaseSumBounds(TP, rows, a1, mid);
    CaseSumBounds(TP, rows, a2, mid);
    CaseSumBounds(FP, rows, a1, mid);
    CaseSumBounds(FP, rows, a2, mid);
    PositivesGrow(rows, a1, a2, mid);
  }
}

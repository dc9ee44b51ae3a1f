/** The data model shared by every stage: timestamps, typed cells that may be
    null, rows keyed by column name, and frames (a column schema plus rows). */
module Table {
  import opened Wrappers

  /** An already-parsed date/time, field by field. */
  datatype DateTime = DateTime(year: int, month: int, day: int, hour: int, minute: int, second: int)

  predicate IsLeapYear(y: int) {
    (y % 4 == 0 && y % 100 != 0) || y % 400 == 0
  }

  function DaysInMonth(y: int, m: int): int
    requires 1 <= m <= 12
  {
    if m == 2 then (if IsLeapYear(y) then 29 else 28)
    else if m == 4 || m == 6 || m == 9 || m == 11 then 30
    else 31
  }

  predicate ValidDateTime(t: DateTime) {
    && 1 <= t.month <= 12
    && 1 <= t.day <= DaysInMonth(t.year, t.month)
    && 0 <= t.hour < 24 && 0 <= t.minute < 60 && 0 <= t.second < 60
  }

  /** Chronological order: `a <= b`. */
  predicate NotAfter(a: DateTime, b: DateTime) {
    if a.year != b.year then a.year < b.year
    else if a.month != b.month then a.month < b.month
    else if a.day != b.day then a.day < b.day
    else if a.hour != b.hour then a.hour < b.hour
    else if a.minute != b.minute then a.minute < b.minute
    else a.second <= b.second
  }

  /** `dt.truncate("1mo")` / `to_period("M").to_timestamp()`: the first
      instant of the month that contains `t`. */
  function MonthStart(t: DateTime): (r: DateTime)
    ensures ValidDateTime(t) ==> ValidDateTime(r) && NotAfter(r, t)
    ensures r.year == t.year && r.month == t.month
    ensures forall u :: ValidDateTime(u) && u.year == t.year && u.month == t.month ==> NotAfter(r, u)
  {
    DateTime(t.year, t.month, 1, 0, 0, 0)
  }

  /** `dt.floor("h")`: the first instant of the hour that contains `t`. */
  function HourStart(t: DateTime): (r: DateTime)
    ensures ValidDateTime(t) ==> ValidDateTime(r) && NotAfter(r, t)
    ensures r.year == t.year && r.month == t.month && r.day == t.day && r.hour == t.hour
    ensures forall u ::
      (ValidDateTime(u) && u.year == t.year && u.month == t.month && u.day == t.day && u.hour == t.hour)
      ==> NotAfter(r, u)
  {
    DateTime(t.year, t.month, t.day, t.hour, 0, 0)
  }

  /** `to_period("D").start_time`: the first instant of the day that contains `t`. */
  function DayStart(t: DateTime): (r: DateTime)
    ensures ValidDateTime(t) ==> ValidDateTime(r) && NotAfter(r, t)
    ensures r.year == t.year && r.month == t.month && r.day == t.day
    ensures forall u ::
      (ValidDateTime(u) && u.year == t.year && u.month == t.month && u.day == t.day)
      ==> NotAfter(r, u)
  {
    DateTime(t.year, t.month, t.day, 0, 0, 0)
  }

  /** A non-null cell value. SCORE and EVENT_VALUE are held as integers. */
  datatype Value = IntV(n: int) | StrV(s: string) | BoolV(b: bool) | TimeV(t: DateTime)

  /** A cell: None is null (NaN / NaT / None in the source). */
  type Cell = Option<Value>

  /** A row maps column names to cells; a name it lacks reads as null. */
  type Row = map<string, Cell>

  /** The semantic column types the readers infer. `Object` is pandas'
      mixed-object column (is_fraud before it is normalised). */
  datatype ColType = Numeric | Text | Boolean | Timestamp | Object

  datatype Column = Column(name: string, ty: ColType)

  datatype Frame = Frame(columns: seq<Column>, rows: seq<Row>)

  /** A pandas DataFrame, which the convert and dashboard code update in place
      (`df[col] = ...`, `dropna(inplace=True)`). */
  class DataFrame {
    var columns: seq<Column>
    var rows: seq<Row>

    constructor(f: Frame)
      ensures columns == f.columns && rows == f.rows
    {
      columns := f.columns;
      rows := f.rows;
    }

    function Value(): Frame
      reads this
    {
      Frame(columns, rows)
    }
  }

  function Get(row: Row, c: string): Cell {
    if c in row then row[c] else None
  }

  /** The column names, in schema order. */
  function Names(cols: seq<Column>): (r: seq<string>)
    ensures |r| == |cols|
  {
    if cols == [] then [] else [cols[0].name] + Names(cols[1..])
  }

  /** The type of the first column called `name`, if there is one. */
  function TypeOf(cols: seq<Column>, name: string): (r: Option<ColType>)
    ensures r.Some? <==> name in Names(cols)
  {
    if cols == [] then None
    else if cols[0].name == name then Some(cols[0].ty)
    else TypeOf(cols[1..], name)
  }

  predicate HasColumn(cols: seq<Column>, name: string) {
    TypeOf(cols, name).Some?
  }

  /** The names of `names` whose column has one of the types `tys`, in the
      order given. */
  function FilterByType(names: seq<string>, cols: seq<Column>, tys: set<ColType>): (r: seq<string>)
    ensures forall c :: c in r <==> c in names && TypeOf(cols, c).Some? && TypeOf(cols, c).value in tys
  {
    if names == [] then []
    else
      var rest := FilterByType(names[1..], cols, tys);
      assert forall c :: c in names <==> c == names[0] || c in names[1..];
      var t := TypeOf(cols, names[0]);
      if t.Some? && t.value in tys then [names[0]] + rest else rest
  }

  /** `pl.col(ty)` / `select_dtypes(include=[...])`: the columns whose type is
      one of `tys`, in schema order. */
  function NamesOfTypes(cols: seq<Column>, tys: set<ColType>): (r: seq<string>)
    ensures forall c :: c in r <==> TypeOf(cols, c).Some? && TypeOf(cols, c).value in tys
  {
    FilterByType(Names(cols), cols, tys)
  }

  function NamesOfType(cols: seq<Column>, ty: ColType): (r: seq<string>)
    ensures forall c :: c in r <==> TypeOf(cols, c) == Some(ty)
  {
    NamesOfTypes(cols, {ty})
  }

  /** `with_columns` / `df[name] = ...` on the schema: replace the type of an
      existing column in place, or append a new column at the end. */
  function WithColumn(cols: seq<Column>, name: string, ty: ColType): (r: seq<Column>)
    ensures TypeOf(r, name) == Some(ty)
    ensures forall d :: d != name ==> TypeOf(r, d) == TypeOf(cols, d)
    ensures Names(r) == if HasColumn(cols, name) then Names(cols) else Names(cols) + [name]
  {
    if cols == [] then [Column(name, ty)]
    else if cols[0].name == name then [Column(name, ty)] + cols[1..]
    else
      var rest := WithColumn(cols[1..], name, ty);
      var r := [cols[0]] + rest;
      assert r[1..] == rest;
      r
  }

  /** The cells of one column, top to bottom. */
  function ColumnCells(rows: seq<Row>, c: string): (r: seq<Cell>)
    ensures |r| == |rows| && forall i :: 0 <= i < |rows| ==> r[i] == Get(rows[i], c)
  {
    seq(|rows|, i requires 0 <= i < |rows| => Get(rows[i], c))
  }

  /** Overwrite one column with new cells, leaving every other column as it was. */
  function SetColumn(rows: seq<Row>, c: string, cells: seq<Cell>): (r: seq<Row>)
    requires |cells| == |rows|
    ensures |r| == |rows|
    ensures forall i :: 0 <= i < |rows| ==> Get(r[i], c) == cells[i]
    ensures forall i, d :: 0 <= i < |rows| && d != c ==> Get(r[i], d) == Get(rows[i], d)
  {
    seq(|rows|, i requires 0 <= i < |rows| => rows[i][c := cells[i]])
  }

  /** `fill_null(v)` / `fillna(v)` on a cell. */
  function FillNull(cell: Cell, v: Value): (r: Cell)
    ensures r.Some?
    ensures cell.Some? ==> r == cell
  {
    if cell.Some? then cell else Some(v)
  }

  /** `fillna(v)` on one column. */
  function FillColumn(rows: seq<Row>, c: string, v: Value): (r: seq<Row>)
    ensures |r| == |rows|
    ensures forall i :: 0 <= i < |rows| ==> Get(r[i], c) == FillNull(Get(rows[i], c), v)
    ensures forall i, d :: 0 <= i < |rows| && d != c ==> Get(r[i], d) == Get(rows[i], d)
  {
    SetColumn(rows, c, seq(|rows|, i requires 0 <= i < |rows| => FillNull(Get(rows[i], c), v)))
  }

  /** Every column of the schema is null in this row. */
  predicate AllNull(cols: seq<Column>, row: Row) {
    forall k :: 0 <= k < |cols| ==> Get(row, cols[k].name).None?
  }

  /** `filter(~all_horizontal(is_null))` / `dropna(how="all")`: keep the rows
      that have at least one non-null cell, in their order. */
  function DropAllNull(cols: seq<Column>, rows: seq<Row>): (r: seq<Row>)
    ensures |r| <= |rows|
    ensures forall i :: 0 <= i < |r| ==> r[i] in rows && !AllNull(cols, r[i])
    ensures forall i :: 0 <= i < |rows| && !AllNull(cols, rows[i]) ==> rows[i] in r
    ensures multiset(r) <= multiset(rows)
  {
    if rows == [] then []
    else
      var rest := DropAllNull(cols, rows[1..]);
      var r := if AllNull(cols, rows[0]) then rest else [rows[0]] + rest;
      DropStep(cols, rows, rest, r);
      r
  }

  /** One step of DropAllNull: what holds of the rest carries over to the
      whole, the first row kept unless it is all null. */
  lemma DropStep(cols: seq<Column>, rows: seq<Row>, rest: seq<Row>, r: seq<Row>)
    requires rows != []
    requires |rest| <= |rows[1..]|
    requires forall i :: 0 <= i < |rest| ==> rest[i] in rows[1..] && !AllNull(cols, rest[i])
    requires forall i :: 0 <= i < |rows[1..]| && !AllNull(cols, rows[1..][i]) ==> rows[1..][i] in rest
    requires multiset(rest) <= multiset(rows[1..])
    requires r == if AllNull(cols, rows[0]) then rest else [rows[0]] + rest
    ensures |r| <= |rows|
    ensures forall i :: 0 <= i < |r| ==> r[i] in rows && !AllNull(cols, r[i])
    ensures forall i :: 0 <= i < |rows| && !AllNull(cols, rows[i]) ==> rows[i] in r
    ensures multiset(r) <= multiset(rows)
  {
    assert rows == [rows[0]] + rows[1..];
    forall i | 0 <= i < |rows| && !AllNull(cols, rows[i]) ensures rows[i] in r {
      if i > 0 {
        assert rows[i] == rows[1..][i - 1];
      }
    }
  }

  /** A single row is kept iff some cell of it is non-null. */
  lemma DropAllNullOne(cols: seq<Column>, x: Row)
    ensures DropAllNull(cols, [x]) == if AllNull(cols, x) then [] else [x]
  {
    assert [x][1..] == [];
  }

  /** An all-null row is dropped every time it occurs, and any other row is
      kept as often as it occurs. */
  lemma {:induction false} DropAllNullCounts(cols: seq<Column>, rows: seq<Row>, x: Row)
    ensures multiset(DropAllNull(cols, rows))[x] == if AllNull(cols, x) then 0 else multiset(rows)[x]
  {
    if rows != [] {
      DropAllNullCounts(cols, rows[1..], x);
      assert rows == [rows[0]] + rows[1..];
    }
  }

  /** The positions of the rows that have a non-null cell, in increasing order. */
  function KeptIndices(cols: seq<Column>, rows: seq<Row>): (r: seq<nat>)
    ensures forall k :: 0 <= k < |r| ==> r[k] < |rows|
  {
    if rows == [] then []
    else
      var n := |rows| - 1;
      KeptIndices(cols, rows[..n]) + (if AllNull(cols, rows[n]) then [] else [n])
  }

  /** Dropping the all-null rows keeps the other rows in their order: the
      result is the input read at the increasing positions of the rows that
      have a non-null cell. */
  lemma DropAllNullAt(cols: seq<Column>, rows: seq<Row>)
    ensures var r := DropAllNull(cols, rows); var idx := KeptIndices(cols, rows);
      && |idx| == |r|
      && (forall k :: 0 <= k < |idx| ==> r[k] == rows[idx[k]])
      && Increasing(idx)
      && (forall i :: 0 <= i < |rows| ==> (i in idx <==> !AllNull(cols, rows[i])))
  {
    KeptRowsAt(cols, rows);
    KeptIndicesIncrease(cols, rows);
    KeptIndicesExact(cols, rows);
  }

  lemma {:induction false} KeptRowsAt(cols: seq<Column>, rows: seq<Row>)
    ensures var r := DropAllNull(cols, rows); var idx := KeptIndices(cols, rows);
      && |idx| == |r|
      && forall k :: 0 <= k < |idx| ==> r[k] == rows[idx[k]]
  {
    if rows != [] {
      var n := |rows| - 1;
      var front := rows[..n];
      KeptRowsAt(cols, front);
      assert rows == front + [rows[n]];
      DropAllNullConcat(cols, front, [rows[n]]);
      DropAllNullOne(cols, rows[n]);
      var pi := KeptIndices(cols, front);
      var pr := DropAllNull(cols, front);
      var idx := KeptIndices(cols, rows);
      var r := DropAllNull(cols, rows);
      forall k | 0 <= k < |idx| ensures r[k] == rows[idx[k]] {
        if k < |pi| {
          assert r[k] == pr[k] && idx[k] == pi[k];
          assert rows[pi[k]] == front[pi[k]];
        }
      }
    }
  }

  /** Strictly increasing positions. */
  predicate Increasing(s: seq<nat>) {
    forall k, l :: 0 <= k < l < |s| ==> s[k] < s[l]
  }

  lemma {:induction false} KeptIndicesIncrease(cols: seq<Column>, rows: seq<Row>)
    ensures Increasing(KeptIndices(cols, rows))
  {
    if rows != [] {
      var n := |rows| - 1;
      KeptIndicesIncrease(cols, rows[..n]);
      var pi := KeptIndices(cols, rows[..n]);
      var tail: seq<nat> := if AllNull(cols, rows[n]) then [] else [n];
      var idx := pi + tail;
      assert KeptIndices(cols, rows) == idx;
      forall k, l | 0 <= k < l < |idx| ensures idx[k] < idx[l] {
        if l < |pi| {
          assert idx[k] == pi[k] && idx[l] == pi[l] && pi[k] < pi[l];
        } else {
          assert tail == [n] && l == |pi|;
          assert idx[l] == n && idx[k] == pi[k] && pi[k] < |rows[..n]|;
        }
      }
    }
  }

  lemma {:induction false} KeptIndicesExact(cols: seq<Column>, rows: seq<Row>)
    ensures var idx := KeptIndices(cols, rows);
      forall i :: 0 <= i < |rows| ==> (i in idx <==> !AllNull(cols, rows[i]))
  {
    if rows != [] {
      var n := |rows| - 1;
      var front := rows[..n];
      KeptIndicesExact(cols, front);
      var pi := KeptIndices(cols, front);
      var tail: seq<nat> := if AllNull(cols, rows[n]) then [] else [n];
      assert KeptIndices(cols, rows) == pi + tail;
      forall i | 0 <= i < |rows| ensures i in pi + tail <==> !AllNull(cols, rows[i]) {
        if i < n {
          assert rows[i] == front[i];
          assert i !in tail;
        } else {
          assert n !in pi;
        }
      }
    }
  }



  lemma {:induction false} DropAllNullConcat(cols: seq<Column>, a: seq<Row>, b: seq<Row>)
    ensures DropAllNull(cols, a + b) == DropAllNull(cols, a) + DropAllNull(cols, b)
  {
    if a != [] {
      var ab := a + b;
      assert ab != [] && ab[0] == a[0] && ab[1..] == a[1..] + b;
      var ra := DropAllNull(cols, a[1..]);
      var rb := DropAllNull(cols, b);
      assert DropAllNull(cols, ab[1..]) == ra + rb by {
        DropAllNullConcat(cols, a[1..], b);
      }
      if !AllNull(cols, a[0]) {
        assert [a[0]] + (ra + rb) == ([a[0]] + ra) + rb;
      }
    } else {
      assert a + b == b;
    }
  }

  /** The integer held by a numeric cell (null and non-numbers read as 0). */
  function IntOf(cell: Cell): int {
    if cell.Some? && cell.value.IntV? then cell.value.n else 0
  }
}

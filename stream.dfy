/** `analyze_data_stream` (analyze_data_stream.py): a tar.gz archive is read
    member by member and line by line, without loading a whole file. The
    first `.tsv` member's header fixes the columns: every `numeric_` column
    is summed, and the values of `string_col_0` are counted. */
module Stream {
  import opened Wrappers
  import opened Text

  const NUMERIC_PREFIX := "numeric_"
  const CATEGORY := "string_col_0"

  /** An archive member; `lines` are its tab-separated lines, already split
      into fields by `csv.reader`, header first. */
  datatype Member = Member(name: string, isFile: bool, lines: seq<seq<string>>)

  datatype StreamError =
    | EmptyMember(name: string)    // `next(reader)` on a member with no line
    | NoCategoryColumn             // `header.index("string_col_0")`
    | ShortRow                     // `row[i]` past the end of the row
    | NotAnInteger(cell: string)   // `int(row[i])`

  /** What the first header fixes: the header itself, the positions of the
      `numeric_` columns in order, and the position of `string_col_0`. */
  datatype Plan = Plan(header: seq<string>, numeric: seq<nat>, category: nat)

  /** `total_rows`, the `numeric_sums` Counter, and the `category_counts`
      Counter (a multiset: each value counted as often as it was seen). */
  datatype Stats = Stats(totalRows: nat, numericSums: map<string, int>, categoryCounts: multiset<string>)

  /** The state between members: the plan, once a header has been read. */
  datatype State = State(plan: Option<Plan>, stats: Stats)

  /** Only regular files whose name ends in ".tsv" are read. */
  predicate IsRead(m: Member) {
    m.isFile && EndsWith(m.name, ".tsv")
  }

  /** `[i for i, col in enumerate(header) if col.startswith("numeric_")]`,
      from position `from` on. */
  function NumericIndices(header: seq<string>, from: nat): (r: seq<nat>)
    ensures forall i :: i in r <==> from <= i < |header| && StartsWith(header[i], NUMERIC_PREFIX)
    ensures forall k, l :: 0 <= k < l < |r| ==> r[k] < r[l]
    decreases |header| - from
  {
    if from >= |header| then []
    else
      var rest := NumericIndices(header, from + 1);
      assert forall k :: 0 <= k < |rest| ==> rest[k] in rest && rest[k] > from;
      if StartsWith(header[from], NUMERIC_PREFIX) then [from] + rest else rest
  }

  predicate ValidPlan(p: Plan) {
    && p.category < |p.header|
    && forall k :: 0 <= k < |p.numeric| ==> p.numeric[k] < |p.header|
  }

  /** The plan the first header gives (analyze_data_stream.py:34-41). */
  function PlanOf(header: seq<string>): (r: Result<Plan, StreamError>)
    ensures r.Err? <==> CATEGORY !in header
    ensures r.Ok? ==> ValidPlan(r.value) && r.value.header == header && header[r.value.category] == CATEGORY
  {
    var c := IndexOf(header, CATEGORY);
    var ns := NumericIndices(header, 0);
    assert forall k :: 0 <= k < |ns| ==> ns[k] in ns;
    if c.None? then Err(NoCategoryColumn)
    else Ok(Plan(header, ns, c.value))
  }

  /** `int(s)`: surrounding whitespace is ignored. */
  function IntCell(s: string): Option<int> {
    ParseInt(Strip(s))
  }

  /** A Counter read at a key it may lack. */
  function Get0(m: map<string, int>, k: string): int {
    if k in m then m[k] else 0
  }

  /** The numeric loop of analyze_data_stream.py:47-48 over the
      positions `idx`. */
  function AddNumbers(p: Plan, sums: map<string, int>, row: seq<string>, idx: seq<nat>): Result<map<string, int>, StreamError>
    requires forall k :: 0 <= k < |idx| ==> idx[k] < |p.header|
    decreases |idx|
  {
    if idx == [] then Ok(sums)
    else
      var i := idx[0];
      if i >= |row| then Err(ShortRow)
      else
        var v := IntCell(row[i]);
        if v.None? then Err(NotAnInteger(row[i]))
        else AddNumbers(p, sums[p.header[i] := Get0(sums, p.header[i]) + v.value], row, idx[1..])
  }

  lemma AddNumbersStep(p: Plan, sums: map<string, int>, row: seq<string>, idx: seq<nat>, i: nat, v: int)
    requires forall k :: 0 <= k < |idx| ==> idx[k] < |p.header|
    requires idx != [] && idx[0] == i && i < |row| && IntCell(row[i]) == Some(v)
    ensures AddNumbers(p, sums, row, idx)
         == AddNumbers(p, sums[p.header[i] := Get0(sums, p.header[i]) + v], row, idx[1..])
  {
  }

  /** One data row (analyze_data_stream.py:45-50). */
  function AddRow(p: Plan, s: Stats, row: seq<string>): Result<Stats, StreamError>
    requires ValidPlan(p)
  {
    var sums := AddNumbers(p, s.numericSums, row, p.numeric);
    if sums.Err? then Err(sums.error)
    else if p.category >= |row| then Err(ShortRow)
    else Ok(Stats(s.totalRows + 1, sums.value, s.categoryCounts + multiset{row[p.category]}))
  }

  /** All data rows of one member, in order; the first error stops the run. */
  function AddRows(p: Plan, s: Stats, rows: seq<seq<string>>): (r: Result<Stats, StreamError>)
    requires ValidPlan(p)
    ensures r.Ok? ==> r.value.totalRows == s.totalRows + |rows|
    ensures r.Ok? ==> |r.value.categoryCounts| - |s.categoryCounts| == |rows|
    decreases |rows|
  {
    if rows == [] then Ok(s)
    else
      var s1 := AddRow(p, s, rows[0]);
      if s1.Err? then s1 else AddRows(p, s1.value, rows[1..])
  }

  /** One archive member: skipped unless it is a `.tsv` file; its header
      line is read, and kept only when no header has been kept yet. */
  function Step(st: State, m: Member): Result<State, StreamError>
    requires st.plan.Some? ==> ValidPlan(st.plan.value)
  {
    if !IsRead(m) then Ok(st)
    else if m.lines == [] then Err(EmptyMember(m.name))
    else
      var p := if st.plan.Some? then Ok(st.plan.value) else PlanOf(m.lines[0]);
      if p.Err? then Err(p.error)
      else
        var s := AddRows(p.value, st.stats, m.lines[1..]);
        if s.Err? then Err(s.error) else Ok(State(Some(p.value), s.value))
  }

  /** The data rows of the members that are read. */
  function DataRows(ms: seq<Member>): nat {
    if ms == [] then 0
    else (if IsRead(ms[0]) && ms[0].lines != [] then |ms[0].lines| - 1 else 0) + DataRows(ms[1..])
  }

  /** Every member, in archive order. */
  function Run(st: State, ms: seq<Member>): (r: Result<State, StreamError>)
    requires st.plan.Some? ==> ValidPlan(st.plan.value)
    ensures r.Ok? ==> r.value.stats.totalRows == st.stats.totalRows + DataRows(ms)
    ensures r.Ok? ==> |r.value.stats.categoryCounts| - |st.stats.categoryCounts| == DataRows(ms)
    ensures r.Ok? ==> r.value.plan.Some? ==> ValidPlan(r.value.plan.value)
    decreases |ms|
  {
    if ms == [] then Ok(st)
    else
      var st1 := Step(st, ms[0]);
      if st1.Err? then st1 else Run(st1.value, ms[1..])
  }

  const Start := State(None, Stats(0, map[], multiset{}))

  /** The result of `analyze_data_stream`, before it is printed. */
  function AnalyzeSpec(ms: seq<Member>): (r: Result<Stats, StreamError>)
    ensures r.Ok? ==> r.value.totalRows == DataRows(ms)
    ensures r.Ok? ==> |r.value.categoryCounts| == r.value.totalRows
  {
    var r := Run(Start, ms);
    if r.Err? then Err(r.error) else Ok(r.value.stats)
  }

  /** The numeric loop of analyze_data_stream.py:47-48 for one row. */
  method AddRowNumbers(p: Plan, sums0: map<string, int>, row: seq<string>) returns (r: Result<map<string, int>, StreamError>)
    requires ValidPlan(p)
    ensures r == AddNumbers(p, sums0, row, p.numeric)
  {
    var sums := sums0;
    ghost var rest := p.numeric;
    for t := 0 to |p.numeric|
      invariant rest == p.numeric[t..]
      invariant forall k :: 0 <= k < |rest| ==> rest[k] < |p.header|
      invariant AddNumbers(p, sums0, row, p.numeric) == AddNumbers(p, sums, row, rest)
    {
      var i := p.numeric[t];
      if i >= |row| {
        return Err(ShortRow);
      }
      var v := IntCell(row[i]);
      if v.None? {
        return Err(NotAnInteger(row[i]));
      }
      AddNumbersStep(p, sums, row, rest, i, v.value);
      sums := sums[p.header[i] := Get0(sums, p.header[i]) + v.value];
      rest := rest[1..];
    }
    r := Ok(sums);
  }

  /** Folding rows starts with the first one. */
  lemma AddRowsCons(p: Plan, s: Stats, rows: seq<seq<string>>)
    requires ValidPlan(p) && rows != []
    ensures AddRows(p, s, rows) ==
      if AddRow(p, s, rows[0]).Err? then AddRow(p, s, rows[0]) else AddRows(p, AddRow(p, s, rows[0]).value, rows[1..])
  {
  }

  /** The row loop of analyze_data_stream.py:44-50 over one member's lines
      after its header. */
  method AddMemberRows(p: Plan, s: Stats, lines: seq<seq<string>>) returns (r: Result<Stats, StreamError>)
    requires ValidPlan(p)
    requires |lines| >= 1
    ensures r == AddRows(p, s, lines[1..])
  {
    var stats := s;
    for j := 1 to |lines|
      invariant AddRows(p, s, lines[1..]) == AddRows(p, stats, lines[j..])
    {
      assert lines[j..][0] == lines[j] && lines[j..][1..] == lines[j + 1..];
      AddRowsCons(p, stats, lines[j..]);
      var next := AddOneRow(p, stats, lines[j]);
      if next.Err? {
        return next;
      }
      stats := next.value;
    }
    assert lines[|lines|..] == [];
    r := Ok(stats);
  }

  /** The body of the row loop: count the row, add its numbers and its
      category, or stop at the first cell that is missing or not an integer. */
  method AddOneRow(p: Plan, s: Stats, row: seq<string>) returns (r: Result<Stats, StreamError>)
    requires ValidPlan(p)
    ensures r == AddRow(p, s, row)
  {
    var totalRows := s.totalRows + 1;
    var sums := AddRowNumbers(p, s.numericSums, row);
    if sums.Err? {
      return Err(sums.error);
    }
    if p.category >= |row| {
      return Err(ShortRow);
    }
    r := Ok(Stats(totalRows, sums.value, s.categoryCounts + multiset{row[p.category]}));
  }


  /** The streaming loops of analyze_data_stream.py:22-50. */
  method AnalyzeDataStream(members: seq<Member>) returns (r: Result<Stats, StreamError>)
    ensures r == AnalyzeSpec(members)
  {
    var totalRows: nat := 0;
    var numericSums: map<string, int> := map[];
    var categoryCounts: multiset<string> := multiset{};
    var plan: Option<Plan> := None;
    for k := 0 to |members|
      invariant plan.Some? ==> ValidPlan(plan.value)
      invariant Run(Start, members) == Run(State(plan, Stats(totalRows, numericSums, categoryCounts)), members[k..])
    {
      var m := members[k];
      assert members[k..][0] == m && members[k..][1..] == members[k + 1..];
      if m.isFile && EndsWith(m.name, ".tsv") {
        if |m.lines| == 0 {
          return Err(EmptyMember(m.name));
        }
        var currentHeader := m.lines[0];
        if plan.None? {
          var c := IndexOf(currentHeader, CATEGORY);
          if c.None? {
            return Err(NoCategoryColumn);
          }
          plan := Some(Plan(currentHeader, NumericIndices(currentHeader, 0), c.value));
        }
        var p := plan.value;
        var added := AddMemberRows(p, Stats(totalRows, numericSums, categoryCounts), m.lines);
        if added.Err? {
          return Err(added.error);
        }
        totalRows, numericSums, categoryCounts := added.value.totalRows, added.value.numericSums, added.value.categoryCounts;
      }
    }
    r := Ok(Stats(totalRows, numericSums, categoryCounts));
  }

  // ---------------------------------------------------------------------
  // What the fold computes, stated row by row.

  /** The numbers row `row` adds to column `c` at the positions `idx`. */
  function RowTotal(p: Plan, row: seq<string>, idx: seq<nat>, c: string): int
    requires forall k :: 0 <= k < |idx| ==> idx[k] < |p.header|
  {
    if idx == [] then 0
    else
      (if idx[0] < |row| && p.header[idx[0]] == c then IntCell(row[idx[0]]).GetOr(0) else 0)
        + RowTotal(p, row, idx[1..], c)
  }

  /** `sum(int(row[i]) for row in rows for i in numeric if header[i] == c)`. */
  function ColumnTotal(p: Plan, rows: seq<seq<string>>, c: string): int
    requires ValidPlan(p)
  {
    if rows == [] then 0 else RowTotal(p, rows[0], p.numeric, c) + ColumnTotal(p, rows[1..], c)
  }

  /** The `string_col_0` cell of every row, as a multiset. */
  function Categories(p: Plan, rows: seq<seq<string>>): multiset<string> {
    if rows == [] then multiset{}
    else (if p.category < |rows[0]| then multiset{rows[0][p.category]} else multiset{}) + Categories(p, rows[1..])
  }

  /** The data rows of the members that are read, in archive order. */
  function ReadRows(ms: seq<Member>): seq<seq<string>> {
    if ms == [] then []
    else (if IsRead(ms[0]) && ms[0].lines != [] then ms[0].lines[1..] else []) + ReadRows(ms[1..])
  }

  /** The first member that is read. */
  function FirstRead(ms: seq<Member>): Option<Member> {
    if ms == [] then None else if IsRead(ms[0]) then Some(ms[0]) else FirstRead(ms[1..])
  }

  lemma {:induction false} ColumnTotalConcat(p: Plan, a: seq<seq<string>>, b: seq<seq<string>>, c: string)
    requires ValidPlan(p)
    ensures ColumnTotal(p, a + b, c) == ColumnTotal(p, a, c) + ColumnTotal(p, b, c)
  {
    if a == [] {
      assert a + b == b;
    } else {
      assert (a + b)[1..] == a[1..] + b;
      ColumnTotalConcat(p, a[1..], b, c);
    }
  }

  lemma {:induction false} CategoriesConcat(p: Plan, a: seq<seq<string>>, b: seq<seq<string>>)
    ensures Categories(p, a + b) == Categories(p, a) + Categories(p, b)
  {
    if a == [] {
      assert a + b == b;
    } else {
      assert (a + b)[1..] == a[1..] + b;
      CategoriesConcat(p, a[1..], b);
    }
  }

  /** One row adds its own numbers to the Counter, column by column. */
  lemma {:induction false} AddNumbersTotal(p: Plan, sums: map<string, int>, row: seq<string>, idx: seq<nat>, c: string)
    requires forall k :: 0 <= k < |idx| ==> idx[k] < |p.header|
    requires AddNumbers(p, sums, row, idx).Ok?
    ensures Get0(AddNumbers(p, sums, row, idx).value, c) == Get0(sums, c) + RowTotal(p, row, idx, c)
    decreases |idx|
  {
    if idx != [] {
      var i := idx[0];
      var v := IntCell(row[i]).value;
      AddNumbersTotal(p, sums[p.header[i] := Get0(sums, p.header[i]) + v], row, idx[1..], c);
    }
  }

  /** A member's rows add their numbers and their categories. */
  lemma {:induction false} AddRowsTotal(p: Plan, s: Stats, rows: seq<seq<string>>)
    requires ValidPlan(p) && AddRows(p, s, rows).Ok?
    ensures forall c :: Get0(AddRows(p, s, rows).value.numericSums, c) == Get0(s.numericSums, c) + ColumnTotal(p, rows, c)
    ensures AddRows(p, s, rows).value.categoryCounts == s.categoryCounts + Categories(p, rows)
    decreases |rows|
  {
    if rows != [] {
      var s1 := AddRow(p, s, rows[0]).value;
      forall c ensures Get0(s1.numericSums, c) == Get0(s.numericSums, c) + RowTotal(p, rows[0], p.numeric, c) {
        AddNumbersTotal(p, s.numericSums, rows[0], p.numeric, c);
      }
      AddRowsTotal(p, s1, rows[1..]);
    }
  }

  /** Once a plan is fixed, every later member is read with it: its own
      header line is read and dropped, and its rows add to the totals. */
  lemma {:induction false} RunWithPlan(p: Plan, s: Stats, ms: seq<Member>)
    requires ValidPlan(p) && Run(State(Some(p), s), ms).Ok?
    ensures var r := Run(State(Some(p), s), ms).value;
      && r.plan == Some(p)
      && (forall c :: Get0(r.stats.numericSums, c) == Get0(s.numericSums, c) + ColumnTotal(p, ReadRows(ms), c))
      && r.stats.categoryCounts == s.categoryCounts + Categories(p, ReadRows(ms))
    decreases |ms|
  {
    if ms != [] {
      var m := ms[0];
      var own := if IsRead(m) && m.lines != [] then m.lines[1..] else [];
      var st1 := Step(State(Some(p), s), m).value;
      if IsRead(m) {
        AddRowsTotal(p, s, m.lines[1..]);
      }
      assert st1.plan == Some(p);
      assert forall c :: Get0(st1.stats.numericSums, c) == Get0(s.numericSums, c) + ColumnTotal(p, own, c);
      assert st1.stats.categoryCounts == s.categoryCounts + Categories(p, own);
      RunWithPlan(p, st1.stats, ms[1..]);
      CategoriesConcat(p, own, ReadRows(ms[1..]));
      forall c ensures ColumnTotal(p, ReadRows(ms), c) == ColumnTotal(p, own, c) + ColumnTotal(p, ReadRows(ms[1..]), c) {
        ColumnTotalConcat(p, own, ReadRows(ms[1..]), c);
      }
    }
  }

  /** Before the first `.tsv` member nothing is counted; that member's header
      fixes the plan, and from then on every read row adds its numbers and its
      category: `numeric_sums[c]` is the sum of column `c` over all rows read,
      and `category_counts` counts the `string_col_0` cell of every row. */
  lemma StreamTotals(ms: seq<Member>)
    requires Run(Start, ms).Ok?
    ensures var r := Run(Start, ms).value;
      && (r.plan.None? <==> FirstRead(ms).None?)
      && (r.plan.None? ==> r.stats == Start.stats && ReadRows(ms) == [])
      && (r.plan.Some? ==>
            && FirstRead(ms).value.lines != []
            && PlanOf(FirstRead(ms).value.lines[0]) == Ok(r.plan.value)
            && (forall c :: Get0(r.stats.numericSums, c) == ColumnTotal(r.plan.value, ReadRows(ms), c))
            && r.stats.categoryCounts == Categories(r.plan.value, ReadRows(ms)))
  {
    RunFromStart(ms);
  }

  lemma {:induction false} RunFromStart(ms: seq<Member>)
    requires Run(Start, ms).Ok?
    ensures var r := Run(Start, ms).value;
      && (r.plan.None? <==> FirstRead(ms).None?)
      && (r.plan.None? ==> r.stats == Start.stats && ReadRows(ms) == [])
      && (r.plan.Some? ==>
            && FirstRead(ms).value.lines != []
            && PlanOf(FirstRead(ms).value.lines[0]) == Ok(r.plan.value)
            && (forall c :: Get0(r.stats.numericSums, c) == ColumnTotal(r.plan.value, ReadRows(ms), c))
            && r.stats.categoryCounts == Categories(r.plan.value, ReadRows(ms)))
    decreases |ms|
  {
    if ms != [] {
      var m := ms[0];
      if !IsRead(m) {
        assert Run(Start, ms) == Run(Start, ms[1..]);
        assert ReadRows(ms) == ReadRows(ms[1..]);
        assert FirstRead(ms) == FirstRead(ms[1..]);
        RunFromStart(ms[1..]);
      } else {
        var p := PlanOf(m.lines[0]).value;
        var rows := m.lines[1..];
        var s1 := AddRows(p, Start.stats, rows).value;
        AddRowsTotal(p, Start.stats, rows);
        RunWithPlan(p, s1, ms[1..]);
        CategoriesConcat(p, rows, ReadRows(ms[1..]));
        forall c ensures ColumnTotal(p, ReadRows(ms), c) == ColumnTotal(p, rows, c) + ColumnTotal(p, ReadRows(ms[1..]), c) {
          ColumnTotalConcat(p, rows, ReadRows(ms[1..]), c);
        }
      }
    }
  }

  /** A member that is not a regular `.tsv` file (a `.txt` file, a
      directory) changes nothing, wherever it sits in the archive. */
  lemma {:induction false} SkippedMember(st: State, a: seq<Member>, m: Member, b: seq<Member>)
    requires st.plan.Some? ==> ValidPlan(st.plan.value)
    requires !IsRead(m)
    ensures Run(st, a + [m] + b) == Run(st, a + b)
    decreases |a|
  {
    if a == [] {
      assert a + [m] + b == [m] + b && ([m] + b)[1..] == b && a + b == b;
    } else {
      assert (a + [m] + b)[1..] == a[1..] + [m] + b;
      assert (a + b)[1..] == a[1..] + b;
      assert (a + [m] + b)[0] == a[0] && (a + b)[0] == a[0];
      var st1 := Step(st, a[0]);
      if st1.Ok? {
        SkippedMember(st1.value, a[1..], m, b);
      }
    }
  }
}

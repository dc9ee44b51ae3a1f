/** The hour-by-hour rule report, computed two ways. analyze_in_chunks.py
    reads the raw file in chunks, summarises each chunk per hour and folds
    the summaries into a running total with `DataFrame.add(fill_value=0)`;
    analyze_hourly_rules.py groups the already expanded file
    (expand_hit_rules.py) in one pass. Both end in the same report: per hour
    the 取引量 (row count) and, for every rule column, its ヒット数 (hits)
    and ヒット率 (hits ÷ 取引量). */
module Hourly {
  import opened Wrappers
  import opened Text
  import opened Table
  import LexOrder
  import Expand

  const EVENT_TIME := "EVENT_TIME"
  const VOLUME := "取引量"
  const RULE_PREFIX := "ルール"
  const HITS := "ヒット数"
  const RATE := "ヒット率"

  /** `dt.floor("h")` of EVENT_TIME; a null cell, or text `pd.to_datetime`
      reads as NaT, has no hour, and `groupby` leaves such rows out. Text
      that is not a timestamp makes `pd.to_datetime` raise instead: see
      `Unparseable`. */
  function HourOf(row: Row): Option<DateTime> {
    var c := Get(row, EVENT_TIME);
    if c.Some? && c.value.TimeV? then Some(HourStart(c.value.t)) else None
  }

  /** The texts `pd.to_datetime` reads as NaT: the empty string (a blank
      cell under `keep_default_na=False`) and the spellings of NaN and NaT. */
  predicate IsNaTText(s: string) {
    s == "" || s == "NaT" || s == "nat" || s == "NAT" || s == "nan" || s == "NaN" || s == "NAN"
  }

  /** An EVENT_TIME cell that `pd.to_datetime`, with its default
      `errors="raise"`, rejects: text that is not a timestamp (a timestamp
      is a TimeV cell) or a boolean. */
  predicate Unparseable(row: Row) {
    var c := Get(row, EVENT_TIME);
    c.Some? && ((c.value.StrV? && !IsNaTText(c.value.s)) || c.value.BoolV?)
  }

  /** Every EVENT_TIME cell of `rows` converts. */
  predicate AllParse(rows: seq<Row>) {
    forall r :: r in rows ==> !Unparseable(r)
  }

  /** The hours that occur in `rows`. */
  function Hours(rows: seq<Row>): set<DateTime> {
    set i | 0 <= i < |rows| && HourOf(rows[i]).Some? :: HourOf(rows[i]).value
  }

  /** Whether a row adds one to column `c` of hour `h`: 取引量 counts every
      row of the hour, a token column the rows whose hit_rule holds it. */
  predicate CountsFor(row: Row, h: DateTime, c: string) {
    HourOf(row) == Some(h) && (c == VOLUME || c in Expand.Tokens(Expand.HitRule(row)))
  }

  /** The value of column `c` at hour `h` when `rows` are summarised
      together. */
  function Count(rows: seq<Row>, h: DateTime, c: string): nat {
    if rows == [] then 0
    else (if CountsFor(rows[0], h, c) then 1 else 0) + Count(rows[1..], h, c)
  }

  lemma {:induction false} CountConcat(a: seq<Row>, b: seq<Row>, h: DateTime, c: string)
    ensures Count(a + b, h, c) == Count(a, h, c) + Count(b, h, c)
  {
    if a == [] {
      assert a + b == b;
    } else {
      assert (a + b)[1..] == a[1..] + b;
      CountConcat(a[1..], b, h, c);
    }
  }

  /** Hits never exceed the hour's 取引量. */
  lemma {:induction false} CountWithinVolume(rows: seq<Row>, h: DateTime, c: string)
    ensures Count(rows, h, c) <= Count(rows, h, VOLUME)
  {
    if rows != [] {
      CountWithinVolume(rows[1..], h, c);
    }
  }

  /** An hour that occurs has at least one row, so its 取引量 is never 0. */
  lemma {:induction false} VolumePositive(rows: seq<Row>, h: DateTime)
    requires h in Hours(rows)
    ensures Count(rows, h, VOLUME) >= 1
  {
    if HourOf(rows[0]) != Some(h) {
      var i :| 0 <= i < |rows| && HourOf(rows[i]).Some? && HourOf(rows[i]).value == h;
      assert rows[1..][i - 1] == rows[i];
      VolumePositive(rows[1..], h);
    }
  }

  /** Outside the hours and the token columns that occur, every count is 0. */
  lemma {:induction false} CountOutside(rows: seq<Row>, h: DateTime, c: string)
    requires h !in Hours(rows) || (c != VOLUME && c !in Expand.AllTokens(rows))
    ensures Count(rows, h, c) == 0
  {
    if rows != [] {
      assert h !in Hours(rows) ==> h !in Hours(rows[1..]) by {
        if h in Hours(rows[1..]) {
          var i :| 0 <= i < |rows[1..]| && HourOf(rows[1..][i]).Some? && HourOf(rows[1..][i]).value == h;
          assert rows[1..][i] == rows[i + 1];
        }
      }
      assert c !in Expand.AllTokens(rows) ==> c !in Expand.AllTokens(rows[1..]) by {
        if c in Expand.AllTokens(rows[1..]) {
          var i :| 0 <= i < |rows[1..]| && c in Expand.Tokens(Expand.HitRule(rows[1..][i]));
          assert rows[1..][i] == rows[i + 1];
        }
      }
      assert HourOf(rows[0]).Some? ==> HourOf(rows[0]).value in Hours(rows);
      assert 0 < |rows|;
      CountOutside(rows[1..], h, c);
    }
  }

  /** Counts do not depend on the order of the rows. */
  lemma {:induction false} CountPermutation(a: seq<Row>, b: seq<Row>, h: DateTime, c: string)
    requires multiset(a) == multiset(b)
    ensures Count(a, h, c) == Count(b, h, c)
    decreases |a|
  {
    if a == [] {
      assert |b| == |multiset(b)| == 0;
    } else {
      assert a[0] in multiset(b) by {
        assert a[0] in multiset(a);
      }
      var i :| 0 <= i < |b| && b[i] == a[0];
      RemoveAt(a, b, i);
      CountRemoveAt(b, i, h, c);
      CountPermutation(a[1..], b[..i] + b[i + 1..], h, c);
    }
  }

  /** Taking the first element off one side and the same element off the
      other keeps two permutations permutations. */
  lemma RemoveAt<T>(a: seq<T>, b: seq<T>, i: int)
    requires multiset(a) == multiset(b) && a != [] && 0 <= i < |b| && b[i] == a[0]
    ensures multiset(a[1..]) == multiset(b[..i] + b[i + 1..])
  {
    assert b == b[..i] + [b[i]] + b[i + 1..];
    assert multiset(b[..i] + b[i + 1..]) == multiset(b) - multiset{b[i]};
    assert a == [a[0]] + a[1..];
  }

  lemma CountRemoveAt(b: seq<Row>, i: int, h: DateTime, c: string)
    requires 0 <= i < |b|
    ensures Count(b, h, c) == (if CountsFor(b[i], h, c) then 1 else 0) + Count(b[..i] + b[i + 1..], h, c)
  {
    var tail := [b[i]] + b[i + 1..];
    assert b == b[..i] + tail;
    assert tail[1..] == b[i + 1..];
    CountConcat(b[..i], tail, h, c);
    CountConcat(b[..i], b[i + 1..], h, c);
  }

  // ---------------------------------------------------------------------
  // A summary table: hours × columns, where a missing cell is NaN.

  datatype Grid = Grid(hours: set<DateTime>, cols: set<string>, cells: map<(DateTime, string), int>)

  /** A cell read with NaN as 0. */
  function At(g: Grid, h: DateTime, c: string): int {
    if (h, c) in g.cells then g.cells[(h, c)] else 0
  }

  /** No NaN anywhere in the table, so `astype(int)` succeeds. */
  predicate Complete(g: Grid) {
    forall h, c :: h in g.hours && c in g.cols ==> (h, c) in g.cells
  }

  /** Every cell lies in a row and a column of the table. */
  predicate Bounded(g: Grid) {
    forall p :: p in g.cells ==> p.0 in g.hours && p.1 in g.cols
  }

  /** One chunk's `groupby("time_hour").sum()` of the indicator columns, with
      the group `size()` as 取引量 (analyze_in_chunks.py:25-39). */
  function ChunkSummary(chunk: seq<Row>): (r: Grid)
    ensures Complete(r) && Bounded(r)
    ensures r.hours == Hours(chunk) && r.cols == Expand.AllTokens(chunk) + {VOLUME}
  {
    var hs := Hours(chunk);
    var cs := Expand.AllTokens(chunk) + {VOLUME};
    Grid(hs, cs, map h, c | h in hs && c in cs :: (h, c) := Count(chunk, h, c))
  }

  /** Every cell of a chunk's summary, read with NaN as 0, is the count of
      the chunk's rows. */
  lemma ChunkSummaryAt(chunk: seq<Row>)
    ensures forall h, c :: At(ChunkSummary(chunk), h, c) == Count(chunk, h, c)
  {
    forall h, c ensures At(ChunkSummary(chunk), h, c) == Count(chunk, h, c) {
      if h !in Hours(chunk) || c !in Expand.AllTokens(chunk) + {VOLUME} {
        CountOutside(chunk, h, c);
      }
    }
  }

  /** `a.add(b, fill_value=0)`: rows and columns are united; a cell is a
      number when either side has one there (the missing side counting as 0)
      and stays NaN when neither has. */
  function AddFill(a: Grid, b: Grid): (r: Grid)
    ensures r.hours == a.hours + b.hours && r.cols == a.cols + b.cols
    ensures forall p :: p in r.cells <==> p in a.cells || p in b.cells
    ensures forall h, c :: At(r, h, c) == At(a, h, c) + At(b, h, c)
    ensures Bounded(a) && Bounded(b) ==> Bounded(r)
  {
    Grid(a.hours + b.hours, a.cols + b.cols,
         map p | p in a.cells.Keys + b.cells.Keys :: At(a, p.0, p.1) + At(b, p.0, p.1))
  }

  /** `fillna(0)`: every NaN cell of the table becomes 0. */
  function FillZero(g: Grid): (r: Grid)
    ensures Complete(r) && Bounded(r)
    ensures r.hours == g.hours && r.cols == g.cols
    ensures forall h, c :: h in g.hours && c in g.cols ==> At(r, h, c) == At(g, h, c)
  {
    Grid(g.hours, g.cols, map h, c | h in g.hours && c in g.cols :: (h, c) := At(g, h, c))
  }

  /** The rows of all chunks, in file order. */
  function Flatten(chunks: seq<seq<Row>>): seq<Row> {
    if chunks == [] then [] else Flatten(chunks[..|chunks| - 1]) + chunks[|chunks| - 1]
  }

  /** The running total after the given chunks (analyze_in_chunks.py:12, 42). */
  function Accumulate(chunks: seq<seq<Row>>): Grid {
    if chunks == [] then Grid({}, {}, map[])
    else AddFill(Accumulate(chunks[..|chunks| - 1]), ChunkSummary(chunks[|chunks| - 1]))
  }

  lemma {:induction false} HoursConcat(a: seq<Row>, b: seq<Row>)
    ensures Hours(a + b) == Hours(a) + Hours(b)
  {
    var ab := a + b;
    forall h | h in Hours(ab) ensures h in Hours(a) + Hours(b) {
      var i :| 0 <= i < |ab| && HourOf(ab[i]).Some? && HourOf(ab[i]).value == h;
      if i < |a| { assert ab[i] == a[i]; } else { assert ab[i] == b[i - |a|]; }
    }
    forall h | h in Hours(a) + Hours(b) ensures h in Hours(ab) {
      if h in Hours(a) {
        var i :| 0 <= i < |a| && HourOf(a[i]).Some? && HourOf(a[i]).value == h;
        assert ab[i] == a[i];
      } else {
        var i :| 0 <= i < |b| && HourOf(b[i]).Some? && HourOf(b[i]).value == h;
        assert ab[|a| + i] == b[i];
      }
    }
  }

  lemma {:induction false} TokensConcat(a: seq<Row>, b: seq<Row>)
    ensures Expand.AllTokens(a + b) == Expand.AllTokens(a) + Expand.AllTokens(b)
  {
    var ab := a + b;
    forall t | t in Expand.AllTokens(ab) ensures t in Expand.AllTokens(a) + Expand.AllTokens(b) {
      var i :| 0 <= i < |ab| && t in Expand.Tokens(Expand.HitRule(ab[i]));
      if i < |a| { assert ab[i] == a[i]; } else { assert ab[i] == b[i - |a|]; }
    }
    forall t | t in Expand.AllTokens(a) + Expand.AllTokens(b) ensures t in Expand.AllTokens(ab) {
      if t in Expand.AllTokens(a) {
        var i :| 0 <= i < |a| && t in Expand.Tokens(Expand.HitRule(a[i]));
        assert ab[i] == a[i];
      } else {
        var i :| 0 <= i < |b| && t in Expand.Tokens(Expand.HitRule(b[i]));
        assert ab[|a| + i] == b[i];
      }
    }
  }

  /** The running total, read with NaN as 0, holds the counts of every row
      read so far, over the hours and tokens seen so far. */
  lemma {:induction false} AccumulateTotals(chunks: seq<seq<Row>>)
    ensures var g := Accumulate(chunks);
      && Bounded(g)
      && g.hours == Hours(Flatten(chunks))
      && g.cols == (if chunks == [] then {} else Expand.AllTokens(Flatten(chunks)) + {VOLUME})
      && forall h, c :: At(g, h, c) == Count(Flatten(chunks), h, c)
  {
    if chunks != [] {
      var init := chunks[..|chunks| - 1];
      var last := chunks[|chunks| - 1];
      AccumulateTotals(init);
      HoursConcat(Flatten(init), last);
      TokensConcat(Flatten(init), last);
      ChunkSummaryAt(last);
      forall h, c ensures At(Accumulate(chunks), h, c) == Count(Flatten(chunks), h, c) {
        CountConcat(Flatten(init), last, h, c);
      }
      if init == [] {
        assert Flatten(init) == [];
        assert Flatten(chunks) == last;
      }
    } else {
      assert Flatten(chunks) == [];
    }
  }

  /** With NaN read as 0, folding the chunk summaries gives exactly the
      summary of the whole file taken as one chunk. */
  lemma FoldIsWholeFile(chunks: seq<seq<Row>>)
    requires chunks != []
    ensures FillZero(Accumulate(chunks)) == ChunkSummary(Flatten(chunks))
  {
    var g := Accumulate(chunks);
    var rows := Flatten(chunks);
    assert g.hours == Hours(rows) && g.cols == Expand.AllTokens(rows) + {VOLUME}
      && forall h, c :: At(g, h, c) == Count(rows, h, c) by {
      AccumulateTotals(chunks);
    }
    var a := FillZero(g);
    var b := ChunkSummary(rows);
    forall h, c | h in a.hours && c in a.cols ensures At(a, h, c) == At(b, h, c) {
      assert At(a, h, c) == At(g, h, c);
    }
    GridsAgree(a, b);
  }

  /** Two complete, bounded grids over the same hours and columns that
      agree at every cell are the same grid. */
  lemma GridsAgree(a: Grid, b: Grid)
    requires Complete(a) && Bounded(a) && Complete(b) && Bounded(b)
    requires a.hours == b.hours && a.cols == b.cols
    requires forall h, c :: h in a.hours && c in a.cols ==> At(a, h, c) == At(b, h, c)
    ensures a == b
  {
    forall p | p in a.cells ensures p in b.cells && a.cells[p] == b.cells[p] {
      assert At(a, p.0, p.1) == At(b, p.0, p.1);
    }
    forall p | p in b.cells ensures p in a.cells {
      assert p.0 in a.hours && p.1 in a.cols;
    }
    assert a.cells == b.cells;
  }

  /** The summary of a set of rows does not depend on their order. */
  lemma SummaryPermutation(a: seq<Row>, b: seq<Row>)
    requires multiset(a) == multiset(b)
    ensures ChunkSummary(a) == ChunkSummary(b)
  {
    SameMembers(a, b);
    SameMembersHours(a, b);
    SameMembersTokens(a, b);
    forall h, c ensures Count(a, h, c) == Count(b, h, c) {
      CountPermutation(a, b, h, c);
    }
    SameCountsSameSummary(a, b);
  }

  lemma SameMembers<T>(a: seq<T>, b: seq<T>)
    requires multiset(a) == multiset(b)
    ensures forall x :: x in a <==> x in b
  {
    forall x ensures x in a <==> x in b {
      assert x in a <==> x in multiset(a);
      assert x in b <==> x in multiset(b);
    }
  }

  lemma SameMembersHours(a: seq<Row>, b: seq<Row>)
    requires forall x :: x in a <==> x in b
    ensures Hours(a) == Hours(b)
  {
    forall h | h in Hours(a) ensures h in Hours(b) {
      var i :| 0 <= i < |a| && HourOf(a[i]).Some? && HourOf(a[i]).value == h;
      assert a[i] in b;
    }
    forall h | h in Hours(b) ensures h in Hours(a) {
      var i :| 0 <= i < |b| && HourOf(b[i]).Some? && HourOf(b[i]).value == h;
      assert b[i] in a;
    }
  }

  lemma SameMembersTokens(a: seq<Row>, b: seq<Row>)
    requires forall x :: x in a <==> x in b
    ensures Expand.AllTokens(a) == Expand.AllTokens(b)
  {
    forall t | t in Expand.AllTokens(a) ensures t in Expand.AllTokens(b) {
      var i :| 0 <= i < |a| && t in Expand.Tokens(Expand.HitRule(a[i]));
      assert a[i] in b;
    }
    forall t | t in Expand.AllTokens(b) ensures t in Expand.AllTokens(a) {
      var i :| 0 <= i < |b| && t in Expand.Tokens(Expand.HitRule(b[i]));
      assert b[i] in a;
    }
  }

  lemma SameCountsSameSummary(a: seq<Row>, b: seq<Row>)
    requires Hours(a) == Hours(b) && Expand.AllTokens(a) == Expand.AllTokens(b)
    requires forall h, c :: Count(a, h, c) == Count(b, h, c)
    ensures ChunkSummary(a) == ChunkSummary(b)
  {
    var ga := ChunkSummary(a);
    var gb := ChunkSummary(b);
    forall h, c | h in ga.hours && c in ga.cols ensures At(ga, h, c) == At(gb, h, c) {
      assert At(ga, h, c) == Count(a, h, c) && At(gb, h, c) == Count(b, h, c);
    }
    GridsAgree(ga, gb);
  }

  // ---------------------------------------------------------------------
  // The report.

  datatype AnalysisError =
    | MissingColumn(name: string)  // `chunk[...]` / `df[...]` on an absent column
    | NotText(name: string)        // `.str` on a numeric or boolean column
    | BadTimestamp                 // `pd.to_datetime` on an unparseable cell
    | NotInteger                   // `astype(int)` on a NaN cell
    | NoVolume                     // `total_summary_df["取引量"]` when no chunk was read

  /** A report cell: a count, or a rate kept as the exact quotient
      `num / den` (float division is not modelled). */
  datatype OutCell = Whole(n: int) | Quotient(num: int, den: int)

  /** A two-level column label, e.g. ("ルール1", "ヒット数") or ("取引量", ""). */
  type Header = (string, string)

  /** The report: its sorted column labels, and per hour the cell under
      each label. */
  datatype Report = Report(columns: seq<Header>, rows: map<DateTime, map<Header, OutCell>>)

  /** The columns whose name starts with "ルール". */
  function RuleSet(cols: set<string>): (r: set<string>)
    ensures forall c :: c in r <==> c in cols && StartsWith(c, RULE_PREFIX)
  {
    set c | c in cols && StartsWith(c, RULE_PREFIX)
  }

  /** The labels in `sort_index(axis=1)` order for sorted rule names: both
      labels of each rule, then 取引量 (every rule name sorts before it). */
  function Layout(rules: seq<string>): (r: seq<Header>)
    ensures forall p :: p in r <==> p == (VOLUME, "") || (p.0 in rules && (p.1 == HITS || p.1 == RATE))
  {
    if rules == [] then [(VOLUME, "")]
    else
      var r := [(rules[0], HITS), (rules[0], RATE)] + Layout(rules[1..]);
      assert forall x :: x in rules <==> x == rules[0] || x in rules[1..];
      r
  }

  /** The order of two-level labels: by the first level, then the second. */
  predicate HeaderLess(a: Header, b: Header) {
    LexOrder.Less(a.0, b.0) || (a.0 == b.0 && LexOrder.Less(a.1, b.1))
  }

  predicate HeadersSorted(s: seq<Header>) {
    forall i, j :: 0 <= i < j < |s| ==> HeaderLess(s[i], s[j])
  }

  lemma HitsBeforeRate()
    ensures LexOrder.Less(HITS, RATE)
  {
    assert HITS[0] == RATE[0] && HITS[1] == RATE[1] && HITS[2] == RATE[2];
    assert HITS[3] < RATE[3];
    assert HITS[1..][1..][1..][0] == HITS[3] && RATE[1..][1..][1..][0] == RATE[3];
    assert LexOrder.Less(HITS[1..][1..][1..], RATE[1..][1..][1..]);
  }

  lemma RuleBeforeVolume(r: string)
    requires StartsWith(r, RULE_PREFIX)
    ensures LexOrder.Less(r, VOLUME)
  {
    assert r[0] == RULE_PREFIX[0];
    assert r[0] < VOLUME[0];
  }

  /** The layout is in `sort_index` order, so it is the only sorted listing
      of its labels. */
  lemma {:induction false} LayoutSorted(rules: seq<string>)
    requires LexOrder.Sorted(rules)
    requires forall k :: 0 <= k < |rules| ==> StartsWith(rules[k], RULE_PREFIX)
    ensures HeadersSorted(Layout(rules))
  {
    if rules != [] {
      var r := rules[0];
      var tail := Layout(rules[1..]);
      LayoutSorted(rules[1..]);
      assert forall p :: p in tail ==> LexOrder.Less(r, p.0) by {
        RuleBeforeVolume(r);
        forall p | p in tail ensures LexOrder.Less(r, p.0) {
          if p.0 in rules[1..] {
            var k :| 0 <= k < |rules[1..]| && rules[1..][k] == p.0;
            assert rules[k + 1] == p.0;
          }
        }
      }
      assert HeaderLess((r, HITS), (r, RATE)) by {
        HitsBeforeRate();
      }
      PrependSorted((r, HITS), (r, RATE), tail);
    }
  }

  /** Two labels that come before every label of a sorted listing, in order,
      can head it. */
  lemma PrependSorted(a: Header, b: Header, tail: seq<Header>)
    requires HeadersSorted(tail) && HeaderLess(a, b)
    requires forall p :: p in tail ==> HeaderLess(a, p) && HeaderLess(b, p)
    ensures HeadersSorted([a, b] + tail)
  {
    var s := [a, b] + tail;
    forall i, j | 0 <= i < j < |s| ensures HeaderLess(s[i], s[j]) {
      if i >= 2 {
        assert s[i] == tail[i - 2] && s[j] == tail[j - 2];
      } else if j >= 2 {
        assert s[j] == tail[j - 2];
        assert s[j] in tail;
      }
    }
  }

  /** One report row: 取引量, and for each rule its hits and its rate,
      hits ÷ 取引量 of the same hour of the final table. */
  function HourRow(g: Grid, h: DateTime, rules: set<string>): map<Header, OutCell> {
    map[(VOLUME, "") := Whole(At(g, h, VOLUME))] + HitCells(g, h, rules) + RateCells(g, h, rules)
  }

  /** The hits label of every rule in one hour. */
  function HitCells(g: Grid, h: DateTime, rules: set<string>): map<Header, OutCell> {
    map r | r in rules :: (r, HITS) := Whole(At(g, h, r))
  }

  /** The rate label of every rule in one hour. */
  function RateCells(g: Grid, h: DateTime, rules: set<string>): map<Header, OutCell> {
    map r | r in rules :: (r, RATE) := Quotient(At(g, h, r), At(g, h, VOLUME))
  }

  /** The report of a final integer table (analyze_in_chunks.py:49-65,
      analyze_hourly_rules.py:39-59). */
  function Build(g: Grid): Report {
    var rules := RuleSet(g.cols);
    Report(Layout(LexOrder.SortSet(rules)), map h | h in g.hours :: HourRow(g, h, rules))
  }

  /** The labels of a report are the sorted labels of its rules. */
  lemma BuildColumns(g: Grid)
    ensures HeadersSorted(Build(g).columns)
    ensures forall p :: p in Build(g).columns <==>
      p == (VOLUME, "") || (p.0 in g.cols && StartsWith(p.0, RULE_PREFIX) && (p.1 == HITS || p.1 == RATE))
  {
    var rules := LexOrder.SortSet(RuleSet(g.cols));
    forall k | 0 <= k < |rules| ensures StartsWith(rules[k], RULE_PREFIX) {
      assert rules[k] in rules;
    }
    LayoutSorted(rules);
  }

  /** Two tables with the same hours, rules and values under them give the
      same report. */
  lemma BuildCongruent(g1: Grid, g2: Grid)
    requires g1.hours == g2.hours && RuleSet(g1.cols) == RuleSet(g2.cols)
    requires forall h :: h in g1.hours ==> At(g1, h, VOLUME) == At(g2, h, VOLUME)
    requires forall h, r :: h in g1.hours && r in RuleSet(g1.cols) ==> At(g1, h, r) == At(g2, h, r)
    ensures Build(g1) == Build(g2)
  {
    var rules := RuleSet(g1.cols);
    forall h | h in g1.hours ensures HourRow(g1, h, rules) == HourRow(g2, h, rules) {
      HourRowCongruent(g1, g2, h, rules);
    }
    assert Build(g1).rows == Build(g2).rows;
  }

  /** One hour's row depends only on that hour's volume and rule counts. */
  lemma HourRowCongruent(g1: Grid, g2: Grid, h: DateTime, rules: set<string>)
    requires At(g1, h, VOLUME) == At(g2, h, VOLUME)
    requires forall r :: r in rules ==> At(g1, h, r) == At(g2, h, r)
    ensures HourRow(g1, h, rules) == HourRow(g2, h, rules)
  {
    HitsCongruent(g1, g2, h, rules);
    RatesCongruent(g1, g2, h, rules);
  }

  lemma HitsCongruent(g1: Grid, g2: Grid, h: DateTime, rules: set<string>)
    requires forall r :: r in rules ==> At(g1, h, r) == At(g2, h, r)
    ensures HitCells(g1, h, rules) == HitCells(g2, h, rules)
  {
  }

  lemma RatesCongruent(g1: Grid, g2: Grid, h: DateTime, rules: set<string>)
    requires At(g1, h, VOLUME) == At(g2, h, VOLUME)
    requires forall r :: r in rules ==> At(g1, h, r) == At(g2, h, r)
    ensures RateCells(g1, h, rules) == RateCells(g2, h, rules)
  {
  }

  /** Lines 47 and 54 of analyze_in_chunks.py on the final total. */
  function Finalize(g: Grid): Result<Report, AnalysisError> {
    if !Complete(g) then Err(NotInteger)
    else if VOLUME !in g.cols then Err(NoVolume)
    else Ok(Build(g))
  }

  /** The first chunk reads hit_rule and its `.str` (line 25) and then
      EVENT_TIME (line 28). */
  function ColumnCheck(columns: seq<Column>, chunks: seq<seq<Row>>): Option<AnalysisError> {
    if chunks == [] then None
    else if !HasColumn(columns, Expand.HIT_RULE) then Some(MissingColumn(Expand.HIT_RULE))
    else if !Expand.TextColumn(columns, Expand.HIT_RULE) then Some(NotText(Expand.HIT_RULE))
    else if !HasColumn(columns, EVENT_TIME) then Some(MissingColumn(EVENT_TIME))
    else None
  }

  /** `analyze_in_chunks` as written: the running total goes straight to
      `astype(int)`. */
  function ChunkedAsWritten(columns: seq<Column>, chunks: seq<seq<Row>>): (r: Result<Report, AnalysisError>)
    ensures r.Ok? ==> chunks != [] && ColumnCheck(columns, chunks).None?
    ensures r.Ok? ==> AllParse(Flatten(chunks))
    ensures ColumnCheck(columns, chunks).None? && !AllParse(Flatten(chunks)) ==> r == Err(BadTimestamp)
    ensures r.Ok? ==> HeadersSorted(r.value.columns)
  {
    var e := ColumnCheck(columns, chunks);
    if e.Some? then Err(e.value)
    else if !AllParse(Flatten(chunks)) then Err(BadTimestamp)
    else
      BuildColumns(Accumulate(chunks));
      Finalize(Accumulate(chunks))
  }

  /** `analyze_in_chunks` with `fillna(0)` before `astype(int)`: a cell no
      chunk produced reads as 0 hits. */
  function Chunked(columns: seq<Column>, chunks: seq<seq<Row>>): Result<Report, AnalysisError> {
    var e := ColumnCheck(columns, chunks);
    if e.Some? then Err(e.value)
    else if !AllParse(Flatten(chunks)) then Err(BadTimestamp)
    else Finalize(FillZero(Accumulate(chunks)))
  }

  /** The chunk loop of analyze_in_chunks.py:19-47, with `fillna(0)` before
      `astype(int)`. */
  method AnalyzeInChunks(columns: seq<Column>, chunks: seq<seq<Row>>) returns (r: Result<Report, AnalysisError>)
    ensures r == Chunked(columns, chunks)
  {
    var total := Grid({}, {}, map[]);
    for k := 0 to |chunks|
      invariant total == Accumulate(chunks[..k])
      invariant AllParse(Flatten(chunks[..k]))
      invariant k > 0 ==> ColumnCheck(columns, chunks).None?
    {
      if !HasColumn(columns, Expand.HIT_RULE) {
        return Err(MissingColumn(Expand.HIT_RULE));
      }
      if !Expand.TextColumn(columns, Expand.HIT_RULE) {
        return Err(NotText(Expand.HIT_RULE));
      }
      if !HasColumn(columns, EVENT_TIME) {
        return Err(MissingColumn(EVENT_TIME));
      }
      if !AllParse(chunks[k]) {
        FlattenHas(chunks, k);
        return Err(BadTimestamp);
      }
      assert chunks[..k + 1][..k] == chunks[..k];
      assert Flatten(chunks[..k + 1]) == Flatten(chunks[..k]) + chunks[k];
      total := AddFill(total, ChunkSummary(chunks[k]));
    }
    assert chunks[..|chunks|] == chunks;
    r := Finalize(FillZero(total));
  }

  /** Every row of every chunk is a row of the flattened file. */
  lemma {:induction false} FlattenHas(chunks: seq<seq<Row>>, k: int)
    requires 0 <= k < |chunks|
    ensures forall r :: r in chunks[k] ==> r in Flatten(chunks)
  {
    var n := |chunks| - 1;
    if k < n {
      FlattenHas(chunks[..n], k);
    }
  }

  /** The corrected analysis is the whole-file summary, for any split of the
      rows into chunks: each row counted once, in its own hour. */
  lemma ChunkedIsWholeFile(columns: seq<Column>, chunks: seq<seq<Row>>)
    requires chunks != [] && ColumnCheck(columns, chunks).None? && AllParse(Flatten(chunks))
    ensures Chunked(columns, chunks) == Ok(Build(ChunkSummary(Flatten(chunks))))
  {
    FoldIsWholeFile(chunks);
  }

  /** Chunk size and chunk order do not matter: any two non-empty chunkings
      of the same rows, in any order, give the same report. */
  lemma ChunkingIndependent(columns: seq<Column>, c1: seq<seq<Row>>, c2: seq<seq<Row>>)
    requires c1 != [] && c2 != []
    requires multiset(Flatten(c1)) == multiset(Flatten(c2))
    ensures Chunked(columns, c1) == Chunked(columns, c2)
  {
    AllParsePermutation(Flatten(c1), Flatten(c2));
    if ColumnCheck(columns, c1).None? && AllParse(Flatten(c1)) {
      FoldIsWholeFile(c1);
      FoldIsWholeFile(c2);
      SummaryPermutation(Flatten(c1), Flatten(c2));
    }
  }

  /** Whether every timestamp converts does not depend on the row order. */
  lemma AllParsePermutation(a: seq<Row>, b: seq<Row>)
    requires multiset(a) == multiset(b)
    ensures AllParse(a) <==> AllParse(b)
  {
    SameMembers(a, b);
  }

  /** When the code as written does succeed, it gives the corrected report:
      the NaN cells are the only difference. */
  lemma AsWrittenAgrees(columns: seq<Column>, chunks: seq<seq<Row>>)
    requires ChunkedAsWritten(columns, chunks).Ok?
    ensures ChunkedAsWritten(columns, chunks) == Chunked(columns, chunks)
  {
    var g := Accumulate(chunks);
    AccumulateTotals(chunks);
    FillZeroComplete(g);
  }

  /** `fillna(0)` changes nothing in a table without NaN. */
  lemma FillZeroComplete(g: Grid)
    requires Complete(g) && Bounded(g)
    ensures FillZero(g) == g
  {
    var z := FillZero(g);
    forall p | p in g.cells ensures p in z.cells && z.cells[p] == g.cells[p] {
      assert p.0 in g.hours && p.1 in g.cols;
      assert At(z, p.0, p.1) == At(g, p.0, p.1);
    }
    forall p | p in z.cells ensures p in g.cells {
      assert p.0 in g.hours && p.1 in g.cols;
    }
    assert z.cells == g.cells;
  }

  /** Every cell of the report: 取引量 is the hour's row count (at least 1),
      hits are the rows holding the rule (never more than 取引量), and the
      rate is hits ÷ 取引量 of that same hour. */
  lemma ReportCells(rows: seq<Row>, h: DateTime, r: string)
    requires h in Hours(rows) && r in RuleSet(Expand.AllTokens(rows))
    ensures h in Build(ChunkSummary(rows)).rows
    ensures var row := Build(ChunkSummary(rows)).rows[h];
      var n := Count(rows, h, r);
      var d := Count(rows, h, VOLUME);
      && 0 <= n <= d && d >= 1
      && (VOLUME, "") in row && row[(VOLUME, "")] == Whole(d)
      && (r, HITS) in row && row[(r, HITS)] == Whole(n)
      && (r, RATE) in row && row[(r, RATE)] == Quotient(n, d)
  {
    var g := ChunkSummary(rows);
    var n := Count(rows, h, r);
    var d := Count(rows, h, VOLUME);
    assert 0 <= n <= d && d >= 1 by {
      CountWithinVolume(rows, h, r);
      VolumePositive(rows, h);
    }
    assert At(g, h, r) == n && At(g, h, VOLUME) == d by {
      ChunkSummaryAt(rows);
    }
    var rules := RuleSet(g.cols);
    assert r in rules by {
      assert !StartsWith(VOLUME, RULE_PREFIX) by { assert VOLUME[0] != RULE_PREFIX[0]; }
      assert RuleSet(g.cols) == RuleSet(Expand.AllTokens(rows));
    }
    BuildRow(g, h);
    HourRowAt(g, h, rules, r);
  }

  /** The report has one row per hour of the grid, laid out by `HourRow`. */
  lemma BuildRow(g: Grid, h: DateTime)
    requires h in g.hours
    ensures h in Build(g).rows && Build(g).rows[h] == HourRow(g, h, RuleSet(g.cols))
  {
  }

  /** The cells of one report row, label by label. */
  lemma HourRowAt(g: Grid, h: DateTime, rules: set<string>, r: string)
    requires r in rules
    ensures var row := HourRow(g, h, rules);
      && (VOLUME, "") in row && row[(VOLUME, "")] == Whole(At(g, h, VOLUME))
      && (r, HITS) in row && row[(r, HITS)] == Whole(At(g, h, r))
      && (r, RATE) in row && row[(r, RATE)] == Quotient(At(g, h, r), At(g, h, VOLUME))
  {
    assert HITS != "" && RATE != "" && HITS != RATE by {
      assert |HITS| == 4 && |RATE| == 4 && HITS[3] != RATE[3];
    }
  }

  /** Finding: an hour that only an earlier chunk has and a rule that only
      a later chunk has meet in a cell that neither chunk's summary holds.
      `add(fill_value=0)` leaves that cell NaN, so `astype(int)` raises;
      with `fillna(0)` the report is made and shows 0 hits there. */
  lemma NaNCell(columns: seq<Column>, a: seq<Row>, b: seq<Row>, h: DateTime, c: string)
    requires ColumnCheck(columns, [a, b]).None? && AllParse(a + b)
    requires h in Hours(a) && h !in Hours(b)
    requires c != VOLUME && c in Expand.AllTokens(b) && c !in Expand.AllTokens(a)
    ensures ChunkedAsWritten(columns, [a, b]) == Err(NotInteger)
    ensures Chunked(columns, [a, b]).Ok?
    ensures At(FillZero(Accumulate([a, b])), h, c) == 0
  {
    FlattenTwo(a, b);
    NaNCellMissing(a, b, h, c);
    ChunkedSucceeds(columns, [a, b]);
    NaNCellZero(a, b, h, c);
  }

  /** With `fillna(0)`, the analysis fails only for a missing column, a
      hit_rule column that is not text, an EVENT_TIME cell that does not
      convert, or an input with no chunk at all. */
  lemma ChunkedSucceeds(columns: seq<Column>, chunks: seq<seq<Row>>)
    ensures Chunked(columns, chunks).Ok? <==>
      chunks != [] && ColumnCheck(columns, chunks).None? && AllParse(Flatten(chunks))
  {
    if chunks != [] && AllParse(Flatten(chunks)) {
      AccumulateTotals(chunks);
    }
  }

  lemma AccumulateTwo(a: seq<Row>, b: seq<Row>)
    ensures Accumulate([a, b]) == AddFill(AddFill(Grid({}, {}, map[]), ChunkSummary(a)), ChunkSummary(b))
  {
    var chunks := [a, b];
    assert chunks[..1] == [a] && chunks[1] == b;
    assert Accumulate([a]) == AddFill(Grid({}, {}, map[]), ChunkSummary(a)) by {
      assert [a][..0] == [];
    }
    assert Accumulate(chunks) == AddFill(Accumulate(chunks[..1]), ChunkSummary(chunks[1]));
  }

  lemma FlattenTwo(a: seq<Row>, b: seq<Row>)
    ensures Flatten([a, b]) == a + b
  {
    var chunks := [a, b];
    assert chunks[..1] == [a] && chunks[1] == b;
    assert Flatten([a]) == a by {
      assert [a][..0] == [];
      assert [] + a == a;
    }
  }

  lemma NaNCellMissing(a: seq<Row>, b: seq<Row>, h: DateTime, c: string)
    requires h in Hours(a) && h !in Hours(b)
    requires c != VOLUME && c in Expand.AllTokens(b) && c !in Expand.AllTokens(a)
    ensures !Complete(Accumulate([a, b]))
  {
    AccumulateTwo(a, b);
    var g := Accumulate([a, b]);
    assert (h, c) !in ChunkSummary(a).cells;
    assert (h, c) !in ChunkSummary(b).cells;
    assert h in g.hours && c in g.cols && (h, c) !in g.cells;
  }

  lemma NaNCellZero(a: seq<Row>, b: seq<Row>, h: DateTime, c: string)
    requires h in Hours(a) && h !in Hours(b)
    requires c != VOLUME && c in Expand.AllTokens(b) && c !in Expand.AllTokens(a)
    ensures At(FillZero(Accumulate([a, b])), h, c) == 0
  {
    var chunks := [a, b];
    AccumulateTotals(chunks);
    FlattenTwo(a, b);
    HoursConcat(a, b);
    TokensConcat(a, b);
    CountConcat(a, b, h, c);
    CountOutside(a, h, c);
    CountOutside(b, h, c);
  }

  /** The finding's concrete input: ルール1 at 00:00 in the first chunk,
      ルール2 at 01:00 in the second. */
  const EXAMPLE_T1 := DateTime(2024, 1, 1, 0, 0, 0)
  const EXAMPLE_T2 := DateTime(2024, 1, 1, 1, 0, 0)
  const EXAMPLE_ROW1: Row := map[EVENT_TIME := Some(TimeV(EXAMPLE_T1)), Expand.HIT_RULE := Some(StrV("ルール1"))]
  const EXAMPLE_ROW2: Row := map[EVENT_TIME := Some(TimeV(EXAMPLE_T2)), Expand.HIT_RULE := Some(StrV("ルール2"))]
  const EXAMPLE_COLUMNS := [Column(EVENT_TIME, Timestamp), Column(Expand.HIT_RULE, Text)]

  /** The finding on concrete input: the cell (00:00, ルール2) is NaN. */
  lemma NaNCellExample()
    ensures ChunkedAsWritten(EXAMPLE_COLUMNS, [[EXAMPLE_ROW1], [EXAMPLE_ROW2]]) == Err(NotInteger)
    ensures Chunked(EXAMPLE_COLUMNS, [[EXAMPLE_ROW1], [EXAMPLE_ROW2]]).Ok?
  {
    ExampleHours();
    ExampleTokens();
    ExampleColumns();
    TimedRowsParse(EXAMPLE_ROW1, EXAMPLE_ROW2);
    NaNCell(EXAMPLE_COLUMNS, [EXAMPLE_ROW1], [EXAMPLE_ROW2], EXAMPLE_T1, "ルール2");
  }

  lemma ExampleHours()
    ensures HourOf(EXAMPLE_ROW1).Some? && HourOf(EXAMPLE_ROW2).Some?
    ensures EXAMPLE_T1 in Hours([EXAMPLE_ROW1]) && EXAMPLE_T1 !in Hours([EXAMPLE_ROW2])
  {
    assert [EXAMPLE_ROW1][0] == EXAMPLE_ROW1 && [EXAMPLE_ROW2][0] == EXAMPLE_ROW2;
    assert HourOf(EXAMPLE_ROW1) == Some(EXAMPLE_T1) && HourOf(EXAMPLE_ROW2) == Some(EXAMPLE_T2);
    assert Hours([EXAMPLE_ROW2]) == {EXAMPLE_T2};
  }

  lemma ExampleTokens()
    ensures "ルール2" != VOLUME
    ensures "ルール2" !in Expand.AllTokens([EXAMPLE_ROW1]) && "ルール2" in Expand.AllTokens([EXAMPLE_ROW2])
  {
    assert [EXAMPLE_ROW1][0] == EXAMPLE_ROW1 && [EXAMPLE_ROW2][0] == EXAMPLE_ROW2;
    assert Expand.HitRule(EXAMPLE_ROW1) == "ルール1" && Expand.HitRule(EXAMPLE_ROW2) == "ルール2";
    SplitNoSeparator("ルール1", ' ');
    SplitNoSeparator("ルール2", ' ');
    assert Expand.Tokens("ルール1") == {"ルール1"};
    assert Expand.Tokens("ルール2") == {"ルール2"};
    assert "ルール2"[0] != VOLUME[0];
  }

  lemma ExampleColumns()
    ensures ColumnCheck(EXAMPLE_COLUMNS, [[EXAMPLE_ROW1], [EXAMPLE_ROW2]]).None?
  {
    assert HasColumn(EXAMPLE_COLUMNS, Expand.HIT_RULE) && HasColumn(EXAMPLE_COLUMNS, EVENT_TIME);
    assert Expand.TextColumn(EXAMPLE_COLUMNS, Expand.HIT_RULE);
  }

  /** Rows whose EVENT_TIME is a timestamp convert. */
  lemma TimedRowsParse(x: Row, y: Row)
    requires HourOf(x).Some? && HourOf(y).Some?
    ensures AllParse([x] + [y])
  {
    assert forall r :: r in [x] + [y] ==> r == x || r == y;
  }

  /** An EVENT_TIME of "abc" is not read as NaT: both scripts stop with
      the error `pd.to_datetime` raises. */
  lemma UnparseableTimeRaises()
    ensures var row := map[EVENT_TIME := Some(StrV("abc")), Expand.HIT_RULE := Some(StrV(""))];
      var columns := [Column(EVENT_TIME, Text), Column(Expand.HIT_RULE, Text)];
      && Chunked(columns, [[row]]) == Err(BadTimestamp)
      && ChunkedAsWritten(columns, [[row]]) == Err(BadTimestamp)
      && AnalyzeHourlyRules(Frame(columns, [row])) == Err(BadTimestamp)
  {
    var row := map[EVENT_TIME := Some(StrV("abc")), Expand.HIT_RULE := Some(StrV(""))];
    var columns := [Column(EVENT_TIME, Text), Column(Expand.HIT_RULE, Text)];
    assert Unparseable(row) by {
      assert "abc" != "" && "abc"[0] != 'N' && "abc"[0] != 'n';
    }
    assert Flatten([[row]]) == [row] by {
      assert [[row]][..0] == [];
    }
    assert !AllParse([row]) by {
      assert row in [row];
    }
    assert ColumnCheck(columns, [[row]]).None? by {
      assert Expand.TextColumn(columns, Expand.HIT_RULE);
    }
  }

  // ---------------------------------------------------------------------
  // The one-pass analysis of the expanded file.

  /** `[col for col in df.columns if col.startswith("ルール")]`, in input
      order. */
  function RuleColumns(names: seq<string>): (r: seq<string>)
    ensures forall c :: c in r <==> c in names && StartsWith(c, RULE_PREFIX)
    ensures |r| <= |names|
  {
    if names == [] then []
    else
      var rest := RuleColumns(names[1..]);
      assert forall c :: c in names <==> c == names[0] || c in names[1..];
      if StartsWith(names[0], RULE_PREFIX) then [names[0]] + rest else rest
  }

  /** `grouped[c].sum()` at hour `h`: NaN cells are skipped. */
  function SumIn(rows: seq<Row>, h: DateTime, c: string): int {
    if rows == [] then 0
    else (if HourOf(rows[0]) == Some(h) then IntOf(Get(rows[0], c)) else 0) + SumIn(rows[1..], h, c)
  }

  /** `agg_df`: per hour the group size and the sum of each rule column
      (analyze_hourly_rules.py:27-35). */
  function OnePassGrid(names: seq<string>, rows: seq<Row>): (r: Grid)
    ensures Complete(r) && Bounded(r)
    ensures r.hours == Hours(rows) && r.cols == (set c | c in RuleColumns(names)) + {VOLUME}
  {
    var hs := Hours(rows);
    var cs := (set c | c in RuleColumns(names)) + {VOLUME};
    Grid(hs, cs, map h, c | h in hs && c in cs :: (h, c) := if c == VOLUME then Count(rows, h, VOLUME) else SumIn(rows, h, c))
  }

  /** `analyze_hourly_rules`; `df["EVENT_TIME"]` raises when the column is
      absent, and `pd.to_datetime` when one of its cells does not convert. */
  function AnalyzeHourlyRules(f: Frame): (r: Result<Report, AnalysisError>)
    ensures r.Ok? <==> HasColumn(f.columns, EVENT_TIME) && AllParse(f.rows)
    ensures HasColumn(f.columns, EVENT_TIME) && !AllParse(f.rows) ==> r == Err(BadTimestamp)
    ensures r.Ok? ==> HeadersSorted(r.value.columns)
  {
    if !HasColumn(f.columns, EVENT_TIME) then Err(MissingColumn(EVENT_TIME))
    else if !AllParse(f.rows) then Err(BadTimestamp)
    else
      var g := OnePassGrid(Names(f.columns), f.rows);
      BuildColumns(g);
      Ok(Build(g))
  }

  /** The rows that have a timestamp, the ones `groupby` keeps. */
  function Timed(rows: seq<Row>): nat {
    if rows == [] then 0 else (if HourOf(rows[0]).Some? then 1 else 0) + Timed(rows[1..])
  }

  /** 取引量 summed over a list of hours. */
  function VolumeOver(rows: seq<Row>, hs: seq<DateTime>): nat {
    if hs == [] then 0 else Count(rows, hs[0], VOLUME) + VolumeOver(rows, hs[1..])
  }

  lemma {:induction false} VolumeOverOne(x: Row, hs: seq<DateTime>)
    requires forall i, j :: 0 <= i < j < |hs| ==> hs[i] != hs[j]
    ensures VolumeOver([x], hs) == if HourOf(x).Some? && HourOf(x).value in hs then 1 else 0
  {
    if hs != [] {
      var tl := hs[1..];
      assert forall i, j :: 0 <= i < j < |tl| ==> tl[i] != tl[j] by {
        forall i, j | 0 <= i < j < |tl| ensures tl[i] != tl[j] {
          assert tl[i] == hs[i + 1] && tl[j] == hs[j + 1];
        }
      }
      VolumeOverOne(x, tl);
      assert [x][1..] == [];
      assert Count([x], hs[0], VOLUME) == if HourOf(x) == Some(hs[0]) then 1 else 0;
      assert forall y :: y in hs <==> y == hs[0] || y in tl;
      assert hs[0] !in tl;
    }
  }

  lemma {:induction false} VolumeOverConcat(a: seq<Row>, b: seq<Row>, hs: seq<DateTime>)
    ensures VolumeOver(a + b, hs) == VolumeOver(a, hs) + VolumeOver(b, hs)
  {
    if hs != [] {
      CountConcat(a, b, hs[0], VOLUME);
      VolumeOverConcat(a, b, hs[1..]);
    }
  }

  /** The 取引量 of all hours add up to the number of rows with a timestamp. */
  lemma {:induction false} VolumesSumToRows(rows: seq<Row>, hs: seq<DateTime>)
    requires forall i, j :: 0 <= i < j < |hs| ==> hs[i] != hs[j]
    requires forall h :: h in Hours(rows) ==> h in hs
    ensures VolumeOver(rows, hs) == Timed(rows)
  {
    if rows == [] {
      assert VolumeOver([], hs) == 0 by { VolumeOverZero(hs); }
    } else {
      assert rows == [rows[0]] + rows[1..];
      VolumeOverConcat([rows[0]], rows[1..], hs);
      VolumeOverOne(rows[0], hs);
      assert HourOf(rows[0]).Some? ==> HourOf(rows[0]).value in Hours(rows);
      forall h | h in Hours(rows[1..]) ensures h in hs {
        var i :| 0 <= i < |rows[1..]| && HourOf(rows[1..][i]).Some? && HourOf(rows[1..][i]).value == h;
        assert rows[1..][i] == rows[i + 1];
      }
      VolumesSumToRows(rows[1..], hs);
    }
  }

  lemma {:induction false} VolumeOverZero(hs: seq<DateTime>)
    ensures VolumeOver([], hs) == 0
  {
    if hs != [] { VolumeOverZero(hs[1..]); }
  }

  /** A rule column's sum equals the count of its token when every row
      holds that token's indicator. */
  lemma {:induction false} SumOfIndicators(a: seq<Row>, b: seq<Row>, h: DateTime, r: string)
    requires |a| == |b| && r != VOLUME
    requires forall i :: 0 <= i < |a| ==> HourOf(a[i]) == HourOf(b[i])
    requires forall i :: 0 <= i < |a| ==> IntOf(Get(a[i], r)) == Expand.Indicator(b[i], r)
    ensures SumIn(a, h, r) == Count(b, h, r)
  {
    if a != [] {
      SumOfIndicators(a[1..], b[1..], h, r);
    }
  }

  lemma {:induction false} VolumeSameHours(a: seq<Row>, b: seq<Row>, h: DateTime)
    requires |a| == |b|
    requires forall i :: 0 <= i < |a| ==> HourOf(a[i]) == HourOf(b[i])
    ensures Count(a, h, VOLUME) == Count(b, h, VOLUME)
  {
    if a != [] {
      VolumeSameHours(a[1..], b[1..], h);
    }
  }

  /** The expanded rows keep their hour, and each token column holds the
      row's indicator, as long as no token is called EVENT_TIME. */
  lemma ExpandedRows(f: Frame)
    requires Expand.TextColumn(f.columns, Expand.HIT_RULE)
    requires EVENT_TIME !in Expand.AllTokens(f.rows)
    ensures var e := Expand.Expand(f).value;
      && (forall i :: 0 <= i < |e.rows| ==> HourOf(e.rows[i]) == HourOf(f.rows[i]))
      && (forall i, r :: 0 <= i < |e.rows| && r in Expand.AllTokens(f.rows) ==>
            IntOf(Get(e.rows[i], r)) == Expand.Indicator(f.rows[i], r))
  {
    var e := Expand.Expand(f).value;
    forall i | 0 <= i < |e.rows|
      ensures HourOf(e.rows[i]) == HourOf(f.rows[i])
      ensures forall r :: r in Expand.AllTokens(f.rows) ==> IntOf(Get(e.rows[i], r)) == Expand.Indicator(f.rows[i], r)
    {
      ExpandedRowAt(f, i);
    }
  }

  lemma ExpandedRowAt(f: Frame, i: int)
    requires Expand.TextColumn(f.columns, Expand.HIT_RULE)
    requires EVENT_TIME !in Expand.AllTokens(f.rows)
    requires 0 <= i < |f.rows|
    ensures var row := Expand.Expand(f).value.rows[i];
      && Get(row, EVENT_TIME) == Get(f.rows[i], EVENT_TIME)
      && HourOf(row) == HourOf(f.rows[i])
      && forall r :: r in Expand.AllTokens(f.rows) ==> IntOf(Get(row, r)) == Expand.Indicator(f.rows[i], r)
  {
    var row := Expand.Expand(f).value.rows[i];
    Expand.ExpandRowAt(f, i);
    assert Get(row, EVENT_TIME) == Get(f.rows[i], EVENT_TIME);
  }

  /** The rule columns of the expanded file are the rule tokens, when no
      original column name starts with "ルール". */
  lemma ExpandedRules(f: Frame)
    requires Expand.TextColumn(f.columns, Expand.HIT_RULE)
    requires forall k :: 0 <= k < |f.columns| ==> !StartsWith(f.columns[k].name, RULE_PREFIX)
    ensures var e := Expand.Expand(f).value;
      RuleSet((set c | c in RuleColumns(Names(e.columns))) + {VOLUME}) == RuleSet(Expand.AllTokens(f.rows) + {VOLUME})
  {
    Expand.ExpandColumns(f);
    forall c | c in Names(f.columns) ensures !StartsWith(c, RULE_PREFIX) {
      var k :| 0 <= k < |Names(f.columns)| && Names(f.columns)[k] == c;
      NameAt(f.columns, k);
    }
  }

  /** The one-pass table of the expanded file and the whole-file chunk
      summary of the raw file give the same report. */
  lemma OnePassIsWholeFile(f: Frame)
    requires Expand.TextColumn(f.columns, Expand.HIT_RULE)
    requires forall k :: 0 <= k < |f.columns| ==> !StartsWith(f.columns[k].name, RULE_PREFIX)
    requires EVENT_TIME !in Expand.AllTokens(f.rows)
    ensures var e := Expand.Expand(f).value;
      Build(OnePassGrid(Names(e.columns), e.rows)) == Build(ChunkSummary(f.rows))
  {
    var e := Expand.Expand(f).value;
    ExpandedRows(f);
    ExpandedRules(f);
    ExpandedHours(f);
    ExpandedVolumes(f);
    ExpandedHits(f);
    BuildCongruent(OnePassGrid(Names(e.columns), e.rows), ChunkSummary(f.rows));
  }

  lemma ExpandedHours(f: Frame)
    requires Expand.TextColumn(f.columns, Expand.HIT_RULE)
    requires EVENT_TIME !in Expand.AllTokens(f.rows)
    ensures Hours(Expand.Expand(f).value.rows) == Hours(f.rows)
  {
    var e := Expand.Expand(f).value;
    forall h | h in Hours(e.rows) ensures h in Hours(f.rows) {
      var i :| 0 <= i < |e.rows| && HourOf(e.rows[i]).Some? && HourOf(e.rows[i]).value == h;
      ExpandedRowAt(f, i);
    }
    forall h | h in Hours(f.rows) ensures h in Hours(e.rows) {
      var i :| 0 <= i < |f.rows| && HourOf(f.rows[i]).Some? && HourOf(f.rows[i]).value == h;
      ExpandedRowAt(f, i);
    }
  }

  lemma ExpandedVolumes(f: Frame)
    requires Expand.TextColumn(f.columns, Expand.HIT_RULE)
    requires EVENT_TIME !in Expand.AllTokens(f.rows)
    ensures var e := Expand.Expand(f).value;
      forall h :: At(OnePassGrid(Names(e.columns), e.rows), h, VOLUME) == At(ChunkSummary(f.rows), h, VOLUME)
  {
    var e := Expand.Expand(f).value;
    ExpandedRows(f);
    ExpandedHours(f);
    var g1 := OnePassGrid(Names(e.columns), e.rows);
    ChunkSummaryAt(f.rows);
    forall h ensures At(g1, h, VOLUME) == At(ChunkSummary(f.rows), h, VOLUME) {
      VolumeSameHours(e.rows, f.rows, h);
      if h !in g1.hours {
        CountOutside(f.rows, h, VOLUME);
      }
    }
  }

  lemma ExpandedHits(f: Frame)
    requires Expand.TextColumn(f.columns, Expand.HIT_RULE)
    requires forall k :: 0 <= k < |f.columns| ==> !StartsWith(f.columns[k].name, RULE_PREFIX)
    requires EVENT_TIME !in Expand.AllTokens(f.rows)
    ensures var e := Expand.Expand(f).value;
      var g1 := OnePassGrid(Names(e.columns), e.rows);
      forall h, r :: h in g1.hours && r in RuleSet(g1.cols) ==> At(g1, h, r) == At(ChunkSummary(f.rows), h, r)
  {
    var e := Expand.Expand(f).value;
    ExpandedRows(f);
    ExpandedRules(f);
    var g1 := OnePassGrid(Names(e.columns), e.rows);
    ChunkSummaryAt(f.rows);
    forall h, r | h in g1.hours && r in RuleSet(g1.cols) ensures At(g1, h, r) == At(ChunkSummary(f.rows), h, r) {
      assert r != VOLUME by { assert VOLUME[0] != RULE_PREFIX[0]; }
      assert r in Expand.AllTokens(f.rows);
      assert At(g1, h, r) == SumIn(e.rows, h, r);
      SumOfIndicators(e.rows, f.rows, h, r);
    }
  }

  /** Expanding the raw file and grouping it in one pass gives the same
      report as folding the raw file in chunks, for any split into chunks:
      per hour the same 取引量, hits and rates. */
  lemma OnePassMatchesChunks(f: Frame, chunks: seq<seq<Row>>)
    requires chunks != [] && Flatten(chunks) == f.rows
    requires Expand.TextColumn(f.columns, Expand.HIT_RULE) && HasColumn(f.columns, EVENT_TIME)
    requires forall k :: 0 <= k < |f.columns| ==> !StartsWith(f.columns[k].name, RULE_PREFIX)
    requires EVENT_TIME !in Expand.AllTokens(f.rows)
    ensures Expand.Expand(f).Ok?
    ensures AnalyzeHourlyRules(Expand.Expand(f).value) == Chunked(f.columns, chunks)
  {
    var e := Expand.Expand(f).value;
    Expand.ExpandColumns(f);
    assert HasColumn(e.columns, EVENT_TIME) by {
      assert EVENT_TIME in Names(f.columns);
    }
    assert ColumnCheck(f.columns, chunks).None?;
    ExpandedParse(f);
    if AllParse(f.rows) {
      OnePassIsWholeFile(f);
      ChunkedIsWholeFile(f.columns, chunks);
    }
  }

  /** Expansion keeps every EVENT_TIME cell, so the expanded file converts
      exactly when the raw one does. */
  lemma ExpandedParse(f: Frame)
    requires Expand.TextColumn(f.columns, Expand.HIT_RULE)
    requires EVENT_TIME !in Expand.AllTokens(f.rows)
    ensures AllParse(Expand.Expand(f).value.rows) <==> AllParse(f.rows)
  {
    var e := Expand.Expand(f).value;
    forall r | r in e.rows ensures exists x :: x in f.rows && Get(r, EVENT_TIME) == Get(x, EVENT_TIME) {
      var i :| 0 <= i < |e.rows| && e.rows[i] == r;
      ExpandedRowAt(f, i);
      assert f.rows[i] in f.rows;
    }
    forall x | x in f.rows ensures exists r :: r in e.rows && Get(r, EVENT_TIME) == Get(x, EVENT_TIME) {
      var i :| 0 <= i < |f.rows| && f.rows[i] == x;
      ExpandedRowAt(f, i);
      assert e.rows[i] in e.rows;
    }
  }

  lemma {:induction false} NameAt(cols: seq<Column>, k: int)
    requires 0 <= k < |cols|
    ensures Names(cols)[k] == cols[k].name
  {
    if k > 0 { NameAt(cols[1..], k - 1); }
  }
}

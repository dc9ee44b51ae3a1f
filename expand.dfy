/** `expand_hit_rules_pandas` (expand_hit_rules.py): the space-separated
    hit_rule text of every row becomes one 0/1 indicator column per distinct
    rule token (`str.get_dummies(sep=" ")`), appended after the original
    columns. */
module Expand {
  import opened Wrappers
  import opened Text
  import opened Table
  import LexOrder

  const HIT_RULE := "hit_rule"

  /** The tokens `get_dummies` sees in one cell: the pieces between single
      spaces, each once, the empty piece left out. */
  function Tokens(s: string): (r: set<string>)
    ensures forall t :: t in r <==> t != "" && t in Split(s, ' ')
  {
    (set p | p in Split(s, ' ')) - {""}
  }

  /** Joining space-free names with single spaces and tokenising gives the
      names back as a set: repeats collapse and empty names vanish. */
  lemma TokensOfJoin(names: seq<string>)
    requires |names| >= 1
    requires forall k :: 0 <= k < |names| ==> ' ' !in names[k]
    ensures Tokens(Join(names, " ")) == (set t | t in names) - {""}
  {
    SplitJoin(names, ' ');
  }

  /** An empty hit_rule (kept as "" because `keep_default_na=False`) holds no
      token at all. */
  lemma EmptyHasNoTokens()
    ensures Tokens("") == {}
  {
    assert Split("", ' ') == [""];
  }

  /** The hit_rule text of a row; a null or non-text cell holds no rule. */
  function HitRule(row: Row): string {
    var c := Get(row, HIT_RULE);
    if c.Some? && c.value.StrV? then c.value.s else ""
  }

  /** Every token that occurs in some row: the indicator columns. */
  function AllTokens(rows: seq<Row>): (r: set<string>)
    ensures forall t :: t in r <==> exists i :: 0 <= i < |rows| && t in Tokens(HitRule(rows[i]))
  {
    set i, t | 0 <= i < |rows| && t in Tokens(HitRule(rows[i])) :: t
  }

  /** The indicator of token `t` for one row. */
  function Indicator(row: Row, t: string): (r: int)
    ensures r == 1 <==> t in Tokens(HitRule(row))
    ensures r == 0 <==> t !in Tokens(HitRule(row))
  {
    if t in Tokens(HitRule(row)) then 1 else 0
  }

  /** The indicator columns, one integer column per token, in the order
      given. */
  function DummyColumns(tokens: seq<string>): (r: seq<Column>)
    ensures Names(r) == tokens
    ensures forall k :: 0 <= k < |r| ==> r[k].ty == Numeric
  {
    if tokens == [] then []
    else
      var r := [Column(tokens[0], Numeric)] + DummyColumns(tokens[1..]);
      assert r[1..] == DummyColumns(tokens[1..]);
      r
  }

  lemma {:induction false} NamesConcat(a: seq<Column>, b: seq<Column>)
    ensures Names(a + b) == Names(a) + Names(b)
  {
    if a != [] {
      assert (a + b)[1..] == a[1..] + b;
      NamesConcat(a[1..], b);
    } else {
      assert a + b == b;
    }
  }

  /** The cells a row gains: the indicator of every token in `ts`. */
  function Indicators(row: Row, ts: set<string>): (r: map<string, Cell>)
    ensures r.Keys == ts
    ensures forall t :: t in ts ==> r[t] == Some(IntV(Indicator(row, t)))
  {
    map t | t in ts :: Some(IntV(Indicator(row, t)))
  }

  /** Whether `.str` may be used on column `name`: it exists and holds
      text (an object column). On a column `read_csv` typed as numbers or
      booleans the accessor raises AttributeError. */
  predicate TextColumn(cols: seq<Column>, name: string) {
    TypeOf(cols, name) == Some(Text) || TypeOf(cols, name) == Some(Object)
  }

  datatype ExpandError =
    | MissingHitRule  // `df["hit_rule"]` on an absent column
    | HitRuleNotText  // `.str` on a numeric or boolean hit_rule column

  /** The expanded frame. */
  function Expand(f: Frame): (r: Result<Frame, ExpandError>)
    ensures r.Err? <==> !TextColumn(f.columns, HIT_RULE)
    ensures r == Err(MissingHitRule) <==> !HasColumn(f.columns, HIT_RULE)
    ensures r.Ok? ==> |r.value.rows| == |f.rows|
    ensures r.Ok? ==> |r.value.columns| >= |f.columns| && r.value.columns[..|f.columns|] == f.columns
  {
    if !HasColumn(f.columns, HIT_RULE) then Err(MissingHitRule)
    else if !TextColumn(f.columns, HIT_RULE) then Err(HitRuleNotText)
    else
      var ts := AllTokens(f.rows);
      Ok(Frame(f.columns + DummyColumns(LexOrder.SortSet(ts)),
               seq(|f.rows|, i requires 0 <= i < |f.rows| => f.rows[i] + Indicators(f.rows[i], ts))))
  }

  /** The schema after expansion: the original names, then one name per
      distinct token in sorted order, each an integer column. */
  lemma ExpandColumns(f: Frame)
    requires TextColumn(f.columns, HIT_RULE)
    ensures var r := Expand(f).value;
      && Names(r.columns) == Names(f.columns) + LexOrder.SortSet(AllTokens(f.rows))
      && (forall t :: t in AllTokens(f.rows) ==> t in Names(r.columns))
      && (forall k :: |f.columns| <= k < |r.columns| ==> r.columns[k].ty == Numeric)
  {
    var ds := DummyColumns(LexOrder.SortSet(AllTokens(f.rows)));
    NamesConcat(f.columns, ds);
    var r := Expand(f).value;
    forall k | |f.columns| <= k < |r.columns| ensures r.columns[k].ty == Numeric {
      assert r.columns[k] == ds[k - |f.columns|];
    }
  }

  /** Row by row: every indicator is 1 exactly when its token occurs in the
      row's hit_rule (repeats still give 1), and every other column keeps
      its cell. */
  lemma ExpandRowAt(f: Frame, i: int)
    requires TextColumn(f.columns, HIT_RULE)
    requires 0 <= i < |f.rows|
    ensures var row := Expand(f).value.rows[i];
      && (forall t :: t in AllTokens(f.rows) ==>
            Get(row, t) == Some(IntV(if t in Tokens(HitRule(f.rows[i])) then 1 else 0)))
      && (forall d :: d !in AllTokens(f.rows) ==> Get(row, d) == Get(f.rows[i], d))
  {
    var ts := AllTokens(f.rows);
    var row := Expand(f).value.rows[i];
    assert row == f.rows[i] + Indicators(f.rows[i], ts);
  }

  /** A row with an empty hit_rule gets 0 in every indicator column. */
  lemma EmptyRuleAllZero(f: Frame, i: int)
    requires TextColumn(f.columns, HIT_RULE)
    requires 0 <= i < |f.rows| && HitRule(f.rows[i]) == ""
    ensures forall t :: t in AllTokens(f.rows) ==> Get(Expand(f).value.rows[i], t) == Some(IntV(0))
  {
    EmptyHasNoTokens();
    ExpandRowAt(f, i);
  }
}

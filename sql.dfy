/** The SQL text the DuckDB dashboards compose: string literals, IN lists and
    conjunctions, together with how the database reads the literals back
    and what a condition means for one row. */
module Sql {
  import opened Wrappers
  import opened Text

  /** A value a widget hands back and a filter compares with. */
  datatype Literal = Str(s: string) | Bool(b: bool) | Int(n: int) | Null

  /** Python's `str(v)`. */
  function PyStr(v: Literal): string {
    match v
    case Str(s) => s
    case Bool(b) => if b then "True" else "False"
    case Int(n) => IntToString(n)
    case Null => "None"
  }

  /** Python's truth value of `v`. */
  predicate Truthy(v: Literal) {
    match v
    case Str(s) => s != ""
    case Bool(b) => b
    case Int(n) => n != 0
    case Null => false
  }

  /** `s.replace("'", "''")`. */
  function Escape(s: string): (r: string)
    ensures '\'' !in s ==> r == s
  {
    if s == [] then []
    else (if s[0] == '\'' then "''" else [s[0]]) + Escape(s[1..])
  }

  /** A string literal as SQL spells it. */
  function Quote(s: string): string {
    "'" + Escape(s) + "'"
  }

  function QuoteAll(items: seq<string>): (r: seq<string>)
    ensures |r| == |items|
    ensures forall k :: 0 <= k < |items| ==> r[k] == Quote(items[k])
  {
    seq(|items|, k requires 0 <= k < |items| => Quote(items[k]))
  }

  /** How the database reads a string literal once past its opening quote:
      up to the first quote that is not doubled, a doubled quote standing for
      one. Gives the value and the text after the closing quote. */
  function ReadBody(t: string): (r: Option<(string, string)>)
    ensures r.Some? ==> |r.value.1| < |t|
    decreases |t|
  {
    if t == [] then None
    else if t[0] == '\'' && (|t| < 2 || t[1] != '\'') then Some(([], t[1..]))
    else
      var skip := if t[0] == '\'' then 2 else 1;
      var r := ReadBody(t[skip..]);
      if r.None? then None else Some(([t[0]] + r.value.0, r.value.1))
  }

  /** How the database reads a list of string literals `'a', 'b'`; None when
      the text is not such a list. */
  function ReadList(t: string): Option<seq<string>>
    decreases |t|
  {
    if t == [] || t[0] != '\'' then None
    else
      var b := ReadBody(t[1..]);
      if b.None? then None
      else
        var rest := b.value.1;
        if rest == [] then Some([b.value.0])
        else if |rest| >= 2 && rest[..2] == ", " then
          var vs := ReadList(rest[2..]);
          if vs.None? then None else Some([b.value.0] + vs.value)
        else None
  }

  /** Reading past one ordinary character keeps it. */
  lemma ReadBodyPlain(c: char, tail: string)
    requires c != '\''
    ensures ReadBody([c] + tail) ==
      if ReadBody(tail).None? then None else Some(([c] + ReadBody(tail).value.0, ReadBody(tail).value.1))
  {
    assert ([c] + tail)[1..] == tail;
  }

  /** Reading past a doubled quote keeps one quote. */
  lemma ReadBodyDoubled(tail: string)
    ensures ReadBody("''" + tail) ==
      if ReadBody(tail).None? then None else Some(("'" + ReadBody(tail).value.0, ReadBody(tail).value.1))
  {
    assert ("''" + tail)[2..] == tail;
  }

  /** An escaped value followed by its closing quote reads back as the value. */
  lemma {:induction false} ReadEscaped(s: string, rest: string)
    requires rest == [] || rest[0] != '\''
    ensures ReadBody(Escape(s) + "'" + rest) == Some((s, rest))
  {
    if s == [] {
      var t := Escape(s) + "'" + rest;
      assert t == "'" + rest;
      assert t[1..] == rest;
    } else {
      ReadEscaped(s[1..], rest);
      ReadEscapedStep(s, rest);
    }
  }

  /** The step of ReadEscaped for the first character of the value. */
  lemma ReadEscapedStep(s: string, rest: string)
    requires s != []
    requires ReadBody(Escape(s[1..]) + "'" + rest) == Some((s[1..], rest))
    ensures ReadBody(Escape(s) + "'" + rest) == Some((s, rest))
  {
    var e := Escape(s[1..]);
    var tail := e + "'" + rest;
    var head := if s[0] == '\'' then "''" else [s[0]];
    assert Escape(s) + "'" + rest == head + tail by {
      assert Escape(s) == head + e;
      Assoc4(head, e, "'", rest);
    }
    if s[0] == '\'' {
      assert ReadBody(head + tail) == Some((s, rest)) by {
        ReadBodyDoubled(tail);
        assert "'" + s[1..] == s;
      }
    } else {
      assert ReadBody(head + tail) == Some((s, rest)) by {
        ReadBodyPlain(s[0], tail);
        assert [s[0]] + s[1..] == s;
      }
    }
  }

  /** Quoting with doubled quotes is lossless: every list of strings reads
      back exactly from its rendering. */
  lemma {:induction false} ListRoundTrip(items: seq<string>)
    requires |items| >= 1
    ensures ReadList(Join(QuoteAll(items), ", ")) == Some(items)
  {
    var t := Join(QuoteAll(items), ", ");
    if |items| == 1 {
      assert t == Quote(items[0]) + "";
      ReadListFirst(items[0], "");
      assert items == [items[0]];
    } else {
      var tail := Join(QuoteAll(items[1..]), ", ");
      var rest := ", " + tail;
      assert t == Quote(items[0]) + rest by {
        assert QuoteAll(items)[1..] == QuoteAll(items[1..]);
      }
      assert rest[..2] == ", " && rest[2..] == tail;
      ReadListFirst(items[0], rest);
      ListRoundTrip(items[1..]);
      assert items == [items[0]] + items[1..];
    }
  }

  /** A list's first literal reads back as its value; what follows decides
      the rest. */
  lemma ReadListFirst(s: string, rest: string)
    requires rest == [] || rest[0] != '\''
    ensures ReadList(Quote(s) + rest) ==
      if rest == [] then Some([s])
      else if |rest| >= 2 && rest[..2] == ", " then
        (if ReadList(rest[2..]).None? then None else Some([s] + ReadList(rest[2..]).value))
      else None
  {
    var body := Escape(s) + "'" + rest;
    var t := Quote(s) + rest;
    assert t == "'" + body by {
      Assoc4("'", Escape(s), "'", rest);
    }
    assert t[1..] == body by {
      DropHead('\'', body);
    }
    assert ReadBody(body) == Some((s, rest)) by {
      ReadEscaped(s, rest);
    }
  }

  lemma Assoc4<T>(a: seq<T>, b: seq<T>, c: seq<T>, d: seq<T>)
    ensures a + b + c + d == a + (b + c + d)
  {
  }

  lemma DropHead<T>(x: T, s: seq<T>)
    ensures ([x] + s)[1..] == s
  {
  }

  /** A filter condition: always true, `col IN (items)` with the column name
      bare or in double quotes, or a conjunction. */
  datatype Cond =
    | Always
    | In(col: string, quotedName: bool, items: seq<Literal>)
    | And(left: Cond, right: Cond)

  /** A literal as SQL spells it. */
  function RenderLiteral(v: Literal): string {
    match v
    case Str(s) => Quote(s)
    case Null => "NULL"
    case _ => PyStr(v)
  }

  function RenderItems(items: seq<Literal>): string {
    Join(seq(|items|, k requires 0 <= k < |items| => RenderLiteral(items[k])), ", ")
  }

  function NameText(col: string, quoted: bool): string {
    if quoted then "\"" + col + "\"" else col
  }


  /** The database converts a literal to the column's type before comparing;
      modelled as comparing the two values' text. NULL matches nothing. */
  predicate Matches(cell: Literal, item: Literal) {
    cell != Null && item != Null && PyStr(cell) == PyStr(item)
  }

  /** Whether a row, mapping column names to values, satisfies `c`. */
  predicate Holds(c: Cond, row: map<string, Literal>) {
    match c
    case Always => true
    case In(col, _, items) => col in row && exists k :: 0 <= k < |items| && Matches(row[col], items[k])
    case And(l, r) => Holds(l, row) && Holds(r, row)
  }

  /** Every bare column name in `c` is free of spaces. */
  predicate PlainNames(c: Cond) {
    match c
    case Always => true
    case In(col, q, _) => q || ' ' !in col
    case And(l, r) => PlainNames(l) && PlainNames(r)
  }

  /** The leftmost operand of a chain of conjunctions. */
  function FirstAtom(c: Cond): (r: Cond)
    ensures !r.And?
    ensures PlainNames(c) ==> PlainNames(r)
  {
    match c
    case And(l, _) => FirstAtom(l)
    case _ => c
  }

  /** The SQL text of a condition; it starts with the text of its leftmost
      operand. */
  function Render(c: Cond): (r: string)
    ensures FirstAtom(c).Always? ==> StartsWith(r, "1=1")
    ensures FirstAtom(c).In? ==> StartsWith(r, AtomHead(FirstAtom(c)))
  {
    match c
    case Always => "1=1"
    case In(col, q, items) => AtomHead(c) + RenderItems(items) + ")"
    case And(l, rt) =>
      var s := Render(l) + " AND " + Render(rt);
      assert s[..|Render(l)|] == Render(l);
      s
  }

  /** The text of an IN condition up to its opening parenthesis. */
  function AtomHead(c: Cond): string
    requires c.In?
  {
    NameText(c.col, c.quotedName) + " IN ("
  }

  /** A bare column name followed by ` 1=1` begins no condition at all: the
      text is not the rendering of any condition, whatever follows it. */
  lemma NameThenTrueIsNoCondition(col: string, rest: string, c: Cond)
    requires col != [] && ' ' !in col && col[0] != '"' && col[0] != '1'
    requires PlainNames(c)
    ensures Render(c) != col + " 1=1" + rest
  {
    var t := col + " 1=1" + rest;
    var k := |col|;
    assert t[k] == ' ' && t[k + 1] == '1' && t[0] == col[0];
    assert forall j :: 0 <= j < k ==> t[j] == col[j];
    var a := FirstAtom(c);
    var p := if a.In? then AtomHead(a) else "1=1";
    assert forall j :: 0 <= j < |p| ==> Render(c)[j] == p[j];
    match a {
      case Always =>
        assert Render(c)[0] == '1';
      case In(col2, q, items) =>
        if q {
          assert Render(c)[0] == '"';
        } else if |col2| < k {
          assert Render(c)[|col2|] == ' ';
        } else if |col2| > k {
          assert Render(c)[k] == col2[k];
        } else {
          assert Render(c)[k + 1] == 'I';
        }
    }
  }
}

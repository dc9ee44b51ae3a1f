/** `convert_tar_to_hdf` (convert_to_hdf.py): one tar.gz archive of TSV
    members becomes one HDF5 table. The output directory is a map from file
    name to what the file holds; the archive is its list of members. */
module ConvertHdf {
  import opened Wrappers
  import opened Text
  import opened Table
  import opened ScoreLevel
  import opened LoaderPreprocess
  import opened PandasPreprocess

  /** The dtype the converter passes to `read_csv` for a header name:
      SCORE, EVENT_VALUE and numeric_col_* are float64 (so that they can
      hold NaN), is_fraud is object, everything else str. */
  function DtypeOf(col: string): ColType {
    if col == SCORE || col == EVENT_VALUE || StartsWith(col, "numeric_col_") then Numeric
    else if col == IS_FRAUD then Object
    else Text
  }

  /** The dtype dictionary built from the first member's header. */
  method HeaderDtypes(header: seq<string>) returns (dtypes: map<string, ColType>)
    ensures dtypes.Keys == set c | c in header
    ensures forall c :: c in dtypes ==> dtypes[c] == DtypeOf(c)
  {
    dtypes := map[];
    var k := 0;
    while k < |header|
      invariant 0 <= k <= |header|
      invariant dtypes.Keys == set c | c in header[..k]
      invariant forall c :: c in dtypes ==> dtypes[c] == DtypeOf(c)
    {
      assert header[..k + 1] == header[..k] + [header[k]];
      dtypes := dtypes[header[k] := DtypeOf(header[k])];
      k := k + 1;
    }
    assert header[..k] == header;
  }

  /** The schema `read_csv(header=0, dtype=dtypes)` gives a member: its own
      header names, each with the dtype the dictionary gives it. A name the
      first member's header lacks is left to pandas' inference, which the
      model does not follow: it is an object column. */
  function ReadColumns(header: seq<string>, dtypes: map<string, ColType>): (r: seq<Column>)
    ensures |r| == |header|
    ensures forall k :: 0 <= k < |header| ==>
      r[k] == Column(header[k], if header[k] in dtypes then dtypes[header[k]] else Object)
  {
    seq(|header|, k requires 0 <= k < |header| =>
      Column(header[k], if header[k] in dtypes then dtypes[header[k]] else Object))
  }

  /** The names the dtype dictionary is keyed by: the first member's first
      line, stripped, split on tabs. */
  function HeaderOf(line: string): seq<string> {
    Split(Strip(line), '\t')
  }

  /** A header cell closed by an ideographic space and a tab, as `strip()`
      leaves it: the dictionary gets the single key ルール1. */
  lemma HeaderOfIdeographicSpace()
    ensures HeaderOf("\U{3000}ルール1\U{3000}\t") == ["ルール1"]
  {
    StripIdeographicSpace();
    SplitNoSeparator("ルール1", '\t');
  }

  /** A header line without its line break ("\r\n", "\n" or "\r"), as
      `read_csv` splits it. */
  function Unterminated(line: string): (r: string)
    ensures |r| <= |line| && r == line[..|r|]
    ensures '\n' !in line && '\r' !in line ==> r == line
  {
    if |line| >= 2 && line[|line| - 2] == '\r' && line[|line| - 1] == '\n' then line[..|line| - 2]
    else if |line| >= 1 && (line[|line| - 1] == '\n' || line[|line| - 1] == '\r') then line[..|line| - 1]
    else line
  }

  /** The name `read_csv(header=0)` gives header field `k`: the field as it
      stands, surrounding whitespace included, or "Unnamed: k" when the
      field is empty. */
  function ColumnName(field: string, k: nat): (r: string)
    ensures r != ""
    ensures field != "" ==> r == field
    ensures field == "" ==> StartsWith(r, "Unnamed: ")
    ensures '\t' !in field ==> '\t' !in r
  {
    if field == "" then
      var r := "Unnamed: " + NatToString(k);
      assert forall i :: 9 <= i < |r| ==> r[i] == NatToString(k)[i - 9];
      r
    else field
  }

  /** The column names `read_csv(sep="\t", header=0)` gives a member: the
      tab-separated fields of its own first line, not stripped. */
  function CsvHeader(line: string): (r: seq<string>)
    ensures |r| == |Split(Unterminated(line), '\t')|
    ensures forall k :: 0 <= k < |r| ==> r[k] != "" && '\t' !in r[k]
  {
    var fields := Split(Unterminated(line), '\t');
    seq(|fields|, k requires 0 <= k < |fields| => ColumnName(fields[k], k))
  }

  /** A character that occurs neither in the items nor in the separator
      does not occur in their join. */
  lemma {:induction false} JoinAvoids(items: seq<string>, sep: string, c: char)
    requires c !in sep
    requires forall k :: 0 <= k < |items| ==> c !in items[k]
    ensures c !in Join(items, sep)
  {
    if |items| > 1 {
      JoinAvoids(items[1..], sep, c);
    }
  }

  /** When no field of a header line is empty, the column names are its
      fields exactly. */
  lemma CsvHeaderOfFields(line: string)
    requires forall k :: 0 <= k < |Split(Unterminated(line), '\t')| ==> Split(Unterminated(line), '\t')[k] != ""
    ensures CsvHeader(line) == Split(Unterminated(line), '\t')
  {
  }

  /** A header line written as tab-joined names, each non-empty and free of
      tabs and line breaks, reads back as exactly those names: `read_csv`
      strips nothing. */
  lemma CsvHeaderOfJoin(names: seq<string>)
    requires |names| >= 1
    requires forall k :: 0 <= k < |names| ==>
      names[k] != "" && '\t' !in names[k] && '\n' !in names[k] && '\r' !in names[k]
    ensures CsvHeader(Join(names, "\t") + "\n") == names
  {
    var j := Join(names, "\t");
    var line := j + "\n";
    assert Unterminated(line) == j by {
      JoinAvoids(names, "\t", '\r');
      assert line[..|line| - 1] == j;
      if |line| >= 2 {
        assert line[|line| - 2] == j[|j| - 1];
        assert j[|j| - 1] in j;
      }
    }
    SplitJoin(names, '\t');
    CsvHeaderOfFields(line);
  }

  /** The ideographic spaces `strip()` removes for the dictionary stay in
      the column name, and the empty field after the tab is named: neither
      column is a key of the dtype dictionary. */
  lemma CsvHeaderKeepsIdeographicSpace()
    ensures CsvHeader("\U{3000}ルール1\U{3000}\t") == ["\U{3000}ルール1\U{3000}", "Unnamed: 1"]
  {
    var a := "\U{3000}ルール1\U{3000}";
    IdeographicHeaderFields();
    UnnamedOne();
    assert ColumnName(a, 0) == a;
  }

  lemma IdeographicHeaderFields()
    ensures Split(Unterminated("\U{3000}ルール1\U{3000}\t"), '\t') == ["\U{3000}ルール1\U{3000}", ""]
  {
    var a := "\U{3000}ルール1\U{3000}";
    var s := a + "\t";
    assert s == "\U{3000}ルール1\U{3000}\t";
    assert Unterminated(s) == s;
    SplitOfPair(a, "");
    assert a + "\t" + "" == s;
  }

  lemma UnnamedOne()
    ensures ColumnName("", 1) == "Unnamed: 1"
  {
    assert NatToString(1) == "1";
  }

  /** Two tab-free fields joined by a tab split back into the two. */
  lemma SplitOfPair(a: string, b: string)
    requires '\t' !in a && '\t' !in b
    ensures Split(a + "\t" + b, '\t') == [a, b]
  {
    assert Join([a, b], "\t") == a + "\t" + b;
    SplitJoin([a, b], '\t');
  }

  /** A padded header name: the dictionary types "SCORE" as float64, but the
      member's column is "SCORE ", which the dictionary lacks. */
  lemma PaddedScoreUntyped()
    ensures DtypeMap(HeaderOf("X\tSCORE ")) == map["X" := Text, "SCORE" := Numeric]
    ensures ReadColumns(CsvHeader("X\tSCORE "), DtypeMap(HeaderOf("X\tSCORE "))) == [Column("X", Text), Column("SCORE ", Object)]
  {
    PaddedScoreKeys();
    PaddedScoreNames();
    var d := map["X" := Text, "SCORE" := Numeric];
    ReadColumnsPair("X", "SCORE ", d);
    assert "SCORE " !in d by {
      assert d.Keys == {"X", "SCORE"};
      assert "SCORE " != "SCORE";
    }
  }

  /** `ReadColumns` on a two-name header. */
  lemma ReadColumnsPair(x: string, y: string, d: map<string, ColType>)
    ensures ReadColumns([x, y], d) ==
      [Column(x, if x in d then d[x] else Object), Column(y, if y in d then d[y] else Object)]
  {
  }

  lemma PaddedScoreKeys()
    ensures DtypeMap(HeaderOf("X\tSCORE ")) == map["X" := Text, "SCORE" := Numeric]
  {
    PaddedScoreHeader();
    DtypeMapPair();
  }

  lemma PaddedScoreHeader()
    ensures HeaderOf("X\tSCORE ") == ["X", "SCORE"]
  {
    PaddedScoreStrip();
    SplitOfPair("X", "SCORE");
    assert "X" + "\t" + "SCORE" == "X\tSCORE";
  }

  lemma DtypeMapPair()
    ensures DtypeMap(["X", "SCORE"]) == map["X" := Text, "SCORE" := Numeric]
  {
    assert DtypeOf("X") == Text && DtypeOf("SCORE") == Numeric;
    var m := DtypeMap(["X", "SCORE"]);
    assert m.Keys == {"X", "SCORE"};
  }

  lemma PaddedScoreStrip()
    ensures Strip("X\tSCORE ") == "X\tSCORE"
  {
    var s := "X\tSCORE ";
    assert StripLeft(s) == s by { assert !IsSpace(s[0]); }
    var m := s[..|s| - 1];
    assert m == "X\tSCORE";
    assert StripRight(s) == StripRight(m) by { assert IsSpace(s[|s| - 1]); }
    assert StripRight(m) == m by { assert !IsSpace(m[|m| - 1]); }
  }

  lemma PaddedScoreNames()
    ensures CsvHeader("X\tSCORE ") == ["X", "SCORE "]
  {
    var s := "X\tSCORE ";
    assert Unterminated(s) == s;
    SplitOfPair("X", "SCORE ");
    assert "X" + "\t" + "SCORE " == s;
    CsvHeaderOfFields(s);
  }

  /** `len(str(x))` for a cell of an object column: NaN prints as "nan",
      booleans as "True"/"False", a timestamp as "YYYY-MM-DD HH:MM:SS". */
  function CellWidth(cell: Cell): nat {
    match cell
    case None => 3
    case Some(StrV(s)) => |s|
    case Some(IntV(n)) => |IntToString(n)|
    case Some(BoolV(b)) => if b then 4 else 5
    case Some(TimeV(_)) => 19
  }

  /** The bytes a cell of an object column takes once pandas encodes its text
      as UTF-8 for the table: the same as its printed length except for text
      with non-ASCII characters. */
  function CellBytes(cell: Cell): (r: nat)
    ensures CellWidth(cell) <= r
  {
    match cell
    case Some(StrV(s)) => Utf8Len(s)
    case _ => CellWidth(cell)
  }

  /** The `min_itemsize` dictionary: for each object column, the length of
      its longest printed cell; no entry at all when the frame has no rows
      (the maximum of nothing is NaN). */
  method MinItemsize(f: Frame) returns (sizes: map<string, nat>)
    ensures sizes.Keys == if |f.rows| == 0 then {} else set c | c in ObjectNames(f.columns)
    ensures forall c :: c in sizes ==>
      && (forall i :: 0 <= i < |f.rows| ==> CellWidth(Get(f.rows[i], c)) <= sizes[c])
      && (exists i :: 0 <= i < |f.rows| && CellWidth(Get(f.rows[i], c)) == sizes[c])
  {
    sizes := map[];
    var cols := ObjectNames(f.columns);
    var k := 0;
    while k < |cols|
      invariant 0 <= k <= |cols|
      invariant sizes.Keys == if |f.rows| == 0 then {} else set c | c in cols[..k]
      invariant forall c :: c in sizes ==>
        && (forall i :: 0 <= i < |f.rows| ==> CellWidth(Get(f.rows[i], c)) <= sizes[c])
        && (exists i :: 0 <= i < |f.rows| && CellWidth(Get(f.rows[i], c)) == sizes[c])
    {
      var c := cols[k];
      assert cols[..k + 1] == cols[..k] + [c];
      if |f.rows| > 0 {
        var longest := ColumnWidth(f.rows, c);
        sizes := sizes[c := longest];
      }
      k := k + 1;
    }
    assert cols[..k] == cols;
  }

  /** The table a store holds under the key "data": its column names, the
      string width fixed for each object column when it was created, and its
      rows in the order they were appended. */
  datatype HdfTable = HdfTable(columns: seq<string>, widths: map<string, nat>, rows: seq<Row>)

  datatype AppendError =
    | ColumnsDiffer
    | StringTooLong(column: string)

  /** The longest UTF-8 encoding among the cells of column `c`. */
  function MaxBytes(rows: seq<Row>, c: string): (r: nat)
    requires |rows| > 0
    ensures forall i :: 0 <= i < |rows| ==> CellBytes(Get(rows[i], c)) <= r
    ensures exists i :: 0 <= i < |rows| && CellBytes(Get(rows[i], c)) == r
  {
    if |rows| == 1 then CellBytes(Get(rows[0], c))
    else
      var rest := MaxBytes(rows[1..], c);
      assert forall i :: 1 <= i < |rows| ==> rows[i] == rows[1..][i - 1];
      var first := CellBytes(Get(rows[0], c));
      if first >= rest then first else rest
  }

  /** The width pandas asks for each object column of a non-empty frame:
      the longest UTF-8 encoding of its cells, raised to the `min_itemsize`
      entry when that is larger. */
  function Requested(f: Frame, sizes: map<string, nat>): (r: map<string, nat>)
    requires |f.rows| > 0
    ensures r.Keys == set c | c in ObjectNames(f.columns)
    ensures forall c :: c in r ==>
      && (c in sizes ==> sizes[c] <= r[c])
      && (forall i :: 0 <= i < |f.rows| ==> CellBytes(Get(f.rows[i], c)) <= r[c])
      && (r[c] == MaxBytes(f.rows, c) || (c in sizes && r[c] == sizes[c]))
  {
    map c | c in ObjectNames(f.columns) ::
      if c in sizes && sizes[c] > MaxBytes(f.rows, c) then sizes[c] else MaxBytes(f.rows, c)
  }

  /** The first column of `names` whose new width exceeds the stored one. */
  function FirstTooLong(names: seq<string>, sizes: map<string, nat>, widths: map<string, nat>): (r: Option<string>)
    ensures r.Some? ==> r.value in names && r.value in sizes && r.value in widths && sizes[r.value] > widths[r.value]
    ensures r.None? ==> forall c :: c in names && c in sizes && c in widths ==> sizes[c] <= widths[c]
  {
    if names == [] then None
    else if names[0] in sizes && names[0] in widths && sizes[names[0]] > widths[names[0]] then Some(names[0])
    else FirstTooLong(names[1..], sizes, widths)
  }

  /** The converter's `min_itemsize`, counted in characters, never exceeds
      the byte widths, so the widths pandas asks for are the byte widths. */
  lemma MinItemsizeNeverBinds(f: Frame)
    requires |f.rows| > 0
    ensures forall c :: c in Requested(f, Widths(f)) ==> Requested(f, Widths(f))[c] == MaxBytes(f.rows, c)
  {
    var w := Widths(f);
    forall c | c in Requested(f, w) ensures Requested(f, w)[c] == MaxBytes(f.rows, c) {
      var i :| 0 <= i < |f.rows| && CellWidth(Get(f.rows[i], c)) == w[c];
      assert CellBytes(Get(f.rows[i], c)) <= MaxBytes(f.rows, c);
    }
  }

  /** A one-row frame whose only column, "c", is text. */
  function TextFrame(s: string): Frame {
    Frame([Column("c", Text)], [map["c" := Some(StrV(s))]])
  }

  /** The table the first append of `TextFrame(a)` creates. */
  function FirstTable(a: string): HdfTable {
    HdfTable(["c"], Requested(TextFrame(a), Widths(TextFrame(a))), TextFrame(a).rows)
  }

  /** Appending a one-column frame to an empty store creates the table, and
      the width it fixes for "c" is the byte length of the text. */
  lemma TextFrameFirst(a: string)
    ensures Append(None, TextFrame(a), Widths(TextFrame(a))) == Ok(Some(FirstTable(a)))
    ensures FirstTable(a).widths.Keys == {"c"} && FirstTable(a).widths["c"] == Utf8Len(a)
  {
    var fa := TextFrame(a);
    assert Names(fa.columns) == ["c"];
    AppendFirst(fa, Widths(fa));
    TextFrameRequested(a);
  }

  /** The only column of a second one-column frame is too long iff its
      byte length exceeds the first's. */
  lemma TextFrameTooLong(a: string, b: string)
    ensures FirstTooLong(["c"], Requested(TextFrame(b), Widths(TextFrame(b))), FirstTable(a).widths) ==
      if Utf8Len(b) > Utf8Len(a) then Some("c") else None
  {
    TextFrameFirst(a);
    TextFrameRequested(b);
    assert ["c"][1..] == [];
  }

  /** A second one-column frame fits iff its byte length is no larger than
      the first's. */
  lemma TextFrameSecond(a: string, b: string)
    ensures Append(Some(FirstTable(a)), TextFrame(b), Widths(TextFrame(b))) ==
      if Utf8Len(b) <= Utf8Len(a) then Ok(Some(FirstTable(a).(rows := TextFrame(a).rows + TextFrame(b).rows)))
      else Err(StringTooLong("c"))
  {
    var fb := TextFrame(b);
    assert Names(fb.columns) == ["c"];
    TextFrameTooLong(a, b);
    AppendLater(FirstTable(a), fb, Widths(fb));
  }

  /** The first non-empty frame creates the table with the widths it asks for. */
  lemma AppendFirst(f: Frame, sizes: map<string, nat>)
    requires |f.rows| > 0
    ensures Append(None, f, sizes) == Ok(Some(HdfTable(Names(f.columns), Requested(f, sizes), f.rows)))
  {
  }

  /** A later non-empty frame with the table's columns is appended unless one
      of its columns asks for more bytes than the table holds. */
  lemma AppendLater(t: HdfTable, f: Frame, sizes: map<string, nat>)
    requires |f.rows| > 0 && Names(f.columns) == t.columns
    ensures var tooLong := FirstTooLong(t.columns, Requested(f, sizes), t.widths);
      Append(Some(t), f, sizes) ==
        if tooLong.Some? then Err(StringTooLong(tooLong.value)) else Ok(Some(t.(rows := t.rows + f.rows)))
  {
  }


  /** A one-row text frame asks for the byte length of its text. */
  lemma TextFrameRequested(s: string)
    ensures var f := TextFrame(s); var r := Requested(f, Widths(f));
      r.Keys == {"c"} && r["c"] == Utf8Len(s)
  {
    var f := TextFrame(s);
    var r := Requested(f, Widths(f));
    assert r.Keys == {"c"} by {
      assert ObjectNames(f.columns) == ["c"];
    }
    assert r["c"] == MaxBytes(f.rows, "c") by {
      MinItemsizeNeverBinds(f);
    }
    assert MaxBytes(f.rows, "c") == Utf8Len(s) by {
      assert |f.rows| == 1 && CellBytes(Get(f.rows[0], "c")) == Utf8Len(s);
    }
  }


  /** Widths are fixed in UTF-8 bytes: after "ルール1" (4 characters, 10
      bytes) the 7-character "abcdefg" still fits. */
  lemma AppendCountsBytesFits()
    ensures var first := Append(None, TextFrame("ルール1"), Widths(TextFrame("ルール1")));
      first.Ok? && Append(first.value, TextFrame("abcdefg"), Widths(TextFrame("abcdefg"))).Ok?
  {
    Utf8LenKatakana();
    Utf8LenAscii("abcdefg");
    TextFrameFirst("ルール1");
    TextFrameSecond("ルール1", "abcdefg");
  }

  /** After "abcd" (4 bytes) the 2-character "ルー" (6 bytes) does not fit. */
  lemma AppendCountsBytesTooLong()
    ensures var first := Append(None, TextFrame("abcd"), Widths(TextFrame("abcd")));
      first.Ok? && Append(first.value, TextFrame("ルー"), Widths(TextFrame("ルー"))) == Err(StringTooLong("c"))
  {
    Utf8LenKatakana();
    Utf8LenAscii("abcd");
    TextFrameFirst("abcd");
    TextFrameSecond("abcd", "ルー");
  }

  /** Katakana takes three bytes per character in UTF-8. */
  lemma Utf8LenKatakana()
    ensures Utf8Len("ルール1") == 10 && Utf8Len("ルー") == 6
  {
    assert Utf8Len("ル1") == 4 by { assert "ル1"[1..] == "1"; }
    assert Utf8Len("ール1") == 7 by { assert "ール1"[1..] == "ル1"; }
    assert "ルール1"[1..] == "ール1";
    assert Utf8Len("ルー") == 6 by { assert "ルー"[1..] == "ー"; }
  }

  /** `store.append("data", df, format="table", min_itemsize=sizes)`: an empty
      frame writes nothing; the first frame creates the table with the widths
      it requests; a later frame must have the same columns, and no column
      may request more bytes than the first fixed. */
  function Append(store: Option<HdfTable>, f: Frame, sizes: map<string, nat>): (r: Result<Option<HdfTable>, AppendError>)
    ensures r.Ok? && r.value.Some? ==> r.value.value.rows == (if store.Some? then store.value.rows else []) + f.rows
    ensures r.Ok? && |f.rows| > 0 ==> r.value.Some?
    ensures r.Err? ==> store.Some? && |f.rows| > 0
  {
    if |f.rows| == 0 then Ok(store)
    else if store.None? then Ok(Some(HdfTable(Names(f.columns), Requested(f, sizes), f.rows)))
    else if Names(f.columns) != store.value.columns then Err(ColumnsDiffer)
    else
      var tooLong := FirstTooLong(Names(f.columns), Requested(f, sizes), store.value.widths);
      if tooLong.Some? then Err(StringTooLong(tooLong.value))
      else Ok(Some(store.value.(rows := store.value.rows + f.rows)))
  }

  /** An archive member: its name, whether it is a regular file, its first
      line, and the data rows pandas reads from it (None when `read_csv`
      raises on it). */
  datatype Member = Member(name: string, isFile: bool, headerLine: string, body: Option<seq<Row>>)

  /** The members the converter reads: regular files named *.tsv or *.txt,
      in archive order. */
  function TsvMembers(members: seq<Member>): (r: seq<Member>)
    ensures forall m :: m in r <==> m in members && m.isFile && (EndsWith(m.name, ".tsv") || EndsWith(m.name, ".txt"))
  {
    if members == [] then []
    else
      var rest := TsvMembers(members[1..]);
      assert forall m :: m in members <==> m == members[0] || m in members[1..];
      var m := members[0];
      if m.isFile && (EndsWith(m.name, ".tsv") || EndsWith(m.name, ".txt")) then [m] + rest else rest
  }

  /** The frame `read_csv` gives for a member and the dtype dictionary: its
      columns are named from the member's own, unstripped header line. */
  function ReadMember(m: Member, dtypes: map<string, ColType>): Option<Frame> {
    if m.body.None? then None else Some(Frame(ReadColumns(CsvHeader(m.headerLine), dtypes), m.body.value))
  }

  /** One member read and preprocessed, as `preprocess_pandas` leaves it. */
  function Processed(f: Frame, t: Thresholds): Frame {
    Frame(PandasColumns(f.columns), PandasRows(f.columns, f.rows, t))
  }

  /** The printed width of the longest cell of column `c`: every cell fits
      in it and some cell reaches it. */
  method ColumnWidth(rows: seq<Row>, c: string) returns (longest: nat)
    requires |rows| > 0
    ensures forall i :: 0 <= i < |rows| ==> CellWidth(Get(rows[i], c)) <= longest
    ensures exists i :: 0 <= i < |rows| && CellWidth(Get(rows[i], c)) == longest
  {
    longest := CellWidth(Get(rows[0], c));
    var j := 1;
    while j < |rows|
      invariant 1 <= j <= |rows|
      invariant forall i :: 0 <= i < j ==> CellWidth(Get(rows[i], c)) <= longest
      invariant exists i :: 0 <= i < j && CellWidth(Get(rows[i], c)) == longest
    {
      var w := CellWidth(Get(rows[j], c));
      if w > longest {
        longest := w;
      }
      j := j + 1;
    }
  }

  /** The object-column widths of a frame, as `MinItemsize` computes them. */
  function Widths(f: Frame): (r: map<string, nat>)
    ensures r.Keys == if |f.rows| == 0 then {} else set c | c in ObjectNames(f.columns)
  {
    if |f.rows| == 0 then map[]
    else map c | c in ObjectNames(f.columns) :: MaxWidth(f.rows, c)
  }

  function MaxWidth(rows: seq<Row>, c: string): (r: nat)
    requires |rows| > 0
    ensures forall i :: 0 <= i < |rows| ==> CellWidth(Get(rows[i], c)) <= r
    ensures exists i :: 0 <= i < |rows| && CellWidth(Get(rows[i], c)) == r
  {
    if |rows| == 1 then CellWidth(Get(rows[0], c))
    else
      var rest := MaxWidth(rows[1..], c);
      assert forall i :: 1 <= i < |rows| ==> rows[i] == rows[1..][i - 1];
      var first := CellWidth(Get(rows[0], c));
      if first >= rest then first else rest
  }

  lemma WidthsUnique(f: Frame, sizes: map<string, nat>)
    requires sizes.Keys == if |f.rows| == 0 then {} else set c | c in ObjectNames(f.columns)
    requires forall c :: c in sizes ==>
      && (forall i :: 0 <= i < |f.rows| ==> CellWidth(Get(f.rows[i], c)) <= sizes[c])
      && (exists i :: 0 <= i < |f.rows| && CellWidth(Get(f.rows[i], c)) == sizes[c])
    ensures sizes == Widths(f)
  {
    var w := Widths(f);
    forall c | c in sizes ensures c in w && sizes[c] == w[c] {
      assert |f.rows| > 0 && w[c] == MaxWidth(f.rows, c);
      WidthIsMax(f.rows, c, sizes[c]);
    }
    MapsAgree(sizes, w);
  }

  lemma MapsAgree<K, V>(a: map<K, V>, b: map<K, V>)
    requires a.Keys == b.Keys
    requires forall k :: k in a ==> k in b && a[k] == b[k]
    ensures a == b
  {
  }

  /** A width every cell fits in and some cell reaches is the maximum. */
  lemma WidthIsMax(rows: seq<Row>, c: string, n: nat)
    requires |rows| > 0
    requires forall i :: 0 <= i < |rows| ==> CellWidth(Get(rows[i], c)) <= n
    requires exists i :: 0 <= i < |rows| && CellWidth(Get(rows[i], c)) == n
    ensures n == MaxWidth(rows, c)
  {
  }

  /** Why a conversion stopped; the exception is caught and reported, and
      the store file created before it stays behind. */
  datatype ConvertError = ReadFailed(member: string) | AppendFailed(error: AppendError)

  datatype Outcome = Skipped | NoMembers | Saved | Failed(error: ConvertError)

  function RowsOf(store: Option<HdfTable>): seq<Row> {
    if store.Some? then store.value.rows else []
  }

  /** The rows a member contributes once read and preprocessed. */
  function MemberRows(m: Member, dtypes: map<string, ColType>, t: Thresholds): seq<Row> {
    var f := ReadMember(m, dtypes);
    if f.Some? then Processed(f.value, t).rows else []
  }

  /** One pass of the append loop: read the member, preprocess it, append
      it. */
  function Step(store: Option<HdfTable>, m: Member, dtypes: map<string, ColType>, t: Thresholds): (r: Result<Option<HdfTable>, ConvertError>)
    ensures r.Ok? ==> RowsOf(r.value) == RowsOf(store) + MemberRows(m, dtypes, t)
    ensures r.Err? && m.body.None? ==> r.error == ReadFailed(m.name)
  {
    var f := ReadMember(m, dtypes);
    if f.None? then Err(ReadFailed(m.name))
    else
      var p := Processed(f.value, t);
      var appended := Append(store, p, Widths(p));
      if appended.Err? then Err(AppendFailed(appended.error)) else Ok(appended.value)
  }

  /** The append loop over the members, from a given store: the store as the
      last successful append left it, and the error that stopped the loop. */
  function AppendAll(store: Option<HdfTable>, members: seq<Member>, dtypes: map<string, ColType>, t: Thresholds): (r: (Option<HdfTable>, Option<ConvertError>))
    decreases |members|
  {
    if members == [] then (store, None)
    else
      var next := Step(store, members[0], dtypes, t);
      if next.Err? then (store, Some(next.error))
      else AppendAll(next.value, members[1..], dtypes, t)
  }

  /** One pass of the append loop, over the members from `k` on. */
  lemma AppendAllStep(store: Option<HdfTable>, members: seq<Member>, k: int, dtypes: map<string, ColType>, t: Thresholds)
    requires 0 <= k < |members|
    ensures AppendAll(store, members[k..], dtypes, t) ==
      var next := Step(store, members[k], dtypes, t);
      if next.Err? then (store, Some(next.error)) else AppendAll(next.value, members[k + 1..], dtypes, t)
  {
    assert members[k..][0] == members[k] && members[k..][1..] == members[k + 1..];
  }

  /** The output file name: the archive name without ".tar.gz", plus ".h5". */
  function OutputName(archive: string): string {
    RemoveSuffix(archive, ".tar.gz") + ".h5"
  }

  function DtypeMap(header: seq<string>): (r: map<string, ColType>)
    ensures r.Keys == set c | c in header
    ensures forall c :: c in r ==> r[c] == DtypeOf(c)
  {
    map c | c in header :: DtypeOf(c)
  }

  /** The whole conversion of one archive on an output directory. */
  function Convert(files: map<string, Option<HdfTable>>, archive: string, members: seq<Member>, t: Thresholds): (r: (map<string, Option<HdfTable>>, Outcome))
    ensures r.1 == Skipped <==> OutputName(archive) in files
    ensures r.0.Keys <= files.Keys + {OutputName(archive)}
    ensures forall k :: k in files && k != OutputName(archive) ==> k in r.0 && r.0[k] == files[k]
    ensures r.1.Saved? || r.1.Failed? ==> OutputName(archive) in r.0
  {
    var out := OutputName(archive);
    if out in files then (files, Skipped)
    else
      var tsv := TsvMembers(members);
      if tsv == [] then (files, NoMembers)
      else
        var dtypes := DtypeMap(HeaderOf(tsv[0].headerLine));
        var appended := AppendAll(None, tsv, dtypes, t);
        (files[out := appended.0], if appended.1.Some? then Failed(appended.1.value) else Saved)
  }

  /** The preprocessed rows of the members, one member after the other. */
  function ProcessedRows(members: seq<Member>, dtypes: map<string, ColType>, t: Thresholds): seq<Row>
    decreases |members|
  {
    if members == [] then []
    else MemberRows(members[0], dtypes, t) + ProcessedRows(members[1..], dtypes, t)
  }

  /** A loop that stops on no error has appended every member's preprocessed
      rows, in archive order, after what the store held. */
  lemma {:induction false} AppendAllRows(store: Option<HdfTable>, members: seq<Member>, dtypes: map<string, ColType>, t: Thresholds)
    ensures AppendAll(store, members, dtypes, t).1.None? ==>
      RowsOf(AppendAll(store, members, dtypes, t).0) == RowsOf(store) + ProcessedRows(members, dtypes, t)
    decreases |members|
  {
    if members != [] {
      var next := Step(store, members[0], dtypes, t);
      if next.Ok? {
        var mid := RowsOf(next.value);
        var later := ProcessedRows(members[1..], dtypes, t);
        assert AppendAll(store, members, dtypes, t) == AppendAll(next.value, members[1..], dtypes, t);
        AppendAllRows(next.value, members[1..], dtypes, t);
        assert mid == RowsOf(store) + MemberRows(members[0], dtypes, t);
        assert ProcessedRows(members, dtypes, t) == MemberRows(members[0], dtypes, t) + later;
        Regroup(RowsOf(store), MemberRows(members[0], dtypes, t), later);
      }
    }
  }

  lemma Regroup<T>(a: seq<T>, b: seq<T>, c: seq<T>)
    ensures (a + b) + c == a + (b + c)
  {
  }

  /** A conversion that reports success leaves one file, named after the
      archive, whose table holds the preprocessed rows of every TSV member in
      order; every other file is as it was. */
  lemma ConvertSaved(files: map<string, Option<HdfTable>>, archive: string, members: seq<Member>, t: Thresholds)
    requires Convert(files, archive, members, t).1 == Saved
    ensures var after := Convert(files, archive, members, t).0;
      var tsv := TsvMembers(members);
      && OutputName(archive) !in files
      && after.Keys == files.Keys + {OutputName(archive)}
      && RowsOf(after[OutputName(archive)]) == ProcessedRows(tsv, DtypeMap(HeaderOf(tsv[0].headerLine)), t)
      && forall p :: p in files ==> after[p] == files[p]
  {
    var tsv := TsvMembers(members);
    var dtypes := DtypeMap(HeaderOf(tsv[0].headerLine));
    var store := AppendAll(None, tsv, dtypes, t).0;
    ConvertStore(files, archive, members, t);
    assert RowsOf(store) == ProcessedRows(tsv, dtypes, t) by {
      AppendAllRows(None, tsv, dtypes, t);
      assert RowsOf(None) == [];
    }
    StoreAdded(files, OutputName(archive), store, ProcessedRows(tsv, dtypes, t));
  }

  /** Adding a new store to the output directory keeps every other file. */
  lemma StoreAdded(files: map<string, Option<HdfTable>>, out: string, store: Option<HdfTable>, rows: seq<Row>)
    requires out !in files && RowsOf(store) == rows
    ensures var after := files[out := store];
      && after.Keys == files.Keys + {out}
      && RowsOf(after[out]) == rows
      && forall p :: p in files ==> after[p] == files[p]
  {
  }

  /** A saved conversion appended every tabular member to a fresh store. */
  lemma ConvertStore(files: map<string, Option<HdfTable>>, archive: string, members: seq<Member>, t: Thresholds)
    requires Convert(files, archive, members, t).1 == Saved
    ensures var tsv := TsvMembers(members);
      && OutputName(archive) !in files && tsv != []
      && var appended := AppendAll(None, tsv, DtypeMap(HeaderOf(tsv[0].headerLine)), t);
      && appended.1.None?
      && Convert(files, archive, members, t).0 == files[OutputName(archive) := appended.0]
  {
  }

  /** The store is created before the first member is read, so a conversion
      that fails leaves its output file behind, and converting the same
      archive again skips it without retrying. */
  lemma FailureBlocksRetry(files: map<string, Option<HdfTable>>, archive: string, members: seq<Member>, t: Thresholds)
    requires Convert(files, archive, members, t).1.Failed?
    ensures var after := Convert(files, archive, members, t).0;
      && OutputName(archive) in after && OutputName(archive) !in files
      && Convert(after, archive, members, t) == (after, Skipped)
  {
  }

  /** An archive with no TSV member, or whose output already exists, leaves
      the directory as it was. */
  lemma ConvertNoChange(files: map<string, Option<HdfTable>>, archive: string, members: seq<Member>, t: Thresholds)
    ensures var (after, outcome) := Convert(files, archive, members, t);
      && (outcome == Skipped <==> OutputName(archive) in files)
      && (outcome == NoMembers <==> OutputName(archive) !in files && TsvMembers(members) == [])
      && (outcome in {Skipped, NoMembers} <==> after == files)
  {
  }

  /** The output directory the converter writes into. */
  class OutputDir {
    var files: map<string, Option<HdfTable>>

    constructor(existing: map<string, Option<HdfTable>>)
      ensures files == existing
    {
      files := existing;
    }

    /** `convert_tar_to_hdf(archive, output_dir, [a, b])`. */
    method ConvertTarToHdf(archive: string, members: seq<Member>, a: int, b: int) returns (outcome: Outcome)
      modifies this
      ensures (files, outcome) == Convert(old(files), archive, members, SortThresholds(a, b))
    {
      var out := OutputName(archive);
      if out in files {
        return Skipped;
      }
      var tsv := TsvMembers(members);
      if tsv == [] {
        return NoMembers;
      }
      var dtypes := HeaderDtypes(HeaderOf(tsv[0].headerLine));
      assert dtypes == DtypeMap(HeaderOf(tsv[0].headerLine));
      ghost var t := SortThresholds(a, b);
      var before := files;
      var store: Option<HdfTable> := None;
      files := before[out := store];
      var k := 0;
      while k < |tsv|
        invariant 0 <= k <= |tsv|
        invariant files == before[out := store]
        invariant AppendAll(None, tsv, dtypes, t) == AppendAll(store, tsv[k..], dtypes, t)
      {
        var next := AppendMember(store, tsv[k], dtypes, a, b);
        AppendAllStep(store, tsv, k, dtypes, t);
        if next.Err? {
          return Failed(next.error);
        }
        store := next.value;
        files := before[out := store];
        k := k + 1;
      }
      assert tsv[k..] == [];
      return Saved;
    }
  
    /** One pass of the loop body. */
    static method AppendMember(store: Option<HdfTable>, m: Member, dtypes: map<string, ColType>, a: int, b: int)
      returns (next: Result<Option<HdfTable>, ConvertError>)
      ensures next == Step(store, m, dtypes, SortThresholds(a, b))
    {
      if m.body.None? {
        return Err(ReadFailed(m.name));
      }
      var df := new DataFrame(Frame(ReadColumns(CsvHeader(m.headerLine), dtypes), m.body.value));
      PandasPreprocess.Preprocess(df, a, b);
      var sizes := MinItemsize(df.Value());
      WidthsUnique(df.Value(), sizes);
      var appended := Append(store, df.Value(), sizes);
      if appended.Err? {
        return Err(AppendFailed(appended.error));
      }
      return Ok(appended.value);
    }
  }
}

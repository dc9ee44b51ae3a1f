/** `write_parquet(dir, partition_by=["event_month", "score_level"])`
    (data_loader.py): the rows are routed to one part per distinct
    (event_month, score_level) pair, each keeping the rows' order. */
module Partition {
  import opened Table
  import LoaderPreprocess

  /** The directory a row goes to: its event_month and score_level cells. */
  datatype PartKey = PartKey(month: Cell, level: Cell)

  function KeyOf(row: Row): PartKey {
    PartKey(Get(row, LoaderPreprocess.EVENT_MONTH), Get(row, LoaderPreprocess.SCORE_LEVEL))
  }

  /** The keys that occur in `rows`. */
  function Keys(rows: seq<Row>): set<PartKey> {
    set i | 0 <= i < |rows| :: KeyOf(rows[i])
  }

  /** The rows whose key lies in `ks`, in their order. */
  function SelectIn(rows: seq<Row>, ks: set<PartKey>): (r: seq<Row>)
    ensures |r| <= |rows|
    ensures forall i :: 0 <= i < |r| ==> KeyOf(r[i]) in ks
  {
    if rows == [] then []
    else
      var rest := SelectIn(rows[1..], ks);
      if KeyOf(rows[0]) in ks then [rows[0]] + rest else rest
  }

  /** The rows of one part, in their order; a key that occurs gets at least
      one row. */
  function Select(rows: seq<Row>, k: PartKey): (r: seq<Row>)
    ensures forall i :: 0 <= i < |r| ==> KeyOf(r[i]) == k
    ensures k in Keys(rows) ==> r != []
  {
    if rows == [] then []
    else
      var rest := Select(rows[1..], k);
      assert k in Keys(rows) && KeyOf(rows[0]) != k ==> k in Keys(rows[1..]) by {
        if k in Keys(rows) && KeyOf(rows[0]) != k {
          var i :| 0 <= i < |rows| && KeyOf(rows[i]) == k;
          assert rows[1..][i - 1] == rows[i];
        }
      }
      if KeyOf(rows[0]) == k then [rows[0]] + rest else rest
  }

  /** The partitioned dataset: one non-empty part per key that occurs. */
  function Parts(rows: seq<Row>): (r: map<PartKey, seq<Row>>)
    ensures r.Keys == Keys(rows)
    ensures forall k :: k in r ==> r[k] != [] && forall i :: 0 <= i < |r[k]| ==> KeyOf(r[k][i]) == k
  {
    map k | k in Keys(rows) :: Select(rows, k)
  }

  /** Reading the parts back one after the other, in the order `ks`. */
  function Gather(parts: map<PartKey, seq<Row>>, ks: seq<PartKey>): seq<Row>
    requires forall k :: k in ks ==> k in parts
  {
    if ks == [] then [] else parts[ks[0]] + Gather(parts, ks[1..])
  }

  predicate Distinct(ks: seq<PartKey>) {
    forall i, j :: 0 <= i < j < |ks| ==> ks[i] != ks[j]
  }

  lemma {:induction false} SelectSplit(rows: seq<Row>, k: PartKey, ks: set<PartKey>)
    requires k !in ks
    ensures multiset(SelectIn(rows, {k} + ks)) == multiset(Select(rows, k)) + multiset(SelectIn(rows, ks))
  {
    if rows != [] {
      SelectSplit(rows[1..], k, ks);
    }
  }

  lemma {:induction false} SelectInEmpty(rows: seq<Row>)
    ensures SelectIn(rows, {}) == []
  {
    if rows != [] { SelectInEmpty(rows[1..]); }
  }

  lemma {:induction false} GatherSelects(rows: seq<Row>, ks: seq<PartKey>)
    requires Distinct(ks)
    requires forall k :: k in ks ==> k in Keys(rows)
    ensures multiset(Gather(Parts(rows), ks)) == multiset(SelectIn(rows, set k | k in ks))
  {
    if ks == [] {
      SelectInEmpty(rows);
      assert (set k | k in ks) == {};
    } else {
      var rest := ks[1..];
      assert Distinct(rest);
      GatherSelects(rows, rest);
      assert (set k | k in ks) == {ks[0]} + (set k | k in rest);
      assert ks[0] !in (set k | k in rest);
      SelectSplit(rows, ks[0], set k | k in rest);
    }
  }

  lemma {:induction false} SelectInAll(rows: seq<Row>, ks: set<PartKey>)
    requires Keys(rows) <= ks
    ensures SelectIn(rows, ks) == rows
  {
    if rows != [] {
      assert KeyOf(rows[0]) in Keys(rows);
      assert Keys(rows[1..]) <= Keys(rows) by {
        forall k | k in Keys(rows[1..]) ensures k in Keys(rows) {
          var i :| 0 <= i < |rows[1..]| && KeyOf(rows[1..][i]) == k;
          assert rows[1..][i] == rows[i + 1];
        }
      }
      SelectInAll(rows[1..], ks);
      assert [rows[0]] + rows[1..] == rows;
    }
  }

  /** Reading every part back, in any order that lists each key once, gives
      the processed rows again, up to order: no row is lost or duplicated. */
  lemma PartsArePermutation(rows: seq<Row>, ks: seq<PartKey>)
    requires Distinct(ks)
    requires (set k | k in ks) == Parts(rows).Keys
    ensures multiset(Gather(Parts(rows), ks)) == multiset(rows)
  {
    GatherSelects(rows, ks);
    SelectInAll(rows, set k | k in ks);
  }
}

/** Forward and backward filling of a column of nullable cells, as
    `forward_fill()` / `ffill()` and `bfill()` do it. */
module Fill {
  import opened Wrappers

  /** The last non-null value of `s`, if any (the reference definition of
      what forward filling puts at the end of `s`). */
  function LastSome<T>(s: seq<Option<T>>): Option<T> {
    if s == [] then None
    else if s[|s| - 1].Some? then s[|s| - 1]
    else LastSome(s[..|s| - 1])
  }

  /** The first non-null value of `s`, if any. */
  function FirstSome<T>(s: seq<Option<T>>): Option<T> {
    if s == [] then None
    else if s[0].Some? then s[0]
    else FirstSome(s[1..])
  }

  /** Forward fill that starts with `last` carried in from earlier rows. */
  function ForwardFillFrom<T>(last: Option<T>, s: seq<Option<T>>): (r: seq<Option<T>>)
    ensures |r| == |s|
    decreases |s|
  {
    if s == [] then []
    else
      var v := if s[0].Some? then s[0] else last;
      [v] + ForwardFillFrom(v, s[1..])
  }

  /** `forward_fill()` over one column: nothing is carried in. */
  function ForwardFill<T>(s: seq<Option<T>>): (r: seq<Option<T>>)
    ensures |r| == |s|
  {
    ForwardFillFrom(None, s)
  }

  /** `bfill()` over one column. */
  function BackFill<T>(s: seq<Option<T>>): (r: seq<Option<T>>)
    ensures |r| == |s|
  {
    if s == [] then []
    else
      var rest := BackFill(s[1..]);
      [if s[0].Some? then s[0] else if rest == [] then None else rest[0]] + rest
  }

  /** What carrying `last` through `s` leaves as the carried value. */
  function Carry<T>(last: Option<T>, s: seq<Option<T>>): Option<T> {
    if LastSome(s).Some? then LastSome(s) else last
  }

  lemma {:induction false} LastSomeCons<T>(x: Option<T>, u: seq<Option<T>>)
    ensures LastSome([x] + u) == Carry(x, u)
    decreases |u|
  {
    if u != [] {
      var s := [x] + u;
      assert s[..|s| - 1] == [x] + u[..|u| - 1];
      LastSomeCons(x, u[..|u| - 1]);
    }
  }

  /** Each forward-filled cell is the nearest non-null cell at or above it,
      or what was carried in when there is none. */
  lemma {:induction false} ForwardFillFromAt<T>(last: Option<T>, s: seq<Option<T>>, i: nat)
    requires i < |s|
    ensures ForwardFillFrom(last, s)[i] == Carry(last, s[..i + 1])
    decreases i
  {
    var v := if s[0].Some? then s[0] else last;
    assert ForwardFillFrom(last, s)[0] == v;
    if i == 0 {
      var p := s[..1];
      assert p[|p| - 1] == s[0] && p[..|p| - 1] == [];
      assert LastSome(p) == (if s[0].Some? then s[0] else None);
    } else {
      ForwardFillFromAt(v, s[1..], i - 1);
      assert s[1..][..i] == s[1..i + 1];
      assert s[..i + 1] == [s[0]] + s[1..i + 1];
      LastSomeCons(s[0], s[1..i + 1]);
    }
  }

  /** `forward_fill()`: a null takes the nearest preceding non-null value;
      leading nulls stay null; non-null cells are kept. */
  lemma ForwardFillAt<T>(s: seq<Option<T>>, i: nat)
    requires i < |s|
    ensures ForwardFill(s)[i] == LastSome(s[..i + 1])
    ensures s[i].Some? ==> ForwardFill(s)[i] == s[i]
    ensures (forall k :: 0 <= k <= i ==> s[k].None?) ==> ForwardFill(s)[i].None?
    ensures (exists k :: 0 <= k <= i && s[k].Some?) ==> ForwardFill(s)[i].Some?
  {
    ForwardFillFromAt(None, s, i);
    var p := s[..i + 1];
    assert p[|p| - 1] == s[i];
    if forall k :: 0 <= k <= i ==> s[k].None? {
      LastSomeNone(p);
    }
    if exists k :: 0 <= k <= i && s[k].Some? {
      var k :| 0 <= k <= i && s[k].Some?;
      assert p[k] == s[k];
      LastSomeSome(p, k);
    }
  }

  lemma {:induction false} LastSomeNone<T>(s: seq<Option<T>>)
    requires forall k :: 0 <= k < |s| ==> s[k].None?
    ensures LastSome(s).None?
  {
    if s != [] { LastSomeNone(s[..|s| - 1]); }
  }

  lemma {:induction false} LastSomeSome<T>(s: seq<Option<T>>, k: nat)
    requires k < |s| && s[k].Some?
    ensures LastSome(s).Some?
  {
    if s[|s| - 1].None? {
      assert k < |s| - 1;
      LastSomeSome(s[..|s| - 1], k);
    }
  }

  /** Each back-filled cell is the nearest non-null cell at or below it. */
  lemma {:induction false} BackFillAt<T>(s: seq<Option<T>>, i: nat)
    requires i < |s|
    ensures BackFill(s)[i] == FirstSome(s[i..])
    decreases |s|
  {
    if i == 0 {
      if s[0].None? && |s| > 1 {
        BackFillAt(s[1..], 0);
        assert s[1..][0..] == s[1..];
      }
      assert s[0..] == s;
    } else {
      BackFillAt(s[1..], i - 1);
      assert s[1..][i - 1..] == s[i..];
    }
  }

  lemma {:induction false} FirstSomeSome<T>(s: seq<Option<T>>, k: nat)
    requires k < |s| && s[k].Some?
    ensures FirstSome(s).Some?
  {
    if s[0].None? {
      FirstSomeSome(s[1..], k - 1);
    }
  }

  lemma {:induction false} FirstSomeNone<T>(s: seq<Option<T>>)
    requires forall k :: 0 <= k < |s| ==> s[k].None?
    ensures FirstSome(s).None?
  {
    if s != [] { FirstSomeNone(s[1..]); }
  }

  /** `ffill()` then `bfill()`: when the column holds at least one non-null
      value, no null remains; when it holds none, it stays entirely null. */
  lemma FillBothWays<T>(s: seq<Option<T>>)
    ensures var r := BackFill(ForwardFill(s));
      && |r| == |s|
      && ((exists k :: 0 <= k < |s| && s[k].Some?) ==> forall i :: 0 <= i < |s| ==> r[i].Some?)
      && ((forall k :: 0 <= k < |s| ==> s[k].None?) ==> forall i :: 0 <= i < |s| ==> r[i].None?)
  {
    var f := ForwardFill(s);
    var r := BackFill(f);
    if exists k :: 0 <= k < |s| && s[k].Some? {
      var k :| 0 <= k < |s| && s[k].Some?;
      ForwardFillAt(s, k);
      forall i | 0 <= i < |s| ensures r[i].Some? {
        BackFillAt(f, i);
        if i <= k {
          FirstSomeSome(f[i..], k - i);
        } else {
          ForwardFillAt(s, i);
          FirstSomeSome(f[i..], 0);
        }
      }
    }
    if forall k :: 0 <= k < |s| ==> s[k].None? {
      forall i | 0 <= i < |s| ensures r[i].None? {
        BackFillAt(f, i);
        forall j | i <= j < |s| ensures f[j].None? { ForwardFillAt(s, j); }
        FirstSomeNone(f[i..]);
      }
    }
  }

  /** Filling a concatenation in one pass carries the last value of the first
      part into the second. */
  lemma {:induction false} ForwardFillConcat<T>(last: Option<T>, a: seq<Option<T>>, b: seq<Option<T>>)
    ensures ForwardFillFrom(last, a + b) == ForwardFillFrom(last, a) + ForwardFillFrom(Carry(last, a), b)
    decreases |a|
  {
    if a == [] {
      assert a + b == b;
    } else {
      var v := if a[0].Some? then a[0] else last;
      var ab := a + b;
      assert ab[0] == a[0] && ab[1..] == a[1..] + b;
      var fa := ForwardFillFrom(v, a[1..]);
      var fb := ForwardFillFrom(Carry(v, a[1..]), b);
      assert ForwardFillFrom(v, ab[1..]) == fa + fb by {
        ForwardFillConcat(v, a[1..], b);
      }
      assert Carry(v, a[1..]) == Carry(last, a) by {
        LastSomeCons(a[0], a[1..]);
        assert [a[0]] + a[1..] == a;
      }
      assert [v] + (fa + fb) == ([v] + fa) + fb;
    }
  }

  /** Filling each batch on its own (nothing carried across the boundary) can
      differ from filling the concatenation. */
  lemma PerBatchFillDiffers<T>(x: T)
    ensures ForwardFill([Some(x)]) + ForwardFill([None]) == [Some(x), None]
    ensures ForwardFill([Some(x)] + [None]) == [Some(x), Some(x)]
  {
    assert ForwardFillFrom(Some(x), [None]) == [Some(x)];
    assert [Some(x)] + [None] == [Some(x), None];
    assert [Some(x), None][1..] == [None];
  }
}

/** `DataLoader.find_files` (data_loader.py): a top-down walk of the input
    directory that prunes some directory names and keeps the data files. */
module Discovery {
  import opened Wrappers
  import opened Text

  /** A directory entry; files carry their contents, of any type. */
  datatype Node<C> = File(name: string, content: C) | Dir(name: string, children: seq<Node<C>>)

  /** A path below the input root, one component per level. */
  type Path = seq<string>

  /** A file the walk yields: its path and its contents. */
  datatype Found<C> = Found(path: Path, content: C)

  /** The directory names the walk never descends into. */
  const Excluded: set<string> := {".venv", "__pycache__", ".git", "tests"}

  /** The file names the walk keeps: `name.endswith((".tsv", ".txt", ".tar.gz"))`. */
  predicate IsDataName(name: string) {
    EndsWith(name, ".tsv") || EndsWith(name, ".txt") || EndsWith(name, ".tar.gz")
  }

  function Size<C(==,!new)>(n: Node<C>): nat {
    match n
    case File(_, _) => 1
    case Dir(_, children) => 1 + SizeAll(children)
  }

  function SizeAll<C(==,!new)>(ns: seq<Node<C>>): nat {
    if ns == [] then 0 else Size(ns[0]) + SizeAll(ns[1..])
  }

  /** The files of one directory the walk keeps, in listing order. */
  function FilesHere<C(==,!new)>(es: seq<Node<C>>): (r: seq<Found<C>>)
    ensures forall x :: x in r <==> exists e :: e in es && e.File? && IsDataName(e.name) && x == Found([e.name], e.content)
  {
    if es == [] then []
    else
      var rest := FilesHere(es[1..]);
      assert forall e :: e in es <==> e == es[0] || e in es[1..];
      if es[0].File? && IsDataName(es[0].name) then [Found([es[0].name], es[0].content)] + rest else rest
  }

  /** `dirs[:] = [d for d in dirs if d not in exclude_dirs]`. */
  function KeptDirs<C(==,!new)>(es: seq<Node<C>>): (r: seq<Node<C>>)
    ensures forall d :: d in r <==> d in es && d.Dir? && d.name !in Excluded
    ensures SizeAll(r) <= SizeAll(es)
  {
    if es == [] then []
    else
      var rest := KeptDirs(es[1..]);
      assert forall e :: e in es <==> e == es[0] || e in es[1..];
      if es[0].Dir? && es[0].name !in Excluded then
        var r := [es[0]] + rest;
        assert r[1..] == rest;
        r
      else rest
  }

  /** Prefix every path found with `pre`. */
  function Under<C(==,!new)>(pre: Path, fs: seq<Found<C>>): (r: seq<Found<C>>)
    ensures |r| == |fs|
    ensures forall i :: 0 <= i < |fs| ==> r[i] == Found(pre + fs[i].path, fs[i].content)
  {
    seq(|fs|, i requires 0 <= i < |fs| => Found(pre + fs[i].path, fs[i].content))
  }

  /** The walk of a directory listing: its own data files first, then each
      kept subdirectory in listing order, as `os.walk(topdown=True)` visits
      them after the loop body has pruned `dirs`. */
  function Walk<C(==,!new)>(es: seq<Node<C>>): (r: seq<Found<C>>)
    ensures forall x :: x in r ==> |x.path| >= 1 && IsDataName(x.path[|x.path| - 1])
    decreases SizeAll(es), 1
  {
    FilesHere(es) + WalkDirs(KeptDirs(es))
  }

  function WalkDirs<C(==,!new)>(ds: seq<Node<C>>): (r: seq<Found<C>>)
    requires forall d :: d in ds ==> d.Dir?
    ensures forall x :: x in r ==> |x.path| >= 1 && IsDataName(x.path[|x.path| - 1])
    decreases SizeAll(ds), 0
  {
    if ds == [] then []
    else
      assert SizeAll(ds) == 1 + SizeAll(ds[0].children) + SizeAll(ds[1..]);
      Under([ds[0].name], Walk(ds[0].children)) + WalkDirs(ds[1..])
  }

  /** A file with contents `c` sits at path `p` below the listing `es`. */
  predicate At<C(==,!new)>(es: seq<Node<C>>, p: Path, c: C)
    decreases |p|
  {
    exists e :: e in es &&
      ((e.File? && p == [e.name] && e.content == c) ||
       (e.Dir? && |p| > 1 && p[0] == e.name && At(e.children, p[1..], c)))
  }

  /** The paths the walk is meant to yield: a data file name, reached through
      no excluded directory. */
  predicate Wanted(p: Path) {
    |p| >= 1 && IsDataName(p[|p| - 1]) && forall k :: 0 <= k < |p| - 1 ==> p[k] !in Excluded
  }

  lemma UnderMember<C(!new)>(pre: Path, fs: seq<Found<C>>, x: Found<C>)
    ensures x in Under(pre, fs) <==>
      |x.path| >= |pre| && x.path[..|pre|] == pre && Found(x.path[|pre|..], x.content) in fs
  {
    var r := Under(pre, fs);
    if x in r {
      var i :| 0 <= i < |r| && r[i] == x;
      assert x.path[|pre|..] == fs[i].path;
    }
    if |x.path| >= |pre| && x.path[..|pre|] == pre && Found(x.path[|pre|..], x.content) in fs {
      var i :| 0 <= i < |fs| && fs[i] == Found(x.path[|pre|..], x.content);
      assert x.path == pre + fs[i].path;
      assert r[i] == x;
    }
  }

  /** Everything the walk yields is a wanted file that is really there, and
      every wanted file that is there is yielded. */
  lemma {:induction false} WalkExact<C(!new)>(es: seq<Node<C>>, x: Found<C>)
    ensures x in Walk(es) <==> At(es, x.path, x.content) && Wanted(x.path)
    decreases SizeAll(es), 1
  {
    WalkDirsExact(KeptDirs(es), x);
    WalkFromDirs(es, x);
  }

  /** `x` lies inside directory `d`: its path goes through `d` to a wanted
      data file below it. */
  predicate Below<C(==,!new)>(d: Node<C>, x: Found<C>)
    requires d.Dir?
  {
    |x.path| > 1 && x.path[0] == d.name && At(d.children, x.path[1..], x.content) && Wanted(x.path[1..])
  }

  /** The step of WalkExact for one listing, given what holds below it. */
  lemma WalkFromDirs<C(!new)>(es: seq<Node<C>>, x: Found<C>)
    requires x in WalkDirs(KeptDirs(es)) <==>
      exists d :: d in KeptDirs(es) && Below(d, x)
    ensures x in Walk(es) <==> At(es, x.path, x.content) && Wanted(x.path)
  {
    var ds := KeptDirs(es);
    assert Walk(es) == FilesHere(es) + WalkDirs(ds);
    if x in FilesHere(es) {
      FileHereFound(es, x);
    }
    if x in WalkDirs(ds) {
      var d :| d in ds && Below(d, x);
      BelowFound(es, d, x);
    }
    if At(es, x.path, x.content) && Wanted(x.path) {
      FoundWalked(es, x);
    }
  }

  lemma FileHereFound<C(!new)>(es: seq<Node<C>>, x: Found<C>)
    requires x in FilesHere(es)
    ensures At(es, x.path, x.content) && Wanted(x.path)
  {
    var e :| e in es && e.File? && IsDataName(e.name) && x == Found([e.name], e.content);
    assert x.path == [e.name];
  }

  lemma BelowFound<C(!new)>(es: seq<Node<C>>, d: Node<C>, x: Found<C>)
    requires d in KeptDirs(es) && Below(d, x)
    ensures At(es, x.path, x.content) && Wanted(x.path)
  {
    var p := x.path;
    forall k | 0 <= k < |p| - 1 ensures p[k] !in Excluded {
      if k > 0 {
        assert p[k] == p[1..][k - 1];
      }
    }
  }

  lemma FoundWalked<C(!new)>(es: seq<Node<C>>, x: Found<C>)
    requires At(es, x.path, x.content) && Wanted(x.path)
    ensures x in FilesHere(es) || exists d :: d in KeptDirs(es) && Below(d, x)
  {
    var p := x.path;
    var e :| e in es &&
      ((e.File? && p == [e.name] && e.content == x.content) ||
       (e.Dir? && |p| > 1 && p[0] == e.name && At(e.children, p[1..], x.content)));
    if e.File? && p == [e.name] {
      assert x == Found([e.name], e.content);
    } else {
      assert e in KeptDirs(es);
      assert Wanted(p[1..]) by {
        forall k | 0 <= k < |p[1..]| - 1 ensures p[1..][k] !in Excluded {
          assert p[1..][k] == p[k + 1];
        }
      }
      assert Below(e, x);
    }
  }

  lemma {:induction false} WalkDirsExact<C(!new)>(ds: seq<Node<C>>, x: Found<C>)
    requires forall d :: d in ds ==> d.Dir?
    ensures x in WalkDirs(ds) <==>
      exists d :: d in ds && Below(d, x)
    decreases SizeAll(ds), 0
  {
    if ds != [] {
      var d := ds[0];
      assert SizeAll(ds) == 1 + SizeAll(d.children) + SizeAll(ds[1..]);
      if |x.path| >= 1 {
        WalkExact(d.children, Found(x.path[1..], x.content));
      }
      WalkDirsExact(ds[1..], x);
      WalkDirsStep(ds, x);
    }
  }

  lemma UnderName<C(!new)>(n: string, fs: seq<Found<C>>, x: Found<C>)
    ensures x in Under([n], fs) <==> |x.path| >= 1 && x.path[0] == n && Found(x.path[1..], x.content) in fs
  {
    UnderMember([n], fs, x);
    if |x.path| >= 1 && x.path[0] == n {
      assert x.path[..1] == [n];
    }
  }

  /** The step of WalkDirsExact for the first directory, given what holds
      inside it and for the directories after it. */
  lemma WalkDirsStep<C(!new)>(ds: seq<Node<C>>, x: Found<C>)
    requires ds != [] && forall d :: d in ds ==> d.Dir?
    requires |x.path| >= 1 ==>
      (Found(x.path[1..], x.content) in Walk(ds[0].children) <==>
        At(ds[0].children, x.path[1..], x.content) && Wanted(x.path[1..]))
    requires x in WalkDirs(ds[1..]) <==>
      exists d :: d in ds[1..] && Below(d, x)
    ensures x in WalkDirs(ds) <==>
      exists d :: d in ds && Below(d, x)
  {
    var d := ds[0];
    assert WalkDirs(ds) == Under([d.name], Walk(d.children)) + WalkDirs(ds[1..]);
    assert x in Under([d.name], Walk(d.children)) <==> Below(d, x) by {
      UnderName(d.name, Walk(d.children), x);
      if |x.path| == 1 && x.path[0] == d.name {
        assert !Wanted(x.path[1..]);
      }
    }
    assert (exists e :: e in ds && Below(e, x)) <==> Below(d, x) || exists e :: e in ds[1..] && Below(e, x) by {
      assert forall e :: e in ds <==> e == d || e in ds[1..];
    }
  }

  datatype FindError = InputMissing

  /** A directory still to visit: its path and its listing. */
  datatype Pending<C> = Pending(path: Path, entries: seq<Node<C>>)

  function PendingSize<C(==,!new)>(stack: seq<Pending<C>>): nat {
    if stack == [] then 0 else PendingSize(stack[..|stack| - 1]) + 1 + SizeAll(stack[|stack| - 1].entries)
  }

  /** What the walk still has to yield for a stack of pending directories, the
      top (last) one first. */
  function WalkStack<C(==,!new)>(stack: seq<Pending<C>>): seq<Found<C>> {
    if stack == [] then []
    else
      var top := stack[|stack| - 1];
      Under(top.path, Walk(top.entries)) + WalkStack(stack[..|stack| - 1])
  }

  /** The kept subdirectories of a listing as pending entries, in reverse, so
      that the first is on top of the stack. */
  function PushOrder<C(==,!new)>(pre: Path, ds: seq<Node<C>>): (r: seq<Pending<C>>)
    requires forall d :: d in ds ==> d.Dir?
    ensures |r| == |ds|
  {
    if ds == [] then [] else PushOrder(pre, ds[1..]) + [Pending(pre + [ds[0].name], ds[0].children)]
  }

  lemma UnderConcat<C(!new)>(pre: Path, a: seq<Found<C>>, b: seq<Found<C>>)
    ensures Under(pre, a + b) == Under(pre, a) + Under(pre, b)
  {
  }

  lemma UnderUnder<C(!new)>(pre: Path, q: Path, fs: seq<Found<C>>)
    ensures Under(pre, Under(q, fs)) == Under(pre + q, fs)
  {
    forall i | 0 <= i < |fs| ensures Under(pre, Under(q, fs))[i] == Under(pre + q, fs)[i] {
      assert pre + (q + fs[i].path) == (pre + q) + fs[i].path;
    }
  }

  /** Pushing the subdirectories in reverse puts their walks in listing order
      ahead of the rest of the stack. */
  lemma {:induction false} PushWalk<C(!new)>(stack: seq<Pending<C>>, pre: Path, ds: seq<Node<C>>)
    requires forall d :: d in ds ==> d.Dir?
    ensures WalkStack(stack + PushOrder(pre, ds)) == Under(pre, WalkDirs(ds)) + WalkStack(stack)
  {
    if ds != [] {
      var d := ds[0];
      var top := Pending(pre + [d.name], d.children);
      var s := stack + PushOrder(pre, ds[1..]);
      assert stack + PushOrder(pre, ds) == s + [top];
      var x := Under(pre + [d.name], Walk(d.children));
      var y := Under(pre, WalkDirs(ds[1..]));
      var z := WalkStack(stack);
      assert WalkStack(s + [top]) == x + WalkStack(s) by {
        WalkStackTop(s, top);
      }
      assert WalkStack(s) == y + z by {
        PushWalk(stack, pre, ds[1..]);
      }
      assert Under(pre, WalkDirs(ds)) == x + y by {
        assert WalkDirs(ds) == Under([d.name], Walk(d.children)) + WalkDirs(ds[1..]);
        UnderConcat(pre, Under([d.name], Walk(d.children)), WalkDirs(ds[1..]));
        UnderUnder(pre, [d.name], Walk(d.children));
      }
      Shift(x, y, z);
    } else {
      assert stack + PushOrder(pre, ds) == stack;
      assert Under(pre, WalkDirs(ds)) == [];
    }
  }

  lemma {:induction false} PushSize<C(!new)>(stack: seq<Pending<C>>, pre: Path, ds: seq<Node<C>>)
    requires forall d :: d in ds ==> d.Dir?
    ensures PendingSize(stack + PushOrder(pre, ds)) == PendingSize(stack) + SizeAll(ds)
  {
    if ds != [] {
      var top := Pending(pre + [ds[0].name], ds[0].children);
      var s := stack + PushOrder(pre, ds[1..]);
      assert stack + PushOrder(pre, ds) == s + [top];
      assert (s + [top])[..|s + [top]| - 1] == s;
      PushSize(stack, pre, ds[1..]);
    } else {
      assert stack + PushOrder(pre, ds) == stack;
    }
  }

  lemma UnderNothing<C(!new)>(fs: seq<Found<C>>)
    ensures Under([], fs) == fs
  {
    forall i | 0 <= i < |fs| ensures Under([], fs)[i] == fs[i] {
      assert [] + fs[i].path == fs[i].path;
    }
  }

  lemma WalkStackTop<C(!new)>(rest: seq<Pending<C>>, top: Pending<C>)
    ensures WalkStack(rest + [top]) == Under(top.path, Walk(top.entries)) + WalkStack(rest)
  {
    assert (rest + [top])[..|rest + [top]| - 1] == rest;
  }

  lemma UnderWalk<C(!new)>(pre: Path, es: seq<Node<C>>)
    ensures Under(pre, Walk(es)) == Under(pre, FilesHere(es)) + Under(pre, WalkDirs(KeptDirs(es)))
  {
    UnderConcat(pre, FilesHere(es), WalkDirs(KeptDirs(es)));
  }

  /** Visiting the top directory yields its own files and replaces it by its
      kept subdirectories, in listing order. */
  lemma VisitWalk<C(!new)>(rest: seq<Pending<C>>, top: Pending<C>)
    ensures WalkStack(rest + [top]) ==
      Under(top.path, FilesHere(top.entries)) + WalkStack(rest + PushOrder(top.path, KeptDirs(top.entries)))
  {
    var ds := KeptDirs(top.entries);
    WalkStackTop(rest, top);
    UnderWalk(top.path, top.entries);
    PushWalk(rest, top.path, ds);
    Regroup(WalkStack(rest + [top]), Under(top.path, Walk(top.entries)),
      Under(top.path, FilesHere(top.entries)), Under(top.path, WalkDirs(ds)),
      WalkStack(rest), WalkStack(rest + PushOrder(top.path, ds)));
  }

  lemma Shift<T>(a: seq<T>, b: seq<T>, c: seq<T>)
    ensures a + (b + c) == (a + b) + c
  {
  }

  lemma Regroup<T>(all: seq<T>, first: seq<T>, a: seq<T>, b: seq<T>, c: seq<T>, tail: seq<T>)
    requires all == first + c && first == a + b && tail == b + c
    ensures all == a + tail
  {
  }

  /** ... and what remains to walk shrinks. */
  lemma VisitSize<C(!new)>(rest: seq<Pending<C>>, top: Pending<C>)
    ensures PendingSize(rest + PushOrder(top.path, KeptDirs(top.entries))) < PendingSize(rest + [top])
  {
    assert (rest + [top])[..|rest + [top]| - 1] == rest;
    PushSize(rest, top.path, KeptDirs(top.entries));
  }

  /** `find_files()`: the files the walk yields, in order, or the error when
      the input root does not exist. */
  method FindFiles<C(==,!new)>(root: Option<seq<Node<C>>>) returns (r: Result<seq<Found<C>>, FindError>)
    ensures root.None? ==> r == Err(InputMissing)
    ensures root.Some? ==> r == Ok(Walk(root.value))
  {
    if root.None? {
      return Err(InputMissing);
    }
    var found: seq<Found<C>> := [];
    var stack := [Pending([], root.value)];
    assert WalkStack(stack) == Walk(root.value) by {
      assert [] + [Pending([], root.value)] == stack;
      WalkStackTop([], Pending([], root.value));
      UnderNothing(Walk(root.value));
    }
    while stack != []
      invariant found + WalkStack(stack) == Walk(root.value)
      decreases PendingSize(stack)
    {
      var top := stack[|stack| - 1];
      var rest := stack[..|stack| - 1];
      var here := Under(top.path, FilesHere(top.entries));
      var next := rest + PushOrder(top.path, KeptDirs(top.entries));
      assert stack == rest + [top];
      assert WalkStack(stack) == here + WalkStack(next) by {
        VisitWalk(rest, top);
      }
      assert PendingSize(next) < PendingSize(stack) by {
        VisitSize(rest, top);
      }
      Shift(found, here, WalkStack(next));
      found := found + here;
      stack := next;
    }
    assert found + WalkStack(stack) == found;
    return Ok(found);
  }
}

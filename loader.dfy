/** `DataLoader` (data_loader.py) apart from `preprocess`: the canonical output
    names, the skip-if-exists completion marker, the three Parquet sinks, the
    chunked writer, and `run`'s dispatch and clean-up. The file system is the
    set of outputs under the output directory, the temporary directory and
    its files, and the archives handed to DuckDB. */
module Loader {
  import opened Wrappers
  import opened Text
  import opened Table
  import opened ScoreLevel
  import LoaderPreprocess
  import Partition
  import Discovery

  /** The last position of `c` in `s`, if `c` occurs (`s.rfind(c)`). */
  function LastIndexOf(s: string, c: char): (r: Option<nat>)
    ensures r.Some? ==> r.value < |s| && s[r.value] == c && forall j :: r.value < j < |s| ==> s[j] != c
    ensures r.None? ==> forall j :: 0 <= j < |s| ==> s[j] != c
  {
    if s == [] then None
    else if s[|s| - 1] == c then Some(|s| - 1)
    else LastIndexOf(s[..|s| - 1], c)
  }

  /** Where `PurePath.suffix` and `PurePath.stem` split a name: at the last
      dot, unless that dot is the first or the last character. */
  function SplitPoint(name: string): Option<nat> {
    var d := LastIndexOf(name, '.');
    if d.Some? && 0 < d.value < |name| - 1 then d else None
  }

  function Suffix(name: string): string {
    var p := SplitPoint(name);
    if p.Some? then name[p.value..] else ""
  }

  function Stem(name: string): string {
    var p := SplitPoint(name);
    if p.Some? then name[..p.value] else name
  }

  /** The stem and the suffix put back together give the name; a suffix is a
      dot followed by at least one character and no further dot. */
  lemma StemSuffix(name: string)
    ensures Stem(name) + Suffix(name) == name
    ensures Suffix(name) != "" ==>
      && |Suffix(name)| >= 2 && Suffix(name)[0] == '.' && |Stem(name)| >= 1
      && forall j :: 1 <= j < |Suffix(name)| ==> Suffix(name)[j] != '.'
  {
    var p := SplitPoint(name);
    if p.Some? {
      assert name[..p.value] + name[p.value..] == name;
      forall j | 1 <= j < |Suffix(name)| ensures Suffix(name)[j] != '.' {
        assert Suffix(name)[j] == name[p.value + j];
      }
    }
  }

  /** `Path(member.name).name`: the part after the last slash. */
  function BaseName(name: string): (r: string)
    ensures forall j :: 0 <= j < |r| ==> r[j] != '/'
  {
    var p := LastIndexOf(name, '/');
    if p.Some? then name[p.value + 1..] else name
  }

  /** A member of an archive, as the batched CSV reader sees it: its name,
      whether it is a regular file, the schema inferred from its header, and
      its data rows cut into batches. */
  datatype ArchiveMember = ArchiveMember(name: string, isFile: bool, columns: seq<Column>, batches: seq<seq<Row>>)

  /** What a found file holds once read: a table, or the members of a
      gzip-compressed tar archive. */
  datatype InputFile = TableFile(frame: Frame) | ArchiveFile(members: seq<ArchiveMember>)

  /** An output under the output directory: one Parquet file, or a directory
      partitioned by (event_month, score_level). */
  datatype Artifact = ParquetFile(frame: Frame) | PartitionedDir(parts: map<Partition.PartKey, seq<Row>>)

  /** The state the loader changes: outputs by name, the temporary directory
      and the files in it, and the archives loaded into DuckDB, in order. */
  datatype FileSystem = FileSystem(
    outputs: map<string, Artifact>,
    tempDirExists: bool,
    tempFiles: set<string>,
    duckdbLoads: seq<string>)

  /** `(output_dir / name).exists()`. The empty name is the output directory
      itself, which always exists. */
  predicate Exists(fs: FileSystem, name: string) {
    name == "" || name in fs.outputs
  }

  datatype LoadError =
    | Unreadable                                 // the reader or `tarfile.open` raises
    | BadSchema(error: LoaderPreprocess.SchemaError)
    | SchemaMismatch                             // `pl.concat` or `write_table` refuses a schema
    | TempDirMissing                             // `open(temp_file_path, "wb")` raises

  /** What one processing call did, apart from its messages. */
  datatype Outcome = Skipped | NoMembers | NoBatches | Written | Failed(error: LoadError)

  /** The regular members named `*.tsv` / `*.txt`, in archive order. */
  function TableMembers(members: seq<ArchiveMember>): (r: seq<ArchiveMember>)
    ensures forall m :: m in r <==> m in members && m.isFile && (EndsWith(m.name, ".tsv") || EndsWith(m.name, ".txt"))
  {
    if members == [] then []
    else
      var rest := TableMembers(members[1..]);
      assert forall m :: m in members <==> m == members[0] || m in members[1..];
      var m := members[0];
      if m.isFile && (EndsWith(m.name, ".tsv") || EndsWith(m.name, ".txt")) then [m] + rest else rest
  }

  function Concat(batches: seq<seq<Row>>): seq<Row> {
    if batches == [] then [] else Concat(batches[..|batches| - 1]) + batches[|batches| - 1]
  }

  /** The data rows of the members, one member after the other. */
  function AllRows(ms: seq<ArchiveMember>): seq<Row> {
    if ms == [] then [] else AllRows(ms[..|ms| - 1]) + Concat(ms[|ms| - 1].batches)
  }

  /** Every member has the first member's schema, as `pl.concat` requires. */
  predicate SameColumns(ms: seq<ArchiveMember>) {
    forall i :: 0 <= i < |ms| ==> ms[i].columns == ms[0].columns
  }

  // ---------------------------------------------------------------------
  // process_file

  /** `output_dir / stem` when partitioned, else `output_dir / f"{stem}.parquet"`. */
  function FileTarget(name: string, partitioned: bool): string {
    if partitioned then Stem(name) else Stem(name) + ".parquet"
  }

  /** `process_file`: skip when the target exists; otherwise write the
      preprocessed frame, or nothing when reading or preprocessing fails. */
  function ProcessFileSpec(fs: FileSystem, name: string, input: InputFile, t: Thresholds, partitioned: bool): (r: (FileSystem, Outcome))
    ensures r.1 == Skipped <==> Exists(fs, FileTarget(name, partitioned))
    ensures r.1 == Written || r.1 == Skipped || r.1.Failed?
    ensures r.1 != Written ==> r.0 == fs
    ensures r.1 == Written ==> Exists(r.0, FileTarget(name, partitioned))
  {
    var target := FileTarget(name, partitioned);
    if Exists(fs, target) then (fs, Skipped)
    else if !input.TableFile? then (fs, Failed(Unreadable))
    else
      match LoaderPreprocess.Preprocess(input.frame, t)
      case Err(e) => (fs, Failed(BadSchema(e)))
      case Ok(f) =>
        var artifact := if partitioned then PartitionedDir(Partition.Parts(f.rows)) else ParquetFile(f);
        (fs.(outputs := fs.outputs[target := artifact]), Written)
  }

  // ---------------------------------------------------------------------
  // process_tar_gz

  /** `output_dir / name.removesuffix(".tar.gz")`. */
  function ArchiveTarget(name: string): string {
    RemoveSuffix(name, ".tar.gz")
  }

  /** `process_tar_gz`: the members are concatenated and preprocessed as one
      frame, then written partitioned, unless the target exists. */
  function ArchiveSpec(fs: FileSystem, name: string, input: InputFile, t: Thresholds): (r: (FileSystem, Outcome))
    ensures r.1 == Skipped <==>
      input.ArchiveFile? && TableMembers(input.members) != [] && Exists(fs, ArchiveTarget(name))
    ensures r.1 != NoBatches
    ensures r.1 != Written ==> r.0 == fs
    ensures r.1 == Written ==> ArchiveTarget(name) in r.0.outputs && r.0.outputs[ArchiveTarget(name)].PartitionedDir?
  {
    if !input.ArchiveFile? then (fs, Failed(Unreadable))
    else
      var tsv := TableMembers(input.members);
      var target := ArchiveTarget(name);
      if tsv == [] then (fs, NoMembers)
      else if Exists(fs, target) then (fs, Skipped)
      else if !SameColumns(tsv) then (fs, Failed(SchemaMismatch))
      else
        match LoaderPreprocess.Preprocess(Frame(tsv[0].columns, AllRows(tsv)), t)
        case Err(e) => (fs, Failed(BadSchema(e)))
        case Ok(f) => (fs.(outputs := fs.outputs[target := PartitionedDir(Partition.Parts(f.rows))]), Written)
  }

  // ---------------------------------------------------------------------
  // process_tar_gz_in_chunks

  /** The Parquet writer: not yet created, or open with the schema of the
      first batch and the rows written so far. */
  datatype Writer = Unopened | Open(schema: seq<Column>, rows: seq<Row>)

  /** `writer.write_table(table)`, creating the writer on the first batch. */
  function Write(w: Writer, f: Frame): (r: Writer)
    requires w.Open? ==> w.schema == f.columns
    ensures r.Open? && r.schema == f.columns
    ensures r.rows == (if w.Open? then w.rows else []) + f.rows
  {
    if w.Unopened? then Open(f.columns, f.rows) else Open(w.schema, w.rows + f.rows)
  }

  /** A batch after `preprocess(batch.lazy()).collect()`. */
  type Processed = Result<Frame, LoaderPreprocess.SchemaError>

  /** Each batch of a member preprocessed on its own. */
  function ProcessBatches(cols: seq<Column>, batches: seq<seq<Row>>, t: Thresholds): (r: seq<Processed>)
    ensures |r| == |batches|
    ensures forall j :: 0 <= j < |batches| ==> r[j] == LoaderPreprocess.Preprocess(Frame(cols, batches[j]), t)
  {
    seq(|batches|, j requires 0 <= j < |batches| => LoaderPreprocess.Preprocess(Frame(cols, batches[j]), t))
  }

  /** The processed batches written in order, until one failed to preprocess
      or brings a schema other than the writer's. */
  function WriteBatches(w: Writer, ps: seq<Processed>): (Writer, Option<LoadError>)
    decreases |ps|
  {
    if ps == [] then (w, None)
    else
      match ps[0]
      case Err(e) => (w, Some(BadSchema(e)))
      case Ok(f) =>
        if w.Open? && w.schema != f.columns then (w, Some(SchemaMismatch))
        else WriteBatches(Write(w, f), ps[1..])
  }

  /** The writer, the temporary files and the error, if any, after the members. */
  datatype ChunkRun = ChunkRun(writer: Writer, tempFiles: set<string>, error: Option<LoadError>)

  /** A member with its batches preprocessed. */
  datatype ProcessedMember = ProcessedMember(name: string, batches: seq<Processed>)

  function ProcessMembers(ms: seq<ArchiveMember>, t: Thresholds): (r: seq<ProcessedMember>)
    ensures |r| == |ms|
    ensures forall k :: 0 <= k < |ms| ==> r[k] == ProcessedMember(ms[k].name, ProcessBatches(ms[k].columns, ms[k].batches, t))
  {
    seq(|ms|, k requires 0 <= k < |ms| => ProcessedMember(ms[k].name, ProcessBatches(ms[k].columns, ms[k].batches, t)))
  }

  /** The member loop: each member is copied to a temporary file, its batches
      written, and the temporary file removed whatever happened; the first
      error ends the loop. */
  function WriteMembers(w: Writer, tempDir: bool, temp: set<string>, ms: seq<ProcessedMember>): ChunkRun
    decreases |ms|
  {
    if ms == [] then ChunkRun(w, temp, None)
    else if !tempDir then ChunkRun(w, temp, Some(TempDirMissing))
    else
      var (w', e) := WriteBatches(w, ms[0].batches);
      var temp' := temp - {BaseName(ms[0].name)};
      if e.Some? then ChunkRun(w', temp', e) else WriteMembers(w', tempDir, temp', ms[1..])
  }

  /** `output_dir / f"{name.removesuffix('.tar.gz')}.parquet"`. */
  function ChunkTarget(name: string): string {
    ArchiveTarget(name) + ".parquet"
  }

  /** `process_tar_gz_in_chunks`: the skip check comes first; the `finally`
      closes an open writer whether or not an error occurred, so whatever was
      written stays at the target. */
  function ChunkSpec(fs: FileSystem, name: string, input: InputFile, t: Thresholds): (r: (FileSystem, Outcome))
    ensures r.1 == Skipped <==> Exists(fs, ChunkTarget(name))
    ensures r.1 == Skipped || r.1 == NoMembers || r.1 == NoBatches ==> r.0.outputs == fs.outputs
    ensures r.1 == Written ==> ChunkTarget(name) in r.0.outputs && r.0.outputs[ChunkTarget(name)].ParquetFile?
  {
    var target := ChunkTarget(name);
    if Exists(fs, target) then (fs, Skipped)
    else if !input.ArchiveFile? then (fs, Failed(Unreadable))
    else
      var tsv := TableMembers(input.members);
      if tsv == [] then (fs, NoMembers)
      else
        Close(fs, target, WriteMembers(Unopened, fs.tempDirExists, fs.tempFiles, ProcessMembers(tsv, t)))
  }

  /** The `finally` of the chunked path: an open writer is closed, leaving its
      rows at the target, whether or not the member loop ended in an error. */
  function Close(fs: FileSystem, target: string, run: ChunkRun): (FileSystem, Outcome) {
    var outputs := if run.writer.Open? then fs.outputs[target := ParquetFile(Frame(run.writer.schema, run.writer.rows))] else fs.outputs;
    var outcome := if run.error.Some? then Failed(run.error.value) else if run.writer.Open? then Written else NoBatches;
    (fs.(outputs := outputs, tempFiles := run.tempFiles), outcome)
  }

  // ---------------------------------------------------------------------
  // run

  /** The name of a found file: the last component of its path. */
  function NameOf(p: Discovery.Path): string {
    if p == [] then "" else p[|p| - 1]
  }

  predicate IsArchiveName(name: string) {
    Suffix(name) == ".gz" && EndsWith(name, ".tar.gz")
  }

  /** One iteration of `run`'s loop. */
  function Dispatch(fs: FileSystem, name: string, input: InputFile, t: Thresholds, partitioned: bool, toDuckdb: bool): FileSystem {
    if toDuckdb then
      (if IsArchiveName(name) then fs.(duckdbLoads := fs.duckdbLoads + [name]) else fs)
    else if Suffix(name) == ".tsv" || Suffix(name) == ".txt" then ProcessFileSpec(fs, name, input, t, partitioned).0
    else if IsArchiveName(name) then
      (if partitioned then ArchiveSpec(fs, name, input, t).0 else ChunkSpec(fs, name, input, t).0)
    else fs
  }

  function DispatchAll(fs: FileSystem, files: seq<Discovery.Found<InputFile>>, t: Thresholds, partitioned: bool, toDuckdb: bool): FileSystem
    decreases |files|
  {
    if files == [] then fs
    else DispatchAll(Dispatch(fs, NameOf(files[0].path), files[0].content, t, partitioned, toDuckdb), files[1..], t, partitioned, toDuckdb)
  }

  datatype RunError = InputMissing | TempDirGone

  /** `run`: the files the walk finds, dispatched in order; then the
      `finally` removes the temporary directory, which raises when it is
      already gone. */
  function RunSpec(fs: FileSystem, root: Option<seq<Discovery.Node<InputFile>>>, t: Thresholds, partitioned: bool, toDuckdb: bool): (r: (FileSystem, Result<(), RunError>))
    ensures r.1.Ok? ==> root.Some?
    ensures root.None? ==> r.1.Err? && r.0.outputs == fs.outputs && r.0.duckdbLoads == fs.duckdbLoads
    ensures r.1 != Err(TempDirGone) ==> !r.0.tempDirExists && r.0.tempFiles == {}
  {
    var after := if root.None? then fs else DispatchAll(fs, Discovery.Walk(root.value), t, partitioned, toDuckdb);
    if !after.tempDirExists then (after, Err(TempDirGone))
    else (after.(tempDirExists := false, tempFiles := {}), if root.None? then Err(InputMissing) else Ok(()))
  }

  // ---------------------------------------------------------------------
  // Properties of the output names and of dispatch

  lemma NameExamples()
    ensures Suffix("a.tsv") == ".tsv" && Stem("a.tsv") == "a"
    ensures Suffix("a.tar.gz") == ".gz" && Stem("a.tar.gz") == "a.tar"
    ensures ArchiveTarget("a.tar.gz") == "a" && ChunkTarget("a.tar.gz") == "a.parquet"
    ensures Suffix(".tsv") == "" && Stem(".tsv") == ".tsv"
    ensures Suffix("data.") == "" && Stem("data.") == "data."
  {
    assert "a.tsv"[1] == '.' && "a.tsv"[2] != '.' && "a.tsv"[3] != '.' && "a.tsv"[4] != '.';
    assert LastIndexOf("a.tsv", '.') == Some(1);
    assert "a.tar.gz"[5] == '.' && "a.tar.gz"[6] != '.' && "a.tar.gz"[7] != '.';
    assert LastIndexOf("a.tar.gz", '.') == Some(5);
    assert "a.tsv"[..1] == "a";
    assert "a.tsv"[1..] == ".tsv";
    assert "a.tar.gz"[5..] == ".gz";
    assert "a.tar.gz"[..5] == "a.tar";
    assert "a.tar.gz"[..|"a.tar.gz"| - |".tar.gz"|] == "a";
  }

  /** A hidden file named `.tsv` is yielded by the walk (its name ends in
      ".tsv") but has no suffix, so `run` passes it by in every mode. */
  lemma HiddenTableFileIgnored(fs: FileSystem, input: InputFile, t: Thresholds, partitioned: bool, toDuckdb: bool)
    ensures Discovery.Wanted([".tsv"])
    ensures Dispatch(fs, ".tsv", input, t, partitioned, toDuckdb) == fs
  {
    NameExamples();
    assert !EndsWith(".tsv", ".tar.gz");
  }

  /** Outputs are named by stem only: `a.tsv` and `a.txt` (from any
      directories) share a target, and so do a partitioned `a.tsv` and
      `a.tar.gz`. */
  lemma TargetCollisions(partitioned: bool)
    ensures FileTarget("a.tsv", partitioned) == FileTarget("a.txt", partitioned)
    ensures FileTarget("a.tsv", true) == ArchiveTarget("a.tar.gz")
  {
    NameExamples();
    assert "a.txt"[..1] == "a";
  }

  /** The target each file maps to in the configured mode. */
  function TargetOf(name: string, partitioned: bool): string {
    if Suffix(name) == ".tsv" || Suffix(name) == ".txt" then FileTarget(name, partitioned)
    else if partitioned then ArchiveTarget(name)
    else ChunkTarget(name)
  }

  /** `r` is `fs` with at most `target` added: nothing existing changes. */
  predicate WritesOnce(fs: FileSystem, r: FileSystem, target: string) {
    && (forall k :: k in fs.outputs ==> k in r.outputs && r.outputs[k] == fs.outputs[k])
    && (forall k :: k in r.outputs ==> k in fs.outputs || k == target)
    && r.tempDirExists == fs.tempDirExists
    && r.tempFiles <= fs.tempFiles
  }

  /** Outputs are written once: a dispatch never changes or removes an
      existing output, and adds at most the file's own target. */
  lemma DispatchWritesOnce(fs: FileSystem, name: string, input: InputFile, t: Thresholds, partitioned: bool, toDuckdb: bool)
    ensures WritesOnce(fs, Dispatch(fs, name, input, t, partitioned, toDuckdb), TargetOf(name, partitioned))
  {
    if toDuckdb {
    } else if Suffix(name) == ".tsv" || Suffix(name) == ".txt" {
      FileWritesOnce(fs, name, input, t, partitioned);
    } else if IsArchiveName(name) && partitioned {
      ArchiveWritesOnce(fs, name, input, t);
    } else if IsArchiveName(name) {
      ChunkWritesOnce(fs, name, input, t);
    }
  }

  lemma FileWritesOnce(fs: FileSystem, name: string, input: InputFile, t: Thresholds, partitioned: bool)
    ensures WritesOnce(fs, ProcessFileSpec(fs, name, input, t, partitioned).0, FileTarget(name, partitioned))
  {
  }

  lemma ArchiveWritesOnce(fs: FileSystem, name: string, input: InputFile, t: Thresholds)
    ensures WritesOnce(fs, ArchiveSpec(fs, name, input, t).0, ArchiveTarget(name))
  {
    if input.ArchiveFile? {
      var tsv := TableMembers(input.members);
      var target := ArchiveTarget(name);
      if tsv != [] && !Exists(fs, target) && SameColumns(tsv) {
        var p := LoaderPreprocess.Preprocess(Frame(tsv[0].columns, AllRows(tsv)), t);
        if p.Ok? {
          PutWritesOnce(fs, target, PartitionedDir(Partition.Parts(p.value.rows)));
        }
      }
    }
  }

  /** Storing a new target keeps every other output. */
  lemma PutWritesOnce(fs: FileSystem, target: string, a: Artifact)
    requires target !in fs.outputs
    ensures WritesOnce(fs, fs.(outputs := fs.outputs[target := a]), target)
  {
  }

  lemma ChunkWritesOnce(fs: FileSystem, name: string, input: InputFile, t: Thresholds)
    ensures WritesOnce(fs, ChunkSpec(fs, name, input, t).0, ChunkTarget(name))
  {
    ChunkKeepsTemp(fs, name, input, t);
  }

  /** The chunked path leaves no temporary file behind and never creates
      or removes the temporary directory. */
  lemma ChunkKeepsTemp(fs: FileSystem, name: string, input: InputFile, t: Thresholds)
    ensures ChunkSpec(fs, name, input, t).0.tempFiles <= fs.tempFiles
    ensures ChunkSpec(fs, name, input, t).0.tempDirExists == fs.tempDirExists
  {
    if !Exists(fs, ChunkTarget(name)) && input.ArchiveFile? {
      WriteMembersTemp(Unopened, fs.tempDirExists, fs.tempFiles, ProcessMembers(TableMembers(input.members), t));
    }
  }

  lemma {:induction false} WriteMembersTemp(w: Writer, tempDir: bool, temp: set<string>, ms: seq<ProcessedMember>)
    ensures WriteMembers(w, tempDir, temp, ms).tempFiles <= temp
    decreases |ms|
  {
    if ms != [] && tempDir {
      var (w', e) := WriteBatches(w, ms[0].batches);
      if e.None? {
        WriteMembersTemp(w', tempDir, temp - {BaseName(ms[0].name)}, ms[1..]);
      }
    }
  }

  /** With `--to-duckdb`, no Parquet output is written; exactly the
      `.tar.gz` files are handed to DuckDB, in the order found. */
  lemma DuckdbModeOnlyArchives(fs: FileSystem, files: seq<Discovery.Found<InputFile>>, t: Thresholds, partitioned: bool)
    ensures DispatchAll(fs, files, t, partitioned, true).outputs == fs.outputs
    ensures DispatchAll(fs, files, t, partitioned, true).duckdbLoads == fs.duckdbLoads + ArchiveNames(files)
    decreases |files|
  {
    if files != [] {
      var next := Dispatch(fs, NameOf(files[0].path), files[0].content, t, partitioned, true);
      DuckdbModeOnlyArchives(next, files[1..], t, partitioned);
    }
  }

  /** The names of the found archives, in order. */
  function ArchiveNames(files: seq<Discovery.Found<InputFile>>): (r: seq<string>)
    ensures forall x :: x in r ==> IsArchiveName(x)
  {
    if files == [] then []
    else
      var name := NameOf(files[0].path);
      (if IsArchiveName(name) then [name] else []) + ArchiveNames(files[1..])
  }

  // ---------------------------------------------------------------------
  // Properties of the sinks

  /** Skip-if-exists is the completion marker: once a call has written its
      target, a call for any file with the same target (a re-run, or a file
      of the same stem) changes nothing. */
  lemma WrittenThenSkipped(fs: FileSystem, n1: string, in1: InputFile, n2: string, in2: InputFile, t: Thresholds, partitioned: bool)
    requires ProcessFileSpec(fs, n1, in1, t, partitioned).1 == Written
    requires FileTarget(n1, partitioned) == FileTarget(n2, partitioned)
    ensures var fs1 := ProcessFileSpec(fs, n1, in1, t, partitioned).0;
      ProcessFileSpec(fs1, n2, in2, t, partitioned) == (fs1, Skipped)
  {
  }

  lemma ArchiveWrittenThenSkipped(fs: FileSystem, name: string, input: InputFile, t: Thresholds)
    requires ArchiveSpec(fs, name, input, t).1 == Written
    ensures var fs1 := ArchiveSpec(fs, name, input, t).0;
      ArchiveSpec(fs1, name, input, t) == (fs1, Skipped)
  {
  }

  /** In chunked mode the writer is closed even after an error: when a later
      member fails after a batch was written, the partial file sits at the
      target, and a re-run skips the archive instead of completing it. */
  lemma PartialChunkFileSkipped(fs: FileSystem, name: string, input: InputFile, t: Thresholds)
    requires ChunkSpec(fs, name, input, t).1.Failed?
    requires ChunkTarget(name) in ChunkSpec(fs, name, input, t).0.outputs
    ensures var fs1 := ChunkSpec(fs, name, input, t).0;
      ChunkSpec(fs1, name, input, t) == (fs1, Skipped)
  {
  }

  /** Such a partial file does arise: when the first member's one batch is
      written and the second member's batch brings another schema, the
      writer is still closed, and the first batch stays at the target. */
  lemma MismatchLeavesPartialFile(fs: FileSystem, target: string, a: ProcessedMember, b: ProcessedMember)
    requires fs.tempDirExists
    requires |a.batches| == 1 && a.batches[0].Ok? && |b.batches| == 1 && b.batches[0].Ok?
    requires a.batches[0].value.columns != b.batches[0].value.columns
    ensures var (fs1, outcome) := Close(fs, target, WriteMembers(Unopened, fs.tempDirExists, fs.tempFiles, [a, b]));
      && outcome == Failed(SchemaMismatch)
      && fs1.outputs == fs.outputs[target := ParquetFile(a.batches[0].value)]
  {
    var w1 := Write(Unopened, a.batches[0].value);
    assert WriteBatches(Unopened, a.batches) == (w1, None) by {
      assert a.batches[1..] == [];
    }
    assert [a, b][1..] == [b];
  }

  /** The rows the processed batches give, one batch after the other. */
  function OkRows(ps: seq<Processed>): seq<Row>
    decreases |ps|
  {
    if ps == [] then [] else (if ps[0].Ok? then ps[0].value.rows else []) + OkRows(ps[1..])
  }

  /** The rows of the members when each batch is preprocessed on its own:
      fills and forward fill do not reach across batches. */
  function MemberBatchRows(ms: seq<ProcessedMember>): seq<Row>
    decreases |ms|
  {
    if ms == [] then [] else OkRows(ms[0].batches) + MemberBatchRows(ms[1..])
  }

  function WrittenRows(w: Writer): seq<Row> {
    if w.Open? then w.rows else []
  }

  lemma {:induction false} WriteBatchesRows(w: Writer, ps: seq<Processed>)
    ensures var (w', e) := WriteBatches(w, ps);
      && (e.None? ==> WrittenRows(w') == WrittenRows(w) + OkRows(ps))
      && (w.Open? ==> w'.Open? && w'.schema == w.schema)
    decreases |ps|
  {
    if ps == [] {
      assert WrittenRows(w) + OkRows(ps) == WrittenRows(w);
    } else if ps[0].Ok? && !(w.Open? && w.schema != ps[0].value.columns) {
      var w1 := Write(w, ps[0].value);
      WriteBatchesRows(w1, ps[1..]);
      assert WrittenRows(w1) == WrittenRows(w) + ps[0].value.rows;
    }
  }

  lemma {:induction false} WriteMembersRows(w: Writer, temp: set<string>, ms: seq<ProcessedMember>)
    ensures var run := WriteMembers(w, true, temp, ms);
      run.error.None? ==> WrittenRows(run.writer) == WrittenRows(w) + MemberBatchRows(ms)
    decreases |ms|
  {
    if ms == [] {
      assert WrittenRows(w) + MemberBatchRows(ms) == WrittenRows(w);
    } else {
      var wb := WriteBatches(w, ms[0].batches);
      var temp' := temp - {BaseName(ms[0].name)};
      if wb.1.None? {
        var rest := WriteMembers(wb.0, true, temp', ms[1..]);
        assert WriteMembers(w, true, temp, ms) == rest;
        WriteMembersRows(wb.0, temp', ms[1..]);
        if rest.error.None? {
          assert WrittenRows(wb.0) == WrittenRows(w) + OkRows(ms[0].batches) by {
            WriteBatchesRows(w, ms[0].batches);
          }
          RowsAssoc(WrittenRows(w), OkRows(ms[0].batches), MemberBatchRows(ms[1..]));
        }
      }
    }
  }

  lemma RowsAssoc<T>(a: seq<T>, b: seq<T>, c: seq<T>)
    ensures (a + b) + c == a + (b + c)
  {
  }

  /** A chunked run that completes writes exactly the batches' preprocessed
      rows, member after member and batch after batch, to its target. */
  lemma ChunkWrittenRows(fs: FileSystem, name: string, input: InputFile, t: Thresholds)
    requires ChunkSpec(fs, name, input, t).1 == Written
    ensures var fs1 := ChunkSpec(fs, name, input, t).0;
      && ChunkTarget(name) in fs1.outputs
      && fs1.outputs[ChunkTarget(name)].ParquetFile?
      && fs1.outputs[ChunkTarget(name)].frame.rows == MemberBatchRows(ProcessMembers(TableMembers(input.members), t))
  {
    WriteMembersRows(Unopened, fs.tempFiles, ProcessMembers(TableMembers(input.members), t));
  }

  // ---------------------------------------------------------------------
  // Properties of run

  lemma {:induction false} DispatchAllKeepsTempDir(fs: FileSystem, files: seq<Discovery.Found<InputFile>>, t: Thresholds, partitioned: bool, toDuckdb: bool)
    ensures DispatchAll(fs, files, t, partitioned, toDuckdb).tempDirExists == fs.tempDirExists
    decreases |files|
  {
    if files != [] {
      var next := Dispatch(fs, NameOf(files[0].path), files[0].content, t, partitioned, toDuckdb);
      DispatchWritesOnce(fs, NameOf(files[0].path), files[0].content, t, partitioned, toDuckdb);
      DispatchAllKeepsTempDir(next, files[1..], t, partitioned, toDuckdb);
    }
  }

  /** Every run ends without the temporary directory, so a second run on the
      same loader fails in its clean-up, whatever it is given. */
  lemma SecondRunFails(fs: FileSystem, root1: Option<seq<Discovery.Node<InputFile>>>,
                       root2: Option<seq<Discovery.Node<InputFile>>>, t: Thresholds, partitioned: bool, toDuckdb: bool)
    ensures !RunSpec(fs, root1, t, partitioned, toDuckdb).0.tempDirExists
    ensures var fs1 := RunSpec(fs, root1, t, partitioned, toDuckdb).0;
      RunSpec(fs1, root2, t, partitioned, toDuckdb).1 == Err(TempDirGone)
  {
    if root1.Some? {
      DispatchAllKeepsTempDir(fs, Discovery.Walk(root1.value), t, partitioned, toDuckdb);
    }
    var fs1 := RunSpec(fs, root1, t, partitioned, toDuckdb).0;
    if root2.Some? {
      DispatchAllKeepsTempDir(fs1, Discovery.Walk(root2.value), t, partitioned, toDuckdb);
    }
  }

  // ---------------------------------------------------------------------
  // The loader object

  class DataLoader {
    const thresholds: Thresholds
    const partitioned: bool
    const toDuckdb: bool
    var fs: FileSystem

    /** `__init__`: the thresholds are sorted; the temporary directory is
        created if missing. */
    constructor(a: int, b: int, partitioned: bool, toDuckdb: bool, disk: FileSystem)
      ensures thresholds == SortThresholds(a, b)
      ensures this.partitioned == partitioned && this.toDuckdb == toDuckdb
      ensures fs == disk.(tempDirExists := true)
    {
      thresholds := SortThresholds(a, b);
      this.partitioned := partitioned;
      this.toDuckdb := toDuckdb;
      fs := disk.(tempDirExists := true);
    }

    method ProcessFile(name: string, input: InputFile) returns (outcome: Outcome)
      modifies this
      ensures (fs, outcome) == ProcessFileSpec(old(fs), name, input, thresholds, partitioned)
    {
      var target := if partitioned then Stem(name) else Stem(name) + ".parquet";
      if Exists(fs, target) {
        return Skipped;
      }
      if !input.TableFile? {
        return Failed(Unreadable);
      }
      var processed := LoaderPreprocess.Preprocess(input.frame, thresholds);
      if processed.Err? {
        return Failed(BadSchema(processed.error));
      }
      var f := processed.value;
      if partitioned {
        fs := fs.(outputs := fs.outputs[target := PartitionedDir(Partition.Parts(f.rows))]);
      } else {
        fs := fs.(outputs := fs.outputs[target := ParquetFile(f)]);
      }
      return Written;
    }

    method ProcessTarGz(name: string, input: InputFile) returns (outcome: Outcome)
      modifies this
      ensures (fs, outcome) == ArchiveSpec(old(fs), name, input, thresholds)
    {
      if !input.ArchiveFile? {
        return Failed(Unreadable);
      }
      var tsv := TableMembers(input.members);
      if tsv == [] {
        return NoMembers;
      }
      var rows, same := GatherRows(tsv);
      var target := RemoveSuffix(name, ".tar.gz");
      if Exists(fs, target) {
        return Skipped;
      }
      if !same {
        return Failed(SchemaMismatch);
      }
      var processed := LoaderPreprocess.Preprocess(Frame(tsv[0].columns, rows), thresholds);
      if processed.Err? {
        return Failed(BadSchema(processed.error));
      }
      fs := fs.(outputs := fs.outputs[target := PartitionedDir(Partition.Parts(processed.value.rows))]);
      return Written;
    }

    /** The loop over the archive's table members: their rows one after the
        other, and whether they all share the first member's columns. */
    static method GatherRows(tsv: seq<ArchiveMember>) returns (rows: seq<Row>, same: bool)
      requires tsv != []
      ensures rows == AllRows(tsv)
      ensures same <==> SameColumns(tsv)
    {
      rows := [];
      same := true;
      var k := 0;
      while k < |tsv|
        invariant 0 <= k <= |tsv|
        invariant rows == AllRows(tsv[..k])
        invariant same <==> forall i :: 0 <= i < k ==> tsv[i].columns == tsv[0].columns
      {
        assert tsv[..k + 1][..k] == tsv[..k];
        rows := rows + Concat(tsv[k].batches);
        same := same && tsv[k].columns == tsv[0].columns;
        k := k + 1;
      }
      assert tsv[..k] == tsv;
    }

    /** One member's batches, written through the open (or not yet opened)
        writer. */
    method WriteMember(w: Writer, m: ArchiveMember) returns (writer: Writer, error: Option<LoadError>)
      ensures (writer, error) == WriteBatches(w, ProcessBatches(m.columns, m.batches, thresholds))
    {
      ghost var ps := ProcessBatches(m.columns, m.batches, thresholds);
      writer := w;
      error := None;
      var j := 0;
      while j < |m.batches| && error.None?
        invariant 0 <= j <= |m.batches|
        invariant error.None? ==> WriteBatches(w, ps) == WriteBatches(writer, ps[j..])
        invariant error.Some? ==> WriteBatches(w, ps) == (writer, error)
        decreases |m.batches| - j, if error.None? then 1 else 0
      {
        var processed := LoaderPreprocess.Preprocess(Frame(m.columns, m.batches[j]), thresholds);
        assert ps[j..][0] == processed;
        if processed.Err? {
          error := Some(BadSchema(processed.error));
        } else if writer.Open? && writer.schema != processed.value.columns {
          error := Some(SchemaMismatch);
        } else {
          assert ps[j..][1..] == ps[j + 1..];
          writer := Write(writer, processed.value);
          j := j + 1;
        }
      }
    }

    method ProcessTarGzInChunks(name: string, input: InputFile) returns (outcome: Outcome)
      modifies this
      ensures (fs, outcome) == ChunkSpec(old(fs), name, input, thresholds)
    {
      var target := RemoveSuffix(name, ".tar.gz") + ".parquet";
      if Exists(fs, target) {
        return Skipped;
      }
      if !input.ArchiveFile? {
        return Failed(Unreadable);
      }
      var tsv := TableMembers(input.members);
      if tsv == [] {
        return NoMembers;
      }
      var before := fs;
      ghost var pms := ProcessMembers(tsv, thresholds);
      var writer: Writer := Unopened;
      var error: Option<LoadError> := None;
      var k := 0;
      while k < |tsv| && error.None?
        invariant 0 <= k <= |tsv|
        invariant fs == before.(tempFiles := fs.tempFiles)
        invariant error.None? ==>
          WriteMembers(Unopened, before.tempDirExists, before.tempFiles, pms)
          == WriteMembers(writer, fs.tempDirExists, fs.tempFiles, pms[k..])
        invariant error.Some? ==>
          WriteMembers(Unopened, before.tempDirExists, before.tempFiles, pms)
          == ChunkRun(writer, fs.tempFiles, error)
        decreases |tsv| - k, if error.None? then 1 else 0
      {
        var m := tsv[k];
        if !fs.tempDirExists {
          error := Some(TempDirMissing);
        } else {
          var temp := BaseName(m.name);
          assert pms[k..][0] == ProcessedMember(m.name, ProcessBatches(m.columns, m.batches, thresholds));
          var leftover := fs.tempFiles - {temp};
          fs := fs.(tempFiles := fs.tempFiles + {temp});
          writer, error := WriteMember(writer, m);
          fs := fs.(tempFiles := leftover);
          if error.None? {
            assert pms[k..][1..] == pms[k + 1..];
            k := k + 1;
          }
        }
      }
      if writer.Open? {
        fs := fs.(outputs := fs.outputs[target := ParquetFile(Frame(writer.schema, writer.rows))]);
      }
      outcome := if error.Some? then Failed(error.value) else if writer.Open? then Written else NoBatches;
    }

    method Run(root: Option<seq<Discovery.Node<InputFile>>>) returns (r: Result<(), RunError>)
      modifies this
      ensures (fs, r) == RunSpec(old(fs), root, thresholds, partitioned, toDuckdb)
    {
      var found := Discovery.FindFiles(root);
      if found.Ok? {
        var files := found.value;
        var start := fs;
        var k := 0;
        while k < |files|
          invariant 0 <= k <= |files|
          invariant DispatchAll(start, files, thresholds, partitioned, toDuckdb)
            == DispatchAll(fs, files[k..], thresholds, partitioned, toDuckdb)
        {
          var name := NameOf(files[k].path);
          var input := files[k].content;
          assert files[k..][1..] == files[k + 1..];
          if toDuckdb {
            if Suffix(name) == ".gz" && EndsWith(name, ".tar.gz") {
              fs := fs.(duckdbLoads := fs.duckdbLoads + [name]);
            }
          } else if Suffix(name) == ".tsv" || Suffix(name) == ".txt" {
            var _ := ProcessFile(name, input);
          } else if Suffix(name) == ".gz" && EndsWith(name, ".tar.gz") {
            if partitioned {
              var _ := ProcessTarGz(name, input);
            } else {
              var _ := ProcessTarGzInChunks(name, input);
            }
          }
          k := k + 1;
        }
      }
      if !fs.tempDirExists {
        return Err(TempDirGone);
      }
      fs := fs.(tempDirExists := false, tempFiles := {});
      r := if found.Err? then Err(InputMissing) else Ok(());
    }
  }
}

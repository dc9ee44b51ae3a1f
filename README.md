# polars-streamlit, modelled in Dafny

This project models the batch ETL of the polars-streamlit repository, together with the text-building logic of its three dashboards, and proves properties of the model.

- **Row-cleaning rules.** `DataLoader.preprocess` (polars) and `preprocess_pandas` (the HDF5 converter) both drop all-null rows, fill nulls, bucket SCORE into low/mid/high and add the month.
- **The loader run.**
  - The directory walk (`find_files`) and the dispatch on suffix and mode (`run`).
  - The canonical output paths, with skip-if-exists as the completion marker.
  - The three writers: one file, a partitioned archive, and the chunked Parquet writer with its `finally` close.
  - The partition router.
- **The HDF5 converter.** Header dtypes, `min_itemsize`, appending to the store, and the path and skip logic. The dtype dictionary is keyed by the first member's stripped header, while each member's columns are named from its own unstripped header line, as `read_csv` names them. As pandas does, the first append fixes each string column's width in UTF-8 bytes (the larger of `min_itemsize` and the longest encoded value), and a later append fails when one of its values needs more bytes.
- **Aggregations.**
  - The hourly rule table, both chunked (`analyze_in_chunks`) and in one pass (`analyze_hourly_rules`).
  - The streaming counter over archive members (`analyze_data_stream`).
  - The hit-rule indicator expansion (`expand_hit_rules`).
- **Dashboards.**
  - SQL text: file lists, IN lists, quoting, WHERE joiners, CASE expressions.
  - The "Other" grouping, the category and filter columns, and the `where` strings of the HDF dashboard.
  - The confusion-matrix cells, recall and false-positive rate, and `aggregate_for_chart`.

**How values are represented.** A row maps column names to optional cells (`Table.Row`). A missing name reads as null. SCORE and EVENT_VALUE are integers. Timestamps are already-parsed date/time fields (`Table.DateTime`).

**Form of the model.**
- Pure code is modelled as functions and lemmas.
- Code that mutates state is modelled as methods proved against a specification function:
  - the loader (`Loader.DataLoader`, a class whose file system is a field);
  - the walk's work list;
  - `preprocess_pandas` on a `Table.DataFrame`;
  - the HDF store's appends;
  - the streaming counter;
  - the chunk fold;
  - the dashboards' loops.

Modules, one per file:
- `Wrappers`, `Text`, `LexOrder` and `Table`: helpers.
- `ScoreLevel`, `Fill`, `LoaderPreprocess`, `PandasPreprocess`: the cleaning rules.
- `Discovery`, `Partition`, `Loader`: the loader run.
- `ConvertHdf`: the HDF5 converter.
- `Hourly`, `Stream`, `Expand`: the aggregations.
- `Sql`, `DuckDbApp`, `FraudApp`, `HdfApp`: the dashboards.

## Model

| member | source | states |
|---|---|---|
| ScoreLevel.SortThresholds | data_loader.py:31 | the stored thresholds are ordered and are the two given values |
| ScoreLevel.LevelOf | data_loader.py:84-91 | for any two thresholds: low iff SCORE < t1, mid iff t1 <= SCORE < t2, high iff SCORE is at least both |
| ScoreLevel.LevelOfPartition | data_loader.py:84-91 | with sorted thresholds, low iff SCORE < t1, mid iff t1 <= SCORE < t2, high iff t2 <= SCORE |
| ScoreLevel.LevelOfMonotone | data_loader.py:84-91 | the level never goes down as SCORE goes up |
| ScoreLevel.SelectAgreesWithLoader | convert_to_hdf.py:57-64 | the converter's `np.select` gives the loader's level for every score |
| ScoreLevel.DashboardVersusLoader | streamlit_duckdb_app.py:141-152 | with accepted thresholds (low < mid), the dashboard's inclusive CASE is the loader's rule with both bounds moved up by one; on the same numbers the two differ exactly when the score equals one of the thresholds |
| Discovery.FilesHere | data_loader.py:58-60 | a directory yields exactly its files whose name ends in .tsv, .txt or .tar.gz |
| Discovery.KeptDirs | data_loader.py:52-56 | the walk keeps exactly the subdirectories not named .venv, __pycache__, .git or tests |
| Discovery.Walk | data_loader.py:52-60 | every path the walk yields ends in a .tsv, .txt or .tar.gz name |
| Discovery.WalkDirs | data_loader.py:54-56 | the same for the walks below the kept subdirectories |
| Discovery.WalkExact | data_loader.py:52-60 | a file is yielded iff it is really there, has a data name, and is reached through no excluded directory |
| Discovery.WalkDirsExact | data_loader.py:54-56 | the same, for the part of the walk below the subdirectories |
| Discovery.PushWalk | data_loader.py:54 | pushing the kept subdirectories in reverse puts their walks in listing order before the rest of the work list |
| Discovery.VisitWalk | data_loader.py:54-60 | one visit yields the directory's own files and replaces it by its kept subdirectories, without changing what remains to be yielded overall |
| Discovery.VisitSize | data_loader.py:54-56 | each visit shrinks what is left to walk |
| Discovery.FindFiles | data_loader.py:47-60 | a missing input root is an error; otherwise the work-list loop yields exactly the walk, in order |
| Fill.ForwardFillAt | data_loader.py:79 | a forward-filled cell is the nearest non-null cell at or above it; a non-null cell is kept; a cell with only nulls above it stays null |
| Fill.ForwardFillFromAt | data_loader.py:79 | the same, with a value carried in from earlier rows |
| Fill.ForwardFill | data_loader.py:79 | `forward_fill()` keeps the column's length; ForwardFillAt says what each cell becomes |
| Fill.BackFill | convert_to_hdf.py:54 | `bfill()` keeps the column's length; BackFillAt says what each cell becomes |
| Fill.BackFillAt | convert_to_hdf.py:54 | a back-filled cell is the nearest non-null cell at or below it |
| Fill.FillBothWays | convert_to_hdf.py:50-54 | after `ffill` and `bfill`, no null is left if any cell is non-null; an all-null column stays null |
| Fill.ForwardFillConcat | data_loader.py:184-185 | filling a concatenation in one pass carries the last value of the first part into the second |
| Fill.PerBatchFillDiffers | data_loader.py:255-261 | filling each batch on its own does not carry a value across a batch boundary, so the result can differ from filling the whole member |
| Partition.Parts | data_loader.py:122-127 | one non-empty part per (event_month, score_level) key that occurs; each part holds only rows with its key |
| Partition.PartsArePermutation | data_loader.py:122-127 | reading every part back, in any order that lists each key once, gives a permutation of the rows written |
| Partition.GatherSelects | data_loader.py:195-200 | reading back the parts of distinct keys gives the rows whose key is one of them |
| Table.MonthStart | data_loader.py:92 | `truncate("1mo")`: same year and month, not after the instant, and not after any instant of that month |
| Table.HourStart | analyze_in_chunks.py:28-29 | `floor("h")`: same hour, not after the instant, and not after any instant of that hour |
| Table.DayStart | streamlit_hdf_app.py:200-205 | the start of the day: same day, not after the instant, and not after any instant of that day |
| Table.DropAllNull | data_loader.py:66-67 | every row kept has a non-null cell and comes from the input, every such input row is kept, and nothing is added |
| Table.DropAllNullOne | data_loader.py:66-67 | a single row is kept iff it has a non-null cell |
| Table.DropAllNullCounts | data_loader.py:66-67 | an all-null row is dropped every time it occurs, and any other row is kept exactly as many times as it occurs |
| Table.DropAllNullAt | data_loader.py:66-67 | the output is the input at strictly increasing positions, and a position is among them iff its row has a non-null cell, so the rows kept are in input order |
| Table.DropAllNullConcat | data_loader.py:184-185 | dropping all-null rows commutes with concatenation |
| Table.FillColumn | convert_to_hdf.py:24-26 | `fillna(v)` on a column: null becomes v, non-null is kept, other columns are unchanged |
| Table.WithColumn | convert_to_hdf.py:64-69 | adding or replacing a column: the new type, the other types unchanged, and a new name appended at the end |
| Table.SetColumn | streamlit_hdf_app.py:200-205 | writing a column: that column holds the given cells, the others are unchanged |
| Table.NamesOfTypes | convert_to_hdf.py:45 | `select_dtypes` / `pl.col(type)`: exactly the columns of the given types |
| Table.DataFrame.constructor | convert_to_hdf.py:120-127 | the frame holds the columns and rows read |
| LoaderPreprocess.CheckSchema | data_loader.py:70-92 | the plan is accepted iff SCORE and EVENT_VALUE are numeric, is_fraud is boolean or integer (0/1 flags) and EVENT_TIME is a timestamp; a text column among them is refused |
| LoaderPreprocess.Preprocess | data_loader.py:62-93 | an error iff the schema is refused; otherwise as many rows as there are non-all-null rows |
| LoaderPreprocess.FilledRowAt | data_loader.py:70-80 | the first `with_columns`, one row: SCORE and EVENT_VALUE null become 0, text null becomes "unknown", is_fraud null becomes false (0 in an integer column), EVENT_TIME is forward-filled, other columns are untouched |
| LoaderPreprocess.FraudFill | data_loader.py:77 | `fill_null(False)` writes false into a boolean is_fraud column and 0 into an integer one, whose supertype it takes |
| LoaderPreprocess.IntegerFlagsKept | data_loader.py:67-77 | a frame whose is_fraud holds 0/1 integers is preprocessed without error, a null flag becomes 0 and every flag written is 0 or 1 |
| LoaderPreprocess.Derived | data_loader.py:84-93 | score_level is the label of the level of SCORE, and event_month the start of EVENT_TIME's month; all other columns unchanged |
| LoaderPreprocess.PreprocessRowAt | data_loader.py:67-92 | a surviving row after `preprocess`: the fills, forward-filled EVENT_TIME, score_level of the filled SCORE, event_month of the filled EVENT_TIME |
| LoaderPreprocess.PreprocessOtherColumns | data_loader.py:75-81 | a null text cell becomes "unknown"; numeric_col_* and every column no rule names are left as they were |
| LoaderPreprocess.PreprocessKeepsRows | data_loader.py:67-77 | the output is empty iff every input row is all-null, and SCORE, EVENT_VALUE, is_fraud and score_level are never null afterwards |
| LoaderPreprocess.LevelExamples | data_loader.py:72-91 | SCORE 600 with thresholds given as (1500, 500) is mid; a null SCORE is filled to 0 and is low |
| PandasPreprocess.FraudMap | convert_to_hdf.py:31-41 | "True", "1", 1 and True map to true; "False", "0", 0 and False map to false; everything else maps to nothing |
| PandasPreprocess.FillTargets | convert_to_hdf.py:45-48 | the columns the "unknown" loop fills are the object columns other than is_fraud and EVENT_TIME |
| PandasPreprocess.Preprocess | convert_to_hdf.py:14-71 | the method, updating the frame step by step, leaves the schema and rows the specification functions give |
| PandasPreprocess.PandasRowAt | convert_to_hdf.py:19-69 | a surviving row: each fill applies only when its column exists; is_fraud is the mapped boolean, false for anything unmapped; score_level and event_month as in the loader |
| PandasPreprocess.PandasTextAt | convert_to_hdf.py:45-48 | an object column other than is_fraud and EVENT_TIME has no null left |
| PandasPreprocess.PandasTimesComplete | convert_to_hdf.py:50-54 | if any EVENT_TIME is a timestamp after coercion, no EVENT_TIME is null; otherwise all are |
| PandasPreprocess.LeadingNullTime | data_loader.py:79 | the two rule sets differ on a leading null EVENT_TIME: the loader leaves it null, the converter takes the timestamp below it |
| PandasPreprocess.ConvertExampleValues | convert_to_hdf.py:29-64 | the converter's test values: is_fraud ["True","False",null,"False"] becomes [true,false,false,false] ("true" is unmapped), and SCORE 100, 600, 1600 and null with (1500, 500) become low, mid, high and low |
| Loader.LastIndexOf | data_loader.py:117-130 | the last position of a character, and no later occurrence; None iff it does not occur |
| Loader.StemSuffix | data_loader.py:117-130 | `stem + suffix` is the name; a suffix is a dot, at least one more character and no further dot |
| Loader.NameExamples | data_loader.py:117-215 | "a.tar.gz" has suffix ".gz" and stem "a.tar"; the archive targets are "a" and "a.parquet"; ".tsv" and "data." have no suffix |
| Loader.BaseName | data_loader.py:237 | `Path(member.name).name` holds no slash |
| Loader.TableMembers | data_loader.py:153-157 | exactly the regular members named *.tsv or *.txt |
| Loader.Write | data_loader.py:266-272 | the writer is created on the first batch with that batch's schema, and every write appends the batch's rows |
| Loader.ProcessBatches | data_loader.py:255-261 | each batch is preprocessed on its own |
| Loader.ProcessMembers | data_loader.py:235-261 | every member's batches are preprocessed on their own |
| Loader.HiddenTableFileIgnored | data_loader.py:366-367 | a file named ".tsv" is yielded by the walk, but its suffix is empty, so `run` does nothing with it |
| Loader.TargetCollisions | data_loader.py:117-189 | "a.tsv" and "a.txt" share an output, and so do a partitioned "a.tsv" and "a.tar.gz" |
| Loader.DispatchWritesOnce | data_loader.py:359-373 | a dispatch adds at most its own target and never changes or removes an existing output |
| Loader.FileWritesOnce | data_loader.py:95-136 | `process_file` adds at most its target |
| Loader.ArchiveWritesOnce | data_loader.py:144-201 | `process_tar_gz` adds at most its target |
| Loader.ChunkWritesOnce | data_loader.py:209-285 | `process_tar_gz_in_chunks` adds at most its target |
| Loader.ChunkKeepsTemp | data_loader.py:235-275 | the chunked path deletes each member's temporary file and leaves the temporary directory as it was |
| Loader.WriteMembersTemp | data_loader.py:273-275 | the member loop never leaves a new temporary file, even on error |
| Loader.DuckdbModeOnlyArchives | data_loader.py:360-366 | with to_duckdb, no Parquet output is written and exactly the archives, in order, are loaded |
| Loader.ArchiveNames | data_loader.py:361 | only names ending in .tar.gz are loaded into DuckDB |
| Loader.WrittenThenSkipped | data_loader.py:116-133 | once `process_file` has written its target, any file with the same target is skipped without change |
| Loader.ArchiveWrittenThenSkipped | data_loader.py:188-193 | once an archive has been written, processing it again is skipped |
| Loader.PartialChunkFileSkipped | data_loader.py:214-285 | a chunked run that failed but left a file at the target is skipped by the next run |
| Loader.MismatchLeavesPartialFile | data_loader.py:266-285 | when a second member's batch brings another schema, the run fails and the first member's batch stays as the file at the target |
| Loader.WriteBatchesRows | data_loader.py:255-272 | when no batch fails, the writer holds what it held plus every batch's preprocessed rows, and an open writer keeps its schema |
| Loader.WriteMembersRows | data_loader.py:235-275 | when no member fails, the writer holds the members' preprocessed batches in order |
| Loader.ChunkWrittenRows | data_loader.py:209-285 | a completed chunked run leaves a Parquet file at the target holding exactly the batches' preprocessed rows, member after member |
| Loader.DispatchAllKeepsTempDir | data_loader.py:359-373 | the dispatch loop neither creates nor removes the temporary directory |
| Loader.SecondRunFails | data_loader.py:374-375 | every run removes the temporary directory, so a second run on the same loader fails in its clean-up |
| Loader.DataLoader.constructor | data_loader.py:19-40 | the thresholds are sorted, the mode flags are stored, and the temporary directory exists |
| Loader.DataLoader.ProcessFile | data_loader.py:95-142 | the method changes the file system and returns the outcome exactly as the `process_file` specification says |
| Loader.DataLoader.ProcessTarGz | data_loader.py:144-207 | the same, for `process_tar_gz` |
| Loader.DataLoader.GatherRows | data_loader.py:164-184 | the loop over the table members yields all their rows in archive order, and reports whether every member has the first one's columns |
| Loader.DataLoader.WriteMember | data_loader.py:245-272 | the batch loop writes through the writer as the batch specification says |
| Loader.DataLoader.ProcessTarGzInChunks | data_loader.py:209-285 | the same, for `process_tar_gz_in_chunks`, including the close in `finally` |
| Loader.DataLoader.Run | data_loader.py:353-378 | the same, for `run`: walk, dispatch in order, then remove the temporary directory |
| ConvertHdf.HeaderDtypes | convert_to_hdf.py:104-111 | the dtype map has exactly the header's names, with float64 for SCORE, EVENT_VALUE and numeric_col_*, object for is_fraud, and str otherwise |
| ConvertHdf.HeaderOfIdeographicSpace | convert_to_hdf.py:101-102 | a header line "\u3000ルール1\u3000\t" gives the dtype dictionary the single key ルール1, the ideographic space stripped as `str.strip()` does |
| ConvertHdf.ReadColumns | convert_to_hdf.py:113-127 | a member's schema is one column per name of its own header, typed from the first member's dictionary, or object (left to inference) for a name the dictionary lacks |
| ConvertHdf.Unterminated | convert_to_hdf.py:120-127 | the header line `read_csv` splits is the line without its line break, and the line itself when it has none |
| ConvertHdf.ColumnName | convert_to_hdf.py:120-127 | `read_csv(header=0)` keeps a non-empty field as its name, whitespace included, and names an empty field "Unnamed: k"; no name is empty |
| ConvertHdf.CsvHeader | convert_to_hdf.py:120-127 | one non-empty, tab-free column name per tab-separated field of the member's unstripped first line |
| ConvertHdf.CsvHeaderOfFields | convert_to_hdf.py:120-127 | when no field of the header line is empty, the column names are exactly its fields |
| ConvertHdf.CsvHeaderOfJoin | convert_to_hdf.py:120-127 | a header written as tab-joined names and a line break reads back as exactly those names, with nothing stripped |
| ConvertHdf.CsvHeaderKeepsIdeographicSpace | convert_to_hdf.py:120-127 | the header "\u3000ルール1\u3000\t" gives the columns "\u3000ルール1\u3000" and "Unnamed: 1", neither of them the dictionary's key ルール1 |
| ConvertHdf.PaddedScoreUntyped | convert_to_hdf.py:101-127 | for the header "X\tSCORE " the dictionary types "SCORE" as float64, but the member's column is "SCORE ", which the dictionary lacks, so it is left to inference |
| ConvertHdf.MinItemsize | convert_to_hdf.py:131-142 | for each object column of a non-empty frame, the largest printed length of its cells; an empty frame gives no entry |
| ConvertHdf.ColumnWidth | convert_to_hdf.py:139-141 | the `max` of one column's printed lengths: every cell fits in it and some cell reaches it |
| ConvertHdf.Widths | convert_to_hdf.py:131-142 | the reference definition of those widths |
| ConvertHdf.MaxWidth | convert_to_hdf.py:140 | an upper bound that some cell attains |
| ConvertHdf.WidthsUnique | convert_to_hdf.py:131-142 | any map meeting the `min_itemsize` contract is the reference widths |
| ConvertHdf.FirstTooLong | convert_to_hdf.py:144-150 | the first column whose new width exceeds the stored one, or none |
| ConvertHdf.CellBytes | convert_to_hdf.py:144-150 | the bytes pandas stores for a cell, never fewer than its printed length |
| ConvertHdf.MaxBytes | convert_to_hdf.py:144-150 | an upper bound of a column's cell bytes that some cell attains |
| ConvertHdf.Requested | convert_to_hdf.py:144-150 | the width a frame asks for, per object column: at least the `min_itemsize` entry and every cell's bytes, and one of those two |
| ConvertHdf.MinItemsizeNeverBinds | convert_to_hdf.py:131-150 | `min_itemsize` counts characters, so it never exceeds the bytes and the requested width is the longest cell's byte length |
| ConvertHdf.TextFrameRequested | convert_to_hdf.py:131-150 | a one-column frame asks for exactly its text's byte length |
| ConvertHdf.TextFrameFirst | convert_to_hdf.py:144-150 | the first append of a one-column frame creates the table with that byte length as the column's width |
| ConvertHdf.TextFrameTooLong | convert_to_hdf.py:144-150 | a second one-column frame is too long iff its bytes exceed the first's |
| ConvertHdf.TextFrameSecond | convert_to_hdf.py:144-150 | the second append succeeds, after the stored rows, iff its byte length is at most the first's, and fails on that column otherwise |
| ConvertHdf.AppendFirst | convert_to_hdf.py:144-150 | a non-empty frame on an empty store creates the table with the requested widths |
| ConvertHdf.AppendLater | convert_to_hdf.py:144-150 | a non-empty frame with the table's columns is appended unless some column asks for more bytes than stored |
| ConvertHdf.AppendCountsBytesFits | convert_to_hdf.py:144-150 | after "ルール1" (10 bytes) the 7-character "abcdefg" is appended |
| ConvertHdf.AppendCountsBytesTooLong | convert_to_hdf.py:144-150 | after "abcd" the 2-character "ルー" (6 bytes) is refused as too long |
| ConvertHdf.Utf8LenKatakana | convert_to_hdf.py:144-150 | "ルール1" is 10 bytes and "ルー" 6 |
| ConvertHdf.Append | convert_to_hdf.py:144-150 | an empty frame leaves the store; otherwise the rows are appended after the stored ones; an error only for an existing store and a non-empty frame; widths are counted in UTF-8 bytes |
| ConvertHdf.TsvMembers | convert_to_hdf.py:87-91 | exactly the regular members named *.tsv or *.txt |
| ConvertHdf.Step | convert_to_hdf.py:116-150 | one pass appends the member's preprocessed rows; an unreadable member is an error |
| ConvertHdf.DtypeMap | convert_to_hdf.py:104-111 | the reference definition of the dtype map |
| ConvertHdf.AppendAllRows | convert_to_hdf.py:116-150 | a loop that hits no error leaves the members' preprocessed rows after what the store held, in order |
| ConvertHdf.Convert | convert_to_hdf.py:79-151 | skipped iff the output exists; only the output file may be added, every other file is kept as it was, and a saved or failed conversion leaves the output file |
| ConvertHdf.ConvertSaved | convert_to_hdf.py:79-151 | a success adds one file named after the archive, holding every member's preprocessed rows in order, and leaves every other file |
| ConvertHdf.FailureBlocksRetry | convert_to_hdf.py:81-157 | a failure leaves the new output file behind, so the next conversion of the archive is skipped |
| ConvertHdf.ConvertNoChange | convert_to_hdf.py:79-96 | skipped iff the output exists; no members iff it does not and there is no TSV member; the directory is unchanged in exactly those two cases |
| ConvertHdf.OutputDir.constructor | convert_to_hdf.py:74 | the directory holds the existing files |
| ConvertHdf.OutputDir.ConvertTarToHdf | convert_to_hdf.py:74-157 | the method changes the directory and returns the outcome exactly as the conversion specification says |
| ConvertHdf.OutputDir.AppendMember | convert_to_hdf.py:116-150 | one loop pass, as the step specification says |
| Expand.Tokens | expand_hit_rules.py:19 | a token is a non-empty piece of hit_rule between single spaces |
| Expand.TokensOfJoin | expand_hit_rules.py:19 | space-free names joined with single spaces give back exactly those names, less the empty one |
| Expand.EmptyHasNoTokens | expand_hit_rules.py:13-19 | an empty hit_rule holds no token |
| Expand.AllTokens | expand_hit_rules.py:19 | the indicator columns are exactly the tokens occurring in some row |
| Expand.Indicator | expand_hit_rules.py:19 | 1 iff the token is one of the row's tokens, 0 otherwise, so repeated tokens still give 1 |
| Expand.DummyColumns | expand_hit_rules.py:19 | one integer column per token, named by it |
| Expand.Indicators | expand_hit_rules.py:19-22 | a row gains exactly one cell per token, holding its indicator |
| Expand.Expand | expand_hit_rules.py:13-22 | an error iff hit_rule is missing or is not a text column (`.str` raises on a numeric or boolean one), the missing-column error iff it is missing; otherwise the same number of rows, and the schema starts with the original columns unchanged |
| Expand.ExpandColumns | expand_hit_rules.py:22 | the schema is the original names followed by one integer column per distinct token |
| Expand.ExpandRowAt | expand_hit_rules.py:19-22 | in each row every token column holds 1 iff the token occurs in its hit_rule, else 0, and every column that is not a token keeps its cell |
| Expand.EmptyRuleAllZero | expand_hit_rules.py:18-19 | a row with an empty hit_rule gets 0 in every indicator column |
| Hourly.CountConcat | analyze_in_chunks.py:38-42 | the count over two runs of rows is the sum of their counts |
| Hourly.CountWithinVolume | analyze_in_chunks.py:25-39 | for every hour and rule, the hit count never exceeds 取引量 |
| Hourly.VolumePositive | analyze_in_chunks.py:39 | an hour that occurs has 取引量 of at least 1 |
| Hourly.CountOutside | analyze_in_chunks.py:38-39 | outside the hours and tokens that occur, every count is 0 |
| Hourly.CountPermutation | analyze_in_chunks.py:38-42 | counts do not depend on the order of the rows |
| Hourly.ChunkSummary | analyze_in_chunks.py:25-39 | one chunk's table has no NaN; its rows are the chunk's hours and its columns the tokens plus 取引量 |
| Hourly.ChunkSummaryAt | analyze_in_chunks.py:38-39 | each cell is the count of the chunk's rows in that hour that hold the token (all of them for 取引量) |
| Hourly.AddFill | analyze_in_chunks.py:42 | `add(fill_value=0)`: rows and columns are united, each cell is the sum with a missing side read as 0, and a cell neither side holds stays NaN |
| Hourly.FillZero | analyze_in_chunks.py:47 | `fillna(0)` leaves a table with no NaN and the same rows, columns and present values |
| Hourly.AccumulateTotals | analyze_in_chunks.py:19-42 | the running total, with NaN read as 0, holds the counts of every row read so far, over the hours and tokens seen so far |
| Hourly.FoldIsWholeFile | analyze_in_chunks.py:19-42 | with NaN read as 0, folding the chunk summaries gives exactly the summary of the whole file |
| Hourly.SummaryPermutation | analyze_in_chunks.py:38-42 | the summary of a set of rows does not depend on their order |
| Hourly.RuleSet | analyze_in_chunks.py:50 | exactly the columns whose name starts with ルール |
| Hourly.Layout | analyze_in_chunks.py:56-64 | the labels are (取引量,"") and (r,ヒット数) and (r,ヒット率) for each rule r, and nothing else |
| Hourly.HitsBeforeRate | analyze_in_chunks.py:65 | ヒット数 sorts before ヒット率 |
| Hourly.RuleBeforeVolume | analyze_in_chunks.py:65 | every ルール name sorts before 取引量 |
| Hourly.LayoutSorted | analyze_in_chunks.py:65 | for sorted rules the layout is in `sort_index` order |
| Hourly.BuildColumns | analyze_in_chunks.py:49-65 | the report's labels are sorted, and are exactly 取引量 plus hits and rate of each rule column |
| Hourly.BuildCongruent | analyze_in_chunks.py:49-65 | two tables with the same hours, rules and values give the same report |
| Hourly.HourRowAt | analyze_in_chunks.py:53-61 | a report row holds 取引量, the hits, and hits ÷ 取引量 of the same hour |
| Hourly.ReportCells | analyze_in_chunks.py:38-61 | in the whole-file report, 取引量 is the hour's row count (at least 1), hits are the rows holding the rule (never more), and the rate is their exact quotient |
| Hourly.AnalyzeInChunks | analyze_in_chunks.py:12-65 | the chunk loop, with `fillna(0)` before `astype(int)`, gives the corrected chunked analysis |
| Hourly.ChunkedAsWritten | analyze_in_chunks.py:12-65 | the code as written succeeds only on a non-empty file with a text hit_rule column, an EVENT_TIME column and every EVENT_TIME cell convertible; with the columns right, an unconvertible cell is the `pd.to_datetime` error; on success its labels are sorted |
| Hourly.ChunkedIsWholeFile | analyze_in_chunks.py:19-65 | the corrected chunked analysis is the report of the whole-file summary, for any split into chunks |
| Hourly.ChunkingIndependent | analyze_in_chunks.py:42 | any two non-empty chunkings of the same rows, in any order and of any size, give the same report |
| Hourly.ChunkedSucceeds | analyze_in_chunks.py:25-47 | the corrected analysis succeeds iff the file has a chunk, hit_rule is a text column, EVENT_TIME is present and every EVENT_TIME cell converts |
| Hourly.UnparseableTimeRaises | analyze_in_chunks.py:28 | an EVENT_TIME of "abc" is the `pd.to_datetime` error in the chunked analysis, as written and corrected, and in the one-pass analysis |
| Hourly.AllParsePermutation | analyze_in_chunks.py:19-28 | whether every EVENT_TIME converts does not depend on how the rows are ordered or chunked |
| Hourly.AsWrittenAgrees | analyze_in_chunks.py:47 | when the code as written succeeds, it gives the corrected report |
| Hourly.FillZeroComplete | analyze_in_chunks.py:47 | `fillna(0)` changes nothing in a table without NaN |
| Hourly.NaNCell | analyze_in_chunks.py:42-47 | an hour only an earlier chunk has and a rule only a later chunk has leave a NaN cell, so `astype(int)` fails as written, while the corrected fold succeeds with 0 in that cell |
| Hourly.NaNCellExample | analyze_in_chunks.py:42-47 | concrete input: ルール1 at 00:00 in the first chunk and ルール2 at 01:00 in the second |
| Hourly.RuleColumns | analyze_hourly_rules.py:22 | exactly the columns whose name starts with ルール, in input order |
| Hourly.OnePassGrid | analyze_hourly_rules.py:27-35 | the one-pass table has no NaN; its rows are the hours and its columns the rule columns plus 取引量 |
| Hourly.AnalyzeHourlyRules | analyze_hourly_rules.py:12-59 | success iff EVENT_TIME is present and every one of its cells converts, an unconvertible cell being the `pd.to_datetime` error; on success the report's labels are sorted |
| Hourly.ExpandedParse | analyze_hourly_rules.py:17 | expansion keeps every EVENT_TIME cell, so the expanded file converts exactly when the raw file does |
| Hourly.VolumesSumToRows | analyze_hourly_rules.py:27-32 | the 取引量 of all hours add up to the number of rows with a timestamp |
| Hourly.VolumeOverConcat | analyze_hourly_rules.py:32 | volumes over a list of hours add up over a concatenation |
| Hourly.VolumeOverOne | analyze_hourly_rules.py:32 | one row adds 1 to the volume of its own hour only |
| Hourly.SumOfIndicators | analyze_hourly_rules.py:30 | a rule column's hourly sum is the count of its token when every row holds its indicator |
| Hourly.VolumeSameHours | analyze_hourly_rules.py:32 | rows with the same hours have the same 取引量 |
| Hourly.ExpandedRows | expand_hit_rules.py:19-22 | the expanded rows keep their hour, and each token column holds that row's indicator |
| Hourly.ExpandedRules | analyze_hourly_rules.py:22 | when no input column starts with ルール, the rule columns of the expanded file are the tokens |
| Hourly.ExpandedHours | analyze_hourly_rules.py:17-19 | expansion keeps the set of hours |
| Hourly.ExpandedVolumes | analyze_hourly_rules.py:27-32 | the one-pass 取引量 of the expanded file is the chunked 取引量 of the raw file |
| Hourly.ExpandedHits | analyze_hourly_rules.py:30 | the one-pass hits of the expanded file are the chunked hits of the raw file |
| Hourly.OnePassIsWholeFile | analyze_hourly_rules.py:27-59 | the one-pass report of the expanded file is the whole-file chunk report of the raw file |
| Hourly.OnePassMatchesChunks | analyze_hourly_rules.py:27-35 | expanding the file and grouping it in one pass gives the corrected chunked analysis, for any chunking |
| Stream.NumericIndices | analyze_data_stream.py:38-40 | exactly the positions whose header name starts with "numeric_", in increasing order |
| Stream.PlanOf | analyze_data_stream.py:34-41 | an error iff string_col_0 is not in the header; otherwise the header is kept and the category position holds string_col_0 |
| Stream.AddNumbersStep | analyze_data_stream.py:47-48 | one numeric position adds `int(row[i])` under its column name |
| Stream.AddRows | analyze_data_stream.py:44-50 | a member's rows add their number to total_rows and one category each |
| Stream.Run | analyze_data_stream.py:24-50 | total_rows grows by the data rows of the members read, the category counts by as many, and the plan stays valid |
| Stream.AnalyzeSpec | analyze_data_stream.py:16-50 | total_rows counts every data row read, and the category counts add up to total_rows |
| Stream.AddRowNumbers | analyze_data_stream.py:47-48 | the numeric loop for one row, as its specification says |
| Stream.AddOneRow | analyze_data_stream.py:45-50 | the body of the row loop gives what the row specification gives |
| Stream.AddMemberRows | analyze_data_stream.py:44-50 | the row loop over one member gives the counters its specification function gives, or the error of the first bad row |
| Stream.AnalyzeDataStream | analyze_data_stream.py:16-50 | the nested loops give the specified result |
| Stream.FirstRead | analyze_data_stream.py:25-35 | the first member that is read, whose header sets the plan |
| Stream.ColumnTotalConcat | analyze_data_stream.py:47-48 | a column's total adds up over a concatenation of rows |
| Stream.CategoriesConcat | analyze_data_stream.py:50 | the category multiset adds up over a concatenation of rows |
| Stream.AddNumbersTotal | analyze_data_stream.py:47-48 | one row adds its own numbers to the Counter, column by column |
| Stream.AddRowsTotal | analyze_data_stream.py:44-50 | a member's rows add their column totals and their categories |
| Stream.RunWithPlan | analyze_data_stream.py:34-50 | once the plan is fixed, later members are read with it and their own headers are discarded |
| Stream.StreamTotals | analyze_data_stream.py:16-50 | the plan is that of the first .tsv member's header; numeric_sums[c] is the sum of int over all rows read, and category_counts is the multiset of their string_col_0 cells |
| Stream.RunFromStart | analyze_data_stream.py:24-50 | the inductive form of the same |
| Stream.SkippedMember | analyze_data_stream.py:25 | a member that is not a regular .tsv file, a .txt one included, changes nothing |
| Text.RemoveSuffix | data_loader.py:189 | a name ending in the suffix loses exactly that suffix; any other name is kept unchanged |
| Text.Split | convert_to_hdf.py:102 | splitting on a separator gives at least one field and no field holds the separator |
| Text.SplitJoin | convert_to_hdf.py:102 | splitting fields joined with a separator they do not contain gives the fields back |
| Text.JoinSplit | convert_to_hdf.py:102 | joining the fields of a split with the separator gives the line back |
| Text.SplitNoSeparator | convert_to_hdf.py:102 | a line without the separator splits into itself alone |
| Text.StripShape | convert_to_hdf.py:101 | a stripped line is a contiguous piece of it, with only whitespace (everything `str.isspace` accepts) cut at either end, and starts and ends with non-whitespace |
| Text.StripIdeographicSpace | convert_to_hdf.py:101 | an ideographic space and a tab around "ルール1" are stripped |
| Text.Utf8Size | convert_to_hdf.py:144-150 | one to four bytes per character, one exactly for ASCII |
| Text.Utf8Len | convert_to_hdf.py:144-150 | between one and four bytes per character |
| Text.Utf8LenConcat | convert_to_hdf.py:144-150 | the byte length of a concatenation is the sum of the parts' |
| Text.Utf8LenAscii | convert_to_hdf.py:144-150 | bytes equal characters iff every character is ASCII |
| Text.NatToString | convert_to_hdf.py:140 | `str()` of a natural number (the printed width `astype(str)` measures, the text `str(v)` puts into SQL, the k of "Unnamed: k") is non-empty and all decimal digits |
| Text.ParseIntToString | analyze_data_stream.py:48 | int() reads back the decimal text of every integer |
| Text.IndexOf | streamlit_duckdb_app.py:105 | None exactly when the item is absent; otherwise the position of its first occurrence |
| Text.RemoveFirst | streamlit_duckdb_app.py:98-99 | list.remove drops one occurrence when there is one, keeps every other member, and leaves a list without the item when its members were distinct |
| LexOrder.SortSet | streamlit_hdf_app.py:36 | sorted() of a set of strings: sorted, of the set's size, with exactly its members |
| LexOrder.SortedUnique | streamlit_hdf_app.py:36 | two sorted lists with the same members are equal, so the sorted list is determined by the set |
| LexOrder.LessTotal | streamlit_hdf_app.py:36 | Python's string order is total |
| LexOrder.LessTransitive | streamlit_hdf_app.py:36 | Python's string order is transitive |
| Sql.Escape | fraud_analysis_app.py:170 | doubling quotes leaves a value without quotes unchanged |
| Sql.QuoteAll | streamlit_duckdb_app.py:29 | every item is quoted, in order |
| Sql.ReadBody | fraud_analysis_app.py:170-172 | the database's reading of a literal consumes at least its closing quote |
| Sql.ReadEscaped | fraud_analysis_app.py:170-172 | a value with its quotes doubled and then closed reads back as the value, followed by the rest of the text |
| Sql.ListRoundTrip | streamlit_duckdb_app.py:29 | a non-empty list of strings quoted with doubled quotes and joined by ", " reads back as the list |
| Sql.FirstAtom | streamlit_duckdb_app.py:185 | the leftmost operand of a conjunction is not itself a conjunction |
| Sql.Render | streamlit_duckdb_app.py:185 | a rendered condition starts with the text of its leftmost operand: "1=1", or the column name and " IN (" |
| Sql.NameThenTrueIsNoCondition | streamlit_duckdb_app.py:164-165 | a bare column name followed by " 1=1" starts no rendered condition |
| DuckDbApp.PlainQuoteAll | streamlit_duckdb_app.py:29 | each path is wrapped in single quotes, in order |
| DuckDbApp.PlainQuoteAllIsQuoteAll | streamlit_duckdb_app.py:29 | for paths without quotes, plain quoting is SQL quoting |
| DuckDbApp.FileList | streamlit_duckdb_app.py:24-29 | no file list exactly when there are no files (the load stops there) |
| DuckDbApp.FileListRoundTrip | streamlit_duckdb_app.py:29-34 | the list of quoted paths passed to `read_parquet` reads back as the paths found |
| DuckDbApp.LevelLiterals | streamlit_duckdb_app.py:146-152 | each chosen level becomes the label the score CASE writes |
| DuckDbApp.FormatAgrees | streamlit_duckdb_app.py:167-170 | for values without quotes, format_value spells every value as SQL does |
| DuckDbApp.WhereAsWritten | streamlit_duckdb_app.py:175-185 | the text starts with "is_fraud ", and with "is_fraud 1=1" when no fraud value is chosen |
| DuckDbApp.LabelsQuoteFree | streamlit_duckdb_app.py:146-152 | the level labels hold no quote |
| DuckDbApp.WhereAgrees | streamlit_duckdb_app.py:162-185 | with both selections non-empty and quote-free, the WHERE text as written is the rendering of the intended condition |
| DuckDbApp.EmptyFraudSelectionIsNoCondition | streamlit_duckdb_app.py:164-165 | with no fraud value chosen the text starts "is_fraud 1=1", which is the rendering of no condition |
| DuckDbApp.EmptyLevelSelectionText | streamlit_duckdb_app.py:164-165 | with no level chosen the text ends "score_level 1=1" |
| DuckDbApp.WhereMeaning | streamlit_duckdb_app.py:175-185 | a row passes the intended filter iff its is_fraud is one of the chosen values (any, when none is chosen) and its score_level is one of the chosen labels (any, when none is chosen) |
| DuckDbApp.QuoteInValueMisread | streamlit_duckdb_app.py:167-169 | the value a'b is written 'a'b', which does not read back as a'b |
| DuckDbApp.RenderedValuesReadBack | streamlit_duckdb_app.py:167-173 | with quotes doubled, every non-empty list of string values reads back exactly |
| DuckDbApp.StrLiterals | streamlit_duckdb_app.py:258-264 | each top category becomes a string literal, in order |
| DuckDbApp.AggConditionRenders | streamlit_duckdb_app.py:258-264 | for quote-free categories the IN clause as written renders the membership condition on the grouping column |
| DuckDbApp.CategoryGroupRule | streamlit_duckdb_app.py:266-271 | with top categories, a value keeps its name when it is one of them and becomes Other when not; with none, the clause is empty |
| DuckDbApp.VarcharNames | streamlit_duckdb_app.py:92-96 | exactly the names DESCRIBE reports as VARCHAR, without repeats when the schema has none |
| DuckDbApp.CategoricalColumnsMembers | streamlit_duckdb_app.py:92-99 | the category choices are the VARCHAR columns other than score_level |
| DuckDbApp.DefaultIndex | streamlit_duckdb_app.py:101-108 | no choice when there are no columns; otherwise the first position of string_col_0 when offered, else 0 (the HDF dashboard's lines 92-99 apply the same rule) |
| FraudApp.SelectableColumns | fraud_analysis_app.py:95-101 | exactly the columns that are not excluded, in order, never more than there are |
| FraudApp.SelectableConcat | fraud_analysis_app.py:95-101 | the choice is made column by column |
| FraudApp.DefaultDims | fraud_analysis_app.py:106 | the first two offered axes, or all of them when fewer |
| FraudApp.Options | fraud_analysis_app.py:123-131 | the manual entry first, then the distinct values capped at 500, in order |
| FraudApp.Recorded | fraud_analysis_app.py:139-146 | an axis records the typed text when manual entry is chosen and something is typed, a truthy chosen value otherwise, and nothing else |
| FraudApp.Keys | fraud_analysis_app.py:113-148 | one key per recorded filter |
| FraudApp.Put | fraud_analysis_app.py:144-146 | after recording, the column maps to the new value and every other column keeps its value |
| FraudApp.PutKeys | fraud_analysis_app.py:144-146 | recording keeps the keys distinct and adds exactly the column |
| FraudApp.RecordFilters | fraud_analysis_app.py:113-148 | the loop over the axes builds the filters the specification function gives |
| FraudApp.FiltersLookup | fraud_analysis_app.py:113-148 | a column has a filter iff some axis on it recorded a value, and then it is the value recorded by the last such axis |
| FraudApp.Clauses | fraud_analysis_app.py:164-172 | one clause per filter, in order |
| FraudApp.BuildWhere | fraud_analysis_app.py:164-176 | the WHERE text is the rendering of the conjunction of the filters (1=1 when there are none) |
| FraudApp.ClauseRenders | fraud_analysis_app.py:170-172 | each clause is the quoted-name IN condition on the value's text |
| FraudApp.ClausesRender | fraud_analysis_app.py:176 | joining the clauses with AND renders the conjunction |
| FraudApp.WhereMeaning | fraud_analysis_app.py:164-176 | a row passes iff every filtered column is present and equal, as text, to its value |
| FraudApp.ClauseValueReadsBack | fraud_analysis_app.py:170-172 | the literal in each clause reads back as str(value), quotes included |
| FraudApp.ExactlyOneCase | fraud_analysis_app.py:254-264 | a row with both fields is counted in exactly one of the four cells, and a row with a NULL in either in none |
| FraudApp.Classify | fraud_analysis_app.py:254-264 | no cell iff is_fraud or SCORE is NULL; TP or FN iff the row is a fraud; TP or FP iff the adjusted score reaches the threshold |
| FraudApp.Confusion | fraud_analysis_app.py:254-269 | TP+FN are the frauds, FP+TN the non-frauds, and all four the complete rows |
| FraudApp.CaseSumBounds | fraud_analysis_app.py:266-269 | SUM with `or 0` is the number of rows in the cell |
| FraudApp.CellsPartition | fraud_analysis_app.py:254-264 | the four cells add up to the complete rows, TP+FN to the frauds and FP+TN to the non-frauds |
| FraudApp.HitsPartition | fraud_analysis_app.py:254-269 | the same holds for the counts after `or 0` |
| FraudApp.PositivesGrow | fraud_analysis_app.py:254-264 | raising the adjustment never lowers TP or FP |
| FraudApp.Guarded | fraud_analysis_app.py:293-295 | a zero denominator gives rate 0, any other the quotient, and the rate is between 0 and 1 |
| FraudApp.Recall | fraud_analysis_app.py:293-294 | TP / (TP + FN), 0 when there are no frauds; zero iff TP is |
| FraudApp.FalsePositiveRate | fraud_analysis_app.py:295 | FP / (FP + TN), 0 when there are no non-frauds; zero iff FP is |
| FraudApp.RatesGrowWithAdjustment | fraud_analysis_app.py:254-295 | raising the adjustment keeps the denominators and never lowers recall or the false-positive rate |
| HdfApp.ValuesIn | streamlit_hdf_app.py:23-36 | a value is collected iff some store that holds the column has it there |
| HdfApp.ValuesInSnoc | streamlit_hdf_app.py:28-35 | one more store adds exactly its values |
| HdfApp.UniqueValues | streamlit_hdf_app.py:23-36 | the loop over the stores gives the sorted set of values, skipping stores without the column |
| HdfApp.KeepIn | streamlit_hdf_app.py:79-80 | the paths kept are exactly those in the set, never more than given |
| HdfApp.StoresKeep | streamlit_hdf_app.py:79-80 | the stores opened are the paths that exist and open, in their order |
| HdfApp.Stores | streamlit_hdf_app.py:79-80 | a path is opened iff it was selected, exists and opens; never more stores than paths |
| HdfApp.Candidates | streamlit_hdf_app.py:86-88 | the columns naming string_col or equal to score_level, without repeats when the columns have none |
| HdfApp.ScoreLevelIsNoStringCol | streamlit_hdf_app.py:86-90 | score_level does not contain string_col |
| HdfApp.CategoricalColumnsMembers | streamlit_hdf_app.py:86-90 | the category choices are exactly the columns whose name contains string_col |
| HdfApp.RenderTerms | streamlit_hdf_app.py:130-136 | one term of text per condition |
| HdfApp.BuildWhereQuery | streamlit_hdf_app.py:130-136 | no query exactly when nothing is chosen; otherwise the terms joined by " & " |
| HdfApp.WhereMeaning | streamlit_hdf_app.py:130-136 | a row is selected iff its is_fraud matches a chosen value (any, when none is chosen) and its score_level a chosen level (any, when none is chosen) |
| HdfApp.RequiredColumns | streamlit_hdf_app.py:139-141 | the four fixed columns plus the category column, which adds one only when it is not already fixed |
| HdfApp.KeySet | streamlit_hdf_app.py:207-214 | the groups are the (period, category) pairs of rows with both present |
| HdfApp.Summary | streamlit_hdf_app.py:207-214 | the groups are the keys of the rows that have both parts, and with `size()` each group counts between one and all of the rows |
| HdfApp.GroupSizes | streamlit_hdf_app.py:212 | a group's size is at most the number of rows, and at least one when a row has its key |
| HdfApp.GroupTotalConcat | streamlit_hdf_app.py:207-214 | a group's total over two parts is the sum of their totals |
| HdfApp.GroupTotalAbsent | streamlit_hdf_app.py:207-214 | a group no row falls in totals 0 |
| HdfApp.SummaryConcat | streamlit_hdf_app.py:207-214 | the groups of two parts are the union of their groups and each total is the sum of the parts' totals |
| HdfApp.GroupingAgreesWithDuckDb | streamlit_hdf_app.py:200-202 | with top categories, grouping a value gives what the DuckDB dashboard's CASE gives |
| HdfApp.AggregateForChart | streamlit_hdf_app.py:193-214 | the frame is changed in place and the result are those of the chart specification |
| HdfApp.Chart | streamlit_hdf_app.py:193-214 | the row count is kept; a missing category column changes nothing and is the error; on success both new columns are there |
| HdfApp.ChartRows | streamlit_hdf_app.py:193-214 | on success, every row keeps its cells, gains its category group and the start of its period, and the row count is unchanged |
| HdfApp.MissingTimeLeavesGroup | streamlit_hdf_app.py:200-205 | with no event_time column the category column is already written, no period column is, and the result is the missing-column error |

## Left out

- User interface, plots, pygwalker, command-line parsing, progress messages and timing: every `st.*` widget value is a parameter instead.
- Reading and type inference of TSV/CSV text by polars, pandas and DuckDB. Frames arrive already typed: a timestamp is a TimeV cell, and a text cell is text that does not parse as one. `pd.to_datetime` reads the empty string and the NaN/NaT spellings as NaT and raises on any other text or a boolean (Hourly.Unparseable).
- Hourly.HourOf: an integer EVENT_TIME cell, which `pd.to_datetime` reads as nanoseconds since 1970, has no hour in the model, so its row leaves the groupby instead of falling in 1970-01-01 00:00.
- Hourly.ColumnCheck: pandas infers the hit_rule dtype chunk by chunk; the model takes one schema for the whole file, so a file whose hit_rule is text in one chunk and numeric in another is not modelled.
- Expand.Expand: a rule token equal to an existing column name (a hit_rule of "SCORE" or "hit_rule") gives, in pandas, two columns of that name with the original values kept; a model row holds one cell per name, so there the indicator replaces the original cell, while the schema lists the name twice as pandas does.
- ConvertHdf.CsvHeader: pandas renames a repeated header name ("X", "X" becomes "X", "X.1") and drops a leading UTF-8 byte-order mark; neither is modelled.
- tar and gzip decompression: an archive is its list of members (name, kind, rows).
- The file-system layout of partitioned Parquet output (`data_loader.py`): the file name picks the output directory, and inside it the rows are grouped by the (event_month, score_level) key of `partition_by` (Partition.PartKey); the hive-style directory names are not modelled.
- The loader's DuckDB mode (data_loader.py:287-351) is modelled only as the sequence of archives appended; what DuckDB stores is not. A re-run appends the same archives again, and the model keeps that behaviour.
- Directory creation and output-file writing in the analysis scripts: a report is returned as a value.
- Floating point: SCORE is an integer, and the recall and false-positive rate are kept as numerator/denominator pairs, not floats.
- The weekly "W" period of the HDF dashboard's time grouping: HdfApp.Period has only the monthly and daily periods.
- HdfApp.ReprLiteral: Python's repr escaping of strings that contain quotes or backslashes is not modelled; a string is wrapped in single quotes as it stands.
- LoaderPreprocess.CheckSchema: a boolean SCORE or EVENT_VALUE column, which `fill_null(0)` casts to an integer supertype without error (data_loader.py:72-73), is refused as WrongType; only the integer is_fraud cast is modelled.
- HdfApp.BuildWhereQuery: the selections are free parameters of type Literal; the model does not tie a value chosen in the multiselect to the text UniqueValues collected for it, so for is_fraud it does not show that the store's booleans are the values rendered unquoted.
- HdfApp.UniqueValues: the warning branch for errors other than KeyError/IndexError (streamlit_hdf_app.py:34-35) is folded into skipping the store; PyTables' `select` internals are not modelled.
- HdfApp.Stores: opening an HDF5 store is a set of paths that open, because the file system is outside the model.
- FraudApp.Options: the exception branch around the DISTINCT query (fraud_analysis_app.py:147-148) is not modelled; the distinct values are a parameter.
- Sql.Matches: DuckDB's conversion of a literal to the column's type is modelled as comparing the two values' text.
- Stream.StreamTotals: `int()` is modelled on ASCII digits with an optional sign, after stripping Python's whitespace; Unicode digits and underscores between digits are not accepted.
- Scripts outside the batch and dashboard core (benchmarks, test-data generators, Parquet read/write demos, the profiler wrapper, the polars and pandas one-shot analyses) are not part of this model.

## Findings

| source | as written | input that shows it | evidently intended | confidence | as-written member | corrected member |
|---|---|---|---|---|---|---|
| analyze_in_chunks.py:42-47 | the running total is built with `add(fill_value=0)` and then cast with `astype(int)`; a (hour, rule) cell present in no chunk's summary stays NaN and the cast raises | two chunks: the first holds the only row of hour h, the second holds the only row hitting rule c (NaNCellExample) | the cell reads as 0 hits and the report is the whole-file summary, whatever the chunking | not executed | Hourly.NaNCell, Hourly.NaNCellExample | Hourly.AnalyzeInChunks, Hourly.ChunkedIsWholeFile, Hourly.ChunkingIndependent |
| streamlit_duckdb_app.py:164-176 | an empty selection makes `build_in_clause` return "1=1", and it is appended to the column name, giving `is_fraud 1=1`, which is not a condition | no is_fraud value chosen (EmptyFraudSelectionIsNoCondition) | no selection means no restriction on that column | high, not executed | DuckDbApp.EmptyFraudSelectionIsNoCondition, DuckDbApp.EmptyLevelSelectionText | DuckDbApp.WhereMeaning, DuckDbApp.WhereAgrees |
| streamlit_duckdb_app.py:167-169 | string values are put between single quotes without doubling the quotes inside them | the value a'b is written 'a'b' (QuoteInValueMisread) | every value reads back as itself | medium, not executed | DuckDbApp.QuoteInValueMisread | DuckDbApp.RenderedValuesReadBack, Sql.ListRoundTrip |

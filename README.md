# Public code repositories analysis: a Dafny model of the data-shaping core

This project models, in Dafny, the three pieces of the repository that hold
the data-shaping logic. It proves properties of each.

- **The staging-to-archive merger** (`merge_stage_archive.dfy`, module
  `MergeStageArchive`).
  - The data directory is a map from path to table, plus the set of existing
    directories. A table is a sequence of rows, compared field by field.
  - `DataStore.Merge` walks the listed directories in order. For each
    `*_staging.csv` file it does one of two things:
    - it folds the file into its archive (staging rows first, full-row
      duplicates dropped, first occurrence kept) and deletes it;
    - or, when no archive exists yet, it renames the file to the archive name.
  - The order of a directory listing is a parameter `scan`.
- **The SonarCloud helpers** (`sonar_values.dfy`, `sonar_catalogue.dfy`,
  `sonar_measures.dfy`):
  - value coercion (`safe_cast`);
  - timestamp normalisation to UTC (`process_datetime`);
  - the metric catalogue, written by `write_metrics_file` and read by
    `load_metrics`;
  - the paged queries of `query_server`, with the web server as a function
    from request to response;
  - the per-page merge of measure histories (`concat_measures`);
  - the per-metric columns (`extract_measures_value`);
  - the table `process_project` assembles for a project.
- **The Jenkins extractor** (`jenkins.dfy`, module `JenkinsData`).
  - `extract_test_data` flattens a test report into rows.
  - `get_data` turns each build into a flat record plus its test rows. The
    server's test reports are a map from (job name, build number) to report.

Supporting modules:

- `pystr.dfy` (`PyStr`) defines the Python string operations the code relies
  on: `strip`, `find`, `split`, `join`, `replace(pat, "")`, `int()`, `str()`
  of an integer, and string comparison.
- `sorting.dfy` (`Sorting`) is a stable insertion sort, which stands for
  `list.sort(key=...)`.
- `wrappers.dfy` holds `Option`.

Where Python raises an exception, the model returns an explicit outcome
instead: `Crashed`, `None`, `Raises`, `Crash` or `Aborted`. None of these is
turned into a precondition.

Code behaviours worth knowing; the model follows each of them:

- A directory that does not exist makes `merge` return, so the later
  directories are not processed (`orchestration/merge_stage_archive.py:20-21`).
- The bootstrap rename does no deduplication
  (`orchestration/merge_stage_archive.py:36`).
- An HTTP error on the first page of a query gives `None`
  (`sonarcloud_data/fetch_sonarcloud_data.py:40-42`).
  - `process_project` then raises on `len(None)`.
  - An error on a later page raises: on `list + None` for projects, metrics
    and analyses (`sonarcloud_data/fetch_sonarcloud_data.py:63`), and on
    `zip(measures_1, None)` inside `concat_measures` for measures
    (`sonarcloud_data/fetch_sonarcloud_data.py:61`, `:68`).
  - Every exception inside `process_project` ends the run.
- Continuation queries for `measures` carry an empty metric list
  (`sonarcloud_data/fetch_sonarcloud_data.py:61`).
- `safe_cast` tests `type == 'MILLISEC'`, where `type` is the Python builtin,
  never `to_type`, so MILLISEC values take the `str` branch
  (`sonarcloud_data/fetch_sonarcloud_data.py:128`).
  - `safe_cast(None, 'BOOL')` is `False`.
  - The `str` branch turns `None` into the text `"None"`.
- `int()` skips only the six ASCII whitespace characters and non-ASCII
  whitespace around a literal. The separators U+001C..U+001F count as
  whitespace for `str.strip()` but make `int()` raise, so `safe_cast` gives
  `None` for them (`sonarcloud_data/fetch_sonarcloud_data.py:112`).
- `load_metrics` accepts a line with four or more ` - ` fields and fails only
  with fewer (`sonarcloud_data/fetch_sonarcloud_data.py:99-101`).
- `build_commit_ids_ts` keeps every commit id, and a later date for the same
  id wins (`jenkins_data/fetch_jenkins_data.py:75-80`).

## Model

| member | source | states |
|---|---|---|
| MergeStageArchive.Dedup | orchestration/merge_stage_archive.py:31 | the rows kept by `drop_duplicates` hold no duplicate and are exactly the rows of the input |
| MergeStageArchive.DropDuplicates | orchestration/merge_stage_archive.py:31 | the loop that keeps each row at its first occurrence computes `Dedup` |
| MergeStageArchive.DedupFirstOccurrenceOrder | orchestration/merge_stage_archive.py:30-31 | the kept rows appear in the order of their first occurrences in the input |
| MergeStageArchive.DedupAppend | orchestration/merge_stage_archive.py:30-31 | deduplicating staging + archive keeps the deduplicated staging rows as a prefix; every later row is an archive row not among the staging rows |
| MergeStageArchive.DedupAllDistinct | orchestration/merge_stage_archive.py:31 | a table without duplicate rows is left as it is |
| MergeStageArchive.ArchivePathDiffers | orchestration/merge_stage_archive.py:24 | the archive path of a staging file is never the staging path itself |
| MergeStageArchive.ExampleArchivePath | orchestration/merge_stage_archive.py:24 | `d/x_staging.csv` has the archive `d/x.csv` |
| MergeStageArchive.ArchiveOfSuffix | orchestration/merge_stage_archive.py:24 | cutting `_staging` out of `x_staging.csv`, with `_staging` not found earlier, gives `x.csv` |
| MergeStageArchive.OrdinaryStagingPath | orchestration/merge_stage_archive.py:23-24 | `dir/stem_staging.csv` matches the glob; its archive is `dir/stem.csv`, in the same directory and not itself a staging file |
| MergeStageArchive.MergeIntoArchive | orchestration/merge_stage_archive.py:25-34 | with an existing archive: the new archive is the deduplicated staging rows followed by the archive rows not already present; it has no duplicates; its rows are the union of both tables; the staging file is gone; every other file is unchanged |
| MergeStageArchive.ExampleDedup | orchestration/merge_stage_archive.py:30-31 | `[B, C] + [A, B]` deduplicates to `[B, C, A]` |
| MergeStageArchive.MergeExample | orchestration/merge_stage_archive.py:25-34 | archive `[A, B]` and staging `[B, C]` leave only the archive, holding `[B, C, A]` |
| MergeStageArchive.BootstrapArchive | orchestration/merge_stage_archive.py:35-36 | without an archive: the staging table becomes the archive unchanged, duplicates included; the staging path is gone; every other file is unchanged |
| MergeStageArchive.MergeOneWellFormed | orchestration/merge_stage_archive.py:23-36 | handling one staging file keeps every file inside an existing directory |
| MergeStageArchive.MergeListing | orchestration/merge_stage_archive.py:23-36 | the glob loop either completes or stops at the file whose handling raised |
| MergeStageArchive.MergeListingWellFormed | orchestration/merge_stage_archive.py:23-36 | the glob loop keeps every file inside an existing directory |
| MergeStageArchive.RunMergeWellFormed | orchestration/merge_stage_archive.py:17-36 | a whole run keeps every file inside an existing directory, however it ends |
| MergeStageArchive.RunMergeStopsEarly | orchestration/merge_stage_archive.py:17-21 | once a run stops (missing directory or exception), directories listed after it make no difference |
| MergeStageArchive.MissingDirectoryStops | orchestration/merge_stage_archive.py:20-21 | a missing directory ends the run at once with the files untouched |
| MergeStageArchive.NoStagingNoChange | orchestration/merge_stage_archive.py:17-36 | when no listed directory holds a staging file, a run completes and changes nothing |
| MergeStageArchive.MergeListingFrame | orchestration/merge_stage_archive.py:23-37 | the glob loop changes only the listed files and their archives: every other file keeps its table, and every new path is such an archive |
| MergeStageArchive.RunMergeFrameFrom | orchestration/merge_stage_archive.py:16-37 | over a run, the same holds for any set of paths that covers the staging files, as long as they are well named |
| MergeStageArchive.RunMergeFrame | orchestration/merge_stage_archive.py:16-37 | a whole run touches only the staging files present at its start and their archives: every other file keeps its table, and every new path is one of those archives |
| MergeStageArchive.MergeOneStaging | orchestration/merge_stage_archive.py:23-36 | handling a staging file removes exactly that file from the set of staging files |
| MergeStageArchive.MergeListingStaging | orchestration/merge_stage_archive.py:23-36 | the glob loop never adds staging files; when it completes, exactly the listed ones are gone |
| MergeStageArchive.RunMergeStagingShrinks | orchestration/merge_stage_archive.py:17-36 | a run never creates a staging file |
| MergeStageArchive.CompletedRunClearsStaging | orchestration/merge_stage_archive.py:17-36 | after a completed run, no directory it went through holds a staging file |
| MergeStageArchive.SecondRunNoChange | orchestration/merge_stage_archive.py:13-36 | running the merger again right after a completed run changes nothing |
| MergeStageArchive.DataStore.MergeFile | orchestration/merge_stage_archive.py:24-36 | one iteration of the glob loop: the store's new files are those `MergeOne` gives, or are untouched when the step raises; files stay inside existing directories |
| MergeStageArchive.DataStore.MergeListed | orchestration/merge_stage_archive.py:23-36 | the glob loop over a listing leaves the store and status `MergeListing` gives |
| MergeStageArchive.DataStore.Merge | orchestration/merge_stage_archive.py:13-36 | `merge()` over the listed directories leaves the store and status `RunMerge` gives |
| PyStr.RemoveAllIsJoinOfSplit | orchestration/merge_stage_archive.py:24 | `replace(pat, "")` equals splitting at `pat` and joining with nothing |
| PyStr.RemoveAllUpTo | orchestration/merge_stage_archive.py:24 | up to the first occurrence of the pattern the text is kept; the occurrence is cut out |
| PyStr.RemoveAllAbsent | orchestration/merge_stage_archive.py:24 | a text without the pattern is unchanged |
| PyStr.RemoveAllShortens | orchestration/merge_stage_archive.py:24 | removing a pattern that occurs shortens the text by at least its length |
| PyStr.ParseInt | sonarcloud_data/fetch_sonarcloud_data.py:112 | `int(s)` succeeds exactly when `s`, without the whitespace `int()` skips (ASCII space, tab to carriage return, and non-ASCII whitespace), is a literal of an optional sign, ASCII digits and single `_` between digits, and has at most 4300 digits; it then gives the literal's value |
| PyStr.ParseIntOfIntToString | sonarcloud_data/fetch_sonarcloud_data.py:112 | `int(str(i)) == i` for every integer of at most 4300 digits; a wider literal makes `int()` raise |
| PyStr.IntToStringLiteral | sonarcloud_data/fetch_sonarcloud_data.py:112 | `str(i)` is a signed digit group denoting `i`, and it is within `int()`'s digit limit exactly when `str()` can write it |
| PyStr.ParseIntUnstripped | sonarcloud_data/fetch_sonarcloud_data.py:112 | `int()` of a text whose ends are not whitespace is the literal's value, or raises when the text is no accepted literal |
| PyStr.ParseIntIgnoresSpace | sonarcloud_data/fetch_sonarcloud_data.py:112 | whitespace that `int()` skips, around a literal, does not change the value |
| PyStr.ParseIntRejectsSeparator | sonarcloud_data/fetch_sonarcloud_data.py:112 | a text starting with one of U+001C..U+001F makes `int()` raise, although `str.isspace()` holds for that character |
| PyStr.SplitJoin | sonarcloud_data/fetch_sonarcloud_data.py:99 | splitting fields joined by a separator, none containing it, gives the fields back |
| PyStr.SplitAfterField | sonarcloud_data/fetch_sonarcloud_data.py:99 | a field that ends cleanly, then the separator, splits off as the first part |
| PyStr.JoinSplit | jenkins_data/fetch_jenkins_data.py:27-28 | joining the parts of a split with the separator gives the text back |
| PyStr.SplitCount | jenkins_data/fetch_jenkins_data.py:27-29 | a split has more than one part exactly when the separator occurs |
| PyStr.SplitPartsClean | jenkins_data/fetch_jenkins_data.py:27-29 | no part of a split contains the separator |
| PyStr.StripSurrounded | jenkins_data/fetch_jenkins_data.py:89 | `strip()` removes exactly the surrounding whitespace |
| PyStr.StripBySurrounded | sonarcloud_data/fetch_sonarcloud_data.py:112 | stripping a character class removes exactly the surrounding characters of that class, for `int()`'s whitespace as for `strip()`'s |
| PyStr.StrLessTransitive | sonarcloud_data/fetch_sonarcloud_data.py:208 | string `<` is transitive |
| PyStr.StrLessTotal | sonarcloud_data/fetch_sonarcloud_data.py:208 | two different strings are ordered one way or the other |
| Sorting.SortBy | sonarcloud_data/fetch_sonarcloud_data.py:183 | `sort` returns a permutation of its input |
| Sorting.SortBySorted | sonarcloud_data/fetch_sonarcloud_data.py:183 | for a total, transitive order, the sorted list is ordered |
| SonarValues.SafeCast | sonarcloud_data/fetch_sonarcloud_data.py:109-139 | INT/WORK_DUR: the integer exactly when the value, without the whitespace `int()` skips, is an `int()` literal of at most 4300 digits, otherwise `None` (also for `None`); float types: `None` for `None`, else the text handed to `float()`; BOOL: `False` for `None` or an empty text, `True` otherwise; every other type, MILLISEC included: `str(val)` |
| SonarValues.SafeCastIntRoundTrip | sonarcloud_data/fetch_sonarcloud_data.py:110-115 | an integer written by `str()` is cast back to itself; past 4300 digits `int()` raises and the cast gives `None` |
| SonarValues.SafeCastMillisecIsText | sonarcloud_data/fetch_sonarcloud_data.py:128-139 | MILLISEC values stay text, because the branch tests `type` |
| SonarValues.ParseLocal | sonarcloud_data/fetch_sonarcloud_data.py:76 | a parsed local time is a valid calendar time |
| SonarValues.SecondsInRange | sonarcloud_data/fetch_sonarcloud_data.py:76 | every time `datetime` accepts lies between 0001-01-01 and 9999-12-31T23:59:59 |
| SonarValues.ParseRender | sonarcloud_data/fetch_sonarcloud_data.py:76 | `strptime` of a time written `YYYY-MM-DDTHH:MM:SS` gives that time |
| SonarValues.ParsePad2 | sonarcloud_data/fetch_sonarcloud_data.py:78 | `int()` of a two-digit offset field is its value |
| SonarValues.ProcessDatetime | sonarcloud_data/fetch_sonarcloud_data.py:72-85 | `None` exactly for `None`; a time it gives lies within `datetime`'s range |
| SonarValues.ProcessDatetimeParsed | sonarcloud_data/fetch_sonarcloud_data.py:78-85 | once the local time and both offset fields parse: a `+` offset is subtracted, a `-` offset added, any other character ignores it; a result outside the calendar raises |
| SonarValues.ProcessZoned | sonarcloud_data/fetch_sonarcloud_data.py:76-85 | the same for a text built from a parsed local time, a sign and two-digit hours and minutes |
| SonarValues.ProcessRenderedOffset | sonarcloud_data/fetch_sonarcloud_data.py:72-85 | `YYYY-MM-DDTHH:MM:SS±HHMM` is normalised to UTC by subtracting a `+` offset and adding a `-` offset |
| MetricCatalogue.KeyLeTotal | sonarcloud_data/fetch_sonarcloud_data.py:208 | the sort key order (domain or 'None', then int id) is total |
| MetricCatalogue.KeyLeTransitive | sonarcloud_data/fetch_sonarcloud_data.py:208 | the sort key order is transitive |
| MetricCatalogue.SortMetrics | sonarcloud_data/fetch_sonarcloud_data.py:208 | the sorted metrics are a permutation of the input, ordered by (domain, id) |
| MetricCatalogue.MetricLines | sonarcloud_data/fetch_sonarcloud_data.py:211-218 | one line per metric, in list order |
| MetricCatalogue.WriteMetricsFile | sonarcloud_data/fetch_sonarcloud_data.py:207-218 | the file is written exactly when every metric has an integer id; otherwise the sort key raises |
| MetricCatalogue.MetricLineShape | sonarcloud_data/fetch_sonarcloud_data.py:212-218 | a metric's line is plain text ending in one newline |
| MetricCatalogue.ParseFields | sonarcloud_data/fetch_sonarcloud_data.py:99-101 | four clean fields and the rest split as fields 0 to 3, giving (`parts[2]`, `parts[3]`) |
| MetricCatalogue.ParseMetricLine | sonarcloud_data/fetch_sonarcloud_data.py:212-218 | reading a written line gives back the metric's key and type |
| MetricCatalogue.CatalogueOf | sonarcloud_data/fetch_sonarcloud_data.py:95-104 | loading succeeds exactly when every line has at least four fields |
| MetricCatalogue.CatalogueValid | sonarcloud_data/fetch_sonarcloud_data.py:95-104 | the loaded keys are listed once each, and exactly the keys with an entry are listed |
| MetricCatalogue.LoadMetrics | sonarcloud_data/fetch_sonarcloud_data.py:87-107 | the loop over the lines, with its `order` counter, computes `LoadSpec`: `None` for a missing file or a short line |
| MetricCatalogue.CatalogueStep | sonarcloud_data/fetch_sonarcloud_data.py:98-103 | each line sets `metrics_order[parts[2]] = (line number, parts[3])` |
| MetricCatalogue.CatalogueLastWins | sonarcloud_data/fetch_sonarcloud_data.py:102 | a key maps to the line number and type of the last line naming it |
| MetricCatalogue.CatalogueEntriesFromLines | sonarcloud_data/fetch_sonarcloud_data.py:98-103 | every entry comes from the line it records, with that line's key and type |
| MetricCatalogue.CatalogueKeysInOrder | sonarcloud_data/fetch_sonarcloud_data.py:98-104 | with distinct keys, the keys are listed in line order |
| MetricCatalogue.KeysStep | sonarcloud_data/fetch_sonarcloud_data.py:102 | a line naming a new key appends it to the key order |
| MetricCatalogue.TranslatePlainLines | sonarcloud_data/fetch_sonarcloud_data.py:96-98 | text-mode reading of lines without `\r` gives exactly those lines |
| MetricCatalogue.TranslateKeeps | sonarcloud_data/fetch_sonarcloud_data.py:96 | newline translation leaves text without `\r` unchanged |
| MetricCatalogue.LineLengthOf | sonarcloud_data/fetch_sonarcloud_data.py:98 | a line ends at its first newline |
| MetricCatalogue.DistinctKeysPermuted | sonarcloud_data/fetch_sonarcloud_data.py:208 | sorting keeps the keys distinct |
| MetricCatalogue.SortedWritable | sonarcloud_data/fetch_sonarcloud_data.py:208 | the sorted list keeps fields that survive the file, and distinct keys |
| MetricCatalogue.ReadWrittenLines | sonarcloud_data/fetch_sonarcloud_data.py:210-218 | reading the written text gives back the written lines, each parsing to its metric's key and type |
| MetricCatalogue.CatalogueOfParsed | sonarcloud_data/fetch_sonarcloud_data.py:98-103 | lines naming distinct keys load into a catalogue with the keys in line order, each with its line number and type |
| MetricCatalogue.CatalogueRoundTrip | sonarcloud_data/fetch_sonarcloud_data.py:207-218 | loading the file written for metrics with integer ids, distinct keys and clean fields maps each key to its position in sorted order and its type, with the keys in sorted order |
| SonarMeasures.RequestFor | sonarcloud_data/fetch_sonarcloud_data.py:15-32 | a request asks for page `p` with page size 200; only a measures request names the comma-joined metrics |
| SonarMeasures.PagesServed | sonarcloud_data/fetch_sonarcloud_data.py:59-65 | a server answering pages 1, 2, ... with status 200, continuing exactly while `p * 200 < total`, gives the pages joined in page order; only the first request names the metrics |
| SonarMeasures.PagesOnlyServed | sonarcloud_data/fetch_sonarcloud_data.py:59-65 | every successful query came from such a run of pages |
| SonarMeasures.FirstPageFails | sonarcloud_data/fetch_sonarcloud_data.py:40-42 | an error status on the first page gives `None` |
| SonarMeasures.LaterPageFails | sonarcloud_data/fetch_sonarcloud_data.py:59-63 | an error status on a continuation page raises |
| SonarMeasures.ZipConcat | sonarcloud_data/fetch_sonarcloud_data.py:67-70 | the result is as long as the first list and keeps its metrics; history i is h1[i] ++ h2[i] for i both lists have; entries past the second list are unchanged |
| SonarMeasures.ConcatMeasures | sonarcloud_data/fetch_sonarcloud_data.py:67-70 | the in-place update of the first array's histories leaves it equal to `ZipConcat` of its old contents |
| SonarMeasures.FoldMeasures | sonarcloud_data/fetch_sonarcloud_data.py:59-61 | when all pages list the same metrics, each merged measure has the histories of all pages in page order |
| SonarMeasures.FoldAppend | sonarcloud_data/fetch_sonarcloud_data.py:62-63 | other kinds give the elements of all pages, concatenated in page order |
| SonarMeasures.ColumnOf | sonarcloud_data/fetch_sonarcloud_data.py:149-150 | a metric's column has one value per history point |
| SonarMeasures.ColumnOfAt | sonarcloud_data/fetch_sonarcloud_data.py:149-150 | value k of the column is the cast of history point `len - 1 - k` (`None` without a value) |
| SonarMeasures.ExtractUpTo | sonarcloud_data/fetch_sonarcloud_data.py:141-153 | extraction succeeds exactly when every metric is in the catalogue, and then adds one column per measure |
| SonarMeasures.ExtractMeasuresValue | sonarcloud_data/fetch_sonarcloud_data.py:141-153 | the loop appending columns and writing data computes `ExtractUpTo` |
| SonarMeasures.ExtractColumns | sonarcloud_data/fetch_sonarcloud_data.py:147 | the given columns are kept, followed by each measure's metric in order |
| SonarMeasures.ExtractLastWins | sonarcloud_data/fetch_sonarcloud_data.py:151 | a metric's data is the reversed, cast history of the last measure naming it |
| SonarMeasures.ExtractKeeps | sonarcloud_data/fetch_sonarcloud_data.py:151 | a column no measure names keeps its data |
| SonarMeasures.BatchSizes | sonarcloud_data/fetch_sonarcloud_data.py:179-181 | every batch holds 1 to 15 metrics |
| SonarMeasures.BatchesPrefix | sonarcloud_data/fetch_sonarcloud_data.py:179-181 | the first `n` queried batches, joined, are the metric list up to index `15 * n` |
| SonarMeasures.BatchesCover | sonarcloud_data/fetch_sonarcloud_data.py:179-181 | the batches `metrics[i:i+15]` the fetch loop queries, for `i` in `range(0, len(metrics), 15)`, joined back are the metric list; an empty list has no batch |
| SonarMeasures.FetchBatches | sonarcloud_data/fetch_sonarcloud_data.py:178-181 | fetching the batches gives measures or raises; it never gives `None` |
| SonarMeasures.FetchCrashPersists | sonarcloud_data/fetch_sonarcloud_data.py:179-181 | one failed batch fails the whole fetch |
| SonarMeasures.FetchMeasures | sonarcloud_data/fetch_sonarcloud_data.py:178-181 | the batch loop computes `FetchBatches` over every batch |
| SonarMeasures.SortByCatalogue | sonarcloud_data/fetch_sonarcloud_data.py:183 | the sorted measures are a permutation of the fetched ones, in catalogue order |
| SonarMeasures.ProjectColumn | sonarcloud_data/fetch_sonarcloud_data.py:186 | the project key, once per analysis |
| SonarMeasures.VersionColumn | sonarcloud_data/fetch_sonarcloud_data.py:172 | each analysis's version, `None` when absent |
| SonarMeasures.DateColumn | sonarcloud_data/fetch_sonarcloud_data.py:170 | each analysis's normalised date, `None` when absent |
| SonarMeasures.RevisionColumn | sonarcloud_data/fetch_sonarcloud_data.py:168 | each analysis's revision, `None` when absent |
| SonarMeasures.AnalysisColumns | sonarcloud_data/fetch_sonarcloud_data.py:164-173 | the analyses loop succeeds exactly when no date raises, and then gives the version, date and revision columns |
| SonarMeasures.ProcessProject | sonarcloud_data/fetch_sonarcloud_data.py:155-192 | `process_project` computes `ProcessProjectSpec`: nothing without analyses, the assembled table, or an abort |
| SonarMeasures.NoAnalysesNoTable | sonarcloud_data/fetch_sonarcloud_data.py:161-162 | a project without analyses writes nothing |
| SonarMeasures.SortedCatalogued | sonarcloud_data/fetch_sonarcloud_data.py:183 | sorted measures of catalogued metrics are still catalogued |
| SonarMeasures.AssembleTable | sonarcloud_data/fetch_sonarcloud_data.py:183-192 | the table is built exactly when every fetched metric is in the catalogue |
| SonarMeasures.AssembleColumns | sonarcloud_data/fetch_sonarcloud_data.py:183-192 | the columns are project, version, date, revision, then one per measure, each a fetched metric, in catalogue order |
| SonarMeasures.MetricColumns | sonarcloud_data/fetch_sonarcloud_data.py:183-192 | the metric columns of a sorted permutation are catalogued, each a fetched metric, in catalogue order |
| SonarMeasures.AssembleLeading | sonarcloud_data/fetch_sonarcloud_data.py:185-190 | the leading columns hold, per analysis, the key, version, normalised date and revision, with `None` for a missing field |
| SonarMeasures.AssembleMetric | sonarcloud_data/fetch_sonarcloud_data.py:183-192 | a metric measured once has its reversed, cast history as its column, one cell per point |
| JenkinsData.SuiteNameParts | jenkins_data/fetch_jenkins_data.py:27-29 | the class holds no `.`; with a `.` in the name, package + "." + class is the name; without one, the package is empty and the class is the name |
| JenkinsData.CaseRows | jenkins_data/fetch_jenkins_data.py:32-35 | one row `[package, class, name, duration, status]` per case, in case order |
| JenkinsData.ReportRowsCount | jenkins_data/fetch_jenkins_data.py:22-37 | the number of rows is the number of cases over all suites |
| JenkinsData.ReportRowAt | jenkins_data/fetch_jenkins_data.py:25-35 | case j of suite i is the row after all cases of the earlier suites plus j, made of the suite's package and class and the case's fields |
| JenkinsData.RowBefore | jenkins_data/fetch_jenkins_data.py:25-35 | the rows of earlier suites keep their places |
| JenkinsData.RowInLast | jenkins_data/fetch_jenkins_data.py:25-35 | a suite's rows follow those of the suites before it |
| JenkinsData.SuiteRowsCount | jenkins_data/fetch_jenkins_data.py:32-35 | a suite has one row per case |
| JenkinsData.SuiteRowAt | jenkins_data/fetch_jenkins_data.py:32-35 | a suite's row j is its case j under the suite's package and class |
| JenkinsData.ExtractTestData | jenkins_data/fetch_jenkins_data.py:14-37 | `(None, None)` for a falsy report; otherwise the report's duration and its rows, suite by suite |
| JenkinsData.CaseData | jenkins_data/fetch_jenkins_data.py:32-35 | the inner loop appends one row per case |
| JenkinsData.RevisionIsLast | jenkins_data/fetch_jenkins_data.py:53-69 | the revision is `None` exactly when no action sets one, and otherwise the SHA1 of the last action that does |
| JenkinsData.BuildRevision | jenkins_data/fetch_jenkins_data.py:53-69 | the actions loop skips falsy actions and raises on a test-result action without its counts; otherwise it gives `RevisionOf` over all actions |
| JenkinsData.RaisesAt | jenkins_data/fetch_jenkins_data.py:59-62 | a test-result action without its counts makes the build raise |
| JenkinsData.NoneRaises | jenkins_data/fetch_jenkins_data.py:53-69 | without such an action, the scan gives the last revision set |
| JenkinsData.CommitKeys | jenkins_data/fetch_jenkins_data.py:72-80 | the keys are exactly the commit ids of the items that have one |
| JenkinsData.CommitLastWins | jenkins_data/fetch_jenkins_data.py:75-80 | a commit id maps to the date, or `None`, of the last item carrying it |
| JenkinsData.CommitIdsTs | jenkins_data/fetch_jenkins_data.py:72-80 | the change-set loop computes `CommitsOf` over all items |
| JenkinsData.ChildDurationSum | jenkins_data/fetch_jenkins_data.py:117-123 | the aggregated duration is `None` exactly when no child has a result, and otherwise the sum over the children that have one |
| JenkinsData.ZeroSum | jenkins_data/fetch_jenkins_data.py:117-123 | children without results add nothing |
| JenkinsData.SpecificTestData | jenkins_data/fetch_jenkins_data.py:112-131 | the child loop and the class dispatch compute `ReportTests` |
| JenkinsData.ReportShapes | jenkins_data/fetch_jenkins_data.py:112-133 | an aggregated report sums the child durations (`None` if no child has one) and joins the child rows in order; a TestResult delegates to `extract_test_data`; any other class gives `(None, [])` |
| JenkinsData.ReportFor | jenkins_data/fetch_jenkins_data.py:90 | the server returns the report it holds for (job, number), or `None` |
| JenkinsData.GetBuild | jenkins_data/fetch_jenkins_data.py:45-135 | one build of the loop computes `BuildEntry` |
| JenkinsData.ReportData | jenkins_data/fetch_jenkins_data.py:102-133 | reading a report computes `WithReportData` |
| JenkinsData.GetData | jenkins_data/fetch_jenkins_data.py:39-137 | `get_data` computes `GetDataSpec` over all builds |
| JenkinsData.GetDataRound | jenkins_data/fetch_jenkins_data.py:43-135 | one round appends build i's pair, or raises |
| JenkinsData.GetDataStep | jenkins_data/fetch_jenkins_data.py:43-135 | the result for i + 1 builds is the result for i with build i's entry appended, or `None` |
| JenkinsData.GetDataFails | jenkins_data/fetch_jenkins_data.py:43 | once a build raises, the whole call raises |
| JenkinsData.CollectFails | jenkins_data/fetch_jenkins_data.py:43 | a failure in a prefix fails every longer prefix |
| JenkinsData.CollectEach | jenkins_data/fetch_jenkins_data.py:43-137 | collecting succeeds exactly when every entry does, and then gives one entry per build in order |
| JenkinsData.GetDataPerBuild | jenkins_data/fetch_jenkins_data.py:43-137 | exactly one pair per build, in input order, each that build's entry; the call raises exactly when some build does |
| JenkinsData.NoReport | jenkins_data/fetch_jenkins_data.py:92-100 | without a test report, failCount, passCount, skipCount and totalTestDuration are `None`, and so are the tests |
| JenkinsData.WithReport | jenkins_data/fetch_jenkins_data.py:102-109 | with a report, the record takes its fail and skip counts; a reported total gives passCount = total - fail - skip; without a total, passCount is the report's own passCount, or the key is absent; the duration and tests follow the report's class |
| JenkinsData.BuildFields | jenkins_data/fetch_jenkins_data.py:47-86 | the record keeps the build's id, result, durations, revision and commits |

## Left out

- HTTP, the SonarCloud web API and the Jenkins client are not modelled.
  - The web server is a function parameter from request to response.
  - Jenkins test reports are a map from (job name, build number) to report.
  - `query_server`'s branch for an illegal type (`sonarcloud_data/fetch_sonarcloud_data.py:34-36`) is left out, since `Kind` only has the four real kinds.
- pandas is not modelled: `read_csv` with its dtypes, `to_csv`, the `DataFrame`, and `to_parquet()`.
  - A table is a sequence of rows whose typed values are assumed to round-trip.
  - `process_project` is modelled up to the data it hands to `DataFrame`.
- Floating point is not modelled.
  - The float branch of `safe_cast` keeps the text handed to `float()`.
  - `datetime.fromtimestamp` is unreachable and left out.
  - Test durations are `real`s without rounding.
- PyStr.ParseInt: accepts only ASCII digits; Python's `int()` also reads other Unicode decimal digits (`int('٤٢') == 42`), which the model rejects.
- PyStr.ParseInt: the digit limit is the interpreter default of 4300, as in CPython 3.11 and later (and 3.7.14, 3.8.14, 3.9.14, 3.10.7). Older interpreters have no limit, and a limit changed by `sys.set_int_max_str_digits` or `PYTHONINTMAXSTRDIGITS` is not modelled.
- PyStr.ParseIntOfIntToString: `IntToString` writes every digit, where `str()` raises past 4300 digits. `StrWritable` says when `str()` succeeds, and the round trip is stated for those integers.
- SonarValues.SafeCastIntRoundTrip: follows the same interpreter and limit as PyStr.ParseInt.
- SonarValues.SafeCast: follows the same interpreter and digit limit as PyStr.ParseInt. It also inherits the non-ASCII digit gap, so an INT or WORK_DUR value written in non-ASCII digits gives `None` where `safe_cast` gives the number.
- SonarValues.ProcessDatetime:
  - accepts only ASCII digits, where Python's `strptime` and `int()` also accept other Unicode digits;
  - covers only the fixed-width layout of the first 19 characters.
- JSON values are modelled as well-formed.
  - A field is present or absent (`Option`).
  - Values of the wrong JSON type, such as a `null` or a number where text is expected, are not modelled.
  - Missing keys other than those the record types make optional are not modelled.
- The file system is partly modelled.
  - `glob` also matches directories named `*_staging.csv`; the model lists only files.
  - `iter_data_directory` is not part of this model; the directory list is an input, and the per-directory dtype is ignored.
- The command line, the environment (`PRA_HOME`), logging and `print` warnings are left out. `sys.exit` is modelled as a `None` outcome.
- These functions are I/O or stubs and are left out:
  - `get_projects`;
  - Jenkins `process_project`, with its regex job lookup;
  - `write_to_csv`;
  - the `__main__` blocks.
- The unused `load` parameter of `process_project` is left out.
- Text decoding of the catalogue file is not modelled. The text is given already decoded, with universal newlines modelled.
- Sorting.SortBy: stability of `list.sort` is not proved; only ordering and permutation are.
- JenkinsData.CommitIdsTs: the insertion order of the resulting `dict` is not modelled, since it is a map.
- SonarMeasures.Pages: Python's recursion limit is a `depth` parameter. A query needing more nested calls raises.
- JenkinsData.BuildRevision: a test-result action's counts are read but never used, so only their absence (a `KeyError`) is modelled.
- JenkinsData.ReportData: `failCount` and `skipCount` are assumed present in every test report.

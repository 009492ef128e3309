/**
 * The staging-to-archive merger. The data directory holds, per data set,
 * `<name>_staging.csv` files written by the collectors and `<name>.csv`
 * archives. For each listed directory, every staging file is folded into its
 * archive (staging rows first, full-row duplicates dropped, first occurrence
 * kept) and deleted, or, when there is no archive yet, renamed to become it.
 *
 * The file system is a map from path to table plus the set of existing
 * directories; a path is a `/`-separated string without a trailing slash.
 * The order in which a directory listing yields its entries is decided by the
 * operating system, so it is a parameter: `scan(files, d)` is the listing of
 * directory `d` in the state `files`.
 */
module MergeStageArchive {
  import opened Wrappers
  import PyStr

  type Path = string
  /** A CSV row as the fields read for it; rows are compared field by field. */
  type Row = seq<string>
  type Table = seq<Row>
  type Files = map<Path, Table>

  /** How a run ended: every directory done, `return` at a missing directory,
      or an exception raised while handling a staging file. */
  datatype Status = Completed | Stopped(dir: Path) | Crashed(file: Path)

  /** The status of a run and the files at the moment it ended. */
  datatype Run = Run(status: Status, files: Files)

  // ----------------------------------------------------------------- paths

  /** The index of the last `/` in `p`. */
  function LastSlash(p: Path): (r: Option<nat>)
    ensures r.Some? ==> r.value < |p| && p[r.value] == '/'
    ensures forall i :: (if r.Some? then r.value + 1 else 0) <= i < |p| ==> p[i] != '/'
    decreases |p|
  {
    if |p| == 0 then None
    else if p[|p| - 1] == '/' then Some(|p| - 1)
    else LastSlash(p[..|p| - 1])
  }

  /** `Path(p).parent` */
  function ParentDir(p: Path): Path
  {
    match LastSlash(p)
    case None => "."
    case Some(k) => if k == 0 then "/" else p[..k]
  }

  /** `Path(p).name` */
  function Name(p: Path): Path
  {
    match LastSlash(p)
    case None => p
    case Some(k) => p[k + 1..]
  }

  /** The glob pattern `*_staging.csv` matches the last component of `p`. */
  predicate IsStagingName(p: Path)
  {
    PyStr.EndsWith(Name(p), "_staging.csv")
  }

  /** `Path(str(file).replace("_staging", ""))`: every occurrence of `_staging`
      anywhere in the path is removed, directories included. */
  function ArchivePath(f: Path): (a: Path)
    ensures |a| <= |f|
  {
    PyStr.RemoveAll(f, "_staging")
  }

  // ---------------------------------------------------------- file system

  /** Every file sits in an existing directory, and no path is both a file and a directory. */
  ghost predicate WellFormed(files: Files, dirs: set<Path>)
  {
    forall p :: p in files ==> ParentDir(p) in dirs && p !in dirs
  }

  /** `Path(p).exists()` */
  predicate Exists(files: Files, dirs: set<Path>, p: Path)
  {
    p in files || p in dirs
  }

  /** The staging files directly inside directory `d`. */
  function StagingIn(files: Files, d: Path): set<Path>
  {
    set p | p in files && ParentDir(p) == d && IsStagingName(p)
  }

  /** Every staging file, wherever it is. */
  function StagingFiles(files: Files): set<Path>
  {
    set p | p in files && IsStagingName(p)
  }

  predicate NoDuplicates<T(==)>(s: seq<T>)
  {
    forall i, j :: 0 <= i < j < |s| ==> s[i] != s[j]
  }

  /** `l` lists the elements of `s`, each exactly once. */
  ghost predicate Enumerates(l: seq<Path>, s: set<Path>)
  {
    NoDuplicates(l) && forall p :: p in l <==> p in s
  }

  lemma EnumeratesEmpty(l: seq<Path>, s: set<Path>)
    requires Enumerates(l, s)
    ensures s == {} ==> l == []
  {
    if l != [] {
      assert l[0] in s;
    }
  }

  /** What a directory listing filtered by `*_staging.csv` promises. */
  ghost predicate ScanValid(scan: (Files, Path) -> seq<Path>)
  {
    forall files, d :: Enumerates(scan(files, d), StagingIn(files, d))
  }

  // ------------------------------------------------------ drop_duplicates

  /** `drop_duplicates()`: the rows in order, each kept only at its first occurrence. */
  function Dedup(rows: Table): (kept: Table)
    ensures NoDuplicates(kept)
    ensures forall r :: r in kept <==> r in rows
    decreases |rows|
  {
    if |rows| == 0 then []
    else
      var last := rows[|rows| - 1];
      var front := rows[..|rows| - 1];
      assert forall r :: r in rows <==> r in front || r == last;
      if last in front then Dedup(front) else Dedup(front) + [last]
  }

  /** `df.drop_duplicates(inplace=True)` */
  method DropDuplicates(rows: Table) returns (kept: Table)
    ensures kept == Dedup(rows)
  {
    kept := [];
    var i := 0;
    while i < |rows|
      invariant 0 <= i <= |rows|
      invariant kept == Dedup(rows[..i])
    {
      assert rows[..i + 1][..i] == rows[..i];
      if rows[i] !in kept {
        kept := kept + [rows[i]];
      }
      i := i + 1;
    }
    assert rows[..i] == rows;
  }

  /** Position of the first occurrence of `r` in `rows`. */
  function FirstIndex(rows: Table, r: Row): (i: nat)
    requires r in rows
    ensures i < |rows| && rows[i] == r && r !in rows[..i]
    decreases |rows|
  {
    if rows[0] == r then 0
    else
      assert rows == [rows[0]] + rows[1..];
      var i := FirstIndex(rows[1..], r) + 1;
      assert rows[..i] == [rows[0]] + rows[1..][..i - 1];
      i
  }

  lemma FirstIndexPrefix(rows: Table, n: nat, r: Row)
    requires n <= |rows| && r in rows[..n]
    ensures FirstIndex(rows, r) == FirstIndex(rows[..n], r)
  {
    var j := FirstIndex(rows[..n], r);
    assert rows[..n][..j] == rows[..j];
  }

  /** The kept rows appear in the order of their first occurrences. */
  lemma {:induction false} DedupFirstOccurrenceOrder(rows: Table, i: nat, j: nat)
    requires i < j < |Dedup(rows)|
    ensures FirstIndex(rows, Dedup(rows)[i]) < FirstIndex(rows, Dedup(rows)[j])
    decreases |rows|
  {
    var n := |rows| - 1;
    var front := rows[..n];
    var d := Dedup(front);
    var x, y := Dedup(rows)[i], Dedup(rows)[j];
    assert x == d[i] && x in front;
    FirstIndexPrefix(rows, n, x);
    if j < |d| {
      assert y == d[j] && y in front;
      FirstIndexPrefix(rows, n, y);
      DedupFirstOccurrenceOrder(front, i, j);
    } else {
      assert y == rows[n] && y !in front;
    }
  }

  /** Deduplicating `a + b` keeps `Dedup(a)` as it is at the front and appends
      only rows of `b` that do not occur in `a`. */
  lemma {:induction false} DedupAppend(a: Table, b: Table)
    ensures Dedup(a) <= Dedup(a + b)
    ensures forall k :: |Dedup(a)| <= k < |Dedup(a + b)| ==> Dedup(a + b)[k] !in a && Dedup(a + b)[k] in b
    decreases |b|
  {
    if |b| == 0 {
      assert a + b == a;
    } else {
      var b' := b[..|b| - 1];
      DedupAppend(a, b');
      assert (a + b)[..|a + b| - 1] == a + b';
      assert (a + b)[|a + b| - 1] == b[|b| - 1];
      assert forall r :: r in b' ==> r in b;
    }
  }

  lemma {:induction false} DedupAllDistinct(rows: Table)
    requires NoDuplicates(rows)
    ensures Dedup(rows) == rows
    decreases |rows|
  {
    if |rows| > 0 {
      var front := rows[..|rows| - 1];
      DedupAllDistinct(front);
      assert rows == front + [rows[|rows| - 1]];
    }
  }

  // ------------------------------------------------------------- one file

  /** Handles one globbed staging file `f`; `None` where Python raises
      (a file that vanished, an archive path that is a directory, a rename
      into a directory that does not exist). */
  function MergeOne(files: Files, dirs: set<Path>, f: Path): Option<Files>
  {
    var a := ArchivePath(f);
    if f !in files || a in dirs then None
    else if a in files then Some(files[a := Dedup(files[f] + files[a])] - {f})
    else if ParentDir(a) in dirs then Some((files - {f})[a := files[f]])
    else None
  }

  /** The staging path itself is never its own archive: the name holds `_staging`. */
  lemma ArchivePathDiffers(f: Path)
    requires IsStagingName(f)
    ensures ArchivePath(f) != f
  {
    var n := Name(f);
    NameIsSuffix(f);
    var j := |n| - 12;
    var tail := n[j..];
    assert tail == "_staging.csv";
    assert tail[..8] == "_staging";
    assert n[j..j + 8] == tail[..8];
    var k := |f| - |n| + j;
    assert f[k..k + 8] == n[j..j + 8] by {
      assert f[|f| - |n|..] == n;
      assert f[k..k + 8] == f[|f| - |n|..][j..j + 8];
    }
    assert PyStr.OccursAt(f, "_staging", k);
    PyStr.RemoveAllShortens(f, "_staging");
  }

  /** The name is the end of the path. */
  lemma NameIsSuffix(f: Path)
    ensures |Name(f)| <= |f| && f[|f| - |Name(f)|..] == Name(f)
  {
  }

  /** Merging into an existing archive: the new archive is the staging rows
      followed by the archive rows, duplicates dropped at their later
      occurrences; the staging file is gone and no other file changes. */
  lemma MergeIntoArchive(files: Files, dirs: set<Path>, f: Path)
    requires IsStagingName(f) && f in files
    requires ArchivePath(f) in files && ArchivePath(f) !in dirs
    ensures MergeOne(files, dirs, f).Some?
    ensures var a, fs := ArchivePath(f), MergeOne(files, dirs, f).value;
      && fs.Keys == files.Keys - {f} && a in fs
      && fs[a] == Dedup(files[f] + files[a])
      && NoDuplicates(fs[a])
      && (forall r :: r in fs[a] <==> r in files[f] || r in files[a])
      && Dedup(files[f]) <= fs[a]
      && (forall k :: |Dedup(files[f])| <= k < |fs[a]| ==> fs[a][k] !in files[f] && fs[a][k] in files[a])
      && (forall p :: p in fs && p != a ==> fs[p] == files[p])
  {
    ArchivePathDiffers(f);
    DedupAppend(files[f], files[ArchivePath(f)]);
  }

  lemma ExampleArchivePath()
    ensures ArchivePath("d/x_staging.csv") == "d/x.csv"
  {
    var x := "d" + "/" + "x";
    assert x == "d/x";
    forall j | 0 <= j < |x| ensures !PyStr.OccursAt(x + "_staging", "_staging", j) {
      assert (x + "_staging")[j] != '_';
    }
    ArchiveOfSuffix(x);
    assert x + "_staging.csv" == "d/x_staging.csv";
    assert x + ".csv" == "d/x.csv";
  }

  lemma ExampleDedup(A: Row, B: Row, C: Row)
    requires A != B && B != C && C != A
    ensures Dedup([B, C] + [A, B]) == [B, C, A]
  {
    var rows := [B, C] + [A, B];
    assert rows[..3][..2] == [B, C] && rows[..3][..2][..1] == [B];
    assert Dedup([B]) == [B];
    assert Dedup(rows[..3][..2]) == [B, C];
    assert rows[..3] == [B, C, A];
  }

  /** Archive `[A, B]` and staging `[B, C]` merge into `[B, C, A]`. */
  lemma MergeExample(A: Row, B: Row, C: Row)
    requires A != B && B != C && C != A
    ensures MergeOne(map["d/x_staging.csv" := [B, C], "d/x.csv" := [A, B]], {"d"}, "d/x_staging.csv")
      == Some(map["d/x.csv" := [B, C, A]])
  {
    ExampleArchivePath();
    ExampleDedup(A, B, C);
    var files := map["d/x_staging.csv" := [B, C], "d/x.csv" := [A, B]];
    assert "d/x.csv" != "d/x_staging.csv";
    assert files["d/x.csv" := [B, C, A]] - {"d/x_staging.csv"} == map["d/x.csv" := [B, C, A]];
  }

  /** Bootstrapping an archive: the staging table becomes the archive exactly as
      it is, duplicates included; the staging path is gone. */
  lemma BootstrapArchive(files: Files, dirs: set<Path>, f: Path)
    requires IsStagingName(f) && f in files
    requires !Exists(files, dirs, ArchivePath(f)) && ParentDir(ArchivePath(f)) in dirs
    ensures MergeOne(files, dirs, f).Some?
    ensures var a, fs := ArchivePath(f), MergeOne(files, dirs, f).value;
      && fs.Keys == files.Keys - {f} + {a} && a in fs
      && fs[a] == files[f]
      && (forall p :: p in fs && p != a ==> fs[p] == files[p])
  {
    ArchivePathDiffers(f);
  }

  /** Handling a staging file keeps every file inside an existing directory. */
  lemma MergeOneWellFormed(files: Files, dirs: set<Path>, f: Path)
    requires WellFormed(files, dirs) && MergeOne(files, dirs, f).Some?
    ensures WellFormed(MergeOne(files, dirs, f).value, dirs)
  {
  }

  // ------------------------------------------------------------ full run

  /** The glob loop over one directory's listing. */
  function MergeListing(files: Files, dirs: set<Path>, listing: seq<Path>): (r: Run)
    ensures r.status.Completed? || r.status.Crashed?
    decreases |listing|
  {
    if |listing| == 0 then Run(Completed, files)
    else match MergeOne(files, dirs, listing[0])
      case None => Run(Crashed(listing[0]), files)
      case Some(next) => MergeListing(next, dirs, listing[1..])
  }

  /** `merge()`: the directories in order; `return` at the first one that does not exist. */
  function RunMerge(files: Files, dirs: set<Path>, dataDirs: seq<Path>, scan: (Files, Path) -> seq<Path>): Run
    decreases |dataDirs|
  {
    if |dataDirs| == 0 then Run(Completed, files)
    else if !Exists(files, dirs, dataDirs[0]) then Run(Stopped(dataDirs[0]), files)
    else
      var r := MergeListing(files, dirs, scan(files, dataDirs[0]));
      if !r.status.Completed? then r else RunMerge(r.files, dirs, dataDirs[1..], scan)
  }

  lemma {:induction false} MergeListingWellFormed(files: Files, dirs: set<Path>, listing: seq<Path>)
    requires WellFormed(files, dirs)
    ensures WellFormed(MergeListing(files, dirs, listing).files, dirs)
    decreases |listing|
  {
    if |listing| > 0 && MergeOne(files, dirs, listing[0]).Some? {
      MergeOneWellFormed(files, dirs, listing[0]);
      MergeListingWellFormed(MergeOne(files, dirs, listing[0]).value, dirs, listing[1..]);
    }
  }

  /** A run leaves every file inside an existing directory, however it ends. */
  lemma {:induction false} RunMergeWellFormed(files: Files, dirs: set<Path>, dataDirs: seq<Path>, scan: (Files, Path) -> seq<Path>)
    requires WellFormed(files, dirs)
    ensures WellFormed(RunMerge(files, dirs, dataDirs, scan).files, dirs)
    decreases |dataDirs|
  {
    if |dataDirs| > 0 && Exists(files, dirs, dataDirs[0]) {
      var listing := scan(files, dataDirs[0]);
      MergeListingWellFormed(files, dirs, listing);
      var r := MergeListing(files, dirs, listing);
      if r.status.Completed? {
        RunMergeWellFormed(r.files, dirs, dataDirs[1..], scan);
      }
    }
  }

  /** After `return` at a missing directory (or an exception), the directories
      after it are never looked at. */
  lemma {:induction false} RunMergeStopsEarly(files: Files, dirs: set<Path>, dataDirs: seq<Path>, later: seq<Path>, scan: (Files, Path) -> seq<Path>)
    requires !RunMerge(files, dirs, dataDirs, scan).status.Completed?
    ensures RunMerge(files, dirs, dataDirs + later, scan) == RunMerge(files, dirs, dataDirs, scan)
    decreases |dataDirs|
  {
    assert (dataDirs + later)[0] == dataDirs[0];
    assert (dataDirs + later)[1..] == dataDirs[1..] + later;
    if Exists(files, dirs, dataDirs[0]) {
      var r := MergeListing(files, dirs, scan(files, dataDirs[0]));
      if r.status.Completed? {
        RunMergeStopsEarly(r.files, dirs, dataDirs[1..], later, scan);
      }
    }
  }

  /** A missing directory ends the run there, leaving the files as they are. */
  lemma MissingDirectoryStops(files: Files, dirs: set<Path>, d: Path, later: seq<Path>, scan: (Files, Path) -> seq<Path>)
    requires !Exists(files, dirs, d)
    ensures RunMerge(files, dirs, [d] + later, scan) == Run(Stopped(d), files)
  {
  }

  /** With no staging file in any listed directory, a run changes nothing. */
  lemma {:induction false} NoStagingNoChange(files: Files, dirs: set<Path>, dataDirs: seq<Path>, scan: (Files, Path) -> seq<Path>)
    requires ScanValid(scan)
    requires forall k :: 0 <= k < |dataDirs| ==> Exists(files, dirs, dataDirs[k]) && StagingIn(files, dataDirs[k]) == {}
    ensures RunMerge(files, dirs, dataDirs, scan) == Run(Completed, files)
    decreases |dataDirs|
  {
    if |dataDirs| > 0 {
      var listing := scan(files, dataDirs[0]);
      EnumeratesEmpty(listing, StagingIn(files, dataDirs[0]));
      NoStagingNoChange(files, dirs, dataDirs[1..], scan);
    }
  }

  // ------------------------------------------------ a second run is a no-op

  /** The archive of staging file `p` is in the same directory and is not a staging file itself. */
  predicate WellNamed(p: Path)
  {
    ParentDir(ArchivePath(p)) == ParentDir(p) && !IsStagingName(ArchivePath(p))
  }

  lemma MergeOneStaging(files: Files, dirs: set<Path>, f: Path)
    requires f in StagingFiles(files) && WellNamed(f) && MergeOne(files, dirs, f).Some?
    ensures StagingFiles(MergeOne(files, dirs, f).value) == StagingFiles(files) - {f}
  {
    ArchivePathDiffers(f);
  }

  lemma {:induction false} MergeListingStaging(files: Files, dirs: set<Path>, listing: seq<Path>, todo: set<Path>)
    requires Enumerates(listing, todo) && todo <= StagingFiles(files)
    requires forall p :: p in StagingFiles(files) ==> WellNamed(p)
    ensures var r := MergeListing(files, dirs, listing);
      && StagingFiles(r.files) <= StagingFiles(files)
      && (r.status.Completed? ==> StagingFiles(r.files) == StagingFiles(files) - todo)
    decreases |listing|
  {
    if |listing| > 0 {
      var f := listing[0];
      assert f in todo;
      match MergeOne(files, dirs, f)
      case None =>
      case Some(next) =>
        MergeOneStaging(files, dirs, f);
        var rest := listing[1..];
        assert forall p :: p in rest <==> p in todo - {f} by {
          forall p ensures p in rest <==> p in todo - {f} {
            if p in rest {
              var i :| 0 <= i < |rest| && rest[i] == p;
              assert listing[i + 1] == p && listing[0] == f;
            }
            if p in todo - {f} {
              assert p in listing;
              var i :| 0 <= i < |listing| && listing[i] == p;
              assert i != 0;
              assert rest[i - 1] == p;
            }
          }
        }
        assert NoDuplicates(rest) by {
          forall i, j | 0 <= i < j < |rest| ensures rest[i] != rest[j] {
            assert rest[i] == listing[i + 1] && rest[j] == listing[j + 1];
          }
        }
        MergeListingStaging(next, dirs, rest, todo - {f});
    }
  }

  lemma {:induction false} RunMergeStagingShrinks(files: Files, dirs: set<Path>, dataDirs: seq<Path>, scan: (Files, Path) -> seq<Path>)
    requires ScanValid(scan)
    requires forall p :: p in StagingFiles(files) ==> WellNamed(p)
    ensures StagingFiles(RunMerge(files, dirs, dataDirs, scan).files) <= StagingFiles(files)
    decreases |dataDirs|
  {
    if |dataDirs| > 0 && Exists(files, dirs, dataDirs[0]) {
      var listing := scan(files, dataDirs[0]);
      MergeListingStaging(files, dirs, listing, StagingIn(files, dataDirs[0]));
      var r := MergeListing(files, dirs, listing);
      if r.status.Completed? {
        RunMergeStagingShrinks(r.files, dirs, dataDirs[1..], scan);
      }
    }
  }

  lemma StagingInShrinks(before: Files, after: Files, d: Path)
    requires StagingFiles(after) <= StagingFiles(before)
    ensures StagingIn(after, d) <= StagingIn(before, d)
  {
    forall p | p in StagingIn(after, d) ensures p in StagingIn(before, d) {
      assert p in StagingFiles(after);
    }
  }

  lemma StagingInCleared(before: Files, after: Files, d: Path)
    requires StagingFiles(after) == StagingFiles(before) - StagingIn(before, d)
    ensures StagingIn(after, d) == {}
  {
    assert forall p :: p in StagingIn(after, d) ==> p in StagingFiles(after);
  }

  /** A completed run leaves no staging file in any directory it went through. */
  lemma {:induction false} CompletedRunClearsStaging(files: Files, dirs: set<Path>, dataDirs: seq<Path>, scan: (Files, Path) -> seq<Path>)
    requires ScanValid(scan)
    requires forall p :: p in StagingFiles(files) ==> WellNamed(p)
    requires RunMerge(files, dirs, dataDirs, scan).status.Completed?
    ensures var after := RunMerge(files, dirs, dataDirs, scan).files;
      forall k :: 0 <= k < |dataDirs| ==> StagingIn(after, dataDirs[k]) == {}
    decreases |dataDirs|
  {
    if |dataDirs| > 0 {
      var d := dataDirs[0];
      var listing := scan(files, d);
      MergeListingStaging(files, dirs, listing, StagingIn(files, d));
      var r := MergeListing(files, dirs, listing);
      StagingInCleared(files, r.files, d);
      var rest := dataDirs[1..];
      CompletedRunClearsStaging(r.files, dirs, rest, scan);
      RunMergeStagingShrinks(r.files, dirs, rest, scan);
      var after := RunMerge(r.files, dirs, rest, scan).files;
      StagingInShrinks(r.files, after, d);
      forall k | 1 <= k < |dataDirs| ensures StagingIn(after, dataDirs[k]) == {} {
        assert dataDirs[k] == rest[k - 1];
      }
    }
  }

  // ------------------------------------------------- nothing else changes

  /** The archive paths of the staging files `s`. */
  function Archives(s: set<Path>): set<Path>
  {
    set f | f in s :: ArchivePath(f)
  }

  /** The glob loop touches only the listed files and their archives: a file
      that is neither keeps its table, and no other path comes into being. */
  lemma {:induction false} MergeListingFrame(files: Files, dirs: set<Path>, listing: seq<Path>, touched: set<Path>)
    requires forall f :: f in listing ==> f in touched
    ensures var r := MergeListing(files, dirs, listing);
      && r.files.Keys <= files.Keys + Archives(touched)
      && (forall p :: p in files && p !in touched && p !in Archives(touched) ==> p in r.files && r.files[p] == files[p])
    decreases |listing|
  {
    if |listing| > 0 {
      var f := listing[0];
      assert f in touched && ArchivePath(f) in Archives(touched);
      match MergeOne(files, dirs, f)
      case None =>
      case Some(next) =>
        assert next.Keys <= files.Keys + {ArchivePath(f)};
        assert forall p :: p in files && p != f && p != ArchivePath(f) ==> p in next && next[p] == files[p];
        var rest := listing[1..];
        assert forall g :: g in rest ==> g in listing;
        MergeListingFrame(next, dirs, rest, touched);
    }
  }

  lemma {:induction false} RunMergeFrameFrom(files: Files, dirs: set<Path>, dataDirs: seq<Path>,
                                             scan: (Files, Path) -> seq<Path>, touched: set<Path>)
    requires ScanValid(scan)
    requires StagingFiles(files) <= touched
    requires forall p :: p in StagingFiles(files) ==> WellNamed(p)
    ensures var r := RunMerge(files, dirs, dataDirs, scan);
      && r.files.Keys <= files.Keys + Archives(touched)
      && (forall p :: p in files && p !in touched && p !in Archives(touched) ==> p in r.files && r.files[p] == files[p])
    decreases |dataDirs|
  {
    if |dataDirs| > 0 && Exists(files, dirs, dataDirs[0]) {
      var d := dataDirs[0];
      var listing := scan(files, d);
      assert forall f :: f in listing ==> f in StagingIn(files, d);
      assert forall f :: f in StagingIn(files, d) ==> f in StagingFiles(files);
      MergeListingFrame(files, dirs, listing, touched);
      MergeListingStaging(files, dirs, listing, StagingIn(files, d));
      var r := MergeListing(files, dirs, listing);
      if r.status.Completed? {
        RunMergeFrameFrom(r.files, dirs, dataDirs[1..], scan, touched);
      }
    }
  }

  /** A run changes only the staging files it finds and their archives: every
      other file keeps its table, and every new path is an archive. The
      staging files must be well named, or a run could create a staging file
      and handle it in a later directory. */
  lemma RunMergeFrame(files: Files, dirs: set<Path>, dataDirs: seq<Path>, scan: (Files, Path) -> seq<Path>)
    requires ScanValid(scan)
    requires forall p :: p in StagingFiles(files) ==> WellNamed(p)
    ensures var r := RunMerge(files, dirs, dataDirs, scan);
      && r.files.Keys <= files.Keys + Archives(StagingFiles(files))
      && (forall p :: p in files && !IsStagingName(p) && p !in Archives(StagingFiles(files)) ==>
            p in r.files && r.files[p] == files[p])
  {
    RunMergeFrameFrom(files, dirs, dataDirs, scan, StagingFiles(files));
  }

  /** Running the merger again right after a completed run changes nothing. */
  lemma SecondRunNoChange(files: Files, dirs: set<Path>, dataDirs: seq<Path>, scan: (Files, Path) -> seq<Path>)
    requires ScanValid(scan)
    requires forall p :: p in StagingFiles(files) ==> WellNamed(p)
    requires forall k :: 0 <= k < |dataDirs| ==> dataDirs[k] in dirs
    requires RunMerge(files, dirs, dataDirs, scan).status.Completed?
    ensures var after := RunMerge(files, dirs, dataDirs, scan).files;
      RunMerge(after, dirs, dataDirs, scan) == Run(Completed, after)
  {
    CompletedRunClearsStaging(files, dirs, dataDirs, scan);
    NoStagingNoChange(RunMerge(files, dirs, dataDirs, scan).files, dirs, dataDirs, scan);
  }

  // ------------------------------------------------ the usual file names

  lemma {:induction false} LastSlashAfter(x: Path, t: Path)
    requires |x| > 0 && x[|x| - 1] == '/'
    requires forall i :: 0 <= i < |t| ==> t[i] != '/'
    ensures LastSlash(x + t) == Some(|x| - 1)
    decreases |t|
  {
    if |t| > 0 {
      var t' := t[..|t| - 1];
      assert (x + t)[..|x + t| - 1] == x + t';
      assert (x + t)[|x + t| - 1] == t[|t| - 1];
      LastSlashAfter(x, t');
    } else {
      assert x + t == x;
    }
  }

  lemma InDirectory(dir: Path, t: Path)
    requires |dir| > 0 && forall i :: 0 <= i < |t| ==> t[i] != '/'
    ensures ParentDir(dir + "/" + t) == dir && Name(dir + "/" + t) == t
  {
    var x := dir + "/";
    assert dir + "/" + t == x + t;
    LastSlashAfter(x, t);
    assert (x + t)[..|x| - 1] == dir;
    assert (x + t)[|x|..] == t;
  }

  /** `_staging` cut out of `x_staging.csv`, when it does not occur earlier. */
  lemma ArchiveOfSuffix(x: Path)
    requires PyStr.EndsCleanly(x, "_staging")
    ensures ArchivePath(x + "_staging.csv") == x + ".csv"
  {
    var p := x + "_staging.csv";
    forall j | 0 <= j < |x| ensures !PyStr.OccursAt(p, "_staging", j) {
      if PyStr.OccursAt(p, "_staging", j) {
        assert p[j..j + 8] == (x + "_staging")[j..j + 8];
        assert PyStr.OccursAt(x + "_staging", "_staging", j);
      }
    }
    assert p[|x|..|x| + 8] == "_staging";
    PyStr.RemoveAllUpTo(p, "_staging", |x|);
    assert p[..|x|] == x && p[|x| + 8..] == ".csv";
    assert PyStr.RemoveAll(".csv", "_staging") == ".csv";
  }

  /** For `dir/stem_staging.csv` where `_staging` does not occur before the
      suffix, the archive is `dir/stem.csv`, in the same directory, and is not
      a staging file. */
  lemma OrdinaryStagingPath(dir: Path, stem: Path)
    requires |dir| > 0 && forall i :: 0 <= i < |stem| ==> stem[i] != '/'
    requires PyStr.EndsCleanly(dir + "/" + stem, "_staging")
    ensures var p := dir + "/" + stem + "_staging.csv";
      && IsStagingName(p)
      && ArchivePath(p) == dir + "/" + stem + ".csv"
      && WellNamed(p)
  {
    var x := dir + "/" + stem;
    var staged, archived := stem + "_staging.csv", stem + ".csv";
    assert x + "_staging.csv" == dir + "/" + staged;
    assert x + ".csv" == dir + "/" + archived;
    InDirectory(dir, staged);
    InDirectory(dir, archived);
    ArchiveOfSuffix(x);
    assert PyStr.EndsWith(staged, "_staging.csv");
    CleanNotStaged(x);
    assert !PyStr.EndsWith(archived, "_staging.csv") by {
      if PyStr.EndsWith(archived, "_staging.csv") {
        EndsWithPrefixed(dir + "/", archived, "_staging.csv");
      }
    }
  }

  /** A suffix of `b` is a suffix of `a + b`. */
  lemma EndsWithPrefixed(a: string, b: string, suffix: string)
    requires PyStr.EndsWith(b, suffix)
    ensures PyStr.EndsWith(a + b, suffix)
  {
    assert (a + b)[|a + b| - |suffix|..] == b[|b| - |suffix|..];
  }

  /** `x.csv` does not end in `_staging.csv` when `x` does not end in `_staging`. */
  lemma CleanNotStaged(x: Path)
    requires PyStr.EndsCleanly(x, "_staging")
    ensures !PyStr.EndsWith(x + ".csv", "_staging.csv")
  {
    var a := x + ".csv";
    if PyStr.EndsWith(a, "_staging.csv") {
      var j := |x| - 8;
      assert a[j..j + 8] == "_staging";
      assert (x + "_staging")[j..j + 8] == a[j..j + 8];
      assert PyStr.OccursAt(x + "_staging", "_staging", j);
    }
  }

  // ----------------------------------------------------------- the store

  /** The data directory tree: which tables exist at which path. Directories
      are neither created nor removed by the merger. */
  class DataStore {
    var files: Files
    const dirs: set<Path>

    ghost predicate Valid()
      reads this
    {
      WellFormed(files, dirs)
    }

    constructor (initial: Files, directories: set<Path>)
      requires WellFormed(initial, directories)
      ensures Valid() && files == initial && dirs == directories
    {
      files := initial;
      dirs := directories;
    }

    /** The body of the glob loop for one staging file `f`. */
    method MergeFile(f: Path) returns (ok: bool)
      requires Valid()
      modifies this
      ensures Valid()
      ensures ok == MergeOne(old(files), dirs, f).Some?
      ensures files == if ok then MergeOne(old(files), dirs, f).value else old(files)
    {
      var archive := ArchivePath(f);
      if archive in files || archive in dirs {
        if archive in dirs || f !in files {
          // read_csv raises
          return false;
        }
        var df := files[f] + files[archive];
        df := DropDuplicates(df);
        files := files[archive := df];
        files := files - {f};
      } else {
        if f !in files || ParentDir(archive) !in dirs {
          // rename raises
          return false;
        }
        files := (files - {f})[archive := files[f]];
      }
      ok := true;
      MergeOneWellFormed(old(files), dirs, f);
    }

    /** The glob loop over one directory's listing. */
    method MergeListed(listing: seq<Path>) returns (status: Status)
      requires Valid()
      modifies this
      ensures Valid()
      ensures Run(status, files) == MergeListing(old(files), dirs, listing)
    {
      var i := 0;
      while i < |listing|
        invariant 0 <= i <= |listing| && Valid()
        invariant MergeListing(old(files), dirs, listing) == MergeListing(files, dirs, listing[i..])
      {
        var ok := MergeFile(listing[i]);
        if !ok {
          return Crashed(listing[i]);
        }
        i := i + 1;
      }
      return Completed;
    }

    /** `merge(data_dir)` over the listed directories. */
    method Merge(dataDirs: seq<Path>, scan: (Files, Path) -> seq<Path>) returns (status: Status)
      requires Valid()
      modifies this
      ensures Valid()
      ensures Run(status, files) == RunMerge(old(files), dirs, dataDirs, scan)
    {
      var k := 0;
      while k < |dataDirs|
        invariant 0 <= k <= |dataDirs| && Valid()
        invariant RunMerge(old(files), dirs, dataDirs, scan) == RunMerge(files, dirs, dataDirs[k..], scan)
      {
        var d := dataDirs[k];
        if !(d in files || d in dirs) {
          return Stopped(d);
        }
        status := MergeListed(scan(files, d));
        if !status.Completed? {
          return;
        }
        assert dataDirs[k..][1..] == dataDirs[k + 1..];
        k := k + 1;
      }
      return Completed;
    }
  }
}

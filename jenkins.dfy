/**
 * The Jenkins extractor: each build record of a job becomes a flat record
 * of build fields (`get_data`) and a list of test rows flattened from its
 * test report (`extract_test_data`). The Jenkins server's test-report query
 * is a parameter. Durations are `real`s.
 */
module JenkinsData {
  import opened Wrappers
  import PyStr

  // ------------------------------------------------------- test reports

  datatype Case = Case(name: string, duration: real, status: string)

  datatype Suite = Suite(name: string, cases: seq<Case>)

  /** The `duration` and `suites` of a report. */
  datatype TestResult = TestResult(duration: real, suites: seq<Suite>)

  /** One test row: `[package, class, name, duration, status]`. */
  datatype Row = Row(package: string, className: string, name: string, duration: real, status: string)

  /** `name.split('.')`: the class is the last piece, the package the pieces
      before it joined with `.`. */
  function SplitSuiteName(name: string): (pc: (string, string))
  {
    var parts := PyStr.Split(name, ".");
    (PyStr.Join(parts[..|parts| - 1], "."), parts[|parts| - 1])
  }

  /** The class has no `.`; with a `.` in the name, package, `.` and class
      give the name back, and without one the package is empty. */
  lemma SuiteNameParts(name: string)
    ensures var (package, cls) := SplitSuiteName(name);
      && !PyStr.Contains(cls, ".")
      && (PyStr.Contains(name, ".") ==> package + "." + cls == name)
      && (!PyStr.Contains(name, ".") ==> package == "" && cls == name)
  {
    var parts := PyStr.Split(name, ".");
    PyStr.SplitCount(name, ".");
    PyStr.SplitPartsClean(name, ".");
    PyStr.JoinSplit(name, ".");
    if |parts| > 1 {
      PyStr.JoinSnoc(parts[..|parts| - 1], parts[|parts| - 1], ".");
      DropLast(parts);
    }
  }

  lemma DropLast<T>(xs: seq<T>)
    requires |xs| > 0
    ensures xs[..|xs| - 1] + [xs[|xs| - 1]] == xs
  {
  }

  function CaseRow(package: string, cls: string, c: Case): Row
  {
    Row(package, cls, c.name, c.duration, c.status)
  }

  /** The rows of the first `n` cases of a suite. */
  function CaseRows(package: string, cls: string, cases: seq<Case>, n: nat): (rows: seq<Row>)
    requires n <= |cases|
    ensures |rows| == n && forall j :: 0 <= j < n ==> rows[j] == CaseRow(package, cls, cases[j])
    decreases n
  {
    if n == 0 then [] else CaseRows(package, cls, cases, n - 1) + [CaseRow(package, cls, cases[n - 1])]
  }

  function SuiteRows(s: Suite): seq<Row>
  {
    var (package, cls) := SplitSuiteName(s.name);
    CaseRows(package, cls, s.cases, |s.cases|)
  }

  /** The rows of the first `n` suites, suite by suite. */
  function ReportRows(suites: seq<Suite>, n: nat): seq<Row>
    requires n <= |suites|
    decreases n
  {
    if n == 0 then [] else ReportRows(suites, n - 1) + SuiteRows(suites[n - 1])
  }

  /** Number of cases in the first `n` suites. */
  function CaseCount(suites: seq<Suite>, n: nat): nat
    requires n <= |suites|
    decreases n
  {
    if n == 0 then 0 else CaseCount(suites, n - 1) + |suites[n - 1].cases|
  }

  /** One row per case. */
  lemma {:induction false} ReportRowsCount(suites: seq<Suite>, n: nat)
    requires n <= |suites|
    ensures |ReportRows(suites, n)| == CaseCount(suites, n)
    decreases n
  {
    if n > 0 {
      ReportRowsCount(suites, n - 1);
      SuiteRowsCount(suites[n - 1]);
    }
  }

  /** Case `j` of suite `i` is row `CaseCount(suites, i) + j`, made of the
      suite's package and class and the case's name, duration and status. */
  lemma {:induction false} ReportRowAt(suites: seq<Suite>, n: nat, i: nat, j: nat)
    requires i < n <= |suites| && j < |suites[i].cases|
    ensures CaseCount(suites, i) + j < |ReportRows(suites, n)|
    ensures var (package, cls) := SplitSuiteName(suites[i].name);
      ReportRows(suites, n)[CaseCount(suites, i) + j] == CaseRow(package, cls, suites[i].cases[j])
    decreases n
  {
    if i < n - 1 {
      ReportRowAt(suites, n - 1, i, j);
      RowBefore(suites, n, CaseCount(suites, i) + j);
    } else {
      RowInLast(suites, n, j);
    }
  }

  /** A row of the first `n - 1` suites keeps its place among the rows of `n`. */
  lemma RowBefore(suites: seq<Suite>, n: nat, k: nat)
    requires 0 < n <= |suites| && k < |ReportRows(suites, n - 1)|
    ensures k < |ReportRows(suites, n)| && ReportRows(suites, n)[k] == ReportRows(suites, n - 1)[k]
  {
  }

  /** The rows of suite `n - 1` follow those of the suites before it. */
  lemma RowInLast(suites: seq<Suite>, n: nat, j: nat)
    requires 0 < n <= |suites| && j < |suites[n - 1].cases|
    ensures CaseCount(suites, n - 1) + j < |ReportRows(suites, n)|
    ensures var (package, cls) := SplitSuiteName(suites[n - 1].name);
      ReportRows(suites, n)[CaseCount(suites, n - 1) + j] == CaseRow(package, cls, suites[n - 1].cases[j])
  {
    var before := ReportRows(suites, n - 1);
    var last := SuiteRows(suites[n - 1]);
    assert ReportRows(suites, n) == before + last;
    ReportRowsCount(suites, n - 1);
    SuiteRowsCount(suites[n - 1]);
    SuiteRowAt(suites[n - 1], j);
    assert (before + last)[|before| + j] == last[j];
  }

  /** A suite has a row per case. */
  lemma SuiteRowsCount(s: Suite)
    ensures |SuiteRows(s)| == |s.cases|
  {
    var (package, cls) := SplitSuiteName(s.name);
    assert SuiteRows(s) == CaseRows(package, cls, s.cases, |s.cases|);
  }

  /** Row `j` of a suite is its case `j` under the suite's package and class. */
  lemma SuiteRowAt(s: Suite, j: nat)
    requires j < |s.cases|
    ensures j < |SuiteRows(s)|
    ensures var (package, cls) := SplitSuiteName(s.name); SuiteRows(s)[j] == CaseRow(package, cls, s.cases[j])
  {
    var (package, cls) := SplitSuiteName(s.name);
    assert SuiteRows(s) == CaseRows(package, cls, s.cases, |s.cases|);
  }

  /** `extract_test_data(test_report)`, a falsy report being `None`. */
  method ExtractTestData(report: Option<TestResult>) returns (duration: Option<real>, rows: Option<seq<Row>>)
    ensures report.None? ==> duration.None? && rows.None?
    ensures report.Some? ==>
      duration == Some(report.value.duration) && rows == Some(ReportRows(report.value.suites, |report.value.suites|))
  {
    if report.None? {
      return None, None;
    }
    var suites := report.value.suites;
    var result: seq<Row> := [];
    var i := 0;
    while i < |suites|
      invariant 0 <= i <= |suites|
      invariant result == ReportRows(suites, i)
    {
      var suite := suites[i];
      var (package, cls) := SplitSuiteName(suite.name);
      var caseRows := CaseData(package, cls, suite.cases);
      assert ReportRows(suites, i + 1) == result + SuiteRows(suite);
      result := result + caseRows;
      i := i + 1;
    }
    return Some(report.value.duration), Some(result);
  }

  /** The inner loop of `extract_test_data`: a row per case of a suite. */
  method CaseData(package: string, cls: string, cases: seq<Case>) returns (rows: seq<Row>)
    ensures rows == CaseRows(package, cls, cases, |cases|)
  {
    rows := [];
    var j := 0;
    while j < |cases|
      invariant 0 <= j <= |cases|
      invariant rows == CaseRows(package, cls, cases, j)
    {
      var c := cases[j];
      rows := rows + [Row(package, cls, c.name, c.duration, c.status)];
      j := j + 1;
    }
  }

  // ------------------------------------------------------------- builds

  /** A build action; `Falsy` for a `None` or empty one. `hasCounts` says the
      action has `failCount`, `skipCount` and `totalCount`; `lastBuiltRevision`
      is `None` when absent, and its `SHA1` is `None` when absent. */
  datatype Action = Falsy | Action(className: string, hasCounts: bool, lastBuiltRevision: Option<Option<string>>)

  /** A change-set item; a field is `None` when its key is absent. */
  datatype Item = Item(commitId: Option<string>, date: Option<string>)

  datatype Build = Build(id: string, result: Option<string>, duration: int, estimatedDuration: int,
                         actions: seq<Action>, items: seq<Item>, fullDisplayName: string)

  /** `s.split('.')[-1]` */
  function ClassSuffix(s: string): string
  {
    var parts := PyStr.Split(s, ".");
    parts[|parts| - 1]
  }

  /** An action that sets the revision: a `BuildData` with a `lastBuiltRevision.SHA1`. */
  predicate SetsRevision(a: Action)
  {
    a.Action? && ClassSuffix(a.className) == "BuildData" && a.lastBuiltRevision.Some? && a.lastBuiltRevision.value.Some?
  }

  /** A test-result action lacking one of its counts (`KeyError`). */
  predicate BadCounts(a: Action)
  {
    a.Action? && ClassSuffix(a.className) == "TestResultAction" && !a.hasCounts
  }

  /** The revision after the first `n` actions: the SHA1 of the last action setting it. */
  function RevisionOf(actions: seq<Action>, n: nat): Option<string>
    requires n <= |actions|
    decreases n
  {
    if n == 0 then None
    else if SetsRevision(actions[n - 1]) then actions[n - 1].lastBuiltRevision.value
    else RevisionOf(actions, n - 1)
  }

  /** The revision of a build, or `None` as the outer option when an action raises. */
  function ScanActions(actions: seq<Action>): Option<Option<string>>
  {
    if exists i :: 0 <= i < |actions| && BadCounts(actions[i]) then None else Some(RevisionOf(actions, |actions|))
  }

  /** The revision is the SHA1 of the last action that sets one, and `None`
      when none does. */
  lemma {:induction false} RevisionIsLast(actions: seq<Action>, n: nat)
    requires n <= |actions|
    ensures RevisionOf(actions, n).None? <==> forall i :: 0 <= i < n ==> !SetsRevision(actions[i])
    ensures RevisionOf(actions, n).Some? ==>
      exists i :: (0 <= i < n && SetsRevision(actions[i]) && RevisionOf(actions, n) == actions[i].lastBuiltRevision.value
                   && forall j :: i < j < n ==> !SetsRevision(actions[j]))
    decreases n
  {
    if n > 0 && !SetsRevision(actions[n - 1]) {
      RevisionIsLast(actions, n - 1);
    }
  }

  /** The actions loop of `get_data`. */
  method BuildRevision(actions: seq<Action>) returns (r: Option<Option<string>>)
    ensures r == ScanActions(actions)
  {
    var revisionNumber: Option<string> := None;
    var i := 0;
    while i < |actions|
      invariant 0 <= i <= |actions|
      invariant forall j :: 0 <= j < i ==> !BadCounts(actions[j])
      invariant revisionNumber == RevisionOf(actions, i)
    {
      var action := actions[i];
      if action.Action? {
        var cls := ClassSuffix(action.className);
        if cls == "TestResultAction" && !action.hasCounts {
          RaisesAt(actions, i);
          return None;
        }
        if cls == "BuildData" && action.lastBuiltRevision.Some? && action.lastBuiltRevision.value.Some? {
          revisionNumber := action.lastBuiltRevision.value;
        }
      }
      i := i + 1;
    }
    NoneRaises(actions);
    return Some(revisionNumber);
  }

  lemma RaisesAt(actions: seq<Action>, i: nat)
    requires i < |actions| && BadCounts(actions[i])
    ensures ScanActions(actions) == None
  {
  }

  lemma NoneRaises(actions: seq<Action>)
    requires forall j :: 0 <= j < |actions| ==> !BadCounts(actions[j])
    ensures ScanActions(actions) == Some(RevisionOf(actions, |actions|))
  {
  }

  /** `build_commit_ids_ts` after the first `n` items. */
  function CommitsOf(items: seq<Item>, n: nat): map<string, Option<string>>
    requires n <= |items|
    decreases n
  {
    if n == 0 then map[]
    else if items[n - 1].commitId.Some? then CommitsOf(items, n - 1)[items[n - 1].commitId.value := items[n - 1].date]
    else CommitsOf(items, n - 1)
  }

  /** The keys are exactly the commit ids present. */
  lemma {:induction false} CommitKeys(items: seq<Item>, n: nat, id: string)
    requires n <= |items|
    ensures id in CommitsOf(items, n) <==> exists i :: 0 <= i < n && items[i].commitId == Some(id)
    decreases n
  {
    if n > 0 {
      CommitKeys(items, n - 1, id);
    }
  }

  /** A commit id maps to the date (or `None`) of the last item carrying it. */
  lemma {:induction false} CommitLastWins(items: seq<Item>, n: nat, i: nat)
    requires i < n <= |items| && items[i].commitId.Some?
    requires forall j :: i < j < n ==> items[j].commitId != items[i].commitId
    ensures items[i].commitId.value in CommitsOf(items, n)
    ensures CommitsOf(items, n)[items[i].commitId.value] == items[i].date
    decreases n
  {
    if i < n - 1 {
      CommitLastWins(items, n - 1, i);
    }
  }

  /** The change-set loop of `get_data`. */
  method CommitIdsTs(items: seq<Item>) returns (commits: map<string, Option<string>>)
    ensures commits == CommitsOf(items, |items|)
  {
    commits := map[];
    var i := 0;
    while i < |items|
      invariant 0 <= i <= |items|
      invariant commits == CommitsOf(items, i)
    {
      var item := items[i];
      if item.commitId.Some? {
        if item.date.Some? {
          commits := commits[item.commitId.value := item.date];
        } else {
          commits := commits[item.commitId.value := None];
        }
      }
      i := i + 1;
    }
  }

  // ------------------------------------------------------- test reports

  /** A test report as the server returns it. `own` is `None` when the
      report lacks `duration` or `suites`, `children` is `None` when it lacks
      `childReports`, and a child is `None` for a falsy `result`. */
  datatype Report = Report(reportClass: string, failCount: int, skipCount: int, passCount: Option<int>,
                           totalCount: Option<int>, own: Option<TestResult>, children: Option<seq<Option<TestResult>>>)

  /** The sum of the durations of the first `n` children with a result, or
      `None` when none has one. */
  function ChildDuration(children: seq<Option<TestResult>>, n: nat): Option<real>
    requires n <= |children|
    decreases n
  {
    if n == 0 then None
    else
      var before := ChildDuration(children, n - 1);
      if children[n - 1].None? then before
      else if before.None? then Some(children[n - 1].value.duration)
      else Some(before.value + children[n - 1].value.duration)
  }

  /** Sum of the durations of the children with a result, `0` for none. */
  function DurationSum(children: seq<Option<TestResult>>, n: nat): real
    requires n <= |children|
    decreases n
  {
    if n == 0 then 0.0 else DurationSum(children, n - 1) + (if children[n - 1].Some? then children[n - 1].value.duration else 0.0)
  }

  /** The aggregated duration is `None` when no child has a result, and
      otherwise the sum over the children with one. */
  lemma {:induction false} ChildDurationSum(children: seq<Option<TestResult>>, n: nat)
    requires n <= |children|
    ensures ChildDuration(children, n).None? <==> forall i :: 0 <= i < n ==> children[i].None?
    ensures ChildDuration(children, n).Some? ==> ChildDuration(children, n).value == DurationSum(children, n)
    decreases n
  {
    if n > 0 {
      ChildDurationSum(children, n - 1);
      if ChildDuration(children, n - 1).None? && children[n - 1].Some? {
        assert DurationSum(children, n - 1) == 0.0 by {
          ZeroSum(children, n - 1);
        }
      }
    }
  }

  lemma {:induction false} ZeroSum(children: seq<Option<TestResult>>, n: nat)
    requires n <= |children| && forall i :: 0 <= i < n ==> children[i].None?
    ensures DurationSum(children, n) == 0.0
    decreases n
  {
    if n > 0 {
      ZeroSum(children, n - 1);
    }
  }

  /** The rows of the first `n` children, child by child. */
  function ChildRows(children: seq<Option<TestResult>>, n: nat): seq<Row>
    requires n <= |children|
    decreases n
  {
    if n == 0 then []
    else if children[n - 1].None? then ChildRows(children, n - 1)
    else ChildRows(children, n - 1) + ReportRows(children[n - 1].value.suites, |children[n - 1].value.suites|)
  }

  /** The total test duration and the test rows of a report, or `None` when
      a key it needs is missing. */
  function ReportTests(rep: Report): Option<(Option<real>, seq<Row>)>
  {
    var cls := ClassSuffix(rep.reportClass);
    if cls == "SurefireAggregatedReport" then
      if rep.children.None? then None
      else
        var cs := rep.children.value;
        Some((ChildDuration(cs, |cs|), ChildRows(cs, |cs|)))
    else if cls == "TestResult" then
      if rep.own.None? then None
      else Some((Some(rep.own.value.duration), ReportRows(rep.own.value.suites, |rep.own.value.suites|)))
    else Some((None, []))
  }

  /** The child-report loop and the class dispatch of `get_data`. */
  method SpecificTestData(rep: Report) returns (r: Option<(Option<real>, seq<Row>)>)
    ensures r == ReportTests(rep)
  {
    var totalTestDuration: Option<real> := None;
    var testResult: seq<Row> := [];
    var cls := ClassSuffix(rep.reportClass);
    if cls == "SurefireAggregatedReport" {
      if rep.children.None? {
        return None;
      }
      var cs := rep.children.value;
      var i := 0;
      while i < |cs|
        invariant 0 <= i <= |cs|
        invariant totalTestDuration == ChildDuration(cs, i)
        invariant testResult == ChildRows(cs, i)
      {
        var duration, childTestResult := ExtractTestData(cs[i]);
        if duration.Some? {
          if totalTestDuration.None? {
            totalTestDuration := duration;
          } else {
            totalTestDuration := Some(totalTestDuration.value + duration.value);
          }
        }
        if childTestResult.Some? {
          testResult := testResult + childTestResult.value;
        }
        i := i + 1;
      }
    } else if cls == "TestResult" {
      if rep.own.None? {
        return None;
      }
      var duration, rows := ExtractTestData(rep.own);
      totalTestDuration, testResult := duration, rows.value;
    }
    return Some((totalTestDuration, testResult));
  }

  // ----------------------------------------------------------- get_data

  /** A count of `build_data`: absent, `None`, or a number. */
  datatype Count = NoKey | NullCount | Count(n: int)

  /** The flat record of one build. */
  datatype BuildData = BuildData(buildNumber: string, buildResult: Option<string>, buildDuration: int,
                                 buildEstimatedDuration: int, revision: Option<string>,
                                 commitIdsTs: map<string, Option<string>>, failCount: Count, passCount: Count,
                                 skipCount: Count, totalTestDuration: Option<real>)

  /** `build['fullDisplayName'].split('#')[0].strip()` */
  function JobName(fullDisplayName: string): string
  {
    PyStr.Strip(PyStr.Split(fullDisplayName, "#")[0])
  }

  /** `passCount`: `totalCount - failCount - skipCount` when the report has a
      total, else its own `passCount`, else no key. */
  function PassCount(rep: Report): Count
  {
    if rep.totalCount.Some? then Count(rep.totalCount.value - rep.failCount - rep.skipCount)
    else if rep.passCount.Some? then Count(rep.passCount.value)
    else NoKey
  }

  /** The test reports the server holds, by job name and build number. */
  type TestReports = map<(string, int), Report>

  /** `server.get_build_test_report(job_name, number)`: `None` when the
      server has no report for the build. */
  function ReportFor(reports: TestReports, job: string, number: int): (r: Option<Report>)
    ensures r.Some? <==> (job, number) in reports
    ensures r.Some? ==> r.value == reports[(job, number)]
  {
    if (job, number) in reports then Some(reports[(job, number)]) else None
  }

  /** The record and test rows of one build, `None` when it raises. */
  function BuildEntry(b: Build, reports: TestReports): Option<(BuildData, Option<seq<Row>>)>
  {
    match ScanActions(b.actions)
    case None => None
    case Some(revision) =>
      match PyStr.ParseInt(b.id)
      case None => None
      case Some(number) =>
        var base := BuildData(b.id, b.result, b.duration, b.estimatedDuration, revision,
                              CommitsOf(b.items, |b.items|), NullCount, NullCount, NullCount, None);
        match ReportFor(reports, JobName(b.fullDisplayName), number)
        case None => Some((base, None))
        case Some(rep) => WithReportData(base, rep)
  }

  /** The record completed from a test report, with the report's tests. */
  function WithReportData(base: BuildData, rep: Report): Option<(BuildData, Option<seq<Row>>)>
  {
    match ReportTests(rep)
    case None => None
    case Some(tests) =>
      Some((base.(failCount := Count(rep.failCount), skipCount := Count(rep.skipCount),
                  passCount := PassCount(rep), totalTestDuration := tests.0), Some(tests.1)))
  }

  /** The results of `entry` on the first `n` builds, or `None` as soon as one is `None`. */
  function Collect<E>(entry: Build -> Option<E>, builds: seq<Build>, n: nat): Option<seq<E>>
    requires n <= |builds|
    decreases n
  {
    if n == 0 then Some([])
    else
      match Collect(entry, builds, n - 1)
      case None => None
      case Some(pairs) =>
        match entry(builds[n - 1])
        case None => None
        case Some(e) => Some(pairs + [e])
  }

  /** What `get_data` returns for the first `n` builds, or `None` when one raises. */
  function GetDataSpec(builds: seq<Build>, reports: TestReports, n: nat)
    : Option<seq<(BuildData, Option<seq<Row>>)>>
    requires n <= |builds|
  {
    Collect(b => BuildEntry(b, reports), builds, n)
  }

  /** One build of `get_data`'s loop. */
  method GetBuild(b: Build, reports: TestReports) returns (r: Option<(BuildData, Option<seq<Row>>)>)
    ensures r == BuildEntry(b, reports)
  {
    var revision := BuildRevision(b.actions);
    if revision.None? {
      return None;
    }
    var commits := CommitIdsTs(b.items);
    var number := PyStr.ParseInt(b.id);
    if number.None? {
      return None;
    }
    var buildData := BuildData(b.id, b.result, b.duration, b.estimatedDuration, revision.value, commits,
                               NullCount, NullCount, NullCount, None);
    var report := ReportFor(reports, JobName(b.fullDisplayName), number.value);
    if report.None? {
      return Some((buildData, None));
    }
    r := ReportData(buildData, report.value);
  }

  /** The part of `get_data`'s loop that reads a test report. */
  method ReportData(buildData: BuildData, rep: Report) returns (r: Option<(BuildData, Option<seq<Row>>)>)
    ensures r == WithReportData(buildData, rep)
  {
    var d := buildData.(failCount := Count(rep.failCount), skipCount := Count(rep.skipCount), passCount := NoKey);
    if rep.passCount.Some? {
      d := d.(passCount := Count(rep.passCount.value));
    }
    if rep.totalCount.Some? {
      d := d.(passCount := Count(rep.totalCount.value - rep.failCount - rep.skipCount));
    }
    var tests := SpecificTestData(rep);
    if tests.None? {
      return None;
    }
    d := d.(totalTestDuration := tests.value.0);
    return Some((d, Some(tests.value.1)));
  }

  /** `get_data(builds, server)` */
  method GetData(builds: seq<Build>, reports: TestReports)
    returns (r: Option<seq<(BuildData, Option<seq<Row>>)>>)
    ensures r == GetDataSpec(builds, reports, |builds|)
  {
    r := Some([]);
    var i := 0;
    while i < |builds| && r.Some?
      invariant 0 <= i <= |builds|
      invariant r == GetDataSpec(builds, reports, i)
    {
      r := GetDataRound(builds, reports, i, r.value);
      i := i + 1;
    }
    if r.None? {
      GetDataFails(builds, reports, i);
    }
  }

  /** One round of `get_data`'s loop: build `i` appended to the pairs so far. */
  method GetDataRound(builds: seq<Build>, reports: TestReports, i: nat, pairs: seq<(BuildData, Option<seq<Row>>)>)
    returns (next: Option<seq<(BuildData, Option<seq<Row>>)>>)
    requires i < |builds| && GetDataSpec(builds, reports, i) == Some(pairs)
    ensures next == GetDataSpec(builds, reports, i + 1)
  {
    var e := GetBuild(builds[i], reports);
    GetDataStep(builds, reports, i, pairs, e);
    if e.None? {
      return None;
    }
    return Some(pairs + [e.value]);
  }

  lemma GetDataStep(builds: seq<Build>, reports: TestReports, i: nat,
                    pairs: seq<(BuildData, Option<seq<Row>>)>, e: Option<(BuildData, Option<seq<Row>>)>)
    requires i < |builds| && GetDataSpec(builds, reports, i) == Some(pairs) && e == BuildEntry(builds[i], reports)
    ensures GetDataSpec(builds, reports, i + 1) == if e.None? then None else Some(pairs + [e.value])
  {
  }

  lemma GetDataFails(builds: seq<Build>, reports: TestReports, m: nat)
    requires m <= |builds| && GetDataSpec(builds, reports, m).None?
    ensures GetDataSpec(builds, reports, |builds|) == None
  {
    CollectFails(b => BuildEntry(b, reports), builds, m, |builds|);
  }

  lemma {:induction false} CollectFails<E>(entry: Build -> Option<E>, builds: seq<Build>, m: nat, n: nat)
    requires m <= n <= |builds| && Collect(entry, builds, m).None?
    ensures Collect(entry, builds, n).None?
    decreases n
  {
    if n > m {
      CollectFails(entry, builds, m, n - 1);
    }
  }

  lemma {:induction false} CollectEach<E>(entry: Build -> Option<E>, builds: seq<Build>, n: nat)
    requires n <= |builds|
    ensures Collect(entry, builds, n).Some? <==> forall i :: 0 <= i < n ==> entry(builds[i]).Some?
    ensures Collect(entry, builds, n).Some? ==>
      var es := Collect(entry, builds, n).value;
      |es| == n && forall i :: 0 <= i < n ==> es[i] == entry(builds[i]).value
    decreases n
  {
    if n > 0 {
      CollectEach(entry, builds, n - 1);
    }
  }

  /** One pair per build, in build order; the whole call raises when one build does. */
  lemma GetDataPerBuild(builds: seq<Build>, reports: TestReports)
    ensures GetDataSpec(builds, reports, |builds|).Some? <==>
      forall i :: 0 <= i < |builds| ==> BuildEntry(builds[i], reports).Some?
    ensures GetDataSpec(builds, reports, |builds|).Some? ==>
      var pairs := GetDataSpec(builds, reports, |builds|).value;
      |pairs| == |builds| && forall i :: 0 <= i < |builds| ==> pairs[i] == BuildEntry(builds[i], reports).value
  {
    CollectEach(b => BuildEntry(b, reports), builds, |builds|);
  }

  /** Without a test report the counts and the duration are `None`, and so are the tests. */
  lemma NoReport(b: Build, reports: TestReports)
    requires ScanActions(b.actions).Some? && PyStr.ParseInt(b.id).Some?
    requires ReportFor(reports, JobName(b.fullDisplayName), PyStr.ParseInt(b.id).value).None?
    ensures var e := BuildEntry(b, reports);
      && e.Some? && e.value.1.None?
      && e.value.0.failCount == NullCount && e.value.0.passCount == NullCount
      && e.value.0.skipCount == NullCount && e.value.0.totalTestDuration.None?
  {
  }

  /** With a report, the build record takes its counts: a reported total
      overrides `passCount`, without one the report's own `passCount` is
      copied or the key stays absent; the tests follow the report's class. */
  lemma WithReport(b: Build, reports: TestReports)
    requires ScanActions(b.actions).Some? && PyStr.ParseInt(b.id).Some?
    requires ReportFor(reports, JobName(b.fullDisplayName), PyStr.ParseInt(b.id).value).Some?
    ensures var rep := ReportFor(reports, JobName(b.fullDisplayName), PyStr.ParseInt(b.id).value).value;
      var e := BuildEntry(b, reports);
      && (e.Some? <==> ReportTests(rep).Some?)
      && (e.Some? ==>
           && e.value.0.failCount == Count(rep.failCount) && e.value.0.skipCount == Count(rep.skipCount)
           && (rep.totalCount.Some? ==> e.value.0.passCount == Count(rep.totalCount.value - rep.failCount - rep.skipCount))
           && (rep.totalCount.None? ==>
                 e.value.0.passCount == if rep.passCount.Some? then Count(rep.passCount.value) else NoKey)
           && e.value.0.totalTestDuration == ReportTests(rep).value.0
           && e.value.1 == Some(ReportTests(rep).value.1))
  {
    var rep := ReportFor(reports, JobName(b.fullDisplayName), PyStr.ParseInt(b.id).value).value;
    var base := BuildData(b.id, b.result, b.duration, b.estimatedDuration, ScanActions(b.actions).value,
                          CommitsOf(b.items, |b.items|), NullCount, NullCount, NullCount, None);
    assert BuildEntry(b, reports) == WithReportData(base, rep);
  }

  /** The fields copied from the build, its revision and its commits. */
  lemma BuildFields(b: Build, reports: TestReports)
    requires BuildEntry(b, reports).Some?
    ensures var d := BuildEntry(b, reports).value.0;
      && d.buildNumber == b.id && d.buildResult == b.result
      && d.buildDuration == b.duration && d.buildEstimatedDuration == b.estimatedDuration
      && ScanActions(b.actions) == Some(d.revision) && d.commitIdsTs == CommitsOf(b.items, |b.items|)
  {
  }

  /** The report shapes: an aggregated report sums its children's durations
      and joins their rows, a `TestResult` is read as one, any other class
      has no duration and no rows. */
  lemma ReportShapes(rep: Report)
    ensures ClassSuffix(rep.reportClass) == "SurefireAggregatedReport" && rep.children.Some? ==>
      var cs := rep.children.value;
      && ReportTests(rep) == Some((ChildDuration(cs, |cs|), ChildRows(cs, |cs|)))
      && (ChildDuration(cs, |cs|).None? <==> forall i :: 0 <= i < |cs| ==> cs[i].None?)
      && (ChildDuration(cs, |cs|).Some? ==> ChildDuration(cs, |cs|).value == DurationSum(cs, |cs|))
    ensures ClassSuffix(rep.reportClass) == "TestResult" && rep.own.Some? ==>
      ReportTests(rep) == Some((Some(rep.own.value.duration), ReportRows(rep.own.value.suites, |rep.own.value.suites|)))
    ensures ClassSuffix(rep.reportClass) != "SurefireAggregatedReport" && ClassSuffix(rep.reportClass) != "TestResult" ==>
      ReportTests(rep) == Some((None, []))
  {
    if rep.children.Some? {
      ChildDurationSum(rep.children.value, |rep.children.value|);
    }
  }
}

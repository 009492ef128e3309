/**
 * The measure history of a SonarCloud project: the paged queries of the web
 * API (`query_server`), the merge of the pages of a measure history
 * (`concat_measures`), the per-metric columns (`extract_measures_value`) and
 * the table assembled for one project (`process_project`).
 *
 * The web server is a parameter: a function from the request sent to the
 * response received.
 */
module SonarMeasures {
  import opened Wrappers
  import Sorting
  import SonarValues
  import MetricCatalogue

  type Value = SonarValues.Value

  /** Elements per page (`ps`). */
  const PageSize: int := 200

  /** Metrics fetched by one measures query. */
  const BatchSize: int := 15

  // ------------------------------------------------------------ records

  /** One point of a measure's history; `value` is `None` when the point has no `value` key. */
  datatype HistoryEntry = HistoryEntry(date: Option<string>, value: Option<string>)

  datatype Measure = Measure(metric: string, history: seq<HistoryEntry>)

  /** A project analysis; a field is `None` when its key is absent. */
  datatype Analysis = Analysis(revision: Option<string>, date: Option<string>, projectVersion: Option<string>)

  // ------------------------------------------------------------- paging

  datatype Kind = Projects | Metrics | Analyses | Measures

  /** The query parameters: page `p`, page size `ps`, the project (`project`
      for analyses, `component` for measures) and, for measures only, the
      comma-joined metric keys. */
  datatype Request = Request(kind: Kind, page: int, pageSize: int, projectKey: Option<string>, metrics: Option<string>)

  /** An HTTP response: its status code, the element list and the reported total. */
  datatype Response<T> = Response(status: int, elements: seq<T>, total: int)

  /** What a query gives: the elements, `None` (an HTTP error on the first
      page), or an exception. */
  datatype Fetch<T> = Elements(items: seq<T>) | NoResult | Crash

  /** `','.join(metric_list)` */
  function JoinMetrics(keys: seq<string>): string
  {
    if |keys| == 0 then "" else if |keys| == 1 then keys[0] else keys[0] + "," + JoinMetrics(keys[1..])
  }

  function RequestFor(kind: Kind, page: int, projectKey: Option<string>, metricList: seq<string>): (req: Request)
    ensures req.page == page && req.pageSize == PageSize && req.kind == kind
    ensures req.metrics.Some? <==> kind == Measures
    ensures kind == Measures ==> req.metrics == Some(JoinMetrics(metricList))
  {
    Request(kind, page, PageSize,
            if kind == Analyses || kind == Measures then projectKey else None,
            if kind == Measures then Some(JoinMetrics(metricList)) else None)
  }

  /** `query_server(type, page, project_key, metric_list)`, where `combine`
      joins a page to the pages after it (`+`, or `concat_measures` for
      measures). A continuation request carries no metric list. `depth` is
      the recursion the interpreter still allows; past it the query raises. */
  function Pages<T>(server: Request -> Response<T>, kind: Kind, page: nat, projectKey: Option<string>,
                    metricList: seq<string>, combine: (seq<T>, seq<T>) -> seq<T>, depth: nat): Fetch<T>
    decreases depth
  {
    if depth == 0 then Crash
    else
      var resp := server(RequestFor(kind, page, projectKey, metricList));
      if resp.status != 200 then NoResult
      else if page * PageSize < resp.total then
        match Pages(server, kind, page + 1, projectKey, [], combine, depth - 1)
        case Elements(rest) => Elements(combine(resp.elements, rest))
        case _ => Crash
      else Elements(resp.elements)
  }

  /** `replies` are the element lists and totals of pages `page`,
      `page + 1`, ... as the server answers them: every page answers 200, and
      a page is followed by another exactly when the elements up to it are
      fewer than its reported total. Only the first request names the metrics. */
  ghost predicate Served<T>(server: Request -> Response<T>, kind: Kind, page: nat, projectKey: Option<string>,
                                 metricList: seq<string>, replies: seq<(seq<T>, int)>)
  {
    && |replies| > 0
    && forall k :: 0 <= k < |replies| ==>
         && server(RequestFor(kind, page + k, projectKey, if k == 0 then metricList else []))
              == Response(200, replies[k].0, replies[k].1)
         && ((page + k) * PageSize < replies[k].1 <==> k < |replies| - 1)
  }

  /** The pages joined front to back by `combine`. */
  function Fold<T>(combine: (seq<T>, seq<T>) -> seq<T>, replies: seq<(seq<T>, int)>): seq<T>
    requires |replies| > 0
    decreases |replies|
  {
    if |replies| == 1 then replies[0].0 else combine(replies[0].0, Fold(combine, replies[1..]))
  }

  lemma ServedTail<T>(server: Request -> Response<T>, kind: Kind, page: nat, projectKey: Option<string>,
                      metricList: seq<string>, replies: seq<(seq<T>, int)>)
    requires Served(server, kind, page, projectKey, metricList, replies) && |replies| > 1
    ensures Served(server, kind, page + 1, projectKey, [], replies[1..])
  {
    forall k | 0 <= k < |replies| - 1
      ensures server(RequestFor(kind, page + 1 + k, projectKey, [])) == Response(200, replies[1..][k].0, replies[1..][k].1)
      ensures (page + 1 + k) * PageSize < replies[1..][k].1 <==> k < |replies| - 2
    {
      assert replies[1..][k] == replies[k + 1];
    }
  }

  /** A server that answers a run of pages as `replies` does gives the pages
      joined in page order, as long as the recursion is deep enough. */
  lemma {:induction false} PagesServed<T>(server: Request -> Response<T>, kind: Kind, page: nat,
      projectKey: Option<string>, metricList: seq<string>, combine: (seq<T>, seq<T>) -> seq<T>,
      depth: nat, replies: seq<(seq<T>, int)>)
    requires Served(server, kind, page, projectKey, metricList, replies) && |replies| <= depth
    ensures Pages(server, kind, page, projectKey, metricList, combine, depth) == Elements(Fold(combine, replies))
    decreases |replies|
  {
    assert server(RequestFor(kind, page, projectKey, metricList)) == Response(200, replies[0].0, replies[0].1);
    if |replies| > 1 {
      ServedTail(server, kind, page, projectKey, metricList, replies);
      PagesServed(server, kind, page + 1, projectKey, [], combine, depth - 1, replies[1..]);
    }
  }

  /** Conversely, every successful query was answered by such a run of pages. */
  lemma {:induction false} PagesOnlyServed<T(!new)>(server: Request -> Response<T>, kind: Kind, page: nat,
      projectKey: Option<string>, metricList: seq<string>, combine: (seq<T>, seq<T>) -> seq<T>, depth: nat)
    requires Pages(server, kind, page, projectKey, metricList, combine, depth).Elements?
    ensures exists replies :: (|replies| <= depth && Served(server, kind, page, projectKey, metricList, replies)
      && Pages(server, kind, page, projectKey, metricList, combine, depth) == Elements(Fold(combine, replies)))
    decreases depth
  {
    var resp := server(RequestFor(kind, page, projectKey, metricList));
    if page * PageSize < resp.total {
      PagesOnlyServed(server, kind, page + 1, projectKey, [], combine, depth - 1);
      var rest :| |rest| <= depth - 1 && Served(server, kind, page + 1, projectKey, [], rest)
        && Pages(server, kind, page + 1, projectKey, [], combine, depth - 1) == Elements(Fold(combine, rest));
      var replies := [(resp.elements, resp.total)] + rest;
      assert replies[1..] == rest;
      forall k | 0 <= k < |replies|
        ensures server(RequestFor(kind, page + k, projectKey, if k == 0 then metricList else []))
              == Response(200, replies[k].0, replies[k].1)
        ensures (page + k) * PageSize < replies[k].1 <==> k < |replies| - 1
      {
        if k > 0 {
          assert replies[k] == rest[k - 1];
        }
      }
      assert Served(server, kind, page, projectKey, metricList, replies);
    } else {
      var replies := [(resp.elements, resp.total)];
      assert Served(server, kind, page, projectKey, metricList, replies);
    }
  }

  /** An error status on the first page gives `None`. */
  lemma FirstPageFails<T>(server: Request -> Response<T>, kind: Kind, projectKey: Option<string>,
                          metricList: seq<string>, combine: (seq<T>, seq<T>) -> seq<T>, depth: nat)
    requires depth > 0 && server(RequestFor(kind, 1, projectKey, metricList)).status != 200
    ensures Pages(server, kind, 1, projectKey, metricList, combine, depth) == NoResult
  {
  }

  /** An error status on a continuation page raises (`list + None`, `zip(list, None)`). */
  lemma LaterPageFails<T>(server: Request -> Response<T>, kind: Kind, projectKey: Option<string>,
                          metricList: seq<string>, combine: (seq<T>, seq<T>) -> seq<T>, depth: nat)
    requires depth > 1
    requires var first := server(RequestFor(kind, 1, projectKey, metricList));
      first.status == 200 && PageSize < first.total
    requires server(RequestFor(kind, 2, projectKey, [])).status != 200
    ensures Pages(server, kind, 1, projectKey, metricList, combine, depth) == Crash
  {
  }

  // ----------------------------------------------------- concat_measures

  /** `concat_measures(m1, m2)` on values: the i-th history of `m1` gets the
      i-th history of `m2` appended, for every i both lists have. */
  function ZipConcat(m1: seq<Measure>, m2: seq<Measure>): (r: seq<Measure>)
    ensures |r| == |m1|
    ensures forall i :: 0 <= i < |m1| ==> r[i].metric == m1[i].metric
    ensures forall i :: 0 <= i < |m1| && i < |m2| ==> r[i].history == m1[i].history + m2[i].history
    ensures forall i :: |m2| <= i < |m1| ==> r[i] == m1[i]
    decreases |m1|
  {
    if |m1| == 0 || |m2| == 0 then m1
    else [m1[0].(history := m1[0].history + m2[0].history)] + ZipConcat(m1[1..], m2[1..])
  }

  /** `concat_measures(measures_1, measures_2)`: updates the histories of
      `measures_1` in place. */
  method ConcatMeasures(measures1: array<Measure>, measures2: seq<Measure>)
    modifies measures1
    ensures measures1[..] == ZipConcat(old(measures1[..]), measures2)
  {
    var i := 0;
    while i < measures1.Length && i < |measures2|
      invariant 0 <= i <= measures1.Length && i <= |measures2|
      invariant forall k :: 0 <= k < i ==>
        measures1[k] == old(measures1[k]).(history := old(measures1[k]).history + measures2[k].history)
      invariant forall k :: i <= k < measures1.Length ==> measures1[k] == old(measures1[k])
    {
      measures1[i] := measures1[i].(history := measures1[i].history + measures2[i].history);
      i := i + 1;
    }
  }

  /** The analyses of a project, every page appended. */
  function QueryAnalyses(server: Request -> Response<Analysis>, projectKey: string, depth: nat): Fetch<Analysis>
  {
    Pages(server, Analyses, 1, Some(projectKey), [], (a: seq<Analysis>, b: seq<Analysis>) => a + b, depth)
  }

  /** The measure histories of `metricList`, later pages merged into the first. */
  function QueryMeasures(server: Request -> Response<Measure>, projectKey: string, metricList: seq<string>,
                         depth: nat): Fetch<Measure>
  {
    Pages(server, Measures, 1, Some(projectKey), metricList, ZipConcat, depth)
  }

  /** The histories of measure `i` on every page, front to back. */
  function HistoryAcross(replies: seq<(seq<Measure>, int)>, i: nat): seq<HistoryEntry>
    requires forall k :: 0 <= k < |replies| ==> i < |replies[k].0|
    decreases |replies|
  {
    if |replies| == 0 then [] else replies[0].0[i].history + HistoryAcross(replies[1..], i)
  }

  /** When every page lists the same metrics, the merged measure list keeps
      the metrics of the first page and gives each the histories of all
      pages, in page order. */
  lemma {:induction false} FoldMeasures(replies: seq<(seq<Measure>, int)>)
    requires |replies| > 0
    requires forall k :: 0 <= k < |replies| ==> |replies[k].0| == |replies[0].0|
    requires forall k, i :: 0 <= k < |replies| && 0 <= i < |replies[0].0| ==> replies[k].0[i].metric == replies[0].0[i].metric
    ensures var r := Fold(ZipConcat, replies);
      && |r| == |replies[0].0|
      && forall i :: 0 <= i < |r| ==> r[i].metric == replies[0].0[i].metric && r[i].history == HistoryAcross(replies, i)
    decreases |replies|
  {
    if |replies| > 1 {
      var tail := replies[1..];
      forall k | 0 <= k < |tail| ensures |tail[k].0| == |tail[0].0| {
        assert tail[k] == replies[k + 1];
      }
      forall k, i | 0 <= k < |tail| && 0 <= i < |tail[0].0| ensures tail[k].0[i].metric == tail[0].0[i].metric {
        assert tail[k] == replies[k + 1] && tail[0] == replies[1];
        assert replies[k + 1].0[i].metric == replies[0].0[i].metric == replies[1].0[i].metric;
      }
      FoldMeasures(tail);
    }
  }

  /** With `+` as the join, a fetch is the elements of all pages in page order. */
  function Flatten<T>(replies: seq<(seq<T>, int)>): seq<T>
    decreases |replies|
  {
    if |replies| == 0 then [] else replies[0].0 + Flatten(replies[1..])
  }

  lemma {:induction false} FoldAppend<T>(replies: seq<(seq<T>, int)>)
    requires |replies| > 0
    ensures Fold((a: seq<T>, b: seq<T>) => a + b, replies) == Flatten(replies)
    decreases |replies|
  {
    if |replies| > 1 {
      FoldAppend(replies[1..]);
    } else {
      assert replies[1..] == [];
    }
  }

  // ---------------------------------------------- extract_measures_value

  /** A column table: `columns` in order and each column's values. */
  type Data = map<string, seq<Value>>

  /** `None if 'value' not in x else safe_cast(x['value'], type)` */
  function CastEntry(e: HistoryEntry, metricType: string): Value
  {
    if e.value.None? then SonarValues.Null else SonarValues.SafeCast(e.value, metricType)
  }

  /** The history cast point by point and then reversed, newest point first. */
  function ColumnOf(history: seq<HistoryEntry>, metricType: string): (col: seq<Value>)
    ensures |col| == |history|
    decreases |history|
  {
    if |history| == 0 then [] else ColumnOf(history[1..], metricType) + [CastEntry(history[0], metricType)]
  }

  lemma {:induction false} ColumnOfAt(history: seq<HistoryEntry>, metricType: string, k: nat)
    requires k < |history|
    ensures ColumnOf(history, metricType)[k] == CastEntry(history[|history| - 1 - k], metricType)
    decreases |history|
  {
    if k < |history| - 1 {
      ColumnOfAt(history[1..], metricType, k);
      assert history[1..][|history| - 2 - k] == history[|history| - 1 - k];
    }
  }

  /** The columns and data after the first `n` measures, or `None` when one
      of them names a metric missing from the catalogue (`KeyError`). */
  function ExtractUpTo(measures: seq<Measure>, catalogue: map<string, MetricCatalogue.Entry>,
                       columns: seq<string>, data: Data, n: nat): (r: Option<(seq<string>, Data)>)
    requires n <= |measures|
    ensures r.Some? <==> forall i :: 0 <= i < n ==> measures[i].metric in catalogue
    ensures r.Some? ==> |r.value.0| == |columns| + n
    decreases n
  {
    if n == 0 then Some((columns, data))
    else
      match ExtractUpTo(measures, catalogue, columns, data, n - 1)
      case None => None
      case Some(cd) =>
        var m := measures[n - 1];
        if m.metric !in catalogue then None
        else Some((cd.0 + [m.metric], cd.1[m.metric := ColumnOf(m.history, catalogue[m.metric].metricType)]))
  }

  /** `extract_measures_value(measures, metrics_order_type, columns, data)` */
  method ExtractMeasuresValue(measures: seq<Measure>, catalogue: map<string, MetricCatalogue.Entry>,
                              columns: seq<string>, data: Data) returns (r: Option<(seq<string>, Data)>)
    ensures r == ExtractUpTo(measures, catalogue, columns, data, |measures|)
  {
    var cols, d := columns, data;
    var i := 0;
    while i < |measures|
      invariant 0 <= i <= |measures|
      invariant ExtractUpTo(measures, catalogue, columns, data, i) == Some((cols, d))
    {
      var metric := measures[i].metric;
      if metric !in catalogue {
        return None;
      }
      var metricType := catalogue[metric].metricType;
      cols := cols + [metric];
      var values := ColumnOf(measures[i].history, metricType);
      d := d[metric := values];
      i := i + 1;
    }
    return Some((cols, d));
  }

  /** The metrics are appended to the columns in measure order. */
  lemma {:induction false} ExtractColumns(measures: seq<Measure>, catalogue: map<string, MetricCatalogue.Entry>,
                                          columns: seq<string>, data: Data, n: nat)
    requires n <= |measures| && ExtractUpTo(measures, catalogue, columns, data, n).Some?
    ensures var cols := ExtractUpTo(measures, catalogue, columns, data, n).value.0;
      cols[..|columns|] == columns && forall i :: 0 <= i < n ==> cols[|columns| + i] == measures[i].metric
    decreases n
  {
    if n > 0 {
      ExtractColumns(measures, catalogue, columns, data, n - 1);
    }
  }

  /** A metric's column is the reversed, cast history of the last measure
      naming it. */
  lemma {:induction false} ExtractLastWins(measures: seq<Measure>, catalogue: map<string, MetricCatalogue.Entry>,
                                           columns: seq<string>, data: Data, n: nat, i: nat)
    requires i < n <= |measures| && ExtractUpTo(measures, catalogue, columns, data, n).Some?
    requires forall j :: i < j < n ==> measures[j].metric != measures[i].metric
    ensures var d := ExtractUpTo(measures, catalogue, columns, data, n).value.1;
      var m := measures[i];
      m.metric in d && d[m.metric] == ColumnOf(m.history, catalogue[m.metric].metricType)
    decreases n
  {
    if i < n - 1 {
      ExtractLastWins(measures, catalogue, columns, data, n - 1, i);
    }
  }

  /** A column no measure names keeps its data. */
  lemma {:induction false} ExtractKeeps(measures: seq<Measure>, catalogue: map<string, MetricCatalogue.Entry>,
                                        columns: seq<string>, data: Data, n: nat, key: string)
    requires n <= |measures| && ExtractUpTo(measures, catalogue, columns, data, n).Some?
    requires forall j :: 0 <= j < n ==> measures[j].metric != key
    ensures var d := ExtractUpTo(measures, catalogue, columns, data, n).value.1;
      (key in d <==> key in data) && (key in data ==> d[key] == data[key])
    decreases n
  {
    if n > 0 {
      ExtractKeeps(measures, catalogue, columns, data, n - 1, key);
    }
  }

  // ------------------------------------------------------ process_project

  /** `metrics[i:i+15]` for batch `b`, that is for `i = 15 * b`. */
  function Batch(metrics: seq<string>, b: nat): seq<string>
    requires BatchSize * b <= |metrics|
  {
    var i := BatchSize * b;
    metrics[i..if i + BatchSize <= |metrics| then i + BatchSize else |metrics|]
  }

  /** Number of iterations of `range(0, len(metrics), 15)`. */
  function BatchCount(metrics: seq<string>): nat
  {
    (|metrics| + BatchSize - 1) / BatchSize
  }

  lemma BatchInRange(metrics: seq<string>, b: nat)
    requires b < BatchCount(metrics)
    ensures BatchSize * b < |metrics|
  {
  }

  /** Each batch holds one to fifteen metrics. */
  lemma BatchSizes(metrics: seq<string>, b: nat)
    requires b < BatchCount(metrics)
    ensures BatchSize * b <= |metrics| && 0 < |Batch(metrics, b)| <= BatchSize
  {
    BatchInRange(metrics, b);
  }

  /** The first `n` batches the fetch loop queries, joined. */
  function Batches(metrics: seq<string>, n: nat): seq<string>
    requires n <= BatchCount(metrics)
    decreases n
  {
    if n == 0 then [] else BatchInRange(metrics, n - 1); Batches(metrics, n - 1) + Batch(metrics, n - 1)
  }

  /** The first `n` batches are the metric list up to `15 * n`. */
  lemma {:induction false} BatchesPrefix(metrics: seq<string>, n: nat)
    requires n <= BatchCount(metrics)
    ensures Batches(metrics, n) == metrics[..if BatchSize * n <= |metrics| then BatchSize * n else |metrics|]
    decreases n
  {
    if n > 0 {
      BatchInRange(metrics, n - 1);
      BatchesPrefix(metrics, n - 1);
      var i := BatchSize * (n - 1);
      var j := if i + BatchSize <= |metrics| then i + BatchSize else |metrics|;
      assert metrics[..j] == metrics[..i] + metrics[i..j];
    }
  }

  /** Joined back together, all the batches of `range(0, len(metrics), 15)`
      are the metric list; an empty list has no batch. */
  lemma BatchesCover(metrics: seq<string>)
    ensures Batches(metrics, BatchCount(metrics)) == metrics
    ensures |metrics| == 0 <==> BatchCount(metrics) == 0
  {
    BatchesPrefix(metrics, BatchCount(metrics));
    assert metrics[..|metrics|] == metrics;
  }

  /** The measures of the first `n` batches, concatenated; a batch that does
      not give a list raises (`measures + None`). */
  function FetchBatches(server: Request -> Response<Measure>, projectKey: string, metrics: seq<string>,
                        n: nat, depth: nat): (r: Fetch<Measure>)
    requires n <= BatchCount(metrics)
    ensures r.Elements? || r.Crash?
    decreases n
  {
    if n == 0 then Elements([])
    else
      BatchInRange(metrics, n - 1);
      match FetchBatches(server, projectKey, metrics, n - 1, depth)
      case Elements(ms) =>
        (match QueryMeasures(server, projectKey, Batch(metrics, n - 1), depth)
         case Elements(more) => Elements(ms + more)
         case _ => Crash)
      case _ => Crash
  }

  /** The catalogue position of a measure's metric (`metrics_order_type[x['metric']][0]`). */
  function OrderOf(catalogue: map<string, MetricCatalogue.Entry>, m: Measure): int
  {
    if m.metric in catalogue then catalogue[m.metric].order else 0
  }

  /** "Not after" in catalogue order. */
  function ByOrder(catalogue: map<string, MetricCatalogue.Entry>): (Measure, Measure) -> bool
  {
    (a: Measure, b: Measure) => OrderOf(catalogue, a) <= OrderOf(catalogue, b)
  }

  /** `measures.sort(key=...)`: a permutation of the measures in catalogue order. */
  function SortByCatalogue(ms: seq<Measure>, catalogue: map<string, MetricCatalogue.Entry>): (r: seq<Measure>)
    ensures multiset(r) == multiset(ms)
    ensures forall i, j :: 0 <= i < j < |r| ==> OrderOf(catalogue, r[i]) <= OrderOf(catalogue, r[j])
  {
    var le := ByOrder(catalogue);
    assert Sorting.Total(le);
    assert Sorting.Transitive(le);
    Sorting.SortBySorted(ms, le);
    Sorting.SortBy(ms, le)
  }

  const LeadingColumns: seq<string> := ["project", "version", "date", "revision"]

  /** A field of the analysis as a cell: text, or `None`. */
  function TextCell(field: Option<string>): Value
  {
    if field.None? then SonarValues.Null else SonarValues.Text(field.value)
  }

  /** A parsed date as a cell; `process_datetime` raising has no cell. */
  function DateCell(t: SonarValues.Moment): Value
  {
    if t.At? then SonarValues.Time(t.seconds) else SonarValues.Null
  }

  /** What `process_project` produces for one project: nothing when it has
      no analyses, the table it writes, or an exception. */
  datatype ProjectTable = NoAnalyses | Table(columns: seq<string>, data: Data) | Aborted

  /** The `project` column: the key once per analysis. */
  function ProjectColumn(projectKey: string, n: nat): (col: seq<Value>)
    ensures |col| == n && forall k :: 0 <= k < n ==> col[k] == SonarValues.Text(projectKey)
  {
    seq(n, _ => SonarValues.Text(projectKey))
  }

  function VersionColumn(analyses: seq<Analysis>): (col: seq<Value>)
    ensures |col| == |analyses| && forall k :: 0 <= k < |analyses| ==> col[k] == TextCell(analyses[k].projectVersion)
  {
    seq(|analyses|, k requires 0 <= k < |analyses| => TextCell(analyses[k].projectVersion))
  }

  function DateColumn(analyses: seq<Analysis>): (col: seq<Value>)
    ensures |col| == |analyses|
    ensures forall k :: 0 <= k < |analyses| ==> col[k] == DateCell(SonarValues.ProcessDatetime(analyses[k].date))
  {
    seq(|analyses|, k requires 0 <= k < |analyses| => DateCell(SonarValues.ProcessDatetime(analyses[k].date)))
  }

  function RevisionColumn(analyses: seq<Analysis>): (col: seq<Value>)
    ensures |col| == |analyses| && forall k :: 0 <= k < |analyses| ==> col[k] == TextCell(analyses[k].revision)
  {
    seq(|analyses|, k requires 0 <= k < |analyses| => TextCell(analyses[k].revision))
  }

  /** The data of the four leading columns. */
  function LeadingData(projectKey: string, analyses: seq<Analysis>): Data
  {
    map["project" := ProjectColumn(projectKey, |analyses|), "version" := VersionColumn(analyses),
        "date" := DateColumn(analyses), "revision" := RevisionColumn(analyses)]
  }

  /** No analysis date makes `process_datetime` raise. */
  predicate DatesParse(analyses: seq<Analysis>)
  {
    forall k :: 0 <= k < |analyses| ==> !SonarValues.ProcessDatetime(analyses[k].date).Raises?
  }

  /** Every measure is of a catalogued metric. */
  predicate AllCatalogued(ms: seq<Measure>, catalogue: map<string, MetricCatalogue.Entry>)
  {
    forall i :: 0 <= i < |ms| ==> ms[i].metric in catalogue
  }

  /** The table assembled from the analyses, the catalogue and the fetched
      measures; a measure of an uncatalogued metric makes the sort raise. */
  function Assemble(projectKey: string, analyses: seq<Analysis>, catalogue: map<string, MetricCatalogue.Entry>,
                    ms: seq<Measure>): ProjectTable
  {
    if !AllCatalogued(ms, catalogue) then Aborted
    else
      var sorted := SortByCatalogue(ms, catalogue);
      match ExtractUpTo(sorted, catalogue, LeadingColumns, LeadingData(projectKey, analyses), |sorted|)
      case Some(cd) => Table(cd.0, cd.1)
      case None => Aborted
  }

  /** `process_project(project, ...)` up to the data frame it writes:
      `NoAnalyses` when the project has none, `Aborted` when a query, the
      catalogue, a date or a metric lookup fails. */
  function ProcessProjectSpec(projectKey: string, analysesServer: Request -> Response<Analysis>,
                              measuresServer: Request -> Response<Measure>, catalogueText: Option<string>,
                              depth: nat): ProjectTable
  {
    match QueryAnalyses(analysesServer, projectKey, depth)
    case Elements(analyses) =>
      if |analyses| == 0 then NoAnalyses
      else if !DatesParse(analyses) then Aborted
      else
        (match MetricCatalogue.LoadSpec(catalogueText)
         case Some(c) =>
           var metrics := c.keys;
           (match FetchBatches(measuresServer, projectKey, metrics, BatchCount(metrics), depth)
            case Elements(ms) => Assemble(projectKey, analyses, c.entries, ms)
            case _ => Aborted)
         case None => Aborted)
    case _ => Aborted
  }

  /** A failed batch fails the whole fetch. */
  lemma {:induction false} FetchCrashPersists(server: Request -> Response<Measure>, projectKey: string,
                                              metrics: seq<string>, n: nat, m: nat, depth: nat)
    requires n <= m <= BatchCount(metrics)
    requires FetchBatches(server, projectKey, metrics, n, depth).Crash?
    ensures FetchBatches(server, projectKey, metrics, m, depth) == Crash
    decreases m
  {
    if m > n {
      FetchCrashPersists(server, projectKey, metrics, n, m - 1, depth);
    }
  }

  lemma BatchBound(metrics: seq<string>, b: nat)
    ensures BatchSize * b < |metrics| <==> b < BatchCount(metrics)
  {
  }

  /** The loop over the analyses of `process_project`: the version, date and
      revision lists, or `None` when a date raises. */
  method AnalysisColumns(analyses: seq<Analysis>) returns (r: Option<(seq<Value>, seq<Value>, seq<Value>)>)
    ensures r.Some? <==> DatesParse(analyses)
    ensures r.Some? ==> r.value == (VersionColumn(analyses), DateColumn(analyses), RevisionColumn(analyses))
  {
    var revisionList: seq<Value> := [];
    var dateList: seq<Value> := [];
    var versionList: seq<Value> := [];
    var k := 0;
    var raised := false;
    while k < |analyses| && !raised
      invariant 0 <= k <= |analyses|
      invariant raised ==> !DatesParse(analyses)
      invariant DatesParse(analyses[..k])
      invariant versionList == VersionColumn(analyses[..k])
      invariant dateList == DateColumn(analyses[..k])
      invariant revisionList == RevisionColumn(analyses[..k])
      decreases |analyses| - k, if raised then 0 else 1
    {
      AnalysisStep(analyses, k);
      var analysis := analyses[k];
      var date := SonarValues.ProcessDatetime(analysis.date);
      if date.Raises? {
        raised := true;
      } else {
        revisionList := revisionList + [TextCell(analysis.revision)];
        dateList := dateList + [DateCell(date)];
        versionList := versionList + [TextCell(analysis.projectVersion)];
        k := k + 1;
      }
    }
    if raised {
      return None;
    }
    assert analyses[..k] == analyses;
    return Some((versionList, dateList, revisionList));
  }

  /** One more analysis: each column gains that analysis's cell, and the dates
      of the longer prefix parse exactly when those of the shorter one do and
      the new date does. */
  lemma AnalysisStep(analyses: seq<Analysis>, k: nat)
    requires k < |analyses|
    ensures var a, front, next := analyses[k], analyses[..k], analyses[..k + 1];
      && VersionColumn(next) == VersionColumn(front) + [TextCell(a.projectVersion)]
      && DateColumn(next) == DateColumn(front) + [DateCell(SonarValues.ProcessDatetime(a.date))]
      && RevisionColumn(next) == RevisionColumn(front) + [TextCell(a.revision)]
      && (DatesParse(next) <==> DatesParse(front) && !SonarValues.ProcessDatetime(a.date).Raises?)
      && (SonarValues.ProcessDatetime(a.date).Raises? ==> !DatesParse(analyses))
  {
    var front, next := analyses[..k], analyses[..k + 1];
    assert next == front + [analyses[k]];
    VersionColumnSnoc(front, analyses[k]);
    DateColumnSnoc(front, analyses[k]);
    RevisionColumnSnoc(front, analyses[k]);
    DatesParseSnoc(front, analyses[k]);
  }

  lemma VersionColumnSnoc(front: seq<Analysis>, a: Analysis)
    ensures VersionColumn(front + [a]) == VersionColumn(front) + [TextCell(a.projectVersion)]
  {
    var next := front + [a];
    assert forall j :: 0 <= j < |front| ==> next[j] == front[j];
  }

  lemma DateColumnSnoc(front: seq<Analysis>, a: Analysis)
    ensures DateColumn(front + [a]) == DateColumn(front) + [DateCell(SonarValues.ProcessDatetime(a.date))]
  {
    var next := front + [a];
    assert forall j :: 0 <= j < |front| ==> next[j] == front[j];
  }

  lemma RevisionColumnSnoc(front: seq<Analysis>, a: Analysis)
    ensures RevisionColumn(front + [a]) == RevisionColumn(front) + [TextCell(a.revision)]
  {
    var next := front + [a];
    assert forall j :: 0 <= j < |front| ==> next[j] == front[j];
  }

  lemma DatesParseSnoc(front: seq<Analysis>, a: Analysis)
    ensures DatesParse(front + [a]) <==> DatesParse(front) && !SonarValues.ProcessDatetime(a.date).Raises?
  {
    var next := front + [a];
    assert forall j :: 0 <= j < |front| ==> next[j] == front[j];
    assert next[|front|] == a;
  }

  /** The loop over the metric batches of `process_project`. */
  method FetchMeasures(server: Request -> Response<Measure>, projectKey: string, metrics: seq<string>,
                       depth: nat) returns (r: Fetch<Measure>)
    ensures r == FetchBatches(server, projectKey, metrics, BatchCount(metrics), depth)
  {
    r := Elements([]);
    var i := 0;
    ghost var b := 0;
    while i < |metrics| && r.Elements?
      invariant i == BatchSize * b && b <= BatchCount(metrics)
      invariant r == FetchBatches(server, projectKey, metrics, b, depth)
    {
      BatchBound(metrics, b);
      var batch := metrics[i..if i + BatchSize <= |metrics| then i + BatchSize else |metrics|];
      assert batch == Batch(metrics, b);
      var got := QueryMeasures(server, projectKey, batch, depth);
      if got.Elements? {
        r := Elements(r.items + got.items);
      } else {
        r := Crash;
      }
      i := i + BatchSize;
      b := b + 1;
    }
    BatchBound(metrics, b);
    if r.Crash? {
      FetchCrashPersists(server, projectKey, metrics, b, BatchCount(metrics), depth);
    }
  }

  /** `process_project(project, ...)`: the analyses and measures are queried
      through the two servers, the catalogue is read from its text. */
  method ProcessProject(projectKey: string, analysesServer: Request -> Response<Analysis>,
                        measuresServer: Request -> Response<Measure>, catalogueText: Option<string>,
                        depth: nat) returns (r: ProjectTable)
    ensures r == ProcessProjectSpec(projectKey, analysesServer, measuresServer, catalogueText, depth)
  {
    var fetched := QueryAnalyses(analysesServer, projectKey, depth);
    if !fetched.Elements? {
      return Aborted;
    }
    var analyses := fetched.items;
    if |analyses| == 0 {
      return NoAnalyses;
    }
    var lists := AnalysisColumns(analyses);
    if lists.None? {
      return Aborted;
    }
    var loaded := MetricCatalogue.LoadMetrics(catalogueText);
    if loaded.None? {
      return Aborted;
    }
    var catalogue := loaded.value.entries;
    var measures := FetchMeasures(measuresServer, projectKey, loaded.value.keys, depth);
    if !measures.Elements? {
      return Aborted;
    }
    var ms := measures.items;
    if exists j :: 0 <= j < |ms| && ms[j].metric !in catalogue {
      return Aborted;
    }
    var sorted := SortByCatalogue(ms, catalogue);
    var data := map["project" := ProjectColumn(projectKey, |analyses|), "version" := lists.value.0,
                    "date" := lists.value.1, "revision" := lists.value.2];
    var extracted := ExtractMeasuresValue(sorted, catalogue, LeadingColumns, data);
    if extracted.None? {
      return Aborted;
    }
    return Table(extracted.value.0, extracted.value.1);
  }

  // ----------------------------------------------- what the table holds

  /** A project with no analyses writes nothing. */
  lemma NoAnalysesNoTable(projectKey: string, analysesServer: Request -> Response<Analysis>,
                          measuresServer: Request -> Response<Measure>, catalogueText: Option<string>, depth: nat)
    requires QueryAnalyses(analysesServer, projectKey, depth) == Elements([])
    ensures ProcessProjectSpec(projectKey, analysesServer, measuresServer, catalogueText, depth) == NoAnalyses
  {
  }

  /** The sorted measures are the fetched ones, so they are all catalogued too. */
  lemma SortedCatalogued(ms: seq<Measure>, catalogue: map<string, MetricCatalogue.Entry>)
    requires AllCatalogued(ms, catalogue)
    ensures AllCatalogued(SortByCatalogue(ms, catalogue), catalogue)
  {
    var sorted := SortByCatalogue(ms, catalogue);
    forall i | 0 <= i < |sorted| ensures sorted[i].metric in catalogue {
      assert sorted[i] in multiset(ms);
    }
  }

  /** Once the metrics found are all catalogued, the table is always built. */
  lemma AssembleTable(projectKey: string, analyses: seq<Analysis>, catalogue: map<string, MetricCatalogue.Entry>,
                      ms: seq<Measure>)
    ensures Assemble(projectKey, analyses, catalogue, ms).Table? <==> AllCatalogued(ms, catalogue)
  {
    if AllCatalogued(ms, catalogue) {
      SortedCatalogued(ms, catalogue);
    }
  }

  /** The columns are project, version, date and revision, then one per
      measure, in catalogue order, each the metric of a fetched measure. */
  lemma AssembleColumns(projectKey: string, analyses: seq<Analysis>, catalogue: map<string, MetricCatalogue.Entry>,
                        ms: seq<Measure>)
    requires Assemble(projectKey, analyses, catalogue, ms).Table?
    ensures var cols := Assemble(projectKey, analyses, catalogue, ms).columns;
      && |cols| == |LeadingColumns| + |ms| && cols[..|LeadingColumns|] == LeadingColumns
      && (forall i :: |LeadingColumns| <= i < |cols| ==> cols[i] in catalogue && exists j :: 0 <= j < |ms| && ms[j].metric == cols[i])
      && forall i, j :: |LeadingColumns| <= i < j < |cols| ==> catalogue[cols[i]].order <= catalogue[cols[j]].order
  {
    var sorted := SortByCatalogue(ms, catalogue);
    var data := LeadingData(projectKey, analyses);
    ExtractColumns(sorted, catalogue, LeadingColumns, data, |sorted|);
    SortedCatalogued(ms, catalogue);
    var cols := ExtractUpTo(sorted, catalogue, LeadingColumns, data, |sorted|).value.0;
    MetricColumns(ms, sorted, catalogue, cols, |LeadingColumns|);
  }

  /** Columns after the first `lead` that name, in order, the metrics of a
      sorted permutation of `ms`: each is catalogued, is the metric of a
      measure of `ms`, and comes in catalogue order. */
  lemma MetricColumns(ms: seq<Measure>, sorted: seq<Measure>, catalogue: map<string, MetricCatalogue.Entry>,
                      cols: seq<string>, lead: nat)
    requires multiset(sorted) == multiset(ms) && AllCatalogued(sorted, catalogue)
    requires forall i, j :: 0 <= i < j < |sorted| ==> OrderOf(catalogue, sorted[i]) <= OrderOf(catalogue, sorted[j])
    requires |cols| == lead + |sorted| && forall i :: 0 <= i < |sorted| ==> cols[lead + i] == sorted[i].metric
    ensures forall i :: lead <= i < |cols| ==> cols[i] in catalogue && exists j :: 0 <= j < |ms| && ms[j].metric == cols[i]
    ensures forall i, j :: lead <= i < j < |cols| ==> catalogue[cols[i]].order <= catalogue[cols[j]].order
  {
    forall i | lead <= i < |cols|
      ensures cols[i] in catalogue && exists j :: 0 <= j < |ms| && ms[j].metric == cols[i]
    {
      var s := sorted[i - lead];
      assert cols[i] == s.metric;
      assert s in multiset(ms);
      var j :| 0 <= j < |ms| && ms[j] == s;
    }
    forall i, j | lead <= i < j < |cols| ensures catalogue[cols[i]].order <= catalogue[cols[j]].order {
      assert cols[i] == sorted[i - lead].metric && cols[j] == sorted[j - lead].metric;
      assert OrderOf(catalogue, sorted[i - lead]) <= OrderOf(catalogue, sorted[j - lead]);
    }
  }

  /** The four leading columns, when no metric shares their names: the
      project key once per analysis, then each analysis's version, date and
      revision, with `None` for a missing field. */
  lemma AssembleLeading(projectKey: string, analyses: seq<Analysis>, catalogue: map<string, MetricCatalogue.Entry>,
                        ms: seq<Measure>)
    requires Assemble(projectKey, analyses, catalogue, ms).Table?
    requires forall j :: 0 <= j < |ms| ==> ms[j].metric !in LeadingColumns
    ensures var d := Assemble(projectKey, analyses, catalogue, ms).data;
      && "project" in d && "version" in d && "date" in d && "revision" in d
      && |d["project"]| == |analyses| && |d["version"]| == |analyses|
      && |d["date"]| == |analyses| && |d["revision"]| == |analyses|
      && forall k :: 0 <= k < |analyses| ==>
           && d["project"][k] == SonarValues.Text(projectKey)
           && d["version"][k] == TextCell(analyses[k].projectVersion)
           && d["date"][k] == DateCell(SonarValues.ProcessDatetime(analyses[k].date))
           && d["revision"][k] == TextCell(analyses[k].revision)
  {
    var sorted := SortByCatalogue(ms, catalogue);
    var data := LeadingData(projectKey, analyses);
    forall j | 0 <= j < |sorted| ensures sorted[j].metric !in LeadingColumns {
      assert sorted[j] in multiset(ms);
    }
    var d := ExtractUpTo(sorted, catalogue, LeadingColumns, data, |sorted|).value.1;
    ExtractKeeps(sorted, catalogue, LeadingColumns, data, |sorted|, "project");
    ExtractKeeps(sorted, catalogue, LeadingColumns, data, |sorted|, "version");
    ExtractKeeps(sorted, catalogue, LeadingColumns, data, |sorted|, "date");
    ExtractKeeps(sorted, catalogue, LeadingColumns, data, |sorted|, "revision");
    assert d["project"] == ProjectColumn(projectKey, |analyses|);
    assert d["version"] == VersionColumn(analyses);
    assert d["date"] == DateColumn(analyses);
    assert d["revision"] == RevisionColumn(analyses);
  }

  /** A value whose metric no other position shares occurs once. */
  lemma CountOne(ms: seq<Measure>, i: nat)
    requires i < |ms| && forall j :: 0 <= j < |ms| && j != i ==> ms[j].metric != ms[i].metric
    ensures multiset(ms)[ms[i]] == 1
  {
    var x, head, tail := ms[i], ms[..i], ms[i + 1..];
    assert ms == head + [x] + tail;
    forall y | 0 <= y < |head| ensures head[y] != x {
      assert head[y] == ms[y];
    }
    forall y | 0 <= y < |tail| ensures tail[y] != x {
      assert tail[y] == ms[i + 1 + y];
    }
    assert x !in head && x !in tail;
  }

  /** A value with one copy is found at one position only. */
  lemma OnlyPosition(s: seq<Measure>, p: nat)
    requires p < |s| && multiset(s)[s[p]] == 1
    ensures forall q :: 0 <= q < |s| && q != p ==> s[q] != s[p]
  {
    var x := s[p];
    assert s == s[..p] + [x] + s[p + 1..];
    assert multiset(s)[x] == multiset(s[..p])[x] + 1 + multiset(s[p + 1..])[x];
    forall q | 0 <= q < |s| && q != p ensures s[q] != x {
      if q < p {
        assert s[q] == s[..p][q];
      } else {
        assert s[q] == s[p + 1..][q - p - 1];
      }
    }
  }

  /** A metric measured once gets its history, cast and newest first, as its
      column: one cell per point, `None` where the point has no value. */
  lemma AssembleMetric(projectKey: string, analyses: seq<Analysis>, catalogue: map<string, MetricCatalogue.Entry>,
                       ms: seq<Measure>, i: nat)
    requires Assemble(projectKey, analyses, catalogue, ms).Table?
    requires i < |ms| && forall j :: 0 <= j < |ms| && j != i ==> ms[j].metric != ms[i].metric
    ensures var d := Assemble(projectKey, analyses, catalogue, ms).data;
      var m := ms[i];
      && m.metric in d && m.metric in catalogue
      && d[m.metric] == ColumnOf(m.history, catalogue[m.metric].metricType)
      && |d[m.metric]| == |m.history|
  {
    var sorted := SortByCatalogue(ms, catalogue);
    var data := LeadingData(projectKey, analyses);
    var x := ms[i];
    assert x in multiset(sorted);
    var p :| 0 <= p < |sorted| && sorted[p] == x;
    CountOne(ms, i);
    OnlyPosition(sorted, p);
    forall q | p < q < |sorted| ensures sorted[q].metric != x.metric {
      assert sorted[q] in multiset(ms);
      var j :| 0 <= j < |ms| && ms[j] == sorted[q];
      assert j != i;
    }
    ExtractLastWins(sorted, catalogue, LeadingColumns, data, |sorted|, p);
  }
}

/**
 * The metric catalogue file `all_metrics.txt`: one line per metric,
 * `id - domain - key - type - description`, written sorted by domain and then
 * numeric id (`write_metrics_file`), and read back into a map from metric key
 * to its line number and type (`load_metrics`).
 */
module MetricCatalogue {
  import opened Wrappers
  import PyStr
  import Sorting

  const Sep: string := " - "

  /** A metric record of the metrics API; a field may be missing. */
  datatype Metric = Metric(id: Option<string>, domain: Option<string>, key: Option<string>,
                           metricType: Option<string>, description: Option<string>)

  function OrDefault(field: Option<string>, default: string): string
  {
    if field.Some? then field.value else default
  }

  function KeyText(m: Metric): string { OrDefault(m.key, "No Key") }
  function TypeText(m: Metric): string { OrDefault(m.metricType, "No Type") }

  /** The line written for a metric. */
  function MetricLine(m: Metric): string
  {
    OrDefault(m.id, "No ID") + Sep + OrDefault(m.domain, "No Domain") + Sep + KeyText(m) + Sep
      + TypeText(m) + Sep + OrDefault(m.description, "No Description") + "\n"
  }

  // -------------------------------------------------------- sort order

  /** `int(x['id'])` succeeds. */
  predicate HasIntId(m: Metric)
  {
    m.id.Some? && PyStr.ParseInt(m.id.value).Some?
  }

  function IdValue(m: Metric): int
  {
    if HasIntId(m) then PyStr.ParseInt(m.id.value).value else 0
  }

  function DomainKey(m: Metric): string { OrDefault(m.domain, "None") }

  /** `<` on the sort key `(domain or 'None', int(id))`. */
  predicate KeyLess(a: Metric, b: Metric)
  {
    PyStr.StrLess(DomainKey(a), DomainKey(b)) || (DomainKey(a) == DomainKey(b) && IdValue(a) < IdValue(b))
  }

  /** `a` may stay in front of `b` in a stable sort. */
  predicate KeyLe(a: Metric, b: Metric)
  {
    !KeyLess(b, a)
  }

  lemma KeyLeTotal()
    ensures Sorting.Total(KeyLe)
  {
    forall a: Metric, b: Metric ensures KeyLe(a, b) || KeyLe(b, a) {
      if PyStr.StrLess(DomainKey(a), DomainKey(b)) && PyStr.StrLess(DomainKey(b), DomainKey(a)) {
        PyStr.StrLessTransitive(DomainKey(a), DomainKey(b), DomainKey(a));
        PyStr.StrLessIrreflexive(DomainKey(a));
      }
      if DomainKey(a) == DomainKey(b) {
        PyStr.StrLessIrreflexive(DomainKey(a));
      }
    }
  }

  lemma KeyLeTransitive()
    ensures Sorting.Transitive(KeyLe)
  {
    forall a: Metric, b: Metric, c: Metric | KeyLe(a, b) && KeyLe(b, c) ensures KeyLe(a, c) {
      var da, db, dc := DomainKey(a), DomainKey(b), DomainKey(c);
      if KeyLess(c, a) {
        if PyStr.StrLess(dc, da) {
          if db != da { PyStr.StrLessTotal(da, db); }
          if db != dc { PyStr.StrLessTotal(db, dc); }
          if PyStr.StrLess(da, db) { PyStr.StrLessTransitive(dc, da, db); }
          if PyStr.StrLess(db, dc) { PyStr.StrLessTransitive(db, dc, da); }
        } else {
          if db != da { PyStr.StrLessTotal(da, db); }
        }
      }
    }
  }

  /** `metric_list.sort(key=...)` */
  function SortMetrics(ms: seq<Metric>): (r: seq<Metric>)
    ensures multiset(r) == multiset(ms)
    ensures Sorting.Sorted(r, KeyLe)
  {
    KeyLeTotal();
    KeyLeTransitive();
    Sorting.SortBySorted(ms, KeyLe);
    Sorting.SortBy(ms, KeyLe)
  }

  // ----------------------------------------------------------- writing

  function Concat(lines: seq<string>): string
    decreases |lines|
  {
    if |lines| == 0 then "" else lines[0] + Concat(lines[1..])
  }

  function MetricLines(ms: seq<Metric>): (lines: seq<string>)
    ensures |lines| == |ms| && forall i :: 0 <= i < |ms| ==> lines[i] == MetricLine(ms[i])
    decreases |ms|
  {
    if |ms| == 0 then [] else [MetricLine(ms[0])] + MetricLines(ms[1..])
  }

  /** `write_metrics_file(metric_list)`: the text written to the catalogue,
      or `None` when computing a sort key raises (a missing or non-numeric
      id), in which case nothing is written. */
  function WriteMetricsFile(ms: seq<Metric>): (text: Option<string>)
    ensures text.Some? <==> forall i :: 0 <= i < |ms| ==> HasIntId(ms[i])
  {
    if forall i :: 0 <= i < |ms| ==> HasIntId(ms[i]) then Some(Concat(MetricLines(SortMetrics(ms))))
    else None
  }

  // ----------------------------------------------------------- reading

  /** Universal newlines: `\r\n` and a lone `\r` read as `\n`. */
  function TranslateNewlines(t: string): string
    decreases |t|
  {
    if |t| == 0 then ""
    else if t[0] == '\r' then "\n" + TranslateNewlines(if |t| > 1 && t[1] == '\n' then t[2..] else t[1..])
    else [t[0]] + TranslateNewlines(t[1..])
  }

  /** Length of the first line, its `\n` included. */
  function LineLength(t: string): (n: nat)
    ensures (|t| == 0 ==> n == 0) && (|t| > 0 ==> 1 <= n <= |t|)
    decreases |t|
  {
    if |t| == 0 then 0 else if t[0] == '\n' then 1 else 1 + LineLength(t[1..])
  }

  /** `for line in f`: the lines of the text, each keeping its `\n`. */
  function Lines(t: string): seq<string>
    decreases |t|
  {
    if |t| == 0 then [] else [t[..LineLength(t)]] + Lines(t[LineLength(t)..])
  }

  datatype Entry = Entry(order: nat, metricType: string)

  /** The dictionary built by `load_metrics`. Python keeps a key where it was
      first inserted, so `keys` is in first-occurrence order. */
  datatype Catalogue = Catalogue(keys: seq<string>, entries: map<string, Entry>)

  ghost predicate ValidCatalogue(c: Catalogue)
  {
    && (forall i, j :: 0 <= i < j < |c.keys| ==> c.keys[i] != c.keys[j])
    && (forall k :: k in c.keys <==> k in c.entries)
  }

  /** `parts[2]` and `parts[3]` of `line.split(' - ')`, or `None` for `IndexError`. */
  function ParseLine(line: string): Option<(string, string)>
  {
    var parts := PyStr.Split(line, Sep);
    if |parts| < 4 then None else Some((parts[2], parts[3]))
  }

  /** `metrics_order[metric] = (order, type)` */
  function Add(c: Catalogue, key: string, e: Entry): Catalogue
  {
    Catalogue(if key in c.entries then c.keys else c.keys + [key], c.entries[key := e])
  }

  /** The catalogue read from the first `n` lines, or `None` when one of
      them has fewer than four fields. */
  function CatalogueOf(lines: seq<string>, n: nat): (r: Option<Catalogue>)
    requires n <= |lines|
    ensures r.Some? <==> forall i :: 0 <= i < n ==> ParseLine(lines[i]).Some?
    decreases n
  {
    if n == 0 then Some(Catalogue([], map[]))
    else
      match CatalogueOf(lines, n - 1)
      case None => None
      case Some(c) =>
        match ParseLine(lines[n - 1])
        case None => None
        case Some(kt) => Some(Add(c, kt.0, Entry(n - 1, kt.1)))
  }

  /** `load_metrics`: `None` for a missing file (`sys.exit`) or a bad line. */
  function LoadSpec(content: Option<string>): Option<Catalogue>
  {
    if content.None? then None
    else
      var lines := Lines(TranslateNewlines(content.value));
      CatalogueOf(lines, |lines|)
  }

  /** Keys are listed once each, and exactly the keys with an entry are listed. */
  lemma {:induction false} CatalogueValid(lines: seq<string>, n: nat)
    requires n <= |lines| && CatalogueOf(lines, n).Some?
    ensures ValidCatalogue(CatalogueOf(lines, n).value)
    decreases n
  {
    if n > 0 {
      CatalogueStep(lines, n);
      CatalogueValid(lines, n - 1);
    }
  }

  /** `load_metrics(path)` given the file's contents (`None` when it does not exist). */
  method LoadMetrics(content: Option<string>) returns (r: Option<Catalogue>)
    ensures r == LoadSpec(content)
  {
    if content.None? {
      return None;
    }
    var lines := Lines(TranslateNewlines(content.value));
    var keys: seq<string> := [];
    var metricsOrder: map<string, Entry> := map[];
    var order := 0;
    while order < |lines|
      invariant 0 <= order <= |lines|
      invariant CatalogueOf(lines, order) == Some(Catalogue(keys, metricsOrder))
    {
      var parts := PyStr.Split(lines[order], Sep);
      if |parts| < 4 {
        return None;
      }
      var metric, typ := parts[2], parts[3];
      if metric !in metricsOrder {
        keys := keys + [metric];
      }
      metricsOrder := metricsOrder[metric := Entry(order, typ)];
      order := order + 1;
    }
    return Some(Catalogue(keys, metricsOrder));
  }

  // ------------------------------------------------- what a catalogue says

  /** One more line read into a catalogue. */
  lemma CatalogueStep(lines: seq<string>, n: nat)
    requires 0 < n <= |lines| && CatalogueOf(lines, n).Some?
    ensures CatalogueOf(lines, n - 1).Some? && ParseLine(lines[n - 1]).Some?
    ensures var kt := ParseLine(lines[n - 1]).value;
      CatalogueOf(lines, n).value == Add(CatalogueOf(lines, n - 1).value, kt.0, Entry(n - 1, kt.1))
  {
  }

  /** A key maps to the line number and type of the LAST line naming it. */
  lemma {:induction false} CatalogueLastWins(lines: seq<string>, n: nat, i: nat)
    requires i < n <= |lines| && CatalogueOf(lines, n).Some?
    requires forall j :: i < j < n ==> ParseLine(lines[j]).value.0 != ParseLine(lines[i]).value.0
    ensures var kt := ParseLine(lines[i]).value;
      kt.0 in CatalogueOf(lines, n).value.entries && CatalogueOf(lines, n).value.entries[kt.0] == Entry(i, kt.1)
    decreases n
  {
    CatalogueStep(lines, n);
    if i < n - 1 {
      CatalogueLastWins(lines, n - 1, i);
    }
  }

  /** Every key of the catalogue was named by some line, at the recorded position. */
  lemma {:induction false} CatalogueEntriesFromLines(lines: seq<string>, n: nat, key: string)
    requires n <= |lines| && CatalogueOf(lines, n).Some? && key in CatalogueOf(lines, n).value.entries
    ensures var e := CatalogueOf(lines, n).value.entries[key];
      e.order < n && ParseLine(lines[e.order]) == Some((key, e.metricType))
    decreases n
  {
    if n > 0 {
      CatalogueStep(lines, n);
      if ParseLine(lines[n - 1]).value.0 != key {
        CatalogueEntriesFromLines(lines, n - 1, key);
      }
    }
  }

  /** With distinct keys, `keys` lists them in line order. */
  lemma {:induction false} CatalogueKeysInOrder(lines: seq<string>, n: nat)
    requires n <= |lines| && CatalogueOf(lines, n).Some?
    requires forall i, j :: 0 <= i < j < n ==> ParseLine(lines[i]).value.0 != ParseLine(lines[j]).value.0
    ensures var keys := CatalogueOf(lines, n).value.keys;
      |keys| == n && forall i :: 0 <= i < n ==> keys[i] == ParseLine(lines[i]).value.0
    decreases n
  {
    if n > 0 {
      CatalogueKeysInOrder(lines, n - 1);
      KeysStep(lines, n);
      var before := CatalogueOf(lines, n - 1).value.keys;
      var keys := CatalogueOf(lines, n).value.keys;
      forall i | 0 <= i < n ensures keys[i] == ParseLine(lines[i]).value.0 {
        if i < n - 1 {
          assert keys[i] == before[i];
        }
      }
    }
  }

  /** A line naming a new key appends it to `keys`. */
  lemma KeysStep(lines: seq<string>, n: nat)
    requires 0 < n <= |lines| && CatalogueOf(lines, n).Some?
    requires forall i :: 0 <= i < n - 1 ==> ParseLine(lines[i]).value.0 != ParseLine(lines[n - 1]).value.0
    ensures CatalogueOf(lines, n).value.keys
      == CatalogueOf(lines, n - 1).value.keys + [ParseLine(lines[n - 1]).value.0]
  {
    CatalogueStep(lines, n);
    var key := ParseLine(lines[n - 1]).value.0;
    if key in CatalogueOf(lines, n - 1).value.entries {
      CatalogueEntriesFromLines(lines, n - 1, key);
    }
  }

  // ------------------------------------------------------- the round trip

  /** No line break of either kind. */
  predicate Plain(s: string)
  {
    forall k :: 0 <= k < |s| ==> s[k] != '\n' && s[k] != '\r'
  }

  /** A field that reads back as itself: no line break, and no " - " found in
      it or across its end. */
  predicate CleanField(f: string)
  {
    Plain(f) && PyStr.EndsCleanly(f, Sep)
  }

  /** The fields of `m` survive the trip through the file. */
  predicate Writable(m: Metric)
  {
    && CleanField(OrDefault(m.id, "No ID")) && CleanField(OrDefault(m.domain, "No Domain"))
    && CleanField(KeyText(m)) && CleanField(TypeText(m)) && Plain(OrDefault(m.description, "No Description"))
  }

  lemma PlainConcat(a: string, b: string)
    requires Plain(a) && Plain(b)
    ensures Plain(a + b)
  {
    forall k | 0 <= k < |a + b| ensures (a + b)[k] != '\n' && (a + b)[k] != '\r' {
      if k >= |a| { assert (a + b)[k] == b[k - |a|]; }
    }
  }

  /** Four clean fields, each followed by the separator, split off one by one. */
  lemma ParseFields(f0: string, f1: string, f2: string, f3: string, tail: string)
    requires PyStr.EndsCleanly(f0, Sep) && PyStr.EndsCleanly(f1, Sep)
    requires PyStr.EndsCleanly(f2, Sep) && PyStr.EndsCleanly(f3, Sep)
    ensures ParseLine(f0 + Sep + (f1 + Sep + (f2 + Sep + (f3 + Sep + tail)))) == Some((f2, f3))
  {
    var r3 := f3 + Sep + tail;
    var r2 := f2 + Sep + r3;
    var r1 := f1 + Sep + r2;
    PyStr.SplitAfterField(f0, Sep, r1);
    PyStr.SplitAfterField(f1, Sep, r2);
    PyStr.SplitAfterField(f2, Sep, r3);
    PyStr.SplitAfterField(f3, Sep, tail);
    var parts := PyStr.Split(f0 + Sep + r1, Sep);
    assert parts == [f0] + ([f1] + ([f2] + ([f3] + PyStr.Split(tail, Sep))));
    assert parts[2] == f2 && parts[3] == f3;
  }

  lemma ParseMetricLine(m: Metric)
    requires Writable(m)
    ensures ParseLine(MetricLine(m)) == Some((KeyText(m), TypeText(m)))
  {
    var f0, f1, f2, f3 := OrDefault(m.id, "No ID"), OrDefault(m.domain, "No Domain"), KeyText(m), TypeText(m);
    var tail := OrDefault(m.description, "No Description") + "\n";
    Regroup(f0, Sep, f1, f2, f3, OrDefault(m.description, "No Description"), "\n");
    ParseFields(f0, f1, f2, f3, tail);
  }

  lemma Regroup<T>(f0: seq<T>, sep: seq<T>, f1: seq<T>, f2: seq<T>, f3: seq<T>, f4: seq<T>, end: seq<T>)
    ensures f0 + sep + f1 + sep + f2 + sep + f3 + sep + f4 + end
      == f0 + sep + (f1 + sep + (f2 + sep + (f3 + sep + (f4 + end))))
  {
  }

  /** A metric's line is plain text followed by one `\n`. */
  lemma MetricLineShape(m: Metric)
    requires Writable(m)
    ensures var line := MetricLine(m);
      |line| > 0 && line[|line| - 1] == '\n' && Plain(line[..|line| - 1])
  {
    var line := MetricLine(m);
    var body := OrDefault(m.id, "No ID") + Sep + OrDefault(m.domain, "No Domain") + Sep + KeyText(m) + Sep
      + TypeText(m) + Sep + OrDefault(m.description, "No Description");
    assert line == body + "\n";
    assert Plain(Sep);
    PlainConcat(OrDefault(m.id, "No ID"), Sep);
    PlainConcat(OrDefault(m.id, "No ID") + Sep, OrDefault(m.domain, "No Domain"));
    PlainConcat(OrDefault(m.id, "No ID") + Sep + OrDefault(m.domain, "No Domain"), Sep);
    PlainConcat(OrDefault(m.id, "No ID") + Sep + OrDefault(m.domain, "No Domain") + Sep, KeyText(m));
    PlainConcat(OrDefault(m.id, "No ID") + Sep + OrDefault(m.domain, "No Domain") + Sep + KeyText(m), Sep);
    PlainConcat(OrDefault(m.id, "No ID") + Sep + OrDefault(m.domain, "No Domain") + Sep + KeyText(m) + Sep, TypeText(m));
    PlainConcat(OrDefault(m.id, "No ID") + Sep + OrDefault(m.domain, "No Domain") + Sep + KeyText(m) + Sep + TypeText(m), Sep);
    PlainConcat(OrDefault(m.id, "No ID") + Sep + OrDefault(m.domain, "No Domain") + Sep + KeyText(m) + Sep + TypeText(m) + Sep,
                OrDefault(m.description, "No Description"));
    assert line[..|line| - 1] == body;
  }

  lemma {:induction false} LineLengthOf(line: string, rest: string)
    requires |line| > 0 && line[|line| - 1] == '\n' && Plain(line[..|line| - 1])
    ensures LineLength(line + rest) == |line|
    decreases |line|
  {
    if |line| > 1 {
      assert (line + rest)[0] == line[0] != '\n';
      assert (line + rest)[1..] == line[1..] + rest;
      assert line[1..][..|line[1..]| - 1] == line[..|line| - 1][1..];
      LineLengthOf(line[1..], rest);
    }
  }

  lemma {:induction false} TranslatePlainLines(lines: seq<string>)
    requires forall i :: 0 <= i < |lines| ==> |lines[i]| > 0 && lines[i][|lines[i]| - 1] == '\n' && Plain(lines[i][..|lines[i]| - 1])
    ensures TranslateNewlines(Concat(lines)) == Concat(lines)
    ensures Lines(Concat(lines)) == lines
    decreases |lines|
  {
    if |lines| > 0 {
      var line, rest := lines[0], Concat(lines[1..]);
      TranslatePlainLines(lines[1..]);
      LineLengthOf(line, rest);
      assert (line + rest)[..|line|] == line && (line + rest)[|line|..] == rest;
      TranslateKeeps(line, rest);
    }
  }

  /** A text without `\r` is not changed by newline translation. */
  lemma {:induction false} TranslateKeeps(line: string, rest: string)
    requires |line| > 0 && line[|line| - 1] == '\n' && Plain(line[..|line| - 1])
    requires TranslateNewlines(rest) == rest
    ensures TranslateNewlines(line + rest) == line + rest
    decreases |line|
  {
    assert (line + rest)[0] == line[0] && line[0] != '\r';
    if |line| > 1 {
      assert (line + rest)[1..] == line[1..] + rest;
      assert line[1..][..|line[1..]| - 1] == line[..|line| - 1][1..];
      TranslateKeeps(line[1..], rest);
    } else {
      assert (line + rest)[1..] == rest;
    }
  }

  /** Two different positions of a sequence hold metrics with different keys. */
  predicate DistinctKeys(ms: seq<Metric>)
  {
    forall i, j :: 0 <= i < |ms| && 0 <= j < |ms| && i != j ==> KeyText(ms[i]) != KeyText(ms[j])
  }

  lemma {:induction false} TwoCopies(ms: seq<Metric>, x: Metric)
    requires multiset(ms)[x] >= 2
    ensures exists i, j :: 0 <= i < j < |ms| && ms[i] == x && ms[j] == x
    decreases |ms|
  {
    assert ms == [ms[0]] + ms[1..];
    if ms[0] == x {
      assert x in multiset(ms[1..]);
      var j :| 0 <= j < |ms[1..]| && ms[1..][j] == x;
      assert ms[j + 1] == x;
    } else {
      TwoCopies(ms[1..], x);
      var i, j :| 0 <= i < j < |ms[1..]| && ms[1..][i] == x && ms[1..][j] == x;
      assert ms[i + 1] == x && ms[j + 1] == x;
    }
  }

  lemma DistinctKeysPermuted(ms: seq<Metric>, s: seq<Metric>)
    requires multiset(ms) == multiset(s) && DistinctKeys(ms)
    ensures DistinctKeys(s)
  {
    forall i, j | 0 <= i < |s| && 0 <= j < |s| && i != j ensures KeyText(s[i]) != KeyText(s[j]) {
      var x, y := s[i], s[j];
      assert x in multiset(ms) && y in multiset(ms);
      if x == y {
        var lo, hi := if i < j then i else j, if i < j then j else i;
        assert s == s[..hi] + s[hi..];
        assert multiset(s) == multiset(s[..hi]) + multiset(s[hi..]);
        assert s[..hi][lo] == x && s[hi..][0] == x;
        assert x in multiset(s[..hi]) && x in multiset(s[hi..]);
        assert multiset(s)[x] >= 2;
        TwoCopies(ms, x);
      } else {
        var a :| 0 <= a < |ms| && ms[a] == x;
        var b :| 0 <= b < |ms| && ms[b] == y;
      }
    }
  }

  /** Lines that parse to the distinct keys of `ms` load into a catalogue
      listing those keys in line order, each with its own line number and type. */
  lemma CatalogueOfParsed(lines: seq<string>, ms: seq<Metric>)
    requires |ms| == |lines| && DistinctKeys(ms)
    requires forall i :: 0 <= i < |lines| ==> ParseLine(lines[i]) == Some((KeyText(ms[i]), TypeText(ms[i])))
    ensures var c := CatalogueOf(lines, |lines|);
      && c.Some? && |c.value.keys| == |ms|
      && forall i :: 0 <= i < |ms| ==>
           && c.value.keys[i] == KeyText(ms[i])
           && KeyText(ms[i]) in c.value.entries
           && c.value.entries[KeyText(ms[i])] == Entry(i, TypeText(ms[i]))
  {
    CatalogueKeysInOrder(lines, |lines|);
    forall i | 0 <= i < |ms|
      ensures KeyText(ms[i]) in CatalogueOf(lines, |lines|).value.entries
      ensures CatalogueOf(lines, |lines|).value.entries[KeyText(ms[i])] == Entry(i, TypeText(ms[i]))
    {
      CatalogueLastWins(lines, |lines|, i);
    }
  }

  /** The sorted list keeps the metrics' properties. */
  lemma SortedWritable(ms: seq<Metric>)
    requires forall i :: 0 <= i < |ms| ==> Writable(ms[i])
    requires DistinctKeys(ms)
    ensures var sorted := SortMetrics(ms);
      (forall i :: 0 <= i < |sorted| ==> Writable(sorted[i])) && DistinctKeys(sorted)
  {
    var sorted := SortMetrics(ms);
    forall i | 0 <= i < |sorted| ensures Writable(sorted[i]) {
      assert sorted[i] in multiset(ms);
    }
    DistinctKeysPermuted(ms, sorted);
  }

  /** The file's text, read back line by line. */
  lemma ReadWrittenLines(sorted: seq<Metric>)
    requires forall i :: 0 <= i < |sorted| ==> Writable(sorted[i])
    ensures var lines := MetricLines(sorted);
      && LoadSpec(Some(Concat(lines))) == CatalogueOf(lines, |lines|)
      && forall i :: 0 <= i < |lines| ==> ParseLine(lines[i]) == Some((KeyText(sorted[i]), TypeText(sorted[i])))
  {
    var lines := MetricLines(sorted);
    forall i | 0 <= i < |lines|
      ensures |lines[i]| > 0 && lines[i][|lines[i]| - 1] == '\n' && Plain(lines[i][..|lines[i]| - 1])
      ensures ParseLine(lines[i]) == Some((KeyText(sorted[i]), TypeText(sorted[i])))
    {
      MetricLineShape(sorted[i]);
      ParseMetricLine(sorted[i]);
    }
    TranslatePlainLines(lines);
  }

  /** Loading the file written for a list of metrics gives each key its line
      in sorted order and its type, with the keys in sorted order. */
  lemma CatalogueRoundTrip(ms: seq<Metric>)
    requires forall i :: 0 <= i < |ms| ==> HasIntId(ms[i]) && Writable(ms[i])
    requires DistinctKeys(ms)
    ensures var sorted := SortMetrics(ms);
      var c := LoadSpec(WriteMetricsFile(ms));
      && c.Some?
      && |c.value.keys| == |sorted|
      && forall i :: 0 <= i < |sorted| ==>
           && c.value.keys[i] == KeyText(sorted[i])
           && KeyText(sorted[i]) in c.value.entries
           && c.value.entries[KeyText(sorted[i])] == Entry(i, TypeText(sorted[i]))
  {
    var sorted := SortMetrics(ms);
    SortedWritable(ms);
    var lines := MetricLines(sorted);
    ReadWrittenLines(sorted);
    assert WriteMetricsFile(ms) == Some(Concat(lines));
    CatalogueOfParsed(lines, sorted);
  }
}

/**
 * The report builder: it reads the analysis CSV back, coerces its cells,
 * groups the metric columns, decides which charts are drawn and which
 * series each holds, and shapes the rows the HTML page shows.
 *
 * Drawing (matplotlib) and HTML text are not modelled: a chart is a request
 * value naming its file and its series, and a page row is a view record.
 * float() is the oracle parseNum, json.loads the oracle parseJson.
 */
module Reporter {
  import opened Wrappers
  import opened Text
  import opened Sorting
  import opened Paths
  import Analyzer
  import Compressor

  /** A loaded cell: Python str, float or int. */
  datatype Cell = Str(s: string) | Float(x: real) | Integer(n: int)

  /** A row of the CSV after loading: the header's columns to their cells. */
  type Record = map<string, Cell>

  /** The exceptions that stop the report. */
  datatype ReportError =
    | MissingKey(key: string)           // KeyError
    | QualityNotNumber(text: string)    // int() of a text float() rejected: ValueError
    | MixedTypes(key: string)           // sorted() compares a str with a number: TypeError
    | NotFormattable(metric: string)    // f"{val:.2f}" of a str: ValueError

  /** Columns the loader leaves as text. */
  const TextColumns: seq<string> := ["filename", "format", "params", "relative_path", "diff_path", "details"]

  /** Columns that are not metrics. */
  const FixedColumns: seq<string> := ["filename", "format", "quality", "params", "relative_path", "diff_path", "details", "size_kb"]

  // ---------------------------------------------------------------------------
  // Loading the CSV
  // ---------------------------------------------------------------------------

  /** The cell of one column after the coercion loop. */
  function Coerce(key: string, text: string, parseNum: string -> Option<real>): Cell {
    if key in TextColumns then Str(text)
    else
      match parseNum(text)
      case None => Str(text)
      case Some(v) => Float(v)
  }

  function Coerced(raw: map<string, string>, parseNum: string -> Option<real>): map<string, Cell> {
    map k | k in raw :: Coerce(k, raw[k], parseNum)
  }

  /** Python's int(x) for a float: truncation toward zero. */
  function Truncate(x: real): (n: int)
    ensures 0.0 <= x ==> 0 <= n && n as real <= x < n as real + 1.0
    ensures x < 0.0 ==> n <= 0 && n as real - 1.0 < x <= n as real
  {
    if x >= 0.0 then x.Floor else -((-x).Floor)
  }

  /** One row as loaded: coerced, then its quality made an int. */
  function LoadRecord(raw: map<string, string>, parseNum: string -> Option<real>): Result<Record, ReportError> {
    var row := Coerced(raw, parseNum);
    if "quality" !in row then Failure(MissingKey("quality"))
    else
      match row["quality"]
      case Float(x) => Success(row["quality" := Integer(Truncate(x))])
      case Str(t) => Failure(QualityNotNumber(t))
      case Integer(_) => Success(row)
  }

  /** The outcome of loading each row, in order. */
  function LoadResults(raws: seq<map<string, string>>, parseNum: string -> Option<real>): (r: seq<Result<Record, ReportError>>)
    ensures |r| == |raws| && forall i :: 0 <= i < |raws| ==> r[i] == LoadRecord(raws[i], parseNum)
  {
    seq(|raws|, i requires 0 <= i < |raws| => LoadRecord(raws[i], parseNum))
  }

  /** All rows as loaded, or the error of the first row that raises. */
  function LoadAll(raws: seq<map<string, string>>, parseNum: string -> Option<real>): Result<seq<Record>, ReportError> {
    Collect(LoadResults(raws, parseNum))
  }

  /** The loop over the keys of one row, replacing each parseable non-text cell by its float. */
  method CoerceRow(raw: map<string, string>, parseNum: string -> Option<real>) returns (row: Record)
    ensures row == Coerced(raw, parseNum)
  {
    row := map k | k in raw :: Str(raw[k]);
    var todo := raw.Keys;
    while todo != {}
      invariant todo <= raw.Keys && row.Keys == raw.Keys
      invariant forall k :: k in raw && k !in todo ==> row[k] == Coerce(k, raw[k], parseNum)
      invariant forall k :: k in todo ==> row[k] == Str(raw[k])
      decreases todo
    {
      var key :| key in todo;
      if key !in TextColumns {
        var parsed := parseNum(raw[key]);
        if parsed.Some? {
          row := row[key := Float(parsed.value)];
        }
      }
      todo := todo - {key};
    }
  }

  /** The load loop of generate_report: coerce each row, make its quality an int, append it. */
  method LoadRows(raws: seq<map<string, string>>, parseNum: string -> Option<real>) returns (r: Result<seq<Record>, ReportError>)
    ensures r == LoadAll(raws, parseNum)
  {
    ghost var results := LoadResults(raws, parseNum);
    var data: seq<Record> := [];
    for i := 0 to |raws|
      invariant Collect(results[..i]) == Success(data)
    {
      assert results[..i + 1][..i] == results[..i];
      var row := CoerceRow(raws[i], parseNum);
      assert results[..i + 1][i] == LoadRecord(raws[i], parseNum);
      if "quality" !in row {
        CollectFailure(results, i + 1);
        return Failure(MissingKey("quality"));
      }
      match row["quality"] {
        case Float(x) =>
          row := row["quality" := Integer(Truncate(x))];
        case Str(t) =>
          CollectFailure(results, i + 1);
          return Failure(QualityNotNumber(t));
        case Integer(_) =>
      }
      data := data + [row];
    }
    assert results[..|raws|] == results;
    return Success(data);
  }

  /**
   * A loaded row has the columns of its CSV row; text columns hold their
   * text, quality holds an int, and every other column holds a float exactly
   * when float() accepts its text.
   */
  predicate LoadedFrom(row: Record, raw: map<string, string>, parseNum: string -> Option<real>) {
    && row.Keys == raw.Keys
    && "quality" in row && row["quality"].Integer?
    && (forall k :: k in raw && k in TextColumns ==> row[k] == Str(raw[k]))
    && (forall k :: k in raw && k !in TextColumns && k != "quality" ==>
          (row[k].Float? <==> parseNum(raw[k]).Some?) && (row[k].Float? ==> row[k].x == parseNum(raw[k]).value)
                                                     && (!row[k].Float? ==> row[k] == Str(raw[k])))
  }

  /**
   * Loading keeps one row per CSV row, in order, each loaded from its CSV
   * row; it fails exactly when some row lacks quality or has a quality
   * float() rejects, and the quality is the float's truncation.
   */
  lemma LoadedRows(raws: seq<map<string, string>>, parseNum: string -> Option<real>)
    ensures LoadAll(raws, parseNum).Success? <==>
      forall i :: 0 <= i < |raws| ==> "quality" in raws[i] && parseNum(raws[i]["quality"]).Some?
    ensures LoadAll(raws, parseNum).Success? ==>
      var rows := LoadAll(raws, parseNum).value;
      && |rows| == |raws|
      && forall i :: 0 <= i < |raws| ==>
           LoadedFrom(rows[i], raws[i], parseNum) && rows[i]["quality"].n == Truncate(parseNum(raws[i]["quality"]).value)
  {
    CollectAll(LoadResults(raws, parseNum));
    forall i | 0 <= i < |raws| {
      LoadedRecord(raws[i], parseNum);
    }
  }

  lemma LoadedRecord(raw: map<string, string>, parseNum: string -> Option<real>)
    ensures LoadRecord(raw, parseNum).Success? <==> "quality" in raw && parseNum(raw["quality"]).Some?
    ensures LoadRecord(raw, parseNum).Success? ==>
      var row := LoadRecord(raw, parseNum).value;
      LoadedFrom(row, raw, parseNum) && row["quality"].n == Truncate(parseNum(raw["quality"]).value)
  {
    assert "quality" !in TextColumns;
  }

  // ---------------------------------------------------------------------------
  // Metric columns and their groups
  // ---------------------------------------------------------------------------

  /** metric_cols: the header without the fixed columns, in header order. */
  function MetricCols(header: seq<string>): seq<string> {
    if header == [] then []
    else
      var init := MetricCols(header[..|header| - 1]);
      var h := header[|header| - 1];
      if h in FixedColumns then init else init + [h]
  }

  lemma {:induction false} MetricColsMembers(header: seq<string>)
    ensures forall c :: c in MetricCols(header) <==> c in header && c !in FixedColumns
    ensures IsSubsequence(MetricCols(header), header)
  {
    if header != [] {
      var n := |header| - 1;
      MetricColsMembers(header[..n]);
      assert header == header[..n] + [header[n]];
      var init := MetricCols(header[..n]);
      if header[n] !in FixedColumns {
        assert (init + [header[n]])[..|init|] == init;
      }
    }
  }

  lemma {:induction false} MetricColsAppend(a: seq<string>, b: seq<string>)
    ensures MetricCols(a + b) == MetricCols(a) + MetricCols(b)
    decreases |b|
  {
    if b == [] {
      assert a + b == a;
    } else {
      var n := |b| - 1;
      MetricColsAppend(a, b[..n]);
      assert (a + b)[..|a + b| - 1] == a + b[..n];
    }
  }

  lemma {:induction false} MetricColsNone(s: seq<string>)
    requires forall i :: 0 <= i < |s| ==> s[i] in FixedColumns
    ensures MetricCols(s) == []
  {
    if s != [] {
      MetricColsNone(s[..|s| - 1]);
    }
  }

  /** The analyzer's standard columns are the fixed columns. */
  lemma StandardAreFixed()
    ensures forall i :: 0 <= i < |Analyzer.StandardFields| ==> Analyzer.StandardFields[i] in FixedColumns
  {
    var s, f := Analyzer.StandardFields, FixedColumns;
    assert s[0] == f[0] && s[1] == f[1] && s[2] == f[2] && s[3] == f[3];
    assert s[4] == f[7] && s[5] == f[4] && s[6] == f[5] && s[7] == f[6];
  }

  lemma {:induction false} MetricColsFree(s: seq<string>)
    requires forall i :: 0 <= i < |s| ==> s[i] !in FixedColumns
    ensures MetricCols(s) == s
  {
    if s != [] {
      MetricColsFree(s[..|s| - 1]);
    }
  }

  /**
   * The metric columns of the analysis table are exactly its discovered
   * metric keys, sorted: the fixed columns are the analyzer's standard
   * columns in another order.
   */
  lemma MetricColsOfAnalysis(rows: seq<Analyzer.Row>)
    ensures MetricCols(Analyzer.Header(rows)) == Analyzer.Header(rows)[8..]
  {
    var h := Analyzer.Header(rows);
    var keys := Analyzer.DiscoveredKeys(rows) - Analyzer.StandardSet();
    var sorted := SortedSet(keys);
    assert h == Analyzer.StandardFields + sorted;
    MetricColsAppend(Analyzer.StandardFields, sorted);
    StandardAreFixed();
    MetricColsNone(Analyzer.StandardFields);
    forall i | 0 <= i < |sorted| ensures sorted[i] !in FixedColumns {
      assert sorted[i] in keys;
    }
    MetricColsFree(sorted);
  }

  /** The group of a metric column: the text before its first '-'. */
  function Base(col: string): (b: string)
    ensures b <= col && '-' !in b
    ensures |b| < |col| ==> col[|b|] == '-'
  {
    SplitHead(col, '-');
    Split(col, '-')[0]
  }

  /** The distinct groups of cols, in order of first appearance. */
  function Groups(cols: seq<string>): seq<string> {
    if cols == [] then []
    else
      var init := Groups(cols[..|cols| - 1]);
      var g := Base(cols[|cols| - 1]);
      if g in init then init else init + [g]
  }

  /** The columns of cols in group g, in their order in cols. */
  function Members(cols: seq<string>, g: string): seq<string> {
    if cols == [] then []
    else
      var init := Members(cols[..|cols| - 1], g);
      var c := cols[|cols| - 1];
      if Base(c) == g then init + [c] else init
  }

  /**
   * The grouping loop of generate_graphs: each column is appended to the
   * list of its group, a group being opened at its first column.
   */
  method GroupMetrics(cols: seq<string>) returns (order: seq<string>, groups: map<string, seq<string>>)
    ensures order == Groups(cols)
    ensures groups.Keys == set g | g in order
    ensures forall g :: g in groups ==> groups[g] == Members(cols, g)
  {
    order, groups := [], map[];
    for i := 0 to |cols|
      invariant order == Groups(cols[..i])
      invariant groups.Keys == set g | g in order
      invariant forall g :: g in groups ==> groups[g] == Members(cols[..i], g)
    {
      var col := cols[i];
      var base := Base(col);
      assert cols[..i + 1][..i] == cols[..i] && cols[..i + 1][i] == col;
      if base !in groups {
        MembersAbsent(cols[..i], base);
        order := order + [base];
        groups := groups[base := []];
      }
      groups := groups[base := groups[base] + [col]];
    }
    assert cols[..|cols|] == cols;
  }

  lemma {:induction false} GroupsMembers(cols: seq<string>)
    ensures forall g :: g in Groups(cols) <==> exists c :: c in cols && Base(c) == g
    ensures forall i, j :: 0 <= i < j < |Groups(cols)| ==> Groups(cols)[i] != Groups(cols)[j]
  {
    if cols != [] {
      var n := |cols| - 1;
      GroupsMembers(cols[..n]);
      assert cols == cols[..n] + [cols[n]];
      forall g ensures g in Groups(cols) <==> exists c :: c in cols && Base(c) == g {
        if g in Groups(cols[..n]) {
          var c :| c in cols[..n] && Base(c) == g;
          assert c in cols;
        }
      }
    }
  }

  lemma {:induction false} MembersAbsent(cols: seq<string>, g: string)
    requires g !in Groups(cols)
    ensures Members(cols, g) == []
  {
    if cols != [] {
      MembersAbsent(cols[..|cols| - 1], g);
    }
  }

  /**
   * The grouping is a partition: a group holds exactly the columns with its
   * base, each as often as in cols, in their order in cols.
   */
  lemma {:induction false} MembersPartition(cols: seq<string>, g: string)
    ensures forall c :: multiset(Members(cols, g))[c] == if Base(c) == g then multiset(cols)[c] else 0
    ensures IsSubsequence(Members(cols, g), cols)
  {
    if cols != [] {
      var n := |cols| - 1;
      MembersPartition(cols[..n], g);
      assert cols == cols[..n] + [cols[n]];
      var init := Members(cols[..n], g);
      if Base(cols[n]) == g {
        assert (init + [cols[n]])[..|init|] == init;
      }
    }
  }

  // ---------------------------------------------------------------------------
  // Charts
  // ---------------------------------------------------------------------------

  /** Python's d.get(k, 0). */
  function Get(d: Record, k: string): Cell {
    if k in d then d[k] else Integer(0)
  }

  function ValueOf(c: Cell): real {
    match c
    case Float(x) => x
    case Integer(n) => n as real
    case Str(_) => 0.0
  }

  /**
   * Python's a <= b on cells: numbers by value, texts lexicographically.
   * Python raises when it compares a text with a number; the order puts
   * numbers first there only so that it is total.
   */
  predicate CellLe(a: Cell, b: Cell) {
    if a.Str? && b.Str? then a.s == b.s || Below(a.s, b.s)
    else if a.Str? || b.Str? then !a.Str?
    else ValueOf(a) <= ValueOf(b)
  }

  lemma CellLeTotalPreorder()
    ensures TotalPreorder(CellLe)
  {
    forall a: Cell, b: Cell ensures CellLe(a, b) || CellLe(b, a) {
      if a.Str? && b.Str? {
        BelowTotal(a.s, b.s);
      }
    }
    forall a: Cell, b: Cell, c: Cell | CellLe(a, b) && CellLe(b, c) ensures CellLe(a, c) {
      if a.Str? && b.Str? && c.Str? && a.s != b.s && b.s != c.s {
        BelowTransitive(a.s, b.s, c.s);
      }
    }
  }

  /** The sort key of sorted(..., key=lambda x: x[k]). */
  function ByKey(k: string): (Record, Record) -> bool {
    (a: Record, b: Record) => CellLe(Get(a, k), Get(b, k))
  }

  lemma ByKeyTotalPreorder(k: string)
    ensures TotalPreorder(ByKey(k))
  {
    CellLeTotalPreorder();
    var le := ByKey(k);
    forall a: Record, b: Record, c: Record | le(a, b) && le(b, c) ensures le(a, c) {
      assert CellLe(Get(a, k), Get(b, k)) && CellLe(Get(b, k), Get(c, k));
    }
    forall a: Record, b: Record ensures le(a, b) || le(b, a) {
      assert CellLe(Get(a, k), Get(b, k)) || CellLe(Get(b, k), Get(a, k));
    }
  }

  /** The rows of one format, in data order. */
  function OfFormat(data: seq<Record>, fmt: string): seq<Record> {
    if data == [] then []
    else
      var init := OfFormat(data[..|data| - 1], fmt);
      var d := data[|data| - 1];
      if Get(d, "format") == Str(fmt) then init + [d] else init
  }

  lemma {:induction false} OfFormatMembers(data: seq<Record>, fmt: string)
    ensures forall d :: multiset(OfFormat(data, fmt))[d] == if Get(d, "format") == Str(fmt) then multiset(data)[d] else 0
    ensures IsSubsequence(OfFormat(data, fmt), data)
  {
    if data != [] {
      var n := |data| - 1;
      OfFormatMembers(data[..n], fmt);
      assert data == data[..n] + [data[n]];
      var init := OfFormat(data[..n], fmt);
      if Get(data[n], "format") == Str(fmt) {
        assert (init + [data[n]])[..|init|] == init;
      }
    }
  }

  /** The cells of column k, one per row; a missing cell reads as 0 (d.get(k, 0)). */
  function Column(rows: seq<Record>, k: string): (r: seq<Cell>)
    ensures |r| == |rows|
    ensures forall i :: 0 <= i < |rows| ==> (k in rows[i] ==> r[i] == rows[i][k]) && (k !in rows[i] ==> r[i] == Integer(0))
  {
    seq(|rows|, i requires 0 <= i < |rows| => Get(rows[i], k))
  }

  /** Some row lacks column k, so d[k] raises KeyError. */
  predicate Lacks(rows: seq<Record>, k: string) {
    exists i :: 0 <= i < |rows| && k !in rows[i]
  }

  /** Column k holds both a text and a number, so sorting by it raises TypeError. */
  predicate Mixed(rows: seq<Record>, k: string) {
    (exists i :: 0 <= i < |rows| && Get(rows[i], k).Str?) && (exists j :: 0 <= j < |rows| && !Get(rows[j], k).Str?)
  }

  /** sorted([d for d in data if d['format'] == fmt], key=lambda x: x[xKey]), or the exception it raises. */
  function SortedSubset(data: seq<Record>, fmt: string, xKey: string): Result<seq<Record>, ReportError> {
    var subset := OfFormat(data, fmt);
    if Lacks(subset, xKey) then Failure(MissingKey(xKey))
    else if Mixed(subset, xKey) then Failure(MixedTypes(xKey))
    else Success(SortBy(subset, ByKey(xKey)))
  }

  /** How one line is drawn: matplotlib's default, or a colour and a line style. */
  datatype Style = Plain | Styled(color: char, linestyle: string)

  /** One plotted line: its legend text and its points. */
  datatype Series = Series(legend: string, xs: seq<Cell>, ys: seq<Cell>, style: Style)

  /** The charts generate_graphs draws, by what they show. */
  datatype ChartKind = SizeVsQuality | Efficiency(group: string) | Channels(group: string)

  /** A requested chart: what it shows, its x column and its lines. */
  datatype Chart = Chart(kind: ChartKind, xKey: string, series: seq<Series>)

  /** The SVG file of each chart, inside the graphs directory. */
  function FileName(kind: ChartKind): string {
    match kind
    case SizeVsQuality => "size_vs_quality.svg"
    case Efficiency(g) => g + "_efficiency.svg"
    case Channels(g) => g + "_channels.svg"
  }

  /** The line of one format in create_chart: y read with d[yKey]. */
  function PlainSeries(data: seq<Record>, fmt: string, xKey: string, yKey: string): Result<Series, ReportError> {
    match SortedSubset(data, fmt, xKey)
    case Failure(e) => Failure(e)
    case Success(sub) =>
      if Lacks(sub, yKey) then Failure(MissingKey(yKey))
      else Success(Series(fmt, Column(sub, xKey), Column(sub, yKey), Plain))
  }

  /** create_chart: one line per format, in the order formats are listed. */
  function CreateChart(data: seq<Record>, formats: seq<string>, xKey: string, yKey: string): Result<seq<Series>, ReportError> {
    if formats == [] then Success([])
    else
      match CreateChart(data, formats[..|formats| - 1], xKey, yKey)
      case Failure(e) => Failure(e)
      case Success(prev) =>
        match PlainSeries(data, formats[|formats| - 1], xKey, yKey)
        case Failure(e) => Failure(e)
        case Success(s) => Success(prev + [s])
  }

  /** The channel a metric column shows: the field after its first '-', or "All". */
  function Channel(col: string): (ch: string)
    ensures '-' !in ch
    ensures '-' in col ==> Base(col) + "-" + ch <= col
  {
    if '-' in col then
      var parts := Split(col, '-');
      assert Join(parts, '-') == parts[0] + ['-'] + Join(parts[1..], '-');
      JoinPrefix(parts[1..], '-');
      parts[1]
    else "All"
  }

  lemma {:induction false} JoinPrefix(parts: seq<string>, sep: char)
    requires |parts| >= 1
    ensures parts[0] <= Join(parts, sep)
  {
  }

  const Colors: map<string, char> := map["Red" := 'r', "Green" := 'g', "Blue" := 'b', "Alpha" := 'c', "All" := 'k']
  const LineStyles: map<string, string> := map["webp" := "-", "jpeg" := "--", "png" := ":"]

  /** styles.get(channel, 'k'). */
  function ColorOf(channel: string): char {
    if channel in Colors then Colors[channel] else 'k'
  }

  /** linestyles.get(fmt, '-'). */
  function LineStyleOf(fmt: string): string {
    if fmt in LineStyles then LineStyles[fmt] else "-"
  }

  /** The lines of one format in create_multi_metric_chart: one per column, y read with d.get(y, 0). */
  function ChannelSeries(sub: seq<Record>, fmt: string, xKey: string, yKeys: seq<string>): (r: seq<Series>)
    ensures |r| == |yKeys|
  {
    seq(|yKeys|, j requires 0 <= j < |yKeys| =>
      Series(fmt + " " + Channel(yKeys[j]), Column(sub, xKey), Column(sub, yKeys[j]), Styled(ColorOf(Channel(yKeys[j])), LineStyleOf(fmt))))
  }

  /** create_multi_metric_chart: for each format in turn, its lines for every column. */
  function CreateMultiChart(data: seq<Record>, formats: seq<string>, xKey: string, yKeys: seq<string>): Result<seq<Series>, ReportError> {
    if formats == [] then Success([])
    else
      match CreateMultiChart(data, formats[..|formats| - 1], xKey, yKeys)
      case Failure(e) => Failure(e)
      case Success(prev) =>
        var fmt := formats[|formats| - 1];
        match SortedSubset(data, fmt, xKey)
        case Failure(e) => Failure(e)
        case Success(sub) => Success(prev + ChannelSeries(sub, fmt, xKey, yKeys))
  }

  /**
   * The columns the analyzer writes split back into their metric and their
   * channel: a bare metric column shows the channel "All", a metric-Channel
   * column its channel.
   */
  lemma ChannelOfKey(metric: string, channel: string)
    requires '-' !in metric && '-' !in channel
    ensures Base(Analyzer.KeyFor(metric, channel)) == metric
    ensures Channel(Analyzer.KeyFor(metric, channel)) == if Lower(channel) == "all" then "All" else channel
  {
    var k := Analyzer.KeyFor(metric, channel);
    if Lower(channel) == "all" {
      SplitOfFree(metric, '-');
    } else {
      assert k == metric + ['-'] + channel;
      SplitPrefix(metric, channel, '-');
      SplitOfFree(channel, '-');
      assert Split(k, '-') == [metric, channel];
    }
  }

  /** The charts of the groups in order: an efficiency chart when the bare group is a column, then a channels chart. */
  function GroupCharts(data: seq<Record>, formats: seq<string>, cols: seq<string>, order: seq<string>): Result<seq<Chart>, ReportError> {
    if order == [] then Success([])
    else
      match GroupCharts(data, formats, cols, order[..|order| - 1])
      case Failure(e) => Failure(e)
      case Success(prev) => ThenCharts(prev, GroupChartsOf(data, formats, Members(cols, order[|order| - 1]), order[|order| - 1]))
  }

  /** The charts of one group. */
  function GroupChartsOf(data: seq<Record>, formats: seq<string>, members: seq<string>, g: string): Result<seq<Chart>, ReportError> {
    var eff :=
      if g in members then
        match CreateChart(data, formats, "size_kb", g)
        case Failure(e) => Failure(e)
        case Success(s) => Success([Chart(Efficiency(g), "size_kb", s)])
      else Success([]);
    match eff
    case Failure(e) => Failure(e)
    case Success(effCharts) =>
      match CreateMultiChart(data, formats, "quality", members)
      case Failure(e) => Failure(e)
      case Success(s) => Success(effCharts + [Chart(Channels(g), "quality", s)])
  }

  function ThenCharts(prev: seq<Chart>, next: Result<seq<Chart>, ReportError>): Result<seq<Chart>, ReportError> {
    match next
    case Failure(e) => Failure(e)
    case Success(more) => Success(prev + more)
  }

  /** The formats of the rows, each once; raises KeyError when a row has none. */
  function Formats(data: seq<Record>): Result<seq<string>, ReportError> {
    if Lacks(data, "format") then Failure(MissingKey("format"))
    else Success(SortedSet(set i | 0 <= i < |data| && data[i]["format"].Str? :: data[i]["format"].s))
  }

  /** Everything generate_graphs draws, or the exception that stops it. */
  function Graphs(data: seq<Record>, metricCols: seq<string>): Result<seq<Chart>, ReportError> {
    match Formats(data)
    case Failure(e) => Failure(e)
    case Success(formats) =>
      match CreateChart(data, formats, "quality", "size_kb")
      case Failure(e) => Failure(e)
      case Success(s) => ThenCharts([Chart(SizeVsQuality, "quality", s)], GroupCharts(data, formats, metricCols, Groups(metricCols)))
  }

  /** generate_graphs: group the columns, request the size chart, then the charts of each group. */
  method GenerateGraphs(data: seq<Record>, metricCols: seq<string>) returns (r: Result<seq<Chart>, ReportError>)
    ensures r == Graphs(data, metricCols)
  {
    var formats := Formats(data);
    if formats.Failure? {
      return Failure(formats.error);
    }
    var order, groups := GroupMetrics(metricCols);
    var size := CreateChart(data, formats.value, "quality", "size_kb");
    if size.Failure? {
      return Failure(size.error);
    }
    r := ChartGroups(data, formats.value, metricCols, order, groups, Chart(SizeVsQuality, "quality", size.value));
  }

  /** The group loop of generate_graphs, after the size chart first. */
  method ChartGroups(data: seq<Record>, formats: seq<string>, metricCols: seq<string>, order: seq<string>, groups: map<string, seq<string>>, first: Chart)
    returns (r: Result<seq<Chart>, ReportError>)
    requires groups.Keys == set g | g in order
    requires forall g :: g in groups ==> groups[g] == Members(metricCols, g)
    ensures r == ThenCharts([first], GroupCharts(data, formats, metricCols, order))
  {
    var charts := [first];
    assert order[..0] == [] && [first] + [] == [first];
    for i := 0 to |order|
      invariant ThenCharts([first], GroupCharts(data, formats, metricCols, order[..i])) == Success(charts)
    {
      var g := order[i];
      assert order[..i + 1][..i] == order[..i] && order[..i + 1][i] == g;
      var next := ChartGroup(data, formats, groups[g], g);
      if next.Failure? {
        GroupChartsFailure(data, formats, metricCols, order, i + 1);
        return Failure(next.error);
      }
      ghost var prev := GroupCharts(data, formats, metricCols, order[..i]).value;
      assert charts + next.value == [first] + (prev + next.value);
      charts := charts + next.value;
    }
    assert order[..|order|] == order;
    return Success(charts);
  }

  /** The body of the group loop: the efficiency chart when the bare group is a column, then the channels chart. */
  method ChartGroup(data: seq<Record>, formats: seq<string>, cols: seq<string>, g: string) returns (r: Result<seq<Chart>, ReportError>)
    ensures r == GroupChartsOf(data, formats, cols, g)
  {
    var charts := [];
    if g in cols {
      var eff := CreateChart(data, formats, "size_kb", g);
      if eff.Failure? {
        return Failure(eff.error);
      }
      charts := [Chart(Efficiency(g), "size_kb", eff.value)];
    }
    var channels := CreateMultiChart(data, formats, "quality", cols);
    if channels.Failure? {
      return Failure(channels.error);
    }
    return Success(charts + [Chart(Channels(g), "quality", channels.value)]);
  }

  lemma {:induction false} GroupChartsFailure(data: seq<Record>, formats: seq<string>, cols: seq<string>, order: seq<string>, i: int)
    requires 0 <= i <= |order|
    requires GroupCharts(data, formats, cols, order[..i]).Failure?
    ensures GroupCharts(data, formats, cols, order) == GroupCharts(data, formats, cols, order[..i])
    decreases |order| - i
  {
    if i == |order| {
      assert order[..i] == order;
    } else {
      assert order[..i + 1][..i] == order[..i];
      GroupChartsFailure(data, formats, cols, order, i + 1);
    }
  }

  /** Some chart of charts shows kind. */
  predicate Draws(charts: seq<Chart>, kind: ChartKind) {
    exists i :: 0 <= i < |charts| && charts[i].kind == kind
  }

  lemma DrawsAppend(a: seq<Chart>, b: seq<Chart>)
    ensures forall kind :: Draws(a + b, kind) <==> Draws(a, kind) || Draws(b, kind)
  {
    forall kind ensures Draws(a + b, kind) <==> Draws(a, kind) || Draws(b, kind) {
      if Draws(a + b, kind) {
        var i :| 0 <= i < |a + b| && (a + b)[i].kind == kind;
        if i >= |a| {
          assert b[i - |a|] == (a + b)[i];
        } else {
          assert a[i] == (a + b)[i];
        }
      }
      if Draws(a, kind) {
        var i :| 0 <= i < |a| && a[i].kind == kind;
        assert (a + b)[i] == a[i];
      }
      if Draws(b, kind) {
        var i :| 0 <= i < |b| && b[i].kind == kind;
        assert (a + b)[|a| + i] == b[i];
      }
    }
  }

  /** The charts of one group show that group: its channels, and its efficiency when its bare name is a member. */
  lemma GroupChartsOfKinds(data: seq<Record>, formats: seq<string>, members: seq<string>, g: string)
    ensures GroupChartsOf(data, formats, members, g).Success? ==>
      var more := GroupChartsOf(data, formats, members, g).value;
      && (forall kind :: Draws(more, kind) <==> kind == Channels(g) || (kind == Efficiency(g) && g in members))
  {
    if GroupChartsOf(data, formats, members, g).Success? {
      var more := GroupChartsOf(data, formats, members, g).value;
      assert more[|more| - 1].kind == Channels(g);
      if g in members {
        assert more[0].kind == Efficiency(g);
      }
    }
  }

  lemma {:induction false} GroupChartsKinds(data: seq<Record>, formats: seq<string>, cols: seq<string>, order: seq<string>)
    ensures GroupCharts(data, formats, cols, order).Success? ==>
      var charts := GroupCharts(data, formats, cols, order).value;
      && !Draws(charts, SizeVsQuality)
      && (forall g :: Draws(charts, Channels(g)) <==> g in order)
      && (forall g :: Draws(charts, Efficiency(g)) <==> g in order && g in Members(cols, g))
  {
    if order != [] && GroupCharts(data, formats, cols, order).Success? {
      var n := |order| - 1;
      var g := order[n];
      GroupChartsKinds(data, formats, cols, order[..n]);
      var prev := GroupCharts(data, formats, cols, order[..n]).value;
      GroupChartsOfKinds(data, formats, Members(cols, g), g);
      var more := GroupChartsOf(data, formats, Members(cols, g), g).value;
      assert GroupCharts(data, formats, cols, order).value == prev + more;
      DrawsAppend(prev, more);
      assert order == order[..n] + [g];
    }
  }

  /**
   * generate_graphs draws the size-vs-quality chart first and only there,
   * one channels chart per group, and an efficiency chart for exactly the
   * groups whose bare name is itself a metric column.
   */
  lemma GraphsKinds(data: seq<Record>, metricCols: seq<string>)
    ensures Graphs(data, metricCols).Success? ==>
      var charts := Graphs(data, metricCols).value;
      && |charts| >= 1 && charts[0].kind == SizeVsQuality
      && !Draws(charts[1..], SizeVsQuality)
      && (forall g :: Draws(charts, Channels(g)) <==> g in Groups(metricCols))
      && (forall g :: Draws(charts, Efficiency(g)) <==> g in Groups(metricCols) && g in metricCols)
  {
    if Graphs(data, metricCols).Success? {
      var formats := Formats(data).value;
      var order := Groups(metricCols);
      var first := Chart(SizeVsQuality, "quality", CreateChart(data, formats, "quality", "size_kb").value);
      var rest := GroupCharts(data, formats, metricCols, order).value;
      var charts := [first] + rest;
      assert Graphs(data, metricCols).value == charts;
      assert charts[1..] == rest;
      GroupChartsKinds(data, formats, metricCols, order);
      DrawsAppend([first], rest);
      forall g | g in order ensures g in Members(metricCols, g) <==> g in metricCols {
        GroupInMembers(metricCols, g);
      }
    }
  }

  /** A group's bare name is one of its columns exactly when it is a metric column. */
  lemma GroupInMembers(cols: seq<string>, g: string)
    requires g in Groups(cols)
    ensures g in Members(cols, g) <==> g in cols
  {
    GroupsMembers(cols);
    var c :| c in cols && Base(c) == g;
    SplitOfFree(g, '-');
    assert Base(g) == g;
    MembersPartition(cols, g);
    assert multiset(Members(cols, g))[g] == multiset(cols)[g];
  }

  /**
   * The rows of one series are the rows of its format, each once, ordered
   * by the x column; rows with equal x keep their order in data. Sorting
   * raises exactly when a row lacks the x column or the column mixes text
   * and numbers.
   */
  lemma SortedSubsetSpec(data: seq<Record>, fmt: string, xKey: string)
    ensures SortedSubset(data, fmt, xKey).Failure? <==> Lacks(OfFormat(data, fmt), xKey) || Mixed(OfFormat(data, fmt), xKey)
    ensures SortedSubset(data, fmt, xKey).Success? ==>
      var sub := SortedSubset(data, fmt, xKey).value;
      && multiset(sub) == multiset(OfFormat(data, fmt))
      && SortedBy(Column(sub, xKey), CellLe)
      && forall k :: Equivalents(sub, k, ByKey(xKey)) == Equivalents(OfFormat(data, fmt), k, ByKey(xKey))
  {
    var subset := OfFormat(data, fmt);
    if SortedSubset(data, fmt, xKey).Success? {
      var sub := SortBy(subset, ByKey(xKey));
      ByKeyTotalPreorder(xKey);
      SortBySorted(subset, ByKey(xKey));
      var xs := Column(sub, xKey);
      forall i, j | 0 <= i < j < |xs| ensures CellLe(xs[i], xs[j]) {
        assert ByKey(xKey)(sub[i], sub[j]);
      }
      forall k ensures Equivalents(sub, k, ByKey(xKey)) == Equivalents(subset, k, ByKey(xKey)) {
        SortByStable(subset, k, ByKey(xKey));
      }
    }
  }

  /** create_chart draws one line per format, its x values ascending and as many y values as x values. */
  lemma {:induction false} CreateChartShape(data: seq<Record>, formats: seq<string>, xKey: string, yKey: string)
    ensures CreateChart(data, formats, xKey, yKey).Success? ==>
      var series := CreateChart(data, formats, xKey, yKey).value;
      && |series| == |formats|
      && forall i :: 0 <= i < |series| ==>
           && series[i].legend == formats[i] && series[i].style == Plain
           && |series[i].xs| == |series[i].ys| == |OfFormat(data, formats[i])|
           && SortedBy(series[i].xs, CellLe)
  {
    if formats != [] && CreateChart(data, formats, xKey, yKey).Success? {
      var n := |formats| - 1;
      CreateChartShape(data, formats[..n], xKey, yKey);
      SortedSubsetSpec(data, formats[n], xKey);
      var sub := SortedSubset(data, formats[n], xKey).value;
      assert |multiset(sub)| == |multiset(OfFormat(data, formats[n]))|;
      var series := CreateChart(data, formats, xKey, yKey).value;
      assert series[..n] == CreateChart(data, formats[..n], xKey, yKey).value;
      forall i | 0 <= i < n
        ensures && series[i].legend == formats[i] && series[i].style == Plain
                && |series[i].xs| == |series[i].ys| == |OfFormat(data, formats[i])|
                && SortedBy(series[i].xs, CellLe)
      {
        assert series[i] == series[..n][i];
      }
    }
  }

  /**
   * create_multi_metric_chart draws, for each format in turn, one line per
   * column, every line with as many y values as x values: a row without
   * the column contributes 0.
   */
  lemma {:induction false} MultiChartShape(data: seq<Record>, formats: seq<string>, xKey: string, yKeys: seq<string>)
    ensures CreateMultiChart(data, formats, xKey, yKeys).Success? ==>
      var series := CreateMultiChart(data, formats, xKey, yKeys).value;
      && |series| == |formats| * |yKeys|
      && forall i :: 0 <= i < |series| ==> |series[i].xs| == |series[i].ys|
  {
    if formats != [] && CreateMultiChart(data, formats, xKey, yKeys).Success? {
      var n := |formats| - 1;
      MultiChartShape(data, formats[..n], xKey, yKeys);
      var prev := CreateMultiChart(data, formats[..n], xKey, yKeys).value;
      var sub := SortedSubset(data, formats[n], xKey).value;
      var more := ChannelSeries(sub, formats[n], xKey, yKeys);
      var series := prev + more;
      assert CreateMultiChart(data, formats, xKey, yKeys).value == series;
      assert |series| == n * |yKeys| + |yKeys| == |formats| * |yKeys|;
      forall i | 0 <= i < |series| ensures |series[i].xs| == |series[i].ys| {
        if i >= |prev| {
          assert series[i] == more[i - |prev|];
        } else {
          assert series[i] == prev[i];
        }
      }
    }
  }

  /**
   * The style of a channel line: the colour of its channel (black for an
   * unknown channel) and the line style of its format (solid for an unknown
   * format); its y value for a row without the column is 0.
   */
  lemma ChannelLineStyle(sub: seq<Record>, fmt: string, xKey: string, yKeys: seq<string>, j: int)
    requires 0 <= j < |yKeys|
    ensures var s := ChannelSeries(sub, fmt, xKey, yKeys)[j];
      && s.legend == fmt + " " + Channel(yKeys[j])
      && (Channel(yKeys[j]) !in {"Red", "Green", "Blue", "Alpha"} ==> s.style.color == 'k')
      && (fmt !in {"webp", "jpeg", "png"} ==> s.style.linestyle == "-")
      && forall i :: 0 <= i < |sub| && yKeys[j] !in sub[i] ==> s.ys[i] == Integer(0)
  {
  }

  // ---------------------------------------------------------------------------
  // generate_html
  // ---------------------------------------------------------------------------

  /** A row as the loader leaves it: text columns hold text and quality an int. */
  predicate Loaded(d: Record) {
    && (forall k :: k in d && k in TextColumns ==> d[k].Str?)
    && "quality" in d && d["quality"].Integer?
  }

  /** Every row the loader returns is Loaded. */
  lemma LoadAllLoaded(raws: seq<map<string, string>>, parseNum: string -> Option<real>)
    ensures LoadAll(raws, parseNum).Success? ==> forall i :: 0 <= i < |LoadAll(raws, parseNum).value| ==> Loaded(LoadAll(raws, parseNum).value[i])
  {
    LoadedRows(raws, parseNum);
  }

  function FormatOf(d: Record): string {
    if "format" in d && d["format"].Str? then d["format"].s else ""
  }

  /** The display order, the key (format, -quality): format ascending, then quality descending. */
  predicate DisplayLe(a: Record, b: Record) {
    Below(FormatOf(a), FormatOf(b)) || (FormatOf(a) == FormatOf(b) && ValueOf(Get(a, "quality")) >= ValueOf(Get(b, "quality")))
  }

  lemma DisplayLeTotalPreorder()
    ensures TotalPreorder(DisplayLe)
  {
    forall a: Record, b: Record ensures DisplayLe(a, b) || DisplayLe(b, a) {
      BelowTotal(FormatOf(a), FormatOf(b));
    }
    forall a: Record, b: Record, c: Record | DisplayLe(a, b) && DisplayLe(b, c) ensures DisplayLe(a, c) {
      if Below(FormatOf(a), FormatOf(b)) && Below(FormatOf(b), FormatOf(c)) {
        BelowTransitive(FormatOf(a), FormatOf(b), FormatOf(c));
      }
    }
  }

  /** The rows in display order: data.sort(key=lambda x: (x['format'], -x['quality'])). */
  function DisplayOrder(data: seq<Record>): seq<Record> {
    SortBy(data, DisplayLe)
  }

  /**
   * The display order is a permutation of the rows, ascending by format and,
   * within a format, descending by quality; rows equal in both keep their
   * order.
   */
  lemma DisplayOrderSpec(data: seq<Record>)
    ensures multiset(DisplayOrder(data)) == multiset(data)
    ensures forall i, j :: 0 <= i < j < |DisplayOrder(data)| ==>
      var a, b := DisplayOrder(data)[i], DisplayOrder(data)[j];
      (FormatOf(a) == FormatOf(b) || Below(FormatOf(a), FormatOf(b))) &&
      (FormatOf(a) == FormatOf(b) ==> ValueOf(Get(a, "quality")) >= ValueOf(Get(b, "quality")))
    ensures forall k :: Equivalents(DisplayOrder(data), k, DisplayLe) == Equivalents(data, k, DisplayLe)
  {
    DisplayLeTotalPreorder();
    SortBySorted(data, DisplayLe);
    var r := DisplayOrder(data);
    forall i, j | 0 <= i < j < |r|
      ensures (FormatOf(r[i]) == FormatOf(r[j]) || Below(FormatOf(r[i]), FormatOf(r[j]))) &&
              (FormatOf(r[i]) == FormatOf(r[j]) ==> ValueOf(Get(r[i], "quality")) >= ValueOf(Get(r[j], "quality")))
    {
      assert DisplayLe(r[i], r[j]);
      if FormatOf(r[i]) == FormatOf(r[j]) {
        BelowIrreflexive(FormatOf(r[i]));
      }
    }
    forall k ensures Equivalents(r, k, DisplayLe) == Equivalents(data, k, DisplayLe) {
      SortByStable(data, k, DisplayLe);
    }
  }

  /** Python's str of an absolute path: its mount, then '/' and its components. */
  function Show(p: AbsPath): string {
    p.drive + "/" + Join(p.parts, '/')
  }

  /**
   * get_rel_path(os.path.join(root, stored), report): the path of the stored
   * file seen from the report directory, or the joined path unchanged when
   * relpath raises because the two lie on different mounts.
   */
  function Rebase(root: AbsPath, stored: string, report: AbsPath): string
    requires Canonical(root.parts)
  {
    match RelPath(Absolute(root, stored), report)
    case Some(rel) => rel
    case None => JoinPath(Show(root), stored)
  }

  /**
   * The rebased path leads from the report directory to the stored file when
   * both lie on one mount; otherwise it is the joined path. It is never empty.
   */
  lemma RebaseSpec(root: AbsPath, stored: string, report: AbsPath)
    requires Canonical(root.parts) && Canonical(report.parts)
    ensures root.drive == report.drive ==> Absolute(report, Rebase(root, stored, report)) == Absolute(root, stored)
    ensures root.drive != report.drive ==> Rebase(root, stored, report) == JoinPath(Show(root), stored)
    ensures Rebase(root, stored, report) != ""
  {
    var target := Absolute(root, stored);
    if root.drive == report.drive {
      RelPathResolves(target, report);
      RelPathNonEmpty(target, report);
    } else {
      assert Show(root)[|root.drive|] == '/';
    }
  }

  /** The text json.loads reads: the details cell, or "{}" when the row has none. */
  function DetailsCell(row: Record): string {
    if "details" in row && row["details"].Str? then row["details"].s else "{}"
  }

  /** obj.get(key, default), the object's values already rendered by str(). */
  function Lookup(obj: map<string, string>, key: string, default: string): string {
    if key in obj then obj[key] else default
  }

  /**
   * The details column: "WxH colorspace depthbit" from the JSON object, '?'
   * for a missing width or height; "N/A" when the text is not a JSON object
   * (json.loads raises, or .get does on a non-object).
   */
  function DetailsText(row: Record, parseJson: string -> Option<map<string, string>>): string {
    match parseJson(DetailsCell(row))
    case None => "N/A"
    case Some(obj) =>
      Lookup(obj, "width", "?") + "x" + Lookup(obj, "height", "?") + " " + Lookup(obj, "colorspace", "") + " " + Lookup(obj, "depth", "") + "bit"
  }

  /** f"{row.get(m, 0):.2f}" as written: a text cell raises ValueError. */
  function MetricShownAsWritten(row: Record, m: string): Result<real, ReportError> {
    match Get(row, m)
    case Str(_) => Failure(NotFormattable(m))
    case Float(x) => Success(x)
    case Integer(n) => Success(n as real)
  }

  /** The value a metric shows: the number in the row, and 0 when the row has none. */
  function MetricShown(row: Record, m: string): (v: real)
    ensures m in row && row[m].Float? ==> v == row[m].x
    ensures m in row && row[m].Integer? ==> v == row[m].n as real
    ensures m !in row || row[m].Str? ==> v == 0.0
  {
    ValueOf(Get(row, m))
  }

  /**
   * A metric cell left empty in the CSV (the CSV writer leaves a column a
   * row lacks empty) stays text, because float("") raises, and formatting it
   * as written then raises; the corrected display shows 0.
   */
  lemma EmptyMetricCellRaises(raw: map<string, string>, parseNum: string -> Option<real>, m: string)
    requires LoadRecord(raw, parseNum).Success?
    requires m in raw && raw[m] == "" && parseNum("") == None && m !in TextColumns && m != "quality"
    ensures MetricShownAsWritten(LoadRecord(raw, parseNum).value, m) == Failure(NotFormattable(m))
    ensures MetricShown(LoadRecord(raw, parseNum).value, m) == 0.0
  {
    LoadedRecord(raw, parseNum);
  }

  /** As written and corrected agree on every row whose metric is a number or absent. */
  lemma MetricShownAgrees(row: Record, m: string)
    requires !Get(row, m).Str?
    ensures MetricShownAsWritten(row, m) == Success(MetricShown(row, m))
  {
  }

  /** One row of the page. */
  datatype View = View(filename: Cell, format: Cell, quality: Cell, size: Cell, details: string, metrics: seq<real>, imgSrc: string, diffSrc: string)

  /** The metrics of a row formatted as written, in the order of the names, or the first ValueError. */
  function MetricsAsWritten(row: Record, names: seq<string>): Result<seq<real>, ReportError> {
    Collect(seq(|names|, i requires 0 <= i < |names| => MetricShownAsWritten(row, names[i])))
  }

  /**
   * Formatting the metrics as written fails exactly when some name's cell is
   * text, and then names the first such; otherwise it shows what the
   * corrected display shows.
   */
  lemma MetricsAsWrittenSpec(row: Record, names: seq<string>)
    ensures MetricsAsWritten(row, names).Success? <==> forall i :: 0 <= i < |names| ==> !Get(row, names[i]).Str?
    ensures MetricsAsWritten(row, names).Success? ==>
      |MetricsAsWritten(row, names).value| == |names|
      && forall i :: 0 <= i < |names| ==> MetricsAsWritten(row, names).value[i] == MetricShown(row, names[i])
    ensures MetricsAsWritten(row, names).Failure? ==>
      exists i :: 0 <= i < |names| && Get(row, names[i]).Str? && MetricsAsWritten(row, names).error == NotFormattable(names[i])
  {
    var results := seq(|names|, i requires 0 <= i < |names| => MetricShownAsWritten(row, names[i]));
    CollectAll(results);
    forall i | 0 <= i < |names|
      ensures results[i].Success? <==> !Get(row, names[i]).Str?
      ensures results[i].Success? ==> results[i].value == MetricShown(row, names[i])
    {
    }
    if MetricsAsWritten(row, names).Failure? {
      CollectFirstFailure(results);
      var i :| FailsFirstAt(results, i) && results[i].error == MetricsAsWritten(row, names).error;
      assert Get(row, names[i]).Str?;
    }
  }

  /**
   * The row of the page for one data row as the loop builds it: the KeyError
   * of a missing column, or the ValueError of formatting a text metric.
   */
  function ViewOf(row: Record, root: AbsPath, report: AbsPath, names: seq<string>, parseJson: string -> Option<map<string, string>>): Result<View, ReportError>
    requires Canonical(root.parts) && Loaded(row)
  {
    if "relative_path" !in row then Failure(MissingKey("relative_path"))
    else if "diff_path" !in row then Failure(MissingKey("diff_path"))
    else
      var img := Rebase(root, row["relative_path"].s, report);
      var diff := if row["diff_path"].s != "" then Rebase(root, row["diff_path"].s, report) else "";
      match MetricsAsWritten(row, names)
      case Failure(e) => Failure(e)
      case Success(metrics) =>
        if "filename" !in row then Failure(MissingKey("filename"))
        else if "format" !in row then Failure(MissingKey("format"))
        else if "size_kb" !in row then Failure(MissingKey("size_kb"))
        else Success(View(row["filename"], row["format"], row["quality"], row["size_kb"], DetailsText(row, parseJson), metrics, img, diff))
  }

  /** The page row with the metric display corrected: a text metric shows 0 instead of raising. */
  function CorrectedView(row: Record, root: AbsPath, report: AbsPath, names: seq<string>, parseJson: string -> Option<map<string, string>>): Result<View, ReportError>
    requires Canonical(root.parts) && Loaded(row)
  {
    if "relative_path" !in row then Failure(MissingKey("relative_path"))
    else if "diff_path" !in row then Failure(MissingKey("diff_path"))
    else
      var img := Rebase(root, row["relative_path"].s, report);
      var diff := if row["diff_path"].s != "" then Rebase(root, row["diff_path"].s, report) else "";
      var metrics := seq(|names|, i requires 0 <= i < |names| => MetricShown(row, names[i]));
      if "filename" !in row then Failure(MissingKey("filename"))
      else if "format" !in row then Failure(MissingKey("format"))
      else if "size_kb" !in row then Failure(MissingKey("size_kb"))
      else Success(View(row["filename"], row["format"], row["quality"], row["size_kb"], DetailsText(row, parseJson), metrics, img, diff))
  }

  /**
   * A page row is made exactly when the row has the columns the loop reads
   * with row[...] and no metric shown is a text cell.
   */
  lemma ViewOfSucceeds(row: Record, root: AbsPath, report: AbsPath, names: seq<string>, parseJson: string -> Option<map<string, string>>)
    requires Canonical(root.parts) && Loaded(row)
    ensures ViewOf(row, root, report, names, parseJson).Success? <==>
      && "relative_path" in row && "diff_path" in row && "filename" in row && "format" in row && "size_kb" in row
      && forall i :: 0 <= i < |names| ==> !Get(row, names[i]).Str?
  {
    MetricsAsWrittenSpec(row, names);
  }

  /** A row whose paths are present and one of whose metrics is text raises the ValueError of the first such metric. */
  lemma ViewOfRaisesOnText(row: Record, root: AbsPath, report: AbsPath, names: seq<string>, parseJson: string -> Option<map<string, string>>, k: int)
    requires Canonical(root.parts) && Loaded(row)
    requires "relative_path" in row && "diff_path" in row
    requires 0 <= k < |names| && Get(row, names[k]).Str?
    ensures ViewOf(row, root, report, names, parseJson).Failure?
    ensures exists i :: 0 <= i < |names| && Get(row, names[i]).Str? && ViewOf(row, root, report, names, parseJson).error == NotFormattable(names[i])
  {
    MetricsAsWrittenSpec(row, names);
  }

  /** With the metric display corrected, a page row is made exactly when the row has the columns read with row[...]. */
  lemma CorrectedViewSucceeds(row: Record, root: AbsPath, report: AbsPath, names: seq<string>, parseJson: string -> Option<map<string, string>>)
    requires Canonical(root.parts) && Loaded(row)
    ensures CorrectedView(row, root, report, names, parseJson).Success? <==>
      "relative_path" in row && "diff_path" in row && "filename" in row && "format" in row && "size_kb" in row
  {
  }

  /**
   * The correction changes only the rows that raise ValueError: every other
   * outcome, page row or KeyError, is the same, and a row that raised shows
   * when it has the remaining columns.
   */
  lemma ViewOfCorrected(row: Record, root: AbsPath, report: AbsPath, names: seq<string>, parseJson: string -> Option<map<string, string>>)
    requires Canonical(root.parts) && Loaded(row)
    ensures !(ViewOf(row, root, report, names, parseJson).Failure? && ViewOf(row, root, report, names, parseJson).error.NotFormattable?) ==>
      CorrectedView(row, root, report, names, parseJson) == ViewOf(row, root, report, names, parseJson)
    ensures ViewOf(row, root, report, names, parseJson).Failure? && ViewOf(row, root, report, names, parseJson).error.NotFormattable? ==>
      (CorrectedView(row, root, report, names, parseJson).Success? <==> "filename" in row && "format" in row && "size_kb" in row)
  {
    MetricsAsWrittenSpec(row, names);
    if MetricsAsWritten(row, names).Success? {
      assert MetricsAsWritten(row, names).value == seq(|names|, i requires 0 <= i < |names| => MetricShown(row, names[i]));
    }
  }

  /**
   * The corrected page row: its image and difference image seen from the
   * report directory, no difference image exactly when none is stored, and
   * the metrics in the order of the names, 0 where the row has none.
   */
  lemma CorrectedViewSpec(row: Record, root: AbsPath, report: AbsPath, names: seq<string>, parseJson: string -> Option<map<string, string>>)
    requires Canonical(root.parts) && Canonical(report.parts) && Loaded(row)
    requires CorrectedView(row, root, report, names, parseJson).Success?
    ensures var v := CorrectedView(row, root, report, names, parseJson).value;
      && (root.drive == report.drive ==> Absolute(report, v.imgSrc) == Absolute(root, row["relative_path"].s))
      && (v.diffSrc == "" <==> row["diff_path"].s == "")
      && |v.metrics| == |names|
      && (forall i :: 0 <= i < |names| ==> v.metrics[i] == MetricShown(row, names[i]))
      && v.quality == row["quality"]
  {
    RebaseSpec(root, row["relative_path"].s, report);
    RebaseSpec(root, row["diff_path"].s, report);
  }

  /** The page row as written, when it is made, has the same image links and shows each metric's number. */
  lemma ViewOfSpec(row: Record, root: AbsPath, report: AbsPath, names: seq<string>, parseJson: string -> Option<map<string, string>>)
    requires Canonical(root.parts) && Canonical(report.parts) && Loaded(row)
    requires ViewOf(row, root, report, names, parseJson).Success?
    ensures var v := ViewOf(row, root, report, names, parseJson).value;
      && (root.drive == report.drive ==> Absolute(report, v.imgSrc) == Absolute(root, row["relative_path"].s))
      && (v.diffSrc == "" <==> row["diff_path"].s == "")
      && |v.metrics| == |names|
      && (forall i :: 0 <= i < |names| ==> v.metrics[i] == MetricShown(row, names[i]))
      && v.quality == row["quality"]
  {
    ViewOfCorrected(row, root, report, names, parseJson);
    CorrectedViewSpec(row, root, report, names, parseJson);
  }

  /** The details column falls back to "N/A" when the text is not a JSON object, and to '?' for a missing width. */
  lemma DetailsFallbacks(row: Record, parseJson: string -> Option<map<string, string>>)
    ensures parseJson(DetailsCell(row)).None? ==> DetailsText(row, parseJson) == "N/A"
    ensures parseJson(DetailsCell(row)).Some? && "width" !in parseJson(DetailsCell(row)).value ==> DetailsText(row, parseJson)[..2] == "?x"
    ensures "details" !in row ==> DetailsCell(row) == "{}"
  {
  }

  /** The outcome of each page row, in order. */
  function ViewResults(rows: seq<Record>, root: AbsPath, report: AbsPath, names: seq<string>, parseJson: string -> Option<map<string, string>>)
    : (r: seq<Result<View, ReportError>>)
    requires Canonical(root.parts) && forall i :: 0 <= i < |rows| ==> Loaded(rows[i])
    ensures |r| == |rows| && forall i :: 0 <= i < |rows| ==> r[i] == CorrectedView(rows[i], root, report, names, parseJson)
  {
    seq(|rows|, i requires 0 <= i < |rows| => CorrectedView(rows[i], root, report, names, parseJson))
  }

  /** The page rows in order, or the first exception. */
  function Views(rows: seq<Record>, root: AbsPath, report: AbsPath, names: seq<string>, parseJson: string -> Option<map<string, string>>): Result<seq<View>, ReportError>
    requires Canonical(root.parts) && forall i :: 0 <= i < |rows| ==> Loaded(rows[i])
  {
    Collect(ViewResults(rows, root, report, names, parseJson))
  }

  /** The row loop of generate_html: one page row per data row. */
  method RenderRows(rows: seq<Record>, root: AbsPath, report: AbsPath, names: seq<string>, parseJson: string -> Option<map<string, string>>)
    returns (r: Result<seq<View>, ReportError>)
    requires Canonical(root.parts) && forall i :: 0 <= i < |rows| ==> Loaded(rows[i])
    ensures r == Views(rows, root, report, names, parseJson)
  {
    ghost var results := ViewResults(rows, root, report, names, parseJson);
    var views: seq<View> := [];
    for i := 0 to |rows|
      invariant Collect(results[..i]) == Success(views)
    {
      assert results[..i + 1][..i] == results[..i];
      var v := CorrectedView(rows[i], root, report, names, parseJson);
      assert results[..i + 1][i] == v;
      if v.Failure? {
        CollectFailure(results, i + 1);
        return Failure(v.error);
      }
      views := views + [v.value];
    }
    assert results[..|rows|] == results;
    return Success(views);
  }

  /** One page row per data row, in order, unless some row raises. */
  lemma ViewsFollowRows(rows: seq<Record>, root: AbsPath, report: AbsPath, names: seq<string>, parseJson: string -> Option<map<string, string>>)
    requires Canonical(root.parts) && forall i :: 0 <= i < |rows| ==> Loaded(rows[i])
    ensures Views(rows, root, report, names, parseJson).Success? <==>
      forall i :: 0 <= i < |rows| ==> CorrectedView(rows[i], root, report, names, parseJson).Success?
    ensures Views(rows, root, report, names, parseJson).Success? ==>
      var views := Views(rows, root, report, names, parseJson).value;
      |views| == |rows| && forall i :: 0 <= i < |rows| ==> views[i] == CorrectedView(rows[i], root, report, names, parseJson).value
  {
    CollectAll(ViewResults(rows, root, report, names, parseJson));
  }

  /** metric_names: the groups of the metric columns, ascending, each once. */
  function MetricNamesOf(cols: seq<string>): (names: seq<string>)
    ensures StrictlySorted(names)
    ensures forall g :: g in names <==> g in Groups(cols)
  {
    GroupsMembers(cols);
    SortedSet(set c | c in cols :: Base(c))
  }

  /** The efficiency and channels links of each name, in order. */
  function LinkPairs(names: seq<string>): seq<ChartKind> {
    if names == [] then []
    else LinkPairs(names[..|names| - 1]) + [Efficiency(names[|names| - 1]), Channels(names[|names| - 1])]
  }

  /** The graphs section of the page: the size chart, then each name's efficiency and channels charts. */
  function Links(names: seq<string>): seq<ChartKind> {
    [SizeVsQuality] + LinkPairs(names)
  }

  /** The title a link shows; its image is graphs/ followed by FileName. */
  function LinkTitle(kind: ChartKind): string {
    match kind
    case SizeVsQuality => "Size vs Quality"
    case Efficiency(g) => g + " Efficiency"
    case Channels(g) => g + " Channels"
  }

  /** The graphs_html loop. */
  method GraphLinks(names: seq<string>) returns (links: seq<ChartKind>)
    ensures links == Links(names)
  {
    links := [SizeVsQuality];
    for i := 0 to |names|
      invariant links == [SizeVsQuality] + LinkPairs(names[..i])
    {
      assert names[..i + 1][..i] == names[..i];
      links := links + [Efficiency(names[i]), Channels(names[i])];
    }
    assert names[..|names|] == names;
  }

  /** The page lists 1 + 2n graphs: the size chart, then per name its efficiency chart and its channels chart. */
  lemma {:induction false} LinksLayout(names: seq<string>)
    ensures |Links(names)| == 1 + 2 * |names|
    ensures Links(names)[0] == SizeVsQuality
    ensures forall i :: 0 <= i < |names| ==>
      Links(names)[1 + 2 * i] == Efficiency(names[i]) && Links(names)[2 + 2 * i] == Channels(names[i])
  {
    if names != [] {
      var n := |names| - 1;
      LinksLayout(names[..n]);
      var prev := Links(names[..n]);
      assert Links(names) == prev + [Efficiency(names[n]), Channels(names[n])];
      forall i | 0 <= i < n ensures Links(names)[1 + 2 * i] == Efficiency(names[i]) && Links(names)[2 + 2 * i] == Channels(names[i]) {
        assert names[..n][i] == names[i];
      }
    }
  }

  lemma LinksMembers(names: seq<string>)
    ensures forall k :: k in Links(names) <==>
      k == SizeVsQuality || (k.Efficiency? && k.group in names) || (k.Channels? && k.group in names)
  {
    LinksLayout(names);
    var links := Links(names);
    forall k | k in links ensures k == SizeVsQuality || (k.Efficiency? && k.group in names) || (k.Channels? && k.group in names) {
      var j :| 0 <= j < |links| && links[j] == k;
      if j > 0 {
        var i := (j - 1) / 2;
        assert 0 <= i < |names|;
        if j == 1 + 2 * i {
          assert k == Efficiency(names[i]);
        } else {
          assert j == 2 + 2 * i;
          assert k == Channels(names[i]);
        }
      }
    }
    forall g | g in names ensures Efficiency(g) in links && Channels(g) in links {
      var i :| 0 <= i < |names| && names[i] == g;
      assert links[1 + 2 * i] == Efficiency(g);
    }
  }

  /**
   * Every graph the page links is drawn, except the efficiency graph of a
   * group whose bare name is not a metric column: the page links it all the
   * same, and its image is missing.
   */
  lemma LinksVsCharts(data: seq<Record>, metricCols: seq<string>)
    requires Graphs(data, metricCols).Success?
    ensures var charts := Graphs(data, metricCols).value;
      forall k :: k in Links(MetricNamesOf(metricCols)) ==> (Draws(charts, k) <==> !(k.Efficiency? && k.group !in metricCols))
  {
    GraphsKinds(data, metricCols);
    LinksMembers(MetricNamesOf(metricCols));
    var charts := Graphs(data, metricCols).value;
    assert Draws(charts, SizeVsQuality);
  }

  /** A metric measured only per channel has an efficiency link and no efficiency graph. */
  lemma DanglingEfficiencyLink(data: seq<Record>, metricCols: seq<string>, g: string)
    requires Graphs(data, metricCols).Success?
    requires g in Groups(metricCols) && g !in metricCols
    ensures Efficiency(g) in Links(MetricNamesOf(metricCols))
    ensures !Draws(Graphs(data, metricCols).value, Efficiency(g))
  {
    LinksMembers(MetricNamesOf(metricCols));
    LinksVsCharts(data, metricCols);
  }

  /** The summary box: input file name, number of variants, the formats and the metric names. */
  datatype Summary = Summary(input: string, total: nat, formats: set<string>, metrics: seq<string>)

  /** The page: the summary, the graphs section and the rows. */
  datatype Page = Page(summary: Summary, links: seq<ChartKind>, views: seq<View>)

  lemma LoadedPermutation(data: seq<Record>, rows: seq<Record>)
    requires multiset(rows) == multiset(data)
    requires forall i :: 0 <= i < |data| ==> Loaded(data[i])
    ensures forall i :: 0 <= i < |rows| ==> Loaded(rows[i])
  {
    forall i | 0 <= i < |rows| ensures Loaded(rows[i]) {
      assert rows[i] in multiset(data);
      var j :| 0 <= j < |data| && data[j] == rows[i];
    }
  }

  /** What generate_html shows, or the exception it raises. */
  function Html(originalPath: string, data: seq<Record>, cwd: AbsPath, reportDir: string, rootDir: string, metricCols: seq<string>,
                parseJson: string -> Option<map<string, string>>): Result<Page, ReportError>
    requires Canonical(cwd.parts) && forall i :: 0 <= i < |data| ==> Loaded(data[i])
  {
    if Lacks(data, "format") then Failure(MissingKey("format"))
    else
      var rows := DisplayOrder(data);
      LoadedPermutation(data, rows);
      var names := MetricNamesOf(metricCols);
      match Views(rows, Absolute(cwd, rootDir), Absolute(cwd, reportDir), names, parseJson)
      case Failure(e) => Failure(e)
      case Success(views) =>
        Success(Page(Summary(Basename(originalPath), |rows|, set i | 0 <= i < |rows| :: FormatOf(rows[i]), names), Links(names), views))
  }

  /** generate_html: sort the rows for display, list the graphs, render each row, add the summary. */
  method GenerateHtml(originalPath: string, data: seq<Record>, cwd: AbsPath, reportDir: string, rootDir: string, metricCols: seq<string>,
                      parseJson: string -> Option<map<string, string>>) returns (r: Result<Page, ReportError>)
    requires Canonical(cwd.parts) && forall i :: 0 <= i < |data| ==> Loaded(data[i])
    ensures r == Html(originalPath, data, cwd, reportDir, rootDir, metricCols, parseJson)
  {
    if Lacks(data, "format") {
      return Failure(MissingKey("format"));
    }
    var rows := DisplayOrder(data);
    LoadedPermutation(data, rows);
    var report := Absolute(cwd, reportDir);
    var root := Absolute(cwd, rootDir);
    var names := MetricNamesOf(metricCols);
    var links := GraphLinks(names);
    var views := RenderRows(rows, root, report, names, parseJson);
    if views.Failure? {
      return Failure(views.error);
    }
    var formats := set i | 0 <= i < |rows| :: FormatOf(rows[i]);
    return Success(Page(Summary(Basename(originalPath), |rows|, formats, names), links, views.value));
  }

  // ---------------------------------------------------------------------------
  // Filling the templates as written
  // ---------------------------------------------------------------------------

  /** The fields of the row template, in the order str.format meets them. */
  const RowFields: seq<string> := ["index", "format", "format", "filename", "quality", "size", "details", "img_src", "index", "metrics", "diff_src", "index"]

  /** The keyword arguments the row loop passes to the row template. */
  const RowArguments: set<string> := {"filename", "format", "quality", "size", "details", "metrics", "img_src", "diff_src"}

  /** The fields of the page head template, in order. */
  const HeadFields: seq<string> := ["summary", "metric_explanations", "graphs"]

  /** The keyword arguments generate_html passes to the head template. */
  const HeadArguments: set<string> := {"nav_links", "summary", "graphs"}

  /**
   * template.format(**kwargs) for a template with the given fields: it fills
   * when every field is passed, and otherwise raises KeyError for the first
   * field that is not.
   */
  function Fill(fields: seq<string>, passed: set<string>): (r: Result<(), ReportError>)
    ensures r.Success? <==> forall i :: 0 <= i < |fields| ==> fields[i] in passed
    ensures r.Failure? ==> exists i :: FirstMissing(fields, passed, i) && r.error == MissingKey(fields[i])
  {
    if fields == [] then Success(())
    else if fields[0] !in passed then
      assert FirstMissing(fields, passed, 0);
      Failure(MissingKey(fields[0]))
    else
      var r := Fill(fields[1..], passed);
      if r.Failure? then
        var i :| FirstMissing(fields[1..], passed, i) && r.error == MissingKey(fields[1..][i]);
        assert FirstMissing(fields, passed, i + 1);
        r
      else
        r
  }

  /** Field i is the first of the fields that is not passed. */
  predicate FirstMissing(fields: seq<string>, passed: set<string>, i: int) {
    0 <= i < |fields| && fields[i] !in passed && forall j :: 0 <= j < i ==> fields[j] in passed
  }

  /**
   * The row template names an index and the head template metric
   * explanations, and neither is passed: each fill raises KeyError for it.
   * Passing it as well would fill the template.
   */
  lemma TemplatesMissFields()
    ensures Fill(RowFields, RowArguments) == Failure(MissingKey("index"))
    ensures Fill(HeadFields, HeadArguments) == Failure(MissingKey("metric_explanations"))
    ensures Fill(RowFields, RowArguments + {"index"}).Success?
    ensures Fill(HeadFields, HeadArguments + {"metric_explanations"}).Success?
  {
    assert RowFields[0] == "index" && "index" !in RowArguments;
    assert HeadFields[1] == "metric_explanations" && HeadFields[0] in HeadArguments;
    assert "metric_explanations" !in HeadArguments;
  }

  /** One turn of the row loop as written: the page row, then the row template filled with the arguments the loop passes. */
  function RowAsWritten(row: Record, root: AbsPath, report: AbsPath, names: seq<string>, parseJson: string -> Option<map<string, string>>): Result<View, ReportError>
    requires Canonical(root.parts) && Loaded(row)
  {
    match ViewOf(row, root, report, names, parseJson)
    case Failure(e) => Failure(e)
    case Success(v) =>
      match Fill(RowFields, RowArguments)
      case Failure(e) => Failure(e)
      case Success(_) => Success(v)
  }

  /** generate_html as written: the rows as the loop renders them, then the head template. */
  function HtmlAsWritten(originalPath: string, data: seq<Record>, cwd: AbsPath, reportDir: string, rootDir: string, metricCols: seq<string>,
                         parseJson: string -> Option<map<string, string>>): Result<Page, ReportError>
    requires Canonical(cwd.parts) && forall i :: 0 <= i < |data| ==> Loaded(data[i])
  {
    if Lacks(data, "format") then Failure(MissingKey("format"))
    else
      var rows := DisplayOrder(data);
      LoadedPermutation(data, rows);
      var names := MetricNamesOf(metricCols);
      var root := Absolute(cwd, rootDir);
      var report := Absolute(cwd, reportDir);
      match Collect(seq(|rows|, i requires 0 <= i < |rows| => RowAsWritten(rows[i], root, report, names, parseJson)))
      case Failure(e) => Failure(e)
      case Success(views) =>
        match Fill(HeadFields, HeadArguments)
        case Failure(e) => Failure(e)
        case Success(_) =>
          Success(Page(Summary(Basename(originalPath), |rows|, set i | 0 <= i < |rows| :: FormatOf(rows[i]), names), Links(names), views))
  }

  /** The row the loop renders first: the first row in display order, as the loop builds it. */
  function FirstRowAsWritten(data: seq<Record>, cwd: AbsPath, reportDir: string, rootDir: string, metricCols: seq<string>,
                             parseJson: string -> Option<map<string, string>>): Result<View, ReportError>
    requires Canonical(cwd.parts) && forall i :: 0 <= i < |data| ==> Loaded(data[i])
    requires data != []
  {
    var rows := DisplayOrder(data);
    DisplayOrderSpec(data);
    assert |rows| == |data| by {
      assert |multiset(rows)| == |multiset(data)|;
    }
    LoadedPermutation(data, rows);
    ViewOf(rows[0], Absolute(cwd, rootDir), Absolute(cwd, reportDir), MetricNamesOf(metricCols), parseJson)
  }

  /**
   * generate_html as written never writes a page: with rows, the first row
   * raises its own error or KeyError('index'); without rows, the head raises
   * KeyError('metric_explanations'), where the corrected page shows the
   * empty report.
   */
  lemma HtmlAsWrittenRaises(originalPath: string, data: seq<Record>, cwd: AbsPath, reportDir: string, rootDir: string, metricCols: seq<string>,
                            parseJson: string -> Option<map<string, string>>)
    requires Canonical(cwd.parts) && forall i :: 0 <= i < |data| ==> Loaded(data[i])
    ensures HtmlAsWritten(originalPath, data, cwd, reportDir, rootDir, metricCols, parseJson).Failure?
    ensures data == [] ==>
      HtmlAsWritten(originalPath, data, cwd, reportDir, rootDir, metricCols, parseJson) == Failure(MissingKey("metric_explanations"))
      && Html(originalPath, data, cwd, reportDir, rootDir, metricCols, parseJson).Success?
    ensures data != [] && !Lacks(data, "format") ==>
      var first := FirstRowAsWritten(data, cwd, reportDir, rootDir, metricCols, parseJson);
      HtmlAsWritten(originalPath, data, cwd, reportDir, rootDir, metricCols, parseJson)
        == Failure(if first.Failure? then first.error else MissingKey("index"))
  {
    TemplatesMissFields();
    if data == [] {
      EmptyHtmlAsWritten(originalPath, cwd, reportDir, rootDir, metricCols, parseJson);
    } else if !Lacks(data, "format") {
      FirstRowRaises(originalPath, data, cwd, reportDir, rootDir, metricCols, parseJson);
    }
  }

  lemma EmptyHtmlAsWritten(originalPath: string, cwd: AbsPath, reportDir: string, rootDir: string, metricCols: seq<string>,
                           parseJson: string -> Option<map<string, string>>)
    requires Canonical(cwd.parts)
    ensures HtmlAsWritten(originalPath, [], cwd, reportDir, rootDir, metricCols, parseJson) == Failure(MissingKey("metric_explanations"))
    ensures Html(originalPath, [], cwd, reportDir, rootDir, metricCols, parseJson).Success?
  {
    TemplatesMissFields();
    DisplayOrderSpec([]);
    var rows := DisplayOrder([]);
    assert rows == [] by {
      assert |multiset(rows)| == 0;
    }
  }

  lemma FirstRowRaises(originalPath: string, data: seq<Record>, cwd: AbsPath, reportDir: string, rootDir: string, metricCols: seq<string>,
                       parseJson: string -> Option<map<string, string>>)
    requires Canonical(cwd.parts) && forall i :: 0 <= i < |data| ==> Loaded(data[i])
    requires data != [] && !Lacks(data, "format")
    ensures var first := FirstRowAsWritten(data, cwd, reportDir, rootDir, metricCols, parseJson);
      HtmlAsWritten(originalPath, data, cwd, reportDir, rootDir, metricCols, parseJson)
        == Failure(if first.Failure? then first.error else MissingKey("index"))
  {
    TemplatesMissFields();
    var rows := DisplayOrder(data);
    DisplayOrderSpec(data);
    assert |rows| == |data| by {
      assert |multiset(rows)| == |multiset(data)|;
    }
    LoadedPermutation(data, rows);
    var root := Absolute(cwd, rootDir);
    var report := Absolute(cwd, reportDir);
    var results := seq(|rows|, i requires 0 <= i < |rows| => RowAsWritten(rows[i], root, report, MetricNamesOf(metricCols), parseJson));
    assert results[..1] == [results[0]];
    CollectFailure(results, 1);
  }

  /** Everything generate_report produces: the charts and the page. */
  datatype Report = Report(charts: seq<Chart>, page: Page)

  /** generate_report on a CSV with the given header and rows. */
  function ReportOf(originalPath: string, header: seq<string>, raws: seq<map<string, string>>, cwd: AbsPath, reportDir: string, rootDir: string,
                    parseNum: string -> Option<real>, parseJson: string -> Option<map<string, string>>): Result<Report, ReportError>
    requires Canonical(cwd.parts)
  {
    match LoadAll(raws, parseNum)
    case Failure(e) => Failure(e)
    case Success(data) =>
      LoadAllLoaded(raws, parseNum);
      var metricCols := MetricCols(header);
      match Graphs(data, metricCols)
      case Failure(e) => Failure(e)
      case Success(charts) =>
        match Html(originalPath, data, cwd, reportDir, rootDir, metricCols, parseJson)
        case Failure(e) => Failure(e)
        case Success(page) => Success(Report(charts, page))
  }

  /** generate_report: load the rows, draw the graphs, write the page. */
  method GenerateReport(originalPath: string, header: seq<string>, raws: seq<map<string, string>>, cwd: AbsPath, reportDir: string, rootDir: string,
                        parseNum: string -> Option<real>, parseJson: string -> Option<map<string, string>>) returns (r: Result<Report, ReportError>)
    requires Canonical(cwd.parts)
    ensures r == ReportOf(originalPath, header, raws, cwd, reportDir, rootDir, parseNum, parseJson)
  {
    var data := LoadRows(raws, parseNum);
    if data.Failure? {
      return Failure(data.error);
    }
    LoadAllLoaded(raws, parseNum);
    var metricCols := MetricCols(header);
    var charts := GenerateGraphs(data.value, metricCols);
    if charts.Failure? {
      return Failure(charts.error);
    }
    var page := GenerateHtml(originalPath, data.value, cwd, reportDir, rootDir, metricCols, parseJson);
    if page.Failure? {
      return Failure(page.error);
    }
    return Success(Report(charts.value, page.value));
  }

  /**
   * A finished report has a page row for every CSV row, the graph list of
   * its metric names, and every linked graph drawn but the efficiency graphs
   * of groups without a bare column.
   */
  lemma ReportShape(originalPath: string, header: seq<string>, raws: seq<map<string, string>>, cwd: AbsPath, reportDir: string, rootDir: string,
                    parseNum: string -> Option<real>, parseJson: string -> Option<map<string, string>>)
    requires Canonical(cwd.parts)
    requires ReportOf(originalPath, header, raws, cwd, reportDir, rootDir, parseNum, parseJson).Success?
    ensures var rep := ReportOf(originalPath, header, raws, cwd, reportDir, rootDir, parseNum, parseJson).value;
      && |rep.page.views| == |raws| == rep.page.summary.total
      && |rep.page.links| == 1 + 2 * |rep.page.summary.metrics|
      && forall k :: k in rep.page.links ==> (Draws(rep.charts, k) <==> !(k.Efficiency? && k.group !in MetricCols(header)))
  {
    var data := LoadAll(raws, parseNum).value;
    LoadedRows(raws, parseNum);
    LoadAllLoaded(raws, parseNum);
    var metricCols := MetricCols(header);
    var rows := DisplayOrder(data);
    DisplayOrderSpec(data);
    assert |rows| == |data| by {
      assert |multiset(rows)| == |multiset(data)|;
    }
    LoadedPermutation(data, rows);
    var names := MetricNamesOf(metricCols);
    ViewsFollowRows(rows, Absolute(cwd, rootDir), Absolute(cwd, reportDir), names, parseJson);
    LinksLayout(names);
    LinksVsCharts(data, metricCols);
  }

  /**
   * Across the pipeline: when the report's root is the directory the
   * analyzer stored its paths against, the image a page row shows is the
   * variant file itself, wherever the report directory lies on that mount.
   */
  lemma ImageLinkReachesVariant(cwd: AbsPath, item: Compressor.Variant, diffDir: string, dataDir: string, tools: Analyzer.Tools, report: AbsPath)
    requires Canonical(cwd.parts) && Canonical(report.parts) && report.drive == cwd.drive
    requires Analyzer.BuildRow(cwd, item, diffDir, dataDir, tools).Success?
    ensures var root := Absolute(cwd, Dirname(dataDir));
      Absolute(report, Rebase(root, Analyzer.BuildRow(cwd, item, diffDir, dataDir, tools).value.relativePath, report)) == Absolute(cwd, item.path)
  {
    var root := Absolute(cwd, Dirname(dataDir));
    Analyzer.RowOfItem(cwd, item, diffDir, dataDir, tools);
    RebaseSpec(root, Analyzer.BuildRow(cwd, item, diffDir, dataDir, tools).value.relativePath, report);
  }
}

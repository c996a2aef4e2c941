/**
 * Metric parsing and the metrics table (scripts/libs/analyzer.py): the
 * line-oriented parser of `magick compare -verbose` output, the scalar
 * fallback, one row per variant and the CSV header. The external tools are
 * the oracles in `Tools`; the output text of a run is an input string.
 */
module Analyzer {
  import opened Wrappers
  import opened Text
  import opened Sorting
  import opened Paths
  import Compressor

  /** One parsed line: the metric key it sets and its value. */
  datatype Entry = Entry(key: string, value: real)

  /** Why analyze_results raises: os.path.getsize fails, or relpath is given an empty path. */
  datatype AnalyzeError = SizeUnavailable(path: string) | NoPathSpecified

  /**
   * The external world of one analysis:
   *   sizeKb(p)        round(os.path.getsize(p) / 1024, 2), none when getsize raises;
   *   identify(p)      the standard output of `magick identify`, none when it cannot be run;
   *   diffRuns(p)      the difference-image command for variant p could be started;
   *   compare(p, m)    the error stream of `magick compare -verbose -metric m`, none when it cannot be run;
   *   parseNum(s)      Python's float(s), none where it raises ValueError.
   */
  datatype Tools = Tools(
    sizeKb: string -> Option<real>,
    identify: string -> Option<string>,
    diffRuns: string -> bool,
    compare: (string, string) -> Option<string>,
    parseNum: string -> Option<real>)

  /** One row of the metrics table: the eight standard columns and the metric columns found for it. */
  datatype Row = Row(
    filename: string, format: string, quality: int, params: string, sizeKb: real,
    relativePath: string, diffPath: string, details: string, metrics: map<string, real>)

  /** The table analyze_results writes: its header and its rows. */
  datatype Table = Table(header: seq<string>, rows: seq<Row>)

  /** The sentinel for an infinite value (PSNR of identical images). */
  const InfValue: real := 999.0

  /** The metrics measured for each variant, in the order of metrics_map. */
  const MetricNames: seq<string> := ["MAE", "RMSE", "PSNR", "SSIM", "NCC"]

  /** The fixed columns, in header order. */
  const StandardFields: seq<string> := ["filename", "format", "quality", "params", "size_kb", "relative_path", "diff_path", "details"]

  function StandardSet(): set<string> {
    set f | f in StandardFields
  }

  // ---------------------------------------------------------------------------
  // parse_magick_output
  // ---------------------------------------------------------------------------

  /** The key a channel line sets: the bare metric for the "all" channel, otherwise metric-Channel. */
  function KeyFor(metric: string, channel: string): (k: string)
    ensures k == metric || metric + "-" <= k
    ensures k == metric <==> Lower(channel) == "all"
  {
    if Lower(channel) == "all" then metric else metric + "-" + channel
  }

  /** The value of a token: 999 when it mentions inf, else 0 when it mentions nan, else float(token). */
  function TokenValue(token: string, parseNum: string -> Option<real>): Option<real> {
    var t := Lower(token);
    if Contains(t, "inf") then Some(InfValue)
    else if Contains(t, "nan") then Some(0.0)
    else parseNum(token)
  }

  /** A stripped line the parser passes over: no colon, or a heading line. */
  predicate Skipped(l: string) {
    ':' !in l || Contains(l, "Channel distortion") || Contains(l, "Image:")
  }

  /**
   * What one output line contributes: after stripping, a line with a colon
   * names a channel before its first colon and holds its value as the first
   * space-separated token after it.
   */
  function ParseLine(line: string, metric: string, parseNum: string -> Option<real>): (r: Option<Entry>)
    ensures r.Some? ==> r.value.key == metric || metric + "-" <= r.value.key
  {
    var l := Strip(line);
    if Skipped(l) then None
    else
      var parts := Split(l, ':');
      var channel := Title(Strip(parts[0]));
      var token := Split(Strip(parts[1]), ' ')[0];
      match TokenValue(token, parseNum)
      case None => None
      case Some(v) => Some(Entry(KeyFor(metric, channel), v))
  }

  /** What each line contributes, line by line. */
  function Entries(lines: seq<string>, metric: string, parseNum: string -> Option<real>): (r: seq<Option<Entry>>)
    ensures |r| == |lines|
    ensures forall i :: 0 <= i < |r| ==> r[i] == ParseLine(lines[i], metric, parseNum)
  {
    seq(|lines|, i requires 0 <= i < |lines| => ParseLine(lines[i], metric, parseNum))
  }

  /** The dictionary after the given entries, each overwriting any earlier one with its key. */
  function Merge(entries: seq<Option<Entry>>): map<string, real> {
    if entries == [] then map[]
    else
      var data := Merge(entries[..|entries| - 1]);
      match entries[|entries| - 1]
      case None => data
      case Some(e) => data[e.key := e.value]
  }

  /** What parse_magick_output returns for an output text. */
  function Parse(output: string, metric: string, parseNum: string -> Option<real>): map<string, real> {
    Merge(Entries(SplitLines(output), metric, parseNum))
  }

  /** parse_magick_output: one pass over the lines of the output, filling the dictionary. */
  method ParseMagickOutput(output: string, metric: string, parseNum: string -> Option<real>) returns (data: map<string, real>)
    ensures data == Parse(output, metric, parseNum)
  {
    var lines := SplitLines(output);
    data := ParseLines(lines, metric, parseNum);
  }

  /** The loop of parse_magick_output over the given lines. */
  method ParseLines(lines: seq<string>, metric: string, parseNum: string -> Option<real>) returns (data: map<string, real>)
    ensures data == Merge(Entries(lines, metric, parseNum))
  {
    ghost var entries := Entries(lines, metric, parseNum);
    data := map[];
    for i := 0 to |lines|
      invariant data == Merge(entries[..i])
    {
      var e := ParseLine(lines[i], metric, parseNum);
      data := MergeLine(entries, i, data, e);
    }
    assert entries[..|lines|] == entries;
  }

  /** One step of the loop: the entry of line i, if any, overwrites its key. */
  method MergeLine(ghost entries: seq<Option<Entry>>, i: int, data: map<string, real>, e: Option<Entry>) returns (next: map<string, real>)
    requires 0 <= i < |entries| && entries[i] == e && data == Merge(entries[..i])
    ensures next == Merge(entries[..i + 1])
  {
    next := data;
    if e.Some? {
      MergeSet(entries, i, e.value);
      next := data[e.value.key := e.value.value];
    } else {
      MergeSkip(entries, i);
    }
  }

  lemma MergeSet(entries: seq<Option<Entry>>, i: int, x: Entry)
    requires 0 <= i < |entries| && entries[i] == Some(x)
    ensures Merge(entries[..i + 1]) == Merge(entries[..i])[x.key := x.value]
  {
    assert entries[..i + 1][..i] == entries[..i];
  }

  lemma MergeSkip(entries: seq<Option<Entry>>, i: int)
    requires 0 <= i < |entries| && entries[i] == None
    ensures Merge(entries[..i + 1]) == Merge(entries[..i])
  {
    assert entries[..i + 1][..i] == entries[..i];
  }

  /** Entry i sets key k. */
  predicate Sets(entries: seq<Option<Entry>>, i: int, k: string) {
    0 <= i < |entries| && entries[i].Some? && entries[i].value.key == k
  }

  /** The keys of the dictionary are exactly the keys some entry sets. */
  lemma {:induction false} MergeKeys(entries: seq<Option<Entry>>)
    ensures forall k :: k in Merge(entries) <==> exists i :: Sets(entries, i, k)
  {
    if entries != [] {
      var n := |entries| - 1;
      var init := entries[..n];
      MergeKeys(init);
      forall k ensures k in Merge(entries) <==> exists i :: Sets(entries, i, k) {
        if k in Merge(init) {
          var i :| Sets(init, i, k);
          assert Sets(entries, i, k);
        } else if k in Merge(entries) {
          assert Sets(entries, n, k);
        }
        if exists i :: Sets(entries, i, k) {
          var i :| Sets(entries, i, k);
          if i < n {
            assert Sets(init, i, k);
          }
        }
      }
    }
  }

  /** A later entry with the same key overwrites an earlier one: the value is that of the last entry setting the key. */
  lemma {:induction false} LastEntryWins(entries: seq<Option<Entry>>, i: int, k: string)
    requires Sets(entries, i, k)
    requires forall j :: i < j < |entries| ==> !Sets(entries, j, k)
    ensures k in Merge(entries) && Merge(entries)[k] == entries[i].value.value
  {
    var n := |entries| - 1;
    if i < n {
      forall j | i < j < n ensures !Sets(entries[..n], j, k) {
        assert entries[..n][j] == entries[j];
        assert !Sets(entries, j, k);
      }
      LastEntryWins(entries[..n], i, k);
      assert !Sets(entries, n, k);
    }
  }

  /** An entry that sets nothing can be removed without changing the dictionary. */
  lemma {:induction false} NoneIgnored(a: seq<Option<Entry>>, b: seq<Option<Entry>>)
    ensures Merge(a + [None] + b) == Merge(a + b)
    decreases |b|
  {
    if b == [] {
      assert (a + [None] + b)[..|a|] == a;
      assert a + b == a;
    } else {
      var n := |b| - 1;
      NoneIgnored(a, b[..n]);
      assert (a + [None] + b)[..|a| + 1 + n] == a + [None] + b[..n];
      assert (a + b)[..|a| + n] == a + b[..n];
    }
  }

  /** Every key of the parsed dictionary is the metric or starts with "metric-". */
  lemma ParsedKeys(output: string, metric: string, parseNum: string -> Option<real>)
    ensures forall k :: k in Parse(output, metric, parseNum) ==> k == metric || metric + "-" <= k
  {
    var entries := Entries(SplitLines(output), metric, parseNum);
    MergeKeys(entries);
    forall k | k in Parse(output, metric, parseNum) ensures k == metric || metric + "-" <= k {
      var i :| Sets(entries, i, k);
    }
  }

  /** The value of a key is that of the last line setting it. */
  lemma LastLineWins(output: string, metric: string, parseNum: string -> Option<real>, i: int, k: string)
    requires var lines := SplitLines(output);
      0 <= i < |lines| && ParseLine(lines[i], metric, parseNum).Some? && ParseLine(lines[i], metric, parseNum).value.key == k
      && forall j :: i < j < |lines| ==> ParseLine(lines[j], metric, parseNum).None? || ParseLine(lines[j], metric, parseNum).value.key != k
    ensures k in Parse(output, metric, parseNum)
    ensures Parse(output, metric, parseNum)[k] == ParseLine(SplitLines(output)[i], metric, parseNum).value.value
  {
    var entries := Entries(SplitLines(output), metric, parseNum);
    LastEntryWins(entries, i, k);
  }

  /** A line without a colon, or a heading line, can be dropped from the output without changing the result. */
  lemma SkippedLineIgnored(a: seq<string>, line: string, b: seq<string>, metric: string, parseNum: string -> Option<real>)
    requires Skipped(Strip(line))
    ensures Merge(Entries(a + [line] + b, metric, parseNum)) == Merge(Entries(a + b, metric, parseNum))
  {
    var ea, eb := Entries(a, metric, parseNum), Entries(b, metric, parseNum);
    SkippedNone(line, metric, parseNum);
    EntriesAppend(a + [line], b, metric, parseNum);
    EntriesAppend(a, [line], metric, parseNum);
    EntriesAppend(a, b, metric, parseNum);
    assert Entries([line], metric, parseNum) == [None];
    NoneIgnored(ea, eb);
  }

  lemma SkippedNone(line: string, metric: string, parseNum: string -> Option<real>)
    requires Skipped(Strip(line))
    ensures ParseLine(line, metric, parseNum) == None
  {
  }

  lemma EntriesAppend(a: seq<string>, b: seq<string>, metric: string, parseNum: string -> Option<real>)
    ensures Entries(a + b, metric, parseNum) == Entries(a, metric, parseNum) + Entries(b, metric, parseNum)
  {
    var l, r := Entries(a + b, metric, parseNum), Entries(a, metric, parseNum) + Entries(b, metric, parseNum);
    forall i | 0 <= i < |l| ensures l[i] == r[i] {
      if i < |a| {
        assert (a + b)[i] == a[i];
      } else {
        assert (a + b)[i] == b[i - |a|];
      }
    }
  }

  /** The value rule: any token mentioning inf, in any case, gives 999, whether or not it also mentions nan. */
  lemma InfBeforeNan(t: string, parseNum: string -> Option<real>)
    requires Contains(Lower(t), "inf")
    ensures TokenValue(t, parseNum) == Some(InfValue)
    ensures Contains(Lower(t), "nan") ==> TokenValue(t, parseNum) != Some(0.0)
  {
  }

  /** The token compare prints for an undefined distortion, "-nan(inf)", is read as 999 and not as 0. */
  lemma NanOfInfToken(parseNum: string -> Option<real>)
    ensures TokenValue("-nan(inf)", parseNum) == Some(InfValue)
  {
    assert Lower("-nan(inf)") == "-nan(inf)";
    ContainsAt("-nan(inf)", "inf", 5);
  }

  /** Neither end of s is whitespace. */
  predicate Trimmed(s: string) {
    s != [] && !IsSpace(s[0]) && !IsSpace(s[|s| - 1])
  }

  /**
   * A channel line `<channel>: <token> <rest>`, as compare prints it: the key
   * is the metric joined to the title-cased channel (or the bare metric for
   * "all"), and the value is read from the token alone.
   */
  lemma ChannelLine(channel: string, token: string, rest: string, metric: string, parseNum: string -> Option<real>)
    requires Trimmed(channel) && ':' !in channel
    requires token != [] && ':' !in token && forall i :: 0 <= i < |token| ==> !IsSpace(token[i])
    requires Trimmed(rest) && ':' !in rest
    requires var line := channel + ": " + token + " " + rest;
      !Contains(line, "Channel distortion") && !Contains(line, "Image:")
    ensures var line := channel + ": " + token + " " + rest;
      ParseLine(line, metric, parseNum)
      == match TokenValue(token, parseNum) case None => None case Some(v) => Some(Entry(KeyFor(metric, Title(channel)), v))
  {
    var after := " " + token + " " + rest;
    var line := channel + ": " + token + " " + rest;
    ChannelFields(channel, token, rest);
    TokenField(token, rest);
    TrimmedStrip(channel);
    ParseLineParts(line, metric, parseNum, channel, after, token);
  }

  /** A line whose stripped form is itself, split at its only colon into channel and the text after it. */
  lemma ParseLineParts(line: string, metric: string, parseNum: string -> Option<real>, channel: string, after: string, token: string)
    requires Strip(line) == line && !Skipped(line)
    requires Split(line, ':') == [channel, after] && Strip(channel) == channel
    requires Split(Strip(after), ' ')[0] == token
    ensures ParseLine(line, metric, parseNum)
      == match TokenValue(token, parseNum) case None => None case Some(v) => Some(Entry(KeyFor(metric, Title(channel)), v))
  {
  }

  lemma ChannelFields(channel: string, token: string, rest: string)
    requires Trimmed(channel) && ':' !in channel
    requires token != [] && ':' !in token
    requires Trimmed(rest) && ':' !in rest
    ensures var line := channel + ": " + token + " " + rest;
      Strip(line) == line && ':' in line && Split(line, ':') == [channel, " " + token + " " + rest]
  {
    var after := " " + token + " " + rest;
    var line := channel + ": " + token + " " + rest;
    LineShape(channel, token, rest);
    TrimmedStrip(line);
    AfterColonFree(token, rest);
    SplitPrefix(channel, after, ':');
    SplitOfFree(after, ':');
  }

  lemma TokenField(token: string, rest: string)
    requires token != [] && forall i :: 0 <= i < |token| ==> !IsSpace(token[i])
    requires Trimmed(rest)
    ensures Split(Strip(" " + token + " " + rest), ' ')[0] == token
  {
    StripAfter(token, rest);
    assert ' ' !in token by {
      forall i | 0 <= i < |token| ensures token[i] != ' ' {
        assert !IsSpace(token[i]);
      }
    }
    SplitPrefix(token, rest, ' ');
  }

  lemma LineShape(channel: string, token: string, rest: string)
    requires Trimmed(channel) && token != [] && Trimmed(rest)
    ensures var line := channel + ": " + token + " " + rest;
      line == channel + [':'] + (" " + token + " " + rest) && ':' in line && Trimmed(line)
  {
    var line := channel + ": " + token + " " + rest;
    assert line[|channel|] == ':';
    assert line[0] == channel[0];
    assert line[|line| - 1] == rest[|rest| - 1];
  }

  lemma AfterColonFree(token: string, rest: string)
    requires ':' !in token && ':' !in rest
    ensures ':' !in " " + token + " " + rest
  {
    var after := " " + token + " " + rest;
    forall i | 0 <= i < |after| ensures after[i] != ':' {
      if 1 <= i <= |token| {
        assert after[i] == token[i - 1];
      } else if i > |token| + 1 {
        assert after[i] == rest[i - |token| - 2];
      }
    }
  }

  lemma StripAfter(token: string, rest: string)
    requires token != [] && !IsSpace(token[0]) && Trimmed(rest)
    ensures Strip(" " + token + " " + rest) == token + " " + rest
    ensures token + " " + rest == token + [' '] + rest
  {
    var body := token + " " + rest;
    assert " " + token + " " + rest == " " + body;
    assert " " + body == [' '] + body;
    assert (" " + body)[1..] == body;
    assert body[0] == token[0] && body[|body| - 1] == rest[|rest| - 1];
    TrimmedStrip(body);
    assert IsSpace((" " + body)[0]);
    assert StripLeft(" " + body) == StripLeft(body) == body;
    assert StripRight(body) == body;
  }

  /** Stripping a trimmed text leaves it unchanged. */
  lemma TrimmedStrip(s: string)
    requires Trimmed(s)
    ensures Strip(s) == s && StripLeft(s) == s
  {
  }

  // ---------------------------------------------------------------------------
  // The scalar fallback and the metric columns of one variant
  // ---------------------------------------------------------------------------

  /**
   * When the parser finds nothing: the first space-separated token of the
   * stripped output gives 999 when it mentions inf, 0 when it is empty, and
   * float(token) otherwise; none where float raises, which the caller logs.
   */
  function Fallback(output: string, metric: string, parseNum: string -> Option<real>): (r: Option<map<string, real>>)
    ensures r.Some? ==> r.value.Keys == {metric}
  {
    var valStr := LeadToken(output);
    if Contains(Lower(valStr), "inf") then Some(map[metric := InfValue])
    else if valStr == "" then Some(map[metric := 0.0])
    else
      match parseNum(valStr)
      case None => None
      case Some(v) => Some(map[metric := v])
  }

  /** The first space-separated token of the stripped text. */
  function LeadToken(s: string): string {
    Split(Strip(s), ' ')[0]
  }

  lemma FallbackKeys(output: string, metric: string, parseNum: string -> Option<real>)
    ensures var f := Fallback(output, metric, parseNum); f.Some? ==> forall k :: k in f.value ==> k == metric
  {
  }

  /** The metric data one compare run adds to the row; none when the run or the fallback raises. */
  function MetricData(stderr: Option<string>, metric: string, parseNum: string -> Option<real>): (r: Option<map<string, real>>)
    ensures r.Some? ==> r.value != map[]
    ensures r.Some? ==> forall k :: k in r.value ==> k == metric || metric + "-" <= k
  {
    match stderr
    case None => None
    case Some(out) =>
      var d := Parse(out, metric, parseNum);
      ParsedKeys(out, metric, parseNum);
      if d != map[] then Some(d)
      else
        var f := Fallback(out, metric, parseNum);
        FallbackKeys(out, metric, parseNum);
        f
  }

  /** Output made of whitespace only parses to nothing and falls back to the value 0. */
  lemma BlankOutput(out: string, metric: string, parseNum: string -> Option<real>)
    requires forall i :: 0 <= i < |out| ==> IsSpace(out[i])
    ensures MetricData(Some(out), metric, parseNum) == Some(map[metric := 0.0])
  {
    var lines := SplitLines(out);
    var entries := Entries(lines, metric, parseNum);
    SplitLinesBlank(out);
    forall i | 0 <= i < |entries| ensures entries[i] == None {
      AllSpaceStrip(lines[i]);
    }
    MergeKeys(entries);
    assert Parse(out, metric, parseNum) == map[];
    AllSpaceStrip(out);
    SplitOfFree([], ' ');
  }

  /**
   * When the parser finds nothing, the first token decides: a token naming
   * inf gives 999, an empty token gives 0, and a token float rejects leaves
   * the metric out of the row.
   */
  lemma FallbackOutcomes(out: string, metric: string, parseNum: string -> Option<real>)
    requires Parse(out, metric, parseNum) == map[]
    ensures var token := Split(Strip(out), ' ')[0];
      && (Contains(Lower(token), "inf") ==> MetricData(Some(out), metric, parseNum) == Some(map[metric := InfValue]))
      && (token == "" ==> MetricData(Some(out), metric, parseNum) == Some(map[metric := 0.0]))
      && (!Contains(Lower(token), "inf") && token != "" ==>
            (MetricData(Some(out), metric, parseNum).None? <==> parseNum(token).None?))
      && (!Contains(Lower(token), "inf") && token != "" && parseNum(token).Some? ==>
            MetricData(Some(out), metric, parseNum) == Some(map[metric := parseNum(token).value]))
  {
    var token := Split(Strip(out), ' ')[0];
    if token == "" {
      assert Lower(token) == "";
    }
  }

  lemma AllSpaceStrip(s: string)
    requires forall c :: 0 <= c < |s| ==> IsSpace(s[c])
    ensures Strip(s) == []
  {
  }

  /** The metric columns of one variant: each metric's data merged into the row in turn. */
  function CollectMetrics(path: string, names: seq<string>, tools: Tools): map<string, real> {
    if names == [] then map[]
    else
      var prev := CollectMetrics(path, names[..|names| - 1], tools);
      var m := names[|names| - 1];
      match MetricData(tools.compare(path, m), m, tools.parseNum)
      case None => prev
      case Some(d) => prev + d
  }

  /** Every metric column of a row is a measured metric's name or starts with it and a '-'. */
  lemma {:induction false} CollectedKeys(path: string, names: seq<string>, tools: Tools)
    ensures forall k :: k in CollectMetrics(path, names, tools) ==> exists j :: 0 <= j < |names| && (k == names[j] || names[j] + "-" <= k)
  {
    if names != [] {
      var n := |names| - 1;
      CollectedKeys(path, names[..n], tools);
      forall k | k in CollectMetrics(path, names, tools)
        ensures exists j :: 0 <= j < |names| && (k == names[j] || names[j] + "-" <= k)
      {
        if k in CollectMetrics(path, names[..n], tools) {
          var j :| 0 <= j < n && (k == names[..n][j] || names[..n][j] + "-" <= k);
          assert names[j] == names[..n][j];
        } else {
          assert k == names[n] || names[n] + "-" <= k;
        }
      }
    }
  }

  // ---------------------------------------------------------------------------
  // analyze_results
  // ---------------------------------------------------------------------------

  /** The row of one variant, or the error that stops the analysis. */
  function BuildRow(cwd: AbsPath, item: Compressor.Variant, diffDir: string, dataDir: string, tools: Tools): (r: Result<Row, AnalyzeError>)
    requires Canonical(cwd.parts)
  {
    var filename := Basename(item.path);
    match tools.sizeKb(item.path)
    case None => Failure(SizeUnavailable(item.path))
    case Some(size) =>
      if item.path == "" then Failure(NoPathSpecified)
      else
        var start := Absolute(cwd, Dirname(dataDir));
        var rel := RelPath(Absolute(cwd, item.path), start).value;
        var details := match tools.identify(item.path) case None => "{}" case Some(out) => Strip(out);
        var diffPath := if tools.diffRuns(item.path) then RelPath(Absolute(cwd, JoinPath(diffDir, "diff_" + filename)), start).value else "";
        Success(Row(filename, item.format, item.quality, item.params, size, rel, diffPath, details, CollectMetrics(item.path, MetricNames, tools)))
  }

  /** The outcome of each variant, in order. */
  function RowResults(cwd: AbsPath, items: seq<Compressor.Variant>, diffDir: string, dataDir: string, tools: Tools): (r: seq<Result<Row, AnalyzeError>>)
    requires Canonical(cwd.parts)
    ensures |r| == |items|
    ensures forall i :: 0 <= i < |items| ==> r[i] == BuildRow(cwd, items[i], diffDir, dataDir, tools)
  {
    seq(|items|, i requires 0 <= i < |items| => BuildRow(cwd, items[i], diffDir, dataDir, tools))
  }

  /** What the item loop of analyze_results produces: the rows, or the error of the first variant that raises. */
  function BuildRows(cwd: AbsPath, items: seq<Compressor.Variant>, diffDir: string, dataDir: string, tools: Tools): Result<seq<Row>, AnalyzeError>
    requires Canonical(cwd.parts)
  {
    Collect(RowResults(cwd, items, diffDir, dataDir, tools))
  }

  /** Every metric key found in the rows. */
  function DiscoveredKeys(rows: seq<Row>): set<string> {
    if rows == [] then {} else DiscoveredKeys(rows[..|rows| - 1]) + rows[|rows| - 1].metrics.Keys
  }

  /** The header: the standard columns, then the discovered keys that are not standard, sorted. */
  function Header(rows: seq<Row>): seq<string> {
    StandardFields + SortedSet(DiscoveredKeys(rows) - StandardSet())
  }

  /** The table analyze_results writes: the rows, headed by Header, or the first error. */
  function Analysis(cwd: AbsPath, items: seq<Compressor.Variant>, diffDir: string, dataDir: string, tools: Tools): Result<Table, AnalyzeError>
    requires Canonical(cwd.parts)
  {
    match BuildRows(cwd, items, diffDir, dataDir, tools)
    case Failure(e) => Failure(e)
    case Success(rows) => Success(Table(Header(rows), rows))
  }

  /** analyze_results: a row per variant, then the header from the keys seen. */
  method AnalyzeResults(cwd: AbsPath, items: seq<Compressor.Variant>, diffDir: string, dataDir: string, tools: Tools)
    returns (r: Result<Table, AnalyzeError>)
    requires Canonical(cwd.parts)
    ensures r == Analysis(cwd, items, diffDir, dataDir, tools)
  {
    ghost var results := RowResults(cwd, items, diffDir, dataDir, tools);
    var allRows: seq<Row> := [];
    var allKeys := StandardSet();
    for i := 0 to |items|
      invariant Collect(results[..i]) == Success(allRows)
      invariant allKeys == StandardSet() + DiscoveredKeys(allRows)
    {
      assert results[..i + 1][..i] == results[..i];
      var row := AnalyzeItem(cwd, items[i], diffDir, dataDir, tools);
      assert results[..i + 1][i] == row;
      if row.Failure? {
        CollectFailure(results, i + 1);
        return Failure(row.error);
      }
      allRows := allRows + [row.value];
      allKeys := allKeys + row.value.metrics.Keys;
    }
    assert results[..|items|] == results;
    MetricFieldsOf(allKeys, allRows);
    var metricFields := SortedSet(set k | k in allKeys && k !in StandardFields);
    return Success(Table(StandardFields + metricFields, allRows));
  }

  lemma MetricFieldsOf(allKeys: set<string>, rows: seq<Row>)
    requires allKeys == StandardSet() + DiscoveredKeys(rows)
    ensures (set k | k in allKeys && k !in StandardFields) == DiscoveredKeys(rows) - StandardSet()
  {
  }

  /** The body of the item loop: the standard columns, the difference image and the metric loop. */
  method AnalyzeItem(cwd: AbsPath, item: Compressor.Variant, diffDir: string, dataDir: string, tools: Tools)
    returns (r: Result<Row, AnalyzeError>)
    requires Canonical(cwd.parts)
    ensures r == BuildRow(cwd, item, diffDir, dataDir, tools)
  {
    var filename := Basename(item.path);
    var size := tools.sizeKb(item.path);
    if size.None? {
      return Failure(SizeUnavailable(item.path));
    }
    if item.path == "" {
      return Failure(NoPathSpecified);
    }
    var start := Absolute(cwd, Dirname(dataDir));
    var rel := RelPath(Absolute(cwd, item.path), start).value;
    var identified := tools.identify(item.path);
    var details := if identified.None? then "{}" else Strip(identified.value);
    var diffPath := "";
    if tools.diffRuns(item.path) {
      diffPath := RelPath(Absolute(cwd, JoinPath(diffDir, "diff_" + filename)), start).value;
    }
    var metrics := MeasureMetrics(item.path, tools);
    return Success(Row(filename, item.format, item.quality, item.params, size.value, rel, diffPath, details, metrics));
  }

  /** The metric loop of one variant: each metric's data merged into the row in turn. */
  method MeasureMetrics(path: string, tools: Tools) returns (metrics: map<string, real>)
    ensures metrics == CollectMetrics(path, MetricNames, tools)
  {
    metrics := map[];
    for j := 0 to |MetricNames|
      invariant metrics == CollectMetrics(path, MetricNames[..j], tools)
    {
      assert MetricNames[..j + 1][..j] == MetricNames[..j];
      var m := MetricNames[j];
      var data := MetricData(tools.compare(path, m), m, tools.parseNum);
      if data.Some? {
        metrics := metrics + data.value;
      }
    }
    assert MetricNames[..|MetricNames|] == MetricNames;
  }

  /**
   * A variant's row copies its format, quality and params, is named by the
   * variant's file name, and holds a relative path that leads from the
   * parent of the data directory back to the variant; its diff_path is
   * empty exactly when the difference-image command could not be started.
   * The row is missing, and the analysis stops, exactly when the size
   * cannot be read or the path is empty.
   */
  lemma RowOfItem(cwd: AbsPath, item: Compressor.Variant, diffDir: string, dataDir: string, tools: Tools)
    requires Canonical(cwd.parts)
    ensures BuildRow(cwd, item, diffDir, dataDir, tools).Failure? <==> tools.sizeKb(item.path).None? || item.path == ""
    ensures BuildRow(cwd, item, diffDir, dataDir, tools).Success? ==>
      var row := BuildRow(cwd, item, diffDir, dataDir, tools).value;
      && row.filename == Basename(item.path)
      && row.format == item.format && row.quality == item.quality && row.params == item.params
      && row.sizeKb == tools.sizeKb(item.path).value
      && Absolute(Absolute(cwd, Dirname(dataDir)), row.relativePath) == Absolute(cwd, item.path)
      && (row.diffPath == "" <==> !tools.diffRuns(item.path))
  {
    if tools.sizeKb(item.path).Some? && item.path != "" {
      var start := Absolute(cwd, Dirname(dataDir));
      RelPathResolves(Absolute(cwd, item.path), start);
      if tools.diffRuns(item.path) {
        RelPathNonEmpty(Absolute(cwd, JoinPath(diffDir, "diff_" + Basename(item.path))), start);
      }
    }
  }

  /** Exactly one row per variant, in variant order, unless some variant stops the analysis. */
  lemma RowsFollowItems(cwd: AbsPath, items: seq<Compressor.Variant>, diffDir: string, dataDir: string, tools: Tools)
    requires Canonical(cwd.parts)
    ensures BuildRows(cwd, items, diffDir, dataDir, tools).Success? <==>
      forall i :: 0 <= i < |items| ==> BuildRow(cwd, items[i], diffDir, dataDir, tools).Success?
    ensures BuildRows(cwd, items, diffDir, dataDir, tools).Success? ==>
      var rows := BuildRows(cwd, items, diffDir, dataDir, tools).value;
      |rows| == |items| && forall i :: 0 <= i < |items| ==> rows[i] == BuildRow(cwd, items[i], diffDir, dataDir, tools).value
  {
    CollectAll(RowResults(cwd, items, diffDir, dataDir, tools));
  }

  /** A key is discovered exactly when some row has it. */
  lemma {:induction false} DiscoveredKeysIn(rows: seq<Row>)
    ensures forall k :: k in DiscoveredKeys(rows) <==> exists i :: 0 <= i < |rows| && k in rows[i].metrics
  {
    if rows != [] {
      var n := |rows| - 1;
      DiscoveredKeysIn(rows[..n]);
      forall k ensures k in DiscoveredKeys(rows) <==> exists i :: 0 <= i < |rows| && k in rows[i].metrics {
        if k in DiscoveredKeys(rows[..n]) {
          var i :| 0 <= i < n && k in rows[..n][i].metrics;
          assert rows[..n][i] == rows[i];
        }
        if exists i :: 0 <= i < |rows| && k in rows[i].metrics {
          var i :| 0 <= i < |rows| && k in rows[i].metrics;
          if i < n {
            assert rows[..n][i] == rows[i];
          }
        }
      }
    }
  }

  /** The header starts with the eight standard columns; the rest is ascending. */
  lemma HeaderOrder(rows: seq<Row>)
    ensures Header(rows)[..8] == StandardFields
    ensures StrictlySorted(Header(rows)[8..])
  {
    var h := Header(rows);
    assert h[8..] == SortedSet(DiscoveredKeys(rows) - StandardSet());
  }

  /** No column of the header repeats. */
  lemma HeaderDistinct(rows: seq<Row>)
    ensures forall i, j :: 0 <= i < j < |Header(rows)| ==> Header(rows)[i] != Header(rows)[j]
  {
    var h := Header(rows);
    var keys := DiscoveredKeys(rows) - StandardSet();
    var sorted := SortedSet(keys);
    assert h[8..] == sorted;
    StandardDistinct();
    forall i, j | 0 <= i < j < |h| ensures h[i] != h[j] {
      if j < 8 {
        assert h[i] == StandardFields[i] && h[j] == StandardFields[j];
      } else if i < 8 {
        assert h[j] == sorted[j - 8] && h[j] in keys;
        assert h[i] == StandardFields[i];
      } else {
        assert h[i] == sorted[i - 8] && h[j] == sorted[j - 8];
        BelowIrreflexive(h[i]);
      }
    }
  }

  lemma StandardDistinct()
    ensures forall i, j :: 0 <= i < j < 8 ==> StandardFields[i] != StandardFields[j]
  {
    var heads: seq<string> := ["fi", "fo", "qu", "pa", "si", "re", "di", "de"];
    assert StandardFields[0][..2] == heads[0];
    assert StandardFields[1][..2] == heads[1];
    assert StandardFields[2][..2] == heads[2];
    assert StandardFields[3][..2] == heads[3];
    assert StandardFields[4][..2] == heads[4];
    assert StandardFields[5][..2] == heads[5];
    assert StandardFields[6][..2] == heads[6];
    assert StandardFields[7][..2] == heads[7];
    forall i, j | 0 <= i < j < 8 ensures StandardFields[i] != StandardFields[j] {
      assert heads[i] != heads[j];
    }
  }

  /**
   * Every column of every row is in the header, so the CSV writer accepts
   * every row, and every metric column of the header is some row's key.
   */
  lemma HeaderCoversRows(rows: seq<Row>)
    ensures forall i, k :: 0 <= i < |rows| && k in rows[i].metrics ==> k in Header(rows)
    ensures forall j :: 8 <= j < |Header(rows)| ==> exists i :: 0 <= i < |rows| && Header(rows)[j] in rows[i].metrics
  {
    var keys := DiscoveredKeys(rows) - StandardSet();
    HeaderParts(Header(rows), SortedSet(keys), keys);
    DiscoveredKeysIn(rows);
  }

  /** The standard columns followed by an enumeration of keys: it holds both, and past the eighth column only keys. */
  lemma HeaderParts(h: seq<string>, sorted: seq<string>, keys: set<string>)
    requires h == StandardFields + sorted && forall x :: x in sorted <==> x in keys
    ensures forall k :: k in StandardSet() || k in keys ==> k in h
    ensures forall j :: 8 <= j < |h| ==> h[j] in keys
  {
    forall k | k in StandardSet() || k in keys ensures k in h {
      if k in StandardSet() {
        var f :| 0 <= f < 8 && StandardFields[f] == k;
        assert h[f] == k;
      } else {
        var p :| 0 <= p < |sorted| && sorted[p] == k;
        assert h[8 + p] == k;
      }
    }
    forall j | 8 <= j < |h| ensures h[j] in keys {
      assert h[j] == sorted[j - 8];
    }
  }
}

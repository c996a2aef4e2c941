# Image compression quality pipeline — a verified model

The pipeline compresses one image into many variants, measures each variant
against the original with ImageMagick, and writes a report.

- **Planning the variants** (`scripts/compressor.py`, module `Compressor`):
  - builds the quality ladder from `steps`;
  - derives the output base name;
  - turns each requested format (WebP, or JPEG under the names jpg/jpeg)
    into an ordered list of encodes;
  - keeps a descriptor for every encode that succeeds.
- **Analysis** (`scripts/libs/analyzer.py`, module `Analyzer`):
  - parses the verbose output of `magick compare` into per-channel metric
    keys (`PSNR`, `PSNR-Red`, ...);
  - falls back to the leading scalar when no line parses;
  - builds one table row per variant;
  - computes the CSV header: the eight standard columns, then the
    discovered metric keys in ascending order.
- **Report** (`scripts/libs/reporter.py`, module `Reporter`):
  - reloads the CSV and coerces its cells to float and int;
  - groups the metric columns by their base name;
  - decides which charts are drawn, their series, and the order and
    styling of those series;
  - shapes the HTML page: display order, graph links, one row view per
    variant with paths rebased onto the report directory, and the summary;
  - as written, the page step always raises (see Findings). The model
    states that, and builds the page the code evidently means.

Supporting modules:
- `Wrappers`: Option and Result, plus `Collect`, which gathers per-element
  results and stops at the first error.
- `Text`: the Python string operations used, namely strip, lower, title,
  split, splitlines, `in`, `<` and `str(int)`.
- `Sorting`: the stable `sorted`/`list.sort` with a key, and `sorted` of a
  set of strings.
- `Paths`: `basename`, `dirname`, `splitext`, `join`, `abspath` and
  `relpath` on text paths.

The external world is passed in as total function parameters. None of them
is executed.
- The encoders: `encode(tag, encoding)` says whether the tool exited with
  0, exited with another status, or could not be launched.
- ImageMagick: `Tools.compare`, `Tools.identify`, `Tools.diffRuns`.
- The file size: `Tools.sizeKb`.
- Python's `float()`: `parseNum`.
- `json.loads`: `parseJson`.

Most loops of the source are methods, each proved equal to a specification
function. Those functions carry the properties: ladders, plans, parsed maps,
rows, headers, loaded records, groups, charts, views and links.

The model follows the code where its behaviour is easy to misread:
- `steps = 2` with WebP alone yields four descriptors: qualities 5, 50 and
  100, then lossless. See `Compressor.WebpStepsTwo`.
- The ladder repeats the floor quality 5 when the step size is 1 or 5,
  because the guard tests for 0. See `Compressor.FloorDuplicated`.
- A negative `steps` gives the ladder `[5]`. `steps` of 0 or above 100
  raises.

## Model

| member | source | states |
|---|---|---|
| Compressor.FloorDiv | scripts/compressor.py:14 | `100 // steps` rounds towards negative infinity: the result brackets the true quotient from below for a positive divisor and from above for a negative one |
| Compressor.Range | scripts/compressor.py:15 | `range(start, stop, step)`: with a positive step its i-th element is `start + i*step`, each below stop and the next would reach stop; with a negative step and `start <= stop` it is empty |
| Compressor.LadderCases | scripts/compressor.py:14-18 | raises exactly for steps 0 (ZeroDivisionError) and steps above 100 (zero range step); negative steps give `[5]`; steps 1..100 give 5 followed by the multiples of `100 // steps` up to 100 |
| Compressor.LadderLength | scripts/compressor.py:14-18 | the ladder has `100 // step_size + 1` rungs |
| Compressor.LadderIncreasing | scripts/compressor.py:15 | after the prepended floor, the rungs strictly increase |
| Compressor.FloorDuplicated | scripts/compressor.py:17-18 | 5 occurs again after the floor exactly when the step size is 1 or 5 |
| Compressor.LadderOfThree | scripts/compressor.py:14-18 | steps 3 gives `[5, 33, 66, 99]`, so 100 is not reached |
| Compressor.LadderOfStepFive | scripts/compressor.py:14-18 | steps 17..20 give 21 rungs, starting 5, 5 and ending at 100 |
| Compressor.LadderOfTwo | scripts/compressor.py:14-18 | steps 2 gives `[5, 50, 100]` |
| Compressor.BaseName | scripts/compressor.py:20 | the base name is separator-free (the file name without its extension) |
| Compressor.LossyFileName | scripts/compressor.py:28-29 | a lossy output is named `<base>_q<q>.webp` or `<base>_q<q>.jpg` inside the output directory |
| Compressor.FormatCaseInsensitive | scripts/compressor.py:23 | the requested format is matched after lower-casing |
| Compressor.UnknownFormat | scripts/compressor.py:25-60 | a format other than webp, jpg and jpeg plans no encode |
| Compressor.WebpBlock | scripts/compressor.py:25-58 | a WebP request is one `-q <q>` encode per rung in ladder order, then one lossless encode recorded as quality 100; only that one has params `-lossless` |
| Compressor.JpegBlock | scripts/compressor.py:60-79 | a jpg/jpeg request is one `-quality <q>` encode per rung, all recorded as format `jpeg`, with no lossless encode |
| Compressor.RunAppend | scripts/compressor.py:22-79 | running two batches of encodes in sequence equals running their concatenation |
| Compressor.CompressFormat | scripts/compressor.py:25-79 | the body of the format loop returns the outcome of running that format's encodes |
| Compressor.RunCompressions | scripts/compressor.py:7-81 | the function returns the planned run over the ladder and the formats in order, or the error that stops it |
| Compressor.PlanAttemptsFailure | scripts/compressor.py:22-79 | once a format aborts the run, later formats do not change the error |
| Compressor.RunFailure | scripts/compressor.py:34-43 | the run raises exactly when some lossy encoder cannot be launched (only CalledProcessError is caught there), and the error names the first such encode |
| Compressor.RunSuccess | scripts/compressor.py:34-58 | the returned descriptors are exactly those of the successful encodes, in attempt order and one per successful attempt (`Kept`), so a subsequence of the planned ones, and a descriptor is returned exactly when one of its encodes succeeded |
| Compressor.RunAllEncoded | scripts/compressor.py:34-58 | when every encode succeeds, every planned descriptor is returned, in order |
| Compressor.PlanOneFormat | scripts/compressor.py:7-81 | with one requested format, the run is that format's block of encodes |
| Compressor.WebpAllEncoded | scripts/compressor.py:25-58 | a lone successful WebP request returns one descriptor per rung in ladder order, then the lossless one with quality 100 |
| Compressor.WebpStepsTwo | scripts/compressor.py:7-81 | steps 2 with WebP gives four descriptors: 5, 50 and 100, then lossless at 100 |
| Analyzer.KeyFor | scripts/libs/analyzer.py:60-64 | the key is the bare metric name exactly when the channel lower-cases to `all`; otherwise it starts with `<metric>-` |
| Analyzer.ParseLine | scripts/libs/analyzer.py:44-68 | a parsed line sets the metric's own key or one starting with `<metric>-` |
| Analyzer.ParseMagickOutput | scripts/libs/analyzer.py:36-70 | the function returns the parse of the whole output: its lines merged in order |
| Analyzer.ParseLines | scripts/libs/analyzer.py:43-68 | the line loop leaves each key with the value of the last line that sets it |
| Analyzer.MergeKeys | scripts/libs/analyzer.py:66 | a key is in the result exactly when some line sets it |
| Analyzer.LastEntryWins | scripts/libs/analyzer.py:66 | a key's value is the one from the last line that sets it |
| Analyzer.NoneIgnored | scripts/libs/analyzer.py:45-46 | a line that yields nothing can be dropped without changing the result |
| Analyzer.ParsedKeys | scripts/libs/analyzer.py:60-66 | every key of the parsed map is the metric or `<metric>-<channel>` |
| Analyzer.LastLineWins | scripts/libs/analyzer.py:43-66 | when line i is the last to set key k, k maps to that line's value |
| Analyzer.SkippedLineIgnored | scripts/libs/analyzer.py:44-46 | a line without a colon, or a heading line, does not affect the result wherever it stands |
| Analyzer.SkippedNone | scripts/libs/analyzer.py:45-46 | such a line yields no entry |
| Analyzer.InfBeforeNan | scripts/libs/analyzer.py:53-56 | every token whose lower-cased text contains `inf` is read as the infinity sentinel 999, and never as 0 even when it also contains `nan` |
| Analyzer.NanOfInfToken | scripts/libs/analyzer.py:53-56 | the token `-nan(inf)` is read as 999 |
| Analyzer.ChannelLine | scripts/libs/analyzer.py:48-66 | a line `Channel: token rest` sets the key of the title-cased channel to the token's value, or yields nothing when float() rejects the token |
| Analyzer.Fallback | scripts/libs/analyzer.py:137-141 | the fallback result holds exactly the metric's own key |
| Analyzer.MetricData | scripts/libs/analyzer.py:133-147 | a metric's data, when any, is non-empty and uses only the metric's keys |
| Analyzer.BlankOutput | scripts/libs/analyzer.py:137-141 | an all-blank output records the metric as 0.0 |
| Analyzer.FallbackOutcomes | scripts/libs/analyzer.py:137-141 | when no line parses, the leading token gives 999 if it contains `inf` and 0.0 if it is empty; otherwise the metric is lost exactly when float() rejects the token, and a token float() accepts is recorded under the metric's own key as float(token) |
| Analyzer.CollectedKeys | scripts/libs/analyzer.py:130-144 | every key in a row's metrics belongs to one of the metric names |
| Analyzer.AnalyzeItem | scripts/libs/analyzer.py:94-149 | the loop body computes the row of one variant, or the error it raises |
| Analyzer.MeasureMetrics | scripts/libs/analyzer.py:130-147 | the metric loop merges each metric's data into the row's metrics in turn |
| Analyzer.RowOfItem | scripts/libs/analyzer.py:94-127 | a row fails exactly when the size is unavailable or the path is empty; otherwise it has the variant's name, format, quality, params and size, its relative path resolves from the data directory's parent back to the variant, and the diff path is empty exactly when the diff command could not run |
| Analyzer.AnalyzeResults | scripts/libs/analyzer.py:87-154 | the function returns the table (header plus one row per variant), or the first error |
| Analyzer.MetricFieldsOf | scripts/libs/analyzer.py:88-91 | the non-standard keys seen are the discovered keys minus the standard ones |
| Analyzer.RowsFollowItems | scripts/libs/analyzer.py:93-149 | the rows are built exactly when every variant succeeds, and then there is one per variant, in order |
| Analyzer.DiscoveredKeysIn | scripts/libs/analyzer.py:144 | a key is discovered exactly when some row has it |
| Analyzer.HeaderOrder | scripts/libs/analyzer.py:152-154 | the header starts with the eight standard fields, and the rest is strictly ascending |
| Analyzer.HeaderDistinct | scripts/libs/analyzer.py:152-154 | no column name repeats in the header |
| Analyzer.StandardDistinct | scripts/libs/analyzer.py:152 | the standard fields are distinct |
| Analyzer.HeaderCoversRows | scripts/libs/analyzer.py:144-154 | every key of every row is a header column, and every metric column is some row's key |
| Reporter.Truncate | scripts/libs/reporter.py:46 | `int()` of a float truncates towards zero |
| Reporter.CoerceRow | scripts/libs/reporter.py:40-45 | the key loop replaces every non-text cell that float() accepts by its float, and leaves the rest as text |
| Reporter.LoadRows | scripts/libs/reporter.py:35-47 | the load loop returns all rows coerced, with quality made an int, or the first error |
| Reporter.LoadedRows | scripts/libs/reporter.py:35-47 | loading succeeds exactly when every row has a quality that float() accepts; then there is one row per CSV row, each with its CSV row's columns, text columns as text, other cells as float exactly when float() accepts them, and quality the truncation |
| Reporter.LoadedRecord | scripts/libs/reporter.py:40-46 | the same for one row |
| Reporter.LoadAllLoaded | scripts/libs/reporter.py:40-46 | every loaded row has text in its text columns and an int quality |
| Reporter.MetricColsMembers | scripts/libs/reporter.py:50-52 | a column is a metric column exactly when it is in the header and not fixed; the header order is kept |
| Reporter.MetricColsAppend | scripts/libs/reporter.py:50-52 | the filter distributes over concatenation |
| Reporter.MetricColsOfAnalysis | scripts/libs/reporter.py:50-52 | on a header the analyzer wrote, the metric columns are exactly the columns after the eight standard ones |
| Reporter.Base | scripts/libs/reporter.py:64 | a group name is the prefix of the column before its first `-`, and contains no `-` |
| Reporter.GroupMetrics | scripts/libs/reporter.py:62-67 | the grouping loop yields the groups in order of first appearance, each mapped to its columns in column order |
| Reporter.GroupsMembers | scripts/libs/reporter.py:62-67 | a group exists exactly when some column has that base, and groups do not repeat |
| Reporter.MembersAbsent | scripts/libs/reporter.py:62-67 | a name that is not a group has no columns |
| Reporter.MembersPartition | scripts/libs/reporter.py:62-67 | a group holds every column of its base (counting repeats) and nothing else, in column order |
| Reporter.CellLeTotalPreorder | scripts/libs/reporter.py:94 | the cell order used to sort is a total preorder |
| Reporter.ByKeyTotalPreorder | scripts/libs/reporter.py:94 | so is sorting rows by one column |
| Reporter.OfFormatMembers | scripts/libs/reporter.py:94 | the rows of a format are exactly the rows whose format cell equals it, in data order |
| Reporter.Column | scripts/libs/reporter.py:95-96 | a row's cell of the column is the cell the row holds under that key, and `Integer(0)` when the row lacks the key, as `d.get(k, 0)` reads it; one per row |
| Reporter.SortedSubsetSpec | scripts/libs/reporter.py:94 | sorting a format's rows raises exactly when a row lacks the x column or that column mixes text and numbers; otherwise the result is a permutation of the format's rows, ascending in x, and rows with equal x keep their order |
| Reporter.CreateChartShape | scripts/libs/reporter.py:91-97 | one line per format, labelled by the format, with as many x as y values as the format has rows, and x ascending |
| Reporter.Channel | scripts/libs/reporter.py:119 | the channel is the field after the first `-` (or `All`) and contains no `-` |
| Reporter.ChannelSeries | scripts/libs/reporter.py:118-126 | one line per column |
| Reporter.MultiChartShape | scripts/libs/reporter.py:108-126 | `formats × columns` lines, each with as many y as x values |
| Reporter.ChannelLineStyle | scripts/libs/reporter.py:111-126 | a line is labelled `<format> <channel>`, coloured black for an unknown channel, drawn solid for an unknown format, and reads 0 where a row lacks its column |
| Reporter.ChannelOfKey | scripts/libs/reporter.py:119 | splitting a key the analyzer built recovers its metric, and its channel (`All` for the bare key) |
| Reporter.GenerateGraphs | scripts/libs/reporter.py:59-89 | the function requests exactly the charts of `Graphs`, or raises its first error |
| Reporter.ChartGroups | scripts/libs/reporter.py:77-89 | the group loop appends each group's charts in group order |
| Reporter.ChartGroup | scripts/libs/reporter.py:78-89 | one group's charts: the efficiency chart when the bare name is a column, then the channels chart |
| Reporter.GroupChartsFailure | scripts/libs/reporter.py:77-89 | once a group raises, later groups do not change the error |
| Reporter.DrawsAppend | scripts/libs/reporter.py:69-89 | a chart is drawn by two batches exactly when one of them draws it |
| Reporter.GroupChartsOfKinds | scripts/libs/reporter.py:78-89 | one group draws its channels chart, and its efficiency chart exactly when its bare name is a member |
| Reporter.GroupChartsKinds | scripts/libs/reporter.py:77-89 | the group loop draws a channels chart for each group and an efficiency chart for each group whose bare name is a member, never the size chart |
| Reporter.GraphsKinds | scripts/libs/reporter.py:59-89 | the size-vs-quality chart comes first and only there; there is a channels chart exactly per group, and an efficiency chart exactly for the groups whose bare name is a metric column |
| Reporter.GroupInMembers | scripts/libs/reporter.py:78 | a group's bare name is among its columns exactly when it is a metric column |
| Reporter.DisplayLeTotalPreorder | scripts/libs/reporter.py:144 | the display key `(format, -quality)` is a total preorder |
| Reporter.DisplayOrderSpec | scripts/libs/reporter.py:144 | the displayed rows are a permutation of the data, ascending by format and descending by quality within a format, ties in input order |
| Reporter.RebaseSpec | scripts/libs/reporter.py:137-141 | on one mount the rebased path leads from the report directory to the stored file; across mounts it is the joined absolute path; it is never empty |
| Reporter.DetailsFallbacks | scripts/libs/reporter.py:167-171 | details show `N/A` when the text is not a JSON object, `?` for a missing width, and use `{}` when the row has no details |
| Reporter.MetricShown | scripts/libs/reporter.py:173-176 | a metric shows its number, or 0 when the row lacks it or holds text (corrected) |
| Reporter.EmptyMetricCellRaises | scripts/libs/reporter.py:173-176 | a loaded row whose metric cell was empty makes the formatting as written raise |
| Reporter.MetricShownAgrees | scripts/libs/reporter.py:173-176 | where the cell is not text, the written and corrected formatting agree |
| Reporter.MetricsAsWrittenSpec | scripts/libs/reporter.py:173-176 | formatting a row's metrics as written fails exactly when some metric cell is text, naming the first such metric; otherwise each shows its number, or 0 when absent |
| Reporter.ViewOfSucceeds | scripts/libs/reporter.py:158-187 | as written, a page row is made exactly when the row has relative_path, diff_path, filename, format and size_kb and no metric cell shown is text |
| Reporter.ViewOfRaisesOnText | scripts/libs/reporter.py:158-176 | a row with both paths and a text metric cell raises ValueError for the first text metric |
| Reporter.ViewOfSpec | scripts/libs/reporter.py:158-187 | the page row's image resolves to the stored image on one mount, it has no diff image exactly when none is stored, and its metrics follow the metric names |
| Reporter.CorrectedViewSucceeds | scripts/libs/reporter.py:158-187 | with the metric display corrected, a page row is made exactly when the row has relative_path, diff_path, filename, format and size_kb |
| Reporter.ViewOfCorrected | scripts/libs/reporter.py:173-187 | the correction changes only the rows that raise ValueError; every other outcome is the same, and such a row shows when it has the remaining columns |
| Reporter.CorrectedViewSpec | scripts/libs/reporter.py:158-187 | the corrected page row has the same image links and shows each metric's number, or 0 |
| Reporter.RenderRows | scripts/libs/reporter.py:157-187 | the row loop returns the corrected views of all rows, or the first error |
| Reporter.ViewsFollowRows | scripts/libs/reporter.py:157-187 | rendering succeeds exactly when every row does, and then gives one view per row, in order |
| Wrappers.CollectFirstFailure | scripts/libs/reporter.py:157-187 | a loop that stops at the first exception reports the error of the first item that raises |
| Reporter.Fill | scripts/libs/reporter.py:178-187 | `str.format` with keyword arguments fills exactly when every field of the template is passed, and otherwise raises KeyError naming the first field not passed |
| Reporter.TemplatesMissFields | scripts/libs/html_templates.py:143-162 | the row template's `index` and the head template's `metric_explanations` are not passed, so each fill raises KeyError for that field; passing it as well would fill the template |
| Reporter.HtmlAsWrittenRaises | scripts/libs/reporter.py:157-199 | as written, generate_html never writes a page: the first row raises its own error or KeyError('index'), and with no rows the head raises KeyError('metric_explanations') where the corrected page is the empty report |
| Reporter.EmptyHtmlAsWritten | scripts/libs/reporter.py:199 | with no rows, the head fill raises KeyError('metric_explanations') |
| Reporter.FirstRowRaises | scripts/libs/reporter.py:157-187 | with rows, the first displayed row raises its own error, or else KeyError('index') |
| Reporter.MetricNamesOf | scripts/libs/reporter.py:148 | the metric names are strictly ascending and are exactly the groups |
| Reporter.GraphLinks | scripts/libs/reporter.py:150-155 | the link loop builds the size link, then each name's efficiency and channels links |
| Reporter.LinksLayout | scripts/libs/reporter.py:150-155 | there are `1 + 2n` links: size first, then at `1+2i` and `2+2i` the efficiency and channels links of name i |
| Reporter.LinksMembers | scripts/libs/reporter.py:150-155 | a link is present exactly when it is the size link or a name's efficiency or channels link |
| Reporter.LinksVsCharts | scripts/libs/reporter.py:150-155 | every linked graph is drawn, except the efficiency graph of a group with no bare column |
| Reporter.DanglingEfficiencyLink | scripts/libs/reporter.py:153-154 | a metric measured only per channel is linked to an efficiency graph that is never drawn |
| Reporter.LoadedPermutation | scripts/libs/reporter.py:144 | reordering keeps every row loaded |
| Reporter.GenerateHtml | scripts/libs/reporter.py:143-202 | the function builds the corrected page: summary, graph links and the corrected row views in display order |
| Reporter.GenerateReport | scripts/libs/reporter.py:25-57 | the function loads the rows, draws the graphs and builds the page, stopping at the first error |
| Reporter.ReportShape | scripts/libs/reporter.py:25-57 | a finished report has one page row per CSV row (the variant total), `1 + 2·names` links, and every link drawn except the efficiency graphs of groups with no bare column |
| Reporter.ImageLinkReachesVariant | scripts/libs/reporter.py:159-160 | across analyzer and reporter, the image a page row shows is the variant file itself when the report's root is the data directory's parent |
| Paths.RelPath | scripts/libs/reporter.py:137-141 | relpath fails exactly when the two paths are on different mounts |
| Paths.RelPathResolves | scripts/libs/analyzer.py:105 | on one mount, resolving relpath's result from the start gives back the target |
| Paths.RelPathNonEmpty | scripts/libs/analyzer.py:124 | relpath on one mount is never empty (it is `.` for the same directory) |
| Paths.BasenameOfJoin | scripts/libs/analyzer.py:95 | the base name of `join(dir, name)` is name |
| Paths.StemOf | scripts/compressor.py:20 | splitext drops the last extension, keeping leading dots |
| Text.Split | scripts/libs/analyzer.py:48-50 | `str.split` yields pieces without the separator that join back to the input, and one piece exactly when the separator is absent |
| Text.Strip | scripts/libs/analyzer.py:44 | the result of `strip` neither starts nor ends with whitespace |
| Text.StripRemovesBlanksOnly | scripts/libs/analyzer.py:44 | `strip` removes whitespace only: its result is a slice of the input with nothing but whitespace before and after it |
| Text.LowerOfTitle | scripts/libs/analyzer.py:61 | lower-casing a title-cased channel equals lower-casing the channel |
| Sorting.SortBySorted | scripts/libs/reporter.py:94 | the key sort yields a sequence ordered by the key |
| Sorting.SortByStable | scripts/libs/reporter.py:94 | the key sort keeps elements with equal keys in input order |
| Sorting.SortedSet | scripts/libs/analyzer.py:153 | `sorted` of a set of strings: all of them, each once, strictly ascending |
| Wrappers.CollectAll | scripts/libs/analyzer.py:93-149 | a per-item loop that stops at the first exception succeeds exactly when every item does, and then keeps each item's value in order |
| Wrappers.CollectFailure | scripts/libs/reporter.py:38-47 | once an item has raised, later items do not change the error |

## Left out

- Processes, files and logging are not modelled. The subprocess calls, the
  CSV and HTML files, `os.makedirs` and the logger are replaced by the
  oracle parameters listed above and by result values. The model returns
  what would be written.
- Matplotlib rendering is not modelled: figure size, markers, titles, grid,
  legend placement and SVG output. A chart is the list of series it would
  plot.
- The HTML text of the templates is not modelled. A page is its summary,
  link list and row views. Of `html_templates.py` only the field names of
  the head and row templates are modelled, in order, so that filling them
  can raise KeyError.
- Floating point is not modelled. Values are reals; `round(size / 1024, 2)`
  is the sizeKb oracle; `{val:.2f}` is the real value; float() infinities
  and NaN do not arise.
- The 999 sentinel is modelled, but NaN is not.
- CSV serialisation is not modelled: quoting, the `restval` of
  `DictWriter`, and rows shorter or longer than the header in `DictReader`.
  Each CSV row is a map from its columns to their text.
- The original image argument of the compare commands is folded into the
  compare oracle.
- `get_image_details` is the identify oracle.
- Set iteration order is modelled as ascending. This covers the formats of
  `generate_graphs` (line 60) and the summary's format list, which is a set
  in the model.
- `int(text)` for a quality that float() rejects: the model assumes int()
  rejects it too, as the CSV the analyzer writes never holds such text.
- `data.sort` in place is modelled on values. The sorted rows are returned,
  and the aliasing that lets the caller see them is not represented.
- Reporter.GenerateHtml requires loaded data (text columns hold text, and
  quality is an int). This is the only data `generate_report` passes it.
  Other inputs, for which `-x['quality']` would raise TypeError, are not
  modelled.
- Reporter.CellLe orders numbers before texts only so that it is total.
  Python raises TypeError there. The model reports that case as the
  `MixedTypes` error before sorting, so the order on mixed cells is never
  used.
- Paths are POSIX text paths with `/` as separator, and case is ASCII only.
  A mount is a label, so that relpath can fail across mounts as on Windows.
- Reporter.RenderRows and Reporter.ViewsFollowRows
  build each row with Reporter.CorrectedView, which shows a text metric
  cell as 0. The loop as written raises ValueError there (Reporter.ViewOf)
  and then KeyError('index') for the row template (Findings).
- Reporter.GenerateHtml and Reporter.Html build the corrected page: rows as
  Reporter.CorrectedView shapes them, and both templates filled as if they
  named only the arguments passed. As written the function always raises
  (Reporter.HtmlAsWritten, Reporter.HtmlAsWrittenRaises).
- Reporter.GenerateReport and Reporter.ReportOf end with the corrected page
  of Reporter.GenerateHtml; as written they raise there.
- Reporter.ReportShape is about the corrected report; as written no report
  is written.
- The `__main__` guard of `reporter.py` is not modelled. It only prints
  usage.

## Findings

| source | as written | input that shows it | evidently intended | confidence | as-written member | corrected member |
|---|---|---|---|---|---|---|
| scripts/libs/reporter.py:175-176 | `val = row.get(m, 0)` then `f"{val:.2f}"`, which raises ValueError when the cell stayed text | a CSV row whose `PSNR` cell is empty (a variant whose PSNR run failed, written with DictWriter's empty default): float("") raises, so the loader keeps `""`, and formatting it stops the report | show a missing or unparsable metric as 0, as `row.get(m, 0)` does for an absent one | not executed | Reporter.MetricShownAsWritten, Reporter.EmptyMetricCellRaises, Reporter.ViewOf, Reporter.ViewOfRaisesOnText | Reporter.MetricShown, Reporter.CorrectedView |
| scripts/libs/reporter.py:178-199 | the row template is filled without `index`, and the head template without `metric_explanations`, though the templates (`html_templates.py` lines 144 and 132) name both fields | any run: the first row raises KeyError('index') once its own columns are read; a CSV with no rows reaches the head, which raises KeyError('metric_explanations') | pass a row index and the metric explanations, so that every field of both templates is filled | not executed | Reporter.Fill, Reporter.HtmlAsWritten, Reporter.HtmlAsWrittenRaises, Reporter.TemplatesMissFields | Reporter.Html, Reporter.GenerateHtml |

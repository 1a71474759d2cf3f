# Data visualization server: the decision layer in Dafny

`data_viz_server.py` is a tool server with five tools:

- `list_data_files` and `list_generated_images` tabulate two directories.
- `describe_dataset` reports the shape and per-column null counts of a CSV table.
- `generate_correlation_plot` draws Obesity against Diabetes.
- `generate_state_comparison` draws the `top_n` rows with the largest value of a metric column as bars.

This project models what the tools decide and what text they return. Every file read and directory listing is a parameter; a chart is its outcome value.

- A dataset is a `Table.Table`: named columns, each with its inferred dtype and a numeric flag, and rows of `Option<Cell>`, where `None` is pandas' missing value. `Table.Source` says whether the file is missing, unreadable (the catch-all branch) or loaded.
- A directory listing is `Option<seq<Catalog.Entry>>`: `None` when the directory does not exist, otherwise the entries in `glob` order, each with its `is_file()`, `st_size` and `st_mtime`.
- A chart is its outcome value: the file name it is saved under and the data it is drawn from (`Correlation.Chart`, the bars of `Comparison.Outcome`).

Layout:

- `seqs.dfy`: order-preserving filters, a stable descending sort and pandas' `head`.
- `text.dfy`: `lower()`, `str(int)`, `repr` of a list of names, `split('.')[0]`, `Path.suffix` and `/`, and reports built line by line.
- `table.dfy`: the table, `dropna(subset=...)` and null counts.
- `resolver.dfy`: the `metric_col` loop.
- `ranking.dfy`: `sort_values(..., ascending=False).head(n)`.
- `paths.dfy`: the two image names.
- `correlation.dfy`, `comparison.dfy`, `describe.dfy` and `catalog.dfy`: the five tools.

Where the source builds a list or a string step by step, the model is a method with a loop, proved equal to a function that specifies it. This holds for the `metric_col` loop, the `append` loops and the `result +=` loops. The properties are then proved about those functions.

The three tools that read a dataset follow one reply protocol, proved for each of them:

- the reply starts with `Error` exactly when the tool failed and no image was written;
- it starts with `Error:` on every failure except the catch-all `except Exception` branch;
- a chart tool's success reply ends with the path of the image.

The two catalogs reply with `Error:` exactly when their directory is missing. An empty directory gets a plain notice, not an error (`Catalog.DataFilesReplyProtocol`, `Catalog.ImagesReplyProtocol`).

The chart tools take two further inputs:

- their default arguments, `plot_type="scatter"` (line 115) and `top_n=10` (line 220), are Dafny default parameter values;
- `savable(name)` says whether `savefig` (lines 170 and 273) can write `OUTPUT_DIR / name`. It cannot, for example, when a `/` in the file name or in the metric names a sub-directory that does not exist. The tool then ends in its catch-all.
- `fittable(points)` says whether `np.polyfit` (line 152) fits the scatter plot's trend line to the points. It raises, for example, when every Obesity value is 0. The scatter plot then ends in the catch-all; the heatmap does not fit a line.

Facts about the code that the model keeps:

- The column resolver has no exact-match pass. The loop at line 233 takes the first header equal to the request ignoring case, even when a later header equals it exactly. `Resolver.NoExactMatchPass` shows such a case.
- `sort_values` (line 251) uses pandas' default quicksort, which is not stable, so the model promises nothing about the order of ties in the ranking. `list.sort` in `list_generated_images` (line 201) is stable, and that stability is proved (`Catalog.NewestIsSorted`).
- `top_n` may be any integer. `head(n)` with a negative `n` keeps all but the last `-n` rows; `Seqs.HeadCount` models this.
- The metric is resolved (lines 232-239) before `geography` is checked (line 241), so `ColumnNotFound` wins over `MissingGeography` (`Comparison.StateComparison`).
- "No data files" is returned whenever no entry is a regular file, for example in a directory holding only sub-directories (`Catalog.DataFilesReportCases`).
- The image catalog's "created" time is `st_mtime`.
- Only `describe_dataset` reports a missing file together with the list of `.csv` files; the chart tools name the file alone.

## Model

| member | source | states |
|---|---|---|
| Resolver.FirstMatch | tasks/data-visualization-mcp/data_viz_server.py:232-236 | the index found equals the request ignoring case, and no earlier header does; none is found only when no header matches |
| Resolver.ResolveColumn | tasks/data-visualization-mcp/data_viz_server.py:232-236 | the `for`/`break` loop leaves `metric_col` at the first header equal to `metric` ignoring case, or `None` exactly when no header matches |
| Resolver.ResolvedNameIndex | tasks/data-visualization-mcp/data_viz_server.py:245 | selecting the resolved header again by its exact name, as `dropna(subset=[metric_col])` does, finds the same column |
| Resolver.FirstMatchIgnoresCase | tasks/data-visualization-mcp/data_viz_server.py:234 | two requests with the same lower-cased form resolve to the same column |
| Resolver.NoExactMatchPass | tasks/data-visualization-mcp/data_viz_server.py:232-236 | `["obesity", "Obesity"]` resolves `"Obesity"` to the first header, not to the exact match |
| Table.ColumnIndex | tasks/data-visualization-mcp/data_viz_server.py:127 | the column chosen by exact name is the first with that header; none exactly when the name is not a header |
| Table.DropNaKeepsCompleteRows | tasks/data-visualization-mcp/data_viz_server.py:131 | `dropna` keeps a row, with its multiplicity, exactly when it has a value in every named column |
| Table.DropNaKeepsOrder | tasks/data-visualization-mcp/data_viz_server.py:245 | the kept rows are the rows at the increasing indices where every named column has a value, in table order |
| Table.DropNaComplete | tasks/data-visualization-mcp/data_viz_server.py:131 | every kept row has a value in every named column |
| Table.NullCountIsDropped | tasks/data-visualization-mcp/data_viz_server.py:95 | `isnull().sum()` of a column is the number of rows `dropna` on that column removes |
| Seqs.FilterPositions | tasks/data-visualization-mcp/data_viz_server.py:46-55 | an append loop guarded by a test keeps exactly the elements passing it, in their original order |
| Seqs.SortDescPermutes | tasks/data-visualization-mcp/data_viz_server.py:201 | the descending sort is a permutation of its input |
| Seqs.SortDescOrdered | tasks/data-visualization-mcp/data_viz_server.py:201 | the descending sort yields non-increasing keys |
| Seqs.SortDescStable | tasks/data-visualization-mcp/data_viz_server.py:201 | elements with equal keys keep their input order |
| Ranking.RankIsRanking | tasks/data-visualization-mcp/data_viz_server.py:251 | the selection has `min(top_n, len)` bars for `top_n >= 0`, is non-increasing, is a sub-multiset of the cleaned rows, and no bar left out is larger than the last bar kept |
| Text.PrefixBeforeFirstDot | tasks/data-visualization-mcp/data_viz_server.py:168 | `split('.')[0]` is a dot-free prefix of the name, followed in the name by a dot unless it is the whole name |
| Text.IntToStringRoundTrip | tasks/data-visualization-mcp/data_viz_server.py:271 | `str(top_n)` parses back to `top_n` |
| Text.PathSuffix | tasks/data-visualization-mcp/data_viz_server.py:54 | `Path.suffix` is a dot and at least one further character ending the name, with no dot after the first; it is empty only when the name has no dot, or its last dot is its first or its last character (`a.b.` has no suffix) |
| Text.JoinPath | tasks/data-visualization-mcp/data_viz_server.py:169 | `OUTPUT_DIR / name` ends with `name` |
| Text.PyListReprMentions | tasks/data-visualization-mcp/data_viz_server.py:239 | `str(list(df.columns))` mentions every header in quotes |
| Text.ErrorPrefixes | tasks/data-visualization-mcp/data_viz_server.py:175-176 | an explicit `Error: ...` reply starts with `Error:`; a catch-all `Error <action>: ` reply starts with `Error` but not with `Error:` |
| Paths.StemStopsAtFirstDot | tasks/data-visualization-mcp/data_viz_server.py:168 | the stem stops at the first dot, so `a.b.csv` and `a.csv` share the stem `a` |
| Paths.CorrelationFileNameInjective | tasks/data-visualization-mcp/data_viz_server.py:168 | the correlation image name determines the plot type |
| Paths.ComparisonFileNameSeparatesTopN | tasks/data-visualization-mcp/data_viz_server.py:271 | two requests that differ in `top_n` get different image names |
| Paths.ComparisonFileNameSeparatesMetric | tasks/data-visualization-mcp/data_viz_server.py:271 | two requests that differ in the raw `metric` argument get different image names |
| Correlation.CorrelationPlot | tasks/data-visualization-mcp/data_viz_server.py:115-176 | each failure holds exactly when its check is the first one to fail (file, both exact headers, complete rows, plot type); an image is saved exactly when every check passes, the two columns are numeric, a scatter's trend line can be fitted and `savefig` can write the derived name, and then under that name with one point per complete row; `plot_type` defaults to `scatter` |
| Correlation.PointsAreCompleteRows | tasks/data-visualization-mcp/data_viz_server.py:131 | the plotted rows are the table's rows with both values, one point each; the k-th point carries the values of the k-th such row in table order |
| Correlation.ReplyProtocol | tasks/data-visualization-mcp/data_viz_server.py:120-176 | the reply starts with `Error` exactly on failure and with `Error:` exactly on the explicit failures; a success reply ends with the image path |
| Comparison.StateComparison | tasks/data-visualization-mcp/data_viz_server.py:220-279 | each failure holds exactly when its check is the first one to fail (file, metric, `geography`, complete rows); an unresolved metric reports every header; an image is saved only when `savefig` can write the derived name, and then with `head(top_n)` bars, which form a ranking of the cleaned rows; `top_n` defaults to 10 |
| Comparison.CleanRowsChartable | tasks/data-visualization-mcp/data_viz_server.py:245-255 | after `dropna`, every row has a metric value and a geography label to draw |
| Comparison.GenerateStateComparison | tasks/data-visualization-mcp/data_viz_server.py:222-279 | the tool, with its resolver loop, decides as `StateComparison` and answers as `Reply` |
| Comparison.ReplyProtocol | tasks/data-visualization-mcp/data_viz_server.py:225-279 | the reply starts with `Error` exactly on failure and with `Error:` exactly on the explicit failures; a success reply ends with the image path |
| Comparison.ColumnNotFoundListsColumns | tasks/data-visualization-mcp/data_viz_server.py:238-239 | the unresolved-metric reply mentions every header of the table |
| Comparison.CaseVariantsSameChartOtherFile | tasks/data-visualization-mcp/data_viz_server.py:232-273 | when one of two spellings of a metric that agree ignoring case saves a chart, so does the other wherever its own name can be written, with the same bars; distinct spellings save to distinct files |
| Catalog.AppendRows | tasks/data-visualization-mcp/data_viz_server.py:65-66 | the row loop appends one rendered row per item, in order, after the header |
| Catalog.DataFilesAreRegularFiles | tasks/data-visualization-mcp/data_viz_server.py:46-55 | `files` holds one record per regular file, in `glob` order |
| Catalog.ListDataFiles | tasks/data-visualization-mcp/data_viz_server.py:43-68 | the tool's loops return the report `DataFilesReport` specifies |
| Catalog.DataFilesReportCases | tasks/data-visualization-mcp/data_viz_server.py:43-66 | a missing directory gives an `Error:` reply; "no data files" exactly when no entry is a regular file; otherwise every regular file's row appears |
| Catalog.DataFilesReplyProtocol | tasks/data-visualization-mcp/data_viz_server.py:43-66 | the report starts with `Error`, and with `Error:`, exactly when the data directory is missing |
| Catalog.DataFilesReportLines | tasks/data-visualization-mcp/data_viz_server.py:61-66 | the table has four header lines plus exactly one line per regular file |
| Catalog.ImagesArePngFiles | tasks/data-visualization-mcp/data_viz_server.py:186-195 | `images` holds one record per `*.png` regular file, in `glob` order |
| Catalog.NewestIsSorted | tasks/data-visualization-mcp/data_viz_server.py:201 | the sorted list holds the same images, newest first, with ties in `glob` order |
| Catalog.ListGeneratedImages | tasks/data-visualization-mcp/data_viz_server.py:183-213 | the tool's loops and in-place sort return the report `ImagesReport` specifies |
| Catalog.ImagesReportCases | tasks/data-visualization-mcp/data_viz_server.py:183-211 | a missing directory gives an `Error:` reply; "no generated images" exactly when no entry is a PNG regular file; otherwise every such file's row appears |
| Catalog.ImagesReplyProtocol | tasks/data-visualization-mcp/data_viz_server.py:183-211 | the report starts with `Error`, and with `Error:`, exactly when the output directory is missing |
| Catalog.ImagesReportLines | tasks/data-visualization-mcp/data_viz_server.py:204-211 | the table has four header lines plus exactly one line per PNG regular file |
| Catalog.ImageNamesFromEntries | tasks/data-visualization-mcp/data_viz_server.py:190-195 | every listed image comes from a PNG regular file of the directory and carries its name, its size in bytes, that size formatted, and its time |
| Describe.DescribeDataset | tasks/data-visualization-mcp/data_viz_server.py:78-111 | the tool returns the missing-file error, the catch-all, or the report, as `DescribeReport` specifies |
| Describe.Summarize | tasks/data-visualization-mcp/data_viz_server.py:89-108 | the `result +=` steps build the report `Summary` specifies |
| Describe.AppendColumnLines | tasks/data-visualization-mcp/data_viz_server.py:92-96 | the column loop appends one line per column, in column order, each with its null count |
| Describe.ReplyProtocol | tasks/data-visualization-mcp/data_viz_server.py:80-111 | the reply starts with `Error` exactly when the table could not be described, and with `Error:` exactly when the file is missing |
| Describe.ShapeReported | tasks/data-visualization-mcp/data_viz_server.py:89-90 | the report opens with the file name and `Shape: R rows × C columns` for the table's dimensions |
| Describe.ShapeLineInjective | tasks/data-visualization-mcp/data_viz_server.py:90 | the shape line determines both the row count and the column count |
| Describe.ColumnReported | tasks/data-visualization-mcp/data_viz_server.py:92-96 | the line of column `j` carries the number of rows missing a value there, comes after the lines of columns before it, and occurs in the report |
| Describe.ColumnLinesCount | tasks/data-visualization-mcp/data_viz_server.py:93-96 | the column section has exactly one line per column |
| Describe.StatisticsSection | tasks/data-visualization-mcp/data_viz_server.py:101-106 | the report ends with the statistics when some column is numeric, and with the "no numeric columns" notice otherwise |
| Describe.MissingFileListsCsvFiles | tasks/data-visualization-mcp/data_viz_server.py:80-83 | the missing-file reply names every `.csv` file of the data directory |

## Left out

- Chart drawing (`plt.*`, `sns.heatmap`, `savefig`) is a foreign library with side effects. A saved chart is modelled as its file name and the data it is drawn from.
- The Pearson correlation, `np.polyfit` and `np.poly1d` are floating-point numerics and are not modelled. Whether the fit succeeds is the parameter `fittable`.
- `pd.read_csv`, dtype inference and `select_dtypes` are pandas behaviour. The parsed table, each column's dtype text and its numeric flag are inputs. `read_csv` makes duplicate headers unique, so nothing about duplicate headers is assumed or modelled.
- `df.head().to_string()` and `describe().to_string()` are pandas formatting. They are string parameters of `Describe.DescribeDataset`.
- The filesystem (`exists`, `glob`, `is_file`, `stat`, `mkdir`), the environment variables and the directory constants are I/O. They are parameters: a `Source` per file and an optional listing per directory.
- `round(size / ..., k)` and `datetime.fromtimestamp(...).strftime(...)` are float and clock formatting. They are function parameters (`formatMb`, `formatKb`, `formatTime`).
- The text of an exception after the catch-all prefix (`Error generating correlation plot: ` and the like) is not modelled; only the prefix is.
- The catch-all branches of `list_data_files` and `list_generated_images` (lines 70-71 and 215-216) are left out. They are reached when `stat` fails, or when `datetime.fromtimestamp` (line 210) raises on an `st_mtime` out of the platform's range. Here `stat` is a parameter and `formatTime` is a total function, so neither can fail.
- A metric or `Obesity`/`Diabetes` column that holds text is assumed to end in the catch-all, as drawing or `:.1f` formatting fails. This abstracts pandas: depending on its version, `corr` may convert numeric-looking strings instead of raising. The one exception kept is a text metric with `head` keeping no row, which saves an empty chart (`Comparison.TextButNothingShown`). Other cell mixtures are not modelled.
- Comparison.StateComparison: the bars are proved to form a ranking, but not in any particular order among ties, because pandas' default sort is not stable.
- Text.JoinPath: `dir / name` is concatenation with one `/`, without pathlib's normalisation (pathlib turns `a//b` into `a/b` and drops `.` components).
- Correlation.CorrelationPlot, Comparison.StateComparison: whether `savefig` can write a name is the parameter `savable`, not derived from the file system; an image is saved only when it holds.
- Correlation.CorrelationPlot: whether the least-squares fit of `np.polyfit` succeeds is the parameter `fittable`, not derived from the points' values; a scatter plot is saved only when it holds.
- Catalog.ListGeneratedImages: `images.sort` reorders the list in place; the model replaces the list with its sorted copy, `Catalog.Newest(images)`.
- Text.Lower: `str.lower()` is modelled on ASCII letters only; other characters are left unchanged.
- Text.PyStrRepr: `repr` of a header is the header in single quotes, without Python's escaping of quotes, backslashes or control characters.
- The FastMCP server object, `@mcp.tool()` and `mcp.run()` are transport.
- The test and demo scripts print and write files; they hold no logic of their own.

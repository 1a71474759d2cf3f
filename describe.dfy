/** `describe_dataset`: the name and shape of a dataset, one line per
    column with its dtype and null count, then pandas' preview and summary
    statistics. */
module Describe {
  import opened Wrappers
  import opened Seqs
  import opened Text
  import opened Table
  import opened Catalog

  /** What the report says about one column. */
  datatype ColumnSummary = ColumnSummary(column: Column, nulls: nat)

  /** The columns in order, each with `df[col].isnull().sum()`. */
  function Summaries(t: Table): (s: seq<ColumnSummary>)
    ensures |s| == |t.columns|
  {
    seq(|t.columns|, j requires 0 <= j < |t.columns| => ColumnSummary(t.columns[j], NullCount(t.rows, j)))
  }

  /** `f"  - {col}: {dtype} ({null_count} null values)\n"`. */
  function ColumnLine(c: ColumnSummary): string
  {
    "  - " + c.column.name + ": " + c.column.dtype + " (" + IntToString(c.nulls) + " null values)\n"
  }

  /** `f"Shape: {df.shape[0]} rows × {df.shape[1]} columns\n"`. */
  function ShapeLine(rows: nat, cols: nat): string
  {
    "Shape: " + (IntToString(rows) + (" rows \U{00D7} " + (IntToString(cols) + " columns\n")))
  }

  predicate IsNumericColumn(c: Column)
  {
    c.numeric
  }

  /** `len(df.select_dtypes(include=[np.number]).columns) > 0`. */
  predicate HasNumericColumn(t: Table)
  {
    Count(t.columns, IsNumericColumn) > 0
  }

  const NoNumericColumns: string := "No numeric columns found for statistical analysis."

  /** The first two lines: the file name and the table's shape. */
  function ShapeHead(t: Table, filename: string): string
  {
    "Dataset: " + filename + "\n" + ShapeLine(|t.rows|, |t.columns|)
  }

  /** Everything before the column lines. */
  function Lead(t: Table, filename: string): string
  {
    ShapeHead(t, filename) + "\n" + "Columns:\n"
  }

  /** One line per column. */
  function ColumnLines(t: Table): string
  {
    ConcatMap(Summaries(t), ColumnLine)
  }

  /** The statistics section: `describe()` of the numeric columns when
      there are some, a fixed notice otherwise. */
  function Statistics(t: Table, stats: string): string
  {
    "\n\nBasic Statistics:\n" + (if HasNumericColumn(t) then stats else NoNumericColumns)
  }

  /** Everything after the column lines. */
  function Tail(t: Table, preview: string, stats: string): string
  {
    ("\nFirst 5 rows:\n" + preview) + Statistics(t, stats)
  }

  /** The report on a loaded table; `preview` is `df.head().to_string()`
      and `stats` is `describe().to_string()` of the numeric columns. */
  function Summary(t: Table, filename: string, preview: string, stats: string): string
  {
    Lead(t, filename) + ColumnLines(t) + Tail(t, preview, stats)
  }

  /** `glob("*.csv")` matches names ending in `.csv`. */
  predicate IsCsv(e: Entry)
  {
    EndsWith(e.name, ".csv")
  }

  /** `[f.name for f in DATA_DIR.glob("*.csv")] if DATA_DIR.exists() else []`. */
  function CsvNames(listing: Option<seq<Entry>>): seq<string>
  {
    match listing
    case None => []
    case Some(entries) =>
      var csv := Filter(entries, IsCsv);
      seq(|csv|, k requires 0 <= k < |csv| => csv[k].name)
  }

  function MissingFileDetail(filename: string, listing: Option<seq<Entry>>): string
  {
    "File '" + filename + "' not found in data directory. Available files: " + PyListRepr(CsvNames(listing))
  }

  function MissingFile(filename: string, listing: Option<seq<Entry>>): string
  {
    ExplicitError(MissingFileDetail(filename, listing))
  }

  const DescribeFailed: string := CatchAll("describing dataset")

  /** The string `describe_dataset` returns; `listing` is the data
      directory and `source` what `DATA_DIR / filename` holds. */
  function DescribeReport(listing: Option<seq<Entry>>, source: Source, filename: string,
                          preview: string, stats: string): string
  {
    match source
    case Missing => MissingFile(filename, listing)
    case Unreadable => DescribeFailed
    case Loaded(t) => Summary(t, filename, preview, stats)
  }

  /** The tool as the source runs it: the missing-file check, then the
      catch-all when the file cannot be read, then the report. */
  method DescribeDataset(listing: Option<seq<Entry>>, source: Source, filename: string,
                         preview: string, stats: string)
    returns (result: string)
    ensures result == DescribeReport(listing, source, filename, preview, stats)
  {
    match source {
      case Missing =>
        result := MissingFile(filename, listing);
      case Unreadable =>
        result := DescribeFailed;
      case Loaded(t) =>
        result := Summarize(t, filename, preview, stats);
    }
  }

  /** The `result +=` steps of the report: the header, the loop over the
      columns, then the preview and the statistics. */
  method Summarize(t: Table, filename: string, preview: string, stats: string) returns (result: string)
    ensures result == Summary(t, filename, preview, stats)
  {
    result := "Dataset: " + filename + "\n";
    result := result + ShapeLine(|t.rows|, |t.columns|) + "\n";
    result := result + "Columns:\n";
    result := AppendColumnLines(result, t);
    ghost var body := result;
    result := result + "\nFirst 5 rows:\n";
    result := result + preview;
    result := result + "\n\nBasic Statistics:\n";
    if HasNumericColumn(t) {
      result := result + stats;
    } else {
      result := result + NoNumericColumns;
    }
    AppendFour(body, "\nFirst 5 rows:\n", preview, "\n\nBasic Statistics:\n",
               if HasNumericColumn(t) then stats else NoNumericColumns);
  }

  /** `for col in df.columns: result += f"  - {col}: ..."`. */
  method AppendColumnLines(lead: string, t: Table) returns (result: string)
    ensures result == lead + ColumnLines(t)
  {
    result := lead;
    for j := 0 to |t.columns|
      invariant result == lead + ConcatMap(Summaries(t)[..j], ColumnLine)
    {
      var nullCount := NullCount(t.rows, j);
      var line := ColumnLine(ColumnSummary(t.columns[j], nullCount));
      ColumnLinesStep(t, j);
      Regroup(lead + ConcatMap(Summaries(t)[..j + 1], ColumnLine), ConcatMap(Summaries(t)[..j + 1], ColumnLine),
              result, lead, ConcatMap(Summaries(t)[..j], ColumnLine), line);
      result := result + line;
    }
    assert Summaries(t)[..|t.columns|] == Summaries(t);
  }

  /** One more turn of the column loop appends the next column's line. */
  lemma ColumnLinesStep(t: Table, j: nat)
    requires j < |t.columns|
    ensures ConcatMap(Summaries(t)[..j + 1], ColumnLine)
         == ConcatMap(Summaries(t)[..j], ColumnLine) + ColumnLine(ColumnSummary(t.columns[j], NullCount(t.rows, j)))
  {
    var summaries := Summaries(t);
    assert summaries[..j + 1] == summaries[..j] + [summaries[j]];
    ConcatMapSnoc(summaries[..j], summaries[j], ColumnLine);
  }

  /** A report starts with `Error` exactly when the file could not be
      described, and with `Error:` exactly when it does not exist. */
  lemma ReplyProtocol(listing: Option<seq<Entry>>, source: Source, filename: string, preview: string, stats: string)
    ensures StartsWith(DescribeReport(listing, source, filename, preview, stats), "Error") <==> !source.Loaded?
    ensures StartsWith(DescribeReport(listing, source, filename, preview, stats), "Error:") <==> source.Missing?
  {
    match source
    case Missing =>
      ErrorPrefixes(MissingFileDetail(filename, listing), "describing dataset");
    case Unreadable =>
      ErrorPrefixes(MissingFileDetail(filename, listing), "describing dataset");
    case Loaded(t) =>
      SummaryOpensWithName(t, filename, preview, stats);
  }

  lemma SummaryOpensWithName(t: Table, filename: string, preview: string, stats: string)
    ensures !StartsWith(Summary(t, filename, preview, stats), "Error")
    ensures !StartsWith(Summary(t, filename, preview, stats), "Error:")
  {
    ShapeReported(t, filename, preview, stats);
    var head := ShapeHead(t, filename);
    var summary := Summary(t, filename, preview, stats);
    assert head[0] == 'D';
    assert summary[0] == head[0] by {
      assert summary[..|head|] == head;
    }
    DiffersAtFirst(summary, "Error");
    DiffersAtFirst(summary, "Error:");
  }

  /** The second line gives the table's dimensions, and it determines them:
      tables of different shape never report the same shape line. */
  lemma ShapeReported(t: Table, filename: string, preview: string, stats: string)
    ensures StartsWith(Summary(t, filename, preview, stats), ShapeHead(t, filename))
    ensures ShapeHead(t, filename) == "Dataset: " + filename + "\n" + ShapeLine(|t.rows|, |t.columns|)
  {
    var head := ShapeHead(t, filename);
    StartsWithConcat(head, "\n", head);
    StartsWithConcat(head + "\n", "Columns:\n", head);
    StartsWithConcat(Lead(t, filename), ColumnLines(t), head);
    StartsWithConcat(Lead(t, filename) + ColumnLines(t), Tail(t, preview, stats), head);
  }

  lemma ShapeLineInjective(r1: nat, c1: nat, r2: nat, c2: nat)
    requires ShapeLine(r1, c1) == ShapeLine(r2, c2)
    ensures r1 == r2 && c1 == c2
  {
    var cols := " columns\n";
    var tail1 := " rows \U{00D7} " + (IntToString(c1) + cols);
    var tail2 := " rows \U{00D7} " + (IntToString(c2) + cols);
    assert "Shape: " + (IntToString(r1) + tail1) + "" == "Shape: " + (IntToString(r2) + tail2) + "";
    CancelAround("Shape: ", IntToString(r1) + tail1, IntToString(r2) + tail2, "");
    NumberThenText(r1, tail1, r2, tail2);
    assert " rows \U{00D7} " + (IntToString(c1) + cols) + "" == " rows \U{00D7} " + (IntToString(c2) + cols) + "";
    CancelAround(" rows \U{00D7} ", IntToString(c1) + cols, IntToString(c2) + cols, "");
    NumberThenText(c1, cols, c2, cols);
  }

  /** Every column has its line, in column order, and the null count it
      shows is the number of rows `dropna` on that column would remove. */
  lemma ColumnReported(t: Table, filename: string, preview: string, stats: string, j: nat)
    requires j < |t.columns|
    ensures Summaries(t)[j] == ColumnSummary(t.columns[j], |t.rows| - |DropNa(t.rows, [j])|)
    ensures StartsWith(ColumnLines(t), ConcatMap(Summaries(t)[..j], ColumnLine) + ColumnLine(Summaries(t)[j]))
    ensures Occurs(ColumnLine(Summaries(t)[j]), Summary(t, filename, preview, stats))
  {
    NullCountIsDropped(t.rows, j);
    ConcatMapInOrder(Summaries(t), ColumnLine, j);
    ConcatMapOccurs(Summaries(t), ColumnLine, j);
    OccursWithin(ColumnLine(Summaries(t)[j]), ColumnLines(t), Lead(t, filename), Tail(t, preview, stats));
  }

  /** One line per column, when no header and no dtype holds a line break. */
  lemma ColumnLinesCount(t: Table)
    requires forall c :: c in t.columns ==> '\n' !in c.name && '\n' !in c.dtype
    ensures Count(ColumnLines(t), IsNewline) == |t.columns|
  {
    forall j | 0 <= j < |Summaries(t)| ensures Count(ColumnLine(Summaries(t)[j]), IsNewline) == 1 {
      assert t.columns[j] in t.columns;
      ColumnLineOneLine(Summaries(t)[j]);
    }
    ConcatMapLines(Summaries(t), ColumnLine);
  }

  lemma ColumnLineOneLine(c: ColumnSummary)
    requires '\n' !in c.column.name && '\n' !in c.column.dtype
    ensures Count(ColumnLine(c), IsNewline) == 1
  {
    DigitsOneLine(c.nulls);
    var body := "  - " + c.column.name + ": " + c.column.dtype + " (" + IntToString(c.nulls) + " null values)";
    OneLine(body);
    assert ColumnLine(c) == body + "\n";
  }

  /** The statistics section is pandas' table when some column is numeric
      and the fixed notice otherwise. */
  lemma StatisticsSection(t: Table, filename: string, preview: string, stats: string)
    ensures EndsWith(Summary(t, filename, preview, stats),
                     "\n\nBasic Statistics:\n"
                     + (if exists j :: 0 <= j < |t.columns| && t.columns[j].numeric then stats else NoNumericColumns))
  {
    NumericColumnExists(t);
    var lb := Lead(t, filename) + ColumnLines(t);
    var front := "\nFirst 5 rows:\n" + preview;
    var last := Statistics(t, stats);
    assert Summary(t, filename, preview, stats) == lb + (front + last);
    assert lb + (front + last) == (lb + front) + last;
    assert ((lb + front) + last)[|(lb + front) + last| - |last|..] == last;
  }

  /** `len(numeric_cols) > 0` holds exactly when some column is numeric. */
  lemma NumericColumnExists(t: Table)
    ensures HasNumericColumn(t) <==> exists j :: 0 <= j < |t.columns| && t.columns[j].numeric
  {
    CountFilter(t.columns, IsNumericColumn);
    if exists j :: 0 <= j < |t.columns| && t.columns[j].numeric {
      var j :| 0 <= j < |t.columns| && t.columns[j].numeric;
      FilterMembership(t.columns, IsNumericColumn, t.columns[j]);
    } else if HasNumericColumn(t) {
      var numeric := Filter(t.columns, IsNumericColumn);
      FilterMembership(t.columns, IsNumericColumn, numeric[0]);
      assert numeric[0] in t.columns;
    }
  }

  /** A missing file is reported with every `.csv` name of the data
      directory, quoted as Python prints it. */
  lemma MissingFileListsCsvFiles(listing: Option<seq<Entry>>, filename: string, k: nat)
    requires listing.Some? && k < |listing.value| && IsCsv(listing.value[k])
    ensures Occurs(PyStrRepr(listing.value[k].name), MissingFile(filename, listing))
  {
    var entries := listing.value;
    var csv := Filter(entries, IsCsv);
    FilterPositions(entries, IsCsv);
    var i :| 0 <= i < |Positions(entries, IsCsv)| && Positions(entries, IsCsv)[i] == k;
    assert CsvNames(listing)[i] == entries[k].name;
    PyListReprMentions(CsvNames(listing), i);
    var lead := "File '" + filename + "' not found in data directory. Available files: ";
    OccursAfter(PyStrRepr(entries[k].name), PyListRepr(CsvNames(listing)), lead);
    OccursAfter(PyStrRepr(entries[k].name), MissingFileDetail(filename, listing), "Error: ");
  }
}

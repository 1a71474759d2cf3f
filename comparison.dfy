/** `generate_state_comparison`: a bar chart of the `top_n` rows with the
    largest value of a metric column, labelled by the `geography` column. */
module Comparison {
  import opened Wrappers
  import opened Seqs
  import opened Text
  import opened Table
  import opened Resolver
  import opened Ranking
  import opened Paths

  const Geography: string := "geography"

  /** The failures the tool reports; `Unexpected` is the catch-all
      `except Exception` branch (the file cannot be parsed, the metric
      column holds text that cannot be sorted or printed with `:.1f`, or
      `savefig` cannot write the image). */
  datatype Error =
    | FileNotFound
    | ColumnNotFound(available: seq<string>)
    | MissingGeography
    | NoValidData
    | Unexpected

  /** Either a failure, or the image written under `fileName` in the output
      directory, with its bars from left to right. */
  datatype Outcome = Failed(error: Error) | Saved(fileName: string, bars: seq<Bar>)

  /** The metric resolves and the exact header `geography` is present. */
  predicate Resolvable(t: Table, metric: string)
  {
    FirstMatch(Names(t.columns), metric).Some? && Geography in Names(t.columns)
  }

  /** The indices of the resolved metric column and of `geography`. */
  function Subset(t: Table, metric: string): (s: seq<nat>)
    requires Resolvable(t, metric)
    ensures |s| == 2
  {
    [FirstMatch(Names(t.columns), metric).value, ColumnIndex(Names(t.columns), Geography).value]
  }

  /** `df.dropna(subset=[metric_col, 'geography'])`. */
  function CleanRows(t: Table, metric: string): seq<Row>
    requires Resolvable(t, metric)
  {
    DropNa(t.rows, Subset(t, metric))
  }

  /** Rows that have a number under `m` and some value under `g`. */
  predicate Chartable(rows: seq<Row>, m: nat, g: nat)
  {
    AllNumeric(rows, m) && forall i :: 0 <= i < |rows| ==> CellAt(rows[i], g).Some?
  }

  /** One bar per row: its geography cell and its metric value. */
  function Bars(rows: seq<Row>, m: nat, g: nat): (bars: seq<Bar>)
    requires Chartable(rows, m, g)
    ensures |bars| == |rows|
  {
    seq(|rows|, i requires 0 <= i < |rows| => Bar(CellAt(rows[i], g).value, CellAt(rows[i], m).value.x))
  }

  lemma CleanRowsChartable(t: Table, metric: string)
    requires Resolvable(t, metric)
    requires AllNumeric(CleanRows(t, metric), Subset(t, metric)[0])
    ensures Chartable(CleanRows(t, metric), Subset(t, metric)[0], Subset(t, metric)[1])
  {
    var rows, s := CleanRows(t, metric), Subset(t, metric);
    DropNaComplete(t.rows, s);
    forall i | 0 <= i < |rows| ensures CellAt(rows[i], s[1]).Some? {
      assert rows[i] in rows;
    }
  }

  /** The rows the chart ranks, once every check has passed. */
  function ChartBars(t: Table, metric: string): seq<Bar>
    requires Resolvable(t, metric)
    requires AllNumeric(CleanRows(t, metric), Subset(t, metric)[0])
  {
    CleanRowsChartable(t, metric);
    Bars(CleanRows(t, metric), Subset(t, metric)[0], Subset(t, metric)[1])
  }

  /** A metric column of strings sorts, but its values cannot be printed
      with `:.1f`; that only goes unnoticed when `head` keeps no row. */
  predicate TextButNothingShown(rows: seq<Row>, m: nat, topN: int)
  {
    AllText(rows, m) && HeadCount(topN, |rows|) == 0
  }

  /** The decisions of the tool, in the order it makes them: the file, the
      metric column, the `geography` column, the cleaned rows, the drawing,
      then `savefig`; an image is written only when every check passed,
      and then it shows a ranking of the cleaned rows under a name built
      from the arguments as given. `savable(name)` says whether `savefig`
      can write `OUTPUT_DIR / name` (it cannot when `name` reaches into a
      subdirectory that does not exist); `top_n` defaults to 10. */
  function StateComparison(source: Source, savable: string -> bool, filename: string, metric: string,
                           topN: int := 10): (r: Outcome)
    ensures r == Failed(FileNotFound) <==> source.Missing?
    ensures (r.Failed? && r.error.ColumnNotFound?) <==>
              source.Loaded? && FirstMatch(Names(source.table.columns), metric).None?
    ensures r.Failed? && r.error.ColumnNotFound? ==> r.error.available == Names(source.table.columns)
    ensures r == Failed(MissingGeography) <==>
              source.Loaded? && FirstMatch(Names(source.table.columns), metric).Some?
              && Geography !in Names(source.table.columns)
    ensures r == Failed(NoValidData) <==>
              source.Loaded? && Resolvable(source.table, metric) && CleanRows(source.table, metric) == []
    ensures r.Saved? <==>
              source.Loaded? && Resolvable(source.table, metric) && CleanRows(source.table, metric) != []
              && (AllNumeric(CleanRows(source.table, metric), Subset(source.table, metric)[0])
                  || TextButNothingShown(CleanRows(source.table, metric), Subset(source.table, metric)[0], topN))
              && savable(ComparisonFileName(filename, metric, topN))
    ensures r.Saved? ==>
              && source.Loaded? && Resolvable(source.table, metric)
              && r.fileName == ComparisonFileName(filename, metric, topN)
              && |r.bars| == HeadCount(topN, |CleanRows(source.table, metric)|)
    ensures r.Saved? && AllNumeric(CleanRows(source.table, metric), Subset(source.table, metric)[0]) ==>
              IsRanking(ChartBars(source.table, metric), topN, r.bars)
  {
    match source
    case Missing => Failed(FileNotFound)
    case Unreadable => Failed(Unexpected)
    case Loaded(t) =>
      var names := Names(t.columns);
      if FirstMatch(names, metric).None? then Failed(ColumnNotFound(names))
      else if Geography !in names then Failed(MissingGeography)
      else
        var clean := CleanRows(t, metric);
        var m := Subset(t, metric)[0];
        var name := ComparisonFileName(filename, metric, topN);
        if clean == [] then Failed(NoValidData)
        else if AllNumeric(clean, m) && savable(name) then
          var bars := ChartBars(t, metric);
          RankIsRanking(bars, topN);
          Saved(name, Rank(bars, topN))
        else if TextButNothingShown(clean, m, topN) && savable(name) then
          Saved(name, [])
        else Failed(Unexpected)
  }

  /** What follows `Error: ` in the explicit error returns. */
  function ErrorDetail(e: Error, filename: string, metric: string): string
  {
    match e
    case FileNotFound => "File '" + filename + "' not found in data directory."
    case ColumnNotFound(available) =>
      "Column '" + metric + "' not found in dataset. Available columns: " + PyListRepr(available)
    case MissingGeography => "Dataset must contain 'geography' column for state comparison."
    case NoValidData => "No valid data points found for state comparison."
    case Unexpected => ""
  }

  const Action: string := "generating state comparison"

  /** The explicit returns say `Error: ...`; the catch-all says
      `Error generating state comparison: ` before the exception's text. */
  function ErrorText(e: Error, filename: string, metric: string): string
  {
    if e.Unexpected? then CatchAll(Action) else ExplicitError(ErrorDetail(e, filename, metric))
  }

  /** The string the tool returns for an outcome. */
  function Reply(r: Outcome, outputDir: string, filename: string, metric: string, topN: int := 10): string
  {
    match r
    case Failed(e) => ErrorText(e, filename, metric)
    case Saved(name, _) => SuccessHead(metric, topN) + JoinPath(outputDir, name)
  }

  /** The success reply up to the image's path. */
  function SuccessHead(metric: string, topN: int): string
  {
    "Generated state comparison chart for " + metric + " (top " + IntToString(topN) + " states). Image saved to: "
  }

  /** The tool as the source runs it: the checks in order, the resolver
      loop, the exact-name lookups `dropna` performs, the ranking, then
      `savefig`. */
  method GenerateStateComparison(source: Source, savable: string -> bool, outputDir: string, filename: string,
                                 metric: string, topN: int := 10)
    returns (outcome: Outcome, reply: string)
    ensures outcome == StateComparison(source, savable, filename, metric, topN)
    ensures reply == Reply(outcome, outputDir, filename, metric, topN)
  {
    match source {
      case Missing =>
        outcome := Failed(FileNotFound);
      case Unreadable =>
        outcome := Failed(Unexpected);
      case Loaded(t) =>
        var names := Names(t.columns);
        var metricCol := ResolveColumn(names, metric);
        if metricCol.None? {
          outcome := Failed(ColumnNotFound(names));
        } else if Geography !in names {
          outcome := Failed(MissingGeography);
        } else {
          ResolvedNameIndex(names, metric);
          var m := ColumnIndex(names, metricCol.value).value;
          var g := ColumnIndex(names, Geography).value;
          assert [m, g] == Subset(t, metric);
          var clean := DropNa(t.rows, [m, g]);
          var name := ComparisonFileName(filename, metric, topN);
          if clean == [] {
            outcome := Failed(NoValidData);
          } else if AllNumeric(clean, m) && savable(name) {
            var ranked := Rank(ChartBars(t, metric), topN);
            outcome := Saved(name, ranked);
          } else if TextButNothingShown(clean, m, topN) && savable(name) {
            outcome := Saved(name, []);
          } else {
            outcome := Failed(Unexpected);
          }
        }
    }
    reply := Reply(outcome, outputDir, filename, metric, topN);
  }

  /** Callers tell failure by the prefix: a reply starts with `Error`
      exactly when no image was written, with `Error:` on every failure but
      the catch-all, and a success reply ends with the image's path. */
  lemma ReplyProtocol(r: Outcome, outputDir: string, filename: string, metric: string, topN: int)
    ensures StartsWith(Reply(r, outputDir, filename, metric, topN), "Error") <==> r.Failed?
    ensures StartsWith(Reply(r, outputDir, filename, metric, topN), "Error:") <==>
              r.Failed? && !r.error.Unexpected?
    ensures r.Saved? ==> EndsWith(Reply(r, outputDir, filename, metric, topN), JoinPath(outputDir, r.fileName))
  {
    match r
    case Saved(name, _) =>
      assert SuccessHead(metric, topN)[0] == 'G';
      HeadThenPath(SuccessHead(metric, topN), JoinPath(outputDir, name));
    case Failed(e) =>
      ErrorPrefixes(ErrorDetail(e, filename, metric), Action);
  }

  /** An unresolved metric is reported with every header of the table,
      each quoted as Python prints it. */
  lemma ColumnNotFoundListsColumns(available: seq<string>, filename: string, metric: string, topN: int,
                                   outputDir: string, j: nat)
    requires j < |available|
    ensures Occurs(PyStrRepr(available[j]),
                   Reply(Failed(ColumnNotFound(available)), outputDir, filename, metric, topN))
  {
    PyListReprMentions(available, j);
    var lead := "Column '" + metric + "' not found in dataset. Available columns: ";
    OccursAfter(PyStrRepr(available[j]), PyListRepr(available), lead);
    assert ErrorDetail(ColumnNotFound(available), filename, metric) == lead + PyListRepr(available);
    OccursAfter(PyStrRepr(available[j]), lead + PyListRepr(available), "Error: ");
  }

  /** Two spellings of a metric that differ only in case chart the same
      column with the same bars, but, since the image name uses the
      argument as given, under different names: when one spelling saves an
      image, so does the other as long as its own name can be written. */
  lemma CaseVariantsSameChartOtherFile(source: Source, savable: string -> bool, filename: string,
                                       m1: string, m2: string, topN: int)
    requires Lower(m1) == Lower(m2)
    ensures StateComparison(source, savable, filename, m1, topN).Saved?
            && savable(ComparisonFileName(filename, m2, topN)) ==>
              StateComparison(source, savable, filename, m2, topN).Saved?
    ensures StateComparison(source, savable, filename, m1, topN).Saved?
            && StateComparison(source, savable, filename, m2, topN).Saved? ==>
              StateComparison(source, savable, filename, m1, topN).bars
              == StateComparison(source, savable, filename, m2, topN).bars
    ensures StateComparison(source, savable, filename, m1, topN).Saved?
            && StateComparison(source, savable, filename, m2, topN).Saved? && m1 != m2 ==>
              StateComparison(source, savable, filename, m1, topN).fileName
              != StateComparison(source, savable, filename, m2, topN).fileName
  {
    if source.Loaded? {
      FirstMatchIgnoresCase(Names(source.table.columns), m1, m2);
      LowerFacts(m1, m2);
      if m1 != m2 && ComparisonFileName(filename, m1, topN) == ComparisonFileName(filename, m2, topN) {
        ComparisonFileNameSeparatesMetric(filename, m1, m2, topN);
      }
    }
  }
}

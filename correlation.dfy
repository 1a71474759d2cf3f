/** `generate_correlation_plot`: a scatter plot with trend line, or a
    correlation heatmap, of the two fixed columns `Obesity` and `Diabetes`. */
module Correlation {
  import opened Seqs
  import opened Text
  import opened Table
  import opened Paths

  const Obesity: string := "Obesity"
  const Diabetes: string := "Diabetes"

  /** The failures the tool reports; `Unexpected` is the catch-all
      `except Exception` branch (the file cannot be parsed, the
      correlation cannot be computed on non-numeric cells, the trend line's
      least-squares fit fails, or `savefig` cannot write the image). */
  datatype Error = FileNotFound | MissingColumns | NoValidData | InvalidPlotType | Unexpected

  /** One plotted row: its Obesity and Diabetes values. */
  datatype Point = Point(obesity: real, diabetes: real)

  /** The data a saved chart is drawn from. */
  datatype Chart = Scatter(points: seq<Point>) | Heatmap(points: seq<Point>)

  /** Either a failure, or the image written under `fileName` in the
      output directory. */
  datatype Outcome = Failed(error: Error) | Saved(fileName: string, chart: Chart)

  /** `'Obesity' in df.columns and 'Diabetes' in df.columns` (exact names). */
  predicate HasBoth(t: Table)
  {
    Obesity in Names(t.columns) && Diabetes in Names(t.columns)
  }

  /** The indices of the Obesity and Diabetes columns. */
  function Pair(t: Table): (p: seq<nat>)
    requires HasBoth(t)
    ensures |p| == 2
  {
    [ColumnIndex(Names(t.columns), Obesity).value, ColumnIndex(Names(t.columns), Diabetes).value]
  }

  /** `df.dropna(subset=['Obesity', 'Diabetes'])`. */
  function CleanRows(t: Table): seq<Row>
    requires HasBoth(t)
  {
    DropNa(t.rows, Pair(t))
  }

  /** Both columns hold numbers in every cleaned row. */
  predicate NumericData(t: Table)
    requires HasBoth(t)
  {
    AllNumeric(CleanRows(t), Pair(t)[0]) && AllNumeric(CleanRows(t), Pair(t)[1])
  }

  function Points(rows: seq<Row>, x: nat, y: nat): seq<Point>
    requires AllNumeric(rows, x) && AllNumeric(rows, y)
  {
    seq(|rows|, i requires 0 <= i < |rows| => Point(CellAt(rows[i], x).value.x, CellAt(rows[i], y).value.x))
  }

  predicate KnownPlotType(plotType: string)
  {
    plotType == "scatter" || plotType == "heatmap"
  }

  /** The decisions of the tool, in the order it makes them: the file, the
      two columns, the cleaned rows, the plot type, then the drawing and
      `savefig`; so an unknown plot type is reported only for data that
      passed every other check, and an image is written only when every
      check passed. `savable(name)` says whether `savefig` can write
      `OUTPUT_DIR / name` (it cannot when `name` reaches into a
      subdirectory that does not exist), and `fittable(points)` whether
      `np.polyfit` fits the scatter's trend line (it raises, for example,
      when every Obesity value is 0); `plot_type` defaults to `scatter`. */
  function CorrelationPlot(source: Source, savable: string -> bool, fittable: seq<Point> -> bool,
                           filename: string, plotType: string := "scatter"): (r: Outcome)
    ensures r == Failed(FileNotFound) <==> source.Missing?
    ensures r == Failed(MissingColumns) <==> source.Loaded? && !HasBoth(source.table)
    ensures r == Failed(NoValidData) <==>
              source.Loaded? && HasBoth(source.table) && CleanRows(source.table) == []
    ensures r == Failed(InvalidPlotType) <==>
              source.Loaded? && HasBoth(source.table) && CleanRows(source.table) != []
              && !KnownPlotType(plotType)
    ensures r.Saved? <==>
              source.Loaded? && HasBoth(source.table) && CleanRows(source.table) != []
              && KnownPlotType(plotType) && NumericData(source.table)
              && (plotType == "scatter" ==>
                    fittable(Points(CleanRows(source.table), Pair(source.table)[0], Pair(source.table)[1])))
              && savable(CorrelationFileName(filename, plotType))
    ensures r.Saved? ==>
              && source.Loaded? && HasBoth(source.table) && NumericData(source.table)
              && r.fileName == CorrelationFileName(filename, plotType)
              && r.chart.points == Points(CleanRows(source.table), Pair(source.table)[0], Pair(source.table)[1])
              && (r.chart.Scatter? <==> plotType == "scatter")
  {
    match source
    case Missing => Failed(FileNotFound)
    case Unreadable => Failed(Unexpected)
    case Loaded(t) =>
      if !HasBoth(t) then Failed(MissingColumns)
      else
        var clean := CleanRows(t);
        if clean == [] then Failed(NoValidData)
        else if plotType == "scatter" || plotType == "heatmap" then
          var name := CorrelationFileName(filename, plotType);
          if !NumericData(t) then Failed(Unexpected)
          else
            var points := Points(clean, Pair(t)[0], Pair(t)[1]);
            if plotType == "scatter" && !fittable(points) then Failed(Unexpected)
            else if !savable(name) then Failed(Unexpected)
            else Saved(name, if plotType == "scatter" then Scatter(points) else Heatmap(points))
        else Failed(InvalidPlotType)
  }

  /** The plotted points are the complete rows, in table order: the k-th
      point comes from the k-th row that has both values. */
  lemma PointsAreCompleteRows(t: Table)
    requires HasBoth(t) && NumericData(t)
    ensures |Points(CleanRows(t), Pair(t)[0], Pair(t)[1])| == |CleanRows(t)|
    ensures forall r :: r in CleanRows(t) <==> r in t.rows && Complete(r, Pair(t))
    ensures |Positions(t.rows, CompleteOn(Pair(t)))| == |CleanRows(t)|
    ensures forall k :: 0 <= k < |CleanRows(t)| ==>
              && Positions(t.rows, CompleteOn(Pair(t)))[k] < |t.rows|
              && CleanRows(t)[k] == t.rows[Positions(t.rows, CompleteOn(Pair(t)))[k]]
              && Points(CleanRows(t), Pair(t)[0], Pair(t)[1])[k]
                 == Point(CellAt(CleanRows(t)[k], Pair(t)[0]).value.x, CellAt(CleanRows(t)[k], Pair(t)[1]).value.x)
    ensures forall k1, k2 :: 0 <= k1 < k2 < |CleanRows(t)| ==>
              Positions(t.rows, CompleteOn(Pair(t)))[k1] < Positions(t.rows, CompleteOn(Pair(t)))[k2]
  {
    forall r: Row ensures r in CleanRows(t) <==> r in t.rows && Complete(r, Pair(t)) {
      DropNaKeepsCompleteRows(t.rows, Pair(t), r);
    }
    DropNaKeepsOrder(t.rows, Pair(t));
  }

  /** What follows `Error: ` in the explicit error returns. */
  function ErrorDetail(e: Error, filename: string, plotType: string): string
  {
    match e
    case FileNotFound => "File '" + filename + "' not found in data directory."
    case MissingColumns => "Dataset must contain 'Obesity' and 'Diabetes' columns for correlation analysis."
    case NoValidData => "No valid data points found for correlation analysis."
    case InvalidPlotType => "Invalid plot type '" + plotType + "'. Use 'scatter' or 'heatmap'."
    case Unexpected => ""
  }

  const Action: string := "generating correlation plot"

  /** The explicit returns say `Error: ...`; the catch-all says
      `Error generating correlation plot: ` before the exception's text. */
  function ErrorText(e: Error, filename: string, plotType: string): string
  {
    if e.Unexpected? then CatchAll(Action) else ExplicitError(ErrorDetail(e, filename, plotType))
  }

  /** The string the tool returns for an outcome. */
  function Reply(r: Outcome, outputDir: string, filename: string, plotType: string := "scatter"): string
  {
    match r
    case Failed(e) => ErrorText(e, filename, plotType)
    case Saved(name, _) => SuccessHead(filename, plotType) + JoinPath(outputDir, name)
  }

  /** The success reply up to the image's path. */
  function SuccessHead(filename: string, plotType: string): string
  {
    "Generated " + plotType + " plot for " + filename + ". Image saved to: "
  }

  /** The whole tool: decide, then answer. */
  function GenerateCorrelationPlot(source: Source, savable: string -> bool, fittable: seq<Point> -> bool,
                                   outputDir: string, filename: string, plotType: string := "scatter"): string
  {
    Reply(CorrelationPlot(source, savable, fittable, filename, plotType), outputDir, filename, plotType)
  }

  /** Callers tell failure by the prefix: a reply starts with `Error`
      exactly when no image was written, with `Error:` on every failure but
      the catch-all, and a success reply ends with the image's path. */
  lemma ReplyProtocol(r: Outcome, outputDir: string, filename: string, plotType: string)
    ensures StartsWith(Reply(r, outputDir, filename, plotType), "Error") <==> r.Failed?
    ensures StartsWith(Reply(r, outputDir, filename, plotType), "Error:") <==>
              r.Failed? && !r.error.Unexpected?
    ensures r.Saved? ==> EndsWith(Reply(r, outputDir, filename, plotType), JoinPath(outputDir, r.fileName))
  {
    match r
    case Saved(name, _) =>
      assert SuccessHead(filename, plotType)[0] == 'G';
      HeadThenPath(SuccessHead(filename, plotType), JoinPath(outputDir, name));
    case Failed(e) =>
      ErrorPrefixes(ErrorDetail(e, filename, plotType), Action);
  }
}

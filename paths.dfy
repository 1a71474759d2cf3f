/** The names under which the two chart tools save their images in the
    output directory. */
module Paths {
  import opened Text

  /** `f"{filename.split('.')[0]}_{plot_type}_correlation.png"`. */
  function CorrelationFileName(filename: string, plotType: string): string
  {
    PrefixBeforeFirstDot(filename) + "_" + plotType + "_correlation.png"
  }

  /** `f"{filename.split('.')[0]}_{metric}_top{top_n}_comparison.png"`,
      with the `metric` argument as given, not the header it resolves to. */
  function ComparisonFileName(filename: string, metric: string, topN: int): string
  {
    PrefixBeforeFirstDot(filename) + "_" + metric + "_top" + IntToString(topN) + "_comparison.png"
  }

  /** The stem is the text before the first dot, so two names that agree
      up to their first dot share a stem: `a.b.csv` and `a.csv` both give `a`. */
  lemma StemStopsAtFirstDot(stem: string, rest1: string, rest2: string)
    requires '.' !in stem
    ensures PrefixBeforeFirstDot(stem + "." + rest1) == stem
    ensures PrefixBeforeFirstDot(stem + "." + rest1) == PrefixBeforeFirstDot(stem + "." + rest2)
  {
    StemOf(stem, rest1);
    StemOf(stem, rest2);
  }

  lemma {:induction false} StemOf(stem: string, rest: string)
    requires '.' !in stem
    ensures PrefixBeforeFirstDot(stem + "." + rest) == stem
  {
    if stem != [] {
      assert (stem + "." + rest)[1..] == stem[1..] + "." + rest;
      StemOf(stem[1..], rest);
    }
  }

  /** The correlation image name determines the plot type. */
  lemma CorrelationFileNameInjective(filename: string, k1: string, k2: string)
    requires CorrelationFileName(filename, k1) == CorrelationFileName(filename, k2)
    ensures k1 == k2
  {
    CancelAround(PrefixBeforeFirstDot(filename) + "_", k1, k2, "_correlation.png");
  }

  /** Requests for different `top_n` never share an image name. */
  lemma ComparisonFileNameSeparatesTopN(filename: string, metric: string, n1: int, n2: int)
    requires ComparisonFileName(filename, metric, n1) == ComparisonFileName(filename, metric, n2)
    ensures n1 == n2
  {
    var a := PrefixBeforeFirstDot(filename) + "_" + metric + "_top";
    assert ComparisonFileName(filename, metric, n1) == a + IntToString(n1) + "_comparison.png";
    assert ComparisonFileName(filename, metric, n2) == a + IntToString(n2) + "_comparison.png";
    CancelAround(a, IntToString(n1), IntToString(n2), "_comparison.png");
    IntToStringInjective(n1, n2);
  }

  /** Requests whose metrics differ never share an image name. */
  lemma ComparisonFileNameSeparatesMetric(filename: string, m1: string, m2: string, topN: int)
    requires ComparisonFileName(filename, m1, topN) == ComparisonFileName(filename, m2, topN)
    ensures m1 == m2
  {
    var a := PrefixBeforeFirstDot(filename) + "_";
    var b := "_top" + IntToString(topN) + "_comparison.png";
    ComparisonFileNameParts(filename, m1, topN);
    ComparisonFileNameParts(filename, m2, topN);
    CancelAround(a, m1, m2, b);
  }

  lemma ComparisonFileNameParts(filename: string, metric: string, topN: int)
    ensures ComparisonFileName(filename, metric, topN)
         == PrefixBeforeFirstDot(filename) + "_" + metric + ("_top" + IntToString(topN) + "_comparison.png")
  {
  }
}

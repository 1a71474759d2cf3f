/** Resolution of the `metric` argument of `generate_state_comparison`
    against the dataset's headers: the first header, in table order, that
    equals the request ignoring case. */
module Resolver {
  import opened Wrappers
  import opened Text
  import opened Table

  /** The index of the first header whose lower-cased form equals the
      lower-cased request, or `None` when no header does. */
  function FirstMatch(names: seq<string>, metric: string): (r: Option<nat>)
    ensures r.Some? ==> r.value < |names| && Lower(names[r.value]) == Lower(metric)
                        && forall k :: 0 <= k < r.value ==> Lower(names[k]) != Lower(metric)
    ensures r.None? ==> forall k :: 0 <= k < |names| ==> Lower(names[k]) != Lower(metric)
  {
    if names == [] then None
    else
      var n := |names| - 1;
      match FirstMatch(names[..n], metric)
      case Some(j) => Some(j)
      case None => if Lower(names[n]) == Lower(metric) then Some(n) else None
  }

  /** The header `metric` resolves to, as `metric_col` holds it after the
      loop. */
  function ResolvedName(names: seq<string>, metric: string): Option<string>
  {
    match FirstMatch(names, metric)
    case Some(j) => Some(names[j])
    case None => None
  }

  /** The loop that sets `metric_col`: scan the headers in order and stop
      at the first one equal to `metric` ignoring case. */
  method ResolveColumn(names: seq<string>, metric: string) returns (metricCol: Option<string>)
    ensures metricCol == ResolvedName(names, metric)
    ensures metricCol.Some? ==> metricCol.value in names && Lower(metricCol.value) == Lower(metric)
    ensures metricCol.None? <==> forall k :: 0 <= k < |names| ==> Lower(names[k]) != Lower(metric)
  {
    metricCol := None;
    var target := Lower(metric);
    for i := 0 to |names|
      invariant metricCol == None
      invariant forall k :: 0 <= k < i ==> Lower(names[k]) != target
    {
      if Lower(names[i]) == target {
        metricCol := Some(names[i]);
        break;
      }
    }
  }

  /** Looking the resolved header up by its exact name, as
      `df.dropna(subset=[metric_col])` does, finds the matched column again:
      an earlier header with the same exact name would have matched first. */
  lemma ResolvedNameIndex(names: seq<string>, metric: string)
    requires FirstMatch(names, metric).Some?
    ensures ColumnIndex(names, names[FirstMatch(names, metric).value]) == FirstMatch(names, metric)
  {
  }

  /** Resolution depends on the request only through its lower-cased form. */
  lemma FirstMatchIgnoresCase(names: seq<string>, m1: string, m2: string)
    requires Lower(m1) == Lower(m2)
    ensures FirstMatch(names, m1) == FirstMatch(names, m2)
  {
    var r1, r2 := FirstMatch(names, m1), FirstMatch(names, m2);
    if r1.Some? && r2.Some? {
      assert !(r1.value < r2.value) && !(r2.value < r1.value);
    }
  }

  /** There is no exact-match pass: a header that equals the request only
      ignoring case wins over a later one that equals it exactly. */
  lemma NoExactMatchPass()
    ensures FirstMatch(["obesity", "Obesity"], "Obesity") == Some(0)
  {
    assert Lower("obesity") == Lower("Obesity");
  }
}

/** The top-N selection of `generate_state_comparison`:
    `df_clean.sort_values(metric_col, ascending=False).head(top_n)`. */
module Ranking {
  import opened Seqs
  import opened Table

  /** One bar of the comparison chart: the geography cell that labels it
      and the metric value that gives its height. */
  datatype Bar = Bar(state: Cell, value: real)

  function Value(b: Bar): real
  {
    b.value
  }

  /** The bars sorted by descending value, then pandas' `head(n)`. Ties are
      kept in input order here; pandas' default sort is not stable, so
      nothing below depends on that choice (see `IsRanking`). */
  function Rank(bars: seq<Bar>, n: int): seq<Bar>
  {
    Head(SortDesc(bars, Value), n)
  }

  /** What any descending sort followed by `head(n)` yields, whatever order
      it gives to ties: as many bars as `head` keeps, in non-increasing
      order, drawn from the input, and none of them smaller than a bar left
      out. */
  ghost predicate IsRanking(bars: seq<Bar>, n: int, sel: seq<Bar>)
  {
    && |sel| == HeadCount(n, |bars|)
    && NonIncreasing(sel, Value)
    && multiset(sel) <= multiset(bars)
    && forall x, y :: x in multiset(sel) && y in multiset(bars) - multiset(sel) ==> y.value <= x.value
  }

  lemma RankIsRanking(bars: seq<Bar>, n: int)
    ensures IsRanking(bars, n, Rank(bars, n))
    ensures n >= 0 ==> |Rank(bars, n)| == if n < |bars| then n else |bars|
    ensures |Rank(bars, n)| > 0 ==>
              forall y :: y in multiset(bars) - multiset(Rank(bars, n)) ==>
                y.value <= Rank(bars, n)[|Rank(bars, n)| - 1].value
  {
    var sorted := SortDesc(bars, Value);
    SortDescOrdered(bars, Value);
    SortDescPermutes(bars, Value);
    var k := HeadCount(n, |bars|);
    var sel := sorted[..k];
    LeftoverIsSuffix(sorted, k);
    PrefixBeatsSuffix(sorted, k);
    assert NonIncreasing(sel, Value);
    if k > 0 {
      assert sel[k - 1] in multiset(sel);
    }
  }

  /** What `head(k)` leaves out of a sequence is its suffix from `k`. */
  lemma LeftoverIsSuffix(sorted: seq<Bar>, k: nat)
    requires k <= |sorted|
    ensures multiset(sorted[..k]) <= multiset(sorted)
    ensures multiset(sorted) - multiset(sorted[..k]) == multiset(sorted[k..])
  {
    assert sorted == sorted[..k] + sorted[k..];
    assert multiset(sorted) == multiset(sorted[..k]) + multiset(sorted[k..]);
  }

  /** In a non-increasing sequence every element before `k` is at least
      every element from `k` on. */
  lemma PrefixBeatsSuffix(sorted: seq<Bar>, k: nat)
    requires k <= |sorted|
    requires NonIncreasing(sorted, Value)
    ensures forall x, y :: x in multiset(sorted[..k]) && y in multiset(sorted[k..]) ==> y.value <= x.value
  {
    forall x: Bar, y: Bar | x in multiset(sorted[..k]) && y in multiset(sorted[k..]) ensures y.value <= x.value {
      var i :| 0 <= i < k && sorted[..k][i] == x;
      var j :| 0 <= j < |sorted| - k && sorted[k..][j] == y;
      assert sorted[i] == x && sorted[k + j] == y;
    }
  }
}

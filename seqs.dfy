/** Sequence operations the tools are built from: the order-preserving
    filter behind the `append` loops and `dropna`, the stable descending
    sort behind `list.sort(key=..., reverse=True)`, and pandas' `head`. */
module Seqs {

  // ---------------------------------------------------------------------
  // Filtering

  /** The elements of `s` that satisfy `p`, in their original order. */
  function Filter<T>(s: seq<T>, p: T -> bool): (r: seq<T>)
    ensures |r| <= |s|
  {
    if s == [] then []
    else Filter(s[..|s| - 1], p) + (if p(s[|s| - 1]) then [s[|s| - 1]] else [])
  }

  /** The indices of `s` whose elements satisfy `p`, in increasing order. */
  function Positions<T>(s: seq<T>, p: T -> bool): seq<nat>
  {
    if s == [] then []
    else Positions(s[..|s| - 1], p) + (if p(s[|s| - 1]) then [|s| - 1] else [])
  }

  /** Filtering keeps every element satisfying `p` with its multiplicity
      and drops every other one. */
  lemma {:induction false} FilterCount<T>(s: seq<T>, p: T -> bool, x: T)
    ensures multiset(Filter(s, p))[x] == if p(x) then multiset(s)[x] else 0
  {
    if s != [] {
      var n := |s| - 1;
      FilterCount(s[..n], p, x);
      assert s == s[..n] + [s[n]];
    }
  }

  /** An element is kept exactly when it occurs in `s` and satisfies `p`. */
  lemma FilterMembership<T>(s: seq<T>, p: T -> bool, x: T)
    ensures x in Filter(s, p) <==> x in s && p(x)
  {
    FilterCount(s, p, x);
    assert x in Filter(s, p) <==> x in multiset(Filter(s, p));
    assert x in s <==> x in multiset(s);
  }

  /** The filter is the subsequence of `s` at the increasing indices
      `Positions(s, p)`, which are exactly the indices where `p` holds:
      the kept elements keep their relative order. */
  lemma {:induction false} FilterPositions<T>(s: seq<T>, p: T -> bool)
    ensures |Positions(s, p)| == |Filter(s, p)|
    ensures forall k :: 0 <= k < |Positions(s, p)| ==>
              Positions(s, p)[k] < |s| && Filter(s, p)[k] == s[Positions(s, p)[k]]
    ensures forall k1, k2 :: 0 <= k1 < k2 < |Positions(s, p)| ==>
              Positions(s, p)[k1] < Positions(s, p)[k2]
    ensures forall i :: 0 <= i < |s| ==> (p(s[i]) <==> i in Positions(s, p))
  {
    if s != [] {
      var n := |s| - 1;
      var pre := s[..n];
      FilterPositions(pre, p);
      var ps, fs := Positions(pre, p), Filter(pre, p);
      assert forall k :: 0 <= k < |ps| ==> ps[k] < n;
      assert forall i :: 0 <= i < n ==> s[i] == pre[i];
      if p(s[n]) {
        assert Positions(s, p) == ps + [n];
        assert Filter(s, p) == fs + [s[n]];
      } else {
        assert Positions(s, p) == ps;
        assert Filter(s, p) == fs;
      }
    }
  }

  /** The number of elements of `s` that satisfy `p`, counted one by one. */
  function Count<T>(s: seq<T>, p: T -> bool): nat
  {
    if s == [] then 0
    else Count(s[..|s| - 1], p) + (if p(s[|s| - 1]) then 1 else 0)
  }

  /** Counting and filtering agree, and together with the rejected
      elements they account for all of `s`. */
  lemma {:induction false} CountFilter<T>(s: seq<T>, p: T -> bool)
    ensures Count(s, p) == |Filter(s, p)|
    ensures Count(s, p) + Count(s, Not(p)) == |s|
  {
    if s != [] {
      CountFilter(s[..|s| - 1], p);
    }
  }

  /** Counting distributes over concatenation. */
  lemma {:induction false} CountAppend<T>(a: seq<T>, b: seq<T>, p: T -> bool)
    ensures Count(a + b, p) == Count(a, p) + Count(b, p)
  {
    if b != [] {
      var n := |b| - 1;
      assert (a + b)[..|a + b| - 1] == a + b[..n];
      assert (a + b)[|a + b| - 1] == b[n];
      CountAppend(a, b[..n], p);
    } else {
      assert a + b == a;
    }
  }

  /** A sequence with no element satisfying `p` counts zero. */
  lemma {:induction false} CountNone<T>(s: seq<T>, p: T -> bool)
    requires forall i :: 0 <= i < |s| ==> !p(s[i])
    ensures Count(s, p) == 0
  {
    if s != [] {
      CountNone(s[..|s| - 1], p);
    }
  }

  /** Appending four pieces one at a time, as `result += ...` does,
      equals appending the two pairs they form. */
  lemma AppendFour<T>(x: seq<T>, a: seq<T>, p: seq<T>, b: seq<T>, c: seq<T>)
    ensures x + a + p + b + c == x + ((a + p) + (b + c))
  {
  }

  /** Regrouping a concatenation of three pieces. */
  lemma Regroup<T>(whole: seq<T>, tail: seq<T>, front: seq<T>, a: seq<T>, b: seq<T>, c: seq<T>)
    requires whole == a + tail && tail == b + c && front == a + b
    ensures whole == front + c
  {
  }

  /** The complement of a predicate. */
  function Not<T>(p: T -> bool): T -> bool
  {
    x => !p(x)
  }

  // ---------------------------------------------------------------------
  // Stable descending sort

  /** `s` is in non-increasing order of `key`. */
  ghost predicate NonIncreasing<T>(s: seq<T>, key: T -> real)
  {
    forall i, j :: 0 <= i < j < |s| ==> key(s[i]) >= key(s[j])
  }

  /** Inserts `x` into `sorted` after every element whose key is at least
      `key(x)`, so that `x` follows the elements it ties with. */
  function InsertDesc<T>(sorted: seq<T>, x: T, key: T -> real): (r: seq<T>)
    ensures |r| == |sorted| + 1
  {
    if sorted == [] then [x]
    else if key(sorted[0]) >= key(x) then [sorted[0]] + InsertDesc(sorted[1..], x, key)
    else [x] + sorted
  }

  /** Insertion adds `x` and loses nothing. */
  lemma {:induction false} InsertDescPermutes<T>(sorted: seq<T>, x: T, key: T -> real)
    ensures multiset(InsertDesc(sorted, x, key)) == multiset(sorted) + multiset{x}
  {
    if sorted != [] && key(sorted[0]) >= key(x) {
      InsertDescPermutes(sorted[1..], x, key);
      assert sorted == [sorted[0]] + sorted[1..];
    }
  }

  /** Sorts `s` by non-increasing `key`, inserting the elements in their
      original order: elements with equal keys keep their relative order. */
  function SortDesc<T>(s: seq<T>, key: T -> real): (r: seq<T>)
    ensures |r| == |s|
  {
    if s == [] then []
    else InsertDesc(SortDesc(s[..|s| - 1], key), s[|s| - 1], key)
  }

  /** The sort is a permutation of its input. */
  lemma {:induction false} SortDescPermutes<T>(s: seq<T>, key: T -> real)
    ensures multiset(SortDesc(s, key)) == multiset(s)
  {
    if s != [] {
      var n := |s| - 1;
      SortDescPermutes(s[..n], key);
      InsertDescPermutes(SortDesc(s[..n], key), s[n], key);
      assert s == s[..n] + [s[n]];
    }
  }

  lemma {:induction false} InsertDescOrdered<T>(sorted: seq<T>, x: T, key: T -> real)
    requires NonIncreasing(sorted, key)
    ensures NonIncreasing(InsertDesc(sorted, x, key), key)
  {
    if sorted != [] && key(sorted[0]) >= key(x) {
      var rest := sorted[1..];
      InsertDescOrdered(rest, x, key);
      InsertDescPermutes(rest, x, key);
      var ins := InsertDesc(rest, x, key);
      var r := [sorted[0]] + ins;
      forall j | 0 < j < |r| ensures key(r[0]) >= key(r[j]) {
        assert r[j] == ins[j - 1];
        assert r[j] in multiset(ins);
        assert r[j] in multiset(rest) || r[j] == x;
      }
    }
  }

  /** The sort yields a non-increasing arrangement of its input. */
  lemma {:induction false} SortDescOrdered<T>(s: seq<T>, key: T -> real)
    ensures NonIncreasing(SortDesc(s, key), key)
  {
    if s != [] {
      SortDescOrdered(s[..|s| - 1], key);
      InsertDescOrdered(SortDesc(s[..|s| - 1], key), s[|s| - 1], key);
    }
  }

  /** The elements whose key equals `t`. */
  function KeyIs<T>(key: T -> real, t: real): T -> bool
  {
    x => key(x) == t
  }

  lemma {:induction false} NoLargerKey<T>(sorted: seq<T>, key: T -> real, t: real)
    requires NonIncreasing(sorted, key)
    requires sorted != [] && key(sorted[0]) < t
    ensures Filter(sorted, KeyIs(key, t)) == []
  {
    var n := |sorted| - 1;
    if n > 0 {
      assert NonIncreasing(sorted[..n], key);
      NoLargerKey(sorted[..n], key, t);
    }
  }

  lemma {:induction false} InsertDescStable<T>(sorted: seq<T>, x: T, key: T -> real, t: real)
    requires NonIncreasing(sorted, key)
    ensures Filter(InsertDesc(sorted, x, key), KeyIs(key, t))
         == Filter(sorted, KeyIs(key, t)) + Filter([x], KeyIs(key, t))
  {
    if sorted == [] {
      assert InsertDesc(sorted, x, key) == [x];
    } else if key(sorted[0]) >= key(x) {
      NonIncreasingTail(sorted, key);
      InsertDescStable(sorted[1..], x, key, t);
      InsertBehind(sorted, x, key, t);
    } else {
      if key(x) == t {
        NoLargerKey(sorted, key, t);
      }
      InsertInFront(sorted, x, key, t);
    }
  }

  /** The step of `InsertDescStable` where `x` goes behind the head. */
  lemma InsertBehind<T>(sorted: seq<T>, x: T, key: T -> real, t: real)
    requires sorted != [] && key(sorted[0]) >= key(x)
    requires Filter(InsertDesc(sorted[1..], x, key), KeyIs(key, t))
          == Filter(sorted[1..], KeyIs(key, t)) + Filter([x], KeyIs(key, t))
    ensures Filter(InsertDesc(sorted, x, key), KeyIs(key, t))
         == Filter(sorted, KeyIs(key, t)) + Filter([x], KeyIs(key, t))
  {
    var p := KeyIs(key, t);
    var s0, rest := sorted[0], sorted[1..];
    var ins := InsertDesc(rest, x, key);
    var a, b, c := Filter([s0], p), Filter(rest, p), Filter([x], p);
    assert Filter(InsertDesc(sorted, x, key), p) == a + Filter(ins, p) by {
      assert InsertDesc(sorted, x, key) == [s0] + ins;
      FilterPrepend(s0, ins, p);
    }
    assert Filter(sorted, p) == a + b by {
      assert sorted == [s0] + rest;
      FilterPrepend(s0, rest, p);
    }
    Regroup(Filter(InsertDesc(sorted, x, key), p), Filter(ins, p), Filter(sorted, p), a, b, c);
  }

  /** The step of `InsertDescStable` where `x` goes in front. */
  lemma InsertInFront<T>(sorted: seq<T>, x: T, key: T -> real, t: real)
    requires sorted != [] && key(sorted[0]) < key(x)
    requires key(x) == t ==> Filter(sorted, KeyIs(key, t)) == []
    ensures Filter(InsertDesc(sorted, x, key), KeyIs(key, t))
         == Filter(sorted, KeyIs(key, t)) + Filter([x], KeyIs(key, t))
  {
    var p := KeyIs(key, t);
    assert InsertDesc(sorted, x, key) == [x] + sorted;
    FilterPrepend(x, sorted, p);
    if key(x) != t {
      assert Filter([x], p) == [];
    }
  }

  lemma NonIncreasingTail<T>(sorted: seq<T>, key: T -> real)
    requires sorted != [] && NonIncreasing(sorted, key)
    ensures NonIncreasing(sorted[1..], key)
  {
    var rest := sorted[1..];
    forall i, j | 0 <= i < j < |rest| ensures key(rest[i]) >= key(rest[j]) {
      assert rest[i] == sorted[i + 1] && rest[j] == sorted[j + 1];
    }
  }

  lemma {:induction false} FilterPrepend<T>(x: T, s: seq<T>, p: T -> bool)
    ensures Filter([x] + s, p) == Filter([x], p) + Filter(s, p)
  {
    if s != [] {
      var n := |s| - 1;
      FilterPrepend(x, s[..n], p);
      assert ([x] + s)[..|[x] + s| - 1] == [x] + s[..n];
    }
  }

  lemma {:induction false} FilterAppend<T>(s: seq<T>, x: T, p: T -> bool)
    ensures Filter(s + [x], p) == Filter(s, p) + Filter([x], p)
  {
    assert (s + [x])[..|s|] == s;
  }

  /** Stability: for every key value, the elements carrying it appear in the
      sorted result in the same order as in the input. */
  lemma {:induction false} SortDescStable<T>(s: seq<T>, key: T -> real, t: real)
    ensures Filter(SortDesc(s, key), KeyIs(key, t)) == Filter(s, KeyIs(key, t))
  {
    if s != [] {
      var n := |s| - 1;
      var p := KeyIs(key, t);
      var pre := SortDesc(s[..n], key);
      assert Filter(SortDesc(s, key), p) == Filter(pre, p) + Filter([s[n]], p) by {
        assert SortDesc(s, key) == InsertDesc(pre, s[n], key);
        SortDescOrdered(s[..n], key);
        InsertDescStable(pre, s[n], key, t);
      }
      assert Filter(s, p) == Filter(s[..n], p) + Filter([s[n]], p) by {
        assert s == s[..n] + [s[n]];
        FilterAppend(s[..n], s[n], p);
      }
      SortDescStable(s[..n], key, t);
    }
  }

  // ---------------------------------------------------------------------
  // pandas' head

  /** How many rows pandas' `head(n)` keeps of `len` rows: the first `n`,
      or, for a negative `n`, all but the last `-n`. */
  function HeadCount(n: int, len: nat): (k: nat)
    ensures k <= len
  {
    if n >= 0 then (if n < len then n else len)
    else if len + n > 0 then len + n else 0
  }

  /** pandas' `head(n)` on a sequence of rows. */
  function Head<T>(s: seq<T>, n: int): (r: seq<T>)
    ensures |r| == HeadCount(n, |s|)
  {
    s[..HeadCount(n, |s|)]
  }
}

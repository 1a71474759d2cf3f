/** The string operations the server applies to names and numbers:
    `str.lower()`, `str(int)`, `repr` of a list of names, `split('.')[0]`,
    `Path.suffix` and `Path / name`. */
module Text {
  import opened Wrappers
  import opened Seqs

  predicate StartsWith(s: string, prefix: string)
  {
    |prefix| <= |s| && s[..|prefix|] == prefix
  }

  predicate EndsWith(s: string, suffix: string)
  {
    |suffix| <= |s| && s[|s| - |suffix|..] == suffix
  }

  /** Whether a string starts with a prefix is decided by its head. */
  lemma StartsWithConcat(a: string, b: string, prefix: string)
    requires |prefix| <= |a|
    ensures StartsWith(a + b, prefix) <==> StartsWith(a, prefix)
  {
    assert (a + b)[..|prefix|] == a[..|prefix|];
  }

  /** A string does not start with a prefix whose first character it lacks. */
  lemma DiffersAtFirst(s: string, prefix: string)
    requires |s| > 0 && |prefix| > 0 && s[0] != prefix[0]
    ensures !StartsWith(s, prefix)
  {
    if |prefix| <= |s| {
      assert s[..|prefix|][0] == s[0];
    }
  }

  /** A reply made of a head that does not open with `E` and a trailing
      path neither starts with `Error` nor with `Error:`, and ends with the
      path. */
  lemma HeadThenPath(head: string, path: string)
    requires |head| > 0 && head[0] != 'E'
    ensures !StartsWith(head + path, "Error") && !StartsWith(head + path, "Error:")
    ensures EndsWith(head + path, path)
  {
    assert (head + path)[0] == head[0];
    DiffersAtFirst(head + path, "Error");
    DiffersAtFirst(head + path, "Error:");
    assert (head + path)[|head + path| - |path|..] == path;
  }

  /** `f"Error: {detail}"`: the explicit error returns of every tool. */
  function ExplicitError(detail: string): string
  {
    "Error: " + detail
  }

  /** `f"Error {action}: {str(e)}"`: the catch-all return of a tool, with
      the exception's own text left out. */
  function CatchAll(action: string): string
  {
    "Error " + (action + ": ")
  }

  /** Both kinds of error reply start with `Error`; only the explicit ones
      start with `Error:`. */
  lemma ErrorPrefixes(detail: string, action: string)
    ensures StartsWith(ExplicitError(detail), "Error") && StartsWith(ExplicitError(detail), "Error:")
    ensures StartsWith(CatchAll(action), "Error") && !StartsWith(CatchAll(action), "Error:")
  {
    StartsWithConcat("Error: ", detail, "Error");
    StartsWithConcat("Error: ", detail, "Error:");
    StartsWithConcat("Error ", action + ": ", "Error");
    assert CatchAll(action)[5] == ' ';
  }

  /** A common prefix and suffix cancel. */
  lemma CancelAround(a: string, x: string, y: string, b: string)
    requires a + x + b == a + y + b
    ensures x == y
  {
    var s := a + x + b;
    assert |x| == |y|;
    assert x == s[|a|..|a| + |x|];
    assert y == (a + y + b)[|a|..|a| + |y|];
  }

  /** `needle` is a substring of `hay`. */
  ghost predicate Occurs(needle: string, hay: string)
  {
    exists k :: OccursAt(needle, hay, k)
  }

  ghost predicate OccursAt(needle: string, hay: string, k: int)
  {
    0 <= k <= |hay| - |needle| && hay[k..k + |needle|] == needle
  }

  lemma OccursIn(needle: string, a: string, b: string)
    ensures Occurs(needle, a + needle + b)
  {
    var hay := a + needle + b;
    assert hay[|a|..|a| + |needle|] == needle;
    assert OccursAt(needle, hay, |a|);
  }

  lemma OccursWithin(needle: string, hay: string, a: string, b: string)
    requires Occurs(needle, hay)
    ensures Occurs(needle, a + hay + b)
  {
    var k :| OccursAt(needle, hay, k);
    var big := a + hay + b;
    assert big[|a| + k..|a| + k + |needle|] == hay[k..k + |needle|];
    assert OccursAt(needle, big, |a| + k);
  }

  // ---------------------------------------------------------------------
  // Case folding

  /** `str.lower()` restricted to ASCII letters. */
  function LowerChar(c: char): char
  {
    if 'A' <= c <= 'Z' then (c as int + 32) as char else c
  }

  function Lower(s: string): string
  {
    seq(|s|, i requires 0 <= i < |s| => LowerChar(s[i]))
  }

  /** Two names that are equal ignoring case have equal length, and
      lower-casing is idempotent. */
  lemma LowerFacts(s: string, t: string)
    ensures |Lower(s)| == |s|
    ensures Lower(Lower(s)) == Lower(s)
    ensures Lower(s) == Lower(t) ==> |s| == |t|
  {
  }

  // ---------------------------------------------------------------------
  // Decimal integers: Python's `str(n)` and its inverse

  predicate IsDigit(c: char)
  {
    '0' <= c <= '9'
  }

  predicate AllDigits(s: string)
  {
    forall i :: 0 <= i < |s| ==> IsDigit(s[i])
  }

  function DigitChar(d: nat): (c: char)
    requires d < 10
    ensures IsDigit(c) && c as int - '0' as int == d
  {
    ('0' as int + d) as char
  }

  /** The decimal numeral of `n`, most significant digit first, with no
      leading zeros. */
  function NatToString(n: nat): (r: string)
    ensures |r| > 0 && AllDigits(r)
    ensures |r| > 1 ==> r[0] != '0'
  {
    if n < 10 then [DigitChar(n)]
    else NatToString(n / 10) + [DigitChar(n % 10)]
  }

  /** Python's `str` on an `int`: a minus sign before the numeral of the
      magnitude when negative. */
  function IntToString(i: int): string
  {
    if i < 0 then "-" + NatToString(-i) else NatToString(i)
  }

  /** The value of a string of decimal digits. */
  function DigitsValue(s: string): nat
    requires AllDigits(s)
  {
    if s == [] then 0
    else DigitsValue(s[..|s| - 1]) * 10 + (s[|s| - 1] as int - '0' as int)
  }

  /** Python's `int(s)` on the numerals `str` produces: an optional minus
      sign followed by at least one digit. */
  function ParseInt(s: string): Option<int>
  {
    if |s| > 1 && s[0] == '-' && AllDigits(s[1..]) then
      Some(-(DigitsValue(s[1..]) as int))
    else if |s| > 0 && AllDigits(s) then Some(DigitsValue(s))
    else None
  }

  lemma {:induction false} NatToStringRoundTrip(n: nat)
    ensures DigitsValue(NatToString(n)) == n
  {
    if n >= 10 {
      NatToStringRoundTrip(n / 10);
      var r := NatToString(n);
      assert r[..|r| - 1] == NatToString(n / 10);
    }
  }

  /** Parsing what `str` prints gives back the number. */
  lemma IntToStringRoundTrip(i: int)
    ensures ParseInt(IntToString(i)) == Some(i)
  {
    if i < 0 {
      NatToStringRoundTrip(-i);
      assert IntToString(i)[1..] == NatToString(-i);
    } else {
      NatToStringRoundTrip(i);
    }
  }

  /** Different numbers print differently. */
  lemma IntToStringInjective(a: int, b: int)
    requires IntToString(a) == IntToString(b)
    ensures a == b
  {
    IntToStringRoundTrip(a);
    IntToStringRoundTrip(b);
  }

  /** The length of the run of digits that opens `s`. */
  function LeadingDigits(s: string): nat
  {
    if s != [] && IsDigit(s[0]) then 1 + LeadingDigits(s[1..]) else 0
  }

  /** A numeral followed by a non-digit is read back to its full length. */
  lemma {:induction false} LeadingDigitsOf(a: string, x: string)
    requires AllDigits(a)
    requires x == [] || !IsDigit(x[0])
    ensures LeadingDigits(a + x) == |a|
  {
    if a == [] {
      assert a + x == x;
    } else {
      assert (a + x)[1..] == a[1..] + x;
      LeadingDigitsOf(a[1..], x);
    }
  }

  /** A number printed before a text that does not open with a digit can
      be told apart from that text: both are determined. */
  lemma NumberThenText(a: nat, x: string, b: nat, y: string)
    requires x == [] || !IsDigit(x[0])
    requires y == [] || !IsDigit(y[0])
    requires IntToString(a) + x == IntToString(b) + y
    ensures a == b && x == y
  {
    var s, t := IntToString(a), IntToString(b);
    LeadingDigitsOf(s, x);
    LeadingDigitsOf(t, y);
    assert s == (s + x)[..|s|] && t == (t + y)[..|t|];
    IntToStringInjective(a, b);
    assert x == (s + x)[|s|..] && y == (t + y)[|t|..];
  }

  // ---------------------------------------------------------------------
  // repr of a list of names

  /** `repr` of a name: the name between single quotes. */
  function PyStrRepr(s: string): string
  {
    "'" + s + "'"
  }

  function PyListItems(xs: seq<string>): string
  {
    if xs == [] then ""
    else if |xs| == 1 then PyStrRepr(xs[0])
    else PyListItems(xs[..|xs| - 1]) + ", " + PyStrRepr(xs[|xs| - 1])
  }

  /** `repr` of a list of names, as an f-string prints `{list(...)}`. */
  function PyListRepr(xs: seq<string>): string
  {
    "[" + PyListItems(xs) + "]"
  }

  lemma {:induction false} PyListItemsMentions(xs: seq<string>, j: nat)
    requires j < |xs|
    ensures Occurs(PyStrRepr(xs[j]), PyListItems(xs))
  {
    var n := |xs| - 1;
    if n == 0 {
      OccursIn(PyStrRepr(xs[j]), "", "");
      assert "" + PyStrRepr(xs[j]) + "" == PyListItems(xs);
    } else if j == n {
      OccursIn(PyStrRepr(xs[j]), PyListItems(xs[..n]) + ", ", "");
      assert PyListItems(xs[..n]) + ", " + PyStrRepr(xs[j]) + "" == PyListItems(xs);
    } else {
      PyListItemsMentions(xs[..n], j);
      assert xs[..n][j] == xs[j];
      OccursWithin(PyStrRepr(xs[j]), PyListItems(xs[..n]), "", ", " + PyStrRepr(xs[n]));
      assert "" + PyListItems(xs[..n]) + (", " + PyStrRepr(xs[n])) == PyListItems(xs);
    }
  }

  /** Every name of the list appears, quoted, in its `repr`. */
  lemma PyListReprMentions(xs: seq<string>, j: nat)
    requires j < |xs|
    ensures Occurs(PyStrRepr(xs[j]), PyListRepr(xs))
  {
    PyListItemsMentions(xs, j);
    OccursWithin(PyStrRepr(xs[j]), PyListItems(xs), "[", "]");
  }

  lemma OccursAfter(needle: string, hay: string, a: string)
    requires Occurs(needle, hay)
    ensures Occurs(needle, a + hay)
  {
    OccursWithin(needle, hay, a, "");
    assert a + hay + "" == a + hay;
  }

  // ---------------------------------------------------------------------
  // Reports built line by line with `result += ...`

  predicate IsNewline(c: char)
  {
    c == '\n'
  }

  /** The renderings of the items, one after another. */
  function ConcatMap<T>(xs: seq<T>, render: T -> string): string
  {
    if xs == [] then ""
    else ConcatMap(xs[..|xs| - 1], render) + render(xs[|xs| - 1])
  }

  /** One more item appends its rendering. */
  lemma ConcatMapSnoc<T>(xs: seq<T>, x: T, render: T -> string)
    ensures ConcatMap(xs + [x], render) == ConcatMap(xs, render) + render(x)
  {
    assert (xs + [x])[..|xs|] == xs;
  }

  /** The renderings of the first `j` items come first, then that of item `j`. */
  lemma {:induction false} ConcatMapInOrder<T>(xs: seq<T>, render: T -> string, j: nat)
    requires j < |xs|
    ensures StartsWith(ConcatMap(xs, render), ConcatMap(xs[..j], render) + render(xs[j]))
  {
    var n := |xs| - 1;
    var head := ConcatMap(xs[..j], render) + render(xs[j]);
    if j == n {
      assert xs[..n] == xs[..j];
    } else {
      ConcatMapInOrder(xs[..n], render, j);
      assert xs[..n][..j] == xs[..j] && xs[..n][j] == xs[j];
      var whole := ConcatMap(xs, render);
      assert whole == ConcatMap(xs[..n], render) + render(xs[n]);
      assert whole[..|head|] == ConcatMap(xs[..n], render)[..|head|];
    }
  }

  /** Every item's rendering appears in the report. */
  lemma ConcatMapOccurs<T>(xs: seq<T>, render: T -> string, j: nat)
    requires j < |xs|
    ensures Occurs(render(xs[j]), ConcatMap(xs, render))
  {
    ConcatMapInOrder(xs, render, j);
    var pre := ConcatMap(xs[..j], render);
    var whole := ConcatMap(xs, render);
    assert whole[|pre|..|pre| + |render(xs[j])|] == (pre + render(xs[j]))[|pre|..];
    assert OccursAt(render(xs[j]), whole, |pre|);
  }

  /** When every rendering is one line, the report has one line per item. */
  lemma {:induction false} ConcatMapLines<T>(xs: seq<T>, render: T -> string)
    requires forall k :: 0 <= k < |xs| ==> Count(render(xs[k]), IsNewline) == 1
    ensures Count(ConcatMap(xs, render), IsNewline) == |xs|
  {
    if xs != [] {
      var n := |xs| - 1;
      assert forall k :: 0 <= k < n ==> xs[..n][k] == xs[k];
      ConcatMapLines(xs[..n], render);
      CountAppend(ConcatMap(xs[..n], render), render(xs[n]), IsNewline);
    }
  }

  /** A text without a line break, then one: exactly one line. */
  lemma OneLine(body: string)
    requires '\n' !in body
    ensures Count(body + "\n", IsNewline) == 1
  {
    CountNone(body, IsNewline);
    CountAppend(body, "\n", IsNewline);
    assert "\n"[..0] == [];
  }

  /** Decimal digits hold no line break. */
  lemma DigitsOneLine(i: int)
    ensures '\n' !in IntToString(i)
  {
    var s := IntToString(i);
    if i < 0 {
      var d := NatToString(-i);
      assert s == "-" + d;
      forall k | 0 <= k < |s| ensures s[k] != '\n' {
        if k > 0 {
          assert s[k] == d[k - 1];
        }
      }
    }
  }

  // ---------------------------------------------------------------------
  // File names

  /** `s.split('.')[0]`: the longest prefix of `s` without a dot. */
  function PrefixBeforeFirstDot(s: string): (r: string)
    ensures |r| <= |s| && r == s[..|r|]
    ensures '.' !in r
    ensures |r| < |s| ==> s[|r|] == '.'
  {
    if s == [] || s[0] == '.' then []
    else [s[0]] + PrefixBeforeFirstDot(s[1..])
  }

  /** The index of the last dot of `s`, as `str.rfind('.')`. */
  function LastDot(s: string): (r: Option<nat>)
    ensures r.Some? ==> r.value < |s| && s[r.value] == '.' && '.' !in s[r.value + 1..]
    ensures r.None? ==> '.' !in s
  {
    if s == [] then None
    else if s[|s| - 1] == '.' then Some(|s| - 1)
    else
      var r := LastDot(s[..|s| - 1]);
      assert r.Some? ==> s[r.value + 1..] == s[..|s| - 1][r.value + 1..] + [s[|s| - 1]];
      assert r.None? ==> s == s[..|s| - 1] + [s[|s| - 1]];
      r
  }

  /** pathlib's `Path.suffix` of a file name: from the last dot to the end,
      unless that dot opens the name or ends it, in which case it is empty. */
  function PathSuffix(name: string): (r: string)
    ensures r != "" ==> 2 <= |r| < |name| && EndsWith(name, r) && r[0] == '.' && '.' !in r[1..]
    ensures r == "" ==> forall i :: 0 < i < |name| - 1 && name[i] == '.' ==> '.' in name[i + 1..]
  {
    match LastDot(name)
    case None => ""
    case Some(i) =>
      if 0 < i < |name| - 1 then
        assert name[i..][1..] == name[i + 1..];
        name[i..]
      else
        assert forall j :: i < j < |name| ==> name[j] != '.' by {
          forall j | i < j < |name| ensures name[j] != '.' {
            assert name[j] == name[i + 1..][j - i - 1];
          }
        }
        ""
  }

  /** `dir / name` with pathlib: an absolute name replaces the directory. */
  function JoinPath(dir: string, name: string): (r: string)
    ensures EndsWith(r, name)
  {
    if StartsWith(name, "/") then name
    else if EndsWith(dir, "/") then dir + name
    else dir + "/" + name
  }
}

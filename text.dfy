/**
 * The PHP string builtins the core relies on, as functions over `string`:
 * `implode`, `explode`, `str_replace` and the ASCII case mappings of
 * `strtolower`, `strtoupper` and `ucfirst`.
 */
module Text {
  import opened Wrappers

  /** `implode($sep, $parts)`: neighbours separated by `sep`, nothing after the last part. */
  function Join(parts: seq<string>, sep: string): string
  {
    if |parts| == 0 then ""
    else if |parts| == 1 then parts[0]
    else parts[0] + sep + Join(parts[1..], sep)
  }

  /** Every line followed by its own terminator. */
  function Terminated(lines: seq<string>, eol: string): string
  {
    if lines == [] then "" else lines[0] + eol + Terminated(lines[1..], eol)
  }

  /** A joined list followed by one more separator is the list with every part terminated. */
  lemma {:induction false} JoinThenSeparator(parts: seq<string>, sep: string)
    requires parts != []
    ensures Join(parts, sep) + sep == Terminated(parts, sep)
  {
    if |parts| > 1 {
      JoinThenSeparator(parts[1..], sep);
      calc {
        Join(parts, sep) + sep;
        parts[0] + sep + Join(parts[1..], sep) + sep;
        parts[0] + sep + (Join(parts[1..], sep) + sep);
        parts[0] + sep + Terminated(parts[1..], sep);
      }
    }
  }

  /** Appending a part to a non-empty list adds the separator and the part at the end. */
  lemma {:induction false} JoinAppend(parts: seq<string>, last: string, sep: string)
    requires parts != []
    ensures Join(parts + [last], sep) == Join(parts, sep) + sep + last
  {
    if |parts| > 1 {
      assert (parts + [last])[1..] == parts[1..] + [last];
      JoinAppend(parts[1..], last, sep);
    } else {
      assert parts + [last] == [parts[0], last];
    }
  }

  /** Appending a line appends that line and its terminator. */
  lemma {:induction false} TerminatedAppend(lines: seq<string>, last: string, eol: string)
    ensures Terminated(lines + [last], eol) == Terminated(lines, eol) + last + eol
  {
    if lines == [] {
      assert [] + [last] == [last];
    } else {
      assert (lines + [last])[1..] == lines[1..] + [last];
      TerminatedAppend(lines[1..], last, eol);
    }
  }

  /** Terminating two lists of lines one after the other terminates their concatenation. */
  lemma {:induction false} TerminatedConcat(a: seq<string>, b: seq<string>, eol: string)
    ensures Terminated(a + b, eol) == Terminated(a, eol) + Terminated(b, eol)
  {
    if a == [] {
      assert a + b == b;
    } else {
      assert (a + b)[1..] == a[1..] + b;
      TerminatedConcat(a[1..], b, eol);
    }
  }

  /** `pat` occurs in `s` starting at index `i`. */
  predicate OccursAt(s: string, pat: string, i: nat)
  {
    i + |pat| <= |s| && s[i..i + |pat|] == pat
  }

  /** The leftmost occurrence of `pat` in `s` at or after index `from`. */
  function FindFrom(s: string, pat: string, from: nat): (r: Option<nat>)
    requires from <= |s|
    ensures r.Some? ==> from <= r.value && OccursAt(s, pat, r.value)
    ensures r.Some? ==> forall j :: from <= j < r.value ==> !OccursAt(s, pat, j)
    ensures r.None? ==> forall j :: from <= j <= |s| ==> !OccursAt(s, pat, j)
    decreases |s| - from
  {
    if from + |pat| > |s| then None
    else if s[from..from + |pat|] == pat then Some(from)
    else FindFrom(s, pat, from + 1)
  }

  /** `explode($delimiter, $s)` for a non-empty delimiter. */
  function Split(s: string, delimiter: string): (pieces: seq<string>)
    requires delimiter != ""
    ensures pieces != []
    decreases |s|
  {
    match FindFrom(s, delimiter, 0)
    case None => [s]
    case Some(i) => [s[..i]] + Split(s[i + |delimiter|..], delimiter)
  }

  /** Exploding and imploding on the same delimiter gives back the string. */
  lemma {:induction false} SplitJoin(s: string, delimiter: string)
    requires delimiter != ""
    ensures Join(Split(s, delimiter), delimiter) == s
    decreases |s|
  {
    match FindFrom(s, delimiter, 0)
    case None =>
    case Some(i) =>
      var rest := s[i + |delimiter|..];
      SplitJoin(rest, delimiter);
      assert Split(s, delimiter) == [s[..i]] + Split(rest, delimiter);
      assert s == s[..i] + delimiter + rest;
  }

  /** No piece produced by `Split` contains the delimiter. */
  lemma {:induction false} SplitPiecesAvoidDelimiter(s: string, delimiter: string)
    requires delimiter != ""
    ensures forall w, j: nat :: w in Split(s, delimiter) ==> !OccursAt(w, delimiter, j)
    decreases |s|
  {
    match FindFrom(s, delimiter, 0)
    case None =>
    case Some(i) =>
      var rest := s[i + |delimiter|..];
      SplitPiecesAvoidDelimiter(rest, delimiter);
      forall j: nat ensures !OccursAt(s[..i], delimiter, j) {
        if OccursAt(s[..i], delimiter, j) {
          assert s[..i][j..j + |delimiter|] == s[j..j + |delimiter|];
          assert OccursAt(s, delimiter, j);
        }
      }
  }

  /** No occurrence of `d` can start before index `n`: judged from the first two characters. */
  predicate NoEarlyStart(s: string, d: string, n: nat)
    requires d != ""
  {
    forall j :: 0 <= j < n && j < |s| && s[j] == d[0] ==> |d| >= 2 && (j + 1 < |s| ==> s[j + 1] != d[1])
  }

  /** The two-character test rules out every occurrence starting before `n`. */
  lemma NoEarlyOccurrence(s: string, d: string, n: nat)
    requires d != "" && NoEarlyStart(s, d, n)
    ensures forall j: nat :: j < n ==> !OccursAt(s, d, j)
  {
    forall j: nat | j < n && j + |d| <= |s| ensures !OccursAt(s, d, j) {
      assert s[j..j + |d|][0] == s[j];
      if |d| >= 2 {
        assert s[j..j + |d|][1] == s[j + 1];
      }
    }
  }

  /** Exploding a string in which the delimiter cannot occur gives the string alone. */
  lemma SplitWhole(s: string, d: string)
    requires d != "" && NoEarlyStart(s, d, |s|)
    ensures Split(s, d) == [s]
  {
    NoEarlyOccurrence(s, d, |s|);
    match FindFrom(s, d, 0)
    case None =>
    case Some(r) =>
      assert false;
  }

  /** The search finds an occurrence that nothing earlier can start. */
  lemma FindFirst(s: string, d: string, i: nat)
    requires d != "" && OccursAt(s, d, i) && NoEarlyStart(s, d, i)
    ensures FindFrom(s, d, 0) == Some(i)
  {
    NoEarlyOccurrence(s, d, i);
  }

  /** Exploding cuts at the first occurrence. */
  lemma SplitFirst(s: string, d: string, i: nat)
    requires d != "" && OccursAt(s, d, i) && NoEarlyStart(s, d, i)
    ensures Split(s, d) == [s[..i]] + Split(s[i + |d|..], d)
  {
    FindFirst(s, d, i);
  }

  /** A piece free of a one-character delimiter explodes to itself. */
  lemma SplitFree(a: string, d: string)
    requires |d| == 1 && d[0] !in a
    ensures Split(a, d) == [a]
  {
    assert NoEarlyStart(a, d, |a|);
    SplitWhole(a, d);
  }

  /** Exploding on a one-character delimiter cuts after a first piece free of it. */
  lemma SplitAfterFree(a: string, d: string, b: string)
    requires |d| == 1 && d[0] !in a
    ensures Split(a + d + b, d) == [a] + Split(b, d)
  {
    var s := a + d + b;
    assert s[|a|..|a| + 1] == d;
    assert NoEarlyStart(s, d, |a|) by {
      assert forall j :: 0 <= j < |a| ==> s[j] == a[j];
    }
    SplitFirst(s, d, |a|);
    assert s[..|a|] == a && s[|a| + 1..] == b;
  }

  /** Nothing can start before the end of a prefix that lacks the delimiter's first character. */
  lemma NoStartBefore(a: string, rest: string, d: string)
    requires d != "" && d[0] !in a
    ensures NoEarlyStart(a + rest, d, |a|)
  {
    assert forall j :: 0 <= j < |a| ==> (a + rest)[j] == a[j] && a[j] in a;
  }

  /**
   * The delimiter's first character occurs once, right after `a`, and is
   * followed by the wrong character, so nothing starts in `a + [d[0]] + b`.
   */
  lemma FalseStartOnly(a: string, b: string, rest: string, d: string)
    requires |d| >= 2 && d[0] !in a && d[0] !in b && b != [] && b[0] != d[1]
    ensures NoEarlyStart(a + [d[0]] + b + rest, d, |a| + 1 + |b|)
  {
    var s := a + [d[0]] + b + rest;
    assert forall j :: 0 <= j < |a| ==> s[j] == a[j] && a[j] in a;
    assert s[|a| + 1] == b[0];
    assert forall j :: |a| < j < |a| + 1 + |b| ==> s[j] == b[j - |a| - 1] && b[j - |a| - 1] in b;
  }

  /** Exploding cuts exactly once when the delimiter starts nowhere else. */
  lemma SplitAtFirst(a: string, d: string, b: string)
    requires d != "" && NoEarlyStart(a + d + b, d, |a|) && NoEarlyStart(b, d, |b|)
    ensures Split(a + d + b, d) == [a, b]
  {
    var s := a + d + b;
    assert s[|a|..|a| + |d|] == d;
    SplitFirst(s, d, |a|);
    assert s[..|a|] == a && s[|a| + |d|..] == b;
    SplitWhole(b, d);
  }

  /** Exploding cuts exactly once when neither side holds the delimiter's first character. */
  lemma SplitAtFree(a: string, d: string, b: string)
    requires d != "" && d[0] !in a && d[0] !in b
    ensures Split(a + d + b, d) == [a, b]
  {
    NoStartBefore(a, d + b, d);
    assert a + (d + b) == a + d + b;
    NoStartBefore(b, [], d);
    assert b + [] == b;
    SplitAtFirst(a, d, b);
  }

  /**
   * `str_replace($search, $replace, $s)` for a non-empty search string:
   * occurrences are replaced left to right and never overlap.
   */
  function ReplaceAll(s: string, search: string, replace: string): string
    requires search != ""
    decreases |s|
  {
    if |s| < |search| then s
    else if s[..|search|] == search then replace + ReplaceAll(s[|search|..], search, replace)
    else [s[0]] + ReplaceAll(s[1..], search, replace)
  }

  /** Replacing a single character distributes over concatenation. */
  lemma {:induction false} ReplaceCharConcat(a: string, b: string, c: char, replace: string)
    ensures ReplaceAll(a + b, [c], replace) == ReplaceAll(a, [c], replace) + ReplaceAll(b, [c], replace)
  {
    if a != [] {
      assert (a + b)[1..] == a[1..] + b;
      assert (a + b)[..1] == a[..1];
      ReplaceCharConcat(a[1..], b, c, replace);
    } else {
      assert a + b == b;
    }
  }

  /** A search string that does not occur leaves the subject unchanged. */
  lemma {:induction false} ReplaceAbsent(s: string, search: string, replace: string)
    requires search != ""
    requires search[0] !in s
    ensures ReplaceAll(s, search, replace) == s
    decreases |s|
  {
    if |s| >= |search| {
      assert s[..|search|][0] == s[0];
      ReplaceAbsent(s[1..], search, replace);
      assert [s[0]] + s[1..] == s;
    }
  }

  /** A leading occurrence is replaced, and scanning resumes right after it. */
  lemma ReplaceLeading(rest: string, search: string, replace: string)
    requires search != ""
    ensures ReplaceAll(search + rest, search, replace) == replace + ReplaceAll(rest, search, replace)
  {
    assert (search + rest)[..|search|] == search;
    assert (search + rest)[|search|..] == rest;
  }

  /** A prefix without the search string's first character passes through unchanged. */
  lemma {:induction false} ReplaceFreePrefix(a: string, b: string, search: string, replace: string)
    requires search != ""
    requires search[0] !in a
    ensures ReplaceAll(a + b, search, replace) == a + ReplaceAll(b, search, replace)
  {
    if a != [] {
      var s := a + b;
      assert |s| >= |search| ==> s[..|search|][0] == a[0];
      assert s[1..] == a[1..] + b;
      ReplaceFreePrefix(a[1..], b, search, replace);
      assert [a[0]] + a[1..] == a;
    } else {
      assert a + b == b;
    }
  }

  // ASCII case mapping, as PHP's locale-insensitive strtolower/strtoupper do.

  function LowerChar(c: char): char
  {
    if 'A' <= c <= 'Z' then (c as int + 32) as char else c
  }

  function UpperChar(c: char): char
  {
    if 'a' <= c <= 'z' then (c as int - 32) as char else c
  }

  /** `strtolower`. */
  function Lower(s: string): (r: string)
    ensures |r| == |s|
    ensures forall i :: 0 <= i < |s| ==> r[i] == LowerChar(s[i])
  {
    seq(|s|, i requires 0 <= i < |s| => LowerChar(s[i]))
  }

  /** `strtoupper`. */
  function Upper(s: string): (r: string)
    ensures |r| == |s|
    ensures forall i :: 0 <= i < |s| ==> r[i] == UpperChar(s[i])
  {
    seq(|s|, i requires 0 <= i < |s| => UpperChar(s[i]))
  }

  /** `ucfirst`: the first character upper-cased, the rest untouched. */
  function UcFirst(s: string): (r: string)
    ensures |r| == |s|
    ensures s != [] ==> r[0] == UpperChar(s[0]) && r[1..] == s[1..]
  {
    if s == [] then s else [UpperChar(s[0])] + s[1..]
  }

  /** A string without upper-case ASCII letters is its own lower-case form. */
  lemma LowerOfLowercase(s: string)
    requires forall c :: c in s ==> !('A' <= c <= 'Z')
    ensures Lower(s) == s
  {
    assert forall i :: 0 <= i < |s| ==> s[i] in s;
  }

  /** A string without lower-case ASCII letters is its own upper-case form. */
  lemma UpperOfUppercase(s: string)
    requires forall c :: c in s ==> !('a' <= c <= 'z')
    ensures Upper(s) == s
  {
    assert forall i :: 0 <= i < |s| ==> s[i] in s;
  }

  /** Lower-casing forgets every case change made by `Upper` or `UcFirst`. */
  lemma CaseChangesAreInvisibleToLower(s: string)
    ensures Lower(Upper(s)) == Lower(s)
    ensures Lower(UcFirst(s)) == Lower(s)
    ensures Lower(Lower(s)) == Lower(s)
  {
    assert forall c: char :: LowerChar(UpperChar(c)) == LowerChar(c);
    assert forall c: char :: LowerChar(LowerChar(c)) == LowerChar(c);
  }

  /** `strtolower` of a concatenation is the concatenation of the lower-cased parts. */
  lemma LowerConcat(a: string, b: string)
    ensures Lower(a + b) == Lower(a) + Lower(b)
  {
  }

  /** Lower-casing an imploded list lower-cases every part and the separator. */
  lemma {:induction false} LowerJoin(parts: seq<string>, sep: string)
    ensures Lower(Join(parts, sep)) == Join(seq(|parts|, i requires 0 <= i < |parts| => Lower(parts[i])), Lower(sep))
  {
    var lowered := seq(|parts|, i requires 0 <= i < |parts| => Lower(parts[i]));
    if |parts| > 1 {
      LowerJoin(parts[1..], sep);
      assert lowered[1..] == seq(|parts| - 1, i requires 0 <= i < |parts| - 1 => Lower(parts[1..][i]));
      LowerConcat(parts[0] + sep, Join(parts[1..], sep));
      LowerConcat(parts[0], sep);
    }
  }
}

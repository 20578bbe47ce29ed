/**
 * The parts of Go's `strings` package that the log tools rely on, stated on Dafny strings
 * (sequences of Unicode scalar values; Go's UTF-8 decoding is not modelled).
 */
module GoStrings {
  import opened Wrappers

  /** `pat` occurs in `s` starting at index `i`. */
  predicate OccursAt(s: string, pat: string, i: int) {
    0 <= i && i + |pat| <= |s| && s[i..i + |pat|] == pat
  }

  /** The first occurrence of `pat` in `s` at or after `from` (`strings.Index` when `from` is 0). */
  function IndexFrom(s: string, pat: string, from: nat): (r: Option<nat>)
    decreases |s| - from
    ensures r.Some? ==> from <= r.value && OccursAt(s, pat, r.value)
  {
    if |s| < from + |pat| then None
    else if OccursAt(s, pat, from) then Some(from)
    else IndexFrom(s, pat, from + 1)
  }

  /** IndexFrom finds the first occurrence: none lies between `from` and it, and None means none at all. */
  lemma {:induction false} IndexFromIsFirst(s: string, pat: string, from: nat)
    decreases |s| - from
    ensures IndexFrom(s, pat, from).Some? ==> forall i :: from <= i < IndexFrom(s, pat, from).value ==> !OccursAt(s, pat, i)
    ensures IndexFrom(s, pat, from).None? ==> forall i :: from <= i ==> !OccursAt(s, pat, i)
  {
    if |s| < from + |pat| {
    } else if !OccursAt(s, pat, from) {
      IndexFromIsFirst(s, pat, from + 1);
    }
  }

  /** An occurrence at `k`, at or after `from`, is found, at `k` or before it. */
  lemma IndexFromFinds(s: string, pat: string, from: nat, k: nat)
    requires from <= k && OccursAt(s, pat, k)
    ensures IndexFrom(s, pat, from).Some? && IndexFrom(s, pat, from).value <= k
  {
    IndexFromIsFirst(s, pat, from);
  }

  /** The last occurrence of `pat` in `s` that starts at an index no greater than `hi`. */
  function LastAtMost(s: string, pat: string, hi: int): (r: Option<nat>)
    decreases hi
    ensures r.Some? ==> r.value <= hi && OccursAt(s, pat, r.value)
  {
    if hi < 0 then None
    else if OccursAt(s, pat, hi) then Some(hi)
    else LastAtMost(s, pat, hi - 1)
  }

  /** LastAtMost finds the last occurrence: none lies after it up to `hi`, and None means none at all. */
  lemma {:induction false} LastAtMostIsLast(s: string, pat: string, hi: int)
    decreases hi
    ensures LastAtMost(s, pat, hi).Some? ==> forall i :: LastAtMost(s, pat, hi).value < i <= hi ==> !OccursAt(s, pat, i)
    ensures LastAtMost(s, pat, hi).None? ==> forall i :: i <= hi ==> !OccursAt(s, pat, i)
  {
    if hi >= 0 && !OccursAt(s, pat, hi) {
      LastAtMostIsLast(s, pat, hi - 1);
    }
  }

  /** `strings.HasPrefix`. */
  predicate StartsWith(s: string, prefix: string) {
    |prefix| <= |s| && s[..|prefix|] == prefix
  }

  /** `strings.HasSuffix`. */
  predicate EndsWith(s: string, suffix: string) {
    |suffix| <= |s| && s[|s| - |suffix|..] == suffix
  }

  /** `strings.Contains`. */
  predicate Contains(s: string, pat: string) {
    IndexFrom(s, pat, 0).Some?
  }

  /**
   * `strings.Split(s, sep)` for a non-empty separator: the pieces between the non-overlapping
   * occurrences of `sep`, found from left to right. There is always at least one piece.
   */
  function Split(s: string, sep: string): (parts: seq<string>)
    requires |sep| > 0
    decreases |s|
    ensures |parts| >= 1
  {
    match IndexFrom(s, sep, 0)
    case None => [s]
    case Some(i) => [s[..i]] + Split(s[i + |sep|..], sep)
  }

  /** A separator that occurs splits the text into at least two pieces. */
  lemma SplitFound(s: string, sep: string)
    requires |sep| > 0 && Contains(s, sep)
    ensures |Split(s, sep)| >= 2
  {
    var i := IndexFrom(s, sep, 0).value;
    assert Split(s, sep) == [s[..i]] + Split(s[i + |sep|..], sep);
  }

  /** `strings.Join`. */
  function Join(parts: seq<string>, sep: string): string {
    if |parts| == 0 then ""
    else if |parts| == 1 then parts[0]
    else parts[0] + sep + Join(parts[1..], sep)
  }

  /** Joining the pieces of a split with the same separator gives back the original text. */
  lemma {:induction false} SplitJoin(s: string, sep: string)
    requires |sep| > 0
    ensures Join(Split(s, sep), sep) == s
    decreases |s|
  {
    match IndexFrom(s, sep, 0)
    case None =>
    case Some(i) =>
      var rest := s[i + |sep|..];
      assert Split(s, sep) == [s[..i]] + Split(rest, sep);
      SplitJoin(rest, sep);
      JoinCons(s[..i], Split(rest, sep), sep);
      assert s == s[..i] + sep + rest by {
        assert s[i..i + |sep|] == sep;
      }
  }

  /** Joining a piece in front of at least one more puts the separator between them. */
  lemma JoinCons(x: string, parts: seq<string>, sep: string)
    requires |parts| >= 1
    ensures Join([x] + parts, sep) == x + sep + Join(parts, sep)
  {
    assert ([x] + parts)[1..] == parts;
  }

  /** The text before the first occurrence of `pat` does not contain `pat`. */
  lemma BeforeFirstAvoids(s: string, pat: string, i: nat)
    requires |pat| > 0 && IndexFrom(s, pat, 0) == Some(i)
    ensures forall j :: !OccursAt(s[..i], pat, j)
  {
    IndexFromIsFirst(s, pat, 0);
    forall j | 0 <= j && j + |pat| <= i
      ensures !OccursAt(s[..i], pat, j)
    {
      assert s[..i][j..j + |pat|] == s[j..j + |pat|];
      assert !OccursAt(s, pat, j);
    }
  }

  /** No piece of a split contains the separator. */
  lemma {:induction false} SplitPiecesAvoidSeparator(s: string, sep: string)
    requires |sep| > 0
    ensures forall k, j :: 0 <= k < |Split(s, sep)| ==> !OccursAt(Split(s, sep)[k], sep, j)
    decreases |s|
  {
    match IndexFrom(s, sep, 0)
    case None =>
      IndexFromIsFirst(s, sep, 0);
    case Some(i) =>
      var rest := s[i + |sep|..];
      SplitPiecesAvoidSeparator(rest, sep);
      BeforeFirstAvoids(s, sep, i);
      var parts := [s[..i]] + Split(rest, sep);
      assert parts == Split(s, sep);
      forall k, j | 0 <= k < |parts|
        ensures !OccursAt(parts[k], sep, j)
      {
        if k > 0 {
          assert parts[k] == Split(rest, sep)[k - 1];
        }
      }
  }

  /** The lines of a text split on "\n" contain no newline character. */
  lemma LinesHaveNoNewline(s: string)
    ensures forall k :: 0 <= k < |Split(s, "\n")| ==> '\n' !in Split(s, "\n")[k]
  {
    SplitPiecesAvoidSeparator(s, "\n");
    forall k | 0 <= k < |Split(s, "\n")|
      ensures '\n' !in Split(s, "\n")[k]
    {
      NoOccurrenceNoChar(Split(s, "\n")[k], '\n');
    }
  }

  /** A text in which the one-character string `[c]` occurs nowhere does not contain `c`. */
  lemma NoOccurrenceNoChar(line: string, c: char)
    requires forall j :: !OccursAt(line, [c], j)
    ensures c !in line
  {
    forall j | 0 <= j < |line|
      ensures line[j] != c
    {
      assert !OccursAt(line, [c], j);
      assert line[j..j + 1] == [line[j]];
    }
  }

  /** A text that ends with a one-character separator splits into pieces whose last one is empty. */
  lemma SplitTrailingSeparator(s: string, sep: string)
    requires |sep| == 1 && EndsWith(s, sep)
    ensures Split(s, sep)[|Split(s, sep)| - 1] == ""
  {
    LastPieceEmpty(s, sep);
  }

  /** The last of the pieces. */
  function Last(parts: seq<string>): string
    requires |parts| > 0
  {
    parts[|parts| - 1]
  }

  /** `SplitTrailingSeparator`, by induction on the pieces. */
  lemma {:induction false} LastPieceEmpty(s: string, sep: string)
    requires |sep| == 1 && EndsWith(s, sep)
    ensures Last(Split(s, sep)) == ""
    decreases |s|, 1
  {
    IndexFromFinds(s, sep, 0, |s| - 1);
    var i := IndexFrom(s, sep, 0).value;
    if i + 1 < |s| {
      TrailingAfterFirst(s, sep, i);
    } else {
      LastAfterFirst(s, sep, i);
      assert s[i + |sep|..] == "";
      SplitEmpty(sep);
    }
  }

  /** `LastPieceEmpty` when the first separator is not the last character. */
  lemma {:induction false} TrailingAfterFirst(s: string, sep: string, i: nat)
    requires |sep| == 1 && EndsWith(s, sep) && IndexFrom(s, sep, 0) == Some(i) && i + 1 < |s|
    ensures Last(Split(s, sep)) == ""
    decreases |s|, 0
  {
    var rest := s[i + |sep|..];
    RestEndsWith(s, sep, i, rest);
    LastPieceEmpty(rest, sep);
    LastAfterFirst(s, sep, i);
  }

  /** The last piece of a text is the last piece of what follows its first separator. */
  lemma LastAfterFirst(s: string, sep: string, i: nat)
    requires |sep| > 0 && IndexFrom(s, sep, 0) == Some(i)
    ensures i + |sep| <= |s|
    ensures Last(Split(s, sep)) == Last(Split(s[i + |sep|..], sep))
  {
    var parts, tail := Split(s, sep), Split(s[i + |sep|..], sep);
    SplitAtFirst(s, sep, i);
    LastOfCons(parts, s[..i], tail);
  }

  /** The first piece ends at the first separator; the others are the pieces of what follows it. */
  lemma SplitAtFirst(s: string, sep: string, i: nat)
    requires |sep| > 0 && IndexFrom(s, sep, 0) == Some(i)
    ensures i + |sep| <= |s| && Split(s, sep) == [s[..i]] + Split(s[i + |sep|..], sep)
  {
  }

  /** The empty text splits into one empty piece. */
  lemma SplitEmpty(sep: string)
    requires |sep| > 0
    ensures Split("", sep) == [""]
  {
    assert IndexFrom("", sep, 0).None?;
  }

  /** What follows a separator that is not the last character still ends with the separator. */
  lemma RestEndsWith(s: string, sep: string, i: nat, rest: string)
    requires |sep| == 1 && EndsWith(s, sep) && i + |sep| <= |s| && rest == s[i + |sep|..] && |rest| > 0
    ensures EndsWith(rest, sep)
  {
    assert rest[|rest| - 1..] == s[|s| - 1..];
  }

  /** The last of `[x] + tail` is that of `tail`. */
  lemma LastOfCons(parts: seq<string>, x: string, tail: seq<string>)
    requires parts == [x] + tail && |tail| >= 1
    ensures Last(parts) == Last(tail)
  {
  }

  /** The characters for which Go's `unicode.IsSpace` holds. */
  predicate IsSpace(c: char) {
    c == ' ' || c == '\t' || c == '\n' || c == '\r' || c == '\U{0B}' || c == '\U{0C}'
    || c == '\U{85}' || c == '\U{A0}' || c == '\U{1680}' || ('\U{2000}' <= c <= '\U{200A}')
    || c == '\U{2028}' || c == '\U{2029}' || c == '\U{202F}' || c == '\U{205F}' || c == '\U{3000}'
  }

  /** `s` without its leading white space. */
  function TrimLeftSpace(s: string): (r: string)
    ensures |r| <= |s| && r == s[|s| - |r|..]
    ensures |r| > 0 ==> !IsSpace(r[0])
    ensures forall i :: 0 <= i < |s| - |r| ==> IsSpace(s[i])
  {
    if |s| > 0 && IsSpace(s[0]) then TrimLeftSpace(s[1..]) else s
  }

  /** `s` without its trailing white space. */
  function TrimRightSpace(s: string): (r: string)
    ensures |r| <= |s| && r == s[..|r|]
    ensures |r| > 0 ==> !IsSpace(r[|r| - 1])
    ensures forall i :: |r| <= i < |s| ==> IsSpace(s[i])
  {
    if |s| > 0 && IsSpace(s[|s| - 1]) then TrimRightSpace(s[..|s| - 1]) else s
  }

  /**
   * `strings.TrimSpace`: `s` without leading and trailing white space, that is, the slice of `s`
   * left once the white space at both ends is cut off.
   */
  function TrimSpace(s: string): (r: string)
    ensures |r| <= |s|
    ensures |r| > 0 ==> !IsSpace(r[0]) && !IsSpace(r[|r| - 1])
    ensures exists i, j ::
      && 0 <= i <= j <= |s| && r == s[i..j]
      && (forall k :: 0 <= k < i || j <= k < |s| ==> IsSpace(s[k]))
  {
    var left := TrimLeftSpace(s);
    var r := TrimRightSpace(left);
    TrimSpaceSlice(s, left, r);
    var i := |s| - |left|;
    assert r == s[i..i + |r|] && forall k :: 0 <= k < i || i + |r| <= k < |s| ==> IsSpace(s[k]);
    r
  }

  /**
   * Cutting leading white space off `s` (giving `left`) and then trailing white space off `left`
   * (giving `r`) leaves a slice of `s` with white space after it.
   */
  lemma {:induction false} TrimSpaceSlice(s: string, left: string, r: string)
    requires |left| <= |s| && left == s[|s| - |left|..] && forall k :: 0 <= k < |s| - |left| ==> IsSpace(s[k])
    requires |r| <= |left| && r == left[..|r|] && forall k :: |r| <= k < |left| ==> IsSpace(left[k])
    ensures |s| - |left| + |r| <= |s| && r == s[|s| - |left|..|s| - |left| + |r|]
    ensures forall k :: |s| - |left| + |r| <= k < |s| ==> IsSpace(s[k])
  {
    var i := |s| - |left|;
    assert left == s[i..];
    forall k | i + |r| <= k < |s|
      ensures IsSpace(s[k])
    {
      var c := left[k - i];
      assert IsSpace(c);
      assert s[k] == c;
    }
  }

  /** `strings.ReplaceAll(s, string(from), string(to))` for one-character arguments. */
  function ReplaceChar(s: string, from: char, to: char): (r: string)
    ensures |r| == |s|
    ensures forall i :: 0 <= i < |s| ==> r[i] == if s[i] == from then to else s[i]
  {
    if |s| == 0 then "" else [if s[0] == from then to else s[0]] + ReplaceChar(s[1..], from, to)
  }

  /** The concatenation of a sequence of strings. */
  function Concat(parts: seq<string>): string {
    if |parts| == 0 then "" else Concat(parts[..|parts| - 1]) + parts[|parts| - 1]
  }

  /** Concatenation distributes over the joining of two sequences of strings. */
  lemma {:induction false} ConcatAppend(a: seq<string>, b: seq<string>)
    ensures Concat(a + b) == Concat(a) + Concat(b)
    decreases |b|
  {
    if |b| == 0 {
      assert a + b == a;
    } else {
      var b', last := b[..|b| - 1], b[|b| - 1];
      ConcatAppend(a, b');
      assert (a + b)[..|a + b| - 1] == a + b' && (a + b)[|a + b| - 1] == last;
      assert Concat(a + b) == Concat(a + b') + last;
    }
  }

  /** The concatenation of a prefix of the pieces is a prefix of the whole concatenation. */
  lemma ConcatPrefix(parts: seq<string>, k: nat)
    requires k <= |parts|
    ensures StartsWith(Concat(parts), Concat(parts[..k]))
  {
    assert parts == parts[..k] + parts[k..];
    ConcatAppend(parts[..k], parts[k..]);
  }
}

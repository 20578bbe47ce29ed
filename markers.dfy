/**
 * The three line patterns of the parser (test_utils.go): the Enter marker
 * `> Enter \[<tag>\] (.+) - (.+) @ (.+)`, the Exit marker `< Exit \[<tag>\] (.+?) - .+ @ (.+) \(.+\)`
 * and the failure marker `^[\t ]*\[FAILED\].*`.
 *
 * Each matcher is written out as the search the regular expression performs under RE2's
 * leftmost-first rules, for lines without '\n' (the lines of a split on "\n" have none): the first
 * occurrence of the literal marker decides, greedy groups end at the last possible separator and
 * the lazy group at the first. The tag is taken literally.
 */
module Markers {
  import opened Wrappers
  import opened GoStrings

  /** The submatches of an Enter line: `matches[1]`, `matches[2]` and `matches[3]` in Go. */
  datatype EnterCaptures = EnterCaptures(shortName: string, fullName: string, timeText: string)

  /** The submatches of an Exit line: `matches[1]` and `matches[2]` in Go. */
  datatype ExitCaptures = ExitCaptures(fullName: string, timeText: string)

  function EnterMarker(tag: string): string { "> Enter [" + tag + "] " }

  function ExitMarker(tag: string): string { "< Exit [" + tag + "] " }

  /**
   * The Enter pattern after its marker: the short name runs to the last " - " and the full name
   * to the last " @ " that still leave every group non-empty; the time text is the rest.
   */
  function EnterGroups(rest: string): (m: Option<EnterCaptures>)
    ensures m.Some? ==> |m.value.shortName| > 0 && |m.value.fullName| > 0 && |m.value.timeText| > 0
  {
    var k := LastAtMost(rest, " @ ", |rest| - 4);
    if k.None? then None
    else
      var j := LastAtMost(rest, " - ", k.value - 4);
      if j.None? || j.value == 0 then None
      else Some(EnterCaptures(rest[..j.value], rest[j.value + 3..k.value], rest[k.value + 3..]))
  }

  /** The Enter pattern: the first occurrence of the marker, followed by the three groups. */
  function EnterMatch(line: string, tag: string): Option<EnterCaptures> {
    var i := IndexFrom(line, EnterMarker(tag), 0);
    if i.None? then None else EnterGroups(line[i.value + |EnterMarker(tag)|..])
  }

  /**
   * The Exit pattern after its marker: the (ignored) name is the lazy group up to the first
   * " - "; the time text lies between the last " @ " and the last " (" that is followed by at
   * least one character and a ")".
   */
  function ExitGroups(rest: string): (m: Option<ExitCaptures>)
    ensures m.Some? ==> |m.value.fullName| > 0 && |m.value.timeText| > 0
  {
    var p := LastAtMost(rest, ")", |rest| - 1);
    if p.None? then None
    else
      var q := LastAtMost(rest, " (", p.value - 3);
      if q.None? then None
      else
        var k := LastAtMost(rest, " @ ", q.value - 4);
        if k.None? then None
        else
          var j := IndexFrom(rest, " - ", 1);
          if j.None? || j.value > k.value - 4 then None
          else Some(ExitCaptures(rest[..j.value], rest[k.value + 3..q.value]))
  }

  /** The Exit pattern: the first occurrence of the marker, followed by the groups. */
  function ExitMatch(line: string, tag: string): Option<ExitCaptures> {
    var i := IndexFrom(line, ExitMarker(tag), 0);
    if i.None? then None else ExitGroups(line[i.value + |ExitMarker(tag)|..])
  }

  /** The groups of an Enter line are its text after the marker, cut at " - " and " @ ". */
  lemma EnterGroupsShape(rest: string)
    requires EnterGroups(rest).Some?
    ensures var m := EnterGroups(rest).value;
      rest == m.shortName + " - " + m.fullName + " @ " + m.timeText
  {
    var ok := LastAtMost(rest, " @ ", |rest| - 4);
    var k := ok.value;
    var oj := LastAtMost(rest, " - ", k - 4);
    var j := oj.value;
    assert EnterGroups(rest) == Some(EnterCaptures(rest[..j], rest[j + 3..k], rest[k + 3..]));
    CutTwice(rest, j, k);
  }

  /** A text with " - " at `j` and " @ " at `k` is the pieces they cut it into. */
  lemma CutTwice(rest: string, j: nat, k: nat)
    requires j + 3 <= k && OccursAt(rest, " - ", j) && OccursAt(rest, " @ ", k)
    ensures rest == rest[..j] + " - " + rest[j + 3..k] + " @ " + rest[k + 3..]
  {
    assert rest == rest[..j] + rest[j..j + 3] + rest[j + 3..k] + rest[k..k + 3] + rest[k + 3..];
  }

  /** A text with " - " at `j`, " @ " at `k`, " (" at `q` and ")" at `p` is the pieces they cut it into. */
  lemma CutFourTimes(rest: string, j: nat, k: nat, q: nat, p: nat)
    requires j + 3 <= k && k + 3 <= q && q + 2 <= p
    requires OccursAt(rest, " - ", j) && OccursAt(rest, " @ ", k)
    requires OccursAt(rest, " (", q) && OccursAt(rest, ")", p)
    ensures rest == rest[..j] + " - " + rest[j + 3..k] + " @ " + rest[k + 3..q] + " (" + rest[q + 2..p] + ")" + rest[p + 1..]
  {
    assert rest == rest[..j] + rest[j..j + 3] + rest[j + 3..k] + rest[k..k + 3] + rest[k + 3..q]
      + rest[q..q + 2] + rest[q + 2..p] + rest[p..p + 1] + rest[p + 1..];
  }

  /**
   * The groups of an Exit line are its text after the marker, cut into the name, " - ", some
   * text, " @ ", the time text, " (", some text and ")", followed by anything.
   */
  lemma ExitGroupsShape(rest: string)
    requires ExitGroups(rest).Some?
    ensures var m := ExitGroups(rest).value;
      exists mid, inner, tail :: |mid| > 0 && |inner| > 0 && rest == ExitText(m.fullName, mid, m.timeText, inner, tail)
  {
    var op := LastAtMost(rest, ")", |rest| - 1);
    var p := op.value;
    var oq := LastAtMost(rest, " (", p - 3);
    var q := oq.value;
    var ok := LastAtMost(rest, " @ ", q - 4);
    var k := ok.value;
    var oj := IndexFrom(rest, " - ", 1);
    var j := oj.value;
    assert ExitGroups(rest) == Some(ExitCaptures(rest[..j], rest[k + 3..q]));
    ExitCutShape(rest, j, k, q, p, rest[..j], rest[k + 3..q]);
  }

  /** The cuts at " - ", " @ ", " (" and ")" leave a non-empty text between the first two and between the last two. */
  lemma ExitCutShape(rest: string, j: nat, k: nat, q: nat, p: nat, name: string, time: string)
    requires j + 4 <= k && k + 3 <= q && q + 3 <= p
    requires OccursAt(rest, " - ", j) && OccursAt(rest, " @ ", k)
    requires OccursAt(rest, " (", q) && OccursAt(rest, ")", p)
    requires name == rest[..j] && time == rest[k + 3..q]
    ensures exists mid, inner, tail :: |mid| > 0 && |inner| > 0 && rest == ExitText(name, mid, time, inner, tail)
  {
    CutFourTimes(rest, j, k, q, p);
    var mid, inner, tail := rest[j + 3..k], rest[q + 2..p], rest[p + 1..];
    assert |mid| > 0 && |inner| > 0 && rest == ExitText(name, mid, time, inner, tail);
  }

  /** The text of an Exit line after its marker, cut into its pieces. */
  function ExitText(name: string, mid: string, time: string, inner: string, tail: string): string {
    name + " - " + mid + " @ " + time + " (" + inner + ")" + tail
  }

  /** A line matches a pattern only from an occurrence of the pattern's marker on. */
  lemma MatchStartsAtMarker(line: string, marker: string)
    requires IndexFrom(line, marker, 0).Some?
    ensures var i := IndexFrom(line, marker, 0).value;
      line[i..] == marker + line[i + |marker|..]
  {
    var i := IndexFrom(line, marker, 0).value;
    assert line[i..] == line[i..i + |marker|] + line[i + |marker|..];
  }

  /** Leading tabs and spaces of a line, as `[\t ]*` consumes them. */
  function TrimIndent(s: string): (r: string)
    ensures |r| <= |s| && r == s[|s| - |r|..]
    ensures |r| > 0 ==> r[0] != ' ' && r[0] != '\t'
  {
    if |s| > 0 && (s[0] == ' ' || s[0] == '\t') then TrimIndent(s[1..]) else s
  }

  /** The failure pattern: the line starts, after optional tabs and spaces, with "[FAILED]". */
  predicate IsFailureLine(line: string) {
    StartsWith(TrimIndent(line), "[FAILED]")
  }

  /** The class of a line under the parser's if/else chain. */
  datatype LineKind =
    | EnterLine(enter: EnterCaptures)
    | ExitLine(exit: ExitCaptures)
    | FailureLine
    | PlainLine

  /**
   * Every line falls in exactly one class, tried in the order Enter, Exit, failure, plain:
   * a line is in a class exactly when it matches that pattern and none tried before it.
   */
  function Classify(line: string, tag: string): (k: LineKind)
    ensures k.EnterLine? <==> EnterMatch(line, tag).Some?
    ensures k.EnterLine? ==> k.enter == EnterMatch(line, tag).value
    ensures k.ExitLine? <==> EnterMatch(line, tag).None? && ExitMatch(line, tag).Some?
    ensures k.ExitLine? ==> k.exit == ExitMatch(line, tag).value
    ensures k.FailureLine? <==> EnterMatch(line, tag).None? && ExitMatch(line, tag).None? && IsFailureLine(line)
    ensures k.PlainLine? <==> EnterMatch(line, tag).None? && ExitMatch(line, tag).None? && !IsFailureLine(line)
  {
    match EnterMatch(line, tag)
    case Some(e) => EnterLine(e)
    case None =>
      match ExitMatch(line, tag)
      case Some(x) => ExitLine(x)
      case None => if IsFailureLine(line) then FailureLine else PlainLine
  }

  /** The empty line (the last piece of a newline-terminated log) is a plain line. */
  lemma EmptyLineIsPlain(tag: string)
    ensures Classify("", tag) == PlainLine
  {
    assert TrimIndent("") == "";
  }
}

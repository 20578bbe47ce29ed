/**
 * The older summary tool, oadp_test_summary.go: a single pass over the lines of a Ginkgo log that
 * records, per test and retry, when the test started and ended and when its backup and restore
 * started and ended.
 *
 * Its regular expressions are written out as the searches RE2 performs for them. The lines come
 * from a `bufio.Scanner`, so they contain no '\n'; the searches below are stated for such lines.
 * Each `*TestData` is reached only through its own map slot, so the slot holds the value.
 */
module OadpSummary {
  import opened Wrappers
  import opened GoStrings
  import opened GoTime

  // ----- Fixed-length patterns -----

  /** One position of a fixed-length pattern: `\d`, `.` (anything but a newline) or a literal. */
  datatype CharClass = Digit | AnyChar | Lit(c: char)

  type Shape = seq<CharClass>

  predicate Fits(c: CharClass, ch: char) {
    match c
    case Digit => IsDigit(ch)
    case AnyChar => ch != '\n'
    case Lit(x) => ch == x
  }

  /** The pattern `p` matches `s[i..i + |p|]`. */
  predicate ShapeAt(s: string, p: Shape, i: nat) {
    i + |p| <= |s| && forall k :: 0 <= k < |p| ==> Fits(p[k], s[i + k])
  }

  /** The leftmost match of `p` at or after `i`. */
  function FirstShape(s: string, p: Shape, i: nat): (r: Option<nat>)
    decreases |s| - i
    ensures r.Some? ==> i <= r.value && ShapeAt(s, p, r.value)
  {
    if i + |p| > |s| then None
    else if ShapeAt(s, p, i) then Some(i)
    else FirstShape(s, p, i + 1)
  }

  /** FirstShape finds the leftmost match: none lies before it, and None means none at all. */
  lemma {:induction false} FirstShapeIsFirst(s: string, p: Shape, i: nat)
    decreases |s| - i
    ensures FirstShape(s, p, i).Some? ==> forall k :: i <= k < FirstShape(s, p, i).value ==> !ShapeAt(s, p, k)
    ensures FirstShape(s, p, i).None? ==> forall k :: i <= k ==> !ShapeAt(s, p, k)
  {
    if i + |p| <= |s| && !ShapeAt(s, p, i) {
      FirstShapeIsFirst(s, p, i + 1);
    }
  }

  /** A match at `i` is found, at `i` or before it. */
  lemma FirstShapeFinds(s: string, p: Shape, i: nat)
    requires ShapeAt(s, p, i)
    ensures FirstShape(s, p, 0).Some? && FirstShape(s, p, 0).value <= i
  {
    FirstShapeIsFirst(s, p, 0);
  }

  /** `\d{2}/\d{2}/\d{2} \d{2}:\d{2}:\d{2}` */
  const Clock: Shape := [Digit, Digit, Lit('/'), Digit, Digit, Lit('/'), Digit, Digit, Lit(' '),
                         Digit, Digit, Lit(':'), Digit, Digit, Lit(':'), Digit, Digit]

  /** `\d{2}/\d{2}/\d{2} \d{2}:\d{2}:\d{2}.\d{3}` (the `.` is unescaped) */
  const ClockMillis: Shape := Clock + [AnyChar, Digit, Digit, Digit]

  /** `\d{4}/\d{2}/\d{2} \d{2}:\d{2}:\d{2}` */
  const LongClock: Shape := [Digit, Digit] + Clock

  /** `\d{4}/\d{2}/\d{2} \d{2}:\d{2}:\d{2}.\d{3}` */
  const LongClockMillis: Shape := LongClock + [AnyChar, Digit, Digit, Digit]

  /** The formats `parseTimestamp` tries, in order. */
  const TimestampFormats: seq<Shape> := [LongClockMillis, ClockMillis, Clock, LongClock]

  /** A match of a four-digit-year pattern holds a match of its two-digit-year pattern two later. */
  lemma LongHoldsShort(s: string, i: nat)
    ensures ShapeAt(s, LongClock, i) ==> ShapeAt(s, Clock, i + 2)
    ensures ShapeAt(s, LongClockMillis, i) ==> ShapeAt(s, ClockMillis, i + 2)
  {
    if ShapeAt(s, LongClock, i) {
      forall k | 0 <= k < |Clock|
        ensures Fits(Clock[k], s[i + 2 + k])
      {
        assert LongClock[k + 2] == Clock[k];
      }
    }
    if ShapeAt(s, LongClockMillis, i) {
      forall k | 0 <= k < |ClockMillis|
        ensures Fits(ClockMillis[k], s[i + 2 + k])
      {
        assert LongClockMillis[k + 2] == ClockMillis[k];
      }
    }
  }

  /** Every format's match holds a clock. */
  lemma FormatsHoldClock(s: string, i: nat)
    ensures ShapeAt(s, ClockMillis, i) ==> ShapeAt(s, Clock, i)
    ensures ShapeAt(s, LongClock, i) || ShapeAt(s, LongClockMillis, i) ==> ShapeAt(s, Clock, i + 2)
  {
    LongHoldsShort(s, i);
    if ShapeAt(s, ClockMillis, i) {
      forall k | 0 <= k < |Clock|
        ensures Fits(Clock[k], s[i + k])
      {
        assert ClockMillis[k] == Clock[k];
      }
    }
    if ShapeAt(s, LongClockMillis, i) {
      forall k | 0 <= k < |LongClock|
        ensures Fits(LongClock[k], s[i + k])
      {
        assert LongClockMillis[k] == LongClock[k];
      }
      LongHoldsShort(s, i);
    }
  }

  // ----- parseTimestamp -----

  /** The layout "06/01/02 15:04:05" (Go accepts, and reads, a fraction after the seconds). */
  const StampLayout := Layout(YearMonthDay, Optional)

  /** The layout "06/01/02 15:04:05.000". */
  const StampMillisLayout := Layout(YearMonthDay, Exact(3))

  /** The parse of a matched text: ".000" joins the layout when the match is longer than 19. */
  function StampTime(m: string): Time {
    Parse(if |m| > 19 then StampMillisLayout else StampLayout, m).GetOr(ZeroTime)
  }

  /**
   * The loop of `parseTimestamp` from format `formats[0]` on: the leftmost match of the first
   * format that matches at all.
   */
  function FirstFormatMatch(line: string, formats: seq<Shape>): Option<string> {
    if |formats| == 0 then None
    else
      match FirstShape(line, formats[0], 0)
      case Some(i) => Some(line[i..i + |formats[0]|])
      case None => FirstFormatMatch(line, formats[1..])
  }

  /** `parseTimestamp`: the time of the first timestamp format found in the line, or the zero time. */
  function ParseTimestamp(line: string): Time {
    match FirstFormatMatch(line, TimestampFormats)
    case None => ZeroTime
    case Some(m) => StampTime(m)
  }

  /** The four formats tried in order, written out. */
  lemma FirstFormatCases(line: string)
    ensures FirstFormatMatch(line, TimestampFormats) ==
      match FirstShape(line, LongClockMillis, 0)
      case Some(i) => Some(line[i..i + 23])
      case None =>
        match FirstShape(line, ClockMillis, 0)
        case Some(i) => Some(line[i..i + 21])
        case None =>
          match FirstShape(line, Clock, 0)
          case Some(i) => Some(line[i..i + 17])
          case None =>
            match FirstShape(line, LongClock, 0)
            case Some(i) => Some(line[i..i + 19])
            case None => None
  {
    var f1, f2, f3 := [ClockMillis, Clock, LongClock], [Clock, LongClock], [LongClock];
    assert TimestampFormats[1..] == f1 && f1[1..] == f2 && f2[1..] == f3 && f3[1..] == [];
    assert |LongClockMillis| == 23 && |ClockMillis| == 21 && |Clock| == 17 && |LongClock| == 19;
    assert FirstFormatMatch(line, f3) == match FirstShape(line, LongClock, 0)
      case Some(i) => Some(line[i..i + 19]) case None => None;
    assert FirstFormatMatch(line, f2) == match FirstShape(line, Clock, 0)
      case Some(i) => Some(line[i..i + 17]) case None => FirstFormatMatch(line, f3);
    assert FirstFormatMatch(line, f1) == match FirstShape(line, ClockMillis, 0)
      case Some(i) => Some(line[i..i + 21]) case None => FirstFormatMatch(line, f2);
  }

  /** A text whose third character is not '/' does not parse under any layout. */
  lemma NoSlashNoParse(layout: Layout, m: string)
    requires |m| > 2 && m[2] != '/'
    ensures Parse(layout, m).None?
  {
  }

  /** A line without a `dd/dd/dd dd:dd:dd` clock has the zero timestamp. */
  lemma NoClockNoTimestamp(line: string)
    requires forall k: nat :: !ShapeAt(line, Clock, k)
    ensures ParseTimestamp(line) == ZeroTime
  {
    forall k: nat
      ensures !ShapeAt(line, LongClockMillis, k) && !ShapeAt(line, ClockMillis, k) && !ShapeAt(line, LongClock, k)
    {
      FormatsHoldClock(line, k);
    }
    FirstFormatCases(line);
  }

  /** A timestamp with a four-digit year and milliseconds gives the zero time: its layout wants a two-digit year. */
  lemma LongMillisGivesZero(line: string)
    requires FirstShape(line, LongClockMillis, 0).Some?
    ensures ParseTimestamp(line) == ZeroTime
  {
    var i := FirstShape(line, LongClockMillis, 0).value;
    var m := line[i..i + |LongClockMillis|];
    assert FirstFormatMatch(line, TimestampFormats) == Some(m);
    assert |m| == 23 && ParseTimestamp(line) == StampTime(m);
    ThirdIsDigit(line, i, m);
    NoSlashNoParse(StampMillisLayout, m);
  }

  /** The text of a four-digit-year match has a digit, not '/', as its third character. */
  lemma ThirdIsDigit(line: string, i: nat, m: string)
    requires ShapeAt(line, LongClockMillis, i) && m == line[i..i + |LongClockMillis|]
    ensures |m| > 2 && m[2] != '/'
  {
    assert Fits(LongClockMillis[2], line[i + 2]);
    assert m[2] == line[i + 2];
  }

  /** The fourth format is never the first to match: a match of it holds a clock, the third format. */
  lemma LongClockNeverDecides(line: string)
    ensures FirstShape(line, Clock, 0).None? ==> FirstShape(line, LongClock, 0).None?
  {
    FirstShapeIsFirst(line, Clock, 0);
    if FirstShape(line, LongClock, 0).Some? {
      LongHoldsShort(line, FirstShape(line, LongClock, 0).value);
    }
  }

  /** With no four-digit-year match, a millisecond timestamp is parsed with the ".000" layout. */
  lemma MillisTimestamp(line: string, i: nat)
    requires FirstShape(line, LongClockMillis, 0).None? && FirstShape(line, ClockMillis, 0) == Some(i)
    ensures ParseTimestamp(line) == Parse(StampMillisLayout, line[i..i + 21]).GetOr(ZeroTime)
  {
    FirstFormatCases(line);
  }

  /** With no millisecond match, the first clock is parsed with the plain layout. */
  lemma SecondsTimestamp(line: string, i: nat)
    requires FirstShape(line, LongClockMillis, 0).None? && FirstShape(line, ClockMillis, 0).None?
    requires FirstShape(line, Clock, 0) == Some(i)
    ensures ParseTimestamp(line) == Parse(StampLayout, line[i..i + 17]).GetOr(ZeroTime)
  {
    FirstFormatCases(line);
  }

  // ----- extractTimeFromEnterIt -----

  /** The layout "01/02/06 15:04:05.999": the fraction is optional. */
  const EnterTimeLayout := Layout(MonthDayYear, Optional)

  /**
   * `extractTimeFromEnterIt`: the line must split into exactly two pieces on " @ "; the first clock
   * in the trimmed second piece is parsed. Every failure gives the zero time.
   */
  function ExtractTimeFromEnterIt(line: string): Time {
    var parts := Split(line, " @ ");
    if |parts| != 2 then ZeroTime
    else
      var timeStr := TrimSpace(parts[1]);
      match FirstShape(timeStr, Clock, 0)
      case None => ZeroTime
      case Some(i) => Parse(EnterTimeLayout, timeStr[i..i + |Clock|]).GetOr(ZeroTime)
  }

  /**
   * A non-zero time comes from a line with exactly one " @ ", whose trimmed tail holds a clock, and
   * it is the parse of the first such clock.
   */
  lemma ExtractedTimeSource(line: string)
    requires ExtractTimeFromEnterIt(line) != ZeroTime
    ensures exists head, tail :: (line == head + " @ " + tail &&
      (forall j :: !OccursAt(head, " @ ", j)) && (forall j :: !OccursAt(tail, " @ ", j)) &&
      FirstShape(TrimSpace(tail), Clock, 0).Some? &&
      var c := FirstShape(TrimSpace(tail), Clock, 0).value;
      ExtractTimeFromEnterIt(line) == Parse(EnterTimeLayout, TrimSpace(tail)[c..c + 17]).GetOr(ZeroTime))
  {
    var parts := Split(line, " @ ");
    SplitJoin(line, " @ ");
    SplitPiecesAvoidSeparator(line, " @ ");
    assert parts[1..] == [parts[1]];
    assert line == parts[0] + " @ " + parts[1];
    assert !OccursAt(parts[0], " @ ", 0);
  }

  // ----- The Enter and Exit patterns -----

  const EnterIt := "Enter [It] "
  const ExitIt := "Exit [It] "

  /** The two groups of `.*<marker>(.+?) - (.+?) @`. */
  datatype ItCaptures = ItCaptures(first: string, second: string)

  /**
   * The groups after the marker: both are lazy, so the first ends at the first " - " that leaves it
   * non-empty and the second at the first " @" after that.
   */
  function ItGroups(rest: string): (m: Option<ItCaptures>)
    ensures m.Some? ==> |m.value.first| > 0 && |m.value.second| > 0
  {
    match IndexFrom(rest, " - ", 1)
    case None => None
    case Some(j) =>
      match IndexFrom(rest, " @", j + 4)
      case None => None
      case Some(k) => Some(ItCaptures(rest[..j], rest[j + 3..k]))
  }

  /** The greedy `.*` prefers the last occurrence of the marker, at or before `hi`, that the groups can follow. */
  function ItMatchBefore(line: string, marker: string, hi: int): Option<ItCaptures>
    decreases hi
  {
    match LastAtMost(line, marker, hi)
    case None => None
    case Some(i) =>
      match ItGroups(line[i + |marker|..])
      case Some(m) => Some(m)
      case None => ItMatchBefore(line, marker, i - 1)
  }

  /** `regexp.MustCompile(".*<marker>(.+?) - (.+?) @").FindStringSubmatch(line)`. */
  function ItMatch(line: string, marker: string): Option<ItCaptures> {
    ItMatchBefore(line, marker, |line|)
  }

  /** The test key of the old tool: the two groups joined by " - ". */
  function TestKey(m: ItCaptures): (key: string)
    ensures |key| >= 3 && StartsWith(key, m.first) && EndsWith(key, m.second)
  {
    var key := m.first + " - " + m.second;
    assert key[..|m.first|] == m.first;
    assert key[|key| - |m.second|..] == m.second;
    key
  }

  /** A match is an occurrence of the marker followed by the two groups, " - " between them and " @" after. */
  lemma ItMatchShape(line: string, marker: string, hi: int)
    requires ItMatchBefore(line, marker, hi).Some?
    ensures var m := ItMatchBefore(line, marker, hi).value;
      exists i :: OccursAt(line, marker, i) && i <= hi &&
        StartsWith(line[i + |marker|..], m.first + " - " + m.second + " @")
  {
    var i := ItMatchAt(line, marker, hi);
    ItMatchWitness(line, marker, hi, i, ItMatchBefore(line, marker, hi).value);
  }

  /** An occurrence the groups cannot follow is skipped: the search goes on before it. */
  lemma ItMatchBeforeSkips(line: string, marker: string, hi: int, i: nat)
    requires LastAtMost(line, marker, hi) == Some(i) && ItGroups(line[i + |marker|..]).None?
    ensures ItMatchBefore(line, marker, hi) == ItMatchBefore(line, marker, i - 1)
  {
  }

  /** The occurrence of the marker a match starts at. */
  lemma {:induction false} ItMatchAt(line: string, marker: string, hi: int) returns (i: nat)
    requires ItMatchBefore(line, marker, hi).Some?
    decreases hi
    ensures OccursAt(line, marker, i) && i <= hi
    ensures ItMatchAfter(line, marker, i, ItMatchBefore(line, marker, hi).value)
  {
    var j := LastAtMost(line, marker, hi).value;
    var rest := line[j + |marker|..];
    if ItGroups(rest).Some? {
      ItMatchBeforeTakes(line, marker, hi, j);
      ItGroupsShape(rest);
      i := j;
    } else {
      ItMatchBeforeSkips(line, marker, hi, j);
      i := ItMatchAt(line, marker, j - 1);
    }
  }

  /** An occurrence the groups can follow is the match. */
  lemma ItMatchBeforeTakes(line: string, marker: string, hi: int, i: nat)
    requires LastAtMost(line, marker, hi) == Some(i) && ItGroups(line[i + |marker|..]).Some?
    ensures ItMatchBefore(line, marker, hi) == ItGroups(line[i + |marker|..])
  {
  }

  /** The groups of `m`, " - " between them and " @" after them, follow the marker occurrence at `i`. */
  predicate ItMatchAfter(line: string, marker: string, i: nat, m: ItCaptures)
    requires i + |marker| <= |line|
  {
    StartsWith(line[i + |marker|..], m.first + " - " + m.second + " @")
  }

  /** An occurrence of the marker at `i` followed by the groups of `m` witnesses the shape of a match. */
  lemma ItMatchWitness(line: string, marker: string, hi: int, i: nat, m: ItCaptures)
    requires OccursAt(line, marker, i) && i <= hi && ItMatchAfter(line, marker, i, m)
    ensures exists i :: OccursAt(line, marker, i) && i <= hi && StartsWith(line[i + |marker|..], m.first + " - " + m.second + " @")
  {
  }

  /** The groups, " - " between them and " @" after them begin the text they are cut from. */
  lemma ItGroupsShape(rest: string)
    requires ItGroups(rest).Some?
    ensures var m := ItGroups(rest).value; StartsWith(rest, m.first + " - " + m.second + " @")
  {
    var j := IndexFrom(rest, " - ", 1).value;
    var k := IndexFrom(rest, " @", j + 4).value;
    assert ItGroups(rest) == Some(ItCaptures(rest[..j], rest[j + 3..k]));
    DashAtCut(rest, j, k);
  }

  /** Text with " - " at `j` and " @" at `k` begins with the pieces they cut. */
  lemma DashAtCut(rest: string, j: nat, k: nat)
    requires j + 3 <= k && OccursAt(rest, " - ", j) && OccursAt(rest, " @", k)
    ensures rest[..k + 2] == rest[..j] + " - " + rest[j + 3..k] + " @"
  {
    assert rest[..k + 2] == rest[..j] + rest[j..j + 3] + rest[j + 3..k] + rest[k..k + 2];
  }

  /** No match means no occurrence of the marker that the groups can follow. */
  lemma {:induction false} NoItMatch(line: string, marker: string, hi: int)
    requires ItMatchBefore(line, marker, hi).None?
    decreases hi
    ensures forall i :: 0 <= i <= hi && OccursAt(line, marker, i) ==> ItGroups(line[i + |marker|..]).None?
  {
    LastAtMostIsLast(line, marker, hi);
    if LastAtMost(line, marker, hi).Some? {
      NoItMatch(line, marker, LastAtMost(line, marker, hi).value - 1);
    }
  }

  // ----- parseTimestamps -----

  const BackupStarted := "Creating backup"
  const BackupCase := "Backup for case "
  const Succeeded := " succeeded"
  const RestoreStarted := "Creating restore"
  const RestorePassed := "Post backup and restore state:  passed"

  /** `(\d{2}/\d{2}/\d{2} \d{2}:\d{2}:\d{2}).*<phrase>` matches somewhere in the line. */
  predicate ClockThen(line: string, phrase: string) {
    match FirstShape(line, Clock, 0)
    case None => false
    case Some(i) => IndexFrom(line, phrase, i + |Clock|).Some?
  }

  /** `(\d{2}/\d{2}/\d{2} \d{2}:\d{2}:\d{2}).*Backup for case (.+) succeeded` matches somewhere in the line. */
  predicate BackupSucceeded(line: string) {
    match FirstShape(line, Clock, 0)
    case None => false
    case Some(i) => CaseSucceededFrom(line, i + |Clock|)
  }

  /** `Backup for case (.+) succeeded` matches at or after `from`. */
  predicate CaseSucceededFrom(line: string, from: nat) {
    match IndexFrom(line, BackupCase, from)
    case None => false
    case Some(k) => IndexFrom(line, Succeeded, k + |BackupCase| + 1).Some?
  }

  /** ClockThen holds exactly when a clock is followed, at or after its end, by the phrase. */
  lemma ClockThenIff(line: string, phrase: string)
    ensures ClockThen(line, phrase) <==>
      exists i: nat, k: nat :: ShapeAt(line, Clock, i) && i + |Clock| <= k && OccursAt(line, phrase, k)
  {
    FirstShapeIsFirst(line, Clock, 0);
    if exists i: nat, k: nat :: ShapeAt(line, Clock, i) && i + |Clock| <= k && OccursAt(line, phrase, k) {
      var i: nat, k: nat :| ShapeAt(line, Clock, i) && i + |Clock| <= k && OccursAt(line, phrase, k);
      var i0 := FirstShape(line, Clock, 0).value;
      IndexFromIsFirst(line, phrase, i0 + |Clock|);
    }
    if ClockThen(line, phrase) {
      var i0 := FirstShape(line, Clock, 0).value;
      var k := IndexFrom(line, phrase, i0 + |Clock|).value;
      assert ShapeAt(line, Clock, i0) && i0 + |Clock| <= k && OccursAt(line, phrase, k);
    }
  }

  /** BackupSucceeded holds exactly when a clock, "Backup for case ", some text and " succeeded" follow in order. */
  lemma BackupSucceededIff(line: string)
    ensures BackupSucceeded(line) <==>
      exists i: nat, k: nat, m: nat :: ShapeAt(line, Clock, i) && i + |Clock| <= k && OccursAt(line, BackupCase, k) &&
        k + |BackupCase| + 1 <= m && OccursAt(line, Succeeded, m)
  {
    if exists i: nat, k: nat, m: nat :: ShapeAt(line, Clock, i) && i + |Clock| <= k && OccursAt(line, BackupCase, k) &&
        k + |BackupCase| + 1 <= m && OccursAt(line, Succeeded, m) {
      var i: nat, k: nat, m: nat :| ShapeAt(line, Clock, i) && i + |Clock| <= k && OccursAt(line, BackupCase, k) &&
        k + |BackupCase| + 1 <= m && OccursAt(line, Succeeded, m);
      BackupSucceededFrom(line, i, k, m);
    }
    if BackupSucceeded(line) {
      var i0 := FirstShape(line, Clock, 0).value;
      var k0, m := CaseSucceededWitness(line, i0 + |Clock|);
      BackupSucceededWitness(line, i0, k0, m);
    }
  }

  /** Where the tail of the rule matches: "Backup for case " at `k` and " succeeded" at `m`. */
  lemma CaseSucceededWitness(line: string, from: nat) returns (k: nat, m: nat)
    requires CaseSucceededFrom(line, from)
    ensures from <= k && OccursAt(line, BackupCase, k) && k + |BackupCase| + 1 <= m && OccursAt(line, Succeeded, m)
  {
    k := IndexFrom(line, BackupCase, from).value;
    m := IndexFrom(line, Succeeded, k + |BackupCase| + 1).value;
  }

  /** A clock at `i`, "Backup for case " at `k` and " succeeded" at `m`, in order, are a witness of the rule. */
  lemma BackupSucceededWitness(line: string, i: nat, k: nat, m: nat)
    requires ShapeAt(line, Clock, i) && i + |Clock| <= k && OccursAt(line, BackupCase, k)
    requires k + |BackupCase| + 1 <= m && OccursAt(line, Succeeded, m)
    ensures exists i: nat, k: nat, m: nat ::
              ShapeAt(line, Clock, i) && i + |Clock| <= k && OccursAt(line, BackupCase, k) &&
              k + |BackupCase| + 1 <= m && OccursAt(line, Succeeded, m)
  {
  }

  /** A clock at `i`, "Backup for case " at `k` and " succeeded" at `m`, in order, make the rule match. */
  lemma BackupSucceededFrom(line: string, i: nat, k: nat, m: nat)
    requires ShapeAt(line, Clock, i) && i + |Clock| <= k && OccursAt(line, BackupCase, k)
    requires k + |BackupCase| + 1 <= m && OccursAt(line, Succeeded, m)
    ensures BackupSucceeded(line)
  {
    FirstShapeFinds(line, Clock, i);
    var i0 := FirstShape(line, Clock, 0).value;
    CaseSucceededAfter(line, i0 + |Clock|, k, m);
  }

  /** "Backup for case " at `k`, at or after `from`, and " succeeded" at `m` after it make the tail of the rule match. */
  lemma CaseSucceededAfter(line: string, from: nat, k: nat, m: nat)
    requires from <= k && OccursAt(line, BackupCase, k)
    requires k + |BackupCase| + 1 <= m && OccursAt(line, Succeeded, m)
    ensures CaseSucceededFrom(line, from)
  {
    IndexFromFinds(line, BackupCase, from, k);
    var k0 := IndexFrom(line, BackupCase, from).value;
    IndexFromFinds(line, Succeeded, k0 + |BackupCase| + 1, m);
  }

  /** The times the old tool records for one retry of a test. */
  datatype TestData = TestData(startTime: Time, endTime: Time, backupStartTime: Time, backupEndTime: Time,
                               restoreStartTime: Time, restoreEndTime: Time)

  /** `&TestData{}`. */
  const NewTestData := TestData(ZeroTime, ZeroTime, ZeroTime, ZeroTime, ZeroTime, ZeroTime)

  /**
   * `parseTimestamps`: only the first rule that matches, in the order backup start, backup end,
   * restore start, restore end, sets its field, to the line's timestamp.
   */
  function ParseTimestamps(line: string, d: TestData): (r: TestData)
    ensures r.startTime == d.startTime && r.endTime == d.endTime
    ensures ClockThen(line, BackupStarted) ==> r == d.(backupStartTime := ParseTimestamp(line))
    ensures !ClockThen(line, BackupStarted) && BackupSucceeded(line) ==> r == d.(backupEndTime := ParseTimestamp(line))
    ensures !ClockThen(line, BackupStarted) && !BackupSucceeded(line) && ClockThen(line, RestoreStarted) ==>
      r == d.(restoreStartTime := ParseTimestamp(line))
    ensures !ClockThen(line, BackupStarted) && !BackupSucceeded(line) && !ClockThen(line, RestoreStarted) ==>
      r == if ClockThen(line, RestorePassed) then d.(restoreEndTime := ParseTimestamp(line)) else d
  {
    if ClockThen(line, BackupStarted) then d.(backupStartTime := ParseTimestamp(line))
    else if BackupSucceeded(line) then d.(backupEndTime := ParseTimestamp(line))
    else if ClockThen(line, RestoreStarted) then d.(restoreStartTime := ParseTimestamp(line))
    else if ClockThen(line, RestorePassed) then d.(restoreEndTime := ParseTimestamp(line))
    else d
  }

  // ----- parseLogFile -----

  /** The loop state of `parseLogFile`: `testData`, `currentTestName` and `currentRetryCounter`. */
  datatype OldState = OldState(testData: map<string, map<int, TestData>>, current: string, retry: map<string, int>)

  /** Go's read of a missing map key: 0. */
  function Get(m: map<string, int>, key: string): int {
    if key in m then m[key] else 0
  }

  /** The state before the first line. */
  const Start := OldState(map[], "", map[])

  /** Once a test has started, the slot of the current test and retry exists. */
  predicate HasSlot(s: OldState) {
    s.current != "" ==> s.current in s.testData && Get(s.retry, s.current) in s.testData[s.current]
  }

  /** `testData[currentTestName][currentRetryCounter[currentTestName]]`. */
  function Slot(s: OldState): TestData
    requires HasSlot(s) && s.current != ""
  {
    s.testData[s.current][Get(s.retry, s.current)]
  }

  /** The state with the current slot replaced by `d`. */
  function SetSlot(s: OldState, d: TestData): (r: OldState)
    requires HasSlot(s) && s.current != ""
    ensures HasSlot(r) && r.current == s.current && r.retry == s.retry && Slot(r) == d
    ensures r.testData.Keys == s.testData.Keys
    ensures forall name :: name in s.testData ==> r.testData[name].Keys == s.testData[name].Keys
  {
    s.(testData := s.testData[s.current := s.testData[s.current][Get(s.retry, s.current) := d]])
  }

  /**
   * An Enter line: the counter of the previous test goes up, the key becomes current, and a new
   * entry holding the start time is stored at the key's counter.
   */
  function EnterStep(s: OldState, name: string, t: Time): (r: OldState)
    requires name != ""
    ensures HasSlot(r) && r.current == name && Slot(r) == NewTestData.(startTime := t)
  {
    var retry := s.retry[s.current := Get(s.retry, s.current) + 1];
    var attempts := if name in s.testData then s.testData[name] else map[];
    OldState(s.testData[name := attempts[Get(retry, name) := NewTestData.(startTime := t)]], name, retry)
  }

  /** The Enter check of the loop body: an Enter line opens a new entry for its key. */
  function EnterPart(s: OldState, line: string): (r: OldState)
    ensures ItMatch(line, EnterIt).None? ==> r == s
    ensures ItMatch(line, EnterIt).Some? ==> HasSlot(r) && r.current == TestKey(ItMatch(line, EnterIt).value)
  {
    match ItMatch(line, EnterIt)
    case None => s
    case Some(m) => EnterStep(s, TestKey(m), ExtractTimeFromEnterIt(line))
  }

  /** The Exit check of the loop body: once a test has started, its entry gets the line's time as end time. */
  function ExitPart(s: OldState, line: string): (r: OldState)
    requires HasSlot(s)
    ensures HasSlot(r) && r.current == s.current && r.retry == s.retry
  {
    if ItMatch(line, ExitIt).Some? && s.current != "" then SetSlot(s, Slot(s).(endTime := ExtractTimeFromEnterIt(line)))
    else s
  }

  /** The `parseTimestamps` call of the loop body, once a test has started. */
  function TimestampPart(s: OldState, line: string): (r: OldState)
    requires HasSlot(s)
    ensures HasSlot(r) && r.current == s.current && r.retry == s.retry
  {
    if s.current != "" then SetSlot(s, ParseTimestamps(line, Slot(s))) else s
  }

  /** One iteration of the loop of `parseLogFile`: the Enter check, the Exit check, then `parseTimestamps`. */
  function OldStep(s: OldState, line: string): (r: OldState)
    requires HasSlot(s)
    ensures HasSlot(r)
  {
    TimestampPart(ExitPart(EnterPart(s, line), line), line)
  }

  /** The loop state after the given lines. */
  function OldRun(lines: seq<string>): (r: OldState)
    ensures HasSlot(r)
  {
    if |lines| == 0 then Start else OldStep(OldRun(lines[..|lines| - 1]), lines[|lines| - 1])
  }

  /** The test key an Enter line opens, if it is one. */
  function EnterKey(line: string): (key: Option<string>)
    ensures key.Some? ==> key.value != ""
  {
    match ItMatch(line, EnterIt)
    case None => None
    case Some(m) => Some(TestKey(m))
  }

  /** The Enter lines of the key `name`, in order. */
  function EnterLines(lines: seq<string>, name: string): seq<string> {
    if |lines| == 0 then []
    else
      var prev := EnterLines(lines[..|lines| - 1], name);
      if EnterKey(lines[|lines| - 1]) == Some(name) then prev + [lines[|lines| - 1]] else prev
  }

  /** The key of the last Enter line, or "" when there is none. */
  function LastKey(lines: seq<string>): string {
    if |lines| == 0 then ""
    else
      match EnterKey(lines[|lines| - 1])
      case Some(key) => key
      case None => LastKey(lines[..|lines| - 1])
  }

  /** Adding a line adds it to the Enter lines of its key only. */
  lemma AppendLine(lines: seq<string>, line: string)
    ensures forall name :: (EnterLines(lines + [line], name) ==
      if EnterKey(line) == Some(name) then EnterLines(lines, name) + [line] else EnterLines(lines, name))
    ensures LastKey(lines + [line]) == if EnterKey(line).Some? then EnterKey(line).value else LastKey(lines)
  {
    assert (lines + [line])[..|lines|] == lines;
  }

  /**
   * The invariant of the loop: the current test is the key of the last Enter line; the counter of
   * a key is its number of Enter lines, one less while it is current; a key's retries are
   * 0 up to its number of Enter lines; and retry k holds the start time of its k-th Enter line.
   */
  ghost predicate Indexed(s: OldState, lines: seq<string>) {
    Counted(s, lines) && StartTimes(s, lines)
  }

  /** The counting part of the invariant. */
  ghost predicate Counted(s: OldState, lines: seq<string>) {
    s.current == LastKey(lines) &&
    (forall name :: name != "" ==> Get(s.retry, name) == |EnterLines(lines, name)| - (if name == s.current then 1 else 0)) &&
    (forall name :: name in s.testData <==> |EnterLines(lines, name)| > 0) &&
    (forall name, k :: name in s.testData ==> (k in s.testData[name] <==> 0 <= k < |EnterLines(lines, name)|))
  }

  /** The start-time part of the invariant. */
  ghost predicate StartTimes(s: OldState, lines: seq<string>) {
    forall name :: name in s.testData ==> KeyStarts(s.testData[name], EnterLines(lines, name))
  }

  /** Retry `k` of a key holds the start time of the key's `k`-th Enter line. */
  ghost predicate KeyStarts(entries: map<int, TestData>, enters: seq<string>) {
    forall k :: k in entries && 0 <= k < |enters| ==> entries[k].startTime == ExtractTimeFromEnterIt(enters[k])
  }

  /** A line that is not an Enter line leaves the invariant's counts alone. */
  lemma NoEnterIndexed(s: OldState, lines: seq<string>, line: string)
    requires Indexed(s, lines) && EnterKey(line).None?
    ensures Indexed(s, lines + [line])
  {
    AppendLine(lines, line);
  }

  /** Replacing the current entry by one with the same start time keeps the invariant. */
  lemma SetSlotIndexed(s: OldState, lines: seq<string>, d: TestData)
    requires HasSlot(s) && s.current != "" && Indexed(s, lines) && d.startTime == Slot(s).startTime
    ensures Indexed(SetSlot(s, d), lines)
  {
  }

  /** An Enter line of `name` stores its start time at retry index "number of earlier Enters of `name`". */
  lemma EnterIndexed(s: OldState, lines: seq<string>, line: string, name: string)
    requires Indexed(s, lines) && EnterKey(line) == Some(name)
    ensures Indexed(EnterStep(s, name, ExtractTimeFromEnterIt(line)), lines + [line])
    ensures Get(EnterStep(s, name, ExtractTimeFromEnterIt(line)).retry, name) == |EnterLines(lines, name)|
  {
    var r := EnterStep(s, name, ExtractTimeFromEnterIt(line));
    AppendLine(lines, line);
    EnterCounts(s, lines, lines + [line], name, ExtractTimeFromEnterIt(line));
    EnterDomains(s, lines, lines + [line], name, ExtractTimeFromEnterIt(line));
    EnterStarts(s, lines, line, name, r, lines + [line]);
  }

  /** After an Enter of `name`, the counters match the Enter lines. */
  lemma EnterCounts(s: OldState, lines: seq<string>, lines': seq<string>, name: string, t: Time)
    requires Counted(s, lines) && name != ""
    requires forall n :: |EnterLines(lines', n)| == |EnterLines(lines, n)| + (if n == name then 1 else 0)
    ensures Get(EnterStep(s, name, t).retry, name) == |EnterLines(lines, name)|
    ensures forall n :: n != "" ==>
      Get(EnterStep(s, name, t).retry, n) == |EnterLines(lines', n)| - (if n == name then 1 else 0)
  {
  }

  /** After an Enter of `name`, the keys and the retry indices match the Enter lines. */
  lemma EnterDomains(s: OldState, lines: seq<string>, lines': seq<string>, name: string, t: Time)
    requires Counted(s, lines) && name != ""
    requires forall n :: |EnterLines(lines', n)| == |EnterLines(lines, n)| + (if n == name then 1 else 0)
    ensures forall n :: n in EnterStep(s, name, t).testData <==> |EnterLines(lines', n)| > 0
    ensures forall n, k :: n in EnterStep(s, name, t).testData ==>
      (k in EnterStep(s, name, t).testData[n] <==> 0 <= k < |EnterLines(lines', n)|)
  {
    EnterCounts(s, lines, lines', name, t);
    forall n
      ensures n in EnterStep(s, name, t).testData <==> |EnterLines(lines', n)| > 0
      ensures n in EnterStep(s, name, t).testData ==>
        forall k :: k in EnterStep(s, name, t).testData[n] <==> 0 <= k < |EnterLines(lines', n)|
    {
      EnterDomainAt(s, name, t, n, |EnterLines(lines, n)|, |EnterLines(lines', n)|);
    }
  }

  /** `EnterDomains` for one key `n`, which had `c` Enter lines before and has `c'` after. */
  lemma EnterDomainAt(s: OldState, name: string, t: Time, n: string, c: nat, c': nat)
    requires name != ""
    requires n in s.testData <==> c > 0
    requires n in s.testData ==> forall k :: k in s.testData[n] <==> 0 <= k < c
    requires c' == c + (if n == name then 1 else 0)
    requires n == name ==> Get(EnterStep(s, name, t).retry, name) == c
    ensures n in EnterStep(s, name, t).testData <==> c' > 0
    ensures n in EnterStep(s, name, t).testData ==> forall k :: k in EnterStep(s, name, t).testData[n] <==> 0 <= k < c'
  {
  }

  /** After an Enter of `name`, every entry holds the start time of the Enter line it belongs to. */
  lemma EnterStarts(s: OldState, lines: seq<string>, line: string, name: string, r: OldState, lines': seq<string>)
    requires StartTimes(s, lines) && EnterKey(line) == Some(name)
    requires r == EnterStep(s, name, ExtractTimeFromEnterIt(line)) && lines' == lines + [line]
    requires Get(r.retry, name) == |EnterLines(lines, name)|
    ensures StartTimes(r, lines')
  {
    AppendLine(lines, line);
    forall n | n in r.testData
      ensures KeyStarts(r.testData[n], EnterLines(lines', n))
    {
      if n == name {
        var entries := if name in s.testData then s.testData[name] else map[];
        KeyStartsSnoc(entries, EnterLines(lines, name), line);
      } else {
        assert r.testData[n] == s.testData[n];
      }
    }
  }

  /** A new entry at the next retry index, holding the start time of a new Enter line, keeps the start times. */
  lemma KeyStartsSnoc(entries: map<int, TestData>, enters: seq<string>, line: string)
    requires KeyStarts(entries, enters)
    ensures KeyStarts(entries[|enters| := NewTestData.(startTime := ExtractTimeFromEnterIt(line))], enters + [line])
  {
    forall k | 0 <= k < |enters|
      ensures (enters + [line])[k] == enters[k]
    {
    }
  }

  /** One iteration keeps the invariant. */
  lemma StepIndexed(s: OldState, lines: seq<string>, line: string)
    requires HasSlot(s) && Indexed(s, lines)
    ensures Indexed(OldStep(s, line), lines + [line])
  {
    var s1 := EnterPart(s, line);
    if EnterKey(line).Some? {
      EnterIndexed(s, lines, line, EnterKey(line).value);
    } else {
      NoEnterIndexed(s, lines, line);
    }
    var s2 := ExitPart(s1, line);
    if ItMatch(line, ExitIt).Some? && s1.current != "" {
      SetSlotIndexed(s1, lines + [line], Slot(s1).(endTime := ExtractTimeFromEnterIt(line)));
    }
    if s2.current != "" {
      SetSlotIndexed(s2, lines + [line], ParseTimestamps(line, Slot(s2)));
    }
  }

  /** The invariant holds after every prefix of the log. */
  lemma {:induction false} RunIndexed(lines: seq<string>)
    ensures Indexed(OldRun(lines), lines)
  {
    if |lines| > 0 {
      var prefix, last := lines[..|lines| - 1], lines[|lines| - 1];
      DropLast(lines);
      RunIndexed(prefix);
      StepIndexed(OldRun(prefix), prefix, last);
    }
  }

  /** A non-empty sequence is its prefix followed by its last element. */
  lemma DropLast(lines: seq<string>)
    requires |lines| > 0
    ensures lines == lines[..|lines| - 1] + [lines[|lines| - 1]]
  {
  }

  /** An Enter line never lands on an entry that exists already: earlier retries are not overwritten. */
  lemma EnterSlotIsNew(s: OldState, lines: seq<string>, line: string)
    requires HasSlot(s) && Indexed(s, lines) && EnterKey(line).Some?
    ensures var r := OldStep(s, line);
      r.current !in s.testData || Get(r.retry, r.current) !in s.testData[r.current]
  {
    EnterIndexed(s, lines, line, EnterKey(line).value);
  }

  /** From `s` to `r` no entry is removed, and only the entry `idx` of `key` may change. */
  ghost predicate FramedBy(s: OldState, r: OldState, key: string, idx: int) {
    forall name, k :: name in s.testData && k in s.testData[name] ==>
      name in r.testData && k in r.testData[name] &&
      (r.testData[name][k] == s.testData[name][k] || (name == key && k == idx))
  }

  /** One iteration changes at most the entry that is current after it; entries are never removed. */
  lemma StepFrame(s: OldState, line: string)
    requires HasSlot(s)
    ensures var r := OldStep(s, line);
      forall name, k :: name in s.testData && k in s.testData[name] ==>
        name in r.testData && k in r.testData[name] &&
        (r.testData[name][k] == s.testData[name][k] || (name == r.current && k == Get(r.retry, r.current)))
  {
    var s1 := EnterPart(s, line);
    var s2 := ExitPart(s1, line);
    var r := TimestampPart(s2, line);
    var key, idx := s1.current, Get(s1.retry, s1.current);
    EnterPartFramed(s, line);
    if ItMatch(line, ExitIt).Some? && s1.current != "" {
      SetSlotFramed(s1, Slot(s1).(endTime := ExtractTimeFromEnterIt(line)));
    }
    if s2.current != "" {
      SetSlotFramed(s2, ParseTimestamps(line, Slot(s2)));
    }
    FramedTrans(s, s1, s2, key, idx);
    FramedTrans(s, s2, r, key, idx);
  }

  /** The Enter check changes at most the entry it opens. */
  lemma EnterPartFramed(s: OldState, line: string)
    ensures var r := EnterPart(s, line);
      FramedBy(s, r, r.current, Get(r.retry, r.current))
  {
  }

  /** Replacing the current entry changes no other entry. */
  lemma SetSlotFramed(s: OldState, d: TestData)
    requires HasSlot(s) && s.current != ""
    ensures FramedBy(s, SetSlot(s, d), s.current, Get(s.retry, s.current))
  {
  }

  /** Frames compose. */
  lemma FramedTrans(a: OldState, b: OldState, c: OldState, key: string, idx: int)
    requires FramedBy(a, b, key, idx) && FramedBy(b, c, key, idx)
    ensures FramedBy(a, c, key, idx)
  {
  }

  /**
   * What one iteration does to the current entry: an Enter line makes a fresh one holding its start
   * time; an Exit line, with a test started, sets the end time whatever name the Exit carries; then,
   * with a test started, `parseTimestamps` reads the line. Before the first Enter nothing changes.
   */
  lemma StepSlot(s: OldState, line: string)
    requires HasSlot(s)
    ensures var r, t, exit := OldStep(s, line), ExtractTimeFromEnterIt(line), ItMatch(line, ExitIt).Some?;
      (EnterKey(line).Some? ==> (r.current == EnterKey(line).value &&
         Slot(r) == ParseTimestamps(line, NewTestData.(startTime := t, endTime := if exit then t else ZeroTime)))) &&
      (EnterKey(line).None? && s.current != "" ==> (r.current == s.current && r.retry == s.retry &&
         Slot(r) == ParseTimestamps(line, if exit then Slot(s).(endTime := t) else Slot(s)))) &&
      (EnterKey(line).None? && s.current == "" ==> r == s)
  {
  }

  /** Up to the first Enter line, the state is the initial one: Exit lines and timestamps are ignored. */
  lemma {:induction false} NothingBeforeFirstEnter(lines: seq<string>)
    requires forall j :: 0 <= j < |lines| ==> EnterKey(lines[j]).None?
    ensures OldRun(lines) == Start
  {
    if |lines| > 0 {
      var prefix := lines[..|lines| - 1];
      forall j | 0 <= j < |prefix|
        ensures EnterKey(prefix[j]).None?
      {
        assert prefix[j] == lines[j];
      }
      NothingBeforeFirstEnter(prefix);
      assert EnterKey(lines[|lines| - 1]).None?;
    }
  }

  /**
   * The line loop of `parseLogFile` (reading the file or URL is not modelled): the map it builds
   * is the one the step function gives. The lines are those a `bufio.Scanner` yields, which hold
   * no '\n'.
   */
  method ParseLogFile(lines: seq<string>) returns (testData: map<string, map<int, TestData>>)
    requires forall i :: 0 <= i < |lines| ==> '\n' !in lines[i]
    ensures testData == OldRun(lines).testData
  {
    testData := map[];
    var currentTestName := "";
    var currentRetryCounter: map<string, int> := map[];
    var n := 0;
    while n < |lines|
      invariant 0 <= n <= |lines|
      invariant OldState(testData, currentTestName, currentRetryCounter) == OldRun(lines[..n])
    {
      var line := lines[n];
      assert lines[..n + 1][..n] == lines[..n];
      testData, currentTestName, currentRetryCounter := EnterBlock(testData, currentTestName, currentRetryCounter, line);
      testData := ExitBlock(testData, currentTestName, currentRetryCounter, line);
      if currentTestName != "" {
        var retry := Get(currentRetryCounter, currentTestName);
        testData := testData[currentTestName := testData[currentTestName][retry := ParseTimestamps(line, testData[currentTestName][retry])]];
      }
      n := n + 1;
    }
    assert lines[..n] == lines;
  }

  /** The Enter check of the loop body. */
  method EnterBlock(testData: map<string, map<int, TestData>>, currentTestName: string,
                    currentRetryCounter: map<string, int>, line: string)
    returns (testData': map<string, map<int, TestData>>, currentTestName': string, currentRetryCounter': map<string, int>)
    ensures OldState(testData', currentTestName', currentRetryCounter') ==
      EnterPart(OldState(testData, currentTestName, currentRetryCounter), line)
  {
    testData', currentTestName', currentRetryCounter' := testData, currentTestName, currentRetryCounter;
    var enterMatch := ItMatch(line, EnterIt);
    if enterMatch.Some? {
      testData', currentTestName', currentRetryCounter' :=
        OpenEntry(testData, currentTestName, currentRetryCounter, TestKey(enterMatch.value), ExtractTimeFromEnterIt(line));
    }
  }

  /** The body of the Enter check: count a retry of the previous test, then open the entry of the new one. */
  method OpenEntry(testData: map<string, map<int, TestData>>, currentTestName: string,
                   currentRetryCounter: map<string, int>, name: string, timestamp: Time)
    returns (testData': map<string, map<int, TestData>>, currentTestName': string, currentRetryCounter': map<string, int>)
    requires name != ""
    ensures OldState(testData', currentTestName', currentRetryCounter') ==
      EnterStep(OldState(testData, currentTestName, currentRetryCounter), name, timestamp)
  {
    currentRetryCounter' := currentRetryCounter[currentTestName := Get(currentRetryCounter, currentTestName) + 1];
    currentTestName' := name;
    testData' := testData;
    if currentTestName' !in testData' {
      testData' := testData'[currentTestName' := map[]];
    }
    assert testData'[currentTestName'] == if name in testData then testData[name] else map[];
    var retry := Get(currentRetryCounter', currentTestName');
    testData' := testData'[currentTestName' := testData'[currentTestName'][retry := NewTestData.(startTime := timestamp)]];
  }

  /** The Exit check of the loop body: the end time goes into the current slot once a test has started. */
  method ExitBlock(testData: map<string, map<int, TestData>>, currentTestName: string,
                   currentRetryCounter: map<string, int>, line: string)
    returns (testData': map<string, map<int, TestData>>)
    requires HasSlot(OldState(testData, currentTestName, currentRetryCounter))
    ensures OldState(testData', currentTestName, currentRetryCounter) ==
      ExitPart(OldState(testData, currentTestName, currentRetryCounter), line)
  {
    testData' := testData;
    var exitMatch := ItMatch(line, ExitIt);
    if exitMatch.Some? && currentTestName != "" {
      var endTime := ExtractTimeFromEnterIt(line);
      var retry := Get(currentRetryCounter, currentTestName);
      testData' := testData[currentTestName := testData[currentTestName][retry := testData[currentTestName][retry].(endTime := endTime)]];
    }
  }
}

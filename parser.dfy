/**
 * The log parser of test_utils.go: it walks the lines of a Ginkgo log and groups them into tests
 * and attempts.
 *
 * The parser's hidden state is the `attempts` counter map and the `currentAttempt` pointer. The
 * pointer always designates an attempt stored inside `TestRunData.TestRun`, so it is modelled as
 * the position of that attempt (`Cursor`: the index of its test and the index of the attempt).
 * A write through the pointer is `SetAttempt` at that position.
 *
 * The model is one `Step` per line (`RunFrom` folds it over the lines). The methods play
 * the Go functions and are proved to perform exactly these steps.
 */
module Parser {
  import opened Wrappers
  import opened GoStrings
  import opened GoTime
  import opened Model
  import opened Markers

  // ----- Ginkgo time stamps -----

  /** The layouts `parseGingkoTime` tries, in order: milliseconds, centiseconds, deciseconds, none. */
  const GinkgoLayouts: seq<Layout> := [
    Layout(MonthDayYear, Exact(3)), Layout(MonthDayYear, Exact(2)),
    Layout(MonthDayYear, Exact(1)), Layout(MonthDayYear, Optional)]

  /** The time given by the first layout of `layouts` that accepts `s`, if any. */
  function FirstParse(layouts: seq<Layout>, s: string): (r: Option<Time>)
    ensures r.Some? <==> exists k :: 0 <= k < |layouts| && Parse(layouts[k], s).Some?
    ensures r.Some? ==> exists k :: 0 <= k < |layouts| && Parse(layouts[k], s) == r
  {
    if |layouts| == 0 then None
    else
      var t := Parse(layouts[0], s);
      if t.Some? then t
      else
        var rest := FirstParse(layouts[1..], s);
        assert forall k :: 1 <= k < |layouts| ==> layouts[k] == layouts[1..][k - 1];
        rest
  }

  /** The time stamp of an Enter or Exit line, or None when `parseGingkoTime` returns an error. */
  function GinkgoTime(s: string): Option<Time> {
    FirstParse(GinkgoLayouts, s)
  }

  /** A fraction of exactly `n >= 1` digits is also accepted by the optional fraction, with the same value. */
  lemma ExactFractionIsOptional(n: nat, text: string)
    requires n >= 1 && ParseFraction(Exact(n), text).Some?
    ensures ParseFraction(Optional, text) == ParseFraction(Exact(n), text)
  {
  }

  /** A layout with a fraction of `n >= 1` digits accepts only what the layout without one accepts, at the same time. */
  lemma ExactLayoutIsOptional(order: DateOrder, n: nat, s: string)
    requires n >= 1 && Parse(Layout(order, Exact(n)), s).Some?
    ensures Parse(Layout(order, Optional), s) == Parse(Layout(order, Exact(n)), s)
  {
    var h := SkipSpaces(s, 8);
    var hourEnd := if h + 1 < |s| && IsDigit(s[h + 1]) then h + 2 else h + 1;
    ExactFractionIsOptional(n, s[hourEnd + 6..]);
  }

  /** The four layouts of `parseGingkoTime` amount to the last one alone. */
  lemma GinkgoTimeIsOptional(s: string)
    ensures GinkgoTime(s) == Parse(Layout(MonthDayYear, Optional), s)
  {
    var last := Layout(MonthDayYear, Optional);
    var l0 := GinkgoLayouts;
    var l1, l2, l3 := l0[1..], l0[2..], l0[3..];
    assert l1[1..] == l2 && l2[1..] == l3 && l3 == [last] && l3[1..] == [];
    FirstParseStep(l3, s);
    ExactStepIsOptional(l2, 1, s);
    ExactStepIsOptional(l1, 2, s);
    ExactStepIsOptional(l0, 3, s);
  }

  /** The first layout of `layouts` is tried first; the rest only when it fails. */
  lemma FirstParseStep(layouts: seq<Layout>, s: string)
    requires |layouts| > 0
    ensures FirstParse(layouts, s) ==
      if Parse(layouts[0], s).Some? then Parse(layouts[0], s) else FirstParse(layouts[1..], s)
  {
  }

  /** A list that starts with an exact-fraction layout parses as its rest does, when the rest parses as the optional layout. */
  lemma ExactStepIsOptional(layouts: seq<Layout>, n: nat, s: string)
    requires n >= 1 && |layouts| > 0 && layouts[0] == Layout(MonthDayYear, Exact(n))
    requires FirstParse(layouts[1..], s) == Parse(Layout(MonthDayYear, Optional), s)
    ensures FirstParse(layouts, s) == Parse(Layout(MonthDayYear, Optional), s)
  {
    FirstParseStep(layouts, s);
    if Parse(layouts[0], s).Some? {
      ExactLayoutIsOptional(MonthDayYear, n, s);
    }
  }

  /** `parseGingkoTime`: the first of the four layouts that parses, else the zero time and an error. */
  method ParseGingkoTime(timeStr: string) returns (parsedTime: Time, ok: bool)
    ensures ok <==> GinkgoTime(timeStr).Some?
    ensures parsedTime == GinkgoTime(timeStr).GetOr(ZeroTime)
  {
    var formats := GinkgoLayouts;
    var parsed: Option<Time> := None;
    var i := 0;
    while i < |formats| && parsed.None?
      invariant 0 <= i <= |formats|
      invariant parsed.Some? ==> parsed == GinkgoTime(timeStr)
      invariant parsed.None? ==> GinkgoTime(timeStr) == FirstParse(formats[i..], timeStr)
    {
      parsed := Parse(formats[i], timeStr);
      i := i + 1;
    }
    if parsed.None? {
      return ZeroTime, false;
    }
    return parsed.value, true;
  }

  // ----- The parser's state -----

  /** The position of the attempt `currentAttempt` points at. */
  datatype Cursor = Cursor(run: nat, attempt: nat)

  /** The test runs built so far, the `attempts` counters and the current attempt, if any. */
  datatype ParseState = ParseState(runs: seq<IndividualTestRunData>, attempts: map<string, int>, cursor: Option<Cursor>)

  /** The cursor, when present, designates the last attempt of an existing test run. */
  predicate CursorOk(runs: seq<IndividualTestRunData>, cursor: Option<Cursor>) {
    cursor.Some? ==>
      cursor.value.run < |runs| && cursor.value.attempt + 1 == |runs[cursor.value.run].attempt|
  }

  /** The state before the first line: the runs already present, no counters, no current attempt. */
  function Init(runs0: seq<IndividualTestRunData>): ParseState {
    ParseState(runs0, map[], None)
  }

  /** The attempt at a valid position. */
  function AttemptAt(runs: seq<IndividualTestRunData>, c: Cursor): AttemptData
    requires c.run < |runs| && c.attempt < |runs[c.run].attempt|
  {
    runs[c.run].attempt[c.attempt]
  }

  /** A write through the `*AttemptData` pointer: `a` replaces the attempt at `c`. */
  function SetAttempt(runs: seq<IndividualTestRunData>, c: Cursor, a: AttemptData): (r: seq<IndividualTestRunData>)
    requires c.run < |runs| && c.attempt < |runs[c.run].attempt|
    ensures |r| == |runs|
    ensures forall k :: 0 <= k < |r| ==>
      r[k].name == runs[k].name && r[k].shortName == runs[k].shortName && |r[k].attempt| == |runs[k].attempt|
    ensures AttemptAt(r, c) == a
    ensures forall k, j :: 0 <= k < |r| && 0 <= j < |r[k].attempt| && (k != c.run || j != c.attempt) ==>
      r[k].attempt[j] == runs[k].attempt[j]
  {
    runs[c.run := runs[c.run].(attempt := runs[c.run].attempt[c.attempt := a])]
  }

  // ----- One step per handler -----

  /** The index of the first test run whose full name is `name`. */
  function FindRun(runs: seq<IndividualTestRunData>, name: string): (r: Option<nat>)
    ensures r.Some? ==> r.value < |runs| && runs[r.value].name == name
    ensures r.Some? ==> forall k :: 0 <= k < r.value ==> runs[k].name != name
    ensures r.None? ==> forall k :: 0 <= k < |runs| ==> runs[k].name != name
  {
    if |runs| == 0 then None
    else
      var r := FindRun(runs[..|runs| - 1], name);
      if r.Some? then r
      else if runs[|runs| - 1].name == name then Some(|runs| - 1)
      else None
  }

  /**
   * `getOrAddTestRun`: the test run named `name`, appended with the given short name and no
   * attempts when there is none yet. Existing runs are never changed.
   */
  function GetOrAdd(runs: seq<IndividualTestRunData>, name: string, shortName: string): (r: (seq<IndividualTestRunData>, nat))
    ensures r.1 < |r.0| && r.0[r.1].name == name
    ensures FindRun(runs, name).Some? ==> r == (runs, FindRun(runs, name).value)
    ensures FindRun(runs, name).None? ==>
      r == (runs + [IndividualTestRunData(name, shortName, [])], |runs|)
  {
    match FindRun(runs, name)
    case Some(i) => (runs, i)
    case None => (runs + [IndividualTestRunData(name, shortName, [])], |runs|)
  }

  /** The number of earlier attempts of `name`, as `attempts[eventName]` reads it (0 when absent). */
  function Count(attempts: map<string, int>, name: string): int {
    if name in attempts then attempts[name] else 0
  }

  /** `attempts[eventName]++`. */
  function Bump(attempts: map<string, int>, name: string): (r: map<string, int>)
    ensures r.Keys == attempts.Keys + {name} && r[name] == Count(attempts, name) + 1
    ensures forall k :: k in attempts && k != name ==> r[k] == attempts[k]
  {
    attempts[name := Count(attempts, name) + 1]
  }

  /** The attempt `handleStartTag` creates for an Enter line. */
  function NewAttempt(no: int, name: string, line: string, timeText: string): AttemptData {
    AttemptData(no, name, GinkgoTime(timeText).GetOr(ZeroTime), ZeroTime, 0, ZeroStatus, [line], [])
  }

  /**
   * `handleStartTag`: the Enter line opens a new attempt, numbered by the counter of its full name,
   * at the end of that name's test run, and the cursor moves to it. The run is the first one with
   * the full name, or a new run with both names appended at the end; its earlier attempts are kept,
   * and every other run is unchanged.
   */
  function EnterStep(runs: seq<IndividualTestRunData>, attempts: map<string, int>, line: string, m: EnterCaptures): (s: ParseState)
    ensures CursorOk(s.runs, s.cursor) && s.cursor.Some?
    ensures AttemptAt(s.runs, s.cursor.value) == NewAttempt(Count(attempts, m.fullName), m.fullName, line, m.timeText)
    ensures s.attempts == Bump(attempts, m.fullName)
    ensures var found := FindRun(runs, m.fullName);
      && s.cursor.value.run == (if found.Some? then found.value else |runs|)
      && |s.runs| == (if found.Some? then |runs| else |runs| + 1)
    ensures var c := s.cursor.value;
      && s.runs[c.run].name == m.fullName
      && (c.run == |runs| ==> s.runs[c.run].shortName == m.shortName)
      && s.runs[c.run].attempt[..c.attempt] == (if c.run < |runs| then runs[c.run].attempt else [])
    ensures forall t :: 0 <= t < |runs| ==>
      s.runs[t].name == runs[t].name && s.runs[t].shortName == runs[t].shortName
    ensures forall t :: 0 <= t < |runs| && t != s.cursor.value.run ==> s.runs[t] == runs[t]
  {
    var g := GetOrAdd(runs, m.fullName, m.shortName);
    var runs1, r := g.0, g.1;
    var no := Count(attempts, m.fullName);
    var a := NewAttempt(no, m.fullName, line, m.timeText);
    var run := runs1[r].(attempt := runs1[r].attempt + [a]);
    var runs2 := runs1[r := run];
    assert runs2[r] == run && run.attempt[|runs1[r].attempt|] == a;
    EnterStepFacts(runs, m, runs1, r, a, runs2);
    ParseState(runs2, Bump(attempts, m.fullName), Some(Cursor(r, |runs1[r].attempt|)))
  }

  /**
   * `handleEndTag`: with a current attempt and a time stamp that parses, the attempt gets its end
   * time, its duration and the line; otherwise nothing changes.
   */
  function ExitStep(runs: seq<IndividualTestRunData>, cursor: Option<Cursor>, line: string, m: ExitCaptures): (r: seq<IndividualTestRunData>)
    requires CursorOk(runs, cursor)
    ensures CursorOk(r, cursor)
    ensures cursor.None? || GinkgoTime(m.timeText).None? ==> r == runs
  {
    if cursor.None? then runs
    else
      var t := GinkgoTime(m.timeText);
      if t.None? then runs
      else
        var a := AttemptAt(runs, cursor.value);
        SetAttempt(runs, cursor.value, a.(endTime := t.value, duration := Sub(t.value, a.startTime), logs := a.logs + [line]))
  }

  /**
   * A failure line marks the current attempt FAILED; the line itself is not recorded. Go
   * dereferences a nil pointer when there is no current attempt; `SetIndividualTestsFromLog`
   * excludes that case by its precondition, and this step leaves the runs alone there.
   */
  function FailStep(runs: seq<IndividualTestRunData>, cursor: Option<Cursor>): (r: seq<IndividualTestRunData>)
    requires CursorOk(runs, cursor)
    ensures CursorOk(r, cursor)
  {
    if cursor.None? then runs
    else SetAttempt(runs, cursor.value, AttemptAt(runs, cursor.value).(status := EventStatus(Failed)))
  }

  /** `handleLogs`: any other line goes to the current attempt's logs; before the first Enter it is dropped. */
  function LogStep(runs: seq<IndividualTestRunData>, cursor: Option<Cursor>, line: string): (r: seq<IndividualTestRunData>)
    requires CursorOk(runs, cursor)
    ensures CursorOk(r, cursor)
    ensures cursor.None? ==> r == runs
  {
    if cursor.None? then runs
    else
      var a := AttemptAt(runs, cursor.value);
      SetAttempt(runs, cursor.value, a.(logs := a.logs + [line]))
  }

  /** The work the loop of `SetIndividualTestsFromLog` does for one line of class `kind`. */
  function Step(s: ParseState, line: string, kind: LineKind): (r: ParseState)
    requires CursorOk(s.runs, s.cursor)
    ensures CursorOk(r.runs, r.cursor)
    ensures r.cursor.Some? <==> s.cursor.Some? || kind.EnterLine?
  {
    match kind
    case EnterLine(m) => EnterStep(s.runs, s.attempts, line, m)
    case ExitLine(m) => s.(runs := ExitStep(s.runs, s.cursor, line, m))
    case FailureLine => s.(runs := FailStep(s.runs, s.cursor))
    case PlainLine => s.(runs := LogStep(s.runs, s.cursor, line))
  }

  /** Where `EnterStep` puts the new attempt, and what it leaves alone. */
  lemma {:induction false} EnterStepFacts(runs: seq<IndividualTestRunData>, m: EnterCaptures, runs1: seq<IndividualTestRunData>, r: nat,
                       a: AttemptData, runs2: seq<IndividualTestRunData>)
    requires runs1 == GetOrAdd(runs, m.fullName, m.shortName).0 && r == GetOrAdd(runs, m.fullName, m.shortName).1
    requires runs2 == runs1[r := runs1[r].(attempt := runs1[r].attempt + [a])]
    ensures var found := FindRun(runs, m.fullName);
      && r == (if found.Some? then found.value else |runs|)
      && |runs2| == (if found.Some? then |runs| else |runs| + 1)
    ensures runs2[r].name == m.fullName && (r == |runs| ==> runs2[r].shortName == m.shortName)
    ensures runs2[r].attempt[..|runs1[r].attempt|] == (if r < |runs| then runs[r].attempt else [])
    ensures forall t :: 0 <= t < |runs| ==>
      runs2[t].name == runs[t].name && runs2[t].shortName == runs[t].shortName
    ensures forall t :: 0 <= t < |runs| && t != r ==> runs2[t] == runs[t]
  {
    assert runs2[r].attempt[..|runs1[r].attempt|] == runs1[r].attempt;
    assert forall t :: 0 <= t < |runs| ==> runs1[t] == runs[t];
  }

  /** The class of every line, in order. */
  function Kinds(lines: seq<string>, tag: string): (kinds: seq<LineKind>)
    ensures |kinds| == |lines|
    ensures forall i :: 0 <= i < |lines| ==> kinds[i] == Classify(lines[i], tag)
  {
    seq(|lines|, i requires 0 <= i < |lines| => Classify(lines[i], tag))
  }

  /**
   * The state after the parser has read `lines`, of classes `kinds`, starting from the runs
   * `runs0`.
   */
  function RunFrom(runs0: seq<IndividualTestRunData>, lines: seq<string>, kinds: seq<LineKind>): (s: ParseState)
    requires |kinds| == |lines|
    ensures CursorOk(s.runs, s.cursor)
    decreases |lines|
  {
    if |lines| == 0 then Init(runs0)
    else
      var n := |lines| - 1;
      Step(RunFrom(runs0, lines[..n], kinds[..n]), lines[n], kinds[n])
  }

  /** The state after `SetIndividualTestsFromLog` has read the whole log `fullLogs`. */
  function ParseLog(runs0: seq<IndividualTestRunData>, fullLogs: string, tag: string): ParseState {
    var lines := Split(fullLogs, "\n");
    RunFrom(runs0, lines, Kinds(lines, tag))
  }

  /** One more line is one more step. */
  lemma RunFromSnoc(runs0: seq<IndividualTestRunData>, lines: seq<string>, kinds: seq<LineKind>, i: nat)
    requires |kinds| == |lines| && i < |lines|
    ensures RunFrom(runs0, lines[..i + 1], kinds[..i + 1]) == Step(RunFrom(runs0, lines[..i], kinds[..i]), lines[i], kinds[i])
  {
    var longer, longerKinds := lines[..i + 1], kinds[..i + 1];
    assert longer[..i] == lines[..i] && longer[i] == lines[i];
    assert longerKinds[..i] == kinds[..i] && longerKinds[i] == kinds[i];
  }

  /** There is a current attempt exactly when one of the lines read is an Enter line. */
  lemma {:induction false} CursorIffEnter(runs0: seq<IndividualTestRunData>, lines: seq<string>, kinds: seq<LineKind>)
    requires |kinds| == |lines|
    ensures RunFrom(runs0, lines, kinds).cursor.Some? <==> exists j :: 0 <= j < |kinds| && kinds[j].EnterLine?
    decreases |lines|
  {
    if |lines| > 0 {
      var n := |lines| - 1;
      var prefix := kinds[..n];
      CursorIffEnter(runs0, lines[..n], prefix);
      if RunFrom(runs0, lines[..n], prefix).cursor.Some? {
        var j :| 0 <= j < n && prefix[j].EnterLine?;
        assert kinds[j] == prefix[j];
      }
      if exists j :: 0 <= j < |kinds| && kinds[j].EnterLine? {
        var j :| 0 <= j < |kinds| && kinds[j].EnterLine?;
        if j < n {
          assert prefix[j] == kinds[j];
        }
      }
    }
  }

  /** No failure line comes before the first Enter line, so the parser never dereferences a nil attempt. */
  predicate NoOrphanFailure(kinds: seq<LineKind>) {
    forall i :: 0 <= i < |kinds| && kinds[i].FailureLine? ==> exists j :: 0 <= j < i && kinds[j].EnterLine?
  }

  /** Before a failure line of a log without orphan failures there is a current attempt. */
  lemma FailureHasAttempt(runs0: seq<IndividualTestRunData>, lines: seq<string>, kinds: seq<LineKind>, i: nat)
    requires |kinds| == |lines| && NoOrphanFailure(kinds) && i < |lines| && kinds[i].FailureLine?
    ensures RunFrom(runs0, lines[..i], kinds[..i]).cursor.Some?
  {
    var j :| 0 <= j < i && kinds[j].EnterLine?;
    assert kinds[..i][j] == kinds[j];
    CursorIffEnter(runs0, lines[..i], kinds[..i]);
  }

  /** The step for each class of line, as the parser's if/else chain takes it. */
  lemma StepByClass(s: ParseState, line: string, tag: string)
    requires CursorOk(s.runs, s.cursor)
    ensures EnterMatch(line, tag).Some? ==>
      Step(s, line, Classify(line, tag)) == EnterStep(s.runs, s.attempts, line, EnterMatch(line, tag).value)
    ensures EnterMatch(line, tag).None? && ExitMatch(line, tag).Some? ==>
      Step(s, line, Classify(line, tag)) == s.(runs := ExitStep(s.runs, s.cursor, line, ExitMatch(line, tag).value))
    ensures EnterMatch(line, tag).None? && ExitMatch(line, tag).None? && IsFailureLine(line) ==>
      Step(s, line, Classify(line, tag)) == s.(runs := FailStep(s.runs, s.cursor))
    ensures EnterMatch(line, tag).None? && ExitMatch(line, tag).None? && !IsFailureLine(line) ==>
      Step(s, line, Classify(line, tag)) == s.(runs := LogStep(s.runs, s.cursor, line))
  {
  }

  // ----- The imperative parser -----

  /** `getOrAddTestRun`: a scan of the test runs for the name, appending a new run when it is missing. */
  method GetOrAddTestRun(data: TestRunData, eventName: string, shortEventName: string) returns (index: nat)
    modifies data
    ensures (data.testRun, index) == GetOrAdd(old(data.testRun), eventName, shortEventName)
    ensures data.fullLogs == old(data.fullLogs)
  {
    var i := 0;
    while i < |data.testRun|
      invariant 0 <= i <= |data.testRun|
      invariant forall k :: 0 <= k < i ==> data.testRun[k].name != eventName
    {
      if data.testRun[i].name == eventName {
        return i;
      }
      i := i + 1;
    }
    data.testRun := data.testRun + [IndividualTestRunData(eventName, shortEventName, [])];
    return |data.testRun| - 1;
  }

  /** The parts `EnterStep` is made of, for the proof of `HandleStartTag`. */
  lemma EnterStepUnfold(runs: seq<IndividualTestRunData>, attempts: map<string, int>, line: string, m: EnterCaptures)
    ensures var (runs1, r) := GetOrAdd(runs, m.fullName, m.shortName);
      var a := NewAttempt(Count(attempts, m.fullName), m.fullName, line, m.timeText);
      EnterStep(runs, attempts, line, m) ==
        ParseState(runs1[r := runs1[r].(attempt := runs1[r].attempt + [a])], Bump(attempts, m.fullName), Some(Cursor(r, |runs1[r].attempt|)))
  {
  }

  /** The attempt `handleStartTag` appends: numbered, holding the Enter line, started at the parsed time. */
  method OpenAttempt(no: int, name: string, line: string, timeText: string) returns (a: AttemptData)
    ensures a == NewAttempt(no, name, line, timeText)
  {
    var logs: seq<string> := [];
    logs := logs + [line];
    var startTime := ZeroTime;
    var parsedTime, ok := ParseGingkoTime(timeText);
    if ok {
      startTime := parsedTime;
    }
    assert startTime == GinkgoTime(timeText).GetOr(ZeroTime);
    a := AttemptData(no, name, startTime, ZeroTime, 0, ZeroStatus, logs, []);
  }

  /**
   * `handleStartTag`: opens the attempt and returns its position and the updated counters. Go appends
   * the attempt first and then fills in its line and start time through a pointer to it; here the
   * attempt is filled in first and then appended, which stores the same value at the same place.
   */
  method HandleStartTag(data: TestRunData, line: string, matches: EnterCaptures, attempts: map<string, int>)
    returns (current: Cursor, attempts': map<string, int>)
    modifies data
    ensures ParseState(data.testRun, attempts', Some(current)) == EnterStep(old(data.testRun), attempts, line, matches)
    ensures data.fullLogs == old(data.fullLogs)
  {
    var eventName := matches.fullName;
    var shortEventName := matches.shortName;
    var r := GetOrAddTestRun(data, eventName, shortEventName);
    var runs := data.testRun;
    var newAttempt := OpenAttempt(Count(attempts, eventName), eventName, line, matches.timeText);
    attempts' := Bump(attempts, eventName);
    var run := runs[r];
    data.testRun := runs[r := run.(attempt := run.attempt + [newAttempt])];
    current := Cursor(r, |run.attempt|);
    EnterStepAt(old(data.testRun), attempts, line, matches, runs, r, newAttempt);
  }

  /** `EnterStep` in terms of the run `GetOrAdd` returns and the new attempt, named by the caller. */
  lemma EnterStepAt(runs0: seq<IndividualTestRunData>, attempts: map<string, int>, line: string, m: EnterCaptures,
                    runs: seq<IndividualTestRunData>, r: nat, a: AttemptData)
    requires (runs, r) == GetOrAdd(runs0, m.fullName, m.shortName)
    requires a == NewAttempt(Count(attempts, m.fullName), m.fullName, line, m.timeText)
    ensures r < |runs|
    ensures EnterStep(runs0, attempts, line, m) ==
      ParseState(runs[r := runs[r].(attempt := runs[r].attempt + [a])], Bump(attempts, m.fullName), Some(Cursor(r, |runs[r].attempt|)))
  {
    EnterStepUnfold(runs0, attempts, line, m);
  }

  /** `handleEndTag`: records the end of the current attempt, when there is one and its time parses. */
  method HandleEndTag(data: TestRunData, line: string, matches: ExitCaptures, current: Option<Cursor>)
    requires CursorOk(data.testRun, current)
    modifies data
    ensures data.testRun == ExitStep(old(data.testRun), current, line, matches)
    ensures data.fullLogs == old(data.fullLogs)
  {
    if current.Some? {
      var endTime, ok := ParseGingkoTime(matches.timeText);
      if !ok {
        return;
      }
      var a := AttemptAt(data.testRun, current.value);
      a := a.(endTime := endTime);
      a := a.(duration := Sub(endTime, a.startTime));
      a := a.(logs := a.logs + [line]);
      data.testRun := SetAttempt(data.testRun, current.value, a);
    }
  }

  /** `handleLogs`: appends the line to the current attempt. */
  method HandleLogs(data: TestRunData, line: string, current: Cursor)
    requires CursorOk(data.testRun, Some(current))
    modifies data
    ensures data.testRun == LogStep(old(data.testRun), Some(current), line)
    ensures data.fullLogs == old(data.fullLogs)
  {
    var a := AttemptAt(data.testRun, current);
    data.testRun := SetAttempt(data.testRun, current, a.(logs := a.logs + [line]));
  }

  /**
   * The body of the loop of `SetIndividualTestsFromLog` for one line: an Enter line, an Exit line,
   * a failure line or any other line, tested in that order.
   */
  method HandleLine(data: TestRunData, line: string, anchorTag: string, attempts: map<string, int>, currentAttempt: Option<Cursor>)
    returns (attempts': map<string, int>, currentAttempt': Option<Cursor>)
    requires CursorOk(data.testRun, currentAttempt)
    requires Classify(line, anchorTag).FailureLine? ==> currentAttempt.Some?
    modifies data
    ensures ParseState(data.testRun, attempts', currentAttempt') ==
      Step(ParseState(old(data.testRun), attempts, currentAttempt), line, Classify(line, anchorTag))
    ensures data.fullLogs == old(data.fullLogs)
  {
    StepByClass(ParseState(data.testRun, attempts, currentAttempt), line, anchorTag);
    attempts', currentAttempt' := attempts, currentAttempt;
    var startMatch := EnterMatch(line, anchorTag);
    if startMatch.Some? {
      var c;
      c, attempts' := HandleStartTag(data, line, startMatch.value, attempts);
      currentAttempt' := Some(c);
    } else {
      var endMatch := ExitMatch(line, anchorTag);
      if endMatch.Some? {
        HandleEndTag(data, line, endMatch.value, currentAttempt);
      } else if IsFailureLine(line) {
        var c := currentAttempt.value;
        var a := AttemptAt(data.testRun, c);
        data.testRun := SetAttempt(data.testRun, c, a.(status := EventStatus(Failed)));
      } else if currentAttempt.Some? {
        HandleLogs(data, line, currentAttempt.value);
      }
    }
  }

  /** The loop of `SetIndividualTestsFromLog`: each line in turn goes through the if/else chain. */
  method ParseLines(data: TestRunData, lines: seq<string>, anchorTag: string)
    requires NoOrphanFailure(Kinds(lines, anchorTag))
    modifies data
    ensures data.fullLogs == old(data.fullLogs)
    ensures data.testRun == RunFrom(old(data.testRun), lines, Kinds(lines, anchorTag)).runs
  {
    var attempts: map<string, int> := map[];
    ghost var kinds := Kinds(lines, anchorTag);
    var currentAttempt: Option<Cursor> := None;
    var i := 0;
    assert lines[..0] == [] && kinds[..0] == [];
    while i < |lines|
      invariant 0 <= i <= |lines|
      invariant data.fullLogs == old(data.fullLogs)
      invariant ParseState(data.testRun, attempts, currentAttempt) == RunFrom(old(data.testRun), lines[..i], kinds[..i])
    {
      RunFromSnoc(old(data.testRun), lines, kinds, i);
      if kinds[i].FailureLine? {
        FailureHasAttempt(old(data.testRun), lines, kinds, i);
      }
      attempts, currentAttempt := HandleLine(data, lines[i], anchorTag, attempts, currentAttempt);
      i := i + 1;
    }
    assert lines[..i] == lines && kinds[..i] == kinds;
  }

  /**
   * `SetIndividualTestsFromLog`: an error for a nil run or an empty log; otherwise the runs become
   * those the parser builds from the lines of the log, starting from the runs already present.
   */
  method SetIndividualTestsFromLog(data: TestRunData?, anchorTag: string) returns (err: Option<string>)
    requires data != null && data.fullLogs != "" ==> NoOrphanFailure(Kinds(Split(data.fullLogs, "\n"), anchorTag))
    modifies data
    ensures data == null ==> err == Some("testRunData is nil")
    ensures data != null && data.fullLogs == "" ==> err == Some("logs were not provided") && unchanged(data)
    ensures data != null && old(data.fullLogs) != "" ==>
      err.None? && data.fullLogs == old(data.fullLogs) &&
      data.testRun == ParseLog(old(data.testRun), data.fullLogs, anchorTag).runs
  {
    if data == null {
      return Some("testRunData is nil");
    }
    if data.fullLogs == "" {
      return Some("logs were not provided");
    }
    ParseLines(data, Split(data.fullLogs, "\n"), anchorTag);
    return None;
  }

  // ----- What the parser builds from an empty run -----

  /** An attempt as the parser builds it: numbered `no`, named after its run, no events, some lines. */
  predicate WellFormedAttempt(a: AttemptData, no: nat, name: string) {
    a.attemptNo == no && a.name == name && a.events == [] && |a.logs| >= 1
  }

  /** A test run as the parser builds it: at least one attempt, and attempt `a` is well formed as number `a`. */
  predicate WellFormedRun(run: IndividualTestRunData) {
    && |run.attempt| >= 1
    && forall a :: 0 <= a < |run.attempt| ==> WellFormedAttempt(run.attempt[a], a, run.name)
  }

  /**
   * The invariant of a parse that starts from no runs: the runs are well formed and have distinct
   * names, the counter of each name is the number of its attempts and no other name has a counter,
   * and a current attempt exists exactly when a run does.
   */
  predicate Valid(s: ParseState) {
    && CursorOk(s.runs, s.cursor)
    && (s.cursor.None? <==> s.runs == [])
    && (forall r1, r2 :: 0 <= r1 < r2 < |s.runs| ==> s.runs[r1].name != s.runs[r2].name)
    && (forall r :: 0 <= r < |s.runs| ==> WellFormedRun(s.runs[r]))
    && (forall r :: 0 <= r < |s.runs| ==> Count(s.attempts, s.runs[r].name) == |s.runs[r].attempt|)
    && (forall name :: name in s.attempts ==> FindRun(s.runs, name).Some?)
  }

  /** Replacing the current attempt by one that is well formed at the same place keeps the invariant. */
  lemma SetAttemptKeepsValid(s: ParseState, c: Cursor, a: AttemptData)
    requires Valid(s) && s.cursor == Some(c)
    requires WellFormedAttempt(a, c.attempt, s.runs[c.run].name)
    ensures Valid(s.(runs := SetAttempt(s.runs, c, a)))
  {
    var runs := SetAttempt(s.runs, c, a);
    forall name | name in s.attempts
      ensures FindRun(runs, name).Some?
    {
      SetAttemptFinds(s.runs, c, a, name);
    }
    forall r | 0 <= r < |runs|
      ensures WellFormedRun(runs[r])
    {
      SetAttemptRunWellFormed(s.runs, c, a, r);
    }
  }

  /** A name that is found before an attempt is replaced is found after it. */
  lemma SetAttemptFinds(runs: seq<IndividualTestRunData>, c: Cursor, a: AttemptData, name: string)
    requires c.run < |runs| && c.attempt < |runs[c.run].attempt| && FindRun(runs, name).Some?
    ensures FindRun(SetAttempt(runs, c, a), name).Some?
  {
    var r := FindRun(runs, name).value;
    assert SetAttempt(runs, c, a)[r].name == name;
  }

  /** Replacing an attempt by a well-formed one at the same place keeps every run well formed. */
  lemma SetAttemptRunWellFormed(runs: seq<IndividualTestRunData>, c: Cursor, a: AttemptData, r: nat)
    requires c.run < |runs| && c.attempt < |runs[c.run].attempt| && r < |runs|
    requires WellFormedRun(runs[r]) && WellFormedAttempt(a, c.attempt, runs[c.run].name)
    ensures WellFormedRun(SetAttempt(runs, c, a)[r])
  {
    var runs' := SetAttempt(runs, c, a);
    forall j | 0 <= j < |runs'[r].attempt|
      ensures WellFormedAttempt(runs'[r].attempt[j], j, runs'[r].name)
    {
      if r != c.run || j != c.attempt {
        assert runs'[r].attempt[j] == runs[r].attempt[j];
      }
    }
  }

  /** A failure, Exit or plain line keeps the invariant. */
  lemma NonEnterStepKeepsValid(s: ParseState, line: string, kind: LineKind)
    requires Valid(s) && !kind.EnterLine?
    ensures Valid(Step(s, line, kind))
  {
    if kind.ExitLine? {
      ExitKeepsValid(s, line, kind.exit);
    } else if kind.FailureLine? {
      FailKeepsValid(s);
    } else {
      LogKeepsValid(s, line);
    }
  }

  /** The current attempt of a valid state is well formed. */
  lemma CurrentWellFormed(s: ParseState, c: Cursor)
    requires Valid(s) && s.cursor == Some(c)
    ensures WellFormedAttempt(AttemptAt(s.runs, c), c.attempt, s.runs[c.run].name)
  {
    assert WellFormedRun(s.runs[c.run]);
  }

  /** An Exit line keeps the invariant. */
  lemma ExitKeepsValid(s: ParseState, line: string, m: ExitCaptures)
    requires Valid(s)
    ensures Valid(s.(runs := ExitStep(s.runs, s.cursor, line, m)))
  {
    if s.cursor.Some? && GinkgoTime(m.timeText).Some? {
      var c, t := s.cursor.value, GinkgoTime(m.timeText).value;
      var a := AttemptAt(s.runs, c);
      var a' := a.(endTime := t, duration := Sub(t, a.startTime), logs := a.logs + [line]);
      assert ExitStep(s.runs, s.cursor, line, m) == SetAttempt(s.runs, c, a');
      CurrentWellFormed(s, c);
      StillWellFormed(a, a', c.attempt, s.runs[c.run].name);
      SetAttemptKeepsValid(s, c, a');
    }
  }

  /** A failure line keeps the invariant. */
  lemma FailKeepsValid(s: ParseState)
    requires Valid(s)
    ensures Valid(s.(runs := FailStep(s.runs, s.cursor)))
  {
    if s.cursor.Some? {
      var c := s.cursor.value;
      var a := AttemptAt(s.runs, c);
      CurrentWellFormed(s, c);
      StillWellFormed(a, a.(status := EventStatus(Failed)), c.attempt, s.runs[c.run].name);
      SetAttemptKeepsValid(s, c, a.(status := EventStatus(Failed)));
    }
  }

  /** A plain line keeps the invariant. */
  lemma LogKeepsValid(s: ParseState, line: string)
    requires Valid(s)
    ensures Valid(s.(runs := LogStep(s.runs, s.cursor, line)))
  {
    if s.cursor.Some? {
      var c := s.cursor.value;
      var a := AttemptAt(s.runs, c);
      CurrentWellFormed(s, c);
      StillWellFormed(a, a.(logs := a.logs + [line]), c.attempt, s.runs[c.run].name);
      SetAttemptKeepsValid(s, c, a.(logs := a.logs + [line]));
    }
  }

  /** An update that keeps the number, the name and the events and drops no line keeps an attempt well formed. */
  lemma StillWellFormed(a: AttemptData, a': AttemptData, no: nat, name: string)
    requires WellFormedAttempt(a, no, name)
    requires a'.attemptNo == a.attemptNo && a'.name == a.name && a'.events == a.events && |a'.logs| >= |a.logs|
    ensures WellFormedAttempt(a', no, name)
  {
  }

  /** After appending a run under a new name, every name with a counter still has a run. */
  lemma AppendRunNamed(s: ParseState, run: IndividualTestRunData)
    requires forall name :: name in s.attempts ==> FindRun(s.runs, name).Some?
    ensures forall name :: name in Bump(s.attempts, run.name) ==> FindRun(s.runs + [run], name).Some?
  {
    var runs := s.runs + [run];
    forall name | name in Bump(s.attempts, run.name)
      ensures FindRun(runs, name).Some?
    {
      if name == run.name {
        assert runs[|s.runs|].name == name;
      } else {
        var r := FindRun(s.runs, name).value;
        assert runs[r].name == name;
      }
    }
  }

  /** After appending a run with one attempt under a new name, the counters match the runs. */
  lemma AppendRunCounts(s: ParseState, run: IndividualTestRunData)
    requires Valid(s) && FindRun(s.runs, run.name).None? && |run.attempt| == 1 && WellFormedRun(run)
    ensures forall r :: 0 <= r < |s.runs| + 1 ==>
      WellFormedRun((s.runs + [run])[r]) && Count(Bump(s.attempts, run.name), (s.runs + [run])[r].name) == |(s.runs + [run])[r].attempt|
  {
    var runs := s.runs + [run];
    var n := Bump(s.attempts, run.name);
    assert run.name !in s.attempts;
    forall r | 0 <= r < |runs|
      ensures WellFormedRun(runs[r]) && Count(n, runs[r].name) == |runs[r].attempt|
    {
      if r < |s.runs| {
        assert runs[r] == s.runs[r];
      }
    }
  }

  /** Appending a run under a new name keeps the names distinct. */
  lemma AppendRunDistinct(runs: seq<IndividualTestRunData>, run: IndividualTestRunData)
    requires forall r1, r2 :: 0 <= r1 < r2 < |runs| ==> runs[r1].name != runs[r2].name
    requires FindRun(runs, run.name).None?
    ensures forall r1, r2 :: 0 <= r1 < r2 < |runs + [run]| ==> (runs + [run])[r1].name != (runs + [run])[r2].name
  {
    var all := runs + [run];
    forall r1, r2 | 0 <= r1 < r2 < |all|
      ensures all[r1].name != all[r2].name
    {
      assert all[r1] == runs[r1];
      if r2 < |runs| {
        assert all[r2] == runs[r2];
      }
    }
  }

  /** Appending a new run with one well-formed attempt, under a new name, keeps the invariant. */
  lemma AppendRunKeepsValid(s: ParseState, run: IndividualTestRunData)
    requires Valid(s) && FindRun(s.runs, run.name).None?
    requires |run.attempt| == 1 && WellFormedRun(run)
    ensures Valid(ParseState(s.runs + [run], Bump(s.attempts, run.name), Some(Cursor(|s.runs|, 0))))
  {
    AppendRunNamed(s, run);
    AppendRunCounts(s, run);
    AppendRunDistinct(s.runs, run);
    var runs := s.runs + [run];
    assert runs[|s.runs|] == run;
  }

  /** Replacing the element just appended is appending the replacement. */
  lemma ReplaceAppended<T>(xs: seq<T>, y: T, z: T)
    ensures (xs + [y])[|xs| := z] == xs + [z]
  {
  }

  /** An Enter line of a name that has no run yet keeps the invariant. */
  lemma EnterNewKeepsValid(s: ParseState, line: string, m: EnterCaptures)
    requires Valid(s) && FindRun(s.runs, m.fullName).None?
    ensures Valid(Step(s, line, EnterLine(m)))
  {
    assert m.fullName !in s.attempts;
    var a := NewAttempt(0, m.fullName, line, m.timeText);
    var empty := IndividualTestRunData(m.fullName, m.shortName, []);
    var run := IndividualTestRunData(m.fullName, m.shortName, [a]);
    assert GetOrAdd(s.runs, m.fullName, m.shortName) == (s.runs + [empty], |s.runs|);
    EnterStepUnfold(s.runs, s.attempts, line, m);
    assert empty.(attempt := empty.attempt + [a]) == run;
    ReplaceAppended(s.runs, empty, run);
    assert Step(s, line, EnterLine(m)) == ParseState(s.runs + [run], Bump(s.attempts, m.fullName), Some(Cursor(|s.runs|, 0)));
    assert WellFormedAttempt(run.attempt[0], 0, run.name);
    AppendRunKeepsValid(s, run);
  }

  /** After a new attempt on run `r`, numbered after the earlier ones, the runs are well formed and the counters match. */
  lemma ExtendRunCounts(s: ParseState, r: nat, a: AttemptData)
    requires Valid(s) && r < |s.runs| && WellFormedAttempt(a, |s.runs[r].attempt|, s.runs[r].name)
    ensures var runs := s.runs[r := s.runs[r].(attempt := s.runs[r].attempt + [a])];
      forall k :: 0 <= k < |runs| ==>
        WellFormedRun(runs[k]) && Count(Bump(s.attempts, s.runs[r].name), runs[k].name) == |runs[k].attempt|
  {
    var run := s.runs[r];
    var runs := s.runs[r := run.(attempt := run.attempt + [a])];
    var n := Bump(s.attempts, run.name);
    assert WellFormedRun(run);
    forall k | 0 <= k < |runs|
      ensures WellFormedRun(runs[k]) && Count(n, runs[k].name) == |runs[k].attempt|
    {
      if k != r {
        assert runs[k] == s.runs[k];
        assert WellFormedRun(s.runs[k]);
      } else {
        forall j | 0 <= j < |runs[k].attempt|
          ensures WellFormedAttempt(runs[k].attempt[j], j, runs[k].name)
        {
          if j < |run.attempt| {
            assert runs[k].attempt[j] == run.attempt[j];
          }
        }
      }
    }
  }

  /** After a new attempt on run `r`, the names are unchanged and every name with a counter has a run. */
  lemma ExtendRunNamed(s: ParseState, r: nat, a: AttemptData)
    requires Valid(s) && r < |s.runs|
    ensures var runs := s.runs[r := s.runs[r].(attempt := s.runs[r].attempt + [a])];
      && (forall k :: 0 <= k < |runs| ==> runs[k].name == s.runs[k].name)
      && (forall name :: name in Bump(s.attempts, s.runs[r].name) ==> FindRun(runs, name).Some?)
  {
    var runs := s.runs[r := s.runs[r].(attempt := s.runs[r].attempt + [a])];
    forall name | name in Bump(s.attempts, s.runs[r].name)
      ensures FindRun(runs, name).Some?
    {
      if name == s.runs[r].name {
        assert runs[r].name == name;
      } else {
        var k := FindRun(s.runs, name).value;
        assert runs[k].name == name;
      }
    }
  }

  /** An Enter line of a name that already has a run keeps the invariant. */
  lemma EnterExistingKeepsValid(s: ParseState, line: string, m: EnterCaptures)
    requires Valid(s) && FindRun(s.runs, m.fullName).Some?
    ensures Valid(Step(s, line, EnterLine(m)))
  {
    var r := FindRun(s.runs, m.fullName).value;
    var run := s.runs[r];
    var no := |run.attempt|;
    var a := NewAttempt(no, m.fullName, line, m.timeText);
    var runs := s.runs[r := run.(attempt := run.attempt + [a])];
    assert GetOrAdd(s.runs, m.fullName, m.shortName) == (s.runs, r);
    EnterStepUnfold(s.runs, s.attempts, line, m);
    assert Step(s, line, EnterLine(m)) == ParseState(runs, Bump(s.attempts, m.fullName), Some(Cursor(r, no)));
    ExtendRunCounts(s, r, a);
    ExtendRunNamed(s, r, a);
  }

  /** Every line keeps the invariant. */
  lemma StepKeepsValid(s: ParseState, line: string, kind: LineKind)
    requires Valid(s)
    ensures Valid(Step(s, line, kind))
  {
    match kind
    case EnterLine(m) =>
      if FindRun(s.runs, m.fullName).Some? {
        EnterExistingKeepsValid(s, line, m);
      } else {
        EnterNewKeepsValid(s, line, m);
      }
    case _ =>
      NonEnterStepKeepsValid(s, line, kind);
  }

  /** A parse that starts from no runs keeps the invariant at every line. */
  lemma {:induction false} RunValid(lines: seq<string>, kinds: seq<LineKind>)
    requires |kinds| == |lines|
    ensures Valid(RunFrom([], lines, kinds))
    decreases |lines|
  {
    if |lines| > 0 {
      var n := |lines| - 1;
      var prev := RunFrom([], lines[..n], kinds[..n]);
      assert RunFrom([], lines, kinds) == Step(prev, lines[n], kinds[n]);
      RunValid(lines[..n], kinds[..n]);
      StepKeepsValid(prev, lines[n], kinds[n]);
    }
  }

  // ----- What each line contributes -----

  /**
   * A line that is not an Enter line changes at most the current attempt: the counters, the
   * cursor, the names and the number of attempts stay. An Exit line whose time parses sets the
   * end time and the duration and records the line; a failure line marks the attempt FAILED
   * without recording the line; a plain line is recorded; without a current attempt nothing changes.
   */
  lemma NonEnterStepEffect(s: ParseState, line: string, kind: LineKind)
    requires CursorOk(s.runs, s.cursor) && !kind.EnterLine?
    ensures var r := Step(s, line, kind);
      && r.attempts == s.attempts && r.cursor == s.cursor && |r.runs| == |s.runs|
      && (forall k :: 0 <= k < |r.runs| ==>
            r.runs[k].name == s.runs[k].name && r.runs[k].shortName == s.runs[k].shortName &&
            |r.runs[k].attempt| == |s.runs[k].attempt|)
      && (forall k, j ::
            (0 <= k < |r.runs| && 0 <= j < |r.runs[k].attempt| &&
             (s.cursor.None? || k != s.cursor.value.run || j != s.cursor.value.attempt)) ==>
            r.runs[k].attempt[j] == s.runs[k].attempt[j])
    ensures s.cursor.Some? ==>
      var c := s.cursor.value;
      var a, b := AttemptAt(s.runs, c), AttemptAt(Step(s, line, kind).runs, c);
      && (kind.PlainLine? ==> b == a.(logs := a.logs + [line]))
      && (kind.FailureLine? ==> b == a.(status := EventStatus(Failed)))
      && (kind.ExitLine? && GinkgoTime(kind.exit.timeText).Some? ==>
            var t := GinkgoTime(kind.exit.timeText).value;
            b == a.(endTime := t, duration := Sub(t, a.startTime), logs := a.logs + [line]))
      && (kind.ExitLine? && GinkgoTime(kind.exit.timeText).None? ==> b == a)
  {
  }

  /** The number of Enter lines of the test named `name`. */
  function EnterCount(kinds: seq<LineKind>, name: string): (n: nat)
    ensures n <= |kinds|
  {
    if |kinds| == 0 then 0
    else
      var last := kinds[|kinds| - 1];
      EnterCount(kinds[..|kinds| - 1], name) + (if last.EnterLine? && last.enter.fullName == name then 1 else 0)
  }

  /** Only an Enter line moves a counter, and only that of its own full name, by one. */
  lemma StepCount(s: ParseState, line: string, kind: LineKind, name: string)
    requires CursorOk(s.runs, s.cursor)
    ensures Count(Step(s, line, kind).attempts, name) ==
      Count(s.attempts, name) + (if kind.EnterLine? && kind.enter.fullName == name then 1 else 0)
  {
    if kind.EnterLine? {
      assert Step(s, line, kind).attempts == Bump(s.attempts, kind.enter.fullName);
    } else {
      assert Step(s, line, kind).attempts == s.attempts;
    }
  }

  /** The counter of a name is the number of its Enter lines read so far. */
  lemma {:induction false} CountIsEnterCount(runs0: seq<IndividualTestRunData>, lines: seq<string>, kinds: seq<LineKind>, name: string)
    requires |kinds| == |lines|
    ensures Count(RunFrom(runs0, lines, kinds).attempts, name) == EnterCount(kinds, name)
    decreases |lines|
  {
    if |lines| > 0 {
      var n := |lines| - 1;
      var prev := RunFrom(runs0, lines[..n], kinds[..n]);
      assert RunFrom(runs0, lines, kinds) == Step(prev, lines[n], kinds[n]);
      assert EnterCount(kinds, name) ==
        EnterCount(kinds[..n], name) + (if kinds[n].EnterLine? && kinds[n].enter.fullName == name then 1 else 0);
      CountIsEnterCount(runs0, lines[..n], kinds[..n], name);
      StepCount(prev, lines[n], kinds[n], name);
    }
  }

  /** From no runs, each test run holds one attempt per Enter line of its name. */
  lemma AttemptsPerEnter(lines: seq<string>, kinds: seq<LineKind>)
    requires |kinds| == |lines|
    ensures var runs := RunFrom([], lines, kinds).runs;
      forall k :: 0 <= k < |runs| ==> |runs[k].attempt| == EnterCount(kinds, runs[k].name)
  {
    var s := RunFrom([], lines, kinds);
    RunValid(lines, kinds);
    forall k | 0 <= k < |s.runs|
      ensures |s.runs[k].attempt| == EnterCount(kinds, s.runs[k].name)
    {
      CountIsEnterCount([], lines, kinds, s.runs[k].name);
    }
  }

  /** The (full name, short name) of each test run, in order. */
  function Keys(runs: seq<IndividualTestRunData>): (keys: seq<(string, string)>)
    ensures |keys| == |runs|
    ensures forall k :: 0 <= k < |runs| ==> keys[k] == (runs[k].name, runs[k].shortName)
  {
    seq(|runs|, k requires 0 <= k < |runs| => (runs[k].name, runs[k].shortName))
  }

  /** Some key carries the full name `name`. */
  predicate Seen(keys: seq<(string, string)>, name: string) {
    exists k :: 0 <= k < |keys| && keys[k].0 == name
  }

  /**
   * The keys after the Enter lines of `kinds`: each full name not seen before is added with the
   * short name of its first Enter line.
   */
  function AddKeys(keys0: seq<(string, string)>, kinds: seq<LineKind>): seq<(string, string)> {
    if |kinds| == 0 then keys0
    else
      var prev := AddKeys(keys0, kinds[..|kinds| - 1]);
      var last := kinds[|kinds| - 1];
      if last.EnterLine? && !Seen(prev, last.enter.fullName) then prev + [(last.enter.fullName, last.enter.shortName)]
      else prev
  }

  /** A name is seen among the keys exactly when a test run has it. */
  lemma SeenIffFound(runs: seq<IndividualTestRunData>, name: string)
    ensures Seen(Keys(runs), name) <==> FindRun(runs, name).Some?
  {
    if Seen(Keys(runs), name) {
      var k :| 0 <= k < |runs| && Keys(runs)[k].0 == name;
      assert runs[k].name == name;
    }
    if FindRun(runs, name).Some? {
      assert Keys(runs)[FindRun(runs, name).value].0 == name;
    }
  }

  /** Replacing a run by one of the same names keeps the keys. */
  lemma ReplaceRunKeys(runs: seq<IndividualTestRunData>, r: nat, run: IndividualTestRunData)
    requires r < |runs| && run.name == runs[r].name && run.shortName == runs[r].shortName
    ensures Keys(runs[r := run]) == Keys(runs)
  {
    assert forall k :: 0 <= k < |runs| ==> Keys(runs[r := run])[k] == Keys(runs)[k];
  }

  /** An Enter line adds a key exactly when its full name has no run yet. */
  lemma EnterStepKeys(s: ParseState, line: string, m: EnterCaptures)
    ensures Keys(EnterStep(s.runs, s.attempts, line, m).runs) ==
      if Seen(Keys(s.runs), m.fullName) then Keys(s.runs) else Keys(s.runs) + [(m.fullName, m.shortName)]
  {
    SeenIffFound(s.runs, m.fullName);
    EnterKeepsAddedKeys(s.runs, s.attempts, line, m);
    GetOrAddKeys(s.runs, m.fullName, m.shortName);
  }

  /** Appending the attempt does not change the keys `getOrAddTestRun` leaves. */
  lemma EnterKeepsAddedKeys(runs: seq<IndividualTestRunData>, attempts: map<string, int>, line: string, m: EnterCaptures)
    ensures Keys(EnterStep(runs, attempts, line, m).runs) == Keys(GetOrAdd(runs, m.fullName, m.shortName).0)
  {
    EnterStepUnfold(runs, attempts, line, m);
    var g := GetOrAdd(runs, m.fullName, m.shortName);
    var a := NewAttempt(Count(attempts, m.fullName), m.fullName, line, m.timeText);
    ReplaceRunKeys(g.0, g.1, g.0[g.1].(attempt := g.0[g.1].attempt + [a]));
  }

  /** `getOrAddTestRun` adds (full name, short name) to the keys exactly when no run has the full name. */
  lemma GetOrAddKeys(runs: seq<IndividualTestRunData>, name: string, shortName: string)
    ensures Keys(GetOrAdd(runs, name, shortName).0) ==
      if FindRun(runs, name).Some? then Keys(runs) else Keys(runs) + [(name, shortName)]
  {
    if FindRun(runs, name).None? {
      var runs' := runs + [IndividualTestRunData(name, shortName, [])];
      assert forall k :: 0 <= k < |runs'| ==> Keys(runs')[k] == (Keys(runs) + [(name, shortName)])[k];
    }
  }

  /**
   * The test runs keep the runs already present, in order, followed by one run per full name
   * first seen in an Enter line, in the order of first appearance, with the short name of that line.
   */
  lemma {:induction false} RunKeys(runs0: seq<IndividualTestRunData>, lines: seq<string>, kinds: seq<LineKind>)
    requires |kinds| == |lines|
    ensures Keys(RunFrom(runs0, lines, kinds).runs) == AddKeys(Keys(runs0), kinds)
    decreases |lines|
  {
    if |lines| > 0 {
      var n := |lines| - 1;
      var prev := RunFrom(runs0, lines[..n], kinds[..n]);
      assert RunFrom(runs0, lines, kinds) == Step(prev, lines[n], kinds[n]);
      RunKeys(runs0, lines[..n], kinds[..n]);
      match kinds[n]
      case EnterLine(m) =>
        EnterStepKeys(prev, lines[n], m);
      case _ =>
        NonEnterStepEffect(prev, lines[n], kinds[n]);
        assert Keys(Step(prev, lines[n], kinds[n]).runs) == Keys(prev.runs);
    }
  }

  /** A log that ends in a newline ends in an empty line, which goes to the current attempt's logs. */
  lemma TrailingNewline(runs0: seq<IndividualTestRunData>, fullLogs: string, tag: string)
    requires EndsWith(fullLogs, "\n")
    ensures var lines := Split(fullLogs, "\n");
      var n := |lines| - 1;
      var prev := RunFrom(runs0, lines[..n], Kinds(lines, tag)[..n]);
      ParseLog(runs0, fullLogs, tag) == prev.(runs := LogStep(prev.runs, prev.cursor, ""))
  {
    var lines := Split(fullLogs, "\n");
    SplitTrailingSeparator(fullLogs, "\n");
    LastEmptyLine(runs0, lines, tag);
    assert ParseLog(runs0, fullLogs, tag) == RunFrom(runs0, lines, Kinds(lines, tag));
  }

  /** When the last line is empty, the last step hands "" to the current attempt as a plain line. */
  lemma LastEmptyLine(runs0: seq<IndividualTestRunData>, lines: seq<string>, tag: string)
    requires |lines| > 0 && lines[|lines| - 1] == ""
    ensures var n := |lines| - 1;
      var prev := RunFrom(runs0, lines[..n], Kinds(lines, tag)[..n]);
      RunFrom(runs0, lines, Kinds(lines, tag)) == prev.(runs := LogStep(prev.runs, prev.cursor, ""))
  {
    var kinds := Kinds(lines, tag);
    EmptyLineIsPlain(tag);
    assert kinds[|lines| - 1] == PlainLine;
  }
}

/**
 * The per-test summary that `PrintTestSummary` tabulates and the failed-attempt report that the
 * demystifier's `main` logs, computed from the parsed test runs.
 */
module Summary {
  import opened GoTime
  import opened Model

  /** One row of the summary table. */
  datatype TestSummary = TestSummary(
    name: string,
    numAttempts: int,
    numFailed: int,
    totalRunTime: Duration,
    numOver1Second: int,
    averageRunTime: Duration)

  /** The attempt's status is FAILED. */
  predicate IsFailed(a: AttemptData) {
    a.status.status == Failed
  }

  /** The attempt ran for strictly more than one second. */
  predicate IsLong(a: AttemptData) {
    a.duration > Second
  }

  /** The number of attempts that satisfy `p`. */
  function CountIf(attempts: seq<AttemptData>, p: AttemptData -> bool): (n: nat)
    ensures n <= |attempts|
  {
    if |attempts| == 0 then 0
    else CountIf(attempts[..|attempts| - 1], p) + (if p(attempts[|attempts| - 1]) then 1 else 0)
  }

  /** The exact sum of the attempts' durations. */
  function SumDurations(attempts: seq<AttemptData>): int {
    if |attempts| == 0 then 0
    else SumDurations(attempts[..|attempts| - 1]) + attempts[|attempts| - 1].duration
  }

  /** `totalRunTime += thisAttempt.Duration` over the attempts, with int64 wrap-around at each addition. */
  function TotalRunTime(attempts: seq<AttemptData>): (d: Duration)
    ensures IsInt64(d)
  {
    if |attempts| == 0 then 0
    else Wrap64(TotalRunTime(attempts[..|attempts| - 1]) + attempts[|attempts| - 1].duration)
  }

  /** The average over the long attempts, truncated toward zero, or 0 when there are none. */
  function Average(total: Duration, numLong: int): Duration {
    if numLong > 0 then Quot(total, numLong) else 0
  }

  /** The summary row of one test run. */
  function Summarize(run: IndividualTestRunData): (s: TestSummary)
    ensures s.name == run.shortName && s.numAttempts == |run.attempt|
    ensures 0 <= s.numFailed <= s.numAttempts && 0 <= s.numOver1Second <= s.numAttempts
    ensures s.numFailed == |Matching(run.attempt, IsFailed)|
    ensures s.numOver1Second == |Matching(run.attempt, IsLong)|
    ensures s.totalRunTime == Wrap64(SumDurations(run.attempt))
    ensures s.numOver1Second == 0 ==> s.averageRunTime == 0
    ensures s.numOver1Second > 0 ==> s.averageRunTime == Quot(s.totalRunTime, s.numOver1Second)
  {
    CountIfIsCardinality(run.attempt, IsFailed);
    CountIfIsCardinality(run.attempt, IsLong);
    TotalIsWrappedSum(run.attempt);
    var total := TotalRunTime(run.attempt);
    var numLong := CountIf(run.attempt, IsLong);
    TestSummary(run.shortName, |run.attempt|, CountIf(run.attempt, IsFailed), total, numLong, Average(total, numLong))
  }

  /** One summary per test run, in the order of the runs. */
  function Summaries(runs: seq<IndividualTestRunData>): (r: seq<TestSummary>)
    ensures |r| == |runs|
    ensures forall k :: 0 <= k < |runs| ==> r[k] == Summarize(runs[k])
  {
    seq(|runs|, k requires 0 <= k < |runs| => Summarize(runs[k]))
  }

  // ----- What the counters mean -----

  /** The positions whose attempt satisfies `p`. */
  function Matching(attempts: seq<AttemptData>, p: AttemptData -> bool): set<nat> {
    set i: nat | i < |attempts| && p(attempts[i])
  }

  /** The count is the number of positions whose attempt satisfies `p`. */
  lemma {:induction false} CountIfIsCardinality(attempts: seq<AttemptData>, p: AttemptData -> bool)
    ensures CountIf(attempts, p) == |Matching(attempts, p)|
  {
    if |attempts| > 0 {
      CountIfIsCardinality(attempts[..|attempts| - 1], p);
      MatchingSnoc(attempts, p);
    }
  }

  /** One more attempt adds its position to the matching ones exactly when it satisfies `p`. */
  lemma MatchingSnoc(attempts: seq<AttemptData>, p: AttemptData -> bool)
    requires |attempts| > 0
    ensures var n := |attempts| - 1;
      |Matching(attempts, p)| == |Matching(attempts[..n], p)| + (if p(attempts[n]) then 1 else 0)
  {
    var n := |attempts| - 1;
    var prefix := attempts[..n];
    var before := Matching(prefix, p);
    assert before == set i: nat | i < n && p(attempts[i]);
    if p(attempts[n]) {
      assert Matching(attempts, p) == before + {n};
    } else {
      assert Matching(attempts, p) == before;
    }
  }

  /** Wrapping after every addition is wrapping once at the end. */
  lemma WrapAdd(x: int, y: int)
    ensures Wrap64(Wrap64(x) + y) == Wrap64(x + y)
  {
    var m := 0x1_0000_0000_0000_0000;
    var a := Wrap64(x);
    var r1, r2 := Wrap64(a + y), Wrap64(x + y);
    var k0, k1, k2 := (a - x) / m, (r1 - (a + y)) / m, (r2 - (x + y)) / m;
    assert a - x == k0 * m;
    assert r1 - (a + y) == k1 * m;
    assert r2 - (x + y) == k2 * m;
    assert r1 - r2 == (k0 + k1 - k2) * m;
  }

  /**
   * The total run time is the exact sum of all durations, long or not, wrapped into the int64
   * range; in particular it is the exact sum whenever that fits.
   */
  lemma {:induction false} TotalIsWrappedSum(attempts: seq<AttemptData>)
    ensures TotalRunTime(attempts) == Wrap64(SumDurations(attempts))
    ensures IsInt64(SumDurations(attempts)) ==> TotalRunTime(attempts) == SumDurations(attempts)
  {
    if |attempts| > 0 {
      var n := |attempts| - 1;
      TotalIsWrappedSum(attempts[..n]);
      WrapAdd(SumDurations(attempts[..n]), attempts[n].duration);
    }
  }

  /**
   * With some long attempts, the average times their number brackets the total: from below when
   * the total is non-negative, from above when it is negative (the quotient truncates toward zero).
   */
  lemma AverageBrackets(run: IndividualTestRunData)
    requires CountIf(run.attempt, IsLong) > 0
    ensures var s := Summarize(run);
      s.totalRunTime >= 0 ==>
        s.averageRunTime * s.numOver1Second <= s.totalRunTime < (s.averageRunTime + 1) * s.numOver1Second
    ensures var s := Summarize(run);
      s.totalRunTime < 0 ==>
        (s.averageRunTime - 1) * s.numOver1Second < s.totalRunTime <= s.averageRunTime * s.numOver1Second
  {
  }

  // ----- The loops -----

  /**
   * The collecting loop of `PrintTestSummary`: for each test run, in order, one pass over its
   * attempts counts them, the failed ones and the long ones, and adds up the durations.
   */
  method CollectSummaries(data: TestRunData) returns (summaries: seq<TestSummary>)
    ensures summaries == Summaries(data.testRun)
  {
    var runs := data.testRun;
    summaries := [];
    var i := 0;
    while i < |runs|
      invariant 0 <= i <= |runs|
      invariant summaries == Summaries(runs[..i])
    {
      var attempts := runs[i].attempt;
      var numAttempts, failedAttempts, numOver1Second := 0, 0, 0;
      var totalRunTime: Duration := 0;
      var j := 0;
      while j < |attempts|
        invariant 0 <= j <= |attempts|
        invariant numAttempts == j
        invariant failedAttempts == CountIf(attempts[..j], IsFailed)
        invariant numOver1Second == CountIf(attempts[..j], IsLong)
        invariant totalRunTime == TotalRunTime(attempts[..j])
      {
        assert attempts[..j + 1][..j] == attempts[..j];
        numAttempts := numAttempts + 1;
        var thisAttempt := attempts[j];
        if thisAttempt.status.status == Failed {
          failedAttempts := failedAttempts + 1;
        }
        if thisAttempt.duration > Second {
          numOver1Second := numOver1Second + 1;
        }
        totalRunTime := Wrap64(totalRunTime + thisAttempt.duration);
        j := j + 1;
      }
      assert attempts[..j] == attempts;
      var averageRunTime: Duration := 0;
      if numOver1Second > 0 {
        averageRunTime := Quot(totalRunTime, numOver1Second);
      }
      summaries := summaries + [TestSummary(runs[i].shortName, numAttempts, failedAttempts, totalRunTime, numOver1Second, averageRunTime)];
      assert summaries == Summaries(runs[..i + 1]);
      i := i + 1;
    }
    assert runs[..i] == runs;
  }

  /** The rows are in non-decreasing order of average run time. */
  predicate SortedByAverage(s: seq<TestSummary>) {
    forall k, l :: 0 <= k < l < |s| ==> s[k].averageRunTime <= s[l].averageRunTime
  }

  /** Exchanges the rows at `j - 1` and `j`. */
  method SwapDown(a: array<TestSummary>, j: nat)
    requires 0 < j < a.Length
    modifies a
    ensures a[j - 1] == old(a[j]) && a[j] == old(a[j - 1])
    ensures forall k :: 0 <= k < a.Length && k != j - 1 && k != j ==> a[k] == old(a[k])
    ensures multiset(a[..]) == multiset(old(a[..]))
  {
    a[j - 1], a[j] := a[j], a[j - 1];
  }

  /** One insertion step: the row at `i` moves left past the rows with a larger average. */
  method InsertAt(a: array<TestSummary>, i: nat)
    requires i < a.Length && SortedByAverage(a[..i])
    modifies a
    ensures SortedByAverage(a[..i + 1])
    ensures multiset(a[..]) == multiset(old(a[..]))
  {
    var j := i;
    while j > 0 && a[j - 1].averageRunTime > a[j].averageRunTime
      invariant 0 <= j <= i
      invariant multiset(a[..]) == multiset(old(a[..]))
      invariant forall k, l :: 0 <= k < l <= i && k != j && l != j ==> a[k].averageRunTime <= a[l].averageRunTime
      invariant forall l :: j < l <= i ==> a[j].averageRunTime <= a[l].averageRunTime
    {
      SwapDown(a, j);
      j := j - 1;
    }
  }

  /**
   * `sort.Slice` by average run time, as an insertion sort. `sort.Slice` is not stable, so only the
   * order of the averages and the permutation are promised, not the order of rows with equal averages.
   */
  method SortByAverage(a: array<TestSummary>)
    modifies a
    ensures SortedByAverage(a[..])
    ensures multiset(a[..]) == multiset(old(a[..]))
  {
    var i := 0;
    while i < a.Length
      invariant 0 <= i <= a.Length
      invariant SortedByAverage(a[..i])
      invariant multiset(a[..]) == multiset(old(a[..]))
    {
      InsertAt(a, i);
      i := i + 1;
    }
    assert a[..i] == a[..];
  }

  /**
   * `PrintTestSummary` without the printing: the summary rows of all test runs, sorted by average
   * run time. The rows are exactly those of the runs, each once.
   */
  method PrintTestSummary(data: TestRunData) returns (table: seq<TestSummary>)
    ensures SortedByAverage(table)
    ensures multiset(table) == multiset(Summaries(data.testRun))
  {
    var summaries := CollectSummaries(data);
    var a := new TestSummary[|summaries|](k requires 0 <= k < |summaries| => summaries[k]);
    assert a[..] == summaries;
    SortByAverage(a);
    table := a[..];
  }

  // ----- The failure report of `main` -----

  /** The ("Test Summary") entries `main` logs: the full name and failed count of each run with failures. */
  function FailureReport(runs: seq<IndividualTestRunData>): seq<(string, int)> {
    if |runs| == 0 then []
    else
      var last := runs[|runs| - 1];
      var failed := CountIf(last.attempt, IsFailed);
      FailureReport(runs[..|runs| - 1]) + (if failed > 0 then [(last.name, failed)] else [])
  }

  /** The failed-attempt loop of `main`: a count per run, and an entry when it is positive. */
  method ReportFailures(data: TestRunData) returns (report: seq<(string, int)>)
    ensures report == FailureReport(data.testRun)
  {
    var runs := data.testRun;
    report := [];
    var i := 0;
    while i < |runs|
      invariant 0 <= i <= |runs|
      invariant report == FailureReport(runs[..i])
    {
      var attempts := runs[i].attempt;
      var failedAttempts := 0;
      var j := 0;
      while j < |attempts|
        invariant 0 <= j <= |attempts|
        invariant failedAttempts == CountIf(attempts[..j], IsFailed)
      {
        assert attempts[..j + 1][..j] == attempts[..j];
        if attempts[j].status.status == Failed {
          failedAttempts := failedAttempts + 1;
        }
        j := j + 1;
      }
      assert attempts[..j] == attempts;
      if failedAttempts > 0 {
        report := report + [(runs[i].name, failedAttempts)];
      }
      assert runs[..i + 1][..i] == runs[..i];
      i := i + 1;
    }
    assert runs[..i] == runs;
  }

  /**
   * The report holds an entry for every run with a failed attempt, carrying its summary's failed
   * count, and no other entries: each entry names a run whose summary has that positive count.
   */
  lemma FailureReportMatchesSummaries(runs: seq<IndividualTestRunData>)
    ensures forall k :: 0 <= k < |runs| && Summarize(runs[k]).numFailed > 0 ==>
      (runs[k].name, Summarize(runs[k]).numFailed) in FailureReport(runs)
    ensures forall e :: e in FailureReport(runs) ==>
      e.1 > 0 && exists k :: 0 <= k < |runs| && runs[k].name == e.0 && Summarize(runs[k]).numFailed == e.1
  {
    FailureReportCovers(runs);
    FailureReportSound(runs);
  }

  /** Every run with a failed attempt has its entry. */
  lemma {:induction false} FailureReportCovers(runs: seq<IndividualTestRunData>)
    ensures forall k :: 0 <= k < |runs| && Summarize(runs[k]).numFailed > 0 ==>
      (runs[k].name, Summarize(runs[k]).numFailed) in FailureReport(runs)
  {
    if |runs| > 0 {
      var n := |runs| - 1;
      var prefix := runs[..n];
      FailureReportCovers(prefix);
      ReportSnoc(runs);
      forall k | 0 <= k < |runs| && Summarize(runs[k]).numFailed > 0
        ensures (runs[k].name, Summarize(runs[k]).numFailed) in FailureReport(runs)
      {
        if k < n {
          assert prefix[k] == runs[k];
        }
      }
    }
  }

  /** Each entry names a run whose summary has that positive failed count. */
  lemma {:induction false} FailureReportSound(runs: seq<IndividualTestRunData>)
    ensures forall e :: e in FailureReport(runs) ==>
      e.1 > 0 && exists k :: 0 <= k < |runs| && runs[k].name == e.0 && Summarize(runs[k]).numFailed == e.1
  {
    if |runs| > 0 {
      var n := |runs| - 1;
      var prefix := runs[..n];
      FailureReportSound(prefix);
      ReportSnoc(runs);
      forall e | e in FailureReport(runs)
        ensures e.1 > 0 && exists k :: 0 <= k < |runs| && runs[k].name == e.0 && Summarize(runs[k]).numFailed == e.1
      {
        if e in FailureReport(prefix) {
          var k :| 0 <= k < n && prefix[k].name == e.0 && Summarize(prefix[k]).numFailed == e.1;
          ReportedRun(runs, k, e);
        } else {
          ReportedRun(runs, n, e);
        }
      }
    }
  }

  /** The report of one more run is the report of the others, then its entry if it has failures. */
  lemma ReportSnoc(runs: seq<IndividualTestRunData>)
    requires |runs| > 0
    ensures var last := runs[|runs| - 1];
      FailureReport(runs) == FailureReport(runs[..|runs| - 1]) +
        (if Summarize(last).numFailed > 0 then [(last.name, Summarize(last).numFailed)] else [])
  {
  }

  /** Run `k` witnesses the entry `e` when it carries its name and failed count. */
  lemma ReportedRun(runs: seq<IndividualTestRunData>, k: nat, e: (string, int))
    requires k < |runs| && runs[k].name == e.0 && Summarize(runs[k]).numFailed == e.1
    ensures exists k :: 0 <= k < |runs| && runs[k].name == e.0 && Summarize(runs[k]).numFailed == e.1
  {
  }
}

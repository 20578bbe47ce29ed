/**
 * The result model of the log parser: a run holds the full log text and one entry per distinct
 * test name; each entry holds the attempts of that test; each attempt its times, status and lines.
 *
 * Go's EventStatus, EventData, AttemptData and IndividualTestRunData are value structs stored inline
 * in slices, so they are datatypes here. TestRunData is handed around by pointer (and may be nil),
 * so it is a class whose fields the parser reassigns.
 */
module Model {
  import opened GoTime

  const Failed: string := "FAILED"
  const Passed: string := "PASSED"
  const Timeout: string := "TIMEOUT"

  /**
   * The status of an attempt or event. Go's pointer-receiver setters overwrite the one field in
   * place; here each returns the updated value, so `s.SetFailed()` in Go is `s := s.SetFailed()`.
   */
  datatype EventStatus = EventStatus(status: string) {

    function SetFailed(): (r: EventStatus)
      ensures r.status == Failed
    {
      this.(status := Failed)
    }

    function SetPassing(): (r: EventStatus)
      ensures r.status == Passed
    {
      this.(status := Passed)
    }

    function SetTimeout(): (r: EventStatus)
      ensures r.status == Timeout
    {
      this.(status := Timeout)
    }
  }

  /** The zero value of EventStatus, which every new attempt starts with. */
  const ZeroStatus := EventStatus("")

  /** A sub-phase of an attempt, such as a backup or a restore. */
  datatype EventData = EventData(
    name: string,
    startTime: Time,
    endTime: Time,
    duration: Duration,
    status: EventStatus,
    logs: seq<string>)

  /** One execution of a test. */
  datatype AttemptData = AttemptData(
    attemptNo: int,
    name: string,
    startTime: Time,
    endTime: Time,
    duration: Duration,
    status: EventStatus,
    logs: seq<string>,
    events: seq<EventData>)

  /** All the attempts of the test with full name `name`. */
  datatype IndividualTestRunData = IndividualTestRunData(
    name: string,
    shortName: string,
    attempt: seq<AttemptData>)

  /** A whole run: the full log and its tests, in the order in which they were first seen. */
  class TestRunData {
    var fullLogs: string
    var testRun: seq<IndividualTestRunData>

    /** The value `GetRunDataFromLog` returns: the full log and no tests yet. */
    constructor (fullLogs: string)
      ensures this.fullLogs == fullLogs && testRun == []
    {
      this.fullLogs := fullLogs;
      testRun := [];
    }
  }

  /** The three status constants are pairwise distinct and none of them is the zero status. */
  lemma StatusConstantsDistinct()
    ensures Failed != Passed && Failed != Timeout && Passed != Timeout
    ensures ZeroStatus.status !in {Failed, Passed, Timeout}
  {
    assert Failed[0] != Passed[0] && Failed[0] != Timeout[0] && Passed[0] != Timeout[0];
  }

  /** Each setter is idempotent, and the last setter applied decides the status. */
  lemma {:induction false} SettersOverride(s: EventStatus)
    ensures s.SetFailed().SetFailed() == s.SetFailed()
    ensures s.SetPassing().SetPassing() == s.SetPassing()
    ensures s.SetTimeout().SetTimeout() == s.SetTimeout()
    ensures s.SetPassing().SetFailed() == s.SetTimeout().SetFailed() == s.SetFailed()
    ensures s.SetFailed().SetPassing() == s.SetTimeout().SetPassing() == s.SetPassing()
    ensures s.SetFailed().SetTimeout() == s.SetPassing().SetTimeout() == s.SetTimeout()
    ensures s.SetFailed() != s.SetPassing() && s.SetFailed() != s.SetTimeout() && s.SetPassing() != s.SetTimeout()
  {
    StatusConstantsDistinct();
  }
}

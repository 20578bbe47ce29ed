/**
 * Writing the logs of each attempt to a file of its own (`DumpLogsToFileWithPrefixes` and the
 * traversal of `DumpTestsToFolder`). The file system is a map from paths to contents; whether a
 * file can be created and how many more writes succeed are part of its state.
 */
module Dump {
  import opened Wrappers
  import opened GoStrings
  import opened Model

  /** The file an attempt named `name` is dumped to: the name with every '/' made '_', under `folder`. */
  function LogPath(folder: string, name: string): string {
    folder + "/" + ReplaceChar(name, '/', '_') + ".log"
  }

  /** The file name part keeps the length of the name and contains no '/'. */
  lemma LogPathHasFlatName(folder: string, name: string)
    ensures var base := ReplaceChar(name, '/', '_');
      LogPath(folder, name) == folder + "/" + base + ".log" && |base| == |name| && '/' !in base
  {
    var base := ReplaceChar(name, '/', '_');
    forall i | 0 <= i < |base|
      ensures base[i] != '/'
    {
    }
  }

  /** What is written for one log line: every prefix in order, then the line and a newline. */
  function LineText(prefixes: seq<string>, line: string): string {
    Concat(prefixes) + line + "\n"
  }

  /** The finished file: the text of every log line, in order. */
  function Content(logs: seq<string>, prefixes: seq<string>): string {
    if |logs| == 0 then ""
    else Content(logs[..|logs| - 1], prefixes) + LineText(prefixes, logs[|logs| - 1])
  }

  /** The number of writes a complete dump makes: one per prefix and one for the line, per log line. */
  function WriteCount(logs: seq<string>, prefixes: seq<string>): nat {
    |logs| * (|prefixes| + 1)
  }

  /** The content of the dump of a prefix of the lines is a prefix of the whole content. */
  lemma {:induction false} ContentPrefix(logs: seq<string>, prefixes: seq<string>, i: nat)
    requires i <= |logs|
    ensures StartsWith(Content(logs, prefixes), Content(logs[..i], prefixes))
    decreases |logs|
  {
    if i < |logs| {
      var n := |logs| - 1;
      assert logs[..n][..i] == logs[..i];
      ContentPrefix(logs[..n], prefixes, i);
    } else {
      assert logs[..i] == logs;
    }
  }

  /** What is in the file after the prefixes `..j` of line `i` is a prefix of the whole content. */
  lemma PartialIsPrefix(logs: seq<string>, prefixes: seq<string>, i: nat, j: nat)
    requires i < |logs| && j <= |prefixes|
    ensures StartsWith(Content(logs, prefixes), Content(logs[..i], prefixes) + Concat(prefixes[..j]))
  {
    var done := logs[..i + 1];
    assert done[..i] == logs[..i];
    ConcatPrefix(prefixes, j);
    assert StartsWith(Content(done, prefixes), Content(logs[..i], prefixes) + Concat(prefixes[..j]));
    ContentPrefix(logs, prefixes, i + 1);
  }

  /** A write that fails inside line `i`, after `j` prefixes, leaves a prefix of the content in the file. */
  lemma FailedLineIsPartial(before: map<string, string>, files: map<string, string>, path: string,
                            logs: seq<string>, prefixes: seq<string>, i: nat, j: nat)
    requires i < |logs| && j <= |prefixes|
    requires files == before[path := Content(logs[..i], prefixes)]
    ensures PartlyWritten(before, files[path := files[path] + Concat(prefixes[..j])], path, Content(logs, prefixes))
  {
    var w := Content(logs[..i], prefixes) + Concat(prefixes[..j]);
    assert files[path := files[path] + Concat(prefixes[..j])] == before[path := w];
    PartialIsPrefix(logs, prefixes, i, j);
  }

  /** Two strings concatenated. */
  lemma ConcatPair(x: string, y: string)
    ensures Concat([x, y]) == x + y
  {
    assert [x, y][..1] == [x];
    assert [x][..0] == [];
    assert Concat([x]) == x;
  }

  /** As `DumpTestsToFolder` calls it, every line of the file is the attempt's name, ": " and a log line. */
  lemma {:induction false} NamePrefixedLines(logs: seq<string>, name: string)
    ensures Content(logs, [name, ": "]) == Concat(seq(|logs|, i requires 0 <= i < |logs| => name + ": " + logs[i] + "\n"))
    decreases |logs|
  {
    var lines := seq(|logs|, i requires 0 <= i < |logs| => name + ": " + logs[i] + "\n");
    if |logs| > 0 {
      var n := |logs| - 1;
      NamePrefixedLines(logs[..n], name);
      assert lines[..n] == seq(n, i requires 0 <= i < n => name + ": " + logs[..n][i] + "\n");
      ConcatPair(name, ": ");
    }
  }

  /** The part of the file system the dump touches. */
  class Disk {
    /** The content of every file, by path. */
    var files: map<string, string>
    /** Whether `os.Create` succeeds. */
    var canCreate: bool
    /** How many more `WriteString` calls succeed; the next one after them fails. */
    var writesLeft: nat

    constructor (files: map<string, string>, canCreate: bool, writesLeft: nat)
      ensures this.files == files && this.canCreate == canCreate && this.writesLeft == writesLeft
    {
      this.files := files;
      this.canCreate := canCreate;
      this.writesLeft := writesLeft;
    }

    /** `os.Create`: an empty file at `path`, replacing any earlier one, unless creating fails. */
    method Create(path: string) returns (ok: bool)
      modifies this
      ensures ok == canCreate && canCreate == old(canCreate) && writesLeft == old(writesLeft)
      ensures files == if ok then old(files)[path := ""] else old(files)
    {
      ok := canCreate;
      if ok {
        files := files[path := ""];
      }
    }

    /** `file.WriteString`: `s` appended to the file, unless writing fails. */
    method WriteString(path: string, s: string) returns (ok: bool)
      requires path in files
      modifies this
      ensures ok == (old(writesLeft) > 0) && canCreate == old(canCreate)
      ensures files == if ok then old(files)[path := old(files)[path] + s] else old(files)
      ensures writesLeft == if ok then old(writesLeft) - 1 else old(writesLeft)
    {
      ok := writesLeft > 0;
      if ok {
        files := files[path := files[path] + s];
        writesLeft := writesLeft - 1;
      }
    }
  }

  /**
   * After a failed dump: no file was created, or the file at `path` holds a prefix of `content`
   * and nothing else changed.
   */
  ghost predicate PartlyWritten(before: map<string, string>, after: map<string, string>, path: string, content: string) {
    after == before || exists w :: StartsWith(content, w) && after == before[path := w]
  }

  /** A product grows with its first factor. */
  lemma MulMonotone(x: nat, y: nat, k: nat)
    requires x <= y
    ensures x * k <= y * k
  {
  }

  /**
   * The body of the outer loop of `DumpLogsToFileWithPrefixes`: every prefix, then the line and a
   * newline, one write each, stopping at the first write that fails.
   */
  method WriteLine(path: string, prefixes: seq<string>, line: string, disk: Disk) returns (ok: bool)
    requires path in disk.files
    modifies disk
    ensures disk.canCreate == old(disk.canCreate)
    ensures ok <==> old(disk.writesLeft) >= |prefixes| + 1
    ensures ok ==>
      disk.files == old(disk.files)[path := old(disk.files)[path] + LineText(prefixes, line)] &&
      disk.writesLeft == old(disk.writesLeft) - (|prefixes| + 1)
    ensures !ok ==>
      exists j :: 0 <= j <= |prefixes| && disk.files == old(disk.files)[path := old(disk.files)[path] + Concat(prefixes[..j])]
  {
    ghost var files0, start := disk.files, disk.files[path];
    var j := 0;
    assert prefixes[..0] == [] && start + Concat([]) == start;
    assert files0[path := start] == files0;
    while j < |prefixes|
      invariant 0 <= j <= |prefixes|
      invariant disk.canCreate == old(disk.canCreate)
      invariant disk.files == files0[path := start + Concat(prefixes[..j])]
      invariant disk.writesLeft + j == old(disk.writesLeft)
    {
      ok := disk.WriteString(path, prefixes[j]);
      if !ok {
        return false;
      }
      assert prefixes[..j + 1][..j] == prefixes[..j];
      assert start + Concat(prefixes[..j + 1]) == (start + Concat(prefixes[..j])) + prefixes[j];
      j := j + 1;
    }
    assert prefixes[..j] == prefixes;
    ok := disk.WriteString(path, line + "\n");
    assert start + LineText(prefixes, line) == (start + Concat(prefixes)) + (line + "\n");
  }

  /**
   * `DumpLogsToFileWithPrefixes`: the attempt's file holds the text of every log line, each after
   * the prefixes. It fails exactly when the file cannot be created or a write fails, and stops
   * there; what it wrote so far is a prefix of the full content. The attempt itself is a value
   * and is not changed.
   */
  method DumpLogsToFileWithPrefixes(a: AttemptData, folder: string, prefixes: seq<string>, disk: Disk)
    returns (err: Option<string>)
    modifies disk
    ensures disk.canCreate == old(disk.canCreate)
    ensures err.None? <==> old(disk.canCreate) && old(disk.writesLeft) >= WriteCount(a.logs, prefixes)
    ensures err.None? ==>
      disk.files == old(disk.files)[LogPath(folder, a.name) := Content(a.logs, prefixes)] &&
      disk.writesLeft == old(disk.writesLeft) - WriteCount(a.logs, prefixes)
    ensures err.Some? ==> PartlyWritten(old(disk.files), disk.files, LogPath(folder, a.name), Content(a.logs, prefixes))
  {
    var fileName := ReplaceChar(a.name, '/', '_');
    var path := folder + "/" + fileName + ".log";
    assert path == LogPath(folder, a.name);
    var ok := disk.Create(path);
    if !ok {
      return Some("create " + path + ": failed");
    }
    var k := |prefixes| + 1;
    var i := 0;
    assert a.logs[..0] == [];
    while i < |a.logs|
      invariant 0 <= i <= |a.logs|
      invariant disk.canCreate == old(disk.canCreate) && disk.canCreate
      invariant disk.files == old(disk.files)[path := Content(a.logs[..i], prefixes)]
      invariant disk.writesLeft + i * k == old(disk.writesLeft)
    {
      ghost var files := disk.files;
      assert (i + 1) * k == i * k + k;
      ok := WriteLine(path, prefixes, a.logs[i], disk);
      if !ok {
        ghost var j :| 0 <= j <= |prefixes| && disk.files == files[path := files[path] + Concat(prefixes[..j])];
        FailedLineIsPartial(old(disk.files), files, path, a.logs, prefixes, i, j);
        MulMonotone(i + 1, |a.logs|, k);
        return Some("write " + path + ": failed");
      }
      assert a.logs[..i + 1][..i] == a.logs[..i];
      i := i + 1;
    }
    assert a.logs[..i] == a.logs;
    return None;
  }

  // ----- DumpTestsToFolder -----

  /** Every attempt of every test run, in the order of the runs and then of their attempts. */
  function Flatten(runs: seq<IndividualTestRunData>): seq<AttemptData> {
    if |runs| == 0 then [] else Flatten(runs[..|runs| - 1]) + runs[|runs| - 1].attempt
  }

  /** The prefixes `DumpTestsToFolder` passes: the attempt's name and ": ". */
  function NamePrefixes(a: AttemptData): seq<string> {
    [a.name, ": "]
  }

  /** The files after dumping `attempts` in order: each attempt's file replaced by its content. */
  function DumpAll(files: map<string, string>, attempts: seq<AttemptData>, folder: string): map<string, string> {
    if |attempts| == 0 then files
    else
      var a := attempts[|attempts| - 1];
      DumpAll(files, attempts[..|attempts| - 1], folder)[LogPath(folder, a.name) := Content(a.logs, NamePrefixes(a))]
  }

  /** The writes a complete dump of `attempts` makes. */
  function TotalWrites(attempts: seq<AttemptData>): nat {
    if |attempts| == 0 then 0
    else TotalWrites(attempts[..|attempts| - 1]) + WriteCount(attempts[|attempts| - 1].logs, NamePrefixes(attempts[|attempts| - 1]))
  }

  /** A prefix of the attempts needs no more writes than all of them. */
  lemma {:induction false} TotalWritesMonotone(attempts: seq<AttemptData>, n: nat)
    requires n <= |attempts|
    ensures TotalWrites(attempts[..n]) <= TotalWrites(attempts)
    decreases |attempts|
  {
    if n < |attempts| {
      var m := |attempts| - 1;
      assert attempts[..m][..n] == attempts[..n];
      TotalWritesMonotone(attempts[..m], n);
    } else {
      assert attempts[..n] == attempts;
    }
  }

  /**
   * After the dump, a file holds the content of the last attempt whose name maps to it, and a file
   * no attempt maps to is unchanged: attempts whose names differ only in '/' and '_' overwrite
   * one another.
   */
  lemma {:induction false} LastAttemptWins(files: map<string, string>, attempts: seq<AttemptData>, folder: string, k: nat)
    requires k < |attempts|
    requires forall l :: k < l < |attempts| ==> LogPath(folder, attempts[l].name) != LogPath(folder, attempts[k].name)
    ensures var p := LogPath(folder, attempts[k].name);
      p in DumpAll(files, attempts, folder) && DumpAll(files, attempts, folder)[p] == Content(attempts[k].logs, NamePrefixes(attempts[k]))
    decreases |attempts|
  {
    var n := |attempts| - 1;
    if k < n {
      var prefix := attempts[..n];
      assert prefix[k] == attempts[k];
      forall l | k < l < |prefix|
        ensures LogPath(folder, prefix[l].name) != LogPath(folder, prefix[k].name)
      {
        assert prefix[l] == attempts[l];
      }
      LastAttemptWins(files, prefix, folder, k);
    }
  }

  /** A path no attempt maps to keeps its old content, or stays absent. */
  lemma {:induction false} UntouchedPathKept(files: map<string, string>, attempts: seq<AttemptData>, folder: string, p: string)
    requires forall l :: 0 <= l < |attempts| ==> LogPath(folder, attempts[l].name) != p
    ensures p in DumpAll(files, attempts, folder) <==> p in files
    ensures p in files ==> DumpAll(files, attempts, folder)[p] == files[p]
    decreases |attempts|
  {
    if |attempts| > 0 {
      var n := |attempts| - 1;
      var prefix := attempts[..n];
      forall l | 0 <= l < |prefix|
        ensures LogPath(folder, prefix[l].name) != p
      {
        assert prefix[l] == attempts[l];
      }
      UntouchedPathKept(files, prefix, folder, p);
    }
  }

  /**
   * `DumpTestsToFolder`: every attempt of every test run, in slice order, dumped with its name and
   * ": " as prefixes. The first failure ends the program (`log.Fatal`); here it ends the traversal
   * with that error. Creating the folder is not modelled.
   */
  method DumpTestsToFolder(data: TestRunData, folder: string, disk: Disk) returns (err: Option<string>)
    modifies disk
    ensures err.None? <==>
      (Flatten(data.testRun) == [] || old(disk.canCreate)) && old(disk.writesLeft) >= TotalWrites(Flatten(data.testRun))
    ensures err.None? ==> disk.files == DumpAll(old(disk.files), Flatten(data.testRun), folder)
  {
    var runs := data.testRun;
    var i := 0;
    while i < |runs|
      invariant 0 <= i <= |runs|
      invariant disk.canCreate == old(disk.canCreate)
      invariant Flatten(runs[..i]) != [] ==> disk.canCreate
      invariant disk.files == DumpAll(old(disk.files), Flatten(runs[..i]), folder)
      invariant disk.writesLeft + TotalWrites(Flatten(runs[..i])) == old(disk.writesLeft)
    {
      ghost var before := Flatten(runs[..i]);
      assert runs[..i + 1][..i] == runs[..i];
      assert Flatten(runs[..i + 1]) == before + runs[i].attempt;
      DumpAllAppend(old(disk.files), before, runs[i].attempt, folder);
      TotalWritesAppend(before, runs[i].attempt);
      err := DumpAttempts(runs[i].attempt, folder, disk);
      if err.Some? {
        FlattenPrefix(runs, i);
        var all := Flatten(runs);
        assert all[..|before + runs[i].attempt|] == before + runs[i].attempt;
        TotalWritesMonotone(all, |before + runs[i].attempt|);
        return err;
      }
      i := i + 1;
    }
    assert runs[..i] == runs;
    return None;
  }

  /** The inner loop of `DumpTestsToFolder`: the attempts of one test run, dumped in order. */
  method DumpAttempts(attempts: seq<AttemptData>, folder: string, disk: Disk) returns (err: Option<string>)
    modifies disk
    ensures disk.canCreate == old(disk.canCreate)
    ensures err.None? <==> (attempts == [] || old(disk.canCreate)) && old(disk.writesLeft) >= TotalWrites(attempts)
    ensures err.None? ==>
      disk.files == DumpAll(old(disk.files), attempts, folder) &&
      disk.writesLeft == old(disk.writesLeft) - TotalWrites(attempts)
  {
    var j := 0;
    while j < |attempts|
      invariant 0 <= j <= |attempts|
      invariant disk.canCreate == old(disk.canCreate)
      invariant j > 0 ==> disk.canCreate
      invariant disk.files == DumpAll(old(disk.files), attempts[..j], folder)
      invariant disk.writesLeft + TotalWrites(attempts[..j]) == old(disk.writesLeft)
    {
      var thisAttempt := attempts[j];
      assert attempts[..j + 1][..j] == attempts[..j];
      err := DumpLogsToFileWithPrefixes(thisAttempt, folder, [thisAttempt.name, ": "], disk);
      if err.Some? {
        TotalWritesMonotone(attempts, j + 1);
        return err;
      }
      j := j + 1;
    }
    assert attempts[..j] == attempts;
    return None;
  }

  /** Dumping two runs of attempts one after the other is dumping their concatenation. */
  lemma {:induction false} DumpAllAppend(files: map<string, string>, xs: seq<AttemptData>, ys: seq<AttemptData>, folder: string)
    ensures DumpAll(files, xs + ys, folder) == DumpAll(DumpAll(files, xs, folder), ys, folder)
    decreases |ys|
  {
    if |ys| == 0 {
      assert xs + ys == xs;
    } else {
      var n := |ys| - 1;
      assert (xs + ys)[..|xs + ys| - 1] == xs + ys[..n];
      DumpAllAppend(files, xs, ys[..n], folder);
    }
  }

  /** The writes of a concatenation are the writes of its parts. */
  lemma {:induction false} TotalWritesAppend(xs: seq<AttemptData>, ys: seq<AttemptData>)
    ensures TotalWrites(xs + ys) == TotalWrites(xs) + TotalWrites(ys)
    decreases |ys|
  {
    if |ys| == 0 {
      assert xs + ys == xs;
    } else {
      var n := |ys| - 1;
      assert (xs + ys)[..|xs + ys| - 1] == xs + ys[..n];
      TotalWritesAppend(xs, ys[..n]);
    }
  }

  /** The attempts of the first `i` runs followed by those of run `i` begin the whole traversal. */
  lemma {:induction false} FlattenPrefix(runs: seq<IndividualTestRunData>, i: nat)
    requires i < |runs|
    ensures var p := Flatten(runs[..i]) + runs[i].attempt;
      |p| <= |Flatten(runs)| && Flatten(runs)[..|p|] == p
    decreases |runs|
  {
    var n := |runs| - 1;
    assert runs[..i + 1][..i] == runs[..i];
    if i < n {
      assert runs[..n][..i] == runs[..i] && runs[..n][i] == runs[i];
      FlattenPrefix(runs[..n], i);
    } else {
      assert runs[..n] == runs[..i];
    }
  }
}

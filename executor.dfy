/**
  `file_executor` and `execute_prehook` (prehook.py): the connection each opens, the steps
  run on it, how a failure is reported and re-raised, and when the connection is closed.
 */
module Executor {
  import opened Text
  import opened Effects
  import opened SqlRunner
  import opened CsvLoader
  import opened Staging

  const FileExecutorFailed := "File Executor Execution Failed"
  const ImportantStepFailed := "Important Step Failed"

  /** Where a step leaves the log, and the message of the exception it raised, if any. */
  datatype Outcome = Outcome(log: seq<Event>, raised: Option<string>)

  /** `if csv_file_path:`: no folder and the empty path both skip the CSV step. */
  predicate CsvRequested(csvFolder: Option<Folder>) {
    csvFolder.Some? && csvFolder.value.path != ""
  }

  /** The run of `file_executor` after `log0`, on the session it opens. */
  function FileExecutorRun(h: Handler, lk: Lookups, sqlFolder: Folder, csvFolder: Option<Folder>, log0: seq<Event>): Outcome {
    var session := Opened(log0);
    var run := RunScripts(h, session, sqlFolder.path, SqlFiles(sqlFolder.entries), log0 + [Connect(session)]);
    if run.failed.Some? then
      Outcome(run.log + [Report(lk.fileExecutorError, SqlFileErrorMessage(lk, run.failed.value)), Close(session)],
              Some(FileExecutorFailed))
    else if CsvRequested(csvFolder) then
      Outcome(run.log + CsvFolderCalls(h, lk, session, csvFolder.value) + [Close(session)], None)
    else
      Outcome(run.log + [Close(session)], None)
  }

  /** A log that extends `log0` by a connect, the calls after it in `run`, `extra` and a close of the same session. */
  lemma Enclosed(log0: seq<Event>, session: nat, run: seq<Event>, extra: seq<Event>)
    requires |run| >= |log0| + 1 && run[..|log0| + 1] == log0 + [Connect(session)]
    ensures var log := run + extra + [Close(session)];
      |log| >= |log0| + 2 && log[..|log0|] == log0 &&
      log[|log0|] == Connect(session) && log[|log| - 1] == Close(session) &&
      log[|log0| + 1..|log| - 1] == run[|log0| + 1..] + extra
  {
    var log := run + extra + [Close(session)];
    assert log[..|log0| + 1] == run[..|log0| + 1];
    assert log[..|log0|] == log[..|log0| + 1][..|log0|];
  }

  lemma WorkOnlyConcat(a: seq<Event>, b: seq<Event>)
    requires WorkOnly(a) && WorkOnly(b)
    ensures WorkOnly(a + b)
  {
  }

  /** A work-only stretch of the log closes no session. */
  lemma WorkOnlyClosesNothing(events: seq<Event>, session: nat)
    requires WorkOnly(events)
    ensures Close(session) !in events
  {
  }

  /**
    The lifetime of `session` in `log` after `log0`: opened by the first call and closed by
    the last; between the two only work calls, then one report when `reported`.
   */
  predicate Bracketed(log0: seq<Event>, log: seq<Event>, session: nat, reported: bool) {
    var k := if reported then 2 else 1;
    |log| >= |log0| + 1 + k && log[..|log0|] == log0 &&
    log[|log0|] == Connect(session) && log[|log| - 1] == Close(session) &&
    WorkOnly(log[|log0| + 1..|log| - k]) && (reported ==> log[|log| - 2].Report?)
  }

  /**
    A bracketed session is closed once, by the last call of its stretch, and no other
    session is closed in that stretch.
   */
  lemma BracketedClosesOwnOnly(log0: seq<Event>, log: seq<Event>, session: nat, reported: bool, other: nat)
    requires Bracketed(log0, log, session, reported) && other != session
    ensures Close(session) in log[|log0|..] && Close(other) !in log[|log0|..]
    ensures Close(session) !in log[|log0|..|log| - 1]
  {
    var k := if reported then 2 else 1;
    var mid := log[|log0| + 1..|log| - k];
    assert log[|log0|..] == [log[|log0|]] + mid + log[|log| - k..];
    assert log[|log0|..|log| - 1] == [log[|log0|]] + mid + log[|log| - k..|log| - 1];
    WorkOnlyClosesNothing(mid, other);
    WorkOnlyClosesNothing(mid, session);
    assert log[|log| - 1] in log[|log| - k..];
  }

  /** The only report in a bracketed stretch is the one just before the close, and only when `reported`. */
  lemma BracketedReportsOnce(log0: seq<Event>, log: seq<Event>, session: nat, reported: bool, i: int)
    requires Bracketed(log0, log, session, reported) && |log0| <= i < |log| && log[i].Report?
    ensures reported && i == |log| - 2
  {
    var k := if reported then 2 else 1;
    var mid := log[|log0| + 1..|log| - k];
    forall j | |log0| < j < |log| - k ensures !log[j].Report? {
      assert mid[j - |log0| - 1] in mid;
    }
  }

  /**
    `file_executor` opens its connection first and closes it last, once each; between the
    two come only the steps' own calls and, on failure only, one report just before the
    close, whose detail names the failing script. It raises exactly when a script failed,
    always with the same fixed message.
   */
  lemma FileExecutorDiscipline(h: Handler, lk: Lookups, sqlFolder: Folder, csvFolder: Option<Folder>, log0: seq<Event>)
    ensures var r := FileExecutorRun(h, lk, sqlFolder, csvFolder, log0);
      var session := Opened(log0);
      var failed := RunScripts(h, session, sqlFolder.path, SqlFiles(sqlFolder.entries), log0 + [Connect(session)]).failed;
      Bracketed(log0, r.log, session, r.raised.Some?) &&
      (r.raised.Some? <==> failed.Some?) &&
      (r.raised.Some? ==>
         r.raised.value == FileExecutorFailed &&
         r.log[|r.log| - 2] == Report(lk.fileExecutorError, SqlFileErrorMessage(lk, failed.value)) &&
         EndsWith(r.log[|r.log| - 2].detail, failed.value))
  {
    var session := Opened(log0);
    var connected := log0 + [Connect(session)];
    var run := RunScripts(h, session, sqlFolder.path, SqlFiles(sqlFolder.entries), connected);
    RunScriptsWorkOnly(h, session, sqlFolder.path, SqlFiles(sqlFolder.entries), connected);
    assert run.log[..|log0| + 1] == connected;
    var extra := if run.failed.Some? then [Report(lk.fileExecutorError, SqlFileErrorMessage(lk, run.failed.value))]
                 else if CsvRequested(csvFolder) then CsvFolderCalls(h, lk, session, csvFolder.value)
                 else [];
    Enclosed(log0, session, run.log, extra);
    var r := FileExecutorRun(h, lk, sqlFolder, csvFolder, log0);
    assert r.log == run.log + extra + [Close(session)];
    if run.failed.Some? {
      var log := r.log;
      assert log[|log0| + 1..|log| - 2] == log[|log0| + 1..|log| - 1][..|log| - 2 - (|log0| + 1)];
      assert log[|log0| + 1..|log| - 2] == run.log[|connected|..];
    } else if CsvRequested(csvFolder) {
      CsvFolderWorkOnly(h, lk, session, csvFolder.value);
      WorkOnlyConcat(run.log[|connected|..], extra);
    } else {
      assert run.log[|connected|..] + extra == run.log[|connected|..];
    }
  }

  /** What `execute_prehook` relies on of `file_executor`: its session is bracketed, and it raises one fixed message. */
  lemma FileExecutorBracketed(h: Handler, lk: Lookups, sqlFolder: Folder, csvFolder: Option<Folder>, log0: seq<Event>)
    ensures var r := FileExecutorRun(h, lk, sqlFolder, csvFolder, log0);
      Bracketed(log0, r.log, Opened(log0), r.raised.Some?) && (r.raised.Some? ==> r.raised.value == FileExecutorFailed)
  {
    FileExecutorDiscipline(h, lk, sqlFolder, csvFolder, log0);
  }

  /**
    After `log0`, `log` closes `session` exactly once, as its last call, and closes no
    `other` session; it holds a report exactly when `reported`, once, just before the close.
   */
  predicate ClosesOnceReportsOnce(log0: seq<Event>, log: seq<Event>, session: nat, reported: bool, other: nat) {
    |log| >= |log0| + 2 && log[|log| - 1] == Close(session) && Close(session) !in log[|log0|..|log| - 1] &&
    Close(other) !in log[|log0|..] &&
    (reported ==> log[|log| - 2].Report?) &&
    forall i :: |log0| <= i < |log| && log[i].Report? ==> reported && i == |log| - 2
  }

  lemma BracketedCloseAndReport(log0: seq<Event>, log: seq<Event>, session: nat, reported: bool, other: nat)
    requires Bracketed(log0, log, session, reported) && other != session
    ensures ClosesOnceReportsOnce(log0, log, session, reported, other)
  {
    BracketedClosesOwnOnly(log0, log, session, reported, other);
    forall i | |log0| <= i < |log| && log[i].Report? ensures reported && i == |log| - 2 {
      BracketedReportsOnce(log0, log, session, reported, i);
    }
  }

  /**
    `file_executor` closes its connection exactly once, as its last call, and closes no
    other; it reports exactly when it raises, once, just before the close.
   */
  lemma FileExecutorClosesOnce(h: Handler, lk: Lookups, sqlFolder: Folder, csvFolder: Option<Folder>, log0: seq<Event>, other: nat)
    requires other != Opened(log0)
    ensures var r := FileExecutorRun(h, lk, sqlFolder, csvFolder, log0);
      ClosesOnceReportsOnce(log0, r.log, Opened(log0), r.raised.Some?, other)
  {
    var r := FileExecutorRun(h, lk, sqlFolder, csvFolder, log0);
    FileExecutorBracketed(h, lk, sqlFolder, csvFolder, log0);
    BracketedCloseAndReport(log0, r.log, Opened(log0), r.raised.Some?, other);
  }

  /**
    `file_executor(sql_folder, csv_folder)`: open a connection; run the scripts and, when
    they all succeeded and a CSV folder is given, load the CSV files; on a failure report
    it and raise the fixed message; close the connection in every case.
   */
  method FileExecutor(h: Handler, lk: Lookups, sqlFolder: Folder, csvFolder: Option<Folder>, log0: seq<Event>)
    returns (log: seq<Event>, raised: Option<string>)
    ensures Outcome(log, raised) == FileExecutorRun(h, lk, sqlFolder, csvFolder, log0)
  {
    var dbSession := Opened(log0);
    log := log0 + [Connect(dbSession)];
    var failed;
    log, failed := ExecuteSqlFolder(h, dbSession, sqlFolder, log);
    if failed.None? && CsvRequested(csvFolder) {
      log := ExecuteCsvFolder(h, lk, csvFolder.value, dbSession, log);
    }
    if failed.Some? {
      log := log + [Report(lk.fileExecutorError, SqlFileErrorMessage(lk, failed.value))];
      raised := Some(FileExecutorFailed);
    } else {
      raised := None;
    }
    log := log + [Close(dbSession)];
  }

  /** The run of `execute_prehook` after `log0`: its own session, `file_executor` on a second one, then staging. */
  function PrehookRun(h: Handler, lk: Lookups, first: Folder, second: Option<Folder>, log0: seq<Event>): Outcome {
    var session := Opened(log0);
    var step1 := FileExecutorRun(h, lk, first, second, log0 + [Connect(session)]);
    if step1.raised.Some? then
      Outcome(step1.log + [Report(lk.prehookSqlError, step1.raised.value)], Some(ImportantStepFailed))
    else
      var step2 := StagingCalls(h, session, lk.dvdRental, SchemaTables(lk.tablesToReplicate, lk.dvdRental), step1.log);
      Outcome(step2 + [Close(session)], None)
  }

  /**
    After `log0`, `log` opens `session` and at once the next session inside it, and closes
    the inner one later.
   */
  predicate NestedSessions(log0: seq<Event>, session: nat, log: seq<Event>) {
    |log| >= |log0| + 3 && log[..|log0|] == log0 && log[|log0|] == Connect(session) &&
    log[|log0| + 1] == Connect(session + 1) && Close(session + 1) in log[|log0|..]
  }

  /** On success the outer session's stretch is the bracketed inner one, work, and the outer close. */
  lemma PrehookSuccessShape(log0: seq<Event>, session: nat, inner: nat, step1: seq<Event>, reported: bool, step2: seq<Event>, log: seq<Event>)
    requires inner == session + 1 && Bracketed(log0 + [Connect(session)], step1, inner, reported)
    requires |step1| <= |step2| && step2[..|step1|] == step1 && WorkOnly(step2[|step1|..])
    requires log == step2 + [Close(session)]
    ensures NestedSessions(log0, session, log) &&
      log[|log| - 1] == Close(session) && Close(session) !in log[|log0|..|log| - 1]
  {
    var log1 := log0 + [Connect(session)];
    var work := step2[|step1|..];
    assert step2 == step1 + work;
    BracketedClosesOwnOnly(log1, step1, inner, reported, session);
    WorkOnlyClosesNothing(work, session);
    assert step1[..|log0|] == step1[..|log1|][..|log0|];
    assert log[..|step1|] == step1;
    assert log[|log0|..|log| - 1] == [Connect(session)] + step1[|log1|..] + work;
    assert log[|log0|..] == [Connect(session)] + step1[|log1|..] + work + [Close(session)];
  }

  /** On failure the outer session's stretch is the bracketed inner one and a report: no outer close. */
  lemma PrehookFailureShape(log0: seq<Event>, session: nat, inner: nat, step1: seq<Event>, reported: bool, report: Event, log: seq<Event>)
    requires inner == session + 1 && Bracketed(log0 + [Connect(session)], step1, inner, reported) && report.Report?
    requires log == step1 + [report]
    ensures NestedSessions(log0, session, log) &&
      Close(session) !in log[|log0|..] && log[|log| - 1] == report
  {
    var log1 := log0 + [Connect(session)];
    BracketedClosesOwnOnly(log1, step1, inner, reported, session);
    assert step1[..|log0|] == step1[..|log1|][..|log0|];
    assert log[..|step1|] == step1;
    assert log[|log0|..] == [Connect(session)] + step1[|log1|..] + [report];
  }

  /**
    When every step of `execute_prehook` succeeded, its own session was opened first and is
    closed exactly once, as its last call; the session `file_executor` opened came next
    and was closed too.
   */
  lemma PrehookOnSuccess(h: Handler, lk: Lookups, first: Folder, second: Option<Folder>, log0: seq<Event>)
    requires PrehookRun(h, lk, first, second, log0).raised.None?
    ensures var r := PrehookRun(h, lk, first, second, log0);
      var session := Opened(log0);
      NestedSessions(log0, session, r.log) &&
      r.log[|r.log| - 1] == Close(session) && Close(session) !in r.log[|log0|..|r.log| - 1]
  {
    var session := Opened(log0);
    var log1 := log0 + [Connect(session)];
    assert log1[..|log1| - 1] == log0;
    assert Opened(log1) == session + 1;
    FileExecutorBracketed(h, lk, first, second, log1);
    var step1 := FileExecutorRun(h, lk, first, second, log1);
    var tables := SchemaTables(lk.tablesToReplicate, lk.dvdRental);
    var step2 := StagingCalls(h, session, lk.dvdRental, tables, step1.log);
    StagingCallsWorkOnly(h, session, lk.dvdRental, tables, step1.log);
    StagingCallsShape(h, session, lk.dvdRental, tables, step1.log);
    var r := PrehookRun(h, lk, first, second, log0);
    PrehookSuccessShape(log0, session, Opened(log1), step1.log, step1.raised.Some?, step2, r.log);
  }

  /**
    After `log0`, `log` holds exactly two reports: `first` two calls before the end and
    `last` as the last call.
   */
  predicate TwoReports(log0: seq<Event>, log: seq<Event>, first: Event, last: Event) {
    |log| >= |log0| + 3 && log[|log| - 3] == first && log[|log| - 1] == last &&
    forall i :: |log0| <= i < |log| && log[i].Report? ==> i == |log| - 3 || i == |log| - 1
  }

  /**
    A reported inner stretch followed by one more report: the inner report and the added
    one are the only reports after `log0`.
   */
  lemma FailureReports(log0: seq<Event>, session: nat, inner: nat, step1: seq<Event>, fileReport: Event, report: Event, log: seq<Event>)
    requires Bracketed(log0 + [Connect(session)], step1, inner, true) && step1[|step1| - 2] == fileReport
    requires log == step1 + [report]
    ensures TwoReports(log0, log, fileReport, report)
  {
    var log1 := log0 + [Connect(session)];
    assert step1[|log0|] == step1[..|log1|][|log0|];
    forall i | |log0| <= i < |log| && log[i].Report? ensures i == |log| - 3 || i == |log| - 1 {
      if i < |log| - 1 {
        assert log[i] == step1[i];
        BracketedReportsOnce(log1, step1, inner, true, i);
      }
    }
  }

  /**
    When `file_executor` raised, `execute_prehook` raises its own fixed message and never
    closes its own session; the session `file_executor` opened was still closed. Two
    reports are made: `file_executor`'s, naming the failed script, and then
    `execute_prehook`'s, whose detail is only `file_executor`'s fixed message, so the
    script's name does not reach it.
   */
  lemma PrehookOnFailure(h: Handler, lk: Lookups, first: Folder, second: Option<Folder>, log0: seq<Event>)
    requires PrehookRun(h, lk, first, second, log0).raised.Some?
    ensures var r := PrehookRun(h, lk, first, second, log0);
      var session := Opened(log0);
      NestedSessions(log0, session, r.log) &&
      Close(session) !in r.log[|log0|..] && r.raised.value == ImportantStepFailed &&
      r.log[|r.log| - 1] == Report(lk.prehookSqlError, FileExecutorFailed)
    ensures var r := PrehookRun(h, lk, first, second, log0);
      var log1 := log0 + [Connect(Opened(log0))];
      var failed := RunScripts(h, Opened(log1), first.path, SqlFiles(first.entries), log1 + [Connect(Opened(log1))]).failed;
      failed.Some? &&
      TwoReports(log0, r.log, Report(lk.fileExecutorError, SqlFileErrorMessage(lk, failed.value)),
                 Report(lk.prehookSqlError, FileExecutorFailed))
  {
    var session := Opened(log0);
    var log1 := log0 + [Connect(session)];
    assert log1[..|log1| - 1] == log0;
    assert Opened(log1) == session + 1;
    FileExecutorDiscipline(h, lk, first, second, log1);
    var step1 := FileExecutorRun(h, lk, first, second, log1);
    var failed := RunScripts(h, Opened(log1), first.path, SqlFiles(first.entries), log1 + [Connect(Opened(log1))]).failed;
    var r := PrehookRun(h, lk, first, second, log0);
    var report := Report(lk.prehookSqlError, FileExecutorFailed);
    PrehookFailureShape(log0, session, Opened(log1), step1.log, true, report, r.log);
    FailureReports(log0, session, Opened(log1), step1.log,
      Report(lk.fileExecutorError, SqlFileErrorMessage(lk, failed.value)), report, r.log);
  }

  /**
    `execute_prehook(sql_folder)`: open a session; run `file_executor` with the two
    arguments the source passes it (`first`, `second`); build the staging tables of the
    DVD rental source on the session; close the session. A raise from `file_executor` is
    reported and re-raised under a fixed message, and skips the close.
   */
  method ExecutePrehook(h: Handler, lk: Lookups, first: Folder, second: Option<Folder>, log0: seq<Event>)
    returns (log: seq<Event>, raised: Option<string>)
    ensures Outcome(log, raised) == PrehookRun(h, lk, first, second, log0)
  {
    var dbSession := Opened(log0);
    log := log0 + [Connect(dbSession)];
    var error;
    log, error := FileExecutor(h, lk, first, second, log);
    if error.Some? {
      log := log + [Report(lk.prehookSqlError, error.value)];
      raised := Some(ImportantStepFailed);
      return;
    }
    log := CreateStagingTables(h, lk, dbSession, lk.dvdRental, log);
    log := log + [Close(dbSession)];
    raised := None;
  }
}

/**
  `execute_sql_folder` (prehook.py): run every `.sql` file of a directory, in ascending
  name order, and stop at the first one the database does not answer with `NO_ERROR`.
 */
module SqlRunner {
  import opened Text
  import opened Order
  import opened Effects

  /** The comprehension of prehook.py:21-25: the listed names ending in `.sql`, in listing order. */
  function SqlNames(entries: seq<string>): seq<string> {
    if entries == [] then []
    else (if EndsWith(entries[0], ".sql") then [entries[0]] else []) + SqlNames(entries[1..])
  }

  lemma {:induction false} SqlNamesCount(entries: seq<string>, x: string)
    ensures multiset(SqlNames(entries))[x] == if EndsWith(x, ".sql") then multiset(entries)[x] else 0
  {
    if entries != [] {
      SqlNamesCount(entries[1..], x);
      assert entries == [entries[0]] + entries[1..];
    }
  }

  /** `sorted(sql_files)`: the order in which the scripts run. */
  function SqlFiles(entries: seq<string>): seq<string> {
    Sort(SqlNames(entries))
  }

  /**
    The runner's schedule holds exactly the listed names that end in `.sql`, each as often
    as it is listed (once, for a directory listing), in ascending order.
   */
  lemma SqlFilesSelection(entries: seq<string>)
    ensures Ascending(SqlFiles(entries))
    ensures forall x :: multiset(SqlFiles(entries))[x] ==
                        if EndsWith(x, ".sql") then multiset(entries)[x] else 0
    ensures forall x :: x in SqlFiles(entries) <==> x in entries && EndsWith(x, ".sql")
  {
    var names := SqlNames(entries);
    SortSpec(names);
    forall x ensures multiset(Sort(names))[x] == if EndsWith(x, ".sql") then multiset(entries)[x] else 0 {
      SqlNamesCount(entries, x);
    }
    forall x ensures x in Sort(names) <==> x in entries && EndsWith(x, ".sql") {
      SqlNamesCount(entries, x);
      assert x in Sort(names) <==> x in multiset(Sort(names));
      assert x in entries <==> x in multiset(entries);
    }
  }

  lemma ExampleNames(entries: seq<string>)
    requires entries == ["b.sql", "a.sql", "10.sql", "notes.txt", "2.sql"]
    ensures SqlNames(entries) == ["b.sql", "a.sql", "10.sql", "2.sql"]
  {
    assert EndsWith("b.sql", ".sql") && EndsWith("a.sql", ".sql") && EndsWith("10.sql", ".sql");
    assert EndsWith("2.sql", ".sql") && !EndsWith("notes.txt", ".sql");
    assert SqlNames(entries[4..]) == ["2.sql"];
    assert SqlNames(entries[3..]) == ["2.sql"];
    assert SqlNames(entries[2..]) == ["10.sql", "2.sql"];
    assert SqlNames(entries[1..]) == ["a.sql", "10.sql", "2.sql"];
  }

  lemma ExampleAscending(expected: seq<string>)
    requires expected == ["10.sql", "2.sql", "a.sql", "b.sql"]
    ensures Ascending(expected)
  {
    assert LexLe("10.sql", "2.sql") && LexLe("2.sql", "a.sql") && LexLe("a.sql", "b.sql");
    LexLeTransitive("10.sql", "2.sql", "a.sql");
    LexLeTransitive("10.sql", "a.sql", "b.sql");
    LexLeTransitive("2.sql", "a.sql", "b.sql");
  }

  /** Numeric prefixes are compared as text: "10.sql" runs before "2.sql". */
  lemma SqlFilesExample(entries: seq<string>)
    requires entries == ["b.sql", "a.sql", "10.sql", "notes.txt", "2.sql"]
    ensures SqlFiles(entries) == ["10.sql", "2.sql", "a.sql", "b.sql"]
  {
    var expected := ["10.sql", "2.sql", "a.sql", "b.sql"];
    ExampleNames(entries);
    ExampleAscending(expected);
    var names := SqlNames(entries);
    assert multiset(names) == multiset(expected);
    SortSpec(names);
    AscendingUnique(Sort(names), expected);
  }

  /** The text of the exception raised for a failing script (prehook.py:32-35). */
  function SqlFileErrorMessage(lk: Lookups, file: string): (m: string)
    ensures EndsWith(m, file)
  {
    var msg := lk.executeSqlStep + " = SQL File Error on SQL FILE = " + file;
    assert msg[|msg| - |file|..] == file;
    msg
  }

  /** The query run for one script: the whole content of the file. */
  function ScriptText(h: Handler, dir: string, name: string): string {
    h.readFile(Join(dir, name))
  }

  /** Where a run of the scripts leaves the log, and the script it stopped at, if any. */
  datatype ScriptRun = ScriptRun(log: seq<Event>, failed: Option<string>)

  /** Runs `files` in order on `session` after `log`, stopping at the first failing one. */
  function RunScripts(h: Handler, session: nat, dir: string, files: seq<string>, log: seq<Event>): ScriptRun
    decreases |files|
  {
    if files == [] then ScriptRun(log, None)
    else
      var query := ScriptText(h, dir, files[0]);
      var next := log + [Execute(session, query)];
      if h.execute(log, query) != NoError then ScriptRun(next, Some(files[0]))
      else RunScripts(h, session, dir, files[1..], next)
  }

  /** The `execute_query` calls that running `files` in order, none stopping, makes. */
  function ScriptCalls(h: Handler, session: nat, dir: string, files: seq<string>): seq<Event> {
    seq(|files|, i requires 0 <= i < |files| => Execute(session, ScriptText(h, dir, files[i])))
  }

  /**
    Running the first `j + 1` scripts after `log` is running the first one, then the `j`
    after it.
   */
  lemma ScriptCallsFirst(h: Handler, session: nat, dir: string, files: seq<string>, log: seq<Event>, j: nat)
    requires j < |files|
    ensures log + ScriptCalls(h, session, dir, files[..j + 1])
         == log + [Execute(session, ScriptText(h, dir, files[0]))] + ScriptCalls(h, session, dir, files[1..][..j])
  {
    var a := ScriptCalls(h, session, dir, files[..j + 1]);
    var b := [Execute(session, ScriptText(h, dir, files[0]))] + ScriptCalls(h, session, dir, files[1..][..j]);
    forall i | 0 <= i < |a| ensures a[i] == b[i] {
      if i > 0 {
        assert files[1..][..j][i - 1] == files[i];
      }
    }
    assert a == b;
  }

  /**
    The `k`-th script of the schedule is the first the database does not answer with
    `NO_ERROR`: exactly scripts 0 to `k` run, and the run fails naming script `k`.
   */
  lemma {:induction false} RunScriptsFirstFailure(h: Handler, session: nat, dir: string, files: seq<string>, log: seq<Event>, k: nat)
    requires k < |files|
    requires forall j :: 0 <= j < k ==>
      h.execute(log + ScriptCalls(h, session, dir, files[..j]), ScriptText(h, dir, files[j])) == NoError
    requires h.execute(log + ScriptCalls(h, session, dir, files[..k]), ScriptText(h, dir, files[k])) != NoError
    ensures RunScripts(h, session, dir, files, log)
         == ScriptRun(log + ScriptCalls(h, session, dir, files[..k + 1]), Some(files[k]))
    decreases |files|
  {
    var next := log + [Execute(session, ScriptText(h, dir, files[0]))];
    assert files[..0] == [] && log + ScriptCalls(h, session, dir, files[..0]) == log;
    ScriptCallsFirst(h, session, dir, files, log, k);
    if k > 0 {
      forall j | 0 <= j < k - 1
        ensures h.execute(next + ScriptCalls(h, session, dir, files[1..][..j]), ScriptText(h, dir, files[1..][j])) == NoError
      {
        ScriptCallsFirst(h, session, dir, files, log, j);
      }
      ScriptCallsFirst(h, session, dir, files, log, k - 1);
      RunScriptsFirstFailure(h, session, dir, files[1..], next, k - 1);
    }
  }

  /** When the database answers every script with `NO_ERROR`, every script runs and nothing fails. */
  lemma {:induction false} RunScriptsAllSucceed(h: Handler, session: nat, dir: string, files: seq<string>, log: seq<Event>)
    requires forall j :: 0 <= j < |files| ==>
      h.execute(log + ScriptCalls(h, session, dir, files[..j]), ScriptText(h, dir, files[j])) == NoError
    ensures RunScripts(h, session, dir, files, log) == ScriptRun(log + ScriptCalls(h, session, dir, files), None)
    decreases |files|
  {
    if files == [] {
      assert log + ScriptCalls(h, session, dir, files) == log;
    } else {
      var next := log + [Execute(session, ScriptText(h, dir, files[0]))];
      assert files[..0] == [] && log + ScriptCalls(h, session, dir, files[..0]) == log;
      forall j | 0 <= j < |files| - 1
        ensures h.execute(next + ScriptCalls(h, session, dir, files[1..][..j]), ScriptText(h, dir, files[1..][j])) == NoError
      {
        ScriptCallsFirst(h, session, dir, files, log, j);
      }
      RunScriptsAllSucceed(h, session, dir, files[1..], next);
      ScriptCallsFirst(h, session, dir, files, log, |files| - 1);
      assert files[..|files|] == files && files[1..][..|files| - 1] == files[1..];
    }
  }

  /**
    `r` is a run of `files` after `log`: it executes the scripts' texts in schedule order,
    for a leading part of the schedule. Every script run before the last one was answered
    `NO_ERROR`; the last one was answered `NO_ERROR` exactly when the run reports no
    failure. A failure names the last script run; without one, every script ran.
   */
  predicate IsRunOf(h: Handler, session: nat, dir: string, files: seq<string>, log: seq<Event>, r: ScriptRun) {
    var n := |r.log| - |log|;
    0 <= n <= |files| && r.log == log + ScriptCalls(h, session, dir, files[..n]) &&
    (forall j :: 0 <= j < n ==>
      (h.execute(log + ScriptCalls(h, session, dir, files[..j]), ScriptText(h, dir, files[j])) == NoError
       <==> j < n - 1 || r.failed.None?)) &&
    (r.failed.None? ==> n == |files|) &&
    (r.failed.Some? ==> 0 < n && r.failed.value == files[n - 1])
  }

  /** A run of the rest after a first script answered `NO_ERROR` is a run of the whole schedule. */
  lemma IsRunOfAfterFirst(h: Handler, session: nat, dir: string, files: seq<string>, log: seq<Event>, r: ScriptRun)
    requires files != [] && h.execute(log, ScriptText(h, dir, files[0])) == NoError
    requires IsRunOf(h, session, dir, files[1..], log + [Execute(session, ScriptText(h, dir, files[0]))], r)
    ensures IsRunOf(h, session, dir, files, log, r)
  {
    var next := log + [Execute(session, ScriptText(h, dir, files[0]))];
    var n := |r.log| - |log|;
    assert files[..0] == [] && log + ScriptCalls(h, session, dir, files[..0]) == log;
    ScriptCallsFirst(h, session, dir, files, log, n - 1);
    forall j | 1 <= j < n
      ensures h.execute(log + ScriptCalls(h, session, dir, files[..j]), ScriptText(h, dir, files[j])) == NoError
          <==> j < n - 1 || r.failed.None?
    {
      ScriptCallsFirst(h, session, dir, files, log, j - 1);
      assert files[1..][j - 1] == files[j];
    }
    if r.failed.Some? {
      assert files[1..][n - 2] == files[n - 1];
    }
  }

  /** A first script not answered `NO_ERROR` is a whole run, and a failed one. */
  lemma IsRunOfFirstFails(h: Handler, session: nat, dir: string, files: seq<string>, log: seq<Event>)
    requires files != [] && h.execute(log, ScriptText(h, dir, files[0])) != NoError
    ensures IsRunOf(h, session, dir, files, log,
      ScriptRun(log + [Execute(session, ScriptText(h, dir, files[0]))], Some(files[0])))
  {
    assert files[..0] == [] && log + ScriptCalls(h, session, dir, files[..0]) == log;
    ScriptCallsFirst(h, session, dir, files, log, 0);
    assert files[1..][..0] == [];
  }

  /** `RunScripts` describes a run of the schedule, as `IsRunOf` spells out. */
  lemma {:induction false} RunScriptsTrace(h: Handler, session: nat, dir: string, files: seq<string>, log: seq<Event>)
    ensures IsRunOf(h, session, dir, files, log, RunScripts(h, session, dir, files, log))
    decreases |files|
  {
    if files == [] {
      assert log + ScriptCalls(h, session, dir, files[..0]) == log;
    } else {
      var query := ScriptText(h, dir, files[0]);
      var next := log + [Execute(session, query)];
      if h.execute(log, query) == NoError {
        RunScriptsTrace(h, session, dir, files[1..], next);
        IsRunOfAfterFirst(h, session, dir, files, log, RunScripts(h, session, dir, files[1..], next));
      } else {
        IsRunOfFirstFails(h, session, dir, files, log);
      }
    }
  }

  /** The executed part of a run is all `execute_query` calls; nothing is opened, closed or reported. */
  lemma RunScriptsWorkOnly(h: Handler, session: nat, dir: string, files: seq<string>, log: seq<Event>)
    ensures var r := RunScripts(h, session, dir, files, log);
      |log| <= |r.log| && r.log[..|log|] == log && WorkOnly(r.log[|log|..])
    ensures var r := RunScripts(h, session, dir, files, log);
      forall e :: e in r.log[|log|..] ==> e.Execute?
  {
    RunScriptsTrace(h, session, dir, files, log);
    var r := RunScripts(h, session, dir, files, log);
    forall e | e in r.log[|log|..] ensures e.Execute? {
      var k :| 0 <= k < |r.log[|log|..]| && r.log[|log|..][k] == e;
      assert r.log[|log| + k] == Execute(session, ScriptText(h, dir, files[k]));
    }
  }

  /**
    `execute_sql_folder(db_session, folder)`: lists the folder, keeps and sorts the `.sql`
    names and runs them one by one; `failed` is the script whose failure raised.
   */
  method ExecuteSqlFolder(h: Handler, session: nat, folder: Folder, log0: seq<Event>)
    returns (log: seq<Event>, failed: Option<string>)
    ensures ScriptRun(log, failed) == RunScripts(h, session, folder.path, SqlFiles(folder.entries), log0)
  {
    var sqlFiles := SqlNames(folder.entries);
    var sortedSqlFiles := Sort(sqlFiles);
    log := log0;
    var i := 0;
    while i < |sortedSqlFiles|
      invariant 0 <= i <= |sortedSqlFiles|
      invariant RunScripts(h, session, folder.path, sortedSqlFiles, log0)
             == RunScripts(h, session, folder.path, sortedSqlFiles[i..], log)
    {
      var sqlFile := sortedSqlFiles[i];
      var sqlQuery := h.readFile(Join(folder.path, sqlFile));
      var returnVal := h.execute(log, sqlQuery);
      log := log + [Execute(session, sqlQuery)];
      if returnVal != NoError {
        failed := Some(sqlFile);
        return;
      }
      assert sortedSqlFiles[i..][1..] == sortedSqlFiles[i + 1..];
      i := i + 1;
    }
    failed := None;
  }
}

/**
  `return_tables_by_schema` and `create_sql_staging_tables` (prehook.py): pick the
  registered tables of one source and, for each in registry order, sample one row of
  it and create its staging table in `dw_reporting`.
 */
module Staging {
  import opened Text
  import opened Effects

  /** The registry entries whose text before the first `.` is `schema`, in registry order. */
  function SchemaTables(registry: seq<string>, schema: string): seq<string> {
    if registry == [] then []
    else
      var table := registry[|registry| - 1];
      SchemaTables(registry[..|registry| - 1], schema) + (if BeforeFirstDot(table) == schema then [table] else [])
  }

  /**
    The selection keeps exactly the entries of the schema, each as often as registered.
    By `BeforeFirstDotIs`, an entry is of the schema when it is the schema name itself or
    starts with the schema name and a dot.
   */
  lemma {:induction false} SchemaTablesCount(registry: seq<string>, schema: string, t: string)
    ensures multiset(SchemaTables(registry, schema))[t] ==
      if BeforeFirstDot(t) == schema then multiset(registry)[t] else 0
  {
    if registry != [] {
      var n := |registry| - 1;
      SchemaTablesCount(registry[..n], schema, t);
      assert registry == registry[..n] + [registry[n]];
      assert multiset(registry) == multiset(registry[..n]) + multiset{registry[n]};
    }
  }

  /** The selection keeps registry order: selecting from two parts is selecting from each in turn. */
  lemma {:induction false} SchemaTablesSplit(a: seq<string>, b: seq<string>, schema: string)
    ensures SchemaTables(a + b, schema) == SchemaTables(a, schema) + SchemaTables(b, schema)
    decreases |b|
  {
    if b == [] {
      assert a + b == a;
    } else {
      var n := |b| - 1;
      SchemaTablesSplit(a, b[..n], schema);
      assert (a + b)[..|a + b| - 1] == a + b[..n];
    }
  }

  /** `return_tables_by_schema(schema_name)`: the loop of prehook.py:84-89 over the registry. */
  method TablesBySchema(registry: seq<string>, schemaName: string) returns (schemaTables: seq<string>)
    ensures schemaTables == SchemaTables(registry, schemaName)
  {
    schemaTables := [];
    for k := 0 to |registry|
      invariant schemaTables == SchemaTables(registry[..k], schemaName)
    {
      var table := registry[k];
      assert registry[..k + 1][..k] == registry[..k];
      if BeforeFirstDot(table) == schemaName {
        schemaTables := schemaTables + [table];
      }
    }
    assert registry[..|registry|] == registry;
  }

  function Spaces(n: nat): string {
    seq(n, _ => ' ')
  }

  /** The sample query of prehook.py:95-97, with the line breaks and indentation of the f-string. */
  function StagingQuery(source: string, table: string): string {
    "\n" + Spaces(16) + "SELECT * FROM " + source + "." + table + " LIMIT 1\n" + Spaces(8)
  }

  /** The staging table name of prehook.py:103. */
  function StagingName(source: string, table: string): string {
    "stg_" + source + "_" + table
  }

  /** The sample query reads `source.table`; `at` is where that name starts in the query. */
  lemma StagingQueryReads(source: string, table: string)
    ensures var q := StagingQuery(source, table);
      var at := 1 + 16 + |"SELECT * FROM "|;
      |q| == at + |source| + 1 + |table| + |" LIMIT 1\n"| + 8 &&
      q[at..at + |source| + 1 + |table|] == source + "." + table
  {
    var q := StagingQuery(source, table);
    var at := 1 + 16 + |"SELECT * FROM "|;
    assert q == ("\n" + Spaces(16) + "SELECT * FROM ") + (source + "." + table) + (" LIMIT 1\n" + Spaces(8));
  }

  /**
    Staging names are `stg_` and the source in front of the table, and distinct tables of
    one source never share a staging table.
   */
  lemma StagingNameSpec(source: string, t1: string, t2: string)
    ensures StartsWith(StagingName(source, t1), "stg_" + source + "_")
    ensures EndsWith(StagingName(source, t1), t1)
    ensures StagingName(source, t1) == StagingName(source, t2) <==> t1 == t2
  {
    var p := "stg_" + source + "_";
    assert StagingName(source, t1) == p + t1 && StagingName(source, t2) == p + t2;
    if StagingName(source, t1) == StagingName(source, t2) {
      assert t1 == (p + t1)[|p|..];
    }
    assert (p + t1)[..|p|] == p;
    assert (p + t1)[|p + t1| - |t1|..] == t1;
  }

  /**
    Every table the builder picks for `source` starts with `source` (the registry keeps
    schema-qualified names), so the table it samples and the staging name it creates both
    carry the source twice: `source.source...` and `stg_source_source...`.
   */
  lemma SelectedTablesRepeatSource(registry: seq<string>, source: string, t: string)
    requires t in SchemaTables(registry, source)
    ensures StartsWith(source + "." + t, source + "." + source)
    ensures StartsWith(StagingName(source, t), "stg_" + source + "_" + source)
  {
    SchemaTablesCount(registry, source, t);
    assert t in multiset(SchemaTables(registry, source));
    BeforeFirstDotSpec(t);
    assert StartsWith(t, source);
    assert (source + "." + t)[..|source + "." + source|] == source + "." + t[..|source|];
    assert StagingName(source, t)[..|"stg_" + source + "_" + source|] == "stg_" + source + "_" + t[..|source|];
  }

  /** The calls of the loop of prehook.py:94-107 for `tables`, after `log`. */
  function StagingCalls(h: Handler, session: nat, source: string, tables: seq<string>, log: seq<Event>): seq<Event> {
    if tables == [] then log
    else
      var n := |tables| - 1;
      var before := StagingCalls(h, session, source, tables[..n], log);
      var query := StagingQuery(source, tables[n]);
      var df := h.sample(before, query);
      before + [Sample(session, query), Execute(session, h.createStatement(df, "dw_reporting", StagingName(source, tables[n])))]
  }

  /**
    For each selected table in order the builder makes two calls: it samples
    `source.table`, then runs the CREATE generated from that sample for
    `dw_reporting.stg_<source>_<table>`. No tables means no calls.
   */
  lemma {:induction false} StagingCallsShape(h: Handler, session: nat, source: string, tables: seq<string>, log: seq<Event>)
    ensures var out := StagingCalls(h, session, source, tables, log);
      |out| == |log| + 2 * |tables| && out[..|log|] == log &&
      forall i :: 0 <= i < |tables| ==>
        out[|log| + 2 * i] == Sample(session, StagingQuery(source, tables[i])) &&
        out[|log| + 2 * i + 1] == Execute(session, h.createStatement(
          h.sample(out[..|log| + 2 * i], StagingQuery(source, tables[i])), "dw_reporting", StagingName(source, tables[i])))
  {
    if tables != [] {
      var n := |tables| - 1;
      StagingCallsShape(h, session, source, tables[..n], log);
      var before := StagingCalls(h, session, source, tables[..n], log);
      var out := StagingCalls(h, session, source, tables, log);
      assert out[..|before|] == before;
      forall i | 0 <= i < |tables|
        ensures out[|log| + 2 * i] == Sample(session, StagingQuery(source, tables[i]))
        ensures out[|log| + 2 * i + 1] == Execute(session, h.createStatement(
          h.sample(out[..|log| + 2 * i], StagingQuery(source, tables[i])), "dw_reporting", StagingName(source, tables[i])))
      {
        if i < n {
          assert tables[..n][i] == tables[i];
          assert out[..|log| + 2 * i] == before[..|log| + 2 * i];
        }
      }
    }
  }

  /** The staging builder only samples and executes: it opens, closes and reports nothing. */
  lemma StagingCallsWorkOnly(h: Handler, session: nat, source: string, tables: seq<string>, log: seq<Event>)
    ensures var out := StagingCalls(h, session, source, tables, log);
      |log| <= |out| && WorkOnly(out[|log|..])
    ensures var out := StagingCalls(h, session, source, tables, log);
      forall e :: e in out[|log|..] ==> e.Sample? || e.Execute?
  {
    StagingCallsShape(h, session, source, tables, log);
    var out := StagingCalls(h, session, source, tables, log);
    forall e | e in out[|log|..] ensures e.Sample? || e.Execute? {
      var k :| 0 <= k < |out[|log|..]| && out[|log|..][k] == e;
      var i := k / 2;
      assert k == 2 * i || k == 2 * i + 1;
      var query := StagingQuery(source, tables[i]);
      assert out[|log| + 2 * i] == Sample(session, query);
    }
  }

  /**
    The selection is empty exactly when no registry entry belongs to the source, and then
    the builder makes no call at all.
   */
  lemma NoSelectionNoCalls(h: Handler, session: nat, registry: seq<string>, source: string, log: seq<Event>)
    ensures SchemaTables(registry, source) == [] <==> forall t :: t in registry ==> BeforeFirstDot(t) != source
    ensures SchemaTables(registry, source) == [] ==> StagingCalls(h, session, source, SchemaTables(registry, source), log) == log
  {
    if SchemaTables(registry, source) == [] {
      forall t | t in registry ensures BeforeFirstDot(t) != source {
        SchemaTablesCount(registry, source, t);
      }
    } else {
      var t := SchemaTables(registry, source)[0];
      SchemaTablesCount(registry, source, t);
      assert t in multiset(SchemaTables(registry, source));
    }
  }

  /**
    `create_sql_staging_tables(db_session, source_name)`: for each registered table of the
    source, sample it, then create its staging table from the sample. The answers of
    `execute_query` are dropped.
   */
  method CreateStagingTables(h: Handler, lk: Lookups, session: nat, sourceName: string, log0: seq<Event>)
    returns (log: seq<Event>)
    ensures log == StagingCalls(h, session, sourceName, SchemaTables(lk.tablesToReplicate, sourceName), log0)
  {
    var tables := TablesBySchema(lk.tablesToReplicate, sourceName);
    log := log0;
    for k := 0 to |tables|
      invariant log == StagingCalls(h, session, sourceName, tables[..k], log0)
    {
      var table := tables[k];
      var stagingQuery := StagingQuery(sourceName, table);
      var stagingDf := h.sample(log, stagingQuery);
      log := log + [Sample(session, stagingQuery)];
      var dstTable := StagingName(sourceName, table);
      var createStmt := h.createStatement(stagingDf, "dw_reporting", dstTable);
      log := log + [Execute(session, createStmt)];
      assert tables[..k + 1][..k] == tables[..k];
    }
    assert tables[..|tables|] == tables;
  }
}

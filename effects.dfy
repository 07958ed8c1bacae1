/**
  The collaborators the pre-hook runner calls but does not define (`database_handler`,
  the `lookups` enums, file reads) and the log of calls it makes to them.

  Every collaborator is an oracle: a total function of its arguments and, for the
  database, of the calls made before. A run is described by the log it appends to.
 */
module Effects {

  datatype Option<T> = None | Some(value: T)

  /** What `execute_query` answers: `ErrorHandling.NO_ERROR` or another member of that enum. */
  datatype Status = NoError | Error(name: string)

  /** A dataframe as far as the runner touches it: named columns and rows. */
  datatype Frame = Frame(columns: seq<string>, rows: seq<seq<string>>)

  /** One call to a collaborator; sessions are numbered in the order they were opened. */
  datatype Event =
    | Connect(session: nat)                        // create_connection()
    | Close(session: nat)                          // close_connection(db_session)
    | Execute(session: nat, query: string)         // execute_query(db_session, query)
    | LoadCsv(path: string)                        // return_data_as_df(path, InputTypes.CSV)
    | Sample(session: nat, query: string)          // return_data_as_df(..., InputTypes.SQL, query)
    | Report(prefix: string, detail: string)       // show_error_message(prefix, detail)

  /**
    The collaborators. `execute` and `sample` see the log of the calls made before them,
    so the database may answer according to everything that was done to it.
   */
  datatype Handler = Handler(
    readFile: string -> string,                      // open(path).read()
    execute: (seq<Event>, string) -> Status,         // execute_query
    loadCsv: string -> Frame,                        // return_data_as_df on a CSV file
    sample: (seq<Event>, string) -> Frame,           // return_data_as_df on a query
    createStatement: (Frame, string, string) -> string,  // return_create_statement_from_df
    insertStatements: (Frame, string) -> seq<string>)    // return_insert_into_sql_statement_from_df

  /** The members of the `lookups` enums the runner uses; their values are not part of this model. */
  datatype Lookups = Lookups(
    storeSchema: string,          // SourceName.Store.value
    dvdRental: string,            // SourceName.DVD_RENTAL as passed to the staging builder
    executeSqlStep: string,       // PreHookSteps.EXECUTE_SQL_QUERY.value
    fileExecutorError: string,    // ErrorHandling.FILE_EXECUTOR_ERROR.value
    prehookSqlError: string,      // ErrorHandling.PREHOOK_SQL_ERROR.value
    tablesToReplicate: seq<string>)  // the values of SQLTablesToReplicate, in declaration order

  /** A directory as the runner sees it: its path and what `os.listdir` returns for it. */
  datatype Folder = Folder(path: string, entries: seq<string>)

  /** The number of sessions opened in `log`; `create_connection` hands out the next one. */
  function Opened(log: seq<Event>): nat {
    if log == [] then 0
    else Opened(log[..|log| - 1]) + (if log[|log| - 1].Connect? then 1 else 0)
  }

  /** The calls a runner makes on the database and the files, none of which opens, closes or reports. */
  predicate WorkOnly(events: seq<Event>) {
    forall e :: e in events ==> e.Execute? || e.LoadCsv? || e.Sample?
  }

  /** One `execute_query` call on `session` per query, in order. */
  function Executes(session: nat, queries: seq<string>): seq<Event> {
    seq(|queries|, i requires 0 <= i < |queries| => Execute(session, queries[i]))
  }
}

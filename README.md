# Pre-hook ETL runner: a Dafny model of `prehook.py`

`prehook.py` prepares a reporting database in three steps.

1. It runs every `.sql` script of a directory in ascending name order. It stops at the
   first script the database does not answer with `NO_ERROR`, and raises an error that
   names that script.
2. It can load every `.csv` file of a second directory as a table of the store schema.
   The column names have their spaces replaced by underscores. Each file gets one
   CREATE and then its INSERTs.
3. It builds staging tables for one source. The source's tables are picked from a
   registry by the text before the first `.`. Each one is sampled, and a
   `dw_reporting.stg_<source>_<table>` table is created from the sample.

`file_executor` wraps steps 1 and 2 in a connection that it always closes. It reports a
failure once and re-raises it under a fixed message. `execute_prehook` wraps
`file_executor` and step 3 in a second connection, which it closes only when nothing
failed.

The model replaces every collaborator with an oracle:

- the database handler;
- file reads;
- pandas;
- the `lookups` enums.

A run is described by the log of calls it appends to (`Effects.Event`). The database's
answer to a query is a function of the query and of every call made before it. Each
loop of the source is a method proved equal to a function. The loops that call a
collaborator extend the log; the two that only collect names (`CsvLoader.CollectCsv`,
`Staging.TablesBySchema`) return lists. The source's promises are proved as lemmas
about those functions.

Modules:

| module | file | models |
|---|---|---|
| `Text` | text.dfy | `str.endswith`, `str.replace(" ", "_")`, `str.split(".")[0]`, POSIX `os.path.join` |
| `Order` | order.dfy | Python's `str` order and `sorted` |
| `Effects` | effects.dfy | collaborators, call log, session numbering |
| `SqlRunner` | sql_runner.dfy | `execute_sql_folder` |
| `CsvLoader` | csv_loader.dfy | `execute_csv_folder` |
| `Staging` | staging.dfy | `return_tables_by_schema`, `create_sql_staging_tables` |
| `Executor` | executor.dfy | `file_executor`, `execute_prehook` |

Behaviours of the code that a reader might not expect, each kept as written:

- **A failed CSV statement does not stop the loader.** `execute_csv_folder` discards
  every `execute_query` answer (prehook.py:56, 61), so a failed CREATE or INSERT is never
  seen and the loader always runs to the end (`CsvLoader.CsvCallsIgnoreAnswers`).
- **The CSV paths and names are sorted as two separate lists** (prehook.py:45-46), and
  then paired by index (prehook.py:47-54). The model proves the two lists stay aligned
  for any directory listing (`CsvLoader.CsvSortAligned`).
- **`execute_prehook` closes its own connection only on success.** Its
  `close_connection` is the last statement of the `try` (prehook.py:119), and its
  `except` does not close (prehook.py:120-124). `file_executor` closes in a `finally`
  (prehook.py:79-80), so only the connection it opens is always closed
  (`Executor.PrehookOnFailure`).
- **A failed script is reported twice, and only the first report names it.**
  `file_executor` reports the script's error message (prehook.py:73-76) and re-raises a
  fixed message (prehook.py:77). `execute_prehook` reports that fixed message again
  (prehook.py:120-123), so the script's name does not reach the last report
  (`Executor.PrehookOnFailure`).
- **Duplicate column names are not caught.** Renaming can make two column names equal,
  for example "First Name" and "First_Name" (prehook.py:51). The code does not detect
  this, and neither does the model (`CsvLoader.NormalizeColumnsExample`).
- **The source name can appear twice.** A table is selected when its text before the
  first `.` is the source (prehook.py:87), so every selected entry begins with the
  source (`Text.BeforeFirstDotSpec`). The sample query and the staging name
  put the source in front of the entry once more (prehook.py:96, 103), and the model
  keeps that concatenation as written (`Staging.SelectedTablesRepeatSource`).

## Model

| member | source | states |
|---|---|---|
| Text.EndsWith | prehook.py:24 | `s.endswith(suffix)`: `s` ends with `suffix`: its last characters, as many as `suffix` has, equal `suffix`, compared exactly; also the `.csv` test at prehook.py:42 |
| Text.ReplaceSpaces | prehook.py:51 | `col.replace(" ", "_")`: left to right, each space becomes `_` and every other character is kept |
| Text.ReplaceSpacesPointwise | prehook.py:51 | `col.replace(" ", "_")` keeps the length, turns each space into `_` and keeps every other character |
| Text.NoSpaceAfterReplace | prehook.py:51 | a renamed column holds no space |
| Text.ReplaceSpacesIdempotent | prehook.py:51 | renaming twice is renaming once |
| Text.BeforeFirstDot | prehook.py:87 | `table.split(".")[0]`: the characters before the first `.`, or the whole string when it holds no `.` |
| Text.BeforeFirstDotSpec | prehook.py:87 | `table.split(".")[0]` is a dot-free prefix of the table, and is either all of it or followed by a `.` |
| Text.BeforeFirstDotIs | prehook.py:87 | `table.split(".")[0] == k` exactly when `k` holds no dot and the table is `k` or starts with `k.` |
| Text.Join | prehook.py:43 | POSIX `os.path.join(folder, name)`: a name starting with `/` replaces the folder; otherwise the folder, then a `/` unless the folder is empty or already ends with one, then the name |
| Text.ListingName | prehook.py:41 | what `os.listdir` guarantees of each name it returns: not empty and holding no `/`; the aligned-sort lemmas rest on it |
| Text.JoinListingName | prehook.py:43 | joining a folder with a listed name puts the folder's prefix in front of the name, and the path ends with the name |
| Order.LexLe | prehook.py:26 | Python's `<=` on `str`: compare character by character by code point; a string comes before every longer string it is a prefix of |
| Order.Sort | prehook.py:26 | `sorted` on a list of `str`: an insertion sort under `LexLe` |
| Order.SortSpec | prehook.py:26 | `sorted` gives an ascending permutation of its input |
| Order.AscendingUnique | prehook.py:26 | two ascending permutations of one list are equal, so the model's sort is Python's `sorted` |
| Order.LexLeCommonPrefix | prehook.py:45-46 | a common leading part does not change how two strings compare |
| Order.SortPrefixed | prehook.py:45-46 | sorting names that share one leading part gives the sorted names with that part in front |
| SqlRunner.SqlNames | prehook.py:21-25 | the comprehension over `os.listdir`: the listed names ending in `.sql`, in listing order |
| SqlRunner.SqlFiles | prehook.py:26 | `sorted(sql_files)`: the `.sql` names sorted under `LexLe` |
| SqlRunner.SqlFilesSelection | prehook.py:21-26 | the schedule is ascending, holds exactly the listed names ending in `.sql`, each as often as listed, and nothing else |
| SqlRunner.SqlFilesExample | prehook.py:21-26 | `["b.sql","a.sql","10.sql","notes.txt","2.sql"]` is run as `["10.sql","2.sql","a.sql","b.sql"]` |
| SqlRunner.SqlFileErrorMessage | prehook.py:32-35 | the raised message ends with the failing file's name |
| SqlRunner.ScriptText | prehook.py:28-29 | `open(os.path.join(dir, name)).read()`: the whole content of the joined path, as the file-read oracle gives it |
| SqlRunner.RunScripts | prehook.py:27-35 | the `for` loop: each script in order is read whole and executed against the log so far; the first answer other than `NO_ERROR` stops the run and names that script |
| SqlRunner.RunScriptsTrace | prehook.py:27-35 | a run executes each script's text in schedule order, for a leading part of the schedule; every script before the last was answered `NO_ERROR`; the last one was answered `NO_ERROR` exactly when nothing failed; a failure names the last script run; with no failure every script ran |
| SqlRunner.RunScriptsFirstFailure | prehook.py:27-35 | if script `k` is the first not answered `NO_ERROR`, exactly scripts 0 to `k` run and the failure names script `k` |
| SqlRunner.RunScriptsAllSucceed | prehook.py:27-35 | if every script is answered `NO_ERROR`, every script runs in order and nothing fails |
| SqlRunner.RunScriptsWorkOnly | prehook.py:27-30 | the runner keeps the prior log and adds only `execute_query` calls: it opens, closes, loads, samples and reports nothing |
| SqlRunner.ExecuteSqlFolder | prehook.py:20-35 | the loop makes the calls and the failure the run function describes |
| CsvLoader.NormalizeColumns | prehook.py:51 | the list comprehension that renames every column of the dataframe with `col.replace(" ", "_")` |
| CsvLoader.NormalizeColumnsSpec | prehook.py:51 | the rename keeps the column count and each name's length, turns exactly the spaces into `_`, leaves no space, and is idempotent |
| CsvLoader.NormalizeColumnsExample | prehook.py:51 | "First Name" and "First_Name" are different names that both become "First_Name", so the renamed columns collide |
| CsvLoader.NormalizeFrame | prehook.py:51 | `df.columns = [...]`: the same dataframe with every column renamed by `NormalizeColumns` |
| CsvLoader.CsvFileCalls | prehook.py:48-61 | one iteration of the index loop: load the file, rename its columns, execute the CREATE for the store schema named after the file, then execute each generated INSERT in order |
| CsvLoader.CsvFileCallsShape | prehook.py:48-61 | one file gives one load, one CREATE for the table named after the file, then its INSERTs in generated order, all from the renamed dataframe with space-free column names |
| CsvLoader.CsvCalls | prehook.py:47-61 | the index loop over the aligned paths and names: the calls for file 0, then file 1, and so on |
| CsvLoader.CsvFolderCalls | prehook.py:38-61 | the whole of `execute_csv_folder`: collect the paths and names, sort each list on its own, then run the index loop over them |
| Effects.Executes | prehook.py:60-61 | the INSERT loop: one `execute_query` call on the session per statement, in order |
| Effects.Opened | prehook.py:65 | the handle `create_connection` returns (prehook.py:65, 112): the number of connections opened earlier in the log |
| CsvLoader.CsvCallsByNameSplit | prehook.py:47-61 | the calls for a list of files are the calls for each file in turn, so one file's calls are never interleaved with another's |
| CsvLoader.CsvCallsIgnoreAnswers | prehook.py:56-61 | the loader makes the same calls whatever the database answers, so a failed statement never stops it |
| CsvLoader.CsvCallsWorkOnly | prehook.py:47-61 | the loader's calls are CSV loads and `execute_query` calls only: it opens, closes, samples and reports nothing |
| CsvLoader.CsvNames | prehook.py:41-44 | the names the listing loop appends to `csv_name`: the listed names ending in `.csv`, in listing order |
| CsvLoader.CsvPaths | prehook.py:41-43 | the paths the same loop appends to `csv_files`: the folder joined with each of those names, in the same order |
| CsvLoader.CsvNamesCount | prehook.py:41-44 | the loop collects every listed name ending in `.csv`, each as often as it is listed, and no other name |
| CsvLoader.CsvNamesSelect | prehook.py:41-44 | a name is collected exactly when it is listed and ends in `.csv` |
| CsvLoader.CsvPathsPrefixed | prehook.py:41-44 | each collected path is the folder's join prefix followed by the collected name |
| CsvLoader.CsvSortAligned | prehook.py:41-46 | after the two separate sorts, the i-th path is the folder joined with the i-th name |
| CsvLoader.CsvCallsAligned | prehook.py:47-61 | over aligned lists, the loop makes the calls for the files named by the name list |
| CsvLoader.CsvFolderByName | prehook.py:38-61 | for a directory listing, the loader processes the `.csv` files in ascending name order, each CREATE naming that file's table |
| CsvLoader.CollectCsv | prehook.py:39-44 | the listing loop collects the `.csv` paths and names in listing order |
| CsvLoader.LoadCsvFile | prehook.py:48-61 | one iteration appends exactly the calls for that file |
| CsvLoader.ExecuteCsvFolder | prehook.py:38-61 | the method appends exactly `CsvFolderCalls` for the folder |
| Staging.SchemaTables | prehook.py:83-89 | the registry entries whose text before the first `.` equals the schema, in registry order |
| Staging.SchemaTablesCount | prehook.py:83-89 | the selection keeps exactly the registry entries whose text before the first `.` is the schema, each as often as registered |
| Staging.SchemaTablesSplit | prehook.py:86-88 | the selection keeps registry order |
| Staging.NoSelectionNoCalls | prehook.py:93-94 | the selection is empty exactly when no entry belongs to the source, and then the builder makes no call |
| Staging.TablesBySchema | prehook.py:83-89 | the append loop returns the selection |
| Staging.StagingQuery | prehook.py:95-97 | the f-string's text: a line break, 16 spaces, `SELECT * FROM <source>.<table> LIMIT 1`, a line break and 8 spaces |
| Staging.StagingQueryReads | prehook.py:95-97 | the sample query reads `source.table` at a fixed offset inside the f-string's text |
| Staging.StagingName | prehook.py:103 | `f"stg_{source_name}_{table}"` |
| Staging.StagingNameSpec | prehook.py:103 | the staging name starts with `stg_<source>_`, ends with the table, and different tables of one source get different names |
| Staging.SelectedTablesRepeatSource | prehook.py:87-103 | a selected table starts with the source, so the sampled name and the staging name both carry the source twice |
| Staging.StagingCalls | prehook.py:94-107 | the `for` loop over the selected tables: for each, sample its query against the log so far, then execute the CREATE in `dw_reporting` built from the sample under the staging name |
| Staging.StagingCallsShape | prehook.py:94-107 | each selected table, in order, gives one sample of `source.table`, then one CREATE in `dw_reporting` for `stg_<source>_<table>` generated from that sample |
| Staging.StagingCallsWorkOnly | prehook.py:94-107 | after the prior log the builder adds only samples and `execute_query` calls: it opens, closes, loads CSV files and reports nothing |
| Staging.CreateStagingTables | prehook.py:92-107 | the method appends exactly the builder's calls for the source's selection |
| Executor.CsvRequested | prehook.py:70 | `if csv_file_path:`: a CSV folder is given and its path is not the empty string |
| Executor.FileExecutorRun | prehook.py:64-80 | `file_executor`: connect; run the scripts; on a failure report the script's message, raise "File Executor Execution Failed" and close; otherwise load the CSV folder when one is requested, then close |
| Executor.FileExecutorDiscipline | prehook.py:64-80 | `file_executor` opens its connection first and closes it last; in between come only work calls and, only on failure, one report naming the failing script; it raises the fixed message exactly when a script failed |
| Executor.FileExecutorBracketed | prehook.py:64-80 | the connection's stretch of the log is bracketed by its open and close, and any raise carries the fixed message |
| Executor.FileExecutorClosesOnce | prehook.py:64-80 | the connection is closed exactly once, as the last call, and no other session is closed; a report is made exactly when it raises, once, just before the close |
| Executor.FileExecutor | prehook.py:64-80 | the method makes the calls and the raise the run function describes |
| Executor.PrehookRun | prehook.py:110-124 | `execute_prehook`: connect; run `file_executor`; when it raised, report its message and raise "Important Step Failed" without closing; otherwise build the staging tables of the DVD rental source and close |
| Executor.PrehookOnSuccess | prehook.py:110-119 | on success, `execute_prehook` opened its session first and the inner one next, closed the inner one, and closes its own exactly once as its last call |
| Executor.PrehookOnFailure | prehook.py:110-124 | when `file_executor` raised, the inner session is still closed and the outer one never is; exactly two reports follow the start: `file_executor`'s, naming the failed script, two calls before the end, and then `execute_prehook`'s, whose detail is only "File Executor Execution Failed"; "Important Step Failed" is raised |
| Executor.ExecutePrehook | prehook.py:110-124 | the method makes the calls and the raise the run function describes |

## Left out

- Filesystem access is not modelled. `os.listdir` is the `entries` of a `Folder`, and `open(...).read()` is the `readFile` oracle. Text decoding and directory order are therefore whatever the inputs say.
- The `database_handler` collaborators are oracles in `Effects.Handler`: `create_connection`, `close_connection`, `execute_query`, `return_data_as_df` and the CREATE/INSERT generators. Their own exceptions are not modelled, because every oracle is total. The only raise is the one on a failed script, with the raises built on it.
- `execute_prehook` catches exceptions from the staging step as well. With total collaborators the staging step cannot raise, so that path is not modelled.
- pandas' CSV parsing and type inference are not modelled. A dataframe is only named columns and rows. What a zero-row sample produces is left to the oracles.
- The values of the `lookups` enums are not modelled. The members the runner uses are fields of an `Effects.Lookups` parameter, including the replication registry in declaration order. `NO_ERROR` is `Status.NoError`.
- `show_error_message` is a single `Report(prefix, detail)` call. Its formatting and output are not modelled.
- `execute_prehook` passes its session object as `file_executor`'s directory argument. It also passes the enum member `SourceName.DVD_RENTAL` rather than its value. The model takes `file_executor`'s two arguments and the source name as parameters and gives these mix-ups no meaning.
- The staging step's `return_data_as_df` receives its query through a keyword named `file_executor`. The model assumes the handler samples that query.
- Sessions are numbered by how many connections were opened before. Connection objects, pooling and the actual release of resources are not modelled.
- `os.path.join` is modelled for POSIX paths only.
- No concurrency, timeouts or retries exist in the source, and none are modelled.
- File names holding lone surrogates (U+D800 to U+DFFF) are not representable. Python's `os.listdir` returns U+DC80 to U+DCFF for undecodable name bytes, but a Dafny `char` is a Unicode scalar value.

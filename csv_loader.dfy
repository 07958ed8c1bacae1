/**
  `execute_csv_folder` (prehook.py): load every `.csv` file of a directory, in ascending
  name order, as a table of the store schema: one CREATE, then the file's INSERTs.
  The database's answers are not looked at, so no failure stops the loop.
 */
module CsvLoader {
  import opened Text
  import opened Order
  import opened Effects

  /** prehook.py:51: every column name with its spaces replaced by underscores. */
  function NormalizeColumns(columns: seq<string>): seq<string> {
    seq(|columns|, i requires 0 <= i < |columns| => ReplaceSpaces(columns[i]))
  }

  /**
    The rename keeps the number of columns and the length of each name, turns exactly the
    spaces into underscores, leaves no space, and changes nothing when applied again.
   */
  lemma NormalizeColumnsSpec(columns: seq<string>)
    ensures |NormalizeColumns(columns)| == |columns|
    ensures forall i :: 0 <= i < |columns| ==>
      |NormalizeColumns(columns)[i]| == |columns[i]| &&
      ' ' !in NormalizeColumns(columns)[i] &&
      forall k :: 0 <= k < |columns[i]| ==>
        NormalizeColumns(columns)[i][k] == (if columns[i][k] == ' ' then '_' else columns[i][k])
    ensures NormalizeColumns(NormalizeColumns(columns)) == NormalizeColumns(columns)
  {
    var r := NormalizeColumns(columns);
    forall i | 0 <= i < |columns|
      ensures |r[i]| == |columns[i]| && ' ' !in r[i]
      ensures forall k :: 0 <= k < |columns[i]| ==> r[i][k] == (if columns[i][k] == ' ' then '_' else columns[i][k])
      ensures ReplaceSpaces(r[i]) == r[i]
    {
      ReplaceSpacesPointwise(columns[i]);
      NoSpaceAfterReplace(columns[i]);
      ReplaceSpacesIdempotent(columns[i]);
    }
  }

  lemma RenameSpaced(s: string)
    requires s == "First Name"
    ensures ReplaceSpaces(s) == "First_Name"
  {
    ReplaceSpacesPointwise(s);
  }

  lemma RenameJoined(s: string)
    requires s == "First_Name"
    ensures ReplaceSpaces(s) == s
  {
    assert ' ' !in s;
    ReplaceSpacesFixesSpaceFree(s);
  }

  /**
    "First Name" becomes "First_Name", which the rename leaves as it is: two distinct
    columns end up with one name, and nothing flags it.
   */
  lemma NormalizeColumnsExample(spaced: string, joined: string)
    requires spaced == "First Name" && joined == "First_Name"
    ensures spaced != joined && NormalizeColumns([spaced, joined]) == [joined, joined]
  {
    RenameSpaced(spaced);
    RenameJoined(joined);
    assert spaced[5] != joined[5];
  }

  /** The dataframe after `df.columns = [...]`. */
  function NormalizeFrame(df: Frame): Frame {
    df.(columns := NormalizeColumns(df.columns))
  }

  /** The names the listing loop of prehook.py:41-44 collects: those ending in `.csv`, in listing order. */
  function CsvNames(entries: seq<string>): seq<string> {
    if entries == [] then []
    else
      var file := entries[|entries| - 1];
      CsvNames(entries[..|entries| - 1]) + (if EndsWith(file, ".csv") then [file] else [])
  }

  /** The full paths the same loop collects, one per name, in the same order. */
  function CsvPaths(dir: string, entries: seq<string>): (r: seq<string>)
    ensures |r| == |CsvNames(entries)|
  {
    if entries == [] then []
    else
      var file := entries[|entries| - 1];
      CsvPaths(dir, entries[..|entries| - 1]) + (if EndsWith(file, ".csv") then [Join(dir, file)] else [])
  }

  /** The calls made for one data file: load it, create its table, insert its rows. */
  function CsvFileCalls(h: Handler, lk: Lookups, session: nat, path: string, name: string): seq<Event> {
    var df := NormalizeFrame(h.loadCsv(path));
    [LoadCsv(path), Execute(session, h.createStatement(df, lk.storeSchema, name))]
      + Executes(session, h.insertStatements(df, lk.storeSchema))
  }

  /** The calls of the loop of prehook.py:47-61 over the index-aligned lists `paths` and `names`. */
  function CsvCalls(h: Handler, lk: Lookups, session: nat, paths: seq<string>, names: seq<string>): seq<Event>
    requires |paths| == |names|
  {
    if paths == [] then []
    else
      var n := |paths| - 1;
      CsvCalls(h, lk, session, paths[..n], names[..n]) + CsvFileCalls(h, lk, session, paths[n], names[n])
  }

  /** The calls of `execute_csv_folder` on `folder`: the loop over the separately sorted paths and names. */
  function CsvFolderCalls(h: Handler, lk: Lookups, session: nat, folder: Folder): seq<Event> {
    var paths, names := CsvPaths(folder.path, folder.entries), CsvNames(folder.entries);
    SortLength(paths);
    SortLength(names);
    CsvCalls(h, lk, session, Sort(paths), Sort(names))
  }

  /** The calls the loader is meant to make: for each name in turn, the calls for that file of `dir`. */
  function CsvCallsByName(h: Handler, lk: Lookups, session: nat, dir: string, names: seq<string>): seq<Event> {
    if names == [] then []
    else
      var n := |names| - 1;
      CsvCallsByName(h, lk, session, dir, names[..n]) + CsvFileCalls(h, lk, session, Join(dir, names[n]), names[n])
  }

  /**
    The calls for one file: a single load, then a single CREATE for the table named after
    the file, then the INSERTs in the order generated. Both statements are generated from
    the dataframe with renamed columns, so no column name handed to them holds a space.
   */
  lemma CsvFileCallsShape(h: Handler, lk: Lookups, session: nat, path: string, name: string)
    ensures var df := NormalizeFrame(h.loadCsv(path));
      var calls := CsvFileCalls(h, lk, session, path, name);
      |calls| == 2 + |h.insertStatements(df, lk.storeSchema)| &&
      calls[0] == LoadCsv(path) &&
      calls[1] == Execute(session, h.createStatement(df, lk.storeSchema, name)) &&
      calls[2..] == Executes(session, h.insertStatements(df, lk.storeSchema)) &&
      |df.columns| == |h.loadCsv(path).columns| &&
      forall i :: 0 <= i < |df.columns| ==> ' ' !in df.columns[i]
  {
    NormalizeColumnsSpec(h.loadCsv(path).columns);
  }

  /**
    The files' calls come in blocks: the calls for a list of names are those for a leading
    part followed by those for the rest, so every file's CREATE and INSERTs come after all
    calls for the files before it and before any call for the files after it.
   */
  lemma {:induction false} CsvCallsByNameSplit(h: Handler, lk: Lookups, session: nat, dir: string, a: seq<string>, b: seq<string>)
    ensures CsvCallsByName(h, lk, session, dir, a + b)
         == CsvCallsByName(h, lk, session, dir, a) + CsvCallsByName(h, lk, session, dir, b)
    decreases |b|
  {
    if b == [] {
      assert a + b == a;
    } else {
      var n := |b| - 1;
      ConcatLast(a, b);
      CsvCallsByNameSplit(h, lk, session, dir, a, b[..n]);
      CsvCallsByNameLast(h, lk, session, dir, a + b[..n], b[n], a + b);
      CsvCallsByNameLast(h, lk, session, dir, b[..n], b[n], b);
      Regroup(CsvCallsByName(h, lk, session, dir, a + b), CsvCallsByName(h, lk, session, dir, a + b[..n]),
              CsvFileCalls(h, lk, session, Join(dir, b[n]), b[n]),
              CsvCallsByName(h, lk, session, dir, a), CsvCallsByName(h, lk, session, dir, b),
              CsvCallsByName(h, lk, session, dir, b[..n]));
    }
  }

  lemma ConcatLast(a: seq<string>, b: seq<string>)
    requires b != []
    ensures a + b == (a + b[..|b| - 1]) + [b[|b| - 1]]
    ensures b == b[..|b| - 1] + [b[|b| - 1]]
  {
  }

  /** The calls for `names` and then one more name are those for `names`, then that file's calls. */
  lemma CsvCallsByNameLast(h: Handler, lk: Lookups, session: nat, dir: string, names: seq<string>, x: string, all: seq<string>)
    requires all == names + [x]
    ensures CsvCallsByName(h, lk, session, dir, all)
         == CsvCallsByName(h, lk, session, dir, names) + CsvFileCalls(h, lk, session, Join(dir, x), x)
  {
    assert all[..|names|] == names;
  }

  lemma Regroup(whole: seq<Event>, init: seq<Event>, last: seq<Event>, a: seq<Event>, b: seq<Event>, bInit: seq<Event>)
    requires whole == init + last && init == a + bInit && b == bInit + last
    ensures whole == a + b
  {
  }

  /**
    Whatever the database answers, the loader makes the same calls: a failed CREATE or
    INSERT never stops it.
   */
  lemma {:induction false} CsvCallsIgnoreAnswers(h: Handler, answers: (seq<Event>, string) -> Status, lk: Lookups, session: nat, paths: seq<string>, names: seq<string>)
    requires |paths| == |names|
    ensures CsvCalls(h.(execute := answers), lk, session, paths, names) == CsvCalls(h, lk, session, paths, names)
  {
    if paths != [] {
      var n := |paths| - 1;
      CsvCallsIgnoreAnswers(h, answers, lk, session, paths[..n], names[..n]);
    }
  }

  /** The loader's calls are loads and executes only: it opens, closes and reports nothing. */
  lemma {:induction false} CsvCallsWorkOnly(h: Handler, lk: Lookups, session: nat, paths: seq<string>, names: seq<string>)
    requires |paths| == |names|
    ensures forall e :: e in CsvCalls(h, lk, session, paths, names) ==> e.LoadCsv? || e.Execute?
    ensures WorkOnly(CsvCalls(h, lk, session, paths, names))
  {
    if paths != [] {
      var n := |paths| - 1;
      CsvCallsWorkOnly(h, lk, session, paths[..n], names[..n]);
    }
  }

  lemma CsvFolderWorkOnly(h: Handler, lk: Lookups, session: nat, folder: Folder)
    ensures WorkOnly(CsvFolderCalls(h, lk, session, folder))
  {
    var paths, names := CsvPaths(folder.path, folder.entries), CsvNames(folder.entries);
    SortLength(paths);
    SortLength(names);
    CsvCallsWorkOnly(h, lk, session, Sort(paths), Sort(names));
  }

  predicate ListingNames(entries: seq<string>) {
    forall e :: e in entries ==> ListingName(e)
  }

  /** Each collected path is the folder's join prefix followed by the collected name. */
  lemma {:induction false} CsvPathsPrefixed(dir: string, entries: seq<string>)
    requires ListingNames(entries)
    ensures CsvPaths(dir, entries) == Prefixed(JoinPrefix(dir), CsvNames(entries))
  {
    if entries != [] {
      var n := |entries| - 1;
      var file := entries[n];
      assert forall e :: e in entries[..n] ==> e in entries;
      CsvPathsPrefixed(dir, entries[..n]);
      JoinListingName(dir, file);
      var p := JoinPrefix(dir);
      var names := CsvNames(entries[..n]);
      if EndsWith(file, ".csv") {
        assert Prefixed(p, names + [file]) == Prefixed(p, names) + [p + file];
      } else {
        assert names + [] == names;
      }
    }
  }

  /** The loop collects each listed name ending in `.csv` as often as it is listed, and no other name. */
  lemma {:induction false} CsvNamesCount(entries: seq<string>, x: string)
    ensures multiset(CsvNames(entries))[x] == if EndsWith(x, ".csv") then multiset(entries)[x] else 0
  {
    if entries != [] {
      var n := |entries| - 1;
      CsvNamesCount(entries[..n], x);
      assert entries == entries[..n] + [entries[n]];
    }
  }

  /** A name is collected exactly when it is listed and ends in `.csv`. */
  lemma CsvNamesSelect(entries: seq<string>, x: string)
    ensures x in CsvNames(entries) <==> x in entries && EndsWith(x, ".csv")
  {
    CsvNamesCount(entries, x);
    assert x in CsvNames(entries) <==> x in multiset(CsvNames(entries));
    assert x in entries <==> x in multiset(entries);
  }

  /**
    Sorting the paths and the names separately keeps them aligned: the i-th sorted path
    is the folder joined with the i-th sorted name, because every path is one common
    prefix followed by its name.
   */
  lemma CsvSortAligned(dir: string, entries: seq<string>)
    requires ListingNames(entries)
    ensures |Sort(CsvPaths(dir, entries))| == |Sort(CsvNames(entries))|
    ensures forall i :: 0 <= i < |Sort(CsvNames(entries))| ==>
      Sort(CsvPaths(dir, entries))[i] == Join(dir, Sort(CsvNames(entries))[i])
  {
    var names := CsvNames(entries);
    CsvPathsPrefixed(dir, entries);
    SortPrefixed(JoinPrefix(dir), names);
    SortSpec(names);
    forall i | 0 <= i < |Sort(names)| ensures Sort(CsvPaths(dir, entries))[i] == Join(dir, Sort(names)[i]) {
      var x := Sort(names)[i];
      assert x in multiset(Sort(names));
      CsvNamesSelect(entries, x);
      JoinListingName(dir, x);
    }
  }

  /** Over aligned lists, the loop makes the calls meant for the names. */
  lemma {:induction false} CsvCallsAligned(h: Handler, lk: Lookups, session: nat, dir: string, paths: seq<string>, names: seq<string>)
    requires |paths| == |names|
    requires forall i :: 0 <= i < |names| ==> paths[i] == Join(dir, names[i])
    ensures CsvCalls(h, lk, session, paths, names) == CsvCallsByName(h, lk, session, dir, names)
  {
    if paths != [] {
      var n := |paths| - 1;
      CsvCallsAligned(h, lk, session, dir, paths[..n], names[..n]);
    }
  }

  /**
    For a directory listing, the loader loads the `.csv` files in ascending name order,
    each file's CREATE naming that file's own table.
   */
  lemma CsvFolderByName(h: Handler, lk: Lookups, session: nat, folder: Folder)
    requires ListingNames(folder.entries)
    ensures CsvFolderCalls(h, lk, session, folder)
         == CsvCallsByName(h, lk, session, folder.path, Sort(CsvNames(folder.entries)))
  {
    CsvSortAligned(folder.path, folder.entries);
    CsvCallsAligned(h, lk, session, folder.path, Sort(CsvPaths(folder.path, folder.entries)), Sort(CsvNames(folder.entries)));
  }

  /** The calls for the first `i + 1` files are those for the first `i`, then those for file `i`. */
  lemma CsvCallsUpTo(h: Handler, lk: Lookups, session: nat, paths: seq<string>, names: seq<string>, i: nat, log0: seq<Event>, log: seq<Event>)
    requires |paths| == |names| && i < |paths|
    requires log == log0 + CsvCalls(h, lk, session, paths[..i], names[..i]) + CsvFileCalls(h, lk, session, paths[i], names[i])
    ensures log == log0 + CsvCalls(h, lk, session, paths[..i + 1], names[..i + 1])
  {
    assert paths[..i + 1][..i] == paths[..i] && names[..i + 1][..i] == names[..i];
  }

  /** The listing loop of prehook.py:39-44: full paths and bare names of the `.csv` entries. */
  method CollectCsv(folder: Folder) returns (csvFiles: seq<string>, csvName: seq<string>)
    ensures csvFiles == CsvPaths(folder.path, folder.entries)
    ensures csvName == CsvNames(folder.entries)
  {
    csvFiles, csvName := [], [];
    for k := 0 to |folder.entries|
      invariant csvFiles == CsvPaths(folder.path, folder.entries[..k])
      invariant csvName == CsvNames(folder.entries[..k])
    {
      var file := folder.entries[k];
      assert folder.entries[..k + 1][..k] == folder.entries[..k];
      if EndsWith(file, ".csv") {
        csvFiles := csvFiles + [Join(folder.path, file)];
        csvName := csvName + [file];
      }
    }
    assert folder.entries[..|folder.entries|] == folder.entries;
  }

  /**
    The body of the loop of prehook.py:47-61 for one file: load it, rename its columns,
    run the CREATE for the table named after the file, then run each INSERT.
   */
  method LoadCsvFile(h: Handler, lk: Lookups, session: nat, path: string, name: string, log0: seq<Event>)
    returns (log: seq<Event>)
    ensures log == log0 + CsvFileCalls(h, lk, session, path, name)
  {
    var df := h.loadCsv(path);
    log := log0 + [LoadCsv(path)];
    df := df.(columns := NormalizeColumns(df.columns));
    var statement := h.createStatement(df, lk.storeSchema, name);
    log := log + [Execute(session, statement)];
    var insertStatements := h.insertStatements(df, lk.storeSchema);
    ghost var created := log;
    for j := 0 to |insertStatements|
      invariant log == created + Executes(session, insertStatements[..j])
    {
      assert insertStatements[..j + 1] == insertStatements[..j] + [insertStatements[j]];
      log := log + [Execute(session, insertStatements[j])];
    }
    assert insertStatements[..|insertStatements|] == insertStatements;
  }

  /**
    `execute_csv_folder(folder, db_session)`: collects the `.csv` paths and names, sorts
    each list, and for each index loads the file, renames its columns, creates its table
    in the store schema and runs its INSERTs. The answers of `execute_query` are dropped.
   */
  method ExecuteCsvFolder(h: Handler, lk: Lookups, folder: Folder, session: nat, log0: seq<Event>)
    returns (log: seq<Event>)
    ensures log == log0 + CsvFolderCalls(h, lk, session, folder)
  {
    var csvFiles, csvName := CollectCsv(folder);
    SortLength(csvFiles);
    SortLength(csvName);
    csvFiles := Sort(csvFiles);
    csvName := Sort(csvName);
    log := log0;
    for fileIdx := 0 to |csvFiles|
      invariant log == log0 + CsvCalls(h, lk, session, csvFiles[..fileIdx], csvName[..fileIdx])
    {
      log := LoadCsvFile(h, lk, session, csvFiles[fileIdx], csvName[fileIdx], log);
      CsvCallsUpTo(h, lk, session, csvFiles, csvName, fileIdx, log0, log);
    }
    assert csvFiles[..|csvFiles|] == csvFiles && csvName[..|csvName|] == csvName;
  }
}

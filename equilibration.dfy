/**
 * `runs/determine-equilibration-time.py`: find every entry directory holding
 * `<run>/production.csv`, in sorted path order; read the sibling
 * `equilibration.csv`; overwrite its step and time columns with a synthetic
 * clock; ask the equilibration detector for (t0, g, Neff_max) on every other
 * column; and collect one record per (entry, column), the entry id parsed
 * back out of the directory name.
 */
module EquilibrationTable {
  import opened Wrappers
  import opened Exceptions
  import opened Ordering
  import EntryNaming

  const StepColumn: string := "#\"Step\""
  const TimeColumn: string := "Time (ps)"

  /** A named column of samples. */
  datatype Column = Column(name: string, values: seq<real>)

  /** A data frame: its columns in order and its number of rows. */
  datatype Table = Table(columns: seq<Column>, rows: nat)

  /** The files of one run directory that the script looks at: present or not. */
  datatype RunDirectory = RunDirectory(production: Option<Table>, equilibration: Option<Table>)

  /** The input directory: entry directory name, then run directory name. */
  type Tree = map<string, map<string, RunDirectory>>

  /** What the detector reports for one series. */
  datatype Statistics = Statistics(t0: int, g: real, neffMax: real)

  /** One row of the output table. */
  datatype Record = Record(entry: int, run: string, property: string, t0: int, g: real, neffMax: real)

  /** `detect_equilibration`, which may raise. */
  type Detector = seq<real> -> Result<Statistics, PyError>

  // ---------------------------------------------------------------------------
  // Discovery

  /**
   * The entry directories matched by the glob pattern `<any name>/<run>/production.csv`.
   * `sorted` compares the matched paths part by part; they share the input
   * directory before the entry name and `<run>/production.csv` after it, so
   * the entry name alone decides their order. (Comparing the whole path
   * strings would differ: "entry-1-x/..." sorts before "entry-1/..." because
   * '-' precedes '/'.) The visit order is therefore the names sorted by `StrLt`.
   */
  function Discovered(tree: Tree, run: string): set<string> {
    set e | e in tree && run in tree[e] && tree[e][run].production.Some?
  }

  /** An entry without the production file is not discovered, so it contributes nothing and raises nothing. */
  lemma EntryWithoutProductionIgnored(tree: Tree, run: string, e: string)
    requires e in tree
    requires run !in tree[e] || tree[e][run].production.None?
    ensures Discovered(tree, run) == Discovered(tree - {e}, run)
  {
  }

  // ---------------------------------------------------------------------------
  // Column assignment

  predicate HasColumn(cols: seq<Column>, name: string) {
    exists i :: 0 <= i < |cols| && cols[i].name == name
  }

  /** `df[name]`: the values of the first column called `name`. */
  function Lookup(cols: seq<Column>, name: string): Option<seq<real>> {
    if cols == [] then None
    else if cols[0].name == name then Some(cols[0].values)
    else Lookup(cols[1..], name)
  }

  /** Every column called `name` gets `values`; the others stay as they are. */
  function Replace(cols: seq<Column>, name: string, values: seq<real>): (r: seq<Column>)
    ensures |r| == |cols|
    ensures forall i :: 0 <= i < |cols| ==> r[i].name == cols[i].name
    ensures forall i :: 0 <= i < |cols| && cols[i].name != name ==> r[i] == cols[i]
  {
    if cols == [] then []
    else [if cols[0].name == name then Column(name, values) else cols[0]] + Replace(cols[1..], name, values)
  }

  /** `df[name] = values`: overwrite that column in place, or append it as the last column. */
  function SetColumn(t: Table, name: string, values: seq<real>): Table {
    if HasColumn(t.columns, name) then Table(Replace(t.columns, name, values), t.rows)
    else Table(t.columns + [Column(name, values)], t.rows)
  }

  /** `np.arange(1, len(df) + 1) * 1000`. */
  function StepValues(n: nat): seq<real> {
    seq(n, k => (1000 * (k + 1)) as real)
  }

  /** `steps * 2 / 1000`. */
  function TimeValues(steps: seq<real>): seq<real> {
    seq(|steps|, k requires 0 <= k < |steps| => steps[k] * 2.0 / 1000.0)
  }

  /** The frame after both clock assignments. */
  function WithClock(t: Table): Table {
    var stepped := SetColumn(t, StepColumn, StepValues(t.rows));
    SetColumn(stepped, TimeColumn, TimeValues(StepValues(t.rows)))
  }

  lemma HasColumnCons(cols: seq<Column>, name: string)
    requires cols != []
    ensures HasColumn(cols, name) <==> cols[0].name == name || HasColumn(cols[1..], name)
  {
    if HasColumn(cols, name) && cols[0].name != name {
      var i :| 0 <= i < |cols| && cols[i].name == name;
      assert cols[1..][i - 1].name == name;
    }
    if HasColumn(cols[1..], name) {
      var i :| 0 <= i < |cols[1..]| && cols[1..][i].name == name;
      assert cols[i + 1].name == name;
    }
  }

  lemma {:induction false} LookupReplace(cols: seq<Column>, name: string, values: seq<real>, other: string)
    ensures Lookup(Replace(cols, name, values), other)
              == if other == name && HasColumn(cols, name) then Some(values) else Lookup(cols, other)
    decreases |cols|
  {
    if cols != [] {
      LookupReplace(cols[1..], name, values, other);
      assert Replace(cols, name, values)[1..] == Replace(cols[1..], name, values);
      HasColumnCons(cols, name);
    }
  }

  lemma {:induction false} LookupAppend(cols: seq<Column>, c: Column, other: string)
    ensures Lookup(cols + [c], other)
              == if HasColumn(cols, other) then Lookup(cols, other)
                 else if c.name == other then Some(c.values) else None
    decreases |cols|
  {
    if cols == [] {
      assert [c][1..] == [];
    } else {
      assert (cols + [c])[1..] == cols[1..] + [c];
      LookupAppend(cols[1..], c, other);
      HasColumnCons(cols, other);
    }
  }

  lemma {:induction false} LookupMissing(cols: seq<Column>, name: string)
    requires !HasColumn(cols, name)
    ensures Lookup(cols, name) == None
    decreases |cols|
  {
    if cols != [] {
      assert forall i :: 0 <= i < |cols[1..]| ==> cols[1..][i] == cols[i + 1];
      LookupMissing(cols[1..], name);
    }
  }

  /**
   * `df[name] = values` then `df[name]` reads the values back, and reading
   * any other column is unaffected; an existing column keeps its place, a new
   * one is appended.
   */
  lemma SetColumnEffect(t: Table, name: string, values: seq<real>, other: string)
    ensures var s := SetColumn(t, name, values);
            Lookup(s.columns, other) == if other == name then Some(values) else Lookup(t.columns, other)
    ensures |SetColumn(t, name, values).columns| == |t.columns| + (if HasColumn(t.columns, name) then 0 else 1)
    ensures forall i :: 0 <= i < |t.columns| && t.columns[i].name != name ==> SetColumn(t, name, values).columns[i] == t.columns[i]
  {
    if HasColumn(t.columns, name) {
      LookupReplace(t.columns, name, values, other);
    } else {
      LookupAppend(t.columns, Column(name, values), other);
      if other != name && !HasColumn(t.columns, other) {
        LookupMissing(t.columns, other);
      }
    }
  }

  /**
   * The synthetic clock: after both assignments the step column reads
   * 1000, 2000, ... and the time column 2, 4, ... picoseconds, one value per
   * row, whatever the file held.
   */
  lemma ClockColumns(t: Table)
    ensures Lookup(WithClock(t).columns, StepColumn) == Some(seq(t.rows, k => (1000 * (k + 1)) as real))
    ensures Lookup(WithClock(t).columns, TimeColumn) == Some(seq(t.rows, k => (2 * (k + 1)) as real))
  {
    var stepped := SetColumn(t, StepColumn, StepValues(t.rows));
    assert StepColumn != TimeColumn;
    SetColumnEffect(t, StepColumn, StepValues(t.rows), StepColumn);
    SetColumnEffect(stepped, TimeColumn, TimeValues(StepValues(t.rows)), StepColumn);
    SetColumnEffect(stepped, TimeColumn, TimeValues(StepValues(t.rows)), TimeColumn);
    assert TimeValues(StepValues(t.rows)) == seq(t.rows, k => (2 * (k + 1)) as real);
  }

  // ---------------------------------------------------------------------------
  // Records of one file

  /** `int(name.split("-")[1])`, with the exception each failure raises. */
  function EntryIdOf(name: string): (r: Result<int, PyError>)
    ensures r.Ok? <==> EntryNaming.ParseEntryId(name).Some?
    ensures r.Ok? ==> r.value == EntryNaming.ParseEntryId(name).value
  {
    var parts := EntryNaming.Split(name, '-');
    if |parts| < 2 then Err(IndexOutOfRange())
    else
      match EntryNaming.ParseInt(parts[1])
      case None => Err(InvalidIntLiteral(parts[1]))
      case Some(v) => Ok(v)
  }

  /** An entry directory named by the packing scripts yields back its index. */
  lemma EntryIdOfEntryName(i: nat)
    ensures EntryIdOf(EntryNaming.EntryName(i)) == Ok(i)
  {
    EntryNaming.EntryIdRoundTrip(i);
  }

  /** `ignore_cols`. */
  predicate IsClock(name: string) {
    name == StepColumn || name == TimeColumn
  }

  /** The columns handed to the detector, in frame order. */
  function Analysed(cols: seq<Column>): seq<Column> {
    if cols == [] then []
    else
      var c := cols[|cols| - 1];
      Analysed(cols[..|cols| - 1]) + (if IsClock(c.name) then [] else [c])
  }

  /**
   * The inner loop over `df.columns`: skip the clock columns; for every other
   * column call the detector, parse the entry id, and append a record. The
   * first exception, in column order, ends the run.
   */
  function ColumnRecords(entryName: string, run: string, cols: seq<Column>, detect: Detector)
    : Result<seq<Record>, PyError>
  {
    if cols == [] then Ok([])
    else
      var prev :- ColumnRecords(entryName, run, cols[..|cols| - 1], detect);
      AppendColumn(entryName, run, prev, cols[|cols| - 1], detect)
  }

  /** One turn of the column loop, after the records `prev`. */
  function AppendColumn(entryName: string, run: string, prev: seq<Record>, c: Column, detect: Detector)
    : Result<seq<Record>, PyError>
  {
    if IsClock(c.name) then Ok(prev)
    else
      var st :- detect(c.values);
      var id :- EntryIdOf(entryName);
      Ok(prev + [Record(id, run, c.name, st.t0, st.g, st.neffMax)])
  }

  /** The records of one equilibration file, after the clock assignments. */
  function FileRecords(entryName: string, run: string, t: Table, detect: Detector): Result<seq<Record>, PyError> {
    ColumnRecords(entryName, run, WithClock(t).columns, detect)
  }

  lemma ColumnRecordsPrefix(entryName: string, run: string, cols: seq<Column>, detect: Detector, j: nat)
    requires j < |cols|
    ensures ColumnRecords(entryName, run, cols[..j + 1], detect)
            == if ColumnRecords(entryName, run, cols[..j], detect).Err? then ColumnRecords(entryName, run, cols[..j], detect)
               else AppendColumn(entryName, run, ColumnRecords(entryName, run, cols[..j], detect).value, cols[j], detect)
  {
    assert cols[..j + 1][..j] == cols[..j];
  }

  /** An exception on some prefix of the columns is the exception of the whole loop. */
  lemma {:induction false} ColumnRecordsErrExtends(entryName: string, run: string, cols: seq<Column>, detect: Detector, k: nat)
    requires k <= |cols| && ColumnRecords(entryName, run, cols[..k], detect).Err?
    ensures ColumnRecords(entryName, run, cols, detect) == ColumnRecords(entryName, run, cols[..k], detect)
    decreases |cols| - k
  {
    if k == |cols| {
      assert cols[..k] == cols;
    } else {
      var shorter := cols[..|cols| - 1];
      assert shorter[..k] == cols[..k];
      ColumnRecordsErrExtends(entryName, run, shorter, detect, k);
    }
  }

  /**
   * One record per analysed column, in column order: each names its column
   * and run, carries the parsed entry id and passes the detector's result
   * through unchanged.
   */
  lemma {:induction false} ColumnRecordsShape(entryName: string, run: string, cols: seq<Column>, detect: Detector)
    requires ColumnRecords(entryName, run, cols, detect).Ok?
    ensures var recs := ColumnRecords(entryName, run, cols, detect).value;
            var an := Analysed(cols);
            |recs| == |an|
            && forall i :: 0 <= i < |recs| ==>
                 recs[i].property == an[i].name
                 && recs[i].run == run
                 && EntryIdOf(entryName) == Ok(recs[i].entry)
                 && detect(an[i].values) == Ok(Statistics(recs[i].t0, recs[i].g, recs[i].neffMax))
    decreases |cols|
  {
    if cols != [] {
      ColumnRecordsShape(entryName, run, cols[..|cols| - 1], detect);
    }
  }

  /** Without analysed columns nothing is detected or parsed: no record, and no exception whatever the name. */
  lemma {:induction false} NoAnalysedColumnsNoRecords(entryName: string, run: string, cols: seq<Column>, detect: Detector)
    requires Analysed(cols) == []
    ensures ColumnRecords(entryName, run, cols, detect) == Ok([])
    decreases |cols|
  {
    if cols != [] {
      var c := cols[|cols| - 1];
      assert |Analysed(cols[..|cols| - 1])| <= |Analysed(cols)|;
      assert IsClock(c.name);
      NoAnalysedColumnsNoRecords(entryName, run, cols[..|cols| - 1], detect);
    }
  }

  /**
   * The body of the file loop: the two clock assignments, made in place on
   * the frame (the time column is computed from the step column just
   * written), then the loop over its columns.
   */
  method AnalyseFile(entryName: string, run: string, t: Table, detect: Detector) returns (r: Result<seq<Record>, PyError>)
    ensures r == FileRecords(entryName, run, t, detect)
  {
    var df := t;
    df := SetColumn(df, StepColumn, StepValues(df.rows));
    SetColumnEffect(t, StepColumn, StepValues(t.rows), StepColumn);
    var steps := Lookup(df.columns, StepColumn).value;
    df := SetColumn(df, TimeColumn, TimeValues(steps));
    assert df == WithClock(t);

    var cols := df.columns;
    var records: seq<Record> := [];
    for j := 0 to |cols|
      invariant ColumnRecords(entryName, run, cols[..j], detect) == Ok(records)
    {
      ColumnRecordsPrefix(entryName, run, cols, detect, j);
      var col := cols[j];
      if IsClock(col.name) {
        continue;
      }
      var st := detect(col.values);
      if st.Err? {
        ColumnRecordsErrExtends(entryName, run, cols, detect, j + 1);
        return Err(st.error);
      }
      var id := EntryIdOf(entryName);
      if id.Err? {
        ColumnRecordsErrExtends(entryName, run, cols, detect, j + 1);
        return Err(id.error);
      }
      records := records + [Record(id.value, run, col.name, st.value.t0, st.value.g, st.value.neffMax)];
    }
    assert cols[..|cols|] == cols;
    return Ok(records);
  }

  // ---------------------------------------------------------------------------
  // Counting the records of one file

  /** How many columns carry `name`. */
  function Occurrences(cols: seq<Column>, name: string): nat {
    if cols == [] then 0
    else Occurrences(cols[..|cols| - 1], name) + (if cols[|cols| - 1].name == name then 1 else 0)
  }

  /** pandas keeps column labels distinct when it reads a file. */
  predicate DistinctNames(cols: seq<Column>) {
    forall i, j :: 0 <= i < j < |cols| ==> cols[i].name != cols[j].name
  }

  lemma {:induction false} AnalysedCount(cols: seq<Column>)
    ensures |Analysed(cols)| == |cols| - Occurrences(cols, StepColumn) - Occurrences(cols, TimeColumn)
    decreases |cols|
  {
    if cols != [] {
      AnalysedCount(cols[..|cols| - 1]);
    }
  }

  lemma {:induction false} OccurrencesOfDistinct(cols: seq<Column>, name: string)
    requires DistinctNames(cols)
    ensures Occurrences(cols, name) == if HasColumn(cols, name) then 1 else 0
    decreases |cols|
  {
    if cols != [] {
      var prefix := cols[..|cols| - 1];
      OccurrencesOfDistinct(prefix, name);
      if HasColumn(cols, name) && cols[|cols| - 1].name != name {
        var i :| 0 <= i < |cols| && cols[i].name == name;
        assert prefix[i].name == name;
      }
      if HasColumn(prefix, name) {
        var i :| 0 <= i < |prefix| && prefix[i].name == name;
        assert cols[i].name == name;
      }
    }
  }

  lemma SetColumnKeepsDistinct(t: Table, name: string, values: seq<real>)
    requires DistinctNames(t.columns)
    ensures DistinctNames(SetColumn(t, name, values).columns)
    ensures HasColumn(SetColumn(t, name, values).columns, name)
    ensures forall n :: HasColumn(t.columns, n) ==> HasColumn(SetColumn(t, name, values).columns, n)
  {
    var s := SetColumn(t, name, values);
    if HasColumn(t.columns, name) {
      var i :| 0 <= i < |t.columns| && t.columns[i].name == name;
      assert s.columns[i].name == name;
    } else {
      assert s.columns[|t.columns|].name == name;
    }
    forall n | HasColumn(t.columns, n)
      ensures HasColumn(s.columns, n)
    {
      var i :| 0 <= i < |t.columns| && t.columns[i].name == n;
      assert s.columns[i].name == n;
    }
  }

  /**
   * A file read with distinct column labels yields one record per column
   * other than the two clock columns: the frame's column count less two,
   * which is the file's own column count less two when it already had both
   * clock columns.
   */
  lemma FileRecordCount(entryName: string, run: string, t: Table, detect: Detector)
    requires DistinctNames(t.columns)
    requires FileRecords(entryName, run, t, detect).Ok?
    ensures |FileRecords(entryName, run, t, detect).value| == |WithClock(t).columns| - 2
    ensures HasColumn(t.columns, StepColumn) && HasColumn(t.columns, TimeColumn) ==>
              |FileRecords(entryName, run, t, detect).value| == |t.columns| - 2
  {
    var stepped := SetColumn(t, StepColumn, StepValues(t.rows));
    var w := WithClock(t);
    SetColumnKeepsDistinct(t, StepColumn, StepValues(t.rows));
    SetColumnKeepsDistinct(stepped, TimeColumn, TimeValues(StepValues(t.rows)));
    assert HasColumn(w.columns, StepColumn) && HasColumn(w.columns, TimeColumn);
    OccurrencesOfDistinct(w.columns, StepColumn);
    OccurrencesOfDistinct(w.columns, TimeColumn);
    AnalysedCount(w.columns);
    ColumnRecordsShape(entryName, run, w.columns, detect);
    SetColumnEffect(t, StepColumn, StepValues(t.rows), StepColumn);
    SetColumnEffect(stepped, TimeColumn, TimeValues(StepValues(t.rows)), TimeColumn);
  }

  // ---------------------------------------------------------------------------
  // The whole table

  /** `production_csv.parent / "equilibration.csv"`. */
  function EquilibrationPath(inputDirectory: string, entryName: string, run: string): string {
    inputDirectory + "/" + entryName + "/" + run + "/equilibration.csv"
  }

  /** Every name has a run directory in the tree. */
  predicate Listed(names: seq<string>, tree: Tree, run: string) {
    forall e :: e in names ==> e in tree && run in tree[e]
  }

  /**
   * The outer loop: the records of each file in `names` order, appended; the
   * first exception (a missing equilibration file, a detector failure, a bad
   * entry id) ends the run.
   */
  function Aggregate(inputDirectory: string, names: seq<string>, tree: Tree, run: string, detect: Detector)
    : Result<seq<Record>, PyError>
    requires Listed(names, tree, run)
  {
    if names == [] then Ok([])
    else
      var prev :- Aggregate(inputDirectory, names[..|names| - 1], tree, run, detect);
      var e := names[|names| - 1];
      var recs :- EntryRecords(inputDirectory, e, tree[e][run], run, detect);
      Ok(prev + recs)
  }

  /** The records of one discovered entry: its equilibration file must exist. */
  function EntryRecords(inputDirectory: string, entryName: string, dir: RunDirectory, run: string, detect: Detector)
    : Result<seq<Record>, PyError>
  {
    match dir.equilibration
    case None => Err(FileNotFound(EquilibrationPath(inputDirectory, entryName, run)))
    case Some(t) => FileRecords(entryName, run, t, detect)
  }

  lemma AggregatePrefix(inputDirectory: string, names: seq<string>, tree: Tree, run: string, detect: Detector, k: nat)
    requires Listed(names, tree, run) && k < |names|
    ensures Listed(names[..k], tree, run) && Listed(names[..k + 1], tree, run)
    ensures Aggregate(inputDirectory, names[..k + 1], tree, run, detect)
            == if Aggregate(inputDirectory, names[..k], tree, run, detect).Err? then Aggregate(inputDirectory, names[..k], tree, run, detect)
               else if EntryRecords(inputDirectory, names[k], tree[names[k]][run], run, detect).Err? then
                 EntryRecords(inputDirectory, names[k], tree[names[k]][run], run, detect)
               else Ok(Aggregate(inputDirectory, names[..k], tree, run, detect).value
                       + EntryRecords(inputDirectory, names[k], tree[names[k]][run], run, detect).value)
  {
    assert names[..k + 1][..k] == names[..k];
  }

  lemma {:induction false} AggregateErrExtends(inputDirectory: string, names: seq<string>, tree: Tree, run: string, detect: Detector, k: nat)
    requires Listed(names, tree, run) && k <= |names|
    requires Listed(names[..k], tree, run) && Aggregate(inputDirectory, names[..k], tree, run, detect).Err?
    ensures Aggregate(inputDirectory, names, tree, run, detect) == Aggregate(inputDirectory, names[..k], tree, run, detect)
    decreases |names| - k
  {
    if k == |names| {
      assert names[..k] == names;
    } else {
      var shorter := names[..|names| - 1];
      assert shorter[..k] == names[..k];
      AggregateErrExtends(inputDirectory, shorter, tree, run, detect, k);
    }
  }

  /**
   * The script's `main`: discover the production files, visit them in sorted
   * order, and collect the records. `productionFiles` is the sorted list of
   * the discovered entry directory names.
   */
  method DetermineEquilibrationTime(inputDirectory: string, tree: Tree, run: string, detect: Detector)
    returns (r: Result<seq<Record>, PyError>, productionFiles: seq<string>)
    ensures StrictlyIncreasing(productionFiles, StrLt)
    ensures forall e :: e in productionFiles <==> e in Discovered(tree, run)
    ensures Listed(productionFiles, tree, run) && r == Aggregate(inputDirectory, productionFiles, tree, run, detect)
  {
    StrLtIsStrictTotalOrder();
    productionFiles := SortSet(Discovered(tree, run), StrLt);
    var entries: seq<Record> := [];
    for k := 0 to |productionFiles|
      invariant Listed(productionFiles[..k], tree, run)
      invariant Aggregate(inputDirectory, productionFiles[..k], tree, run, detect) == Ok(entries)
    {
      AggregatePrefix(inputDirectory, productionFiles, tree, run, detect, k);
      var entryName := productionFiles[k];
      var equilibrationCsv := tree[entryName][run].equilibration;
      if equilibrationCsv.None? {
        AggregateErrExtends(inputDirectory, productionFiles, tree, run, detect, k + 1);
        return Err(FileNotFound(EquilibrationPath(inputDirectory, entryName, run))), productionFiles;
      }
      var fileRecords := AnalyseFile(entryName, run, equilibrationCsv.value, detect);
      if fileRecords.Err? {
        AggregateErrExtends(inputDirectory, productionFiles, tree, run, detect, k + 1);
        return fileRecords, productionFiles;
      }
      entries := entries + fileRecords.value;
    }
    assert productionFiles[..|productionFiles|] == productionFiles;
    r := Ok(entries);
  }

  /** The visiting order is fully determined: there is one sorted list of the discovered entries. */
  lemma VisitOrderDetermined(tree: Tree, run: string, a: seq<string>, b: seq<string>)
    requires StrictlyIncreasing(a, StrLt) && StrictlyIncreasing(b, StrLt)
    requires forall e :: e in a <==> e in Discovered(tree, run)
    requires forall e :: e in b <==> e in Discovered(tree, run)
    ensures a == b
  {
    StrLtIsStrictTotalOrder();
    IncreasingUnique(a, b, StrLt);
  }

  /**
   * Records follow the file order, then the column order: the table for two
   * runs of files one after the other is the first table followed by the
   * second; an exception in the first list wins.
   */
  lemma {:induction false} AggregateConcat(inputDirectory: string, a: seq<string>, b: seq<string>, tree: Tree, run: string, detect: Detector)
    requires Listed(a, tree, run) && Listed(b, tree, run)
    ensures Listed(a + b, tree, run)
    ensures Aggregate(inputDirectory, a + b, tree, run, detect)
            == if Aggregate(inputDirectory, a, tree, run, detect).Err? then Aggregate(inputDirectory, a, tree, run, detect)
               else if Aggregate(inputDirectory, b, tree, run, detect).Err? then Aggregate(inputDirectory, b, tree, run, detect)
               else Ok(Aggregate(inputDirectory, a, tree, run, detect).value + Aggregate(inputDirectory, b, tree, run, detect).value)
    decreases |b|
  {
    if b == [] {
      assert a + b == a;
      assert Aggregate(inputDirectory, b, tree, run, detect) == Ok([]);
      if Aggregate(inputDirectory, a, tree, run, detect).Ok? {
        assert Aggregate(inputDirectory, a, tree, run, detect).value + [] == Aggregate(inputDirectory, a, tree, run, detect).value;
      }
    } else {
      var b', e := b[..|b| - 1], b[|b| - 1];
      assert a + b == (a + b') + [e] && b == b' + [e];
      AggregateConcat(inputDirectory, a, b', tree, run, detect);
      AggregateSnoc(inputDirectory, a + b', e, tree, run, detect);
      AggregateSnoc(inputDirectory, b', e, tree, run, detect);
      var ra, rb' := Aggregate(inputDirectory, a, tree, run, detect), Aggregate(inputDirectory, b', tree, run, detect);
      var rf := EntryRecords(inputDirectory, e, tree[e][run], run, detect);
      if ra.Ok? && rb'.Ok? && rf.Ok? {
        assert ra.value + rb'.value + rf.value == ra.value + (rb'.value + rf.value);
      }
    }
  }

  lemma AggregateSnoc(inputDirectory: string, names: seq<string>, e: string, tree: Tree, run: string, detect: Detector)
    requires Listed(names, tree, run) && e in tree && run in tree[e]
    ensures Listed(names + [e], tree, run)
    ensures Aggregate(inputDirectory, names + [e], tree, run, detect)
            == if Aggregate(inputDirectory, names, tree, run, detect).Err? then Aggregate(inputDirectory, names, tree, run, detect)
               else if EntryRecords(inputDirectory, e, tree[e][run], run, detect).Err? then
                 EntryRecords(inputDirectory, e, tree[e][run], run, detect)
               else Ok(Aggregate(inputDirectory, names, tree, run, detect).value
                       + EntryRecords(inputDirectory, e, tree[e][run], run, detect).value)
  {
    assert (names + [e])[..|names|] == names;
  }

  /**
   * Every record comes from one of the visited entry directories and one of
   * its analysed columns: its entry id is that directory's parsed id.
   */
  lemma {:induction false} AggregateRecordsFromVisited(inputDirectory: string, names: seq<string>, tree: Tree, run: string, detect: Detector)
    requires Listed(names, tree, run)
    requires Aggregate(inputDirectory, names, tree, run, detect).Ok?
    ensures forall rec :: rec in Aggregate(inputDirectory, names, tree, run, detect).value ==>
              rec.run == run && !IsClock(rec.property)
              && exists e :: e in names && EntryIdOf(e) == Ok(rec.entry)
    decreases |names|
  {
    if names != [] {
      var prefix := names[..|names| - 1];
      var e := names[|names| - 1];
      AggregateRecordsFromVisited(inputDirectory, prefix, tree, run, detect);
      var t := tree[e][run].equilibration.value;
      var recs := EntryRecords(inputDirectory, e, tree[e][run], run, detect).value;
      ColumnRecordsShape(e, run, WithClock(t).columns, detect);
      AnalysedNotClock(WithClock(t).columns);
      forall rec | rec in recs
        ensures rec.run == run && !IsClock(rec.property) && EntryIdOf(e) == Ok(rec.entry)
      {
        var i :| 0 <= i < |recs| && recs[i] == rec;
        assert Analysed(WithClock(t).columns)[i] in Analysed(WithClock(t).columns);
      }
    }
  }

  lemma {:induction false} AnalysedNotClock(cols: seq<Column>)
    ensures forall c :: c in Analysed(cols) ==> !IsClock(c.name) && c in cols
    decreases |cols|
  {
    if cols != [] {
      AnalysedNotClock(cols[..|cols| - 1]);
    }
  }

  /** Two trees that differ only in what the production files hold. */
  predicate SameButProduction(t1: Tree, t2: Tree, run: string) {
    t1.Keys == t2.Keys
    && forall e :: e in t1 ==>
         (run in t1[e] <==> run in t2[e])
         && (run in t1[e] ==>
               t1[e][run].equilibration == t2[e][run].equilibration
               && t1[e][run].production.Some? == t2[e][run].production.Some?)
  }

  /**
   * Only the equilibration file is analysed: the contents of the production
   * files decide nothing beyond their presence.
   */
  lemma {:induction false} ProductionContentsIgnored(inputDirectory: string, names: seq<string>, t1: Tree, t2: Tree, run: string, detect: Detector)
    requires SameButProduction(t1, t2, run)
    requires Listed(names, t1, run)
    ensures Discovered(t1, run) == Discovered(t2, run)
    ensures Listed(names, t2, run)
    ensures Aggregate(inputDirectory, names, t1, run, detect) == Aggregate(inputDirectory, names, t2, run, detect)
    decreases |names|
  {
    if names != [] {
      ProductionContentsIgnored(inputDirectory, names[..|names| - 1], t1, t2, run, detect);
    }
  }
}

# interchange-simulations: box generation, packing and equilibration analysis, in Dafny

This project models the four scripts that prepare and summarise the liquid
simulations of the interchange-simulations repository. It proves properties
of that model.

- **Box specification generation** (`generate-box-specifications.py`, the
  variant sorted by molecule count):
  - Every recipe of mole fractions becomes a main box of rounded molecule
    counts, sorted by count, plus one pure box per component.
  - The solvation table adds a pure box per solvent and a one-solute box
    per row.
  - The deduplicated set is sorted by (number of species, first count, box)
    and emitted as records of parallel SMILES and count lists.
- **Packing with interchange** (`pack-boxes-with-interchange.py`): one
  entry of the box list is opened. The force field is loaded, `data[i]`
  selected, the molecules built from SMILES with one conformer each, and a
  leading count of 1 detached as the solute. The entry directory
  `entry-%04d` is then created and the packing call made. The run writes
  the serialised interchange, PDB, GRO and TOP files and the timing
  record. A packing failure is written to `error.txt` and swallowed, after
  which the script reads the topology that was never assigned.
- **Packing with the evaluator packer** (`pack-boxes-with-evaluator.py`):
  - The same opening, without conformers.
  - The solute is never passed to the packer.
  - A packing failure is written to `error.txt` and re-raised.
  - After packing, the topology is rebuilt as `[mol] * n` over
    `zip(mols, n_molecules)`, parameterised, and given the trajectory's
    first frame as positions.
- **Equilibration table** (`determine-equilibration-time.py`):
  - Every entry directory holding `<run>/production.csv` is visited in
    sorted order, and its `equilibration.csv` is read.
  - The step and time columns are overwritten by a synthetic clock.
  - The equilibration detector runs on every other column, and one record
    per (entry, column) is collected, with the entry id parsed back from
    the directory name.

Python's semantics are written out where they matter:
- `round` rounds half to even.
- String `<` is lexicographic with a proper prefix smaller. Tuple `<`
  works the same way over pairs.
- `data[i]` accepts negative indices.
- `f"{i:04d}"` pads with zeros after the sign.
- `str.split` and `int()` on an optional sign followed by ASCII digits.
- `[x] * n` is empty for `n <= 0`, and `zip` truncates to the shorter list.
- pandas column assignment replaces an existing column or appends a new one.

Exceptions are values `PyError(kind, message)`. A script run is an
`Invocation`: the directories that exist afterwards, the packing request
made, the files written (in order, with their directory and content) and
whether it completed or crashed with which error.

The outside world enters as parameters:
- A `Toolkit` value carries the collaborators: force-field loading,
  `Molecule.from_smiles`, conformer generation, and parameter assignment
  for `Interchange.from_smirnoff`.
- The packers are functions from a `PackRequest` to a result.
- The equilibration detector is a function from a series to a result.
- The two clock readings are numbers.
- The directory tree is a map.

Each imperative part of a script is a `method` with its loops. Its
`ensures` ties the result to a specification function: `Run`, `Prepare`,
`TryMap`, `Replicated`, `FileRecords`, `Aggregate`, `RecipesBoxes`. The
lemmas state what the scripts promise about those functions.

Files:
- `wrappers.dfy`: `Option` and `Result`.
- `exceptions.dfy`: the Python exceptions raised.
- `ordering.dfy`: string order and sorting a set.
- `entry_naming.dfy`: entry directory names and their parsing.
- `box_specifications.dfy`: box generation.
- `packing_common.dfy`: the opening shared by both packing scripts.
- `pack_interchange.dfy`: the interchange packing script.
- `pack_evaluator.dfy`: the evaluator packing script.
- `equilibration.dfy`: the equilibration table.

Behaviours of the code that the model keeps as they are:
- Every component of every recipe also gets a pure box of its own, besides
  the sorted main box (`RecipeBoxes`, `PureBoxForEveryComponent`).
- After a packing failure, the interchange script writes `error.txt` and
  then crashes with `UnboundLocalError` on the unassigned
  `solvated_topology` (`InterchangePacking.PackingFailureWritesOnlyErrorText`).
- Counts are kept as rounded, including counts of 0, and the total is never
  renormalised (`RoundingDoesNotRenormalise` shows a total below N).
- A missing `production.csv` skips the entry. A missing
  `equilibration.csv` beside an existing `production.csv` raises
  `FileNotFoundError` and ends the run.

## Model

| member | source | states |
|---|---|---|
| BoxSpecs.RoundHalfEven | runs/experiments/differently-sorted/boxes-sorted-by-nmol/generate-box-specifications.py:19 | `round(x)` is within 0.5 of `x`, and at exactly 0.5 the result is even |
| BoxSpecs.RoundIsNearest | runs/experiments/differently-sorted/boxes-sorted-by-nmol/generate-box-specifications.py:19 | no integer is nearer to `x` than `round(x)` |
| BoxSpecs.RoundIsUnique | runs/experiments/differently-sorted/boxes-sorted-by-nmol/generate-box-specifications.py:19 | any integer strictly nearer than 0.5, or an even one at distance 0.5, is `round(x)`, so the half-to-even rule determines the count |
| BoxSpecs.UnsortedMainBox | runs/experiments/differently-sorted/boxes-sorted-by-nmol/generate-box-specifications.py:18-19 | the main box before sorting has one pair per component, in recipe order: its SMILES and `int(round(fraction * n))` |
| BoxSpecs.InsertByCountPermutes | runs/experiments/differently-sorted/boxes-sorted-by-nmol/generate-box-specifications.py:21 | inserting a pair into the sorted list adds exactly that pair |
| BoxSpecs.SortByCountPermutes | runs/experiments/differently-sorted/boxes-sorted-by-nmol/generate-box-specifications.py:21 | sorting the main box keeps exactly its pairs (a permutation) |
| BoxSpecs.InsertByCountSorted | runs/experiments/differently-sorted/boxes-sorted-by-nmol/generate-box-specifications.py:21 | insertion keeps a list sorted by the key (count, SMILES) |
| BoxSpecs.SortByCountSorted | runs/experiments/differently-sorted/boxes-sorted-by-nmol/generate-box-specifications.py:21 | the sorted main box is ordered by count, ties by SMILES (the key `x[::-1]`) |
| BoxSpecs.SortedByCountUnique | runs/experiments/differently-sorted/boxes-sorted-by-nmol/generate-box-specifications.py:21 | two lists sorted by that key with the same pairs are equal, so the order is fully determined |
| BoxSpecs.MainBoxIsSortedPermutation | runs/experiments/differently-sorted/boxes-sorted-by-nmol/generate-box-specifications.py:16-22 | the main box is sorted by (count, SMILES), is a permutation of the rounded pairs with one per component, and is the only sorted arrangement of them |
| BoxSpecs.MainBoxIgnoresComponentOrder | runs/experiments/differently-sorted/boxes-sorted-by-nmol/generate-box-specifications.py:18-22 | recipes whose rounded pairs agree as multisets give the same main box, whatever the component order |
| BoxSpecs.PureBoxForEveryComponent | runs/experiments/differently-sorted/boxes-sorted-by-nmol/generate-box-specifications.py:20 | every component yields the pure box `((smiles, n),)` |
| BoxSpecs.SingleComponentRecipe | runs/experiments/differently-sorted/boxes-sorted-by-nmol/generate-box-specifications.py:15-23 | a one-component recipe yields exactly one box, the pure box, because its main box coincides with the pure box |
| BoxSpecs.MixedRecipeExample | runs/experiments/differently-sorted/boxes-sorted-by-nmol/generate-box-specifications.py:19-21 | 0.25/0.75 of 100 molecules gives `[("A",25),("B",75)]` in either component order |
| BoxSpecs.RoundingDoesNotRenormalise | runs/experiments/differently-sorted/boxes-sorted-by-nmol/generate-box-specifications.py:17-21 | 0.5/0.5 of 5 molecules rounds both halves to 2 (half to even), so the box holds 4 molecules and is not corrected |
| BoxSpecs.TurnPropertyIntoBoxes | runs/experiments/differently-sorted/boxes-sorted-by-nmol/generate-box-specifications.py:11-23 | fails (the assertion) exactly when the fractions do not sum to 1.0, and otherwise returns the pure boxes plus the sorted main box |
| BoxSpecs.DuplicateRecipesCollapse | runs/experiments/differently-sorted/boxes-sorted-by-nmol/generate-box-specifications.py:48-51 | repeating the recipe list adds no box: the union deduplicates |
| BoxSpecs.RecipesBoxesMembers | runs/experiments/differently-sorted/boxes-sorted-by-nmol/generate-box-specifications.py:50-51 | every recipe's boxes are in the union of all recipes' boxes |
| BoxSpecs.AllBoxesContents | runs/experiments/differently-sorted/boxes-sorted-by-nmol/generate-box-specifications.py:50-60 | the box set holds each recipe's main and pure boxes, each solvent's pure box and each row's `((solute,1),(solvent,n-1))` |
| BoxSpecs.RecipesBoxesNonEmpty | runs/experiments/differently-sorted/boxes-sorted-by-nmol/generate-box-specifications.py:15-22 | for valid recipes, no recipe box is empty |
| BoxSpecs.AllBoxesNonEmpty | runs/experiments/differently-sorted/boxes-sorted-by-nmol/generate-box-specifications.py:48-60 | no emitted box is empty, so the sort key's `x[0][1]` is always defined |
| BoxSpecs.BoxLtIrreflexive | runs/experiments/differently-sorted/boxes-sorted-by-nmol/generate-box-specifications.py:62 | Python tuple `<` on boxes is irreflexive |
| BoxSpecs.BoxLtTransitive | runs/experiments/differently-sorted/boxes-sorted-by-nmol/generate-box-specifications.py:62 | Python tuple `<` on boxes is transitive |
| BoxSpecs.BoxLtTotal | runs/experiments/differently-sorted/boxes-sorted-by-nmol/generate-box-specifications.py:62 | Python tuple `<` on boxes is total on distinct boxes |
| BoxSpecs.BoxKeyLtIsStrictTotalOrder | runs/experiments/differently-sorted/boxes-sorted-by-nmol/generate-box-specifications.py:62 | the key `(len(x), x[0][1], x)` is a strict total order on non-empty boxes, so the sorted output is unique |
| BoxSpecs.ToRecord | runs/experiments/differently-sorted/boxes-sorted-by-nmol/generate-box-specifications.py:65-68 | a record has a SMILES list and a count list, each as long as the box |
| BoxSpecs.FromRecord | runs/experiments/differently-sorted/boxes-sorted-by-nmol/generate-box-specifications.py:65-68 | reading a record with lists of equal length back gives a box of that length |
| BoxSpecs.RecordRoundTrip | runs/experiments/differently-sorted/boxes-sorted-by-nmol/generate-box-specifications.py:65-68 | reading back an emitted record gives the box it came from |
| BoxSpecs.RecordReadBackRoundTrip | runs/experiments/differently-sorted/boxes-sorted-by-nmol/generate-box-specifications.py:65-68 | emitting a box read from a record with lists of equal length gives that record |
| BoxSpecs.EmitRecords | runs/experiments/differently-sorted/boxes-sorted-by-nmol/generate-box-specifications.py:63-68 | one record per box, in order, each reading back to its box |
| BoxSpecs.CollectRecipeBoxes | runs/experiments/differently-sorted/boxes-sorted-by-nmol/generate-box-specifications.py:48-51 | fails exactly when some recipe's fractions do not sum to 1.0, and otherwise returns the union of every recipe's boxes |
| BoxSpecs.AddTableBoxes | runs/experiments/differently-sorted/boxes-sorted-by-nmol/generate-box-specifications.py:53-60 | the result adds exactly one pure box per solvent and one solvation box per row |
| BoxSpecs.GenerateBoxSpecifications | runs/experiments/differently-sorted/boxes-sorted-by-nmol/generate-box-specifications.py:41-68 | fails exactly on an invalid recipe. Otherwise the output lists every box of the set once, strictly increasing under the sort key, and each record reads back to its box |
| Ordering.StrLtIrreflexive | runs/determine-equilibration-time.py:39 | Python string `<` is irreflexive |
| Ordering.StrLtTransitive | runs/determine-equilibration-time.py:39 | Python string `<` is transitive |
| Ordering.StrLtTotal | runs/determine-equilibration-time.py:39 | Python string `<` is total on distinct strings |
| Ordering.StrLtIsStrictTotalOrder | runs/determine-equilibration-time.py:39 | string `<` is a strict total order. `sorted` compares the glob's paths part by part, and they differ only in the entry-name part, so ordering the entry names by string `<` is the script's order (whole path strings would differ: `entry-1-x/...` precedes `entry-1/...`) |
| Ordering.Least | runs/determine-equilibration-time.py:39 | picks the member of a non-empty set below every other member |
| Ordering.SortSet | runs/determine-equilibration-time.py:39 | `sorted` of a set under a strict total order: strictly increasing, exactly the set's members, one each. Applied to the entry names under string `<`, which is the part-by-part path order of line 39 |
| Ordering.IncreasingUnique | runs/experiments/differently-sorted/boxes-sorted-by-nmol/generate-box-specifications.py:62 | two strictly increasing sequences with the same members are equal, so a sorted set has one enumeration |
| EntryNaming.Format04d | runs/pack-boxes-with-interchange.py:73 | `format(i, "04d")` has at least four characters: all digits for `i >= 0`, and a '-' followed by digits otherwise |
| EntryNaming.ParseInt | runs/determine-equilibration-time.py:65 | `int()` accepts only non-empty strings, and on a string of digits it is the decimal value |
| EntryNaming.Split | runs/determine-equilibration-time.py:65 | `str.split` always returns at least one field |
| EntryNaming.FormatRoundTrip | runs/pack-boxes-with-interchange.py:73 | `int(format(i, "04d")) == i` for every integer, negative ones included |
| EntryNaming.SplitAtFirstSeparator | runs/determine-equilibration-time.py:65 | splitting `p + "-" + t` where `p` has no '-' yields `p` followed by the fields of `t` |
| EntryNaming.EntryIdRoundTrip | runs/determine-equilibration-time.py:65 | the id parsed from the name `entry-%04d` made by the packing scripts is the index it was made from |
| EntryNaming.NegativeEntryIdRejected | runs/determine-equilibration-time.py:65 | the name `entry--NNN` made from a negative index has an empty second field, which `int()` rejects |
| EntryNaming.Format04dInjective | runs/pack-boxes-with-interchange.py:73 | distinct indices format differently |
| EntryNaming.EntryDirectoryInjective | runs/experiments/pack-boxes-with-evaluator.py:70 | distinct indices get distinct entry directories under the same output directory |
| PackingCommon.FromSmirnoff | runs/pack-boxes-with-interchange.py:100 | parameterisation succeeds exactly when parameters can be assigned, and the result holds the given force field and topology and no positions |
| PackingCommon.Select | runs/pack-boxes-with-interchange.py:59 | `data[i]` succeeds exactly for `-len <= i < len`, counts negative indices from the end, and raises IndexError otherwise |
| PackingCommon.SelectNegativeAlias | runs/pack-boxes-with-interchange.py:59 | `data[i - len(data)]` is `data[i]` |
| PackingCommon.TryMap | runs/pack-boxes-with-interchange.py:60-64 | a comprehension or loop over a raising call either gives one result per input, in order, or the first raised error, all earlier calls having succeeded |
| PackingCommon.TryMapAllOk | runs/pack-boxes-with-interchange.py:60-62 | when no call raises, the whole comprehension succeeds |
| PackingCommon.TryMapSnoc | runs/pack-boxes-with-interchange.py:63-64 | one more successful call appends its result |
| PackingCommon.TryMapErrPrefix | runs/pack-boxes-with-interchange.py:63-64 | once a call has raised, later elements change nothing |
| PackingCommon.DetachFailures | runs/pack-boxes-with-interchange.py:68-71 | detachment raises IndexError on an empty count list, pop-from-empty on a leading 1 with no molecules, and nothing else |
| PackingCommon.DetachSolute | runs/pack-boxes-with-interchange.py:68-71 | there is a solute exactly when the first count is 1, and it is the topology of the first molecule |
| PackingCommon.DetachKeepsAlignment | runs/pack-boxes-with-interchange.py:68-71 | detachment removes as many molecules as counts, so aligned lists stay aligned |
| PackingCommon.DetachRoundTrip | runs/pack-boxes-with-interchange.py:68-71 | putting the solute back in front restores both lists |
| PackingCommon.DetachLeavesUndetached | runs/pack-boxes-with-interchange.py:68-71 | without a solute both lists are passed on unchanged |
| PackingCommon.MakeDirs | runs/pack-boxes-with-interchange.py:74 | `mkdir(parents=True, exist_ok=True)`, taken as total: keeps every existing directory and creates the path |
| PackingCommon.MakeDirsIdempotent | runs/pack-boxes-with-interchange.py:74 | making the directory again changes nothing (`exist_ok=True`) |
| PackingCommon.EntryDirectoryParents | runs/pack-boxes-with-interchange.py:73-74 | `parents=True` also creates the output directory above the entry directory |
| PackingCommon.GenerateConformers | runs/pack-boxes-with-interchange.py:63-64 | the conformer loop yields `TryMap` of the molecules: each replaced in order, or the first error |
| PackingCommon.OpenEntry | runs/pack-boxes-with-interchange.py:55-71 | the opening (force field, `data[i]`, molecules, optional conformers, solute detachment) equals `Prepare` |
| PackingCommon.PrepareOneToOne | runs/pack-boxes-with-interchange.py:58-71 | after a successful opening, reattaching the solute gives one molecule per SMILES of the box and exactly its counts. Each molecule is `from_smiles` of its SMILES, or, with conformers (lines 63-64), the conformer call applied to that molecule |
| PackingCommon.PrepareAligned | runs/experiments/pack-boxes-with-evaluator.py:58-68 | a box whose lists have equal length yields a molecule list and count list of equal length |
| InterchangePacking.PackEntry | runs/pack-boxes-with-interchange.py:46-112 | the script's run equals `Run`: early crash, packing failure, parameterisation failure or completion, with the directories, request, writes and status of each |
| InterchangePacking.WritesStayInEntryDirectory | runs/pack-boxes-with-interchange.py:73-112 | every file written lands in `output/entry-%04d` |
| InterchangePacking.CompletedIffTimingWrittenLast | runs/pack-boxes-with-interchange.py:78-112 | a run completes exactly when its last write is `time.json` holding end minus start |
| InterchangePacking.PackingFailureWritesOnlyErrorText | runs/pack-boxes-with-interchange.py:79-100 | a packing failure writes only `error.txt` with the exception's text, then crashes with UnboundLocalError on `solvated_topology` |
| InterchangePacking.ErrorTextIsAlone | runs/pack-boxes-with-interchange.py:90-112 | whenever `error.txt` is written it is the only file and the run crashed |
| InterchangePacking.EntryDirectoryExists | runs/pack-boxes-with-interchange.py:73-74 | after a successful opening, the output and entry directories exist and no directory was lost |
| InterchangePacking.RequestCarriesSolute | runs/pack-boxes-with-interchange.py:66-89 | the packing request is centred. With a first count of 1, its solute is the topology of the first opened molecule, its molecules are the rest and its counts lose the first. Otherwise its molecules are all opened molecules with the box's counts and no solute |
| InterchangePacking.CompletedWritesPackedTopology | runs/pack-boxes-with-interchange.py:80-108 | a completed run serialises the packer's topology under the loaded force field, and the PDB, GRO and TOP files are of that same interchange |
| EvaluatorPacking.Repeat | runs/experiments/pack-boxes-with-evaluator.py:101 | `[mol] * n` has `max(n, 0)` elements, all `mol` |
| EvaluatorPacking.FirstFrame | runs/experiments/pack-boxes-with-evaluator.py:105-107 | `trajectory.xyz[0]` succeeds exactly when there is a frame, and is the first frame |
| EvaluatorPacking.TopologyMolecules | runs/experiments/pack-boxes-with-evaluator.py:99-102 | the topology loop yields `Replicated`, the molecule list of the topology |
| EvaluatorPacking.ReplicatedPrefix | runs/experiments/pack-boxes-with-evaluator.py:100-101 | each zipped pair extends the list by `[mol] * n` |
| EvaluatorPacking.ReplicatedTruncates | runs/experiments/pack-boxes-with-evaluator.py:100 | `zip` ignores the longer list's tail |
| EvaluatorPacking.ReplicatedLength | runs/experiments/pack-boxes-with-evaluator.py:99-102 | the topology has as many molecules as the sum of the positive counts over the zipped pairs |
| EvaluatorPacking.CopyCountPrefix | runs/experiments/pack-boxes-with-evaluator.py:100 | counts past the zipped length do not contribute |
| EvaluatorPacking.ReplicatedMembers | runs/experiments/pack-boxes-with-evaluator.py:99-102 | every topology molecule is a zipped molecule with a positive count |
| EvaluatorPacking.ReplicatedCovers | runs/experiments/pack-boxes-with-evaluator.py:99-102 | every zipped molecule with a positive count appears in the topology |
| EvaluatorPacking.PackEntry | runs/experiments/pack-boxes-with-evaluator.py:46-121 | the script's run equals `Run`, with the directories, request, writes and status of each outcome |
| EvaluatorPacking.FinishPacked | runs/experiments/pack-boxes-with-evaluator.py:99-121 | the part after packing equals `Packed`: topology, parameterisation, first-frame positions, then the writes |
| EvaluatorPacking.WritesStayInEntryDirectory | runs/experiments/pack-boxes-with-evaluator.py:70-121 | every file written lands in `output/entry-%04d` |
| EvaluatorPacking.CompletedIffTimingWrittenLast | runs/experiments/pack-boxes-with-evaluator.py:75-121 | a run completes exactly when it writes five files, the fifth being `time.json` with end minus start |
| EvaluatorPacking.PackingFailureReraised | runs/experiments/pack-boxes-with-evaluator.py:76-93 | a packing failure writes only `error.txt` with its text and ends the run with that same error |
| EvaluatorPacking.SoluteNeverPacked | runs/experiments/pack-boxes-with-evaluator.py:65-104 | a completed run's request has no solute, and the serialised topology holds only bulk molecules with positive counts, never the detached solute slot |
| EvaluatorPacking.TopologySize | runs/experiments/pack-boxes-with-evaluator.py:99-113 | the serialised topology's size is the sum of the bulk counts over the zipped pairs |
| EvaluatorPacking.PositionsFromFirstFrame | runs/experiments/pack-boxes-with-evaluator.py:104-117 | a completed run's positions are the trajectory's first frame and `input.pdb` is the trajectory. An empty trajectory crashes the run before any write |
| EquilibrationTable.EntryWithoutProductionIgnored | runs/determine-equilibration-time.py:38-39 | an entry without `<run>/production.csv` is not discovered |
| EquilibrationTable.Replace | runs/determine-equilibration-time.py:52-53 | assigning an existing column keeps the column list's length and names and every other column |
| EquilibrationTable.LookupReplace | runs/determine-equilibration-time.py:52-53 | after replacing, `df[name]` is the new values, and other columns read as before |
| EquilibrationTable.LookupAppend | runs/determine-equilibration-time.py:52-53 | appending a column leaves earlier columns readable, and the new column is read only when no earlier column has its name |
| EquilibrationTable.LookupMissing | runs/determine-equilibration-time.py:52-53 | a name not among the columns reads as missing |
| EquilibrationTable.SetColumnEffect | runs/determine-equilibration-time.py:52-53 | after `df[name] = values`, `df[name]` is those values and every other column is unchanged; the frame grows by one column exactly when the name was new |
| EquilibrationTable.ClockColumns | runs/determine-equilibration-time.py:52-53 | the step column is `1000, 2000, …` and the time column `2, 4, …` ps over the frame's rows |
| EquilibrationTable.EntryIdOf | runs/determine-equilibration-time.py:65 | `int(name.split("-")[1])` succeeds exactly when the name parses, with the parsed value |
| EquilibrationTable.EntryIdOfEntryName | runs/determine-equilibration-time.py:65 | an entry directory made by the packing scripts parses back to its index |
| EquilibrationTable.ColumnRecordsPrefix | runs/determine-equilibration-time.py:60-72 | each further column either keeps an earlier error or appends that column's records |
| EquilibrationTable.ColumnRecordsErrExtends | runs/determine-equilibration-time.py:60-72 | the first error, in column order, is the file's result |
| EquilibrationTable.ColumnRecordsShape | runs/determine-equilibration-time.py:59-72 | one record per non-clock column, in column order, each with that column's name, the run, the parsed entry id and the detector's statistics on that column |
| EquilibrationTable.NoAnalysedColumnsNoRecords | runs/determine-equilibration-time.py:59-62 | a frame with only clock columns yields no record and no error |
| EquilibrationTable.AnalyseFile | runs/determine-equilibration-time.py:52-72 | the per-file steps (clock columns, then the column loop) equal `FileRecords` |
| EquilibrationTable.AnalysedCount | runs/determine-equilibration-time.py:59-62 | the analysed columns are all columns less the step and time columns |
| EquilibrationTable.OccurrencesOfDistinct | runs/determine-equilibration-time.py:46-47 | with distinct labels a name occurs once if present and not at all otherwise |
| EquilibrationTable.SetColumnKeepsDistinct | runs/determine-equilibration-time.py:52-53 | column assignment keeps labels distinct, adds the assigned name and loses no name |
| EquilibrationTable.FileRecordCount | runs/determine-equilibration-time.py:46-72 | a file yields one record per column after the clock assignment, less two; with both clock columns already present, one per column of the file less two |
| EquilibrationTable.AggregatePrefix | runs/determine-equilibration-time.py:43-72 | each further entry either keeps an earlier error or appends its records |
| EquilibrationTable.AggregateErrExtends | runs/determine-equilibration-time.py:43-72 | the first error, in entry order, is the run's result |
| EquilibrationTable.DetermineEquilibrationTime | runs/determine-equilibration-time.py:37-72 | returns the discovered entries exactly once each, in increasing path order (the sorted glob), and the records `Aggregate` collects over them in that order, or its first error |
| EquilibrationTable.VisitOrderDetermined | runs/determine-equilibration-time.py:39 | the visiting order is the only increasing enumeration of the discovered entries |
| EquilibrationTable.AggregateConcat | runs/determine-equilibration-time.py:43-72 | the records of two consecutive runs of entries are the records of the first then those of the second, or the first error |
| EquilibrationTable.AggregateSnoc | runs/determine-equilibration-time.py:43-72 | one more entry appends its file's records, or its error |
| EquilibrationTable.AggregateRecordsFromVisited | runs/determine-equilibration-time.py:59-72 | every record names the run, is never a clock column, and carries the id parsed from a visited entry |
| EquilibrationTable.AnalysedNotClock | runs/determine-equilibration-time.py:59-62 | the analysed columns are columns of the frame and never clock columns |
| EquilibrationTable.ProductionContentsIgnored | runs/determine-equilibration-time.py:44-49 | only the presence of `production.csv` matters: trees differing only in its contents give the same discovery and the same records |

## Left out

- Reading and writing JSON and CSV are not modelled. The box records, the
  equilibration frames and the output table are values, and `to_csv` and
  `json.dump` are the end of the run.
- Floating point: mole fractions, molecule sums, times and statistics are
  real numbers. The sum of fractions is exact, so a sum that IEEE addition
  rounds to 1.0 is not captured.
- The filesystem is a set of directory paths and a map of entry
  directories. `chdir` is the directory of each write. Glob metacharacters
  in the run name and path normalisation (such as an empty output
  directory) are not modelled.
- The command-line interface, `print`, `tqdm`, the target density and the
  box shape arguments are not modelled. The density and box shape are
  passed to the packer unchanged.
- EntryNaming.ParseInt: does not accept the whitespace, underscores or
  non-ASCII digits that `int()` also accepts. No name the packing scripts
  produce contains them.
- BoxSpecs.MainBox: `list.sort` is modelled as a pure insertion sort on
  values. The sorted pair list is the same, but its in-place mutation is
  not modelled.
- PackingCommon.OpenEntry: the in-place `pop(0)` on `box["n_molecules"]`
  also changes the loaded data. The model carries the detached lists as
  values, and nothing later reads the data.
- Molecule identity is not modelled: the conformer call returns a
  molecule value instead of updating the object in place.
- The positions that the interchange packer places inside the topology are
  part of the topology value. The evaluator packer's second return value
  (residue names) is unused and not modelled.
- InterchangePacking.PackingFailureWritesOnlyErrorText: the
  UnboundLocalError message uses the wording of Python 3.11 and later.
- EquilibrationTable.OccurrencesOfDistinct: duplicate CSV column labels
  are assumed distinct (pandas renames them), which this lemma and
  `FileRecordCount` require.
- PackingCommon.MakeDirs: treated as total. pathlib's `mkdir` also raises
  FileExistsError when a non-directory sits at the path, and PermissionError
  or another OSError when creation fails. The directory set does not hold
  files or permissions, so those failures are not modelled.
- The writers (`to_pdb`, `to_gro`, `to_top`, `save_pdb`, `json()`) and
  `to_topology` are treated as never raising.
- The internals of `detect_equilibration` are not modelled. It is a
  parameter that maps a series to statistics or an error, and it never
  sees the production data.

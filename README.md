# Alchemy dashboard and reactor utilities: a Dafny model

This project models the part of the Alchemy artificial-chemistry system that
records and presents simulation runs, together with the core of its Rust
lambda-calculus reactor and two Rust utilities.

On the dashboard side (Python):

- **Store** (`Models`): the three SQLite tables (`Configurations`,
  `Experiment`, `Averages`) become row sequences of one `Store` object, with
  the AUTOINCREMENT counters SQLite keeps. The module covers database set-up
  with its `name` column migration, and the inserts, rename and reads of
  `models.py`.
- **Run drivers** (`Simulation`, `SimulationV2`): the two drivers advance the
  native engine one collision at a time. The first writes the population
  counts and metrics of every sampled step to the store. The second keeps
  them in a `collisions_data` object keyed `collision_N` and writes it out.
- **Readers** (`DbUtils`, `UtilsPy`, `Plotting`):
  - `DbUtils`: reading a run back and comparing runs.
  - `DbUtils` and `UtilsPy`: importing and reshaping a result document.
  - `Plotting`: the series the plots draw.
- **Routes** (`MainRoutes`): the logic inside the web routes. This covers the
  run form, continuing a run, renaming, listing and checking an upload.

On the reactor side (Rust):

- **Reactor** (`Lambda`): reduction under a step limit and a size limit, the
  collision of two expressions under every reaction rule, and the soup's
  population updates.
- **Utilities** (`RustUtils`): hexadecimal encoding and decoding, and the
  `HeapObject` priority wrapper.

Shared modules:

- `Documents`: the JSON documents as typed records.
- `Tally`: Python's `Counter`.
- `Sorting`: stable sorting and SQL `ORDER BY`.
- `PyText`: the string operations used.
- `Engine`: the native `PySoup` engine as the Python driver sees it.
- `Wrappers`: `Option`, `Result`, and Python's outcome of a call (a value or
  a raised exception).

Floating-point values are carried along as `real` (`Float`) and never computed
with. What the engine does in a collision is not modelled: its population and
entropy after a step are arbitrary.

The model follows the code as written, including where it misbehaves:

- **Fontana NameError.** `simulation.py` calls `json.dumps` for a Fontana
  run that gives both probability ranges, but never imports `json`. So such
  a run raises NameError before anything is written
  (`Simulation.RunFailure`). Every Fontana config the run form builds has
  both ranges, so a Fontana run from the form always fails
  (`MainRoutes.FontanaFormAlwaysFails`).
- **Misspelled total.** `extract_data_from_json` reads the total from the
  misspelled key `total_collisons`, so files as the drivers write them report
  0 (`UtilsPy.TotalReadFromMisspelledKey`).
- **Latest text file.** `get_last_txt_file` picks the greatest path in string
  order, so run 9's file is preferred over run 10's
  (`SimulationV2.NineBeatsTen`).
- **Swapped fields.** `collide` fills `reductions` with the result sizes and
  `sizes` with the step counts (`Lambda.Collide`).
- **Zero polling frequency.** A polling frequency of 0 raises
  ZeroDivisionError at the first collision.
- **Decoding non-ASCII hex input.** `decode_hex` slices its input two bytes
  at a time, so a multi-byte character split across a boundary panics
  (`RustUtils.Decoded.SlicePanic`).

## Model

| member | source | states |
|---|---|---|
| Models.Store.constructor | alchemy_dashboard/models.py:11-31 | a new database has the three tables, empty, with every AUTOINCREMENT counter at 1 and the `name` column present |
| Models.Store.Legacy | alchemy_dashboard/models.py:33-38 | a database from before the `name` column: rows without names, column absent |
| Models.Store.InitDatabase | alchemy_dashboard/models.py:11-66 | afterwards the `name` column exists; if it was missing, every unnamed row gets "Experiment {id}"; other tables and counters unchanged; a second call changes nothing (with MigrateNamesSpec) |
| Models.MigrateNamesSpec | alchemy_dashboard/models.py:33-38 | after the migration every row has a name, null names become "Experiment {config_id}", named rows keep theirs, and migrating twice equals migrating once |
| Models.DefaultNamesDiffer | alchemy_dashboard/models.py:91 | distinct ids give distinct default names |
| Models.Store.SaveConfiguration | alchemy_dashboard/models.py:70-121 | appends exactly one row with the next id (larger than all earlier ids) and the given settings; the name is kept if given and non-empty, "Unnamed Experiment" if empty, "Experiment {id}" if missing; nothing else changes |
| Models.SavedIsLast | alchemy_dashboard/models.py:216-225 | the id save_configuration issues is then the maximum config id |
| Models.Store.UpdateExperimentName | alchemy_dashboard/models.py:125-154 | reports success iff a row has the id; exactly the rows with that id get the new name; other tables unchanged |
| Models.RenamedSpec | alchemy_dashboard/models.py:125-154 | a rename keeps length and ids, renames the matching rows only, and leaves the table unchanged when no row matches |
| Models.RenameNewest | alchemy_dashboard/models.py:111-116 | renaming the newest row (largest id) touches only that row |
| Models.Store.SaveExperimentState | alchemy_dashboard/models.py:156-187 | appends one Experiment row with the next id, never merging with existing rows; other tables unchanged |
| Models.Store.SaveAverages | alchemy_dashboard/models.py:189-214 | appends one Averages row with the given metrics; other tables unchanged |
| Models.Store.SaveCounterRows | alchemy_dashboard/simulation.py:139-147 | the Counter loop appends one population row per Counter item, in item order |
| Models.CounterRows | alchemy_dashboard/simulation.py:139-147 | the rows written for a state: one per distinct expression, no duplicates, each expression's count is its number of occurrences (at least 1), and every expression of the state has a row |
| Models.Store.GetLastConfigId | alchemy_dashboard/models.py:216-225 | 1 for an empty table, otherwise the largest config id present |
| Models.MaxOf | alchemy_dashboard/models.py:216-225 | `MAX(...)`: None iff there are no values; otherwise a member that bounds all values |
| Models.Store.GetExperimentConfigs | alchemy_dashboard/models.py:227-242 | every configuration exactly once (a permutation of the rows), newest timestamp first |
| Models.Store.GetExperimentExpressions | alchemy_dashboard/models.py:272-288 | exactly the population rows of that run and step (as a multiset), largest count first |
| DbUtils.GetExperimentConfigs | alchemy_dashboard/db_utils.py:17-38 | no rows when the database file is missing; otherwise a permutation of all configurations, newest first |
| DbUtils.FindConfig | alchemy_dashboard/db_utils.py:46-60 | None iff no row has the id; otherwise a row of the table with that id |
| DbUtils.GetExperimentDetails | alchemy_dashboard/db_utils.py:40-87 | None iff the run is unknown; otherwise its config row, a permutation of its metric rows ordered by step, and its step-0 population rows |
| DbUtils.ProcessCollisionData | alchemy_dashboard/db_utils.py:118-128 | one record per metrics tuple, same order, fields renamed, nothing dropped |
| DbUtils.LastStepFacts | alchemy_dashboard/db_utils.py:139-151 | `MAX(collision_number)` is None iff the run has no population rows, otherwise a step that occurs and bounds every step of the run |
| DbUtils.GetExpressionsForCollision | alchemy_dashboard/db_utils.py:131-163 | the population rows of the step, largest count first; step -1 means the run's last step, and a run without rows then gives none |
| DbUtils.LastStepHasRows | alchemy_dashboard/db_utils.py:139-163 | asking for step -1 gives no rows iff the run has no population rows at all |
| DbUtils.Compared | alchemy_dashboard/db_utils.py:185-214 | a run's entry exists iff the run is known; its points are a permutation of the run's metric values, ordered by step |
| DbUtils.DictSet | alchemy_dashboard/db_utils.py:210-214 | assigning into an insertion-ordered dict: an existing key keeps its place and gets the new value; a new key goes last |
| DbUtils.GetExperimentMetrics | alchemy_dashboard/db_utils.py:166-217 | every entry belongs to a requested, known id and holds that run's series; every known requested id has an entry; unknown ids are skipped; keys follow the order in which ids first occur |
| DbUtils.GetEntropyAndHistogram | alchemy_dashboard/db_utils.py:352-383 | entropy is None iff the step has no metrics row, otherwise the entropy of such a row; the histogram is that step's population rows, largest count first |
| DbUtils.StepAveragesFacts | alchemy_dashboard/db_utils.py:360-366 | the metrics rows selected are exactly those of that run and step |
| DbUtils.ParamsFromColumn | alchemy_dashboard/db_utils.py:244-250 | parameters are decoded iff the column is present, non-empty and valid JSON, and then they are that text; otherwise `{}` |
| DbUtils.GetExperimentDetailsAndExpressions | alchemy_dashboard/db_utils.py:223-270 | ValueError iff the run is unknown; otherwise its settings and decoded parameters, and the expressions of its step-0 population, largest count first |
| DbUtils.DetailsExpressionsArePopulation | alchemy_dashboard/db_utils.py:253-259 | for a known run, the returned expressions are exactly its step-0 population rows, as a multiset |
| DbUtils.ImportSettingsOf | alchemy_dashboard/db_utils.py:291-313 | the generator, seed, total and frequency as given, or "unknown", 12345, 1000, 10; the ranges are stored iff the run is Fontana with both ranges, and then as the dumped text of the two ranges; the free-variable probability iff the run is BTree with it, and then that value |
| DbUtils.EntryRecord | alchemy_dashboard/db_utils.py:328-343 | an entry fails iff its key does not parse (ValueError) or its unique field is a number (TypeError); otherwise it gives the key's number, the entropy (0 when absent), and the list's length as the unique count (0 when absent) |
| DbUtils.FirstFailure | alchemy_dashboard/db_utils.py:328-349 | every entry before it imports, and the entry at it (if any) fails |
| DbUtils.ImportedMeasurementsSteps | alchemy_dashboard/db_utils.py:328-343 | when all entries import, there is one metrics row per entry, in order, at the entry's step |
| DbUtils.ImportEntry | alchemy_dashboard/db_utils.py:328-343 | one loop iteration: succeeds iff the entry's record does; adds its Counter rows and then its metrics row, or nothing |
| DbUtils.ImportEntries | alchemy_dashboard/db_utils.py:328-349 | imports entries in order up to the first failing one; true iff none fails; exactly the rows of the imported prefix are added |
| DbUtils.ImportStep | alchemy_dashboard/db_utils.py:328-349 | the rows after entry k are those of the imported prefix through k; an entry that fails adds no row |
| DbUtils.ImportJsonToDb | alchemy_dashboard/db_utils.py:273-349 | an unreadable document changes nothing; otherwise one configuration row with the derived settings named "Experiment {id}", then the rows of the entries before the first failure; the id is returned iff no entry fails |
| Documents.FirstSegmentNumber | alchemy_dashboard/plotting.py:352 | a key without an underscore reads as 0 |
| Documents.CollisionKeyRoundTrip | alchemy_dashboard/simulation_v2.py:295-307 | both key parsers read back the number `f"collision_{n}"` was written with |
| Documents.CollisionKeysDiffer | alchemy_dashboard/simulation_v2.py:295 | distinct steps are stored under distinct keys |
| Documents.EntryAtDistinct | alchemy_dashboard/simulation_v2.py:308 | with distinct keys, looking up an entry's key finds that entry |
| Simulation.BTreeSettingsOf | alchemy_dashboard/simulation.py:32-42 | each BTree setting is the given value, or its default: size 5, probability 0.5, 3 free variables, "prefix", 10 expressions |
| Simulation.LoadInputExpressions | alchemy_dashboard/simulation.py:14-51 | from_file: the stripped non-blank lines of the file, in order, none when the file is missing; BTree: the generator's output for the settings; Fontana and any other generator: their fixed three expressions |
| Simulation.LoadCleanFile | alchemy_dashboard/simulation.py:25-30 | a file of clean lines, as the dashboard writes them, loads back unchanged |
| Simulation.SampledStepsSpec | alchemy_dashboard/simulation.py:132-136 | the sampled steps are strictly ascending, are exactly the steps in 1..total that are multiples of the frequency or the last, and end with the last step |
| Simulation.SampledUpToSpec | alchemy_dashboard/simulation.py:132-136 | the sampled steps up to n are ascending and are exactly the sampled steps in 1..n |
| Simulation.EveryStepSampled | alchemy_dashboard/simulation.py:136 | with frequency 1, every step is sampled |
| Simulation.SampleRowsAgree | alchemy_dashboard/simulation.py:137-150 | a sample's unique count equals its number of population rows; each row counts a distinct expression's occurrences, and every expression has a row |
| Simulation.SaveSample | alchemy_dashboard/simulation.py:137-150 | reads the engine once and adds the sample's Counter rows and its metrics row |
| Simulation.SampleIfDue | alchemy_dashboard/simulation.py:136-157 | writes a sample iff the step is sampled, and writes nothing otherwise |
| Simulation.Collide | alchemy_dashboard/simulation.py:132-157 | one pass of the loop: fails (ZeroDivisionError) iff the frequency is 0; otherwise what is recorded covers the sampled steps up to the new collision |
| Simulation.RecordRun | alchemy_dashboard/simulation.py:111-157 | the step-0 sample, then total collisions with a sample at exactly the sampled steps; fails iff the frequency is 0 and there is a collision to run |
| Simulation.SaveRunConfig | alchemy_dashboard/simulation.py:66-103 | appends exactly the configuration row of the run: the next id, the seed, the generator, total, frequency, the BTree free-variable probability and the stored name; population and metrics rows unchanged |
| Simulation.RunExperiment | alchemy_dashboard/simulation.py:55-159 | raises exactly RunFailure (KeyError, NameError, ZeroDivisionError); the first two before any write; otherwise one configuration row with the seed, generator, defaults and stored name, then the rows of step 0 and every sampled step, and the returned data of every sampled step |
| SimulationV2.LastKeyBy | alchemy_dashboard/simulation_v2.py:307 | a returned key is one of the keys |
| SimulationV2.LastKeySpec | alchemy_dashboard/simulation_v2.py:307 | raises iff there are no keys (IndexError) or one does not parse (ValueError); otherwise the key with the largest number, and of equal numbers the last in input order |
| SimulationV2.LoadInputExpressions | alchemy_dashboard/simulation_v2.py:327-343 | ValueError for a generator other than from_file and BTree, and for a `.json` file that is not valid JSON; FileNotFoundError iff the named file is missing; a text file gives exactly its stripped non-blank lines, in order; BTree gives the generator's output |
| SimulationV2.RunEntriesSnoc | alchemy_dashboard/simulation_v2.py:293-305 | one more sample appends exactly its keyed entry |
| SimulationV2.CollectEntries | alchemy_dashboard/simulation_v2.py:291-305 | runs total collisions and records an entry at exactly the sampled steps; fails iff the frequency is 0 and a collision is run |
| SimulationV2.SeedSoup | alchemy_dashboard/simulation_v2.py:278-285 | a seeded engine, or KeyError without a generator, or the exception seeding raises |
| SimulationV2.Simulate | alchemy_dashboard/simulation_v2.py:286-325 | after seeding: IndexError iff no collision is asked for, otherwise ZeroDivisionError iff the frequency is 0; else the output of every sampled step and the last entry |
| SimulationV2.WriteOutput | alchemy_dashboard/simulation_v2.py:307-325 | IndexError iff no collision ran; otherwise the output holds the config, all entries, and the last one under the key of the final collision, and the text file holds its state |
| SimulationV2.RunExperiment | alchemy_dashboard/simulation_v2.py:275-325 | raises exactly RunFailure; otherwise an output with the config as given, the entries of every sampled step, the last entry alone, and its state as the text lines |
| SimulationV2.RunKeys | alchemy_dashboard/simulation_v2.py:295-308 | a run's keys are distinct; there are none iff no collision ran; otherwise the last key is that of the final collision, the last-key sort picks it, and looking it up finds the last entry |
| SimulationV2.KeysOfSteps | alchemy_dashboard/simulation_v2.py:295-307 | keys written for strictly ascending numbers are distinct, and the last of them is the last key of the sort |
| SimulationV2.LastKeyOfAscending | alchemy_dashboard/simulation_v2.py:307 | when the last key has the strictly largest number, it is the one picked |
| SimulationV2.ReloadOutput | alchemy_dashboard/simulation_v2.py:329-337 | seeding a new run from this run's output file gives back the state of its last sampled step |
| SimulationV2.ReloadText | alchemy_dashboard/simulation_v2.py:338-339 | seeding from a text file of clean lines gives back those lines |
| SimulationV2.GetLastTxtFile | alchemy_dashboard/simulation_v2.py:361-363 | "" iff there are no paths; otherwise the greatest path in string order |
| SimulationV2.NineBeatsTen | alchemy_dashboard/simulation_v2.py:363 | string order picks run 9's file over run 10's |
| UtilsPy.ParseUploadedJson | alchemy_dashboard/utils.py:79-94 | a document iff base64, UTF-8 and JSON decoding all succeed, and then it is the decoded one; any failure gives None |
| UtilsPy.MetadataDefaults | alchemy_dashboard/utils.py:116-122 | a config without any key gives total 0, frequency 0, generator "unknown", no params and no measurements |
| UtilsPy.TotalReadFromMisspelledKey | alchemy_dashboard/utils.py:117 | a config that spells `total_collisions` correctly reports 0 collisions, whatever its value |
| UtilsPy.TraverseSpec | alchemy_dashboard/utils.py:124-136 | the loop succeeds iff every entry does, and then keeps each result in order; otherwise it raises the first failing entry's exception |
| UtilsPy.ExtractDataFromJson | alchemy_dashboard/utils.py:97-141 | None iff the document is missing or empty; otherwise the config's metadata (with the rows of ProcessedRowsSpec) |
| UtilsPy.ProcessedRowsSpec | alchemy_dashboard/utils.py:124-136 | the rows succeed iff the database import gets through every entry; then one row per entry with the key's number, the entropy (0 if absent), the list length of unique expressions (0 if absent) and the size of the state; otherwise the exception the import stops at |
| UtilsPy.ExtractMatchesImport | alchemy_dashboard/utils.py:124-136 | the metrics rows the import writes carry the step, entropy and unique count of the matching extracted rows |
| MainRoutes.BTreeParams | alchemy_dashboard/main.py:67-74 | ValueError is the only error, raised iff one of the four numeric fields does not parse; otherwise size, probability, max free variables, standardization and expression count are the form's values or 5, 0.5, 3, "prefix", 10 |
| MainRoutes.FontanaParams | alchemy_dashboard/main.py:75-87 | the Fontana parameters always carry both ranges |
| MainRoutes.BuildConfig | alchemy_dashboard/main.py:45-107 | ValueError is the only error; a config has the chosen generator (default Fontana), its parameters, the parsed total, frequency and seed, and no name for an empty one; a file is written iff the run is from_file; there is nothing to run iff from_file has no upload and blank pasted text |
| MainRoutes.GeneratorPlan | alchemy_dashboard/main.py:88-107 | an uploaded file is written under its own name with its lines; pasted text is written to `direct_input_{seed}.txt`, split into lines at `\n`, `\r\n` or `\r`; the parameters name the written file |
| MainRoutes.FormDefaults | alchemy_dashboard/main.py:48-87 | an empty form asks for a Fontana run of 1000 collisions, polled every 10, seed 42, with the default ranges |
| MainRoutes.FontanaFormAlwaysFails | alchemy_dashboard/main.py:75-87 | every Fontana config the form builds makes the run driver raise NameError |
| MainRoutes.BTreeFormRuns | alchemy_dashboard/main.py:67-74 | a BTree config from the form records its free-variable probability and can only fail on a zero frequency |
| MainRoutes.FindAppended | alchemy_dashboard/main.py:137-148 | a row appended with a fresh id is what a lookup of that id finds |
| MainRoutes.RunSimulationForm | alchemy_dashboard/main.py:45-156 | a form that does not parse or names no expressions changes nothing and says so; otherwise the run is recorded: its configuration row, and the population and metrics rows of step 0 and of every step the polling frequency samples up to the total (step 0 only when a zero frequency raises ZeroDivisionError; nothing for a NameError run); on success the reply has the new id, its stored name and the size of its step-0 population |
| MainRoutes.RunFormConfig | alchemy_dashboard/main.py:109-148 | for a config the form built: the reply succeeds iff the run raises nothing; the store gains the run's configuration row and the population and metrics rows of step 0 and every sampled step (step 0 only on ZeroDivisionError) unless it raised NameError; the reply's id, name and initial population size |
| MainRoutes.WriteExpanded | alchemy_dashboard/main.py:277-280 | every expression written `count` times, rows in order; the number of lines is the sum of the counts |
| MainRoutes.ExpandedLinesClean | alchemy_dashboard/main.py:278-280 | expanding rows of clean expressions gives clean lines |
| MainRoutes.ContinueRoundTrip | alchemy_dashboard/main.py:276-294 | the written file loads back as the expanded rows, and Counter over it gives the same rows in the same order |
| MainRoutes.ContinuedConfig | alchemy_dashboard/main.py:286-294 | a continued run's config can only fail on a zero frequency, and records no free-variable probability |
| MainRoutes.ContinueExperiment | alchemy_dashboard/main.py:263-299 | no id, or no last population: nothing written or run; otherwise the last population is written expanded and a new from_file run is recorded with the original seed, collisions and frequency, together with the population and metrics rows of step 0 and of every step sampled from the original collisions and frequency (step 0 only when the run raises); a raised run reports the run's own exception; TypeError for a run without a configuration row |
| MainRoutes.UpdateName | alchemy_dashboard/main.py:303-332 | a missing or non-integer id (TypeError or ValueError) or a blank name changes nothing; otherwise the name is stored as given, and the reply says whether a run had the id |
| MainRoutes.RenameShows | alchemy_dashboard/main.py:316-322 | after a successful rename the run carries the new name and no other run changes |
| MainRoutes.ListExperiments | alchemy_dashboard/main.py:345-358 | a tuple row is named by position (IndexError if it has fewer than six columns); a dict row passes through; rows in order |
| MainRoutes.ListStoredExperiments | alchemy_dashboard/main.py:339-360 | the listing is every run the store describes, newest first |
| MainRoutes.UploadJson | alchemy_dashboard/main.py:217-239 | NoFileUploaded, InvalidFileType, a JSON decode error, a UTF-8 decode error, missing `collisions_data`, or StopIteration for an empty one, each exactly when it applies; otherwise the metrics are every key of the first entry, in file order |
| MainRoutes.UploadOfRunOutput | alchemy_dashboard/main.py:232-235 | uploading a file-based run's output offers "state" and then exactly the measurements that run recorded |
| Plotting.UniqueReadingsAgree | alchemy_dashboard/plotting.py:355-408 | the two readings of the unique count agree wherever a list is present; the strict one fails exactly on a number |
| Plotting.DriverEntryUnique | alchemy_dashboard/plotting.py:399-408 | for entries the file-based driver writes, both readings give the number of distinct expressions when either unique measurement was recorded |
| Plotting.PlotOrder | alchemy_dashboard/plotting.py:351 | the plotting order lists the object's keys, one per entry |
| Plotting.DictOrderAscends | alchemy_dashboard/plotting.py:351-352 | the x values ascend and are the keys' numbers, each as often as it occurs |
| Plotting.DictSeries | alchemy_dashboard/plotting.py:351-356 | ValueError iff a key does not parse; otherwise one point per entry in plotting order, with its number, entropy (0 if absent) and unique reading, or the first failing reading's exception |
| Plotting.ListSeries | alchemy_dashboard/plotting.py:358-362 | records sorted stably by collision number (0 if absent); x ascending and a permutation of the records' numbers; entropy and unique values 0 when absent |
| Plotting.PlotSimulationMetrics | alchemy_dashboard/plotting.py:332-373 | a missing `collisions_data` gives empty series; the list form never fails; series of equal length with ascending x |
| Plotting.CreateBokehFromData | alchemy_dashboard/plotting.py:375-423 | fails (ValueError) iff a key does not parse; otherwise three series of one point per entry, with x ascending and equal to the keys' numbers, the entropy (0 if absent) and the preferred unique reading |
| Plotting.CreateBokehPlotsFromMetrics | alchemy_dashboard/plotting.py:427-451 | KeyError iff there are no triples (the frame has no columns); otherwise each triple becomes a point in order, and every total is 0 because the frame has no `total_expressions` column |
| Plotting.ComparisonTitles | alchemy_dashboard/plotting.py:286-294 | the title and axis label for entropy, for unique expressions, and for any other metric |
| Plotting.SeriesColor | alchemy_dashboard/plotting.py:304 | a run's colour is one of the palette's |
| Plotting.SeriesColorCycle | alchemy_dashboard/styles.py:11-14 | colours repeat every eight runs, and the first eight differ |
| Plotting.ComparisonLines | alchemy_dashboard/plotting.py:298-324 | one line per run, in the mapping's order, with the cycled colour, the label "{generator} (ID: {id}, Seed: {seed})", and the run's points |
| Tally.CounterFacts | alchemy_dashboard/simulation.py:115-119 | `Counter(s)` lists each distinct element once, with its multiplicity as count; the counts sum to len(s) |
| Tally.CounterOfExpand | alchemy_dashboard/main.py:278-280 | Counter over the expanded rows gives back the same rows in the same order |
| PyText.StripSpec | alchemy_dashboard/simulation.py:29 | `strip` removes exactly the surrounding white space |
| PyText.StripEmpty | alchemy_dashboard/main.py:310 | `s.strip()` is empty iff `s` is all white space |
| PyText.StrippedNonBlankContent | alchemy_dashboard/simulation_v2.py:339 | the comprehension keeps exactly the stripped lines that are not empty: each such line is in the result, and each result is such a line |
| PyText.StrippedNonBlankAppend | alchemy_dashboard/simulation_v2.py:339 | the lines are taken in order: the results for `a + b` are those for `a` followed by those for `b` |
| PyText.Lines | alchemy_dashboard/simulation.py:28 | reading text back with universal newlines: at least one piece, no piece holds a line end, and text without line ends is one piece |
| Sorting.SortIsStable | alchemy_dashboard/plotting.py:359 | `sorted` keeps the relative order of elements with equal keys |
| Engine.Soup.SimulateOne | alchemy_dashboard/simulation.py:133 | `simulate_for(1)` is exactly one collision |
| Lambda.HasTwoArgs | src/lambda/lambda.rs:64-71 | true iff the term starts with two abstractions |
| Lambda.IsTruthySpec | src/lambda/lambda.rs:73-85 | a term is truthy iff it is two or more abstractions around a variable; a truthy term has two arguments; no non-abstraction is truthy |
| Lambda.ReduceWithLimit | src/lambda/lambda.rs:87-107 | the loop leaves the term and result that Reduction defines |
| Lambda.ReductionSpec | src/lambda/lambda.rs:87-107 | Ok(n) with n ≤ rlimit after n steps within the size limit, stopping early only at a normal form; ExceedsDepthLimit iff one of the first rlimit steps leaves a term larger than slimit, and that step is not counted |
| Lambda.ReductionSucceeds | src/lambda/lambda.rs:96-101 | when every step stays within the size limit, the reduction succeeds |
| Lambda.RuleOutcomeSpec | src/lambda/lambda.rs:135-162 | a rule that passes gives the normal form of `((rule left) right)`, reached in fewer steps than the limit, within the size limit, and kept by every enabled filter |
| Lambda.Collide | src/lambda/lambda.rs:126-169 | Ok iff every rule passes, with one result per rule in order (sizes and counts crosswise as written); otherwise the error of the first failing rule |
| Lambda.ZeroLimitNeverCollides | src/lambda/lambda.rs:138-140 | with no steps allowed every collision fails with ExceedsReductionLimit |
| Lambda.SwapRemove | src/lambda/lambda.rs:283-286 | `swap_remove` drops exactly one element; other positions keep theirs, and the last element fills the gap |
| Lambda.Cycled | src/lambda/lambda.rs:288 | `cycle().take(n)`: n inputs, repeated, or none without inputs |
| Lambda.SwapRemoves | src/lambda/lambda.rs:282-287 | after the removals there are `|draws|` fewer elements, all from the population |
| Lambda.CountIsomorphicAppend | src/lambda/lambda.rs:295-299 | population counts add up over concatenation |
| Lambda.LambdaSoup.FromConfig | src/lambda/lambda.rs:257-270 | an empty soup with the reactor's settings |
| Lambda.LambdaSoup.AddLambdaExpressions | src/lambda/lambda.rs:272-275 | appends the expressions in order; settings unchanged |
| Lambda.LambdaSoup.PerturbLambdaExpressions | src/lambda/lambda.rs:277-289 | with a constant population size, swap-removes at the drawn indices, then appends the first n inputs cycled; without it, only appends |
| Lambda.PerturbSizes | src/lambda/lambda.rs:277-289 | perturbing keeps the population size when it is meant to and there are inputs; otherwise it grows by the inputs taken and keeps the old expressions |
| Lambda.LambdaSoup.PopulationOf | src/lambda/lambda.rs:295-299 | the count is at most the population size |
| RustUtils.TableAt | src/utils.rs:21-28 | the table has 512 characters, and positions 2b and 2b+1 hold byte b's two lowercase hex digits |
| RustUtils.HexPair | src/utils.rs:30-38 | each byte becomes its high digit, then its low digit |
| RustUtils.EncodeHexSpec | src/utils.rs:30-38 | the encoding is twice as long as the input, holds each byte's two digits in place, and uses only lowercase hex digits |
| RustUtils.DigitValue | src/utils.rs:16 | a character is a hex digit iff it is 0-9, a-f or A-F, with the matching value |
| RustUtils.PairValue | src/utils.rs:16 | `from_str_radix` on two characters: the value of two digits; a '+' and a digit give the digit; anything else is InvalidDigit |
| RustUtils.DecodeHexSpec | src/utils.rs:10-18 | OddLength iff the length is odd; Ok iff every pair parses, with one byte per pair of the pair's value; otherwise the first failing pair decides |
| RustUtils.HexRoundTrip | src/utils.rs:10-38 | decoding an encoding gives the bytes back |
| RustUtils.HeapObject.New | src/utils.rs:77-83 | `to_tuple` of a new object gives back its priority and payload |
| RustUtils.HeapObject.Cmp | src/utils.rs:86-93 | Less iff the priority is smaller, Greater iff it is larger |
| RustUtils.HeapObject.PartialCmp | src/utils.rs:95-102 | always `Some(cmp)` |
| RustUtils.HeapOrderConsistent | src/utils.rs:86-113 | `cmp` is Equal iff `eq`; reversing the operands reverses the ordering; the payload never matters |
| RustUtils.HeapOrderTransitive | src/utils.rs:86-93 | the ordering is transitive |

## Left out

- Rendering is not modelled. Bokeh figures, the Flask application, its
  templates, the `/dashboard` and `/generate_visuals` views and the Dash
  pages are outside the model. Only the data the plots draw and the logic
  inside the routes are modelled.
- The native engine (`alchemy.PySoup`) and the BTree generator are not
  modelled. They are foreign code. The engine's population and entropy after
  a step are arbitrary (`Engine.Soup`), and the generator is a function
  parameter (`generateN`).
- I/O is not modelled. File contents are maps from paths to lines or parsed
  documents; directory listings (`glob`) are a parameter; JSON, base64 and
  UTF-8 decoding are function parameters; clocks are the `now` parameter.
- Random choices are parameters. The random seed drawn when none is given
  is `drawnSeed`. The Rust soup's random generator is replaced by the
  `draws` sequence.
- Python `Counter` and `len(set(...))` are modelled on sequences of
  expressions.
- A JSON object is its sequence of (key, value) pairs, and is taken to be
  what `json.load` returns: each key once. Python collapses a repeated key
  into one entry with the last value, at the place the key first appeared.
  The model does not collapse. Given a document with a repeated key, its
  readers would produce one point or row per pair, and `Documents.EntryAt`
  would read the first value.
- An absent JSON key and a `null` value are not distinguished (both `None`).
- A JSON document whose top level is not an object is treated as
  unreadable.
- SQLite type affinity is not modelled. Whether the submitted id text of
  `continue_experiment` matches an integer id is the parameter `matchedId`.
- `get_experiment_metrics` pastes `metric_name` into its SQL text. The
  model only allows the two column names it is meant for (`MetricName`).
  Any other name, which would give an SQL error or an injection, is not
  modelled.
- Leftovers are not modelled: the SQLAlchemy models, commented-out code,
  `get_experiment_data` (`models.py:244-270`), the
  not-yet-implemented `/perturb_and_run` route, and `visualization.py` and
  `config.py` are not part of this model.
- `read_inputs` and `dump_series_to_file` in `src/utils.rs` are not
  modelled. They only do I/O.
- Lambda.Collide: the `disallow_recursive` setting is carried but, as in
  the source, never consulted.
- Lambda crate internals are not modelled. The `lambda_calculus` crate's
  reduction step, `size`, isomorphism and free-variable tests are
  parameters (`Lambda.Crate`), and the reaction rules are given already
  parsed.
- Lambda.LambdaSoup.PerturbLambdaExpressions: requires the population to hold
  `nterms` elements when its size is kept. The source panics on an empty
  range there; that panic is not modelled.
- Lambda.LambdaSoup.PopulationOf: its contract states only the bound; the
  count itself is CountIsomorphic, whose additivity is CountIsomorphicAppend.
- Lambda.SwapRemoves: states the length and that every remaining element
  came from the population; the element removed at each step is stated by
  SwapRemove.
- RustUtils.HeapObject.New: the priority type is taken as `int` (any `Ord`
  type in the source).
- RustUtils.DecodeHexSpec: the `&str` is its UTF-8 bytes. A slice whose
  boundary falls inside a multi-byte character panics (`SlicePanic`); the
  character boundary is judged from the byte itself.
- Engine.Soup.Perturb: states only that seeding is not a collision; what the
  engine's population becomes is left open.
- SimulationV2.LoadInputExpressions: the `.json` branch is stated by
  SimulationV2.ReloadOutput for files the driver writes, not for arbitrary
  documents.
- UtilsPy.ExtractDataFromJson: the rows are stated by
  UtilsPy.ProcessedRowsSpec, not in its own contract.
- Plotting.PlotSimulationMetrics: states the shape and ascending x of the
  series. The point values are stated by Plotting.DictSeries and
  Plotting.ListSeries, which it calls.
- The result of `run_simulation_form` beyond the initial population size is
  not modelled. This covers the charts and metric series it renders.
- Text files are lists of lines, already split. Only the pasted text of the
  run form is split in the model (`PyText.Lines`), with Python's universal
  newlines, as reading the written file back does.
- A failure of `upload_json` is reported as its exception. The message text
  is not modelled.

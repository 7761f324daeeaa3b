/**
 * The logic inside the dashboard's Flask routes (`main.py`): building a run
 * config from the submitted form, continuing a run from its last
 * population, renaming a run, listing runs and checking an uploaded result
 * file.  Requests are modelled by their form fields, uploaded files by
 * their name and content; the HTTP replies by what they report.
 */
module MainRoutes {
  import opened Wrappers
  import opened Sorting
  import opened Documents
  import PyText
  import Tally
  import Models
  import DbUtils
  import Simulation
  import SimulationV2

  /** `app.config['UPLOAD_FOLDER']`. */
  const UploadFolder := "uploaded_configs"

  // ------------------------------------------------------------ the run form

  /** An uploaded file: its name and its lines. */
  datatype Upload = Upload(filename: string, lines: seq<string>)

  /** `int(request.form.get(key, default))`. */
  function IntField(form: map<string, string>, key: string, default: int): Outcome<int> {
    if key !in form then Returned(default)
    else
      match PyText.ParseInt(form[key])
      case None => Raised(ValueError)
      case Some(n) => Returned(n)
  }

  /** `float(request.form.get(key, default))`; `parseFloat` is Python's
      `float` on a string, None where it raises. */
  function FloatField(form: map<string, string>, key: string, default: Float,
                      parseFloat: string -> Option<Float>): Outcome<Float> {
    if key !in form then Returned(default)
    else
      match parseFloat(form[key])
      case None => Raised(ValueError)
      case Some(x) => Returned(x)
  }

  function TextField(form: map<string, string>, key: string, default: string): string {
    if key in form then form[key] else default
  }

  /** The BTree parameters of the form, in the order they are read. */
  function BTreeParams(form: map<string, string>, parseFloat: string -> Option<Float>): (r: Outcome<GenParams>)
    ensures r.Raised? ==> r.error == ValueError
    ensures r.Returned? <==>
              && IntField(form, "btree_size", 5).Returned?
              && FloatField(form, "freevar_probability", 0.5, parseFloat).Returned?
              && IntField(form, "max_free_vars", 3).Returned?
              && IntField(form, "num_expressions", 10).Returned?
    ensures r.Returned? ==>
              && r.value.size == Some(IntField(form, "btree_size", 5).value)
              && r.value.freevarProbability == Some(FloatField(form, "freevar_probability", 0.5, parseFloat).value)
              && r.value.maxFreeVars == Some(IntField(form, "max_free_vars", 3).value)
              && r.value.standardization == Some(TextField(form, "standardization", "prefix"))
              && r.value.numExpressions == Some(IntField(form, "num_expressions", 10).value)
              && r.value.filename.None? && r.value.absRange.None? && r.value.appRange.None? && r.value.maxDepth.None?
  {
    var size :- IntField(form, "btree_size", 5);
    var freevar :- FloatField(form, "freevar_probability", 0.5, parseFloat);
    var maxFreeVars :- IntField(form, "max_free_vars", 3);
    var standardization := TextField(form, "standardization", "prefix");
    var numExpressions :- IntField(form, "num_expressions", 10);
    Returned(NoParams.(freevarProbability := Some(freevar), size := Some(size), maxFreeVars := Some(maxFreeVars),
                       standardization := Some(standardization), numExpressions := Some(numExpressions)))
  }

  /** The Fontana parameters of the form, in the order they are read. */
  function FontanaParams(form: map<string, string>, parseFloat: string -> Option<Float>): (r: Outcome<GenParams>)
    ensures r.Returned? ==> r.value.absRange.Some? && r.value.appRange.Some?
  {
    var absLow :- FloatField(form, "abs_low", 0.1, parseFloat);
    var absHigh :- FloatField(form, "abs_high", 0.5, parseFloat);
    var appLow :- FloatField(form, "app_low", 0.2, parseFloat);
    var appHigh :- FloatField(form, "app_high", 0.6, parseFloat);
    var maxDepth :- IntField(form, "max_depth", 5);
    var maxFreeVars :- IntField(form, "fontana_max_fv", 2);
    Returned(NoParams.(absRange := Some([absLow, absHigh]), appRange := Some([appLow, appHigh]),
                       maxDepth := Some(maxDepth), maxFreeVars := Some(maxFreeVars)))
  }

  /** What the form asks for: a config to run, together with the file the
      route writes for it (path and lines), or no expressions at all. */
  datatype FormPlan = Ready(config: Config, written: Option<(string, seq<string>)>) | NoExpressions

  function WithParams(c: Config, generator: string, params: GenParams): Config {
    c.(inputExpressions := Some(InputExpressions(Some(generator), Some(params))))
  }

  /** Whether the request carries an uploaded expressions file with a name. */
  predicate HasUpload(upload: Option<Upload>) {
    upload.Some? && upload.value.filename != ""
  }

  /** The config-building part of `run_simulation_form`: the generator
      defaults to Fontana, the counts to 1000 collisions polled every 10
      with seed 42, and an empty name to none; a number that does not parse
      is a ValueError.  A `from_file` run uses the uploaded file, else the
      pasted text saved as `direct_input_{seed}.txt`, else there is nothing
      to run. */
  function BuildConfig(form: map<string, string>, upload: Option<Upload>, parseFloat: string -> Option<Float>)
    : (r: Outcome<FormPlan>)
    ensures r.Raised? ==> r.error == ValueError
    ensures r.Returned? && r.value.Ready? ==>
              var c := r.value.config;
              && c.inputExpressions.Some?
              && c.inputExpressions.value.generator == Some(TextField(form, "generator_type", "Fontana"))
              && c.inputExpressions.value.params.Some?
              && IntField(form, "total_collisions", 1000).Returned?
              && IntField(form, "polling_frequency", 10).Returned?
              && IntField(form, "random_seed", 42).Returned?
              && c.totalCollisions == Some(IntField(form, "total_collisions", 1000).value)
              && c.pollingFrequency == Some(IntField(form, "polling_frequency", 10).value)
              && c.randomSeed == Some(IntField(form, "random_seed", 42).value)
              && c.name == (if TextField(form, "experiment_name", "") == "" then None
                            else Some(TextField(form, "experiment_name", "")))
              && (r.value.written.Some? <==> TextField(form, "generator_type", "Fontana") == "from_file")
              && (r.value.written.Some? ==> c.inputExpressions.value.params.value == NoParams.(filename := Some(r.value.written.value.0)))
              && (r.value.written.Some? && HasUpload(upload) ==>
                    r.value.written.value == (PyText.PathJoin(UploadFolder, upload.value.filename), upload.value.lines))
              && (r.value.written.Some? && !HasUpload(upload) ==>
                    r.value.written.value ==
                      (PyText.PathJoin(UploadFolder, "direct_input_" + PyText.IntToString(c.randomSeed.value) + ".txt"),
                       PyText.Lines(TextField(form, "direct_input", ""))))
              && (TextField(form, "generator_type", "Fontana") == "Fontana" ==>
                    FontanaParams(form, parseFloat) == Returned(c.inputExpressions.value.params.value))
              && (TextField(form, "generator_type", "Fontana") == "BTree" ==>
                    BTreeParams(form, parseFloat) == Returned(c.inputExpressions.value.params.value))
    ensures r == Returned(NoExpressions) <==>
              && IntField(form, "total_collisions", 1000).Returned?
              && IntField(form, "polling_frequency", 10).Returned?
              && IntField(form, "random_seed", 42).Returned?
              && TextField(form, "generator_type", "Fontana") == "from_file"
              && !HasUpload(upload)
              && PyText.Strip(TextField(form, "direct_input", "")) == ""
  {
    var generator := TextField(form, "generator_type", "Fontana");
    var total :- IntField(form, "total_collisions", 1000);
    var pollingFrequency :- IntField(form, "polling_frequency", 10);
    var seed :- IntField(form, "random_seed", 42);
    var name := TextField(form, "experiment_name", "");
    var config := Config(None, Some(total), None, Some(pollingFrequency), Some(seed),
                         if name != "" then Some(name) else None, None);
    GeneratorPlan(form, upload, parseFloat, generator, seed, config)
  }

  /** The generator part of the form: the parameters the generator reads
      and, for `from_file`, the file written for the run (the upload, else
      the pasted text), or nothing to run. */
  function GeneratorPlan(form: map<string, string>, upload: Option<Upload>, parseFloat: string -> Option<Float>,
                         generator: string, seed: int, config: Config): (r: Outcome<FormPlan>)
    ensures r.Raised? ==> r.error == ValueError
    ensures r.Returned? && r.value.Ready? ==>
              var c := r.value.config;
              && c.inputExpressions.Some? && c.inputExpressions.value.params.Some?
              && c == WithParams(config, generator, c.inputExpressions.value.params.value)
              && (r.value.written.Some? <==> generator == "from_file")
              && (r.value.written.Some? ==> c.inputExpressions.value.params.value == NoParams.(filename := Some(r.value.written.value.0)))
              && (r.value.written.Some? && HasUpload(upload) ==>
                    r.value.written.value == (PyText.PathJoin(UploadFolder, upload.value.filename), upload.value.lines))
              && (r.value.written.Some? && !HasUpload(upload) ==>
                    r.value.written.value ==
                      (PyText.PathJoin(UploadFolder, "direct_input_" + PyText.IntToString(seed) + ".txt"),
                       PyText.Lines(TextField(form, "direct_input", ""))))
              && (generator == "Fontana" ==> FontanaParams(form, parseFloat) == Returned(c.inputExpressions.value.params.value))
              && (generator == "BTree" ==> BTreeParams(form, parseFloat) == Returned(c.inputExpressions.value.params.value))
    ensures r == Returned(NoExpressions) <==>
              generator == "from_file" && !HasUpload(upload) && PyText.Strip(TextField(form, "direct_input", "")) == ""
  {
    if generator == "BTree" then
      var params :- BTreeParams(form, parseFloat);
      Returned(Ready(WithParams(config, generator, params), None))
    else if generator == "Fontana" then
      var params :- FontanaParams(form, parseFloat);
      Returned(Ready(WithParams(config, generator, params), None))
    else if generator == "from_file" then
      if HasUpload(upload) then
        var path := PyText.PathJoin(UploadFolder, upload.value.filename);
        Returned(Ready(WithParams(config, generator, NoParams.(filename := Some(path))), Some((path, upload.value.lines))))
      else
        var direct := TextField(form, "direct_input", "");
        if PyText.Strip(direct) != "" then
          var path := PyText.PathJoin(UploadFolder, "direct_input_" + PyText.IntToString(seed) + ".txt");
          Returned(Ready(WithParams(config, generator, NoParams.(filename := Some(path))), Some((path, PyText.Lines(direct)))))
        else Returned(NoExpressions)
    else
      Returned(Ready(WithParams(config, generator, NoParams), None))
  }

  /** An empty form asks for a Fontana run of 1000 collisions polled every
      10 with seed 42, no name, and the default Fontana parameters. */
  lemma FormDefaults(upload: Option<Upload>, parseFloat: string -> Option<Float>)
    ensures BuildConfig(map[], upload, parseFloat) ==
              Returned(Ready(Config(Some(InputExpressions(Some("Fontana"), Some(
                                      NoParams.(absRange := Some([0.1, 0.5]), appRange := Some([0.2, 0.6]),
                                                maxDepth := Some(5), maxFreeVars := Some(2))))),
                                    Some(1000), None, Some(10), Some(42), None, None), None))
  {
  }

  /** Every Fontana config the form builds gives both ranges, so the run
      driver always stops with its NameError on it. */
  lemma FontanaFormAlwaysFails(form: map<string, string>, upload: Option<Upload>, parseFloat: string -> Option<Float>)
    requires BuildConfig(form, upload, parseFloat).Returned? && BuildConfig(form, upload, parseFloat).value.Ready?
    requires TextField(form, "generator_type", "Fontana") == "Fontana"
    ensures Simulation.RunFailure(BuildConfig(form, upload, parseFloat).value.config) == Some(NameError)
  {
  }

  /** A BTree config from the form records its free-variable probability and
      can only fail on a zero polling frequency. */
  lemma BTreeFormRuns(form: map<string, string>, upload: Option<Upload>, parseFloat: string -> Option<Float>)
    requires BuildConfig(form, upload, parseFloat).Returned? && BuildConfig(form, upload, parseFloat).value.Ready?
    requires TextField(form, "generator_type", "Fontana") == "BTree"
    ensures var c := BuildConfig(form, upload, parseFloat).value.config;
      && Simulation.FreevarOf(c.inputExpressions.value) == Some(FloatField(form, "freevar_probability", 0.5, parseFloat).value)
      && (Simulation.RunFailure(c).None? || Simulation.RunFailure(c) == Some(ZeroDivisionError))
  {
  }

  /** Why the form route reports an error. */
  datatype FormFailure = NoExpressionsProvided | FormException(error: PyError)

  /** The reply of the form route: the new run's id, its stored name and
      the number of its initial population rows, or the failure. */
  datatype FormReply = FormSuccess(configId: int, experimentName: Option<string>, initialExpressions: nat)
                     | FormError(failure: FormFailure)

  /** A row appended with an id no earlier row has is what a lookup of that
      id finds. */
  lemma FindAppended(rows: seq<Models.ConfigRow>, row: Models.ConfigRow)
    requires forall i :: 0 <= i < |rows| ==> rows[i].configId != row.configId
    ensures DbUtils.FindConfig(rows + [row], row.configId) == Some(row)
  {
    var all := rows + [row];
    assert Models.ConfigIds(all)[|rows|] == row.configId;
    var r := DbUtils.FindConfig(all, row.configId);
    assert r.Some? && r.value in all && r.value.configId == row.configId;
  }

  /** What the form route reports of a run it has just stored under a fresh
      id: that row's name and the number of its step-0 population rows. */
  lemma NewRunDetails(store: Models.Store, before: seq<Models.ConfigRow>, next: int)
    requires Models.IssuedIds(Models.ConfigIds(before), next)
    requires |store.configs| == |before| + 1 && store.configs[..|before|] == before
    requires store.configs[|before|].configId == next
    ensures var d := DbUtils.GetExperimentDetails(store, next);
      && d.Some? && d.value.config == store.configs[|before|]
      && |d.value.initialExpressions| == |Models.ExpressionCounts(Models.SnapshotRows(store.experiments, next, 0))|
  {
    var row := store.configs[|before|];
    assert store.configs == before + [row];
    forall i | 0 <= i < |before| ensures before[i].configId != row.configId {
      assert Models.ConfigIds(before)[i] == before[i].configId;
    }
    FindAppended(before, row);
    var d := DbUtils.GetExperimentDetails(store, next);
    assert |multiset(d.value.initialExpressions)| ==
           |multiset(Models.ExpressionCounts(Models.SnapshotRows(store.experiments, next, 0)))|;
  }

  /** `run_simulation_form`, up to the charts: a form that does not parse
      or names no expressions changes nothing; otherwise the run is
      recorded as `run_experiment` records it (its configuration row, and
      the population and metrics rows of the steps it sampled, `samples`)
      and, when it completes, the reply carries the new id, the name the
      store gave it and the size of its step-0 population. */
  method RunSimulationForm(store: Models.Store, form: map<string, string>, upload: Option<Upload>,
                           parseFloat: string -> Option<Float>, files: map<string, seq<string>>,
                           generateN: Simulation.BTreeSettings -> seq<string>, now: int)
    returns (reply: FormReply, ghost samples: seq<Simulation.Sample>)
    requires store.Valid() && store.nameColumn
    modifies store
    ensures store.Valid() && store.nameColumn
    ensures BuildConfig(form, upload, parseFloat).Raised? ==>
              reply == FormError(FormException(ValueError)) && unchanged(store)
    ensures BuildConfig(form, upload, parseFloat) == Returned(NoExpressions) ==>
              reply == FormError(NoExpressionsProvided) && unchanged(store)
    ensures BuildConfig(form, upload, parseFloat).Returned? && BuildConfig(form, upload, parseFloat).value.Ready? ==>
              var config := BuildConfig(form, upload, parseFloat).value.config;
              var id := old(store.nextConfigId);
              && (reply.FormSuccess? <==> Simulation.RunFailure(config).None?)
              && (reply.FormError? ==> reply == FormError(FormException(Simulation.RunFailure(config).value)))
              && (Simulation.RunFailure(config) == Some(NameError) ==> unchanged(store))
              && (Simulation.RunFailure(config) != Some(NameError) ==>
                    && store.configs == old(store.configs) +
                         [Models.ConfigRow(id, config.randomSeed.value, config.inputExpressions.value.generator.value,
                                           config.totalCollisions.value, config.pollingFrequency.value, None,
                                           Simulation.FreevarOf(config.inputExpressions.value), now,
                                           Some(Models.StoredName(config.name, id)))]
                    && Models.Snapshots(store.experiments) ==
                         Models.Snapshots(old(store.experiments)) + Simulation.RunSnapshots(id, samples)
                    && Models.Measurements(store.averages) ==
                         Models.Measurements(old(store.averages)) + Simulation.RunMeasurements(id, samples))
              && (reply.FormSuccess? ==>
                    Simulation.SampleStepsOf(samples) ==
                      [0] + Simulation.SampledSteps(config.totalCollisions.value, config.pollingFrequency.value))
              && (Simulation.RunFailure(config) == Some(ZeroDivisionError) ==> Simulation.SampleStepsOf(samples) == [0])
              && (reply.FormSuccess? ==>
                    && reply.configId == id
                    && reply.experimentName == Some(Models.StoredName(config.name, reply.configId))
                    && reply.initialExpressions ==
                         |Models.ExpressionCounts(Models.SnapshotRows(store.experiments, reply.configId, 0))|)
  {
    samples := [];
    var plan := BuildConfig(form, upload, parseFloat);
    if plan.Raised? {
      return FormError(FormException(plan.error)), samples;
    }
    if plan.value.NoExpressions? {
      return FormError(NoExpressionsProvided), samples;
    }
    var config := plan.value.config;
    var runFiles := files;
    if plan.value.written.Some? {
      var (path, lines) := plan.value.written.value;
      runFiles := files[path := lines];
    }
    reply, samples := RunFormConfig(store, config, runFiles, generateN, now);
  }

  /** The run half of `run_simulation_form`, once the form has given a
      config with every setting filled in. */
  method RunFormConfig(store: Models.Store, config: Config, files: map<string, seq<string>>,
                       generateN: Simulation.BTreeSettings -> seq<string>, now: int)
    returns (reply: FormReply, ghost samples: seq<Simulation.Sample>)
    requires store.Valid() && store.nameColumn
    requires config.inputExpressions.Some? && config.inputExpressions.value.generator.Some?
    requires config.totalCollisions.Some? && config.pollingFrequency.Some? && config.randomSeed.Some?
    modifies store
    ensures store.Valid() && store.nameColumn
    ensures var id := old(store.nextConfigId);
      && (reply.FormSuccess? <==> Simulation.RunFailure(config).None?)
      && (reply.FormError? ==> reply == FormError(FormException(Simulation.RunFailure(config).value)))
      && (Simulation.RunFailure(config) == Some(NameError) ==> unchanged(store))
      && (Simulation.RunFailure(config) != Some(NameError) ==>
            && store.configs == old(store.configs) +
                 [Models.ConfigRow(id, config.randomSeed.value, config.inputExpressions.value.generator.value,
                                   config.totalCollisions.value, config.pollingFrequency.value, None,
                                   Simulation.FreevarOf(config.inputExpressions.value), now,
                                   Some(Models.StoredName(config.name, id)))]
            && Models.Snapshots(store.experiments) ==
                 Models.Snapshots(old(store.experiments)) + Simulation.RunSnapshots(id, samples)
            && Models.Measurements(store.averages) ==
                 Models.Measurements(old(store.averages)) + Simulation.RunMeasurements(id, samples))
      && (reply.FormSuccess? ==>
            Simulation.SampleStepsOf(samples) ==
              [0] + Simulation.SampledSteps(config.totalCollisions.value, config.pollingFrequency.value))
      && (Simulation.RunFailure(config) == Some(ZeroDivisionError) ==> Simulation.SampleStepsOf(samples) == [0])
      && (reply.FormSuccess? ==>
            && reply.configId == id
            && reply.experimentName == Some(Models.StoredName(config.name, reply.configId))
            && reply.initialExpressions ==
                 |Models.ExpressionCounts(Models.SnapshotRows(store.experiments, reply.configId, 0))|)
  {
    ghost var before := store.configs;
    var result;
    ghost var collisions;
    result, samples, collisions := Simulation.RunExperiment(store, config, config.randomSeed.value, files, generateN, now);
    if result.Raised? {
      return FormError(FormException(result.error)), samples;
    }
    var configId := result.value.configId;
    NewRunDetails(store, before, configId);
    var details := DbUtils.GetExperimentDetails(store, configId);
    reply := FormSuccess(configId, details.value.config.name, |details.value.initialExpressions|);
  }

  // ------------------------------------------------------------ continuing a run

  /** An `(expr, count)` row as a tally pair; `range` of a negative count
      is empty. */
  function CountPair(e: Models.ExpressionCount): (string, nat) {
    (e.expression, if e.count < 0 then 0 else e.count)
  }

  function CountsOf(rows: seq<Models.ExpressionCount>): Tally.Counts {
    MapSeq(rows, CountPair)
  }

  /** The file-writing loop of `continue_experiment`: every expression
      written `count` times, rows in order. */
  method WriteExpanded(rows: seq<Models.ExpressionCount>) returns (lines: seq<string>)
    ensures lines == Tally.Expand(CountsOf(rows))
    ensures |lines| == Tally.Total(CountsOf(rows))
  {
    lines := [];
    for i := 0 to |rows|
      invariant lines == Tally.Expand(CountsOf(rows[..i]))
    {
      var expr := rows[i].expression;
      var count := rows[i].count;
      var n := if count < 0 then 0 else count;
      ghost var start := lines;
      for k := 0 to n
        invariant lines == start + Tally.Repeat(expr, k)
      {
        lines := lines + [expr];
      }
      ExpandRowsSnoc(rows, i);
    }
    assert rows[..|rows|] == rows;
    Tally.ExpandLength(CountsOf(rows));
  }

  /** One more row adds its expression, `count` times, to the expansion. */
  lemma ExpandRowsSnoc(rows: seq<Models.ExpressionCount>, i: nat)
    requires i < |rows|
    ensures Tally.Expand(CountsOf(rows[..i + 1])) ==
              Tally.Expand(CountsOf(rows[..i])) + Tally.Repeat(rows[i].expression, if rows[i].count < 0 then 0 else rows[i].count)
  {
    var pair := (rows[i].expression, if rows[i].count < 0 then 0 else rows[i].count);
    assert rows[..i + 1] == rows[..i] + [rows[i]];
    MapSeqAppend(rows[..i], [rows[i]], CountPair);
    assert MapSeq([rows[i]], CountPair) == [pair];
    assert CountsOf(rows[..i + 1]) == CountsOf(rows[..i]) + [pair];
    Tally.ExpandAppend(CountsOf(rows[..i]), [pair]);
    assert Tally.Expand([pair]) == Tally.Repeat(pair.0, pair.1) + Tally.Expand([]);
  }

  /** Expanding pairs whose expressions are clean lines gives clean lines. */
  lemma {:induction false} ExpandedLinesClean(p: Tally.Counts)
    requires forall i :: 0 <= i < |p| ==> p[i].0 != [] && PyText.IsStripped(p[i].0)
    ensures forall j :: 0 <= j < |Tally.Expand(p)| ==> Tally.Expand(p)[j] != [] && PyText.IsStripped(Tally.Expand(p)[j])
  {
    if p != [] {
      ExpandedLinesClean(p[1..]);
      var r := Tally.Repeat(p[0].0, p[0].1);
      forall j | 0 <= j < |Tally.Expand(p)|
        ensures Tally.Expand(p)[j] != [] && PyText.IsStripped(Tally.Expand(p)[j])
      {
        if j >= |r| {
          assert Tally.Expand(p)[j] == Tally.Expand(p[1..])[j - |r|];
        }
      }
    }
  }

  /** The continued run starts from the population it continues: for rows
      of distinct clean expressions with positive counts, the file loads
      back as the expanded rows, and re-aggregating it with `Counter`
      gives the same rows in the same order. */
  lemma ContinueRoundTrip(rows: seq<Models.ExpressionCount>, path: string, files: map<string, seq<string>>,
                          generateN: Simulation.BTreeSettings -> seq<string>)
    requires path != ""
    requires Tally.WellFormed(CountsOf(rows))
    requires forall i :: 0 <= i < |rows| ==> rows[i].expression != [] && PyText.IsStripped(rows[i].expression)
    ensures var seed := Simulation.LoadInputExpressions("from_file", NoParams.(filename := Some(path)),
                                                        files[path := Tally.Expand(CountsOf(rows))], generateN);
      && seed == Tally.Expand(CountsOf(rows))
      && Tally.Counter(seed) == CountsOf(rows)
      && |seed| == Tally.Total(CountsOf(rows))
  {
    ExpandedLinesClean(CountsOf(rows));
    Simulation.LoadCleanFile(NoParams.(filename := Some(path)), files[path := Tally.Expand(CountsOf(rows))], generateN);
    Tally.CounterOfExpand(CountsOf(rows));
    Tally.ExpandLength(CountsOf(rows));
  }

  /** The config of a continued run: the original seed, collisions and
      frequency, seeded from the written file, without a name. */
  function ContinuedConfig(original: Models.ConfigRow, path: string): (c: Config)
    ensures Simulation.RunFailure(c).None? || Simulation.RunFailure(c) == Some(ZeroDivisionError)
    ensures Simulation.FreevarOf(c.inputExpressions.value).None?
  {
    Config(Some(InputExpressions(Some("from_file"), Some(NoParams.(filename := Some(path))))),
           Some(original.totalCollisions), None, Some(original.pollingFrequency), Some(original.randomSeed), None, None)
  }

  /** The rows `get_expressions_for_collision(config_id, -1)` gives for the
      submitted id text.  SQLite compares the text with the integer column
      as the integer it spells (`matchedId`); text that spells none matches
      no row. */
  function LastExpressions(store: Models.Store, id: Option<int>): seq<Models.ExpressionCount>
    reads store
  {
    if id.None? then [] else DbUtils.GetExpressionsForCollision(store, id.value, -1)
  }

  function LastDetails(store: Models.Store, id: Option<int>): Option<DbUtils.Details>
    reads store
  {
    if id.None? then None else DbUtils.GetExperimentDetails(store, id.value)
  }

  datatype ContinueReply = NoExperimentSelected | NoExpressionsFound | RedirectTo(configId: int)

  /** `continue_experiment`: without an id, or without a last population,
      nothing is written or run; otherwise the last population is written
      out expanded and a new run is made from it with the original's seed,
      collisions and frequency.  A run without a configuration row raises
      TypeError, as does indexing `None`. */
  method ContinueExperiment(store: Models.Store, configIdText: Option<string>, matchedId: Option<int>,
                            files: map<string, seq<string>>, generateN: Simulation.BTreeSettings -> seq<string>,
                            now: int)
    returns (reply: Outcome<ContinueReply>, written: seq<string>, ghost samples: seq<Simulation.Sample>)
    requires store.Valid() && store.nameColumn
    modifies store
    ensures store.Valid() && store.nameColumn
    ensures configIdText.None? || configIdText == Some("") ==>
              reply == Returned(NoExperimentSelected) && written == [] && unchanged(store)
    ensures configIdText.Some? && configIdText.value != "" ==>
              var rows := old(LastExpressions(store, matchedId));
              var details := old(LastDetails(store, matchedId));
              var path := PyText.PathJoin(UploadFolder, "continue_exp_" + configIdText.value + ".txt");
              && (rows == [] ==> reply == Returned(NoExpressionsFound) && written == [] && unchanged(store))
              && (rows != [] ==> written == Tally.Expand(CountsOf(rows)))
              && (rows != [] && details.None? ==> reply == Raised(TypeError) && unchanged(store))
              && (rows != [] && details.Some? ==>
                    var config := ContinuedConfig(details.value.config, path);
                    var newId := old(store.nextConfigId);
                    && (reply.Raised? <==> Simulation.RunFailure(config).Some?)
                    && (reply.Raised? ==> reply.error == Simulation.RunFailure(config).value)
                    && (reply.Returned? ==> reply.value == RedirectTo(newId))
                    && (reply.Returned? ==>
                          Simulation.SampleStepsOf(samples) ==
                            [0] + Simulation.SampledSteps(details.value.config.totalCollisions,
                                                          details.value.config.pollingFrequency))
                    && (reply.Raised? ==> Simulation.SampleStepsOf(samples) == [0])
                    && store.configs == old(store.configs) + [Models.ConfigRow(
                         newId, details.value.config.randomSeed, "from_file", details.value.config.totalCollisions,
                         details.value.config.pollingFrequency, None, None, now, Some(Models.DefaultName(newId)))]
                    && Models.Snapshots(store.experiments) ==
                         Models.Snapshots(old(store.experiments)) + Simulation.RunSnapshots(newId, samples)
                    && Models.Measurements(store.averages) ==
                         Models.Measurements(old(store.averages)) + Simulation.RunMeasurements(newId, samples))
  {
    written, samples := [], [];
    if configIdText.None? || configIdText.value == "" {
      return Returned(NoExperimentSelected), written, samples;
    }
    var text := configIdText.value;
    var id := matchedId;
    var lastExpressions := LastExpressions(store, id);
    if lastExpressions == [] {
      return Returned(NoExpressionsFound), written, samples;
    }
    var path := PyText.PathJoin(UploadFolder, "continue_exp_" + text + ".txt");
    written := WriteExpanded(lastExpressions);
    var details := LastDetails(store, id);
    if details.None? {
      return Raised(TypeError), written, samples;
    }
    var config := ContinuedConfig(details.value.config, path);
    var result;
    ghost var collisions;
    result, samples, collisions := Simulation.RunExperiment(store, config, 0, files[path := written], generateN, now);
    if result.Raised? {
      return Raised(result.error), written, samples;
    }
    reply := Returned(RedirectTo(result.value.configId));
  }

  // ------------------------------------------------------------ renaming

  datatype NameReply = NameUpdated | NameEmpty | UpdateFailed | NameException(error: PyError)

  /** `update_name`: the id must be an integer (`int(None)` is a
      TypeError, bad text a ValueError) and the name must not be missing
      or blank, else nothing changes; otherwise the name is stored as given
      and the reply says whether a run had the id. */
  method UpdateName(store: Models.Store, configIdText: Option<string>, newName: Option<string>)
    returns (reply: NameReply)
    requires store.Valid() && store.nameColumn
    modifies store
    ensures store.Valid() && store.nameColumn
    ensures configIdText.None? ==> reply == NameException(TypeError) && unchanged(store)
    ensures configIdText.Some? && PyText.ParseInt(configIdText.value).None? ==>
              reply == NameException(ValueError) && unchanged(store)
    ensures configIdText.Some? && PyText.ParseInt(configIdText.value).Some? &&
            (newName.None? || PyText.Strip(newName.value) == "") ==>
              reply == NameEmpty && unchanged(store)
    ensures configIdText.Some? && PyText.ParseInt(configIdText.value).Some? &&
            newName.Some? && PyText.Strip(newName.value) != "" ==>
              var id := PyText.ParseInt(configIdText.value).value;
              && (reply == NameUpdated || reply == UpdateFailed)
              && (reply == NameUpdated <==> id in Models.ConfigIds(old(store.configs)))
              && store.configs == Models.Renamed(old(store.configs), id, newName.value)
              && store.experiments == old(store.experiments) && store.averages == old(store.averages)
  {
    if configIdText.None? {
      return NameException(TypeError);
    }
    var parsed := PyText.ParseInt(configIdText.value);
    if parsed.None? {
      return NameException(ValueError);
    }
    if newName.None? || PyText.Strip(newName.value) == "" {
      return NameEmpty;
    }
    var success := store.UpdateExperimentName(parsed.value, newName.value);
    reply := if success then NameUpdated else UpdateFailed;
  }

  /** A rename that reports success makes that name the one the run is
      listed under, and touches no other run. */
  lemma RenameShows(rows: seq<Models.ConfigRow>, id: int, newName: string)
    requires id in Models.ConfigIds(rows)
    ensures exists i :: 0 <= i < |rows| && rows[i].configId == id &&
                        Models.Renamed(rows, id, newName)[i].name == Some(newName)
    ensures forall i :: 0 <= i < |rows| && rows[i].configId != id ==> Models.Renamed(rows, id, newName)[i] == rows[i]
  {
    var i :| 0 <= i < |rows| && Models.ConfigIds(rows)[i] == id;
    assert Models.Renamed(rows, id, newName)[i].name == Some(newName);
  }

  // ------------------------------------------------------------ listing

  /** A column value of a tuple row. */
  datatype Column = IntColumn(n: int) | TextColumn(text: string) | NullColumn

  /** A row as the store may return it: a tuple, or an already named dict. */
  datatype Listed = TupleRow(columns: seq<Column>) | DictRow(summary: Models.ConfigSummary)

  datatype ListedJson = NamedColumns(fields: seq<(string, Column)>) | SummaryJson(summary: Models.ConfigSummary)

  const ListingFields: seq<string> :=
    ["config_id", "random_seed", "generator_type", "total_collisions", "polling_frequency", "timestamp"]

  /** The dict `list_experiments` makes of a tuple's first six columns. */
  function NamedListing(columns: seq<Column>): seq<(string, Column)>
    requires |columns| >= 6
  {
    seq(6, k requires 0 <= k < 6 => (ListingFields[k], columns[k]))
  }

  /** The loop of `list_experiments`: a tuple row is named positionally
      (IndexError when it has fewer than six columns), a dict row passes
      through unchanged, rows in order. */
  method ListExperiments(experiments: seq<Listed>) returns (r: Outcome<seq<ListedJson>>)
    ensures r.Returned? <==> forall i :: 0 <= i < |experiments| && experiments[i].TupleRow? ==> |experiments[i].columns| >= 6
    ensures r.Raised? ==> r.error == IndexError
    ensures r.Returned? ==>
              && |r.value| == |experiments|
              && forall i :: 0 <= i < |experiments| ==>
                   match experiments[i]
                   case DictRow(summary) => r.value[i] == SummaryJson(summary)
                   case TupleRow(columns) => |columns| >= 6 && r.value[i] == NamedColumns(NamedListing(columns))
  {
    var out: seq<ListedJson> := [];
    for i := 0 to |experiments|
      invariant |out| == i
      invariant forall j :: 0 <= j < i && experiments[j].TupleRow? ==> |experiments[j].columns| >= 6
      invariant forall j :: 0 <= j < i ==>
                  match experiments[j]
                  case DictRow(summary) => out[j] == SummaryJson(summary)
                  case TupleRow(columns) => |columns| >= 6 && out[j] == NamedColumns(NamedListing(columns))
    {
      match experiments[i]
      case TupleRow(columns) =>
        if |columns| < 6 {
          return Raised(IndexError);
        }
        out := out + [NamedColumns(NamedListing(columns))];
      case DictRow(summary) =>
        out := out + [SummaryJson(summary)];
    }
    r := Returned(out);
  }

  /** The store's `get_experiment_configs` gives dict rows, so the listing
      is every run, newest first, as the store describes it. */
  method ListStoredExperiments(store: Models.Store) returns (r: Outcome<seq<ListedJson>>)
    ensures r == Returned(MapSeq(store.GetExperimentConfigs(), (s: Models.ConfigSummary) => SummaryJson(s)))
    ensures r.Returned? && |r.value| == |store.configs|
  {
    var rows := store.GetExperimentConfigs();
    r := ListExperiments(MapSeq(rows, (s: Models.ConfigSummary) => DictRow(s)));
    assert r.value == MapSeq(rows, (s: Models.ConfigSummary) => SummaryJson(s));
  }

  // ------------------------------------------------------------ uploads

  /** What reading an uploaded result file as UTF-8 JSON gives. */
  datatype UploadContent = Parsed(doc: ExperimentDoc) | NotJson | NotUtf8

  /** An uploaded result file: its name and what its content reads as. */
  datatype ResultUpload = ResultUpload(filename: string, content: UploadContent)

  datatype UploadFailure =
    | NoFileUploaded
    | InvalidFileType
    | JsonDecodeError
    | MissingCollisionsData
    | UploadException(error: PyError)

  datatype UploadReply = UploadOk(filename: string, metrics: seq<string>) | UploadError(failure: UploadFailure)

  /** `upload_json`: the checks in order (a file, a `.json` name, valid
      JSON, a `collisions_data` key), then the keys of the first entry, in
      its order, as the available metrics.  Text that is not UTF-8 raises
      UnicodeDecodeError, which the generic handler reports; an empty
      `collisions_data` has no first entry (StopIteration, reported the
      same way). */
  function UploadJson(file: Option<ResultUpload>): (r: UploadReply)
    ensures r.UploadOk? <==>
              && file.Some? && PyText.EndsWith(file.value.filename, ".json")
              && file.value.content.Parsed? && file.value.content.doc.collisionsData.Some?
              && file.value.content.doc.collisionsData.value != []
    ensures r.UploadOk? ==> r.filename == file.value.filename
    ensures r.UploadOk? ==> r.metrics == file.value.content.doc.collisionsData.value[0].1.keys
    ensures file.None? ==> r == UploadError(NoFileUploaded)
    ensures file.Some? && !PyText.EndsWith(file.value.filename, ".json") ==> r == UploadError(InvalidFileType)
    ensures file.Some? && PyText.EndsWith(file.value.filename, ".json") ==>
              && (file.value.content.NotJson? ==> r == UploadError(JsonDecodeError))
              && (file.value.content.NotUtf8? ==> r == UploadError(UploadException(UnicodeDecodeError)))
              && (file.value.content.Parsed? && file.value.content.doc.collisionsData.None? ==>
                    r == UploadError(MissingCollisionsData))
              && (file.value.content.Parsed? && file.value.content.doc.collisionsData == Some([]) ==>
                    r == UploadError(UploadException(StopIteration)))
  {
    if file.None? then UploadError(NoFileUploaded)
    else if !PyText.EndsWith(file.value.filename, ".json") then UploadError(InvalidFileType)
    else
      match file.value.content
      case NotJson => UploadError(JsonDecodeError)
      case NotUtf8 => UploadError(UploadException(UnicodeDecodeError))
      case Parsed(doc) =>
        if doc.collisionsData.None? then UploadError(MissingCollisionsData)
        else
          var entries := doc.collisionsData.value;
          if entries == [] then UploadError(UploadException(StopIteration))
          else UploadOk(file.value.filename, entries[0].1.keys)
  }

  /** Uploading the output of a file-based run offers exactly the
      measurements that run recorded, after the state, in the order
      entropy, unique_expressions, len_unique_expressions. */
  lemma UploadOfRunOutput(filename: string, config: Config, measurements: seq<string>,
                          samples: seq<SimulationV2.Sample>, lastState: Option<Entries>)
    requires PyText.EndsWith(filename, ".json") && samples != []
    ensures UploadJson(Some(ResultUpload(filename, Parsed(ExperimentDoc(Some(config),
              Some(SimulationV2.RunEntries(measurements, samples)), lastState))))) ==
            UploadOk(filename, ["state"]
                               + (if "entropy" in measurements then ["entropy"] else [])
                               + (if "unique_expressions" in measurements then ["unique_expressions"] else [])
                               + (if "len_unique_expressions" in measurements then ["len_unique_expressions"] else []))
  {
    var entries := SimulationV2.RunEntries(measurements, samples);
    assert entries != [] && entries[0].1 == SimulationV2.StepEntry(measurements, samples[0]);
  }
}

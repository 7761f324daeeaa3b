/**
 * The read and reshape layer over the three tables (`db_utils.py`): listing
 * runs, the details of one run, the population of one step, the metric
 * series of several runs for comparison, and the import of a result file.
 */
module DbUtils {
  import opened Wrappers
  import opened Sorting
  import opened Models
  import opened Documents
  import Tally

  /** A tuple row of `get_experiment_configs` (seven columns, with the name). */
  datatype ConfigListing = ConfigListing(
    configId: int,
    randomSeed: int,
    generatorType: string,
    totalCollisions: int,
    pollingFrequency: int,
    timestamp: int,
    name: Option<string>)

  /** A metrics tuple `(collision_number, entropy, unique_expressions)`. */
  datatype MetricRow = MetricRow(collisionNumber: int, entropy: Float, uniqueExpressions: int)

  /** What `get_experiment_details` returns for a known run. */
  datatype Details = Details(
    config: ConfigRow,
    metrics: seq<MetricRow>,
    initialExpressions: seq<ExpressionCount>)

  function Listings(rows: seq<ConfigRow>): seq<ConfigListing> {
    seq(|rows|, i requires 0 <= i < |rows| =>
      ConfigListing(rows[i].configId, rows[i].randomSeed, rows[i].generatorType,
                    rows[i].totalCollisions, rows[i].pollingFrequency, rows[i].timestamp, rows[i].name))
  }

  /** `get_experiment_configs` of `db_utils.py`: no rows when the database
      file is missing, else every configuration, newest first. */
  function GetExperimentConfigs(store: Store, databaseExists: bool): (r: seq<ConfigListing>)
    reads store
    ensures !databaseExists ==> r == []
    ensures databaseExists ==> |r| == |store.configs|
    ensures forall i, j :: 0 <= i < j < |r| ==> r[i].timestamp >= r[j].timestamp
    ensures databaseExists ==> multiset(r) == multiset(Listings(store.configs))
  {
    if !databaseExists then []
    else SortBy(Listings(store.configs), (c: ConfigListing) => -c.timestamp)
  }

  /** `SELECT ... FROM Configurations WHERE config_id = ?` with `fetchone()`. */
  function FindConfig(rows: seq<ConfigRow>, id: int): (r: Option<ConfigRow>)
    ensures r.None? <==> id !in ConfigIds(rows)
    ensures r.Some? ==> r.value in rows && r.value.configId == id
  {
    if rows == [] then None
    else if rows[0].configId == id then
      assert ConfigIds(rows)[0] == id;
      Some(rows[0])
    else
      assert ConfigIds(rows) == [rows[0].configId] + ConfigIds(rows[1..]);
      FindConfig(rows[1..], id)
  }

  /** `WHERE config_id = ?` on `Averages`. */
  function RunAverages(rows: seq<AveragesRow>, id: int): seq<AveragesRow> {
    Filter(rows, (a: AveragesRow) => a.configId == id)
  }

  function MetricRows(rows: seq<AveragesRow>): seq<MetricRow> {
    seq(|rows|, i requires 0 <= i < |rows| =>
      MetricRow(rows[i].collisionNumber, rows[i].entropy, rows[i].uniqueExpressions))
  }

  /** `get_experiment_details`: nothing for an unknown run; otherwise its
      configuration row, all its metric rows by ascending step, and its
      step-0 population rows. */
  function GetExperimentDetails(store: Store, configId: int): (r: Option<Details>)
    reads store
    ensures r.None? <==> configId !in ConfigIds(store.configs)
    ensures r.Some? ==> r.value.config in store.configs && r.value.config.configId == configId
    ensures r.Some? ==> forall i, j :: 0 <= i < j < |r.value.metrics| ==>
              r.value.metrics[i].collisionNumber <= r.value.metrics[j].collisionNumber
    ensures r.Some? ==> multiset(r.value.metrics) == multiset(MetricRows(RunAverages(store.averages, configId)))
    ensures r.Some? ==>
              multiset(r.value.initialExpressions) == multiset(ExpressionCounts(SnapshotRows(store.experiments, configId, 0)))
  {
    match FindConfig(store.configs, configId)
    case None => None
    case Some(c) =>
      Some(Details(
        c,
        SortBy(MetricRows(RunAverages(store.averages, configId)), (m: MetricRow) => m.collisionNumber),
        ExpressionCounts(SnapshotRows(store.experiments, configId, 0))))
  }

  /** A record of the frame `process_collision_data` builds. */
  datatype CollisionRecord = CollisionRecord(collisionNumber: int, entropy: Float, uniqueExpressionsCount: int)

  /** `process_collision_data`: one record per metrics tuple, in the same
      order, with the fields renamed and nothing dropped. */
  method ProcessCollisionData(metrics: seq<MetricRow>) returns (records: seq<CollisionRecord>)
    ensures |records| == |metrics|
    ensures forall i :: 0 <= i < |metrics| ==>
              records[i] == CollisionRecord(metrics[i].collisionNumber, metrics[i].entropy, metrics[i].uniqueExpressions)
  {
    records := [];
    for k := 0 to |metrics|
      invariant |records| == k
      invariant forall i :: 0 <= i < k ==>
                  records[i] == CollisionRecord(metrics[i].collisionNumber, metrics[i].entropy, metrics[i].uniqueExpressions)
    {
      var MetricRow(collisionNumber, entropy, uniqueExpressions) := metrics[k];
      records := records + [CollisionRecord(collisionNumber, entropy, uniqueExpressions)];
    }
  }

  function RunSteps(rows: seq<ExperimentRow>, id: int): seq<int> {
    var mine := Filter(rows, (e: ExperimentRow) => e.configId == id);
    seq(|mine|, i requires 0 <= i < |mine| => mine[i].collisionNumber)
  }

  /** `SELECT MAX(collision_number) FROM Experiment WHERE config_id = ?`:
      the last sampled step of a run, none when it has no population rows. */
  function LastStep(rows: seq<ExperimentRow>, id: int): (r: Option<int>)
    ensures r.None? <==> forall e :: e in rows ==> e.configId != id
    ensures r.Some? ==> exists e :: e in rows && e.configId == id && e.collisionNumber == r.value
    ensures r.Some? ==> forall e :: e in rows && e.configId == id ==> e.collisionNumber <= r.value
  {
    LastStepFacts(rows, id);
    MaxOf(RunSteps(rows, id))
  }

  lemma LastStepFacts(rows: seq<ExperimentRow>, id: int)
    ensures var m := MaxOf(RunSteps(rows, id));
      && (m.None? <==> forall e :: e in rows ==> e.configId != id)
      && (m.Some? ==> exists e :: e in rows && e.configId == id && e.collisionNumber == m.value)
      && (m.Some? ==> forall e :: e in rows && e.configId == id ==> e.collisionNumber <= m.value)
  {
    var mine := Filter(rows, (e: ExperimentRow) => e.configId == id);
    var steps := RunSteps(rows, id);
    forall e | e in rows && e.configId == id ensures e in mine {
      assert multiset(mine)[e] == multiset(rows)[e];
    }
    forall e | e in mine ensures e in rows && e.configId == id {
      assert multiset(mine)[e] > 0;
    }
    forall e | e in mine ensures e.collisionNumber in steps {
      var i :| 0 <= i < |mine| && mine[i] == e;
      assert steps[i] == e.collisionNumber;
    }
    var m := MaxOf(steps);
    if m.Some? {
      var i :| 0 <= i < |steps| && steps[i] == m.value;
      assert mine[i] in mine;
    }
  }

  /** `get_expressions_for_collision`: the population rows of one step,
      largest count first; step -1 means the run's last step, and a run
      with no population rows then gives no rows. */
  function GetExpressionsForCollision(store: Store, configId: int, collisionNumber: int): (r: seq<ExpressionCount>)
    reads store
    ensures forall i, j :: 0 <= i < j < |r| ==> r[i].count >= r[j].count
    ensures collisionNumber != -1 ==>
              multiset(r) == multiset(ExpressionCounts(SnapshotRows(store.experiments, configId, collisionNumber)))
    ensures collisionNumber == -1 && LastStep(store.experiments, configId).None? ==> r == []
    ensures collisionNumber == -1 && LastStep(store.experiments, configId).Some? ==>
              multiset(r) == multiset(ExpressionCounts(SnapshotRows(store.experiments, configId,
                                                                    LastStep(store.experiments, configId).value)))
  {
    if collisionNumber == -1 then
      match LastStep(store.experiments, configId)
      case None => []
      case Some(last) => store.GetExperimentExpressions(configId, last)
    else store.GetExperimentExpressions(configId, collisionNumber)
  }

  /** The last step of a run that has population rows has at least one: so
      asking for step -1 gives no rows exactly when the run has none. */
  lemma LastStepHasRows(store: Store, configId: int)
    ensures GetExpressionsForCollision(store, configId, -1) == [] <==>
              forall e :: e in store.experiments ==> e.configId != configId
  {
    var last := LastStep(store.experiments, configId);
    if last.Some? {
      var e :| e in store.experiments && e.configId == configId && e.collisionNumber == last.value;
      var rows := SnapshotRows(store.experiments, configId, last.value);
      assert multiset(rows)[e] == multiset(store.experiments)[e];
      assert e in rows;
      var k :| 0 <= k < |rows| && rows[k] == e;
      assert ExpressionCounts(rows)[k] in multiset(ExpressionCounts(rows));
    }
  }

  /** The reply of `get_entropy_and_histogram`. */
  datatype EntropyAndHistogram = EntropyAndHistogram(entropy: Option<Float>, histogram: seq<ExpressionCount>)

  /** `WHERE config_id = ? AND collision_number = ?` on `Averages`. */
  function StepAverages(rows: seq<AveragesRow>, configId: int, collisionNumber: int): seq<AveragesRow> {
    Filter(rows, (a: AveragesRow) => a.configId == configId && a.collisionNumber == collisionNumber)
  }

  /** `get_entropy_and_histogram`: the entropy of the step's first metrics row
      (none without one) and the step's population rows, largest count first. */
  function GetEntropyAndHistogram(store: Store, configId: int, collisionNumber: int): (r: EntropyAndHistogram)
    reads store
    ensures r.entropy.None? <==> forall a :: a in store.averages ==> !(a.configId == configId && a.collisionNumber == collisionNumber)
    ensures r.entropy.Some? ==>
              exists a :: a in store.averages && a.configId == configId && a.collisionNumber == collisionNumber
                       && a.entropy == r.entropy.value
    ensures forall i, j :: 0 <= i < j < |r.histogram| ==> r.histogram[i].count >= r.histogram[j].count
    ensures multiset(r.histogram) == multiset(ExpressionCounts(SnapshotRows(store.experiments, configId, collisionNumber)))
  {
    var matching := StepAverages(store.averages, configId, collisionNumber);
    StepAveragesFacts(store.averages, configId, collisionNumber);
    if matching != [] then
      EntropyAndHistogram(Some(matching[0].entropy), store.GetExperimentExpressions(configId, collisionNumber))
    else
      EntropyAndHistogram(None, store.GetExperimentExpressions(configId, collisionNumber))
  }

  lemma StepAveragesFacts(rows: seq<AveragesRow>, configId: int, collisionNumber: int)
    ensures var matching := StepAverages(rows, configId, collisionNumber);
      && (forall a :: a in rows && a.configId == configId && a.collisionNumber == collisionNumber ==> a in matching)
      && (forall a :: a in matching ==> a in rows && a.configId == configId && a.collisionNumber == collisionNumber)
  {
    var matching := StepAverages(rows, configId, collisionNumber);
    forall a | a in rows && a.configId == configId && a.collisionNumber == collisionNumber
      ensures a in matching
    {
      assert multiset(matching)[a] == multiset(rows)[a];
    }
    forall a | a in matching
      ensures a in rows && a.configId == configId && a.collisionNumber == collisionNumber
    {
      assert multiset(matching)[a] > 0;
    }
  }

  // ------------------------------------------------------------ comparison

  /** The column `get_experiment_metrics` selects, `entropy` or
      `unique_expressions`. */
  datatype MetricName = Entropy | UniqueExpressions

  /** A value of the selected column. */
  datatype Cell = EntropyCell(entropy: Float) | CountCell(count: int)

  /** One run's entry of the comparison mapping. */
  datatype MetricSeries = MetricSeries(data: seq<(int, Cell)>, generatorType: string, randomSeed: int)

  function MetricPoints(rows: seq<AveragesRow>, metric: MetricName): seq<(int, Cell)> {
    seq(|rows|, i requires 0 <= i < |rows| =>
      (rows[i].collisionNumber,
       if metric == Entropy then EntropyCell(rows[i].entropy) else CountCell(rows[i].uniqueExpressions)))
  }

  /** The entry a known run gets: its metric by ascending step, its generator and seed. */
  function Compared(store: Store, id: int, metric: MetricName): (r: Option<MetricSeries>)
    reads store
    ensures r.Some? <==> id in ConfigIds(store.configs)
    ensures r.Some? ==> forall i, j :: 0 <= i < j < |r.value.data| ==> r.value.data[i].0 <= r.value.data[j].0
    ensures r.Some? ==> multiset(r.value.data) == multiset(MetricPoints(RunAverages(store.averages, id), metric))
  {
    match FindConfig(store.configs, id)
    case None => None
    case Some(c) =>
      Some(MetricSeries(SortBy(MetricPoints(RunAverages(store.averages, id), metric), (p: (int, Cell)) => p.0),
                        c.generatorType, c.randomSeed))
  }

  function Keys(d: seq<(int, MetricSeries)>): seq<int> {
    seq(|d|, i requires 0 <= i < |d| => d[i].0)
  }

  /** `d[k] = v` on an insertion-ordered dict: an existing key keeps its
      place, a new one goes last. */
  function DictSet(d: seq<(int, MetricSeries)>, k: int, v: MetricSeries): (r: seq<(int, MetricSeries)>)
    ensures k in Keys(d) ==> |r| == |d| && Keys(r) == Keys(d)
    ensures k in Keys(d) ==> forall i :: 0 <= i < |d| ==> r[i] == (if d[i].0 == k then (k, v) else d[i])
    ensures k !in Keys(d) ==> r == d + [(k, v)]
  {
    if k in Keys(d) then seq(|d|, i requires 0 <= i < |d| => if d[i].0 == k then (k, v) else d[i])
    else d + [(k, v)]
  }

  /** The position of the first occurrence of `x` in `s`. */
  function FirstIndex(s: seq<int>, x: int): (i: nat)
    requires x in s
    ensures i < |s| && s[i] == x && x !in s[..i]
  {
    if s[0] == x then 0 else 1 + FirstIndex(s[1..], x)
  }

  lemma FirstIndexBelow(s: seq<int>, x: int, n: nat)
    requires x in s && n <= |s|
    ensures FirstIndex(s, x) < n <==> x in s[..n]
  {
    var i := FirstIndex(s, x);
    if i < n {
      assert s[..n][i] == x;
    }
  }

  /** Every entry comes from one of the first `n` ids and holds that id's series. */
  ghost predicate EntriesFrom(store: Store, configIds: seq<int>, metric: MetricName, n: nat,
                              result: seq<(int, MetricSeries)>)
    reads store
    requires n <= |configIds|
  {
    forall i :: 0 <= i < |result| ==>
      result[i].0 in configIds[..n] && Compared(store, result[i].0, metric) == Some(result[i].1)
  }

  /** Every known id among the first `n` has an entry. */
  ghost predicate CoversKnown(store: Store, configIds: seq<int>, n: nat, result: seq<(int, MetricSeries)>)
    reads store
    requires n <= |configIds|
  {
    forall id :: id in configIds[..n] && id in ConfigIds(store.configs) ==> id in Keys(result)
  }

  /** Entries are ordered by where their ids first occur. */
  predicate OrderedByFirst(configIds: seq<int>, result: seq<(int, MetricSeries)>)
    requires forall i :: 0 <= i < |result| ==> result[i].0 in configIds
  {
    forall i, j :: 0 <= i < j < |result| ==>
      FirstIndex(configIds, result[i].0) < FirstIndex(configIds, result[j].0)
  }

  lemma EntriesStep(store: Store, configIds: seq<int>, metric: MetricName, n: nat,
                    result: seq<(int, MetricSeries)>)
    requires n < |configIds| && EntriesFrom(store, configIds, metric, n, result)
    requires FindConfig(store.configs, configIds[n]).Some?
    ensures EntriesFrom(store, configIds, metric, n + 1,
                        DictSet(result, configIds[n], Compared(store, configIds[n], metric).value))
  {
    var id := configIds[n];
    assert configIds[..n + 1] == configIds[..n] + [id];
    var after := DictSet(result, id, Compared(store, id, metric).value);
    forall i | 0 <= i < |after|
      ensures after[i].0 in configIds[..n + 1] && Compared(store, after[i].0, metric) == Some(after[i].1)
    {
      if i < |result| && after[i] == result[i] {
      } else {
        assert after[i].0 == id;
      }
    }
  }

  lemma CoversStep(store: Store, configIds: seq<int>, n: nat, result: seq<(int, MetricSeries)>, v: MetricSeries)
    requires n < |configIds| && CoversKnown(store, configIds, n, result)
    ensures configIds[n] !in ConfigIds(store.configs) ==> CoversKnown(store, configIds, n + 1, result)
    ensures CoversKnown(store, configIds, n + 1, DictSet(result, configIds[n], v))
  {
    var id := configIds[n];
    assert configIds[..n + 1] == configIds[..n] + [id];
    var after := DictSet(result, id, v);
    forall x | x in configIds[..n + 1] && x in ConfigIds(store.configs) ensures x in Keys(after) {
      if x != id {
        var k :| 0 <= k < |result| && Keys(result)[k] == x;
        assert Keys(after)[k] == x;
      } else if id in Keys(result) {
        assert Keys(after) == Keys(result);
      } else {
        assert Keys(after)[|result|] == x;
      }
    }
  }

  lemma OrderStep(configIds: seq<int>, n: nat, result: seq<(int, MetricSeries)>, v: MetricSeries)
    requires n < |configIds|
    requires forall i :: 0 <= i < |result| ==> result[i].0 in configIds[..n]
    requires configIds[n] in configIds[..n] ==> configIds[n] in Keys(result)
    requires forall i :: 0 <= i < |result| ==> result[i].0 in configIds
    requires OrderedByFirst(configIds, result)
    ensures forall i :: 0 <= i < |DictSet(result, configIds[n], v)| ==>
              DictSet(result, configIds[n], v)[i].0 in configIds
    ensures OrderedByFirst(configIds, DictSet(result, configIds[n], v))
  {
    var id := configIds[n];
    var after := DictSet(result, id, v);
    if id !in Keys(result) {
      FirstIndexBelow(configIds, id, n);
      FirstIndexBelow(configIds, id, n + 1);
      forall i | 0 <= i < |result| ensures FirstIndex(configIds, result[i].0) < n {
        FirstIndexBelow(configIds, result[i].0, n);
      }
      assert after == result + [(id, v)];
    } else {
      assert forall i :: 0 <= i < |result| ==> after[i].0 == result[i].0;
    }
  }

  /** `get_experiment_metrics`: the comparison mapping for the given ids.
      Unknown ids are skipped, a known run without metric rows gets an empty
      series, and the keys follow the order in which the ids first occur. */
  method GetExperimentMetrics(store: Store, configIds: seq<int>, metric: MetricName)
    returns (result: seq<(int, MetricSeries)>)
    ensures configIds == [] ==> result == []
    ensures forall i :: 0 <= i < |result| ==>
              result[i].0 in configIds && Compared(store, result[i].0, metric) == Some(result[i].1)
    ensures forall id :: id in configIds && id in ConfigIds(store.configs) ==> id in Keys(result)
    ensures forall i, j :: 0 <= i < j < |result| ==>
              FirstIndex(configIds, result[i].0) < FirstIndex(configIds, result[j].0)
  {
    result := [];
    if configIds == [] {
      return;
    }
    for n := 0 to |configIds|
      invariant EntriesFrom(store, configIds, metric, n, result)
      invariant CoversKnown(store, configIds, n, result)
      invariant forall i :: 0 <= i < |result| ==> result[i].0 in configIds
      invariant OrderedByFirst(configIds, result)
    {
      var id := configIds[n];
      var info := FindConfig(store.configs, id);
      if info.Some? {
        var series := Compared(store, id, metric).value;
        EntriesStep(store, configIds, metric, n, result);
        CoversStep(store, configIds, n, result, series);
        OrderStep(configIds, n, result, series);
        result := DictSet(result, id, series);
      } else {
        CoversStep(store, configIds, n, result, MetricSeries([], "", 0));
        assert configIds[..n + 1] == configIds[..n] + [id];
      }
    }
    assert configIds[..|configIds|] == configIds;
  }

  // ------------------------------------------------------------ details for continuing

  /** `generator_params`: the decoded `probability_range` text, or `{}` when
      the column is empty, NULL or not valid JSON. */
  datatype GeneratorParams = EmptyParams | DecodedParams(json: string)

  /** The metadata dict of `get_experiment_details_and_expressions`. */
  datatype RunSummary = RunSummary(
    generator: string,
    totalCollisions: int,
    pollingFrequency: int,
    timestamp: int,
    generatorParams: GeneratorParams,
    name: Option<string>)

  function ParamsFromColumn(column: Option<string>, isValidJson: string -> bool): (r: GeneratorParams)
    ensures r.DecodedParams? <==> column.Some? && column.value != "" && isValidJson(column.value)
    ensures r.DecodedParams? ==> r.json == column.value
  {
    match column
    case Some(text) => if text != "" && isValidJson(text) then DecodedParams(text) else EmptyParams
    case None => EmptyParams
  }

  function Expressions(rows: seq<ExpressionCount>): seq<string> {
    MapSeq(rows, (e: ExpressionCount) => e.expression)
  }

  /** `get_experiment_details_and_expressions`: ValueError for an unknown
      run; otherwise its settings, its parameters decoded from the
      `probability_range` column, and the expressions of its step-0
      population, largest count first.  `isValidJson` stands for whether
      `json.loads` accepts a text. */
  function GetExperimentDetailsAndExpressions(store: Store, configId: int, isValidJson: string -> bool)
    : (r: Outcome<(RunSummary, seq<string>)>)
    reads store
    ensures r.Raised? <==> configId !in ConfigIds(store.configs)
    ensures r.Raised? ==> r.error == ValueError
    ensures r.Returned? ==>
              exists c :: (c in store.configs && c.configId == configId &&
                           r.value.0 == RunSummary(c.generatorType, c.totalCollisions, c.pollingFrequency, c.timestamp,
                                                   ParamsFromColumn(c.probabilityRange, isValidJson), c.name))
    ensures r.Returned? ==> |r.value.1| == |store.GetExperimentExpressions(configId, 0)|
    ensures r.Returned? ==> forall i :: 0 <= i < |r.value.1| ==>
              r.value.1[i] == store.GetExperimentExpressions(configId, 0)[i].expression
  {
    match FindConfig(store.configs, configId)
    case None => Raised(ValueError)
    case Some(c) =>
      Returned((RunSummary(c.generatorType, c.totalCollisions, c.pollingFrequency, c.timestamp,
                           ParamsFromColumn(c.probabilityRange, isValidJson), c.name),
                Expressions(store.GetExperimentExpressions(configId, 0))))
  }

  /** The step-0 expressions of a run are exactly the expressions of its
      step-0 population rows, each once per row. */
  lemma DetailsExpressionsArePopulation(store: Store, configId: int, isValidJson: string -> bool)
    requires configId in ConfigIds(store.configs)
    ensures var r := GetExperimentDetailsAndExpressions(store, configId, isValidJson);
      r.Returned? &&
      multiset(r.value.1) == multiset(Expressions(ExpressionCounts(SnapshotRows(store.experiments, configId, 0))))
  {
    var sorted := store.GetExperimentExpressions(configId, 0);
    var rows := ExpressionCounts(SnapshotRows(store.experiments, configId, 0));
    MapSeqPermutation(sorted, rows, (e: ExpressionCount) => e.expression);
  }

  // ------------------------------------------------------------ import

  /** The configuration columns `import_json_to_db` derives from a config. */
  datatype ImportSettings = ImportSettings(
    randomSeed: int,
    generatorType: string,
    totalCollisions: int,
    pollingFrequency: int,
    probabilityRange: Option<string>,
    freevarProbability: Option<Float>)

  /** The settings of an imported run: generator "unknown", 1000 collisions,
      polling every 10 and seed 12345 when absent; the two Fontana ranges
      serialised together (`dumps`) only for a Fontana run that has both;
      the free-variable probability only for a BTree run that has it. */
  function ImportSettingsOf(c: Config, dumps: (seq<Float>, seq<Float>) -> string): (r: ImportSettings)
    ensures r.generatorType == GeneratorOr(c, "unknown")
    ensures r.totalCollisions == c.totalCollisions.GetOr(1000)
    ensures r.pollingFrequency == c.pollingFrequency.GetOr(10)
    ensures r.randomSeed == c.randomSeed.GetOr(12345)
    ensures r.probabilityRange.Some? <==>
              r.generatorType == "Fontana" && ParamsOf(c).absRange.Some? && ParamsOf(c).appRange.Some?
    ensures r.probabilityRange.Some? ==>
              r.probabilityRange.value == dumps(ParamsOf(c).absRange.value, ParamsOf(c).appRange.value)
    ensures r.freevarProbability.Some? <==> r.generatorType == "BTree" && ParamsOf(c).freevarProbability.Some?
    ensures r.freevarProbability.Some? ==> r.freevarProbability == ParamsOf(c).freevarProbability
  {
    var generator := GeneratorOr(c, "unknown");
    var params := ParamsOf(c);
    ImportSettings(
      c.randomSeed.GetOr(12345),
      generator,
      c.totalCollisions.GetOr(1000),
      c.pollingFrequency.GetOr(10),
      if generator == "Fontana" && params.absRange.Some? && params.appRange.Some? then
        Some(dumps(params.absRange.value, params.appRange.value))
      else None,
      if generator == "BTree" then params.freevarProbability else None)
  }

  /** What one entry of `collisions_data` contributes: its step number, its
      entropy (0 when absent) and its unique count (the length of the list,
      0 when absent); ValueError for a key whose number does not parse and
      TypeError for a `unique_expressions` that has no length. */
  function EntryRecord(key: string, e: Entry): (r: Outcome<(int, Float, int)>)
    ensures r.Raised? <==> FirstSegmentNumber(key).Raised? || (e.unique.Some? && e.unique.value.UniqueScalar?)
    ensures r.Raised? ==> r.error == if FirstSegmentNumber(key).Raised? then ValueError else TypeError
    ensures r.Returned? ==> r.value.0 == FirstSegmentNumber(key).value
    ensures r.Returned? ==> r.value.1 == e.entropy.GetOr(0.0)
    ensures r.Returned? && e.unique.None? ==> r.value.2 == 0
    ensures r.Returned? && e.unique.Some? ==> r.value.2 == |e.unique.value.items|
  {
    match FirstSegmentNumber(key)
    case Raised(err) => Raised(err)
    case Returned(n) =>
      match e.unique
      case None => Returned((n, e.entropy.GetOr(0.0), 0))
      case Some(UniqueList(items)) => Returned((n, e.entropy.GetOr(0.0), |items|))
      case Some(UniqueScalar(_)) => Raised(TypeError)
  }

  /** The number of entries imported before the first failing one. */
  function FirstFailure(entries: Entries): (r: nat)
    ensures r <= |entries|
    ensures forall i :: 0 <= i < r ==> EntryRecord(entries[i].0, entries[i].1).Returned?
    ensures r < |entries| ==> EntryRecord(entries[r].0, entries[r].1).Raised?
  {
    if entries == [] then 0
    else if EntryRecord(entries[0].0, entries[0].1).Raised? then 0
    else 1 + FirstFailure(entries[1..])
  }

  /** The population rows one entry adds: none when it fails. */
  function EntrySnapshotRows(configId: int, key: string, e: Entry): seq<Snapshot> {
    match EntryRecord(key, e)
    case Raised(_) => []
    case Returned(rec) => CountSnapshots(configId, rec.0, Tally.Counter(e.state.GetOr([])))
  }

  /** The metrics row one entry adds: none when it fails. */
  function EntryMeasurements(configId: int, key: string, e: Entry): seq<Measurement> {
    match EntryRecord(key, e)
    case Raised(_) => []
    case Returned(rec) => [Measurement(configId, rec.0, rec.1, rec.2)]
  }

  /** The population rows `import_json_to_db` writes for the given entries. */
  function ImportedSnapshots(configId: int, entries: Entries): seq<Snapshot> {
    ConcatMap(entries, (e: (string, Entry)) => EntrySnapshotRows(configId, e.0, e.1))
  }

  /** The metrics rows `import_json_to_db` writes for the given entries. */
  function ImportedMeasurements(configId: int, entries: Entries): seq<Measurement> {
    ConcatMap(entries, (e: (string, Entry)) => EntryMeasurements(configId, e.0, e.1))
  }

  /** When every entry imports, there is one metrics row per entry, in
      order, each at its entry's step. */
  lemma ImportedMeasurementsSteps(configId: int, entries: Entries)
    requires forall i :: 0 <= i < |entries| ==> EntryRecord(entries[i].0, entries[i].1).Returned?
    ensures |ImportedMeasurements(configId, entries)| == |entries|
    ensures forall i :: 0 <= i < |entries| ==>
              ImportedMeasurements(configId, entries)[i].collisionNumber == EntryRecord(entries[i].0, entries[i].1).value.0
  {
    var f := (e: (string, Entry)) => EntryMeasurements(configId, e.0, e.1);
    forall i | 0 <= i < |entries|
      ensures |f(entries[i])| == 1 && f(entries[i])[0].collisionNumber == EntryRecord(entries[i].0, entries[i].1).value.0
    {
      LastMeasurement(configId, entries[i].0, entries[i].1);
    }
    ConcatMapSingletons(entries, f);
  }

  lemma LastMeasurement(configId: int, key: string, e: Entry)
    requires EntryRecord(key, e).Returned?
    ensures EntryMeasurements(configId, key, e) == [Measurement(configId, EntryRecord(key, e).value.0,
                                                               EntryRecord(key, e).value.1, EntryRecord(key, e).value.2)]
  {
  }

  /** The rows of an entry that imports: its Counter rows at its step, then
      one metrics row with its entropy and unique count. */
  lemma EntryRowsOf(configId: int, key: string, e: Entry)
    requires EntryRecord(key, e).Returned?
    ensures EntrySnapshotRows(configId, key, e) ==
              CountSnapshots(configId, FirstSegmentNumber(key).value, Tally.Counter(e.state.GetOr([])))
    ensures EntryMeasurements(configId, key, e) ==
              [Measurement(configId, FirstSegmentNumber(key).value, e.entropy.GetOr(0.0), EntryRecord(key, e).value.2)]
  {
  }

  /** An entry that fails adds no rows. */
  lemma EntryRowsOfFailure(configId: int, key: string, e: Entry)
    requires EntryRecord(key, e).Raised?
    ensures EntrySnapshotRows(configId, key, e) == [] && EntryMeasurements(configId, key, e) == []
  {
  }

  /** The body of the import loop for one entry: ValueError or TypeError
      before anything is written, else the entry's population rows
      (`Counter(state)` in insertion order) and then its metrics row. */
  method ImportEntry(store: Store, configId: int, key: string, entry: Entry) returns (ok: bool)
    requires store.Valid() && store.nameColumn
    modifies store
    ensures store.Valid() && store.nameColumn && store.configs == old(store.configs)
    ensures ok <==> EntryRecord(key, entry).Returned?
    ensures Snapshots(store.experiments) == Snapshots(old(store.experiments)) + EntrySnapshotRows(configId, key, entry)
    ensures Measurements(store.averages) == Measurements(old(store.averages)) + EntryMeasurements(configId, key, entry)
  {
    var number := FirstSegmentNumber(key);
    if number.Raised? {
      EntryRowsOfFailure(configId, key, entry);
      return false;
    }
    var state := entry.state.GetOr([]);
    var entropy := entry.entropy.GetOr(0.0);
    var unique := 0;
    if entry.unique.Some? {
      match entry.unique.value
      case UniqueList(items) => unique := |items|;
      case UniqueScalar(_) =>
        EntryRowsOfFailure(configId, key, entry);
        return false;
    }
    EntryRowsOf(configId, key, entry);
    SaveEntry(store, configId, number.value, Tally.Counter(state), entropy, unique);
    return true;
  }

  /** The two writes of one imported entry: its Counter rows, then its
      metrics row. */
  method SaveEntry(store: Store, configId: int, n: int, counts: Tally.Counts, entropy: Float, unique: int)
    requires store.Valid() && store.nameColumn
    modifies store
    ensures store.Valid() && store.nameColumn && store.configs == old(store.configs)
    ensures Snapshots(store.experiments) == Snapshots(old(store.experiments)) + CountSnapshots(configId, n, counts)
    ensures Measurements(store.averages) == Measurements(old(store.averages)) + [Measurement(configId, n, entropy, unique)]
  {
    store.SaveCounterRows(configId, n, counts);
    ghost var averages0 := store.averages;
    store.SaveAverages(configId, n, entropy, unique);
    MeasurementsAppend(averages0, store.averages[|store.averages| - 1]);
  }

  /** The loop stops at the first failing entry. */
  lemma FirstFailureAt(entries: Entries, k: nat)
    requires k < |entries| && k <= FirstFailure(entries)
    ensures EntryRecord(entries[k].0, entries[k].1).Raised? ==> FirstFailure(entries) == k
    ensures EntryRecord(entries[k].0, entries[k].1).Returned? ==> k + 1 <= FirstFailure(entries)
  {
  }

  /** Importing one more entry appends that entry's rows. */
  lemma ImportedSnoc(configId: int, entries: Entries, k: nat)
    requires k < |entries|
    ensures ImportedSnapshots(configId, entries[..k + 1]) ==
              ImportedSnapshots(configId, entries[..k]) + EntrySnapshotRows(configId, entries[k].0, entries[k].1)
    ensures ImportedMeasurements(configId, entries[..k + 1]) ==
              ImportedMeasurements(configId, entries[..k]) + EntryMeasurements(configId, entries[k].0, entries[k].1)
  {
    ConcatMapSnoc(entries, k, (e: (string, Entry)) => EntrySnapshotRows(configId, e.0, e.1));
    ConcatMapSnoc(entries, k, (e: (string, Entry)) => EntryMeasurements(configId, e.0, e.1));
  }

  /** The bookkeeping of one pass of the import loop: after entry k, the
      rows written so far are those of the first k + 1 entries, or, when
      entry k fails, still those of the first k. */
  lemma ImportStep(configId: int, entries: Entries, k: nat,
                   s0: seq<Snapshot>, s: seq<Snapshot>, s1: seq<Snapshot>,
                   m0: seq<Measurement>, m: seq<Measurement>, m1: seq<Measurement>)
    requires k < |entries|
    requires s == s0 + ImportedSnapshots(configId, entries[..k])
    requires m == m0 + ImportedMeasurements(configId, entries[..k])
    requires s1 == s + EntrySnapshotRows(configId, entries[k].0, entries[k].1)
    requires m1 == m + EntryMeasurements(configId, entries[k].0, entries[k].1)
    ensures s1 == s0 + ImportedSnapshots(configId, entries[..k + 1])
    ensures m1 == m0 + ImportedMeasurements(configId, entries[..k + 1])
    ensures EntryRecord(entries[k].0, entries[k].1).Raised? ==> s1 == s && m1 == m
  {
    ImportedSnoc(configId, entries, k);
    AppendAssoc(s0, ImportedSnapshots(configId, entries[..k]), EntrySnapshotRows(configId, entries[k].0, entries[k].1));
    AppendAssoc(m0, ImportedMeasurements(configId, entries[..k]), EntryMeasurements(configId, entries[k].0, entries[k].1));
    if EntryRecord(entries[k].0, entries[k].1).Raised? {
      EntryRowsOfFailure(configId, entries[k].0, entries[k].1);
    }
  }

  /** The loop of `import_json_to_db` over `collisions_data`: entries are
      imported in order until one fails; true when none does. */
  method ImportEntries(store: Store, configId: int, entries: Entries) returns (ok: bool)
    requires store.Valid() && store.nameColumn
    modifies store
    ensures store.Valid() && store.nameColumn && store.configs == old(store.configs)
    ensures ok <==> FirstFailure(entries) == |entries|
    ensures Snapshots(store.experiments) ==
              Snapshots(old(store.experiments)) + ImportedSnapshots(configId, entries[..FirstFailure(entries)])
    ensures Measurements(store.averages) ==
              Measurements(old(store.averages)) + ImportedMeasurements(configId, entries[..FirstFailure(entries)])
  {
    ghost var s0, m0 := Snapshots(store.experiments), Measurements(store.averages);
    for k := 0 to |entries|
      invariant store.Valid() && store.nameColumn && store.configs == old(store.configs)
      invariant k <= FirstFailure(entries)
      invariant Snapshots(store.experiments) == s0 + ImportedSnapshots(configId, entries[..k])
      invariant Measurements(store.averages) == m0 + ImportedMeasurements(configId, entries[..k])
    {
      ghost var s, m := Snapshots(store.experiments), Measurements(store.averages);
      FirstFailureAt(entries, k);
      var imported := ImportEntry(store, configId, entries[k].0, entries[k].1);
      ImportStep(configId, entries, k, s0, s, Snapshots(store.experiments), m0, m, Measurements(store.averages));
      if !imported {
        return false;
      }
    }
    assert entries[..|entries|] == entries;
    return true;
  }

  /** `import_json_to_db`.  `doc` is the parsed file, None when it cannot be
      read or is not a JSON object; `dumps` serialises the two Fontana
      ranges.  The configuration row is saved first (named
      "Experiment <id>"); then every entry of `collisions_data` in order adds
      its population rows and one metrics row.  An entry that fails stops
      the import: the rows already written stay and the result is None. */
  method ImportJsonToDb(store: Store, doc: Option<ExperimentDoc>, dumps: (seq<Float>, seq<Float>) -> string, now: int)
    returns (configId: Option<int>)
    requires store.Valid() && store.nameColumn
    modifies store
    ensures store.Valid() && store.nameColumn
    ensures doc.None? ==> configId.None? && unchanged(store)
    ensures doc.Some? ==>
              var s := ImportSettingsOf(doc.value.config.GetOr(EmptyConfig), dumps);
              var id := old(store.nextConfigId);
              var entries := doc.value.collisionsData.GetOr([]);
              && store.configs == old(store.configs) +
                   [ConfigRow(id, s.randomSeed, s.generatorType, s.totalCollisions, s.pollingFrequency,
                              s.probabilityRange, s.freevarProbability, now, Some(DefaultName(id)))]
              && (configId.Some? <==> FirstFailure(entries) == |entries|)
              && (configId.Some? ==> configId.value == id)
              && Snapshots(store.experiments) ==
                   Snapshots(old(store.experiments)) + ImportedSnapshots(id, entries[..FirstFailure(entries)])
              && Measurements(store.averages) ==
                   Measurements(old(store.averages)) + ImportedMeasurements(id, entries[..FirstFailure(entries)])
  {
    if doc.None? {
      return None;
    }
    var config := doc.value.config.GetOr(EmptyConfig);
    var s := ImportSettingsOf(config, dumps);
    var id := store.SaveConfiguration(s.randomSeed, s.generatorType, s.totalCollisions, s.pollingFrequency,
                                      s.probabilityRange, s.freevarProbability, None, now);
    assert store.configs == old(store.configs) + [store.configs[|old(store.configs)|]];
    var ok := ImportEntries(store, id, doc.value.collisionsData.GetOr([]));
    configId := if ok then Some(id) else None;
  }
}

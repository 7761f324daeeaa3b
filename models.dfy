/**
 * The three SQLite tables of the dashboard (Configurations, Experiment,
 * Averages) as row sequences held by one `Store`, with the AUTOINCREMENT
 * counters SQLite keeps for them, and the operations of `models.py` that
 * insert, update and read those rows.
 */
module Models {
  import opened Wrappers
  import opened Sorting
  import PyText
  import Tally

  /** A row of `Configurations`.  `timestamp` is the insertion time in
      seconds (`DEFAULT CURRENT_TIMESTAMP`). */
  datatype ConfigRow = ConfigRow(
    configId: int,
    randomSeed: int,
    generatorType: string,
    totalCollisions: int,
    pollingFrequency: int,
    probabilityRange: Option<string>,
    freevarProbability: Option<Float>,
    timestamp: int,
    name: Option<string>)

  /** A row of `Experiment`: one expression of one sampled population. */
  datatype ExperimentRow = ExperimentRow(
    experimentId: int,
    configId: int,
    collisionNumber: int,
    expression: string,
    count: int)

  /** A row of `Averages`: the metrics of one sampled population. */
  datatype AveragesRow = AveragesRow(
    averageId: int,
    configId: int,
    collisionNumber: int,
    entropy: Float,
    uniqueExpressions: int)

  /** A dict row of `get_experiment_configs` (six columns). */
  datatype ConfigSummary = ConfigSummary(
    configId: int,
    randomSeed: int,
    generatorType: string,
    totalCollisions: int,
    pollingFrequency: int,
    timestamp: int)

  /** A dict row `{"expression": ..., "count": ...}`. */
  datatype ExpressionCount = ExpressionCount(expression: string, count: int)

  function ConfigIds(rows: seq<ConfigRow>): seq<int> {
    seq(|rows|, i requires 0 <= i < |rows| => rows[i].configId)
  }

  function ExperimentIds(rows: seq<ExperimentRow>): seq<int> {
    seq(|rows|, i requires 0 <= i < |rows| => rows[i].experimentId)
  }

  function AverageIds(rows: seq<AveragesRow>): seq<int> {
    seq(|rows|, i requires 0 <= i < |rows| => rows[i].averageId)
  }

  /** What AUTOINCREMENT guarantees of a table's ids: all positive, below
      the next id to issue, and increasing in insertion order. */
  predicate IssuedIds(ids: seq<int>, next: int) {
    && next >= 1
    && (forall i :: 0 <= i < |ids| ==> 1 <= ids[i] < next)
    && (forall i, j :: 0 <= i < j < |ids| ==> ids[i] < ids[j])
  }

  /** The name given to a run that was not named: `f"Experiment {config_id}"`,
      also what the migration writes (`'Experiment ' || config_id`). */
  function DefaultName(id: int): string {
    "Experiment " + PyText.IntToString(id)
  }

  /** Distinct runs get distinct default names. */
  lemma DefaultNamesDiffer(a: int, b: int)
    requires a != b
    ensures DefaultName(a) != DefaultName(b)
  {
    if DefaultName(a) == DefaultName(b) {
      var p := "Experiment ";
      assert PyText.IntToString(a) == DefaultName(a)[|p|..];
      assert PyText.IntToString(b) == DefaultName(b)[|p|..];
      PyText.ParseIntToString(a);
      PyText.ParseIntToString(b);
    }
  }

  /** The name a new configuration ends up with: a given non-empty name
      verbatim, "Unnamed Experiment" for an empty one, and the default name
      of its id when none is given. */
  function StoredName(name: Option<string>, id: int): string {
    match name
    case Some(n) => if n != "" then n else "Unnamed Experiment"
    case None => DefaultName(id)
  }

  /** `UPDATE Configurations SET name = ? WHERE config_id = ?`. */
  function Renamed(rows: seq<ConfigRow>, id: int, newName: string): seq<ConfigRow> {
    seq(|rows|, i requires 0 <= i < |rows| =>
      if rows[i].configId == id then rows[i].(name := Some(newName)) else rows[i])
  }

  /** The migration's `UPDATE ... SET name = 'Experiment ' || config_id WHERE name IS NULL`. */
  function MigrateNames(rows: seq<ConfigRow>): seq<ConfigRow> {
    seq(|rows|, i requires 0 <= i < |rows| =>
      if rows[i].name == None then rows[i].(name := Some(DefaultName(rows[i].configId))) else rows[i])
  }

  /** Renaming touches only the name of the rows carrying the id; with no
      such row the table is unchanged. */
  lemma RenamedSpec(rows: seq<ConfigRow>, id: int, newName: string)
    ensures |Renamed(rows, id, newName)| == |rows|
    ensures ConfigIds(Renamed(rows, id, newName)) == ConfigIds(rows)
    ensures forall i :: 0 <= i < |rows| && rows[i].configId == id ==>
              Renamed(rows, id, newName)[i] == rows[i].(name := Some(newName))
    ensures forall i :: 0 <= i < |rows| && rows[i].configId != id ==>
              Renamed(rows, id, newName)[i] == rows[i]
    ensures id !in ConfigIds(rows) ==> Renamed(rows, id, newName) == rows
  {
    if id !in ConfigIds(rows) {
      forall i | 0 <= i < |rows| ensures Renamed(rows, id, newName)[i] == rows[i] {
        assert ConfigIds(rows)[i] == rows[i].configId;
      }
    }
  }

  /** After the migration every row has a name, the null ones
      `"Experiment {config_id}"`; running it again changes nothing. */
  lemma MigrateNamesSpec(rows: seq<ConfigRow>)
    ensures |MigrateNames(rows)| == |rows|
    ensures forall i :: 0 <= i < |rows| ==> MigrateNames(rows)[i].name.Some?
    ensures forall i :: 0 <= i < |rows| ==>
              MigrateNames(rows)[i] == rows[i].(name := Some(rows[i].name.GetOr(DefaultName(rows[i].configId))))
    ensures MigrateNames(MigrateNames(rows)) == MigrateNames(rows)
  {
  }

  /** Renaming the newest row, whose id exceeds all others, touches no other row. */
  lemma RenameNewest(rows: seq<ConfigRow>, row: ConfigRow, newName: string)
    requires forall i :: 0 <= i < |rows| ==> rows[i].configId < row.configId
    ensures Renamed(rows + [row], row.configId, newName) == rows + [row.(name := Some(newName))]
  {
  }

  lemma AppendIds(rows: seq<ConfigRow>, row: ConfigRow)
    ensures ConfigIds(rows + [row]) == ConfigIds(rows) + [row.configId]
  {
  }

  class Store {
    var configs: seq<ConfigRow>
    var experiments: seq<ExperimentRow>
    var averages: seq<AveragesRow>
    /** The AUTOINCREMENT counters: the id the next insertion receives. */
    var nextConfigId: int
    var nextExperimentId: int
    var nextAverageId: int
    /** Whether `Configurations` has its `name` column yet. */
    var nameColumn: bool

    ghost predicate Valid()
      reads this
    {
      && IssuedIds(ConfigIds(configs), nextConfigId)
      && IssuedIds(ExperimentIds(experiments), nextExperimentId)
      && IssuedIds(AverageIds(averages), nextAverageId)
      && (!nameColumn ==> forall i :: 0 <= i < |configs| ==> configs[i].name == None)
    }

    /** A freshly created database, once `init_database` has made the tables. */
    constructor ()
      ensures Valid() && nameColumn
      ensures configs == [] && experiments == [] && averages == []
      ensures nextConfigId == 1 && nextExperimentId == 1 && nextAverageId == 1
    {
      configs, experiments, averages := [], [], [];
      nextConfigId, nextExperimentId, nextAverageId := 1, 1, 1;
      nameColumn := true;
    }

    /** A database created before the `name` column existed. */
    constructor Legacy(rows: seq<ConfigRow>, next: int)
      requires IssuedIds(ConfigIds(rows), next)
      requires forall i :: 0 <= i < |rows| ==> rows[i].name == None
      ensures Valid() && !nameColumn
      ensures configs == rows && experiments == [] && averages == []
      ensures nextConfigId == next && nextExperimentId == 1 && nextAverageId == 1
    {
      configs, experiments, averages := rows, [], [];
      nextConfigId, nextExperimentId, nextAverageId := next, 1, 1;
      nameColumn := false;
    }

    /** `init_database`: the tables exist after it; a table without the
        `name` column gets it, and its rows their default names.  A second
        call changes nothing. */
    method InitDatabase()
      requires Valid()
      modifies this
      ensures Valid() && nameColumn
      ensures configs == if old(nameColumn) then old(configs) else MigrateNames(old(configs))
      ensures experiments == old(experiments) && averages == old(averages)
      ensures nextConfigId == old(nextConfigId) && nextExperimentId == old(nextExperimentId)
      ensures nextAverageId == old(nextAverageId)
    {
      if !nameColumn {
        nameColumn := true;
        assert ConfigIds(MigrateNames(configs)) == ConfigIds(configs);
        configs := MigrateNames(configs);
      }
    }

    /** `update_experiment_name`: renames every row with the id (there is at
        most one) and reports whether one matched (`rowcount > 0`).  Empty
        names are not rejected. */
    method UpdateExperimentName(configId: int, newName: string) returns (success: bool)
      requires Valid() && nameColumn
      modifies this
      ensures Valid() && nameColumn
      ensures success <==> configId in ConfigIds(old(configs))
      ensures configs == Renamed(old(configs), configId, newName)
      ensures experiments == old(experiments) && averages == old(averages)
      ensures nextConfigId == old(nextConfigId) && nextExperimentId == old(nextExperimentId)
      ensures nextAverageId == old(nextAverageId)
    {
      var rows := configs;
      var rowcount := 0;
      var i := 0;
      ghost var after := Renamed(configs, configId, newName);
      while i < |rows|
        invariant 0 <= i <= |rows| == |configs|
        invariant forall k :: 0 <= k < i ==> rows[k] == after[k]
        invariant forall k :: i <= k < |rows| ==> rows[k] == configs[k]
        invariant rowcount > 0 <==> exists k :: 0 <= k < i && configs[k].configId == configId
      {
        if rows[i].configId == configId {
          rows := rows[i := rows[i].(name := Some(newName))];
          rowcount := rowcount + 1;
        }
        i := i + 1;
      }
      assert rows == after;
      RenamedSpec(configs, configId, newName);
      if rowcount > 0 {
        ghost var k :| 0 <= k < i && configs[k].configId == configId;
        assert ConfigIds(configs)[k] == configId;
      }
      configs := rows;
      success := rowcount > 0;
    }

    /** `save_configuration`: inserts one row and returns its id, which is
        larger than every id issued before.  The name is stored as given,
        except that `""` becomes "Unnamed Experiment" and a missing name
        becomes `"Experiment {id}"` by a second update. */
    method SaveConfiguration(randomSeed: int, generatorType: string, totalCollisions: int,
                             pollingFrequency: int, probabilityRange: Option<string>,
                             freevarProbability: Option<Float>, name: Option<string>, now: int)
      returns (configId: int)
      requires Valid() && nameColumn
      modifies this
      ensures Valid() && nameColumn
      ensures configId == old(nextConfigId) && nextConfigId == configId + 1
      ensures forall i :: 0 <= i < |old(configs)| ==> old(configs)[i].configId < configId
      ensures |configs| == |old(configs)| + 1 && configs[..|old(configs)|] == old(configs)
      ensures configs[|old(configs)|].(name := None) ==
                ConfigRow(configId, randomSeed, generatorType, totalCollisions, pollingFrequency,
                          probabilityRange, freevarProbability, now, None)
      ensures name == None ==> configs[|old(configs)|].name == Some(DefaultName(configId))
      ensures name == Some("") ==> configs[|old(configs)|].name == Some("Unnamed Experiment")
      ensures name.Some? && name.value != "" ==> configs[|old(configs)|].name == name
      ensures configs[|old(configs)|].name == Some(StoredName(name, configId))
      ensures experiments == old(experiments) && averages == old(averages)
      ensures nextExperimentId == old(nextExperimentId) && nextAverageId == old(nextAverageId)
    {
      var defaultName := if name.Some? && name.value != "" then name.value else "Unnamed Experiment";
      configId := nextConfigId;
      var row := ConfigRow(configId, randomSeed, generatorType, totalCollisions, pollingFrequency,
                           probabilityRange, freevarProbability, now, Some(defaultName));
      AppendIds(configs, row);
      assert forall i :: 0 <= i < |configs| ==> configs[i].configId < configId by {
        forall i | 0 <= i < |configs| ensures configs[i].configId < configId {
          assert ConfigIds(configs)[i] == configs[i].configId;
        }
      }
      configs := configs + [row];
      nextConfigId := nextConfigId + 1;
      if name == None {
        RenameNewest(old(configs), row, DefaultName(configId));
        var _ := UpdateExperimentName(configId, DefaultName(configId));
      }
    }

    /** `save_experiment_state`: appends one row, never merging with earlier
        rows of the same run and step, and returns its id. */
    method SaveExperimentState(configId: int, collisionNumber: int, expression: string, count: int)
      returns (experimentId: int)
      requires Valid()
      modifies this
      ensures Valid() && nameColumn == old(nameColumn)
      ensures experimentId == old(nextExperimentId) && nextExperimentId == experimentId + 1
      ensures experiments == old(experiments) + [ExperimentRow(experimentId, configId, collisionNumber, expression, count)]
      ensures configs == old(configs) && averages == old(averages)
      ensures nextConfigId == old(nextConfigId) && nextAverageId == old(nextAverageId)
    {
      experimentId := nextExperimentId;
      var row := ExperimentRow(experimentId, configId, collisionNumber, expression, count);
      assert ExperimentIds(experiments + [row]) == ExperimentIds(experiments) + [experimentId];
      experiments := experiments + [row];
      nextExperimentId := nextExperimentId + 1;
    }

    /** `save_averages`: appends one metrics row. */
    method SaveAverages(configId: int, collisionNumber: int, entropy: Float, uniqueExpressions: int)
      requires Valid()
      modifies this
      ensures Valid() && nameColumn == old(nameColumn)
      ensures nextAverageId == old(nextAverageId) + 1
      ensures averages == old(averages) + [AveragesRow(old(nextAverageId), configId, collisionNumber, entropy, uniqueExpressions)]
      ensures configs == old(configs) && experiments == old(experiments)
      ensures nextConfigId == old(nextConfigId) && nextExperimentId == old(nextExperimentId)
    {
      var row := AveragesRow(nextAverageId, configId, collisionNumber, entropy, uniqueExpressions);
      assert AverageIds(averages + [row]) == AverageIds(averages) + [nextAverageId];
      averages := averages + [row];
      nextAverageId := nextAverageId + 1;
    }

    /** The loop every writer of a sampled population runs:
        `for expr, count in Counter(state).items(): save_experiment_state(...)`,
        one row per item, in order. */
    method SaveCounterRows(configId: int, collisionNumber: int, counts: Tally.Counts)
      requires Valid()
      modifies this
      ensures Valid() && nameColumn == old(nameColumn)
      ensures Snapshots(experiments) == Snapshots(old(experiments)) + CountSnapshots(configId, collisionNumber, counts)
      ensures configs == old(configs) && averages == old(averages)
      ensures nextConfigId == old(nextConfigId) && nextAverageId == old(nextAverageId)
    {
      for j := 0 to |counts|
        invariant Valid() && nameColumn == old(nameColumn)
        invariant Snapshots(experiments) == Snapshots(old(experiments)) + CountSnapshots(configId, collisionNumber, counts[..j])
        invariant configs == old(configs) && averages == old(averages)
        invariant nextConfigId == old(nextConfigId) && nextAverageId == old(nextAverageId)
      {
        var (expression, count) := counts[j];
        ghost var before := experiments;
        var id := SaveExperimentState(configId, collisionNumber, expression, count);
        SnapshotsAppend(before, ExperimentRow(id, configId, collisionNumber, expression, count));
        assert CountSnapshots(configId, collisionNumber, counts[..j + 1]) ==
               CountSnapshots(configId, collisionNumber, counts[..j]) + [Snapshot(configId, collisionNumber, expression, count)];
      }
      assert counts[..|counts|] == counts;
    }

    /** `get_last_config_id`: `MAX(config_id)`, or 1 when there is none. */
    function GetLastConfigId(): (r: int)
      reads this
      requires Valid()
      ensures configs == [] ==> r == 1
      ensures configs != [] ==> r in ConfigIds(configs) && forall id :: id in ConfigIds(configs) ==> id <= r
    {
      var m := MaxOf(ConfigIds(configs));
      MaxOfPositive(ConfigIds(configs));
      if m.None? || m.value == 0 then 1 else m.value
    }

    /** `get_experiment_configs`: every configuration, newest first. */
    function GetExperimentConfigs(): (r: seq<ConfigSummary>)
      reads this
      ensures |r| == |configs|
      ensures forall i, j :: 0 <= i < j < |r| ==> r[i].timestamp >= r[j].timestamp
      ensures multiset(r) == multiset(Summaries(configs))
    {
      SortBy(Summaries(configs), (c: ConfigSummary) => -c.timestamp)
    }

    /** `get_experiment_expressions`: the snapshot rows of one run and step,
        largest count first. */
    function GetExperimentExpressions(configId: int, collisionNumber: int): (r: seq<ExpressionCount>)
      reads this
      ensures forall i, j :: 0 <= i < j < |r| ==> r[i].count >= r[j].count
      ensures multiset(r) == multiset(ExpressionCounts(SnapshotRows(experiments, configId, collisionNumber)))
    {
      SortBy(ExpressionCounts(SnapshotRows(experiments, configId, collisionNumber)),
             (e: ExpressionCount) => -e.count)
    }
  }

  function MaxOf(s: seq<int>): (r: Option<int>)
    ensures s == [] <==> r == None
    ensures r.Some? ==> r.value in s && forall x :: x in s ==> x <= r.value
  {
    if s == [] then None
    else
      var m := MaxOf(s[1..]);
      assert s == [s[0]] + s[1..];
      if m.None? || s[0] >= m.value then Some(s[0]) else m
  }

  lemma MaxOfPositive(s: seq<int>)
    requires forall i :: 0 <= i < |s| ==> s[i] >= 1
    ensures MaxOf(s).Some? ==> MaxOf(s).value >= 1
  {
  }

  function Summaries(rows: seq<ConfigRow>): seq<ConfigSummary> {
    seq(|rows|, i requires 0 <= i < |rows| =>
      ConfigSummary(rows[i].configId, rows[i].randomSeed, rows[i].generatorType,
                    rows[i].totalCollisions, rows[i].pollingFrequency, rows[i].timestamp))
  }

  /** `WHERE config_id = ? AND collision_number = ?` on `Experiment`. */
  function SnapshotRows(rows: seq<ExperimentRow>, configId: int, collisionNumber: int): seq<ExperimentRow> {
    Filter(rows, (e: ExperimentRow) => e.configId == configId && e.collisionNumber == collisionNumber)
  }

  /** `SELECT expression, count`. */
  function ExpressionCounts(rows: seq<ExperimentRow>): seq<ExpressionCount> {
    seq(|rows|, i requires 0 <= i < |rows| => ExpressionCount(rows[i].expression, rows[i].count))
  }

  /** An `Experiment` row without its id: what the run driver writes. */
  datatype Snapshot = Snapshot(configId: int, collisionNumber: int, expression: string, count: int)

  /** An `Averages` row without its id. */
  datatype Measurement = Measurement(configId: int, collisionNumber: int, entropy: Float, uniqueExpressions: int)

  function Snapshots(rows: seq<ExperimentRow>): seq<Snapshot> {
    seq(|rows|, i requires 0 <= i < |rows| =>
      Snapshot(rows[i].configId, rows[i].collisionNumber, rows[i].expression, rows[i].count))
  }

  function Measurements(rows: seq<AveragesRow>): seq<Measurement> {
    seq(|rows|, i requires 0 <= i < |rows| =>
      Measurement(rows[i].configId, rows[i].collisionNumber, rows[i].entropy, rows[i].uniqueExpressions))
  }

  /** The population rows of one step, one per `Counter(state)` item. */
  function CountSnapshots(configId: int, collisionNumber: int, counts: Tally.Counts): seq<Snapshot> {
    seq(|counts|, i requires 0 <= i < |counts| => Snapshot(configId, collisionNumber, counts[i].0, counts[i].1))
  }

  /** The population rows written for a state: one per distinct expression,
      with its number of occurrences as the count. */
  lemma {:induction false} CounterRows(configId: int, collisionNumber: int, state: seq<string>)
    ensures var rows := CountSnapshots(configId, collisionNumber, Tally.Counter(state));
      && |rows| == |Tally.Elements(state)|
      && (forall i :: 0 <= i < |rows| ==>
            rows[i].expression in state && rows[i].count == multiset(state)[rows[i].expression] >= 1)
      && (forall i, j :: 0 <= i < j < |rows| ==> rows[i].expression != rows[j].expression)
      && (forall x :: x in state ==> exists i :: 0 <= i < |rows| && rows[i].expression == x)
  {
    var counts := Tally.Counter(state);
    var rows := CountSnapshots(configId, collisionNumber, counts);
    Tally.CounterLength(state);
    forall i | 0 <= i < |counts|
      ensures counts[i].0 in state && counts[i].1 == multiset(state)[counts[i].0] >= 1
    {
      Tally.CounterItem(state, i);
    }
    CounterCovers(state);
    forall x | x in state ensures exists i :: 0 <= i < |rows| && rows[i].expression == x {
      var i :| 0 <= i < |counts| && counts[i].0 == x;
      assert rows[i].expression == x;
    }
  }

  lemma {:induction false} CounterCovers(state: seq<string>)
    ensures forall x :: x in state ==> exists i :: 0 <= i < |Tally.Counter(state)| && Tally.Counter(state)[i].0 == x
    ensures Tally.DistinctKeys(Tally.Counter(state))
  {
    var counts := Tally.Counter(state);
    Tally.CounterFacts(state);
    Tally.KeySetMembers(counts);
    forall x | x in state ensures exists i :: 0 <= i < |counts| && counts[i].0 == x {
      assert x in Tally.Elements(state);
    }
  }

  lemma SnapshotsAppend(rows: seq<ExperimentRow>, row: ExperimentRow)
    ensures Snapshots(rows + [row]) ==
              Snapshots(rows) + [Snapshot(row.configId, row.collisionNumber, row.expression, row.count)]
  {
  }

  lemma MeasurementsAppend(rows: seq<AveragesRow>, row: AveragesRow)
    ensures Measurements(rows + [row]) ==
              Measurements(rows) + [Measurement(row.configId, row.collisionNumber, row.entropy, row.uniqueExpressions)]
  {
  }

  /** The id `save_configuration` issues is then the last configuration id. */
  lemma SavedIsLast(before: seq<ConfigRow>, after: seq<ConfigRow>, id: int, next: int)
    requires IssuedIds(ConfigIds(before), next) && id == next
    requires |after| == |before| + 1 && after[..|before|] == before && after[|before|].configId == id
    ensures MaxOf(ConfigIds(after)) == Some(id)
  {
    assert ConfigIds(after) == ConfigIds(before) + [id];
    assert forall x :: x in ConfigIds(before) ==> x < id;
    assert id in ConfigIds(after);
  }
}

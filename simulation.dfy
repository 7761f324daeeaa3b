/**
 * The run driver of `simulation.py`: it records a configuration, seeds the
 * engine, and then advances it one collision at a time, writing the
 * population counts and the metrics of every sampled step to the store.
 * A step k is sampled when `k % polling_frequency == 0` or it is the last.
 */
module Simulation {
  import opened Wrappers
  import opened Sorting
  import opened Models
  import opened Documents
  import Engine
  import PyText
  import Tally

  // ------------------------------------------------------------ seeding

  /** The arguments `PyBTreeGen.from_config` and `generate_n` receive. */
  datatype BTreeSettings = BTreeSettings(
    size: int,
    freevarProbability: Float,
    maxFreeVars: int,
    standardization: string,
    numExpressions: int)

  /** The BTree settings with their defaults: size 5, free-variable
      probability 0.5, at most 3 free variables, "prefix"
      standardisation, 10 expressions. */
  function BTreeSettingsOf(p: GenParams): (r: BTreeSettings)
    ensures p == NoParams ==> r == BTreeSettings(5, 0.5, 3, "prefix", 10)
    ensures p.size.Some? ==> r.size == p.size.value
    ensures p.size.None? ==> r.size == 5
    ensures p.freevarProbability.Some? ==> r.freevarProbability == p.freevarProbability.value
    ensures p.freevarProbability.None? ==> r.freevarProbability == 0.5
    ensures p.maxFreeVars.Some? ==> r.maxFreeVars == p.maxFreeVars.value
    ensures p.maxFreeVars.None? ==> r.maxFreeVars == 3
    ensures p.standardization.Some? ==> r.standardization == p.standardization.value
    ensures p.standardization.None? ==> r.standardization == "prefix"
    ensures p.numExpressions.Some? ==> r.numExpressions == p.numExpressions.value
    ensures p.numExpressions.None? ==> r.numExpressions == 10
  {
    BTreeSettings(p.size.GetOr(5), p.freevarProbability.GetOr(0.5), p.maxFreeVars.GetOr(3),
                  p.standardization.GetOr("prefix"), p.numExpressions.GetOr(10))
  }

  /** The fixed population of a Fontana run: `(λx.x)`, `(λx.λy.x y)`, `(λx.x x)`. */
  const FontanaExpressions: seq<string> :=
    ["(\U{3bb}x.x)", "(\U{3bb}x.\U{3bb}y.x y)", "(\U{3bb}x.x x)"]

  /** The population of any other generator: `(λx.x)`, `(λy.y)`, `(λz.z)`. */
  const DefaultExpressions: seq<string> :=
    ["(\U{3bb}x.x)", "(\U{3bb}y.y)", "(\U{3bb}z.z)"]

  /** The file a `from_file` run reads, when its name is given and it exists. */
  function SeedFile(params: GenParams, files: map<string, seq<string>>): Option<seq<string>> {
    match params.filename
    case Some(f) => if f != "" && f in files then Some(files[f]) else None
    case None => None
  }

  /** `load_input_expressions` of `simulation.py`.  `files` maps each
      existing path to its lines as read; `generateN` is the native BTree
      generator.  A `from_file` run gets the stripped non-blank lines of its
      file, or nothing when the file is missing. */
  function LoadInputExpressions(generator: string, params: GenParams, files: map<string, seq<string>>,
                                generateN: BTreeSettings -> seq<string>): (r: seq<string>)
    ensures generator == "from_file" ==> forall i :: 0 <= i < |r| ==> r[i] != [] && PyText.IsStripped(r[i])
    ensures generator == "from_file" && SeedFile(params, files).None? ==> r == []
    ensures generator == "from_file" && SeedFile(params, files).Some? ==> |r| <= |SeedFile(params, files).value|
    ensures generator == "from_file" && SeedFile(params, files).Some? ==>
              r == PyText.StrippedNonBlank(SeedFile(params, files).value)
    ensures generator == "BTree" ==> r == generateN(BTreeSettingsOf(params))
    ensures generator == "Fontana" ==> r == FontanaExpressions
    ensures generator !in {"from_file", "BTree", "Fontana"} ==> r == DefaultExpressions
  {
    if generator == "from_file" then
      match SeedFile(params, files)
      case Some(lines) => PyText.StrippedNonBlank(lines)
      case None => []
    else if generator == "BTree" then generateN(BTreeSettingsOf(params))
    else if generator == "Fontana" then FontanaExpressions
    else DefaultExpressions
  }

  /** A file of expressions written one per line, as the dashboard writes
      them, loads back unchanged. */
  lemma LoadCleanFile(params: GenParams, files: map<string, seq<string>>, generateN: BTreeSettings -> seq<string>)
    requires SeedFile(params, files).Some?
    requires var lines := SeedFile(params, files).value;
      forall i :: 0 <= i < |lines| ==> lines[i] != [] && PyText.IsStripped(lines[i])
    ensures LoadInputExpressions("from_file", params, files, generateN) == SeedFile(params, files).value
  {
    PyText.StrippedNonBlankOfClean(SeedFile(params, files).value);
  }

  // ------------------------------------------------------------ sampling

  /** Whether step `k` is sampled.  Python's `%` is 0 exactly when the
      divisor divides `k`, as Dafny's is; a zero frequency never gets here. */
  predicate Sampled(k: int, total: int, pollingFrequency: int) {
    (pollingFrequency != 0 && k % pollingFrequency == 0) || k == total
  }

  /** The sampled steps among 1..n, ascending. */
  function SampledUpTo(n: int, total: int, pollingFrequency: int): seq<int>
    decreases n
  {
    if n <= 0 then []
    else SampledUpTo(n - 1, total, pollingFrequency) + (if Sampled(n, total, pollingFrequency) then [n] else [])
  }

  /** The steps after 0 the driver samples. */
  function SampledSteps(total: int, pollingFrequency: int): seq<int> {
    SampledUpTo(total, total, pollingFrequency)
  }

  lemma {:induction false} SampledUpToSpec(n: int, total: int, pollingFrequency: int)
    ensures forall i, j :: 0 <= i < j < |SampledUpTo(n, total, pollingFrequency)| ==>
              SampledUpTo(n, total, pollingFrequency)[i] < SampledUpTo(n, total, pollingFrequency)[j]
    ensures forall k :: k in SampledUpTo(n, total, pollingFrequency) <==> 1 <= k <= n && Sampled(k, total, pollingFrequency)
    decreases n
  {
    if n > 0 {
      var prev := SampledUpTo(n - 1, total, pollingFrequency);
      SampledUpToSpec(n - 1, total, pollingFrequency);
      assert forall i :: 0 <= i < |prev| ==> prev[i] in prev;
    }
  }

  /** The sampled steps are strictly ascending (so none is written twice,
      even when the last step is also a multiple of the frequency), and are
      exactly the steps 1..total that are multiples of the frequency or the
      last one; the last step is always among them. */
  lemma SampledStepsSpec(total: int, pollingFrequency: int)
    ensures forall i, j :: 0 <= i < j < |SampledSteps(total, pollingFrequency)| ==>
              SampledSteps(total, pollingFrequency)[i] < SampledSteps(total, pollingFrequency)[j]
    ensures forall k :: k in SampledSteps(total, pollingFrequency) <==>
              1 <= k <= total && ((pollingFrequency != 0 && k % pollingFrequency == 0) || k == total)
    ensures total >= 1 ==> SampledSteps(total, pollingFrequency)[|SampledSteps(total, pollingFrequency)| - 1] == total
    ensures total <= 0 ==> SampledSteps(total, pollingFrequency) == []
  {
    SampledUpToSpec(total, total, pollingFrequency);
  }

  /** With frequency 1 every step is sampled. */
  lemma {:induction false} EveryStepSampled(n: int, total: int)
    requires n >= 0
    ensures |SampledUpTo(n, total, 1)| == n
    ensures forall i :: 0 <= i < n ==> SampledUpTo(n, total, 1)[i] == i + 1
    decreases n
  {
    if n > 0 {
      EveryStepSampled(n - 1, total);
    }
  }

  // ------------------------------------------------------------ recording

  /** The population and entropy read from the engine at one sampled step. */
  datatype Sample = Sample(step: int, state: seq<string>, entropy: Float)

  /** An entry of `results['collision_data']`. */
  datatype CollisionData = CollisionData(collisionNumber: int, entropy: Float, uniqueExpressions: int)

  /** The dict `run_experiment` returns. */
  datatype RunResults = RunResults(configId: int, collisionData: seq<CollisionData>)

  /** `len(set(state))`. */
  function UniqueCount(state: seq<string>): nat {
    |Tally.Elements(state)|
  }

  function SampleSnapshots(configId: int, s: Sample): seq<Snapshot> {
    CountSnapshots(configId, s.step, Tally.Counter(s.state))
  }

  function SampleMeasurement(configId: int, s: Sample): Measurement {
    Measurement(configId, s.step, s.entropy, UniqueCount(s.state))
  }

  /** The population rows a run writes for its samples, sample by sample. */
  function RunSnapshots(configId: int, samples: seq<Sample>): seq<Snapshot> {
    ConcatMap(samples, (s: Sample) => SampleSnapshots(configId, s))
  }

  /** The metrics rows a run writes, one per sample. */
  function RunMeasurements(configId: int, samples: seq<Sample>): seq<Measurement> {
    MapSeq(samples, (s: Sample) => SampleMeasurement(configId, s))
  }

  function SampleStepsOf(samples: seq<Sample>): seq<int> {
    MapSeq(samples, (s: Sample) => s.step)
  }

  function CollisionDataOf(samples: seq<Sample>): seq<CollisionData> {
    MapSeq(samples, (s: Sample) => CollisionData(s.step, s.entropy, UniqueCount(s.state)))
  }

  lemma RunSnapshotsSnoc(configId: int, samples: seq<Sample>, s: Sample)
    ensures RunSnapshots(configId, samples + [s]) == RunSnapshots(configId, samples) + SampleSnapshots(configId, s)
  {
    assert (samples + [s])[..|samples|] == samples;
  }

  lemma MapSnoc<A, B>(samples: seq<A>, s: A, f: A -> B)
    ensures MapSeq(samples + [s], f) == MapSeq(samples, f) + [f(s)]
  {
    MapSeqAppend(samples, [s], f);
  }

  /** What one more sample adds to each record of a run. */
  lemma RecordedSnoc(configId: int, samples: seq<Sample>, s: Sample)
    requires |samples| >= 1
    ensures RunSnapshots(configId, samples + [s]) == RunSnapshots(configId, samples) + SampleSnapshots(configId, s)
    ensures RunMeasurements(configId, samples + [s]) == RunMeasurements(configId, samples) + [SampleMeasurement(configId, s)]
    ensures SampleStepsOf(samples + [s]) == SampleStepsOf(samples) + [s.step]
    ensures CollisionDataOf((samples + [s])[1..]) ==
              CollisionDataOf(samples[1..]) + [CollisionData(s.step, s.entropy, UniqueCount(s.state))]
  {
    RunSnapshotsSnoc(configId, samples, s);
    MapSnoc(samples, s, (x: Sample) => SampleMeasurement(configId, x));
    MapSnoc(samples, s, (x: Sample) => x.step);
    MapSnoc(samples[1..], s, (x: Sample) => CollisionData(x.step, x.entropy, UniqueCount(x.state)));
    assert (samples + [s])[1..] == samples[1..] + [s];
  }

  /** Each sample's metrics row agrees with its population rows: the unique
      count is the number of population rows, each row counts the
      occurrences of a distinct expression of the state, and every
      expression of the state has its row. */
  lemma SampleRowsAgree(configId: int, s: Sample)
    ensures |SampleSnapshots(configId, s)| == SampleMeasurement(configId, s).uniqueExpressions
    ensures forall i :: 0 <= i < |SampleSnapshots(configId, s)| ==>
              SampleSnapshots(configId, s)[i].count == multiset(s.state)[SampleSnapshots(configId, s)[i].expression] >= 1
    ensures forall i :: 0 <= i < |SampleSnapshots(configId, s)| ==>
              SampleSnapshots(configId, s)[i].collisionNumber == s.step && SampleSnapshots(configId, s)[i].configId == configId
    ensures forall i, j :: 0 <= i < j < |SampleSnapshots(configId, s)| ==>
              SampleSnapshots(configId, s)[i].expression != SampleSnapshots(configId, s)[j].expression
    ensures forall x :: x in s.state ==>
              exists i :: 0 <= i < |SampleSnapshots(configId, s)| && SampleSnapshots(configId, s)[i].expression == x
  {
    CounterRows(configId, s.step, s.state);
  }

  /** Reads the engine and writes one sample: the `Counter` rows of the
      population, then its metrics row. */
  method SaveSample(store: Store, soup: Engine.Soup, configId: int, step: int) returns (sample: Sample)
    requires store.Valid() && store.nameColumn
    modifies store
    ensures sample == Sample(step, soup.population, soup.entropy)
    ensures store.Valid() && store.nameColumn && store.configs == old(store.configs)
    ensures Snapshots(store.experiments) == Snapshots(old(store.experiments)) + SampleSnapshots(configId, sample)
    ensures Measurements(store.averages) == Measurements(old(store.averages)) + [SampleMeasurement(configId, sample)]
  {
    var state := soup.population;
    var entropy := soup.entropy;
    var unique := |Tally.Elements(state)|;
    store.SaveCounterRows(configId, step, Tally.Counter(state));
    ghost var before := store.averages;
    store.SaveAverages(configId, step, entropy, unique);
    MeasurementsAppend(before, store.averages[|store.averages| - 1]);
    sample := Sample(step, state, entropy);
  }

  /** Whether the config asks for a Fontana run with both probability
      ranges: that path calls `json.dumps` in a module that never imports
      `json`, so it raises NameError before anything is written. */
  predicate FontanaRangesGiven(config: Config)
    requires config.inputExpressions.Some?
  {
    var ie := config.inputExpressions.value;
    && ie.generator == Some("Fontana")
    && ie.params.Some?
    && ie.params.value.absRange.Some?
    && ie.params.value.appRange.Some?
  }

  /** The exception `run_experiment` ends with, if any: KeyError without a
      generator, NameError for a Fontana run with both ranges, and
      ZeroDivisionError at the first collision when the frequency is 0. */
  function RunFailure(config: Config): Option<PyError> {
    if config.inputExpressions.None? || config.inputExpressions.value.generator.None? then Some(KeyError)
    else if FontanaRangesGiven(config) then Some(NameError)
    else if config.pollingFrequency.GetOr(10) == 0 && config.totalCollisions.GetOr(1000) >= 1 then
      Some(ZeroDivisionError)
    else None
  }

  /** `freevar_generation_probability`, recorded for BTree runs only. */
  function FreevarOf(ie: InputExpressions): Option<Float> {
    if ie.generator == Some("BTree") && ie.params.Some? then ie.params.value.freevarProbability else None
  }

  /** What a run has recorded after the given samples: their population
      rows and metrics rows after the rows already there, the returned
      entries for every sample after step 0, and their steps. */
  ghost predicate Recorded(snapshots: seq<Snapshot>, measurements: seq<Measurement>,
                           snapshots0: seq<Snapshot>, measurements0: seq<Measurement>, configId: int,
                           samples: seq<Sample>, collisionData: seq<CollisionData>, steps: seq<int>)
  {
    && |samples| >= 1
    && SampleStepsOf(samples) == [0] + steps
    && snapshots == snapshots0 + RunSnapshots(configId, samples)
    && measurements == measurements0 + RunMeasurements(configId, samples)
    && collisionData == CollisionDataOf(samples[1..])
  }

  lemma RecordedStep(snapshots: seq<Snapshot>, measurements: seq<Measurement>,
                     snapshots0: seq<Snapshot>, measurements0: seq<Measurement>, configId: int,
                     samples: seq<Sample>, collisionData: seq<CollisionData>, steps: seq<int>, s: Sample)
    requires Recorded(snapshots, measurements, snapshots0, measurements0, configId, samples, collisionData, steps)
    ensures Recorded(snapshots + SampleSnapshots(configId, s), measurements + [SampleMeasurement(configId, s)],
                     snapshots0, measurements0, configId, samples + [s],
                     collisionData + [CollisionData(s.step, s.entropy, UniqueCount(s.state))], steps + [s.step])
  {
    RecordedSnoc(configId, samples, s);
    AppendAssoc([0], steps, [s.step]);
    AppendAssoc(snapshots0, RunSnapshots(configId, samples), SampleSnapshots(configId, s));
    AppendAssoc(measurements0, RunMeasurements(configId, samples), [SampleMeasurement(configId, s)]);
  }

  /** The sampling test of the loop: at a sampled step, the population
      rows and the metrics row of the current engine state. */
  method SampleIfDue(store: Store, soup: Engine.Soup, configId: int, collisionCount: int,
                     totalCollisions: int, pollingFrequency: int) returns (sample: Option<Sample>)
    requires store.Valid() && store.nameColumn && pollingFrequency != 0
    modifies store
    ensures store.Valid() && store.nameColumn && store.configs == old(store.configs)
    ensures sample.Some? <==> Sampled(collisionCount, totalCollisions, pollingFrequency)
    ensures sample.Some? ==> sample.value == Sample(collisionCount, soup.population, soup.entropy)
    ensures sample.None? ==> Snapshots(store.experiments) == Snapshots(old(store.experiments))
    ensures sample.None? ==> Measurements(store.averages) == Measurements(old(store.averages))
    ensures sample.Some? ==>
              Snapshots(store.experiments) == Snapshots(old(store.experiments)) + SampleSnapshots(configId, sample.value)
    ensures sample.Some? ==>
              Measurements(store.averages) == Measurements(old(store.averages)) + [SampleMeasurement(configId, sample.value)]
  {
    if collisionCount % pollingFrequency == 0 || collisionCount == totalCollisions {
      var s := SaveSample(store, soup, configId, collisionCount);
      return Some(s);
    }
    return None;
  }

  /** The step-0 sample alone is a recording with no sampled step yet. */
  lemma RecordedStart(snapshots: seq<Snapshot>, measurements: seq<Measurement>,
                      snapshots0: seq<Snapshot>, measurements0: seq<Measurement>, configId: int, initial: Sample)
    requires initial.step == 0
    requires snapshots == snapshots0 + SampleSnapshots(configId, initial)
    requires measurements == measurements0 + [SampleMeasurement(configId, initial)]
    ensures Recorded(snapshots, measurements, snapshots0, measurements0, configId, [initial], [], [])
  {
    RunSnapshotsSnoc(configId, [], initial);
    assert [initial][1..] == [];
  }

  /** Once the loop has run to its end, the steps up to where it stopped
      are all the sampled steps. */
  lemma RecordedEnd(snapshots: seq<Snapshot>, measurements: seq<Measurement>,
                    snapshots0: seq<Snapshot>, measurements0: seq<Measurement>, configId: int,
                    samples: seq<Sample>, collisionData: seq<CollisionData>,
                    n: int, total: int, pollingFrequency: int)
    requires 0 <= n && (n == 0 || n <= total) && n >= total
    requires Recorded(snapshots, measurements, snapshots0, measurements0, configId, samples, collisionData,
                      SampledUpTo(n, total, pollingFrequency))
    ensures Recorded(snapshots, measurements, snapshots0, measurements0, configId, samples, collisionData,
                     SampledSteps(total, pollingFrequency))
  {
    if total <= 0 {
      assert n == 0;
    }
  }

  /** Before the first collision nothing but step 0 has been sampled. */
  lemma RecordedNothingYet(snapshots: seq<Snapshot>, measurements: seq<Measurement>,
                           snapshots0: seq<Snapshot>, measurements0: seq<Measurement>, configId: int,
                           samples: seq<Sample>, collisionData: seq<CollisionData>, totalCollisions: int)
    requires Recorded(snapshots, measurements, snapshots0, measurements0, configId, samples, collisionData,
                      SampledUpTo(0, totalCollisions, 0))
    ensures Recorded(snapshots, measurements, snapshots0, measurements0, configId, samples, collisionData, [])
  {
  }

  /** The sampling after collision `n`: what is recorded covers the
      sampled steps up to `n`. */
  method RecordCollision(store: Store, soup: Engine.Soup, configId: int, n: int, totalCollisions: int,
                         pollingFrequency: int, ghost snapshots0: seq<Snapshot>, ghost measurements0: seq<Measurement>,
                         ghost samples: seq<Sample>, collisionData: seq<CollisionData>)
    returns (collisionData': seq<CollisionData>, ghost samples': seq<Sample>)
    requires store.Valid() && store.nameColumn && pollingFrequency != 0 && n >= 1
    requires Recorded(Snapshots(store.experiments), Measurements(store.averages), snapshots0, measurements0,
                      configId, samples, collisionData, SampledUpTo(n - 1, totalCollisions, pollingFrequency))
    modifies store
    ensures store.Valid() && store.nameColumn && store.configs == old(store.configs)
    ensures Recorded(Snapshots(store.experiments), Measurements(store.averages), snapshots0, measurements0,
                     configId, samples', collisionData', SampledUpTo(n, totalCollisions, pollingFrequency))
  {
    ghost var snapshots := Snapshots(store.experiments);
    ghost var measurements := Measurements(store.averages);
    ghost var before := SampledUpTo(n - 1, totalCollisions, pollingFrequency);
    assert SampledUpTo(n, totalCollisions, pollingFrequency) ==
           before + (if Sampled(n, totalCollisions, pollingFrequency) then [n] else []);
    var due := SampleIfDue(store, soup, configId, n, totalCollisions, pollingFrequency);
    if due.Some? {
      var sample := due.value;
      RecordedStep(snapshots, measurements, snapshots0, measurements0, configId, samples, collisionData, before, sample);
      collisionData' := collisionData + [CollisionData(sample.step, sample.entropy, UniqueCount(sample.state))];
      samples' := samples + [sample];
    } else {
      assert before + [] == before;
      collisionData', samples' := collisionData, samples;
    }
  }

  /** One pass of the loop: collision `n + 1`, then its sampling test,
      which divides by the frequency and so raises ZeroDivisionError
      (`ok` false) when it is 0. */
  method Collide(store: Store, soup: Engine.Soup, configId: int, n: int, totalCollisions: int,
                 pollingFrequency: int, ghost snapshots0: seq<Snapshot>, ghost measurements0: seq<Measurement>,
                 ghost samples: seq<Sample>, collisionData: seq<CollisionData>)
    returns (ok: bool, collisionData': seq<CollisionData>, ghost samples': seq<Sample>)
    requires store.Valid() && store.nameColumn && 0 <= n < totalCollisions
    requires pollingFrequency == 0 ==> n == 0
    requires Recorded(Snapshots(store.experiments), Measurements(store.averages), snapshots0, measurements0,
                      configId, samples, collisionData, SampledUpTo(n, totalCollisions, pollingFrequency))
    modifies store, soup
    ensures store.Valid() && store.nameColumn && store.configs == old(store.configs)
    ensures ok <==> pollingFrequency != 0
    ensures Recorded(Snapshots(store.experiments), Measurements(store.averages), snapshots0, measurements0,
                     configId, samples', collisionData',
                     if ok then SampledUpTo(n + 1, totalCollisions, pollingFrequency) else [])
  {
    soup.SimulateOne();
    if pollingFrequency == 0 {
      RecordedNothingYet(Snapshots(store.experiments), Measurements(store.averages), snapshots0, measurements0,
                         configId, samples, collisionData, totalCollisions);
      return false, collisionData, samples;
    }
    ok := true;
    collisionData', samples' := RecordCollision(store, soup, configId, n + 1, totalCollisions, pollingFrequency,
                                                snapshots0, measurements0, samples, collisionData);
  }

  /** The recording part of `run_experiment` once the engine is seeded:
      the step-0 sample, then `total` collisions with a sample at every
      sampled step; ZeroDivisionError (`ok` false) at the first collision
      when the frequency is 0. */
  method RecordRun(store: Store, soup: Engine.Soup, configId: int, totalCollisions: int, pollingFrequency: int)
    returns (ok: bool, collisionData: seq<CollisionData>, ghost samples: seq<Sample>, ghost collisions: nat)
    requires store.Valid() && store.nameColumn
    modifies store, soup
    ensures store.Valid() && store.nameColumn && store.configs == old(store.configs)
    ensures ok <==> pollingFrequency != 0 || totalCollisions <= 0
    ensures Recorded(Snapshots(store.experiments), Measurements(store.averages),
                     Snapshots(old(store.experiments)), Measurements(old(store.averages)), configId,
                     samples, collisionData, if ok then SampledSteps(totalCollisions, pollingFrequency) else [])
    ensures collisions == if !ok then 1 else if totalCollisions > 0 then totalCollisions else 0
  {
    ghost var experiments0 := Snapshots(store.experiments);
    ghost var averages0 := Measurements(store.averages);
    var collisionCount := 0;
    collisions := 0;
    var initial := SaveSample(store, soup, configId, 0);
    samples := [initial];
    collisionData := [];
    RecordedStart(Snapshots(store.experiments), Measurements(store.averages), experiments0, averages0, configId, initial);
    while collisionCount < totalCollisions
      invariant 0 <= collisionCount && (collisionCount == 0 || collisionCount <= totalCollisions)
      invariant pollingFrequency == 0 ==> collisionCount == 0
      invariant collisions == collisionCount
      invariant store.Valid() && store.nameColumn && store.configs == old(store.configs)
      invariant Recorded(Snapshots(store.experiments), Measurements(store.averages), experiments0, averages0,
                         configId, samples, collisionData, SampledUpTo(collisionCount, totalCollisions, pollingFrequency))
      decreases totalCollisions - collisionCount
    {
      var going;
      going, collisionData, samples := Collide(store, soup, configId, collisionCount, totalCollisions, pollingFrequency,
                                               experiments0, averages0, samples, collisionData);
      collisionCount := collisionCount + 1;
      collisions := collisions + 1;
      if !going {
        return false, collisionData, samples, collisions;
      }
    }
    RecordedEnd(Snapshots(store.experiments), Measurements(store.averages), experiments0, averages0,
                configId, samples, collisionData, collisionCount, totalCollisions, pollingFrequency);
    return true, collisionData, samples, collisions;
  }

  /** The `configs` row `run_experiment` writes before it simulates. */
  method SaveRunConfig(store: Store, ie: InputExpressions, randomSeed: int, totalCollisions: int,
                       pollingFrequency: int, name: Option<string>, now: int)
    returns (configId: int)
    requires store.Valid() && store.nameColumn && ie.generator.Some?
    modifies store
    ensures store.Valid() && store.nameColumn
    ensures configId == old(store.nextConfigId)
    ensures store.configs == old(store.configs) +
              [ConfigRow(configId, randomSeed, ie.generator.value, totalCollisions, pollingFrequency,
                         None, FreevarOf(ie), now, Some(StoredName(name, configId)))]
    ensures store.experiments == old(store.experiments) && store.averages == old(store.averages)
  {
    configId := store.SaveConfiguration(randomSeed, ie.generator.value, totalCollisions, pollingFrequency,
                                        None, FreevarOf(ie), name, now);
    assert store.configs == old(store.configs) + [store.configs[|old(store.configs)|]];
  }

  /** `run_experiment` of `simulation.py`.  `drawnSeed` is the seed drawn
      when the config has none; `files` and `generateN` feed
      `LoadInputExpressions`; `now` is the insertion time.  The ghost
      results are what the engine showed at each sample and how many
      collisions it was asked for. */
  method RunExperiment(store: Store, config: Config, drawnSeed: int, files: map<string, seq<string>>,
                       generateN: BTreeSettings -> seq<string>, now: int)
    returns (result: Outcome<RunResults>, ghost samples: seq<Sample>, ghost collisions: nat)
    requires store.Valid() && store.nameColumn
    modifies store
    ensures store.Valid() && store.nameColumn
    ensures result.Raised? <==> RunFailure(config).Some?
    ensures result.Raised? ==> result.error == RunFailure(config).value
    ensures RunFailure(config) in {Some(KeyError), Some(NameError)} ==> unchanged(store)
    ensures RunFailure(config).None? || RunFailure(config) == Some(ZeroDivisionError) ==>
              var ie := config.inputExpressions.value;
              var id := old(store.nextConfigId);
              var total := config.totalCollisions.GetOr(1000);
              var pf := config.pollingFrequency.GetOr(10);
              && store.configs == old(store.configs) +
                   [ConfigRow(id, config.randomSeed.GetOr(drawnSeed), ie.generator.value, total, pf,
                              None, FreevarOf(ie), now, Some(StoredName(config.name, id)))]
              && Snapshots(store.experiments) == Snapshots(old(store.experiments)) + RunSnapshots(id, samples)
              && Measurements(store.averages) == Measurements(old(store.averages)) + RunMeasurements(id, samples)
              && (result.Returned? ==> SampleStepsOf(samples) == [0] + SampledSteps(total, pf))
              && (result.Returned? ==> collisions == if total > 0 then total else 0)
              && (result.Returned? ==> |samples| >= 1 && result.value == RunResults(id, CollisionDataOf(samples[1..])))
              && (result.Raised? ==> SampleStepsOf(samples) == [0] && collisions == 1)
  {
    samples := [];
    collisions := 0;
    if config.inputExpressions.None? || config.inputExpressions.value.generator.None? {
      return Raised(KeyError), samples, collisions;
    }
    var ie := config.inputExpressions.value;
    var generatorType := ie.generator.value;
    var genParams := ie.params.GetOr(NoParams);
    var totalCollisions := config.totalCollisions.GetOr(1000);
    var pollingFrequency := config.pollingFrequency.GetOr(10);
    var randomSeed := config.randomSeed.GetOr(drawnSeed);
    if generatorType == "Fontana" && ie.params.Some? && genParams.absRange.Some? && genParams.appRange.Some? {
      return Raised(NameError), samples, collisions;
    }
    var configId := SaveRunConfig(store, ie, randomSeed, totalCollisions, pollingFrequency, config.name, now);
    var soup := new Engine.Soup();
    var expressions := LoadInputExpressions(generatorType, genParams, files, generateN);
    soup.Perturb(expressions);
    var ok, collisionData;
    ok, collisionData, samples, collisions := RecordRun(store, soup, configId, totalCollisions, pollingFrequency);
    if !ok {
      return Raised(ZeroDivisionError), samples, collisions;
    }
    result := Returned(RunResults(configId, collisionData));
  }
}

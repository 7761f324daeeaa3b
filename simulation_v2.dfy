/**
 * The file-based run driver of `simulation_v2.py`: it seeds the engine from
 * a generator or from an earlier run's output, advances it one collision at
 * a time, and keeps the sampled steps in a `collisions_data` object keyed
 * `collision_N`, which it writes out together with the config and the last
 * sampled state.
 */
module SimulationV2 {
  import opened Wrappers
  import opened Sorting
  import opened Documents
  import Engine
  import PyText
  import Simulation

  /** What is measured when the config does not say. */
  const DefaultMeasurements: seq<string> := ["entropy", "unique_expressions", "len_unique_expressions"]

  /** The file a `from_file` run reads when its params name none. */
  const DefaultSeedFile: string := "test_exprs.txt"

  // ------------------------------------------------------------ the last key

  /** `sorted(keys, key=parse)[-1]`: ValueError when a key does not parse,
      IndexError when there is no key, otherwise the last key of the stable
      sort. */
  function LastKeyBy(keys: seq<string>, parse: string -> Outcome<int>): (r: Outcome<string>)
    ensures r.Returned? ==> r.value in keys
  {
    if !AllKeysParse(keys, parse) then Raised(ValueError)
    else if keys == [] then Raised(IndexError)
    else
      var sorted := SortBy(keys, SortKey(parse));
      assert sorted[|keys| - 1] in multiset(keys);
      Returned(sorted[|keys| - 1])
  }

  /** `sorted(keys, key=lambda x: int(x.split("_")[-1]))[-1]`. */
  function LastKey(keys: seq<string>): Outcome<string> {
    LastKeyBy(keys, LastSegmentNumber)
  }

  /** The last element of a sequence is the last of those sharing its key. */
  lemma {:induction false} WithKeyLast<T>(s: seq<T>, key: T -> int)
    requires s != []
    ensures WithKey(s, key, key(s[|s| - 1])) != []
    ensures var w := WithKey(s, key, key(s[|s| - 1])); w[|w| - 1] == s[|s| - 1]
  {
    if |s| > 1 {
      WithKeyLast(s[1..], key);
      assert s[1..][|s| - 2] == s[|s| - 1];
    }
  }

  /** The last key is the one with the numerically largest suffix, and of
      several keys with that suffix the last one in the input order. */
  lemma LastKeySpec(keys: seq<string>, parse: string -> Outcome<int>)
    ensures LastKeyBy(keys, parse).Raised? <==> keys == [] || !AllKeysParse(keys, parse)
    ensures LastKeyBy(keys, parse).Raised? ==>
              LastKeyBy(keys, parse).error == if AllKeysParse(keys, parse) then IndexError else ValueError
    ensures LastKeyBy(keys, parse).Returned? ==>
              var r := LastKeyBy(keys, parse).value;
              && (forall k :: k in keys ==> parse(k).Returned? && parse(k).value <= parse(r).value)
              && var ties := WithKey(keys, SortKey(parse), ParsedOr(parse, r)); ties != [] && ties[|ties| - 1] == r
  {
    if LastKeyBy(keys, parse).Returned? {
      var key := SortKey(parse);
      var sorted := SortBy(keys, key);
      var r := sorted[|keys| - 1];
      SortByLastIsMax(keys, key);
      assert r in keys;
      var l :| 0 <= l < |keys| && keys[l] == r;
      forall k | k in keys ensures parse(k).Returned? && parse(k).value <= parse(r).value {
        var j :| 0 <= j < |keys| && keys[j] == k;
        assert key(k) == parse(k).value && key(r) == parse(r).value;
      }
      WithKeyLast(sorted, key);
      SortIsStable(keys, key, key(r));
    }
  }

  // ------------------------------------------------------------ seeding

  /** `load_input_expressions` of `simulation_v2.py`.  `textFiles` maps each
      existing path to its lines; `jsonFiles` maps each existing `.json`
      path to its parsed content, or None when it is not valid JSON. */
  function LoadInputExpressions(generator: string, params: GenParams, textFiles: map<string, seq<string>>,
                                jsonFiles: map<string, Option<ExperimentDoc>>,
                                generateN: Simulation.BTreeSettings -> seq<string>): (r: Outcome<seq<string>>)
    ensures generator !in {"from_file", "BTree"} ==> r == Raised(ValueError)
    ensures generator == "BTree" ==> r == Returned(generateN(Simulation.BTreeSettingsOf(params)))
    ensures generator == "from_file" ==>
              var fn := params.filename.GetOr(DefaultSeedFile);
              (fn !in (if PyText.EndsWith(fn, ".json") then jsonFiles.Keys else textFiles.Keys) <==>
                 r == Raised(FileNotFoundError))
    ensures generator == "from_file" ==>
              var fn := params.filename.GetOr(DefaultSeedFile);
              PyText.EndsWith(fn, ".json") && fn in jsonFiles && jsonFiles[fn].None? ==> r == Raised(ValueError)
    ensures generator == "from_file" ==>
              var fn := params.filename.GetOr(DefaultSeedFile);
              !PyText.EndsWith(fn, ".json") && fn in textFiles ==> r == Returned(PyText.StrippedNonBlank(textFiles[fn]))
    ensures generator == "from_file" && r.Returned? && !PyText.EndsWith(params.filename.GetOr(DefaultSeedFile), ".json") ==>
              forall i :: 0 <= i < |r.value| ==> r.value[i] != [] && PyText.IsStripped(r.value[i])
  {
    if generator == "from_file" then
      var filename := params.filename.GetOr(DefaultSeedFile);
      if PyText.EndsWith(filename, ".json") then
        if filename !in jsonFiles then Raised(FileNotFoundError)
        else
          match jsonFiles[filename]
          case None => Raised(ValueError)
          case Some(doc) =>
            var data := doc.collisionsData.GetOr([]);
            match LastKey(EntryKeys(data))
            case Raised(e) => Raised(e)
            case Returned(k) => Returned(EntryAt(data, k).state.GetOr([]))
      else if filename !in textFiles then Raised(FileNotFoundError)
      else Returned(PyText.StrippedNonBlank(textFiles[filename]))
    else if generator == "BTree" then Returned(generateN(Simulation.BTreeSettingsOf(params)))
    else Raised(ValueError)
  }

  // ------------------------------------------------------------ the run

  /** The engine's readings at one sampled step. */
  datatype Sample = Sample(step: int, state: seq<string>, entropy: Float, unique: seq<string>)

  /** The `collisions_data` entry of a sample: the state always, and each
      measurement only when it is asked for, keyed in that order. */
  function StepEntry(measurements: seq<string>, s: Sample): Entry {
    Entry(Some(s.state),
          if "entropy" in measurements then Some(s.entropy) else None,
          if "unique_expressions" in measurements then Some(UniqueList(s.unique)) else None,
          if "len_unique_expressions" in measurements then Some(|s.unique|) else None,
          ["state"]
          + (if "entropy" in measurements then ["entropy"] else [])
          + (if "unique_expressions" in measurements then ["unique_expressions"] else [])
          + (if "len_unique_expressions" in measurements then ["len_unique_expressions"] else []))
  }

  function KeyedEntry(measurements: seq<string>, s: Sample): (string, Entry) {
    (CollisionKey(s.step), StepEntry(measurements, s))
  }

  /** The `collisions_data` object of a run with these samples. */
  function RunEntries(measurements: seq<string>, samples: seq<Sample>): Entries {
    MapSeq(samples, (s: Sample) => KeyedEntry(measurements, s))
  }

  function StepsOf(samples: seq<Sample>): seq<int> {
    MapSeq(samples, (s: Sample) => s.step)
  }

  lemma RunEntriesSnoc(measurements: seq<string>, samples: seq<Sample>, s: Sample)
    ensures RunEntries(measurements, samples + [s]) == RunEntries(measurements, samples) + [KeyedEntry(measurements, s)]
    ensures StepsOf(samples + [s]) == StepsOf(samples) + [s.step]
  {
    Simulation.MapSnoc(samples, s, (x: Sample) => KeyedEntry(measurements, x));
    Simulation.MapSnoc(samples, s, (x: Sample) => x.step);
  }

  /** What `run_experiment` returns and writes: the output document, the
      lines of the last-state text file, and the two paths. */
  datatype RunOutput = RunOutput(jsonPath: string, txtPath: string, results: ExperimentDoc, txtLines: seq<string>)

  function OutputPath(folder: string, runId: int): string {
    PyText.PathJoin(folder, "experiment_output_" + PyText.IntToString(runId) + ".json")
  }

  function TxtPath(folder: string, runId: int): string {
    PyText.PathJoin(folder, "last_state_exprs_" + PyText.IntToString(runId) + ".txt")
  }

  /** The errors `run_experiment` raises before it simulates: KeyError
      without a generator, then whatever seeding raises. */
  function SeedFailure(config: Config, textFiles: map<string, seq<string>>, jsonFiles: map<string, Option<ExperimentDoc>>,
                       generateN: Simulation.BTreeSettings -> seq<string>): Option<PyError>
  {
    if config.inputExpressions.None? || config.inputExpressions.value.generator.None? then Some(KeyError)
    else
      var ie := config.inputExpressions.value;
      match LoadInputExpressions(ie.generator.value, ie.params.GetOr(NoParams), textFiles, jsonFiles, generateN)
      case Raised(e) => Some(e)
      case Returned(_) => None
  }

  /** The exception `run_experiment` ends with, if any: a seeding error;
      ZeroDivisionError at the first collision when the frequency is 0; and
      IndexError when no collision is run, as the empty results have no
      last key. */
  function RunFailure(config: Config, textFiles: map<string, seq<string>>, jsonFiles: map<string, Option<ExperimentDoc>>,
                      generateN: Simulation.BTreeSettings -> seq<string>): Option<PyError>
  {
    var total := config.totalCollisions.GetOr(1000);
    if SeedFailure(config, textFiles, jsonFiles, generateN).Some? then SeedFailure(config, textFiles, jsonFiles, generateN)
    else if total <= 0 then Some(IndexError)
    else if config.pollingFrequency.GetOr(10) == 0 then Some(ZeroDivisionError)
    else None
  }

  /** The loop of `run_experiment`: `total` collisions, with an entry for
      each sampled step; `ok` is false when the frequency 0 makes the first
      modulo raise. */
  method CollectEntries(soup: Engine.Soup, measurements: seq<string>, totalCollisions: int, pollingFrequency: int)
    returns (ok: bool, results: Entries, ghost samples: seq<Sample>)
    modifies soup
    ensures ok <==> pollingFrequency != 0 || totalCollisions <= 0
    ensures results == RunEntries(measurements, samples)
    ensures ok ==> StepsOf(samples) == Simulation.SampledSteps(totalCollisions, pollingFrequency)
    ensures ok ==> soup.steps == old(soup.steps) + if totalCollisions > 0 then totalCollisions else 0
    ensures forall i :: 0 <= i < |samples| ==> samples[i].state == results[i].1.state.value
  {
    var collisionCount := 0;
    results := [];
    samples := [];
    while collisionCount < totalCollisions
      invariant 0 <= collisionCount && (collisionCount == 0 || collisionCount <= totalCollisions)
      invariant soup.steps == old(soup.steps) + collisionCount
      invariant pollingFrequency == 0 ==> collisionCount == 0
      invariant results == RunEntries(measurements, samples)
      invariant StepsOf(samples) == Simulation.SampledUpTo(collisionCount, totalCollisions, pollingFrequency)
      decreases totalCollisions - collisionCount
    {
      soup.SimulateOne();
      collisionCount := collisionCount + 1;
      if pollingFrequency == 0 {
        return false, results, samples;
      }
      if collisionCount % pollingFrequency == 0 || collisionCount == totalCollisions {
        var sample := Sample(collisionCount, soup.population, soup.entropy, soup.unique);
        RunEntriesSnoc(measurements, samples, sample);
        results := results + [(CollisionKey(collisionCount), StepEntry(measurements, sample))];
        samples := samples + [sample];
      }
    }
    assert Simulation.SampledUpTo(collisionCount, totalCollisions, pollingFrequency) ==
           Simulation.SampledSteps(totalCollisions, pollingFrequency) by {
      if totalCollisions <= 0 {
        assert collisionCount == 0;
      }
    }
    return true, results, samples;
  }

  /** `run_experiment` of `simulation_v2.py`.  The files the seeding reads
      are parameters; the engine is fresh.  On success the output holds the
      config as given, the entries of every sampled step, and the last one
      alone, whose state is also the text file's lines. */
  method RunExperiment(config: Config, outputFolder: string, runId: int, textFiles: map<string, seq<string>>,
                       jsonFiles: map<string, Option<ExperimentDoc>>, generateN: Simulation.BTreeSettings -> seq<string>)
    returns (result: Outcome<RunOutput>, ghost samples: seq<Sample>)
    ensures result.Raised? <==> RunFailure(config, textFiles, jsonFiles, generateN).Some?
    ensures result.Raised? ==> result.error == RunFailure(config, textFiles, jsonFiles, generateN).value
    ensures result.Returned? ==>
              var total := config.totalCollisions.GetOr(1000);
              var measurements := config.measurements.GetOr(DefaultMeasurements);
              var entries := RunEntries(measurements, samples);
              && StepsOf(samples) == Simulation.SampledSteps(total, config.pollingFrequency.GetOr(10))
              && |entries| >= 1 && |samples| >= 1
              && result.value == RunOutput(OutputPath(outputFolder, runId), TxtPath(outputFolder, runId),
                   ExperimentDoc(Some(config), Some(entries), Some([(CollisionKey(total), entries[|entries| - 1].1)])),
                   samples[|samples| - 1].state)
  {
    samples := [];
    var seeded := SeedSoup(config, textFiles, jsonFiles, generateN);
    if seeded.Raised? {
      return Raised(seeded.error), samples;
    }
    result, samples := Simulate(seeded.value, config, outputFolder, runId);
  }

  /** The seeded part of `run_experiment`: the collisions, then the
      output; ZeroDivisionError at the first collision when the frequency
      is 0, IndexError when no collision is asked for. */
  method Simulate(soup: Engine.Soup, config: Config, outputFolder: string, runId: int)
    returns (result: Outcome<RunOutput>, ghost samples: seq<Sample>)
    modifies soup
    ensures var total := config.totalCollisions.GetOr(1000);
      result.Raised? <==> total <= 0 || config.pollingFrequency.GetOr(10) == 0
    ensures result.Raised? ==> result.error == if config.totalCollisions.GetOr(1000) <= 0 then IndexError else ZeroDivisionError
    ensures result.Returned? ==>
              var total := config.totalCollisions.GetOr(1000);
              var measurements := config.measurements.GetOr(DefaultMeasurements);
              var entries := RunEntries(measurements, samples);
              && StepsOf(samples) == Simulation.SampledSteps(total, config.pollingFrequency.GetOr(10))
              && |entries| >= 1 && |samples| >= 1
              && result.value == RunOutput(OutputPath(outputFolder, runId), TxtPath(outputFolder, runId),
                   ExperimentDoc(Some(config), Some(entries), Some([(CollisionKey(total), entries[|entries| - 1].1)])),
                   samples[|samples| - 1].state)
  {
    var measurements := config.measurements.GetOr(DefaultMeasurements);
    var totalCollisions := config.totalCollisions.GetOr(1000);
    var pollingFrequency := config.pollingFrequency.GetOr(10);
    var ok, resultsData;
    ok, resultsData, samples := CollectEntries(soup, measurements, totalCollisions, pollingFrequency);
    if !ok {
      return Raised(ZeroDivisionError), samples;
    }
    result := WriteOutput(config, outputFolder, runId, measurements, resultsData, samples, totalCollisions, pollingFrequency);
  }

  /** The start of `run_experiment`: a new engine seeded with the loaded
      expressions, or the exception the config or the seeding raises. */
  method SeedSoup(config: Config, textFiles: map<string, seq<string>>, jsonFiles: map<string, Option<ExperimentDoc>>,
                  generateN: Simulation.BTreeSettings -> seq<string>)
    returns (r: Outcome<Engine.Soup>)
    ensures r.Raised? <==> SeedFailure(config, textFiles, jsonFiles, generateN).Some?
    ensures r.Raised? ==> r.error == SeedFailure(config, textFiles, jsonFiles, generateN).value
    ensures r.Returned? ==> fresh(r.value)
  {
    if config.inputExpressions.None? || config.inputExpressions.value.generator.None? {
      return Raised(KeyError);
    }
    var ie := config.inputExpressions.value;
    var genParams := ie.params.GetOr(NoParams);
    var soup := new Engine.Soup();
    var loaded := LoadInputExpressions(ie.generator.value, genParams, textFiles, jsonFiles, generateN);
    if loaded.Raised? {
      return Raised(loaded.error);
    }
    soup.Perturb(loaded.value);
    return Returned(soup);
  }

  /** The end of `run_experiment`: picks the last key of the entries and
      builds the output; IndexError when there is no entry. */
  method WriteOutput(config: Config, outputFolder: string, runId: int, measurements: seq<string>, resultsData: Entries,
                     ghost samples: seq<Sample>, totalCollisions: int, pollingFrequency: int)
    returns (result: Outcome<RunOutput>)
    requires resultsData == RunEntries(measurements, samples)
    requires StepsOf(samples) == Simulation.SampledSteps(totalCollisions, pollingFrequency)
    ensures result.Raised? <==> totalCollisions <= 0
    ensures result.Raised? ==> result.error == IndexError
    ensures result.Returned? ==>
              && |resultsData| >= 1 && |samples| >= 1
              && result.value == RunOutput(OutputPath(outputFolder, runId), TxtPath(outputFolder, runId),
                   ExperimentDoc(Some(config), Some(resultsData), Some([(CollisionKey(totalCollisions), resultsData[|resultsData| - 1].1)])),
                   samples[|samples| - 1].state)
  {
    RunKeys(measurements, samples, totalCollisions, pollingFrequency);
    var lastKey := LastKey(EntryKeys(resultsData));
    if lastKey.Raised? {
      LastKeySpec(EntryKeys(resultsData), LastSegmentNumber);
      return Raised(lastKey.error);
    }
    var lastEntry := EntryAt(resultsData, lastKey.value);
    var lastState := [(lastKey.value, lastEntry)];
    var output := ExperimentDoc(Some(config), Some(resultsData), Some(lastState));
    var txtLines := lastEntry.state.GetOr([]);
    assert resultsData[|resultsData| - 1] == KeyedEntry(measurements, samples[|samples| - 1]);
    result := Returned(RunOutput(OutputPath(outputFolder, runId), TxtPath(outputFolder, runId), output, txtLines));
  }

  /** The keys of a run's entries are distinct, each reads back as its
      step, and the last key is that of the final collision; with no
      collision there is no key at all. */
  lemma RunKeys(measurements: seq<string>, samples: seq<Sample>, total: int, pollingFrequency: int)
    requires StepsOf(samples) == Simulation.SampledSteps(total, pollingFrequency)
    ensures var entries := RunEntries(measurements, samples);
      && (forall i, j :: 0 <= i < j < |entries| ==> entries[i].0 != entries[j].0)
      && (total <= 0 <==> entries == [])
      && (total >= 1 ==> entries[|entries| - 1].0 == CollisionKey(total))
      && (total >= 1 ==> LastKey(EntryKeys(entries)) == Returned(entries[|entries| - 1].0))
      && (total >= 1 ==> EntryAt(entries, entries[|entries| - 1].0) == entries[|entries| - 1].1)
  {
    var entries := RunEntries(measurements, samples);
    var steps := StepsOf(samples);
    Simulation.SampledStepsSpec(total, pollingFrequency);
    assert |entries| == |steps|;
    if total <= 0 {
      assert steps == [];
    } else {
      RunKeysNonEmpty(measurements, samples, total);
    }
  }

  lemma RunKeysNonEmpty(measurements: seq<string>, samples: seq<Sample>, total: int)
    requires |samples| >= 1 && samples[|samples| - 1].step == total
    requires forall i, j :: 0 <= i < j < |samples| ==> samples[i].step < samples[j].step
    ensures var entries := RunEntries(measurements, samples);
      && (forall i, j :: 0 <= i < j < |entries| ==> entries[i].0 != entries[j].0)
      && entries[|entries| - 1].0 == CollisionKey(total)
      && LastKey(EntryKeys(entries)) == Returned(entries[|entries| - 1].0)
      && EntryAt(entries, entries[|entries| - 1].0) == entries[|entries| - 1].1
  {
    var entries := RunEntries(measurements, samples);
    RunEntryKeys(measurements, samples);
    CollisionKeysOfSteps(EntryKeys(entries), StepsOf(samples));
    EntryAtDistinct(entries, |entries| - 1);
  }

  /** The keys of a run's entries are the collision keys of its steps. */
  lemma RunEntryKeys(measurements: seq<string>, samples: seq<Sample>)
    requires forall i, j :: 0 <= i < j < |samples| ==> samples[i].step < samples[j].step
    ensures var entries := RunEntries(measurements, samples);
      var keys := EntryKeys(entries);
      var steps := StepsOf(samples);
      && |keys| == |steps| == |entries| == |samples|
      && (forall i :: 0 <= i < |entries| ==> entries[i].0 == keys[i] == CollisionKey(steps[i]))
      && (forall i :: 0 <= i < |samples| ==> steps[i] == samples[i].step)
      && (forall i, j :: 0 <= i < j < |steps| ==> steps[i] < steps[j])
  {
  }

  /** Collision keys of strictly ascending steps are distinct, and the last
      of them is the one `LastKey` picks. */
  lemma CollisionKeysOfSteps(keys: seq<string>, steps: seq<int>)
    requires |keys| == |steps|
    requires forall i :: 0 <= i < |keys| ==> keys[i] == CollisionKey(steps[i])
    requires forall i, j :: 0 <= i < j < |steps| ==> steps[i] < steps[j]
    ensures forall i, j :: 0 <= i < j < |keys| ==> keys[i] != keys[j]
    ensures |keys| >= 1 ==> LastKey(keys) == Returned(keys[|keys| - 1])
  {
    forall n ensures LastSegmentNumber(CollisionKey(n)) == Returned(n) {
      CollisionKeyRoundTrip(n);
    }
    KeysOfSteps(keys, steps, CollisionKey, LastSegmentNumber);
  }

  /** Keys written for strictly ascending numbers by a writer that `parse`
      reads back are distinct, and the last of them is the last key of the
      sort. */
  lemma KeysOfSteps(keys: seq<string>, steps: seq<int>, mkKey: int -> string, parse: string -> Outcome<int>)
    requires |keys| == |steps|
    requires forall i :: 0 <= i < |keys| ==> keys[i] == mkKey(steps[i])
    requires forall n :: parse(mkKey(n)) == Returned(n)
    requires forall i, j :: 0 <= i < j < |steps| ==> steps[i] < steps[j]
    ensures forall i, j :: 0 <= i < j < |keys| ==> keys[i] != keys[j]
    ensures |keys| >= 1 ==> LastKeyBy(keys, parse) == Returned(keys[|keys| - 1])
  {
    forall i, j | 0 <= i < j < |keys| ensures keys[i] != keys[j] {
      assert parse(keys[i]) == Returned(steps[i]) && parse(keys[j]) == Returned(steps[j]);
    }
    if |keys| >= 1 {
      forall i | 0 <= i < |keys| ensures parse(keys[i]) == Returned(steps[i]) {
        var n := steps[i];
        assert keys[i] == mkKey(n);
        assert parse(mkKey(n)) == Returned(n);
      }
      LastKeyOfAscending(keys, steps, parse);
    }
  }

  /** When the last key carries the strictly largest number, it is the
      last key of the sort. */
  lemma LastKeyOfAscending(keys: seq<string>, numbers: seq<int>, parse: string -> Outcome<int>)
    requires |keys| == |numbers| >= 1
    requires forall i :: 0 <= i < |keys| ==> parse(keys[i]) == Returned(numbers[i])
    requires forall i :: 0 <= i < |numbers| - 1 ==> numbers[i] < numbers[|numbers| - 1]
    ensures LastKeyBy(keys, parse) == Returned(keys[|keys| - 1])
  {
    var n := |keys| - 1;
    assert AllKeysParse(keys, parse);
    LastKeySpec(keys, parse);
    var r := LastKeyBy(keys, parse).value;
    var i :| 0 <= i < |keys| && keys[i] == r;
    assert keys[n] in keys;
  }

  /** Seeding a new run from this run's output file gives back the state of
      its last sampled step, and seeding from its text file gives back the
      same expressions whenever they carry no surrounding white space. */
  lemma {:induction false} ReloadOutput(config: Config, measurements: seq<string>, samples: seq<Sample>, total: int,
                                        pollingFrequency: int, params: GenParams,
                                        textFiles: map<string, seq<string>>, jsonFiles: map<string, Option<ExperimentDoc>>,
                                        generateN: Simulation.BTreeSettings -> seq<string>)
    requires total >= 1
    requires StepsOf(samples) == Simulation.SampledSteps(total, pollingFrequency)
    requires params.filename.Some? && params.filename.value in jsonFiles
    requires PyText.EndsWith(params.filename.value, ".json")
    requires var entries := RunEntries(measurements, samples);
      jsonFiles[params.filename.value] ==
        Some(ExperimentDoc(Some(config), Some(entries), Some([(CollisionKey(total), entries[|entries| - 1].1)])))
    ensures |samples| >= 1
    ensures LoadInputExpressions("from_file", params, textFiles, jsonFiles, generateN) == Returned(samples[|samples| - 1].state)
  {
    RunKeys(measurements, samples, total, pollingFrequency);
    var entries := RunEntries(measurements, samples);
    assert entries[|entries| - 1] == KeyedEntry(measurements, samples[|samples| - 1]);
  }

  lemma ReloadText(lines: seq<string>, params: GenParams, textFiles: map<string, seq<string>>,
                   jsonFiles: map<string, Option<ExperimentDoc>>, generateN: Simulation.BTreeSettings -> seq<string>)
    requires params.filename.Some? && params.filename.value in textFiles
    requires !PyText.EndsWith(params.filename.value, ".json")
    requires textFiles[params.filename.value] == lines
    requires forall i :: 0 <= i < |lines| ==> lines[i] != [] && PyText.IsStripped(lines[i])
    ensures LoadInputExpressions("from_file", params, textFiles, jsonFiles, generateN) == Returned(lines)
  {
    PyText.StrippedNonBlankOfClean(lines);
  }

  // ------------------------------------------------------------ the last text file

  /** `get_last_txt_file`, given the paths `glob` found for
      `last_state_exprs_*.txt`: the greatest in string order, or "" when
      there is none. */
  function GetLastTxtFile(txts: seq<string>): (r: string)
    ensures txts == [] ==> r == ""
    ensures txts != [] ==> r in txts && forall p :: p in txts ==> !PyText.LexLess(r, p)
  {
    if txts == [] then "" else PyText.LexMax(txts)
  }

  /** String order is not numeric order: run 9's file wins over run 10's. */
  lemma NineBeatsTen()
    ensures GetLastTxtFile(["out/last_state_exprs_10.txt", "out/last_state_exprs_9.txt"]) == "out/last_state_exprs_9.txt"
  {
    var ten := "out/last_state_exprs_10.txt";
    var nine := "out/last_state_exprs_9.txt";
    TenBeforeNine();
    var r := GetLastTxtFile([ten, nine]);
    assert r in [ten, nine];
    assert !PyText.LexLess(r, nine);
  }

  lemma TenBeforeNine()
    ensures PyText.LexLess("out/last_state_exprs_10.txt", "out/last_state_exprs_9.txt")
  {
    var prefix := "out/last_state_exprs_";
    PyText.LexLessCommonPrefix(prefix, "10.txt", "9.txt");
    assert PyText.LexLess("10.txt", "9.txt");
    assert prefix + "10.txt" == "out/last_state_exprs_10.txt";
    assert prefix + "9.txt" == "out/last_state_exprs_9.txt";
  }
}

/**
 * The JSON documents the dashboard reads and writes (an experiment's config,
 * and the `experiment_output_*.json` result files), as typed records.  A key
 * that may be absent is an `Option`; `.get(key, default)` is `GetOr`.  A JSON
 * object is a sequence of (key, value) pairs in insertion order.
 */
module Documents {
  import opened Wrappers
  import PyText

  /** `unique_expressions` of an entry: a list of expressions as the run
      driver writes it, or a bare number as some older files hold. */
  datatype UniqueField = UniqueList(items: seq<string>) | UniqueScalar(value: int)

  /** One sampled step of `collisions_data`: the fields the dashboard
      reads, and `keys`, every key of the entry's object in its order. */
  datatype Entry = Entry(
    state: Option<seq<string>>,
    entropy: Option<Float>,
    unique: Option<UniqueField>,
    lenUnique: Option<int>,
    keys: seq<string>)

  /** `input_expressions.params`. */
  datatype GenParams = GenParams(
    filename: Option<string>,
    absRange: Option<seq<Float>>,
    appRange: Option<seq<Float>>,
    freevarProbability: Option<Float>,
    size: Option<int>,
    maxFreeVars: Option<int>,
    standardization: Option<string>,
    numExpressions: Option<int>,
    maxDepth: Option<int>)

  const NoParams := GenParams(None, None, None, None, None, None, None, None, None)

  datatype InputExpressions = InputExpressions(generator: Option<string>, params: Option<GenParams>)

  /** An experiment config.  `totalCollisons` is the misspelled key
      `"total_collisons"`, which one reader looks up instead of the real one. */
  datatype Config = Config(
    inputExpressions: Option<InputExpressions>,
    totalCollisions: Option<int>,
    totalCollisons: Option<int>,
    pollingFrequency: Option<int>,
    randomSeed: Option<int>,
    name: Option<string>,
    measurements: Option<seq<string>>)

  const EmptyConfig := Config(None, None, None, None, None, None, None)

  /** A JSON object mapping `collision_N` keys to entries. */
  type Entries = seq<(string, Entry)>

  /** A result file: `config`, `collisions_data` and `last_state`. */
  datatype ExperimentDoc = ExperimentDoc(
    config: Option<Config>,
    collisionsData: Option<Entries>,
    lastState: Option<Entries>)

  /** `config.get("input_expressions", {}).get("generator", "unknown")`. */
  function GeneratorOr(c: Config, default: string): string {
    match c.inputExpressions
    case None => default
    case Some(ie) => ie.generator.GetOr(default)
  }

  /** `config.get("input_expressions", {}).get("params", {})`. */
  function ParamsOf(c: Config): GenParams {
    match c.inputExpressions
    case None => NoParams
    case Some(ie) => ie.params.GetOr(NoParams)
  }

  function EntryKeys(e: Entries): seq<string> {
    seq(|e|, i requires 0 <= i < |e| => e[i].0)
  }

  // ------------------------------------------------------------ keys

  /** The key under which step `n` is stored: `f"collision_{n}"`. */
  function CollisionKey(n: int): string {
    "collision_" + PyText.IntToString(n)
  }

  /** `int(key.split("_")[1]) if "_" in key else 0`: the number after the
      first underscore; a segment that is not a number raises ValueError. */
  function FirstSegmentNumber(key: string): (r: Outcome<int>)
    ensures '_' !in key ==> r == Returned(0)
    ensures r.Raised? ==> r.error == ValueError
  {
    if '_' in key then
      match PyText.ParseInt(PyText.Split(key, '_')[1])
      case Some(n) => Returned(n)
      case None => Raised(ValueError)
    else Returned(0)
  }

  /** `int(key.split("_")[-1])`: the number after the last underscore. */
  function LastSegmentNumber(key: string): (r: Outcome<int>) {
    var parts := PyText.Split(key, '_');
    match PyText.ParseInt(parts[|parts| - 1])
    case Some(n) => Returned(n)
    case None => Raised(ValueError)
  }

  lemma {:induction false} IntToStringHasNoUnderscore(n: int)
    ensures '_' !in PyText.IntToString(n)
  {
    if n < 0 {
      assert PyText.IntToString(n) == "-" + PyText.NatToString(-n);
    }
  }

  /** Both key parsers read back the number `CollisionKey` wrote. */
  lemma CollisionKeyRoundTrip(n: int)
    ensures LastSegmentNumber(CollisionKey(n)) == Returned(n)
    ensures FirstSegmentNumber(CollisionKey(n)) == Returned(n)
  {
    var digits := PyText.IntToString(n);
    IntToStringHasNoUnderscore(n);
    assert CollisionKey(n) == "collision" + ['_'] + digits;
    PyText.SplitAfterPrefix("collision", '_', digits);
    assert PyText.Split(CollisionKey(n), '_') == ["collision", digits];
    PyText.ParseIntToString(n);
  }

  /** Distinct steps are stored under distinct keys. */
  lemma CollisionKeysDiffer(m: int, n: int)
    requires m != n
    ensures CollisionKey(m) != CollisionKey(n)
  {
    CollisionKeyRoundTrip(m);
    CollisionKeyRoundTrip(n);
  }

  // ------------------------------------------------------------ lookup and ordering

  /** A key's number as a sort key, once every key has been seen to parse. */
  function ParsedOr(parse: string -> Outcome<int>, key: string): int {
    match parse(key)
    case Returned(n) => n
    case Raised(_) => 0
  }

  function SortKey(parse: string -> Outcome<int>): string -> int {
    (key: string) => ParsedOr(parse, key)
  }

  predicate AllKeysParse(keys: seq<string>, parse: string -> Outcome<int>) {
    forall i :: 0 <= i < |keys| ==> parse(keys[i]).Returned?
  }

  /** `data[key]` for a key the object holds: the entry under its first
      occurrence. */
  function EntryAt(data: Entries, key: string): Entry
    requires key in EntryKeys(data)
  {
    if data[0].0 == key then data[0].1
    else
      assert EntryKeys(data) == [data[0].0] + EntryKeys(data[1..]);
      EntryAt(data[1..], key)
  }

  lemma {:induction false} EntryAtDistinct(data: Entries, i: nat)
    requires i < |data|
    requires forall j, k :: 0 <= j < k < |data| ==> data[j].0 != data[k].0
    ensures data[i].0 in EntryKeys(data)
    ensures EntryAt(data, data[i].0) == data[i].1
  {
    assert EntryKeys(data)[i] == data[i].0;
    if i > 0 {
      assert EntryKeys(data) == [data[0].0] + EntryKeys(data[1..]);
      EntryAtDistinct(data[1..], i - 1);
    }
  }
}

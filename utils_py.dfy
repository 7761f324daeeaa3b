/**
 * The upload helpers of `utils.py`: decoding an uploaded file, and turning
 * a result document into run metadata and one summary row per sampled
 * step.
 */
module UtilsPy {
  import opened Wrappers
  import opened Sorting
  import opened Documents
  import Models
  import DbUtils

  // ------------------------------------------------------------ decoding

  /** `parse_uploaded_json`: base64, then UTF-8, then JSON; the decoders
      are parameters, each None where Python's raises.  Any failure gives
      None instead of an exception. */
  function ParseUploadedJson<J>(content: string, base64: string -> Option<seq<bv8>>,
                                utf8: seq<bv8> -> Option<string>, loads: string -> Option<J>): (r: Option<J>)
    ensures r.Some? <==>
              && base64(content).Some?
              && utf8(base64(content).value).Some?
              && loads(utf8(base64(content).value).value).Some?
    ensures r.Some? ==> r == loads(utf8(base64(content).value).value)
  {
    match base64(content)
    case None => None
    case Some(bytes) =>
      match utf8(bytes)
      case None => None
      case Some(text) => loads(text)
  }

  // ------------------------------------------------------------ extraction

  /** A parsed JSON object: its content, and how many keys it has; the
      object with no key is `{}`, which Python treats as false. */
  datatype JsonObject = JsonObject(doc: ExperimentDoc, size: nat)

  datatype Metadata = Metadata(
    totalCollisions: int,
    pollingFrequency: int,
    generatorType: string,
    generatorParams: GenParams,
    measurements: seq<string>)

  /** One row of `processed_data`. */
  datatype Row = Row(collisionNumber: int, entropy: Float, uniqueExpressionsCount: int, totalExpressions: int)

  datatype Extracted = Extracted(metadata: Metadata, processedData: seq<Row>)

  /** The metadata of a config.  The total is read from the misspelled key
      `total_collisons`, so it is 0 unless that key is present. */
  function MetadataOf(c: Config): Metadata {
    Metadata(c.totalCollisons.GetOr(0), c.pollingFrequency.GetOr(0), GeneratorOr(c, "unknown"), ParamsOf(c),
             c.measurements.GetOr([]))
  }

  /** Without any key the metadata takes its defaults: no collisions, no
      frequency, generator "unknown", no params, no measurements. */
  lemma MetadataDefaults()
    ensures MetadataOf(EmptyConfig) == Metadata(0, 0, "unknown", NoParams, [])
  {
  }

  /** A config spelling `total_collisions` correctly, as the run drivers
      write it, reports a total of 0 whatever its value. */
  lemma TotalReadFromMisspelledKey(c: Config, total: int)
    requires c.totalCollisons.None?
    ensures MetadataOf(c.(totalCollisions := Some(total))).totalCollisions == 0
  {
  }

  /** The row of one entry, or the exception computing it raises. */
  function EntryRow(item: (string, Entry)): Outcome<Row> {
    match DbUtils.EntryRecord(item.0, item.1)
    case Raised(err) => Raised(err)
    case Returned(rec) => Returned(Row(rec.0, rec.1, rec.2, |item.1.state.GetOr([])|))
  }

  /** Applies `f` to every element in order and stops at the first
      exception. */
  function Traverse<A, B>(s: seq<A>, f: A -> Outcome<B>): Outcome<seq<B>> {
    if s == [] then Returned([])
    else
      match f(s[0])
      case Raised(e) => Raised(e)
      case Returned(b) =>
        match Traverse(s[1..], f)
        case Raised(e) => Raised(e)
        case Returned(bs) => Returned([b] + bs)
  }

  /** A traversal succeeds exactly when every element does, and then holds
      each element's result in order; otherwise it raises the exception of
      the first element that fails. */
  lemma {:induction false} TraverseSpec<A, B>(s: seq<A>, f: A -> Outcome<B>)
    ensures Traverse(s, f).Returned? <==> forall i :: 0 <= i < |s| ==> f(s[i]).Returned?
    ensures Traverse(s, f).Returned? ==>
              |Traverse(s, f).value| == |s| && forall i :: 0 <= i < |s| ==> Traverse(s, f).value[i] == f(s[i]).value
    ensures Traverse(s, f).Raised? ==>
              exists i :: 0 <= i < |s| && f(s[i]).Raised? && Traverse(s, f).error == f(s[i]).error
                          && forall j :: 0 <= j < i ==> f(s[j]).Returned?
  {
    if s != [] {
      TraverseSpec(s[1..], f);
      assert forall i :: 1 <= i < |s| ==> s[1..][i - 1] == s[i];
      if f(s[0]).Returned? && Traverse(s[1..], f).Raised? {
        var i :| 0 <= i < |s[1..]| && f(s[1..][i]).Raised? && Traverse(s[1..], f).error == f(s[1..][i]).error
                 && forall j :: 0 <= j < i ==> f(s[1..][j]).Returned?;
        assert f(s[i + 1]).Raised? && forall j :: 0 <= j < i + 1 ==> f(s[j]).Returned?;
      }
    }
  }

  /** The rows of `collisions_data`, one per entry in the object's order. */
  function ProcessedRows(entries: Entries): Outcome<seq<Row>> {
    Traverse(entries, EntryRow)
  }

  /** `extract_data_from_json`: None for a missing or empty document;
      otherwise the metadata and the rows, or the exception an entry
      raises (ValueError for a key whose number does not parse, TypeError
      for a `unique_expressions` without a length). */
  function ExtractDataFromJson(json: Option<JsonObject>): (r: Outcome<Option<Extracted>>)
    ensures r == Returned(None) <==> json.None? || json.value.size == 0
    ensures r.Returned? && r.value.Some? ==> r.value.value.metadata == MetadataOf(json.value.doc.config.GetOr(EmptyConfig))
  {
    if json.None? || json.value.size == 0 then Returned(None)
    else
      var doc := json.value.doc;
      var metadata := MetadataOf(doc.config.GetOr(EmptyConfig));
      match ProcessedRows(doc.collisionsData.GetOr([]))
      case Raised(e) => Raised(e)
      case Returned(rows) => Returned(Some(Extracted(metadata, rows)))
  }

  /** The rows succeed exactly when the database import of the same
      entries gets through all of them; there is then one row per entry,
      at the entry's step, with its entropy (0 when absent), the length of
      its unique list (0 when absent) and the size of its state; otherwise
      the exception is the one the import stops at. */
  lemma ProcessedRowsSpec(entries: Entries)
    ensures ProcessedRows(entries).Returned? <==> DbUtils.FirstFailure(entries) == |entries|
    ensures ProcessedRows(entries).Returned? ==>
              var rows := ProcessedRows(entries).value;
              && |rows| == |entries|
              && forall i :: 0 <= i < |entries| ==>
                   && DbUtils.EntryRecord(entries[i].0, entries[i].1).Returned?
                   && rows[i].collisionNumber == FirstSegmentNumber(entries[i].0).value
                   && rows[i].entropy == entries[i].1.entropy.GetOr(0.0)
                   && rows[i].uniqueExpressionsCount ==
                        (if entries[i].1.unique.Some? then |entries[i].1.unique.value.items| else 0)
                   && rows[i].totalExpressions == |entries[i].1.state.GetOr([])|
    ensures ProcessedRows(entries).Raised? ==>
              var k := DbUtils.FirstFailure(entries);
              k < |entries| && ProcessedRows(entries).error == DbUtils.EntryRecord(entries[k].0, entries[k].1).error
  {
    TraverseSpec(entries, EntryRow);
    var k := DbUtils.FirstFailure(entries);
    if ProcessedRows(entries).Raised? {
      var i :| 0 <= i < |entries| && EntryRow(entries[i]).Raised? && ProcessedRows(entries).error == EntryRow(entries[i]).error
               && forall j :: 0 <= j < i ==> EntryRow(entries[j]).Returned?;
      assert k < |entries| ==> EntryRow(entries[k]).Raised?;
    } else {
      assert k < |entries| ==> EntryRow(entries[k]).Raised?;
    }
  }

  /** What the upload view shows agrees with what the import writes: for
      entries that all import, each metrics row carries the step, entropy
      and unique count of the matching extracted row. */
  lemma ExtractMatchesImport(configId: int, entries: Entries)
    requires ProcessedRows(entries).Returned?
    ensures var rows := ProcessedRows(entries).value;
      DbUtils.ImportedMeasurements(configId, entries) ==
        MapSeq(rows, (r: Row) => Models.Measurement(configId, r.collisionNumber, r.entropy, r.uniqueExpressionsCount))
  {
    ProcessedRowsSpec(entries);
    var rows := ProcessedRows(entries).value;
    var f := (e: (string, Entry)) => DbUtils.EntryMeasurements(configId, e.0, e.1);
    forall i | 0 <= i < |entries|
      ensures |f(entries[i])| == 1
      ensures f(entries[i])[0] ==
                Models.Measurement(configId, rows[i].collisionNumber, rows[i].entropy, rows[i].uniqueExpressionsCount)
    {
      assert DbUtils.EntryRecord(entries[i].0, entries[i].1).Returned?;
      DbUtils.LastMeasurement(configId, entries[i].0, entries[i].1);
    }
    ConcatMapSingletons(entries, f);
  }
}

/**
 * The data side of `plotting.py`: the x / entropy / unique-count series the
 * result plots draw, and the title, colour and legend label of each line
 * of the comparison plot.  The figures themselves are not modelled.
 */
module Plotting {
  import opened Wrappers
  import opened Sorting
  import opened Documents
  import PyText
  import DbUtils
  import SimulationV2

  /** `PLOT_COLORS` of `styles.py`. */
  const PlotColors: seq<string> :=
    ["#3949AB", "#00ACC1", "#FF6E40", "#7CB342", "#8E24AA", "#FFA000", "#D81B60", "#00897B"]

  /** The three series a result plot draws, point by point. */
  datatype Series = Series(x: seq<int>, entropy: seq<Float>, unique: seq<int>)

  // ------------------------------------------------------------ unique counts

  /** `len(entry.get("unique_expressions", []))`: TypeError for a number. */
  function UniqueLen(e: Entry): Outcome<int> {
    match e.unique
    case None => Returned(0)
    case Some(UniqueList(items)) => Returned(|items|)
    case Some(UniqueScalar(_)) => Raised(TypeError)
  }

  /** The unique count `create_bokeh_from_data` shows: the length of a
      `unique_expressions` list, else its number, else
      `len_unique_expressions`, else 0. */
  function PreferredUnique(e: Entry): int {
    match e.unique
    case Some(UniqueList(items)) => |items|
    case Some(UniqueScalar(v)) => v
    case None => e.lenUnique.GetOr(0)
  }

  function PreferredUniqueOutcome(e: Entry): Outcome<int> {
    Returned(PreferredUnique(e))
  }

  /** The two readings agree wherever the stricter one has a value and a
      `unique_expressions` list is present. */
  lemma UniqueReadingsAgree(e: Entry)
    ensures UniqueLen(e).Returned? && e.unique.Some? ==> PreferredUnique(e) == UniqueLen(e).value
    ensures UniqueLen(e).Raised? <==> e.unique.Some? && e.unique.value.UniqueScalar?
    ensures e.unique.None? ==> PreferredUnique(e) == e.lenUnique.GetOr(0) && UniqueLen(e) == Returned(0)
  {
  }

  /** For an entry the file-based driver writes, every reading gives the
      number of distinct expressions whenever either unique measurement was
      asked for. */
  lemma DriverEntryUnique(measurements: seq<string>, s: SimulationV2.Sample)
    ensures "unique_expressions" in measurements || "len_unique_expressions" in measurements ==>
              PreferredUnique(SimulationV2.StepEntry(measurements, s)) == |s.unique|
    ensures "unique_expressions" in measurements ==> UniqueLen(SimulationV2.StepEntry(measurements, s)) == Returned(|s.unique|)
    ensures "unique_expressions" !in measurements && "len_unique_expressions" !in measurements ==>
              PreferredUnique(SimulationV2.StepEntry(measurements, s)) == 0
  {
  }

  // ------------------------------------------------------------ the dict form

  /** `int(k.split("_")[1]) if "_" in k else 0` as a sort key. */
  function KeyOrder(): string -> int {
    SortKey(FirstSegmentNumber)
  }

  /** The keys of a `collisions_data` object in plotting order: ascending
      by number, the object's order among equal numbers. */
  function PlotOrder(data: Entries): (r: seq<string>)
    ensures |r| == |data|
    ensures forall i :: 0 <= i < |r| ==> r[i] in EntryKeys(data)
  {
    var sorted := SortBy(EntryKeys(data), KeyOrder());
    assert forall i :: 0 <= i < |sorted| ==> sorted[i] in multiset(sorted);
    sorted
  }

  /** The plotting loop over a `collisions_data` object, shared by
      `plot_simulation_metrics` and `create_bokeh_from_data`, which differ
      only in how they read the unique count (`uniqueOf`).  ValueError when
      a key's number does not parse; otherwise one point per entry, in
      plotting order, or the first exception `uniqueOf` raises. */
  method DictSeries(data: Entries, uniqueOf: Entry -> Outcome<int>) returns (r: Outcome<Series>)
    ensures !AllKeysParse(EntryKeys(data), FirstSegmentNumber) ==> r == Raised(ValueError)
    ensures AllKeysParse(EntryKeys(data), FirstSegmentNumber) ==>
              var order := PlotOrder(data);
              (r.Returned? <==> forall i :: 0 <= i < |order| ==> uniqueOf(EntryAt(data, order[i])).Returned?)
    ensures AllKeysParse(EntryKeys(data), FirstSegmentNumber) && r.Raised? ==>
              var order := PlotOrder(data);
              exists k :: 0 <= k < |order| && uniqueOf(EntryAt(data, order[k])) == Raised(r.error)
                          && forall j :: 0 <= j < k ==> uniqueOf(EntryAt(data, order[j])).Returned?
    ensures r.Returned? ==>
              var order := PlotOrder(data);
              && |r.value.x| == |r.value.entropy| == |r.value.unique| == |data|
              && forall i :: 0 <= i < |data| ==>
                   && Returned(r.value.x[i]) == FirstSegmentNumber(order[i])
                   && r.value.entropy[i] == EntryAt(data, order[i]).entropy.GetOr(0.0)
                   && r.value.unique[i] == uniqueOf(EntryAt(data, order[i])).value
  {
    var keys := EntryKeys(data);
    if !AllKeysParse(keys, FirstSegmentNumber) {
      return Raised(ValueError);
    }
    var order := PlotOrder(data);
    forall i | 0 <= i < |order|
      ensures FirstSegmentNumber(order[i]).Returned?
    {
      var k :| 0 <= k < |keys| && keys[k] == order[i];
    }
    r := CollectPoints(data, order, uniqueOf);
  }

  /** The loop body of the plotting loop, over keys that all parse: one
      point per key, in order, or the first exception `uniqueOf` raises. */
  method CollectPoints(data: Entries, order: seq<string>, uniqueOf: Entry -> Outcome<int>)
    returns (r: Outcome<Series>)
    requires forall i :: 0 <= i < |order| ==> order[i] in EntryKeys(data)
    requires forall i :: 0 <= i < |order| ==> FirstSegmentNumber(order[i]).Returned?
    ensures r.Returned? <==> forall i :: 0 <= i < |order| ==> uniqueOf(EntryAt(data, order[i])).Returned?
    ensures r.Raised? ==>
              exists k :: 0 <= k < |order| && uniqueOf(EntryAt(data, order[k])) == Raised(r.error)
                          && forall j :: 0 <= j < k ==> uniqueOf(EntryAt(data, order[j])).Returned?
    ensures r.Returned? ==>
              && |r.value.x| == |r.value.entropy| == |r.value.unique| == |order|
              && forall i :: 0 <= i < |order| ==>
                   && Returned(r.value.x[i]) == FirstSegmentNumber(order[i])
                   && r.value.entropy[i] == EntryAt(data, order[i]).entropy.GetOr(0.0)
                   && r.value.unique[i] == uniqueOf(EntryAt(data, order[i])).value
  {
    var x, entropyY, uniqueY := [], [], [];
    for i := 0 to |order|
      invariant |x| == |entropyY| == |uniqueY| == i
      invariant forall j :: 0 <= j < i ==> uniqueOf(EntryAt(data, order[j])).Returned?
      invariant forall j :: 0 <= j < i ==>
                  && Returned(x[j]) == FirstSegmentNumber(order[j])
                  && entropyY[j] == EntryAt(data, order[j]).entropy.GetOr(0.0)
                  && uniqueY[j] == uniqueOf(EntryAt(data, order[j])).value
    {
      var key := order[i];
      var collisionNumber := FirstSegmentNumber(key).value;
      var entry := EntryAt(data, key);
      var unique := uniqueOf(entry);
      if unique.Raised? {
        assert uniqueOf(EntryAt(data, order[i])) == Raised(unique.error);
        return Raised(unique.error);
      }
      x, entropyY, uniqueY := x + [collisionNumber], entropyY + [entry.entropy.GetOr(0.0)], uniqueY + [unique.value];
      assert x[i] == collisionNumber && entropyY[i] == entry.entropy.GetOr(0.0) && uniqueY[i] == unique.value;
    }
    return Returned(Series(x, entropyY, uniqueY));
  }

  /** The x values of the dict form ascend, and are the numbers of the
      keys, each as often as it occurs. */
  lemma DictOrderAscends(data: Entries)
    requires AllKeysParse(EntryKeys(data), FirstSegmentNumber)
    ensures var order := PlotOrder(data);
      && (forall i, j :: 0 <= i < j < |order| ==> KeyOrder()(order[i]) <= KeyOrder()(order[j]))
      && multiset(MapSeq(order, KeyOrder())) == multiset(MapSeq(EntryKeys(data), KeyOrder()))
      && forall i :: 0 <= i < |order| ==> FirstSegmentNumber(order[i]) == Returned(KeyOrder()(order[i]))
  {
    var keys := EntryKeys(data);
    var order := PlotOrder(data);
    MapSeqPermutation(order, keys, KeyOrder());
    forall i | 0 <= i < |order| ensures FirstSegmentNumber(order[i]) == Returned(KeyOrder()(order[i])) {
      var k :| 0 <= k < |keys| && keys[k] == order[i];
    }
  }

  // ------------------------------------------------------------ the list form

  /** One element of `collisions_data` in the list form: a metrics row
      with optional fields. */
  datatype MetricRecord = MetricRecord(collisionNumber: Option<int>, entropy: Option<Float>, uniqueExpressions: Option<int>)

  function RecordNumber(m: MetricRecord): int {
    m.collisionNumber.GetOr(0)
  }

  /** The list-form loop of `plot_simulation_metrics`: the records sorted
      by `collision_number` (0 when absent, stable), with entropy 0 and
      unique count 0 when absent; the unique value is taken as it is. */
  method ListSeries(records: seq<MetricRecord>) returns (r: Series)
    ensures var order := SortBy(records, RecordNumber);
      && |r.x| == |r.entropy| == |r.unique| == |records|
      && (forall i, j :: 0 <= i < j < |r.x| ==> r.x[i] <= r.x[j])
      && multiset(r.x) == multiset(MapSeq(records, RecordNumber))
      && forall i :: 0 <= i < |records| ==>
           && r.x[i] == RecordNumber(order[i])
           && r.entropy[i] == order[i].entropy.GetOr(0.0)
           && r.unique[i] == order[i].uniqueExpressions.GetOr(0)
  {
    var order := SortBy(records, RecordNumber);
    var x, entropyY, uniqueY := [], [], [];
    for i := 0 to |order|
      invariant |x| == |entropyY| == |uniqueY| == i
      invariant forall j :: 0 <= j < i ==>
                  x[j] == RecordNumber(order[j]) && entropyY[j] == order[j].entropy.GetOr(0.0) && uniqueY[j] == order[j].uniqueExpressions.GetOr(0)
    {
      x := x + [order[i].collisionNumber.GetOr(0)];
      entropyY := entropyY + [order[i].entropy.GetOr(0.0)];
      uniqueY := uniqueY + [order[i].uniqueExpressions.GetOr(0)];
    }
    assert x == MapSeq(order, RecordNumber);
    MapSeqPermutation(order, records, RecordNumber);
    return Series(x, entropyY, uniqueY);
  }

  /** `collisions_data` as `plot_simulation_metrics` finds it: an object
      keyed `collision_N`, or a list of metrics rows. */
  datatype CollisionsData = DictForm(entries: Entries) | ListForm(records: seq<MetricRecord>)

  /** `plot_simulation_metrics`, up to drawing: the series of either form;
      a missing `collisions_data` is the empty object. */
  method PlotSimulationMetrics(collisionsData: Option<CollisionsData>) returns (r: Outcome<Series>)
    ensures collisionsData.None? ==> r == Returned(Series([], [], []))
    ensures collisionsData.Some? && collisionsData.value.ListForm? ==> r.Returned?
    ensures r.Returned? ==> |r.value.x| == |r.value.entropy| == |r.value.unique|
    ensures r.Returned? ==> forall i, j :: 0 <= i < j < |r.value.x| ==> r.value.x[i] <= r.value.x[j]
  {
    match collisionsData.GetOr(DictForm([]))
    case DictForm(entries) =>
      r := DictSeries(entries, UniqueLen);
      if r.Returned? {
        DictOrderAscends(entries);
      }
    case ListForm(records) =>
      var s := ListSeries(records);
      r := Returned(s);
  }

  /** `create_bokeh_from_data`, up to drawing: only a key whose number does
      not parse can make it fail; otherwise one point per entry, in the
      ascending order of the key numbers, with the entry's entropy (0 when
      absent) and its preferred unique reading. */
  method CreateBokehFromData(data: ExperimentDoc) returns (r: Outcome<Series>)
    ensures var entries := data.collisionsData.GetOr([]);
      && (r.Raised? <==> !AllKeysParse(EntryKeys(entries), FirstSegmentNumber))
      && (r.Raised? ==> r.error == ValueError)
      && (r.Returned? ==>
            var order := PlotOrder(entries);
            && |r.value.x| == |r.value.entropy| == |r.value.unique| == |entries|
            && (forall i, j :: 0 <= i < j < |entries| ==> r.value.x[i] <= r.value.x[j])
            && forall i :: 0 <= i < |entries| ==>
                 && Returned(r.value.x[i]) == FirstSegmentNumber(order[i])
                 && r.value.entropy[i] == EntryAt(entries, order[i]).entropy.GetOr(0.0)
                 && r.value.unique[i] == PreferredUnique(EntryAt(entries, order[i])))
  {
    var entries := data.collisionsData.GetOr([]);
    r := DictSeries(entries, PreferredUniqueOutcome);
    if r.Returned? {
      DictOrderAscends(entries);
    }
  }

  // ------------------------------------------------------------ metrics rows

  /** The columns `plot_experiment_metrics` draws from. */
  datatype PlotSource = PlotSource(x: seq<int>, entropy: seq<Float>, unique: seq<int>, total: seq<int>)

  /** `create_bokeh_plots_from_metrics`, up to drawing: each
      (collision, entropy, unique) triple becomes a point, in order; the
      frame has no `total_expressions` column, so every total is 0.  With no
      triples the frame has no columns at all and reading its
      `collision_number` column raises KeyError. */
  method CreateBokehPlotsFromMetrics(metrics: seq<(int, Float, int)>) returns (r: Outcome<PlotSource>)
    ensures r.Raised? <==> metrics == []
    ensures r.Raised? ==> r.error == KeyError
    ensures r.Returned? ==>
              var source := r.value;
              && |source.x| == |source.entropy| == |source.unique| == |source.total| == |metrics|
              && forall i :: 0 <= i < |metrics| ==>
                   && source.x[i] == metrics[i].0
                   && source.entropy[i] == metrics[i].1
                   && source.unique[i] == metrics[i].2
                   && source.total[i] == 0
  {
    var data: seq<DbUtils.CollisionRecord> := [];
    for k := 0 to |metrics|
      invariant |data| == k
      invariant forall i :: 0 <= i < k ==> data[i] == DbUtils.CollisionRecord(metrics[i].0, metrics[i].1, metrics[i].2)
    {
      var (collisionNumber, entropy, uniqueExpressions) := metrics[k];
      data := data + [DbUtils.CollisionRecord(collisionNumber, entropy, uniqueExpressions)];
    }
    if data == [] {
      return Raised(KeyError);
    }
    r := Returned(PlotSource(seq(|data|, i requires 0 <= i < |data| => data[i].collisionNumber),
                             seq(|data|, i requires 0 <= i < |data| => data[i].entropy),
                             seq(|data|, i requires 0 <= i < |data| => data[i].uniqueExpressionsCount),
                             seq(|data|, i => 0)));
  }

  // ------------------------------------------------------------ comparison

  /** Title and y-axis label of the comparison plot for a metric. */
  function ComparisonTitles(metricName: string): (r: (string, string))
    ensures metricName == "entropy" ==> r == ("Entropy Comparison", "Entropy")
    ensures metricName == "unique_expressions" ==> r == ("Unique Expressions Comparison", "Count")
    ensures metricName != "entropy" && metricName != "unique_expressions" ==> r == ("Metric Comparison", "Value")
  {
    if metricName == "entropy" then ("Entropy Comparison", "Entropy")
    else if metricName == "unique_expressions" then ("Unique Expressions Comparison", "Count")
    else ("Metric Comparison", "Value")
  }

  /** The colour of the `i`-th compared run: the palette, cycled. */
  function SeriesColor(i: nat): (c: string)
    ensures c in PlotColors
  {
    PlotColors[i % |PlotColors|]
  }

  /** Colours repeat every eight runs, and the first eight runs all differ. */
  lemma SeriesColorCycle(i: nat, j: nat)
    ensures SeriesColor(i + 8) == SeriesColor(i)
    ensures i < j < 8 ==> SeriesColor(i) != SeriesColor(j)
  {
    assert (i + 8) % 8 == i % 8;
    if i < j < 8 {
      ColorMark(i);
      ColorMark(j);
    }
  }

  /** The fourth and fifth characters of a colour, which tell the eight apart. */
  function Mark(c: string): int {
    if |c| < 5 then -1
    else
      var a, b := c[3], c[4];
      if a == '4' && b == '9' then 0 else if a == 'A' && b == 'C' then 1
      else if a == '6' && b == 'E' then 2 else if a == 'B' && b == '3' then 3
      else if a == '2' && b == '4' then 4 else if a == 'A' && b == '0' then 5
      else if a == '1' && b == 'B' then 6 else if a == '8' && b == '9' then 7
      else -1
  }

  lemma ColorMark(k: nat)
    requires k < 8
    ensures Mark(PlotColors[k]) == k
  {
    if k == 0 { assert PlotColors[0] == "#3949AB"; }
    else if k == 1 { assert PlotColors[1] == "#00ACC1"; }
    else if k == 2 { assert PlotColors[2] == "#FF6E40"; }
    else if k == 3 { assert PlotColors[3] == "#7CB342"; }
    else if k == 4 { assert PlotColors[4] == "#8E24AA"; }
    else if k == 5 { assert PlotColors[5] == "#FFA000"; }
    else if k == 6 { assert PlotColors[6] == "#D81B60"; }
    else { assert PlotColors[7] == "#00897B"; }
  }

  /** `f"{generator_type} (ID: {config_id}, Seed: {random_seed})"`. */
  function LegendLabel(generatorType: string, configId: int, randomSeed: int): string {
    generatorType + " (ID: " + PyText.IntToString(configId) + ", Seed: " + PyText.IntToString(randomSeed) + ")"
  }

  /** One drawn line of the comparison plot. */
  datatype Line = Line(legend: string, color: string, x: seq<int>, y: seq<DbUtils.Cell>)

  /** The lines of `plot_comparison_metrics`, one per run in the mapping's
      order, from the run's series. */
  function ComparisonLines(metricData: seq<(int, DbUtils.MetricSeries)>): (r: seq<Line>)
    ensures |r| == |metricData|
    ensures forall i :: 0 <= i < |r| ==>
              var (id, run) := metricData[i];
              && r[i].color == PlotColors[i % 8]
              && r[i].legend == LegendLabel(run.generatorType, id, run.randomSeed)
              && |r[i].x| == |r[i].y| == |run.data|
              && forall k :: 0 <= k < |run.data| ==> r[i].x[k] == run.data[k].0 && r[i].y[k] == run.data[k].1
  {
    seq(|metricData|, i requires 0 <= i < |metricData| =>
      var (id, run) := metricData[i];
      Line(LegendLabel(run.generatorType, id, run.randomSeed), SeriesColor(i),
           MapSeq(run.data, (p: (int, DbUtils.Cell)) => p.0), MapSeq(run.data, (p: (int, DbUtils.Cell)) => p.1)))
  }
}

/**
 The exporter of the unified GPU list: one sample for every reading of every GPU, and a filter that
 drops a sample whose labels were already sent.
 */
module GpuExporter {
  import opened Results
  import opened GpuMerge
  import opened Texts

  datatype Series =
    | MemoryTotal | MemoryUsed | MemoryFree | GpuUtilization | MemoryUtilization | Temperature | PowerDraw
    | HealthStatus | AvailableStatus

  const ALL_SERIES := [MemoryTotal, MemoryUsed, MemoryFree, GpuUtilization, MemoryUtilization, Temperature, PowerDraw, HealthStatus, AvailableStatus]

  datatype Sample = Sample(series: Series, value: real, vendor: Text, uuid: Text, index: int, name: Text)

  function ValueOf(g: Resource, series: Series): Option<real> {
    match series
    case MemoryTotal => Some(g.memoryTotal as real)
    case MemoryUsed => Some(g.memoryUsed as real)
    case MemoryFree => Some(g.memoryFree as real)
    case GpuUtilization => g.readings.gpuUtilization
    case MemoryUtilization => g.readings.memoryUtilization
    case Temperature => g.readings.temperature
    case PowerDraw => g.readings.powerDraw
    case HealthStatus => Some(if g.health == Text("healthy") then 1.0 else 0.0)
    case AvailableStatus => Some(if g.status == AVAILABLE then 1.0 else 0.0)
  }

  function SampleOf(g: Resource, series: Series): seq<Sample> {
    match ValueOf(g, series)
    case None => []
    case Some(v) => [Sample(series, v, g.vendor, g.uuid, g.index, g.name)]
  }

  function SamplesIn(g: Resource, order: seq<Series>): seq<Sample> {
    if order == [] then [] else SamplesIn(g, order[..|order| - 1]) + SampleOf(g, order[|order| - 1])
  }

  function AllSamples(rs: seq<Resource>): seq<Sample> {
    if rs == [] then [] else AllSamples(rs[..|rs| - 1]) + SamplesIn(rs[|rs| - 1], ALL_SERIES)
  }

  const NUL: char := '\0'

  /** The filter's key: the labels joined with NUL; `tail` holds the labels of the node, the same for all. */
  function SampleKey(x: Sample, describe: Series -> string, tail: string): Text {
    Text(describe(x.series) + ([NUL] + (x.vendor.chars + ([NUL] + (x.uuid.chars + ([NUL] + (Itoa(x.index) + ([NUL] + tail))))))))
  }

  function SampleKeys(xs: seq<Sample>, describe: Series -> string, tail: string): seq<Text> {
    seq(|xs|, i requires 0 <= i < |xs| => SampleKey(xs[i], describe, tail))
  }

  /** The sample of a GPU tells this value: bytes as they are, readings where there are any, states as one or zero. */
  ghost predicate Tells(g: Resource, series: Series, v: real) {
    match series
    case MemoryTotal => v == g.memoryTotal as real
    case MemoryUsed => v == g.memoryUsed as real
    case MemoryFree => v == g.memoryFree as real
    case GpuUtilization => g.readings.gpuUtilization == Some(v)
    case MemoryUtilization => g.readings.memoryUtilization == Some(v)
    case Temperature => g.readings.temperature == Some(v)
    case PowerDraw => g.readings.powerDraw == Some(v)
    case HealthStatus => v == if g.health.chars == "healthy" then 1.0 else 0.0
    case AvailableStatus => v == if g.status.chars == "available" then 1.0 else 0.0
  }

  ghost predicate IsSampleOf(x: Sample, g: Resource) {
    x.vendor == g.vendor && x.uuid == g.uuid && x.index == g.index && x.name == g.name && Tells(g, x.series, x.value)
  }

  lemma OneSeries(g: Resource, series: Series, x: Sample)
    ensures x in SampleOf(g, series) <==> x.series == series && IsSampleOf(x, g)
  {
    assert (g.health == Text("healthy") <==> g.health.chars == "healthy") && (g.status == AVAILABLE <==> g.status.chars == "available");
    assert x in SampleOf(g, series) <==> ValueOf(g, series).Some? && x == Sample(series, ValueOf(g, series).value, g.vendor, g.uuid, g.index, g.name);
  }

  lemma {:induction false} SamplesInAre(g: Resource, order: seq<Series>, x: Sample)
    ensures x in SamplesIn(g, order) <==> x.series in order && IsSampleOf(x, g)
  {
    if order != [] {
      var n := |order| - 1;
      SamplesInAre(g, order[..n], x);
      OneSeries(g, order[n], x);
      assert order == order[..n] + [order[n]];
    }
  }

  lemma EverySeries(x: Series)
    ensures x in ALL_SERIES
  {
    assert ALL_SERIES[0] == MemoryTotal && ALL_SERIES[1] == MemoryUsed && ALL_SERIES[2] == MemoryFree && ALL_SERIES[3] == GpuUtilization
      && ALL_SERIES[4] == MemoryUtilization && ALL_SERIES[5] == Temperature && ALL_SERIES[6] == PowerDraw && ALL_SERIES[7] == HealthStatus
      && ALL_SERIES[8] == AvailableStatus;
  }

  lemma SamplesOfGpu(g: Resource, x: Sample)
    ensures x in SamplesIn(g, ALL_SERIES) <==> IsSampleOf(x, g)
  {
    SamplesInAre(g, ALL_SERIES, x);
    EverySeries(x.series);
  }

  ghost predicate IsSampleOfOne(x: Sample, rs: seq<Resource>) {
    exists g :: g in rs && IsSampleOf(x, g)
  }

  /** The samples offered are those of the readings of every GPU. */
  lemma {:induction false} SamplesAre(rs: seq<Resource>, x: Sample)
    ensures x in AllSamples(rs) <==> IsSampleOfOne(x, rs)
  {
    if rs != [] {
      var n := |rs| - 1;
      assert rs == rs[..n] + [rs[n]];
      SamplesAre(rs[..n], x);
      SamplesOfGpu(rs[n], x);
    }
  }

  /** What the filter lets through. */
  function Sent(xs: seq<Sample>, describe: Series -> string, tail: string): seq<Sample> {
    if xs == [] then []
    else
      var n := |xs| - 1;
      var before := Sent(xs[..n], describe, tail);
      if SampleKey(xs[n], describe, tail) in SampleKeys(xs[..n], describe, tail) then before else before + [xs[n]]
  }

  lemma SampleKeysNext(xs: seq<Sample>, describe: Series -> string, tail: string)
    requires xs != []
    ensures var n := |xs| - 1;
      SampleKeys(xs, describe, tail) == SampleKeys(xs[..n], describe, tail) + [SampleKey(xs[n], describe, tail)]
  {
  }

  lemma {:induction false} SentAtMost(xs: seq<Sample>, describe: Series -> string, tail: string)
    ensures |Sent(xs, describe, tail)| <= |xs|
  {
    if xs != [] {
      SentAtMost(xs[..|xs| - 1], describe, tail);
    }
  }

  lemma {:induction false} DistinctAreSent(xs: seq<Sample>, describe: Series -> string, tail: string)
    requires Distinct(SampleKeys(xs, describe, tail))
    ensures Sent(xs, describe, tail) == xs
  {
    if xs != [] {
      var n := |xs| - 1;
      SampleKeysNext(xs, describe, tail);
      DistinctNext(SampleKeys(xs[..n], describe, tail), SampleKey(xs[n], describe, tail));
      DistinctAreSent(xs[..n], describe, tail);
      assert xs == xs[..n] + [xs[n]];
    }
  }

  lemma {:induction false} RepeatsAreDropped(xs: seq<Sample>, describe: Series -> string, tail: string)
    requires !Distinct(SampleKeys(xs, describe, tail))
    ensures |Sent(xs, describe, tail)| < |xs|
  {
    var n := |xs| - 1;
    var keys, key := SampleKeys(xs[..n], describe, tail), SampleKey(xs[n], describe, tail);
    SampleKeysNext(xs, describe, tail);
    DistinctNext(keys, key);
    if key in keys {
      SentAtMost(xs[..n], describe, tail);
    } else {
      RepeatsAreDropped(xs[..n], describe, tail);
    }
  }

  /** The filter suppresses nothing exactly when no two keys are equal; otherwise fewer samples are sent. */
  lemma NothingSuppressedIff(xs: seq<Sample>, describe: Series -> string, tail: string)
    ensures Sent(xs, describe, tail) == xs <==> Distinct(SampleKeys(xs, describe, tail))
    ensures |Sent(xs, describe, tail)| == |xs| <==> Distinct(SampleKeys(xs, describe, tail))
  {
    if Distinct(SampleKeys(xs, describe, tail)) {
      DistinctAreSent(xs, describe, tail);
    } else {
      RepeatsAreDropped(xs, describe, tail);
    }
  }

  lemma DistinctNext(keys: seq<Text>, key: Text)
    ensures Distinct(keys + [key]) <==> Distinct(keys) && key !in keys
  {
    var longer := keys + [key];
    assert longer[|keys|] == key && forall j | 0 <= j < |keys| :: longer[j] == keys[j];
    if Distinct(longer) {
      forall j, k | 0 <= j < k < |keys|
        ensures keys[j] != keys[k]
      {
        assert longer[j] != longer[k];
      }
      forall j | 0 <= j < |keys|
        ensures keys[j] != key
      {
        assert longer[j] != longer[|keys|];
      }
    }
    if Distinct(keys) && key !in keys {
      forall j, k | 0 <= j < k < |longer|
        ensures longer[j] != longer[k]
      {
        assert longer[j] == keys[j] && keys[j] in keys;
      }
    }
  }

  /** Names of series are different and hold no NUL. */
  ghost predicate Describes(describe: Series -> string) {
    (forall x :: NUL !in describe(x)) && forall x, y :: describe(x) == describe(y) ==> x == y
  }

  ghost predicate NulFree(r: Resource) {
    NUL !in r.vendor.chars && NUL !in r.uuid.chars
  }

  ghost predicate SampleNulFree(x: Sample) {
    NUL !in x.vendor.chars && NUL !in x.uuid.chars
  }

  /** Equal filter keys name the same series of the same GPU key. */
  lemma SampleKeyNames(x: Sample, y: Sample, describe: Series -> string, tail: string)
    requires Describes(describe) && SampleNulFree(x) && SampleNulFree(y)
    requires SampleKey(x, describe, tail) == SampleKey(y, describe, tail)
    ensures x.series == y.series && Key(x.vendor, x.index, x.uuid) == Key(y.vendor, y.index, y.uuid)
  {
    var x3, y3 := Itoa(x.index) + ([NUL] + tail), Itoa(y.index) + ([NUL] + tail);
    var x2, y2 := x.uuid.chars + ([NUL] + x3), y.uuid.chars + ([NUL] + y3);
    var x1, y1 := x.vendor.chars + ([NUL] + x2), y.vendor.chars + ([NUL] + y2);
    SplitAt(describe(x.series), x1, describe(y.series), y1, NUL);
    SplitAt(x.vendor.chars, x2, y.vendor.chars, y2, NUL);
    SplitAt(x.uuid.chars, x3, y.uuid.chars, y3, NUL);
    SplitAt(Itoa(x.index), tail, Itoa(y.index), tail, NUL);
  }

  /** Filter keys are equal exactly for one series of one vendor, UUID and printed index. */
  lemma SampleKeysEqualIff(x: Sample, y: Sample, describe: Series -> string, tail: string)
    requires Describes(describe) && SampleNulFree(x) && SampleNulFree(y)
    ensures SampleKey(x, describe, tail) == SampleKey(y, describe, tail) <==>
            x.series == y.series && x.vendor == y.vendor && x.uuid == y.uuid && (x.index == y.index || (x.index < 0 && y.index < 0))
  {
    var x3, y3 := Itoa(x.index) + ([NUL] + tail), Itoa(y.index) + ([NUL] + tail);
    var x2, y2 := x.uuid.chars + ([NUL] + x3), y.uuid.chars + ([NUL] + y3);
    var x1, y1 := x.vendor.chars + ([NUL] + x2), y.vendor.chars + ([NUL] + y2);
    SplitAt(describe(x.series), x1, describe(y.series), y1, NUL);
    SplitAt(x.vendor.chars, x2, y.vendor.chars, y2, NUL);
    SplitAt(x.uuid.chars, x3, y.uuid.chars, y3, NUL);
    SplitAt(Itoa(x.index), tail, Itoa(y.index), tail, NUL);
    ItoaInjective(x.index, y.index);
  }

  ghost predicate DistinctSamples(xs: seq<Sample>) {
    forall j, k | 0 <= j < k < |xs| ::
      xs[j].series != xs[k].series || Key(xs[j].vendor, xs[j].index, xs[j].uuid) != Key(xs[k].vendor, xs[k].index, xs[k].uuid)
  }

  lemma {:induction false} SamplesInOrder(g: Resource, order: seq<Series>)
    requires forall j, k | 0 <= j < k < |order| :: order[j] != order[k]
    ensures var xs := SamplesIn(g, order);
      && (forall x | x in xs :: x.series in order && x.vendor == g.vendor && x.index == g.index && x.uuid == g.uuid)
      && forall j, k | 0 <= j < k < |xs| :: xs[j].series != xs[k].series
  {
    if order != [] {
      var n := |order| - 1;
      SamplesInOrder(g, order[..n]);
      var before, last := SamplesIn(g, order[..n]), SampleOf(g, order[n]);
      assert forall x | x in before :: x.series in order[..n] && x.series != order[n];
      assert forall j | 0 <= j < |before| :: before[j] in before;
    }
  }

  lemma SeriesAreDistinct()
    ensures forall j, k | 0 <= j < k < |ALL_SERIES| :: ALL_SERIES[j] != ALL_SERIES[k]
  {
  }

  /** GPUs with different keys give samples of which no two agree on series and key. */
  lemma {:induction false} SamplesAreDistinct(rs: seq<Resource>)
    requires Distinct(ResourceKeys(rs)) && forall r | r in rs :: NulFree(r)
    ensures DistinctSamples(AllSamples(rs))
    ensures forall x | x in AllSamples(rs) :: SampleNulFree(x) && Key(x.vendor, x.index, x.uuid) in ResourceKeys(rs)
  {
    if rs != [] {
      var n := |rs| - 1;
      var init, g := rs[..n], rs[n];
      assert rs == init + [g];
      assert ResourceKeys(rs) == ResourceKeys(init) + [ResourceKey(g)];
      DistinctNext(ResourceKeys(init), ResourceKey(g));
      SamplesAreDistinct(init);
      SeriesAreDistinct();
      SamplesInOrder(g, ALL_SERIES);
      JoinDistinct(AllSamples(init), SamplesIn(g, ALL_SERIES), ResourceKeys(init), ResourceKey(g));
      assert g in rs && ResourceKeys(rs)[n] == ResourceKey(g);
    }
  }

  lemma JoinDistinct(xs: seq<Sample>, ys: seq<Sample>, keys: seq<Text>, key: Text)
    requires DistinctSamples(xs) && key !in keys
    requires forall x | x in xs :: Key(x.vendor, x.index, x.uuid) in keys
    requires forall y | y in ys :: Key(y.vendor, y.index, y.uuid) == key
    requires forall j, k | 0 <= j < k < |ys| :: ys[j].series != ys[k].series
    ensures DistinctSamples(xs + ys)
  {
    assert forall j | 0 <= j < |xs| :: xs[j] in xs;
    assert forall j | 0 <= j < |ys| :: ys[j] in ys;
  }

  /** Over a merged list whose vendors and UUIDs hold no NUL, the filter suppresses nothing. */
  lemma ExportIsComplete(ds: seq<Device>, ms: seq<Metric>, describe: Series -> string, tail: string)
    requires Describes(describe) && forall r | r in Normalized(ds, ms) :: NulFree(r)
    ensures Sent(AllSamples(Normalized(ds, ms)), describe, tail) == AllSamples(Normalized(ds, ms))
  {
    var xs := AllSamples(Normalized(ds, ms));
    NormalizedKeys(ds, ms);
    SamplesAreDistinct(Normalized(ds, ms));
    NothingSuppressedIff(xs, describe, tail);
    forall j, k | 0 <= j < k < |xs|
      ensures SampleKeys(xs, describe, tail)[j] != SampleKeys(xs, describe, tail)[k]
    {
      if SampleKey(xs[j], describe, tail) == SampleKey(xs[k], describe, tail) {
        assert xs[j] in xs && xs[k] in xs;
        SampleKeyNames(xs[j], xs[k], describe, tail);
      }
    }
  }

  // ------------------------------------------------------------------------------------------
  // The collector
  // ------------------------------------------------------------------------------------------

  lemma SentNext(xs: seq<Sample>, x: Sample, describe: Series -> string, tail: string)
    ensures Sent(xs + [x], describe, tail)
            == Sent(xs, describe, tail) + if SampleKey(x, describe, tail) in SampleKeys(xs, describe, tail) then [] else [x]
    ensures SampleKeys(xs + [x], describe, tail) == SampleKeys(xs, describe, tail) + [SampleKey(x, describe, tail)]
  {
    assert (xs + [x])[..|xs|] == xs;
  }

  class GpuCollector {
    const describe: Series -> string
    const tail: string
    var emitted: set<Text>
    var sent: seq<Sample>
    ghost var offered: seq<Sample>

    ghost predicate Valid()
      reads this
    {
      emitted == Keys(SampleKeys(offered, describe, tail)) && sent == Sent(offered, describe, tail)
    }

    constructor (describe: Series -> string, tail: string)
      ensures Valid() && offered == [] && this.describe == describe && this.tail == tail
    {
      this.describe, this.tail := describe, tail;
      emitted, sent, offered := {}, [], [];
    }

    /** The first `k` series of the GPU have been offered after `before`. */
    ghost predicate Reached(before: seq<Sample>, g: Resource, k: nat)
      requires k <= 9
      reads this
    {
      Valid() && offered == before + SamplesIn(g, ALL_SERIES[..k])
    }

    /** Sends the k-th series of the GPU, if it has a value, unless a sample with its key was sent. */
    method Emit(ghost before: seq<Sample>, ghost k: nat, series: Series, value: Option<real>, g: Resource)
      requires k < 9 && ALL_SERIES[k] == series && Reached(before, g, k) && value == ValueOf(g, series)
      modifies this
      ensures Reached(before, g, k + 1)
    {
      SamplesNext(g, k, before);
      if value.Some? {
        var x := Sample(series, value.value, g.vendor, g.uuid, g.index, g.name);
        var key := SampleKey(x, describe, tail);
        SentNext(offered, x, describe, tail);
        offered := offered + [x];
        if key in emitted {
          return;
        }
        emitted := emitted + {key};
        sent := sent + [x];
      }
    }

    method EmitMemory(ghost before: seq<Sample>, g: Resource)
      requires Reached(before, g, 0)
      modifies this
      ensures Reached(before, g, 3)
    {
      Emit(before, 0, MemoryTotal, Some(g.memoryTotal as real), g);
      Emit(before, 1, MemoryUsed, Some(g.memoryUsed as real), g);
      Emit(before, 2, MemoryFree, Some(g.memoryFree as real), g);
    }

    method EmitUtilization(ghost before: seq<Sample>, g: Resource)
      requires Reached(before, g, 3)
      modifies this
      ensures Reached(before, g, 5)
    {
      Emit(before, 3, GpuUtilization, g.readings.gpuUtilization, g);
      Emit(before, 4, MemoryUtilization, g.readings.memoryUtilization, g);
    }

    method EmitReadings(ghost before: seq<Sample>, g: Resource)
      requires Reached(before, g, 5)
      modifies this
      ensures Reached(before, g, 7)
    {
      Emit(before, 5, Temperature, g.readings.temperature, g);
      Emit(before, 6, PowerDraw, g.readings.powerDraw, g);
    }

    method EmitStates(ghost before: seq<Sample>, g: Resource)
      requires Reached(before, g, 7)
      modifies this
      ensures Reached(before, g, 9)
    {
      var healthVal := 0.0;
      if g.health == Text("healthy") {
        healthVal := 1.0;
      }
      Emit(before, 7, HealthStatus, Some(healthVal), g);
      var availVal := 0.0;
      if g.status == AVAILABLE {
        availVal := 1.0;
      }
      Emit(before, 8, AvailableStatus, Some(availVal), g);
    }

    method EmitGpu(g: Resource)
      requires Valid()
      modifies this
      ensures Valid() && offered == old(offered) + SamplesIn(g, ALL_SERIES)
    {
      ghost var before := offered;
      assert before + SamplesIn(g, ALL_SERIES[..0]) == before;
      EmitMemory(before, g);
      EmitUtilization(before, g);
      EmitReadings(before, g);
      EmitStates(before, g);
      assert ALL_SERIES[..9] == ALL_SERIES;
    }

    method Collect(rs: seq<Resource>)
      requires Valid() && offered == []
      modifies this
      ensures Valid() && sent == Sent(AllSamples(rs), describe, tail)
    {
      for i := 0 to |rs|
        invariant Valid() && offered == AllSamples(rs[..i])
      {
        assert rs[..i + 1][..i] == rs[..i];
        EmitGpu(rs[i]);
      }
      assert rs[..|rs|] == rs;
    }
  }

  lemma SamplesNext(g: Resource, k: nat, before: seq<Sample>)
    requires k < 9
    ensures before + SamplesIn(g, ALL_SERIES[..k + 1]) == before + SamplesIn(g, ALL_SERIES[..k]) + SampleOf(g, ALL_SERIES[k])
  {
    assert ALL_SERIES[..k + 1][..k] == ALL_SERIES[..k];
  }
}

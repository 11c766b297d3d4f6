/**
 The registry of collectors: it reports the merged list of every cycle, and keeps the last non-empty
 device and metric lists for the cycles in which the collectors return nothing.
 */
module GpuRegistry {
  import opened Results
  import opened GpuMerge
  import opened Texts

  /** What one vendor collector returned in a cycle. */
  datatype Outcome = Outcome(available: bool, devices: seq<Device>, metrics: seq<Metric>)

  function DevicesOf(os: seq<Outcome>): seq<Device> {
    if os == [] then []
    else DevicesOf(os[..|os| - 1]) + if os[|os| - 1].available then os[|os| - 1].devices else []
  }

  function MetricsOf(os: seq<Outcome>): seq<Metric> {
    if os == [] then []
    else MetricsOf(os[..|os| - 1]) + if os[|os| - 1].available then os[|os| - 1].metrics else []
  }

  /** The name of the last device with the UUID. */
  function NameOf(ds: seq<Device>, uuid: Text): Option<Text> {
    if ds == [] then None
    else if ds[|ds| - 1].uuid == uuid then Some(ds[|ds| - 1].name) else NameOf(ds[..|ds| - 1], uuid)
  }

  function PairMetric(ds: seq<Device>, m: Metric): Metric {
    m.(name := NameOf(ds, m.uuid).GetOr(m.name))
  }

  /** Metrics take the name of the device with their UUID. */
  function Paired(ds: seq<Device>, ms: seq<Metric>): seq<Metric> {
    seq(|ms|, i requires 0 <= i < |ms| => PairMetric(ds, ms[i]))
  }

  /** The lists of a cycle are those of the collectors that are available, one after the other. */
  lemma {:induction false} ListsAreJoined(os: seq<Outcome>, o: Outcome)
    ensures DevicesOf(os + [o]) == if o.available then DevicesOf(os) + o.devices else DevicesOf(os)
    ensures MetricsOf(os + [o]) == if o.available then MetricsOf(os) + o.metrics else MetricsOf(os)
    ensures DevicesOf([]) == [] && MetricsOf([]) == []
  {
    assert (os + [o])[..|os|] == os;
  }

  /** The name is that of the last device with the UUID, or none has it. */
  ghost predicate NamedLast(ds: seq<Device>, uuid: Text, name: Option<Text>) {
    match name
    case None => forall i | 0 <= i < |ds| :: ds[i].uuid != uuid
    case Some(n) => exists i :: LastAt(ds, uuid, i) && ds[i].name == n
  }

  ghost predicate LastAt(ds: seq<Device>, uuid: Text, i: int) {
    0 <= i < |ds| && ds[i].uuid == uuid && forall j | i < j < |ds| :: ds[j].uuid != uuid
  }

  lemma {:induction false} NameIsLast(ds: seq<Device>, uuid: Text)
    ensures NamedLast(ds, uuid, NameOf(ds, uuid))
  {
    if ds != [] {
      var n := |ds| - 1;
      var before := ds[..n];
      if ds[n].uuid == uuid {
        assert LastAt(ds, uuid, n);
      } else {
        NameIsLast(before, uuid);
        if i :| LastAt(before, uuid, i) && NameOf(before, uuid) == Some(before[i].name) {
          assert LastAt(ds, uuid, i);
        }
      }
    }
  }

  datatype Memory = Memory(devices: seq<Device>, metrics: seq<Metric>, resources: seq<Resource>)

  datatype Report = Report(devices: seq<Device>, metrics: seq<Metric>, resources: seq<Resource>)

  /** The lists a cycle works with: new ones, or the last non-empty ones. */
  function Kept<T>(current: seq<T>, last: seq<T>): seq<T> {
    if current != [] then current else last
  }

  function Remembered(mem: Memory, ds: seq<Device>, ms: seq<Metric>): Memory {
    var kd, km := Kept(ds, mem.devices), Kept(ms, mem.metrics);
    Memory(kd, Paired(kd, km), Kept(Normalized(kd, km), mem.resources))
  }

  function Reported(mem: Memory, ds: seq<Device>, ms: seq<Metric>): seq<Resource> {
    Kept(Normalized(Kept(ds, mem.devices), Kept(ms, mem.metrics)), mem.resources)
  }

  const Nothing := Memory([], [], [])

  // ------------------------------------------------------------------------------------------
  // Retention
  // ------------------------------------------------------------------------------------------

  lemma NormalizedIsEmptyIff(ds: seq<Device>, ms: seq<Metric>)
    ensures Normalized(ds, ms) == [] <==> ds == [] && ms == []
  {
    NormalizedKeys(ds, ms);
    var keys := ResourceKeys(Normalized(ds, ms));
    if ds != [] {
      assert DeviceKeys(ds)[0] in keys;
    } else if ms != [] {
      assert MetricKeys(ms)[0] in keys;
    }
  }

  /** Resources are remembered only with the lists they were merged from. */
  ghost predicate Consistent(mem: Memory) {
    mem.resources != [] ==> mem.devices != [] || mem.metrics != []
  }

  /** The branch that reports the remembered resources is never needed: every report is a merge of the lists kept. */
  lemma ReportIsMerged(mem: Memory, ds: seq<Device>, ms: seq<Metric>)
    requires Consistent(mem)
    ensures Reported(mem, ds, ms) == Normalized(Kept(ds, mem.devices), Kept(ms, mem.metrics))
    ensures Consistent(Remembered(mem, ds, ms))
  {
    NormalizedIsEmptyIff(Kept(ds, mem.devices), Kept(ms, mem.metrics));
  }

  ghost predicate SameButNames(rs: seq<Resource>, qs: seq<Resource>) {
    |rs| == |qs| && forall i | 0 <= i < |rs| :: rs[i] == qs[i].(name := rs[i].name)
  }

  lemma PairingKeepsKeys(ds: seq<Device>, ms: seq<Metric>)
    ensures MetricKeys(Paired(ds, ms)) == MetricKeys(ms)
  {
  }

  /** Pairing changes names and nothing else in the merged list. */
  lemma PairingChangesNames(ds: seq<Device>, ms: seq<Metric>, other: seq<Device>)
    ensures SameButNames(Normalized(ds, Paired(other, ms)), Normalized(ds, ms))
  {
    PairingKeepsKeys(other, ms);
    var firsts := Firsts(DeviceKeys(ds), {});
    forall k | 0 <= k < |firsts|
      ensures MergedDevices(ds, Paired(other, ms))[k] == MergedDevices(ds, ms)[k].(name := MergedDevices(ds, Paired(other, ms))[k].name)
    {
      var key := DeviceKey(ds[firsts[k]]);
      assert LastMetric(Paired(other, ms), key) == match LastMetric(ms, key)
        case None => None
        case Some(m) => Some(PairMetric(other, m));
    }
  }

  lemma PairingTwice(ds: seq<Device>, ms: seq<Metric>)
    ensures Paired(ds, Paired(ds, ms)) == Paired(ds, ms)
  {
  }

  function AfterEmpty(mem: Memory, n: nat): Memory {
    if n == 0 then mem else Remembered(AfterEmpty(mem, n - 1), [], [])
  }

  /** The metrics already carry the names of the devices. */
  ghost predicate Settled(mem: Memory) {
    Consistent(mem) && Paired(mem.devices, mem.metrics) == mem.metrics
  }

  lemma CycleSettles(mem: Memory, ds: seq<Device>, ms: seq<Metric>)
    requires Consistent(mem)
    ensures Settled(Remembered(mem, ds, ms))
  {
    ReportIsMerged(mem, ds, ms);
    PairingTwice(Kept(ds, mem.devices), Kept(ms, mem.metrics));
  }

  ghost predicate Keeps(mem: Memory, kept: Memory) {
    Settled(kept) && kept.devices == mem.devices && kept.metrics == mem.metrics
  }

  lemma EmptyCycleKeeps(mem: Memory, kept: Memory, next: Memory)
    requires Keeps(mem, kept) && next == Remembered(kept, [], [])
    ensures Keeps(mem, next)
  {
    ReportIsMerged(kept, [], []);
  }

  lemma KeepsItself(mem: Memory)
    requires Settled(mem)
    ensures Keeps(mem, AfterEmpty(mem, 0))
  {
    assert AfterEmpty(mem, 0) == mem;
  }

  lemma {:induction false} EmptyCyclesKeep(mem: Memory, n: nat)
    requires Settled(mem)
    ensures Keeps(mem, AfterEmpty(mem, n))
  {
    if n == 0 {
      KeepsItself(mem);
    } else {
      EmptyCyclesKeep(mem, n - 1);
      EmptyCycleKeeps(mem, AfterEmpty(mem, n - 1), AfterEmpty(mem, n));
    }
  }

  /**
   However many cycles come back empty, the report of the last good cycle is repeated, except that its
   names may change once: the first repetition uses the metrics as paired with the devices.
   */
  lemma RetentionRepeats(mem: Memory, ds: seq<Device>, ms: seq<Metric>, n: nat)
    requires Consistent(mem)
    ensures var good := Remembered(mem, ds, ms); var repeated := Reported(AfterEmpty(good, n), [], []);
      repeated == Normalized(good.devices, good.metrics) && SameButNames(repeated, Reported(mem, ds, ms))
  {
    var good := Remembered(mem, ds, ms);
    ReportIsMerged(mem, ds, ms);
    CycleSettles(mem, ds, ms);
    EmptyCyclesKeep(good, n);
    ReportIsMerged(AfterEmpty(good, n), [], []);
    PairingChangesNames(good.devices, Kept(ms, mem.metrics), good.devices);
  }

  /**
   A cycle keeps the new lists, or the last ones where the new are empty, gives every metric the name of the
   last device with its UUID, and reports the merge of the lists as they were before that.
   */
  lemma CycleOutcome(mem: Memory, ds: seq<Device>, ms: seq<Metric>)
    requires Consistent(mem)
    ensures var next := Remembered(mem, ds, ms); var metrics := if |ms| > 0 then ms else mem.metrics;
      && next.devices == (if |ds| > 0 then ds else mem.devices) && |next.metrics| == |metrics|
      && Reported(mem, ds, ms) == Normalized(next.devices, metrics)
      && forall k | 0 <= k < |metrics| :: exists name ::
           NamedLast(next.devices, metrics[k].uuid, name) && next.metrics[k] == metrics[k].(name := if name.Some? then name.value else metrics[k].name)
  {
    ReportIsMerged(mem, ds, ms);
    var next, metrics := Remembered(mem, ds, ms), Kept(ms, mem.metrics);
    forall k | 0 <= k < |metrics|
      ensures exists name :: NamedLast(next.devices, metrics[k].uuid, name)
                && next.metrics[k] == metrics[k].(name := if name.Some? then name.value else metrics[k].name)
    {
      NameIsLast(next.devices, metrics[k].uuid);
      var name := NameOf(next.devices, metrics[k].uuid);
      assert next.metrics[k] == metrics[k].(name := if name.Some? then name.value else metrics[k].name);
    }
  }

  // ------------------------------------------------------------------------------------------
  // The registry
  // ------------------------------------------------------------------------------------------

  class Registry {
    var lastDevices: seq<Device>
    var lastMetrics: seq<Metric>
    var lastResources: seq<Resource>

    ghost function Model(): Memory
      reads this
    {
      Memory(lastDevices, lastMetrics, lastResources)
    }

    constructor ()
      ensures Model() == Nothing && Consistent(Model())
    {
      lastDevices, lastMetrics, lastResources := [], [], [];
    }

    method PairMetricsWithDevices()
      modifies this`lastMetrics
      ensures lastMetrics == Paired(lastDevices, old(lastMetrics))
    {
      if |lastDevices| == 0 || |lastMetrics| == 0 {
        NoNames();
        return;
      }
      var nameMap: map<Text, Text> := map[];
      for i := 0 to |lastDevices|
        invariant lastMetrics == old(lastMetrics)
        invariant forall u :: NameOf(lastDevices[..i], u) == if u in nameMap then Some(nameMap[u]) else None
      {
        assert lastDevices[..i + 1][..i] == lastDevices[..i];
        nameMap := nameMap[lastDevices[i].uuid := lastDevices[i].name];
      }
      assert lastDevices[..|lastDevices|] == lastDevices;
      for i := 0 to |lastMetrics|
        invariant |lastMetrics| == |old(lastMetrics)|
        invariant forall k | 0 <= k < i :: lastMetrics[k] == PairMetric(lastDevices, old(lastMetrics)[k])
        invariant forall k | i <= k < |lastMetrics| :: lastMetrics[k] == old(lastMetrics)[k]
      {
        var m := lastMetrics[i];
        if m.uuid in nameMap {
          lastMetrics := lastMetrics[i := m.(name := nameMap[m.uuid])];
        }
      }
    }

    lemma NoNames()
      requires lastDevices == [] || lastMetrics == []
      ensures Paired(lastDevices, lastMetrics) == lastMetrics
    {
    }

    /** One cycle: collect, fall back on the last lists, merge, pair the names. */
    method Collect(outcomes: seq<Outcome>) returns (report: Report)
      requires Consistent(Model())
      modifies this
      ensures Model() == Remembered(old(Model()), DevicesOf(outcomes), MetricsOf(outcomes)) && Consistent(Model())
      ensures report.devices == lastDevices && report.metrics == lastMetrics
      ensures report.resources == Reported(old(Model()), DevicesOf(outcomes), MetricsOf(outcomes))
      ensures report.resources == Normalized(lastDevices, Kept(MetricsOf(outcomes), old(lastMetrics)))
    {
      var devices: seq<Device>, metrics: seq<Metric> := [], [];
      for i := 0 to |outcomes|
        invariant devices == DevicesOf(outcomes[..i]) && metrics == MetricsOf(outcomes[..i])
      {
        assert outcomes[..i + 1][..i] == outcomes[..i];
        if outcomes[i].available {
          devices := devices + outcomes[i].devices;
          metrics := metrics + outcomes[i].metrics;
        }
      }
      assert outcomes[..|outcomes|] == outcomes;
      ReportIsMerged(Model(), devices, metrics);
      if |devices| > 0 {
        lastDevices := devices;
      }
      if |metrics| > 0 {
        lastMetrics := metrics;
      }
      var resources := NormalizeGPUs(lastDevices, lastMetrics);
      if |resources| > 0 {
        lastResources := resources;
      } else if |lastResources| > 0 {
        resources := lastResources;
      }
      PairMetricsWithDevices();
      report := Report(lastDevices, lastMetrics, resources);
    }
  }
}

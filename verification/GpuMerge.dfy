/** The unified GPU list: devices and metrics from the vendor collectors merged by key. */
module GpuMerge {
  import opened Results
  import opened Texts

  datatype Device = Device(vendor: Text, index: int, name: Text, uuid: Text, pciBusId: Text, driver: Text,
                           memoryTotal: nat, status: Text, collectedAt: int)

  datatype Metric = Metric(vendor: Text, index: int, name: Text, uuid: Text, memoryTotal: nat, memoryUsed: nat,
                           memoryFree: nat, readings: Readings, health: Text, collectedAt: int)

  datatype Readings = Readings(gpuUtilization: Option<real>, memoryUtilization: Option<real>,
                               temperature: Option<real>, powerDraw: Option<real>)

  const NoReadings := Readings(None, None, None, None)

  datatype Resource = Resource(vendor: Text, index: int, uuid: Text, name: Text, pciBusId: Text, driver: Text,
                               memoryTotal: nat, memoryUsed: nat, memoryFree: nat, readings: Readings,
                               health: Text, status: Text, collectedAt: int)

  const UNKNOWN := Text("unknown")
  const AVAILABLE := Text("available")

  // ------------------------------------------------------------------------------------------
  // Keys
  // ------------------------------------------------------------------------------------------

  function Digits(n: nat): (s: string)
    ensures forall c | c in s :: '0' <= c <= '9'
  {
    if n == 0 then "" else Digits(n / 10) + ['0' + (n % 10) as char]
  }

  /** Decimal digits; a negative number has none. */
  function Itoa(i: int): (s: string)
    ensures forall c | c in s :: '0' <= c <= '9'
  {
    if i == 0 then "0" else if i < 0 then "" else Digits(i)
  }

  /** Decimal digits with a sign. */
  function PrintIndex(i: int): string {
    if i < 0 then "-" + Digits(-i) else Itoa(i)
  }

  function Key(vendor: Text, index: int, uuid: Text): Text {
    Text(vendor.chars + (":" + if uuid != NO_TEXT then uuid.chars else Itoa(index)))
  }

  function DeviceKey(d: Device): Text {
    Key(d.vendor, d.index, d.uuid)
  }

  function MetricKey(m: Metric): Text {
    Key(m.vendor, m.index, m.uuid)
  }

  function ResourceKey(r: Resource): Text {
    Key(r.vendor, r.index, r.uuid)
  }

  function DeviceKeys(ds: seq<Device>): seq<Text> {
    seq(|ds|, i requires 0 <= i < |ds| => DeviceKey(ds[i]))
  }

  function MetricKeys(ms: seq<Metric>): seq<Text> {
    seq(|ms|, i requires 0 <= i < |ms| => MetricKey(ms[i]))
  }

  function ResourceKeys(rs: seq<Resource>): seq<Text> {
    seq(|rs|, i requires 0 <= i < |rs| => ResourceKey(rs[i]))
  }

  // ------------------------------------------------------------------------------------------
  // First occurrences
  // ------------------------------------------------------------------------------------------

  /** The positions of the keys that come for the first time and are not in `seen`. */
  function Firsts(keys: seq<Text>, seen: set<Text>): (r: seq<int>)
    ensures forall k | 0 <= k < |r| :: 0 <= r[k] < |keys|
  {
    if keys == [] then []
    else
      var n := |keys| - 1;
      if keys[n] in seen || keys[n] in keys[..n] then Firsts(keys[..n], seen) else Firsts(keys[..n], seen) + [n]
  }

  ghost predicate Ascends(at: seq<int>) {
    forall j, k | 0 <= j < k < |at| :: at[j] < at[k]
  }

  lemma {:induction false} FirstsAscend(keys: seq<Text>, seen: set<Text>)
    ensures Ascends(Firsts(keys, seen))
  {
    if keys != [] {
      var n := |keys| - 1;
      var before := Firsts(keys[..n], seen);
      FirstsAscend(keys[..n], seen);
      assert forall j | 0 <= j < |before| :: before[j] < n;
      assert Ascends(before + [n]);
    }
  }

  predicate FirstAt(keys: seq<Text>, seen: set<Text>, i: int) {
    0 <= i < |keys| && keys[i] !in seen && keys[i] !in keys[..i]
  }

  lemma {:induction false} FirstsAreFound(keys: seq<Text>, seen: set<Text>)
    ensures forall i :: i in Firsts(keys, seen) <==> FirstAt(keys, seen, i)
  {
    if keys != [] {
      var n := |keys| - 1;
      FirstsAreFound(keys[..n], seen);
      assert forall i | 0 <= i < n :: keys[..n][..i] == keys[..i] && keys[..n][i] == keys[i];
      assert forall i | i != n :: FirstAt(keys[..n], seen, i) <==> FirstAt(keys, seen, i);
    }
  }

  /** The positions kept are, in order, those of the first occurrences. */
  lemma FirstsAreFirst(keys: seq<Text>, seen: set<Text>)
    ensures Ascends(Firsts(keys, seen))
    ensures forall i :: i in Firsts(keys, seen) <==> FirstAt(keys, seen, i)
  {
    FirstsAscend(keys, seen);
    FirstsAreFound(keys, seen);
  }

  lemma FirstsDiffer(keys: seq<Text>, seen: set<Text>)
    ensures var r := Firsts(keys, seen); forall j, k | 0 <= j < k < |r| :: keys[r[j]] != keys[r[k]]
  {
    var r := Firsts(keys, seen);
    FirstsAreFirst(keys, seen);
    forall j, k | 0 <= j < k < |r|
      ensures keys[r[j]] != keys[r[k]]
    {
      assert r[k] in r && FirstAt(keys, seen, r[k]);
      assert keys[..r[k]][r[j]] == keys[r[j]];
    }
  }

  lemma {:induction false} FirstOccurs(keys: seq<Text>, seen: set<Text>, key: Text) returns (i: nat)
    requires key in keys && key !in seen
    ensures FirstAt(keys, seen, i) && keys[i] == key
  {
    var n := |keys| - 1;
    if key in keys[..n] {
      i := FirstOccurs(keys[..n], seen, key);
      assert keys[..n][..i] == keys[..i];
    } else {
      assert keys == keys[..n] + [keys[n]];
      i := n;
    }
  }

  /** Every key not in `seen` has its first occurrence in the list. */
  lemma FirstsCover(keys: seq<Text>, seen: set<Text>)
    ensures var r := Firsts(keys, seen);
      && (forall j | 0 <= j < |r| :: keys[r[j]] in keys && keys[r[j]] !in seen)
      && (forall key | key in keys && key !in seen :: exists j :: 0 <= j < |r| && keys[r[j]] == key)
  {
    var r := Firsts(keys, seen);
    FirstsAreFound(keys, seen);
    forall j | 0 <= j < |r|
      ensures keys[r[j]] in keys && keys[r[j]] !in seen
    {
      assert r[j] in r && FirstAt(keys, seen, r[j]);
    }
    forall key | key in keys && key !in seen
      ensures exists j :: 0 <= j < |r| && keys[r[j]] == key
    {
      var i := FirstOccurs(keys, seen, key);
      assert i in r;
    }
  }

  // ------------------------------------------------------------------------------------------
  // The merge
  // ------------------------------------------------------------------------------------------

  /** The position of the last occurrence; -1 when there is none. */
  function LastOf(keys: seq<Text>, key: Text): (n: int)
    ensures -1 <= n < |keys|
    ensures n >= 0 ==> keys[n] == key
    ensures forall j | n < j < |keys| :: keys[j] != key
  {
    if keys == [] then -1 else if keys[|keys| - 1] == key then |keys| - 1 else LastOf(keys[..|keys| - 1], key)
  }

  function LastMetric(ms: seq<Metric>, key: Text): Option<Metric> {
    var n := LastOf(MetricKeys(ms), key);
    if n < 0 then None else Some(ms[n])
  }

  function OrElse(t: Text, default: Text): Text {
    if t == NO_TEXT then default else t
  }

  function MergeDevice(d: Device, m: Option<Metric>): Resource {
    match m
    case Some(m) =>
      Resource(d.vendor, d.index, d.uuid, OrElse(m.name, d.name), d.pciBusId, d.driver,
        if m.memoryTotal > 0 then m.memoryTotal else d.memoryTotal, m.memoryUsed, m.memoryFree, m.readings,
        OrElse(m.health, UNKNOWN), OrElse(d.status, AVAILABLE),
        if m.collectedAt > d.collectedAt then m.collectedAt else d.collectedAt)
    case None =>
      Resource(d.vendor, d.index, d.uuid, d.name, d.pciBusId, d.driver, d.memoryTotal, 0, 0, NoReadings,
        UNKNOWN, OrElse(d.status, AVAILABLE), d.collectedAt)
  }

  function FromMetric(m: Metric): Resource {
    Resource(m.vendor, m.index, m.uuid, m.name, NO_TEXT, NO_TEXT, m.memoryTotal, m.memoryUsed, m.memoryFree,
      m.readings, OrElse(m.health, UNKNOWN), AVAILABLE, m.collectedAt)
  }

  function Keys(keys: seq<Text>): set<Text> {
    set k | k in keys
  }

  function MergedDevices(ds: seq<Device>, ms: seq<Metric>): seq<Resource> {
    var firsts := Firsts(DeviceKeys(ds), {});
    seq(|firsts|, k requires 0 <= k < |firsts| => MergeDevice(ds[firsts[k]], LastMetric(ms, DeviceKey(ds[firsts[k]]))))
  }

  function UnmatchedMetrics(ms: seq<Metric>, deviceKeys: set<Text>): seq<Resource> {
    var firsts := Firsts(MetricKeys(ms), deviceKeys);
    seq(|firsts|, k requires 0 <= k < |firsts| => FromMetric(ms[firsts[k]]))
  }

  /** The first device of every key with the last metric of that key; then the first metrics of the other keys. */
  function Normalized(ds: seq<Device>, ms: seq<Metric>): seq<Resource> {
    MergedDevices(ds, ms) + UnmatchedMetrics(ms, Keys(DeviceKeys(ds)))
  }

  function Picked(keys: seq<Text>, at: seq<int>): seq<Text>
    requires forall k | 0 <= k < |at| :: 0 <= at[k] < |keys|
  {
    seq(|at|, k requires 0 <= k < |at| => keys[at[k]])
  }

  ghost predicate Distinct(keys: seq<Text>) {
    forall j, k | 0 <= j < k < |keys| :: keys[j] != keys[k]
  }

  /** The keys kept are distinct, and they are the ones of the list that are not in `seen`. */
  lemma KeptKeys(keys: seq<Text>, seen: set<Text>)
    ensures var kept := Picked(keys, Firsts(keys, seen));
      Distinct(kept) && forall key :: key in kept <==> key in keys && key !in seen
  {
    FirstsDiffer(keys, seen);
    FirstsCover(keys, seen);
    var firsts := Firsts(keys, seen);
    var kept := Picked(keys, firsts);
    forall key | key in keys && key !in seen
      ensures key in kept
    {
      var j :| 0 <= j < |firsts| && keys[firsts[j]] == key;
      assert kept[j] == key;
    }
    forall key | key in kept
      ensures key in keys && key !in seen
    {
      var j :| 0 <= j < |kept| && kept[j] == key;
      assert keys[firsts[j]] == key;
    }
  }

  lemma DistinctJoin(left: seq<Text>, right: seq<Text>)
    requires Distinct(left) && Distinct(right) && forall key | key in right :: key !in left
    ensures Distinct(left + right)
  {
    forall j, k | 0 <= j < k < |left + right|
      ensures (left + right)[j] != (left + right)[k]
    {
      if j < |left| <= k {
        assert right[k - |left|] in right;
      }
    }
  }

  lemma FirstsUnion(ds: seq<Text>, ms: seq<Text>)
    ensures var keys := Picked(ds, Firsts(ds, {})) + Picked(ms, Firsts(ms, Keys(ds)));
      Distinct(keys) && forall key :: key in keys <==> key in ds || key in ms
  {
    KeptKeys(ds, {});
    KeptKeys(ms, Keys(ds));
    DistinctJoin(Picked(ds, Firsts(ds, {})), Picked(ms, Firsts(ms, Keys(ds))));
  }

  lemma NormalizedKeysAre(ds: seq<Device>, ms: seq<Metric>)
    ensures var dk, mk := DeviceKeys(ds), MetricKeys(ms);
      ResourceKeys(Normalized(ds, ms)) == Picked(dk, Firsts(dk, {})) + Picked(mk, Firsts(mk, Keys(dk)))
  {
  }

  /** No key comes twice, and the keys are exactly those of the devices and the metrics. */
  lemma NormalizedKeys(ds: seq<Device>, ms: seq<Metric>)
    ensures var keys := ResourceKeys(Normalized(ds, ms));
      Distinct(keys) && forall key :: key in keys <==> key in DeviceKeys(ds) || key in MetricKeys(ms)
  {
    NormalizedKeysAre(ds, ms);
    FirstsUnion(DeviceKeys(ds), MetricKeys(ms));
  }

  /** The metric is the last one of the key, or there is none. */
  ghost predicate LastOfKey(ms: seq<Metric>, key: Text, m: Option<Metric>) {
    match m
    case None => forall j | 0 <= j < |ms| :: MetricKey(ms[j]) != key
    case Some(m) => exists j | 0 <= j < |ms| :: ms[j] == m && MetricKey(m) == key && forall k | j < k < |ms| :: MetricKey(ms[k]) != key
  }

  lemma LastMetricIs(ms: seq<Metric>, key: Text)
    ensures LastOfKey(ms, key, LastMetric(ms, key))
  {
    var keys := MetricKeys(ms);
    var n := LastOf(keys, key);
    assert forall k | 0 <= k < |ms| :: MetricKey(ms[k]) == keys[k];
    if n >= 0 {
      assert ms[n] == LastMetric(ms, key).value && MetricKey(ms[n]) == key;
    }
  }

  /**
   Identity and driver are the device's; used and free memory and the readings are the metric's; name, total
   memory and health are the metric's where it has them; the time is the later one.
   */
  ghost predicate RowOfDevice(r: Resource, d: Device, m: Option<Metric>) {
    && r.vendor == d.vendor && r.index == d.index && r.uuid == d.uuid && r.pciBusId == d.pciBusId && r.driver == d.driver
    && r.status == (if d.status.chars == "" then Text("available") else d.status)
    && match m
       case None =>
         && r.name == d.name && r.memoryTotal == d.memoryTotal && r.memoryUsed == 0 && r.memoryFree == 0
         && r.readings == Readings(None, None, None, None) && r.health == Text("unknown") && r.collectedAt == d.collectedAt
       case Some(m) =>
         && r.memoryUsed == m.memoryUsed && r.memoryFree == m.memoryFree && r.readings == m.readings
         && r.name == (if m.name.chars == "" then d.name else m.name)
         && r.memoryTotal == (if m.memoryTotal == 0 then d.memoryTotal else m.memoryTotal)
         && r.health == (if m.health.chars == "" then Text("unknown") else m.health)
         && r.collectedAt >= m.collectedAt && r.collectedAt >= d.collectedAt && (r.collectedAt == m.collectedAt || r.collectedAt == d.collectedAt)
  }

  ghost predicate RowOfMetric(r: Resource, m: Metric) {
    && r.vendor == m.vendor && r.index == m.index && r.uuid == m.uuid && r.name == m.name && r.pciBusId.chars == r.driver.chars == ""
    && r.memoryTotal == m.memoryTotal && r.memoryUsed == m.memoryUsed && r.memoryFree == m.memoryFree && r.readings == m.readings
    && r.health == (if m.health.chars == "" then Text("unknown") else m.health) && r.status == Text("available")
    && r.collectedAt == m.collectedAt
  }

  lemma DeviceRow(d: Device, m: Option<Metric>)
    ensures RowOfDevice(MergeDevice(d, m), d, m)
  {
    assert forall t: Text :: t == NO_TEXT <==> t.chars == "";
  }

  lemma MetricRow(m: Metric)
    ensures RowOfMetric(FromMetric(m), m)
  {
    assert forall t: Text :: t == NO_TEXT <==> t.chars == "";
  }

  /** The first device of a key is reported, with the last metric of its key. */
  lemma DeviceIsReported(ds: seq<Device>, ms: seq<Metric>, i: nat)
    requires i < |ds| && DeviceKey(ds[i]) !in DeviceKeys(ds)[..i]
    ensures MergeDevice(ds[i], LastMetric(ms, DeviceKey(ds[i]))) in Normalized(ds, ms)
    ensures LastOfKey(ms, DeviceKey(ds[i]), LastMetric(ms, DeviceKey(ds[i])))
    ensures RowOfDevice(MergeDevice(ds[i], LastMetric(ms, DeviceKey(ds[i]))), ds[i], LastMetric(ms, DeviceKey(ds[i])))
  {
    LastMetricIs(ms, DeviceKey(ds[i]));
    var firsts := Firsts(DeviceKeys(ds), {});
    FirstsAreFound(DeviceKeys(ds), {});
    assert FirstAt(DeviceKeys(ds), {}, i);
    var k :| 0 <= k < |firsts| && firsts[k] == i;
    assert MergedDevices(ds, ms)[k] == Normalized(ds, ms)[k];
    DeviceRow(ds[i], LastMetric(ms, DeviceKey(ds[i])));
  }

  /** The first metric of a key no device has is reported by itself. */
  lemma MetricIsReported(ds: seq<Device>, ms: seq<Metric>, i: nat)
    requires i < |ms| && MetricKey(ms[i]) !in DeviceKeys(ds) && MetricKey(ms[i]) !in MetricKeys(ms)[..i]
    ensures FromMetric(ms[i]) in Normalized(ds, ms) && RowOfMetric(FromMetric(ms[i]), ms[i])
  {
    MetricRow(ms[i]);
    var deviceKeys := Keys(DeviceKeys(ds));
    var unmatched := UnmatchedMetrics(ms, deviceKeys);
    FirstOfMetrics(ms, deviceKeys, i);
    assert forall k | 0 <= k < |unmatched| :: unmatched[k] == Normalized(ds, ms)[|MergedDevices(ds, ms)| + k];
  }

  lemma FirstOfMetrics(ms: seq<Metric>, deviceKeys: set<Text>, i: nat)
    requires i < |ms| && MetricKey(ms[i]) !in deviceKeys && MetricKey(ms[i]) !in MetricKeys(ms)[..i]
    ensures FromMetric(ms[i]) in UnmatchedMetrics(ms, deviceKeys)
  {
    var firsts := Firsts(MetricKeys(ms), deviceKeys);
    FirstsAreFound(MetricKeys(ms), deviceKeys);
    assert FirstAt(MetricKeys(ms), deviceKeys, i);
    var k :| 0 <= k < |firsts| && firsts[k] == i;
    assert UnmatchedMetrics(ms, deviceKeys)[k] == FromMetric(ms[i]);
  }

  // ------------------------------------------------------------------------------------------
  // When two keys are the same
  // ------------------------------------------------------------------------------------------

  lemma {:induction false} DigitsInjective(m: nat, n: nat)
    requires Digits(m) == Digits(n)
    ensures m == n
  {
    if m > 0 && n > 0 {
      var a, b := Digits(m), Digits(n);
      assert a[..|a| - 1] == Digits(m / 10) && b[..|b| - 1] == Digits(n / 10);
      DigitsInjective(m / 10, n / 10);
      assert a[|a| - 1] == b[|b| - 1];
    }
  }

  /** Ten times a number and a digit is printed as the number and the digit. */
  lemma DecimalDigits(n: nat, d: nat)
    requires d < 10
    ensures n > 0 ==> Itoa(10 * n + d) == Itoa(n) + ['0' + d as char]
    ensures Itoa(d) == ['0' + d as char]
  {
    assert (10 * n + d) / 10 == n && (10 * n + d) % 10 == d;
    assert d / 10 == 0 && Digits(0) == "";
  }

  lemma {:induction false} DigitsLead(n: nat)
    requires n > 0
    ensures Digits(n) != "" && Digits(n)[0] != '0'
  {
    if n < 10 {
      assert Digits(n / 10) == "";
    } else {
      DigitsLead(n / 10);
    }
  }

  /** Indices print differently unless both are negative. */
  lemma ItoaInjective(i: int, j: int)
    ensures Itoa(i) == Itoa(j) <==> i == j || (i < 0 && j < 0)
  {
    if i > 0 {
      DigitsLead(i);
    }
    if j > 0 {
      DigitsLead(j);
    }
    if i > 0 && j > 0 && Itoa(i) == Itoa(j) {
      DigitsInjective(i, j);
    }
  }

  lemma SeparatorAt(a: string, p: string, c: char)
    requires c !in a
    ensures var s := a + ([c] + p);
      |a| < |s| && s[|a|] == c && s[..|a|] == a && s[|a| + 1..] == p && forall i | 0 <= i < |a| :: s[i] != c
  {
    assert forall i | 0 <= i < |a| :: a[i] in a;
  }

  /** The part before the first separator and the part after it are determined by the whole. */
  lemma SplitAt(a: string, p: string, b: string, q: string, c: char)
    requires c !in a && c !in b
    ensures a + ([c] + p) == b + ([c] + q) <==> a == b && p == q
  {
    SeparatorAt(a, p, c);
    SeparatorAt(b, q, c);
  }

  /** Keys of vendors without a colon are equal for one GPU only, or where an index prints like the other's UUID. */
  lemma KeysCollideIff(v: Text, i: int, u: Text, w: Text, j: int, x: Text)
    requires ':' !in v.chars && ':' !in w.chars
    ensures Key(v, i, u) == Key(w, j, x) <==>
            (v == w && if u != NO_TEXT && x != NO_TEXT then u == x
                       else if u != NO_TEXT then u.chars == Itoa(j)
                       else if x != NO_TEXT then x.chars == Itoa(i)
                       else i == j || (i < 0 && j < 0))
  {
    ItoaInjective(i, j);
    SplitAt(v.chars, if u != NO_TEXT then u.chars else Itoa(i), w.chars, if x != NO_TEXT then x.chars else Itoa(j), ':');
  }

  // ------------------------------------------------------------------------------------------
  // The merge as the program runs it
  // ------------------------------------------------------------------------------------------

  ghost predicate Indexed(metricByKey: map<Text, Metric>, ms: seq<Metric>) {
    forall key :: match LastMetric(ms, key)
      case None => key !in metricByKey
      case Some(m) => key in metricByKey && metricByKey[key] == m
  }

  lemma IndexNext(metricByKey: map<Text, Metric>, ms: seq<Metric>, m: Metric)
    requires Indexed(metricByKey, ms)
    ensures Indexed(metricByKey[MetricKey(m) := m], ms + [m])
  {
    assert MetricKeys(ms + [m]) == MetricKeys(ms) + [MetricKey(m)];
    assert (MetricKeys(ms) + [MetricKey(m)])[..|ms|] == MetricKeys(ms);
  }

  method IndexMetrics(ms: seq<Metric>) returns (metricByKey: map<Text, Metric>)
    ensures Indexed(metricByKey, ms)
  {
    metricByKey := map[];
    for i := 0 to |ms|
      invariant Indexed(metricByKey, ms[..i])
    {
      IndexNext(metricByKey, ms[..i], ms[i]);
      assert ms[..i + 1] == ms[..i] + [ms[i]];
      metricByKey := metricByKey[MetricKey(ms[i]) := ms[i]];
    }
    assert ms[..|ms|] == ms;
  }

  method FillFromMetric(d: Device, m: Option<Metric>) returns (r: Resource)
    ensures r == MergeDevice(d, m)
  {
    r := Resource(d.vendor, d.index, d.uuid, d.name, d.pciBusId, d.driver, 0, 0, 0, NoReadings, NO_TEXT, d.status, d.collectedAt);
    if m.Some? {
      var m := m.value;
      if m.name != NO_TEXT {
        r := r.(name := m.name);
      }
      if m.memoryTotal > 0 {
        r := r.(memoryTotal := m.memoryTotal);
      } else {
        r := r.(memoryTotal := d.memoryTotal);
      }
      r := r.(memoryUsed := m.memoryUsed, memoryFree := m.memoryFree, readings := m.readings, health := m.health);
      if m.collectedAt > r.collectedAt {
        r := r.(collectedAt := m.collectedAt);
      }
    } else {
      r := r.(memoryTotal := d.memoryTotal, health := UNKNOWN);
    }
    if r.status == NO_TEXT {
      r := r.(status := AVAILABLE);
    }
    if r.health == NO_TEXT {
      r := r.(health := UNKNOWN);
    }
  }

  lemma DevicesNext(ds: seq<Device>, ms: seq<Metric>, d: Device)
    ensures MergedDevices(ds + [d], ms)
            == MergedDevices(ds, ms) + if DeviceKey(d) in DeviceKeys(ds) then [] else [MergeDevice(d, LastMetric(ms, DeviceKey(d)))]
    ensures Keys(DeviceKeys(ds + [d])) == Keys(DeviceKeys(ds)) + {DeviceKey(d)}
  {
    assert DeviceKeys(ds + [d]) == DeviceKeys(ds) + [DeviceKey(d)];
    assert (DeviceKeys(ds) + [DeviceKey(d)])[..|ds|] == DeviceKeys(ds);
  }

  lemma DevicesAt(ds: seq<Device>, ms: seq<Metric>, i: nat)
    requires i < |ds|
    ensures MergedDevices(ds[..i + 1], ms)
            == MergedDevices(ds[..i], ms) + if DeviceKey(ds[i]) in Keys(DeviceKeys(ds[..i])) then []
                                            else [MergeDevice(ds[i], LastMetric(ms, DeviceKey(ds[i])))]
    ensures Keys(DeviceKeys(ds[..i + 1])) == Keys(DeviceKeys(ds[..i])) + {DeviceKey(ds[i])}
  {
    assert ds[..i + 1] == ds[..i] + [ds[i]];
    DevicesNext(ds[..i], ms, ds[i]);
  }

  lemma MetricsNext(ms: seq<Metric>, m: Metric, deviceKeys: set<Text>)
    ensures UnmatchedMetrics(ms + [m], deviceKeys)
            == UnmatchedMetrics(ms, deviceKeys) + if MetricKey(m) in deviceKeys || MetricKey(m) in MetricKeys(ms) then [] else [FromMetric(m)]
    ensures Keys(MetricKeys(ms + [m])) == Keys(MetricKeys(ms)) + {MetricKey(m)}
  {
    assert MetricKeys(ms + [m]) == MetricKeys(ms) + [MetricKey(m)];
    assert (MetricKeys(ms) + [MetricKey(m)])[..|ms|] == MetricKeys(ms);
  }

  lemma MetricsAt(ms: seq<Metric>, i: nat, deviceKeys: set<Text>)
    requires i < |ms|
    ensures UnmatchedMetrics(ms[..i + 1], deviceKeys)
            == UnmatchedMetrics(ms[..i], deviceKeys)
               + if MetricKey(ms[i]) in deviceKeys + Keys(MetricKeys(ms[..i])) then [] else [FromMetric(ms[i])]
    ensures Keys(MetricKeys(ms[..i + 1])) == Keys(MetricKeys(ms[..i])) + {MetricKey(ms[i])}
  {
    assert ms[..i + 1] == ms[..i] + [ms[i]];
    MetricsNext(ms[..i], ms[i], deviceKeys);
  }

  method MergeDevices(ds: seq<Device>, ms: seq<Metric>, metricByKey: map<Text, Metric>)
    returns (result: seq<Resource>, seen: set<Text>)
    requires Indexed(metricByKey, ms)
    ensures result == MergedDevices(ds, ms) && seen == Keys(DeviceKeys(ds))
  {
    result, seen := [], {};
    for i := 0 to |ds|
      invariant result == MergedDevices(ds[..i], ms) && seen == Keys(DeviceKeys(ds[..i]))
    {
      DevicesAt(ds, ms, i);
      var key := DeviceKey(ds[i]);
      if key in seen {
        continue;
      }
      seen := seen + {key};
      var r := FillFromMetric(ds[i], if key in metricByKey then Some(metricByKey[key]) else None);
      result := result + [r];
    }
    assert ds[..|ds|] == ds;
  }

  method NormalizeGPUs(ds: seq<Device>, ms: seq<Metric>) returns (result: seq<Resource>)
    ensures result == Normalized(ds, ms)
  {
    var metricByKey := IndexMetrics(ms);
    var seen;
    result, seen := MergeDevices(ds, ms, metricByKey);
    ghost var merged, deviceKeys := result, seen;
    for i := 0 to |ms|
      invariant result == merged + UnmatchedMetrics(ms[..i], deviceKeys)
      invariant seen == deviceKeys + Keys(MetricKeys(ms[..i]))
    {
      MetricsAt(ms, i, deviceKeys);
      var key := MetricKey(ms[i]);
      if key in seen {
        continue;
      }
      seen := seen + {key};
      result := result + [FromMetric(ms[i])];
    }
    assert ms[..|ms|] == ms;
  }
}

/**
 DEVICE and METRIC lines: the records read from the fields of a line, and the round trip from a record
 through the fields printed for it.
 */
module GpuLines {
  import opened Results
  import opened Texts
  import opened PairLists
  import opened KeyValues
  import opened GpuMerge

  const MAX_UINT := 0xFFFF_FFFF_FFFF_FFFF
  const MAX_INT := 0x7FFF_FFFF_FFFF_FFFF

  // ------------------------------------------------------------------------------------------
  // Numbers
  // ------------------------------------------------------------------------------------------

  predicate IsDigit(c: char) {
    '0' <= c <= '9'
  }

  function DigitOf(c: char): nat
    requires IsDigit(c)
  {
    c as nat - '0' as nat
  }

  /** strconv.ParseUint with its error dropped: 0 for a bad digit, the largest number once it overflows. */
  function UintFrom(s: string, n: nat): nat {
    if s == "" then n
    else if !IsDigit(s[0]) then 0
    else if n >= MAX_UINT / 10 + 1 then MAX_UINT
    else if n * 10 + DigitOf(s[0]) > MAX_UINT then MAX_UINT
    else UintFrom(s[1..], n * 10 + DigitOf(s[0]))
  }

  function ParseUint(s: string): nat {
    if s == "" then 0 else UintFrom(s, 0)
  }

  function NumberFrom(s: string, n: nat): Option<nat> {
    if s == "" then Some(n)
    else if IsDigit(s[0]) then NumberFrom(s[1..], n * 10 + DigitOf(s[0]))
    else None
  }

  /** strconv.Atoi: an optional sign, digits, and a 64-bit result. */
  function Atoi(s: string): Option<int> {
    var negative := s != "" && s[0] == '-';
    var body := if s != "" && (s[0] == '-' || s[0] == '+') then s[1..] else s;
    if body == "" then None
    else match NumberFrom(body, 0)
      case None => None
      case Some(n) =>
        var i := if negative then -(n as int) else n as int;
        if -MAX_INT - 1 <= i <= MAX_INT then Some(i) else None
  }

  lemma {:induction false} DigitsReadBack(n: nat, rest: string)
    ensures NumberFrom(Digits(n) + rest, 0) == NumberFrom(rest, n)
    ensures n <= MAX_UINT ==> UintFrom(Digits(n) + rest, 0) == UintFrom(rest, n)
  {
    if n == 0 {
      assert Digits(0) + rest == rest;
    } else {
      var c := '0' + (n % 10) as char;
      DigitsReadBack(n / 10, [c] + rest);
      assert Digits(n) + rest == Digits(n / 10) + ([c] + rest);
      assert ([c] + rest)[1..] == rest && DigitOf(c) == n % 10;
    }
  }

  lemma UintReadsBack(n: nat)
    requires n <= MAX_UINT
    ensures ParseUint(Itoa(n)) == n
  {
    if n > 0 {
      DigitsReadBack(n, "");
      DigitsLead(n);
      assert Digits(n) + "" == Digits(n);
    } else {
      assert "0"[1..] == "" && UintFrom("0", 0) == UintFrom("", 0);
    }
  }

  lemma IndexReadsBack(i: int)
    requires -MAX_INT - 1 <= i <= MAX_INT
    ensures Atoi(PrintIndex(i)) == Some(i)
  {
    if i != 0 {
      var n := if i < 0 then -i else i;
      DigitsReadBack(n, "");
      DigitsLead(n);
      assert Digits(n) + "" == Digits(n);
      assert IsDigit(Digits(n)[0]) by {
        assert Digits(n)[0] in Digits(n);
      }
      assert ("-" + Digits(n))[1..] == Digits(n);
    } else {
      assert "0"[1..] == "" && NumberFrom("0", 0) == NumberFrom("", 0);
    }
  }

  /** Printed numbers of 64 bits are read back. */
  lemma NumbersReadBack(i: int)
    ensures 0 <= i <= MAX_UINT ==> ParseUint(Itoa(i)) == i
    ensures -MAX_INT - 1 <= i <= MAX_INT ==> Atoi(PrintIndex(i)) == Some(i)
  {
    if 0 <= i <= MAX_UINT {
      UintReadsBack(i);
    }
    if -MAX_INT - 1 <= i <= MAX_INT {
      IndexReadsBack(i);
    }
  }

  lemma {:induction false} DigitsSaturate(n: nat, rest: string)
    requires n > 0xFFFF_FFFF_FFFF_FFFF
    ensures UintFrom(Digits(n) + rest, 0) == 0xFFFF_FFFF_FFFF_FFFF
  {
    var c := '0' + (n % 10) as char;
    assert Digits(n) + rest == Digits(n / 10) + ([c] + rest);
    assert ([c] + rest)[1..] == rest && DigitOf(c) == n % 10;
    if n / 10 > 0xFFFF_FFFF_FFFF_FFFF {
      DigitsSaturate(n / 10, [c] + rest);
    } else {
      DigitsReadBack(n / 10, [c] + rest);
    }
  }

  /** Sizes past 64 bits are read as the largest number, and one that goes on with something else as none at all. */
  lemma SizesOutOfRange(n: nat, c: char, rest: string)
    requires !('0' <= c <= '9')
    ensures n > 0xFFFF_FFFF_FFFF_FFFF ==> ParseUint(Itoa(n)) == 0xFFFF_FFFF_FFFF_FFFF
    ensures 0 < n <= 0xFFFF_FFFF_FFFF_FFFF ==> ParseUint(Itoa(n) + ([c] + rest)) == 0
    ensures ParseUint([c] + rest) == 0
  {
    assert Digits(n) + "" == Digits(n);
    if n > 0xFFFF_FFFF_FFFF_FFFF {
      DigitsSaturate(n, "");
    } else {
      DigitsReadBack(n, [c] + rest);
    }
  }

  lemma {:induction false} NumbersAreDigits(s: string, n: nat)
    ensures NumberFrom(s, n).Some? <==> forall c | c in s :: '0' <= c <= '9'
  {
    if s != "" {
      assert s[0] in s && forall c | c in s[1..] :: c in s;
      assert forall c | c in s :: c == s[0] || c in s[1..];
      if IsDigit(s[0]) {
        NumbersAreDigits(s[1..], n * 10 + DigitOf(s[0]));
      }
    }
  }

  /** Indexes past 64 bits are refused, and so is whatever is not digits after a sign. */
  lemma IndexesOutOfRange(i: int, s: string)
    requires s != "" && s[0] != '-' && s[0] != '+'
    ensures i > 0x7FFF_FFFF_FFFF_FFFF || i < -0x8000_0000_0000_0000 ==> Atoi(PrintIndex(i)) == None
    ensures (exists c :: c in s && !('0' <= c <= '9')) ==> Atoi(s) == None && Atoi("-" + s) == None && Atoi("+" + s) == None
    ensures Atoi("+" + s) == Atoi(s) && Atoi("") == Atoi("-") == Atoi("+") == None
  {
    assert ("-" + s)[1..] == s && ("+" + s)[1..] == s;
    NumbersAreDigits(s, 0);
    if i != 0 {
      var n := if i < 0 then -i else i;
      DigitsReadBack(n, "");
      DigitsLead(n);
      assert Digits(n) + "" == Digits(n);
      assert IsDigit(Digits(n)[0]) by {
        assert Digits(n)[0] in Digits(n);
      }
      assert ("-" + Digits(n))[1..] == Digits(n);
    }
  }

  // ------------------------------------------------------------------------------------------
  // The records of a line
  // ------------------------------------------------------------------------------------------

  const VENDOR := Text("vendor")
  const INDEX := Text("index")
  const NAME := Text("name")
  const UUID := Text("uuid")
  const PCI_BUS_ID := Text("pci_bus_id")
  const DRIVER_VERSION := Text("driver_version")
  const MEMORY_TOTAL := Text("memory_total_bytes")
  const STATUS := Text("status")

  datatype LineError = MissingField(name: Text) | InvalidIndex

  function Missing(kv: map<Text, Text>, required: seq<Text>): Option<Text> {
    if required == [] then None
    else if required[0] !in kv then Some(required[0]) else Missing(kv, required[1..])
  }

  function Get(kv: map<Text, Text>, key: Text, default: Text): Text {
    if key in kv then kv[key] else default
  }

  function DeviceOf(kv: map<Text, Text>, collectedAt: int): Result<Device, LineError> {
    match Missing(kv, [VENDOR, INDEX, NAME, UUID])
    case Some(name) => Err(MissingField(name))
    case None =>
      match Atoi(Get(kv, INDEX, NO_TEXT).chars)
      case None => Err(InvalidIndex)
      case Some(index) =>
        Ok(Device(Get(kv, VENDOR, NO_TEXT), index, Get(kv, NAME, NO_TEXT), Get(kv, UUID, NO_TEXT), Get(kv, PCI_BUS_ID, NO_TEXT),
          Get(kv, DRIVER_VERSION, NO_TEXT), ParseUint(Get(kv, MEMORY_TOTAL, NO_TEXT).chars), Get(kv, STATUS, AVAILABLE), collectedAt))
  }

  /** The line a collector script prints for a device. */
  function DeviceFields(d: Device): seq<Field> {
    [Field(Text("vendor"), d.vendor, true), Field(Text("index"), Text(PrintIndex(d.index)), false), Field(Text("name"), d.name, true),
     Field(Text("uuid"), d.uuid, true), Field(Text("pci_bus_id"), d.pciBusId, true), Field(Text("driver_version"), d.driver, true),
     Field(Text("memory_total_bytes"), Text(Itoa(d.memoryTotal)), false), Field(Text("status"), d.status, true)]
  }

  predicate PrintableDevice(d: Device) {
    && CleanQuoted(d.vendor.chars) && CleanQuoted(d.name.chars) && CleanQuoted(d.uuid.chars) && CleanQuoted(d.pciBusId.chars)
    && CleanQuoted(d.driver.chars) && CleanQuoted(d.status.chars)
    && -MAX_INT - 1 <= d.index <= MAX_INT && d.memoryTotal <= MAX_UINT
  }

  ghost predicate DistinctFields(fs: seq<Field>) {
    forall i, j | 0 <= i < j < |fs| :: fs[i].key != fs[j].key
  }

  lemma FieldsAreStored(fs: seq<Field>, i: nat)
    requires DistinctFields(fs) && i < |fs|
    ensures HasField(Overwrite(map[], PairsOf(fs)), fs[i])
  {
    var ps := PairsOf(fs);
    assert forall j | 0 <= j < |fs| :: ps[j].0 == fs[j].key;
    DistinctAreKept(ps);
    assert ps[i] == (fs[i].key, fs[i].value);
  }

  ghost predicate HasField(kv: map<Text, Text>, f: Field) {
    f.key in kv && kv[f.key] == f.value
  }

  lemma NumbersAreClean(i: int)
    ensures CleanBare(Itoa(i)) && CleanBare(PrintIndex(i))
  {
    var n := if i < 0 then -i else i;
    assert forall c | c in Digits(n) :: !Blank(c) && c != '"';
    assert Digits(n) != "" ==> Digits(n)[0] in Digits(n);
  }

  lemma IdentityKeysAreClean()
    ensures CleanKey(VENDOR.chars) && CleanKey(INDEX.chars) && CleanKey(NAME.chars) && CleanKey(UUID.chars)
  {
  }

  lemma DetailKeysAreClean()
    ensures CleanKey(PCI_BUS_ID.chars) && CleanKey(DRIVER_VERSION.chars) && CleanKey(STATUS.chars)
  {
  }

  lemma KeysAreClean()
    ensures CleanKey(VENDOR.chars) && CleanKey(INDEX.chars) && CleanKey(NAME.chars) && CleanKey(UUID.chars)
    ensures CleanKey(PCI_BUS_ID.chars) && CleanKey(DRIVER_VERSION.chars)
    ensures CleanKey(MEMORY_TOTAL.chars) && CleanKey(STATUS.chars)
  {
    IdentityKeysAreClean();
    DetailKeysAreClean();
  }

  /** The eight keys start with eight letters. */
  lemma KeysDiffer(d: Device)
    ensures DistinctFields(DeviceFields(d))
  {
    var fs := DeviceFields(d);
    var letters := ['v', 'i', 'n', 'u', 'p', 'd', 'm', 's'];
    assert fs[0].key.chars[0] == 'v' && fs[1].key.chars[0] == 'i' && fs[2].key.chars[0] == 'n' && fs[3].key.chars[0] == 'u';
    assert fs[4].key.chars[0] == 'p' && fs[5].key.chars[0] == 'd' && fs[6].key.chars[0] == 'm' && fs[7].key.chars[0] == 's';
    assert forall i | 0 <= i < |fs| :: |fs[i].key.chars| > 0 && fs[i].key.chars[0] == letters[i];
    assert forall i, j | 0 <= i < j < 8 :: letters[i] != letters[j];
  }

  lemma DeviceFieldsAreClean(d: Device)
    requires PrintableDevice(d)
    ensures forall f | f in DeviceFields(d) :: Clean(f)
  {
    KeysAreClean();
    NumbersAreClean(d.index);
    NumbersAreClean(d.memoryTotal);
  }

  /** A device whose texts are clean is read back from the line printed for it. */
  lemma DeviceRoundTrip(d: Device)
    requires PrintableDevice(d)
    ensures ParsePairs(Line(DeviceFields(d))) == Ok(PairsOf(DeviceFields(d)))
    ensures DeviceOf(Overwrite(map[], PairsOf(DeviceFields(d))), d.collectedAt) == Ok(d)
  {
    var fs := DeviceFields(d);
    KeysDiffer(d);
    DeviceFieldsAreClean(d);
    LineRoundTrip(fs);
    forall i | 0 <= i < |fs|
      ensures HasField(Overwrite(map[], PairsOf(fs)), fs[i])
    {
      FieldsAreStored(fs, i);
    }
    NumbersReadBack(d.index);
    NumbersReadBack(d.memoryTotal);
    DeviceIsRebuilt(Overwrite(map[], PairsOf(fs)), d);
  }

  lemma DeviceIsRebuilt(kv: map<Text, Text>, d: Device)
    requires var fs := DeviceFields(d); forall i | 0 <= i < |fs| :: HasField(kv, fs[i])
    requires Atoi(PrintIndex(d.index)) == Some(d.index) && ParseUint(Itoa(d.memoryTotal)) == d.memoryTotal
    ensures DeviceOf(kv, d.collectedAt) == Ok(d)
  {
    var fs := DeviceFields(d);
    assert HasField(kv, fs[0]) && HasField(kv, fs[1]) && HasField(kv, fs[2]) && HasField(kv, fs[3]);
    assert HasField(kv, fs[4]) && HasField(kv, fs[5]) && HasField(kv, fs[6]) && HasField(kv, fs[7]);
    NothingMissing(kv, [VENDOR, INDEX, NAME, UUID]);
  }

  lemma {:induction false} NothingMissing(kv: map<Text, Text>, required: seq<Text>)
    ensures Missing(kv, required) == None <==> forall k | k in required :: k in kv
  {
    if required != [] {
      NothingMissing(kv, required[1..]);
      assert required == [required[0]] + required[1..];
    }
  }

  function Or(kv: map<Text, Text>, key: string, default: string): Text {
    if Text(key) in kv then kv[Text(key)] else Text(default)
  }

  lemma MissingNext(kv: map<Text, Text>, first: Text, rest: seq<Text>)
    ensures Missing(kv, [first] + rest) == if first in kv then Missing(kv, rest) else Some(first)
  {
    assert ([first] + rest)[1..] == rest;
  }

  /** A device line is refused for the first required field it lacks, or a bad index; fields it need not have get defaults. */
  lemma DeviceLineOutcome(kv: map<Text, Text>, at: int)
    ensures match DeviceOf(kv, at)
      case Err(MissingField(f)) =>
        if Text("vendor") !in kv then f == Text("vendor") else if Text("index") !in kv then f == Text("index")
        else if Text("name") !in kv then f == Text("name") else f == Text("uuid") && f !in kv
      case Err(InvalidIndex) =>
        Text("vendor") in kv && Text("index") in kv && Text("name") in kv && Text("uuid") in kv && Atoi(Or(kv, "index", "").chars) == None
      case Ok(d) =>
        && Text("vendor") in kv && Text("index") in kv && Text("name") in kv && Text("uuid") in kv
        && Atoi(Or(kv, "index", "").chars) == Some(d.index)
        && d.vendor == Or(kv, "vendor", "") && d.name == Or(kv, "name", "") && d.uuid == Or(kv, "uuid", "")
        && d.pciBusId == Or(kv, "pci_bus_id", "") && d.driver == Or(kv, "driver_version", "") && d.status == Or(kv, "status", "available")
        && d.memoryTotal == ParseUint(Or(kv, "memory_total_bytes", "0").chars) && d.collectedAt == at
  {
    UintReadsBack(0);
    NothingMissing(kv, [VENDOR, INDEX, NAME, UUID]);
    MissingNext(kv, VENDOR, [INDEX, NAME, UUID]);
    MissingNext(kv, INDEX, [NAME, UUID]);
    MissingNext(kv, NAME, [UUID]);
    MissingNext(kv, UUID, []);
  }

  // ------------------------------------------------------------------------------------------
  // METRIC lines
  // ------------------------------------------------------------------------------------------

  const MEMORY_USED := Text("memory_used_bytes")
  const MEMORY_FREE := Text("memory_free_bytes")
  const UTILIZATION := "utilization_percent"
  const GPU_UTILIZATION := Text("gpu_" + UTILIZATION)
  const MEMORY_UTILIZATION := Text("memory_" + UTILIZATION)
  const TEMPERATURE := Text("temperature_celsius")
  const POWER_DRAW := Text("power_draw_watts")
  const HEALTH := Text("health")

  /** The characters strings.TrimSpace removes: the White_Space property of Unicode. */
  predicate Space(c: char) {
    c as int in {9, 10, 11, 12, 13, 32, 0x85, 0xA0, 0x1680, 0x2028, 0x2029, 0x202F, 0x205F, 0x3000} || 0x2000 <= c as int <= 0x200A
  }

  function TrimLeft(s: string): (t: string)
    ensures |t| <= |s| && (t == "" || !Space(t[0]))
  {
    if s != "" && Space(s[0]) then TrimLeft(s[1..]) else s
  }

  function TrimRight(s: string): (t: string)
    ensures |t| <= |s| && (t == "" || !Space(t[|t| - 1]))
  {
    if s != "" && Space(s[|s| - 1]) then TrimRight(s[..|s| - 1]) else s
  }

  function Trim(s: string): string {
    TrimRight(TrimLeft(s))
  }

  lemma TrimKeeps(s: string)
    requires s != "" && !Space(s[0]) && !Space(s[|s| - 1])
    ensures Trim(s) == s
  {
  }

  const NOT_AVAILABLE := "N/A"

  /** strconv.ParseFloat is a parameter; some words stand for a reading that is not there. */
  function FloatOrNil(s: string, float: string -> Option<real>): Option<real> {
    var t := Trim(s);
    if t == "" || t == "null" || t == NOT_AVAILABLE || t == "[N/A]" || t == "Unknown" then None else float(t)
  }

  function Reading(kv: map<Text, Text>, key: Text, float: string -> Option<real>): Option<real> {
    if key in kv then FloatOrNil(kv[key].chars, float) else None
  }

  function Bytes(kv: map<Text, Text>, key: Text): nat {
    if key in kv then ParseUint(kv[key].chars) else 0
  }

  function MetricOf(kv: map<Text, Text>, collectedAt: int, float: string -> Option<real>): Result<Metric, LineError> {
    match Missing(kv, [VENDOR, INDEX, UUID])
    case Some(name) => Err(MissingField(name))
    case None =>
      match Atoi(Get(kv, INDEX, NO_TEXT).chars)
      case None => Err(InvalidIndex)
      case Some(index) =>
        Ok(Metric(Get(kv, VENDOR, NO_TEXT), index, Get(kv, NAME, NO_TEXT), Get(kv, UUID, NO_TEXT), Bytes(kv, MEMORY_TOTAL),
          Bytes(kv, MEMORY_USED), Bytes(kv, MEMORY_FREE),
          Readings(Reading(kv, GPU_UTILIZATION, float), Reading(kv, MEMORY_UTILIZATION, float), Reading(kv, TEMPERATURE, float),
                   Reading(kv, POWER_DRAW, float)),
          Get(kv, HEALTH, UNKNOWN), collectedAt))
  }

  /** Readings that say nothing are absent, and absent fields are no readings. */
  ghost predicate ReadingTold(r: Option<real>, kv: map<Text, Text>, key: string, float: string -> Option<real>) {
    if Text(key) !in kv then r == None
    else var t := Trim(kv[Text(key)].chars);
      r == if t == "" || t == "null" || t == "N/A" || t == "[N/A]" || t == "Unknown" then None else float(t)
  }

  lemma ReadingIsTold(kv: map<Text, Text>, key: string, float: string -> Option<real>)
    ensures ReadingTold(Reading(kv, Text(key), float), kv, key, float)
  {
  }

  lemma {:induction false} TrimLeftDrops(s: string, c: char)
    requires Space(c)
    ensures TrimLeft(s + [c]) == if TrimLeft(s) == "" then "" else TrimLeft(s) + [c]
  {
    if s == "" {
      assert s + [c] == [c] && [c][1..] == "";
    } else if Space(s[0]) {
      assert (s + [c])[1..] == s[1..] + [c];
      TrimLeftDrops(s[1..], c);
    }
  }

  /** Blanks around a text do not count, and a text without them is kept. */
  lemma TrimDrops(s: string, c: char)
    requires Space(c)
    ensures Trim([c] + s) == Trim(s) && Trim(s + [c]) == Trim(s)
    ensures s != "" && !Space(s[0]) && !Space(s[|s| - 1]) ==> Trim(s) == s
  {
    assert ([c] + s)[1..] == s;
    TrimLeftDrops(s, c);
    var t := TrimLeft(s) + [c];
    assert t[..|t| - 1] == TrimLeft(s);
  }

  /** A metric line is refused like a device line, for vendor, index and uuid. */
  lemma MetricLineOutcome(kv: map<Text, Text>, at: int, float: string -> Option<real>)
    ensures match MetricOf(kv, at, float)
      case Err(MissingField(f)) =>
        if Text("vendor") !in kv then f == Text("vendor") else if Text("index") !in kv then f == Text("index") else f == Text("uuid") && f !in kv
      case Err(InvalidIndex) => Text("vendor") in kv && Text("index") in kv && Text("uuid") in kv && Atoi(Or(kv, "index", "").chars) == None
      case Ok(m) =>
        && Text("vendor") in kv && Text("index") in kv && Text("uuid") in kv && Atoi(Or(kv, "index", "").chars) == Some(m.index)
        && m.vendor == Or(kv, "vendor", "") && m.name == Or(kv, "name", "") && m.uuid == Or(kv, "uuid", "") && m.health == Or(kv, "health", "unknown")
        && m.memoryTotal == ParseUint(Or(kv, "memory_total_bytes", "0").chars) && m.collectedAt == at
        && m.memoryUsed == ParseUint(Or(kv, "memory_used_bytes", "0").chars) && m.memoryFree == ParseUint(Or(kv, "memory_free_bytes", "0").chars)
        && ReadingTold(m.readings.gpuUtilization, kv, "gpu_" + "utilization_percent", float)
        && ReadingTold(m.readings.memoryUtilization, kv, "memory_" + "utilization_percent", float)
        && ReadingTold(m.readings.temperature, kv, "temperature_celsius", float) && ReadingTold(m.readings.powerDraw, kv, "power_draw_watts", float)
  {
    UintReadsBack(0);
    NothingMissing(kv, [VENDOR, INDEX, UUID]);
    MissingNext(kv, VENDOR, [INDEX, UUID]);
    MissingNext(kv, INDEX, [UUID]);
    MissingNext(kv, UUID, []);
    ReadingIsTold(kv, "gpu_" + "utilization_percent", float);
    ReadingIsTold(kv, "memory_" + "utilization_percent", float);
    ReadingIsTold(kv, "temperature_celsius", float);
    ReadingIsTold(kv, "power_draw_watts", float);
  }

  function PrintReading(r: Option<real>, show: real -> string): string {
    if r.Some? then show(r.value) else "N/A"
  }

  /** The line a collector script prints for a metric. */
  function MetricFields(m: Metric, show: real -> string): seq<Field> {
    [Field(Text("vendor"), m.vendor, true), Field(Text("index"), Text(PrintIndex(m.index)), false), Field(Text("name"), m.name, true),
     Field(Text("uuid"), m.uuid, true), Field(Text("memory_total_bytes"), Text(Itoa(m.memoryTotal)), false),
     Field(Text("memory_used_bytes"), Text(Itoa(m.memoryUsed)), false), Field(Text("memory_free_bytes"), Text(Itoa(m.memoryFree)), false),
     Field(Text("gpu_" + "utilization_percent"), Text(PrintReading(m.readings.gpuUtilization, show)), false),
     Field(Text("memory_" + "utilization_percent"), Text(PrintReading(m.readings.memoryUtilization, show)), false),
     Field(Text("temperature_celsius"), Text(PrintReading(m.readings.temperature, show)), false),
     Field(Text("power_draw_watts"), Text(PrintReading(m.readings.powerDraw, show)), false), Field(Text("health"), m.health, true)]
  }

  /** The number is printed without spaces or quotes, in no word for a missing one, and is read back. */
  ghost predicate PrintableReading(r: Option<real>, show: real -> string, float: string -> Option<real>) {
    CleanBare(PrintReading(r, show)) && FloatOrNil(PrintReading(r, show), float) == r
  }

  ghost predicate PrintableMetric(m: Metric, show: real -> string, float: string -> Option<real>) {
    && CleanQuoted(m.vendor.chars) && CleanQuoted(m.name.chars) && CleanQuoted(m.uuid.chars) && CleanQuoted(m.health.chars)
    && -MAX_INT - 1 <= m.index <= MAX_INT && m.memoryTotal <= MAX_UINT && m.memoryUsed <= MAX_UINT && m.memoryFree <= MAX_UINT
    && PrintableReading(m.readings.gpuUtilization, show, float) && PrintableReading(m.readings.memoryUtilization, show, float)
    && PrintableReading(m.readings.temperature, show, float) && PrintableReading(m.readings.powerDraw, show, float)
  }

  lemma MoreKeysAreClean()
    ensures CleanKey(MEMORY_USED.chars) && CleanKey(MEMORY_FREE.chars) && CleanKey(HEALTH.chars)
  {
  }

  lemma UtilizationKeysAreClean()
    ensures CleanKey(GPU_UTILIZATION.chars) && CleanKey(MEMORY_UTILIZATION.chars)
  {
    assert '=' !in UTILIZATION && '=' !in "gpu_" && '=' !in "memory_";
    assert ("gpu_" + UTILIZATION)[0] == 'g' && ("memory_" + UTILIZATION)[0] == 'm';
  }

  lemma OtherReadingKeysAreClean()
    ensures CleanKey(TEMPERATURE.chars) && CleanKey(POWER_DRAW.chars)
  {
  }

  lemma MetricFieldsAreClean(m: Metric, show: real -> string, float: string -> Option<real>)
    requires PrintableMetric(m, show, float)
    ensures forall f | f in MetricFields(m, show) :: Clean(f)
  {
    KeysAreClean();
    MoreKeysAreClean();
    UtilizationKeysAreClean();
    OtherReadingKeysAreClean();
    NumbersAreClean(m.index);
    NumbersAreClean(m.memoryTotal);
    NumbersAreClean(m.memoryUsed);
    NumbersAreClean(m.memoryFree);
  }

  /** First letter, length and eighth letter tell the twelve keys apart. */
  function Mark(key: Text): int {
    var k := key.chars;
    if k == "" then 0 else k[0] as int + 1000 * |k| + if |k| > 7 then 100000 * k[7] as int else 0
  }

  const MARKS := [6118, 5105, 4110, 4117, 11618109, 11717109, 10217109, 10823103, 11726109, 11619116, 11416112, 6104]

  lemma IdentityMarks()
    ensures Mark(VENDOR) == 6118 && Mark(INDEX) == 5105 && Mark(NAME) == 4110 && Mark(UUID) == 4117 && Mark(HEALTH) == 6104
  {
  }

  lemma MemoryMarks()
    ensures Mark(MEMORY_TOTAL) == 11618109 && Mark(MEMORY_USED) == 11717109 && Mark(MEMORY_FREE) == 10217109
  {
  }

  lemma ReadingMarks()
    ensures Mark(GPU_UTILIZATION) == 10823103 && Mark(MEMORY_UTILIZATION) == 11726109
    ensures Mark(TEMPERATURE) == 11619116 && Mark(POWER_DRAW) == 11416112
  {
  }

  lemma MetricKeysDiffer(m: Metric, show: real -> string)
    ensures DistinctFields(MetricFields(m, show))
  {
    var fs := MetricFields(m, show);
    IdentityMarks();
    MemoryMarks();
    ReadingMarks();
    assert forall i | 0 <= i < |fs| :: Mark(fs[i].key) == MARKS[i];
    assert forall i, j | 0 <= i < j < 12 :: MARKS[i] != MARKS[j];
  }

  lemma MetricIsRebuilt(kv: map<Text, Text>, m: Metric, show: real -> string, float: string -> Option<real>)
    requires PrintableMetric(m, show, float)
    requires var fs := MetricFields(m, show); forall i | 0 <= i < |fs| :: HasField(kv, fs[i])
    requires Atoi(PrintIndex(m.index)) == Some(m.index) && ParseUint(Itoa(m.memoryTotal)) == m.memoryTotal
    requires ParseUint(Itoa(m.memoryUsed)) == m.memoryUsed && ParseUint(Itoa(m.memoryFree)) == m.memoryFree
    ensures MetricOf(kv, m.collectedAt, float) == Ok(m)
  {
    var fs := MetricFields(m, show);
    assert HasField(kv, fs[0]) && HasField(kv, fs[1]) && HasField(kv, fs[2]) && HasField(kv, fs[3]);
    assert HasField(kv, fs[4]) && HasField(kv, fs[5]) && HasField(kv, fs[6]) && HasField(kv, fs[7]);
    assert HasField(kv, fs[8]) && HasField(kv, fs[9]) && HasField(kv, fs[10]) && HasField(kv, fs[11]);
    NothingMissing(kv, [VENDOR, INDEX, UUID]);
  }

  /** A metric whose texts are clean and whose readings print as numbers is read back from the line printed for it. */
  lemma MetricRoundTrip(m: Metric, show: real -> string, float: string -> Option<real>)
    requires PrintableMetric(m, show, float)
    ensures ParsePairs(Line(MetricFields(m, show))) == Ok(PairsOf(MetricFields(m, show)))
    ensures MetricOf(Overwrite(map[], PairsOf(MetricFields(m, show))), m.collectedAt, float) == Ok(m)
  {
    var fs := MetricFields(m, show);
    MetricKeysDiffer(m, show);
    MetricFieldsAreClean(m, show, float);
    LineRoundTrip(fs);
    forall i | 0 <= i < |fs|
      ensures HasField(Overwrite(map[], PairsOf(fs)), fs[i])
    {
      FieldsAreStored(fs, i);
    }
    NumbersReadBack(m.index);
    NumbersReadBack(m.memoryTotal);
    NumbersReadBack(m.memoryUsed);
    NumbersReadBack(m.memoryFree);
    MetricIsRebuilt(Overwrite(map[], PairsOf(fs)), m, show, float);
  }

  // ------------------------------------------------------------------------------------------
  // The parsers of the lines
  // ------------------------------------------------------------------------------------------

  method FirstMissing(kv: map<Text, Text>, required: seq<Text>) returns (r: Option<Text>)
    ensures r == Missing(kv, required)
  {
    assert required[0..] == required;
    for k := 0 to |required|
      invariant Missing(kv, required) == Missing(kv, required[k..])
    {
      assert required[k..][1..] == required[k + 1..];
      if required[k] !in kv {
        return Some(required[k]);
      }
    }
    r := None;
  }

  method ParseDeviceLine(kv: map<Text, Text>, collectedAt: int) returns (r: Result<Device, LineError>)
    ensures r == DeviceOf(kv, collectedAt)
  {
    var missing := FirstMissing(kv, [VENDOR, INDEX, NAME, UUID]);
    if missing.Some? {
      return Err(MissingField(missing.value));
    }
    NothingMissing(kv, [VENDOR, INDEX, NAME, UUID]);
    var index := Atoi(kv[INDEX].chars);
    if index == None {
      return Err(InvalidIndex);
    }
    var memTotal := 0;
    if MEMORY_TOTAL in kv {
      memTotal := ParseUint(kv[MEMORY_TOTAL].chars);
    }
    var status := AVAILABLE;
    if STATUS in kv {
      status := kv[STATUS];
    }
    r := Ok(Device(kv[VENDOR], index.value, kv[NAME], kv[UUID], Get(kv, PCI_BUS_ID, NO_TEXT), Get(kv, DRIVER_VERSION, NO_TEXT),
                   memTotal, status, collectedAt));
  }

  method ParseMetricLine(kv: map<Text, Text>, collectedAt: int, float: string -> Option<real>) returns (r: Result<Metric, LineError>)
    ensures r == MetricOf(kv, collectedAt, float)
  {
    var missing := FirstMissing(kv, [VENDOR, INDEX, UUID]);
    if missing.Some? {
      return Err(MissingField(missing.value));
    }
    NothingMissing(kv, [VENDOR, INDEX, UUID]);
    var index := Atoi(kv[INDEX].chars);
    if index == None {
      return Err(InvalidIndex);
    }
    var metric := Metric(kv[VENDOR], index.value, Get(kv, NAME, NO_TEXT), kv[UUID], 0, 0, 0, NoReadings, Get(kv, HEALTH, UNKNOWN), collectedAt);
    if MEMORY_TOTAL in kv {
      metric := metric.(memoryTotal := ParseUint(kv[MEMORY_TOTAL].chars));
    }
    if MEMORY_USED in kv {
      metric := metric.(memoryUsed := ParseUint(kv[MEMORY_USED].chars));
    }
    if MEMORY_FREE in kv {
      metric := metric.(memoryFree := ParseUint(kv[MEMORY_FREE].chars));
    }
    var readings := NoReadings;
    if GPU_UTILIZATION in kv {
      readings := readings.(gpuUtilization := FloatOrNil(kv[GPU_UTILIZATION].chars, float));
    }
    if MEMORY_UTILIZATION in kv {
      readings := readings.(memoryUtilization := FloatOrNil(kv[MEMORY_UTILIZATION].chars, float));
    }
    if TEMPERATURE in kv {
      readings := readings.(temperature := FloatOrNil(kv[TEMPERATURE].chars, float));
    }
    if POWER_DRAW in kv {
      readings := readings.(powerDraw := FloatOrNil(kv[POWER_DRAW].chars, float));
    }
    r := Ok(metric.(readings := readings));
  }
}

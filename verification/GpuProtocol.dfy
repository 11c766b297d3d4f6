/**
 The output of a GPU collector script, line by line: a word for the type of the line, a space, and the
 fields. Devices and metrics are collected in order; the first bad line ends the reading.
 */
module GpuProtocol {
  import opened Results
  import opened Texts
  import opened PairLists
  import opened KeyValues
  import opened GpuMerge
  import opened GpuLines

  datatype Diagnosis = Diagnosis(name: Text, vendor: Text, available: bool, error: Text)

  datatype Report = Report(devices: seq<Device>, metrics: seq<Metric>, diagnosis: Diagnosis)

  const NoReport := Report([], [], Diagnosis(NO_TEXT, NO_TEXT, false, NO_TEXT))

  datatype Problem = NoFields | BadText(parse: ParseError) | BadFields(record: LineError) | UnknownType(word: string)

  datatype Answer = Complete(report: Report) | Failed(line: nat, problem: Problem, diagnosis: Diagnosis)

  const STATUS_LINE := "STATUS"
  const DEVICE_LINE := "DEVICE"
  const METRIC_LINE := "METRIC"
  const OK := Text("ok")
  const MESSAGE := Text("message")
  const TRUE := Text("true")

  // ------------------------------------------------------------------------------------------
  // The format
  // ------------------------------------------------------------------------------------------

  function EndOf(s: string, c: char): (n: nat)
    ensures n <= |s| && (n < |s| ==> s[n] == c)
  {
    if s == "" || s[0] == c then 0 else 1 + EndOf(s[1..], c)
  }

  /** The lines of a text; a newline at its end does not begin another one. */
  function Lines(output: string): seq<string>
    decreases |output|
  {
    if output == "" then []
    else
      var n := EndOf(output, '\n');
      [output[..n]] + if n == |output| then [] else Lines(output[n + 1..])
  }

  function Diagnose(d: Diagnosis, kv: map<Text, Text>): Diagnosis {
    var ok := Get(kv, OK, NO_TEXT) == TRUE;
    Diagnosis(Get(kv, NAME, NO_TEXT), Get(kv, VENDOR, NO_TEXT), ok, if MESSAGE in kv && !ok then kv[MESSAGE] else d.error)
  }

  function Record(r: Report, word: string, kv: map<Text, Text>, at: int, float: string -> Option<real>): Result<Report, Problem> {
    if word == STATUS_LINE then Ok(r.(diagnosis := Diagnose(r.diagnosis, kv)))
    else if word == DEVICE_LINE then
      match DeviceOf(kv, at)
      case Err(e) => Err(BadFields(e))
      case Ok(d) => Ok(r.(devices := r.devices + [d]))
    else if word == METRIC_LINE then
      match MetricOf(kv, at, float)
      case Err(e) => Err(BadFields(e))
      case Ok(m) => Ok(r.(metrics := r.metrics + [m]))
    else Err(UnknownType(word))
  }

  /** A trimmed line that is neither blank nor a comment. */
  function ReadFields(r: Report, line: string, at: int, float: string -> Option<real>): Result<Report, Problem> {
    var n := EndOf(line, ' ');
    if n == |line| then Err(NoFields)
    else match ParsePairs(line[n + 1..])
      case Err(e) => Err(BadText(e))
      case Ok(ps) => Record(r, line[..n], Overwrite(map[], ps), at, float)
  }

  function ReadLine(r: Report, text: string, at: int, float: string -> Option<real>): Result<Report, Problem> {
    var line := Trim(text);
    if line == "" || line[0] == '#' then Ok(r) else ReadFields(r, line, at, float)
  }

  function ReadLines(r: Report, lines: seq<string>, number: nat, at: int, float: string -> Option<real>): Answer
    decreases |lines|
  {
    if lines == [] then Complete(r)
    else match ReadLine(r, lines[0], at, float)
      case Err(e) => Failed(number, e, r.diagnosis)
      case Ok(next) => ReadLines(next, lines[1..], number + 1, at, float)
  }

  // ------------------------------------------------------------------------------------------
  // Round trip
  // ------------------------------------------------------------------------------------------

  /** A line a collector script prints. */
  datatype Item = ADevice(device: Device) | AMetric(metric: Metric) | AStatus(status: Diagnosis) | AComment(text: string)

  function StatusFields(d: Diagnosis): seq<Field> {
    [Field(Text("name"), d.name, true), Field(Text("vendor"), d.vendor, true),
     Field(Text("ok"), Text(if d.available then "true" else "false"), false), Field(Text("message"), d.error, true)]
  }

  function FieldsOf(i: Item, show: real -> string): seq<Field> {
    match i
    case ADevice(d) => DeviceFields(d)
    case AMetric(m) => MetricFields(m, show)
    case AStatus(d) => StatusFields(d)
    case AComment(_) => []
  }

  function WordOf(i: Item): string {
    match i
    case ADevice(_) => "DEVICE"
    case AMetric(_) => "METRIC"
    case AStatus(_) => "STATUS"
    case AComment(text) => "#" + text
  }

  function PrintItem(i: Item, show: real -> string): string {
    if i.AComment? then "#" + i.text else WordOf(i) + (" " + Line(FieldsOf(i, show)))
  }

  function Output(items: seq<Item>, show: real -> string): string {
    if items == [] then "" else PrintItem(items[0], show) + (['\n'] + Output(items[1..], show))
  }

  /** The item can be printed on one line, and was collected at this time. */
  ghost predicate Printable(i: Item, at: int, show: real -> string, float: string -> Option<real>) {
    && '\n' !in Line(FieldsOf(i, show))
    && match i
       case ADevice(d) => PrintableDevice(d) && d.collectedAt == at
       case AMetric(m) => PrintableMetric(m, show, float) && m.collectedAt == at
       case AStatus(d) => CleanQuoted(d.name.chars) && CleanQuoted(d.vendor.chars) && CleanQuoted(d.error.chars)
       case AComment(text) => '\n' !in text
  }

  /** A status replaces the diagnosis, but the message counts only when something is wrong. */
  function NextDiagnosis(d: Diagnosis, i: Item): Diagnosis {
    if i.AStatus? then Diagnosis(i.status.name, i.status.vendor, i.status.available, if i.status.available then d.error else i.status.error) else d
  }

  function Extended(r: Report, i: Item): Report {
    match i
    case ADevice(d) => r.(devices := r.devices + [d])
    case AMetric(m) => r.(metrics := r.metrics + [m])
    case AStatus(_) => r.(diagnosis := NextDiagnosis(r.diagnosis, i))
    case AComment(_) => r
  }

  function DevicesIn(items: seq<Item>): seq<Device> {
    if items == [] then [] else (if items[0].ADevice? then [items[0].device] else []) + DevicesIn(items[1..])
  }

  function MetricsIn(items: seq<Item>): seq<Metric> {
    if items == [] then [] else (if items[0].AMetric? then [items[0].metric] else []) + MetricsIn(items[1..])
  }

  function DiagnosisIn(d: Diagnosis, items: seq<Item>): Diagnosis
    decreases |items|
  {
    if items == [] then d else DiagnosisIn(NextDiagnosis(d, items[0]), items[1..])
  }

  /** The report with the devices and the metrics of the list added, each kind in the order of the list, and the last diagnosis. */
  function AllOf(r: Report, items: seq<Item>): Report {
    Report(r.devices + DevicesIn(items), r.metrics + MetricsIn(items), DiagnosisIn(r.diagnosis, items))
  }

  lemma OneThenRest(r: Report, i: Item, items: seq<Item>)
    ensures AllOf(Extended(r, i), items) == AllOf(r, [i] + items)
  {
    assert ([i] + items)[1..] == items;
    assert [] + DevicesIn(items) == DevicesIn(items) && [] + MetricsIn(items) == MetricsIn(items);
    match i
    case ADevice(d) => assert (r.devices + [d]) + DevicesIn(items) == r.devices + ([d] + DevicesIn(items));
    case AMetric(m) => assert (r.metrics + [m]) + MetricsIn(items) == r.metrics + ([m] + MetricsIn(items));
    case _ =>
  }

  lemma {:induction false} EndAfter(w: string, c: char, rest: string)
    requires c !in w
    ensures EndOf(w + ([c] + rest), c) == |w|
  {
    var s := w + ([c] + rest);
    if w == "" {
      assert s[0] == c;
    } else {
      assert s[0] == w[0] && s[1..] == w[1..] + ([c] + rest);
      EndAfter(w[1..], c, rest);
    }
  }

  lemma Around(w: string, c: char, rest: string)
    ensures var s := w + ([c] + rest); |w| < |s| && s[|w|] == c && s[..|w|] == w && s[|w| + 1..] == rest
  {
  }

  lemma {:induction false} LineEndsQuoted(fs: seq<Field>)
    requires fs != [] && fs[|fs| - 1].quoted
    ensures Line(fs) != "" && Line(fs)[|Line(fs)| - 1] == '"'
  {
    if |fs| == 1 {
      LastFieldText(fs[0]);
    } else {
      LineEndsQuoted(fs[1..]);
    }
  }

  lemma WordsAreOneWord(i: Item)
    requires !i.AComment?
    ensures ' ' !in WordOf(i) && '\n' !in WordOf(i) && WordOf(i) != "" && !Space(WordOf(i)[0]) && WordOf(i)[0] != '#'
  {
  }

  /** A printed record has nothing to trim. */
  lemma PrintedIsTrimmed(i: Item, show: real -> string)
    requires !i.AComment?
    ensures Trim(PrintItem(i, show)) == PrintItem(i, show) && PrintItem(i, show) != "" && PrintItem(i, show)[0] != '#'
  {
    var fs := FieldsOf(i, show);
    WordsAreOneWord(i);
    LineEndsQuoted(fs);
    var s := PrintItem(i, show);
    assert s[0] == WordOf(i)[0] && s[|s| - 1] == Line(fs)[|Line(fs)| - 1];
    TrimKeeps(s);
  }

  lemma PrintedParts(i: Item, show: real -> string)
    requires !i.AComment?
    ensures var s := PrintItem(i, show); var n := EndOf(s, ' ');
      n < |s| && s[..n] == WordOf(i) && s[n + 1..] == Line(FieldsOf(i, show))
  {
    WordsAreOneWord(i);
    Around(WordOf(i), ' ', Line(FieldsOf(i, show)));
    EndAfter(WordOf(i), ' ', Line(FieldsOf(i, show)));
    assert PrintItem(i, show) == WordOf(i) + ([' '] + Line(FieldsOf(i, show)));
  }

  lemma TypeWordsDiffer()
    ensures DEVICE_LINE != STATUS_LINE && METRIC_LINE != STATUS_LINE && METRIC_LINE != DEVICE_LINE
  {
    assert DEVICE_LINE[0] == 'D' && METRIC_LINE[0] == 'M' && STATUS_LINE[0] == 'S';
  }

  lemma DeviceIsRecorded(r: Report, kv: map<Text, Text>, d: Device, at: int, float: string -> Option<real>)
    requires DeviceOf(kv, at) == Ok(d)
    ensures Record(r, DEVICE_LINE, kv, at, float) == Ok(Extended(r, ADevice(d)))
  {
    TypeWordsDiffer();
  }

  lemma MetricIsRecorded(r: Report, kv: map<Text, Text>, m: Metric, at: int, float: string -> Option<real>)
    requires MetricOf(kv, at, float) == Ok(m)
    ensures Record(r, METRIC_LINE, kv, at, float) == Ok(Extended(r, AMetric(m)))
  {
    TypeWordsDiffer();
  }

  lemma StatusKeysDiffer(d: Diagnosis)
    ensures DistinctFields(StatusFields(d))
  {
    var fs := StatusFields(d);
    var letters := ['n', 'v', 'o', 'm'];
    assert fs[0].key.chars[0] == 'n' && fs[1].key.chars[0] == 'v' && fs[2].key.chars[0] == 'o' && fs[3].key.chars[0] == 'm';
    assert forall i | 0 <= i < |fs| :: |fs[i].key.chars| > 0 && fs[i].key.chars[0] == letters[i];
    assert forall i, j | 0 <= i < j < 4 :: letters[i] != letters[j];
  }

  lemma StatusTextsAreClean()
    ensures CleanKey("ok") && CleanKey("message") && CleanBare("true") && CleanBare("false")
  {
  }

  lemma StatusFieldsAreClean(d: Diagnosis)
    requires CleanQuoted(d.name.chars) && CleanQuoted(d.vendor.chars) && CleanQuoted(d.error.chars)
    ensures forall f | f in StatusFields(d) :: Clean(f)
  {
    IdentityKeysAreClean();
    StatusTextsAreClean();
  }

  lemma StatusIsRebuilt(before: Diagnosis, kv: map<Text, Text>, d: Diagnosis)
    requires var fs := StatusFields(d); forall i | 0 <= i < |fs| :: HasField(kv, fs[i])
    ensures Diagnose(before, kv) == NextDiagnosis(before, AStatus(d))
  {
    var fs := StatusFields(d);
    assert HasField(kv, fs[0]) && HasField(kv, fs[1]) && HasField(kv, fs[2]) && HasField(kv, fs[3]);
    assert |"true"| != |"false"|;
  }

  /** A status is read back from the line printed for it. */
  lemma StatusRoundTrip(r: Report, d: Diagnosis, at: int, float: string -> Option<real>)
    requires CleanQuoted(d.name.chars) && CleanQuoted(d.vendor.chars) && CleanQuoted(d.error.chars)
    ensures ParsePairs(Line(StatusFields(d))) == Ok(PairsOf(StatusFields(d)))
    ensures Record(r, "STATUS", Overwrite(map[], PairsOf(StatusFields(d))), at, float) == Ok(Extended(r, AStatus(d)))
  {
    var fs := StatusFields(d);
    StatusKeysDiffer(d);
    StatusFieldsAreClean(d);
    LineRoundTrip(fs);
    forall i | 0 <= i < |fs|
      ensures HasField(Overwrite(map[], PairsOf(fs)), fs[i])
    {
      FieldsAreStored(fs, i);
    }
    StatusIsRebuilt(r.diagnosis, Overwrite(map[], PairsOf(fs)), d);
  }

  lemma ItemIsRecorded(r: Report, i: Item, at: int, show: real -> string, float: string -> Option<real>)
    requires Printable(i, at, show, float) && !i.AComment?
    ensures ParsePairs(Line(FieldsOf(i, show))) == Ok(PairsOf(FieldsOf(i, show)))
    ensures Record(r, WordOf(i), Overwrite(map[], PairsOf(FieldsOf(i, show))), at, float) == Ok(Extended(r, i))
  {
    match i
    case ADevice(d) =>
      DeviceRoundTrip(d);
      DeviceIsRecorded(r, Overwrite(map[], PairsOf(DeviceFields(d))), d, at, float);
    case AMetric(m) =>
      MetricRoundTrip(m, show, float);
      MetricIsRecorded(r, Overwrite(map[], PairsOf(MetricFields(m, show))), m, at, float);
    case AStatus(d) => StatusRoundTrip(r, d, at, float);
  }

  lemma {:induction false} TrimRightKeepsFirst(s: string)
    requires s != "" && !Space(s[0])
    ensures TrimRight(s) != "" && TrimRight(s)[0] == s[0]
  {
    if Space(s[|s| - 1]) {
      TrimRightKeepsFirst(s[..|s| - 1]);
    }
  }

  /** Comments and blank lines are skipped. */
  lemma NoiseIsSkipped(r: Report, text: string, at: int, float: string -> Option<real>)
    ensures ReadLine(r, "#" + text, at, float) == Ok(r)
    ensures (forall c | c in text :: Space(c)) ==> ReadLine(r, text, at, float) == Ok(r)
  {
    TrimRightKeepsFirst("#" + text);
    if forall c | c in text :: Space(c) {
      AllBlank(text);
    }
  }

  lemma {:induction false} AllBlank(text: string)
    requires forall c | c in text :: Space(c)
    ensures TrimLeft(text) == ""
  {
    if text != "" {
      AllBlank(text[1..]);
    }
  }

  lemma FieldsAfterWord(r: Report, s: string, word: string, line: string, at: int, float: string -> Option<real>)
    requires EndOf(s, ' ') == |word| < |s| && s[..|word|] == word && s[|word| + 1..] == line && ParsePairs(line).Ok?
    ensures ReadFields(r, s, at, float) == Record(r, word, Overwrite(map[], ParsePairs(line).value), at, float)
  {
  }

  lemma TrimmedIsRead(r: Report, s: string, at: int, float: string -> Option<real>)
    requires Trim(s) == s && s != "" && s[0] != '#'
    ensures ReadLine(r, s, at, float) == ReadFields(r, s, at, float)
  {
  }

  lemma RecordRoundTrip(r: Report, i: Item, at: int, show: real -> string, float: string -> Option<real>)
    requires Printable(i, at, show, float) && !i.AComment?
    ensures ReadLine(r, PrintItem(i, show), at, float) == Ok(Extended(r, i))
  {
    PrintedIsTrimmed(i, show);
    TrimmedIsRead(r, PrintItem(i, show), at, float);
    PrintedParts(i, show);
    ItemIsRecorded(r, i, at, show, float);
    FieldsAfterWord(r, PrintItem(i, show), WordOf(i), Line(FieldsOf(i, show)), at, float);
  }

  lemma ItemRoundTrip(r: Report, i: Item, at: int, show: real -> string, float: string -> Option<real>)
    requires Printable(i, at, show, float)
    ensures ReadLine(r, PrintItem(i, show), at, float) == Ok(Extended(r, i))
  {
    if i.AComment? {
      NoiseIsSkipped(r, i.text, at, float);
    } else {
      RecordRoundTrip(r, i, at, show, float);
    }
  }

  lemma LinesOnce(t: string, k: nat)
    requires t != "" && k == EndOf(t, '\n')
    ensures Lines(t) == [t[..k]] + if k == |t| then [] else Lines(t[k + 1..])
  {
  }

  lemma FirstLine(line: string, rest: string)
    requires '\n' !in line
    ensures Lines(line + (['\n'] + rest)) == [line] + Lines(rest)
  {
    EndAfter(line, '\n', rest);
    Around(line, '\n', rest);
    LinesOnce(line + (['\n'] + rest), |line|);
  }

  lemma NextLine(r: Report, line: string, next: Report, more: seq<string>, number: nat, at: int, float: string -> Option<real>)
    requires ReadLine(r, line, at, float) == Ok(next)
    ensures ReadLines(r, [line] + more, number, at, float) == ReadLines(next, more, number + 1, at, float)
  {
    assert ([line] + more)[1..] == more;
  }

  lemma NoNewline(i: Item, at: int, show: real -> string, float: string -> Option<real>)
    requires Printable(i, at, show, float)
    ensures '\n' !in PrintItem(i, show)
  {
    if !i.AComment? {
      WordsAreOneWord(i);
    }
  }

  lemma ItemThenRest(r: Report, i: Item, rest: string, number: nat, at: int, show: real -> string, float: string -> Option<real>)
    requires Printable(i, at, show, float)
    ensures ReadLines(r, Lines(PrintItem(i, show) + (['\n'] + rest)), number, at, float)
            == ReadLines(Extended(r, i), Lines(rest), number + 1, at, float)
  {
    NoNewline(i, at, show, float);
    FirstLine(PrintItem(i, show), rest);
    ItemRoundTrip(r, i, at, show, float);
    NextLine(r, PrintItem(i, show), Extended(r, i), Lines(rest), number, at, float);
  }

  lemma OutputThen(items: seq<Item>, tail: string, show: real -> string)
    requires items != []
    ensures Output(items, show) + tail == PrintItem(items[0], show) + (['\n'] + (Output(items[1..], show) + tail))
  {
  }

  lemma NothingAdded(r: Report)
    ensures AllOf(r, []) == r
  {
    assert r.devices + [] == r.devices && r.metrics + [] == r.metrics && DiagnosisIn(r.diagnosis, []) == r.diagnosis;
  }

  lemma ReadFirst(r: Report, items: seq<Item>, tail: string, number: nat, at: int, show: real -> string, float: string -> Option<real>)
    requires items != [] && Printable(items[0], at, show, float)
    ensures ReadLines(r, Lines(Output(items, show) + tail), number, at, float)
            == ReadLines(Extended(r, items[0]), Lines(Output(items[1..], show) + tail), number + 1, at, float)
  {
    OutputThen(items, tail, show);
    ItemThenRest(r, items[0], Output(items[1..], show) + tail, number, at, show, float);
  }

  lemma AllOfFirst(r: Report, items: seq<Item>)
    requires items != []
    ensures AllOf(Extended(r, items[0]), items[1..]) == AllOf(r, items)
  {
    OneThenRest(r, items[0], items[1..]);
    assert items == [items[0]] + items[1..];
  }

  lemma NoOutput(tail: string, show: real -> string)
    ensures Output([], show) + tail == tail
  {
  }

  /** The reading goes on after what was printed, with all of it in the report. */
  lemma {:induction false} ReadOn(r: Report, items: seq<Item>, z: Report, tail: string, number: nat, last: nat, at: int, show: real -> string, float: string -> Option<real>)
    requires (forall i | i in items :: Printable(i, at, show, float)) && z == AllOf(r, items) && last == number + |items|
    ensures ReadLines(r, Lines(Output(items, show) + tail), number, at, float) == ReadLines(z, Lines(tail), last, at, float)
    decreases |items|
  {
    if items == [] {
      NothingAdded(r);
      NoOutput(tail, show);
    } else {
      ReadFirst(r, items, tail, number, at, show, float);
      AllOfFirst(r, items);
      ReadOn(Extended(r, items[0]), items[1..], z, tail, number + 1, last, at, show, float);
    }
  }

  /** What is printed for devices, metrics and statuses is read back, all of it and in order, with comments between. */
  lemma OutputRoundTrip(r: Report, items: seq<Item>, number: nat, at: int, show: real -> string, float: string -> Option<real>)
    requires forall i | i in items :: Printable(i, at, show, float)
    ensures ReadLines(r, Lines(Output(items, show)), number, at, float) == Complete(AllOf(r, items))
  {
    ReadOn(r, items, AllOf(r, items), "", number, number + |items|, at, show, float);
    assert Output(items, show) + "" == Output(items, show);
  }

  lemma BadLineFirst(r: Report, bad: string, more: seq<string>, number: nat, at: int, float: string -> Option<real>)
    requires ReadLine(r, bad, at, float).Err?
    ensures ReadLines(r, [bad] + more, number, at, float) == Failed(number, ReadLine(r, bad, at, float).error, r.diagnosis)
  {
    assert ([bad] + more)[0] == bad;
  }

  /** The reading ends at the first bad line, with its number and the diagnosis so far, whatever comes after it. */
  lemma BadLineStops(r: Report, items: seq<Item>, bad: string, rest: string, number: nat, at: int, show: real -> string, float: string -> Option<real>)
    requires (forall i | i in items :: Printable(i, at, show, float)) && '\n' !in bad && ReadLine(AllOf(r, items), bad, at, float).Err?
    ensures ReadLines(r, Lines(Output(items, show) + (bad + (['\n'] + rest))), number, at, float)
            == Failed(number + |items|, ReadLine(AllOf(r, items), bad, at, float).error, AllOf(r, items).diagnosis)
  {
    ReadOn(r, items, AllOf(r, items), bad + (['\n'] + rest), number, number + |items|, at, show, float);
    FirstLine(bad, rest);
    BadLineFirst(AllOf(r, items), bad, Lines(rest), number + |items|, at, float);
  }

  /** A word with nothing to trim that begins no comment. */
  predicate PlainWord(word: string) {
    word != "" && ' ' !in word && word[0] != '#' && !Space(word[0]) && !Space(word[|word| - 1])
  }

  /** A word without fields is refused. */
  lemma WordAloneRefused(r: Report, word: string, at: int, float: string -> Option<real>)
    requires PlainWord(word)
    ensures ReadLine(r, word, at, float) == Err(NoFields)
  {
    TrimKeeps(word);
    TrimmedIsRead(r, word, at, float);
    NoBlank(word);
  }

  predicate KnownWord(word: string) {
    word == "STATUS" || word == "DEVICE" || word == "METRIC"
  }

  lemma UnknownRecord(r: Report, word: string, kv: map<Text, Text>, at: int, float: string -> Option<real>)
    requires !KnownWord(word)
    ensures Record(r, word, kv, at, float) == Err(UnknownType(word))
  {
  }

  lemma UnknownFields(r: Report, word: string, line: string, at: int, float: string -> Option<real>)
    requires ' ' !in word && !KnownWord(word) && ParsePairs(line).Ok?
    ensures ReadFields(r, word + ([' '] + line), at, float) == Err(UnknownType(word))
  {
    EndAfter(word, ' ', line);
    Around(word, ' ', line);
    FieldsAfterWord(r, word + ([' '] + line), word, line, at, float);
    UnknownRecord(r, word, Overwrite(map[], ParsePairs(line).value), at, float);
  }

  /** Fields after a word that is none of the three are refused. */
  lemma UnknownWordRefused(r: Report, word: string, line: string, at: int, float: string -> Option<real>)
    requires PlainWord(word) && !KnownWord(word)
    requires line != "" && !Space(line[|line| - 1]) && ParsePairs(line).Ok?
    ensures ReadLine(r, word + ([' '] + line), at, float) == Err(UnknownType(word))
  {
    var s := word + ([' '] + line);
    UnknownFields(r, word, line, at, float);
    assert s[0] == word[0] && s[|s| - 1] == line[|line| - 1];
    TrimKeeps(s);
    TrimmedIsRead(r, s, at, float);
  }

  lemma {:induction false} NoBlank(w: string)
    requires ' ' !in w
    ensures EndOf(w, ' ') == |w|
  {
    if w != "" {
      NoBlank(w[1..]);
    }
  }

  // ------------------------------------------------------------------------------------------
  // The parser
  // ------------------------------------------------------------------------------------------

  method FindFrom(s: string, start: nat, c: char) returns (i: nat)
    requires start <= |s|
    ensures i == start + EndOf(s[start..], c)
  {
    i := start;
    while i < |s| && s[i] != c
      invariant start <= i <= |s| && start + EndOf(s[start..], c) == i + EndOf(s[i..], c)
    {
      assert s[i..][1..] == s[i + 1..];
      i := i + 1;
    }
    assert i < |s| ==> s[i..][0] == s[i];
  }

  lemma LinesAre(t: string, line: string, rest: string)
    requires t != "" && t[..EndOf(t, '\n')] == line && (EndOf(t, '\n') < |t| ==> t[EndOf(t, '\n') + 1..] == rest)
    ensures Lines(t) == [line] + if EndOf(t, '\n') == |t| then [] else Lines(rest)
  {
    LinesOnce(t, EndOf(t, '\n'));
  }

  lemma LinesFrom(s: string, i: nat, n: nat)
    requires i < |s| && n == i + EndOf(s[i..], '\n')
    ensures Lines(s[i..]) == [s[i..n]] + if n == |s| then [] else Lines(s[n + 1..])
  {
    AtIndex(s, i, n);
    LinesAre(s[i..], s[i..n], if n < |s| then s[n + 1..] else "");
  }

  method ParseFields(r: Report, line: string, at: int, float: string -> Option<real>) returns (next: Result<Report, Problem>)
    ensures next == ReadFields(r, line, at, float)
  {
    var n := FindFrom(line, 0, ' ');
    assert line[0..] == line;
    if n == |line| {
      return Err(NoFields);
    }
    var kv := ParseKeyValues(line[n + 1..]);
    if kv.Err? {
      return Err(BadText(kv.error));
    }
    next := ParseRecord(r, line[..n], kv.value, at, float);
  }

  method ParseRecord(r: Report, word: string, kv: map<Text, Text>, at: int, float: string -> Option<real>) returns (next: Result<Report, Problem>)
    ensures next == Record(r, word, kv, at, float)
  {
    if word == STATUS_LINE {
      var diag := r.diagnosis.(name := Get(kv, NAME, NO_TEXT), vendor := Get(kv, VENDOR, NO_TEXT), available := Get(kv, OK, NO_TEXT) == TRUE);
      if MESSAGE in kv {
        if !diag.available {
          diag := diag.(error := kv[MESSAGE]);
        }
      }
      return Ok(r.(diagnosis := diag));
    }
    if word == DEVICE_LINE {
      var dev := ParseDeviceLine(kv, at);
      return if dev.Err? then Err(BadFields(dev.error)) else Ok(r.(devices := r.devices + [dev.value]));
    }
    if word == METRIC_LINE {
      var m := ParseMetricLine(kv, at, float);
      return if m.Err? then Err(BadFields(m.error)) else Ok(r.(metrics := r.metrics + [m.value]));
    }
    next := Err(UnknownType(word));
  }

  /** Reads the output line by line; on the output printed for devices, metrics and statuses, it returns them. */
  method ParseProtocolOutput(output: string, at: int, float: string -> Option<real>) returns (answer: Answer)
    ensures answer == ReadLines(NoReport, Lines(output), 1, at, float)
    ensures forall items, show | (forall i | i in items :: Printable(i, at, show, float)) && output == Output(items, show) ::
              answer == Complete(AllOf(NoReport, items))
  {
    forall items, show | (forall i | i in items :: Printable(i, at, show, float)) && output == Output(items, show)
      ensures ReadLines(NoReport, Lines(output), 1, at, float) == Complete(AllOf(NoReport, items))
    {
      OutputRoundTrip(NoReport, items, 1, at, show, float);
    }
    var r, i, lineNo := NoReport, 0, 0;
    assert output[0..] == output;
    while i < |output|
      invariant i <= |output| && ReadLines(NoReport, Lines(output), 1, at, float) == ReadLines(r, Lines(output[i..]), lineNo + 1, at, float)
    {
      lineNo := lineNo + 1;
      var n := FindFrom(output, i, '\n');
      LinesFrom(output, i, n);
      var text := output[i..n];
      var line := Trim(text);
      if line != "" && line[0] != '#' {
        var next := ParseFields(r, line, at, float);
        if next.Err? {
          return Failed(lineNo, next.error, r.diagnosis);
        }
        r := next.value;
      }
      i := if n < |output| then n + 1 else n;
    }
    answer := Complete(r);
  }
}

/**
 The key=value text that GPU collector scripts print. A value may be quoted; a backslash in a quoted
 value only keeps the next character from closing it, and stays in the value.
 */
module KeyValues {
  import opened Results
  import opened PairLists
  import opened Texts

  type Pair = (Text, Text)

  datatype ParseError = MissingEquals | MissingValue(key: Text) | Unterminated(key: Text)

  predicate Blank(c: char) {
    c == ' ' || c == '\t'
  }

  // ------------------------------------------------------------------------------------------
  // The grammar, on the text left to parse
  // ------------------------------------------------------------------------------------------

  function SkipBlanks(s: string): (rest: string)
    ensures |rest| <= |s|
  {
    if s != "" && Blank(s[0]) then SkipBlanks(s[1..]) else s
  }

  function KeyEnd(s: string): (n: nat)
    ensures n <= |s|
  {
    if s == "" || s[0] == '=' then 0 else 1 + KeyEnd(s[1..])
  }

  /** Where the closing quote is; the length when there is none. */
  function QuoteEnd(s: string): (n: nat)
    ensures n <= |s|
  {
    if s == "" || s[0] == '"' then 0
    else if s[0] == '\\' && |s| > 1 then 2 + QuoteEnd(s[2..])
    else 1 + QuoteEnd(s[1..])
  }

  function BareEnd(s: string): (n: nat)
    ensures n <= |s|
  {
    if s == "" || Blank(s[0]) then 0 else 1 + BareEnd(s[1..])
  }

  /** The value after "key=", and the text after it. */
  function ParseValue(key: Text, s: string): (r: Result<(Pair, string), ParseError>)
    requires s != ""
    ensures r.Ok? ==> |r.value.1| <= |s|
  {
    if s[0] == '"' then
      var q := 1 + QuoteEnd(s[1..]);
      if q == |s| then Err(Unterminated(key)) else Ok(((key, Text(s[1..q])), s[q + 1..]))
    else
      var e := BareEnd(s);
      Ok(((key, Text(s[..e])), s[e..]))
  }

  /** The pair whose key is the first `k` characters. */
  function PairAfterKey(s: string, k: nat): (r: Result<(Pair, string), ParseError>)
    requires k <= |s|
    ensures r.Ok? ==> |r.value.1| < |s|
  {
    if k == |s| then Err(MissingEquals)
    else if k + 1 == |s| then Err(MissingValue(Text(s[..k])))
    else ParseValue(Text(s[..k]), s[k + 1..])
  }

  /** One pair, from its first character on, and the text after it. */
  function ParsePair(s: string): (r: Result<(Pair, string), ParseError>)
    ensures r.Ok? ==> |r.value.1| < |s|
  {
    PairAfterKey(s, KeyEnd(s))
  }

  function ParsePairs(s: string): Result<seq<Pair>, ParseError>
    decreases |s|
  {
    var t := SkipBlanks(s);
    if t == "" then Ok([])
    else match ParsePair(t)
      case Err(e) => Err(e)
      case Ok((p, rest)) =>
        match ParsePairs(rest)
        case Err(e) => Err(e)
        case Ok(ps) => Ok([p] + ps)
  }

  // ------------------------------------------------------------------------------------------
  // Printing, and which pairs survive it
  // ------------------------------------------------------------------------------------------

  datatype Field = Field(key: Text, value: Text, quoted: bool)

  function PrintValue(f: Field): string {
    if f.quoted then "\"" + f.value.chars + "\"" else f.value.chars
  }

  function PrintField(f: Field): string {
    f.key.chars + ("=" + (PrintValue(f) + " "))
  }

  function Print(fs: seq<Field>): string {
    if fs == [] then "" else PrintField(fs[0]) + Print(fs[1..])
  }

  function PairsOf(fs: seq<Field>): seq<Pair> {
    seq(|fs|, i requires 0 <= i < |fs| => (fs[i].key, fs[i].value))
  }

  predicate CleanKey(k: string) {
    '=' !in k && (k == "" || (k[0] != ' ' && k[0] != '\t'))
  }

  /** No unescaped quote, and no backslash that would escape the closing one. */
  predicate CleanQuoted(v: string) {
    v == "" || (v[0] != '"' && if v[0] == '\\' then |v| > 1 && CleanQuoted(v[2..]) else CleanQuoted(v[1..]))
  }

  predicate CleanBare(v: string) {
    ' ' !in v && '\t' !in v && (v == "" || v[0] != '"')
  }

  predicate Clean(f: Field) {
    CleanKey(f.key.chars) && if f.quoted then CleanQuoted(f.value.chars) else CleanBare(f.value.chars)
  }

  // ------------------------------------------------------------------------------------------
  // Round trip
  // ------------------------------------------------------------------------------------------

  lemma {:induction false} KeyEndsAtFirstEquals(k: string, rest: string)
    ensures KeyEnd(k + ("=" + rest)) <= |k|
    ensures KeyEnd(k + ("=" + rest)) == |k| <==> '=' !in k
  {
    var s := k + ("=" + rest);
    if k != "" && k[0] != '=' {
      assert s[1..] == k[1..] + ("=" + rest);
      KeyEndsAtFirstEquals(k[1..], rest);
    }
  }

  lemma {:induction false} QuoteEndsIff(v: string, rest: string)
    ensures QuoteEnd(v + ("\"" + rest)) == |v| <==> CleanQuoted(v)
  {
    var s := v + ("\"" + rest);
    if v != "" && v[0] != '"' {
      if v[0] == '\\' {
        if |v| > 1 {
          assert s[2..] == v[2..] + ("\"" + rest);
          QuoteEndsIff(v[2..], rest);
        }
      } else {
        assert s[1..] == v[1..] + ("\"" + rest);
        QuoteEndsIff(v[1..], rest);
      }
    }
  }

  lemma {:induction false} BareEndsIff(v: string, rest: string)
    ensures BareEnd(v + (" " + rest)) == |v| <==> forall c | c in v :: !Blank(c)
    ensures BareEnd(v + (" " + rest)) <= |v|
  {
    var s := v + (" " + rest);
    if v != "" && !Blank(v[0]) {
      assert s[1..] == v[1..] + (" " + rest);
      BareEndsIff(v[1..], rest);
      assert v == [v[0]] + v[1..];
    }
  }

  /** A parsed quoted value never starts with a quote. */
  lemma QuotedStart(body: string)
    ensures QuoteEnd(body) == 0 || body[0] != '"'
  {
  }

  lemma KeyIsReadBack(f: Field, rest: string)
    ensures var s := PrintField(f) + rest; var k := KeyEnd(s);
      && k <= |f.key.chars| && k + 1 < |s| && (k == |f.key.chars| <==> '=' !in f.key.chars)
      && (k == |f.key.chars| ==> s[..k] == f.key.chars && s[k + 1..] == PrintValue(f) + (" " + rest))
  {
    var s := PrintField(f) + rest;
    var tail := PrintValue(f) + (" " + rest);
    assert s == f.key.chars + ("=" + tail);
    KeyEndsAtFirstEquals(f.key.chars, tail);
  }

  lemma QuotedBody(f: Field, rest: string)
    requires '=' !in f.key.chars && f.quoted
    ensures var s := PrintField(f) + rest; var k := KeyEnd(s);
      && k == |f.key.chars| && k + 1 < |s| && s[..k] == f.key.chars
      && s[k + 1..] == "\"" + (f.value.chars + ("\"" + (" " + rest)))
  {
    KeyIsReadBack(f, rest);
  }

  lemma KeyParts(key: string, body: string)
    ensures var s := key + ("=" + body); |s| == |key| + 1 + |body| && s[..|key|] == key && s[|key| + 1..] == body
  {
  }

  lemma BodyParts(v: string, tail: string)
    ensures var body := "\"" + (v + ("\"" + tail));
      && |body| == |v| + 2 + |tail| && body[0] == '"' && body[1..] == v + ("\"" + tail)
      && body[1..|v| + 1] == v && body[|v| + 2..] == tail
  {
    var body := "\"" + (v + ("\"" + tail));
    assert body[1..] == v + ("\"" + tail);
  }

  lemma QuotedValueIsRead(key: Text, v: string, tail: string)
    requires CleanQuoted(v)
    ensures ParseValue(key, "\"" + (v + ("\"" + tail))) == Ok(((key, Text(v)), tail))
  {
    BodyParts(v, tail);
    QuoteEndsIff(v, tail);
  }

  /** A clean quoted value is read up to its closing quote, whatever follows it. */
  lemma QuotedIsRead(key: string, v: string, tail: string)
    requires '=' !in key && CleanQuoted(v)
    ensures ParsePair(key + ("=" + ("\"" + (v + ("\"" + tail))))) == Ok(((Text(key), Text(v)), tail))
  {
    var body := "\"" + (v + ("\"" + tail));
    KeyEndsAtFirstEquals(key, body);
    KeyParts(key, body);
    assert ParsePair(key + ("=" + body)) == PairAfterKey(key + ("=" + body), |key|);
    QuotedValueIsRead(Text(key), v, tail);
  }

  lemma QuotedText(v: string, tail: string)
    ensures ("\"" + v + "\"") + tail == "\"" + (v + ("\"" + tail))
  {
  }

  lemma CleanQuotedIsRead(f: Field, rest: string)
    requires '=' !in f.key.chars && f.quoted && CleanQuoted(f.value.chars)
    ensures ParsePair(PrintField(f) + rest) == Ok(((f.key, f.value), " " + rest))
  {
    QuotedBody(f, rest);
    assert ParsePair(PrintField(f) + rest) == PairAfterKey(PrintField(f) + rest, |f.key.chars|);
    QuotedValueIsRead(f.key, f.value.chars, " " + rest);
  }

  lemma UncleanQuotedIsLost(f: Field, rest: string)
    requires '=' !in f.key.chars && f.quoted && !CleanQuoted(f.value.chars)
    ensures var r := ParsePair(PrintField(f) + rest); r.Ok? ==> r.value.0 != (f.key, f.value)
  {
    var v, tail := f.value.chars, " " + rest;
    QuotedBody(f, rest);
    QuoteEndsIff(v, tail);
    var body := "\"" + (v + ("\"" + tail));
    assert body[0] == '"' && body[1..] == v + ("\"" + tail);
  }

  lemma QuotedIsReadBack(f: Field, rest: string)
    requires '=' !in f.key.chars && f.quoted
    ensures var r := ParsePair(PrintField(f) + rest);
      if CleanQuoted(f.value.chars) then r == Ok(((f.key, f.value), " " + rest)) else r.Ok? ==> r.value.0 != (f.key, f.value)
  {
    if CleanQuoted(f.value.chars) {
      CleanQuotedIsRead(f, rest);
    } else {
      UncleanQuotedIsLost(f, rest);
    }
  }

  lemma BareIsReadBack(f: Field, rest: string)
    requires '=' !in f.key.chars && !f.quoted
    ensures var r := ParsePair(PrintField(f) + rest);
      if CleanBare(f.value.chars) then r == Ok(((f.key, f.value), " " + rest)) else r.Ok? ==> r.value.0 != (f.key, f.value)
  {
    var s := PrintField(f) + rest;
    var v := f.value.chars;
    KeyIsReadBack(f, rest);
    var body := s[|f.key.chars| + 1..];
    assert body == v + (" " + rest);
    BareEndsIff(v, rest);
    if s[|f.key.chars| + 1] == '"' {
      QuotedStart(body[1..]);
      assert v != "" && v[0] == '"';
    } else if CleanBare(v) {
      assert body[..|v|] == v && body[|v|..] == " " + rest;
    }
  }

  lemma {:induction false} BlanksAreSkipped(s: string)
    ensures var t := SkipBlanks(s); (t == "" || !Blank(t[0])) && (t == s <==> s == "" || !Blank(s[0]))
    ensures SkipBlanks(" " + s) == SkipBlanks(s)
  {
    assert (" " + s)[1..] == s;
    if s != "" && Blank(s[0]) {
      BlanksAreSkipped(s[1..]);
    }
  }

  lemma KeyStartsUnblank(t: string)
    requires t == "" || !Blank(t[0])
    ensures var r := ParsePair(t); r.Ok? ==> var k := r.value.0.0.chars; k == "" || !Blank(k[0])
  {
  }

  /** A printed field is read back exactly when it is clean; any other field reads as something else. */
  lemma FieldRoundTrip(f: Field, rest: string)
    ensures var t := SkipBlanks(PrintField(f) + rest);
      if Clean(f) then t != "" && ParsePair(t) == Ok(((f.key, f.value), " " + rest))
      else t != "" ==> var r := ParsePair(t); r.Ok? ==> r.value.0 != (f.key, f.value)
  {
    var s := PrintField(f) + rest;
    var k := f.key.chars;
    BlanksAreSkipped(s);
    if k != "" && Blank(k[0]) {
      assert s[0] == k[0];
      KeyStartsUnblank(SkipBlanks(s));
    } else {
      assert s[0] == if k == "" then '=' else k[0];
      KeyIsReadBack(f, rest);
      if '=' !in k {
        if f.quoted {
          QuotedIsReadBack(f, rest);
        } else {
          BareIsReadBack(f, rest);
        }
      }
    }
  }

  lemma AfterBlank(s: string)
    ensures ParsePairs(" " + s) == ParsePairs(s)
  {
    BlanksAreSkipped(s);
  }

  lemma CleanFieldFirst(f: Field, rest: string)
    requires Clean(f)
    ensures ParsePairs(PrintField(f) + rest) == match ParsePairs(rest)
      case Err(e) => Err(e)
      case Ok(ps) => Ok([(f.key, f.value)] + ps)
  {
    FieldRoundTrip(f, rest);
    AfterBlank(rest);
  }

  lemma UncleanFieldFirst(f: Field, rest: string)
    requires !Clean(f)
    ensures var r := ParsePairs(PrintField(f) + rest); r.Ok? && r.value != [] ==> r.value[0] != (f.key, f.value)
  {
    FieldRoundTrip(f, rest);
  }

  /** Printed fields parse back to their pairs exactly when every field is clean. */
  lemma {:induction false} PrintRoundTrip(fs: seq<Field>)
    ensures ParsePairs(Print(fs)) == Ok(PairsOf(fs)) <==> forall f | f in fs :: Clean(f)
  {
    var ps := PairsOf(fs);
    if fs == [] {
      assert ps == [];
    } else {
      var more := PairsOf(fs[1..]);
      assert ps == [(fs[0].key, fs[0].value)] + more;
      assert fs == [fs[0]] + fs[1..];
      PrintRoundTrip(fs[1..]);
      if Clean(fs[0]) {
        CleanFieldFirst(fs[0], Print(fs[1..]));
        assert forall qs :: [ps[0]] + qs == ps ==> qs == ps[1..] == more;
      } else {
        UncleanFieldFirst(fs[0], Print(fs[1..]));
      }
    }
  }

  lemma {:induction false} QuoteEndIsQuote(body: string)
    ensures var q := QuoteEnd(body); q < |body| ==> body[q] == '"'
  {
    if body != "" && body[0] != '"' {
      QuoteEndIsQuote(if body[0] == '\\' && |body| > 1 then body[2..] else body[1..]);
    }
  }

  /** A quote in the text closes it: the text before it is clean. */
  ghost predicate Closes(body: string, n: nat) {
    n < |body| && body[n] == '"' && CleanQuoted(body[..n])
  }

  lemma ClosesIff(body: string, n: nat)
    requires n < |body| && body[n] == '"'
    ensures QuoteEnd(body) == n <==> CleanQuoted(body[..n])
  {
    var v, rest := body[..n], body[n + 1..];
    assert body == v + ("\"" + rest);
    QuoteEndsIff(v, rest);
  }

  lemma ClosedIff(body: string)
    ensures QuoteEnd(body) == |body| <==> forall n: nat :: !Closes(body, n)
  {
    QuoteEndIsQuote(body);
    if QuoteEnd(body) < |body| {
      ClosesIff(body, QuoteEnd(body));
      assert Closes(body, QuoteEnd(body));
    }
    if n: nat :| Closes(body, n) {
      ClosesIff(body, n);
    }
  }

  lemma {:induction false} NoEqualsNoKey(s: string)
    ensures KeyEnd(s) == |s| <==> '=' !in s
  {
    if s != "" && s[0] != '=' {
      NoEqualsNoKey(s[1..]);
      assert s == [s[0]] + s[1..];
    }
  }

  /**
   A pair is refused exactly where an equals sign is missing, where nothing follows it, or where a quote is
   opened that nothing closes.
   */
  lemma ParseErrorsAre(s: string, key: string, value: string)
    requires '=' !in key
    ensures ParsePair(s) == Err(MissingEquals) <==> '=' !in s
    ensures ParsePair(key + ("=" + value)) == Err(MissingValue(Text(key))) <==> value == ""
    ensures ParsePair(key + ("=" + value)) == Err(Unterminated(Text(key))) <==>
            value != "" && value[0] == '"' && forall n: nat :: !Closes(value[1..], n)
    ensures ParsePair(key + ("=" + value)).Ok? <==> value != "" && (value[0] != '"' || exists n: nat :: Closes(value[1..], n))
  {
    NoEqualsNoKey(s);
    KeyEndsAtFirstEquals(key, value);
    KeyParts(key, value);
    assert ParsePair(key + ("=" + value)) == PairAfterKey(key + ("=" + value), |key|);
    if value != "" && value[0] == '"' {
      ClosedIff(value[1..]);
    }
  }

  /** A field at the end of a line, without the blank that separates fields. */
  function PrintLast(f: Field): string {
    f.key.chars + ("=" + PrintValue(f))
  }

  /** Fields separated by blanks. */
  function Line(fs: seq<Field>): string {
    if fs == [] then "" else if |fs| == 1 then PrintLast(fs[0]) else PrintField(fs[0]) + Line(fs[1..])
  }

  lemma OnePair(t: string, p: Pair)
    requires t != "" && !Blank(t[0]) && ParsePair(t) == Ok((p, ""))
    ensures ParsePairs(t) == Ok([p])
  {
    assert SkipBlanks(t) == t && ParsePairs("") == Ok([]) && [p] + [] == [p];
  }

  lemma LastFieldText(f: Field)
    requires f.quoted
    ensures PrintLast(f) == f.key.chars + ("=" + ("\"" + (f.value.chars + ("\"" + ""))))
    ensures PrintLast(f) != "" && PrintLast(f)[0] == if f.key.chars == "" then '=' else f.key.chars[0]
  {
    QuotedText(f.value.chars, "");
    assert PrintValue(f) + "" == PrintValue(f);
  }

  lemma LastFieldIsRead(f: Field)
    requires Clean(f) && f.quoted
    ensures ParsePairs(PrintLast(f)) == Ok([(f.key, f.value)])
  {
    QuotedIsRead(f.key.chars, f.value.chars, "");
    LastFieldText(f);
    OnePair(PrintLast(f), (f.key, f.value));
  }

  lemma PairsNext(fs: seq<Field>)
    requires fs != []
    ensures PairsOf(fs) == [(fs[0].key, fs[0].value)] + PairsOf(fs[1..])
  {
  }

  lemma FieldThenRest(f: Field, rest: string, ps: seq<Pair>)
    requires Clean(f) && ParsePairs(rest) == Ok(ps)
    ensures ParsePairs(PrintField(f) + rest) == Ok([(f.key, f.value)] + ps)
  {
    CleanFieldFirst(f, rest);
  }

  /** Clean fields of which the last is quoted are read back from their line. */
  lemma {:induction false} LineRoundTrip(fs: seq<Field>)
    requires fs != [] && fs[|fs| - 1].quoted && forall f | f in fs :: Clean(f)
    ensures ParsePairs(Line(fs)) == Ok(PairsOf(fs))
  {
    PairsNext(fs);
    if |fs| == 1 {
      LastFieldIsRead(fs[0]);
      assert PairsOf(fs[1..]) == [] && PairsOf(fs) == [(fs[0].key, fs[0].value)];
    } else {
      LineRoundTrip(fs[1..]);
      FieldThenRest(fs[0], Line(fs[1..]), PairsOf(fs[1..]));
    }
  }

  /** Parsed and stored, the printed fields give the map in which every key has its last value. */
  lemma StoredLastWins(fs: seq<Field>)
    requires forall f | f in fs :: Clean(f)
    ensures ParsePairs(Print(fs)).Ok? && LastWins(Overwrite(map[], ParsePairs(Print(fs)).value), PairsOf(fs))
  {
    PrintRoundTrip(fs);
    OverwriteLastWins(PairsOf(fs));
  }

  // ------------------------------------------------------------------------------------------
  // The parser: one index into the text
  // ------------------------------------------------------------------------------------------

  method SkipBlanksFrom(s: string, start: nat) returns (i: nat)
    requires start <= |s|
    ensures start <= i <= |s| && s[i..] == SkipBlanks(s[start..])
  {
    i := start;
    while i < |s| && Blank(s[i])
      invariant start <= i <= |s| && SkipBlanks(s[start..]) == SkipBlanks(s[i..])
    {
      assert s[i..][1..] == s[i + 1..];
      i := i + 1;
    }
    assert i < |s| ==> s[i..][0] == s[i];
  }

  method FindEquals(s: string, start: nat) returns (i: nat)
    requires start <= |s|
    ensures i == start + KeyEnd(s[start..])
  {
    i := start;
    while i < |s| && s[i] != '='
      invariant start <= i <= |s| && start + KeyEnd(s[start..]) == i + KeyEnd(s[i..])
    {
      assert s[i..][1..] == s[i + 1..];
      i := i + 1;
    }
    assert i < |s| ==> s[i..][0] == s[i];
  }

  method FindQuote(s: string, start: nat) returns (i: nat)
    requires start <= |s|
    ensures i == start + QuoteEnd(s[start..])
  {
    i := start;
    while i < |s| && s[i] != '"'
      invariant start <= i <= |s| && start + QuoteEnd(s[start..]) == i + QuoteEnd(s[i..])
    {
      assert s[i..][1..] == s[i + 1..];
      if s[i] == '\\' && i + 1 < |s| {
        assert s[i..][2..] == s[i + 2..];
        i := i + 2;
        continue;
      }
      i := i + 1;
    }
    assert i < |s| ==> s[i..][0] == s[i];
  }

  method FindBlank(s: string, start: nat) returns (i: nat)
    requires start <= |s|
    ensures i == start + BareEnd(s[start..])
  {
    i := start;
    while i < |s| && !Blank(s[i])
      invariant start <= i <= |s| && start + BareEnd(s[start..]) == i + BareEnd(s[i..])
    {
      assert s[i..][1..] == s[i + 1..];
      i := i + 1;
    }
    assert i < |s| ==> s[i..][0] == s[i];
  }

  ghost function Stored(kv: map<Text, Text>, more: Result<seq<Pair>, ParseError>): Result<map<Text, Text>, ParseError> {
    match more
    case Ok(ps) => Ok(Overwrite(kv, ps))
    case Err(e) => Err(e)
  }

  lemma Slices(s: string, i: nat, j: nat, k: nat)
    requires i + j <= i + k <= |s|
    ensures s[i..][j..k] == s[i + j..i + k] && s[i..][k..] == s[i + k..]
  {
  }

  /** `i` is where the text after the pair starts. */
  ghost predicate Reads(spec: Result<(Pair, string), ParseError>, r: Result<Pair, ParseError>, s: string, i: nat) {
    match spec
    case Err(e) => r == Err(e)
    case Ok((p, rest)) => r == Ok(p) && i <= |s| && rest == s[i..]
  }

  lemma QuotedValueAt(s: string, start: nat, key: Text, i: nat)
    requires start < |s| && s[start] == '"' && i == start + 1 + QuoteEnd(s[start + 1..])
    ensures ParseValue(key, s[start..]) == if i == |s| then Err(Unterminated(key)) else Ok(((key, Text(s[start + 1..i])), s[i + 1..]))
  {
    assert s[start..][0] == '"' && s[start..][1..] == s[start + 1..];
    if i < |s| {
      Slices(s, start, 1, i - start);
      Slices(s, start, 1, i - start + 1);
    }
  }

  lemma BareValueAt(s: string, start: nat, key: Text, i: nat)
    requires start < |s| && s[start] != '"' && i == start + BareEnd(s[start..])
    ensures ParseValue(key, s[start..]) == Ok(((key, Text(s[start..i])), s[i..]))
  {
    assert s[start..][0] == s[start];
    Slices(s, start, 0, i - start);
  }

  method ParseValueFrom(s: string, start: nat, key: Text) returns (r: Result<Pair, ParseError>, i: nat)
    requires start < |s|
    ensures Reads(ParseValue(key, s[start..]), r, s, i) && i >= start
  {
    if s[start] == '"' {
      i := FindQuote(s, start + 1);
      QuotedValueAt(s, start, key, i);
      if i >= |s| {
        return Err(Unterminated(key)), i;
      }
      return Ok((key, Text(s[start + 1..i]))), i + 1;
    }
    i := FindBlank(s, start);
    BareValueAt(s, start, key, i);
    r := Ok((key, Text(s[start..i])));
  }

  lemma AtIndex(s: string, start: nat, k: nat)
    requires start <= k <= |s|
    ensures |s[start..]| == |s| - start && s[start..][..k - start] == s[start..k]
    ensures k < |s| ==> s[start..][k - start + 1..] == s[k + 1..]
  {
  }

  /** The pair at an index, once its key has been read up to `k`. */
  lemma PairAt(s: string, start: nat, k: nat)
    requires start < |s| && k == start + KeyEnd(s[start..])
    ensures ParsePair(s[start..]) ==
            if k == |s| then Err(MissingEquals)
            else if k + 1 == |s| then Err(MissingValue(Text(s[start..k]))) else ParseValue(Text(s[start..k]), s[k + 1..])
  {
    AtIndex(s, start, k);
    assert ParsePair(s[start..]) == PairAfterKey(s[start..], k - start);
  }

  method ParseAfterKey(s: string, start: nat, k: nat) returns (r: Result<Pair, ParseError>, i: nat)
    requires start <= k <= |s|
    ensures Reads(if k == |s| then Err(MissingEquals)
                  else if k + 1 == |s| then Err(MissingValue(Text(s[start..k]))) else ParseValue(Text(s[start..k]), s[k + 1..]), r, s, i)
    ensures i > start || i == k == start == |s|
  {
    if k >= |s| {
      return Err(MissingEquals), k;
    }
    var key := Text(s[start..k]);
    if k + 1 >= |s| {
      return Err(MissingValue(key)), k + 1;
    }
    r, i := ParseValueFrom(s, k + 1, key);
  }

  method ParsePairFrom(s: string, start: nat) returns (r: Result<Pair, ParseError>, i: nat)
    requires start < |s|
    ensures Reads(ParsePair(s[start..]), r, s, i) && i > start
  {
    var k := FindEquals(s, start);
    PairAt(s, start, k);
    r, i := ParseAfterKey(s, start, k);
  }

  method ParseKeyValues(s: string) returns (r: Result<map<Text, Text>, ParseError>)
    ensures r == Stored(map[], ParsePairs(s))
  {
    var result: map<Text, Text> := map[];
    ghost var spec := Stored(result, ParsePairs(s));
    assert s[0..] == s;
    var i := 0;
    while i < |s|
      invariant i <= |s| && spec == Stored(result, ParsePairs(s[i..]))
    {
      var start := SkipBlanksFrom(s, i);
      if start >= |s| {
        break;
      }
      var pair, after := ParsePairFrom(s, start);
      if pair.Err? {
        return Err(pair.error);
      }
      result := result[pair.value.0 := pair.value.1];
      i := after;
    }
    r := Ok(result);
  }
}

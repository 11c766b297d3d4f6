/**
 The metadata part of a GGUF file (ggml docs/gguf.md, "File Structure"): a header, then key/value
 pairs whose values may be arrays of values. The readers are given as functions from the bytes left
 to read to a value and the bytes left after it; class Stream is the reader that moves a position.
 */
module Gguf {
  import opened Bytes
  import opened PairLists

  datatype Text = Text(bytes: seq<byte>)

  datatype Kind = UintKind | IntKind | FloatKind | BoolKind

  /** A value as read. Floats keep their bits; an array keeps the element type its header declares. */
  datatype Datum =
    | Uint(width: nat, n: nat)
    | Int(width: nat, i: int)
    | Float(width: nat, bits: nat)
    | Bool(b: bool)
    | Str(text: Text)
    | Array(elemType: nat, elems: seq<Datum>)

  datatype Layout = Scalar(kind: Kind, width: nat) | StringLayout | ArrayLayout | UnknownLayout

  datatype Failure = Truncated | BadMagic | UnknownType | StringTooLong | ArrayTooLong

  datatype Parsed<+T> = Parsed(value: T, rest: seq<byte>) | Failed(failure: Failure)

  const MAX_STRING := 10 * 1024 * 1024
  const MAX_ARRAY := 1000000
  const MAGIC := 0x46554747

  /** One more value in front of those read after it. */
  function Cons<T>(x: T, more: Parsed<seq<T>>): Parsed<seq<T>> {
    match more
    case Failed(f) => Failed(f)
    case Parsed(xs, rest) => Parsed([x] + xs, rest)
  }

  function LayoutOf(valType: nat): Layout {
    match valType
    case 0 => Scalar(UintKind, 1)
    case 1 => Scalar(IntKind, 1)
    case 2 => Scalar(UintKind, 2)
    case 3 => Scalar(IntKind, 2)
    case 4 => Scalar(UintKind, 4)
    case 5 => Scalar(IntKind, 4)
    case 6 => Scalar(FloatKind, 4)
    case 7 => Scalar(BoolKind, 1)
    case 8 => StringLayout
    case 9 => ArrayLayout
    case 10 => Scalar(UintKind, 8)
    case 11 => Scalar(IntKind, 8)
    case 12 => Scalar(FloatKind, 8)
    case _ => UnknownLayout
  }

  function ScalarValue(kind: Kind, width: nat, n: nat): Datum {
    match kind
    case UintKind => Uint(width, n)
    case IntKind => Int(width, Signed(n, width))
    case FloatKind => Float(width, n)
    case BoolKind => Bool(n != 0)
  }

  function ReadNumber(b: seq<byte>, width: nat): (r: Parsed<nat>)
    ensures r.Parsed? ==> r.value < Limit(width) && |r.rest| + width == |b|
  {
    if |b| < width then Failed(Truncated) else Parsed(FromLittleEndian(b[..width]), b[width..])
  }

  function ReadString(b: seq<byte>): (r: Parsed<Text>)
    ensures r.Parsed? ==> |r.rest| < |b|
  {
    match ReadNumber(b, 8)
    case Failed(f) => Failed(f)
    case Parsed(length, rest) =>
      if length > MAX_STRING then Failed(StringTooLong)
      else if |rest| < length then Failed(Truncated)
      else Parsed(Text(rest[..length]), rest[length..])
  }

  function ReadValue(b: seq<byte>, valType: nat): (r: Parsed<Datum>)
    ensures r.Parsed? ==> |r.rest| < |b|
    decreases |b|, 1, 0
  {
    match LayoutOf(valType)
    case Scalar(kind, width) =>
      (match ReadNumber(b, width)
       case Failed(f) => Failed(f)
       case Parsed(n, rest) => Parsed(ScalarValue(kind, width, n), rest))
    case StringLayout =>
      (match ReadString(b)
       case Failed(f) => Failed(f)
       case Parsed(text, rest) => Parsed(Str(text), rest))
    case ArrayLayout => ReadArray(b)
    case UnknownLayout => Failed(UnknownType)
  }

  function ReadArray(b: seq<byte>): (r: Parsed<Datum>)
    ensures r.Parsed? ==> |r.rest| < |b|
    decreases |b|, 0, 0
  {
    match ReadNumber(b, 4)
    case Failed(f) => Failed(f)
    case Parsed(elemType, rest) =>
      match ReadNumber(rest, 8)
      case Failed(f) => Failed(f)
      case Parsed(count, body) =>
        if count > MAX_ARRAY then Failed(ArrayTooLong)
        else match ReadElements(body, elemType, count)
          case Failed(f) => Failed(f)
          case Parsed(elems, after) => Parsed(Array(elemType, elems), after)
  }

  function ReadElements(b: seq<byte>, elemType: nat, count: nat): (r: Parsed<seq<Datum>>)
    ensures r.Parsed? ==> |r.rest| <= |b| && |r.value| == count
    decreases |b|, 2, count
  {
    if count == 0 then Parsed([], b)
    else match ReadValue(b, elemType)
      case Failed(f) => Failed(f)
      case Parsed(d, rest) => Cons(d, ReadElements(rest, elemType, count - 1))
  }

  type Pair = (Text, Datum)

  function ReadPair(b: seq<byte>): (r: Parsed<Pair>)
    ensures r.Parsed? ==> |r.rest| < |b|
  {
    match ReadString(b)
    case Failed(f) => Failed(f)
    case Parsed(key, rest) =>
      match ReadNumber(rest, 4)
      case Failed(f) => Failed(f)
      case Parsed(valType, body) =>
        match ReadValue(body, valType)
        case Failed(f) => Failed(f)
        case Parsed(d, after) => Parsed((key, d), after)
  }

  /** `count` values one after the other, all read alike. */
  function ReadMany<T>(read: seq<byte> -> Parsed<T>, b: seq<byte>, count: nat): (r: Parsed<seq<T>>)
    ensures r.Parsed? ==> |r.value| == count
    decreases count
  {
    if count == 0 then Parsed([], b)
    else match read(b)
      case Failed(f) => Failed(f)
      case Parsed(x, rest) => Cons(x, ReadMany(read, rest, count - 1))
  }

  function ReadPairs(b: seq<byte>, count: nat): Parsed<seq<Pair>> {
    ReadMany(ReadPair, b, count)
  }

  datatype Meta = Meta(version: nat, tensorCount: nat, kv: map<Text, Datum>)

  function ReadMeta(b: seq<byte>): Parsed<Meta> {
    match ReadNumber(b, 4)
    case Failed(f) => Failed(f)
    case Parsed(magic, b1) =>
      if magic != MAGIC then Failed(BadMagic)
      else match ReadNumber(b1, 4)
        case Failed(f) => Failed(f)
        case Parsed(version, b2) =>
          match ReadNumber(b2, 8)
          case Failed(f) => Failed(f)
          case Parsed(tensorCount, b3) =>
            match ReadNumber(b3, 8)
            case Failed(f) => Failed(f)
            case Parsed(kvCount, b4) =>
              match ReadPairs(b4, kvCount)
              case Failed(f) => Failed(f)
              case Parsed(ps, rest) => Parsed(Meta(version, tensorCount, Overwrite(map[], ps)), rest)
  }

  // ------------------------------------------------------------------------------------------
  // The encoder of the format
  // ------------------------------------------------------------------------------------------

  /** The code the format gives to the type of a value, by its number. */
  function TypeCode(d: Datum): nat {
    match d
    case Uint(width, _) => if width == 1 then 0 else if width == 2 then 2 else if width == 4 then 4 else 10
    case Int(width, _) => if width == 1 then 1 else if width == 2 then 3 else if width == 4 then 5 else 11
    case Float(width, _) => if width == 4 then 6 else 12
    case Bool(_) => 7
    case Str(_) => 8
    case Array(_, _) => 9
  }

  /** The value can be written, and lies within the limits on strings (10 MiB) and arrays (1,000,000 elements). */
  ghost predicate WellFormed(d: Datum)
    decreases d
  {
    match d
    case Uint(width, n) => (width == 1 || width == 2 || width == 4 || width == 8) && n < Limit(width)
    case Int(width, i) => (width == 1 || width == 2 || width == 4 || width == 8) && 0 <= 2 * i + Limit(width) && 2 * i < Limit(width)
    case Float(width, bits) => (width == 4 || width == 8) && bits < Limit(width)
    case Bool(_) => true
    case Str(text) => |text.bytes| <= 10 * 1024 * 1024
    case Array(elemType, elems) =>
      elemType < Limit(4) && |elems| <= 1000000 && forall e | e in elems :: WellFormed(e) && TypeCode(e) == elemType
  }

  function EncodeString(text: Text): seq<byte> {
    ToLittleEndian(|text.bytes|, 8) + text.bytes
  }

  function Encode(d: Datum): seq<byte>
    decreases d
  {
    match d
    case Uint(width, n) => ToLittleEndian(n, width)
    case Int(width, i) => ToLittleEndian(Unsigned(i, width), width)
    case Float(width, bits) => ToLittleEndian(bits, width)
    case Bool(b) => ToLittleEndian(if b then 1 else 0, 1)
    case Str(text) => EncodeString(text)
    case Array(elemType, elems) => ToLittleEndian(elemType, 4) + (ToLittleEndian(|elems|, 8) + EncodeAll(elems))
  }

  function EncodeAll(elems: seq<Datum>): seq<byte>
    decreases elems
  {
    if elems == [] then [] else Encode(elems[0]) + EncodeAll(elems[1..])
  }

  /** A pair as a writer has it. */
  datatype Entry = Entry(key: Text, value: Datum)

  ghost predicate WellFormedEntry(e: Entry) {
    |e.key.bytes| <= 10 * 1024 * 1024 && WellFormed(e.value)
  }

  function EncodeEntry(e: Entry): seq<byte> {
    EncodeString(e.key) + (ToLittleEndian(TypeCode(e.value), 4) + Encode(e.value))
  }

  function EncodeMany<E>(encode: E -> seq<byte>, es: seq<E>): seq<byte> {
    if es == [] then [] else encode(es[0]) + EncodeMany(encode, es[1..])
  }

  function EncodeEntries(es: seq<Entry>): seq<byte> {
    EncodeMany(EncodeEntry, es)
  }

  /** The letters GGUF, the version, the two counts, and the pairs. */
  function EncodeFile(version: nat, tensorCount: nat, es: seq<Entry>): seq<byte> {
    [0x47, 0x47, 0x55, 0x46] + (ToLittleEndian(version, 4)
      + (ToLittleEndian(tensorCount, 8) + (ToLittleEndian(|es|, 8) + EncodeEntries(es))))
  }

  function PairOf(e: Entry): Pair {
    (e.key, e.value)
  }

  function PairsOf(es: seq<Entry>): seq<Pair> {
    MapSeq(PairOf, es)
  }

  // ------------------------------------------------------------------------------------------
  // Round trips
  // ------------------------------------------------------------------------------------------

  lemma NumberRoundTrip(n: nat, width: nat, rest: seq<byte>)
    requires n < Limit(width)
    ensures ReadNumber(ToLittleEndian(n, width) + rest, width) == Parsed(n, rest)
  {
    var b := ToLittleEndian(n, width) + rest;
    assert b[..width] == ToLittleEndian(n, width) && b[width..] == rest;
    LittleEndianRoundTrip(n, width);
  }

  lemma EightBytes()
    ensures MAX_STRING < Limit(8) && MAX_ARRAY < Limit(8) && 12 < Limit(4)
  {
    assert Limit(1) == 256 && Limit(2) == 65536 && Limit(3) == 16777216 && Limit(4) == 4294967296;
    assert Limit(5) > Limit(4) && Limit(6) > Limit(5) && Limit(7) > Limit(6) && Limit(8) > Limit(7);
  }

  lemma StringRoundTrip(text: Text, rest: seq<byte>)
    requires |text.bytes| <= 10 * 1024 * 1024
    ensures ReadString(EncodeString(text) + rest) == Parsed(text, rest)
  {
    EightBytes();
    var b := text.bytes;
    NumberRoundTrip(|b|, 8, b + rest);
    assert EncodeString(text) + rest == ToLittleEndian(|b|, 8) + (b + rest);
    assert (b + rest)[..|b|] == b && (b + rest)[|b|..] == rest;
  }

  /** The number a scalar is written as. */
  function NumberOf(d: Datum): nat {
    match d
    case Uint(_, n) => n
    case Int(width, i) => Unsigned(i, width)
    case Float(_, bits) => bits
    case Bool(b) => if b then 1 else 0
    case _ => 0
  }

  lemma ScalarIsNumber(d: Datum)
    requires WellFormed(d) && !d.Str? && !d.Array?
    ensures var layout := LayoutOf(TypeCode(d));
      && layout.Scalar? && NumberOf(d) < Limit(layout.width) && Encode(d) == ToLittleEndian(NumberOf(d), layout.width)
      && ScalarValue(layout.kind, layout.width, NumberOf(d)) == d
  {
    assert Limit(1) == 256;
    if d.Int? {
      SignedRoundTrip(d.i, d.width);
    }
  }

  lemma ScalarRoundTrip(d: Datum, rest: seq<byte>)
    requires WellFormed(d) && !d.Str? && !d.Array?
    ensures ReadValue(Encode(d) + rest, TypeCode(d)) == Parsed(d, rest)
  {
    ScalarIsNumber(d);
    NumberRoundTrip(NumberOf(d), LayoutOf(TypeCode(d)).width, rest);
  }

  /** Every well-formed value, arrays of arrays included, is read back from its encoding. */
  lemma {:induction false} ValueRoundTrip(d: Datum, rest: seq<byte>)
    requires WellFormed(d)
    ensures ReadValue(Encode(d) + rest, TypeCode(d)) == Parsed(d, rest)
    decreases d, 0
  {
    match d
    case Str(text) => StringRoundTrip(text, rest);
    case Array(elemType, elems) =>
      EightBytes();
      var body := EncodeAll(elems) + rest;
      var counted := ToLittleEndian(|elems|, 8) + body;
      assert Encode(d) + rest == ToLittleEndian(elemType, 4) + counted;
      NumberRoundTrip(elemType, 4, counted);
      NumberRoundTrip(|elems|, 8, body);
      ElementsRoundTrip(elems, elemType, rest);
    case _ => ScalarRoundTrip(d, rest);
  }

  lemma {:induction false} ElementsRoundTrip(elems: seq<Datum>, elemType: nat, rest: seq<byte>)
    requires forall e | e in elems :: WellFormed(e) && TypeCode(e) == elemType
    ensures ReadElements(EncodeAll(elems) + rest, elemType, |elems|) == Parsed(elems, rest)
    decreases elems, 1
  {
    if elems == [] {
      assert EncodeAll(elems) + rest == rest;
    } else {
      var tail := EncodeAll(elems[1..]) + rest;
      assert EncodeAll(elems) + rest == Encode(elems[0]) + tail;
      ValueRoundTrip(elems[0], tail);
      ElementsRoundTrip(elems[1..], elemType, rest);
      assert [elems[0]] + elems[1..] == elems;
    }
  }

  lemma EntryRoundTrip(e: Entry, rest: seq<byte>)
    requires WellFormedEntry(e)
    ensures ReadPair(EncodeEntry(e) + rest) == Parsed((e.key, e.value), rest)
  {
    var body := Encode(e.value) + rest;
    var typed := ToLittleEndian(TypeCode(e.value), 4) + body;
    assert EncodeEntry(e) + rest == EncodeString(e.key) + typed;
    StringRoundTrip(e.key, typed);
    EightBytes();
    NumberRoundTrip(TypeCode(e.value), 4, body);
    ValueRoundTrip(e.value, rest);
  }

  function MapSeq<E, T>(f: E -> T, es: seq<E>): seq<T> {
    if es == [] then [] else [f(es[0])] + MapSeq(f, es[1..])
  }

  ghost predicate ReadsBack<E, T>(encode: E -> seq<byte>, value: E -> T, read: seq<byte> -> Parsed<T>, e: E, tail: seq<byte>) {
    read(encode(e) + tail) == Parsed(value(e), tail)
  }

  lemma {:induction false} ManyRoundTrip<E(!new), T>(encode: E -> seq<byte>, value: E -> T, read: seq<byte> -> Parsed<T>, es: seq<E>, rest: seq<byte>)
    requires forall e, tail | e in es :: ReadsBack(encode, value, read, e, tail)
    ensures ReadMany(read, EncodeMany(encode, es) + rest, |es|) == Parsed(MapSeq(value, es), rest)
  {
    if es == [] {
      assert EncodeMany(encode, es) + rest == rest;
    } else {
      var tail := EncodeMany(encode, es[1..]) + rest;
      assert EncodeMany(encode, es) + rest == encode(es[0]) + tail;
      assert ReadsBack(encode, value, read, es[0], tail);
      ManyRoundTrip(encode, value, read, es[1..], rest);
    }
  }

  lemma EntriesRoundTrip(es: seq<Entry>, rest: seq<byte>)
    requires forall e | e in es :: WellFormedEntry(e)
    ensures ReadPairs(EncodeEntries(es) + rest, |es|) == Parsed(PairsOf(es), rest)
  {
    forall e, tail | e in es
      ensures ReadsBack(EncodeEntry, PairOf, ReadPair, e, tail)
    {
      EntryRoundTrip(e, tail);
    }
    ManyRoundTrip(EncodeEntry, PairOf, ReadPair, es, rest);
  }

  lemma MagicIsRead(rest: seq<byte>)
    ensures ReadNumber([0x47, 0x47, 0x55, 0x46] + rest, 4) == Parsed(MAGIC, rest)
  {
    var letters: seq<byte> := [0x47, 0x47, 0x55, 0x46];
    assert (letters + rest)[..4] == letters && (letters + rest)[4..] == rest;
    assert letters[1..] == [0x47, 0x55, 0x46] && letters[1..][1..] == [0x55, 0x46] && letters[1..][1..][1..] == [0x46];
    assert FromLittleEndian([0x46]) == 0x46 && FromLittleEndian([0x55, 0x46]) == 0x4655;
  }

  lemma HeaderRoundTrip(version: nat, tensorCount: nat, es: seq<Entry>, tensors: seq<byte>)
    requires version < Limit(4) && tensorCount < Limit(8) && |es| < Limit(8)
    ensures var body := ReadPairs(EncodeEntries(es) + tensors, |es|);
      body.Parsed? ==> ReadMeta(EncodeFile(version, tensorCount, es) + tensors)
                       == Parsed(Meta(version, tensorCount, Overwrite(map[], body.value)), body.rest)
  {
    EightBytes();
    var b4 := EncodeEntries(es) + tensors;
    var b3 := ToLittleEndian(|es|, 8) + b4;
    var b2 := ToLittleEndian(tensorCount, 8) + b3;
    var b1 := ToLittleEndian(version, 4) + b2;
    assert EncodeFile(version, tensorCount, es) + tensors == [0x47, 0x47, 0x55, 0x46] + b1;
    MagicIsRead(b1);
    NumberRoundTrip(version, 4, b2);
    NumberRoundTrip(tensorCount, 8, b3);
    NumberRoundTrip(|es|, 8, b4);
  }

  /** The reader rebuilds the last-wins map from the encoded file and stops at the tensor table. */
  lemma FileRoundTrip(version: nat, tensorCount: nat, es: seq<Entry>, tensors: seq<byte>)
    requires version < Limit(4) && tensorCount < Limit(8) && |es| < Limit(8)
    requires forall e | e in es :: WellFormedEntry(e)
    ensures var r := ReadMeta(EncodeFile(version, tensorCount, es) + tensors);
      && r.Parsed? && r.rest == tensors && r.value.version == version && r.value.tensorCount == tensorCount
      && LastWins(r.value.kv, PairsOf(es))
  {
    EntriesRoundTrip(es, tensors);
    HeaderRoundTrip(version, tensorCount, es, tensors);
    OverwriteLastWins(PairsOf(es));
  }

  lemma ScalarIsWellFormed(valType: nat, n: nat)
    requires LayoutOf(valType).Scalar? && n < Limit(LayoutOf(valType).width)
    ensures var d := ScalarValue(LayoutOf(valType).kind, LayoutOf(valType).width, n); WellFormed(d) && TypeCode(d) == valType
  {
  }

  /** Conversely, whatever the reader accepts is a well-formed value of the type whose code it was asked for. */
  lemma {:induction false} ReadIsWellFormed(b: seq<byte>, valType: nat)
    requires ReadValue(b, valType).Parsed?
    ensures WellFormed(ReadValue(b, valType).value) && TypeCode(ReadValue(b, valType).value) == valType
    decreases |b|, 1, 0
  {
    match LayoutOf(valType)
    case Scalar(_, width) => ScalarIsWellFormed(valType, ReadNumber(b, width).value);
    case StringLayout =>
    case ArrayLayout =>
      var elemType := ReadNumber(b, 4);
      var count := ReadNumber(elemType.rest, 8);
      ElementsAreWellFormed(count.rest, elemType.value, count.value);
    case UnknownLayout =>
  }

  lemma {:induction false} ElementsAreWellFormed(b: seq<byte>, elemType: nat, count: nat)
    requires ReadElements(b, elemType, count).Parsed?
    ensures forall e | e in ReadElements(b, elemType, count).value :: WellFormed(e) && TypeCode(e) == elemType
    decreases |b|, 2, count
  {
    if count > 0 {
      ReadIsWellFormed(b, elemType);
      ElementsAreWellFormed(ReadValue(b, elemType).rest, elemType, count - 1);
    }
  }

  ghost predicate WellFormedPairs(ps: seq<Pair>) {
    forall p | p in ps :: |p.0.bytes| <= 10 * 1024 * 1024 && WellFormed(p.1)
  }

  lemma {:induction false} PairsAreWellFormed(b: seq<byte>, count: nat)
    requires ReadPairs(b, count).Parsed?
    ensures WellFormedPairs(ReadPairs(b, count).value)
    decreases count
  {
    if count > 0 {
      var pair := ReadPair(b);
      var valType := ReadNumber(ReadString(b).rest, 4);
      ReadIsWellFormed(valType.rest, valType.value);
      assert ReadPairs(b, count) == Cons(pair.value, ReadPairs(pair.rest, count - 1));
      PairsAreWellFormed(pair.rest, count - 1);
    }
  }

  lemma OnlyMagicIsMagic(b: seq<byte>)
    requires |b| == 4 && FromLittleEndian(b) == MAGIC
    ensures b == [0x47, 0x47, 0x55, 0x46]
  {
    LittleEndianDigits(b);
    MagicIsRead([]);
    LittleEndianDigits([0x47, 0x47, 0x55, 0x46]);
    assert [0x47, 0x47, 0x55, 0x46] + [] == [0x47, 0x47, 0x55, 0x46] && ([0x47, 0x47, 0x55, 0x46] + [])[..4] == [0x47, 0x47, 0x55, 0x46];
  }

  /** A file whose metadata is read starts with GGUF, version and counts, and holds as many well-formed pairs as it says. */
  lemma MetaIsWellFormed(b: seq<byte>)
    requires ReadMeta(b).Parsed?
    ensures |b| >= 24 && b[..4] == [0x47, 0x47, 0x55, 0x46]
    ensures var m := ReadMeta(b).value; m.version == FromLittleEndian(b[4..8]) && m.tensorCount == FromLittleEndian(b[8..16])
    ensures exists ps: seq<Pair> :: |ps| == FromLittleEndian(b[16..24]) && WellFormedPairs(ps) && LastWins(ReadMeta(b).value.kv, ps)
  {
    OnlyMagicIsMagic(b[..4]);
    assert b[4..][..4] == b[4..8] && b[4..][4..] == b[8..];
    assert b[8..][..8] == b[8..16] && b[8..][8..] == b[16..];
    assert b[16..][..8] == b[16..24];
    var count := ReadNumber(b[16..], 8);
    var ps := ReadPairs(count.rest, count.value).value;
    PairsAreWellFormed(count.rest, count.value);
    OverwriteLastWins(ps);
  }

  // ------------------------------------------------------------------------------------------
  // Appended bytes change nothing
  // ------------------------------------------------------------------------------------------

  function Appended<T>(r: Parsed<T>, extra: seq<byte>): Parsed<T> {
    match r
    case Parsed(v, rest) => Parsed(v, rest + extra)
    case Failed(f) => Failed(f)
  }

  lemma NumberStable(b: seq<byte>, width: nat, extra: seq<byte>)
    requires ReadNumber(b, width).Parsed?
    ensures ReadNumber(b + extra, width) == Appended(ReadNumber(b, width), extra)
  {
    assert (b + extra)[..width] == b[..width];
    assert (b + extra)[width..] == b[width..] + extra;
  }

  lemma StringStable(b: seq<byte>, extra: seq<byte>)
    requires ReadString(b).Parsed?
    ensures ReadString(b + extra) == Appended(ReadString(b), extra)
  {
    NumberStable(b, 8, extra);
    var n := ReadNumber(b, 8);
    assert (n.rest + extra)[..n.value] == n.rest[..n.value];
    assert (n.rest + extra)[n.value..] == n.rest[n.value..] + extra;
  }

  lemma {:induction false} ValueStable(b: seq<byte>, valType: nat, extra: seq<byte>)
    requires ReadValue(b, valType).Parsed?
    ensures ReadValue(b + extra, valType) == Appended(ReadValue(b, valType), extra)
    decreases |b|, 1, 0
  {
    match LayoutOf(valType)
    case Scalar(_, width) => NumberStable(b, width, extra);
    case StringLayout => StringStable(b, extra);
    case ArrayLayout =>
      NumberStable(b, 4, extra);
      var elemType := ReadNumber(b, 4);
      NumberStable(elemType.rest, 8, extra);
      var count := ReadNumber(elemType.rest, 8);
      ElementsStable(count.rest, elemType.value, count.value, extra);
    case UnknownLayout =>
  }

  lemma {:induction false} ElementsStable(b: seq<byte>, elemType: nat, count: nat, extra: seq<byte>)
    requires ReadElements(b, elemType, count).Parsed?
    ensures ReadElements(b + extra, elemType, count) == Appended(ReadElements(b, elemType, count), extra)
    decreases |b|, 2, count
  {
    if count > 0 {
      ValueStable(b, elemType, extra);
      ElementsStable(ReadValue(b, elemType).rest, elemType, count - 1, extra);
    }
  }

  lemma PairStable(b: seq<byte>, extra: seq<byte>)
    requires ReadPair(b).Parsed?
    ensures ReadPair(b + extra) == Appended(ReadPair(b), extra)
  {
    StringStable(b, extra);
    var key := ReadString(b);
    NumberStable(key.rest, 4, extra);
    var valType := ReadNumber(key.rest, 4);
    ValueStable(valType.rest, valType.value, extra);
  }

  ghost predicate StableAt<T>(read: seq<byte> -> Parsed<T>, b: seq<byte>, extra: seq<byte>) {
    read(b).Parsed? ==> read(b + extra) == Appended(read(b), extra)
  }

  lemma {:induction false} ManyStable<T>(read: seq<byte> -> Parsed<T>, b: seq<byte>, count: nat, extra: seq<byte>)
    requires forall c :: StableAt(read, c, extra)
    requires ReadMany(read, b, count).Parsed?
    ensures ReadMany(read, b + extra, count) == Appended(ReadMany(read, b, count), extra)
    decreases count
  {
    if count > 0 {
      assert StableAt(read, b, extra);
      ManyStable(read, read(b).rest, count - 1, extra);
    }
  }

  lemma PairsStable(b: seq<byte>, count: nat, extra: seq<byte>)
    requires ReadPairs(b, count).Parsed?
    ensures ReadPairs(b + extra, count) == Appended(ReadPairs(b, count), extra)
  {
    forall c
      ensures StableAt(ReadPair, c, extra)
    {
      if ReadPair(c).Parsed? {
        PairStable(c, extra);
      }
    }
    ManyStable(ReadPair, b, count, extra);
  }

  /** A successful read gives the same metadata when bytes are appended, and leaves them unread. */
  lemma MetaStable(b: seq<byte>, extra: seq<byte>)
    requires ReadMeta(b).Parsed?
    ensures ReadMeta(b + extra) == Appended(ReadMeta(b), extra)
  {
    var m := ReadNumber(b, 4);
    NumberStable(b, 4, extra);
    var v := ReadNumber(m.rest, 4);
    NumberStable(m.rest, 4, extra);
    var t := ReadNumber(v.rest, 8);
    NumberStable(v.rest, 8, extra);
    var k := ReadNumber(t.rest, 8);
    NumberStable(t.rest, 8, extra);
    PairsStable(k.rest, k.value, extra);
  }
}

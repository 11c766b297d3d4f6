/** The reader of a GGUF file as the program runs it: one position, moved by every read. */
module GgufReader {
  import opened Bytes
  import opened Gguf
  import opened PairLists

  datatype Read<+T> = Got(value: T) | Error(failure: Failure)

  /** What a call returned, and where it left the stream, is what the read function says. */
  ghost predicate Follows<T>(spec: Parsed<T>, r: Read<T>, remaining: seq<byte>) {
    match spec
    case Parsed(v, rest) => r == Got(v) && remaining == rest
    case Failed(f) => r == Error(f)
  }

  /** `done` elements are read and `more` says how the rest of the array reads. */
  ghost function Prepend(done: seq<Datum>, more: Parsed<seq<Datum>>): Parsed<seq<Datum>> {
    match more
    case Parsed(ds, rest) => Parsed(done + ds, rest)
    case Failed(f) => Failed(f)
  }

  lemma PrependNothing(more: Parsed<seq<Datum>>)
    ensures Prepend([], more) == more
  {
    if more.Parsed? {
      assert [] + more.value == more.value;
    }
  }

  lemma PrependOne(done: seq<Datum>, d: Datum, more: Parsed<seq<Datum>>)
    ensures Prepend(done, Prepend([d], more)) == Prepend(done + [d], more)
  {
    if more.Parsed? {
      assert done + ([d] + more.value) == (done + [d]) + more.value;
    }
  }

  /** The map the pairs read are stored into. */
  ghost function Stored(kv: map<Text, Datum>, more: Parsed<seq<Pair>>): Parsed<map<Text, Datum>> {
    match more
    case Parsed(ps, rest) => Parsed(Overwrite(kv, ps), rest)
    case Failed(f) => Failed(f)
  }

  lemma StoredNext(kv: map<Text, Datum>, b: seq<byte>, count: nat)
    requires count > 0
    ensures match ReadPair(b)
      case Failed(f) => Stored(kv, ReadPairs(b, count)) == Failed(f)
      case Parsed(p, rest) => Stored(kv, ReadPairs(b, count)) == Stored(kv[p.0 := p.1], ReadPairs(rest, count - 1))
  {
    match ReadPair(b)
    case Failed(_) =>
    case Parsed(p, rest) =>
      var more := ReadPairs(rest, count - 1);
      if more.Parsed? {
        assert ([p] + more.value)[1..] == more.value;
      }
  }

  class Stream {
    const data: seq<byte>
    var pos: nat

    ghost predicate Valid()
      reads this
    {
      pos <= |data|
    }

    ghost function Remaining(): seq<byte>
      reads this
      requires Valid()
    {
      data[pos..]
    }

    constructor (data: seq<byte>)
      ensures Valid() && this.data == data && Remaining() == data
    {
      this.data := data;
      pos := 0;
    }

    method ReadFull(n: nat) returns (r: Read<seq<byte>>)
      requires Valid()
      modifies this
      ensures Valid() && pos >= old(pos)
      ensures n <= |old(Remaining())| ==> r == Got(old(Remaining())[..n]) && Remaining() == old(Remaining())[n..]
      ensures n > |old(Remaining())| ==> r == Error(Truncated)
    {
      if |data| - pos < n {
        pos := |data|;
        return Error(Truncated);
      }
      assert data[pos..][..n] == data[pos..pos + n] && data[pos..][n..] == data[pos + n..];
      r := Got(data[pos..pos + n]);
      pos := pos + n;
    }

    method ReadNumber(width: nat) returns (r: Read<nat>)
      requires Valid()
      modifies this
      ensures Valid() && pos >= old(pos)
      ensures Follows(Gguf.ReadNumber(old(Remaining()), width), r, Remaining())
    {
      var bytes := ReadFull(width);
      match bytes
      case Error(f) => return Error(f);
      case Got(b) =>
        var n: int := 0;
        var k := |b|;
        while k > 0
          invariant 0 <= k <= |b| && n == FromLittleEndian(b[k..])
        {
          k := k - 1;
          assert b[k..][1..] == b[k + 1..];
          n := b[k] + 256 * n;
        }
        assert b[0..] == b;
        r := Got(n);
    }

    method ReadString() returns (r: Read<Text>)
      requires Valid()
      modifies this
      ensures Valid() && pos >= old(pos)
      ensures Follows(Gguf.ReadString(old(Remaining())), r, Remaining())
    {
      var length := ReadNumber(8);
      if length.Error? {
        return Error(length.failure);
      }
      if length.value > MAX_STRING {
        return Error(StringTooLong);
      }
      var bytes := ReadFull(length.value);
      r := if bytes.Got? then Got(Text(bytes.value)) else Error(bytes.failure);
    }

    method ReadValue(valType: nat) returns (r: Read<Datum>)
      requires Valid()
      modifies this
      ensures Valid() && pos >= old(pos)
      ensures Follows(Gguf.ReadValue(old(Remaining()), valType), r, Remaining())
      decreases |data| - pos, 1
    {
      match LayoutOf(valType)
      case Scalar(kind, width) =>
        var n := ReadNumber(width);
        r := if n.Got? then Got(ScalarValue(kind, width, n.value)) else Error(n.failure);
      case StringLayout =>
        var text := ReadString();
        r := if text.Got? then Got(Str(text.value)) else Error(text.failure);
      case ArrayLayout => r := ReadArray();
      case UnknownLayout => r := Error(UnknownType);
    }

    method ReadArray() returns (r: Read<Datum>)
      requires Valid()
      modifies this
      ensures Valid() && pos >= old(pos)
      ensures Follows(Gguf.ReadArray(old(Remaining())), r, Remaining())
      decreases |data| - pos, 0
    {
      var elemType := ReadNumber(4);
      if elemType.Error? {
        return Error(elemType.failure);
      }
      var count := ReadNumber(8);
      if count.Error? {
        return Error(count.failure);
      }
      if count.value > MAX_ARRAY {
        return Error(ArrayTooLong);
      }
      var elems := ReadElements(elemType.value, count.value);
      r := if elems.Got? then Got(Array(elemType.value, elems.value)) else Error(elems.failure);
    }

    method ReadElements(elemType: nat, count: nat) returns (r: Read<seq<Datum>>)
      requires Valid()
      modifies this
      ensures Valid() && pos >= old(pos)
      ensures Follows(Gguf.ReadElements(old(Remaining()), elemType, count), r, Remaining())
      decreases |data| - pos, 2
    {
      var result: seq<Datum> := [];
      ghost var spec := Gguf.ReadElements(Remaining(), elemType, count);
      PrependNothing(spec);
      for i := 0 to count
        invariant Valid() && pos >= old(pos)
        invariant spec == Prepend(result, Gguf.ReadElements(Remaining(), elemType, count - i))
      {
        var val := ReadValue(elemType);
        if val.Error? {
          return Error(val.failure);
        }
        PrependOne(result, val.value, Gguf.ReadElements(Remaining(), elemType, count - i - 1));
        result := result + [val.value];
      }
      assert result + [] == result;
      r := Got(result);
    }

    method ReadKV() returns (r: Read<Pair>)
      requires Valid()
      modifies this
      ensures Valid() && pos >= old(pos)
      ensures Follows(ReadPair(old(Remaining())), r, Remaining())
    {
      var key := ReadString();
      if key.Error? {
        return Error(key.failure);
      }
      var valType := ReadNumber(4);
      if valType.Error? {
        return Error(valType.failure);
      }
      var val := ReadValue(valType.value);
      if val.Error? {
        return Error(val.failure);
      }
      r := Got((key.value, val.value));
    }

    method ReadMeta() returns (r: Read<Meta>)
      requires Valid()
      modifies this
      ensures Valid() && Follows(Gguf.ReadMeta(old(Remaining())), r, Remaining())
    {
      var magic := ReadNumber(4);
      if magic.Error? {
        return Error(magic.failure);
      }
      if magic.value != MAGIC {
        return Error(BadMagic);
      }
      var version := ReadNumber(4);
      if version.Error? {
        return Error(version.failure);
      }
      var tensorCount := ReadNumber(8);
      if tensorCount.Error? {
        return Error(tensorCount.failure);
      }
      var kvCount := ReadNumber(8);
      if kvCount.Error? {
        return Error(kvCount.failure);
      }
      var kv := ReadKVs(kvCount.value);
      r := if kv.Got? then Got(Meta(version.value, tensorCount.value, kv.value)) else Error(kv.failure);
    }

    method ReadKVs(count: nat) returns (r: Read<map<Text, Datum>>)
      requires Valid()
      modifies this
      ensures Valid() && Follows(Stored(map[], ReadPairs(old(Remaining()), count)), r, Remaining())
    {
      var kv: map<Text, Datum> := map[];
      ghost var spec := Stored(kv, ReadPairs(Remaining(), count));
      for i := 0 to count
        invariant Valid() && spec == Stored(kv, ReadPairs(Remaining(), count - i))
      {
        StoredNext(kv, Remaining(), count - i);
        var p := ReadKV();
        if p.Error? {
          return Error(p.failure);
        }
        kv := kv[p.value.0 := p.value.1];
      }
      r := Got(kv);
    }
  }
}

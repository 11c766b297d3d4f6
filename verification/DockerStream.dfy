/**
 Docker's multiplexed log stream (Docker Engine API, "Attach to a container", "Stream format"):
 frames of an 8-byte header and a payload, decoded into what the container wrote to each stream.
 */
module DockerStream {
  import opened Results
  import opened Bytes
  import opened GgufReader

  datatype Frame = Frame(kind: byte, padding: seq<byte>, payload: seq<byte>)

  datatype StreamError = PayloadTooLarge | ShortPayload

  const HEADER := 8
  const MAX_PAYLOAD := 100 * 1024 * 1024
  const STDERR: byte := 2

  // ------------------------------------------------------------------------------------------
  // The format
  // ------------------------------------------------------------------------------------------

  function Encode(f: Frame): seq<byte> {
    [f.kind] + f.padding + ToBigEndian(|f.payload|, 4) + f.payload
  }

  function EncodeAll(fs: seq<Frame>): seq<byte> {
    if fs == [] then [] else Encode(fs[0]) + EncodeAll(fs[1..])
  }

  predicate WellFormed(f: Frame) {
    |f.padding| == 3 && |f.payload| <= 100 * 1024 * 1024
  }

  /** The input is these frames, then fewer bytes than a header has. */
  ghost predicate SplitsInto(b: seq<byte>, fs: seq<Frame>, tail: seq<byte>) {
    (forall f | f in fs :: WellFormed(f)) && b == EncodeAll(fs) + tail && |tail| < 8
  }

  /** The input is these frames, then a header that announces too long a payload, or one that is cut short. */
  ghost predicate BreaksAfter(b: seq<byte>, fs: seq<Frame>, rest: seq<byte>, e: StreamError) {
    && (forall f | f in fs :: WellFormed(f)) && b == EncodeAll(fs) + rest && |rest| >= 8
    && match e
       case PayloadTooLarge => FromBigEndian(rest[4..8]) > 100 * 1024 * 1024
       case ShortPayload => FromBigEndian(rest[4..8]) <= 100 * 1024 * 1024 && |rest| < 8 + FromBigEndian(rest[4..8])
  }

  /** The payloads written to a stream, in order: type 2 is stderr, every other type is stdout. */
  function Written(fs: seq<Frame>, stderr: bool): seq<byte> {
    if fs == [] then []
    else (if (fs[0].kind == STDERR) == stderr then fs[0].payload else []) + Written(fs[1..], stderr)
  }

  function Payloads(fs: seq<Frame>): seq<byte> {
    if fs == [] then [] else fs[0].payload + Payloads(fs[1..])
  }

  // ------------------------------------------------------------------------------------------
  // Taking the input apart
  // ------------------------------------------------------------------------------------------

  datatype Split = Split(frames: seq<Frame>, tail: seq<byte>) | Broken(error: StreamError)

  function Prepend(f: Frame, more: Split): Split {
    match more
    case Broken(e) => Broken(e)
    case Split(fs, tail) => Split([f] + fs, tail)
  }

  function SplitFrames(b: seq<byte>): Split {
    if |b| < HEADER then Split([], b)
    else
      var n := FromBigEndian(b[4..8]);
      if n > MAX_PAYLOAD then Broken(PayloadTooLarge)
      else if |b| < HEADER + n then Broken(ShortPayload)
      else Prepend(Frame(b[0], b[1..4], b[HEADER..HEADER + n]), SplitFrames(b[HEADER + n..]))
  }

  lemma HeaderOf(f: Frame, more: seq<byte>)
    requires WellFormed(f)
    ensures var b := Encode(f) + more; var n := |f.payload|;
      && |b| >= HEADER + n && FromBigEndian(b[4..8]) == n && b[HEADER + n..] == more
      && f == Frame(b[0], b[1..4], b[HEADER..HEADER + n])
  {
    var b := Encode(f) + more;
    assert Limit(1) == 256 && Limit(2) == 65536 && Limit(3) == 16777216 && Limit(4) == 4294967296;
    BigEndianRoundTrip(|f.payload|, 4);
    assert b[4..8] == ToBigEndian(|f.payload|, 4);
    assert b[1..4] == f.padding;
    assert b[HEADER..HEADER + |f.payload|] == f.payload;
  }

  lemma FirstFrame(b: seq<byte>)
    requires |b| >= HEADER && |b| >= HEADER + FromBigEndian(b[4..8])
    ensures var n := FromBigEndian(b[4..8]);
      b == Encode(Frame(b[0], b[1..4], b[HEADER..HEADER + n])) + b[HEADER + n..]
  {
    BigEndianDigits(b[4..8]);
  }

  /** The input splits in one way at most, and the splitter finds it. */
  lemma {:induction false} SplitIsUnique(b: seq<byte>, fs: seq<Frame>, tail: seq<byte>)
    requires SplitsInto(b, fs, tail)
    ensures SplitFrames(b) == Split(fs, tail)
    decreases |fs|
  {
    if fs == [] {
      assert b == tail;
    } else {
      var more := EncodeAll(fs[1..]) + tail;
      assert b == Encode(fs[0]) + more;
      HeaderOf(fs[0], more);
      SplitIsUnique(more, fs[1..], tail);
      assert fs == [fs[0]] + fs[1..];
    }
  }

  lemma {:induction false} BreakIsUnique(b: seq<byte>, fs: seq<Frame>, rest: seq<byte>, e: StreamError)
    requires BreaksAfter(b, fs, rest, e)
    ensures SplitFrames(b) == Broken(e)
    decreases |fs|
  {
    if fs == [] {
      assert b == rest;
    } else {
      var more := EncodeAll(fs[1..]) + rest;
      assert b == Encode(fs[0]) + more;
      HeaderOf(fs[0], more);
      BreakIsUnique(more, fs[1..], rest, e);
    }
  }

  lemma OneFrameMore(f: Frame, fs: seq<Frame>, rest: seq<byte>)
    requires WellFormed(f) && forall g | g in fs :: WellFormed(g)
    ensures EncodeAll([f] + fs) + rest == Encode(f) + (EncodeAll(fs) + rest)
    ensures forall g | g in [f] + fs :: WellFormed(g)
  {
    assert ([f] + fs)[1..] == fs;
  }

  /** Whether a whole frame comes next. */
  predicate FrameNext(b: seq<byte>) {
    |b| >= HEADER && FromBigEndian(b[4..8]) <= MAX_PAYLOAD && |b| >= HEADER + FromBigEndian(b[4..8])
  }

  function NextFrame(b: seq<byte>): Frame
    requires FrameNext(b)
  {
    Frame(b[0], b[1..4], b[HEADER..HEADER + FromBigEndian(b[4..8])])
  }

  function AfterFrame(b: seq<byte>): seq<byte>
    requires FrameNext(b)
  {
    b[HEADER + FromBigEndian(b[4..8])..]
  }

  lemma SplitNext(b: seq<byte>)
    requires FrameNext(b)
    ensures SplitFrames(b) == Prepend(NextFrame(b), SplitFrames(AfterFrame(b)))
    ensures |AfterFrame(b)| < |b|
  {
  }

  lemma SplitStops(b: seq<byte>)
    requires !FrameNext(b)
    ensures SplitFrames(b) == if |b| < HEADER then Split([], b)
                              else if FromBigEndian(b[4..8]) > MAX_PAYLOAD then Broken(PayloadTooLarge) else Broken(ShortPayload)
  {
  }

  lemma SplitMore(b: seq<byte>, fs: seq<Frame>, tail: seq<byte>)
    requires FrameNext(b) && SplitsInto(AfterFrame(b), fs, tail)
    ensures SplitsInto(b, [NextFrame(b)] + fs, tail)
  {
    FirstFrame(b);
    OneFrameMore(NextFrame(b), fs, tail);
  }

  lemma BreakMore(b: seq<byte>, fs: seq<Frame>, rest: seq<byte>, e: StreamError)
    requires FrameNext(b) && BreaksAfter(AfterFrame(b), fs, rest, e)
    ensures BreaksAfter(b, [NextFrame(b)] + fs, rest, e)
  {
    FirstFrame(b);
    OneFrameMore(NextFrame(b), fs, rest);
  }

  lemma StopIsSound(b: seq<byte>)
    requires !FrameNext(b)
    ensures SplitFrames(b).Split? ==> SplitsInto(b, SplitFrames(b).frames, SplitFrames(b).tail)
    ensures SplitFrames(b).Broken? ==> BreaksAfter(b, [], b, SplitFrames(b).error)
  {
    SplitStops(b);
    assert b == EncodeAll([]) + b;
  }

  /** Conversely, what the splitter answers is a split of the input, or the place where it breaks. */
  lemma {:induction false} SplitIsSound(b: seq<byte>)
    ensures SplitFrames(b).Split? ==> SplitsInto(b, SplitFrames(b).frames, SplitFrames(b).tail)
    ensures SplitFrames(b).Broken? ==> exists fs, rest :: BreaksAfter(b, fs, rest, SplitFrames(b).error)
  {
    if FrameNext(b) {
      SplitNext(b);
      SplitIsSound(AfterFrame(b));
      match SplitFrames(AfterFrame(b))
      case Split(fs, tail) => SplitMore(b, fs, tail);
      case Broken(e) =>
        var fs, rest :| BreaksAfter(AfterFrame(b), fs, rest, e);
        BreakMore(b, fs, rest, e);
    } else {
      StopIsSound(b);
    }
  }

  /** Every payload byte is in exactly one of the two outputs. */
  lemma {:induction false} NothingLost(fs: seq<Frame>)
    ensures multiset(Payloads(fs)) == multiset(Written(fs, true)) + multiset(Written(fs, false))
  {
    if fs != [] {
      NothingLost(fs[1..]);
    }
  }

  /** Frames of kind 2 are stderr and all others stdout, each stream in the order of its frames. */
  lemma {:induction false} WrittenByKind(f: Frame, fs: seq<Frame>, gs: seq<Frame>)
    ensures Written([f], true) == if f.kind == 2 then f.payload else []
    ensures Written([f], false) == if f.kind == 2 then [] else f.payload
    ensures forall stderr :: Written(fs + gs, stderr) == Written(fs, stderr) + Written(gs, stderr)
    decreases |fs|
  {
    assert [f][1..] == [];
    if fs == [] {
      assert fs + gs == gs;
    } else {
      assert (fs + gs)[1..] == fs[1..] + gs;
      WrittenByKind(f, fs[1..], gs);
    }
  }

  // ------------------------------------------------------------------------------------------
  // The decoder
  // ------------------------------------------------------------------------------------------

  datatype Output = Output(stdout: seq<byte>, stderr: seq<byte>)

  /** What is still to come, after the outputs so far. */
  ghost function Continued(stdout: seq<byte>, stderr: seq<byte>, more: Split): Result<Output, StreamError> {
    match more
    case Split(fs, _) => Ok(Output(stdout + Written(fs, false), stderr + Written(fs, true)))
    case Broken(e) => Err(e)
  }

  lemma WrittenNext(done: seq<byte>, f: Frame, fs: seq<Frame>, stderr: bool)
    ensures done + Written([f] + fs, stderr)
            == (if (f.kind == STDERR) == stderr then done + f.payload else done) + Written(fs, stderr)
  {
    assert ([f] + fs)[1..] == fs;
    if (f.kind == STDERR) == stderr {
      assert done + (f.payload + Written(fs, stderr)) == (done + f.payload) + Written(fs, stderr);
    } else {
      assert [] + Written(fs, stderr) == Written(fs, stderr);
    }
  }

  lemma ContinuedNext(stdout: seq<byte>, stderr: seq<byte>, b: seq<byte>)
    requires FrameNext(b)
    ensures var f := NextFrame(b);
      Continued(stdout, stderr, SplitFrames(b))
      == if f.kind == STDERR then Continued(stdout, stderr + f.payload, SplitFrames(AfterFrame(b)))
         else Continued(stdout + f.payload, stderr, SplitFrames(AfterFrame(b)))
  {
    SplitNext(b);
    match SplitFrames(AfterFrame(b))
    case Broken(_) =>
    case Split(fs, _) =>
      WrittenNext(stdout, NextFrame(b), fs, false);
      WrittenNext(stderr, NextFrame(b), fs, true);
  }

  lemma ContinuedOver(stdout: seq<byte>, stderr: seq<byte>, tail: seq<byte>)
    ensures Continued(stdout, stderr, Split([], tail)) == Ok(Output(stdout, stderr))
  {
    assert stdout + [] == stdout && stderr + [] == stderr;
  }

  lemma ContinuedEnds(stdout: seq<byte>, stderr: seq<byte>, b: seq<byte>)
    requires !FrameNext(b)
    ensures Continued(stdout, stderr, SplitFrames(b)) ==
            if |b| < HEADER then Ok(Output(stdout, stderr))
            else Err(if FromBigEndian(b[4..8]) > MAX_PAYLOAD then PayloadTooLarge else ShortPayload)
  {
    SplitStops(b);
    ContinuedOver(stdout, stderr, b);
  }

  /** A frame without a payload leaves the outputs as they are. */
  lemma ContinuedEmpty(stdout: seq<byte>, stderr: seq<byte>, b: seq<byte>)
    requires |b| >= HEADER && FromBigEndian(b[4..8]) == 0
    ensures FrameNext(b) && Continued(stdout, stderr, SplitFrames(b)) == Continued(stdout, stderr, SplitFrames(b[HEADER..]))
  {
    ContinuedNext(stdout, stderr, b);
    assert NextFrame(b).payload == [] && stdout + [] == stdout && stderr + [] == stderr;
  }

  /** Succeeds exactly on frames followed by a partial header, and then returns what they wrote. */
  method Decode(input: seq<byte>) returns (r: Result<Output, StreamError>)
    ensures r.Ok? <==> exists fs, tail :: SplitsInto(input, fs, tail)
    ensures forall fs, tail | SplitsInto(input, fs, tail) :: r == Ok(Output(Written(fs, false), Written(fs, true)))
    ensures forall fs, rest, e | BreaksAfter(input, fs, rest, e) :: r == Err(e)
  {
    var reader := new Stream(input);
    r := DecodeFrom(reader);
    SplitIsSound(input);
    forall fs, tail | SplitsInto(input, fs, tail)
      ensures r == Ok(Output(Written(fs, false), Written(fs, true)))
    {
      SplitIsUnique(input, fs, tail);
      assert [] + Written(fs, false) == Written(fs, false) && [] + Written(fs, true) == Written(fs, true);
    }
    forall fs, rest, e | BreaksAfter(input, fs, rest, e)
      ensures r == Err(e)
    {
      BreakIsUnique(input, fs, rest, e);
    }
  }

  /** The outputs so far and the bytes unread give the answer. */
  ghost predicate Promises(answer: Result<Output, StreamError>, stdout: seq<byte>, stderr: seq<byte>, b: seq<byte>) {
    answer == Continued(stdout, stderr, SplitFrames(b))
  }

  method DecodeFrom(reader: Stream) returns (r: Result<Output, StreamError>)
    requires reader.Valid()
    modifies reader
    ensures r == Continued([], [], SplitFrames(old(reader.Remaining())))
  {
    var stdout: seq<byte>, stderr: seq<byte> := [], [];
    ghost var answer := Continued(stdout, stderr, SplitFrames(reader.Remaining()));
    while true
      invariant reader.Valid() && Promises(answer, stdout, stderr, reader.Remaining())
      decreases |reader.Remaining()|
    {
      ghost var b := reader.Remaining();
      var header := reader.ReadFull(HEADER);
      if header.Error? {
        ContinuedEnds(stdout, stderr, b);
        break;
      }
      assert header.value[4..8] == b[4..8];
      var kind := header.value[0];
      var payloadLen := FromBigEndian(header.value[4..8]);
      if payloadLen > MAX_PAYLOAD {
        ContinuedEnds(stdout, stderr, b);
        return Err(PayloadTooLarge);
      }
      if payloadLen == 0 {
        ContinuedEmpty(stdout, stderr, b);
        continue;
      }
      var payload := reader.ReadFull(payloadLen);
      if payload.Error? {
        ContinuedEnds(stdout, stderr, b);
        return Err(ShortPayload);
      }
      PayloadRead(b, payloadLen);
      ContinuedNext(stdout, stderr, b);
      if kind == STDERR {
        stderr := stderr + payload.value;
      } else {
        stdout := stdout + payload.value;
      }
    }
    r := Ok(Output(stdout, stderr));
  }

  lemma PayloadRead(b: seq<byte>, n: nat)
    requires FrameNext(b) && n == FromBigEndian(b[4..8])
    ensures b[HEADER..][..n] == NextFrame(b).payload && b[HEADER..][n..] == AfterFrame(b)
  {
  }
}

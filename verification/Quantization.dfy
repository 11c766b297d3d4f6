/**
 The choice of a quantization name from the tensor table of a GGUF file. Tensor types are kept as
 their codes: the table of type names is one-to-one, and names it does not hold are never quantized.
 */
module Quantization {
  import opened Results
  import opened Bytes
  import opened Gguf
  import opened GgufReader

  type Code = int

  /** The codes whose names start with "q" or "iq". */
  predicate Quantized(t: Code) {
    t == 2 || t == 3 || 6 <= t <= 23 || t == 29
  }

  /** f32 and f16. */
  predicate Plain(t: Code) {
    t == 0 || t == 1
  }

  /** The names of the tensor types; any other code has a name of its own that starts with "type_". */
  function TypeName(t: Code): string {
    match t
    case 0 => "f32"
    case 1 => "f16"
    case 2 => "q4_0"
    case 3 => "q4_1"
    case 6 => "q5_0"
    case 7 => "q5_1"
    case 8 => "q8_0"
    case 9 => "q8_1"
    case 10 => "q2_k"
    case 11 => "q3_k"
    case 12 => "q4_k"
    case 13 => "q5_k"
    case 14 => "q6_k"
    case 15 => "q8_k"
    case 16 => "iq2_xxs"
    case 17 => "iq2_xs"
    case 18 => "iq3_xxs"
    case 19 => "iq1_s"
    case 20 => "iq4_nl"
    case 21 => "iq3_s"
    case 22 => "iq2_s"
    case 23 => "iq4_xs"
    case 24 => "i8"
    case 25 => "i16"
    case 26 => "i32"
    case 27 => "i64"
    case 28 => "f64"
    case 29 => "iq1_m"
    case 30 => "bf16"
    case _ => "type_"
  }

  lemma QuantizedIffNamedSo(t: Code)
    ensures Quantized(t) <==> TypeName(t)[..1] == "q" || TypeName(t)[..2] == "iq"
    ensures Plain(t) <==> TypeName(t) == "f32" || TypeName(t) == "f16"
  {
    assert "f32"[0] == 'f' && "f16"[0] == 'f' && TypeName(t)[..1] == [TypeName(t)[0]] && TypeName(t)[..2] == [TypeName(t)[0], TypeName(t)[1]];
  }

  // ------------------------------------------------------------------------------------------
  // The tensor table
  // ------------------------------------------------------------------------------------------

  /** One tensor: name, dimension count, dimensions, type, offset. The dimension bytes wrap at 32 bits. */
  function ReadTensor(b: seq<byte>): Parsed<nat> {
    match ReadString(b)
    case Failed(f) => Failed(f)
    case Parsed(_, b1) =>
      match Gguf.ReadNumber(b1, 4)
      case Failed(f) => Failed(f)
      case Parsed(dims, b2) =>
        if |b2| < dims * 8 % 0x1_0000_0000 then Failed(Truncated)
        else match Gguf.ReadNumber(b2[dims * 8 % 0x1_0000_0000..], 4)
          case Failed(f) => Failed(f)
          case Parsed(code, b3) =>
            match Gguf.ReadNumber(b3, 8)
            case Failed(f) => Failed(f)
            case Parsed(_, rest) => Parsed(code, rest)
  }

  /** The type codes up to the first tensor that cannot be read, at most `count` of them. */
  function TensorTypes(b: seq<byte>, count: nat): seq<Code>
    decreases count
  {
    if count == 0 then []
    else match ReadTensor(b)
      case Failed(_) => []
      case Parsed(code, rest) => [code] + TensorTypes(rest, count - 1)
  }

  datatype Tensor = Tensor(name: Text, dims: seq<nat>, code: nat, offset: nat)

  predicate WellFormedTensor(t: Tensor) {
    && |t.name.bytes| <= 10 * 1024 * 1024 && |t.dims| < Limit(4) && t.code < Limit(4) && t.offset < Limit(8)
    && forall d | d in t.dims :: d < Limit(8)
  }

  function EncodeDim(d: nat): seq<byte> {
    ToLittleEndian(d, 8)
  }

  function EncodeTensor(t: Tensor): seq<byte> {
    EncodeString(t.name) + (ToLittleEndian(|t.dims|, 4) + (EncodeMany(EncodeDim, t.dims) + (ToLittleEndian(t.code, 4) + ToLittleEndian(t.offset, 8))))
  }

  lemma {:induction false} DimsLength(dims: seq<nat>)
    ensures |EncodeMany(EncodeDim, dims)| == 8 * |dims|
  {
    if dims != [] {
      DimsLength(dims[1..]);
    }
  }

  /** What comes after the dimensions, and after the dimension count. */
  function AfterDims(t: Tensor, rest: seq<byte>): seq<byte> {
    ToLittleEndian(t.code, 4) + (ToLittleEndian(t.offset, 8) + rest)
  }

  function AfterCount(t: Tensor, rest: seq<byte>): seq<byte> {
    EncodeMany(EncodeDim, t.dims) + AfterDims(t, rest)
  }

  lemma TypeIsRead(t: Tensor, rest: seq<byte>)
    requires WellFormedTensor(t)
    ensures |AfterCount(t, rest)| == 8 * |t.dims| + 12 + |rest| && AfterCount(t, rest)[8 * |t.dims|..] == AfterDims(t, rest)
    ensures Gguf.ReadNumber(AfterDims(t, rest), 4) == Parsed(t.code, ToLittleEndian(t.offset, 8) + rest)
    ensures Gguf.ReadNumber(ToLittleEndian(t.offset, 8) + rest, 8) == Parsed(t.offset, rest)
  {
    DimsLength(t.dims);
    NumberRoundTrip(t.code, 4, ToLittleEndian(t.offset, 8) + rest);
    NumberRoundTrip(t.offset, 8, rest);
  }

  lemma CountIsRead(t: Tensor, rest: seq<byte>)
    requires WellFormedTensor(t)
    ensures ReadString(EncodeTensor(t) + rest) == Parsed(t.name, ToLittleEndian(|t.dims|, 4) + AfterCount(t, rest))
    ensures Gguf.ReadNumber(ToLittleEndian(|t.dims|, 4) + AfterCount(t, rest), 4) == Parsed(|t.dims|, AfterCount(t, rest))
  {
    var counted := ToLittleEndian(|t.dims|, 4) + AfterCount(t, rest);
    assert EncodeTensor(t) + rest == EncodeString(t.name) + counted;
    StringRoundTrip(t.name, counted);
    NumberRoundTrip(|t.dims|, 4, AfterCount(t, rest));
  }

  lemma TensorFrom(b: seq<byte>, n: nat, b2: seq<byte>, code: nat, rest: seq<byte>)
    requires var text := ReadString(b); text.Parsed? && Gguf.ReadNumber(text.rest, 4) == Parsed(n, b2)
    requires |b2| == 8 * n + 12 + |rest| && n < 0x1_0000_0000
    requires var typed := Gguf.ReadNumber(b2[8 * n..], 4);
      typed.Parsed? && typed.value == code && var offset := Gguf.ReadNumber(typed.rest, 8); offset.Parsed? && offset.rest == rest
    ensures ReadTensor(b) == Parsed(code, rest) <==> n < 0x2000_0000
  {
    if n < 0x2000_0000 {
      assert n * 8 % 0x1_0000_0000 == 8 * n;
    } else {
      assert n * 8 % 0x1_0000_0000 < 8 * n;
    }
  }

  /** A tensor is read to its end, with its type, exactly when the bytes of its dimensions can be counted in 32 bits. */
  lemma TensorRoundTripIff(t: Tensor, rest: seq<byte>)
    requires WellFormedTensor(t)
    ensures ReadTensor(EncodeTensor(t) + rest) == Parsed(t.code, rest) <==> |t.dims| < 0x2000_0000
  {
    CountIsRead(t, rest);
    TypeIsRead(t, rest);
    assert Limit(1) == 256 && Limit(2) == 65536 && Limit(3) == 16777216 && Limit(4) == 4294967296;
    TensorFrom(EncodeTensor(t) + rest, |t.dims|, AfterCount(t, rest), t.code, rest);
  }

  function CodeOf(t: Tensor): Code {
    t.code
  }

  lemma TypesNext(b: seq<byte>, count: nat, code: nat, rest: seq<byte>)
    requires count > 0 && ReadTensor(b) == Parsed(code, rest)
    ensures TensorTypes(b, count) == [code] + TensorTypes(rest, count - 1)
  {
  }

  lemma TableNext(ts: seq<Tensor>, rest: seq<byte>)
    requires ts != []
    ensures EncodeMany(EncodeTensor, ts) + rest == EncodeTensor(ts[0]) + (EncodeMany(EncodeTensor, ts[1..]) + rest)
    ensures MapSeq(CodeOf, ts) == [ts[0].code] + MapSeq(CodeOf, ts[1..])
  {
  }

  /** The types of a whole table are read in order, whatever follows it. */
  lemma {:induction false} TableRoundTrip(ts: seq<Tensor>, rest: seq<byte>)
    requires forall t | t in ts :: WellFormedTensor(t) && |t.dims| < 0x2000_0000
    ensures TensorTypes(EncodeMany(EncodeTensor, ts) + rest, |ts|) == MapSeq(CodeOf, ts)
  {
    if ts != [] {
      var more := EncodeMany(EncodeTensor, ts[1..]) + rest;
      TableNext(ts, rest);
      TensorRoundTripIff(ts[0], more);
      TypesNext(EncodeTensor(ts[0]) + more, |ts|, ts[0].code, more);
      TableRoundTrip(ts[1..], rest);
    }
  }

  // ------------------------------------------------------------------------------------------
  // The answers
  // ------------------------------------------------------------------------------------------

  ghost predicate Maximal(m: multiset<Code>, t: Code) {
    t in m && forall u | u in m :: m[u] <= m[t]
  }

  /** A quantized type seen on more than a quarter as many tensors as the winner. */
  predicate Displaces(m: multiset<Code>, q: Code, winner: Code) {
    q in m && Quantized(q) && m[q] > m[winner] / 4
  }

  /** What may be answered for a winner: which of several displacing types is met first is not fixed. */
  ghost predicate MayAnswer(m: multiset<Code>, winner: Code, t: Code) {
    if Plain(winner) && exists q :: Displaces(m, q, winner) then Displaces(m, t, winner) else t == winner
  }

  /** The winner of the counting loop: it is replaced only by a type whose count gets past its own. */
  function Winner(ts: seq<Code>): (w: Option<Code>)
    ensures w.Some? <==> ts != []
  {
    if ts == [] then None
    else
      var before := ts[..|ts| - 1];
      var t := ts[|ts| - 1];
      var w := Winner(before);
      if w == None || multiset(ts)[t] > multiset(before)[w.value] then Some(t) else w
  }

  /** The answers for tensors counted in this order; None is the name "unknown". */
  ghost predicate Answers(ts: seq<Code>, answer: Option<Code>) {
    match Winner(ts)
    case None => answer == None
    case Some(w) => answer.Some? && MayAnswer(multiset(ts), w, answer.value)
  }

  /** The answers for tensors counted in any order. */
  ghost predicate Candidate(m: multiset<Code>, answer: Option<Code>) {
    if m == multiset{} then answer == None
    else answer.Some? && exists w :: Maximal(m, w) && MayAnswer(m, w, answer.value)
  }

  lemma SplitLast(ts: seq<Code>)
    requires ts != []
    ensures multiset(ts) == multiset(ts[..|ts| - 1])[ts[|ts| - 1] := multiset(ts[..|ts| - 1])[ts[|ts| - 1]] + 1]
  {
    assert ts == ts[..|ts| - 1] + [ts[|ts| - 1]];
  }

  /** At every point of the loop the winner so far has the largest count so far. */
  lemma {:induction false} WinnerIsMaximal(ts: seq<Code>, n: nat)
    requires 0 < n <= |ts|
    ensures Maximal(multiset(ts[..n]), Winner(ts[..n]).value)
  {
    var sofar := ts[..n];
    SplitLast(sofar);
    assert sofar[..n - 1] == ts[..n - 1];
    if n > 1 {
      WinnerIsMaximal(ts, n - 1);
    }
  }

  function Copies(w: Code, k: nat): seq<Code> {
    if k == 0 then [] else Copies(w, k - 1) + [w]
  }

  lemma {:induction false} CopiesCount(w: Code, k: nat, t: Code)
    ensures multiset(Copies(w, k))[t] == if t == w then k else 0
  {
    if k > 0 {
      CopiesCount(w, k - 1, t);
    }
  }

  /** A type whose count does not get past the winner's does not replace it. */
  lemma StillWins(ts: seq<Code>, w: Code, t: Code)
    requires Winner(ts) == Some(w) && (t == w || multiset(ts)[t] < multiset(ts)[w])
    ensures Winner(ts + [t]) == Some(w)
  {
    var longer := ts + [t];
    assert longer[..|longer| - 1] == ts;
    SplitLast(longer);
  }

  lemma {:induction false} CopiesWin(w: Code, k: nat)
    requires k > 0
    ensures Winner(Copies(w, k)) == Some(w)
  {
    if k == 1 {
      assert Copies(w, 1) == [w];
    } else {
      CopiesWin(w, k - 1);
      StillWins(Copies(w, k - 1), w, w);
    }
  }

  lemma CopiesAndRest(w: Code, k: nat, rest: seq<Code>, t: Code)
    ensures multiset(Copies(w, k) + rest)[t] == multiset(rest)[t] + if t == w then k else 0
  {
    CopiesCount(w, k, t);
    assert multiset(Copies(w, k) + rest) == multiset(Copies(w, k)) + multiset(rest);
  }

  lemma OneMoreThenWins(w: Code, k: nat, init: seq<Code>, t: Code)
    requires Winner(Copies(w, k) + init) == Some(w) && t != w && multiset(init)[t] < k && multiset(init)[w] == 0
    ensures Winner(Copies(w, k) + (init + [t])) == Some(w)
  {
    CopiesAndRest(w, k, init, w);
    CopiesAndRest(w, k, init, t);
    StillWins(Copies(w, k) + init, w, t);
    assert Copies(w, k) + init + [t] == Copies(w, k) + (init + [t]);
  }

  lemma CountsWithoutLast(init: seq<Code>, t: Code, w: Code, k: nat)
    requires k > 0 && multiset(init + [t])[w] == 0 && forall u :: multiset(init + [t])[u] <= k
    ensures multiset(init)[w] == 0 && t != w && multiset(init)[t] < k && forall u :: multiset(init)[u] <= k
  {
    var all := multiset(init + [t]);
    assert all == multiset(init) + multiset{t};
    assert all[t] == multiset(init)[t] + 1 && all[t] <= k && all[w] == 0;
    forall u
      ensures multiset(init)[u] <= k
    {
      assert all[u] <= k && multiset(init)[u] <= all[u];
    }
  }

  /** Counted first, a most frequent type wins: nothing after it gets past its count. */
  lemma {:induction false} MostFrequentFirst(w: Code, k: nat, rest: seq<Code>)
    requires k > 0 && multiset(rest)[w] == 0 && forall t :: multiset(rest)[t] <= k
    ensures Winner(Copies(w, k) + rest) == Some(w)
  {
    if rest == [] {
      CopiesWin(w, k);
      assert Copies(w, k) + rest == Copies(w, k);
    } else {
      var init, t := rest[..|rest| - 1], rest[|rest| - 1];
      assert rest == init + [t];
      CountsWithoutLast(init, t, w, k);
      MostFrequentFirst(w, k, init);
      OneMoreThenWins(w, k, init, t);
    }
  }

  lemma {:induction false} Listing(m: multiset<Code>) returns (ts: seq<Code>)
    ensures multiset(ts) == m
    decreases |m|
  {
    if m == multiset{} {
      ts := [];
    } else {
      assert (forall t :: m[t] == 0) ==> m == multiset{};
      var t :| m[t] > 0;
      ts := Listing(m - multiset{t});
      ts := ts + [t];
    }
  }

  /** Over all orders of the table and of the counts, the possible answers are exactly the candidates. */
  lemma AnswersAreCandidates(m: multiset<Code>, answer: Option<Code>)
    ensures (exists ts: seq<Code> :: multiset(ts) == m && Answers(ts, answer)) <==> Candidate(m, answer)
  {
    forall ts: seq<Code> | multiset(ts) == m && Answers(ts, answer)
      ensures Candidate(m, answer)
    {
      if ts != [] {
        assert ts[..|ts|] == ts;
        WinnerIsMaximal(ts, |ts|);
      }
    }
    if Candidate(m, answer) {
      if m == multiset{} {
        var none: seq<Code> := [];
        assert multiset(none) == m && Answers(none, answer);
      } else {
        var w :| Maximal(m, w) && MayAnswer(m, w, answer.value);
        FirstInLine(m, w);
        var ts: seq<Code> :| multiset(ts) == m && Winner(ts) == Some(w);
        assert Answers(ts, answer);
      }
    }
  }

  lemma FirstInLine(m: multiset<Code>, w: Code)
    requires Maximal(m, w)
    ensures exists ts: seq<Code> :: multiset(ts) == m && Winner(ts) == Some(w)
  {
    var rest := Listing(m[w := 0]);
    MostFrequentFirst(w, m[w], rest);
    var ts := Copies(w, m[w]) + rest;
    forall t
      ensures multiset(ts)[t] == m[t]
    {
      CopiesCount(w, m[w], t);
    }
    assert multiset(ts) == m;
  }

  /** More than a quarter as often as `w`, and quantized by its name. */
  ghost predicate OutOfShadow(m: multiset<Code>, t: Code, w: Code) {
    t in m && 4 * m[t] > m[w] && (TypeName(t)[..1] == "q" || TypeName(t)[..2] == "iq")
  }

  /** The answer when `w` is a most frequent type. */
  ghost predicate AnswerFor(m: multiset<Code>, w: Code, t: Code) {
    && w in m && (forall u | u in m :: m[u] <= m[w])
    && if (TypeName(w) == "f32" || TypeName(w) == "f16") && exists q :: OutOfShadow(m, q, w) then OutOfShadow(m, t, w) else t == w
  }

  lemma DisplacesIff(m: multiset<Code>, q: Code, w: Code)
    ensures Displaces(m, q, w) <==> OutOfShadow(m, q, w)
  {
    QuantizedIffNamedSo(q);
  }

  lemma MayAnswerIff(m: multiset<Code>, w: Code, t: Code)
    ensures Maximal(m, w) && MayAnswer(m, w, t) <==> AnswerFor(m, w, t)
  {
    QuantizedIffNamedSo(w);
    DisplacesIff(m, t, w);
    if q :| Displaces(m, q, w) {
      DisplacesIff(m, q, w);
    }
    if q :| OutOfShadow(m, q, w) {
      DisplacesIff(m, q, w);
    }
  }

  /**
   The answer is a most frequent type, unless that is f32 or f16 and a quantized type is seen on more than
   a quarter as many tensors; then it is such a type. There is none only for an empty table.
   */
  lemma CandidateIs(m: multiset<Code>, t: Code)
    ensures Candidate(m, Some(t)) <==> exists w :: AnswerFor(m, w, t)
    ensures Candidate(m, None) <==> m == multiset{}
  {
    if Candidate(m, Some(t)) {
      var w :| Maximal(m, w) && MayAnswer(m, w, t);
      MayAnswerIff(m, w, t);
    }
    if w :| AnswerFor(m, w, t) {
      MayAnswerIff(m, w, t);
    }
  }

  ghost predicate OneCandidate(m: multiset<Code>) {
    forall a, b :: Candidate(m, a) && Candidate(m, b) ==> a == b
  }

  ghost predicate OrderIrrelevant(m: multiset<Code>) {
    forall ts: seq<Code>, us: seq<Code>, a, b ::
      multiset(ts) == m && multiset(us) == m && Answers(ts, a) && Answers(us, b) ==> a == b
  }

  /** The order of the table and of the counts never matters exactly when there is one candidate. */
  lemma OrderIrrelevantIff(m: multiset<Code>)
    ensures OneCandidate(m) <==> OrderIrrelevant(m)
  {
    if OneCandidate(m) {
      forall ts: seq<Code>, us: seq<Code>, a, b | multiset(ts) == m && multiset(us) == m && Answers(ts, a) && Answers(us, b)
        ensures a == b
      {
        AnswersAreCandidates(m, a);
        AnswersAreCandidates(m, b);
      }
    }
    if OrderIrrelevant(m) {
      forall a, b | Candidate(m, a) && Candidate(m, b)
        ensures a == b
      {
        AnswersAreCandidates(m, a);
        AnswersAreCandidates(m, b);
        var ts: seq<Code> :| multiset(ts) == m && Answers(ts, a);
        var us: seq<Code> :| multiset(us) == m && Answers(us, b);
      }
    }
  }

  /** One most frequent type, and at most one type that displaces it, leave one candidate. */
  lemma UniqueWinnerDecides(m: multiset<Code>, w: Code)
    requires Maximal(m, w) && forall v :: Maximal(m, v) ==> v == w
    requires Plain(w) ==> forall p, q :: Displaces(m, p, w) && Displaces(m, q, w) ==> p == q
    ensures OneCandidate(m)
    ensures Candidate(m, Some(w)) <==> !Plain(w) || forall q :: !Displaces(m, q, w)
  {
    forall a, b | Candidate(m, a) && Candidate(m, b)
      ensures a == b
    {
      assert MayAnswer(m, w, a.value) && MayAnswer(m, w, b.value);
    }
  }

  // ------------------------------------------------------------------------------------------
  // The loop
  // ------------------------------------------------------------------------------------------

  method ReadTensorType(s: Stream) returns (r: Read<Code>)
    requires s.Valid()
    modifies s
    ensures s.Valid() && Follows(ReadTensor(old(s.Remaining())), r, s.Remaining())
  {
    var name := s.ReadString();
    if name.Error? {
      return Error(name.failure);
    }
    var dims := s.ReadNumber(4);
    if dims.Error? {
      return Error(dims.failure);
    }
    var skipped := s.ReadFull(dims.value * 8 % 0x1_0000_0000);
    if skipped.Error? {
      return Error(skipped.failure);
    }
    var code := s.ReadNumber(4);
    if code.Error? {
      return Error(code.failure);
    }
    var offset := s.ReadNumber(8);
    r := if offset.Got? then Got(code.value) else Error(offset.failure);
  }

  /** The variables of the counting loop. */
  datatype Tally = Tally(counts: multiset<Code>, dominant: Option<Code>, dominantCount: int)

  ghost predicate Tallied(seen: seq<Code>, y: Tally) {
    && y.counts == multiset(seen) && y.dominant == Winner(seen)
    && y.dominantCount == if seen == [] then 0 else multiset(seen)[Winner(seen).value]
  }

  method CountOne(ghost seen: seq<Code>, y: Tally, t: Code) returns (y': Tally)
    requires Tallied(seen, y)
    ensures Tallied(seen + [t], y')
  {
    ghost var longer := seen + [t];
    assert longer[..|longer| - 1] == seen;
    SplitLast(longer);
    if seen != [] {
      assert seen[..|seen|] == seen;
      WinnerIsMaximal(seen, |seen|);
    }
    y' := y.(counts := y.counts[t := y.counts[t] + 1]);
    if y'.counts[t] > y.dominantCount {
      y' := y'.(dominantCount := y'.counts[t], dominant := Some(t));
    }
  }

  lemma TypesStep(seen: seq<Code>, b: seq<byte>, count: nat)
    requires count > 0
    ensures match ReadTensor(b)
      case Failed(_) => seen + TensorTypes(b, count) == seen
      case Parsed(t, rest) => seen + TensorTypes(b, count) == (seen + [t]) + TensorTypes(rest, count - 1)
  {
    match ReadTensor(b)
    case Failed(_) =>
    case Parsed(t, rest) =>
      var more := TensorTypes(rest, count - 1);
      assert seen + ([t] + more) == (seen + [t]) + more;
  }

  /** `all` is what was seen and what `left` more tensors of `b` hold. */
  ghost predicate Ahead(all: seq<Code>, seen: seq<Code>, b: seq<byte>, left: nat) {
    forall more | Holds(b, left, more) :: all == seen + more
  }

  ghost predicate Holds(b: seq<byte>, count: nat, ts: seq<Code>) {
    ts == TensorTypes(b, count)
  }

  lemma AheadMeans(all: seq<Code>, seen: seq<Code>, b: seq<byte>, left: nat)
    ensures Ahead(all, seen, b, left) <==> all == seen + TensorTypes(b, left)
  {
    assert Holds(b, left, TensorTypes(b, left));
  }

  lemma NothingSeen(all: seq<Code>, b: seq<byte>, left: nat)
    requires all == TensorTypes(b, left)
    ensures Ahead(all, [], b, left)
  {
    assert [] + all == all;
    AheadMeans(all, [], b, left);
  }

  lemma NothingLeft(all: seq<Code>, seen: seq<Code>, b: seq<byte>)
    requires Ahead(all, seen, b, 0)
    ensures all == seen
  {
    AheadMeans(all, seen, b, 0);
    assert TensorTypes(b, 0) == [] && seen + [] == seen;
  }

  method NextTensorType(s: Stream, ghost all: seq<Code>, ghost seen: seq<Code>, ghost left: nat) returns (r: Read<Code>)
    requires s.Valid() && left > 0 && Ahead(all, seen, s.Remaining(), left)
    modifies s
    ensures s.Valid()
    ensures match r
      case Error(_) => all == seen
      case Got(t) => Ahead(all, seen + [t], s.Remaining(), left - 1)
  {
    AheadMeans(all, seen, s.Remaining(), left);
    TypesStep(seen, s.Remaining(), left);
    r := ReadTensorType(s);
    if r.Got? {
      AheadMeans(all, seen + [r.value], s.Remaining(), left - 1);
    }
  }

  lemma NothingTallied()
    ensures Tallied([], Tally(multiset{}, None, 0))
  {
  }

  /** Reads and counts one more tensor, unless it is unreadable. */
  method CountNext(s: Stream, ghost all: seq<Code>, ghost seen: seq<Code>, ghost left: nat, y: Tally)
    returns (more: bool, y': Tally, ghost seen': seq<Code>)
    requires s.Valid() && left > 0 && Ahead(all, seen, s.Remaining(), left) && Tallied(seen, y)
    modifies s
    ensures s.Valid() && Tallied(seen', y')
    ensures if more then Ahead(all, seen', s.Remaining(), left - 1) else seen' == all
  {
    var tensor := NextTensorType(s, all, seen, left);
    if tensor.Error? {
      return false, y, seen;
    }
    y' := CountOne(seen, y, tensor.value);
    more, seen' := true, seen + [tensor.value];
  }

  method CountAhead(s: Stream, tensorCount: nat, ghost all: seq<Code>) returns (y: Tally)
    requires s.Valid() && Ahead(all, [], s.Remaining(), tensorCount)
    modifies s
    ensures s.Valid() && Tallied(all, y)
  {
    ghost var seen: seq<Code> := [];
    y := Tally(multiset{}, None, 0);
    NothingTallied();
    var i := 0;
    while i < tensorCount
      invariant 0 <= i <= tensorCount
      invariant s.Valid() && Ahead(all, seen, s.Remaining(), tensorCount - i) && Tallied(seen, y)
    {
      var more;
      more, y, seen := CountNext(s, all, seen, tensorCount - i, y);
      if !more {
        return;
      }
      i := i + 1;
    }
    NothingLeft(all, seen, s.Remaining());
  }

  /** Counts the tensor types up to the first unreadable tensor, keeping a winner. */
  method CountTensors(s: Stream, tensorCount: nat) returns (y: Tally, ghost seen: seq<Code>)
    requires s.Valid()
    modifies s
    ensures s.Valid() && seen == TensorTypes(old(s.Remaining()), tensorCount)
    ensures Tallied(seen, y)
  {
    seen := TensorTypes(s.Remaining(), tensorCount);
    NothingSeen(seen, s.Remaining(), tensorCount);
    y := CountAhead(s, tensorCount, seen);
  }

  method PickAnswer(ghost ts: seq<Code>, counts: multiset<Code>, dominant: Option<Code>) returns (answer: Option<Code>)
    requires counts == multiset(ts) && dominant == Winner(ts)
    ensures Answers(ts, answer)
  {
    if dominant == None || !Plain(dominant.value) {
      return dominant;
    }
    var w := dominant.value;
    var left := counts;
    while left != multiset{}
      invariant forall q :: left[q] == 0 || left[q] == counts[q]
      invariant forall q | left[q] == 0 :: !Displaces(counts, q, w)
      decreases |left|
    {
      Inhabited(left);
      var t :| t in left;
      if Quantized(t) && counts[t] > counts[w] / 4 {
        return Some(t);
      }
      left := left[t := 0];
    }
    answer := dominant;
  }

  lemma Inhabited(m: multiset<Code>)
    requires m != multiset{}
    ensures exists t :: t in m
  {
    assert (forall t :: m[t] == 0) ==> m == multiset{};
  }

  /** The name: a quantized type may take the place of a plain winner. */
  method Detect(s: Stream, tensorCount: nat) returns (answer: Option<Code>)
    requires s.Valid()
    modifies s
    ensures s.Valid() && Answers(TensorTypes(old(s.Remaining()), tensorCount), answer)
  {
    var y, seen := CountTensors(s, tensorCount);
    answer := PickAnswer(seen, y.counts, y.dominant);
  }
}

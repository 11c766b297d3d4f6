/** Byte strings and fixed-width numbers. */
module Bytes {
  type byte = b: int | 0 <= b < 256

  /** 256 to the power of the width. */
  function Limit(width: nat): (n: nat)
    ensures n > 0
  {
    if width == 0 then 1 else 256 * Limit(width - 1)
  }

  function FromLittleEndian(b: seq<byte>): (n: nat)
    ensures n < Limit(|b|)
  {
    if b == [] then 0 else b[0] + 256 * FromLittleEndian(b[1..])
  }

  function ToLittleEndian(n: nat, width: nat): (b: seq<byte>)
    ensures |b| == width
  {
    if width == 0 then [] else [n % 256] + ToLittleEndian(n / 256, width - 1)
  }

  lemma {:induction false} LittleEndianRoundTrip(n: nat, width: nat)
    requires n < Limit(width)
    ensures FromLittleEndian(ToLittleEndian(n, width)) == n
  {
    if width > 0 {
      var b := ToLittleEndian(n, width);
      assert b[1..] == ToLittleEndian(n / 256, width - 1);
      LittleEndianRoundTrip(n / 256, width - 1);
    }
  }

  lemma DigitAndRest(low: byte, high: nat)
    ensures (low + 256 * high) % 256 == low && (low + 256 * high) / 256 == high
  {
  }

  lemma {:induction false} LittleEndianDigits(b: seq<byte>)
    ensures ToLittleEndian(FromLittleEndian(b), |b|) == b
  {
    if b != [] {
      LittleEndianDigits(b[1..]);
      DigitAndRest(b[0], FromLittleEndian(b[1..]));
      assert b == [b[0]] + b[1..];
    }
  }

  /** Two's complement reading of a number of the given width. */
  function Signed(n: nat, width: nat): int {
    if 2 * n >= Limit(width) then n - Limit(width) else n
  }

  /** The number whose two's complement reading is `n`; numbers too small for the width have none. */
  function Unsigned(n: int, width: nat): nat {
    if n >= 0 then n else if n + Limit(width) >= 0 then n + Limit(width) else 0
  }

  lemma SignedRoundTrip(n: int, width: nat)
    requires 0 <= 2 * n + Limit(width) && 2 * n < Limit(width)
    ensures Unsigned(n, width) < Limit(width) && Signed(Unsigned(n, width), width) == n
  {
  }

  function FromBigEndian(b: seq<byte>): (n: nat)
    ensures n < Limit(|b|)
  {
    if b == [] then 0 else 256 * FromBigEndian(b[..|b| - 1]) + b[|b| - 1]
  }

  function ToBigEndian(n: nat, width: nat): (b: seq<byte>)
    ensures |b| == width
  {
    if width == 0 then [] else ToBigEndian(n / 256, width - 1) + [n % 256]
  }

  lemma HighPart(n: nat, width: nat)
    requires 0 < width && n < Limit(width)
    ensures n / 256 < Limit(width - 1)
  {
  }

  lemma LowDigit(high: seq<byte>, low: byte)
    ensures FromBigEndian(high + [low]) == 256 * FromBigEndian(high) + low
  {
    assert (high + [low])[..|high|] == high;
  }

  lemma {:induction false} BigEndianRoundTrip(n: nat, width: nat)
    requires n < Limit(width)
    ensures FromBigEndian(ToBigEndian(n, width)) == n
  {
    if width > 0 {
      HighPart(n, width);
      BigEndianRoundTrip(n / 256, width - 1);
      LowDigit(ToBigEndian(n / 256, width - 1), n % 256);
    }
  }

  lemma {:induction false} BigEndianDigits(b: seq<byte>)
    ensures ToBigEndian(FromBigEndian(b), |b|) == b
  {
    if b != [] {
      BigEndianDigits(b[..|b| - 1]);
      assert b == b[..|b| - 1] + [b[|b| - 1]];
    }
  }

  lemma FirstDigit(low: byte, high: seq<byte>)
    ensures FromLittleEndian([low] + high) == low + 256 * FromLittleEndian(high)
  {
    assert ([low] + high)[1..] == high;
  }

  /** Four bytes in either order. */
  lemma FourBytes(a: byte, b: byte, c: byte, d: byte)
    ensures FromBigEndian([a, b, c, d]) == 16777216 * a + 65536 * b + 256 * c + d
    ensures FromLittleEndian([a, b, c, d]) == a + 256 * b + 65536 * c + 16777216 * d
  {
    LowDigit([a, b, c], d);
    LowDigit([a, b], c);
    LowDigit([a], b);
    LowDigit([], a);
    assert [a, b, c] + [d] == [a, b, c, d] && [a, b] + [c] == [a, b, c] && [a] + [b] == [a, b] && [] + [a] == [a];
    FirstDigit(a, [b, c, d]);
    FirstDigit(b, [c, d]);
    FirstDigit(c, [d]);
    FirstDigit(d, []);
    assert [a] + [b, c, d] == [a, b, c, d] && [b] + [c, d] == [b, c, d] && [c] + [d] == [c, d] && [d] + [] == [d];
  }
}

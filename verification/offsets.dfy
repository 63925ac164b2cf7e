/** Upload offsets as two 32-bit words (packages/shared/src/binary-framing.ts). */
module Offsets {
  import opened Bytes
  import opened Doubles
  import opened FramingErrors
  import opened Wrappers

  /** A 32-bit word, big-endian. */
  function WordBytes(w: nat): seq<Byte>
    requires w < 0x1_0000_0000
  {
    [(w / 0x100_0000) as Byte, (w / 0x1_0000 % 0x100) as Byte, (w / 0x100 % 0x100) as Byte, (w % 0x100) as Byte]
  }

  function WordOf(bytes: seq<Byte>): (w: nat)
    requires |bytes| == 4
    ensures w < 0x1_0000_0000
  {
    bytes[0] as int * 0x100_0000 + bytes[1] as int * 0x1_0000 + bytes[2] as int * 0x100 + bytes[3] as int
  }

  lemma WordDigits(a: nat, b: nat, c: nat, d: nat)
    requires a < 0x100 && b < 0x100 && c < 0x100 && d < 0x100
    ensures var w := a * 0x100_0000 + b * 0x1_0000 + c * 0x100 + d;
      w / 0x100_0000 == a && w / 0x1_0000 == a * 0x100 + b && w / 0x100 == (a * 0x100 + b) * 0x100 + c
  {
  }

  lemma WordRoundTrip(w: nat)
    requires w < 0x1_0000_0000
    ensures WordOf(WordBytes(w)) == w
  {
    var x, y := w / 0x100, w / 0x1_0000;
    assert y == x / 0x100 && w / 0x100_0000 == y / 0x100;
    assert w == x * 0x100 + w % 0x100 && x == y * 0x100 + x % 0x100 && y == y / 0x100 * 0x100 + y % 0x100;
  }

  lemma WordBytesRoundTrip(bytes: seq<Byte>)
    requires |bytes| == 4
    ensures WordBytes(WordOf(bytes)) == bytes
  {
    var a, b, c, d := bytes[0] as nat, bytes[1] as nat, bytes[2] as nat, bytes[3] as nat;
    WordDigits(a, b, c, d);
    assert (a * 0x100 + b) % 0x100 == b && ((a * 0x100 + b) * 0x100 + c) % 0x100 == c;
  }

  /** A non-negative integer value of at most `MAX_SAFE_INTEGER`. */
  predicate IsOffset(v: Number) {
    IsInteger(v) && 0.0 <= v.value <= MAX_SAFE_INTEGER as real
  }

  lemma HighFits(v: Number)
    requires IsOffset(v)
    ensures (v.value / 4294967296.0).Floor == v.value.Floor / 0x1_0000_0000
    ensures 0 <= v.value.Floor / 0x1_0000_0000 < 0x20_0000
  {
    var n := v.value.Floor;
    var q, r := n / 0x1_0000_0000, n % 0x1_0000_0000;
    assert v.value == q as real * 4294967296.0 + r as real;
    assert v.value / 4294967296.0 == q as real + r as real / 4294967296.0;
    assert 0.0 <= r as real / 4294967296.0 < 1.0;
  }

  function OffsetToBytes(v: Number): Result<seq<Byte>, Error> {
    if IsNegative(v) then Err(InvalidOffset)
    else if !IsInteger(v) then Err(InvalidOffset)
    else if v.value > MAX_SAFE_INTEGER as real then Err(InvalidOffset)
    else
      HighFits(v);
      Ok(WordBytes((v.value / 4294967296.0).Floor) + WordBytes(v.value.Floor % 0x1_0000_0000))
  }

  function BytesToOffset(bytes: seq<Byte>): Result<Number, Error> {
    if |bytes| != 8 then Err(InvalidOffset)
    else
      var high, low := WordOf(bytes[..4]), WordOf(bytes[4..]);
      var value := Round(Round(high * 0x1_0000_0000) + low);
      if value > MAX_SAFE_INTEGER then Err(InvalidOffset) else Ok(Finite(value as real))
  }

  method SetUint32(view: array<Byte>, pos: nat, w: nat)
    requires pos + 4 <= view.Length && w < 0x1_0000_0000
    modifies view
    ensures view[..] == old(view[..pos]) + WordBytes(w) + old(view[pos + 4..])
  {
    SetAt(view, WordBytes(w), pos);
  }

  method EncodeOffset(v: Number) returns (r: Result<seq<Byte>, Error>)
    ensures r == OffsetToBytes(v)
  {
    if IsNegative(v) {
      return Err(InvalidOffset);
    }
    if !IsInteger(v) {
      return Err(InvalidOffset);
    }
    if v.value > MAX_SAFE_INTEGER as real {
      return Err(InvalidOffset);
    }
    HighFits(v);
    var bytes := new Byte[8];
    var high := (v.value / 4294967296.0).Floor;
    var low := v.value.Floor % 0x1_0000_0000;
    SetUint32(bytes, 0, high);
    SetUint32(bytes, 4, low);
    assert bytes[..] == WordBytes(high) + WordBytes(low);
    return Ok(bytes[..]);
  }

  /** The exact 64-bit value of the eight bytes. */
  function ExactValue(bytes: seq<Byte>): nat
    requires |bytes| == 8
  {
    WordOf(bytes[..4]) * 0x1_0000_0000 + WordOf(bytes[4..])
  }

  /**
   * Checking the rounded sum is as good as checking the exact value: eight
   * bytes are read exactly if their high word is below 2^21, and then exactly.
   */
  lemma OffsetReadExactly(bytes: seq<Byte>)
    requires |bytes| == 8
    ensures BytesToOffset(bytes) ==
      if ExactValue(bytes) <= MAX_SAFE_INTEGER then Ok(Finite(ExactValue(bytes) as real)) else Err(InvalidOffset)
    ensures ExactValue(bytes) <= MAX_SAFE_INTEGER <==> WordOf(bytes[..4]) < 0x20_0000
  {
    HighWordIsExact(WordOf(bytes[..4]));
    RoundKeepsSafety(ExactValue(bytes));
  }

  /** Exactly the safe non-negative integers can be written. */
  lemma OffsetWrittenExactly(v: Number)
    ensures OffsetToBytes(v).Ok? <==> IsOffset(v)
    ensures IsOffset(v) ==> |OffsetToBytes(v).value| == 8 && ExactValue(OffsetToBytes(v).value) as real == v.value
  {
    if IsOffset(v) {
      HighFits(v);
      var n := v.value.Floor;
      WordRoundTrip(n / 0x1_0000_0000);
      WordRoundTrip(n % 0x1_0000_0000);
      var bytes := OffsetToBytes(v).value;
      assert bytes[..4] == WordBytes(n / 0x1_0000_0000) && bytes[4..] == WordBytes(n % 0x1_0000_0000);
    }
  }

  /** What is written is read back. */
  lemma OffsetRoundTrip(v: Number)
    requires IsOffset(v)
    ensures BytesToOffset(OffsetToBytes(v).value) == Ok(v)
  {
    OffsetWrittenExactly(v);
    OffsetReadExactly(OffsetToBytes(v).value);
  }

  /** What is read is written back. */
  lemma OffsetBytesRoundTrip(bytes: seq<Byte>)
    requires BytesToOffset(bytes).Ok?
    ensures OffsetToBytes(BytesToOffset(bytes).value) == Ok(bytes)
  {
    OffsetReadExactly(bytes);
    var n := ExactValue(bytes);
    var v := Finite(n as real);
    assert v.value.Floor == n;
    HighFits(v);
    WordBytesRoundTrip(bytes[..4]);
    WordBytesRoundTrip(bytes[4..]);
    assert n / 0x1_0000_0000 == WordOf(bytes[..4]) && n % 0x1_0000_0000 == WordOf(bytes[4..]);
    assert bytes == bytes[..4] + bytes[4..];
  }
}

/** Upload identifiers as bytes and as text (packages/shared/src/binary-framing.ts, section 4 of RFC 9562). */
module Uuids {
  import opened Bytes
  import opened FramingErrors
  import opened Wrappers

  predicate IsHex(c: char) {
    '0' <= c <= '9' || 'a' <= c <= 'f' || 'A' <= c <= 'F'
  }

  function HexValue(c: char): (v: nat)
    requires IsHex(c)
    ensures v < 16
  {
    if c <= '9' then c as int - '0' as int
    else if c <= 'F' then c as int - 'A' as int + 10
    else c as int - 'a' as int + 10
  }

  /** The lower-case digit. */
  function HexDigit(v: nat): (c: char)
    requires v < 16
    ensures IsHex(c) && HexValue(c) == v && c != '-'
  {
    if v < 10 then '0' + v as char else 'a' + (v - 10) as char
  }

  function WithoutHyphens(s: string): string {
    if s == "" then "" else if s[0] == '-' then WithoutHyphens(s[1..]) else [s[0]] + WithoutHyphens(s[1..])
  }

  predicate AllHex(s: string) {
    forall i :: 0 <= i < |s| ==> IsHex(s[i])
  }

  predicate IsUuid(s: string) {
    |WithoutHyphens(s)| == 32 && AllHex(WithoutHyphens(s))
  }

  function BytesOfHex(hex: string): seq<Byte>
    requires |hex| % 2 == 0 && AllHex(hex)
  {
    seq(|hex| / 2, i requires 0 <= i < |hex| / 2 => (16 * HexValue(hex[2 * i]) + HexValue(hex[2 * i + 1])) as Byte)
  }

  function UuidToBytes(s: string): Result<seq<Byte>, Error> {
    if IsUuid(s) then Ok(BytesOfHex(WithoutHyphens(s))) else Err(InvalidUuid)
  }

  function HexOfBytes(bytes: seq<Byte>): (hex: string)
    ensures |hex| == 2 * |bytes|
  {
    seq(2 * |bytes|, i requires 0 <= i < 2 * |bytes| =>
      HexDigit(if i % 2 == 0 then bytes[i / 2] as int / 16 else bytes[i / 2] as int % 16))
  }

  /** 8-4-4-4-12 */
  function Hyphenated(hex: string): string
    requires |hex| == 32
  {
    hex[..8] + "-" + hex[8..12] + "-" + hex[12..16] + "-" + hex[16..20] + "-" + hex[20..]
  }

  function BytesToUuid(bytes: seq<Byte>): Result<string, Error> {
    if |bytes| != 16 then Err(InvalidUuid) else Ok(Hyphenated(HexOfBytes(bytes)))
  }

  method ParseUuid(s: string) returns (r: Result<seq<Byte>, Error>)
    ensures r == UuidToBytes(s)
  {
    var hex := WithoutHyphens(s);
    if |hex| != 32 {
      return Err(InvalidUuid);
    }
    if !AllHex(hex) {
      return Err(InvalidUuid);
    }
    var bytes := new Byte[16];
    for i := 0 to 16
      invariant forall k :: 0 <= k < i ==> bytes[k] == BytesOfHex(hex)[k]
    {
      bytes[i] := (16 * HexValue(hex[2 * i]) + HexValue(hex[2 * i + 1])) as Byte;
    }
    assert bytes[..] == BytesOfHex(hex);
    return Ok(bytes[..]);
  }

  // ---- Round trips ----

  /** Lower case changes the letters A to F only. */
  function LowerHex(c: char): char
    requires IsHex(c)
  {
    if 'A' <= c <= 'F' then c - 'A' + 'a' else c
  }

  /** The identifier as it comes back: lower-case, with hyphens at their places. */
  function Canonical(s: string): string
    requires IsUuid(s)
  {
    Hyphenated(Lower(WithoutHyphens(s)))
  }

  function Lower(hex: string): (lower: string)
    requires AllHex(hex)
    ensures |lower| == |hex|
  {
    seq(|hex|, i requires 0 <= i < |hex| => LowerHex(hex[i]))
  }

  lemma ConcatHead(c: char, a: string, b: string)
    ensures [c] + (a + b) == [c] + a + b
  {
  }

  lemma {:induction false} WithoutHyphensConcat(a: string, b: string)
    ensures WithoutHyphens(a + b) == WithoutHyphens(a) + WithoutHyphens(b)
  {
    if a == "" {
      assert a + b == b;
    } else {
      WithoutHyphensConcat(a[1..], b);
      assert (a + b)[1..] == a[1..] + b && (a + b)[0] == a[0];
      ConcatHead(a[0], WithoutHyphens(a[1..]), WithoutHyphens(b));
    }
  }

  lemma {:induction false} NoHyphens(s: string)
    requires forall i :: 0 <= i < |s| ==> s[i] != '-'
    ensures WithoutHyphens(s) == s
  {
    if s != "" {
      NoHyphens(s[1..]);
      assert s == [s[0]] + s[1..];
    }
  }

  lemma DropHyphen(a: string, b: string)
    requires forall i :: 0 <= i < |b| ==> b[i] != '-'
    ensures WithoutHyphens(a + "-" + b) == WithoutHyphens(a) + b
  {
    WithoutHyphensConcat(a + "-", b);
    WithoutHyphensConcat(a, "-");
    NoHyphens(b);
    assert WithoutHyphens("-") == "" by { assert "-"[1..] == ""; }
    assert WithoutHyphens(a) + "" == WithoutHyphens(a);
  }

  lemma HyphenatedHex(hex: string)
    requires |hex| == 32 && forall i :: 0 <= i < 32 ==> hex[i] != '-'
    ensures WithoutHyphens(Hyphenated(hex)) == hex
  {
    NoHyphens(hex[..8]);
    DropHyphen(hex[..8], hex[8..12]);
    DropHyphen(hex[..8] + "-" + hex[8..12], hex[12..16]);
    DropHyphen(hex[..8] + "-" + hex[8..12] + "-" + hex[12..16], hex[16..20]);
    DropHyphen(hex[..8] + "-" + hex[8..12] + "-" + hex[12..16] + "-" + hex[16..20], hex[20..]);
    assert hex == hex[..8] + hex[8..12] + hex[12..16] + hex[16..20] + hex[20..];
  }

  lemma HexRoundTrip(bytes: seq<Byte>)
    ensures AllHex(HexOfBytes(bytes))
    ensures BytesOfHex(HexOfBytes(bytes)) == bytes
  {
    forall i | 0 <= i < |bytes| ensures BytesOfHex(HexOfBytes(bytes))[i] == bytes[i] {
      assert HexOfBytes(bytes)[2 * i] == HexDigit(bytes[i] as int / 16);
      assert HexOfBytes(bytes)[2 * i + 1] == HexDigit(bytes[i] as int % 16);
    }
  }

  /** Every 16 bytes are the bytes of their own text form. */
  lemma UuidFromBytes(bytes: seq<Byte>)
    requires |bytes| == 16
    ensures BytesToUuid(bytes).Ok? && UuidToBytes(BytesToUuid(bytes).value) == Ok(bytes)
  {
    HexRoundTrip(bytes);
    HyphenatedHex(HexOfBytes(bytes));
  }

  lemma HexOfBytesAt(hex: string, i: nat)
    requires i < |hex| && |hex| % 2 == 0 && AllHex(hex)
    ensures HexOfBytes(BytesOfHex(hex))[i] == LowerHex(hex[i])
  {
    var hi, lo := HexValue(hex[i / 2 * 2]), HexValue(hex[i / 2 * 2 + 1]);
    var b := BytesOfHex(hex)[i / 2] as int;
    assert b == 16 * hi + lo && b / 16 == hi && b % 16 == lo;
    assert i == if i % 2 == 0 then i / 2 * 2 else i / 2 * 2 + 1;
  }

  lemma HexOfText(hex: string)
    requires |hex| % 2 == 0 && AllHex(hex)
    ensures HexOfBytes(BytesOfHex(hex)) == Lower(hex)
  {
    forall i | 0 <= i < |hex| ensures HexOfBytes(BytesOfHex(hex))[i] == Lower(hex)[i] {
      HexOfBytesAt(hex, i);
    }
  }

  /** The text comes back in lower case with the standard hyphens, whatever hyphens it had. */
  lemma UuidFromText(s: string)
    requires IsUuid(s)
    ensures |UuidToBytes(s).value| == 16 && BytesToUuid(UuidToBytes(s).value) == Ok(Canonical(s))
  {
    HexOfText(WithoutHyphens(s));
  }
}

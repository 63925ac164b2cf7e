/** Base64 as `btoa` writes it and `atob` reads it (section 4 of RFC 4648). */
module Base64 {
  import opened Bytes
  import opened Wrappers

  predicate IsDigit(c: char) {
    'A' <= c <= 'Z' || 'a' <= c <= 'z' || '0' <= c <= '9' || c == '+' || c == '/'
  }

  function Value(c: char): (v: nat)
    requires IsDigit(c)
    ensures v < 64
  {
    if 'A' <= c <= 'Z' then c as int - 'A' as int
    else if 'a' <= c <= 'z' then c as int - 'a' as int + 26
    else if '0' <= c <= '9' then c as int - '0' as int + 52
    else if c == '+' then 62
    else 63
  }

  function Digit(v: nat): (c: char)
    requires v < 64
    ensures IsDigit(c) && Value(c) == v
  {
    if v < 26 then 'A' + v as char
    else if v < 52 then 'a' + (v - 26) as char
    else if v < 62 then '0' + (v - 52) as char
    else if v == 62 then '+'
    else '/'
  }

  predicate AllDigits(s: string) {
    forall i :: 0 <= i < |s| ==> IsDigit(s[i])
  }

  /** Three bytes are four digits. */
  function Group(a: Byte, b: Byte, c: Byte): (s: string)
    ensures |s| == 4 && AllDigits(s)
  {
    [Digit(a as int / 4), Digit(a as int % 4 * 16 + b as int / 16),
     Digit(b as int % 16 * 4 + c as int / 64), Digit(c as int % 64)]
  }

  /** The digits of the bytes, without padding: one or two left-over bytes are filled up with zero bits. */
  function Digits(bytes: seq<Byte>): (s: string)
    ensures AllDigits(s) && |s| % 4 != 1
  {
    if |bytes| == 0 then ""
    else if |bytes| == 1 then Group(bytes[0], 0, 0)[..2]
    else if |bytes| == 2 then Group(bytes[0], bytes[1], 0)[..3]
    else Group(bytes[0], bytes[1], bytes[2]) + Digits(bytes[3..])
  }

  /** The equals signs missing to a length divisible by four. */
  function Padding(n: nat): string {
    if n % 4 == 1 then "===" else if n % 4 == 2 then "==" else if n % 4 == 3 then "=" else ""
  }

  function Padded(s: string): string {
    s + Padding(|s|)
  }

  function Btoa(bytes: seq<Byte>): string {
    Padded(Digits(bytes))
  }

  predicate IsSpace(c: char) {
    c == ' ' || c == '\t' || c == '\n' || c == '\U{000C}' || c == '\r'
  }

  function WithoutSpaces(s: string): string {
    if s == "" then "" else if IsSpace(s[0]) then WithoutSpaces(s[1..]) else [s[0]] + WithoutSpaces(s[1..])
  }

  /** One or two equals signs are taken off the end of a text of full length. */
  function Unpadded(s: string): string {
    if |s| % 4 != 0 || s == "" || s[|s| - 1] != '=' then s
    else if |s| >= 2 && s[|s| - 2] == '=' then s[..|s| - 2]
    else s[..|s| - 1]
  }

  /** The three bytes of four digits. */
  function Ungroup(a: nat, b: nat, c: nat, d: nat): seq<Byte>
    requires a < 64 && b < 64 && c < 64 && d < 64
  {
    [(a * 4 + b / 16) as Byte, (b % 16 * 16 + c / 4) as Byte, (c % 4 * 64 + d) as Byte]
  }

  /** The bytes of the digits; left-over bits are dropped. */
  function BytesOf(s: string): seq<Byte>
    requires AllDigits(s) && |s| % 4 != 1
  {
    if |s| == 0 then []
    else if |s| == 2 then Ungroup(Value(s[0]), Value(s[1]), 0, 0)[..1]
    else if |s| == 3 then Ungroup(Value(s[0]), Value(s[1]), Value(s[2]), 0)[..2]
    else Ungroup(Value(s[0]), Value(s[1]), Value(s[2]), Value(s[3])) + BytesOf(s[4..])
  }

  /** One character per byte. */
  function FromCharCodes(bytes: seq<Byte>): string {
    seq(|bytes|, i requires 0 <= i < |bytes| => bytes[i] as char)
  }

  datatype Error = InvalidCharacter

  /** The forgiving decoder: white space is ignored, padding is optional. */
  function Atob(s: string): Result<string, Error> {
    var data := Unpadded(WithoutSpaces(s));
    if |data| % 4 == 1 || !AllDigits(data) then Err(InvalidCharacter) else Ok(FromCharCodes(BytesOf(data)))
  }

  // ---- Round trips ----

  /** The four digits are the 24 bits of the three bytes, six at a time and the highest first. */
  lemma GroupIsNumber(a: Byte, b: Byte, c: Byte)
    ensures var g := Group(a, b, c);
      Value(g[0]) * 262144 + Value(g[1]) * 4096 + Value(g[2]) * 64 + Value(g[3]) ==
      a as int * 65536 + b as int * 256 + c as int
  {
    var x, y, z := a as nat, b as nat, c as nat;
    assert x == x / 4 * 4 + x % 4 && y == y / 16 * 16 + y % 16 && z == z / 64 * 64 + z % 64;
  }

  lemma GroupRoundTrip(a: Byte, b: Byte, c: Byte)
    ensures var g := Group(a, b, c);
      && Ungroup(Value(g[0]), Value(g[1]), Value(g[2]), Value(g[3])) == [a, b, c]
      && (b == 0 && c == 0 ==> Ungroup(Value(g[0]), Value(g[1]), 0, 0)[0] == a)
      && (c == 0 ==> Ungroup(Value(g[0]), Value(g[1]), Value(g[2]), 0)[..2] == [a, b])
  {
    var x, y, z := a as nat, b as nat, c as nat;
    assert x / 4 * 4 + (x % 4 * 16 + y / 16) / 16 == x && (x % 4 * 16 + y / 16) % 16 == y / 16;
    assert y / 16 * 16 + (y % 16 * 4 + z / 64) / 4 == y && (y % 16 * 4 + z / 64) % 4 == z / 64;
    assert z / 64 * 64 + z % 64 == z;
  }

  lemma ShortRoundTrip(bytes: seq<Byte>)
    requires |bytes| < 3
    ensures BytesOf(Digits(bytes)) == bytes
  {
    if |bytes| == 1 {
      GroupRoundTrip(bytes[0], 0, 0);
    } else if |bytes| == 2 {
      GroupRoundTrip(bytes[0], bytes[1], 0);
    }
  }

  lemma LongDigits(g: string, rest: string)
    requires |g| == 4 && AllDigits(g) && AllDigits(rest) && |rest| % 4 != 1
    ensures BytesOf(g + rest) == Ungroup(Value(g[0]), Value(g[1]), Value(g[2]), Value(g[3])) + BytesOf(rest)
  {
    assert (g + rest)[4..] == rest;
  }

  lemma {:induction false} DigitsRoundTrip(bytes: seq<Byte>)
    ensures BytesOf(Digits(bytes)) == bytes
    decreases |bytes|
  {
    if |bytes| < 3 {
      ShortRoundTrip(bytes);
    } else {
      DigitsRoundTrip(bytes[3..]);
      GroupRoundTrip(bytes[0], bytes[1], bytes[2]);
      LongDigits(Group(bytes[0], bytes[1], bytes[2]), Digits(bytes[3..]));
      assert bytes == [bytes[0], bytes[1], bytes[2]] + bytes[3..];
    }
  }

  lemma {:induction false} NoSpaces(s: string)
    requires forall i :: 0 <= i < |s| ==> !IsSpace(s[i])
    ensures WithoutSpaces(s) == s
  {
    if s != "" {
      NoSpaces(s[1..]);
      assert s == [s[0]] + s[1..];
    }
  }

  /** Padding is taken off exactly as it was put on. */
  lemma UnpaddedPadded(s: string)
    requires AllDigits(s) && |s| % 4 != 1
    ensures Unpadded(Padded(s)) == s
  {
  }

  lemma PaddedHasNoSpaces(s: string)
    requires AllDigits(s)
    ensures WithoutSpaces(Padded(s)) == Padded(s)
  {
    forall i | 0 <= i < |Padded(s)| ensures !IsSpace(Padded(s)[i]) {
      assert Padded(s)[i] == if i < |s| then s[i] else '=';
    }
    NoSpaces(Padded(s));
  }

  /** Digits alone are decoded, with or without their padding. */
  lemma AtobOfDigits(s: string)
    requires AllDigits(s) && |s| % 4 != 1
    ensures Atob(Padded(s)) == Ok(FromCharCodes(BytesOf(s)))
  {
    UnpaddedPadded(s);
    PaddedHasNoSpaces(s);
  }
}

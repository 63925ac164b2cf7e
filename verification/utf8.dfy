/** UTF-8 as TextEncoder writes it and TextDecoder reads it (section 3 of RFC 3629). */
module Utf8 {
  import opened Bytes

  /** The bytes of one Unicode scalar value. */
  function EncodeChar(c: char): (bytes: seq<Byte>)
    ensures |bytes| > 0
  {
    var n := c as int;
    if n < 0x80 then [n as Byte]
    else if n < 0x800 then [(0xC0 + n / 64) as Byte, (0x80 + n % 64) as Byte]
    else if n < 0x1_0000 then [(0xE0 + n / 4096) as Byte, (0x80 + n / 64 % 64) as Byte, (0x80 + n % 64) as Byte]
    else
      [(0xF0 + n / 262144) as Byte, (0x80 + n / 4096 % 64) as Byte,
       (0x80 + n / 64 % 64) as Byte, (0x80 + n % 64) as Byte]
  }

  function Encode(s: string): seq<Byte> {
    if s == "" then [] else EncodeChar(s[0]) + Encode(s[1..])
  }

  /**
   * A decoder in the middle of a sequence: the bits so far, how many more bytes
   * it needs, and the range of the next byte.
   */
  datatype Pending = Pending(bits: nat, needed: nat, lower: nat, upper: nat)

  const START := Pending(0, 0, 0x80, 0xBF)

  /** Nothing pending, or a beginning that can only end in a scalar value. */
  predicate Sound(p: Pending) {
    match p.needed
    case 0 => p == START
    case 1 => p.lower == 0x80 && p.upper == 0xBF &&
      (2 <= p.bits < 0x20 || (0x20 <= p.bits < 0x400 && !(0x360 <= p.bits < 0x380)) || 0x400 <= p.bits < 0x4400)
    case 2 =>
      || (0 < p.bits < 0x10 && p.bits != 0xD && p.lower == 0x80 && p.upper == 0xBF)
      || (p.bits == 0 && p.lower == 0xA0 && p.upper == 0xBF)
      || (p.bits == 0xD && p.lower == 0x80 && p.upper == 0x9F)
      || (0x10 <= p.bits < 0x110 && p.lower == 0x80 && p.upper == 0xBF)
    case 3 =>
      || (0 < p.bits < 4 && p.lower == 0x80 && p.upper == 0xBF)
      || (p.bits == 0 && p.lower == 0x90 && p.upper == 0xBF)
      || (p.bits == 4 && p.lower == 0x80 && p.upper == 0x8F)
    case _ => false
  }

  const REPLACEMENT: char := '\U{FFFD}'

  /** What a lead byte starts, if it is one. */
  function Lead(b: int): (p: Pending)
    requires 0x80 <= b < 0x100
    ensures Sound(p)
  {
    if 0xC2 <= b <= 0xDF then Pending(b - 0xC0, 1, 0x80, 0xBF)
    else if 0xE0 <= b <= 0xEF then
      Pending(b - 0xE0, 2, if b == 0xE0 then 0xA0 else 0x80, if b == 0xED then 0x9F else 0xBF)
    else if 0xF0 <= b <= 0xF4 then
      Pending(b - 0xF0, 3, if b == 0xF0 then 0x90 else 0x80, if b == 0xF4 then 0x8F else 0xBF)
    else START
  }

  /** Decoding with replacement: every maximal broken beginning becomes one U+FFFD. */
  function Decode(bytes: seq<Byte>, p: Pending): string
    requires Sound(p)
    decreases |bytes|, p.needed
  {
    if bytes == [] then if p.needed == 0 then "" else [REPLACEMENT]
    else
      var b := bytes[0] as int;
      if p.needed == 0 then
        if b < 0x80 then [b as char] + Decode(bytes[1..], START)
        else if Lead(b) == START then [REPLACEMENT] + Decode(bytes[1..], START)
        else Decode(bytes[1..], Lead(b))
      else if !(p.lower <= b <= p.upper) then [REPLACEMENT] + Decode(bytes, START)
      else
        var bits := p.bits * 64 + (b - 0x80);
        if p.needed == 1 then [bits as char] + Decode(bytes[1..], START)
        else Decode(bytes[1..], Pending(bits, p.needed - 1, 0x80, 0xBF))
  }

  /** A byte order mark at the start is left out. */
  function DecodeText(bytes: seq<Byte>): string {
    if |bytes| >= 3 && bytes[..3] == [0xEF, 0xBB, 0xBF] then Decode(bytes[3..], START) else Decode(bytes, START)
  }

  // ---- Encoding and decoding ----

  /** Taking in one byte that continues the pending sequence. */
  lemma Continue(b: Byte, rest: seq<Byte>, p: Pending)
    requires Sound(p) && p.needed > 0 && p.lower <= b as int <= p.upper
    ensures var bits := p.bits * 64 + (b as int - 0x80);
      if p.needed == 1 then
        (0 <= bits < 0xD800 || 0xE000 <= bits < 0x11_0000)
        && Decode([b] + rest, p) == [bits as char] + Decode(rest, START)
      else
        Sound(Pending(bits, p.needed - 1, 0x80, 0xBF))
        && Decode([b] + rest, p) == Decode(rest, Pending(bits, p.needed - 1, 0x80, 0xBF))
  {
    assert ([b] + rest)[1..] == rest;
  }

  lemma Begin(b: Byte, rest: seq<Byte>)
    requires b as int >= 0x80 && Lead(b as int) != START
    ensures Decode([b] + rest, START) == Decode(rest, Lead(b as int))
  {
    assert ([b] + rest)[1..] == rest;
  }

  lemma DecodeOne(c: char, rest: seq<Byte>)
    requires c as int < 0x80
    ensures Decode(EncodeChar(c) + rest, START) == [c] + Decode(rest, START)
  {
    assert (EncodeChar(c) + rest)[1..] == rest;
  }

  lemma DecodeTwo(c: char, rest: seq<Byte>)
    requires 0x80 <= c as int < 0x800
    ensures Decode(EncodeChar(c) + rest, START) == [c] + Decode(rest, START)
  {
    var e := EncodeChar(c);
    assert e + rest == [e[0]] + ([e[1]] + rest);
    Begin(e[0], [e[1]] + rest);
    Continue(e[1], rest, Lead(e[0] as int));
  }

  lemma SixBitGroups(n: nat)
    ensures n / 262144 * 64 + n / 4096 % 64 == n / 4096
    ensures n / 4096 * 64 + n / 64 % 64 == n / 64 && n / 64 * 64 + n % 64 == n
  {
  }

  lemma DecodeThree(c: char, rest: seq<Byte>)
    requires 0x800 <= c as int < 0x1_0000
    ensures Decode(EncodeChar(c) + rest, START) == [c] + Decode(rest, START)
  {
    var e, n := EncodeChar(c), c as int;
    assert e + rest == [e[0]] + ([e[1]] + ([e[2]] + rest));
    Begin(e[0], [e[1]] + ([e[2]] + rest));
    Continue(e[1], [e[2]] + rest, Lead(e[0] as int));
    SixBitGroups(n);
    Continue(e[2], rest, Pending(n / 64, 1, 0x80, 0xBF));
  }

  lemma FourBytes(n: nat, b0: Byte, b1: Byte, b2: Byte, b3: Byte, rest: seq<Byte>)
    requires 0x1_0000 <= n < 0x11_0000
    requires b0 as int == 0xF0 + n / 262144 && b1 as int == 0x80 + n / 4096 % 64
    requires b2 as int == 0x80 + n / 64 % 64 && b3 as int == 0x80 + n % 64
    ensures Decode([b0] + ([b1] + ([b2] + ([b3] + rest))), START) == [n as char] + Decode(rest, START)
  {
    SixBitGroups(n);
    Begin(b0, [b1] + ([b2] + ([b3] + rest)));
    Continue(b1, [b2] + ([b3] + rest), Lead(b0 as int));
    Continue(b2, [b3] + rest, Pending(n / 4096, 2, 0x80, 0xBF));
    Continue(b3, rest, Pending(n / 64, 1, 0x80, 0xBF));
  }

  lemma DecodeFour(c: char, rest: seq<Byte>)
    requires 0x1_0000 <= c as int
    ensures Decode(EncodeChar(c) + rest, START) == [c] + Decode(rest, START)
  {
    var e := EncodeChar(c);
    FourBytes(c as int, e[0], e[1], e[2], e[3], rest);
    assert e + rest == [e[0]] + ([e[1]] + ([e[2]] + ([e[3]] + rest)));
  }

  /** Decoding gives back every well-formed text. */
  lemma {:induction false} DecodeEncode(s: string)
    ensures Decode(Encode(s), START) == s
  {
    if s != "" {
      var c, n := s[0], s[0] as int;
      DecodeEncode(s[1..]);
      if n < 0x80 { DecodeOne(c, Encode(s[1..])); }
      else if n < 0x800 { DecodeTwo(c, Encode(s[1..])); }
      else if n < 0x1_0000 { DecodeThree(c, Encode(s[1..])); }
      else { DecodeFour(c, Encode(s[1..])); }
    }
  }

  const BYTE_ORDER_MARK: char := '\U{FEFF}'

  /** The encoding starts with the three bytes of a byte order mark exactly if the text starts with U+FEFF. */
  lemma MarkIsFirstChar(s: string)
    requires s != ""
    ensures |Encode(s)| >= 3 && Encode(s)[..3] == [0xEF, 0xBB, 0xBF] <==> s[0] == BYTE_ORDER_MARK
  {
    var e := EncodeChar(s[0]);
    if |e| >= 3 {
      assert Encode(s)[..3] == e[..3];
    } else {
      assert Encode(s)[0] == e[0];
    }
    if |Encode(s)| >= 3 && Encode(s)[..3] == [0xEF, 0xBB, 0xBF] {
      assert Encode(s)[0] == 0xEF;
      assert e[0] == 0xEF && e[1] == 0xBB && e[2] == 0xBF;
    }
  }

  /** Reading back what was written loses one leading U+FEFF and nothing else. */
  lemma TextRoundTrip(s: string)
    ensures DecodeText(Encode(s)) == if s != "" && s[0] == BYTE_ORDER_MARK then s[1..] else s
  {
    DecodeEncode(s);
    if s != "" {
      MarkIsFirstChar(s);
      if s[0] == BYTE_ORDER_MARK {
        assert |EncodeChar(s[0])| == 3;
        assert Encode(s)[3..] == Encode(s[1..]);
        DecodeEncode(s[1..]);
      }
    }
  }
}

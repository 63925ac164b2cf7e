/** The tables behind project identifiers, written out (section 3 of RFC 3629, section 4 of RFC 4648). */
module TextEncodings {
  import opened Bytes
  import opened Base64
  import opened ProjectId
  import opened Utf8

  /** Table 1 of RFC 4648. */
  const ALPHABET := "ABCDEFGHIJKLMNOPQRSTUVWXYZ" + "abcdefghijklmnopqrstuvwxyz" + "0123456789" + "+/"

  lemma UpperCase(v: nat)
    requires v < 26
    ensures "ABCDEFGHIJKLMNOPQRSTUVWXYZ"[v] == 'A' + v as char
  {
  }

  lemma LowerCase(v: nat)
    requires v < 26
    ensures "abcdefghijklmnopqrstuvwxyz"[v] == 'a' + v as char
  {
  }

  lemma AlphabetHolds(v: nat)
    requires v < 64
    ensures |ALPHABET| == 64 && Digit(v) == ALPHABET[v]
  {
    if v < 26 {
      UpperCase(v);
    } else if v < 52 {
      LowerCase(v - 26);
    } else if v < 62 {
      assert "0123456789"[v - 52] == '0' + (v - 52) as char;
    }
  }

  /** Section 3 of RFC 3629: how many octets a character has, and where its bits are in them. */
  lemma CharacterOctets(c: char)
    ensures var n, b := c as int, EncodeChar(c);
      if n < 0x80 then b == [n as Byte]
      else if n < 0x800 then
        && |b| == 2 && 0xC0 <= b[0] < 0xE0 && 0x80 <= b[1] < 0xC0
        && n == (b[0] as int - 0xC0) * 0x40 + (b[1] as int - 0x80)
      else if n < 0x1_0000 then
        && |b| == 3 && 0xE0 <= b[0] < 0xF0 && 0x80 <= b[1] < 0xC0 && 0x80 <= b[2] < 0xC0
        && n == (b[0] as int - 0xE0) * 0x1000 + (b[1] as int - 0x80) * 0x40 + (b[2] as int - 0x80)
      else
        && |b| == 4 && 0xF0 <= b[0] < 0xF8 && 0x80 <= b[1] < 0xC0 && 0x80 <= b[2] < 0xC0 && 0x80 <= b[3] < 0xC0
        && n == (b[0] as int - 0xF0) * 0x4_0000 + (b[1] as int - 0x80) * 0x1000 + (b[2] as int - 0x80) * 0x40
                + (b[3] as int - 0x80)
  {
    var n := c as int;
    if n >= 0x1_0000 {
      var x, y := n / 64, n / 4096;
      assert y == x / 64 && n / 262144 == y / 64;
      assert n == x * 64 + n % 64 && x == y * 64 + x % 64 && y == y / 64 * 64 + y % 64;
    } else if n >= 0x800 {
      var x := n / 64;
      assert n / 4096 == x / 64 && n == x * 64 + n % 64 && x == x / 64 * 64 + x % 64;
    }
  }

  lemma ThreeBytes(a: Byte, b: Byte, c: Byte)
    ensures Btoa([a, b, c]) == Group(a, b, c)
  {
    hide Group;
    var g := Group(a, b, c);
    assert [a, b, c][3..] == [] && Digits([]) == "";
    assert Digits([a, b, c]) == g + "" == g;
    assert g + Padding(4) == g;
  }

  lemma TwoBytes(a: Byte, b: Byte)
    ensures Btoa([a, b]) == Group(a, b, 0)[..3] + "="
  {
    hide Group;
  }

  lemma OneByte(a: Byte)
    ensures Btoa([a]) == Group(a, 0, 0)[..2] + "=="
  {
    hide Group;
  }

  /** Section 10 of RFC 4648. */
  lemma TestVectors()
    ensures Btoa(['f' as Byte]) == "Zg==" && Btoa(['f' as Byte, 'o' as Byte]) == "Zm8="
    ensures Btoa(['f' as Byte, 'o' as Byte, 'o' as Byte]) == "Zm9v"
  {
    hide Btoa;
    OneByte('f' as Byte);
    TwoBytes('f' as Byte, 'o' as Byte);
    ThreeBytes('f' as Byte, 'o' as Byte, 'o' as Byte);
    assert Group('f' as Byte, 0, 0) == "ZgAA" && Group('f' as Byte, 'o' as Byte, 0) == "Zm8A";
  }

  lemma AsciiEncoded(a: char, b: char, c: char)
    requires a as int < 0x80 && b as int < 0x80 && c as int < 0x80
    ensures Encode([a, b, c]) == [a as Byte, b as Byte, c as Byte]
  {
    assert [a, b, c][1..] == [b, c] && [b, c][1..] == [c] && [c][1..] == "";
    assert Encode([c]) == [c as Byte] && Encode([b, c]) == [b as Byte, c as Byte];
  }

  lemma IdentifierOf(a: char, b: char, c: char)
    requires a as int < 0x80 && b as int < 0x80 && c as int < 0x80
    ensures ToUrlProjectId([a, b, c]) ==
      WithoutEquals(Replaced(Replaced(Group(a as Byte, b as Byte, c as Byte), '+', '-'), '/', '_'))
  {
    AsciiEncoded(a, b, c);
    ThreeBytes(a as Byte, b as Byte, c as Byte);
  }

  lemma UrlDigitsOf(s: string, t: string)
    requires |s| == |t| == 4 && t[3] != '='
    requires forall i :: 0 <= i < 4 ==> t[i] == if s[i] == '+' then '-' else if s[i] == '/' then '_' else s[i]
    ensures WithoutEquals(Replaced(Replaced(s, '+', '-'), '/', '_')) == t
  {
    assert Replaced(Replaced(s, '+', '-'), '/', '_') == t;
  }

  /** A path's identifier, and the two digits that differ in a URL. */
  lemma Identifiers()
    ensures ToUrlProjectId("/ab") == "L2Fi" && ToUrlProjectId("???") == "Pz8_" && ToUrlProjectId(">>>") == "Pj4-"
  {
    hide ToUrlProjectId;
    IdentifierOf('/', 'a', 'b');
    IdentifierOf('?', '?', '?');
    IdentifierOf('>', '>', '>');
    UrlDigitsOf(Group('/' as Byte, 'a' as Byte, 'b' as Byte), "L2Fi");
    UrlDigitsOf(Group('?' as Byte, '?' as Byte, '?' as Byte), "Pz8_");
    UrlDigitsOf(Group('>' as Byte, '>' as Byte, '>' as Byte), "Pj4-");
  }

  /** Stripped of its padding. */
  lemma ShortIdentifier()
    ensures ToUrlProjectId("f") == "Zg"
  {
    assert "f"[1..] == "" && Encode("f") == ['f' as Byte];
    TestVectors();
    assert Replaced(Replaced("Zg==", '+', '-'), '/', '_') == "Zg==";
    assert "Zg=="[..3] == "Zg=" && "Zg="[..2] == "Zg";
    assert WithoutEquals("Zg") == "Zg";
  }

  /** What does not begin a sequence, or breaks one off, becomes U+FFFD, once for every longest broken beginning. */
  lemma BrokenSequences()
    ensures Decode([0xFF], START) == [REPLACEMENT] && Decode([0x80], START) == [REPLACEMENT]
    ensures Decode([0xC3], START) == [REPLACEMENT] && Decode([0xC3, 0x41], START) == [REPLACEMENT, 'A']
    ensures Decode([0xE2, 0x82], START) == [REPLACEMENT] && Decode([0xE2, 0x82, 0x41], START) == [REPLACEMENT, 'A']
    ensures Decode([0xC0, 0x80], START) == [REPLACEMENT, REPLACEMENT]
  {
    Broken(0xFF, []);
    Broken(0x80, []);
    Broken(0xC0, [0x80]);
    assert [0xC3 as Byte, 0x41][1..] == [0x41] && [0xC3 as Byte][1..] == [] && [0x41 as Byte][1..] == [];
    assert [0xE2 as Byte, 0x82, 0x41][1..] == [0x82, 0x41] && [0x82 as Byte, 0x41][1..] == [0x41];
    assert [0xE2 as Byte, 0x82][1..] == [0x82] && [0x82 as Byte][1..] == [];
    assert Decode([0x41], START) == ['A'] + Decode([], START) == ['A'];
    var two := Lead(0xC3);
    assert Decode([0xC3], START) == Decode([], two) && Decode([0xC3, 0x41], START) == Decode([0x41], two);
    var three := Lead(0xE2);
    var inside := Pending(0x82, 1, 0x80, 0xBF);
    assert Decode([0x82], three) == Decode([], inside) && Decode([0x82, 0x41], three) == Decode([0x41], inside);
  }

  lemma Broken(b: Byte, rest: seq<Byte>)
    requires b as int >= 0x80 && Lead(b as int) == START
    ensures Decode([b] + rest, START) == [REPLACEMENT] + Decode(rest, START)
  {
    assert ([b] + rest)[1..] == rest;
  }
}

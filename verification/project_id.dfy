/** Project identifiers in URLs (packages/shared/src/projectId.ts, section 5 of RFC 4648). */
module ProjectId {
  import opened Base64
  import opened Bytes
  import opened Utf8
  import opened Wrappers

  predicate IsUrlDigit(c: char) {
    'A' <= c <= 'Z' || 'a' <= c <= 'z' || '0' <= c <= '9' || c == '_' || c == '-'
  }

  predicate IsUrlProjectId(value: string) {
    value != "" && forall i :: 0 <= i < |value| ==> IsUrlDigit(value[i])
  }

  function Replaced(s: string, from: char, to: char): string {
    seq(|s|, i requires 0 <= i < |s| => if s[i] == from then to else s[i])
  }

  function WithoutEquals(s: string): string {
    if s != "" && s[|s| - 1] == '=' then WithoutEquals(s[..|s| - 1]) else s
  }

  function ToUrlProjectId(path: string): string {
    WithoutEquals(Replaced(Replaced(Btoa(Encode(path)), '+', '-'), '/', '_'))
  }

  function CharCodes(binary: string): seq<Byte>
    requires forall i :: 0 <= i < |binary| ==> binary[i] as int < 256
  {
    seq(|binary|, i requires 0 <= i < |binary| => binary[i] as Byte)
  }

  function FromUrlProjectId(id: string): Result<string, Error> {
    var binary := Atob(Padded(Replaced(Replaced(id, '-', '+'), '_', '/')));
    if binary.Err? then Err(binary.error) else Ok(DecodeText(CharCodes(binary.value)))
  }

  lemma PadOne(s: string)
    requires |s| % 4 != 0
    ensures Padded(s + "=") == Padded(s) && |Padding(|s| + 1)| < |Padding(|s|)|
  {
    assert s + "=" + Padding(|s| + 1) == s + Padding(|s|);
  }

  method DecodeProjectId(id: string) returns (r: Result<string, Error>)
    ensures r == FromUrlProjectId(id)
  {
    var base64 := Replaced(Replaced(id, '-', '+'), '_', '/');
    ghost var start := base64;
    while |base64| % 4 != 0
      invariant Padded(base64) == Padded(start)
      decreases |Padding(|base64|)|
    {
      PadOne(base64);
      base64 := base64 + "=";
    }
    assert base64 == Padded(start);
    hide Padded, Padding, Replaced, Atob, DecodeText;
    var decoded := Atob(base64);
    if decoded.Err? {
      return Err(decoded.error);
    }
    var binary := decoded.value;
    var bytes := new Byte[|binary|];
    for i := 0 to |binary|
      invariant forall k :: 0 <= k < i ==> bytes[k] == binary[k] as Byte
    {
      bytes[i] := binary[i] as Byte;
    }
    assert bytes[..] == CharCodes(binary);
    return Ok(DecodeText(bytes[..]));
  }

  // ---- Round trips ----

  function ToUrlDigit(c: char): char {
    if c == '+' then '-' else if c == '/' then '_' else c
  }

  function UrlDigits(s: string): (r: string)
    ensures |r| == |s|
  {
    seq(|s|, i requires 0 <= i < |s| => ToUrlDigit(s[i]))
  }

  lemma ReplacedTwice(s: string)
    ensures Replaced(Replaced(s, '+', '-'), '/', '_') == UrlDigits(s)
  {
  }

  lemma StripOne(s: string)
    ensures WithoutEquals(s + "=") == WithoutEquals(s)
  {
    assert (s + "=")[..|s + "="| - 1] == s;
  }

  lemma WithoutPadding(s: string)
    requires AllDigits(s) && |s| % 4 != 1
    ensures WithoutEquals(UrlDigits(Padded(s))) == UrlDigits(s)
  {
    var d := UrlDigits(s);
    assert WithoutEquals(d) == d;
    if |s| % 4 == 3 {
      assert UrlDigits(Padded(s)) == d + "=";
      StripOne(d);
    } else if |s| % 4 == 2 {
      assert UrlDigits(Padded(s)) == d + "=" + "=";
      StripOne(d);
      StripOne(d + "=");
    } else {
      assert Padded(s) == s;
    }
  }

  /** The identifier consists of the base64 digits in their URL form: only padding is stripped. */
  lemma IdIsUrlDigits(path: string)
    ensures ToUrlProjectId(path) == UrlDigits(Digits(Encode(path)))
  {
    ReplacedTwice(Btoa(Encode(path)));
    WithoutPadding(Digits(Encode(path)));
  }

  lemma BackToDigits(s: string)
    requires AllDigits(s)
    ensures Replaced(Replaced(UrlDigits(s), '-', '+'), '_', '/') == s
  {
  }

  /** The padding loop restores exactly what was stripped. */
  lemma PaddingRestored(path: string)
    ensures Padded(Replaced(Replaced(ToUrlProjectId(path), '-', '+'), '_', '/')) == Btoa(Encode(path))
  {
    IdIsUrlDigits(path);
    BackToDigits(Digits(Encode(path)));
  }

  lemma CharCodesRoundTrip(bytes: seq<Byte>)
    ensures CharCodes(FromCharCodes(bytes)) == bytes
  {
  }

  /**
   * Decoding an identifier gives the path back, except that one leading U+FEFF
   * is lost: the path comes back exactly if it does not start with U+FEFF.
   */
  lemma ProjectIdRoundTrip(path: string)
    ensures FromUrlProjectId(ToUrlProjectId(path)) ==
      Ok(if path != "" && path[0] == BYTE_ORDER_MARK then path[1..] else path)
    ensures FromUrlProjectId(ToUrlProjectId(path)) == Ok(path) <==> path == "" || path[0] != BYTE_ORDER_MARK
  {
    PaddingRestored(path);
    AtobOfDigits(Digits(Encode(path)));
    DigitsRoundTrip(Encode(path));
    CharCodesRoundTrip(Encode(path));
    TextRoundTrip(path);
    assert path != "" ==> |path[1..]| != |path|;
  }

  /** Every non-empty path has a well-formed identifier; the empty path has the empty one. */
  lemma IdIsWellFormed(path: string)
    ensures IsUrlProjectId(ToUrlProjectId(path)) <==> path != ""
  {
    IdIsUrlDigits(path);
    var s := Digits(Encode(path));
    assert forall i :: 0 <= i < |s| ==> IsUrlDigit(UrlDigits(s)[i]);
  }

  /** Different paths have different identifiers, U+FEFF or not. */
  lemma IdIsInjective(p: string, q: string)
    requires ToUrlProjectId(p) == ToUrlProjectId(q)
    ensures p == q
  {
    IdIsUrlDigits(p);
    IdIsUrlDigits(q);
    BackToDigits(Digits(Encode(p)));
    BackToDigits(Digits(Encode(q)));
    DigitsRoundTrip(Encode(p));
    DigitsRoundTrip(Encode(q));
    DecodeEncode(p);
    DecodeEncode(q);
  }

  /** A text in the identifier alphabet is decoded exactly if its length leaves no remainder of one. */
  lemma WellFormedIsDecoded(id: string)
    requires IsUrlProjectId(id)
    ensures FromUrlProjectId(id).Ok? <==> |id| % 4 != 1
  {
    var s := Replaced(Replaced(id, '-', '+'), '_', '/');
    assert AllDigits(s);
    if |id| % 4 != 1 {
      AtobOfDigits(s);
    } else {
      OverPadded(s);
    }
  }

  /** Three equals signs cannot be taken off. */
  lemma OverPadded(s: string)
    requires AllDigits(s) && |s| % 4 == 1
    ensures Atob(Padded(s)).Err?
  {
    PaddedHasNoSpaces(s);
    var data := Unpadded(Padded(s));
    assert data[|s|] == '=' && !IsDigit('=');
  }
}

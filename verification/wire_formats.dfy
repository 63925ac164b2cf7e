/** The bytes on the wire, place by place, with the constants written out (packages/shared/src/binary-framing.ts). */
module WireFormats {
  import opened Bytes
  import opened Doubles
  import opened FramingErrors
  import opened Framing
  import opened Offsets
  import opened Uuids
  import opened Wrappers

  /** The character is the hexadecimal digit of the value. */
  predicate IsDigitOf(c: char, v: int) {
    0 <= v < 16 && c == "0123456789abcdef"[v]
  }

  /** Where the digits are in the text: 8-4-4-4-12, with a hyphen after each of the first four groups. */
  function DigitPlace(j: nat): nat {
    j + (if j >= 8 then 1 else 0) + (if j >= 12 then 1 else 0) + (if j >= 16 then 1 else 0) + (if j >= 20 then 1 else 0)
  }

  predicate IsTextOf(text: string, bytes: seq<Byte>) {
    && |text| == 36 && |bytes| == 16
    && text[8] == '-' && text[13] == '-' && text[18] == '-' && text[23] == '-'
    && forall i :: 0 <= i < 16 ==>
         && IsDigitOf(text[DigitPlace(2 * i)], bytes[i] as int / 16)
         && IsDigitOf(text[DigitPlace(2 * i + 1)], bytes[i] as int % 16)
  }

  lemma DigitIs(v: nat)
    requires v < 16
    ensures IsDigitOf(HexDigit(v), v)
  {
  }

  lemma HyphenatedAt(hex: string, j: nat)
    requires |hex| == 32 && j < 32
    ensures |Hyphenated(hex)| == 36 && Hyphenated(hex)[DigitPlace(j)] == hex[j]
  {
    var text := Hyphenated(hex);
    assert text[..8] == hex[..8] && text[9..13] == hex[8..12] && text[14..18] == hex[12..16] &&
      text[19..23] == hex[16..20]
      && text[24..] == hex[20..];
    if j < 8 {
      assert text[j] == text[..8][j];
    } else if j < 12 {
      assert text[j + 1] == text[9..13][j - 8];
    } else if j < 16 {
      assert text[j + 2] == text[14..18][j - 12];
    } else if j < 20 {
      assert text[j + 3] == text[19..23][j - 16];
    } else {
      assert text[j + 4] == text[24..][j - 20];
    }
  }

  /** An identifier's text has the two digits of every byte, in order, and hyphens in their places. */
  lemma UuidText(bytes: seq<Byte>)
    ensures BytesToUuid(bytes).Ok? <==> |bytes| == 16
    ensures |bytes| == 16 ==> IsTextOf(BytesToUuid(bytes).value, bytes)
  {
    if |bytes| == 16 {
      var hex := HexOfBytes(bytes);
      HyphensAt(hex);
      hide Hyphenated, HexOfBytes, DigitPlace, IsDigitOf;
      forall i | 0 <= i < 16
        ensures 0 <= DigitPlace(2 * i) < 36 && IsDigitOf(Hyphenated(hex)[DigitPlace(2 * i)], bytes[i] as int / 16)
        ensures 0 <= DigitPlace(2 * i + 1) < 36
        ensures IsDigitOf(Hyphenated(hex)[DigitPlace(2 * i + 1)], bytes[i] as int % 16)
      {
        ByteAt(bytes, i);
      }
    }
  }

  lemma HyphensAt(hex: string)
    requires |hex| == 32
    ensures var text := Hyphenated(hex);
      |text| == 36 && text[8] == '-' && text[13] == '-' && text[18] == '-' && text[23] == '-'
  {
  }

  /** The two digits of one byte. */
  lemma ByteAt(bytes: seq<Byte>, i: nat)
    requires |bytes| == 16 && i < 16
    ensures var text := Hyphenated(HexOfBytes(bytes));
      && |text| == 36 && DigitPlace(2 * i) < 36 && DigitPlace(2 * i + 1) < 36
      && IsDigitOf(text[DigitPlace(2 * i)], bytes[i] as int / 16)
      && IsDigitOf(text[DigitPlace(2 * i + 1)], bytes[i] as int % 16)
  {
    hide Hyphenated, IsDigitOf;
    var hex := HexOfBytes(bytes);
    HyphenatedAt(hex, 2 * i);
    HyphenatedAt(hex, 2 * i + 1);
    DigitIs(bytes[i] as int / 16);
    DigitIs(bytes[i] as int % 16);
  }

  /** Only texts of 32 hexadecimal digits besides hyphens are identifiers, in either case of letters. */
  lemma UuidDigits(c: char)
    ensures IsHex(c) <==> c in "0123456789abcdef" || c in "ABCDEF"
  {
    var lower, upper := "0123456789abcdef", "ABCDEF";
    if '0' <= c <= '9' {
      assert lower[c as int - '0' as int] == c;
    } else if 'a' <= c <= 'f' {
      assert lower[c as int - 'a' as int + 10] == c;
    } else if 'A' <= c <= 'F' {
      assert upper[c as int - 'A' as int] == c;
    }
  }

  /** The number that the bytes are, the most significant first. */
  function BigEndian(bytes: seq<Byte>): nat {
    if bytes == [] then 0 else 256 * BigEndian(bytes[..|bytes| - 1]) + bytes[|bytes| - 1] as nat
  }

  lemma FourBytes(b: seq<Byte>)
    requires |b| == 4
    ensures BigEndian(b) == WordOf(b)
  {
    assert b[..3][..2] == b[..2] && b[..2][..1] == b[..1] && b[..1][..0] == [];
    assert BigEndian(b[..1]) == b[0] as nat && BigEndian(b[..2]) == 256 * BigEndian(b[..1]) + b[1] as nat;
    assert BigEndian(b[..3]) == 256 * BigEndian(b[..2]) + b[2] as nat;
  }

  lemma {:induction false} BigEndianConcat(a: seq<Byte>, b: seq<Byte>)
    requires |b| == 4
    ensures BigEndian(a + b) == 0x1_0000_0000 * BigEndian(a) + BigEndian(b)
  {
    var s := a + b;
    var n := |a|;
    assert s[..n + 3][..n + 2] == s[..n + 2] && s[..n + 2][..n + 1] == s[..n + 1] && s[..n + 1][..n] == a;
    assert BigEndian(s[..n + 1]) == 256 * BigEndian(a) + b[0] as nat;
    assert BigEndian(s[..n + 2]) == 256 * BigEndian(s[..n + 1]) + b[1] as nat;
    assert BigEndian(s[..n + 3]) == 256 * BigEndian(s[..n + 2]) + b[2] as nat;
    assert s[..n + 4] == s;
    FourBytes(b);
  }

  /** An offset's eight bytes are its value as a 64-bit integer, the most significant byte first. */
  lemma OffsetBytes(v: Number)
    ensures OffsetToBytes(v).Ok? <==>
      v.Finite? && v.value == v.value.Floor as real && 0.0 <= v.value <= 9007199254740991.0
    ensures OffsetToBytes(v).Ok? ==>
      |OffsetToBytes(v).value| == 8 && BigEndian(OffsetToBytes(v).value) as real == v.value
  {
    OffsetWrittenExactly(v);
    if OffsetToBytes(v).Ok? {
      var bytes := OffsetToBytes(v).value;
      FourBytes(bytes[..4]);
      FourBytes(bytes[4..]);
      BigEndianConcat(bytes[..4], bytes[4..]);
      assert bytes == bytes[..4] + bytes[4..];
    }
  }

  /** A chunk's frame: the byte 2, the identifier's sixteen bytes, the offset's eight and the data. */
  lemma FrameLayout(c: Chunk)
    requires IsChunk(c)
    ensures EncodeFrame(c).Ok?
    ensures var frame := EncodeFrame(c).value;
      && |frame| == 25 + |c.data| && frame[0] == 2
      && UuidToBytes(c.uploadId) == Ok(frame[1..17])
      && BigEndian(frame[17..25]) as real == c.offset.value
      && frame[25..] == c.data
  {
    PayloadRoundTrip(c);
    UuidFromText(c.uploadId);
    OffsetBytes(c.offset);
    var frame, uuid, offset := EncodeFrame(c).value, UuidToBytes(c.uploadId).value, OffsetToBytes(c.offset).value;
    assert frame == [2] + uuid + offset + c.data;
    assert frame[1..17] == uuid && frame[17..25] == offset && frame[25..] == c.data;
  }

  /** What is wrong with a chunk that cannot be encoded: its identifier first. */
  lemma EncodingErrors(c: Chunk)
    ensures !IsUuid(c.uploadId) ==> EncodeFrame(c) == Err(InvalidUuid) && EncodePayload(c) == Err(InvalidUuid)
    ensures IsUuid(c.uploadId) && !IsOffset(c.offset) ==>
      EncodeFrame(c) == Err(InvalidOffset) && EncodePayload(c) == Err(InvalidOffset)
  {
    OffsetWrittenExactly(c.offset);
  }

  /** What is wrong with a frame that is not accepted. */
  lemma DecodingErrors(frame: seq<Byte>)
    ensures frame == [] || frame[0] != 2 ==> DecodeFrame(frame) == Err(UnknownFormat)
    ensures 0 < |frame| < 25 && frame[0] == 2 ==> DecodeFrame(frame) == Err(InvalidChunkLength)
    ensures |frame| >= 25 && frame[0] == 2 && BigEndian(frame[17..21]) >= 0x20_0000 ==>
      DecodeFrame(frame) == Err(InvalidOffset)
  {
    if |frame| >= 25 && frame[0] == 2 {
      FourBytes(frame[17..21]);
      assert frame[1..][16..24][..4] == frame[17..21];
      OffsetReadExactly(frame[1..][16..24]);
    }
  }

  /** A frame is one of three formats: JSON is 1, an upload chunk 2, compressed JSON 3. */
  lemma FormatBytes(frame: seq<Byte>)
    ensures DecodeBinaryFrame(frame) ==
      if |frame| > 0 && (frame[0] == 1 || frame[0] == 2 || frame[0] == 3) then Ok(Tagged(frame[0], frame[1..]))
      else Err(UnknownFormat)
    ensures Extract(frame) ==
      if |frame| > 0 && (frame[0] == 1 || frame[0] == 2 || frame[0] == 3) then Ok(Tagged(frame[0], frame[1..]))
      else Err(InvalidInnerFormat)
  {
  }

  /** A sealed message: the byte 1, the nonce's 24 bytes and the ciphertext of the format byte and the payload. */
  lemma EnvelopeLayout(seal: Sealer, format: Byte, payload: seq<Byte>, nonce: seq<Byte>)
    ensures SealBytes(seal, format, payload, nonce).Ok? <==> |nonce| == 24
    ensures |nonce| != 24 ==> SealBytes(seal, format, payload, nonce) == Err(InvalidEnvelopeLength)
    ensures |nonce| == 24 ==>
      var bytes := SealBytes(seal, format, payload, nonce).value;
      |bytes| >= 25 && bytes[0] == 1 && bytes[1..25] == nonce && bytes[25..] == seal([format] + payload, nonce)
  {
    if |nonce| == 24 {
      var bytes := SealBytes(seal, format, payload, nonce).value;
      assert bytes == [1] + nonce + seal([format] + payload, nonce);
    }
  }

  /** Which bytes are an envelope. */
  lemma EnvelopeAccepted(bytes: seq<Byte>)
    ensures |bytes| < 42 ==> ParseEnvelope(bytes) == Err(InvalidEnvelopeLength)
    ensures |bytes| >= 42 && bytes[0] != 1 ==> ParseEnvelope(bytes) == Err(UnknownVersion)
    ensures |bytes| >= 42 && bytes[0] == 1 ==> ParseEnvelope(bytes).Ok?
  {
  }
}

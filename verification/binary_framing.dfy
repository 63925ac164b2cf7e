/** Upload chunks and encrypted envelopes on the wire (packages/shared/src/binary-framing.ts). */
module Framing {
  import opened Bytes
  import opened Doubles
  import opened FramingErrors
  import opened Offsets
  import opened Uuids
  import opened Wrappers

  datatype Chunk = Chunk(uploadId: string, offset: Number, data: seq<Byte>)

  datatype Tagged = Tagged(format: Byte, payload: seq<Byte>)

  const BINARY_UPLOAD: Byte := 2

  /** JSON, binary upload, compressed JSON. */
  predicate IsFormat(b: Byte) {
    b == 1 || b == 2 || b == 3
  }

  function DecodeBinaryFrame(frame: seq<Byte>): Result<Tagged, Error> {
    if |frame| == 0 then Err(UnknownFormat)
    else if !IsFormat(frame[0]) then Err(UnknownFormat)
    else Ok(Tagged(frame[0], frame[1..]))
  }

  function EncodePayload(c: Chunk): Result<seq<Byte>, Error> {
    var uuid := UuidToBytes(c.uploadId);
    if uuid.Err? then Err(uuid.error)
    else
      var offset := OffsetToBytes(c.offset);
      if offset.Err? then Err(offset.error) else Ok(uuid.value + offset.value + c.data)
  }

  function DecodePayload(payload: seq<Byte>): Result<Chunk, Error> {
    if |payload| < 24 then Err(InvalidChunkLength)
    else
      var uuid := BytesToUuid(payload[..16]);
      if uuid.Err? then Err(uuid.error)
      else
        var offset := BytesToOffset(payload[16..24]);
        if offset.Err? then Err(offset.error) else Ok(Chunk(uuid.value, offset.value, payload[24..]))
  }

  function EncodeFrame(c: Chunk): Result<seq<Byte>, Error> {
    var payload := EncodePayload(c);
    if payload.Err? then payload else Ok([BINARY_UPLOAD] + payload.value)
  }

  function DecodeFrame(frame: seq<Byte>): Result<Chunk, Error> {
    var tagged := DecodeBinaryFrame(frame);
    if tagged.Err? then Err(tagged.error)
    else if tagged.value.format != BINARY_UPLOAD then Err(UnknownFormat)
    else DecodePayload(tagged.value.payload)
  }

  method EncodeUploadChunkPayload(c: Chunk) returns (r: Result<seq<Byte>, Error>)
    ensures r == EncodePayload(c)
  {
    var uuid := ParseUuid(c.uploadId);
    if uuid.Err? {
      return uuid;
    }
    var offset := EncodeOffset(c.offset);
    if offset.Err? {
      return offset;
    }
    OffsetWrittenExactly(c.offset);
    var result := new Byte[16 + 8 + |c.data|];
    var pos := 0;
    SetAt(result, uuid.value, pos);
    pos := pos + 16;
    SetAt(result, offset.value, pos);
    pos := pos + 8;
    SetAt(result, c.data, pos);
    assert result[..] == uuid.value + offset.value + c.data;
    return Ok(result[..]);
  }

  lemma FrameParts(uuid: seq<Byte>, offset: seq<Byte>, data: seq<Byte>)
    ensures [BINARY_UPLOAD] + uuid + offset + data == [BINARY_UPLOAD] + (uuid + offset + data)
  {
  }

  method EncodeUploadChunkFrame(c: Chunk) returns (r: Result<seq<Byte>, Error>)
    ensures r == EncodeFrame(c)
  {
    var uuid := ParseUuid(c.uploadId);
    if uuid.Err? {
      return uuid;
    }
    var offset := EncodeOffset(c.offset);
    if offset.Err? {
      return offset;
    }
    OffsetWrittenExactly(c.offset);
    var view := new Byte[1 + 16 + 8 + |c.data|];
    var pos := 0;
    view[pos] := BINARY_UPLOAD;
    pos := pos + 1;
    assert view[..1] == [BINARY_UPLOAD];
    SetAt(view, uuid.value, pos);
    pos := pos + 16;
    assert view[..17] == [BINARY_UPLOAD] + uuid.value;
    SetAt(view, offset.value, pos);
    pos := pos + 8;
    assert view[..25] == [BINARY_UPLOAD] + uuid.value + offset.value;
    SetAt(view, c.data, pos);
    assert view[..] == [BINARY_UPLOAD] + uuid.value + offset.value + c.data;
    FrameParts(uuid.value, offset.value, c.data);
    return Ok(view[..]);
  }

  // ---- The chunk codec is a bijection onto the frames it accepts ----

  predicate IsChunk(c: Chunk) {
    IsUuid(c.uploadId) && IsOffset(c.offset)
  }

  /** Exactly the chunks with a UUID and a safe offset can be encoded, and they come back. */
  lemma PayloadRoundTrip(c: Chunk)
    ensures EncodePayload(c).Ok? <==> IsChunk(c)
    ensures IsChunk(c) ==> DecodePayload(EncodePayload(c).value) == Ok(c.(uploadId := Canonical(c.uploadId)))
  {
    OffsetWrittenExactly(c.offset);
    if IsChunk(c) {
      UuidFromText(c.uploadId);
      OffsetRoundTrip(c.offset);
      var uuid, offset := UuidToBytes(c.uploadId).value, OffsetToBytes(c.offset).value;
      var payload := uuid + offset + c.data;
      assert payload[..16] == uuid && payload[16..24] == offset && payload[24..] == c.data;
    }
  }

  predicate IsPayload(payload: seq<Byte>) {
    |payload| >= 24 && WordOf(payload[16..20]) < 0x20_0000
  }

  /** A payload is accepted exactly if it has a header whose offset is safe; encoding its chunk gives it back. */
  lemma PayloadAccepted(payload: seq<Byte>)
    ensures DecodePayload(payload).Ok? <==> IsPayload(payload)
    ensures IsPayload(payload) ==> EncodePayload(DecodePayload(payload).value) == Ok(payload)
  {
    if |payload| >= 24 {
      var uuid, offset := payload[..16], payload[16..24];
      assert offset[..4] == payload[16..20];
      UuidFromBytes(uuid);
      OffsetReadExactly(offset);
      if IsPayload(payload) {
        OffsetBytesRoundTrip(offset);
        assert payload == uuid + offset + payload[24..];
      }
    }
  }

  predicate IsChunkFrame(frame: seq<Byte>) {
    |frame| >= 25 && frame[0] == 2 && WordOf(frame[17..21]) < 0x20_0000
  }

  /** Decoding an encoded chunk gives it back, with the identifier in its canonical form. */
  lemma FrameRoundTrip(c: Chunk)
    ensures EncodeFrame(c).Ok? <==> IsChunk(c)
    ensures IsChunk(c) ==> DecodeFrame(EncodeFrame(c).value) == Ok(c.(uploadId := Canonical(c.uploadId)))
  {
    PayloadRoundTrip(c);
    if IsChunk(c) {
      var frame := EncodeFrame(c).value;
      assert frame[0] == BINARY_UPLOAD && frame[1..] == EncodePayload(c).value;
    }
  }

  lemma ChunkFrameIsTaggedPayload(frame: seq<Byte>)
    ensures IsChunkFrame(frame) <==> |frame| > 0 && frame[0] == 2 && IsPayload(frame[1..])
  {
    if |frame| >= 25 {
      assert frame[1..][16..20] == frame[17..21];
    }
  }

  /** The accepted frames, and the identity of encoding what was decoded from one. */
  lemma FrameAccepted(frame: seq<Byte>)
    ensures DecodeFrame(frame).Ok? <==> IsChunkFrame(frame)
    ensures IsChunkFrame(frame) ==> EncodeFrame(DecodeFrame(frame).value) == Ok(frame)
  {
    ChunkFrameIsTaggedPayload(frame);
    if |frame| > 0 && frame[0] == BINARY_UPLOAD {
      PayloadAccepted(frame[1..]);
      assert DecodeFrame(frame) == DecodePayload(frame[1..]);
      assert frame == [BINARY_UPLOAD] + frame[1..];
    }
  }

  // ---- Envelopes ----

  const VERSION: Byte := 1

  datatype Envelope = Envelope(version: Byte, nonce: seq<Byte>, ciphertext: seq<Byte>)

  function ParseEnvelope(bytes: seq<Byte>): Result<Envelope, Error> {
    if |bytes| < 42 then Err(InvalidEnvelopeLength)
    else if bytes[0] != VERSION then Err(UnknownVersion)
    else Ok(Envelope(bytes[0], bytes[1..25], bytes[25..]))
  }

  function CreateEnvelope(nonce: seq<Byte>, ciphertext: seq<Byte>, version: Byte): Result<seq<Byte>, Error> {
    if |nonce| != 24 then Err(InvalidEnvelopeLength) else Ok([version] + nonce + ciphertext)
  }

  method CreateBinaryEnvelope(nonce: seq<Byte>, ciphertext: seq<Byte>, version: Byte)
    returns (r: Result<seq<Byte>, Error>)
    ensures r == CreateEnvelope(nonce, ciphertext, version)
  {
    if |nonce| != 24 {
      return Err(InvalidEnvelopeLength);
    }
    var view := new Byte[1 + 24 + |ciphertext|];
    view[0] := version;
    SetAt(view, nonce, 1);
    SetAt(view, ciphertext, 25);
    assert view[..] == [version] + nonce + ciphertext;
    return Ok(view[..]);
  }

  function Prepend(format: Byte, payload: seq<Byte>): seq<Byte> {
    [format] + payload
  }

  method PrependFormatByte(format: Byte, payload: seq<Byte>) returns (r: seq<Byte>)
    ensures r == Prepend(format, payload)
  {
    var result := new Byte[1 + |payload|];
    result[0] := format;
    SetAt(result, payload, 1);
    assert result[..] == [format] + payload;
    return result[..];
  }

  function Extract(decrypted: seq<Byte>): Result<Tagged, Error> {
    if |decrypted| == 0 then Err(InvalidInnerFormat)
    else if !IsFormat(decrypted[0]) then Err(InvalidInnerFormat)
    else Ok(Tagged(decrypted[0], decrypted[1..]))
  }

  /** What is created is parsed back exactly if it is long enough and has the known version. */
  lemma EnvelopeRoundTrip(nonce: seq<Byte>, ciphertext: seq<Byte>, version: Byte)
    requires |nonce| == 24
    ensures ParseEnvelope(CreateEnvelope(nonce, ciphertext, version).value) ==
      if |ciphertext| < 17 then Err(InvalidEnvelopeLength)
      else if version != 1 then Err(UnknownVersion)
      else Ok(Envelope(version, nonce, ciphertext))
  {
    var bytes := [version] + nonce + ciphertext;
    assert bytes[1..25] == nonce && bytes[25..] == ciphertext;
  }

  /** What is parsed is created again from its parts. */
  lemma ParsedEnvelope(bytes: seq<Byte>)
    requires ParseEnvelope(bytes).Ok?
    ensures var e := ParseEnvelope(bytes).value; CreateEnvelope(e.nonce, e.ciphertext, e.version) == Ok(bytes)
  {
    assert bytes == [bytes[0]] + bytes[1..25] + bytes[25..];
  }

  type Sealer = (seq<Byte>, seq<Byte>) -> seq<Byte>
  type Opener = (seq<Byte>, seq<Byte>) -> Option<seq<Byte>>

  /** Authenticated encryption under one key: opening inverts sealing, and sealing adds 16 bytes. */
  ghost predicate Inverse(seal: Sealer, open: Opener) {
    forall plain, nonce :: open(seal(plain, nonce), nonce) == Some(plain) && |seal(plain, nonce)| == |plain| + 16
  }

  function SealBytes(seal: Sealer, format: Byte, payload: seq<Byte>, nonce: seq<Byte>): Result<seq<Byte>, Error> {
    CreateEnvelope(nonce, seal(Prepend(format, payload), nonce), VERSION)
  }

  function OpenBytes(open: Opener, bytes: seq<Byte>): Result<Option<Tagged>, Error> {
    var e := ParseEnvelope(bytes);
    if e.Err? then Err(e.error)
    else
      var decrypted := open(e.value.ciphertext, e.value.nonce);
      if decrypted.None? then Ok(None)
      else
        var tagged := Extract(decrypted.value);
        if tagged.Err? then Err(tagged.error) else Ok(Some(tagged.value))
  }

  /** Sealing and opening give back every known format and payload; no payload is too short. */
  lemma SealRoundTrip(seal: Sealer, open: Opener, format: Byte, payload: seq<Byte>, nonce: seq<Byte>)
    requires Inverse(seal, open) && |nonce| == 24
    ensures var sealed := SealBytes(seal, format, payload, nonce);
      && sealed.Ok? && |sealed.value| == 42 + |payload|
      && OpenBytes(open, sealed.value) ==
           if 1 <= format <= 3 then Ok(Some(Tagged(format, payload))) else Err(InvalidInnerFormat)
  {
    var ciphertext := seal(Prepend(format, payload), nonce);
    assert open(ciphertext, nonce) == Some(Prepend(format, payload));
    EnvelopeRoundTrip(nonce, ciphertext, VERSION);
    assert Prepend(format, payload)[1..] == payload;
  }

  /** An upload chunk passes through all three layers unchanged. */
  lemma ChunkThroughEnvelope(seal: Sealer, open: Opener, c: Chunk, nonce: seq<Byte>)
    requires Inverse(seal, open) && |nonce| == 24 && IsChunk(c)
    ensures var sealed := SealBytes(seal, BINARY_UPLOAD, EncodePayload(c).value, nonce);
      && sealed.Ok? && |sealed.value| == 66 + |c.data|
      && var outcome := OpenBytes(open, sealed.value);
         && outcome.Ok? && outcome.value.Some? && outcome.value.value.format == 2
         && DecodePayload(outcome.value.value.payload) == Ok(c.(uploadId := Canonical(c.uploadId)))
  {
    PayloadRoundTrip(c);
    UuidFromText(c.uploadId);
    OffsetWrittenExactly(c.offset);
    SealRoundTrip(seal, open, BINARY_UPLOAD, EncodePayload(c).value, nonce);
  }
}

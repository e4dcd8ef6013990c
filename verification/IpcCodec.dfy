/** The versioned control envelope, its length-prefixed frames and the reader that reassembles them. */
module IpcCodec {
  import opened Bytes
  import opened Wrappers

  const MAGIC: nat := 0x314B4948
  const VERSION: nat := 1
  const HEADER_BYTES: nat := 20
  const MAX_PAYLOAD_BYTES: nat := 1024 * 1024
  const FIRST_TYPE: nat := 1
  const LAST_TYPE: nat := 23

  datatype Envelope = Envelope(messageType: nat, requestId: nat, payload: seq<Byte>)

  datatype DecodeError =
    | Truncated
    | InvalidMagic
    | UnsupportedVersion
    | InvalidType
    | OversizedPayload
    | LengthMismatch

  datatype FrameError = Closed | InvalidLength | Undecodable(error: DecodeError)

  predicate IsValidType(t: nat) { FIRST_TYPE <= t <= LAST_TYPE }

  /** What Encode accepts without throwing. */
  predicate Encodable(e: Envelope) {
    && IsValidType(e.messageType)
    && e.requestId < UINT64_LIMIT
    && |e.payload| <= MAX_PAYLOAD_BYTES
  }

  function Header(e: Envelope): (h: seq<Byte>)
    requires Encodable(e)
    ensures |h| == HEADER_BYTES
  {
    U32(MAGIC) + U16(VERSION) + U16(e.messageType) + U32(|e.payload|) + U64(e.requestId)
  }

  function Encoded(e: Envelope): (bytes: seq<Byte>)
    requires Encodable(e)
    ensures |bytes| == HEADER_BYTES + |e.payload|
  {
    Header(e) + e.payload
  }

  method Encode(e: Envelope) returns (bytes: array<Byte>)
    requires Encodable(e)
    ensures fresh(bytes) && bytes[..] == Encoded(e)
  {
    bytes := new Byte[HEADER_BYTES + |e.payload|](_ => 0);
    assert [] + Zeros(bytes.Length) == bytes[..];
    PutFour(bytes, 0, U32(MAGIC), U16(VERSION), U16(e.messageType), U32(|e.payload|), []);
    ghost var front := U32(MAGIC) + U16(VERSION) + U16(e.messageType) + U32(|e.payload|);
    assert [] + front == front;
    PutTwo(bytes, 12, U64(e.requestId), e.payload, front);
    assert front + (U64(e.requestId) + e.payload) == Encoded(e);
    assert Encoded(e) + Zeros(0) == Encoded(e);
  }

  function Decode(bytes: seq<Byte>): (r: Result<Envelope, DecodeError>)
  {
    if |bytes| < HEADER_BYTES then Err(Truncated)
    else if ReadU32(bytes[0..4]) != MAGIC then Err(InvalidMagic)
    else if ReadU16(bytes[4..6]) != VERSION then Err(UnsupportedVersion)
    else
      var rawType := ReadU16(bytes[6..8]);
      if !IsValidType(rawType) then Err(InvalidType)
      else
        var payloadBytes := ReadU32(bytes[8..12]);
        if payloadBytes > MAX_PAYLOAD_BYTES then Err(OversizedPayload)
        else if |bytes| - HEADER_BYTES != payloadBytes then Err(LengthMismatch)
        else Ok(Envelope(rawType, ReadU64(bytes[12..20]), bytes[HEADER_BYTES..]))
  }

  /** The header fields where the decoder looks for them. */
  lemma HeaderFields(e: Envelope, b: seq<Byte>)
    requires Encodable(e) && Header(e) <= b
    ensures b[0..4] == U32(MAGIC) && b[4..6] == U16(VERSION) && b[6..8] == U16(e.messageType)
    ensures b[8..12] == U32(|e.payload|) && b[12..20] == U64(e.requestId)
  {
    FieldAt(b, U32(MAGIC) + U16(VERSION) + U16(e.messageType) + U32(|e.payload|), U64(e.requestId));
    FourFields(b, U32(MAGIC), U16(VERSION), U16(e.messageType), U32(|e.payload|));
  }

  lemma DecodesWhatWasEncoded(e: Envelope)
    requires Encodable(e)
    ensures Decode(Encoded(e)) == Ok(e)
  {
    var b := Encoded(e);
    HeaderFields(e, b);
    U32RoundTrip(MAGIC);
    U16RoundTrip(VERSION);
    U16RoundTrip(e.messageType);
    U32RoundTrip(|e.payload|);
    U64RoundTrip(e.requestId);
    assert b[HEADER_BYTES..] == e.payload;
  }

  /** Decoding is canonical: the accepted bytes are exactly the ones the encoder would write. */
  lemma DecodingIsCanonical(bytes: seq<Byte>)
    ensures var r := Decode(bytes); r.Ok? ==> Encodable(r.value) && Encoded(r.value) == bytes
  {
    if Decode(bytes).Ok? {
      var e := Decode(bytes).value;
      FourCuts(bytes, 4, 6, 8, 12);
      TakeStep(bytes, 12, 20);
      assert bytes[..HEADER_BYTES] == Header(e);
    }
  }

  /** A frame on the pipe: the envelope behind its four-byte length. */
  function Frame(e: Envelope): (f: seq<Byte>)
    requires Encodable(e)
    ensures |f| == 4 + HEADER_BYTES + |e.payload|
  {
    U32(HEADER_BYTES + |e.payload|) + Encoded(e)
  }

  datatype Read = Read(outcome: Result<Envelope, FrameError>, rest: seq<Byte>)

  /** What reading one frame from the bytes of a stream means, however they arrive. */
  function NextFrame(stream: seq<Byte>): (r: Read)
  {
    if |stream| < 4 then Read(Err(Closed), [])
    else
      var length := ReadU32(stream[..4]);
      var rest := stream[4..];
      if length < HEADER_BYTES || length > HEADER_BYTES + MAX_PAYLOAD_BYTES then Read(Err(InvalidLength), rest)
      else if |rest| < length then Read(Err(Closed), [])
      else
        match Decode(rest[..length])
        case Ok(e) => Read(Ok(e), rest[length..])
        case Err(error) => Read(Err(Undecodable(error)), rest[length..])
  }

  lemma PrefixedCut(prefix: seq<Byte>, body: seq<Byte>, rest: seq<Byte>)
    requires |prefix| == 4
    ensures var stream := prefix + body + rest;
            stream[..4] == prefix && stream[4..][..|body|] == body && stream[4..][|body|..] == rest
  {
    var stream := prefix + body + rest;
    assert stream[4..] == body + rest;
  }

  lemma FrameIsReadBack(e: Envelope, rest: seq<Byte>)
    requires Encodable(e)
    ensures NextFrame(Frame(e) + rest) == Read(Ok(e), rest)
  {
    var length := HEADER_BYTES + |e.payload|;
    U32RoundTrip(length);
    PrefixedCut(U32(length), Encoded(e), rest);
    DecodesWhatWasEncoded(e);
  }

  lemma PrefixedJoin(stream: seq<Byte>, length: nat)
    requires 4 + length <= |stream|
    ensures stream == stream[..4] + stream[4..][..length] + stream[4..][length..]
  {
  }

  /** Only a frame is read as an envelope. */
  lemma OnlyFramesAreRead(stream: seq<Byte>)
    ensures var r := NextFrame(stream);
            r.outcome.Ok? ==> Encodable(r.outcome.value) && stream == Frame(r.outcome.value) + r.rest
  {
    var r := NextFrame(stream);
    if r.outcome.Ok? {
      var length := ReadU32(stream[..4]);
      DecodingIsCanonical(stream[4..][..length]);
      PrefixedJoin(stream, length);
      assert Frame(r.outcome.value) == stream[..4] + stream[4..][..length];
    }
  }

  ghost predicate AllEncodable(es: seq<Envelope>) { forall i :: 0 <= i < |es| ==> Encodable(es[i]) }

  function Frames(es: seq<Envelope>): seq<Byte>
    requires AllEncodable(es)
  {
    if es == [] then [] else Frame(es[0]) + Frames(es[1..])
  }

  datatype ReadMany = ReadMany(envelopes: seq<Envelope>, rest: seq<Byte>)

  /** `count` successive frame reads, stopping at the first one that fails. */
  function NextFrames(stream: seq<Byte>, count: nat): ReadMany
    decreases count
  {
    if count == 0 then ReadMany([], stream)
    else
      var first := NextFrame(stream);
      if first.outcome.Err? then ReadMany([], first.rest)
      else
        var others := NextFrames(first.rest, count - 1);
        ReadMany([first.outcome.value] + others.envelopes, others.rest)
  }

  /** A concatenation of frames comes back as exactly those envelopes, in order. */
  lemma {:induction false} ConcatenationIsReadBack(es: seq<Envelope>, rest: seq<Byte>)
    requires AllEncodable(es)
    ensures NextFrames(Frames(es) + rest, |es|) == ReadMany(es, rest)
  {
    if es == [] {
      assert Frames(es) + rest == rest;
    } else {
      assert Frames(es) + rest == Frame(es[0]) + (Frames(es[1..]) + rest);
      FrameIsReadBack(es[0], Frames(es[1..]) + rest);
      ConcatenationIsReadBack(es[1..], rest);
      assert [es[0]] + es[1..] == es;
    }
  }

  /** The reading end of a pipe. Each read hands over some non-empty, otherwise arbitrary, chunk. */
  class PipeStream {
    var incoming: seq<Byte>

    constructor (bytes: seq<Byte>)
      ensures incoming == bytes
    {
      incoming := bytes;
    }

    method ReadSome(capacity: nat) returns (chunk: seq<Byte>)
      requires capacity > 0
      modifies this
      ensures |chunk| <= capacity && old(incoming) == chunk + incoming
      ensures chunk == [] <==> old(incoming) == []
    {
      if incoming == [] {
        return [];
      }
      var count: nat :| 1 <= count <= capacity && count <= |incoming|;
      chunk := incoming[..count];
      incoming := incoming[count..];
    }

    /** Fills `destination` from as many chunks as it takes; fails only when the pipe closes first. */
    method ReadExact(destination: array<Byte>) returns (ok: bool)
      modifies this, destination
      ensures ok <==> |old(incoming)| >= destination.Length
      ensures ok ==> old(incoming) == destination[..] + incoming
      ensures !ok ==> incoming == []
    {
      var offset := 0;
      while offset < destination.Length
        invariant offset <= destination.Length
        invariant old(incoming) == destination[..offset] + incoming
      {
        var chunk := ReadSome(destination.Length - offset);
        if chunk == [] {
          return false;
        }
        ghost var before := destination[..offset];
        forall i | 0 <= i < |chunk| {
          destination[offset + i] := chunk[i];
        }
        assert destination[..offset + |chunk|] == before + chunk;
        offset := offset + |chunk|;
      }
      assert destination[..offset] == destination[..];
      return true;
    }

    method ReadFrame() returns (r: Result<Envelope, FrameError>)
      modifies this
      ensures Read(r, incoming) == NextFrame(old(incoming))
    {
      ghost var stream := incoming;
      var prefix := new Byte[4](_ => 0);
      var ok := ReadExact(prefix);
      if !ok {
        return Err(Closed);
      }
      assert stream[..4] == prefix[..] && stream[4..] == incoming;
      var length := ReadU32(prefix[..]);
      if length < HEADER_BYTES || length > HEADER_BYTES + MAX_PAYLOAD_BYTES {
        return Err(InvalidLength);
      }
      var bytes := new Byte[length](_ => 0);
      ghost var rest := incoming;
      ok := ReadExact(bytes);
      if !ok {
        return Err(Closed);
      }
      assert rest[..length] == bytes[..] && rest[length..] == incoming;
      match Decode(bytes[..])
      case Ok(e) => r := Ok(e);
      case Err(error) => r := Err(Undecodable(error));
    }
  }
}

/** The session route-rule command: a fixed 480-byte payload with five text fields. */
module RouteRulePayload {
  import opened Bytes
  import opened Utf8
  import opened Decibels
  import opened Wrappers

  const COMMAND_BYTES: nat := 480

  datatype Operation = Upsert | Remove | Clear

  datatype GainOwner = WindowsSession | HibikiInternal

  datatype Command = Command(
    schemaVersion: nat,
    priority: Int32,
    makeupGainDb: real,
    operation: Operation,
    enabled: bool,
    gainOwner: GainOwner,
    catalogSequence: UInt64,
    ruleId: seq<Byte>,
    appId: seq<Byte>,
    displayName: seq<Byte>,
    laneId: seq<Byte>,
    outputGroup: seq<Byte>)

  function OperationCode(op: Operation): Byte {
    match op
    case Upsert => 1
    case Remove => 2
    case Clear => 3
  }

  function OperationOf(code: Byte): (op: Operation)
    requires 1 <= code <= 3
    ensures OperationCode(op) == code
  {
    if code == 1 then Upsert else if code == 2 then Remove else Clear
  }

  function OwnerCode(owner: GainOwner): Byte { if owner == WindowsSession then 0 else 1 }

  function OwnerOf(code: Byte): (owner: GainOwner)
    requires code <= 1
    ensures OwnerCode(owner) == code
  {
    if code == 0 then WindowsSession else HibikiInternal
  }

  function FlagCode(flag: bool): Byte { if flag then 1 else 0 }

  predicate ValidText(text: seq<Byte>) { text != [] && Printable(text) }

  /** Numbers and lengths that fit the command layout. */
  predicate Fits(v: Command) {
    && v.schemaVersion == 1
    && v.catalogSequence != 0
    && InVolumeRange(v.makeupGainDb)
    && |v.ruleId| <= 64 && |v.appId| <= 128 && |v.displayName| <= 128
    && |v.laneId| <= 64 && |v.outputGroup| <= 64
  }

  /** Texts are handed over as UTF-8, so the encoder never sees ill-formed bytes. */
  predicate TextsAreUtf8(v: Command) {
    && WellFormed(v.ruleId) && WellFormed(v.appId) && WellFormed(v.displayName)
    && WellFormed(v.laneId) && WellFormed(v.outputGroup)
  }

  /** Which texts an operation must and must not carry, as the encoder checks it. */
  predicate OperationTexts(v: Command) {
    match v.operation
    case Upsert =>
      ValidText(v.ruleId) && (ValidText(v.appId) || ValidText(v.displayName))
      && ValidText(v.laneId) && ValidText(v.outputGroup)
    case Remove =>
      ValidText(v.ruleId) && v.appId == [] && v.displayName == [] && v.laneId == [] && v.outputGroup == []
    case Clear =>
      v.ruleId == [] && v.appId == [] && v.displayName == [] && v.laneId == [] && v.outputGroup == []
  }

  predicate Encodable(v: Command) { Fits(v) && TextsAreUtf8(v) && OperationTexts(v) }

  function Front(v: Command): (b: seq<Byte>)
    requires Fits(v)
    ensures |b| == 16
  {
    U32(v.schemaVersion) + I32(v.priority) + I32(ToQ16(v.makeupGainDb))
    + [OperationCode(v.operation), FlagCode(v.enabled), OwnerCode(v.gainOwner), 0]
  }

  function Lengths(v: Command): (b: seq<Byte>)
    requires Fits(v)
    ensures |b| == 8
  {
    [|v.ruleId|, |v.appId|, |v.displayName|, |v.laneId|, |v.outputGroup|, 0, 0, 0]
  }

  function Texts(v: Command): (b: seq<Byte>)
    requires Fits(v)
    ensures |b| == 384
  {
    Field(v.ruleId, 64) + Field(v.appId, 128) + Field(v.displayName, 128) + Field(v.laneId, 64)
  }

  function Encoded(v: Command): (b: seq<Byte>)
    requires Fits(v)
    ensures |b| == COMMAND_BYTES
  {
    Front(v) + (U64(v.catalogSequence) + Lengths(v)) + Texts(v) + Field(v.outputGroup, 64)
  }

  method EncodeCommand(v: Command) returns (r: Option<array<Byte>>)
    ensures r.Some? <==> Encodable(v)
    ensures r.Some? ==> fresh(r.value) && r.value[..] == Encoded(v)
  {
    if !Encodable(v) {
      return None;
    }
    var payload := new Byte[COMMAND_BYTES](_ => 0);
    assert [] + Zeros(COMMAND_BYTES) == payload[..];
    PutFour(payload, 0, U32(v.schemaVersion), I32(v.priority), I32(ToQ16(v.makeupGainDb)),
            [OperationCode(v.operation), FlagCode(v.enabled), OwnerCode(v.gainOwner), 0], []);
    assert [] + Front(v) == Front(v);
    PutTwo(payload, 16, U64(v.catalogSequence), Lengths(v), Front(v));
    ghost var built := Front(v) + (U64(v.catalogSequence) + Lengths(v));
    WriteTexts(payload, v, built);
    Put(payload, 416, v.outputGroup, 64, built + Texts(v));
    assert payload[..] == Encoded(v) + Zeros(0);
    return Some(payload);
  }

  method WriteTexts(payload: array<Byte>, v: Command, ghost built: seq<Byte>)
    requires Fits(v) && payload.Length == COMMAND_BYTES
    requires Written(payload, built) && |built| == 32
    modifies payload
    ensures Written(payload, built + Texts(v))
  {
    PutTexts(payload, 32, v.ruleId, 64, v.appId, 128, built);
    PutTexts(payload, 224, v.displayName, 128, v.laneId, 64, built + (Field(v.ruleId, 64) + Field(v.appId, 128)));
    PairsRegroup(built, Field(v.ruleId, 64), Field(v.appId, 128), Field(v.displayName, 128), Field(v.laneId, 64));
  }

  predicate NumbersAccepted(p: seq<Byte>)
    requires |p| == COMMAND_BYTES
  {
    && p[15] == 0 && p[29] == 0 && p[30] == 0 && p[31] == 0
    && ReadU32(p[0..4]) == 1 && p[13] <= 1
    && 1 <= p[12] <= 3 && p[14] <= 1
    && ReadU64(p[16..24]) != 0
    && InQ16Range(ReadI32(p[8..12]))
    && p[24] <= 64 && p[25] <= 128 && p[26] <= 128 && p[27] <= 64 && p[28] <= 64
  }

  predicate TextsAccepted(p: seq<Byte>)
    requires |p| == COMMAND_BYTES && NumbersAccepted(p)
  {
    && TextField(p, 32, p[24], 96) && TextField(p, 96, p[25], 224) && TextField(p, 224, p[26], 352)
    && TextField(p, 352, p[27], 416) && TextField(p, 416, p[28], 480)
  }

  /** Which length bytes the decoder allows for each operation. */
  predicate LengthsAccepted(p: seq<Byte>)
    requires |p| == COMMAND_BYTES && NumbersAccepted(p)
  {
    match OperationOf(p[12])
    case Upsert => p[24] != 0 && !(p[25] == 0 && p[26] == 0) && p[27] != 0 && p[28] != 0
    case Remove => p[24] != 0 && p[25] == 0 && p[26] == 0 && p[27] == 0 && p[28] == 0
    case Clear => p[24] == 0 && p[25] == 0 && p[26] == 0 && p[27] == 0 && p[28] == 0
  }

  function Value(p: seq<Byte>): Command
    requires |p| == COMMAND_BYTES && NumbersAccepted(p)
  {
    Command(1, ReadI32(p[4..8]), FromQ16(ReadI32(p[8..12])), OperationOf(p[12]), p[13] != 0, OwnerOf(p[14]),
            ReadU64(p[16..24]), p[32..32 + p[24]], p[96..96 + p[25]], p[224..224 + p[26]],
            p[352..352 + p[27]], p[416..416 + p[28]])
  }

  function Decoded(p: seq<Byte>): Option<Command> {
    if |p| == COMMAND_BYTES && NumbersAccepted(p) && TextsAccepted(p) && LengthsAccepted(p)
    then Some(Value(p)) else None
  }

  /** Five padding scans and text checks, then the rules of the operation. */
  method TryDecode(p: seq<Byte>) returns (r: Option<Command>)
    ensures r == Decoded(p)
  {
    if |p| != COMMAND_BYTES || !NumbersAccepted(p) {
      return None;
    }
    var rule := CheckTextField(p, 32, p[24], 96);
    var app := CheckTextField(p, 96, p[25], 224);
    var display := CheckTextField(p, 224, p[26], 352);
    var lane := CheckTextField(p, 352, p[27], 416);
    var output := CheckTextField(p, 416, p[28], 480);
    if !rule || !app || !display || !lane || !output || !LengthsAccepted(p) {
      return None;
    }
    return Some(Value(p));
  }

  /** The payload, field by field. */
  ghost predicate HasFields(p: seq<Byte>, v: Command)
    requires |p| == COMMAND_BYTES && Fits(v)
  {
    && p[0..4] == U32(v.schemaVersion) && p[4..8] == I32(v.priority) && p[8..12] == I32(ToQ16(v.makeupGainDb))
    && p[12..16] == [OperationCode(v.operation), FlagCode(v.enabled), OwnerCode(v.gainOwner), 0]
    && p[16..24] == U64(v.catalogSequence)
    && p[24..32] == Lengths(v)
    && p[32..96] == Field(v.ruleId, 64) && p[96..224] == Field(v.appId, 128)
    && p[224..352] == Field(v.displayName, 128) && p[352..416] == Field(v.laneId, 64)
    && p[416..480] == Field(v.outputGroup, 64)
  }

  lemma EncodedFromFields(p: seq<Byte>, v: Command)
    requires |p| == COMMAND_BYTES && Fits(v) && HasFields(p, v)
    ensures Encoded(v) == p
  {
    FourCuts(p, 4, 8, 12, 16);
    FourCuts(p, 16, 24, 32, 96);
    FourCuts(p, 96, 224, 352, 416);
    TakeStep(p, 416, 480);
    assert p[..16] == Front(v);
    assert p[..480] == p;
    RunsRegroup(Front(v), U64(v.catalogSequence), Lengths(v), Field(v.ruleId, 64), Field(v.appId, 128),
                Field(v.displayName, 128), Field(v.laneId, 64));
  }

  lemma RunsRegroup(a: seq<Byte>, b: seq<Byte>, c: seq<Byte>, d: seq<Byte>, e: seq<Byte>, f: seq<Byte>, g: seq<Byte>)
    ensures a + b + c + d + e + f + g == a + (b + c) + (d + e + f + g)
  {
  }

  lemma EncodedHasFields(v: Command)
    requires Fits(v)
    ensures HasFields(Encoded(v), v)
  {
    var p := Encoded(v);
    var middle := U64(v.catalogSequence) + Lengths(v);
    FourFields(p, Front(v), middle, Texts(v), Field(v.outputGroup, 64));
    FourFields(p, U32(v.schemaVersion), I32(v.priority), I32(ToQ16(v.makeupGainDb)),
               [OperationCode(v.operation), FlagCode(v.enabled), OwnerCode(v.gainOwner), 0]);
    TwoInside(p, 16, U64(v.catalogSequence), Lengths(v));
    FourInside(p, 32, Field(v.ruleId, 64), Field(v.appId, 128), Field(v.displayName, 128), Field(v.laneId, 64));
  }

  lemma AcceptedNumbers(p: seq<Byte>)
    requires |p| == COMMAND_BYTES && NumbersAccepted(p)
    ensures var v := Value(p);
            && Fits(v) && ToQ16(v.makeupGainDb) == ReadI32(p[8..12])
            && p[12..16] == [OperationCode(v.operation), FlagCode(v.enabled), OwnerCode(v.gainOwner), 0]
            && p[24..32] == Lengths(v)
  {
    ReadingThenWritingIsExact(ReadI32(p[8..12]));
    assert p[12..16] == [p[12], p[13], p[14], p[15]];
    assert p[24..32] == [p[24], p[25], p[26], p[27], p[28], p[29], p[30], p[31]];
  }

  lemma AcceptedHasFields(p: seq<Byte>)
    requires |p| == COMMAND_BYTES && NumbersAccepted(p) && TextsAccepted(p) && Fits(Value(p))
    ensures HasFields(p, Value(p))
  {
    AcceptedNumbers(p);
    FieldOfText(p, 32, p[24], 96);
    FieldOfText(p, 96, p[25], 224);
    FieldOfText(p, 224, p[26], 352);
    FieldOfText(p, 352, p[27], 416);
    FieldOfText(p, 416, p[28], 480);
  }

  lemma AcceptedIsEncodable(p: seq<Byte>, v: Command)
    requires Decoded(p) == Some(v)
    ensures Encodable(v) && Printable(v.appId) && Printable(v.displayName)
  {
    AcceptedNumbers(p);
    PrintableIsWellFormed(v.ruleId);
    PrintableIsWellFormed(v.appId);
    PrintableIsWellFormed(v.displayName);
    PrintableIsWellFormed(v.laneId);
    PrintableIsWellFormed(v.outputGroup);
  }

  /** An accepted payload is byte for byte what the encoder writes for the decoded command. */
  lemma DecodingIsCanonical(p: seq<Byte>)
    ensures var d := Decoded(p); d.Some? ==> Encodable(d.value) && Encoded(d.value) == p
  {
    if Decoded(p).Some? {
      var v := Decoded(p).value;
      AcceptedIsEncodable(p, v);
      AcceptedHasFields(p);
      EncodedFromFields(p, v);
    }
  }

  /** The command with its gain on the Q16.16 grid. */
  function Rounded(v: Command): Command
    requires Fits(v)
  {
    v.(makeupGainDb := FromQ16(ToQ16(v.makeupGainDb)))
  }

  lemma NumbersAreReadBack(p: seq<Byte>, v: Command)
    requires |p| == COMMAND_BYTES && Fits(v) && HasFields(p, v)
    ensures ReadU32(p[0..4]) == 1 && ReadI32(p[4..8]) == v.priority && ReadI32(p[8..12]) == ToQ16(v.makeupGainDb)
    ensures ReadU64(p[16..24]) == v.catalogSequence
    ensures p[12] == OperationCode(v.operation) && p[13] == FlagCode(v.enabled) && p[14] == OwnerCode(v.gainOwner)
    ensures p[24] == |v.ruleId| && p[25] == |v.appId| && p[26] == |v.displayName|
    ensures p[27] == |v.laneId| && p[28] == |v.outputGroup|
    ensures NumbersAccepted(p)
  {
    U32RoundTrip(v.schemaVersion);
    I32RoundTrip(v.priority);
    I32RoundTrip(ToQ16(v.makeupGainDb));
    U64RoundTrip(v.catalogSequence);
    var codes, lengths := p[12..16], p[24..32];
    assert p[12] == codes[0] && p[13] == codes[1] && p[14] == codes[2] && p[15] == codes[3];
    assert p[24] == lengths[0] && p[25] == lengths[1] && p[26] == lengths[2] && p[27] == lengths[3];
    assert p[28] == lengths[4] && p[29] == lengths[5] && p[30] == lengths[6] && p[31] == lengths[7];
  }

  lemma TextsAreReadBack(p: seq<Byte>, v: Command)
    requires |p| == COMMAND_BYTES && Fits(v) && HasFields(p, v) && NumbersAccepted(p)
    requires p[24] == |v.ruleId| && p[25] == |v.appId| && p[26] == |v.displayName|
    requires p[27] == |v.laneId| && p[28] == |v.outputGroup|
    ensures p[32..32 + p[24]] == v.ruleId && p[96..96 + p[25]] == v.appId && p[224..224 + p[26]] == v.displayName
    ensures p[352..352 + p[27]] == v.laneId && p[416..416 + p[28]] == v.outputGroup
    ensures TextsAccepted(p) <==> Printable(v.ruleId) && Printable(v.appId) && Printable(v.displayName)
                                  && Printable(v.laneId) && Printable(v.outputGroup)
  {
    TextOfField(p, 32, v.ruleId, 96);
    TextOfField(p, 96, v.appId, 224);
    TextOfField(p, 224, v.displayName, 352);
    TextOfField(p, 352, v.laneId, 416);
    TextOfField(p, 416, v.outputGroup, 480);
  }

  /**
   * An encoded command is decoded to itself, up to the gain's rounding, exactly when both of its
   * matchers are printable; otherwise the receiver refuses what the sender was allowed to write.
   */
  lemma ReadBackExactlyWhenMatchersArePrintable(v: Command)
    requires Encodable(v)
    ensures Decoded(Encoded(v))
            == (if Printable(v.appId) && Printable(v.displayName) then Some(Rounded(v)) else None)
  {
    var p := Encoded(v);
    EncodedHasFields(v);
    NumbersAreReadBack(p, v);
    TextsAreReadBack(p, v);
    assert LengthsAccepted(p);
  }

  /** A concrete upsert the encoder takes and the decoder refuses: a newline in the display matcher. */
  lemma UnprintableMatcherIsLost()
    ensures var v := Command(1, 0, 0.0, Upsert, true, WindowsSession, 1, [0x72], [0x61], [0x0A], [0x6C], [0x6F]);
            Encodable(v) && Decoded(Encoded(v)).None?
  {
    var v := Command(1, 0, 0.0, Upsert, true, WindowsSession, 1, [0x72], [0x61], [0x0A], [0x6C], [0x6F]);
    OneByte(0x72);
    OneByte(0x61);
    OneByte(0x0A);
    OneByte(0x6C);
    OneByte(0x6F);
    ReadBackExactlyWhenMatchersArePrintable(v);
  }
}

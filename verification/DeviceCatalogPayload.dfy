/** The device snapshot message: fixed 416-byte entries behind a 16-byte header. */
module DeviceCatalogPayload {
  import opened Bytes
  import opened Utf8
  import opened Wrappers
  import opened Records
  import opened DeviceCatalog

  const SNAPSHOT_HEADER_BYTES: nat := 16
  const ENTRY_BYTES: nat := 416
  const MAX_BYTES: nat := SNAPSHOT_HEADER_BYTES + 416 * CAPACITY

  function FlowCode(flow: Flow): Byte { if flow == Render then 0 else 1 }

  function AvailabilityCode(a: Availability): Byte {
    match a
    case Active => 0
    case Disabled => 1
    case Unplugged => 2
    case Unknown => 3
  }

  function FlowOf(code: Byte): (flow: Flow)
    requires code <= 1
    ensures FlowCode(flow) == code
  {
    if code == 0 then Render else Capture
  }

  function AvailabilityOf(code: Byte): (a: Availability)
    requires code <= 3
    ensures AvailabilityCode(a) == code
  {
    match code
    case 0 => Active
    case 1 => Disabled
    case 2 => Unplugged
    case _ => Unknown
  }

  /** The sizes and numbers that fit the entry layout. */
  predicate FitsEntry(d: DeviceCard) {
    && 1 <= |d.endpointId| <= MAX_ENDPOINT_BYTES
    && 1 <= |d.displayName| <= MAX_NAME_BYTES
    && (d.isDefault ==> d.availability == Active)
    && SupportedFormat(d)
  }

  /** What the encoder demands of one device on its own. */
  predicate EncodableEntry(d: DeviceCard) {
    FitsEntry(d) && Printable(d.endpointId) && Printable(d.displayName)
  }

  ghost predicate Encodable(devices: seq<DeviceCard>, sequence: UInt64) {
    && sequence != 0
    && |devices| <= CAPACITY
    && AllEncodable(devices)
    && UniqueIds(devices)
    && OneDefaultPerFlow(devices)
  }

  function EntryPrefix(d: DeviceCard): (b: seq<Byte>)
    requires FitsEntry(d)
    ensures |b| == 8
  {
    U16(|d.endpointId|) + U16(|d.displayName|) + [FlowCode(d.flow), AvailabilityCode(d.availability)]
    + U16(if d.isDefault then 1 else 0)
  }

  function EntryFormat(d: DeviceCard): (b: seq<Byte>)
    requires FitsEntry(d)
    ensures |b| == 20
  {
    U32(d.channels) + U32(d.sampleRate) + U32(d.bufferFrames) + U64(d.lastSequence)
  }

  function Entry(d: DeviceCard): (b: seq<Byte>)
    requires FitsEntry(d)
    ensures |b| == ENTRY_BYTES
  {
    EntryPrefix(d) + Field(d.endpointId, 260) + Field(d.displayName, 128) + EntryFormat(d)
  }

  ghost predicate AllEncodable(devices: seq<DeviceCard>) {
    forall i :: 0 <= i < |devices| ==> EncodableEntry(devices[i])
  }

  function EncodedEntries(devices: seq<DeviceCard>): (r: seq<seq<Byte>>)
    requires AllEncodable(devices)
    ensures |r| == |devices| && Sized(r, 416)
  {
    seq(|devices|, i requires 0 <= i < |devices| => Entry(devices[i]))
  }

  function Header(count: nat, sequence: UInt64): (b: seq<Byte>)
    requires count <= CAPACITY
    ensures |b| == SNAPSHOT_HEADER_BYTES
  {
    U16(count) + Zeros(2) + U64(sequence) + Zeros(4)
  }

  function Snapshot(devices: seq<DeviceCard>, sequence: UInt64): (b: seq<Byte>)
    requires |devices| <= CAPACITY && AllEncodable(devices)
    ensures |b| == SNAPSHOT_HEADER_BYTES + 416 * |devices|
  {
    JoinedLength(EncodedEntries(devices), 416);
    Header(|devices|, sequence) + Joined(EncodedEntries(devices))
  }

  /** The number checks of one entry: lengths, enumerations, flags and format. */
  predicate NumbersAccepted(e: seq<Byte>)
    requires |e| == ENTRY_BYTES
  {
    && 1 <= ReadU16(e[0..2]) <= MAX_ENDPOINT_BYTES
    && 1 <= ReadU16(e[2..4]) <= MAX_NAME_BYTES
    && e[4] <= 1 && e[5] <= 3 && ReadU16(e[6..8]) <= 1
    && SupportedChannels(ReadU32(e[396..400]))
    && SupportedRate(ReadU32(e[400..404]))
    && 16 <= ReadU32(e[404..408]) <= 4096
    && (ReadU16(e[6..8]) == 1 ==> e[5] == AvailabilityCode(Active))
  }

  predicate TextsAccepted(e: seq<Byte>)
    requires |e| == ENTRY_BYTES && NumbersAccepted(e)
  {
    TextField(e, 8, ReadU16(e[0..2]), 268) && TextField(e, 268, ReadU16(e[2..4]), 396)
  }

  function EntryValue(e: seq<Byte>): DeviceCard
    requires |e| == ENTRY_BYTES && NumbersAccepted(e)
  {
    DeviceCard(e[8..8 + ReadU16(e[0..2])], e[268..268 + ReadU16(e[2..4])], FlowOf(e[4]), AvailabilityOf(e[5]),
               ReadU32(e[396..400]), ReadU32(e[400..404]), ReadU32(e[404..408]),
               ReadU16(e[6..8]) == 1, ReadU64(e[408..416]))
  }

  /** Reads one entry, refusing any byte the encoder would not have written. */
  function ParseEntry(e: seq<Byte>): (r: Option<DeviceCard>)
  {
    if |e| == ENTRY_BYTES && NumbersAccepted(e) && TextsAccepted(e) then Some(EntryValue(e)) else None
  }

  const ENTRY_PARSER: seq<Byte> -> Option<DeviceCard> := ParseEntry

  /** The bytes of an entry, field by field. */
  ghost predicate HasFields(e: seq<Byte>, d: DeviceCard)
    requires |e| == ENTRY_BYTES && FitsEntry(d)
  {
    && e[0..2] == U16(|d.endpointId|)
    && e[2..4] == U16(|d.displayName|)
    && e[4..6] == [FlowCode(d.flow), AvailabilityCode(d.availability)]
    && e[6..8] == U16(if d.isDefault then 1 else 0)
    && e[8..268] == Field(d.endpointId, 260)
    && e[268..396] == Field(d.displayName, 128)
    && e[396..400] == U32(d.channels)
    && e[400..404] == U32(d.sampleRate)
    && e[404..408] == U32(d.bufferFrames)
    && e[408..416] == U64(d.lastSequence)
  }

  lemma EntryFromFields(e: seq<Byte>, d: DeviceCard)
    requires |e| == ENTRY_BYTES && FitsEntry(d) && HasFields(e, d)
    ensures Entry(d) == e
  {
    FourCuts(e, 2, 4, 6, 8);
    assert e[..8] == EntryPrefix(d);
    FourCuts(e[396..], 4, 8, 12, 20);
    Cuts(e, 396);
    assert e[396..] == EntryFormat(d);
    FourCuts(e, 8, 268, 396, 416);
  }

  /** Cuts of a tail are cuts of the whole. */
  lemma Cuts(e: seq<Byte>, at: nat)
    requires at + 20 == |e|
    ensures e[at..][0..4] == e[at..at + 4] && e[at..][4..8] == e[at + 4..at + 8]
    ensures e[at..][8..12] == e[at + 8..at + 12] && e[at..][12..20] == e[at + 12..at + 20]
    ensures e[at..][..20] == e[at..] == e[at..|e|] && e[..|e|] == e
  {
  }

  lemma EntryHasFields(d: DeviceCard)
    requires FitsEntry(d)
    ensures HasFields(Entry(d), d)
  {
    var e := Entry(d);
    FourFields(e, EntryPrefix(d), Field(d.endpointId, 260), Field(d.displayName, 128), EntryFormat(d));
    FourFields(EntryFormat(d), U32(d.channels), U32(d.sampleRate), U32(d.bufferFrames), U64(d.lastSequence));
    FourFields(e, U16(|d.endpointId|), U16(|d.displayName|), [FlowCode(d.flow), AvailabilityCode(d.availability)],
               U16(if d.isDefault then 1 else 0)) by {
      assert EntryPrefix(d) == e[0..8];
    }
    Cuts(e, 396);
  }

  lemma AcceptedFits(e: seq<Byte>)
    requires |e| == ENTRY_BYTES && NumbersAccepted(e)
    ensures FitsEntry(EntryValue(e))
  {
  }

  lemma AcceptedNumbers(e: seq<Byte>)
    requires |e| == ENTRY_BYTES && NumbersAccepted(e)
    ensures var d := EntryValue(e);
            && |d.endpointId| == ReadU16(e[0..2]) && |d.displayName| == ReadU16(e[2..4])
            && e[4..6] == [FlowCode(d.flow), AvailabilityCode(d.availability)]
            && ReadU16(e[6..8]) == if d.isDefault then 1 else 0
  {
    assert e[4..6] == [e[4], e[5]];
  }

  lemma AcceptedHasFields(e: seq<Byte>)
    requires |e| == ENTRY_BYTES && NumbersAccepted(e) && FitsEntry(EntryValue(e))
    requires TextField(e, 8, |EntryValue(e).endpointId|, 268)
    requires TextField(e, 268, |EntryValue(e).displayName|, 396)
    ensures HasFields(e, EntryValue(e))
  {
    AcceptedNumbers(e);
    FieldOfText(e, 8, |EntryValue(e).endpointId|, 268);
    FieldOfText(e, 268, |EntryValue(e).displayName|, 396);
  }

  /** An accepted entry is byte for byte what the encoder writes for the decoded device. */
  lemma EntryIsCanonical(e: seq<Byte>, d: DeviceCard)
    requires ParseEntry(e) == Some(d)
    ensures |e| == ENTRY_BYTES && EncodableEntry(d) && Entry(d) == e
  {
    AcceptedFits(e);
    AcceptedNumbers(e);
    AcceptedHasFields(e);
    EntryFromFields(e, d);
  }

  lemma NumbersAreReadBack(e: seq<Byte>, d: DeviceCard)
    requires |e| == ENTRY_BYTES && FitsEntry(d) && HasFields(e, d)
    ensures ReadU16(e[0..2]) == |d.endpointId| && ReadU16(e[2..4]) == |d.displayName|
    ensures e[4] == FlowCode(d.flow) && e[5] == AvailabilityCode(d.availability)
    ensures ReadU16(e[6..8]) == if d.isDefault then 1 else 0
    ensures ReadU32(e[396..400]) == d.channels && ReadU32(e[400..404]) == d.sampleRate
    ensures ReadU32(e[404..408]) == d.bufferFrames && ReadU64(e[408..416]) == d.lastSequence
  {
    assert e[4] == e[4..6][0] && e[5] == e[4..6][1];
    U16RoundTrip(|d.endpointId|);
    U16RoundTrip(|d.displayName|);
    U16RoundTrip(if d.isDefault then 1 else 0);
    U32RoundTrip(d.channels);
    U32RoundTrip(d.sampleRate);
    U32RoundTrip(d.bufferFrames);
    U64RoundTrip(d.lastSequence);
  }

  lemma ValueIsReadBack(e: seq<Byte>, d: DeviceCard)
    requires |e| == ENTRY_BYTES && FitsEntry(d) && HasFields(e, d)
    requires e[8..8 + |d.endpointId|] == d.endpointId && e[268..268 + |d.displayName|] == d.displayName
    ensures NumbersAccepted(e) && EntryValue(e) == d
  {
    NumbersAreReadBack(e, d);
  }

  lemma EntryIsReadBack(d: DeviceCard)
    requires EncodableEntry(d)
    ensures ParseEntry(Entry(d)) == Some(d)
  {
    var e := Entry(d);
    EntryHasFields(d);
    TextOfField(e, 8, d.endpointId, 268);
    TextOfField(e, 268, d.displayName, 396);
    ValueIsReadBack(e, d);
    assert TextsAccepted(e) by {
      NumbersAreReadBack(e, d);
    }
  }

  lemma EntriesAreCanonical(body: seq<Byte>, count: nat)
    requires |body| == 416 * count && ParseAll(body, 416, count, count, ENTRY_PARSER).Some?
    ensures var devices := ParseAll(body, 416, count, count, ENTRY_PARSER).value;
            AllEncodable(devices) && Joined(EncodedEntries(devices)) == body
  {
    var devices := ParseAll(body, 416, count, count, ENTRY_PARSER).value;
    forall i | 0 <= i < count
      ensures EncodableEntry(devices[i]) && RecordAt(body, 416, i, count) == Entry(devices[i])
    {
      ParsedItemAt(body, 416, count, count, ParseEntry, i);
      EntryIsCanonical(RecordAt(body, 416, i, count), devices[i]);
    }
    JoinedFromRecords(body, 416, EncodedEntries(devices));
  }

  lemma EntriesAreReadBack(devices: seq<DeviceCard>)
    requires AllEncodable(devices)
    ensures var body := Joined(EncodedEntries(devices));
            && |body| == 416 * |devices|
            && ParseAll(body, 416, |devices|, |devices|, ENTRY_PARSER) == Some(devices)
  {
    var records := EncodedEntries(devices);
    forall i | 0 <= i < |devices| ensures ParseEntry(records[i]) == Some(devices[i]) {
      EntryIsReadBack(devices[i]);
    }
    ParsesJoined(devices, |devices|, 416, records, ENTRY_PARSER);
    assert devices[..|devices|] == devices;
  }

  datatype DecodedSnapshot = DecodedSnapshot(sequence: UInt64, devices: seq<DeviceCard>)

  /** The checks on length, count, padding and sequence that precede the entries. */
  predicate HeaderAccepted(p: seq<Byte>) {
    && SNAPSHOT_HEADER_BYTES <= |p| <= MAX_BYTES
    && IsZero(p, 2, 4) && IsZero(p, 12, 16)
    && ReadU16(p[0..2]) <= CAPACITY
    && |p| == SNAPSHOT_HEADER_BYTES + 416 * ReadU16(p[0..2])
    && ReadU64(p[4..12]) != 0
  }

  /** The entries, when every one parses and none repeats an id or a default. */
  function AcceptedEntries(body: seq<Byte>, count: nat): Option<seq<DeviceCard>>
    requires |body| == 416 * count
  {
    match ParseAll(body, 416, count, count, ENTRY_PARSER)
    case None => None
    case Some(devices) => if ScanOf(devices, count).Some? then Some(devices) else None
  }

  function Decoded(p: seq<Byte>): (r: Option<DecodedSnapshot>) {
    if !HeaderAccepted(p) then None
    else
      match AcceptedEntries(p[SNAPSHOT_HEADER_BYTES..], ReadU16(p[0..2]))
      case None => None
      case Some(devices) => Some(DecodedSnapshot(ReadU64(p[4..12]), devices))
  }

  lemma HeaderIsCanonical(p: seq<Byte>)
    requires HeaderAccepted(p)
    ensures p[..16] == Header(ReadU16(p[0..2]), ReadU64(p[4..12]))
  {
    PaddingIsZeros(p, 2, 4);
    PaddingIsZeros(p, 12, 16);
    FourCuts(p, 2, 4, 12, 16);
  }

  /** Accepting bytes means accepting exactly what the encoder writes for the decoded snapshot. */
  lemma DecodingIsCanonical(p: seq<Byte>)
    ensures var d := Decoded(p);
            d.Some? ==> Encodable(d.value.devices, d.value.sequence) && Snapshot(d.value.devices, d.value.sequence) == p
  {
    if Decoded(p).Some? {
      var v := Decoded(p).value;
      var body := p[SNAPSHOT_HEADER_BYTES..];
      EntriesAreCanonical(body, |v.devices|);
      WholeScan(v.devices);
      HeaderIsCanonical(p);
      assert p == p[..16] + body;
    }
  }

  lemma HeaderFields(count: nat, sequence: UInt64, p: seq<Byte>)
    requires count <= CAPACITY && Header(count, sequence) <= p
    ensures ReadU16(p[0..2]) == count && ReadU64(p[4..12]) == sequence
    ensures IsZero(p, 2, 4) && IsZero(p, 12, 16)
  {
    FourFields(p, U16(count), Zeros(2), U64(sequence), Zeros(4));
    U16RoundTrip(count);
    U64RoundTrip(sequence);
    PaddingIsZeros(p, 2, 4);
    PaddingIsZeros(p, 12, 16);
  }

  /** Every snapshot the encoder accepts is decoded to itself. */
  lemma SnapshotIsReadBack(devices: seq<DeviceCard>, sequence: UInt64)
    requires Encodable(devices, sequence)
    ensures Decoded(Snapshot(devices, sequence)) == Some(DecodedSnapshot(sequence, devices))
  {
    var p := Snapshot(devices, sequence);
    HeaderFields(|devices|, sequence, p);
    assert p[SNAPSHOT_HEADER_BYTES..] == Joined(EncodedEntries(devices));
    EntriesAreReadBack(devices);
    WholeScan(devices);
  }

  /** Writes one entry behind what the payload already holds. */
  method WriteEntry(payload: array<Byte>, offset: nat, d: DeviceCard, ghost built: seq<Byte>)
    requires FitsEntry(d) && Written(payload, built)
    requires |built| == offset && offset + ENTRY_BYTES <= payload.Length
    modifies payload
    ensures Written(payload, built + Entry(d))
  {
    PutFour(payload, offset, U16(|d.endpointId|), U16(|d.displayName|),
            [FlowCode(d.flow), AvailabilityCode(d.availability)], U16(if d.isDefault then 1 else 0), built);
    PutTexts(payload, offset + 8, d.endpointId, 260, d.displayName, 128, built + EntryPrefix(d));
    ghost var texts := Field(d.endpointId, 260) + Field(d.displayName, 128);
    PutFour(payload, offset + 396, U32(d.channels), U32(d.sampleRate), U32(d.bufferFrames), U64(d.lastSequence),
            built + EntryPrefix(d) + texts);
    Regroup(built, EntryPrefix(d), Field(d.endpointId, 260), Field(d.displayName, 128), EntryFormat(d));
  }

  lemma EncodedOneMore(devices: seq<DeviceCard>, d: DeviceCard)
    requires AllEncodable(devices) && EncodableEntry(d)
    ensures AllEncodable(devices + [d])
    ensures EncodedEntries(devices + [d]) == EncodedEntries(devices) + [Entry(d)]
  {
  }

  method WriteHeader(payload: array<Byte>, count: nat, sequence: UInt64)
    requires count <= CAPACITY && Written(payload, []) && payload.Length >= SNAPSHOT_HEADER_BYTES
    modifies payload
    ensures Written(payload, Header(count, sequence))
  {
    PutFour(payload, 0, U16(count), Zeros(2), U64(sequence), Zeros(4), []);
    assert [] + Header(count, sequence) == Header(count, sequence);
  }

  /** The payload once the first `count` entries have been written. */
  ghost function Progress(devices: seq<DeviceCard>, count: nat, sequence: UInt64): seq<Byte>
    requires |devices| <= CAPACITY && count <= |devices| && AllEncodable(devices[..count])
  {
    Header(|devices|, sequence) + Joined(EncodedEntries(devices[..count]))
  }

  lemma ProgressStep(devices: seq<DeviceCard>, count: nat, sequence: UInt64)
    requires |devices| <= CAPACITY && count < |devices|
    requires AllEncodable(devices[..count]) && EncodableEntry(devices[count])
    ensures AllEncodable(devices[..count + 1])
    ensures |Progress(devices, count, sequence)| == SNAPSHOT_HEADER_BYTES + 416 * count
    ensures Progress(devices, count + 1, sequence) == Progress(devices, count, sequence) + Entry(devices[count])
  {
    assert devices[..count + 1] == devices[..count] + [devices[count]];
    EncodedOneMore(devices[..count], devices[count]);
    JoinedLength(EncodedEntries(devices[..count]), 416);
    JoinedOneMore(Header(|devices|, sequence), EncodedEntries(devices[..count]), Entry(devices[count]));
  }

  method WriteNext(payload: array<Byte>, devices: seq<DeviceCard>, index: nat, sequence: UInt64)
    requires |devices| <= CAPACITY && index < |devices|
    requires AllEncodable(devices[..index]) && EncodableEntry(devices[index])
    requires payload.Length == SNAPSHOT_HEADER_BYTES + 416 * |devices|
    requires Written(payload, Progress(devices, index, sequence))
    modifies payload
    ensures AllEncodable(devices[..index + 1])
    ensures Written(payload, Progress(devices, index + 1, sequence))
  {
    ProgressStep(devices, index, sequence);
    WriteEntry(payload, SNAPSHOT_HEADER_BYTES + 416 * index, devices[index], Progress(devices, index, sequence));
  }

  lemma ProgressEnds(devices: seq<DeviceCard>, sequence: UInt64)
    requires |devices| <= CAPACITY && AllEncodable(devices[..|devices|])
    ensures AllEncodable(devices) && Progress(devices, |devices|, sequence) == Snapshot(devices, sequence)
  {
    assert devices[..|devices|] == devices;
  }

  /** Encodes a device snapshot, or refuses one that breaks the v1 contract. */
  method EncodeSnapshot(devices: seq<DeviceCard>, sequence: UInt64) returns (r: Option<array<Byte>>)
    ensures r.Some? <==> Encodable(devices, sequence)
    ensures r.Some? ==> fresh(r.value) && r.value[..] == Snapshot(devices, sequence)
  {
    if sequence == 0 || |devices| > CAPACITY {
      return None;
    }
    var payload := new Byte[SNAPSHOT_HEADER_BYTES + 416 * |devices|](_ => 0);
    assert [] + Zeros(payload.Length) == payload[..];
    WriteHeader(payload, |devices|, sequence);
    var scan := Scan({}, {});
    for index := 0 to |devices|
      invariant ScanOf(devices, index) == Some(scan)
      invariant AllEncodable(devices[..index])
      invariant Written(payload, Progress(devices, index, sequence))
    {
      var d := devices[index];
      if !EncodableEntry(d) {
        return None;
      }
      if !IsNew(d, scan) {
        ScanStaysNone(devices, index + 1, |devices|);
        WholeScan(devices);
        return None;
      }
      scan := Seen(d, scan);
      WriteNext(payload, devices, index, sequence);
    }
    WholeScan(devices);
    ProgressEnds(devices, sequence);
    assert payload[..] == Snapshot(devices, sequence) + Zeros(0);
    return Some(payload);
  }

  /** Decodes one entry: numbers first, then the padding, then the texts. */
  method DecodeEntry(entry: seq<Byte>) returns (r: Option<DeviceCard>)
    requires |entry| == ENTRY_BYTES
    ensures r == ParseEntry(entry)
  {
    if !NumbersAccepted(entry) {
      return None;
    }
    var endpoint := CheckTextField(entry, 8, ReadU16(entry[0..2]), 268);
    var display := CheckTextField(entry, 268, ReadU16(entry[2..4]), 396);
    if !endpoint || !display {
      return None;
    }
    return Some(EntryValue(entry));
  }

  lemma ParsedOneMore(body: seq<Byte>, count: nat, devices: seq<DeviceCard>, parsed: Option<DeviceCard>)
    requires |body| == 416 * count && |devices| < count
    requires ParseAll(body, 416, |devices|, count, ENTRY_PARSER) == Some(devices)
    requires parsed == ParseEntry(RecordAt(body, 416, |devices|, count))
    ensures parsed.Some? ==> ParseAll(body, 416, |devices| + 1, count, ENTRY_PARSER) == Some(devices + [parsed.value])
    ensures parsed.None? ==> AcceptedEntries(body, count).None?
  {
    if parsed.None? {
      RefusalStays(body, 416, |devices| + 1, count, ENTRY_PARSER);
    }
  }

  lemma RoundDecides(body: seq<Byte>, count: nat, devices: seq<DeviceCard>, scan: Scan, card: DeviceCard)
    requires |body| == 416 * count && |devices| < count
    requires ParseAll(body, 416, |devices| + 1, count, ENTRY_PARSER) == Some(devices + [card])
    requires ScanOf(devices, |devices|) == Some(scan)
    ensures IsNew(card, scan) ==> ScanOf(devices + [card], |devices| + 1) == Some(Seen(card, scan))
    ensures !IsNew(card, scan) ==> AcceptedEntries(body, count).None?
  {
    ScanOfPrefix(devices, devices + [card], |devices|);
    if !IsNew(card, scan) {
      RepetitionIsRefused(body, count, devices + [card]);
    }
  }

  /** One round of the decoding loop: the next entry, refused when it repeats an id or a default. */
  method DecodeNext(body: seq<Byte>, count: nat, devices: seq<DeviceCard>, scan: Scan)
    returns (r: Option<(seq<DeviceCard>, Scan)>)
    requires |body| == 416 * count && |devices| < count
    requires ParseAll(body, 416, |devices|, count, ENTRY_PARSER) == Some(devices)
    requires ScanOf(devices, |devices|) == Some(scan)
    ensures r.Some? ==> |r.value.0| == |devices| + 1
    ensures r.Some? ==> ParseAll(body, 416, |devices| + 1, count, ENTRY_PARSER) == Some(r.value.0)
    ensures r.Some? ==> ScanOf(r.value.0, |devices| + 1) == Some(r.value.1)
    ensures r.None? ==> AcceptedEntries(body, count).None?
  {
    var decoded := DecodeEntry(RecordAt(body, 416, |devices|, count));
    ParsedOneMore(body, count, devices, decoded);
    if decoded.None? {
      return None;
    }
    var more := devices + [decoded.value];
    RoundDecides(body, count, devices, scan, decoded.value);
    if !IsNew(decoded.value, scan) {
      return None;
    }
    return Some((more, Seen(decoded.value, scan)));
  }

  lemma AcceptedWhenComplete(body: seq<Byte>, count: nat, devices: seq<DeviceCard>, scan: Scan)
    requires |body| == 416 * count
    requires ParseAll(body, 416, count, count, ENTRY_PARSER) == Some(devices)
    requires ScanOf(devices, count) == Some(scan)
    ensures AcceptedEntries(body, count) == Some(devices)
  {
  }

  /** Decodes the entries one by one. */
  method DecodeEntries(body: seq<Byte>, count: nat) returns (r: Option<seq<DeviceCard>>)
    requires |body| == 416 * count
    ensures r == AcceptedEntries(body, count)
  {
    var devices: seq<DeviceCard> := [];
    var scan := Scan({}, {});
    for index := 0 to count
      invariant |devices| == index
      invariant ParseAll(body, 416, index, count, ENTRY_PARSER) == Some(devices)
      invariant ScanOf(devices, index) == Some(scan)
    {
      var next := DecodeNext(body, count, devices, scan);
      if next.None? {
        return None;
      }
      devices, scan := next.value.0, next.value.1;
    }
    AcceptedWhenComplete(body, count, devices, scan);
    return Some(devices);
  }

  method TryDecode(payload: seq<Byte>) returns (r: Option<DecodedSnapshot>)
    ensures r == Decoded(payload)
  {
    if !HeaderAccepted(payload) {
      return None;
    }
    var devices := DecodeEntries(payload[SNAPSHOT_HEADER_BYTES..], ReadU16(payload[0..2]));
    if devices.None? {
      return None;
    }
    return Some(DecodedSnapshot(ReadU64(payload[4..12]), devices.value));
  }

  lemma RepetitionIsRefused(body: seq<Byte>, count: nat, devices: seq<DeviceCard>)
    requires |body| == 416 * count && |devices| <= count
    requires ParseAll(body, 416, |devices|, count, ENTRY_PARSER) == Some(devices)
    requires ScanOf(devices, |devices|).None?
    ensures AcceptedEntries(body, count).None?
  {
    var all := ParseAll(body, 416, count, count, ENTRY_PARSER);
    if all.Some? {
      ParseAllExtends(body, 416, |devices|, count, ENTRY_PARSER);
      ScanOfPrefix(devices, all.value, |devices|);
      ScanStaysNone(all.value, |devices|, count);
    }
  }
}

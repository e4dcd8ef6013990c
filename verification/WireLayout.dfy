/** Where each number and text lies on the wire, byte by byte, least significant byte first. */
module WireLayout {
  import opened Bytes
  import opened Decibels
  import opened Records
  import opened Wrappers
  import IpcCodec
  import DeviceCatalog
  import Device = DeviceCatalogPayload
  import Rule = RouteRulePayload
  import Status = ControlStatusPayload

  function Digit(b: seq<Byte>, i: nat): int
    requires i < |b|
  {
    b[i]
  }

  predicate Holds2(b: seq<Byte>, at: nat, value: int) {
    at + 2 <= |b| && Digit(b, at) + 0x100 * Digit(b, at + 1) == value
  }

  predicate Holds4(b: seq<Byte>, at: nat, value: int) {
    && at + 4 <= |b|
    && Digit(b, at) + 0x100 * Digit(b, at + 1) + 0x1_0000 * Digit(b, at + 2) + 0x100_0000 * Digit(b, at + 3) == value
  }

  predicate Holds8(b: seq<Byte>, at: nat, value: int) {
    && 0 <= value < 0x1_0000_0000_0000_0000
    && Holds4(b, at, value % 0x1_0000_0000) && Holds4(b, at + 4, value / 0x1_0000_0000)
  }

  /** Two's complement. */
  predicate HoldsSigned4(b: seq<Byte>, at: nat, value: int) {
    Holds4(b, at, value) || Holds4(b, at, value + 0x1_0000_0000)
  }

  /** The text, and zeros up to the end of its field. */
  predicate HoldsText(b: seq<Byte>, at: nat, text: seq<Byte>, end: nat) {
    at + |text| <= end <= |b| && b[at..at + |text|] == text && forall i :: at + |text| <= i < end ==> b[i] == 0
  }

  lemma Number2(s: seq<Byte>)
    requires |s| == 2
    ensures Holds2(s, 0, FromLittleEndian(s))
  {
    assert s == [s[0]] + s[1..] && s[1..][1..] == [];
  }

  lemma Number4(s: seq<Byte>)
    requires |s| == 4
    ensures Holds4(s, 0, FromLittleEndian(s))
  {
    Number2(s[2..]);
    assert s[1..][1..] == s[2..];
    assert FromLittleEndian(s) == Digit(s, 0) + 256 * (Digit(s, 1) + 256 * FromLittleEndian(s[2..]));
  }

  lemma Number8(s: seq<Byte>)
    requires |s| == 8
    ensures Holds8(s, 0, FromLittleEndian(s))
  {
    Ranges();
    Number4(s[..4]);
    Number4(s[4..]);
    TakeFour(s);
    Halves(FromLittleEndian(s), FromLittleEndian(s[..4]), FromLittleEndian(s[4..]));
  }

  lemma Halves(value: nat, low: nat, high: nat)
    requires low < 0x1_0000_0000 && high < 0x1_0000_0000 && value == low + 0x1_0000_0000 * high
    ensures value % 0x1_0000_0000 == low && value / 0x1_0000_0000 == high && value < 0x1_0000_0000_0000_0000
  {
  }

  lemma TakeFour(s: seq<Byte>)
    requires |s| == 8
    ensures FromLittleEndian(s) == FromLittleEndian(s[..4]) + 0x1_0000_0000 * FromLittleEndian(s[4..])
  {
    Joins(s, 4);
    Ranges();
  }

  lemma {:induction false} Joins(s: seq<Byte>, k: nat)
    requires k <= |s|
    ensures FromLittleEndian(s) == FromLittleEndian(s[..k]) + Range(k) * FromLittleEndian(s[k..])
    decreases k
  {
    if k == 0 {
      assert s[0..] == s;
    } else {
      Joins(s[1..], k - 1);
      assert s[..k][1..] == s[1..][..k - 1] && s[1..][k - 1..] == s[k..];
      Horner(s[0], FromLittleEndian(s[1..][..k - 1]), Range(k - 1), FromLittleEndian(s[k..]));
      assert FromLittleEndian(s[..k]) == s[0] + 256 * FromLittleEndian(s[..k][1..]);
    }
  }

  lemma Horner(first: int, low: int, r: int, high: int)
    ensures first + 256 * (low + r * high) == first + 256 * low + 256 * r * high
  {
  }

  lemma U16Lies(b: seq<Byte>, at: nat, v: nat)
    requires v < UINT16_LIMIT && at + 2 <= |b| && b[at..at + 2] == U16(v)
    ensures Holds2(b, at, v)
  {
    U16RoundTrip(v);
    Number2(U16(v));
    assert forall i :: 0 <= i < 2 ==> b[at + i] == U16(v)[i];
  }

  lemma U32Lies(b: seq<Byte>, at: nat, v: nat)
    requires v < UINT32_LIMIT && at + 4 <= |b| && b[at..at + 4] == U32(v)
    ensures Holds4(b, at, v)
  {
    U32RoundTrip(v);
    Number4(U32(v));
    assert forall i :: 0 <= i < 4 ==> b[at + i] == U32(v)[i];
  }

  lemma I32Lies(b: seq<Byte>, at: nat, v: int)
    requires INT32_MIN <= v <= INT32_MAX && at + 4 <= |b| && b[at..at + 4] == I32(v)
    ensures HoldsSigned4(b, at, v)
  {
    U32Lies(b, at, Unsigned32(v));
  }

  lemma U64Lies(b: seq<Byte>, at: nat, v: nat)
    requires v < UINT64_LIMIT && at + 8 <= |b| && b[at..at + 8] == U64(v)
    ensures Holds8(b, at, v)
  {
    U64RoundTrip(v);
    Number8(U64(v));
    assert forall i :: 0 <= i < 8 ==> b[at + i] == U64(v)[i];
  }

  lemma Cut(b: seq<Byte>, at: nat, end: nat)
    requires at <= end <= |b|
    ensures forall i :: at <= i < end ==> b[i] == b[at..end][i - at]
  {
  }

  lemma TextLies(b: seq<Byte>, at: nat, text: seq<Byte>, end: nat)
    requires at + |text| <= end <= |b| && b[at..end] == Field(text, end - at)
    ensures HoldsText(b, at, text, end)
  {
    FieldParts(b, at, text, end);
  }

  // The envelope and its frame.

  lemma EnvelopeLayout(e: IpcCodec.Envelope)
    requires IpcCodec.Encodable(e)
    ensures var b := IpcCodec.Encoded(e);
            && b[..4] == [0x48, 0x49, 0x4B, 0x31] && Holds2(b, 4, 1) && Holds2(b, 6, e.messageType)
            && Holds4(b, 8, |e.payload|) && Holds8(b, 12, e.requestId) && b[20..] == e.payload
  {
    var b := IpcCodec.Encoded(e);
    IpcCodec.HeaderFields(e, b);
    U32Lies(b, 0, IpcCodec.MAGIC);
    U16Lies(b, 4, IpcCodec.VERSION);
    U16Lies(b, 6, e.messageType);
    U32Lies(b, 8, |e.payload|);
    U64Lies(b, 12, e.requestId);
  }

  lemma FrameLayout(e: IpcCodec.Envelope)
    requires IpcCodec.Encodable(e)
    ensures var f := IpcCodec.Frame(e);
            Holds4(f, 0, 20 + |e.payload|) && f[4..] == IpcCodec.Encoded(e)
  {
    U32Lies(IpcCodec.Frame(e), 0, 20 + |e.payload|);
  }

  lemma ReadsTwo(b: seq<Byte>, at: nat)
    requires at + 2 <= |b|
    ensures Holds2(b, at, ReadU16(b[at..at + 2]))
  {
    U16Lies(b, at, ReadU16(b[at..at + 2]));
  }

  lemma ReadsFour(b: seq<Byte>, at: nat)
    requires at + 4 <= |b|
    ensures Holds4(b, at, ReadU32(b[at..at + 4]))
  {
    U32Lies(b, at, ReadU32(b[at..at + 4]));
  }

  /** Why an envelope is refused, the first fault deciding. */
  lemma EnvelopeRefusals(b: seq<Byte>)
    ensures IpcCodec.Decode(b)
            == if |b| < 20 then Err(IpcCodec.Truncated)
               else if !Holds4(b, 0, 0x314B_4948) then Err(IpcCodec.InvalidMagic)
               else if !Holds2(b, 4, 1) then Err(IpcCodec.UnsupportedVersion)
               else if !(1 <= ReadU16(b[6..8]) <= 23) then Err(IpcCodec.InvalidType)
               else if ReadU32(b[8..12]) > 0x10_0000 then Err(IpcCodec.OversizedPayload)
               else if !Holds4(b, 8, |b| - 20) then Err(IpcCodec.LengthMismatch)
               else Ok(IpcCodec.Envelope(ReadU16(b[6..8]), ReadU64(b[12..20]), b[20..]))
  {
    if |b| >= 20 {
      ReadsFour(b, 0);
      ReadsTwo(b, 4);
      ReadsFour(b, 8);
    }
  }

  /** Why a frame is refused, and what is left of the stream. */
  lemma FrameRefusals(stream: seq<Byte>)
    ensures var r := IpcCodec.NextFrame(stream);
            && (|stream| < 4 ==> r == IpcCodec.Read(Err(IpcCodec.Closed), []))
            && (|stream| >= 4 ==>
                  var length := ReadU32(stream[..4]);
                  && Holds4(stream, 0, length)
                  && (r.outcome == Err(IpcCodec.InvalidLength) <==> !(20 <= length <= 20 + 0x10_0000))
                  && (r.outcome == Err(IpcCodec.Closed) <==> 20 <= length <= 20 + 0x10_0000 && |stream| < 4 + length)
                  && (20 <= length <= 20 + 0x10_0000 && |stream| >= 4 + length ==>
                        && r.rest == stream[4 + length..]
                        && r.outcome == match IpcCodec.Decode(stream[4..4 + length])
                                        case Ok(e) => Ok(e)
                                        case Err(error) => Err(IpcCodec.Undecodable(error))))
  {
    if |stream| >= 4 {
      ReadsFour(stream, 0);
      var length := ReadU32(stream[..4]);
      if |stream| >= 4 + length {
        assert stream[4..][..length] == stream[4..4 + length] && stream[4..][length..] == stream[4 + length..];
      }
    }
  }

  // The device snapshot.

  lemma SnapshotHeaderLayout(devices: seq<DeviceCatalog.DeviceCard>, sequence: UInt64)
    requires |devices| <= 32 && Device.AllEncodable(devices)
    ensures var p := Device.Snapshot(devices, sequence);
            && |p| == 16 + 416 * |devices| && Holds2(p, 0, |devices|) && Holds8(p, 4, sequence)
            && HoldsText(p, 2, [], 4) && HoldsText(p, 12, [], 16)
  {
    var p := Device.Snapshot(devices, sequence);
    FourFields(p, U16(|devices|), Zeros(2), U64(sequence), Zeros(4));
    U16Lies(p, 0, |devices|);
    U64Lies(p, 4, sequence);
    TextLies(p, 2, [], 4);
    TextLies(p, 12, [], 16);
  }

  predicate DeviceLies(e: seq<Byte>, d: DeviceCatalog.DeviceCard) {
    && |e| == 416
    && Holds2(e, 0, |d.endpointId|) && Holds2(e, 2, |d.displayName|)
    && e[4] == (match d.flow case Render => 0 case Capture => 1)
    && e[5] == (match d.availability case Active => 0 case Disabled => 1 case Unplugged => 2 case Unknown => 3)
    && e[6] == (if d.isDefault then 1 else 0) && e[7] == 0
    && HoldsText(e, 8, d.endpointId, 268) && HoldsText(e, 268, d.displayName, 396)
    && Holds4(e, 396, d.channels) && Holds4(e, 400, d.sampleRate) && Holds4(e, 404, d.bufferFrames)
    && Holds8(e, 408, d.lastSequence)
  }

  lemma DeviceNumbersLie(e: seq<Byte>, d: DeviceCatalog.DeviceCard)
    requires |e| == 416 && Device.FitsEntry(d) && Device.HasFields(e, d)
    ensures Holds2(e, 0, |d.endpointId|) && Holds2(e, 2, |d.displayName|)
    ensures e[6] == (if d.isDefault then 1 else 0) && e[7] == 0
    ensures Holds4(e, 396, d.channels) && Holds4(e, 400, d.sampleRate) && Holds4(e, 404, d.bufferFrames)
    ensures Holds8(e, 408, d.lastSequence)
  {
    U16Lies(e, 0, |d.endpointId|);
    U16Lies(e, 2, |d.displayName|);
    U16Lies(e, 6, if d.isDefault then 1 else 0);
    U32Lies(e, 396, d.channels);
    U32Lies(e, 400, d.sampleRate);
    U32Lies(e, 404, d.bufferFrames);
    U64Lies(e, 408, d.lastSequence);
  }

  lemma DeviceTextsLie(e: seq<Byte>, d: DeviceCatalog.DeviceCard)
    requires |e| == 416 && Device.FitsEntry(d) && Device.HasFields(e, d)
    ensures HoldsText(e, 8, d.endpointId, 268) && HoldsText(e, 268, d.displayName, 396)
    ensures e[4] == (match d.flow case Render => 0 case Capture => 1)
    ensures e[5] == (match d.availability case Active => 0 case Disabled => 1 case Unplugged => 2 case Unknown => 3)
  {
    TextLies(e, 8, d.endpointId, 268);
    TextLies(e, 268, d.displayName, 396);
    assert e[4] == e[4..6][0] && e[5] == e[4..6][1];
  }

  /** Device `i` of a snapshot fills the 416 bytes from 16 + 416 * i. */
  lemma DeviceEntryLayout(devices: seq<DeviceCatalog.DeviceCard>, sequence: UInt64, i: nat)
    requires |devices| <= 32 && Device.AllEncodable(devices) && i < |devices|
    ensures var p := Device.Snapshot(devices, sequence);
            16 + 416 * i + 416 <= |p| && DeviceLies(p[16 + 416 * i..16 + 416 * i + 416], devices[i])
  {
    var p := Device.Snapshot(devices, sequence);
    var body := Joined(Device.EncodedEntries(devices));
    JoinedRecordAt(Device.EncodedEntries(devices), 416, i);
    Offsets(416, i, |devices|);
    assert p[16..] == body;
    assert p[16 + 416 * i..16 + 416 * i + 416] == Device.Entry(devices[i]);
    Device.EntryHasFields(devices[i]);
    DeviceNumbersLie(Device.Entry(devices[i]), devices[i]);
    DeviceTextsLie(Device.Entry(devices[i]), devices[i]);
  }

  // The route-rule command.

  lemma CommandNumbersLayout(v: Rule.Command)
    requires Rule.Fits(v)
    ensures var p := Rule.Encoded(v);
            && |p| == 480 && Holds4(p, 0, v.schemaVersion) && HoldsSigned4(p, 4, v.priority)
            && HoldsSigned4(p, 8, ToQ16(v.makeupGainDb)) && Holds8(p, 16, v.catalogSequence)
            && p[12] == (match v.operation case Upsert => 1 case Remove => 2 case Clear => 3)
            && p[13] == (if v.enabled then 1 else 0)
            && p[14] == (match v.gainOwner case WindowsSession => 0 case HibikiInternal => 1) && p[15] == 0
  {
    var p := Rule.Encoded(v);
    Rule.EncodedHasFields(v);
    U32Lies(p, 0, v.schemaVersion);
    I32Lies(p, 4, v.priority);
    I32Lies(p, 8, ToQ16(v.makeupGainDb));
    U64Lies(p, 16, v.catalogSequence);
    Cut(p, 12, 16);
  }

  lemma CommandTextsLayout(v: Rule.Command)
    requires Rule.Fits(v)
    ensures var p := Rule.Encoded(v);
            && p[24] == |v.ruleId| && p[25] == |v.appId| && p[26] == |v.displayName|
            && p[27] == |v.laneId| && p[28] == |v.outputGroup| && p[29] == p[30] == p[31] == 0
            && HoldsText(p, 32, v.ruleId, 96) && HoldsText(p, 96, v.appId, 224) && HoldsText(p, 224, v.displayName, 352)
            && HoldsText(p, 352, v.laneId, 416) && HoldsText(p, 416, v.outputGroup, 480)
  {
    var p := Rule.Encoded(v);
    Rule.EncodedHasFields(v);
    Cut(p, 24, 32);
    TextLies(p, 32, v.ruleId, 96);
    TextLies(p, 96, v.appId, 224);
    TextLies(p, 224, v.displayName, 352);
    TextLies(p, 352, v.laneId, 416);
    TextLies(p, 416, v.outputGroup, 480);
  }

  // The status message.

  lemma StatusHeaderLayout(sequence: UInt64, volume: Status.Volume, routes: seq<Status.Route>)
    requires Status.IsValid(volume) && |routes| <= 8 && Status.AllEncodable(routes)
    ensures var p := Status.Encoded(sequence, volume, routes);
            && |p| == 40 + 224 * |routes| && Holds2(p, 0, |routes|) && HoldsText(p, 2, [], 4) && Holds8(p, 4, sequence)
            && HoldsSigned4(p, 12, ToQ16(volume.requestedDb)) && HoldsText(p, 36, [], 40)
  {
    var p := Status.Encoded(sequence, volume, routes);
    var counts := Status.Counts(|routes|, sequence, volume);
    FourFields(p, counts, Status.Levels(volume), Zeros(4), Joined(Status.EncodedEntries(routes)));
    FourFields(p, U16(|routes|), Zeros(2), U64(sequence), I32(ToQ16(volume.requestedDb)));
    U16Lies(p, 0, |routes|);
    U64Lies(p, 4, sequence);
    I32Lies(p, 12, ToQ16(volume.requestedDb));
    TextLies(p, 2, [], 4);
    TextLies(p, 36, [], 40);
  }

  lemma StatusLevelsLayout(sequence: UInt64, volume: Status.Volume, routes: seq<Status.Route>)
    requires Status.IsValid(volume) && |routes| <= 8 && Status.AllEncodable(routes)
    ensures var p := Status.Encoded(sequence, volume, routes);
            && HoldsSigned4(p, 16, ToQ16(volume.ceilingDb)) && HoldsSigned4(p, 20, ToQ16(volume.effectiveDb))
            && p[24] == (if volume.muted then 1 else 0)
            && p[25] == (match volume.origin
                         case Windows => 0 case HibikiUi => 1 case Safety => 2 case Scene => 3 case Session => 4)
            && p[26] == (match volume.actuator case InternalDsp => 0 case DeviceHardware => 1 case StrictDirect => 2)
            && p[27] == 0 && Holds8(p, 28, volume.generation)
  {
    var p := Status.Encoded(sequence, volume, routes);
    var codes: seq<Byte> := [if volume.muted then 1 else 0, Status.OriginCode(volume.origin),
                             Status.ActuatorCode(volume.actuator), 0];
    FourFields(p, Status.Counts(|routes|, sequence, volume), Status.Levels(volume), Zeros(4),
               Joined(Status.EncodedEntries(routes)));
    FourInside(p, 16, I32(ToQ16(volume.ceilingDb)), I32(ToQ16(volume.effectiveDb)), codes, U64(volume.generation));
    I32Lies(p, 16, ToQ16(volume.ceilingDb));
    I32Lies(p, 20, ToQ16(volume.effectiveDb));
    U64Lies(p, 28, volume.generation);
    Cut(p, 24, 28);
  }

  predicate RouteLies(e: seq<Byte>, r: Status.Route) {
    && |e| == 224
    && e[0] == |r.id|
    && e[1] == (match r.state case Ready => 0 case Pending => 1 case Degraded => 2 case Bypassed => 3
                              case Unavailable => 4)
    && e[2] == (if r.requiresUserAction then 1 else 0) && e[3] == 0
    && Holds2(e, 4, |r.name|) && Holds2(e, 6, |r.detail|)
    && HoldsText(e, 8, r.id, 40) && HoldsText(e, 40, r.name, 104) && HoldsText(e, 104, r.detail, 224)
  }

  lemma RouteFieldsLie(e: seq<Byte>, r: Status.Route)
    requires |e| == 224 && Status.FitsEntry(r) && Status.HasFields(e, r)
    ensures RouteLies(e, r)
  {
    Cut(e, 0, 2);
    U16Lies(e, 2, if r.requiresUserAction then 1 else 0);
    U16Lies(e, 4, |r.name|);
    U16Lies(e, 6, |r.detail|);
    TextLies(e, 8, r.id, 40);
    TextLies(e, 40, r.name, 104);
    TextLies(e, 104, r.detail, 224);
  }

  /** Route `i` of a status message fills the 224 bytes from 40 + 224 * i. */
  lemma RouteEntryLayout(sequence: UInt64, volume: Status.Volume, routes: seq<Status.Route>, i: nat)
    requires Status.IsValid(volume) && |routes| <= 8 && Status.AllEncodable(routes) && i < |routes|
    ensures var p := Status.Encoded(sequence, volume, routes);
            40 + 224 * i + 224 <= |p| && RouteLies(p[40 + 224 * i..40 + 224 * i + 224], routes[i])
  {
    var p := Status.Encoded(sequence, volume, routes);
    var body := Joined(Status.EncodedEntries(routes));
    JoinedRecordAt(Status.EncodedEntries(routes), 224, i);
    Offsets(224, i, |routes|);
    assert p[40..] == body;
    assert p[40 + 224 * i..40 + 224 * i + 224] == Status.Entry(routes[i]);
    Status.EntryHasFields(routes[i]);
    RouteFieldsLie(Status.Entry(routes[i]), routes[i]);
  }
}

/** The control status message: one volume safety state and up to eight route health entries. */
module ControlStatusPayload {
  import opened Bytes
  import opened Utf8
  import opened Decibels
  import opened Records
  import opened Wrappers

  const HEADER_BYTES: nat := 40
  const ENTRY_BYTES: nat := 224
  const MAX_ROUTES: nat := 8

  datatype Origin = Windows | HibikiUi | Safety | Scene | Session

  datatype Actuator = InternalDsp | DeviceHardware | StrictDirect

  datatype Health = Ready | Pending | Degraded | Bypassed | Unavailable

  datatype Volume = Volume(
    requestedDb: real,
    ceilingDb: real,
    effectiveDb: real,
    muted: bool,
    generation: UInt64,
    origin: Origin,
    actuator: Actuator)

  datatype Route = Route(id: seq<Byte>, name: seq<Byte>, state: Health, detail: seq<Byte>, requiresUserAction: bool)

  /** A volume state the control plane may show: in range, and not louder than asked or allowed by more than 0.05 dB. */
  predicate IsValid(v: Volume) {
    && InVolumeRange(v.requestedDb) && InVolumeRange(v.ceilingDb) && InVolumeRange(v.effectiveDb)
    && v.effectiveDb <= v.requestedDb + 0.05
    && v.effectiveDb <= v.ceilingDb + 0.05
  }

  function OriginCode(o: Origin): Byte {
    match o
    case Windows => 0
    case HibikiUi => 1
    case Safety => 2
    case Scene => 3
    case Session => 4
  }

  function OriginOf(code: Byte): (o: Origin)
    requires code <= 4
    ensures OriginCode(o) == code
  {
    if code == 0 then Windows else if code == 1 then HibikiUi else if code == 2 then Safety
    else if code == 3 then Scene else Session
  }

  function ActuatorCode(a: Actuator): Byte {
    match a
    case InternalDsp => 0
    case DeviceHardware => 1
    case StrictDirect => 2
  }

  function ActuatorOf(code: Byte): (a: Actuator)
    requires code <= 2
    ensures ActuatorCode(a) == code
  {
    if code == 0 then InternalDsp else if code == 1 then DeviceHardware else StrictDirect
  }

  function HealthCode(h: Health): Byte {
    match h
    case Ready => 0
    case Pending => 1
    case Degraded => 2
    case Bypassed => 3
    case Unavailable => 4
  }

  function HealthOf(code: Byte): (h: Health)
    requires code <= 4
    ensures HealthCode(h) == code
  {
    if code == 0 then Ready else if code == 1 then Pending else if code == 2 then Degraded
    else if code == 3 then Bypassed else Unavailable
  }

  // The route entries.

  predicate FitsEntry(r: Route) {
    1 <= |r.id| <= 31 && 1 <= |r.name| <= 63 && 1 <= |r.detail| <= 119
  }

  predicate EncodableEntry(r: Route) {
    FitsEntry(r) && Printable(r.id) && Printable(r.name) && Printable(r.detail)
  }

  function EntryPrefix(r: Route): (b: seq<Byte>)
    requires FitsEntry(r)
    ensures |b| == 8
  {
    [|r.id|, HealthCode(r.state)] + U16(if r.requiresUserAction then 1 else 0) + U16(|r.name|) + U16(|r.detail|)
  }

  function Entry(r: Route): (b: seq<Byte>)
    requires FitsEntry(r)
    ensures |b| == ENTRY_BYTES
  {
    EntryPrefix(r) + Field(r.id, 32) + Field(r.name, 64) + Field(r.detail, 120)
  }

  predicate NumbersAccepted(e: seq<Byte>)
    requires |e| == ENTRY_BYTES
  {
    && 1 <= e[0] <= 31 && e[1] <= 4
    && ReadU16(e[2..4]) <= 1
    && 1 <= ReadU16(e[4..6]) <= 63 && 1 <= ReadU16(e[6..8]) <= 119
  }

  predicate TextsAccepted(e: seq<Byte>)
    requires |e| == ENTRY_BYTES && NumbersAccepted(e)
  {
    TextField(e, 8, e[0], 40) && TextField(e, 40, ReadU16(e[4..6]), 104) && TextField(e, 104, ReadU16(e[6..8]), 224)
  }

  function EntryValue(e: seq<Byte>): Route
    requires |e| == ENTRY_BYTES && NumbersAccepted(e)
  {
    Route(e[8..8 + e[0]], e[40..40 + ReadU16(e[4..6])], HealthOf(e[1]), e[104..104 + ReadU16(e[6..8])],
          ReadU16(e[2..4]) == 1)
  }

  function ParseEntry(e: seq<Byte>): Option<Route> {
    if |e| == ENTRY_BYTES && NumbersAccepted(e) && TextsAccepted(e) then Some(EntryValue(e)) else None
  }

  const ENTRY_PARSER: seq<Byte> -> Option<Route> := ParseEntry

  method DecodeEntry(e: seq<Byte>) returns (r: Option<Route>)
    requires |e| == ENTRY_BYTES
    ensures r == ParseEntry(e)
  {
    if !NumbersAccepted(e) {
      return None;
    }
    var id := CheckTextField(e, 8, e[0], 40);
    var name := CheckTextField(e, 40, ReadU16(e[4..6]), 104);
    var detail := CheckTextField(e, 104, ReadU16(e[6..8]), 224);
    if !id || !name || !detail {
      return None;
    }
    return Some(EntryValue(e));
  }

  method WriteEntry(payload: array<Byte>, offset: nat, r: Route, ghost built: seq<Byte>)
    requires FitsEntry(r) && Written(payload, built)
    requires |built| == offset && offset + ENTRY_BYTES <= payload.Length
    modifies payload
    ensures Written(payload, built + Entry(r))
  {
    PutFour(payload, offset, [|r.id|, HealthCode(r.state)], U16(if r.requiresUserAction then 1 else 0),
            U16(|r.name|), U16(|r.detail|), built);
    PutTexts(payload, offset + 8, r.id, 32, r.name, 64, built + EntryPrefix(r));
    Put(payload, offset + 104, r.detail, 120, built + EntryPrefix(r) + (Field(r.id, 32) + Field(r.name, 64)));
    Regroup(built, EntryPrefix(r), Field(r.id, 32), Field(r.name, 64), Field(r.detail, 120));
  }

  ghost predicate HasFields(e: seq<Byte>, r: Route)
    requires |e| == ENTRY_BYTES && FitsEntry(r)
  {
    && e[0..2] == [|r.id|, HealthCode(r.state)]
    && e[2..4] == U16(if r.requiresUserAction then 1 else 0)
    && e[4..6] == U16(|r.name|) && e[6..8] == U16(|r.detail|)
    && e[8..40] == Field(r.id, 32) && e[40..104] == Field(r.name, 64) && e[104..224] == Field(r.detail, 120)
  }

  lemma EntryFromFields(e: seq<Byte>, r: Route)
    requires |e| == ENTRY_BYTES && FitsEntry(r) && HasFields(e, r)
    ensures Entry(r) == e
  {
    FourCuts(e, 2, 4, 6, 8);
    assert e[..8] == EntryPrefix(r);
    FourCuts(e, 8, 40, 104, 224);
    assert e[..224] == e && e[..8] == e[0..8];
  }

  lemma EntryHasFields(r: Route)
    requires FitsEntry(r)
    ensures HasFields(Entry(r), r)
  {
    var e := Entry(r);
    FourFields(e, EntryPrefix(r), Field(r.id, 32), Field(r.name, 64), Field(r.detail, 120));
    FourInside(e, 0, [|r.id|, HealthCode(r.state)], U16(if r.requiresUserAction then 1 else 0),
               U16(|r.name|), U16(|r.detail|));
  }

  lemma AcceptedNumbers(e: seq<Byte>)
    requires |e| == ENTRY_BYTES && NumbersAccepted(e)
    ensures var r := EntryValue(e);
            && FitsEntry(r) && e[0..2] == [|r.id|, HealthCode(r.state)]
            && |r.name| == ReadU16(e[4..6]) && |r.detail| == ReadU16(e[6..8])
            && ReadU16(e[2..4]) == if r.requiresUserAction then 1 else 0
  {
    assert e[0..2] == [e[0], e[1]];
  }

  /** An accepted entry is byte for byte what the encoder writes for the decoded route. */
  lemma EntryIsCanonical(e: seq<Byte>, r: Route)
    requires ParseEntry(e) == Some(r)
    ensures |e| == ENTRY_BYTES && EncodableEntry(r) && Entry(r) == e
  {
    AcceptedNumbers(e);
    FieldOfText(e, 8, |r.id|, 40);
    FieldOfText(e, 40, |r.name|, 104);
    FieldOfText(e, 104, |r.detail|, 224);
    EntryFromFields(e, r);
  }

  lemma NumbersAreReadBack(e: seq<Byte>, r: Route)
    requires |e| == ENTRY_BYTES && FitsEntry(r) && HasFields(e, r)
    ensures e[0] == |r.id| && e[1] == HealthCode(r.state)
    ensures ReadU16(e[2..4]) == if r.requiresUserAction then 1 else 0
    ensures ReadU16(e[4..6]) == |r.name| && ReadU16(e[6..8]) == |r.detail|
    ensures NumbersAccepted(e)
  {
    assert e[0] == e[0..2][0] && e[1] == e[0..2][1];
    U16RoundTrip(if r.requiresUserAction then 1 else 0);
    U16RoundTrip(|r.name|);
    U16RoundTrip(|r.detail|);
  }

  lemma EntryIsReadBack(r: Route)
    requires EncodableEntry(r)
    ensures ParseEntry(Entry(r)) == Some(r)
  {
    EntryHasFields(r);
    FieldsAreReadBack(Entry(r), r);
  }

  lemma TextsAreReadBack(e: seq<Byte>, r: Route)
    requires |e| == ENTRY_BYTES && EncodableEntry(r) && HasFields(e, r)
    ensures TextField(e, 8, |r.id|, 40) && e[8..8 + |r.id|] == r.id
    ensures TextField(e, 40, |r.name|, 104) && e[40..40 + |r.name|] == r.name
    ensures TextField(e, 104, |r.detail|, 224) && e[104..104 + |r.detail|] == r.detail
  {
    TextOfField(e, 8, r.id, 40);
    TextOfField(e, 40, r.name, 104);
    TextOfField(e, 104, r.detail, 224);
  }

  lemma FieldsAreReadBack(e: seq<Byte>, r: Route)
    requires |e| == ENTRY_BYTES && EncodableEntry(r) && HasFields(e, r)
    ensures ParseEntry(e) == Some(r)
  {
    NumbersAreReadBack(e, r);
    TextsAreReadBack(e, r);
  }

  ghost predicate AllEncodable(routes: seq<Route>) {
    forall i :: 0 <= i < |routes| ==> EncodableEntry(routes[i])
  }

  function EncodedEntries(routes: seq<Route>): (r: seq<seq<Byte>>)
    requires AllEncodable(routes)
    ensures |r| == |routes| && Sized(r, 224)
  {
    seq(|routes|, i requires 0 <= i < |routes| => Entry(routes[i]))
  }

  lemma EncodedOneMore(routes: seq<Route>, r: Route)
    requires AllEncodable(routes) && EncodableEntry(r)
    ensures AllEncodable(routes + [r])
    ensures EncodedEntries(routes + [r]) == EncodedEntries(routes) + [Entry(r)]
  {
  }

  lemma EntriesAreCanonical(body: seq<Byte>, count: nat)
    requires |body| == 224 * count && ParseAll(body, 224, count, count, ENTRY_PARSER).Some?
    ensures var routes := ParseAll(body, 224, count, count, ENTRY_PARSER).value;
            AllEncodable(routes) && Joined(EncodedEntries(routes)) == body
  {
    var routes := ParseAll(body, 224, count, count, ENTRY_PARSER).value;
    forall i | 0 <= i < count
      ensures EncodableEntry(routes[i]) && RecordAt(body, 224, i, count) == Entry(routes[i])
    {
      ParsedItemAt(body, 224, count, count, ENTRY_PARSER, i);
      EntryIsCanonical(RecordAt(body, 224, i, count), routes[i]);
    }
    JoinedFromRecords(body, 224, EncodedEntries(routes));
  }

  lemma EntriesAreReadBack(routes: seq<Route>)
    requires AllEncodable(routes)
    ensures var body := Joined(EncodedEntries(routes));
            && |body| == 224 * |routes|
            && ParseAll(body, 224, |routes|, |routes|, ENTRY_PARSER) == Some(routes)
  {
    var records := EncodedEntries(routes);
    forall i | 0 <= i < |routes| ensures ENTRY_PARSER(records[i]) == Some(routes[i]) {
      EntryIsReadBack(routes[i]);
    }
    ParsesJoined(routes, |routes|, 224, records, ENTRY_PARSER);
    assert routes[..|routes|] == routes;
  }

  // Distinct route ids.

  ghost predicate UniqueIds(routes: seq<Route>) {
    forall i, j :: 0 <= i < j < |routes| ==> routes[i].id != routes[j].id
  }

  /** The ids of the first `index` routes, unless one of them repeats. */
  function SeenIds(routes: seq<Route>, index: nat): Option<set<seq<Byte>>>
    requires index <= |routes|
  {
    if index == 0 then Some({})
    else
      match SeenIds(routes, index - 1)
      case None => None
      case Some(seen) => if routes[index - 1].id in seen then None else Some(seen + {routes[index - 1].id})
  }

  lemma {:induction false} SeenPrefix(routes: seq<Route>, other: seq<Route>, index: nat)
    requires index <= |routes| && index <= |other| && routes[..index] == other[..index]
    ensures SeenIds(routes, index) == SeenIds(other, index)
  {
    if index > 0 {
      assert routes[index - 1] == routes[..index][index - 1] == other[index - 1];
      assert routes[..index - 1] == routes[..index][..index - 1] == other[..index - 1];
      SeenPrefix(routes, other, index - 1);
    }
  }

  lemma {:induction false} SeenStaysNone(routes: seq<Route>, index: nat, end: nat)
    requires index <= end <= |routes| && SeenIds(routes, index).None?
    ensures SeenIds(routes, end).None?
  {
    if index < end {
      SeenStaysNone(routes, index, end - 1);
    }
  }

  lemma {:induction false} SeenMeansUnique(routes: seq<Route>, index: nat)
    requires index <= |routes|
    ensures SeenIds(routes, index).Some? <==> UniqueIds(routes[..index])
    ensures SeenIds(routes, index).Some?
            ==> forall id :: id in SeenIds(routes, index).value <==> exists i :: 0 <= i < index && routes[i].id == id
  {
    if index > 0 {
      SeenMeansUnique(routes, index - 1);
      assert routes[..index] == routes[..index - 1] + [routes[index - 1]];
      assert forall i :: 0 <= i < index - 1 ==> routes[..index - 1][i] == routes[i] == routes[..index][i];
      if SeenIds(routes, index - 1).None? {
        assert !UniqueIds(routes[..index]);
      }
    }
  }

  lemma WholeSeen(routes: seq<Route>)
    ensures SeenIds(routes, |routes|).Some? <==> UniqueIds(routes)
  {
    SeenMeansUnique(routes, |routes|);
    assert routes[..|routes|] == routes;
  }

  // The whole message.

  ghost predicate Encodable(sequence: UInt64, volume: Volume, routes: seq<Route>) {
    && sequence != 0
    && IsValid(volume)
    && |routes| <= MAX_ROUTES
    && AllEncodable(routes)
    && UniqueIds(routes)
  }

  function Counts(count: nat, sequence: UInt64, volume: Volume): (b: seq<Byte>)
    requires count <= MAX_ROUTES && IsValid(volume)
    ensures |b| == 16
  {
    U16(count) + Zeros(2) + U64(sequence) + I32(ToQ16(volume.requestedDb))
  }

  function Levels(volume: Volume): (b: seq<Byte>)
    requires IsValid(volume)
    ensures |b| == 20
  {
    I32(ToQ16(volume.ceilingDb)) + I32(ToQ16(volume.effectiveDb))
    + [if volume.muted then 1 else 0, OriginCode(volume.origin), ActuatorCode(volume.actuator), 0]
    + U64(volume.generation)
  }

  function Header(count: nat, sequence: UInt64, volume: Volume): (b: seq<Byte>)
    requires count <= MAX_ROUTES && IsValid(volume)
    ensures |b| == HEADER_BYTES
  {
    Counts(count, sequence, volume) + Levels(volume) + Zeros(4)
  }

  function Encoded(sequence: UInt64, volume: Volume, routes: seq<Route>): (b: seq<Byte>)
    requires IsValid(volume) && |routes| <= MAX_ROUTES && AllEncodable(routes)
    ensures |b| == HEADER_BYTES + 224 * |routes|
  {
    JoinedLength(EncodedEntries(routes), 224);
    Header(|routes|, sequence, volume) + Joined(EncodedEntries(routes))
  }

  method WriteHeader(payload: array<Byte>, count: nat, sequence: UInt64, volume: Volume)
    requires count <= MAX_ROUTES && IsValid(volume)
    requires Written(payload, []) && payload.Length >= HEADER_BYTES
    modifies payload
    ensures Written(payload, Header(count, sequence, volume))
  {
    PutFour(payload, 0, U16(count), Zeros(2), U64(sequence), I32(ToQ16(volume.requestedDb)), []);
    assert [] + Counts(count, sequence, volume) == Counts(count, sequence, volume);
    PutFour(payload, 16, I32(ToQ16(volume.ceilingDb)), I32(ToQ16(volume.effectiveDb)),
            [if volume.muted then 1 else 0, OriginCode(volume.origin), ActuatorCode(volume.actuator), 0],
            U64(volume.generation), Counts(count, sequence, volume));
    Put(payload, 36, Zeros(4), 4, Counts(count, sequence, volume) + Levels(volume));
    assert Field(Zeros(4), 4) == Zeros(4);
  }

  ghost function Progress(routes: seq<Route>, count: nat, sequence: UInt64, volume: Volume): seq<Byte>
    requires IsValid(volume) && |routes| <= MAX_ROUTES && count <= |routes| && AllEncodable(routes[..count])
  {
    Header(|routes|, sequence, volume) + Joined(EncodedEntries(routes[..count]))
  }

  method WriteNext(payload: array<Byte>, routes: seq<Route>, index: nat, ghost sequence: UInt64, ghost volume: Volume)
    requires IsValid(volume) && |routes| <= MAX_ROUTES && index < |routes|
    requires AllEncodable(routes[..index]) && EncodableEntry(routes[index])
    requires payload.Length == HEADER_BYTES + 224 * |routes|
    requires Written(payload, Progress(routes, index, sequence, volume))
    modifies payload
    ensures AllEncodable(routes[..index + 1])
    ensures Written(payload, Progress(routes, index + 1, sequence, volume))
  {
    assert routes[..index + 1] == routes[..index] + [routes[index]];
    EncodedOneMore(routes[..index], routes[index]);
    JoinedLength(EncodedEntries(routes[..index]), 224);
    JoinedOneMore(Header(|routes|, sequence, volume), EncodedEntries(routes[..index]), Entry(routes[index]));
    WriteEntry(payload, HEADER_BYTES + 224 * index, routes[index], Progress(routes, index, sequence, volume));
  }

  lemma ProgressEnds(routes: seq<Route>, sequence: UInt64, volume: Volume)
    requires IsValid(volume) && |routes| <= MAX_ROUTES && AllEncodable(routes[..|routes|])
    ensures AllEncodable(routes)
    ensures Progress(routes, |routes|, sequence, volume) == Encoded(sequence, volume, routes)
  {
    assert routes[..|routes|] == routes;
  }

  /** The entries behind the header, stopping at one that breaks the contract or repeats an id. */
  method WriteRoutes(payload: array<Byte>, routes: seq<Route>, ghost sequence: UInt64, ghost volume: Volume)
    returns (complete: bool)
    requires IsValid(volume) && |routes| <= MAX_ROUTES && payload.Length == HEADER_BYTES + 224 * |routes|
    requires Written(payload, Header(|routes|, sequence, volume))
    modifies payload
    ensures complete <==> AllEncodable(routes) && SeenIds(routes, |routes|).Some?
    ensures complete ==> Written(payload, Encoded(sequence, volume, routes))
  {
    var seen: set<seq<Byte>> := {};
    assert Header(|routes|, sequence, volume) + [] == Header(|routes|, sequence, volume);
    for index := 0 to |routes|
      invariant SeenIds(routes, index) == Some(seen)
      invariant AllEncodable(routes[..index])
      invariant Written(payload, Progress(routes, index, sequence, volume))
    {
      var route := routes[index];
      if !EncodableEntry(route) {
        return false;
      }
      if route.id in seen {
        SeenStaysNone(routes, index + 1, |routes|);
        return false;
      }
      seen := seen + {route.id};
      WriteNext(payload, routes, index, sequence, volume);
    }
    ProgressEnds(routes, sequence, volume);
    return true;
  }

  /** Encodes a status snapshot, or refuses one that breaks the v1 contract. */
  method EncodeStatus(sequence: UInt64, volume: Volume, routes: seq<Route>) returns (r: Option<array<Byte>>)
    ensures r.Some? <==> Encodable(sequence, volume, routes)
    ensures r.Some? ==> fresh(r.value) && r.value[..] == Encoded(sequence, volume, routes)
  {
    if sequence == 0 || !IsValid(volume) || |routes| > MAX_ROUTES {
      return None;
    }
    var payload := new Byte[HEADER_BYTES + 224 * |routes|](_ => 0);
    assert [] + Zeros(payload.Length) == payload[..];
    WriteHeader(payload, |routes|, sequence, volume);
    var complete := WriteRoutes(payload, routes, sequence, volume);
    WholeSeen(routes);
    if !complete {
      return None;
    }
    assert payload[..] == Encoded(sequence, volume, routes) + Zeros(0);
    return Some(payload);
  }

  datatype Status = Status(sequence: UInt64, volume: Volume, routes: seq<Route>)

  /** Length, count, padding, enumeration and sequence checks. */
  predicate HeaderAccepted(p: seq<Byte>) {
    && |p| >= HEADER_BYTES
    && IsZero(p, 2, 4) && p[27] == 0 && IsZero(p, 36, 40)
    && ReadU16(p[0..2]) <= MAX_ROUTES
    && |p| == HEADER_BYTES + 224 * ReadU16(p[0..2])
    && p[24] <= 1 && p[25] <= 4 && p[26] <= 2
    && ReadU64(p[4..12]) != 0
  }

  function VolumeOf(p: seq<Byte>): Volume
    requires HeaderAccepted(p)
  {
    Volume(FromQ16(ReadI32(p[12..16])), FromQ16(ReadI32(p[16..20])), FromQ16(ReadI32(p[20..24])), p[24] != 0,
           ReadU64(p[28..36]), OriginOf(p[25]), ActuatorOf(p[26]))
  }

  function AcceptedEntries(body: seq<Byte>, count: nat): Option<seq<Route>>
    requires |body| == 224 * count
  {
    match ParseAll(body, 224, count, count, ENTRY_PARSER)
    case None => None
    case Some(routes) => if SeenIds(routes, count).Some? then Some(routes) else None
  }

  function Decoded(p: seq<Byte>): Option<Status> {
    if !HeaderAccepted(p) || !IsValid(VolumeOf(p)) then None
    else
      match AcceptedEntries(p[HEADER_BYTES..], ReadU16(p[0..2]))
      case None => None
      case Some(routes) => Some(Status(ReadU64(p[4..12]), VolumeOf(p), routes))
  }

  lemma ParsedOneMore(body: seq<Byte>, count: nat, routes: seq<Route>, parsed: Option<Route>)
    requires |body| == 224 * count && |routes| < count
    requires ParseAll(body, 224, |routes|, count, ENTRY_PARSER) == Some(routes)
    requires parsed == ParseEntry(RecordAt(body, 224, |routes|, count))
    ensures parsed.Some? ==> ParseAll(body, 224, |routes| + 1, count, ENTRY_PARSER) == Some(routes + [parsed.value])
    ensures parsed.None? ==> AcceptedEntries(body, count).None?
  {
    if parsed.None? {
      RefusalStays(body, 224, |routes| + 1, count, ENTRY_PARSER);
    }
  }

  lemma RepetitionIsRefused(body: seq<Byte>, count: nat, routes: seq<Route>)
    requires |body| == 224 * count && |routes| <= count
    requires ParseAll(body, 224, |routes|, count, ENTRY_PARSER) == Some(routes)
    requires SeenIds(routes, |routes|).None?
    ensures AcceptedEntries(body, count).None?
  {
    var all := ParseAll(body, 224, count, count, ENTRY_PARSER);
    if all.Some? {
      ParseAllExtends(body, 224, |routes|, count, ENTRY_PARSER);
      SeenPrefix(routes, all.value, |routes|);
      SeenStaysNone(all.value, |routes|, count);
    }
  }

  lemma RoundDecides(body: seq<Byte>, count: nat, routes: seq<Route>, seen: set<seq<Byte>>, route: Route)
    requires |body| == 224 * count && |routes| < count
    requires ParseAll(body, 224, |routes| + 1, count, ENTRY_PARSER) == Some(routes + [route])
    requires SeenIds(routes, |routes|) == Some(seen)
    ensures route.id !in seen ==> SeenIds(routes + [route], |routes| + 1) == Some(seen + {route.id})
    ensures route.id in seen ==> AcceptedEntries(body, count).None?
  {
    SeenPrefix(routes, routes + [route], |routes|);
    if route.id in seen {
      RepetitionIsRefused(body, count, routes + [route]);
    }
  }

  /** One round of the decoding loop: the next entry, refused when it repeats an id. */
  method DecodeNext(body: seq<Byte>, count: nat, routes: seq<Route>, seen: set<seq<Byte>>) returns (r: Option<Route>)
    requires |body| == 224 * count && |routes| < count
    requires ParseAll(body, 224, |routes|, count, ENTRY_PARSER) == Some(routes)
    requires SeenIds(routes, |routes|) == Some(seen)
    ensures r.Some? ==> ParseAll(body, 224, |routes| + 1, count, ENTRY_PARSER) == Some(routes + [r.value])
    ensures r.Some? ==> SeenIds(routes + [r.value], |routes| + 1) == Some(seen + {r.value.id})
    ensures r.None? ==> AcceptedEntries(body, count).None?
  {
    r := DecodeEntry(RecordAt(body, 224, |routes|, count));
    ParsedOneMore(body, count, routes, r);
    if r.Some? {
      RoundDecides(body, count, routes, seen, r.value);
      if r.value.id in seen {
        return None;
      }
    }
  }

  lemma AcceptedWhenComplete(body: seq<Byte>, count: nat, routes: seq<Route>, seen: set<seq<Byte>>)
    requires |body| == 224 * count
    requires ParseAll(body, 224, count, count, ENTRY_PARSER) == Some(routes)
    requires SeenIds(routes, count) == Some(seen)
    ensures AcceptedEntries(body, count) == Some(routes)
  {
  }

  method DecodeEntries(body: seq<Byte>, count: nat) returns (r: Option<seq<Route>>)
    requires |body| == 224 * count
    ensures r == AcceptedEntries(body, count)
  {
    var routes: seq<Route> := [];
    var seen: set<seq<Byte>> := {};
    for index := 0 to count
      invariant |routes| == index
      invariant ParseAll(body, 224, index, count, ENTRY_PARSER) == Some(routes)
      invariant SeenIds(routes, index) == Some(seen)
    {
      var next := DecodeNext(body, count, routes, seen);
      if next.None? {
        return None;
      }
      routes, seen := routes + [next.value], seen + {next.value.id};
    }
    AcceptedWhenComplete(body, count, routes, seen);
    return Some(routes);
  }

  method TryDecode(payload: seq<Byte>) returns (r: Option<Status>)
    ensures r == Decoded(payload)
  {
    if !HeaderAccepted(payload) || !IsValid(VolumeOf(payload)) {
      return None;
    }
    var routes := DecodeEntries(payload[HEADER_BYTES..], ReadU16(payload[0..2]));
    if routes.None? {
      return None;
    }
    return Some(Status(ReadU64(payload[4..12]), VolumeOf(payload), routes.value));
  }

  // Canonical decoding.

  lemma LevelsAreExact(p: seq<Byte>)
    requires HeaderAccepted(p) && IsValid(VolumeOf(p))
    ensures ToQ16(VolumeOf(p).requestedDb) == ReadI32(p[12..16])
    ensures ToQ16(VolumeOf(p).ceilingDb) == ReadI32(p[16..20])
    ensures ToQ16(VolumeOf(p).effectiveDb) == ReadI32(p[20..24])
  {
    ReadingThenWritingIsExact(ReadI32(p[12..16]));
    ReadingThenWritingIsExact(ReadI32(p[16..20]));
    ReadingThenWritingIsExact(ReadI32(p[20..24]));
  }

  lemma HeaderIsCanonical(p: seq<Byte>)
    requires HeaderAccepted(p) && IsValid(VolumeOf(p))
    ensures p[..40] == Header(ReadU16(p[0..2]), ReadU64(p[4..12]), VolumeOf(p))
  {
    LevelsAreExact(p);
    PaddingIsZeros(p, 2, 4);
    PaddingIsZeros(p, 36, 40);
    FourCuts(p, 2, 4, 12, 16);
    assert p[..16] == Counts(ReadU16(p[0..2]), ReadU64(p[4..12]), VolumeOf(p));
    LevelsAreCanonical(p);
    TakeStep(p, 16, 36);
    TakeStep(p, 36, 40);
  }

  lemma LevelsAreCanonical(p: seq<Byte>)
    requires HeaderAccepted(p) && IsValid(VolumeOf(p))
    ensures p[16..36] == Levels(VolumeOf(p))
  {
    LevelsAreExact(p);
    var v := VolumeOf(p);
    assert p[24..28] == [p[24], p[25], p[26], p[27]];
    FourJoin(p, 16, 20, 24, 28, 36);
  }

  /** Accepting bytes means accepting exactly what the encoder writes for the decoded status. */
  lemma DecodingIsCanonical(p: seq<Byte>)
    ensures var d := Decoded(p);
            d.Some? ==> Encodable(d.value.sequence, d.value.volume, d.value.routes)
                        && Encoded(d.value.sequence, d.value.volume, d.value.routes) == p
  {
    if Decoded(p).Some? {
      var s := Decoded(p).value;
      var body := p[HEADER_BYTES..];
      EntriesAreCanonical(body, |s.routes|);
      WholeSeen(s.routes);
      HeaderIsCanonical(p);
      assert p == p[..40] + body;
    }
  }

  // Reading back, and the slack that rounding can exceed.

  /** The Q16.16 image of the levels. */
  function Rounded(v: Volume): Volume
    requires IsValid(v)
  {
    v.(requestedDb := FromQ16(ToQ16(v.requestedDb)),
       ceilingDb := FromQ16(ToQ16(v.ceilingDb)),
       effectiveDb := FromQ16(ToQ16(v.effectiveDb)))
  }

  /** The rounded levels stay within 3276 steps, the largest whole number of steps in 0.05 dB. */
  predicate SlackSurvives(v: Volume)
    requires IsValid(v)
  {
    && ToQ16(v.effectiveDb) - ToQ16(v.requestedDb) <= 3276
    && ToQ16(v.effectiveDb) - ToQ16(v.ceilingDb) <= 3276
  }

  lemma SlackInSteps(effective: int, bound: int)
    ensures FromQ16(effective) <= FromQ16(bound) + 0.05 <==> effective - bound <= 3276
  {
    assert FromQ16(effective) - FromQ16(bound) == (effective - bound) as real / UNIT;
  }

  lemma RoundedIsValidExactlyWithinSlack(v: Volume)
    requires IsValid(v)
    ensures IsValid(Rounded(v)) <==> SlackSurvives(v)
  {
    SlackInSteps(ToQ16(v.effectiveDb), ToQ16(v.requestedDb));
    SlackInSteps(ToQ16(v.effectiveDb), ToQ16(v.ceilingDb));
  }

  /** A volume that is no louder than requested and allowed always survives the wire. */
  lemma CappedVolumesSurvive(v: Volume)
    requires IsValid(v) && v.effectiveDb <= v.requestedDb && v.effectiveDb <= v.ceilingDb
    ensures SlackSurvives(v)
  {
    RoundingIsMonotone(v.effectiveDb, v.requestedDb);
    RoundingIsMonotone(v.effectiveDb, v.ceilingDb);
  }

  lemma CountsAreReadBack(p: seq<Byte>, count: nat, sequence: UInt64, volume: Volume)
    requires count <= MAX_ROUTES && IsValid(volume) && Counts(count, sequence, volume) <= p
    ensures ReadU16(p[0..2]) == count && ReadU64(p[4..12]) == sequence && IsZero(p, 2, 4)
    ensures ReadI32(p[12..16]) == ToQ16(volume.requestedDb)
  {
    FourFields(p, U16(count), Zeros(2), U64(sequence), I32(ToQ16(volume.requestedDb)));
    U16RoundTrip(count);
    U64RoundTrip(sequence);
    I32RoundTrip(ToQ16(volume.requestedDb));
    PaddingIsZeros(p, 2, 4);
  }

  lemma LevelsAreReadBack(p: seq<Byte>, volume: Volume)
    requires |p| >= HEADER_BYTES && IsValid(volume) && p[16..36] == Levels(volume)
    ensures ReadI32(p[16..20]) == ToQ16(volume.ceilingDb) && ReadI32(p[20..24]) == ToQ16(volume.effectiveDb)
    ensures p[24] == (if volume.muted then 1 else 0) && p[25] == OriginCode(volume.origin)
    ensures p[26] == ActuatorCode(volume.actuator) && p[27] == 0
    ensures ReadU64(p[28..36]) == volume.generation
  {
    var codes: seq<Byte> :=
      [if volume.muted then 1 else 0, OriginCode(volume.origin), ActuatorCode(volume.actuator), 0];
    FourInside(p, 16, I32(ToQ16(volume.ceilingDb)), I32(ToQ16(volume.effectiveDb)), codes, U64(volume.generation));
    assert p[24..28] == codes;
    assert p[24] == p[24..28][0] && p[25] == p[24..28][1] && p[26] == p[24..28][2] && p[27] == p[24..28][3];
    I32RoundTrip(ToQ16(volume.ceilingDb));
    I32RoundTrip(ToQ16(volume.effectiveDb));
    U64RoundTrip(volume.generation);
  }

  lemma HeaderIsReadBack(sequence: UInt64, volume: Volume, routes: seq<Route>)
    requires Encodable(sequence, volume, routes)
    ensures var p := Encoded(sequence, volume, routes);
            && HeaderAccepted(p) && VolumeOf(p) == Rounded(volume)
            && ReadU16(p[0..2]) == |routes| && ReadU64(p[4..12]) == sequence
            && p[HEADER_BYTES..] == Joined(EncodedEntries(routes))
  {
    var p := Encoded(sequence, volume, routes);
    var counts := Counts(|routes|, sequence, volume);
    FourFields(p, counts, Levels(volume), Zeros(4), Joined(EncodedEntries(routes)));
    CountsAreReadBack(p, |routes|, sequence, volume);
    LevelsAreReadBack(p, volume);
    PaddingIsZeros(p, 36, 40);
  }

  /**
   * An encoded status is decoded to itself, up to rounding, exactly when the rounded levels stay
   * within the slack; otherwise the receiver refuses what the sender was allowed to write.
   */
  lemma ReadBackExactlyWithinSlack(sequence: UInt64, volume: Volume, routes: seq<Route>)
    requires Encodable(sequence, volume, routes)
    ensures Decoded(Encoded(sequence, volume, routes))
            == (if SlackSurvives(volume) then Some(Status(sequence, Rounded(volume), routes)) else None)
  {
    HeaderIsReadBack(sequence, volume, routes);
    EntriesAreReadBack(routes);
    WholeSeen(routes);
    RoundedIsValidExactlyWithinSlack(volume);
  }

  /** Requested 0 dB, ceiling 0 dB, effective 0.05 dB: valid, encoded, and refused on arrival. */
  lemma SlackAloneDoesNotSurvive()
    ensures var v := Volume(0.0, 0.0, 0.05, false, 0, Windows, InternalDsp);
            Encodable(1, v, []) && Decoded(Encoded(1, v, [])).None?
  {
    var v := Volume(0.0, 0.0, 0.05, false, 0, Windows, InternalDsp);
    assert 0.05 * UNIT == 3276.8;
    assert ToQ16(0.05) == 3277 && ToQ16(0.0) == 0;
    ReadBackExactlyWithinSlack(1, v, []);
  }
}

/** The control-plane mirror of the physical devices: identities, availability and defaults. */
module DeviceCatalog {
  import opened Bytes
  import opened Utf8
  import opened Wrappers

  const CAPACITY: nat := 32
  const MAX_ENDPOINT_BYTES: nat := 260
  const MAX_NAME_BYTES: nat := 128

  datatype Flow = Render | Capture

  datatype Availability = Active | Disabled | Unplugged | Unknown

  datatype DeviceCard = DeviceCard(
    endpointId: seq<Byte>,
    displayName: seq<Byte>,
    flow: Flow,
    availability: Availability,
    channels: Int32,
    sampleRate: Int32,
    bufferFrames: Int32,
    isDefault: bool,
    lastSequence: UInt64)

  predicate SupportedChannels(channels: int) {
    channels == 1 || channels == 2 || channels == 6 || channels == 8
  }

  predicate SupportedRate(rate: int) {
    rate == 44100 || rate == 48000 || rate == 96000 || rate == 192000
  }

  predicate IsSelectable(d: DeviceCard) {
    d.flow == Render && d.availability == Active && SupportedChannels(d.channels)
  }

  predicate SupportedFormat(d: DeviceCard) {
    SupportedChannels(d.channels) && SupportedRate(d.sampleRate) && 16 <= d.bufferFrames <= 4096
  }

  predicate ValidText(text: seq<Byte>, maxBytes: nat) {
    !Blank(text) && Printable(text) && |text| <= maxBytes
  }

  predicate Validate(d: DeviceCard) {
    && ValidText(d.endpointId, MAX_ENDPOINT_BYTES)
    && ValidText(d.displayName, MAX_NAME_BYTES)
    && SupportedFormat(d)
    && (d.isDefault ==> d.availability == Active)
  }

  function Max(a: UInt64, b: UInt64): UInt64 { if a >= b then a else b }

  /** Position of the first device with this endpoint id, or -1. */
  function FindIndex(devices: seq<DeviceCard>, endpointId: seq<Byte>): (index: int)
    ensures -1 <= index < |devices|
    ensures index >= 0 ==> devices[index].endpointId == endpointId
    ensures index < 0 ==> forall i :: 0 <= i < |devices| ==> devices[i].endpointId != endpointId
  {
    if devices == [] then -1
    else if devices[0].endpointId == endpointId then 0
    else
      var rest := FindIndex(devices[1..], endpointId);
      if rest < 0 then -1 else rest + 1
  }

  function Cleared(d: DeviceCard, flow: Flow, exceptId: seq<Byte>): DeviceCard {
    if d.flow == flow && d.endpointId != exceptId && d.isDefault then d.(isDefault := false) else d
  }

  function ClearedDefaults(devices: seq<DeviceCard>, flow: Flow, exceptId: seq<Byte>): (r: seq<DeviceCard>)
    ensures |r| == |devices|
    ensures forall i :: 0 <= i < |r| ==> r[i] == Cleared(devices[i], flow, exceptId)
  {
    seq(|devices|, i requires 0 <= i < |devices| => Cleared(devices[i], flow, exceptId))
  }

  function Without(devices: seq<DeviceCard>, endpointId: seq<Byte>): (r: seq<DeviceCard>)
    ensures |r| <= |devices|
    ensures forall d :: d in r <==> d in devices && d.endpointId != endpointId
  {
    if devices == [] then []
    else if devices[0].endpointId == endpointId then Without(devices[1..], endpointId)
    else [devices[0]] + Without(devices[1..], endpointId)
  }

  ghost predicate UniqueIds(devices: seq<DeviceCard>) {
    forall i, j :: 0 <= i < j < |devices| ==> devices[i].endpointId != devices[j].endpointId
  }

  ghost predicate OneDefaultPerFlow(devices: seq<DeviceCard>) {
    forall i, j :: 0 <= i < j < |devices| && devices[i].isDefault && devices[j].isDefault
                   ==> devices[i].flow != devices[j].flow
  }

  datatype Catalog = Catalog(devices: seq<DeviceCard>, sequence: UInt64)

  ghost predicate Consistent(c: Catalog) {
    && |c.devices| <= CAPACITY
    && UniqueIds(c.devices)
    && OneDefaultPerFlow(c.devices)
    && AllValid(c.devices)
  }

  ghost predicate AllValid(devices: seq<DeviceCard>) {
    forall i :: 0 <= i < |devices| ==> Validate(devices[i])
  }

  datatype Operation =
    | Upsert(device: DeviceCard)
    | ReplaceSnapshot(snapshot: seq<DeviceCard>, sequence: UInt64)
    | SetAvailability(endpointId: seq<Byte>, availability: Availability, sequence: UInt64)
    | MarkDefault(endpointId: seq<Byte>, sequence: UInt64)
    | Remove(endpointId: seq<Byte>)

  /** Whether the catalog takes the operation at all. */
  ghost predicate Accepts(c: Catalog, op: Operation) {
    match op
    case Upsert(d) =>
      var index := FindIndex(c.devices, d.endpointId);
      Validate(d)
      && (if index >= 0 then d.lastSequence == 0 || d.lastSequence >= c.devices[index].lastSequence
          else |c.devices| < CAPACITY)
    case ReplaceSnapshot(snapshot, sequence) =>
      && |snapshot| <= CAPACITY
      && (sequence == 0 || sequence >= c.sequence)
      && AllValid(snapshot)
      && UniqueIds(snapshot)
      && OneDefaultPerFlow(snapshot)
    case SetAvailability(id, availability, sequence) =>
      var index := FindIndex(c.devices, id);
      index >= 0 && (sequence == 0 || sequence >= c.devices[index].lastSequence)
    case MarkDefault(id, sequence) =>
      var index := FindIndex(c.devices, id);
      && index >= 0
      && IsSelectable(c.devices[index])
      && (sequence == 0 || sequence >= c.devices[index].lastSequence)
    case Remove(id) => FindIndex(c.devices, id) >= 0
  }

  /** The catalog after an accepted operation. */
  function Applied(c: Catalog, op: Operation): Catalog {
    match op
    case Upsert(d) =>
      var index := FindIndex(c.devices, d.endpointId);
      var placed := if index >= 0 then c.devices[index := d] else c.devices + [d];
      Catalog(if d.isDefault then ClearedDefaults(placed, d.flow, d.endpointId) else placed,
              Max(c.sequence, d.lastSequence))
    case ReplaceSnapshot(snapshot, sequence) => Catalog(snapshot, Max(c.sequence, sequence))
    case SetAvailability(id, availability, sequence) =>
      var index := FindIndex(c.devices, id);
      if index < 0 then c
      else
        var d := c.devices[index];
        Catalog(c.devices[index := d.(availability := availability,
                                      isDefault := d.isDefault && availability == Active,
                                      lastSequence := Max(d.lastSequence, sequence))],
                Max(c.sequence, sequence))
    case MarkDefault(id, sequence) =>
      var index := FindIndex(c.devices, id);
      if index < 0 then c
      else
        var d := c.devices[index];
        Catalog(ClearedDefaults(c.devices, d.flow, id)[index := d.(isDefault := true,
                                                                   lastSequence := Max(d.lastSequence, sequence))],
                Max(c.sequence, sequence))
    case Remove(id) => c.(devices := Without(c.devices, id))
  }

  ghost function Next(c: Catalog, op: Operation): Catalog {
    if Accepts(c, op) then Applied(c, op) else c
  }

  ghost function Run(c: Catalog, ops: seq<Operation>): Catalog
    decreases |ops|
  {
    if ops == [] then c else Run(Next(c, ops[0]), ops[1..])
  }

  lemma FindIndexIsTheOnlyOne(devices: seq<DeviceCard>, index: nat)
    requires UniqueIds(devices) && index < |devices|
    ensures FindIndex(devices, devices[index].endpointId) == index
  {
    var found := FindIndex(devices, devices[index].endpointId);
    assert found >= 0 && devices[found].endpointId == devices[index].endpointId;
  }

  lemma {:induction false} WithoutKeepsIds(devices: seq<DeviceCard>, id: seq<Byte>)
    requires UniqueIds(devices)
    ensures UniqueIds(Without(devices, id))
  {
    if devices != [] {
      WithoutKeepsIds(devices[1..], id);
      forall d | d in devices[1..] ensures d.endpointId != devices[0].endpointId {
        var j :| 0 <= j < |devices[1..]| && devices[1..][j] == d;
        assert devices[j + 1] == d;
      }
    }
  }

  lemma {:induction false} WithoutKeepsDefaults(devices: seq<DeviceCard>, id: seq<Byte>)
    requires OneDefaultPerFlow(devices)
    ensures OneDefaultPerFlow(Without(devices, id))
  {
    if devices != [] {
      WithoutKeepsDefaults(devices[1..], id);
      forall d | d in devices[1..] ensures d.isDefault && devices[0].isDefault ==> d.flow != devices[0].flow {
        var j :| 0 <= j < |devices[1..]| && devices[1..][j] == d;
        assert devices[j + 1] == d;
      }
    }
  }

  /** `placed` is `devices` with `d` stored at `at`, whose identity no other entry has. */
  ghost predicate Places(devices: seq<DeviceCard>, placed: seq<DeviceCard>, at: nat, d: DeviceCard) {
    && at <= |devices|
    && placed == (if at < |devices| then devices[at := d] else devices + [d])
    && forall i :: 0 <= i < |devices| ==> (devices[i].endpointId == d.endpointId <==> i == at)
  }

  lemma PlacingKeepsIds(devices: seq<DeviceCard>, placed: seq<DeviceCard>, at: nat, d: DeviceCard)
    requires UniqueIds(devices) && Places(devices, placed, at, d)
    ensures UniqueIds(placed)
  {
    assert forall i :: 0 <= i < |placed| && i != at ==> placed[i] == devices[i];
  }

  lemma PlacingKeepsDefaults(devices: seq<DeviceCard>, placed: seq<DeviceCard>, at: nat, d: DeviceCard)
    requires OneDefaultPerFlow(devices) && Places(devices, placed, at, d)
    ensures !d.isDefault ==> OneDefaultPerFlow(placed)
    ensures d.isDefault ==> OneDefaultPerFlow(ClearedDefaults(placed, d.flow, d.endpointId))
  {
    assert forall i :: 0 <= i < |placed| && i != at ==> placed[i] == devices[i];
  }

  lemma ClearingKeepsTheRest(devices: seq<DeviceCard>, flow: Flow, exceptId: seq<Byte>)
    requires UniqueIds(devices) && AllValid(devices)
    ensures UniqueIds(ClearedDefaults(devices, flow, exceptId))
    ensures AllValid(ClearedDefaults(devices, flow, exceptId))
  {
    var cleared := ClearedDefaults(devices, flow, exceptId);
    forall i | 0 <= i < |cleared| ensures Validate(cleared[i]) {
      assert Validate(devices[i]);
    }
  }

  /** Storing one device, with the other defaults of its flow cleared when it is a default itself. */
  lemma PlacingKeepsTheRules(devices: seq<DeviceCard>, placed: seq<DeviceCard>, at: nat, d: DeviceCard)
    requires UniqueIds(devices) && OneDefaultPerFlow(devices) && AllValid(devices) && Validate(d)
    requires Places(devices, placed, at, d)
    ensures UniqueIds(placed) && AllValid(placed)
    ensures !d.isDefault ==> OneDefaultPerFlow(placed)
    ensures var cleared := ClearedDefaults(placed, d.flow, d.endpointId);
            UniqueIds(cleared) && AllValid(cleared) && (d.isDefault ==> OneDefaultPerFlow(cleared))
  {
    PlacingKeepsIds(devices, placed, at, d);
    PlacingKeepsDefaults(devices, placed, at, d);
    assert AllValid(placed);
    ClearingKeepsTheRest(placed, d.flow, d.endpointId);
  }

  lemma UpsertKeepsConsistent(c: Catalog, d: DeviceCard)
    requires Consistent(c) && Accepts(c, Upsert(d))
    ensures Consistent(Applied(c, Upsert(d)))
  {
    var index := FindIndex(c.devices, d.endpointId);
    if index >= 0 {
      PlacingKeepsTheRules(c.devices, c.devices[index := d], index, d);
    } else {
      PlacingKeepsTheRules(c.devices, c.devices + [d], |c.devices|, d);
    }
  }

  lemma SetAvailabilityKeepsConsistent(c: Catalog, id: seq<Byte>, availability: Availability, sequence: UInt64)
    requires Consistent(c) && Accepts(c, SetAvailability(id, availability, sequence))
    ensures Consistent(Applied(c, SetAvailability(id, availability, sequence)))
  {
    var index := FindIndex(c.devices, id);
    assert Validate(c.devices[index]);
    var after := Applied(c, SetAvailability(id, availability, sequence)).devices;
    assert Validate(after[index]);
    assert forall i :: 0 <= i < |after| ==> after[i].flow == c.devices[i].flow
                                            && (after[i].isDefault ==> c.devices[i].isDefault);
  }

  lemma MarkDefaultKeepsConsistent(c: Catalog, id: seq<Byte>, sequence: UInt64)
    requires Consistent(c) && Accepts(c, MarkDefault(id, sequence))
    ensures Consistent(Applied(c, MarkDefault(id, sequence)))
  {
    var index := FindIndex(c.devices, id);
    var d := c.devices[index];
    assert Validate(d);
    var marked := d.(isDefault := true, lastSequence := Max(d.lastSequence, sequence));
    FindIndexIsTheOnlyOne(c.devices, index);
    PlacingKeepsTheRules(c.devices, c.devices[index := marked], index, marked);
    MarkIsPlace(c, id, sequence);
  }

  /** Clearing and then marking is the same as storing the marked device and then clearing. */
  lemma MarkIsPlace(c: Catalog, id: seq<Byte>, sequence: UInt64)
    requires FindIndex(c.devices, id) >= 0
    ensures var index := FindIndex(c.devices, id);
            var d := c.devices[index];
            var marked := d.(isDefault := true, lastSequence := Max(d.lastSequence, sequence));
            Applied(c, MarkDefault(id, sequence)).devices
            == ClearedDefaults(c.devices[index := marked], marked.flow, marked.endpointId)
  {
  }

  /** No accepted operation breaks the catalog's identity, capacity or default rules. */
  lemma StepKeepsConsistent(c: Catalog, op: Operation)
    requires Consistent(c) && Accepts(c, op)
    ensures Consistent(Applied(c, op))
    ensures Applied(c, op).sequence >= c.sequence
  {
    match op
    case Upsert(d) => UpsertKeepsConsistent(c, d);
    case ReplaceSnapshot(snapshot, sequence) =>
    case SetAvailability(id, availability, sequence) => SetAvailabilityKeepsConsistent(c, id, availability, sequence);
    case MarkDefault(id, sequence) => MarkDefaultKeepsConsistent(c, id, sequence);
    case Remove(id) =>
      WithoutKeepsIds(c.devices, id);
      WithoutKeepsDefaults(c.devices, id);
  }

  /** In every run ids stay unique, the capacity and default rules hold, and the sequence never drops. */
  lemma {:induction false} RunKeepsConsistent(c: Catalog, ops: seq<Operation>)
    requires Consistent(c)
    ensures Consistent(Run(c, ops)) && Run(c, ops).sequence >= c.sequence
    decreases |ops|
  {
    if ops != [] {
      if Accepts(c, ops[0]) {
        StepKeepsConsistent(c, ops[0]);
      }
      RunKeepsConsistent(Next(c, ops[0]), ops[1..]);
    }
  }

  /** The endpoint is the default device of the flow. */
  ghost predicate IsDefault(devices: seq<DeviceCard>, flow: Flow, id: seq<Byte>) {
    exists i :: 0 <= i < |devices| && DefaultAt(devices[i], flow, id)
  }

  predicate DefaultAt(d: DeviceCard, flow: Flow, id: seq<Byte>) {
    d.endpointId == id && d.flow == flow && d.isDefault
  }

  /** Storing a device as default displaces the previous default of its flow and no other default. */
  lemma PlacingMovesOneDefault(devices: seq<DeviceCard>, placed: seq<DeviceCard>, at: nat, d: DeviceCard,
                               flow: Flow, other: seq<Byte>)
    requires Places(devices, placed, at, d)
    ensures var after := if d.isDefault then ClearedDefaults(placed, d.flow, d.endpointId) else placed;
            IsDefault(after, flow, other)
            <==> (if other == d.endpointId then d.isDefault && d.flow == flow
                  else IsDefault(devices, flow, other) && !(d.isDefault && d.flow == flow))
  {
    var after := if d.isDefault then ClearedDefaults(placed, d.flow, d.endpointId) else placed;
    assert after[at] == d;
    assert forall i :: 0 <= i < |placed| && i != at ==> placed[i] == devices[i];
    if other == d.endpointId {
      assert forall i :: 0 <= i < |after| && i != at ==> after[i].endpointId != other;
      assert DefaultAt(after[at], flow, other) <==> d.isDefault && d.flow == flow;
    } else {
      assert !DefaultAt(after[at], flow, other);
      forall i | 0 <= i < |devices| && i != at
        ensures DefaultAt(after[i], flow, other)
                <==> DefaultAt(devices[i], flow, other) && !(d.isDefault && d.flow == flow)
      {
      }
      assert at < |devices| ==> !DefaultAt(devices[at], flow, other);
    }
  }

  /** After an upsert: the stored device is a default iff it says so, and displaces only its own flow's. */
  lemma UpsertDisplacesOneDefault(c: Catalog, d: DeviceCard, flow: Flow, other: seq<Byte>)
    requires Consistent(c) && Accepts(c, Upsert(d))
    ensures IsDefault(Applied(c, Upsert(d)).devices, flow, other)
            <==> (if other == d.endpointId then d.isDefault && d.flow == flow
                  else IsDefault(c.devices, flow, other) && !(d.isDefault && d.flow == flow))
  {
    var index := FindIndex(c.devices, d.endpointId);
    if index >= 0 {
      PlacingMovesOneDefault(c.devices, c.devices[index := d], index, d, flow, other);
    } else {
      PlacingMovesOneDefault(c.devices, c.devices + [d], |c.devices|, d, flow, other);
    }
  }

  /** Marking a default makes it the only render default and leaves the capture default alone. */
  lemma MarkDefaultMovesOneDefault(c: Catalog, id: seq<Byte>, sequence: UInt64, flow: Flow, other: seq<Byte>)
    requires Consistent(c) && Accepts(c, MarkDefault(id, sequence))
    ensures IsDefault(Applied(c, MarkDefault(id, sequence)).devices, flow, other)
            <==> (if flow == Render then other == id else IsDefault(c.devices, flow, other))
  {
    var index := FindIndex(c.devices, id);
    var d := c.devices[index];
    var marked := d.(isDefault := true, lastSequence := Max(d.lastSequence, sequence));
    MarkIsPlace(c, id, sequence);
    PlacingMovesOneDefault(c.devices, c.devices[index := marked], index, marked, flow, other);
    if flow == Capture && other == id {
      assert forall i :: 0 <= i < |c.devices| && c.devices[i].endpointId == id ==> i == index;
      assert !IsDefault(c.devices, flow, other);
    }
  }

  // What an accepted operation leaves, device by device.

  /** The device with this endpoint id, if there is one. */
  function Device(devices: seq<DeviceCard>, id: seq<Byte>): Option<DeviceCard> {
    var index := FindIndex(devices, id);
    if index < 0 then None else Some(devices[index])
  }

  lemma {:induction false} SameIdsSameIndex(one: seq<DeviceCard>, other: seq<DeviceCard>, id: seq<Byte>)
    requires |one| == |other|
    requires forall i :: 0 <= i < |one| ==> one[i].endpointId == other[i].endpointId
    ensures FindIndex(one, id) == FindIndex(other, id)
  {
    if one != [] {
      assert forall i :: 0 <= i < |one[1..]| ==> one[1..][i] == one[i + 1] && other[1..][i] == other[i + 1];
      SameIdsSameIndex(one[1..], other[1..], id);
    }
  }

  /** An accepted availability change sets it, keeps a default only while active, and touches nothing else. */
  lemma SetAvailabilitySetsOneDevice(c: Catalog, id: seq<Byte>, availability: Availability, sequence: UInt64,
                                     other: seq<Byte>)
    requires Accepts(c, SetAvailability(id, availability, sequence))
    ensures var after := Next(c, SetAvailability(id, availability, sequence));
            && after.sequence == (if sequence > c.sequence then sequence else c.sequence)
            && Device(c.devices, id).Some?
            && var d := Device(c.devices, id).value;
               Device(after.devices, other)
               == if other != id then Device(c.devices, other)
                  else Some(DeviceCard(id, d.displayName, d.flow, availability, d.channels, d.sampleRate,
                                       d.bufferFrames, d.isDefault && availability == Active,
                                       if sequence > d.lastSequence then sequence else d.lastSequence))
  {
    SameIdsSameIndex(Next(c, SetAvailability(id, availability, sequence)).devices, c.devices, other);
  }

  /** The device as it is after another one of its flow became the default. */
  function Displaced(d: Option<DeviceCard>, flow: Flow, displaces: bool): Option<DeviceCard> {
    if d.Some? && d.value.flow == flow && displaces then Some(d.value.(isDefault := false)) else d
  }

  lemma {:induction false} FindIndexOfLonger(devices: seq<DeviceCard>, d: DeviceCard, id: seq<Byte>)
    ensures FindIndex(devices + [d], id)
            == if FindIndex(devices, id) >= 0 then FindIndex(devices, id)
               else if d.endpointId == id then |devices| else -1
  {
    if devices == [] {
      assert devices + [d] == [d] && [d][1..] == [];
    } else {
      assert (devices + [d])[1..] == devices[1..] + [d];
      FindIndexOfLonger(devices[1..], d, id);
    }
  }

  /** The list with the device stored, and the other defaults of its flow cleared when it is one itself. */
  lemma StoredDevice(devices: seq<DeviceCard>, d: DeviceCard, other: seq<Byte>)
    requires UniqueIds(devices)
    ensures var index := FindIndex(devices, d.endpointId);
            var placed := if index >= 0 then devices[index := d] else devices + [d];
            Device(placed, other) == if other == d.endpointId then Some(d) else Device(devices, other)
  {
    var index := FindIndex(devices, d.endpointId);
    if index >= 0 {
      SameIdsSameIndex(devices[index := d], devices, other);
    } else {
      FindIndexOfLonger(devices, d, other);
    }
  }

  lemma ClearedDevice(devices: seq<DeviceCard>, flow: Flow, exceptId: seq<Byte>, other: seq<Byte>)
    ensures Device(ClearedDefaults(devices, flow, exceptId), other)
            == if other == exceptId then Device(devices, other) else Displaced(Device(devices, other), flow, true)
  {
    SameIdsSameIndex(ClearedDefaults(devices, flow, exceptId), devices, other);
  }

  /** An accepted upsert stores the device; of the others only the default of its flow changes, if it is one itself. */
  lemma UpsertSetsOneDevice(c: Catalog, d: DeviceCard, other: seq<Byte>)
    requires UniqueIds(c.devices) && Accepts(c, Upsert(d))
    ensures var after := Next(c, Upsert(d));
            && after.sequence == (if d.lastSequence > c.sequence then d.lastSequence else c.sequence)
            && Device(after.devices, other)
               == if other == d.endpointId then Some(d) else Displaced(Device(c.devices, other), d.flow, d.isDefault)
  {
    var index := FindIndex(c.devices, d.endpointId);
    var placed := if index >= 0 then c.devices[index := d] else c.devices + [d];
    StoredDevice(c.devices, d, other);
    ClearedDevice(placed, d.flow, d.endpointId, other);
  }

  /** An accepted mark makes one device a default and displaces only the previous one of its flow. */
  lemma MarkDefaultSetsOneDevice(c: Catalog, id: seq<Byte>, sequence: UInt64, other: seq<Byte>)
    requires Accepts(c, MarkDefault(id, sequence))
    ensures var after := Next(c, MarkDefault(id, sequence));
            && after.sequence == (if sequence > c.sequence then sequence else c.sequence)
            && Device(c.devices, id).Some?
            && var d := Device(c.devices, id).value;
               Device(after.devices, other)
               == if other != id then Displaced(Device(c.devices, other), Render, true)
                  else Some(DeviceCard(id, d.displayName, Render, Active, d.channels, d.sampleRate, d.bufferFrames,
                                       true, if sequence > d.lastSequence then sequence else d.lastSequence))
  {
    SameIdsSameIndex(Next(c, MarkDefault(id, sequence)).devices, c.devices, other);
  }

  lemma {:induction false} WithoutFinds(devices: seq<DeviceCard>, id: seq<Byte>, other: seq<Byte>)
    ensures Device(Without(devices, id), other) == if other == id then None else Device(devices, other)
  {
    if devices != [] {
      WithoutFinds(devices[1..], id, other);
      var rest := Without(devices[1..], id);
      assert ([devices[0]] + rest)[1..] == rest;
    }
  }

  /** An accepted removal takes one device away; an accepted snapshot replaces them all. */
  lemma RemoveAndReplaceSetDevices(c: Catalog, id: seq<Byte>, snapshot: seq<DeviceCard>, sequence: UInt64,
                                   other: seq<Byte>)
    ensures Accepts(c, Remove(id)) ==>
              && Next(c, Remove(id)).sequence == c.sequence
              && Device(Next(c, Remove(id)).devices, other)
                 == if other == id then None else Device(c.devices, other)
    ensures Accepts(c, ReplaceSnapshot(snapshot, sequence)) ==>
              var after := Next(c, ReplaceSnapshot(snapshot, sequence));
              && after.devices == snapshot
              && after.sequence == (if sequence > c.sequence then sequence else c.sequence)
  {
    WithoutFinds(c.devices, id, other);
  }

  /** Which operations are accepted: those on a known device, or a new one with room, that are not older than it. */
  lemma AcceptsExactly(c: Catalog, id: seq<Byte>, availability: Availability, sequence: UInt64, d: DeviceCard,
                       snapshot: seq<DeviceCard>)
    ensures Accepts(c, SetAvailability(id, availability, sequence))
            <==> Device(c.devices, id).Some? && (sequence == 0 || Device(c.devices, id).value.lastSequence <= sequence)
    ensures Accepts(c, MarkDefault(id, sequence))
            <==> && Accepts(c, SetAvailability(id, Active, sequence))
                 && var known := Device(c.devices, id).value;
                    known.flow == Render && known.availability == Active && SupportedChannels(known.channels)
    ensures Accepts(c, Remove(id)) <==> Device(c.devices, id).Some?
    ensures Accepts(c, Upsert(d))
            <==> && Validate(d)
                 && match Device(c.devices, d.endpointId)
                    case None => |c.devices| <= CAPACITY - 1
                    case Some(known) => d.lastSequence == 0 || known.lastSequence <= d.lastSequence
    ensures Accepts(c, ReplaceSnapshot(snapshot, sequence))
            <==> && AllValid(snapshot) && UniqueIds(snapshot) && OneDefaultPerFlow(snapshot) && |snapshot| <= CAPACITY
                 && (sequence == 0 || c.sequence <= sequence)
  {
  }

  /** One more operation is one more step of the run, and a rejected one is none. */
  lemma {:induction false} RunOneMore(c: Catalog, ops: seq<Operation>, op: Operation)
    ensures Run(c, ops + [op]) == Next(Run(c, ops), op) && Run(c, []) == c
    ensures !Accepts(Run(c, ops), op) ==> Run(c, ops + [op]) == Run(c, ops)
    decreases |ops|
  {
    if ops == [] {
      assert ops + [op] == [op] && [op][1..] == [];
    } else {
      assert (ops + [op])[1..] == ops[1..] + [op];
      RunOneMore(Next(c, ops[0]), ops[1..], op);
    }
  }

  /** What every history from the empty catalog leaves, said on the devices. */
  lemma EveryHistoryIsOrderly(ops: seq<Operation>)
    ensures var devices := Run(Catalog([], 0), ops).devices;
            && |devices| <= 32
            && (forall d :: d in devices && d.isDefault ==> d.availability == Active)
            && (forall d :: d in devices ==> 0 < |d.endpointId| <= 260 && 0 < |d.displayName| <= 128)
            && forall i, j :: 0 <= i < j < |devices| ==>
                 && devices[i].endpointId != devices[j].endpointId
                 && !(devices[i].isDefault && devices[j].isDefault && devices[i].flow == devices[j].flow)
  {
    RunKeepsConsistent(Catalog([], 0), ops);
    var devices := Run(Catalog([], 0), ops).devices;
    forall d | d in devices ensures Validate(d) {
      var i :| 0 <= i < |devices| && devices[i] == d;
    }
  }

  datatype Scan = Scan(seen: set<seq<Byte>>, defaults: set<Flow>)

  /** The device repeats neither an id nor a default of the ones scanned before it. */
  predicate IsNew(d: DeviceCard, scan: Scan) {
    d.endpointId !in scan.seen && !(d.isDefault && d.flow in scan.defaults)
  }

  function Seen(d: DeviceCard, scan: Scan): Scan {
    Scan(scan.seen + {d.endpointId}, if d.isDefault then scan.defaults + {d.flow} else scan.defaults)
  }

  /** The ids and defaults of the first `index` devices, unless one of them repeats something. */
  function ScanOf(devices: seq<DeviceCard>, index: nat): Option<Scan>
    requires index <= |devices|
  {
    if index == 0 then Some(Scan({}, {}))
    else
      match ScanOf(devices, index - 1)
      case None => None
      case Some(scan) =>
        if IsNew(devices[index - 1], scan) then Some(Seen(devices[index - 1], scan)) else None
  }

  lemma {:induction false} ScanOfPrefix(devices: seq<DeviceCard>, other: seq<DeviceCard>, index: nat)
    requires index <= |devices| && index <= |other| && devices[..index] == other[..index]
    ensures ScanOf(devices, index) == ScanOf(other, index)
  {
    if index > 0 {
      assert devices[index - 1] == devices[..index][index - 1] == other[index - 1];
      assert devices[..index - 1] == devices[..index][..index - 1] == other[..index - 1];
      ScanOfPrefix(devices, other, index - 1);
    }
  }

  /** A repetition is never forgotten. */
  lemma {:induction false} ScanStaysNone(devices: seq<DeviceCard>, index: nat, end: nat)
    requires index <= end <= |devices| && ScanOf(devices, index).None?
    ensures ScanOf(devices, end).None?
  {
    if index < end {
      ScanStaysNone(devices, index, end - 1);
    }
  }

  /** What a successful scan has collected. */
  lemma {:induction false} ScanCollects(devices: seq<DeviceCard>, index: nat)
    requires index <= |devices| && ScanOf(devices, index).Some?
    ensures var scan := ScanOf(devices, index).value;
            && (forall id :: id in scan.seen <==> exists i :: 0 <= i < index && devices[i].endpointId == id)
            && (forall flow :: flow in scan.defaults
                               <==> exists i :: 0 <= i < index && devices[i].isDefault && devices[i].flow == flow)
  {
    if index > 0 {
      ScanCollects(devices, index - 1);
    }
  }

  /** The scan succeeds exactly on lists with distinct ids and at most one default per flow. */
  lemma {:induction false} ScanMeansDistinct(devices: seq<DeviceCard>, index: nat)
    requires index <= |devices|
    ensures ScanOf(devices, index).Some? <==> UniqueIds(devices[..index]) && OneDefaultPerFlow(devices[..index])
  {
    if index > 0 {
      ScanMeansDistinct(devices, index - 1);
      var before, d := devices[..index - 1], devices[index - 1];
      assert devices[..index] == before + [d];
      if ScanOf(devices, index - 1).Some? {
        ScanCollects(devices, index - 1);
        assert forall i :: 0 <= i < index - 1 ==> before[i] == devices[i];
        AppendDistinct(before, d);
      } else {
        RepeatsStay(before, devices[..index]);
      }
    }
  }

  lemma AppendDistinct(before: seq<DeviceCard>, d: DeviceCard)
    requires UniqueIds(before) && OneDefaultPerFlow(before)
    ensures UniqueIds(before + [d]) <==> forall i :: 0 <= i < |before| ==> before[i].endpointId != d.endpointId
    ensures OneDefaultPerFlow(before + [d])
            <==> (d.isDefault ==> forall i :: 0 <= i < |before| && before[i].isDefault ==> before[i].flow != d.flow)
  {
    var after := before + [d];
    forall i | 0 <= i < |before| ensures after[i] == before[i] {}
    assert after[|before|] == d;
  }

  lemma RepeatsStay(prefix: seq<DeviceCard>, devices: seq<DeviceCard>)
    requires prefix <= devices
    requires !(UniqueIds(prefix) && OneDefaultPerFlow(prefix))
    ensures !(UniqueIds(devices) && OneDefaultPerFlow(devices))
  {
    assert forall i :: 0 <= i < |prefix| ==> prefix[i] == devices[i];
  }

  lemma WholeScan(devices: seq<DeviceCard>)
    ensures ScanOf(devices, |devices|).Some? <==> UniqueIds(devices) && OneDefaultPerFlow(devices)
  {
    ScanMeansDistinct(devices, |devices|);
    assert devices[..|devices|] == devices;
  }

  /** Stored in place like the source: a list that is edited by index and a sequence that only grows. */
  class PhysicalDeviceCatalog {
    var devices: seq<DeviceCard>
    var catalogSequence: UInt64

    ghost predicate Valid()
      reads this
    {
      Consistent(State())
    }

    ghost function State(): Catalog
      reads this
    {
      Catalog(devices, catalogSequence)
    }

    constructor ()
      ensures Valid() && State() == Catalog([], 0)
    {
      devices, catalogSequence := [], 0;
    }

    method ClearDefaults(flow: Flow, exceptEndpointId: seq<Byte>)
      modifies this`devices
      ensures devices == ClearedDefaults(old(devices), flow, exceptEndpointId)
    {
      for index := 0 to |devices|
        invariant |devices| == |old(devices)|
        invariant forall i :: 0 <= i < index ==> devices[i] == Cleared(old(devices)[i], flow, exceptEndpointId)
        invariant forall i :: index <= i < |devices| ==> devices[i] == old(devices)[i]
      {
        var item := devices[index];
        if item.flow == flow && item.endpointId != exceptEndpointId && item.isDefault {
          devices := devices[index := item.(isDefault := false)];
        }
      }
    }

    method Upsert(device: DeviceCard) returns (accepted: bool)
      requires Valid()
      modifies this
      ensures Valid() && accepted == Accepts(old(State()), Operation.Upsert(device))
      ensures State() == Next(old(State()), Operation.Upsert(device))
    {
      ghost var before := State();
      if !Validate(device) {
        return false;
      }
      var index := FindIndex(devices, device.endpointId);
      if index >= 0 {
        if device.lastSequence != 0 && device.lastSequence < devices[index].lastSequence {
          return false;
        }
        devices := devices[index := device];
      } else {
        if |devices| >= CAPACITY {
          return false;
        }
        devices := devices + [device];
      }
      catalogSequence := Max(catalogSequence, device.lastSequence);
      if device.isDefault {
        ClearDefaults(device.flow, device.endpointId);
      }
      StepKeepsConsistent(before, Operation.Upsert(device));
      return true;
    }

    method ReplaceSnapshot(snapshot: seq<DeviceCard>, sequence: UInt64) returns (accepted: bool)
      requires Valid()
      modifies this
      ensures Valid() && accepted == Accepts(old(State()), Operation.ReplaceSnapshot(snapshot, sequence))
      ensures State() == Next(old(State()), Operation.ReplaceSnapshot(snapshot, sequence))
    {
      if |snapshot| > CAPACITY {
        return false;
      }
      if sequence != 0 && sequence < catalogSequence {
        return false;
      }
      var scan := Scan({}, {});
      for index := 0 to |snapshot|
        invariant ScanOf(snapshot, index) == Some(scan)
        invariant forall i :: 0 <= i < index ==> Validate(snapshot[i])
        invariant unchanged(this)
      {
        var device := snapshot[index];
        if !Validate(device) {
          return false;
        }
        if !IsNew(device, scan) {
          ScanStaysNone(snapshot, index + 1, |snapshot|);
          WholeScan(snapshot);
          return false;
        }
        scan := Seen(device, scan);
      }
      WholeScan(snapshot);
      devices := snapshot;
      catalogSequence := Max(catalogSequence, sequence);
      return true;
    }

    method SetAvailability(endpointId: seq<Byte>, availability: Availability, sequence: UInt64)
      returns (accepted: bool)
      requires Valid()
      modifies this
      ensures Valid()
      ensures accepted == Accepts(old(State()), Operation.SetAvailability(endpointId, availability, sequence))
      ensures State() == Next(old(State()), Operation.SetAvailability(endpointId, availability, sequence))
    {
      ghost var before := State();
      var index := FindIndex(devices, endpointId);
      if index < 0 {
        return false;
      }
      var current := devices[index];
      if sequence != 0 && sequence < current.lastSequence {
        return false;
      }
      devices := devices[index := current.(availability := availability,
                                           isDefault := availability == Active && current.isDefault,
                                           lastSequence := Max(current.lastSequence, sequence))];
      if availability != Active {
        devices := devices[index := devices[index].(isDefault := false)];
      }
      catalogSequence := Max(catalogSequence, sequence);
      assert devices == Applied(before, Operation.SetAvailability(endpointId, availability, sequence)).devices;
      StepKeepsConsistent(before, Operation.SetAvailability(endpointId, availability, sequence));
      return true;
    }

    method MarkDefault(endpointId: seq<Byte>, sequence: UInt64) returns (accepted: bool)
      requires Valid()
      modifies this
      ensures Valid() && accepted == Accepts(old(State()), Operation.MarkDefault(endpointId, sequence))
      ensures State() == Next(old(State()), Operation.MarkDefault(endpointId, sequence))
    {
      ghost var before := State();
      var found := FindIndex(devices, endpointId);
      if found < 0 {
        return false;
      }
      var device := devices[found];
      if !IsSelectable(device) {
        return false;
      }
      if sequence != 0 && sequence < device.lastSequence {
        return false;
      }
      ClearDefaults(device.flow, endpointId);
      FindIndexIsTheOnlyOne(devices, found);
      var index := FindIndex(devices, endpointId);
      devices := devices[index := device.(isDefault := true, lastSequence := Max(device.lastSequence, sequence))];
      catalogSequence := Max(catalogSequence, sequence);
      StepKeepsConsistent(before, Operation.MarkDefault(endpointId, sequence));
      return true;
    }

    method Remove(endpointId: seq<Byte>) returns (removed: bool)
      requires Valid()
      modifies this
      ensures Valid() && removed == Accepts(old(State()), Operation.Remove(endpointId))
      ensures State() == Next(old(State()), Operation.Remove(endpointId))
    {
      ghost var before := State();
      removed := FindIndex(devices, endpointId) >= 0;
      if removed {
        devices := Without(devices, endpointId);
        StepKeepsConsistent(before, Operation.Remove(endpointId));
      }
    }
  }
}

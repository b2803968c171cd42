/** The device trust store: its validity rules and the mutations an operator or an enrollment makes. */
module DeviceTrust {
  import opened Options
  import opened JsStrings
  import opened CanonicalJson
  import opened TrustFingerprint

  const MAX_ENROLLED_DEVICES := 256
  const MAX_ACTIVE_PINS_PER_DEVICE := 2

  const MAX_DISPLAY_LABEL_BYTES := 64
  const MAX_TRUST_STORE_BYTES := 262144
  const MAX_CLIENT_ID_CHARS := 128
  const MAX_CLIENT_TYPE_CHARS := 64

  // ----- the texts a record holds ----------------------------------------------

  predicate IsLowerHex(u: CodeUnit) {
    48 <= u <= 57 || 97 <= u <= 102
  }

  predicate AllLowerHex(s: JsString) {
    forall i :: 0 <= i < |s| ==> IsLowerHex(s[i])
  }

  predicate IsDeviceId(s: JsString) {
    |s| == 32 && AllLowerHex(s)
  }

  predicate IsPin(s: JsString) {
    |s| == 64 && AllLowerHex(s)
  }

  /** What `trim` removes: the white space and line terminators of ECMAScript. */
  predicate IsSpace(u: CodeUnit) {
    || 9 <= u <= 13 || u == 32 || u == 160 || u == 5760 || 8192 <= u <= 8202 || u == 8232 || u == 8233
    || u == 8239 || u == 8287 || u == 12288 || u == 65279
  }

  predicate IsBlank(s: JsString) {
    forall i :: 0 <= i < |s| ==> IsSpace(s[i])
  }

  predicate HasNul(s: JsString) {
    exists i :: 0 <= i < |s| && s[i] == 0
  }

  /** `validateClientId` and `validateClientType` */
  predicate IsClientText(s: JsString, limit: nat) {
    !IsBlank(s) && !HasNul(s) && |s| <= limit
  }

  /** `Buffer.byteLength(s, 'utf8')`; a lone surrogate counts as the replacement character. */
  function Utf8Bytes(s: JsString): nat {
    if s == [] then 0
    else if |s| > 1 && HighSurrogate(s[0]) && LowSurrogate(s[1]) then 4 + Utf8Bytes(s[2..])
    else (if s[0] < 0x80 then 1 else if s[0] < 0x800 then 2 else 3) + Utf8Bytes(s[1..])
  }

  predicate IsLabel(s: JsString) {
    Utf8Bytes(s) <= MAX_DISPLAY_LABEL_BYTES
  }

  predicate ValidTexts(d: Device) {
    && IsDeviceId(d.deviceId)
    && IsClientText(d.clientId, MAX_CLIENT_ID_CHARS) && IsClientText(d.clientType, MAX_CLIENT_TYPE_CHARS)
    && !IsBlank(d.enrolledAt) && IsLabel(d.displayLabel)
  }

  /** `JSON.stringify` of the store's data. */
  function StoreText(devices: seq<Device>): JsString {
    STORE + ListThen(devices, DeviceThen, [CLOSE_BRACKET] + [CLOSE_BRACE])
  }

  predicate FitsCeiling(devices: seq<Device>) {
    Utf8Bytes(StoreText(devices)) <= MAX_TRUST_STORE_BYTES
  }

  // ----- the rules of `validateTrustStoreData` ---------------------------------

  predicate WellFormed(devices: seq<Device>) {
    && |devices| <= MAX_ENROLLED_DEVICES
    && (forall i, j :: 0 <= i < j < |devices| ==> devices[i].deviceId != devices[j].deviceId)
    && (forall i :: 0 <= i < |devices| ==> ValidTexts(devices[i]) && ValidPins(devices[i].pins))
    && (forall i, j :: 0 <= i < j < |devices| ==> ApartPins(devices[i].pins, devices[j].pins))
  }

  predicate ValidPins(pins: seq<JsString>) {
    && 1 <= |pins| <= MAX_ACTIVE_PINS_PER_DEVICE && (forall k :: 0 <= k < |pins| ==> IsPin(pins[k]))
    && forall k, l :: 0 <= k < l < |pins| ==> pins[k] != pins[l]
  }

  predicate ApartPins(ps: seq<JsString>, qs: seq<JsString>) {
    forall k :: 0 <= k < |ps| ==> ps[k] !in qs
  }

  /** Where a device is kept, or the length when it is not. */
  function IndexOfId(devices: seq<Device>, deviceId: JsString): (i: nat)
    ensures i <= |devices|
    ensures i < |devices| ==> devices[i].deviceId == deviceId
    ensures forall j :: 0 <= j < i ==> devices[j].deviceId != deviceId
  {
    if devices == [] || devices[0].deviceId == deviceId then 0 else 1 + IndexOfId(devices[1..], deviceId)
  }

  /** Where the first device holding a pin is kept, or the length when none does. */
  function IndexOfPin(devices: seq<Device>, pin: JsString): (i: nat)
    ensures i <= |devices|
    ensures i < |devices| ==> pin in devices[i].pins
    ensures forall j :: 0 <= j < i ==> pin !in devices[j].pins
  {
    if devices == [] || pin in devices[0].pins then 0 else 1 + IndexOfPin(devices[1..], pin)
  }

  /** `Map.set`: an existing key keeps its place. */
  function Put(devices: seq<Device>, d: Device): seq<Device> {
    var i := IndexOfId(devices, d.deviceId);
    if i < |devices| then devices[i := d] else devices + [d]
  }

  function WithoutPin(pins: seq<JsString>, pin: JsString): seq<JsString> {
    if pins == [] then []
    else if pins[0] == pin then WithoutPin(pins[1..], pin)
    else [pins[0]] + WithoutPin(pins[1..], pin)
  }

  datatype Mutation =
    | Enroll(record: Device, pin: JsString)
    | AddPin(deviceId: JsString, pin: JsString)
    | RemovePin(deviceId: JsString, pin: JsString)
    | Rename(deviceId: JsString, displayLabel: JsString)
    | Revoke(deviceId: JsString)

  predicate EnrollInput(record: Device, pin: JsString) {
    && IsClientText(record.clientId, MAX_CLIENT_ID_CHARS) && IsClientText(record.clientType, MAX_CLIENT_TYPE_CHARS)
    && IsPin(pin) && IsLabel(record.displayLabel)
  }

  function NewRecord(record: Device, pin: JsString): Device {
    record.(pins := [pin], revoked := false)
  }

  /** The store after a mutation, or nothing when it is refused. An enrollment's `record` is the one to be
      added: its freshly generated id, its time and the submitted fields. */
  function Mutated(devices: seq<Device>, m: Mutation): Option<seq<Device>> {
    match m
    case Enroll(record, pin) =>
      var i := IndexOfPin(devices, pin);
      if !EnrollInput(record, pin) then None
      else if i < |devices| then if devices[i].clientId == record.clientId then Some(devices) else None
      else if |devices| >= MAX_ENROLLED_DEVICES || !FitsCeiling(devices + [NewRecord(record, pin)]) then None
      else Some(Put(devices, NewRecord(record, pin)))
    case AddPin(deviceId, pin) =>
      var i := IndexOfId(devices, deviceId);
      if i == |devices| || !IsPin(pin) then None
      else if pin in devices[i].pins then Some(devices)
      else if IndexOfPin(devices, pin) < |devices| || |devices[i].pins| >= MAX_ACTIVE_PINS_PER_DEVICE then None
      else Some(Put(devices, devices[i].(pins := devices[i].pins + [pin])))
    case RemovePin(deviceId, pin) =>
      var i := IndexOfId(devices, deviceId);
      if i == |devices| || !IsPin(pin) || pin !in devices[i].pins || |devices[i].pins| <= 1 then None
      else Some(Put(devices, devices[i].(pins := WithoutPin(devices[i].pins, pin))))
    case Rename(deviceId, displayLabel) =>
      var i := IndexOfId(devices, deviceId);
      if i == |devices| || HasNul(displayLabel) || !IsLabel(displayLabel) then None
      else Some(Put(devices, devices[i].(displayLabel := displayLabel)))
    case Revoke(deviceId) =>
      var i := IndexOfId(devices, deviceId);
      if i == |devices| then None else Some(Put(devices, devices[i].(revoked := true)))
  }

  /** What the generator of ids and the clock give: 32 lower-case hexadecimal digits, and a time. */
  predicate Generated(m: Mutation) {
    m.Enroll? ==> IsDeviceId(m.record.deviceId) && !IsBlank(m.record.enrolledAt)
  }

  // ----- every mutation keeps the store well formed ----------------------------

  lemma {:induction false} WithoutPinIs(pins: seq<JsString>, pin: JsString)
    requires forall k, l :: 0 <= k < l < |pins| ==> pins[k] != pins[l]
    ensures forall p :: p in WithoutPin(pins, pin) <==> p in pins && p != pin
    ensures |WithoutPin(pins, pin)| == if pin in pins then |pins| - 1 else |pins|
    ensures forall k, l :: 0 <= k < l < |WithoutPin(pins, pin)| ==> WithoutPin(pins, pin)[k] != WithoutPin(pins, pin)[l]
  {
    if pins != [] {
      WithoutPinIs(pins[1..], pin);
      assert pins == [pins[0]] + pins[1..];
      var rest := WithoutPin(pins[1..], pin);
      assert forall l :: 0 <= l < |rest| ==> rest[l] in pins[1..];
    }
  }

  /** The pins a device may carry beside the others. */
  ghost predicate PinsFit(devices: seq<Device>, at: int, pins: seq<JsString>) {
    && ValidPins(pins)
    && (forall p, j :: p in pins && 0 <= j < |devices| && j != at ==> p !in devices[j].pins)
  }

  lemma PutIs(devices: seq<Device>, d: Device)
    requires forall j, k :: 0 <= j < k < |devices| ==> devices[j].deviceId != devices[k].deviceId
    ensures var i := IndexOfId(devices, d.deviceId);
      var after := Put(devices, d);
      && i < |after| && after[i] == d
      && |after| == (if i < |devices| then |devices| else |devices| + 1)
      && forall j :: 0 <= j < |after| && j != i ==>
           j < |devices| && after[j] == devices[j] && devices[j].deviceId != d.deviceId
  {
  }

  lemma FitApart(devices: seq<Device>, i: nat, pins: seq<JsString>, j: nat)
    requires PinsFit(devices, i, pins) && j < |devices| && j != i
    ensures ApartPins(pins, devices[j].pins) && ApartPins(devices[j].pins, pins)
  {
    forall k | 0 <= k < |pins| ensures pins[k] !in devices[j].pins {
      assert pins[k] in pins;
    }
  }

  lemma PutKeeps(devices: seq<Device>, d: Device)
    requires WellFormed(devices)
    requires IndexOfId(devices, d.deviceId) == |devices| ==> |devices| < MAX_ENROLLED_DEVICES
    requires PinsFit(devices, IndexOfId(devices, d.deviceId), d.pins) && ValidTexts(d)
    ensures WellFormed(Put(devices, d))
  {
    PutIs(devices, d);
    PutApart(devices, d);
  }

  lemma PutApart(devices: seq<Device>, d: Device)
    requires WellFormed(devices) && PinsFit(devices, IndexOfId(devices, d.deviceId), d.pins)
    ensures var after := Put(devices, d);
      forall j, k :: 0 <= j < k < |after| ==> ApartPins(after[j].pins, after[k].pins)
  {
    var i := IndexOfId(devices, d.deviceId);
    var after := Put(devices, d);
    PutIs(devices, d);
    forall j, k | 0 <= j < k < |after| ensures ApartPins(after[j].pins, after[k].pins) {
      if j == i {
        FitApart(devices, i, d.pins, k);
      } else if k == i {
        FitApart(devices, i, d.pins, j);
      }
    }
  }

  lemma OwnPinsFit(devices: seq<Device>, i: nat, pins: seq<JsString>)
    requires WellFormed(devices) && i < |devices|
    requires ValidPins(pins)
    requires forall p :: p in pins ==> p in devices[i].pins || IndexOfPin(devices, p) == |devices|
    ensures PinsFit(devices, i, pins)
  {
    forall p, j | p in pins && 0 <= j < |devices| && j != i ensures p !in devices[j].pins {
      if p in devices[i].pins {
        assert j < i ==> ApartPins(devices[j].pins, devices[i].pins);
        assert i < j ==> ApartPins(devices[i].pins, devices[j].pins);
      }
    }
  }

  lemma EnrollKeeps(devices: seq<Device>, record: Device, pin: JsString)
    requires WellFormed(devices) && Mutated(devices, Enroll(record, pin)).Some? && Generated(Enroll(record, pin))
    ensures WellFormed(Mutated(devices, Enroll(record, pin)).value)
  {
    if IndexOfPin(devices, pin) == |devices| {
      PutKeeps(devices, NewRecord(record, pin));
    }
  }

  lemma AddPinKeeps(devices: seq<Device>, deviceId: JsString, pin: JsString)
    requires WellFormed(devices) && Mutated(devices, AddPin(deviceId, pin)).Some?
    ensures WellFormed(Mutated(devices, AddPin(deviceId, pin)).value)
  {
    var i := IndexOfId(devices, deviceId);
    var own := devices[i].pins;
    if pin !in own {
      OwnPinsFit(devices, i, own + [pin]);
      PutKeeps(devices, devices[i].(pins := own + [pin]));
    }
  }

  lemma RemovePinKeeps(devices: seq<Device>, deviceId: JsString, pin: JsString)
    requires WellFormed(devices) && Mutated(devices, RemovePin(deviceId, pin)).Some?
    ensures WellFormed(Mutated(devices, RemovePin(deviceId, pin)).value)
  {
    var i := IndexOfId(devices, deviceId);
    var own := devices[i].pins;
    WithoutPinIs(own, pin);
    forall k | 0 <= k < |WithoutPin(own, pin)| ensures IsPin(WithoutPin(own, pin)[k]) {
      assert WithoutPin(own, pin)[k] in own;
    }
    OwnPinsFit(devices, i, WithoutPin(own, pin));
    PutKeeps(devices, devices[i].(pins := WithoutPin(own, pin)));
  }

  /** A change that leaves the pins alone. */
  lemma SamePinsKeep(devices: seq<Device>, i: nat, d: Device)
    requires WellFormed(devices) && i < |devices| && IndexOfId(devices, d.deviceId) == i
    requires d.pins == devices[i].pins && ValidTexts(d)
    ensures WellFormed(Put(devices, d))
  {
    OwnPinsFit(devices, i, d.pins);
    PutKeeps(devices, d);
  }

  /** What the validator accepts it accepts again after every mutation, so that a candidate is never refused on saving
      for its records. */
  lemma MutationKeeps(devices: seq<Device>, m: Mutation)
    requires WellFormed(devices) && Mutated(devices, m).Some? && Generated(m)
    ensures WellFormed(Mutated(devices, m).value)
  {
    match m
    case Enroll(record, pin) => EnrollKeeps(devices, record, pin);
    case AddPin(deviceId, pin) => AddPinKeeps(devices, deviceId, pin);
    case RemovePin(deviceId, pin) => RemovePinKeeps(devices, deviceId, pin);
    case Rename(deviceId, displayLabel) =>
      var i := IndexOfId(devices, deviceId);
      SamePinsKeep(devices, i, devices[i].(displayLabel := displayLabel));
    case Revoke(deviceId) =>
      var i := IndexOfId(devices, deviceId);
      SamePinsKeep(devices, i, devices[i].(revoked := true));
  }

  /** In a well-formed store a pin identifies its device: no other device holds it. */
  lemma PinIdentifies(devices: seq<Device>, i: nat, pin: JsString)
    requires WellFormed(devices) && i < |devices| && pin in devices[i].pins
    ensures IndexOfPin(devices, pin) == i
  {
    var j := IndexOfPin(devices, pin);
    assert j < i ==> ApartPins(devices[j].pins, devices[i].pins);
  }

  /** What no mutation changes about a device that is already enrolled. */
  ghost predicate SameBinding(d: Device, e: Device) {
    && d.deviceId == e.deviceId && d.clientId == e.clientId && d.clientType == e.clientType
    && d.enrolledAt == e.enrolledAt && (d.revoked ==> e.revoked)
  }

  /** A new record gets an id no enrolled device has. */
  ghost predicate FreshId(devices: seq<Device>, m: Mutation) {
    m.Enroll? ==> IndexOfId(devices, m.record.deviceId) == |devices|
  }

  ghost predicate Preserves(before: seq<Device>, after: seq<Device>) {
    |before| <= |after| && forall i :: 0 <= i < |before| ==> SameBinding(before[i], after[i])
  }

  /** Devices are never dropped or rebound to another client, and revocation is final. */
  lemma MutationPreserves(devices: seq<Device>, m: Mutation)
    requires FreshId(devices, m) && Mutated(devices, m).Some?
    ensures Preserves(devices, Mutated(devices, m).value)
  {
  }

  // ----- what each mutation does, field by field --------------------------------

  /** Where the device with this id is kept. */
  ghost predicate EnrolledAt(devices: seq<Device>, deviceId: JsString, i: nat) {
    i < |devices| && devices[i].deviceId == deviceId
  }

  ghost predicate Enrolled(devices: seq<Device>, deviceId: JsString) {
    exists i: nat :: EnrolledAt(devices, deviceId, i)
  }

  ghost predicate PinTaken(devices: seq<Device>, pin: JsString) {
    exists i :: 0 <= i < |devices| && pin in devices[i].pins
  }

  /** All devices but the one at `i` are the same, in the same places. */
  ghost predicate OthersSame(before: seq<Device>, after: seq<Device>, i: nat) {
    |after| == |before| && forall j :: 0 <= j < |before| && j != i ==> after[j] == before[j]
  }

  /** Everything that names a device but its pins, its label and whether it is revoked. */
  ghost predicate SameIdentity(d: Device, e: Device) {
    && e.deviceId == d.deviceId && e.clientId == d.clientId && e.clientType == d.clientType
    && e.enrolledAt == d.enrolledAt
  }

  lemma PlaceIs(devices: seq<Device>, deviceId: JsString, i: nat)
    requires WellFormed(devices)
    ensures EnrolledAt(devices, deviceId, i) <==> i < |devices| && IndexOfId(devices, deviceId) == i
    ensures Enrolled(devices, deviceId) <==> IndexOfId(devices, deviceId) < |devices|
  {
    var j := IndexOfId(devices, deviceId);
    if j < |devices| {
      assert EnrolledAt(devices, deviceId, j);
    }
  }

  /** A revocation is accepted for every enrolled device; it marks that device and changes nothing else. */
  lemma RevokeDoes(devices: seq<Device>, deviceId: JsString, i: nat)
    requires WellFormed(devices)
    ensures Mutated(devices, Revoke(deviceId)).Some? <==> Enrolled(devices, deviceId)
    ensures EnrolledAt(devices, deviceId, i) ==>
      var after := Mutated(devices, Revoke(deviceId)).value;
      && OthersSame(devices, after, i) && after[i].revoked
      && SameIdentity(devices[i], after[i]) && after[i].pins == devices[i].pins
      && after[i].displayLabel == devices[i].displayLabel
  {
    PlaceIs(devices, deviceId, i);
  }

  /** A rename is accepted for every enrolled device and every label without NUL of at most 64 bytes; it sets the
      label and changes nothing else. */
  lemma RenameDoes(devices: seq<Device>, deviceId: JsString, text: JsString, i: nat)
    requires WellFormed(devices)
    ensures Mutated(devices, Rename(deviceId, text)).Some? <==>
      Enrolled(devices, deviceId) && 0 !in text && Utf8Bytes(text) <= 64
    ensures EnrolledAt(devices, deviceId, i) && Mutated(devices, Rename(deviceId, text)).Some? ==>
      var after := Mutated(devices, Rename(deviceId, text)).value;
      && OthersSame(devices, after, i) && after[i].displayLabel == text
      && SameIdentity(devices[i], after[i]) && after[i].pins == devices[i].pins
      && after[i].revoked == devices[i].revoked
  {
    PlaceIs(devices, deviceId, i);
    assert HasNul(text) <==> 0 in text;
  }

  /** A pin of 64 lower-case hexadecimal digits is added to an enrolled device that has it already, or has one pin
      when no device has it; then the device has that pin more, and nothing else changes. */
  lemma AddPinDoes(devices: seq<Device>, deviceId: JsString, pin: JsString, i: nat)
    requires WellFormed(devices) && EnrolledAt(devices, deviceId, i)
    ensures Mutated(devices, AddPin(deviceId, pin)).Some? <==>
      IsPin(pin) && (pin in devices[i].pins || (!PinTaken(devices, pin) && |devices[i].pins| == 1))
    ensures Mutated(devices, AddPin(deviceId, pin)).Some? ==>
      var after := Mutated(devices, AddPin(deviceId, pin)).value;
      && OthersSame(devices, after, i) && SameIdentity(devices[i], after[i])
      && after[i].displayLabel == devices[i].displayLabel && after[i].revoked == devices[i].revoked
      && forall p :: p in after[i].pins <==> p == pin || p in devices[i].pins
  {
    PlaceIs(devices, deviceId, i);
    PinTakenIs(devices, pin);
    assert ValidPins(devices[i].pins);
  }

  lemma PinTakenIs(devices: seq<Device>, pin: JsString)
    ensures PinTaken(devices, pin) <==> IndexOfPin(devices, pin) < |devices|
  {
  }

  /** A pin is removed from an enrolled device that has it and another one; then the device has that pin less, and
      nothing else changes. */
  lemma RemovePinDoes(devices: seq<Device>, deviceId: JsString, pin: JsString, i: nat)
    requires WellFormed(devices) && EnrolledAt(devices, deviceId, i)
    ensures Mutated(devices, RemovePin(deviceId, pin)).Some? <==> pin in devices[i].pins && |devices[i].pins| == 2
    ensures Mutated(devices, RemovePin(deviceId, pin)).Some? ==>
      var after := Mutated(devices, RemovePin(deviceId, pin)).value;
      && OthersSame(devices, after, i) && SameIdentity(devices[i], after[i])
      && after[i].displayLabel == devices[i].displayLabel && after[i].revoked == devices[i].revoked
      && forall p :: p in after[i].pins <==> p != pin && p in devices[i].pins
  {
    PlaceIs(devices, deviceId, i);
    var own := devices[i].pins;
    assert ValidPins(own);
    WithoutPinIs(own, pin);
  }

  /** Changes to pins and labels are refused for a device that is not enrolled. */
  lemma StrangersAreRefused(devices: seq<Device>, m: Mutation)
    requires WellFormed(devices) && !m.Enroll? && !Enrolled(devices, m.deviceId)
    ensures Mutated(devices, m).None?
  {
    PlaceIs(devices, m.deviceId, 0);
  }

  /** What may be submitted: a client id of at most 128 characters and a client type of at most 64, neither blank nor
      with a NUL, a pin of 64 lower-case hexadecimal digits, and a label of at most 64 bytes. */
  ghost predicate Submittable(record: Device, pin: JsString) {
    && |record.clientId| <= 128 && 0 !in record.clientId && (exists u :: u in record.clientId && !IsSpace(u))
    && |record.clientType| <= 64 && 0 !in record.clientType && (exists u :: u in record.clientType && !IsSpace(u))
    && |pin| == 64 && (forall u :: u in pin ==> 48 <= u <= 57 || 97 <= u <= 102)
    && Utf8Bytes(record.displayLabel) <= 64
  }

  lemma TextIs(s: JsString, limit: nat)
    ensures IsClientText(s, limit) <==> |s| <= limit && 0 !in s && exists u :: u in s && !IsSpace(u)
  {
    if i :| 0 <= i < |s| && !IsSpace(s[i]) {
      assert s[i] in s;
    }
  }

  lemma SubmittableIs(record: Device, pin: JsString)
    ensures EnrollInput(record, pin) <==> Submittable(record, pin)
  {
    TextIs(record.clientId, 128);
    TextIs(record.clientType, 64);
    LowerHexIs(pin);
  }

  lemma LowerHexIs(s: JsString)
    ensures AllLowerHex(s) <==> forall u :: u in s ==> 48 <= u <= 57 || 97 <= u <= 102
  {
    forall i | 0 <= i < |s| ensures s[i] in s {
    }
  }

  /** An enrollment under a free pin is accepted exactly for valid texts, a free place and a file within the ceiling,
      and adds one device at the end: the submitted one, unrevoked, with that pin alone. */
  lemma EnrollDoes(devices: seq<Device>, record: Device, pin: JsString)
    requires WellFormed(devices) && !PinTaken(devices, pin) && !Enrolled(devices, record.deviceId)
    ensures Mutated(devices, Enroll(record, pin)).Some? <==>
      && Submittable(record, pin) && |devices| < 256
      && Utf8Bytes(StoreText(devices + [record.(pins := [pin], revoked := false)])) <= 262144
    ensures Mutated(devices, Enroll(record, pin)).Some? ==>
      var after := Mutated(devices, Enroll(record, pin)).value;
      && |after| == |devices| + 1 && after[..|devices|] == devices
      && SameIdentity(record, after[|devices|]) && after[|devices|].displayLabel == record.displayLabel
      && after[|devices|].pins == [pin] && !after[|devices|].revoked
  {
    SubmittableIs(record, pin);
    PinTakenIs(devices, pin);
    PlaceIs(devices, record.deviceId, 0);
  }

  /** One under a pin that a device has is accepted exactly for that device's client, and changes nothing. */
  lemma ReenrollDoes(devices: seq<Device>, record: Device, pin: JsString, i: nat)
    requires WellFormed(devices) && i < |devices| && pin in devices[i].pins
    ensures Mutated(devices, Enroll(record, pin)) ==
      if Submittable(record, pin) && devices[i].clientId == record.clientId then Some(devices) else None
  {
    SubmittableIs(record, pin);
    PinIdentifies(devices, i, pin);
  }

  /** UTF-8 takes one byte for ASCII, two up to U+07FF, four for a surrogate pair, and three for the rest. */
  lemma Utf8Is(u: CodeUnit, v: CodeUnit, rest: JsString)
    ensures Utf8Bytes([]) == 0
    ensures u < 0x80 ==> Utf8Bytes([u] + rest) == 1 + Utf8Bytes(rest)
    ensures 0x80 <= u < 0x800 ==> Utf8Bytes([u] + rest) == 2 + Utf8Bytes(rest)
    ensures 0x800 <= u < 0xD800 || 0xDC00 <= u ==> Utf8Bytes([u] + rest) == 3 + Utf8Bytes(rest)
    ensures 0xD800 <= u < 0xDC00 <= v < 0xE000 ==> Utf8Bytes([u, v] + rest) == 4 + Utf8Bytes(rest)
  {
    assert ([u] + rest)[1..] == rest && ([u, v] + rest)[2..] == rest;
  }

  // ----- the object ------------------------------------------------------------

  class DeviceTrustStore {
    var devices: seq<Device>

    constructor (data: seq<Device>)
      requires WellFormed(data)
      ensures devices == data
    {
      devices := data;
    }

    method FindDeviceByPin(pin: JsString) returns (found: Option<Device>)
      ensures found.Some? <==> exists i :: 0 <= i < |devices| && pin in devices[i].pins
      ensures found.Some? ==> IndexOfPin(devices, pin) < |devices| && found.value == devices[IndexOfPin(devices, pin)]
    {
      var i := 0;
      while i < |devices|
        invariant 0 <= i <= |devices|
        invariant forall j :: 0 <= j < i ==> pin !in devices[j].pins
      {
        if pin in devices[i].pins {
          return Some(devices[i]);
        }
        i := i + 1;
      }
      return None;
    }

    method EnrollDevice(record: Device, pin: JsString) returns (ok: bool)
      requires WellFormed(devices) && Generated(Enroll(record, pin))
      modifies this
      ensures WellFormed(devices)
      ensures ok == Mutated(old(devices), Enroll(record, pin)).Some?
      ensures devices == if ok then Mutated(old(devices), Enroll(record, pin)).value else old(devices)
    {
      if !EnrollInput(record, pin) {
        return false;
      }
      var existing := FindDeviceByPin(pin);
      if existing.Some? {
        return existing.value.clientId == record.clientId;
      }
      if |devices| >= MAX_ENROLLED_DEVICES {
        return false;
      }
      var candidate := devices + [NewRecord(record, pin)];
      if Utf8Bytes(StoreText(candidate)) > MAX_TRUST_STORE_BYTES {
        return false;
      }
      MutationKeeps(devices, Enroll(record, pin));
      devices := Put(devices, NewRecord(record, pin));
      return true;
    }

    method AddPinToDevice(deviceId: JsString, newPin: JsString) returns (ok: bool)
      requires WellFormed(devices)
      modifies this
      ensures WellFormed(devices)
      ensures ok == Mutated(old(devices), AddPin(deviceId, newPin)).Some?
      ensures devices == if ok then Mutated(old(devices), AddPin(deviceId, newPin)).value else old(devices)
    {
      var i := IndexOfId(devices, deviceId);
      if i == |devices| || !IsPin(newPin) {
        return false;
      }
      var dev := devices[i];
      if newPin in dev.pins {
        return true;
      }
      var other := FindDeviceByPin(newPin);
      if other.Some? && other.value.deviceId != deviceId {
        return false;
      }
      if |dev.pins| >= MAX_ACTIVE_PINS_PER_DEVICE {
        return false;
      }
      MutationKeeps(devices, AddPin(deviceId, newPin));
      devices := Put(devices, dev.(pins := dev.pins + [newPin]));
      return true;
    }

    method RemovePinFromDevice(deviceId: JsString, pinToRemove: JsString) returns (ok: bool)
      requires WellFormed(devices)
      modifies this
      ensures WellFormed(devices)
      ensures ok == Mutated(old(devices), RemovePin(deviceId, pinToRemove)).Some?
      ensures devices == if ok then Mutated(old(devices), RemovePin(deviceId, pinToRemove)).value else old(devices)
    {
      var i := IndexOfId(devices, deviceId);
      if i == |devices| || !IsPin(pinToRemove) || pinToRemove !in devices[i].pins || |devices[i].pins| <= 1 {
        return false;
      }
      MutationKeeps(devices, RemovePin(deviceId, pinToRemove));
      devices := Put(devices, devices[i].(pins := WithoutPin(devices[i].pins, pinToRemove)));
      return true;
    }

    method RenameDevice(deviceId: JsString, displayLabel: JsString) returns (ok: bool)
      requires WellFormed(devices)
      modifies this
      ensures WellFormed(devices)
      ensures ok == Mutated(old(devices), Rename(deviceId, displayLabel)).Some?
      ensures devices == if ok then Mutated(old(devices), Rename(deviceId, displayLabel)).value else old(devices)
    {
      var i := IndexOfId(devices, deviceId);
      if i == |devices| || HasNul(displayLabel) || !IsLabel(displayLabel) {
        return false;
      }
      MutationKeeps(devices, Rename(deviceId, displayLabel));
      devices := Put(devices, devices[i].(displayLabel := displayLabel));
      return true;
    }

    method RevokeDevice(deviceId: JsString) returns (ok: bool)
      requires WellFormed(devices)
      modifies this
      ensures WellFormed(devices)
      ensures ok == Mutated(old(devices), Revoke(deviceId)).Some?
      ensures devices == if ok then Mutated(old(devices), Revoke(deviceId)).value else old(devices)
    {
      var i := IndexOfId(devices, deviceId);
      if i == |devices| {
        return false;
      }
      MutationKeeps(devices, Revoke(deviceId));
      devices := Put(devices, devices[i].(revoked := true));
      return true;
    }
  }
}

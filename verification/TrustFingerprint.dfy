/** The device trust store's data, and the fingerprint that decides whether two states agree. */
module TrustFingerprint {
  import opened JsStrings
  import opened CanonicalJson
  import opened CanonicalJsonProofs

  datatype Device = Device(
    deviceId: JsString,
    clientId: JsString,
    clientType: JsString,
    pins: seq<JsString>,
    enrolledAt: JsString,
    displayLabel: JsString,
    revoked: bool)

  function DeviceIdOf(d: Device): JsString { d.deviceId }

  // The fingerprint's own text, up to each value.
  /** `{"version":1,"devices":[` */
  const STORE: JsString :=
    [123, 34, 118, 101, 114, 115, 105, 111, 110, 34, 58, 49, 44, 34, 100, 101, 118, 105, 99, 101, 115, 34, 58, 91]
  /** `"deviceId":` */
  const DEVICE_ID: JsString := [34, 100, 101, 118, 105, 99, 101, 73, 100, 34, 58]
  /** `,"clientId":` */
  const CLIENT_ID: JsString := [44, 34, 99, 108, 105, 101, 110, 116, 73, 100, 34, 58]
  /** `,"clientType":` */
  const CLIENT_TYPE: JsString := [44, 34, 99, 108, 105, 101, 110, 116, 84, 121, 112, 101, 34, 58]
  /** `,"pins":[` */
  const PINS: JsString := [44, 34, 112, 105, 110, 115, 34, 58, 91]
  /** `,"enrolledAt":` */
  const ENROLLED_AT: JsString := [44, 34, 101, 110, 114, 111, 108, 108, 101, 100, 65, 116, 34, 58]
  /** `,"displayLabel":` */
  const DISPLAY_LABEL: JsString := [44, 34, 100, 105, 115, 112, 108, 97, 121, 76, 97, 98, 101, 108, 34, 58]
  /** `,"revoked":` */
  const REVOKED: JsString := [44, 34, 114, 101, 118, 111, 107, 101, 100, 34, 58]

  // ----- trustStateFingerprint -------------------------------------------------

  function Normalized(d: Device): Device {
    d.(pins := Sort(d.pins, Itself))
  }

  function NormalizedAll(devices: seq<Device>): seq<Device> {
    seq(|devices|, i requires 0 <= i < |devices| => Normalized(devices[i]))
  }

  // The texts below are written with what follows them, as the fingerprint's one
  // `JSON.stringify` lays them out: object keys in the order the literal lists them.

  /** Elements separated by commas. */
  function ListThen<T>(items: seq<T>, render: (T, JsString) -> JsString, rest: JsString): JsString
    decreases items, 1
  {
    if items == [] then rest else render(items[0], AfterItem(items, render, rest))
  }

  function AfterItem<T>(items: seq<T>, render: (T, JsString) -> JsString, rest: JsString): JsString
    requires items != []
    decreases items, 0
  {
    if |items| == 1 then rest else [COMMA] + ListThen(items[1..], render, rest)
  }

  function QuoteThen(s: JsString, rest: JsString): JsString {
    Quote(s) + rest
  }

  function QuotedThen(name: JsString, s: JsString, rest: JsString): JsString {
    name + (Quote(s) + rest)
  }

  function RevokedThen(revoked: bool, rest: JsString): JsString {
    REVOKED + ((if revoked then TRUE_TEXT else FALSE_TEXT) + ([CLOSE_BRACE] + rest))
  }

  function PinListThen(pins: seq<JsString>, rest: JsString): JsString {
    PINS + ListThen(pins, QuoteThen, [CLOSE_BRACKET] + rest)
  }

  function DeviceThen(d: Device, rest: JsString): JsString {
    [OPEN_BRACE] + QuotedThen(DEVICE_ID, d.deviceId,
      QuotedThen(CLIENT_ID, d.clientId,
        QuotedThen(CLIENT_TYPE, d.clientType,
          PinListThen(d.pins,
            QuotedThen(ENROLLED_AT, d.enrolledAt,
              QuotedThen(DISPLAY_LABEL, d.displayLabel,
                RevokedThen(d.revoked, rest)))))))
  }

  function Fingerprint(devices: seq<Device>): JsString {
    STORE +
      ListThen(Sort(NormalizedAll(devices), DeviceIdOf), DeviceThen, [CLOSE_BRACKET] + [CLOSE_BRACE])
  }

  // ----- the text determines the devices ---------------------------------------

  /** What is rendered, and where its text ends, can be read back. */
  ghost predicate Readable<T(!new)>(render: (T, JsString) -> JsString) {
    && (forall a, x :: render(a, x) != [] && render(a, x)[0] != CLOSE_BRACKET)
    && (forall a, b, x, y :: render(a, x) == render(b, y) ==> a == b && x == y)
  }

  lemma {:induction false} ListUnique<T(!new)>(xs: seq<T>, ys: seq<T>, render: (T, JsString) -> JsString,
                                               u: JsString, v: JsString)
    requires Readable(render)
    requires u != [] && v != [] && u[0] == v[0] == CLOSE_BRACKET
    requires ListThen(xs, render, u) == ListThen(ys, render, v)
    ensures xs == ys && u == v
    decreases xs, 1
  {
    if xs != [] && ys != [] {
      AfterItemUnique(xs, ys, render, u, v);
    }
  }

  lemma {:induction false} AfterItemUnique<T(!new)>(xs: seq<T>, ys: seq<T>, render: (T, JsString) -> JsString,
                                                    u: JsString, v: JsString)
    requires Readable(render)
    requires u != [] && v != [] && u[0] == v[0] == CLOSE_BRACKET
    requires xs != [] && ys != [] && xs[0] == ys[0] && AfterItem(xs, render, u) == AfterItem(ys, render, v)
    ensures xs == ys && u == v
    decreases xs, 0
  {
    assert AfterItem(xs, render, u)[0] == AfterItem(ys, render, v)[0];
    if |xs| == 1 {
      assert xs == [xs[0]] && ys == [ys[0]];
    } else {
      Dropped([COMMA], ListThen(xs[1..], render, u), ListThen(ys[1..], render, v));
      ListUnique(xs[1..], ys[1..], render, u, v);
      assert xs == [xs[0]] + xs[1..] && ys == [ys[0]] + ys[1..];
    }
  }

  lemma QuoteReadable()
    ensures Readable(QuoteThen)
  {
    forall a, b, x, y | QuoteThen(a, x) == QuoteThen(b, y) ensures a == b && x == y {
      QuoteUnique(a, b, x, y);
    }
  }

  lemma QuotedUnique(name: JsString, s: JsString, t: JsString, x: JsString, y: JsString)
    requires QuotedThen(name, s, x) == QuotedThen(name, t, y)
    ensures s == t && x == y
  {
    Dropped(name, Quote(s) + x, Quote(t) + y);
    QuoteUnique(s, t, x, y);
  }

  lemma PinListUnique(ps: seq<JsString>, qs: seq<JsString>, x: JsString, y: JsString)
    requires PinListThen(ps, x) == PinListThen(qs, y)
    ensures ps == qs && x == y
  {
    Dropped(PINS, ListThen(ps, QuoteThen, [CLOSE_BRACKET] + x), ListThen(qs, QuoteThen, [CLOSE_BRACKET] + y));
    QuoteReadable();
    ListUnique(ps, qs, QuoteThen, [CLOSE_BRACKET] + x, [CLOSE_BRACKET] + y);
    Dropped([CLOSE_BRACKET], x, y);
  }

  lemma RevokedUnique(a: bool, b: bool, x: JsString, y: JsString)
    requires RevokedThen(a, x) == RevokedThen(b, y)
    ensures a == b && x == y
  {
    var ta := if a then TRUE_TEXT else FALSE_TEXT;
    var tb := if b then TRUE_TEXT else FALSE_TEXT;
    Dropped(REVOKED, ta + ([CLOSE_BRACE] + x), tb + ([CLOSE_BRACE] + y));
    assert (ta + ([CLOSE_BRACE] + x))[0] == ta[0] && (tb + ([CLOSE_BRACE] + y))[0] == tb[0];
    Dropped(ta, [CLOSE_BRACE] + x, [CLOSE_BRACE] + y);
    Dropped([CLOSE_BRACE], x, y);
  }

  lemma DeviceUnique(d: Device, e: Device, x: JsString, y: JsString)
    requires DeviceThen(d, x) == DeviceThen(e, y)
    ensures d == e && x == y
  {
    var (d6, e6) := (RevokedThen(d.revoked, x), RevokedThen(e.revoked, y));
    var (d5, e5) := (QuotedThen(DISPLAY_LABEL, d.displayLabel, d6),
                     QuotedThen(DISPLAY_LABEL, e.displayLabel, e6));
    var (d4, e4) := (QuotedThen(ENROLLED_AT, d.enrolledAt, d5),
                     QuotedThen(ENROLLED_AT, e.enrolledAt, e5));
    var (d3, e3) := (PinListThen(d.pins, d4), PinListThen(e.pins, e4));
    var (d2, e2) := (QuotedThen(CLIENT_TYPE, d.clientType, d3),
                     QuotedThen(CLIENT_TYPE, e.clientType, e3));
    var (d1, e1) := (QuotedThen(CLIENT_ID, d.clientId, d2),
                     QuotedThen(CLIENT_ID, e.clientId, e2));
    Dropped([OPEN_BRACE], QuotedThen(DEVICE_ID, d.deviceId, d1),
            QuotedThen(DEVICE_ID, e.deviceId, e1));
    QuotedUnique(DEVICE_ID, d.deviceId, e.deviceId, d1, e1);
    QuotedUnique(CLIENT_ID, d.clientId, e.clientId, d2, e2);
    QuotedUnique(CLIENT_TYPE, d.clientType, e.clientType, d3, e3);
    PinListUnique(d.pins, e.pins, d4, e4);
    QuotedUnique(ENROLLED_AT, d.enrolledAt, e.enrolledAt, d5, e5);
    QuotedUnique(DISPLAY_LABEL, d.displayLabel, e.displayLabel, d6, e6);
    RevokedUnique(d.revoked, e.revoked, x, y);
  }

  lemma DeviceReadable()
    ensures Readable(DeviceThen)
  {
    forall d, e, x, y | DeviceThen(d, x) == DeviceThen(e, y) ensures d == e && x == y {
      DeviceUnique(d, e, x, y);
    }
  }

  // ----- what the fingerprint decides ------------------------------------------

  ghost predicate DistinctIds(devices: seq<Device>) {
    forall i, j :: 0 <= i < j < |devices| ==> devices[i].deviceId != devices[j].deviceId
  }

  /** The same record, its pins in any order. */
  ghost predicate SameDevice(d: Device, e: Device) {
    && d.deviceId == e.deviceId && d.clientId == e.clientId && d.clientType == e.clientType
    && multiset(d.pins) == multiset(e.pins)
    && d.enrolledAt == e.enrolledAt && d.displayLabel == e.displayLabel && d.revoked == e.revoked
  }

  ghost predicate Present(d: Device, devices: seq<Device>) {
    exists i :: 0 <= i < |devices| && SameDevice(d, devices[i])
  }

  /** Every device of `a` is one of `b`. */
  ghost predicate Within(a: seq<Device>, b: seq<Device>) {
    forall i :: 0 <= i < |a| ==> Present(a[i], b)
  }

  /** The same devices, in any order. */
  ghost predicate Agree(a: seq<Device>, b: seq<Device>) {
    Within(a, b) && Within(b, a)
  }

  lemma SameDeviceNormalizes(d: Device, e: Device)
    ensures SameDevice(d, e) <==> Normalized(d) == Normalized(e)
  {
    SortDecidesRearrangement(d.pins, e.pins, Itself);
  }

  lemma WithinNormalizes(a: seq<Device>, b: seq<Device>)
    ensures Within(a, b) <==> forall d :: d in NormalizedAll(a) ==> d in NormalizedAll(b)
  {
    var (na, nb) := (NormalizedAll(a), NormalizedAll(b));
    if Within(a, b) {
      forall d | d in na ensures d in nb {
        var i :| 0 <= i < |na| && na[i] == d;
        var j :| 0 <= j < |b| && SameDevice(a[i], b[j]);
        SameDeviceNormalizes(a[i], b[j]);
        assert nb[j] == d;
      }
    }
    if forall d :: d in na ==> d in nb {
      forall i | 0 <= i < |a| ensures Present(a[i], b) {
        assert na[i] in na;
        var j :| 0 <= j < |nb| && nb[j] == na[i];
        SameDeviceNormalizes(a[i], b[j]);
      }
    }
  }

  lemma NormalizedApart(a: seq<Device>)
    requires DistinctIds(a)
    ensures forall i, j :: 0 <= i < j < |NormalizedAll(a)| ==> NormalizedAll(a)[i] != NormalizedAll(a)[j]
  {
  }

  lemma AgreeIsRearrangement(a: seq<Device>, b: seq<Device>)
    requires DistinctIds(a) && DistinctIds(b)
    ensures Agree(a, b) <==> multiset(NormalizedAll(a)) == multiset(NormalizedAll(b))
  {
    WithinNormalizes(a, b);
    WithinNormalizes(b, a);
    NormalizedApart(a);
    NormalizedApart(b);
    SameElements(NormalizedAll(a), NormalizedAll(b));
  }

  /** Two states have one fingerprint exactly when they hold the same devices, in any order, each with the same pins,
      in any order. */
  lemma FingerprintDecidesAgreement(a: seq<Device>, b: seq<Device>)
    requires DistinctIds(a) && DistinctIds(b)
    ensures Fingerprint(a) == Fingerprint(b) <==> Agree(a, b)
  {
    var (sa, sb) := (Sort(NormalizedAll(a), DeviceIdOf), Sort(NormalizedAll(b), DeviceIdOf));
    AgreeIsRearrangement(a, b);
    SortDecidesRearrangement(NormalizedAll(a), NormalizedAll(b), DeviceIdOf);
    if Fingerprint(a) == Fingerprint(b) {
      var end := [CLOSE_BRACKET] + [CLOSE_BRACE];
      Dropped(STORE, ListThen(sa, DeviceThen, end), ListThen(sb, DeviceThen, end));
      DeviceReadable();
      ListUnique(sa, sb, DeviceThen, end, end);
    }
  }
}

/** `canonicalJson`: the text every audit hash is computed over. */
module CanonicalJson {
  import opened JsStrings

  /** A JSON value as JavaScript holds it: object fields in insertion order, and `undefined`. */
  datatype Json =
    | Null
    | Undefined
    | Bool(b: bool)
    | Num(n: int)
    | Str(s: JsString)
    | Arr(items: seq<Json>)
    | Obj(fields: seq<Field>)

  datatype Field = Field(key: JsString, value: Json)

  const QUOTE: CodeUnit := 34
  const COMMA: CodeUnit := 44
  const COLON: CodeUnit := 58
  const OPEN_BRACKET: CodeUnit := 91
  const BACKSLASH: CodeUnit := 92
  const CLOSE_BRACKET: CodeUnit := 93
  const OPEN_BRACE: CodeUnit := 123
  const CLOSE_BRACE: CodeUnit := 125

  const NULL_TEXT: JsString := [110, 117, 108, 108]
  const TRUE_TEXT: JsString := [116, 114, 117, 101]
  const FALSE_TEXT: JsString := [102, 97, 108, 115, 101]
  const UNDEFINED_TEXT: JsString := [117, 110, 100, 101, 102, 105, 110, 101, 100]

  /** `__proto__` */
  const PROTO_KEY: JsString := [95, 95, 112, 114, 111, 116, 111, 95, 95]

  // ----- JSON.stringify of strings ---------------------------------------------

  function HexDigit(d: int): CodeUnit
    requires 0 <= d < 16
  {
    if d < 10 then 48 + d else 87 + d
  }

  function UnicodeEscape(u: CodeUnit): JsString {
    [BACKSLASH, 117, HexDigit(u / 4096), HexDigit(u / 256 % 16), HexDigit(u / 16 % 16), HexDigit(u % 16)]
  }

  predicate HighSurrogate(u: CodeUnit) { 0xD800 <= u < 0xDC00 }
  predicate LowSurrogate(u: CodeUnit) { 0xDC00 <= u < 0xE000 }

  function EscapeUnit(u: CodeUnit): JsString {
    if u == QUOTE then [BACKSLASH, QUOTE]
    else if u == BACKSLASH then [BACKSLASH, BACKSLASH]
    else if u == 8 then [BACKSLASH, 98]
    else if u == 9 then [BACKSLASH, 116]
    else if u == 10 then [BACKSLASH, 110]
    else if u == 12 then [BACKSLASH, 102]
    else if u == 13 then [BACKSLASH, 114]
    else if u < 32 || HighSurrogate(u) || LowSurrogate(u) then UnicodeEscape(u)
    else [u]
  }

  /** A surrogate pair is kept; a lone surrogate is escaped. */
  function Escaped(s: JsString): JsString {
    if s == [] then []
    else if |s| > 1 && HighSurrogate(s[0]) && LowSurrogate(s[1]) then [s[0], s[1]] + Escaped(s[2..])
    else EscapeUnit(s[0]) + Escaped(s[1..])
  }

  function Quote(s: JsString): JsString {
    [QUOTE] + Escaped(s) + [QUOTE]
  }

  function Digits(n: nat): JsString {
    if n < 10 then [48 + n] else Digits(n / 10) + [48 + n % 10]
  }

  function NumberText(n: int): JsString {
    if n < 0 then [45] + Digits(-n) else Digits(n)
  }

  // ----- canonicalJson ---------------------------------------------------------

  function Itself(s: JsString): JsString { s }

  function Keys(fields: seq<Field>): seq<JsString> {
    seq(|fields|, i requires 0 <= i < |fields| => fields[i].key)
  }

  /** `Object.keys(obj).sort()` */
  function SortedKeys(fields: seq<Field>): seq<JsString> {
    Sort(Keys(fields), Itself)
  }

  function IndexOf(fields: seq<Field>, key: JsString): (i: nat)
    requires key in Keys(fields)
    ensures i < |fields| && fields[i].key == key
  {
    if fields[0].key == key then 0
    else
      assert Keys(fields[1..]) == Keys(fields)[1..];
      1 + IndexOf(fields[1..], key)
  }

  function Canonical(v: Json): JsString
    decreases v, 1
  {
    match v
    case Null => NULL_TEXT
    case Undefined => UNDEFINED_TEXT
    case Bool(b) => if b then TRUE_TEXT else FALSE_TEXT
    case Num(n) => NumberText(n)
    case Str(s) => Quote(s)
    case Arr(items) => [OPEN_BRACKET] + Items(items) + [CLOSE_BRACKET]
    case Obj(fields) =>
      SortIs(Keys(fields), Itself);
      assert forall k :: k in SortedKeys(fields) ==> k in multiset(SortedKeys(fields));
      [OPEN_BRACE] + Entries(fields, SortedKeys(fields)) + [CLOSE_BRACE]
  }

  /** Array elements joined by commas; `join` renders an `undefined` element as nothing. */
  function Items(items: seq<Json>): JsString
    decreases items, 0
  {
    if items == [] then []
    else
      var first := if items[0].Undefined? then [] else Canonical(items[0]);
      if |items| == 1 then first else first + [COMMA] + Items(items[1..])
  }

  function Entries(fields: seq<Field>, keys: seq<JsString>): JsString
    requires forall k :: k in keys ==> k in Keys(fields)
    decreases fields, 0, |keys|, 1
  {
    if keys == [] then []
    else Entry(keys[0], Canonical(fields[IndexOf(fields, keys[0])].value)) + MoreEntries(fields, keys)
  }

  function Entry(key: JsString, value: JsString): JsString {
    Quote(key) + [COLON] + value
  }

  function MoreEntries(fields: seq<Field>, keys: seq<JsString>): JsString
    requires keys != [] && forall k :: k in keys ==> k in Keys(fields)
    decreases fields, 0, |keys|, 0
  {
    if |keys| == 1 then [] else [COMMA] + Entries(fields, keys[1..])
  }

  // ----- what the text identifies ----------------------------------------------

  ghost predicate DistinctKeys(fields: seq<Field>) {
    forall i, j :: 0 <= i < j < |fields| ==> fields[i].key != fields[j].key
  }

  /** Trees with `undefined` only as an object field and no repeated key. */
  ghost predicate Printable(v: Json) {
    match v
    case Undefined => false
    case Arr(items) => forall i :: 0 <= i < |items| ==> Printable(items[i])
    case Obj(fields) =>
      && DistinctKeys(fields)
      && forall i :: 0 <= i < |fields| ==> fields[i].value.Undefined? || Printable(fields[i].value)
    case _ => true
  }

  /** Equal up to the order of object keys. */
  ghost predicate Same(a: Json, b: Json) {
    match (a, b)
    case (Arr(xs), Arr(ys)) => |xs| == |ys| && forall i :: 0 <= i < |xs| ==> Same(xs[i], ys[i])
    case (Obj(fs), Obj(gs)) =>
      && (forall k :: k in Keys(fs) <==> k in Keys(gs))
      && forall i, j :: 0 <= i < |fs| && 0 <= j < |gs| && fs[i].key == gs[j].key ==> Same(fs[i].value, gs[j].value)
    case _ => a == b
  }
}

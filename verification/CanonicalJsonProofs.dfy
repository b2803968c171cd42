/** Two trees have the same canonical text exactly when they are equal up to key order. */
module CanonicalJsonProofs {
  import opened JsStrings
  import opened CanonicalJson

  // ----- reading a text back ---------------------------------------------------

  function HexValue(u: CodeUnit): (d: int)
    ensures 0 <= d < 16
  {
    if 48 <= u < 58 then u - 48 else if 97 <= u < 103 then u - 87 else 0
  }

  function ShortEscape(u: CodeUnit): CodeUnit {
    match u
    case 98 => 8
    case 116 => 9
    case 110 => 10
    case 102 => 12
    case 114 => 13
    case _ => u
  }

  /** Reads string contents up to the closing quote, and what follows it. */
  function Unescape(w: JsString): (JsString, JsString) {
    if w == [] then ([], [])
    else if w[0] == QUOTE then ([], w[1..])
    else if w[0] == BACKSLASH && |w| >= 6 && w[1] == 117 then
      var (s, rest) := Unescape(w[6..]);
      ([HexValue(w[2]) * 4096 + HexValue(w[3]) * 256 + HexValue(w[4]) * 16 + HexValue(w[5])] + s, rest)
    else if w[0] == BACKSLASH && |w| >= 2 then
      var (s, rest) := Unescape(w[2..]);
      ([ShortEscape(w[1])] + s, rest)
    else
      var (s, rest) := Unescape(w[1..]);
      ([w[0]] + s, rest)
  }

  lemma UnescapePlain(u: CodeUnit, w: JsString)
    requires u != QUOTE && u != BACKSLASH
    ensures Unescape([u] + w) == ([u] + Unescape(w).0, Unescape(w).1)
  {
    assert ([u] + w)[1..] == w;
  }

  lemma UnescapeShort(c: CodeUnit, w: JsString)
    requires c != 117
    ensures Unescape([BACKSLASH, c] + w) == ([ShortEscape(c)] + Unescape(w).0, Unescape(w).1)
  {
    assert ([BACKSLASH, c] + w)[2..] == w;
  }

  lemma HexRoundTrip(d: int)
    requires 0 <= d < 16
    ensures HexValue(HexDigit(d)) == d
  {
  }

  lemma HexSplit(u: CodeUnit)
    ensures u == u / 4096 * 4096 + u / 256 % 16 * 256 + u / 16 % 16 * 16 + u % 16
  {
    assert u / 16 == u / 256 * 16 + u / 16 % 16 && u / 256 == u / 4096 * 16 + u / 256 % 16;
  }

  lemma UnescapeHex(a: CodeUnit, b: CodeUnit, c: CodeUnit, d: CodeUnit, w: JsString)
    ensures var (s, rest) := Unescape(w);
      Unescape([BACKSLASH, 117, a, b, c, d] + w)
      == ([HexValue(a) * 4096 + HexValue(b) * 256 + HexValue(c) * 16 + HexValue(d)] + s, rest)
  {
    var e := [BACKSLASH, 117, a, b, c, d];
    assert (e + w)[6..] == w;
    assert (e + w)[..6] == e;
  }

  lemma UnescapeUnicode(u: CodeUnit, w: JsString)
    ensures Unescape(UnicodeEscape(u) + w) == ([u] + Unescape(w).0, Unescape(w).1)
  {
    UnescapeHex(HexDigit(u / 4096), HexDigit(u / 256 % 16), HexDigit(u / 16 % 16), HexDigit(u % 16), w);
    HexRoundTrip(u / 4096);
    HexRoundTrip(u / 256 % 16);
    HexRoundTrip(u / 16 % 16);
    HexRoundTrip(u % 16);
    HexSplit(u);
  }

  lemma UnescapeUnit(u: CodeUnit, w: JsString)
    ensures Unescape(EscapeUnit(u) + w) == ([u] + Unescape(w).0, Unescape(w).1)
  {
    if u == QUOTE || u == BACKSLASH || u == 8 || u == 9 || u == 10 || u == 12 || u == 13 {
      UnescapeShort(EscapeUnit(u)[1], w);
    } else if u < 32 || HighSurrogate(u) || LowSurrogate(u) {
      UnescapeUnicode(u, w);
    } else {
      UnescapePlain(u, w);
    }
  }

  lemma UnescapePair(h: CodeUnit, l: CodeUnit, w: JsString)
    requires HighSurrogate(h) && LowSurrogate(l)
    ensures Unescape([h, l] + w) == ([h, l] + Unescape(w).0, Unescape(w).1)
  {
    assert [h, l] + w == [h] + ([l] + w);
    UnescapePlain(h, [l] + w);
    UnescapePlain(l, w);
    assert [h] + ([l] + Unescape(w).0) == [h, l] + Unescape(w).0;
  }

  lemma Associative(a: JsString, b: JsString, c: JsString)
    ensures a + b + c == a + (b + c)
  {
  }

  /** Reading a quoted string back gives the string. */
  lemma {:induction false} UnescapeQuoted(s: JsString, x: JsString)
    ensures Unescape(Escaped(s) + ([QUOTE] + x)) == (s, x)
    decreases |s|
  {
    if s == [] {
      assert Escaped(s) + ([QUOTE] + x) == [QUOTE] + x && ([QUOTE] + x)[1..] == x;
    } else if |s| > 1 && HighSurrogate(s[0]) && LowSurrogate(s[1]) {
      UnescapeQuoted(s[2..], x);
      Associative([s[0], s[1]], Escaped(s[2..]), [QUOTE] + x);
      UnescapePair(s[0], s[1], Escaped(s[2..]) + ([QUOTE] + x));
      assert s == [s[0], s[1]] + s[2..];
    } else {
      UnescapeQuoted(s[1..], x);
      Associative(EscapeUnit(s[0]), Escaped(s[1..]), [QUOTE] + x);
      UnescapeUnit(s[0], Escaped(s[1..]) + ([QUOTE] + x));
      assert s == [s[0]] + s[1..];
    }
  }

  lemma QuoteOpens(s: JsString, x: JsString)
    ensures (Quote(s) + x)[1..] == Escaped(s) + ([QUOTE] + x)
  {
  }

  lemma QuoteUnique(s: JsString, t: JsString, x: JsString, y: JsString)
    requires Quote(s) + x == Quote(t) + y
    ensures s == t && x == y
  {
    QuoteOpens(s, x);
    QuoteOpens(t, y);
    UnescapeQuoted(s, x);
    UnescapeQuoted(t, y);
  }

  predicate IsDigit(u: CodeUnit) { 48 <= u < 58 }

  /** Reads the leading digits of `w` as a number. */
  function ReadDigits(w: JsString, acc: nat): (nat, JsString) {
    if w != [] && IsDigit(w[0]) then ReadDigits(w[1..], acc * 10 + (w[0] - 48)) else (acc, w)
  }

  lemma {:induction false} ReadBack(n: nat, x: JsString)
    requires x == [] || !IsDigit(x[0])
    ensures ReadDigits(Digits(n) + x, 0) == (n, x)
  {
    DigitsThen(n, x);
  }

  lemma {:induction false} DigitsThen(n: nat, w: JsString)
    ensures ReadDigits(Digits(n) + w, 0) == ReadDigits(w, n)
    ensures Digits(n) != [] && IsDigit(Digits(n)[0])
  {
    if n < 10 {
      assert (Digits(n) + w)[1..] == w;
    } else {
      var d: CodeUnit := 48 + n % 10;
      assert Digits(n) + w == Digits(n / 10) + ([d] + w);
      DigitsThen(n / 10, [d] + w);
      assert ([d] + w)[1..] == w;
      assert Digits(n)[0] == Digits(n / 10)[0];
    }
  }

  lemma NumberSign(n: int, x: JsString)
    ensures NumberText(n) != [] && ((NumberText(n) + x)[0] == 45 <==> n < 0)
  {
    DigitsThen(if n < 0 then -n else n, x);
  }

  lemma DigitsUnique(n: nat, m: nat, x: JsString, y: JsString)
    requires Digits(n) + x == Digits(m) + y && Delimited(x) && Delimited(y)
    ensures n == m && x == y
  {
    ReadBack(n, x);
    ReadBack(m, y);
  }

  lemma NumberUnique(n: int, m: int, x: JsString, y: JsString)
    requires NumberText(n) + x == NumberText(m) + y && Delimited(x) && Delimited(y)
    ensures n == m && x == y
  {
    NumberSign(n, x);
    NumberSign(m, y);
    if n < 0 {
      Dropped1([45] + Digits(-n), x, Digits(-n));
      Dropped1([45] + Digits(-m), y, Digits(-m));
      DigitsUnique(-n, -m, x, y);
    } else {
      DigitsUnique(n, m, x, y);
    }
  }

  lemma Dropped1(text: JsString, x: JsString, rest: JsString)
    requires text != [] && text[1..] == rest
    ensures (text + x)[1..] == rest + x
  {
  }

  // ----- the text determines the tree ------------------------------------------

  /** What may follow a value inside a document. */
  predicate Delimited(x: JsString) {
    x == [] || x[0] == COMMA || x[0] == CLOSE_BRACKET || x[0] == CLOSE_BRACE
  }

  datatype Kind = IsNull | IsUndefined | IsTrue | IsFalse | IsNumber | IsString | IsArray | IsObject | IsNone

  function KindOf(u: CodeUnit): Kind {
    if u == 110 then IsNull
    else if u == 117 then IsUndefined
    else if u == 116 then IsTrue
    else if u == 102 then IsFalse
    else if u == 45 || IsDigit(u) then IsNumber
    else if u == QUOTE then IsString
    else if u == OPEN_BRACKET then IsArray
    else if u == OPEN_BRACE then IsObject
    else IsNone
  }

  /** The first unit of a text tells the kind of its value. */
  lemma FirstUnit(v: Json)
    ensures Canonical(v) != []
    ensures KindOf(Canonical(v)[0]) == (match v
                                        case Null => IsNull
                                        case Undefined => IsUndefined
                                        case Bool(b) => if b then IsTrue else IsFalse
                                        case Num(_) => IsNumber
                                        case Str(_) => IsString
                                        case Arr(_) => IsArray
                                        case Obj(_) => IsObject)
  {
    if v.Num? {
      DigitsThen(if v.n < 0 then -v.n else v.n, []);
    }
  }

  ghost predicate Renderable(v: Json) {
    v.Undefined? || Printable(v)
  }

  lemma Dropped(text: JsString, x: JsString, y: JsString)
    requires text + x == text + y
    ensures x == y
  {
    assert (text + x)[|text|..] == x && (text + y)[|text|..] == y;
  }

  lemma KindsAgree(a: Json, b: Json, x: JsString, y: JsString)
    requires Canonical(a) + x == Canonical(b) + y
    ensures (a.Null? <==> b.Null?) && (a.Undefined? <==> b.Undefined?) && (a.Bool? <==> b.Bool?) && (a.Num? <==> b.Num?)
    ensures (a.Str? <==> b.Str?) && (a.Arr? <==> b.Arr?) && (a.Obj? <==> b.Obj?)
    ensures a.Bool? ==> a == b
  {
    FirstUnit(a);
    FirstUnit(b);
    assert (Canonical(a) + x)[0] == Canonical(a)[0] && (Canonical(b) + y)[0] == Canonical(b)[0];
  }

  lemma {:induction false} TextUnique(a: Json, b: Json, x: JsString, y: JsString)
    requires Renderable(a) && Renderable(b) && Delimited(x) && Delimited(y)
    requires Canonical(a) + x == Canonical(b) + y
    ensures Same(a, b) && x == y
    decreases a, 2
  {
    KindsAgree(a, b, x, y);
    if a.Arr? {
      ArrayUnique(a.items, b.items, x, y);
    } else if a.Obj? {
      ObjectUnique(a.fields, b.fields, x, y);
    } else {
      ScalarUnique(a, b, x, y);
    }
  }

  lemma ScalarUnique(a: Json, b: Json, x: JsString, y: JsString)
    requires !a.Arr? && !a.Obj? && Delimited(x) && Delimited(y)
    requires Canonical(a) + x == Canonical(b) + y
    ensures a == b && x == y
  {
    KindsAgree(a, b, x, y);
    if a.Num? {
      NumberUnique(a.n, b.n, x, y);
    } else if a.Str? {
      QuoteUnique(a.s, b.s, x, y);
    } else {
      Dropped(Canonical(a), x, y);
    }
  }

  lemma ArrayText(xs: seq<Json>, x: JsString)
    ensures (Canonical(Arr(xs)) + x)[1..] == Items(xs) + ([CLOSE_BRACKET] + x)
  {
    var body := Items(xs);
    assert [OPEN_BRACKET] + body + [CLOSE_BRACKET] + x == [OPEN_BRACKET] + (body + ([CLOSE_BRACKET] + x));
  }

  lemma {:induction false} ArrayUnique(xs: seq<Json>, ys: seq<Json>, x: JsString, y: JsString)
    requires Printable(Arr(xs)) && Printable(Arr(ys))
    requires Canonical(Arr(xs)) + x == Canonical(Arr(ys)) + y
    ensures Same(Arr(xs), Arr(ys)) && x == y
    decreases xs, 1
  {
    ArrayText(xs, x);
    ArrayText(ys, y);
    ItemsUnique(xs, ys, x, y);
  }

  lemma ObjectText(fs: seq<Field>, x: JsString)
    ensures forall k :: k in SortedKeys(fs) ==> k in Keys(fs)
    ensures (Canonical(Obj(fs)) + x)[1..] == Entries(fs, SortedKeys(fs)) + ([CLOSE_BRACE] + x)
  {
    SortedMembers(fs);
    var body := Entries(fs, SortedKeys(fs));
    assert Canonical(Obj(fs)) == [OPEN_BRACE] + body + [CLOSE_BRACE];
    assert [OPEN_BRACE] + body + [CLOSE_BRACE] + x == [OPEN_BRACE] + (body + ([CLOSE_BRACE] + x));
  }

  lemma {:induction false} ObjectUnique(fs: seq<Field>, gs: seq<Field>, x: JsString, y: JsString)
    requires Printable(Obj(fs)) && Printable(Obj(gs))
    requires Canonical(Obj(fs)) + x == Canonical(Obj(gs)) + y
    ensures Same(Obj(fs), Obj(gs)) && x == y
    decreases fs, 1
  {
    ObjectText(fs, x);
    ObjectText(gs, y);
    EntriesUnique(fs, gs, SortedKeys(fs), SortedKeys(gs), x, y);
    SortedMembers(fs);
    SortedMembers(gs);
    SameFields(fs, gs);
  }

  lemma SortedMembers(fields: seq<Field>)
    ensures forall k :: k in SortedKeys(fields) <==> k in Keys(fields)
  {
    SortIs(Keys(fields), Itself);
    assert forall k :: k in SortedKeys(fields) <==> k in multiset(SortedKeys(fields));
    assert forall k :: k in Keys(fields) <==> k in multiset(Keys(fields));
  }

  /** What follows the first element of an array. */
  ghost function AfterFirstItem(xs: seq<Json>, x: JsString): JsString
    requires xs != []
  {
    if |xs| == 1 then [CLOSE_BRACKET] + x else [COMMA] + (Items(xs[1..]) + ([CLOSE_BRACKET] + x))
  }

  lemma ItemsAre(xs: seq<Json>)
    requires xs != [] && !xs[0].Undefined?
    ensures |xs| == 1 ==> Items(xs) == Canonical(xs[0])
    ensures |xs| > 1 ==> Items(xs) == Canonical(xs[0]) + [COMMA] + Items(xs[1..])
  {
  }

  lemma NeverCloses(v: Json)
    requires Printable(v)
    ensures Canonical(v) != [] && Canonical(v)[0] != CLOSE_BRACKET
  {
    FirstUnit(v);
  }

  lemma FirstItem(xs: seq<Json>, x: JsString)
    requires xs != [] && Printable(xs[0])
    ensures Items(xs) + ([CLOSE_BRACKET] + x) == Canonical(xs[0]) + AfterFirstItem(xs, x)
    ensures (Items(xs) + ([CLOSE_BRACKET] + x))[0] != CLOSE_BRACKET
  {
    ItemsAre(xs);
    NeverCloses(xs[0]);
    if |xs| > 1 {
      AroundComma(Canonical(xs[0]), Items(xs[1..]), [CLOSE_BRACKET] + x);
    }
  }

  lemma AroundComma(a: JsString, b: JsString, c: JsString)
    ensures a + [COMMA] + b + c == a + ([COMMA] + (b + c))
  {
  }

  lemma {:induction false} ItemsUnique(xs: seq<Json>, ys: seq<Json>, x: JsString, y: JsString)
    requires forall i :: 0 <= i < |xs| ==> Printable(xs[i])
    requires forall i :: 0 <= i < |ys| ==> Printable(ys[i])
    requires Items(xs) + ([CLOSE_BRACKET] + x) == Items(ys) + ([CLOSE_BRACKET] + y)
    ensures |xs| == |ys| && (forall i :: 0 <= i < |xs| ==> Same(xs[i], ys[i])) && x == y
    decreases xs, 0
  {
    if xs != [] { FirstItem(xs, x); }
    if ys != [] { FirstItem(ys, y); }
    if xs == [] || ys == [] {
      assert [] + ([CLOSE_BRACKET] + x) == [CLOSE_BRACKET] + x && [] + ([CLOSE_BRACKET] + y) == [CLOSE_BRACKET] + y;
      Dropped([CLOSE_BRACKET], x, y);
    } else {
      var x', y' := AfterFirstItem(xs, x), AfterFirstItem(ys, y);
      TextUnique(xs[0], ys[0], x', y');
      assert x'[0] == y'[0];
      if |xs| == 1 {
        Dropped([CLOSE_BRACKET], x, y);
      } else {
        Dropped([COMMA], Items(xs[1..]) + ([CLOSE_BRACKET] + x), Items(ys[1..]) + ([CLOSE_BRACKET] + y));
        ItemsUnique(xs[1..], ys[1..], x, y);
        forall i | 0 <= i < |xs| ensures Same(xs[i], ys[i]) {
          if i > 0 {
            assert Same(xs[1..][i - 1], ys[1..][i - 1]);
          }
        }
      }
    }
  }

  /** What follows the first entry of an object. */
  ghost function AfterFirstEntry(fs: seq<Field>, ks: seq<JsString>, x: JsString): JsString
    requires ks != [] && forall k :: k in ks ==> k in Keys(fs)
  {
    if |ks| == 1 then [CLOSE_BRACE] + x else [COMMA] + (Entries(fs, ks[1..]) + ([CLOSE_BRACE] + x))
  }

  lemma Regroup(k: JsString, c: JsString, m: JsString, t: JsString)
    ensures Entry(k, c) + m + t == Quote(k) + ([COLON] + (c + (m + t)))
    ensures (Entry(k, c) + m + t)[0] == QUOTE
  {
    var q := Quote(k);
    assert q + [COLON] + c + m + t == q + ([COLON] + (c + (m + t)));
  }

  lemma AfterFirstIs(fs: seq<Field>, ks: seq<JsString>, x: JsString)
    requires ks != [] && forall k :: k in ks ==> k in Keys(fs)
    ensures MoreEntries(fs, ks) + ([CLOSE_BRACE] + x) == AfterFirstEntry(fs, ks, x)
  {
    if |ks| > 1 {
      var more := Entries(fs, ks[1..]);
      assert [COMMA] + more + ([CLOSE_BRACE] + x) == [COMMA] + (more + ([CLOSE_BRACE] + x));
    }
  }

  lemma FirstEntry(fs: seq<Field>, ks: seq<JsString>, x: JsString)
    requires ks != [] && forall k :: k in ks ==> k in Keys(fs)
    ensures Entries(fs, ks) + ([CLOSE_BRACE] + x)
            == Quote(ks[0]) + ([COLON] + (Canonical(fs[IndexOf(fs, ks[0])].value) + AfterFirstEntry(fs, ks, x)))
    ensures (Entries(fs, ks) + ([CLOSE_BRACE] + x))[0] == QUOTE
  {
    AfterFirstIs(fs, ks, x);
    Regroup(ks[0], Canonical(fs[IndexOf(fs, ks[0])].value), MoreEntries(fs, ks), [CLOSE_BRACE] + x);
  }

  lemma {:induction false} EntryUnique(k: JsString, l: JsString, v: Json, w: Json, x: JsString, y: JsString)
    requires Renderable(v) && Renderable(w) && Delimited(x) && Delimited(y)
    requires Quote(k) + ([COLON] + (Canonical(v) + x)) == Quote(l) + ([COLON] + (Canonical(w) + y))
    ensures k == l && Same(v, w) && x == y
    decreases v, 3
  {
    QuoteUnique(k, l, [COLON] + (Canonical(v) + x), [COLON] + (Canonical(w) + y));
    Dropped([COLON], Canonical(v) + x, Canonical(w) + y);
    TextUnique(v, w, x, y);
  }

  lemma RestUnique(fs: seq<Field>, gs: seq<Field>, ks: seq<JsString>, ls: seq<JsString>, x: JsString, y: JsString)
    requires ks != [] && ls != []
    requires (forall k :: k in ks ==> k in Keys(fs)) && (forall k :: k in ls ==> k in Keys(gs))
    requires AfterFirstEntry(fs, ks, x) == AfterFirstEntry(gs, ls, y)
    ensures |ks| == 1 <==> |ls| == 1
    ensures |ks| == 1 ==> x == y
    ensures |ks| > 1 ==> Entries(fs, ks[1..]) + ([CLOSE_BRACE] + x) == Entries(gs, ls[1..]) + ([CLOSE_BRACE] + y)
  {
    assert AfterFirstEntry(fs, ks, x)[0] == AfterFirstEntry(gs, ls, y)[0];
    if |ks| == 1 {
      Dropped([CLOSE_BRACE], x, y);
    } else {
      Dropped([COMMA], Entries(fs, ks[1..]) + ([CLOSE_BRACE] + x), Entries(gs, ls[1..]) + ([CLOSE_BRACE] + y));
    }
  }

  lemma NoEntries(fs: seq<Field>, gs: seq<Field>, ks: seq<JsString>, ls: seq<JsString>, x: JsString, y: JsString)
    requires ks == [] || ls == []
    requires (forall k :: k in ks ==> k in Keys(fs)) && (forall k :: k in ls ==> k in Keys(gs))
    requires Entries(fs, ks) + ([CLOSE_BRACE] + x) == Entries(gs, ls) + ([CLOSE_BRACE] + y)
    ensures ks == ls && x == y
  {
    if ks != [] { FirstEntry(fs, ks, x); }
    if ls != [] { FirstEntry(gs, ls, y); }
    assert [] + ([CLOSE_BRACE] + x) == [CLOSE_BRACE] + x && [] + ([CLOSE_BRACE] + y) == [CLOSE_BRACE] + y;
    Dropped([CLOSE_BRACE], x, y);
  }

  /** The values of the listed keys are the same in both objects. */
  ghost predicate SameOn(fs: seq<Field>, gs: seq<Field>, ks: seq<JsString>)
    requires forall k :: k in ks ==> k in Keys(fs) && k in Keys(gs)
  {
    forall k :: k in ks ==> Same(fs[IndexOf(fs, k)].value, gs[IndexOf(gs, k)].value)
  }

  lemma {:induction false} FirstEntryUnique(fs: seq<Field>, gs: seq<Field>, ks: seq<JsString>, ls: seq<JsString>,
                                            x: JsString, y: JsString)
    requires Printable(Obj(fs)) && Printable(Obj(gs)) && ks != [] && ls != []
    requires (forall k :: k in ks ==> k in Keys(fs)) && (forall k :: k in ls ==> k in Keys(gs))
    requires Entries(fs, ks) + ([CLOSE_BRACE] + x) == Entries(gs, ls) + ([CLOSE_BRACE] + y)
    ensures ks[0] == ls[0] && Same(fs[IndexOf(fs, ks[0])].value, gs[IndexOf(gs, ls[0])].value)
    ensures AfterFirstEntry(fs, ks, x) == AfterFirstEntry(gs, ls, y)
    decreases fs, 0, |ks|, 0
  {
    FirstEntry(fs, ks, x);
    FirstEntry(gs, ls, y);
    EntryUnique(ks[0], ls[0], fs[IndexOf(fs, ks[0])].value, gs[IndexOf(gs, ls[0])].value,
                AfterFirstEntry(fs, ks, x), AfterFirstEntry(gs, ls, y));
  }

  lemma {:induction false} EntriesUnique(fs: seq<Field>, gs: seq<Field>, ks: seq<JsString>, ls: seq<JsString>,
                                         x: JsString, y: JsString)
    requires Printable(Obj(fs)) && Printable(Obj(gs))
    requires (forall k :: k in ks ==> k in Keys(fs)) && (forall k :: k in ls ==> k in Keys(gs))
    requires Entries(fs, ks) + ([CLOSE_BRACE] + x) == Entries(gs, ls) + ([CLOSE_BRACE] + y)
    ensures ks == ls && x == y && SameOn(fs, gs, ks)
    decreases fs, 0, |ks|, 1
  {
    if ks == [] || ls == [] {
      NoEntries(fs, gs, ks, ls, x, y);
    } else {
      FirstEntryUnique(fs, gs, ks, ls, x, y);
      RestUnique(fs, gs, ks, ls, x, y);
      if |ks| > 1 {
        EntriesUnique(fs, gs, ks[1..], ls[1..], x, y);
      }
      assert ks == [ks[0]] + ks[1..] && ls == [ls[0]] + ls[1..];
    }
  }

  lemma IndexOfIs(fields: seq<Field>, i: nat)
    requires DistinctKeys(fields) && i < |fields|
    ensures fields[i].key in Keys(fields) && IndexOf(fields, fields[i].key) == i
  {
    assert Keys(fields)[i] == fields[i].key;
  }

  lemma SameFields(fs: seq<Field>, gs: seq<Field>)
    requires DistinctKeys(fs) && DistinctKeys(gs)
    requires forall k :: k in Keys(fs) <==> k in Keys(gs)
    requires forall k :: k in Keys(fs) ==> Same(fs[IndexOf(fs, k)].value, gs[IndexOf(gs, k)].value)
    ensures Same(Obj(fs), Obj(gs))
  {
    forall i, j | 0 <= i < |fs| && 0 <= j < |gs| && fs[i].key == gs[j].key ensures Same(fs[i].value, gs[j].value) {
      IndexOfIs(fs, i);
      IndexOfIs(gs, j);
    }
  }

  // ----- and the tree determines the text --------------------------------------

  lemma SameSortedKeys(fs: seq<Field>, gs: seq<Field>)
    requires DistinctKeys(fs) && DistinctKeys(gs) && forall k :: k in Keys(fs) <==> k in Keys(gs)
    ensures SortedKeys(fs) == SortedKeys(gs)
  {
    DistinctCounts(Keys(fs));
    DistinctCounts(Keys(gs));
    assert multiset(Keys(fs)) == multiset(Keys(gs));
    SortDecidesRearrangement(Keys(fs), Keys(gs), Itself);
  }

  lemma {:induction false} SameText(a: Json, b: Json)
    requires Renderable(a) && Renderable(b) && Same(a, b)
    ensures Canonical(a) == Canonical(b)
    decreases a, 1
  {
    match a
    case Arr(items) => SameItems(items, b.items);
    case Obj(fields) =>
      SameSortedKeys(fields, b.fields);
      SortIs(Keys(fields), Itself);
      SortedMembers(fields);
      SortedMembers(b.fields);
      SameEntries(fields, b.fields, SortedKeys(fields));
    case _ =>
  }

  lemma {:induction false} SameItems(xs: seq<Json>, ys: seq<Json>)
    requires |xs| == |ys| && forall i :: 0 <= i < |xs| ==> Printable(xs[i]) && Printable(ys[i]) && Same(xs[i], ys[i])
    ensures Items(xs) == Items(ys)
    decreases xs, 0
  {
    if xs != [] {
      SameText(xs[0], ys[0]);
      SameItems(xs[1..], ys[1..]);
    }
  }

  lemma {:induction false} SameEntries(fs: seq<Field>, gs: seq<Field>, ks: seq<JsString>)
    requires Printable(Obj(fs)) && Printable(Obj(gs)) && Same(Obj(fs), Obj(gs))
    requires forall k :: k in ks ==> k in Keys(fs) && k in Keys(gs)
    ensures Entries(fs, ks) == Entries(gs, ks)
    decreases fs, 0, |ks|
  {
    if ks != [] {
      var i, j := IndexOf(fs, ks[0]), IndexOf(gs, ks[0]);
      assert Same(fs[i].value, gs[j].value);
      SameText(fs[i].value, gs[j].value);
      SameEntries(fs, gs, ks[1..]);
    }
  }

  /** The canonical text identifies a tree up to key order, in both directions. */
  lemma CanonicalDecidesSame(a: Json, b: Json)
    requires Printable(a) && Printable(b)
    ensures Canonical(a) == Canonical(b) <==> Same(a, b)
  {
    if Canonical(a) == Canonical(b) {
      assert Canonical(a) + [] == Canonical(b) + [];
      TextUnique(a, b, [], []);
    }
    if Same(a, b) {
      SameText(a, b);
    }
  }

  /** Why arrays are restricted: an `undefined` element leaves no trace. */
  lemma UndefinedElementIsLost()
    ensures Canonical(Arr([Undefined])) == Canonical(Arr([]))
  {
    assert Items([Undefined]) == [];
  }
}

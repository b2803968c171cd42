/** Splitting and joining text, and numbers written in it. */
module Texts {
  import opened Options

  /** `text.split(sep)` for a one-character separator. */
  function Split(s: string, sep: char): (parts: seq<string>)
    ensures parts != []
  {
    if s == "" then [""]
    else
      var rest := Split(s[1..], sep);
      if s[0] == sep then [""] + rest else [[s[0]] + rest[0]] + rest[1..]
  }

  function Join(parts: seq<string>, sep: char): string {
    if parts == [] then ""
    else if |parts| == 1 then parts[0]
    else parts[0] + [sep] + Join(parts[1..], sep)
  }

  predicate IsLetter(c: char) {
    'a' <= c <= 'z' || 'A' <= c <= 'Z'
  }

  /** The same element `n` times. */
  function Repeat<T>(x: T, n: nat): (r: seq<T>)
    ensures |r| == n && forall i :: 0 <= i < n ==> r[i] == x
  {
    if n == 0 then [] else [x] + Repeat(x, n - 1)
  }

  predicate Without(s: string, c: char) {
    forall i :: 0 <= i < |s| ==> s[i] != c
  }

  ghost predicate AllWithout(parts: seq<string>, c: char) {
    forall i :: 0 <= i < |parts| ==> Without(parts[i], c)
  }

  lemma JoinCons(c: char, parts: seq<string>, sep: char)
    requires parts != []
    ensures Join([[c] + parts[0]] + parts[1..], sep) == [c] + Join(parts, sep)
  {
    if |parts| > 1 {
      assert ([[c] + parts[0]] + parts[1..])[1..] == parts[1..];
      var tail := Join(parts[1..], sep);
      assert [c] + parts[0] + [sep] + tail == [c] + (parts[0] + [sep] + tail);
    }
  }

  lemma {:induction false} SplitWithout(s: string, sep: char)
    ensures AllWithout(Split(s, sep), sep)
  {
    if s != "" {
      SplitWithout(s[1..], sep);
      var rest := Split(s[1..], sep);
      assert Without(rest[0], sep);
    }
  }

  lemma {:induction false} SplitJoins(s: string, sep: char)
    ensures Join(Split(s, sep), sep) == s
  {
    if s != "" {
      SplitJoins(s[1..], sep);
      var rest := Split(s[1..], sep);
      assert s == [s[0]] + s[1..];
      if s[0] == sep {
        assert ([""] + rest)[1..] == rest;
        assert "" + [sep] + Join(rest, sep) == [sep] + Join(rest, sep);
      } else {
        JoinCons(s[0], rest, sep);
      }
    }
  }

  lemma SplitIs(s: string, sep: char)
    ensures AllWithout(Split(s, sep), sep) && Join(Split(s, sep), sep) == s
  {
    SplitWithout(s, sep);
    SplitJoins(s, sep);
  }

  lemma {:induction false} SplitPlain(s: string, sep: char)
    requires Without(s, sep)
    ensures Split(s, sep) == [s]
  {
    if s != "" {
      SplitPlain(s[1..], sep);
      assert s == [s[0]] + s[1..];
    }
  }

  lemma {:induction false} SplitAt(s: string, sep: char, rest: string)
    requires Without(s, sep)
    ensures Split(s + [sep] + rest, sep) == [s] + Split(rest, sep)
  {
    var t := s + [sep] + rest;
    if s == "" {
      assert t[0] == sep && t[1..] == rest;
    } else {
      assert t[0] == s[0] && t[1..] == s[1..] + [sep] + rest;
      SplitAt(s[1..], sep, rest);
      assert s == [s[0]] + s[1..];
    }
  }

  lemma {:induction false} SplitJoin(parts: seq<string>, sep: char)
    requires parts != [] && AllWithout(parts, sep)
    ensures Split(Join(parts, sep), sep) == parts
  {
    if |parts| == 1 {
      SplitPlain(parts[0], sep);
      assert parts == [parts[0]];
    } else {
      SplitJoin(parts[1..], sep);
      SplitAt(parts[0], sep, Join(parts[1..], sep));
      assert parts == [parts[0]] + parts[1..];
    }
  }

  lemma {:induction false} JoinConcat(p: seq<string>, sep: char, q: seq<string>)
    requires p != [] && q != []
    ensures Join(p + q, sep) == Join(p, sep) + [sep] + Join(q, sep)
  {
    if |p| == 1 {
      assert (p + q)[1..] == q && (p + q)[0] == p[0];
    } else {
      JoinConcat(p[1..], sep, q);
      assert (p + q)[1..] == p[1..] + q && (p + q)[0] == p[0];
      Regroup(p[0] + [sep], Join(p[1..], sep), [sep], Join(q, sep));
    }
  }

  lemma Regroup(a: string, b: string, c: string, d: string)
    ensures a + (b + c + d) == a + b + c + d
  {
  }

  /** A separator inside a text splits it there. */
  lemma SplitConcat(a: string, sep: char, b: string)
    ensures Split(a + [sep] + b, sep) == Split(a, sep) + Split(b, sep)
  {
    SplitIs(a, sep);
    SplitIs(b, sep);
    JoinConcat(Split(a, sep), sep, Split(b, sep));
    SplitJoin(Split(a, sep) + Split(b, sep), sep);
  }

  lemma {:induction false} JoinWithout(parts: seq<string>, sep: char, c: char)
    requires AllWithout(parts, c) && c != sep
    ensures Without(Join(parts, sep), c)
  {
    if |parts| > 1 {
      JoinWithout(parts[1..], sep, c);
    }
  }

  /** What a joined text lacks, its parts lack. */
  lemma {:induction false} JoinKeeps(parts: seq<string>, sep: char, c: char)
    requires Without(Join(parts, sep), c)
    ensures AllWithout(parts, c)
  {
    if |parts| > 1 {
      var (a, b) := (parts[0], Join(parts[1..], sep));
      assert forall i :: 0 <= i < |a| ==> a[i] == Join(parts, sep)[i];
      assert forall i :: 0 <= i < |b| ==> b[i] == Join(parts, sep)[|a| + 1 + i];
      JoinKeeps(parts[1..], sep, c);
      assert parts == [a] + parts[1..];
    }
  }

  // ----- digits ----------------------------------------------------------------

  function DigitOf(d: nat): char
    requires d < 16
  {
    "0123456789abcdef"[d]
  }

  /** The value of a digit in either case, or 16 for any other character. */
  function DigitValue(c: char): (d: nat)
    ensures d <= 16
  {
    if '0' <= c <= '9' then (c - '0') as nat
    else if 'a' <= c <= 'f' then (c - 'a') as nat + 10
    else if 'A' <= c <= 'F' then (c - 'A') as nat + 10
    else 16
  }

  lemma DigitRoundTrip(d: nat)
    requires d < 16
    ensures DigitValue(DigitOf(d)) == d
  {
    assert "0123456789abcdef"[d] == DigitOf(d);
  }

  /** `n.toString(16)` */
  function HexText(n: nat): (s: string)
    ensures s != ""
  {
    if n < 16 then [DigitOf(n)] else HexText(n / 16) + [DigitOf(n % 16)]
  }

  /** `Number.parseInt(s, 16)` of hexadecimal digits. */
  function HexOf(s: string): nat {
    if s == "" then 0 else HexOf(s[..|s| - 1]) * 16 + DigitValue(s[|s| - 1])
  }

  predicate AreHexDigits(s: string) {
    forall i :: 0 <= i < |s| ==> DigitValue(s[i]) < 16
  }

  lemma {:induction false} HexRoundTrip(n: nat)
    ensures HexOf(HexText(n)) == n && AreHexDigits(HexText(n))
  {
    DigitRoundTrip(n % 16);
    if n < 16 {
      assert HexText(n)[..0] == "";
    } else {
      HexRoundTrip(n / 16);
      var s := HexText(n);
      assert s[..|s| - 1] == HexText(n / 16);
    }
  }

  predicate IsPlainHex(s: string) {
    forall i :: 0 <= i < |s| ==> '0' <= s[i] <= '9' || 'a' <= s[i] <= 'f'
  }

  lemma DigitIsPlain(d: nat)
    requires d < 16
    ensures IsPlainHex([DigitOf(d)]) && (d > 0 ==> DigitOf(d) != '0')
  {
    assert "0123456789abcdef"[d] == DigitOf(d);
  }

  lemma LastDigitPlain(s: string, c: char)
    requires IsPlainHex(s) && IsPlainHex([c])
    ensures IsPlainHex(s + [c])
  {
    assert [c][0] == c;
  }

  /** The text is in lower case and has no zero in front. */
  lemma {:induction false} HexTextIsPlain(n: nat)
    ensures n > 0 ==> HexText(n)[0] != '0'
    ensures IsPlainHex(HexText(n))
  {
    DigitIsPlain(n % 16);
    if n >= 16 {
      HexTextIsPlain(n / 16);
      LastDigitPlain(HexText(n / 16), DigitOf(n % 16));
    }
  }

  lemma HexLength(n: nat)
    requires n < 0x10000
    ensures |HexText(n)| <= 4
  {
    assert n / 16 / 16 / 16 < 16;
    assert |HexText(n / 16 / 16 / 16)| == 1;
    assert |HexText(n / 16 / 16)| <= 2;
    assert |HexText(n / 16)| <= 3;
  }

  lemma {:induction false} HexBound(s: string)
    requires AreHexDigits(s) && |s| <= 4
    ensures HexOf(s) < 0x10000 && (|s| <= 3 ==> HexOf(s) < 0x1000)
    ensures (|s| <= 2 ==> HexOf(s) < 0x100) && (|s| <= 1 ==> HexOf(s) < 0x10)
  {
    if s != "" {
      HexBound(s[..|s| - 1]);
    }
  }

  /** `n.toString()` of an octet. */
  function OctetText(n: nat): (s: string)
    requires n <= 255
  {
    if n < 10 then [DigitOf(n)]
    else if n < 100 then [DigitOf(n / 10), DigitOf(n % 10)]
    else [DigitOf(n / 100), DigitOf(n / 10 % 10), DigitOf(n % 10)]
  }

  /** The digits of a decimal number without a leading zero. */
  predicate AreOctetDigits(s: string) {
    && 1 <= |s| <= 3 && (forall i :: 0 <= i < |s| ==> DigitValue(s[i]) < 10)
    && (|s| > 1 ==> s[0] != '0')
  }

  function DecimalOf(s: string): nat
    requires 1 <= |s| <= 3
  {
    if |s| == 1 then DigitValue(s[0])
    else if |s| == 2 then DigitValue(s[0]) * 10 + DigitValue(s[1])
    else DigitValue(s[0]) * 100 + DigitValue(s[1]) * 10 + DigitValue(s[2])
  }

  function OctetOf(s: string): Option<nat> {
    if AreOctetDigits(s) && DecimalOf(s) <= 255 then Some(DecimalOf(s)) else None
  }

  lemma DecimalDigit(c: char)
    requires DigitValue(c) < 10
    ensures c == DigitOf(DigitValue(c)) && (c == '0' <==> DigitValue(c) == 0)
  {
    assert "0123456789abcdef"[DigitValue(c)] == DigitOf(DigitValue(c));
  }

  /** Exactly one text is read as a given octet. */
  lemma OctetCanonical(s: string, n: nat)
    ensures OctetOf(s) == Some(n) <==> n <= 255 && s == OctetText(n)
  {
    if OctetOf(s) == Some(n) {
      OctetIsItsText(s, n);
    }
    if n <= 255 {
      OctetReadsBack(n);
    }
  }

  lemma WriteTwo(a: nat, b: nat)
    requires 1 <= a < 10 && b < 10
    ensures OctetText(a * 10 + b) == [DigitOf(a), DigitOf(b)]
  {
    assert (a * 10 + b) / 10 == a && (a * 10 + b) % 10 == b;
  }

  lemma WriteThree(a: nat, b: nat, c: nat)
    requires 1 <= a < 10 && b < 10 && c < 10 && a * 100 + b * 10 + c <= 255
    ensures OctetText(a * 100 + b * 10 + c) == [DigitOf(a), DigitOf(b), DigitOf(c)]
  {
    var n := a * 100 + b * 10 + c;
    assert n / 100 == a && n / 10 == a * 10 + b && n / 10 % 10 == b && n % 10 == c;
  }

  lemma TwoAreTheirText(s: string)
    requires AreOctetDigits(s) && |s| == 2
    ensures s == OctetText(DecimalOf(s))
  {
    DecimalDigit(s[0]);
    DecimalDigit(s[1]);
    WriteTwo(DigitValue(s[0]), DigitValue(s[1]));
  }

  lemma ThreeAreTheirText(s: string)
    requires AreOctetDigits(s) && |s| == 3 && DecimalOf(s) <= 255
    ensures s == OctetText(DecimalOf(s))
  {
    DecimalDigit(s[0]);
    DecimalDigit(s[1]);
    DecimalDigit(s[2]);
    WriteThree(DigitValue(s[0]), DigitValue(s[1]), DigitValue(s[2]));
  }

  lemma OctetIsItsText(s: string, n: nat)
    requires OctetOf(s) == Some(n)
    ensures n <= 255 && s == OctetText(n)
  {
    if |s| == 1 {
      DecimalDigit(s[0]);
    } else if |s| == 2 {
      TwoAreTheirText(s);
    } else {
      ThreeAreTheirText(s);
    }
  }

  lemma ReadTwo(a: nat, b: nat)
    requires 1 <= a < 10 && b < 10
    ensures OctetOf([DigitOf(a), DigitOf(b)]) == Some(a * 10 + b)
  {
    DigitRoundTrip(a);
    DigitRoundTrip(b);
    DecimalDigit(DigitOf(a));
  }

  lemma ReadThree(a: nat, b: nat, c: nat)
    requires 1 <= a < 10 && b < 10 && c < 10 && a * 100 + b * 10 + c <= 255
    ensures OctetOf([DigitOf(a), DigitOf(b), DigitOf(c)]) == Some(a * 100 + b * 10 + c)
  {
    DigitRoundTrip(a);
    DigitRoundTrip(b);
    DigitRoundTrip(c);
    DecimalDigit(DigitOf(a));
  }

  lemma DecimalParts(n: nat)
    ensures n == n / 10 * 10 + n % 10 && n / 10 == n / 100 * 10 + n / 10 % 10
  {
  }

  lemma TwoDigitsReadBack(n: nat)
    requires 10 <= n < 100
    ensures OctetOf(OctetText(n)) == Some(n)
  {
    DecimalParts(n);
    ReadTwo(n / 10, n % 10);
  }

  lemma ThreeDigitsReadBack(n: nat)
    requires 100 <= n <= 255
    ensures OctetOf(OctetText(n)) == Some(n)
  {
    DecimalParts(n);
    ReadThree(n / 100, n / 10 % 10, n % 10);
  }

  lemma OctetReadsBack(n: nat)
    requires n <= 255
    ensures OctetOf(OctetText(n)) == Some(n)
  {
    if n < 10 {
      DigitRoundTrip(n);
    } else if n < 100 {
      TwoDigitsReadBack(n);
    } else {
      ThreeDigitsReadBack(n);
    }
  }
}

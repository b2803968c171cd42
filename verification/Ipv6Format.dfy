/** Writing an address canonically, and the second parser of the configuration loader. */
module Ipv6Format {
  import opened Options
  import opened Texts
  import opened Ipv6

  ghost predicate AreGroups(g: seq<nat>) {
    forall i :: 0 <= i < |g| ==> g[i] < 0x10000
  }

  // ----- longestZeroRun --------------------------------------------------------

  ghost predicate ZeroRun(g: seq<nat>, start: int, length: int) {
    0 <= start && 0 < length && start + length <= |g| && forall i :: start <= i < start + length ==> g[i] == 0
  }

  /** The run to compress, as section 4.2 of RFC 5952 chooses it: the longest, the leftmost of equals, never a single
      zero. */
  ghost predicate IsRunToCompress(g: seq<nat>, start: int, length: int) {
    if start == -1 then
      length == 0 && forall s, l :: ZeroRun(g, s, l) ==> l < 2
    else
      && ZeroRun(g, start, length) && length >= 2
      && forall s, l :: ZeroRun(g, s, l) ==> l < length || (l == length && start <= s)
  }

  lemma RunToCompressIsUnique(g: seq<nat>, start: int, length: int, start': int, length': int)
    requires IsRunToCompress(g, start, length) && IsRunToCompress(g, start', length')
    ensures start == start' && length == length'
  {
    if start != -1 { assert ZeroRun(g, start, length); }
    if start' != -1 { assert ZeroRun(g, start', length'); }
  }

  /** The runs seen so far, and the one in progress, while scanning up to `index`. */
  ghost predicate Scanned(g: seq<nat>, index: int, bestStart: int, bestLength: int, runStart: int, runLength: int) {
    && 0 <= index <= |g|
    && (if runStart == -1 then runLength == 0 && (index == 0 || g[index - 1] != 0)
        else
          && ZeroRun(g, runStart, runLength) && runStart + runLength == index
          && (runStart == 0 || g[runStart - 1] != 0))
    && (if bestStart == -1 then bestLength == 0
        else ZeroRun(g, bestStart, bestLength) && bestStart + bestLength <= index)
    && (forall s, l :: ZeroRun(g, s, l) && s + l <= index ==> l < bestLength || (l == bestLength && bestStart <= s))
  }

  /** A run that ends where the scan stands begins no earlier than the one in progress. */
  lemma EndsHere(g: seq<nat>, index: int, runStart: int, runLength: int, s: int, l: int)
    requires 0 <= index < |g| && ZeroRun(g, s, l) && s + l == index + 1
    requires if runStart == -1 then runLength == 0 && (index == 0 || g[index - 1] != 0)
             else
               && ZeroRun(g, runStart, runLength) && runStart + runLength == index
               && (runStart == 0 || g[runStart - 1] != 0)
    ensures l <= runLength + 1
  {
    assert forall k :: s <= k < s + l ==> g[k] == 0;
  }

  method LongestZeroRun(groups: seq<nat>) returns (start: int, length: nat)
    ensures IsRunToCompress(groups, start, length)
  {
    var bestStart, bestLength, runStart, runLength := -1, 0, -1, 0;
    var index := 0;
    while index < |groups|
      invariant Scanned(groups, index, bestStart, bestLength, runStart, runLength)
      invariant bestLength >= 0 && runLength >= 0
    {
      forall s, l | ZeroRun(groups, s, l) && s + l == index + 1 ensures l <= runLength + 1 {
        EndsHere(groups, index, runStart, runLength, s, l);
      }
      if groups[index] == 0 {
        if runStart == -1 {
          runStart := index;
        }
        runLength := runLength + 1;
        if runLength > bestLength {
          bestLength := runLength;
          bestStart := runStart;
        }
      } else {
        forall s, l | ZeroRun(groups, s, l) ensures s + l != index + 1 {
          assert s <= s + l - 1 < s + l;
        }
        runStart := -1;
        runLength := 0;
      }
      index := index + 1;
    }
    if bestLength >= 2 {
      return bestStart, bestLength;
    }
    return -1, 0;
  }

  // ----- formatIpv6Groups ------------------------------------------------------

  function HexTexts(g: seq<nat>): seq<string> {
    seq(|g|, i requires 0 <= i < |g| => HexText(g[i]))
  }

  function JoinGroups(g: seq<nat>): string {
    Join(HexTexts(g), ':')
  }

  /** The text that compresses the given run. */
  function Compressed(g: seq<nat>, start: int, length: nat): string
    requires -1 <= start && (start >= 0 ==> start + length <= |g|)
  {
    if start == -1 then JoinGroups(g) else JoinGroups(g[..start]) + "::" + JoinGroups(g[start + length..])
  }

  lemma HexTextsAreHextets(g: seq<nat>)
    requires AreGroups(g)
    ensures AllHextets(HexTexts(g)) && Values(HexTexts(g)) == g
  {
    forall i | 0 <= i < |g| ensures IsHextet(HexTexts(g)[i]) && HexOf(HexTexts(g)[i]) == g[i] {
      HexRoundTrip(g[i]);
      HexLength(g[i]);
    }
  }

  lemma GroupsSpell(g: seq<nat>)
    requires AreGroups(g)
    ensures AllHextets(HexTexts(g)) && Spells(HexTexts(g), g)
  {
    HexTextsAreHextets(g);
    HextetsSpell(HexTexts(g));
  }

  lemma ThreeDigits()
    ensures HexText(0xdb8) == "db8" && HexText(0x2001) == "2001"
  {
    assert HexText(0xd) == "d" && HexText(0xdb) == "db";
    assert HexText(0x2) == "2" && HexText(0x20) == "20" && HexText(0x200) == "200";
  }

  lemma TwoGroups(a: nat, b: nat)
    ensures JoinGroups([a, b]) == HexText(a) + ":" + HexText(b)
  {
    var t := HexTexts([a, b]);
    assert t == [HexText(a), HexText(b)] && t[1..] == [HexText(b)];
    assert Join(t[1..], ':') == HexText(b);
  }

  lemma ZerosBetween(g: seq<nat>, start: int, length: nat)
    requires |g| == 8 && ZeroRun(g, start, length)
    ensures g == Around(g[..start], g[start + length..])
  {
  }

  /** Whatever zero run is compressed, the text denotes the groups. */
  lemma CompressedDenotes(g: seq<nat>, start: int, length: nat)
    requires |g| == 8 && AreGroups(g) && (start == -1 || ZeroRun(g, start, length))
    ensures Denotes(Compressed(g, start, length), g)
  {
    if start == -1 {
      GroupsSpell(g);
    } else {
      var (hg, tg) := (g[..start], g[start + length..]);
      GroupsSpell(hg);
      GroupsSpell(tg);
      ZerosBetween(g, start, length);
      DenotesAround(HexTexts(hg), HexTexts(tg), hg, tg);
    }
  }

  /** The canonical text of eight groups. */
  ghost predicate IsCanonicalText(g: seq<nat>, text: string) {
    exists start, length: nat :: IsRunToCompress(g, start, length) && text == Compressed(g, start, length)
  }

  method FormatIpv6Groups(groups: seq<nat>) returns (text: string)
    ensures IsCanonicalText(groups, text)
  {
    var start, length := LongestZeroRun(groups);
    text := Compressed(groups, start, length);
  }

  /** Eight groups have one canonical text, and reading it gives the groups back. */
  lemma FormatRoundTrip(g: seq<nat>, text: string)
    requires |g| == 8 && AreGroups(g) && IsCanonicalText(g, text)
    ensures ParseBody(text) == Some(g) && Parse(text) == Some(g)
  {
    var start, length: nat :| IsRunToCompress(g, start, length) && text == Compressed(g, start, length);
    CompressedDenotes(g, start, length);
    ParseBodyIsDenotation(text, g);
    CanonicalIsPlain(g, start, length);
    ZoneIsDropped(text, "");
  }

  /** The documentation address is written `2001:db8::1`. */
  lemma DocumentationAddress(g: seq<nat>)
    requires g == [0x2001, 0xdb8, 0, 0, 0, 0, 0, 1]
    ensures IsCanonicalText(g, "2001:db8::1")
  {
    ThreeDigits();
    TwoGroups(0x2001, 0xdb8);
    assert g[..2] == [0x2001, 0xdb8] && g[7..] == [1];
    assert HexTexts([1]) == ["1"] && JoinGroups([1]) == "1";
    assert Compressed(g, 2, 5) == "2001:db8" + "::" + "1";
    forall s, l | ZeroRun(g, s, l) ensures l <= 5 && (l == 5 ==> 2 <= s) {
      assert g[0] != 0 && g[1] != 0 && g[7] != 0;
    }
    assert ZeroRun(g, 2, 5);
  }

  lemma JoinGroupsPlain(g: seq<nat>, c: char)
    requires c != ':' && DigitValue(c) == 16
    ensures Without(JoinGroups(g), c)
  {
    forall i | 0 <= i < |g| ensures Without(HexTexts(g)[i], c) {
      HexRoundTrip(g[i]);
    }
    JoinWithout(HexTexts(g), ':', c);
  }

  lemma CanonicalIsPlain(g: seq<nat>, start: int, length: nat)
    requires |g| == 8 && -1 <= start && (start >= 0 ==> start + length <= |g|)
    ensures var text := Compressed(g, start, length); Without(text, '%') && Without(text, '/') && ':' in text
  {
    JoinGroupsPlain(g, '%');
    JoinGroupsPlain(g, '/');
    if start == -1 {
      assert JoinGroups(g) == HexTexts(g)[0] + [':'] + Join(HexTexts(g)[1..], ':');
      assert JoinGroups(g)[|HexTexts(g)[0]|] == ':';
    } else {
      var (a, b) := (JoinGroups(g[..start]), JoinGroups(g[start + length..]));
      JoinGroupsPlain(g[..start], '%');
      JoinGroupsPlain(g[start + length..], '%');
      JoinGroupsPlain(g[..start], '/');
      JoinGroupsPlain(g[start + length..], '/');
      assert (a + "::" + b)[|a|] == ':';
    }
  }

  lemma CanonicalTextIsUnique(g: seq<nat>, text: string, text': string)
    requires IsCanonicalText(g, text) && IsCanonicalText(g, text')
    ensures text == text'
  {
    var start, length: nat :| IsRunToCompress(g, start, length) && text == Compressed(g, start, length);
    var start', length': nat :| IsRunToCompress(g, start', length') && text' == Compressed(g, start', length');
    RunToCompressIsUnique(g, start, length, start', length');
  }

  // ----- expandIpv6 ------------------------------------------------------------

  /** `s.lastIndexOf(':')`, or -1. */
  function LastColon(s: string): (i: int)
    ensures -1 <= i < |s| && (i >= 0 ==> s[i] == ':')
    ensures Without(s[i + 1..], ':')
  {
    if s == "" then -1 else if s[|s| - 1] == ':' then |s| - 1 else LastColon(s[..|s| - 1])
  }

  /** `s.split('::')` */
  function SplitDouble(s: string): (halves: seq<string>)
    ensures halves != []
    decreases |s|
  {
    var c := DoubleColon(s, 0);
    if c == |s| then [s] else [s[..c]] + SplitDouble(s[c + 2..])
  }

  /** The literal with an IPv4 suffix rewritten as two hextets. */
  function Rewritten(address: string): Option<string> {
    var last := LastColon(address);
    var suffix := address[last + 1..];
    if last == -1 || '.' !in suffix then Some(address)
    else
      var o := ParseOctets(suffix);
      if o.None? then None
      else Some(address[..last] + ":" + HexText(PairsOf(o.value)[0]) + ":" + HexText(PairsOf(o.value)[1]))
  }

  /** The eight pieces a literal is split into, or fewer or more when it is not well formed. */
  function Pieces(working: string): Option<seq<string>> {
    var halves := SplitDouble(working);
    if |halves| > 2 then None
    else if |halves| == 2 then
      var head, tail := PartsOf(halves[0]), PartsOf(halves[1]);
      if |head| + |tail| > 7 then None else Some(FilledPieces(head, tail))
    else Some(Split(working, ':'))
  }

  function FilledPieces(head: seq<string>, tail: seq<string>): seq<string>
    requires |head| + |tail| <= 8
  {
    head + Repeat("0", 8 - |head| - |tail|) + tail
  }

  function Values(pieces: seq<string>): seq<nat> {
    seq(|pieces|, i requires 0 <= i < |pieces| => HexOf(pieces[i]))
  }

  function Expand(address: string): Option<seq<nat>> {
    var working := Rewritten(address);
    if working.None? then None
    else
      var pieces := Pieces(working.value);
      if pieces.Some? && |pieces.value| == 8 && AllHextets(pieces.value) then Some(Values(pieces.value)) else None
  }

  method ExpandIpv6(address: string) returns (groups: Option<seq<nat>>)
    ensures groups == Expand(address)
  {
    var working := Rewritten(address);
    if working.None? {
      return None;
    }
    var pieces := Pieces(working.value);
    if pieces.None? || |pieces.value| != 8 {
      return None;
    }
    groups := ParsePieces(pieces.value);
  }

  method ParsePieces(pieces: seq<string>) returns (groups: Option<seq<nat>>)
    ensures groups == if AllHextets(pieces) then Some(Values(pieces)) else None
  {
    var parsed: seq<nat> := [];
    var i := 0;
    while i < |pieces|
      invariant 0 <= i <= |pieces| && |parsed| == i
      invariant forall j :: 0 <= j < i ==> IsHextet(pieces[j]) && parsed[j] == HexOf(pieces[j])
    {
      if !IsHextet(pieces[i]) {
        return None;
      }
      parsed := parsed + [HexOf(pieces[i])];
      i := i + 1;
    }
    assert parsed == Values(pieces);
    return Some(parsed);
  }

  lemma SpellsMore(part: string, parts: seq<string>, groups: seq<nat>)
    requires IsHextet(part) && Spells(parts, groups)
    ensures Spells([part] + parts, [HexOf(part)] + groups)
  {
    var (all, spelled) := ([part] + parts, [HexOf(part)] + groups);
    assert all[1..] == parts && spelled[1..] == groups && spelled[..1] == [HexOf(part)];
    assert PartSpells(part, |all| == 1, spelled[..1]);
  }

  lemma SpellsLast(last: string, v: seq<nat>)
    requires PartSpells(last, true, v)
    ensures Spells([last], v)
  {
    assert v[..|v|] == v && v[|v|..] == [] && [last][1..] == [];
  }

  lemma {:induction false} HextetsSpell(pieces: seq<string>)
    requires AllHextets(pieces)
    ensures Spells(pieces, Values(pieces))
  {
    if pieces != [] {
      HextetsSpell(pieces[1..]);
      SpellsMore(pieces[0], pieces[1..], Values(pieces[1..]));
      ValuesCons(pieces);
      assert [pieces[0]] + pieces[1..] == pieces;
    }
  }

  lemma ValuesCons(pieces: seq<string>)
    requires pieces != []
    ensures Values(pieces) == [HexOf(pieces[0])] + Values(pieces[1..])
  {
  }

  /** Hextets, and then a last part that stands for the groups `v`. */
  lemma {:induction false} HextetsThenLast(pieces: seq<string>, last: string, v: seq<nat>)
    requires AllHextets(pieces) && PartSpells(last, true, v)
    ensures Spells(pieces + [last], Values(pieces) + v)
  {
    if pieces == [] {
      SpellsLast(last, v);
      assert pieces + [last] == [last] && Values(pieces) + v == v;
    } else {
      HextetsThenLast(pieces[1..], last, v);
      SpellsMore(pieces[0], pieces[1..] + [last], Values(pieces[1..]) + v);
      ValuesCons(pieces);
      assert [pieces[0]] + (pieces[1..] + [last]) == pieces + [last];
      assert [HexOf(pieces[0])] + (Values(pieces[1..]) + v) == Values(pieces) + v;
    }
  }

  lemma SplitDoubleIs(s: string)
    requires |SplitDouble(s)| == 2
    ensures var c := DoubleColon(s, 0);
      c < |s| && SplitDouble(s)[0] == s[..c] && SplitDouble(s)[1] == s[c + 2..] && s == s[..c] + "::" + s[c + 2..]
  {
    var c := DoubleColon(s, 0);
    var rest := SplitDouble(s[c + 2..]);
    assert |rest| == 1;
    assert rest == [s[c + 2..]];
  }

  /** Values of pieces around a filled gap. */
  lemma ValuesFilled(head: seq<string>, tail: seq<string>)
    requires |head| + |tail| <= 7 && AllHextets(FilledPieces(head, tail))
    ensures AllHextets(head) && AllHextets(tail)
    ensures Values(FilledPieces(head, tail)) == Around(Values(head), Values(tail))
  {
    var all := FilledPieces(head, tail);
    var n := 8 - |head| - |tail|;
    assert forall i :: 0 <= i < |head| ==> all[i] == head[i];
    assert forall i :: 0 <= i < |tail| ==> all[|head| + n + i] == tail[i];
    assert HexOf("0") == 0 by { assert "0"[..0] == ""; }
    assert forall i :: |head| <= i < |head| + n ==> all[i] == "0";
  }

  lemma JoinPartsOf(s: string)
    ensures Join(PartsOf(s), ':') == s
  {
    SplitIs(s, ':');
  }

  /** Without an IPv4 suffix, what this parser accepts denotes the same groups. */
  lemma PlainDenotes(s: string, pieces: seq<string>)
    requires Pieces(s) == Some(pieces) && |pieces| == 8 && AllHextets(pieces)
    ensures Denotes(s, Values(pieces))
  {
    if |SplitDouble(s)| == 2 {
      SplitDoubleIs(s);
      var c := DoubleColon(s, 0);
      PlainCompressed(s[..c], s[c + 2..]);
    } else {
      HextetsSpell(pieces);
      SplitIs(s, ':');
    }
  }

  lemma PlainCompressed(a: string, b: string)
    requires |PartsOf(a)| + |PartsOf(b)| <= 7 && AllHextets(FilledPieces(PartsOf(a), PartsOf(b)))
    ensures Denotes(a + "::" + b, Values(FilledPieces(PartsOf(a), PartsOf(b))))
  {
    var (p, q) := (PartsOf(a), PartsOf(b));
    ValuesFilled(p, q);
    HextetsSpell(p);
    HextetsSpell(q);
    JoinPartsOf(a);
    JoinPartsOf(b);
    DenotesAround(p, q, Values(p), Values(q));
  }

  lemma DenotesAround(p: seq<string>, q: seq<string>, hg: seq<nat>, tg: seq<nat>)
    requires AllHextets(p) && Spells(p, hg) && Spells(q, tg) && |hg| + |tg| <= 7
    ensures Denotes(Join(p, ':') + "::" + Join(q, ':'), Around(hg, tg))
  {
    FillsDenotes(Join(p, ':') + "::" + Join(q, ':'), Around(hg, tg), p, q, hg, tg);
  }

  // With an IPv4 suffix, the two hextets `hi` and `lo` stand for the groups of the dotted quad `last`.

  ghost predicate Suffix(last: string, hi: string, lo: string) {
    IsHextet(hi) && IsHextet(lo) && PartSpells(last, true, [HexOf(hi), HexOf(lo)])
  }

  lemma SuffixSplits(prefix: string, hi: string, lo: string)
    requires IsHextet(hi) && IsHextet(lo)
    ensures Split(hi + ":" + lo, ':') == [hi, lo]
    ensures Split(prefix + ":" + (hi + ":" + lo), ':') == Split(prefix, ':') + [hi, lo]
  {
    SplitAt(hi, ':', lo);
    SplitPlain(lo, ':');
    SplitConcat(prefix, ':', hi + ":" + lo);
  }

  lemma ValuesAppend(p: seq<string>, hi: string, lo: string)
    ensures Values(p + [hi, lo]) == Values(p) + [HexOf(hi), HexOf(lo)]
  {
  }

  lemma QuadFull(prefix: string, last: string, hi: string, lo: string)
    requires Suffix(last, hi, lo) && AllHextets(Split(prefix, ':')) && |Split(prefix, ':')| == 6
    ensures Denotes(prefix + ":" + last, Values(Split(prefix, ':') + [hi, lo]))
  {
    var p := Split(prefix, ':');
    HextetsThenLast(p, last, [HexOf(hi), HexOf(lo)]);
    ValuesAppend(p, hi, lo);
    SplitIs(prefix, ':');
    JoinConcat(p, ':', [last]);
  }

  /** Hextets before the `::`; some more and then the quad after it. */
  lemma QuadCompressed(p: seq<string>, q: seq<string>, last: string, hi: string, lo: string)
    requires Suffix(last, hi, lo) && |p| + |q| <= 5 && AllHextets(p) && AllHextets(q)
    ensures Denotes(Join(p, ':') + "::" + Join(q + [last], ':'), Around(Values(p), Values(q + [hi, lo])))
  {
    HextetsSpell(p);
    HextetsThenLast(q, last, [HexOf(hi), HexOf(lo)]);
    ValuesAppend(q, hi, lo);
    DenotesAround(p, q + [last], Values(p), Values(q) + [HexOf(hi), HexOf(lo)]);
  }

  lemma NotInPair(prefix: string, hi: string, lo: string)
    requires IsHextet(hi) && IsHextet(lo)
    ensures var w := prefix + ":" + (hi + ":" + lo); DoubleColon(w, 0) < |w| ==> DoubleColon(w, 0) < |prefix|
  {
    var w := prefix + ":" + (hi + ":" + lo);
    HextetIsPlain(hi);
    HextetIsPlain(lo);
    assert forall i :: 0 <= i < |hi| ==> w[|prefix| + 1 + i] == hi[i];
    assert forall i :: 0 <= i < |lo| ==> w[|prefix| + 2 + |hi| + i] == lo[i];
  }

  /** The rewritten literal with `::` somewhere in it: after it come some pieces and then the two hextets. */
  lemma QuadTail(prefix: string, last: string, hi: string, lo: string, c: nat) returns (q: seq<string>)
    requires IsHextet(hi) && IsHextet(lo) && c < |prefix|
    requires prefix[c] == ':' && (prefix + ":")[c + 1] == ':'
    ensures PartsOf((prefix + ":" + (hi + ":" + lo))[c + 2..]) == q + [hi, lo]
    ensures prefix + ":" + last == prefix[..c] + "::" + Join(q + [last], ':')
  {
    var pair := hi + ":" + lo;
    var w := prefix + ":" + pair;
    if c + 1 == |prefix| {
      q := [];
      assert w[c + 2..] == pair;
      SuffixSplits("", hi, lo);
      assert [] + [last] == [last] && [] + [hi, lo] == [hi, lo];
      assert prefix == prefix[..c] + ":";
    } else {
      var x := prefix[c + 2..];
      assert w[c + 2..] == x + ":" + pair;
      assert prefix == prefix[..c] + "::" + x;
      q := Split(x, ':');
      SuffixSplits(x, hi, lo);
      LongTail(prefix[..c], x, last);
    }
  }

  lemma LongTail(a: string, x: string, last: string)
    ensures a + "::" + x + ":" + last == a + "::" + Join(Split(x, ':') + [last], ':')
  {
    SplitIs(x, ':');
    JoinConcat(Split(x, ':'), ':', [last]);
    Regroup(a + "::", x, ":", last);
  }

  /** With an IPv4 suffix, what this parser accepts denotes the same groups. */
  lemma QuadDenotes(prefix: string, last: string, hi: string, lo: string, pieces: seq<string>)
    requires Suffix(last, hi, lo)
    requires Pieces(prefix + ":" + (hi + ":" + lo)) == Some(pieces) && |pieces| == 8 && AllHextets(pieces)
    ensures Denotes(prefix + ":" + last, Values(pieces))
  {
    var w := prefix + ":" + (hi + ":" + lo);
    if |SplitDouble(w)| == 2 {
      SplitDoubleIs(w);
      QuadDenotesAround(prefix, last, hi, lo, DoubleColon(w, 0));
    } else {
      SuffixSplits(prefix, hi, lo);
      assert forall i :: 0 <= i < |Split(prefix, ':')| ==> pieces[i] == Split(prefix, ':')[i];
      QuadFull(prefix, last, hi, lo);
    }
  }

  lemma QuadDenotesAround(prefix: string, last: string, hi: string, lo: string, c: nat)
    requires Suffix(last, hi, lo)
    requires var w := prefix + ":" + (hi + ":" + lo);
      && c == DoubleColon(w, 0) < |w|
      && |PartsOf(w[..c])| + |PartsOf(w[c + 2..])| <= 7
      && AllHextets(FilledPieces(PartsOf(w[..c]), PartsOf(w[c + 2..])))
    ensures var w := prefix + ":" + (hi + ":" + lo);
      Denotes(prefix + ":" + last, Values(FilledPieces(PartsOf(w[..c]), PartsOf(w[c + 2..]))))
  {
    var w := prefix + ":" + (hi + ":" + lo);
    NotInPair(prefix, hi, lo);
    assert w[..c] == prefix[..c] && w[..|prefix| + 1] == prefix + ":";
    var q := QuadTail(prefix, last, hi, lo, c);
    var p := PartsOf(prefix[..c]);
    ValuesFilled(p, q + [hi, lo]);
    assert forall i :: 0 <= i < |q| ==> (q + [hi, lo])[i] == q[i];
    JoinPartsOf(prefix[..c]);
    QuadCompressed(p, q, last, hi, lo);
  }

  lemma QuadIsSuffix(last: string, o: seq<nat>)
    requires ParseOctets(last) == Some(o)
    ensures |o| == 4 && Suffix(last, HexText(PairsOf(o)[0]), HexText(PairsOf(o)[1]))
  {
    OctetsCanonical(last, o);
    HexRoundTrip(PairsOf(o)[0]);
    HexRoundTrip(PairsOf(o)[1]);
    HexLength(PairsOf(o)[0]);
    HexLength(PairsOf(o)[1]);
  }

  /** What this parser accepts denotes the groups it gives. */
  lemma ExpandDenotes(address: string, g: seq<nat>)
    requires Expand(address) == Some(g)
    ensures Denotes(address, g)
  {
    var colon := LastColon(address);
    var last := address[colon + 1..];
    var pieces := Pieces(Rewritten(address).value).value;
    if colon == -1 || '.' !in last {
      PlainDenotes(address, pieces);
    } else {
      CutAtColon(address, colon);
      QuadExpands(address[..colon], last, ParseOctets(last).value, pieces);
    }
  }

  lemma CutAtColon(s: string, c: nat)
    requires c < |s| && s[c] == ':'
    ensures s == s[..c] + ":" + s[c + 1..]
  {
  }

  lemma QuadExpands(prefix: string, last: string, o: seq<nat>, pieces: seq<string>)
    requires ParseOctets(last) == Some(o) && |pieces| == 8 && AllHextets(pieces)
    requires |o| == 4 && Pieces(prefix + ":" + HexText(PairsOf(o)[0]) + ":" + HexText(PairsOf(o)[1])) == Some(pieces)
    ensures Denotes(prefix + ":" + last, Values(pieces))
  {
    QuadIsSuffix(last, o);
    var (hi, lo) := (HexText(PairsOf(o)[0]), HexText(PairsOf(o)[1]));
    Regroup(prefix + ":", hi, ":", lo);
    QuadDenotes(prefix, last, hi, lo, pieces);
  }

  // ----- and whatever denotes an address is accepted -----------------------------

  /** Spelled parts are hextets, or hextets and then a dotted quad, which counts for two groups. */
  lemma {:induction false} SpelledShape(parts: seq<string>, groups: seq<nat>) returns (hs: seq<string>, o: seq<nat>)
    requires Spells(parts, groups)
    ensures AllHextets(hs)
    ensures o == [] ==> parts == hs && |groups| == |hs|
    ensures o != [] ==> AreOctets(o) && parts == hs + [Quad(o)] && |groups| == |hs| + 2
  {
    if parts == [] {
      hs, o := [], [];
    } else {
      var n :| 0 <= n <= |groups| && PartSpells(parts[0], |parts| == 1, groups[..n]) && Spells(parts[1..], groups[n..]);
      if IsHextet(parts[0]) && groups[..n] == [HexOf(parts[0])] {
        var rest;
        rest, o := SpelledShape(parts[1..], groups[n..]);
        hs := [parts[0]] + rest;
        assert parts == [parts[0]] + parts[1..];
      } else {
        o :| AreOctets(o) && parts[0] == Quad(o) && groups[..n] == PairsOf(o);
        hs := [];
        assert |groups[..n]| == 2 && |groups[n..]| == 0;
      }
    }
  }

  lemma HextetsArePlain(parts: seq<string>)
    requires AllHextets(parts)
    ensures AllWithout(parts, ':') && forall i :: 0 <= i < |parts| ==> parts[i] != ""
  {
    forall i | 0 <= i < |parts| ensures Without(parts[i], ':') {
      HextetIsPlain(parts[i]);
    }
  }

  lemma PiecesOfFull(parts: seq<string>)
    requires AllHextets(parts) && |parts| == 8
    ensures Pieces(Join(parts, ':')) == Some(parts)
  {
    HextetsArePlain(parts);
    JoinIsTight(parts);
    NoDoubleColon(Join(parts, ':'));
    SplitJoin(parts, ':');
  }

  lemma PartsOfJoin(parts: seq<string>)
    requires AllHextets(parts)
    ensures PartsOf(Join(parts, ':')) == parts && Tight(Join(parts, ':'))
  {
    HextetsArePlain(parts);
    JoinIsTight(parts);
    if parts != [] {
      SplitJoin(parts, ':');
    }
  }

  lemma SplitAround(a: string, b: string)
    requires Tight(a) && Tight(b)
    ensures SplitDouble(a + "::" + b) == [a, b]
  {
    var s := a + "::" + b;
    OneDoubleColon(a, b);
    NoDoubleColon(b);
    assert s[..|a|] == a && s[|a| + 2..] == b;
    assert SplitDouble(b) == [b];
    assert [a] + [b] == [a, b];
  }

  lemma PiecesOfGap(p: seq<string>, q: seq<string>)
    requires AllHextets(p) && AllHextets(q) && |p| + |q| <= 7
    ensures Pieces(Join(p, ':') + "::" + Join(q, ':')) == Some(FilledPieces(p, q)) && AllHextets(FilledPieces(p, q))
  {
    PartsOfJoin(p);
    PartsOfJoin(q);
    SplitAround(Join(p, ':'), Join(q, ':'));
  }

  lemma {:induction false} LastColonIs(a: string, last: string)
    requires Without(last, ':')
    ensures LastColon(a + ":" + last) == |a|
  {
    var s := a + ":" + last;
    if last != "" {
      var front := last[..|last| - 1];
      assert s[..|s| - 1] == a + ":" + front;
      LastColonIs(a, front);
    }
  }

  /** A literal that ends in a hextet, or in nothing after a colon, is not rewritten. */
  lemma NotRewritten(a: string, last: string)
    requires Without(last, ':') && '.' !in last
    ensures Rewritten(a + ":" + last) == Some(a + ":" + last)
  {
    LastColonIs(a, last);
    assert (a + ":" + last)[|a| + 1..] == last;
  }

  /** The dotted quad `last` is rewritten as the two hextets `hi` and `lo`. */
  ghost predicate Becomes(last: string, hi: string, lo: string) {
    && '.' in last && Without(last, ':') && IsHextet(hi) && IsHextet(lo)
    && ParseOctets(last).Some?
    && hi == HexText(PairsOf(ParseOctets(last).value)[0]) && lo == HexText(PairsOf(ParseOctets(last).value)[1])
  }

  lemma QuadBecomes(o: seq<nat>) returns (hi: string, lo: string)
    requires AreOctets(o)
    ensures Becomes(Quad(o), hi, lo)
  {
    hi, lo := HexText(PairsOf(o)[0]), HexText(PairsOf(o)[1]);
    QuadReadsBack(o);
    QuadIsSuffix(Quad(o), o);
    QuadHasDot(o);
  }

  lemma QuadRewritten(a: string, last: string, hi: string, lo: string)
    requires Becomes(last, hi, lo)
    ensures Rewritten(a + ":" + last) == Some(a + ":" + hi + ":" + lo)
  {
    LastColonIs(a, last);
    var s := a + ":" + last;
    assert s[|a| + 1..] == last && s[..|a|] == a;
  }

  lemma ExpandOf(address: string, working: string, pieces: seq<string>)
    requires Rewritten(address) == Some(working) && Pieces(working) == Some(pieces)
    requires |pieces| == 8 && AllHextets(pieces)
    ensures Expand(address).Some?
  {
  }

  /** The last part of a joined list, and what is before it. */
  lemma JoinLast(front: seq<string>, last: string)
    requires front != []
    ensures Join(front + [last], ':') == Join(front, ':') + ":" + last
  {
    JoinConcat(front, ':', [last]);
  }

  lemma EndsInHextet(hs: seq<string>)
    requires AllHextets(hs) && |hs| > 1
    ensures Rewritten(Join(hs, ':')) == Some(Join(hs, ':'))
  {
    var n := |hs| - 1;
    assert hs == hs[..n] + [hs[n]];
    JoinLast(hs[..n], hs[n]);
    HextetIsPlain(hs[n]);
    NotRewritten(Join(hs[..n], ':'), hs[n]);
  }

  lemma ExpandFull(hs: seq<string>)
    requires AllHextets(hs) && |hs| == 8
    ensures Expand(Join(hs, ':')).Some?
  {
    EndsInHextet(hs);
    PiecesOfFull(hs);
    ExpandOf(Join(hs, ':'), Join(hs, ':'), hs);
  }

  /** Two more parts on a joined list. */
  lemma JoinTwo(front: seq<string>, hi: string, lo: string)
    requires front != []
    ensures Join(front + [hi, lo], ':') == Join(front, ':') + ":" + hi + ":" + lo
  {
    JoinConcat(front, ':', [hi, lo]);
    assert Join([hi, lo], ':') == hi + [':'] + lo by { assert [hi, lo][1..] == [lo]; }
    Regroup(Join(front, ':') + ":", hi, ":", lo);
  }

  lemma ExpandFullQuad(hs: seq<string>, last: string, hi: string, lo: string)
    requires AllHextets(hs) && |hs| == 6 && Becomes(last, hi, lo)
    ensures Expand(Join(hs + [last], ':')).Some?
  {
    JoinLast(hs, last);
    QuadRewritten(Join(hs, ':'), last, hi, lo);
    JoinTwo(hs, hi, lo);
    TwoMore(hs, hi, lo);
    PiecesOfFull(hs + [hi, lo]);
    ExpandOf(Join(hs + [last], ':'), Join(hs + [hi, lo], ':'), hs + [hi, lo]);
  }

  lemma TwoMore(hs: seq<string>, hi: string, lo: string)
    requires AllHextets(hs) && IsHextet(hi) && IsHextet(lo)
    ensures AllHextets(hs + [hi, lo])
  {
  }

  lemma ExpandGap(p: seq<string>, q: seq<string>)
    requires AllHextets(p) && AllHextets(q) && |p| + |q| <= 7
    ensures Expand(Join(p, ':') + "::" + Join(q, ':')).Some?
  {
    var text := Join(p, ':') + "::" + Join(q, ':');
    GapNotRewritten(Join(p, ':'), q);
    PiecesOfGap(p, q);
    ExpandOf(text, text, FilledPieces(p, q));
  }

  lemma GapNotRewritten(a: string, q: seq<string>)
    requires AllHextets(q)
    ensures Rewritten(a + "::" + Join(q, ':')) == Some(a + "::" + Join(q, ':'))
  {
    if q == [] {
      EndsPlain(a, "");
    } else if |q| == 1 {
      HextetIsPlain(q[0]);
      EndsPlain(a, q[0]);
    } else {
      var (front, last) := (q[..|q| - 1], q[|q| - 1]);
      assert q == front + [last];
      JoinLast(front, last);
      HextetIsPlain(last);
      Regroup(a + "::", Join(front, ':'), ":", last);
      NotRewritten(a + "::" + Join(front, ':'), last);
    }
  }

  lemma EndsPlain(a: string, last: string)
    requires Without(last, ':') && '.' !in last
    ensures Rewritten(a + "::" + last) == Some(a + "::" + last)
  {
    NotRewritten(a + ":", last);
    assert a + ":" + ":" + last == a + "::" + last;
  }

  lemma ExpandGapQuad(p: seq<string>, hs: seq<string>, last: string, hi: string, lo: string)
    requires AllHextets(p) && AllHextets(hs) && Becomes(last, hi, lo) && |p| + |hs| <= 5
    ensures Expand(Join(p, ':') + "::" + Join(hs + [last], ':')).Some?
  {
    GapRewritten(Join(p, ':'), hs, last, hi, lo);
    TwoMore(hs, hi, lo);
    PiecesOfGap(p, hs + [hi, lo]);
    ExpandOf(Join(p, ':') + "::" + Join(hs + [last], ':'), Join(p, ':') + "::" + Join(hs + [hi, lo], ':'),
             FilledPieces(p, hs + [hi, lo]));
  }

  lemma GapRewritten(a: string, hs: seq<string>, last: string, hi: string, lo: string)
    requires Becomes(last, hi, lo)
    ensures Rewritten(a + "::" + Join(hs + [last], ':')) == Some(a + "::" + Join(hs + [hi, lo], ':'))
  {
    if hs == [] {
      assert hs + [last] == [last] && hs + [hi, lo] == [hi, lo];
      QuadRewritten(a + ":", last, hi, lo);
      OnlyQuad(a, last, hi, lo);
    } else {
      JoinLast(hs, last);
      JoinTwo(hs, hi, lo);
      QuadRewritten(a + "::" + Join(hs, ':'), last, hi, lo);
      Regroup(a + "::", Join(hs, ':'), ":", last);
      RegroupTwo(a + "::", Join(hs, ':'), hi, lo);
    }
  }

  lemma OnlyQuad(a: string, last: string, hi: string, lo: string)
    ensures a + ":" + ":" + last == a + "::" + Join([last], ':')
    ensures a + ":" + ":" + hi + ":" + lo == a + "::" + Join([hi, lo], ':')
  {
    assert [hi, lo][1..] == [lo] && Join([hi, lo], ':') == hi + [':'] + lo;
    assert a + ":" + ":" == a + "::";
    Regroup(a + "::", hi, ":", lo);
  }

  lemma RegroupTwo(a: string, b: string, hi: string, lo: string)
    ensures a + b + ":" + hi + ":" + lo == a + (b + ":" + hi + ":" + lo)
  {
    Regroup(a, b, ":", hi);
    Regroup(a, b + ":" + hi, ":", lo);
  }

  lemma DenotedIsExpanded(text: string, g: seq<nat>)
    requires Denotes(text, g)
    ensures Expand(text).Some?
  {
    if exists parts :: |g| == 8 && Spells(parts, g) && text == Join(parts, ':') {
      var parts :| |g| == 8 && Spells(parts, g) && text == Join(parts, ':');
      FullIsExpanded(parts, g);
    } else {
      var p, q, hg, tg :| AllHextets(p) && Fills(text, g, p, q, hg, tg);
      GapIsExpanded(p, q, hg, tg);
    }
  }

  lemma FullIsExpanded(parts: seq<string>, g: seq<nat>)
    requires |g| == 8 && Spells(parts, g)
    ensures Expand(Join(parts, ':')).Some?
  {
    var hs, o := SpelledShape(parts, g);
    if o == [] {
      ExpandFull(hs);
    } else {
      var hi, lo := QuadBecomes(o);
      ExpandFullQuad(hs, Quad(o), hi, lo);
    }
  }

  lemma GapIsExpanded(p: seq<string>, q: seq<string>, hg: seq<nat>, tg: seq<nat>)
    requires AllHextets(p) && Spells(p, hg) && Spells(q, tg) && |hg| + |tg| <= 7
    ensures Expand(Join(p, ':') + "::" + Join(q, ':')).Some?
  {
    HextetsSpell(p);
    PartsParse(p, hg);
    PartsParse(p, Values(p));
    var hs, o := SpelledShape(q, tg);
    if o == [] {
      ExpandGap(p, hs);
    } else {
      var hi, lo := QuadBecomes(o);
      ExpandGapQuad(p, hs, Quad(o), hi, lo);
    }
  }

  /** The second parser accepts a literal, and gives its groups, if and only if it denotes an address. */
  lemma ExpandIsDenotation(address: string, g: seq<nat>)
    ensures Expand(address) == Some(g) <==> Denotes(address, g)
  {
    if Expand(address) == Some(g) {
      ExpandDenotes(address, g);
    }
    if Denotes(address, g) {
      DenotedIsExpanded(address, g);
      ExpandDenotes(address, Expand(address).value);
      ParseBodyIsDenotation(address, g);
      ParseBodyIsDenotation(address, Expand(address).value);
    }
  }

  /** The two parsers agree exactly on literals without a zone index and without a dot before the `::`; the first
      accepts those as well, and the second never does. */
  lemma ParsersAgreeExactly(address: string, g: seq<nat>)
    ensures Expand(address) == Some(g) <==> Parse(address) == Some(g) && Without(address, '%') && !DotBeforeGap(address)
  {
    ExpandIsDenotation(address, g);
    ParseBodyIsDenotation(address, g);
    if Denotes(address, g) {
      DenotedIsPlain(address, g);
    }
    if Without(address, '%') && address != "" {
      ZoneIsDropped(address, "");
    }
  }

  /** Every dotted quad before a `::` is such a literal. */
  lemma ParsersDiffer(o: seq<nat>)
    requires AreOctets(o)
    ensures ParseBody(Quad(o) + "::").Some? && Expand(Quad(o) + "::") == None
  {
    EarlyQuadIsRead(o, []);
    if Expand(Quad(o) + "::").Some? {
      var g := Expand(Quad(o) + "::").value;
      ExpandDenotes(Quad(o) + "::", g);
      EarlyQuadIsRead(o, g);
    }
  }

  lemma QuadGapIsRead(o: seq<nat>, text: string)
    requires AreOctets(o) && text == Quad(o) + "::" && Without(text, '%')
    ensures Parse(text) == Some(PairsOf(o) + [0, 0, 0, 0, 0, 0]) && Expand(text) == None
  {
    ParsersDiffer(o);
    EarlyQuadIsRead(o, []);
    ZoneIsDropped(text, "");
  }

  lemma JoinPair(a: string, b: string)
    ensures Join([a, b], '.') == a + "." + b
  {
    assert [a, b][1..] == [b];
  }

  lemma OneTwoThreeFour(o: seq<nat>)
    requires o == [1, 2, 3, 4]
    ensures AreOctets(o) && Quad(o) == "1.2.3.4"
  {
    var t := OctetTexts(o);
    assert t[0] == "1" && t[1] == "2" && t[2] == "3" && t[3] == "4";
    assert t == ["1", "2", "3", "4"];
    JoinConcat(["1", "2"], '.', ["3", "4"]);
    assert ["1", "2"] + ["3", "4"] == t;
    JoinPair("1", "2");
    JoinPair("3", "4");
  }

  lemma OneTwoThreeFourGap(o: seq<nat>, text: string)
    requires o == [1, 2, 3, 4] && text == "1.2.3.4::"
    ensures AreOctets(o) && text == Quad(o) + "::" && Without(text, '%')
    ensures PairsOf(o) + [0, 0, 0, 0, 0, 0] == [0x102, 0x304, 0, 0, 0, 0, 0, 0]
  {
    OneTwoThreeFour(o);
  }

  /** `1.2.3.4::` is read as `102:304::` by the first parser and refused by the second. */
  lemma QuadBeforeGap(text: string)
    requires text == "1.2.3.4::"
    ensures Parse(text) == Some([0x102, 0x304, 0, 0, 0, 0, 0, 0]) && Expand(text) == None
  {
    OneTwoThreeFourGap([1, 2, 3, 4], text);
    QuadGapIsRead([1, 2, 3, 4], text);
  }

  lemma {:induction false} SpelledWithoutZone(parts: seq<string>, groups: seq<nat>)
    requires Spells(parts, groups)
    ensures AllWithout(parts, '%')
  {
    if parts != [] {
      var n :| 0 <= n <= |groups| && PartSpells(parts[0], |parts| == 1, groups[..n]) && Spells(parts[1..], groups[n..]);
      SpelledWithoutZone(parts[1..], groups[n..]);
      if IsHextet(parts[0]) {
        HextetIsPlain(parts[0]);
      } else {
        var o: seq<nat> :| AreOctets(o) && parts[0] == Quad(o) && groups[..n] == PairsOf(o);
        forall i | 0 <= i < 4 ensures Without(OctetTexts(o)[i], '%') {
          OctetTextIsPlain(o[i], '%');
        }
        JoinWithout(OctetTexts(o), '.', '%');
      }
      assert parts == [parts[0]] + parts[1..];
    }
  }

  /** A literal that denotes an address is not empty and has no zone index. */
  lemma DenotedIsPlain(text: string, g: seq<nat>)
    requires Denotes(text, g)
    ensures text != "" && Without(text, '%')
  {
    if exists parts :: |g| == 8 && Spells(parts, g) && text == Join(parts, ':') {
      var parts :| |g| == 8 && Spells(parts, g) && text == Join(parts, ':');
      SpelledWithoutZone(parts, g);
      SpelledPartsArePlain(parts, g);
      JoinIsTight(parts);
      JoinWithout(parts, ':', '%');
    } else {
      var p, q, hg, tg :| AllHextets(p) && Fills(text, g, p, q, hg, tg);
      SpelledWithoutZone(p, hg);
      SpelledWithoutZone(q, tg);
      JoinWithout(p, ':', '%');
      JoinWithout(q, ':', '%');
    }
  }
}

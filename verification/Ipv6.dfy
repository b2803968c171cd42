/** IPv4 and IPv6 literals: reading them, writing them canonically, and what they denote. */
module Ipv6 {
  import opened Options
  import opened Texts

  // ----- parseIpv4Octets -------------------------------------------------------

  ghost predicate AreOctets(o: seq<nat>) {
    |o| == 4 && forall i :: 0 <= i < 4 ==> o[i] <= 255
  }

  /** `dottedQuad` */
  function Quad(o: seq<nat>): string
    requires |o| == 4 && forall i :: 0 <= i < 4 ==> o[i] <= 255
  {
    Join(OctetTexts(o), '.')
  }

  function OctetTexts(o: seq<nat>): seq<string>
    requires forall i :: 0 <= i < |o| ==> o[i] <= 255
  {
    seq(|o|, i requires 0 <= i < |o| => OctetText(o[i]))
  }

  function ParseOctets(text: string): Option<seq<nat>> {
    var parts := Split(text, '.');
    if |parts| == 4 && forall i :: 0 <= i < 4 ==> OctetOf(parts[i]).Some?
    then Some([OctetOf(parts[0]).value, OctetOf(parts[1]).value, OctetOf(parts[2]).value, OctetOf(parts[3]).value])
    else None
  }

  lemma OctetTextIsPlain(n: nat, c: char)
    requires n <= 255 && DigitValue(c) >= 10
    ensures Without(OctetText(n), c)
  {
    OctetReadsBack(n);
  }

  /** Exactly one text is read as a given address: the canonical dotted quad. */
  lemma OctetsCanonical(text: string, o: seq<nat>)
    ensures ParseOctets(text) == Some(o) <==> AreOctets(o) && text == Quad(o)
  {
    var parts := Split(text, '.');
    SplitIs(text, '.');
    if ParseOctets(text) == Some(o) {
      forall i | 0 <= i < 4 ensures o[i] <= 255 && parts[i] == OctetText(o[i]) {
        OctetCanonical(parts[i], o[i]);
      }
      assert parts == OctetTexts(o);
    }
    if AreOctets(o) && text == Quad(o) {
      QuadReadsBack(o);
    }
  }

  lemma QuadReadsBack(o: seq<nat>)
    requires AreOctets(o)
    ensures ParseOctets(Quad(o)) == Some(o)
  {
    var texts := OctetTexts(o);
    forall i | 0 <= i < 4 ensures Without(texts[i], '.') && OctetOf(texts[i]) == Some(o[i]) {
      OctetTextIsPlain(o[i], '.');
      OctetReadsBack(o[i]);
    }
    SplitJoin(texts, '.');
    assert o == [o[0], o[1], o[2], o[3]];
  }

  method ParseIpv4Octets(text: string) returns (octets: Option<seq<nat>>)
    ensures octets == ParseOctets(text)
  {
    var parts := Split(text, '.');
    if |parts| != 4 {
      return None;
    }
    var values: seq<nat> := [];
    var i := 0;
    while i < 4
      invariant 0 <= i <= 4 && |values| == i
      invariant forall j :: 0 <= j < i ==> OctetOf(parts[j]) == Some(values[j])
    {
      var octet := OctetOf(parts[i]);
      if octet.None? {
        return None;
      }
      values := values + [octet.value];
      i := i + 1;
    }
    assert values == [values[0], values[1], values[2], values[3]];
    return Some(values);
  }

  // ----- parseHextetRun --------------------------------------------------------

  predicate IsHextet(part: string) {
    1 <= |part| <= 4 && AreHexDigits(part)
  }

  predicate AllHextets(pieces: seq<string>) {
    forall i :: 0 <= i < |pieces| ==> IsHextet(pieces[i])
  }

  function PairsOf(o: seq<nat>): seq<nat>
    requires |o| == 4
  {
    [o[0] * 256 + o[1], o[2] * 256 + o[3]]
  }

  /** The groups one part stands for: two for a dotted quad, which must come last, and one for a hextet. */
  function ParsePart(part: string, last: bool): Option<seq<nat>> {
    if '.' in part then
      var o := ParseOctets(part);
      if last && o.Some? then Some(PairsOf(o.value)) else None
    else if IsHextet(part) then Some([HexOf(part)])
    else None
  }

  function ParseParts(parts: seq<string>): Option<seq<nat>> {
    if parts == [] then Some([])
    else
      var first := ParsePart(parts[0], |parts| == 1);
      var rest := ParseParts(parts[1..]);
      if first.Some? then Prepend(first.value, rest) else None
  }

  function PartsOf(text: string): seq<string> {
    if text == "" then [] else Split(text, ':')
  }

  function ParseRun(text: string): Option<seq<nat>> {
    ParseParts(PartsOf(text))
  }

  function Prepend(v: seq<nat>, rest: Option<seq<nat>>): Option<seq<nat>> {
    if rest.Some? then Some(v + rest.value) else None
  }

  lemma PrependNothing(rest: Option<seq<nat>>)
    ensures Prepend([], rest) == rest
  {
    if rest.Some? {
      assert [] + rest.value == rest.value;
    }
  }

  lemma PrependTwice(v: seq<nat>, w: seq<nat>, rest: Option<seq<nat>>)
    ensures Prepend(v, Prepend(w, rest)) == Prepend(v + w, rest)
  {
    if rest.Some? {
      assert v + (w + rest.value) == v + w + rest.value;
    }
  }

  method ParseHextetRun(text: string) returns (groups: Option<seq<nat>>)
    ensures groups == ParseRun(text)
  {
    if |text| == 0 {
      return Some([]);
    }
    var parts := Split(text, ':');
    var values: seq<nat> := [];
    var index := 0;
    assert parts[0..] == parts;
    PrependNothing(ParseParts(parts));
    while index < |parts|
      invariant 0 <= index <= |parts|
      invariant ParseParts(parts) == Prepend(values, ParseParts(parts[index..]))
    {
      var part := parts[index];
      assert parts[index..][1..] == parts[index + 1..] && parts[index..][0] == part;
      if |part| == 0 {
        return None;
      }
      if '.' in part {
        if index != |parts| - 1 {
          return None;
        }
        var octets := ParseIpv4Octets(part);
        if octets.None? {
          return None;
        }
        PrependTwice(values, PairsOf(octets.value), ParseParts(parts[index + 1..]));
        values := values + PairsOf(octets.value);
      } else {
        if !IsHextet(part) {
          return None;
        }
        PrependTwice(values, [HexOf(part)], ParseParts(parts[index + 1..]));
        values := values + [HexOf(part)];
      }
      index := index + 1;
    }
    assert parts[index..] == [] && values + [] == values;
    return Some(values);
  }

  // ----- what the texts denote -------------------------------------------------

  /** One part spells the groups: one to four hexadecimal digits, or, as the last part, a dotted quad. */
  ghost predicate PartSpells(part: string, last: bool, v: seq<nat>) {
    || (IsHextet(part) && v == [HexOf(part)])
    || (last && exists o: seq<nat> :: AreOctets(o) && part == Quad(o) && v == PairsOf(o))
  }

  /** The parts, in order, spell the groups. */
  ghost predicate Spells(parts: seq<string>, groups: seq<nat>) {
    if parts == [] then groups == []
    else
      exists n :: 0 <= n <= |groups|
                  && PartSpells(parts[0], |parts| == 1, groups[..n]) && Spells(parts[1..], groups[n..])
  }

  lemma {:induction false} QuadHasDot(o: seq<nat>)
    requires AreOctets(o)
    ensures '.' in Quad(o) && Without(Quad(o), ':')
  {
    var texts := OctetTexts(o);
    assert Quad(o) == texts[0] + ['.'] + Join(texts[1..], '.');
    assert Quad(o)[|texts[0]|] == '.';
    forall i | 0 <= i < 4 ensures Without(texts[i], ':') {
      OctetTextIsPlain(o[i], ':');
    }
    JoinWithout(texts, '.', ':');
  }

  lemma HextetIsPlain(part: string)
    requires IsHextet(part)
    ensures '.' !in part && Without(part, ':') && Without(part, '%')
  {
  }

  lemma PartParses(part: string, last: bool, v: seq<nat>)
    ensures ParsePart(part, last) == Some(v) <==> PartSpells(part, last, v)
  {
    if ParsePart(part, last) == Some(v) && '.' in part {
      OctetsCanonical(part, ParseOctets(part).value);
    }
    if PartSpells(part, last, v) {
      if IsHextet(part) && v == [HexOf(part)] {
        HextetIsPlain(part);
      } else {
        var o: seq<nat> :| AreOctets(o) && part == Quad(o) && v == PairsOf(o);
        OctetsCanonical(part, o);
        QuadHasDot(o);
      }
    }
  }

  /** Parts are read as exactly the groups they spell. */
  lemma PartsParse(parts: seq<string>, groups: seq<nat>)
    ensures ParseParts(parts) == Some(groups) <==> Spells(parts, groups)
  {
    if ParseParts(parts) == Some(groups) {
      ParsedSpells(parts, groups);
    }
    if Spells(parts, groups) {
      SpelledParses(parts, groups);
    }
  }

  lemma {:induction false} SpelledParses(parts: seq<string>, groups: seq<nat>)
    requires Spells(parts, groups)
    ensures ParseParts(parts) == Some(groups)
  {
    if parts != [] {
      var n :| 0 <= n <= |groups| && PartSpells(parts[0], |parts| == 1, groups[..n]) && Spells(parts[1..], groups[n..]);
      PartParses(parts[0], |parts| == 1, groups[..n]);
      SpelledParses(parts[1..], groups[n..]);
      assert groups[..n] + groups[n..] == groups;
    }
  }

  lemma {:induction false} ParsedSpells(parts: seq<string>, groups: seq<nat>)
    requires ParseParts(parts) == Some(groups)
    ensures Spells(parts, groups)
  {
    if parts != [] {
      var first := ParsePart(parts[0], |parts| == 1).value;
      var n := |first|;
      assert groups[..n] == first && groups[n..] == ParseParts(parts[1..]).value;
      PartParses(parts[0], |parts| == 1, first);
      ParsedSpells(parts[1..], groups[n..]);
    }
  }

  lemma {:induction false} SpelledPartsArePlain(parts: seq<string>, groups: seq<nat>)
    requires Spells(parts, groups)
    ensures AllWithout(parts, ':') && forall i :: 0 <= i < |parts| ==> parts[i] != ""
  {
    if parts != [] {
      var n :| 0 <= n <= |groups| && PartSpells(parts[0], |parts| == 1, groups[..n]) && Spells(parts[1..], groups[n..]);
      SpelledPartsArePlain(parts[1..], groups[n..]);
      if IsHextet(parts[0]) {
        HextetIsPlain(parts[0]);
      } else {
        var o: seq<nat> :| AreOctets(o) && parts[0] == Quad(o) && groups[..n] == PairsOf(o);
        QuadHasDot(o);
      }
      assert parts == [parts[0]] + parts[1..];
    }
  }

  /** The text of a run of parts is read as the groups the parts spell. */
  lemma RunReadsBack(parts: seq<string>, groups: seq<nat>)
    requires Spells(parts, groups)
    ensures ParseRun(Join(parts, ':')) == Some(groups)
  {
    PartsParse(parts, groups);
    SpelledPartsArePlain(parts, groups);
    if parts != [] {
      SplitJoin(parts, ':');
      assert Join(parts, ':') != "";
    }
  }

  /** And every text that is read is the text of such a run. */
  lemma RunIsSpelled(text: string, groups: seq<nat>)
    requires ParseRun(text) == Some(groups)
    ensures Spells(PartsOf(text), groups) && Join(PartsOf(text), ':') == text
  {
    PartsParse(PartsOf(text), groups);
    SplitIs(text, ':');
  }

  // ----- parseIpv6Groups -------------------------------------------------------

  /** The first `::` at or after `from`, or the length. */
  function DoubleColon(s: string, from: nat): (i: nat)
    ensures i < |s| ==> from <= i < |s| - 1 && s[i] == ':' && s[i + 1] == ':'
    ensures i <= |s|
    ensures forall j, k :: from <= j < i && k == j + 1 && k < |s| ==> !(s[j] == ':' && s[k] == ':')
    decreases |s| - from
  {
    if from + 1 >= |s| then |s|
    else if s[from] == ':' && s[from + 1] == ':' then from
    else DoubleColon(s, from + 1)
  }

  function ZoneAt(s: string): (i: nat)
    ensures i <= |s| && Without(s[..i], '%') && (i < |s| ==> s[i] == '%')
  {
    if s == "" || s[0] == '%' then 0 else 1 + ZoneAt(s[1..])
  }

  function ParseBody(text: string): Option<seq<nat>> {
    var c := DoubleColon(text, 0);
    if c == |text| then
      var groups := ParseRun(text);
      if groups.Some? && |groups.value| == 8 then groups else None
    else if DoubleColon(text, c + 1) < |text| then None
    else
      Filled(ParseRun(text[..c]), ParseRun(text[c + 2..]))
  }

  /** The groups around a `::`, which stands for at least one zero group. */
  function Filled(head: Option<seq<nat>>, tail: Option<seq<nat>>): Option<seq<nat>> {
    if head.Some? && tail.Some? && |head.value| + |tail.value| <= 7
    then Some(Around(head.value, tail.value))
    else None
  }

  /** Eight groups, zero where nothing is given. */
  function Around(head: seq<nat>, tail: seq<nat>): (g: seq<nat>)
    requires |head| + |tail| <= 8
    ensures |g| == 8
  {
    head + Repeat(0, 8 - |head| - |tail|) + tail
  }

  function Parse(address: string): Option<seq<nat>> {
    var z := ZoneAt(address);
    if z == 0 && address != "" then None else ParseBody(address[..z])
  }

  /** `parseIpv6Groups` */
  method ParseIpv6Groups(address: string) returns (groups: Option<seq<nat>>)
    ensures groups == Parse(address)
  {
    var text := address;
    var zoneIndex := ZoneAt(text);
    if zoneIndex < |text| {
      if zoneIndex == 0 {
        return None;
      }
      text := text[..zoneIndex];
    }
    assert text == address[..zoneIndex];
    var compressionIndex := DoubleColon(text, 0);
    if compressionIndex < |text| && DoubleColon(text, compressionIndex + 1) < |text| {
      return None;
    }
    var head := ParseHextetRun(text[..compressionIndex]);
    var tail := ParseHextetRun(if compressionIndex == |text| then "" else text[compressionIndex + 2..]);
    assert text[..|text|] == text;
    if head.None? || tail.None? {
      return None;
    }
    if compressionIndex == |text| {
      return if |head.value| == 8 then head else None;
    }
    var omitted := 8 - |head.value| - |tail.value|;
    if omitted < 1 {
      return None;
    }
    return Some(Around(head.value, tail.value));
  }

  /**
   * What an IPv6 literal denotes, as section 2.2 of RFC 4291 writes addresses: eight groups, or fewer with one `::`
   * standing for the zero groups left out; a dotted quad only for the low-order 32 bits.
   */
  ghost predicate Denotes(text: string, groups: seq<nat>) {
    || (exists parts :: |groups| == 8 && Spells(parts, groups) && text == Join(parts, ':'))
    || (exists p, q, hg, tg :: AllHextets(p) && Fills(text, groups, p, q, hg, tg))
  }

  /** Two runs of parts around a `::` that stands for at least one zero group. */
  ghost predicate Fills(text: string, groups: seq<nat>, p: seq<string>, q: seq<string>, hg: seq<nat>, tg: seq<nat>) {
    && Spells(p, hg) && Spells(q, tg) && |hg| + |tg| <= 7
    && text == Join(p, ':') + "::" + Join(q, ':')
    && groups == Around(hg, tg)
  }

  /** No address: the run before the `::` ends in a dotted quad, which then is not the low-order 32 bits. */
  ghost predicate EarlyQuad(text: string, groups: seq<nat>) {
    exists p, q, hg, tg :: !AllHextets(p) && Fills(text, groups, p, q, hg, tg)
  }

  /** What a caller can see of that: a dot before the `::`. */
  predicate DotBeforeGap(text: string) {
    var c := DoubleColon(text, 0);
    c < |text| && '.' in text[..c]
  }

  /** No `::` inside, and no colon at either end. */
  ghost predicate Tight(s: string) {
    && (s != "" ==> s[0] != ':' && s[|s| - 1] != ':')
    && forall i, j :: 0 <= i < j < |s| && j == i + 1 ==> !(s[i] == ':' && s[j] == ':')
  }

  lemma {:induction false} RunIsTight(parts: seq<string>, groups: seq<nat>)
    requires Spells(parts, groups)
    ensures Tight(Join(parts, ':'))
  {
    SpelledPartsArePlain(parts, groups);
    JoinIsTight(parts);
  }

  lemma {:induction false} JoinIsTight(parts: seq<string>)
    requires AllWithout(parts, ':') && forall i :: 0 <= i < |parts| ==> parts[i] != ""
    ensures Tight(Join(parts, ':')) && (parts != [] ==> Join(parts, ':') != "")
  {
    if |parts| > 1 {
      JoinIsTight(parts[1..]);
      var (s, a, b) := (Join(parts, ':'), parts[0], Join(parts[1..], ':'));
      assert forall i :: 0 <= i < |a| ==> s[i] == a[i];
      assert forall i :: |a| < i < |s| ==> s[i] == b[i - |a| - 1];
    }
  }

  lemma NoDoubleColon(s: string)
    requires Tight(s)
    ensures DoubleColon(s, 0) == |s|
  {
  }

  lemma OneDoubleColon(a: string, b: string)
    requires Tight(a) && Tight(b)
    ensures var s := a + "::" + b; DoubleColon(s, 0) == |a| && DoubleColon(s, |a| + 1) == |s|
  {
    var s := a + "::" + b;
    assert s[|a|] == ':' && s[|a| + 1] == ':';
    assert forall i :: 0 <= i < |a| ==> s[i] == a[i];
    assert forall i :: |a| + 2 <= i < |s| ==> s[i] == b[i - |a| - 2];
    assert forall i :: 0 <= i < |a| ==> !(s[i] == ':' && s[i + 1] == ':');
  }

  lemma FullParses(parts: seq<string>, groups: seq<nat>)
    requires |groups| == 8 && Spells(parts, groups)
    ensures ParseBody(Join(parts, ':')) == Some(groups) && DoubleColon(Join(parts, ':'), 0) == |Join(parts, ':')|
  {
    RunIsTight(parts, groups);
    NoDoubleColon(Join(parts, ':'));
    RunReadsBack(parts, groups);
  }

  /** The parser reads the literals that denote an address, with the groups they denote, and those with an early
      quad. */
  lemma ParseBodyExactly(text: string, groups: seq<nat>)
    ensures ParseBody(text) == Some(groups) <==> Denotes(text, groups) || EarlyQuad(text, groups)
  {
    if ParseBody(text) == Some(groups) {
      ParsedFills(text, groups);
    }
    if exists parts :: |groups| == 8 && Spells(parts, groups) && text == Join(parts, ':') {
      var parts :| |groups| == 8 && Spells(parts, groups) && text == Join(parts, ':');
      FullParses(parts, groups);
    }
    if exists p, q, hg, tg :: Fills(text, groups, p, q, hg, tg) {
      var p, q, hg, tg :| Fills(text, groups, p, q, hg, tg);
      CompressedParses(text, groups, p, q, hg, tg);
    }
  }

  lemma CutAtGap(text: string) returns (head: string, tail: string)
    requires ParseBody(text).Some? && DoubleColon(text, 0) < |text|
    ensures text == head + "::" + tail && ParseBody(text) == Filled(ParseRun(head), ParseRun(tail))
  {
    var c := DoubleColon(text, 0);
    head, tail := text[..c], text[c + 2..];
    CutAround(text, c);
  }

  lemma CutAround(text: string, c: nat)
    requires c + 1 < |text| && text[c] == ':' && text[c + 1] == ':'
    ensures text == text[..c] + "::" + text[c + 2..]
  {
  }

  lemma ParsedFills(text: string, groups: seq<nat>)
    requires ParseBody(text) == Some(groups)
    ensures Denotes(text, groups) || EarlyQuad(text, groups)
  {
    if DoubleColon(text, 0) == |text| {
      RunDenotes(text, groups);
    } else {
      var head, tail := CutAtGap(text);
      AroundFills(head, tail, groups);
      FillsDenotes(text, groups, PartsOf(head), PartsOf(tail), ParseRun(head).value, ParseRun(tail).value);
    }
  }

  lemma RunDenotes(text: string, groups: seq<nat>)
    requires ParseRun(text) == Some(groups) && |groups| == 8
    ensures Denotes(text, groups)
  {
    RunIsSpelled(text, groups);
  }

  lemma FillsDenotes(text: string, groups: seq<nat>, p: seq<string>, q: seq<string>, hg: seq<nat>, tg: seq<nat>)
    requires Fills(text, groups, p, q, hg, tg)
    ensures if AllHextets(p) then Denotes(text, groups) else EarlyQuad(text, groups)
  {
  }

  lemma AroundFills(head: string, tail: string, groups: seq<nat>)
    requires Filled(ParseRun(head), ParseRun(tail)) == Some(groups)
    ensures Fills(head + "::" + tail, groups, PartsOf(head), PartsOf(tail), ParseRun(head).value, ParseRun(tail).value)
  {
    RunIsSpelled(head, ParseRun(head).value);
    RunIsSpelled(tail, ParseRun(tail).value);
  }

  lemma {:induction false} DotlessAreHextets(parts: seq<string>, groups: seq<nat>)
    requires Spells(parts, groups) && AllWithout(parts, '.')
    ensures AllHextets(parts)
  {
    if parts != [] {
      var n :| 0 <= n <= |groups| && PartSpells(parts[0], |parts| == 1, groups[..n]) && Spells(parts[1..], groups[n..]);
      DotlessAreHextets(parts[1..], groups[n..]);
      if !IsHextet(parts[0]) {
        var o: seq<nat> :| AreOctets(o) && parts[0] == Quad(o) && groups[..n] == PairsOf(o);
        QuadHasDot(o);
        assert false;
      }
      assert parts == [parts[0]] + parts[1..];
    }
  }

  lemma HextetsHaveNoDot(parts: seq<string>)
    requires AllHextets(parts)
    ensures Without(Join(parts, ':'), '.')
  {
    forall i | 0 <= i < |parts| ensures Without(parts[i], '.') {
      HextetIsPlain(parts[i]);
    }
    JoinWithout(parts, ':', '.');
  }

  /** The early quads are exactly the literals with a dot before the `::`. */
  lemma GapShowsQuad(text: string, groups: seq<nat>, p: seq<string>, q: seq<string>, hg: seq<nat>, tg: seq<nat>)
    requires Fills(text, groups, p, q, hg, tg)
    ensures DotBeforeGap(text) <==> !AllHextets(p)
  {
    RunIsTight(p, hg);
    RunIsTight(q, tg);
    OneDoubleColon(Join(p, ':'), Join(q, ':'));
    assert text[..|Join(p, ':')|] == Join(p, ':');
    if AllHextets(p) {
      HextetsHaveNoDot(p);
    } else if Without(Join(p, ':'), '.') {
      JoinKeeps(p, ':', '.');
      DotlessAreHextets(p, hg);
    }
  }

  /** A literal denotes an address if and only if the parser reads it and it has no dot before the `::`. */
  lemma ParseBodyIsDenotation(text: string, groups: seq<nat>)
    ensures Denotes(text, groups) <==> ParseBody(text) == Some(groups) && !DotBeforeGap(text)
  {
    ParseBodyExactly(text, groups);
    if exists parts :: |groups| == 8 && Spells(parts, groups) && text == Join(parts, ':') {
      var parts :| |groups| == 8 && Spells(parts, groups) && text == Join(parts, ':');
      FullParses(parts, groups);
    }
    forall p, q, hg, tg | Fills(text, groups, p, q, hg, tg) ensures DotBeforeGap(text) <==> !AllHextets(p) {
      GapShowsQuad(text, groups, p, q, hg, tg);
    }
  }

  /** `1.2.3.4::` denotes no address, and yet is read as one: `102:304::`. So is every quad before a `::`. */
  lemma EarlyQuadIsRead(o: seq<nat>, groups: seq<nat>)
    requires AreOctets(o)
    ensures ParseBody(Quad(o) + "::") == Some(PairsOf(o) + [0, 0, 0, 0, 0, 0])
    ensures !Denotes(Quad(o) + "::", groups)
  {
    QuadIsARun(o);
    var text := Quad(o) + "::";
    ParseAround(Quad(o), "");
    assert Quad(o) + "::" + "" == text;
    assert Around(PairsOf(o), []) == PairsOf(o) + [0, 0, 0, 0, 0, 0];
    OneDoubleColon(Quad(o), "");
    assert text[..|Quad(o)|] == Quad(o);
    QuadHasDot(o);
    ParseBodyIsDenotation(text, groups);
  }

  lemma QuadIsARun(o: seq<nat>)
    requires AreOctets(o)
    ensures ParseRun(Quad(o)) == Some(PairsOf(o)) && Tight(Quad(o))
  {
    assert PartSpells(Quad(o), true, PairsOf(o));
    assert PairsOf(o)[..2] == PairsOf(o) && PairsOf(o)[2..] == [] && [Quad(o)][1..] == [];
    assert Spells([Quad(o)], PairsOf(o));
    RunReadsBack([Quad(o)], PairsOf(o));
    RunIsTight([Quad(o)], PairsOf(o));
  }

  lemma CompressedParses(text: string, groups: seq<nat>, p: seq<string>, q: seq<string>, hg: seq<nat>, tg: seq<nat>)
    requires Fills(text, groups, p, q, hg, tg)
    ensures ParseBody(text) == Some(groups)
  {
    RunIsTight(p, hg);
    RunIsTight(q, tg);
    ParseAround(Join(p, ':'), Join(q, ':'));
    RunReadsBack(p, hg);
    RunReadsBack(q, tg);
  }

  lemma ParseAround(a: string, b: string)
    requires Tight(a) && Tight(b)
    ensures ParseBody(a + "::" + b) == Filled(ParseRun(a), ParseRun(b))
  {
    OneDoubleColon(a, b);
    var s := a + "::" + b;
    assert s[..|a|] == a && s[|a| + 2..] == b;
  }

  /** A zone index is dropped. */
  lemma ZoneIsDropped(text: string, zone: string)
    requires text != "" && Without(text, '%')
    ensures Parse(text + "%" + zone) == ParseBody(text) && Parse(text) == ParseBody(text)
  {
    ZoneFound(text, "");
    ZoneFound(text, "%" + zone);
    assert text + "" == text && text[..|text|] == text;
    var s := text + ("%" + zone);
    assert text + "%" + zone == s && s[..|text|] == text;
  }

  lemma {:induction false} ZoneFound(text: string, rest: string)
    requires Without(text, '%') && (rest == "" || rest[0] == '%')
    ensures ZoneAt(text + rest) == |text|
  {
    if text == "" {
      assert text + rest == rest;
    } else {
      assert (text + rest)[1..] == text[1..] + rest;
      ZoneFound(text[1..], rest);
    }
  }
}

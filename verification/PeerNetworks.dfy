/** The limiter key of a peer address: one key for an IPv4 peer in any spelling, one for each IPv6 /64 network. */
module PeerNetworks {
  import opened Options
  import opened Texts
  import opened Ipv6
  import opened Ipv6Format

  const UNKNOWN_PEER_KEY := "unknown-peer"

  /** What the socket reports: nothing, something that is not text, or a text. */
  datatype Address = Missing | NotText | Text(s: string)

  /** The network a peer belongs to: an IPv4 address, or the top four groups of an IPv6 one. */
  datatype Peer = V4(octets: seq<nat>) | V6(network: seq<nat>)

  ghost predicate ValidPeer(p: Peer) {
    match p
    case V4(o) => AreOctets(o)
    case V6(n) => |n| == 4 && AreGroups(n)
  }

  predicate IsIpv4Mapped(g: seq<nat>)
    requires |g| == 8
  {
    (forall i :: 0 <= i < 5 ==> g[i] == 0) && g[5] == 0xffff
  }

  function MappedOctets(g: seq<nat>): seq<nat>
    requires |g| == 8
  {
    [g[6] / 256, g[6] % 256, g[7] / 256, g[7] % 256]
  }

  /** The peer a text denotes. `isIpv6` is the platform's own test, which the text must pass as well. */
  function PeerOf(s: string, isIpv6: string -> bool): Option<Peer> {
    var o := ParseOctets(s);
    if o.Some? then Some(V4(o.value))
    else
      var g := Parse(s);
      if !isIpv6(s) || g.None? || |g.value| != 8 then None
      else if IsIpv4Mapped(g.value) then Some(V4(MappedOctets(g.value)))
      else Some(V6(g.value[..4]))
  }

  ghost predicate IsKeyOf(p: Peer, key: string) {
    match p
    case V4(o) => AreOctets(o) && key == Quad(o)
    case V6(n) => exists text :: IsCanonicalText(n + [0, 0, 0, 0], text) && key == text + "/64"
  }

  // ----- parsed groups are 16-bit ----------------------------------------------

  lemma PartIsGroups(part: string, last: bool, v: seq<nat>)
    requires PartSpells(part, last, v)
    ensures AreGroups(v)
  {
    if IsHextet(part) {
      HexBound(part);
    }
  }

  lemma {:induction false} SpelledAreGroups(parts: seq<string>, groups: seq<nat>)
    requires Spells(parts, groups)
    ensures AreGroups(groups)
  {
    if parts != [] {
      var n :| 0 <= n <= |groups| && PartSpells(parts[0], |parts| == 1, groups[..n]) && Spells(parts[1..], groups[n..]);
      SpelledAreGroups(parts[1..], groups[n..]);
      PartIsGroups(parts[0], |parts| == 1, groups[..n]);
      assert groups == groups[..n] + groups[n..];
    }
  }

  lemma RunsAreGroups(text: string)
    ensures ParseRun(text).Some? ==> AreGroups(ParseRun(text).value)
  {
    if ParseRun(text).Some? {
      RunIsSpelled(text, ParseRun(text).value);
      SpelledAreGroups(PartsOf(text), ParseRun(text).value);
    }
  }

  lemma BodyIsGroups(text: string)
    ensures ParseBody(text).Some? ==> |ParseBody(text).value| == 8 && AreGroups(ParseBody(text).value)
  {
    if ParseBody(text).Some? && DoubleColon(text, 0) < |text| {
      var head, tail := CutAtGap(text);
      RunsAreGroups(head);
      RunsAreGroups(tail);
    } else {
      RunsAreGroups(text);
    }
  }

  lemma ParsedAreGroups(s: string)
    ensures Parse(s).Some? ==> |Parse(s).value| == 8 && AreGroups(Parse(s).value)
  {
    BodyIsGroups(s[..ZoneAt(s)]);
  }

  lemma PeerIsValid(s: string, isIpv6: string -> bool)
    ensures PeerOf(s, isIpv6).Some? ==> ValidPeer(PeerOf(s, isIpv6).value)
  {
    var o := ParseOctets(s);
    if o.Some? {
      OctetsCanonical(s, o.value);
    } else {
      ParsedAreGroups(s);
    }
  }

  // ----- normalizePeerNetwork --------------------------------------------------

  /** The text reads as eight groups that are no IPv4-mapped address. */
  ghost predicate IsNetworkText(s: string, isIpv6: string -> bool, g: seq<nat>) {
    && ParseOctets(s).None? && isIpv6(s) && Parse(s) == Some(g) && |g| == 8
    && !(g[0] == 0 && g[1] == 0 && g[2] == 0 && g[3] == 0 && g[4] == 0 && g[5] == 0xffff)
  }

  /** The text reads as eight groups whose last two are an IPv4 address. */
  ghost predicate IsMappedText(s: string, isIpv6: string -> bool, g: seq<nat>) {
    && ParseOctets(s).None? && isIpv6(s) && Parse(s) == Some(g) && |g| == 8
    && g[0] == 0 && g[1] == 0 && g[2] == 0 && g[3] == 0 && g[4] == 0 && g[5] == 0xffff
  }

  /** The canonical text of the first four groups followed by four zero groups, and the length of the prefix. */
  ghost predicate IsNetworkKey(g: seq<nat>, key: string)
    requires |g| == 8
  {
    exists text :: IsCanonicalText([g[0], g[1], g[2], g[3], 0, 0, 0, 0], text) && key == text + "/64"
  }

  /** A text gets the key of its IPv4 address, plain or mapped, or of its /64 network, and none in any other case. */
  ghost predicate KeyedAs(s: string, isIpv6: string -> bool, key: Option<string>) {
    && (forall o :: ParseOctets(s) == Some(o) ==> AreOctets(o) && key == Some(Quad(o)))
    && (forall g :: IsMappedText(s, isIpv6, g) ==>
          exists o: seq<nat> :: AreOctets(o) && PairsOf(o) == [g[6], g[7]] && key == Some(Quad(o)))
    && (forall g :: IsNetworkText(s, isIpv6, g) ==> key.Some? && IsNetworkKey(g, key.value))
    && (key.Some? ==> ParseOctets(s).Some? || (isIpv6(s) && Parse(s).Some?))
  }

  method NormalizePeerNetwork(address: Address, isIpv6: string -> bool) returns (key: Option<string>)
    ensures address.Missing? || address == Text("") ==> key == Some(UNKNOWN_PEER_KEY)
    ensures address.NotText? ==> key.None?
    ensures address.Text? && address.s != "" ==>
      var peer := PeerOf(address.s, isIpv6);
      (key.Some? <==> peer.Some?) && (key.Some? ==> IsKeyOf(peer.value, key.value))
    ensures address.Text? && address.s != "" ==> KeyedAs(address.s, isIpv6, key)
  {
    if address.Missing? || address == Text("") {
      return Some(UNKNOWN_PEER_KEY);
    }
    if address.NotText? {
      return None;
    }
    key := NormalizeText(address.s, isIpv6);
    if key.Some? {
      PeerKeysAre(address.s, isIpv6, key.value);
    } else {
      UnkeyedIs(address.s, isIpv6);
    }
  }

  method NormalizeText(s: string, isIpv6: string -> bool) returns (key: Option<string>)
    ensures var peer := PeerOf(s, isIpv6);
      (key.Some? <==> peer.Some?) && (key.Some? ==> IsKeyOf(peer.value, key.value))
  {
    PeerIsValid(s, isIpv6);
    var octets := ParseIpv4Octets(s);
    if octets.Some? {
      return Some(Quad(octets.value));
    }
    if !isIpv6(s) {
      return None;
    }
    var groups := ParseIpv6Groups(s);
    ParsedAreGroups(s);
    if groups.None? {
      return None;
    }
    if IsIpv4Mapped(groups.value) {
      return Some(Quad(MappedOctets(groups.value)));
    }
    var text := FormatIpv6Groups(groups.value[..4] + [0, 0, 0, 0]);
    return Some(text + "/64");
  }

  lemma NetworkPeer(s: string, isIpv6: string -> bool, g: seq<nat>, key: string)
    requires IsNetworkText(s, isIpv6, g)
    ensures PeerOf(s, isIpv6) == Some(V6([g[0], g[1], g[2], g[3]]))
    ensures IsKeyOf(V6([g[0], g[1], g[2], g[3]]), key) <==> IsNetworkKey(g, key)
  {
    assert g[..4] == [g[0], g[1], g[2], g[3]];
    assert [g[0], g[1], g[2], g[3]] + [0, 0, 0, 0] == [g[0], g[1], g[2], g[3], 0, 0, 0, 0];
  }

  lemma ZerosAreMapped(g: seq<nat>)
    requires |g| == 8 && g[0] == 0 && g[1] == 0 && g[2] == 0 && g[3] == 0 && g[4] == 0 && g[5] == 0xffff
    ensures IsIpv4Mapped(g) && g[6..] == [g[6], g[7]]
  {
  }

  lemma MappedPeer(s: string, isIpv6: string -> bool, g: seq<nat>) returns (o: seq<nat>)
    requires IsMappedText(s, isIpv6, g)
    ensures AreOctets(o) && PairsOf(o) == [g[6], g[7]] && PeerOf(s, isIpv6) == Some(V4(o))
  {
    o := MappedOctets(g);
    ZerosAreMapped(g);
    MappedIsItsQuad(s, g, isIpv6);
  }

  lemma PeerKeysAre(s: string, isIpv6: string -> bool, key: string)
    requires PeerOf(s, isIpv6).Some? && IsKeyOf(PeerOf(s, isIpv6).value, key)
    ensures KeyedAs(s, isIpv6, Some(key))
  {
    forall g | IsMappedText(s, isIpv6, g)
      ensures exists o: seq<nat> :: AreOctets(o) && PairsOf(o) == [g[6], g[7]] && Some(key) == Some(Quad(o))
    {
      var o := MappedPeer(s, isIpv6, g);
    }
    forall g | IsNetworkText(s, isIpv6, g) ensures IsNetworkKey(g, key) {
      NetworkPeer(s, isIpv6, g, key);
    }
  }

  lemma UnkeyedIs(s: string, isIpv6: string -> bool)
    requires PeerOf(s, isIpv6).None?
    ensures KeyedAs(s, isIpv6, None)
  {
    forall g | IsMappedText(s, isIpv6, g) ensures false {
      var o := MappedPeer(s, isIpv6, g);
    }
    forall g | IsNetworkText(s, isIpv6, g) ensures false {
      NetworkPeer(s, isIpv6, g, "");
    }
  }

  // ----- what equal keys mean --------------------------------------------------

  lemma NetworkKeyIsColoned(n: seq<nat>, key: string)
    requires |n| == 4 && IsKeyOf(V6(n), key)
    ensures ':' in key
  {
    var text :| IsCanonicalText(n + [0, 0, 0, 0], text) && key == text + "/64";
    var g := n + [0, 0, 0, 0];
    var start, length: nat :| IsRunToCompress(g, start, length) && text == Compressed(g, start, length);
    CanonicalIsPlain(n + [0, 0, 0, 0], start, length);
    var i :| 0 <= i < |text| && text[i] == ':';
    assert key[i] == ':';
  }

  /** A key says which network it is for, and its family: it is never the key of another, nor of an unknown peer. */
  lemma KeysDecidePeers(p: Peer, q: Peer, k: string, l: string)
    requires ValidPeer(p) && ValidPeer(q) && IsKeyOf(p, k) && IsKeyOf(q, l)
    ensures k == l <==> p == q
    ensures k != UNKNOWN_PEER_KEY
  {
    KeyIsNotUnknown(p, k);
    match (p, q)
    case (V4(a), V4(b)) =>
      QuadReadsBack(a);
      QuadReadsBack(b);
    case (V6(a), V6(b)) =>
      NetworkKeysDecide(a, b, k, l);
    case (V4(a), V6(b)) =>
      QuadHasDot(a);
      NetworkKeyIsColoned(b, l);
    case (V6(a), V4(b)) =>
      QuadHasDot(b);
      NetworkKeyIsColoned(a, k);
  }

  lemma KeyIsNotUnknown(p: Peer, k: string)
    requires ValidPeer(p) && IsKeyOf(p, k)
    ensures k != UNKNOWN_PEER_KEY
  {
    if p.V4? {
      QuadHasDot(p.octets);
    } else {
      NetworkKeyIsColoned(p.network, k);
    }
  }

  lemma NetworkKeysDecide(a: seq<nat>, b: seq<nat>, k: string, l: string)
    requires ValidPeer(V6(a)) && ValidPeer(V6(b)) && IsKeyOf(V6(a), k) && IsKeyOf(V6(b), l)
    ensures k == l <==> a == b
  {
    var (ga, gb) := (a + [0, 0, 0, 0], b + [0, 0, 0, 0]);
    var ta :| IsCanonicalText(ga, ta) && k == ta + "/64";
    var tb :| IsCanonicalText(gb, tb) && l == tb + "/64";
    if k == l {
      SameBeforeSuffix(ta, tb, "/64");
      SameText(a, b, ta);
    }
    if a == b {
      CanonicalTextIsUnique(ga, ta, tb);
    }
  }

  lemma SameBeforeSuffix(a: string, b: string, suffix: string)
    requires a + suffix == b + suffix
    ensures a == b
  {
    assert a == (a + suffix)[..|a + suffix| - |suffix|] && b == (b + suffix)[..|b + suffix| - |suffix|];
  }

  lemma SameText(a: seq<nat>, b: seq<nat>, text: string)
    requires ValidPeer(V6(a)) && ValidPeer(V6(b))
    requires IsCanonicalText(a + [0, 0, 0, 0], text) && IsCanonicalText(b + [0, 0, 0, 0], text)
    ensures a == b
  {
    SameGroups(a + [0, 0, 0, 0], b + [0, 0, 0, 0], text);
    assert a == (a + [0, 0, 0, 0])[..4] && b == (b + [0, 0, 0, 0])[..4];
  }

  lemma SameGroups(g: seq<nat>, h: seq<nat>, text: string)
    requires |g| == 8 && |h| == 8 && AreGroups(g) && AreGroups(h)
    requires IsCanonicalText(g, text) && IsCanonicalText(h, text)
    ensures g == h
  {
    FormatRoundTrip(g, text);
    FormatRoundTrip(h, text);
  }

  /** Two well-formed addresses share a key exactly when they denote the same IPv4 address, plain or mapped, or
      unmapped IPv6 addresses with the same top 64 bits. */
  lemma SharedKeyMeansSamePeer(s: string, t: string, isIpv6: string -> bool, k: string, l: string)
    requires PeerOf(s, isIpv6).Some? && PeerOf(t, isIpv6).Some?
    requires IsKeyOf(PeerOf(s, isIpv6).value, k) && IsKeyOf(PeerOf(t, isIpv6).value, l)
    ensures k == l <==> PeerOf(s, isIpv6) == PeerOf(t, isIpv6)
  {
    PeerIsValid(s, isIpv6);
    PeerIsValid(t, isIpv6);
    KeysDecidePeers(PeerOf(s, isIpv6).value, PeerOf(t, isIpv6).value, k, l);
  }

  /** Two IPv6 addresses that are not IPv4-mapped share a key exactly when their first four groups agree, whatever
      their interface identifiers. */
  lemma NetworksShareKeys(s: string, t: string, isIpv6: string -> bool, g: seq<nat>, h: seq<nat>, k: string, l: string)
    requires IsNetworkText(s, isIpv6, g) && IsNetworkText(t, isIpv6, h) && IsNetworkKey(g, k) && IsNetworkKey(h, l)
    ensures k == l <==> g[0] == h[0] && g[1] == h[1] && g[2] == h[2] && g[3] == h[3]
  {
    NetworkPeer(s, isIpv6, g, k);
    NetworkPeer(t, isIpv6, h, l);
    SharedKeyMeansSamePeer(s, t, isIpv6, k, l);
  }

  lemma MappedOctetsAre(g: seq<nat>)
    requires |g| == 8 && AreGroups(g)
    ensures AreOctets(MappedOctets(g)) && PairsOf(MappedOctets(g)) == g[6..]
  {
    assert g[6] == g[6] / 256 * 256 + g[6] % 256 && g[7] == g[7] / 256 * 256 + g[7] % 256;
  }

  /** An IPv4-mapped address, in every spelling, is the peer that the dotted quad of its low 32 bits is. */
  lemma MappedIsItsQuad(s: string, g: seq<nat>, isIpv6: string -> bool)
    requires isIpv6(s) && ParseOctets(s).None? && Parse(s) == Some(g) && |g| == 8 && IsIpv4Mapped(g)
    ensures AreOctets(MappedOctets(g)) && PairsOf(MappedOctets(g)) == g[6..]
    ensures PeerOf(s, isIpv6) == Some(V4(MappedOctets(g))) == PeerOf(Quad(MappedOctets(g)), isIpv6)
  {
    ParsedAreGroups(s);
    MappedOctetsAre(g);
    QuadReadsBack(MappedOctets(g));
  }
}

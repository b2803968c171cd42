/**
 * Layer A admission and the connection registry of the remote gateway: the slots an admitted
 * connection takes, and every path by which they come back.
 *
 * A step is one synchronous event handler, so a sequence of steps is any interleaving of
 * connect, handshake, close and stop events.
 */
module GatewayAdmission {
  import opened Options
  import opened RateTable

  datatype Limits = Limits(peer: Config, maxLivePerPeer: nat, maxLiveGlobal: nat, maxInFlight: nat)

  const FROZEN := Limits(LAYER_A, 32, 512, 64)

  /** A registered connection: the bucket object its release closure captured, and its handshake flag. */
  datatype Connection = Connection(bucket: nat, handshakeSettled: bool)

  datatype State = State(
    peers: Table,
    liveGlobal: int,
    inFlight: int,
    connections: map<string, Connection>)

  const INITIAL := State(Table([], 0), 0, 0, map[])

  datatype Refusal = RateLimit | PeerConnectionCap | GlobalConnectionCap | HandshakeCap | PeerTableSaturated

  datatype Event =
    | Connect(tuple: string, peerKey: Option<string>, now: real, expired: bool)
    | SecureConnection(tuple: string, accepted: bool)   // handshake completed; the peer identity was derived or not
    | HandshakeFailure(tuple: string)
    | Close(tuple: string)
    | Stop(captured: seq<string>)                       // the registry's tuples, captured before any is settled

  // ----- the handlers ----------------------------------------------------------

  /** `AdmissionLimiter.admit`: the rate first, then the global, handshake and per-peer caps. */
  function Admit(lim: Limits, s: State, peerKey: string, now: real): (State, Option<Refusal>)
    requires lim.peer.refillMs > 0.0
  {
    var (t, a) := Consume(lim.peer, s.peers, peerKey, now);
    var s' := s.(peers := t);
    if a.RateLimited? then (s', Some(RateLimit))
    else if a.Saturated? then (s', Some(PeerTableSaturated))
    else if s.liveGlobal + 1 > lim.maxLiveGlobal then (s', Some(GlobalConnectionCap))
    else if s.inFlight + 1 > lim.maxInFlight then (s', Some(HandshakeCap))
    else if Handed(t).holders + 1 > lim.maxLivePerPeer then (s', Some(PeerConnectionCap))
    else
      var held := t.(entries := AddHolders(t.entries, Handed(t).id, 1));
      (State(held, s.liveGlobal + 1, s.inFlight + 1, s.connections), None)
  }

  /** A refused socket is destroyed before it is registered. */
  function HandleConnection(lim: Limits, s: State, tuple: string, peerKey: Option<string>, now: real, expired: bool)
    : State
    requires lim.peer.refillMs > 0.0
  {
    if expired || peerKey.None? then s
    else
      var (s', refusal) := Admit(lim, s, peerKey.value, now);
      if refusal.Some? then s'
      else s'.(connections := s'.connections[tuple := Connection(Handed(s'.peers).id, false)])
  }

  function ReleaseHandshake(s: State): State {
    if s.inFlight > 0 then s.(inFlight := s.inFlight - 1) else s
  }

  function SettleHandshake(s: State, tuple: string): State {
    if tuple !in s.connections || s.connections[tuple].handshakeSettled then s
    else
      ReleaseHandshake(s.(connections := s.connections[tuple := s.connections[tuple].(handshakeSettled := true)]))
  }

  function SettleConnection(s: State, tuple: string): State {
    if tuple !in s.connections then s
    else
      var s' := SettleHandshake(s, tuple);
      State(s'.peers.(entries := AddHolders(s'.peers.entries, s.connections[tuple].bucket, -1)),
            s'.liveGlobal - 1, s'.inFlight, s'.connections - {tuple})
  }

  /** Settles the given connections one after the other. */
  function SettleAll(s: State, tuples: seq<string>): State
    decreases |tuples|
  {
    if tuples == [] then s else SettleAll(SettleConnection(s, tuples[0]), tuples[1..])
  }

  /** Everything dropped, as `reset` does once every connection has been settled. */
  function Reset(s: State): State {
    State(Table([], s.peers.nextId), 0, 0, map[])
  }

  function Step(lim: Limits, s: State, e: Event): State
    requires lim.peer.refillMs > 0.0
  {
    match e
    case Connect(tuple, peerKey, now, expired) => HandleConnection(lim, s, tuple, peerKey, now, expired)
    case SecureConnection(tuple, accepted) => if accepted then SettleHandshake(s, tuple) else SettleConnection(s, tuple)
    case HandshakeFailure(tuple) => SettleConnection(s, tuple)
    case Close(tuple) => SettleConnection(s, tuple)
    case Stop(captured) => Reset(SettleAll(s, captured))
  }

  // ----- conservation ----------------------------------------------------------

  ghost function Holding(connections: map<string, Connection>, id: nat): set<string> {
    set t | t in connections && connections[t].bucket == id
  }

  ghost function Unsettled(connections: map<string, Connection>): set<string> {
    set t | t in connections && !connections[t].handshakeSettled
  }

  function SumHolders(es: seq<Entry>): int {
    if es == [] then 0 else es[0].holders + SumHolders(es[1..])
  }

  ghost predicate BucketsAccounted(lim: Limits, peers: Table, connections: map<string, Connection>) {
    && (forall e :: e in peers.entries ==> e.holders == |Holding(connections, e.id)| <= lim.maxLivePerPeer)
    && (forall t :: t in connections ==> HasId(peers.entries, connections[t].bucket))
  }

  /**
   * Every slot is accounted for: the live count is the registry size, the in-flight count the
   * connections whose handshake has not settled, a peer's holders its own connections; and every cap holds.
   */
  ghost predicate Valid(lim: Limits, s: State, now: real) {
    && ValidTable(lim.peer, s.peers, now)
    && s.liveGlobal == |s.connections| <= lim.maxLiveGlobal
    && s.inFlight == |Unsettled(s.connections)| <= lim.maxInFlight
    && BucketsAccounted(lim, s.peers, s.connections)
  }

  /** A request of a peer moves no holder. */
  lemma ConsumeAccounted(lim: Limits, s: State, peerKey: string, now: real)
    requires ValidConfig(lim.peer) && Valid(lim, s, now)
    ensures Valid(lim, s.(peers := Consume(lim.peer, s.peers, peerKey, now).0), now)
  {
    var t' := Consume(lim.peer, s.peers, peerKey, now).0;
    ConsumeKeeps(lim.peer, s.peers, peerKey, now);
    forall e' | e' in t'.entries ensures e'.holders == |Holding(s.connections, e'.id)| <= lim.maxLivePerPeer {
      ConsumeOrigin(lim.peer, s.peers, peerKey, now, e');
      if exists e :: e in s.peers.entries && e.id == e'.id && e.holders == e'.holders {
        var e :| e in s.peers.entries && e.id == e'.id && e.holders == e'.holders;
      } else {
        forall t | t in s.connections ensures s.connections[t].bucket != e'.id {
          var i :| 0 <= i < |s.peers.entries| && s.peers.entries[i].id == s.connections[t].bucket;
          assert ValidEntry(lim.peer, s.peers.entries[i], s.peers.nextId, now);
        }
        assert Holding(s.connections, e'.id) == {};
      }
    }
    forall t | t in s.connections ensures HasId(t'.entries, s.connections[t].bucket) {
      var i :| 0 <= i < |s.peers.entries| && s.peers.entries[i].id == s.connections[t].bucket;
      var e := s.peers.entries[i];
      assert e in s.peers.entries && t in Holding(s.connections, e.id);
      HeldSurvives(lim.peer, s.peers, peerKey, now, e);
      var e' :| e' in t'.entries && e'.id == e.id;
    }
  }

  lemma RegisterAccounted(lim: Limits, peers: Table, cs: map<string, Connection>, tuple: string, id: nat)
    requires Distinct(peers.entries) && BucketsAccounted(lim, peers, cs) && tuple !in cs && HasId(peers.entries, id)
    requires forall e :: e in peers.entries && e.id == id ==> e.holders + 1 <= lim.maxLivePerPeer
    ensures BucketsAccounted(lim, peers.(entries := AddHolders(peers.entries, id, 1)),
                             cs[tuple := Connection(id, false)])
  {
    RegisterHolders(lim, peers, cs, tuple, id);
    RegisterIds(peers.entries, cs, tuple, id);
  }

  lemma RegisterHolders(lim: Limits, peers: Table, cs: map<string, Connection>, tuple: string, id: nat)
    requires Distinct(peers.entries) && BucketsAccounted(lim, peers, cs) && tuple !in cs
    requires forall e :: e in peers.entries && e.id == id ==> e.holders + 1 <= lim.maxLivePerPeer
    ensures forall e :: e in AddHolders(peers.entries, id, 1) ==>
              e.holders == |Holding(cs[tuple := Connection(id, false)], e.id)| <= lim.maxLivePerPeer
  {
    var es, es', cs' := peers.entries, AddHolders(peers.entries, id, 1), cs[tuple := Connection(id, false)];
    AddHoldersIs(es, id, 1);
    forall e' | e' in es' ensures e'.holders == |Holding(cs', e'.id)| <= lim.maxLivePerPeer {
      var i :| 0 <= i < |es| && es'[i] == e';
      assert es[i] in es;
      HoldingRegistered(cs, tuple, Connection(id, false), e'.id);
    }
  }

  lemma RegisterIds(es: seq<Entry>, cs: map<string, Connection>, tuple: string, id: nat)
    requires Distinct(es) && HasId(es, id) && forall t :: t in cs ==> HasId(es, cs[t].bucket)
    ensures var cs' := cs[tuple := Connection(id, false)];
            forall t :: t in cs' ==> HasId(AddHolders(es, id, 1), cs'[t].bucket)
  {
    AddHoldersIs(es, id, 1);
    SameIds(es, AddHolders(es, id, 1), cs[tuple := Connection(id, false)]);
  }

  lemma HoldingRegistered(cs: map<string, Connection>, tuple: string, c: Connection, id: nat)
    requires tuple !in cs
    ensures |Holding(cs[tuple := c], id)| == |Holding(cs, id)| + if c.bucket == id then 1 else 0
  {
    assert Holding(cs[tuple := c], id) == Holding(cs, id) + if c.bucket == id then {tuple} else {};
  }

  lemma UnregisterAccounted(lim: Limits, peers: Table, cs: map<string, Connection>, tuple: string)
    requires Distinct(peers.entries) && BucketsAccounted(lim, peers, cs) && tuple in cs
    ensures BucketsAccounted(lim, peers.(entries := AddHolders(peers.entries, cs[tuple].bucket, -1)), cs - {tuple})
  {
    var id := cs[tuple].bucket;
    var es, es', cs' := peers.entries, AddHolders(peers.entries, id, -1), cs - {tuple};
    AddHoldersIs(es, id, -1);
    forall e' | e' in es' ensures e'.holders == |Holding(cs', e'.id)| <= lim.maxLivePerPeer {
      var i :| 0 <= i < |es| && es'[i] == e';
      assert es[i] in es;
      HoldingUnregistered(cs, tuple, e'.id);
    }
    SameIds(es, es', cs);
  }

  lemma HoldingUnregistered(cs: map<string, Connection>, tuple: string, id: nat)
    requires tuple in cs
    ensures |Holding(cs - {tuple}, id)| == |Holding(cs, id)| - if cs[tuple].bucket == id then 1 else 0
  {
    assert Holding(cs - {tuple}, id) == Holding(cs, id) - if cs[tuple].bucket == id then {tuple} else {};
  }

  lemma SameIds(es: seq<Entry>, es': seq<Entry>, cs: map<string, Connection>)
    requires |es| == |es'| && forall i :: 0 <= i < |es| ==> es[i].id == es'[i].id
    requires forall t :: t in cs ==> HasId(es, cs[t].bucket)
    ensures forall t :: t in cs ==> HasId(es', cs[t].bucket)
  {
    forall t | t in cs ensures HasId(es', cs[t].bucket) {
      var i :| 0 <= i < |es| && es[i].id == cs[t].bucket;
      assert es'[i].id == cs[t].bucket;
    }
  }

  lemma ConnectKeeps(lim: Limits, s: State, tuple: string, peerKey: Option<string>, now: real, expired: bool)
    requires ValidConfig(lim.peer) && Valid(lim, s, now) && tuple !in s.connections
    ensures Valid(lim, HandleConnection(lim, s, tuple, peerKey, now, expired), now)
  {
    if !expired && peerKey.Some? {
      ConsumeAccounted(lim, s, peerKey.value, now);
      var t := Consume(lim.peer, s.peers, peerKey.value, now).0;
      if Admit(lim, s, peerKey.value, now).1.None? {
        RegisterKeeps(lim, s.(peers := t), tuple, now);
        AddHoldersIs(t.entries, Handed(t).id, 1);
      }
    }
  }

  lemma RegisterKeeps(lim: Limits, s: State, tuple: string, now: real)
    requires Valid(lim, s, now) && tuple !in s.connections && s.peers.entries != []
    requires s.liveGlobal < lim.maxLiveGlobal && s.inFlight < lim.maxInFlight
    requires Handed(s.peers).holders < lim.maxLivePerPeer
    ensures var es, b := s.peers.entries, Handed(s.peers);
            Valid(lim, State(s.peers.(entries := AddHolders(es, b.id, 1)), s.liveGlobal + 1, s.inFlight + 1,
                             s.connections[tuple := Connection(b.id, false)]), now)
  {
    var b := Handed(s.peers);
    HandedIs(lim, s.peers, now);
    AddHoldersKeeps(lim.peer, s.peers, b.id, 1, now);
    RegisterAccounted(lim, s.peers, s.connections, tuple, b.id);
    RegisterCounts(s.connections, tuple, b.id);
  }

  /** The bucket handed out is the only one with its id. */
  lemma HandedIs(lim: Limits, peers: Table, now: real)
    requires ValidTable(lim.peer, peers, now) && peers.entries != []
    ensures HasId(peers.entries, Handed(peers).id) && Handed(peers).holders >= 0
    ensures forall e :: e in peers.entries && e.id == Handed(peers).id ==> e == Handed(peers)
  {
    var es := peers.entries;
    assert ValidEntry(lim.peer, es[|es| - 1], peers.nextId, now);
  }

  lemma RegisterCounts(cs: map<string, Connection>, tuple: string, id: nat)
    requires tuple !in cs
    ensures var cs' := cs[tuple := Connection(id, false)];
            |cs'| == |cs| + 1 && |Unsettled(cs')| == |Unsettled(cs)| + 1
  {
    var cs' := cs[tuple := Connection(id, false)];
    assert Unsettled(cs') == Unsettled(cs) + {tuple};
    assert cs'.Keys == cs.Keys + {tuple};
  }

  /** A settled handshake gives back its slot, and the guard in `releaseHandshake` never has to hold it back. */
  lemma SettleHandshakeKeeps(lim: Limits, s: State, tuple: string, now: real)
    requires Valid(lim, s, now)
    ensures Valid(lim, SettleHandshake(s, tuple), now)
    ensures tuple in s.connections && !s.connections[tuple].handshakeSettled ==>
              SettleHandshake(s, tuple).inFlight == s.inFlight - 1
  {
    if tuple in s.connections && !s.connections[tuple].handshakeSettled {
      FlagCounts(s.connections, tuple);
      FlagAccounted(lim, s.peers, s.connections, tuple);
    }
  }

  lemma FlagCounts(cs: map<string, Connection>, tuple: string)
    requires tuple in cs && !cs[tuple].handshakeSettled
    ensures var cs' := cs[tuple := cs[tuple].(handshakeSettled := true)];
            |cs'| == |cs| && |Unsettled(cs')| == |Unsettled(cs)| - 1
  {
    var cs' := cs[tuple := cs[tuple].(handshakeSettled := true)];
    assert tuple in Unsettled(cs);
    assert Unsettled(cs') == Unsettled(cs) - {tuple};
    assert cs'.Keys == cs.Keys;
  }

  lemma FlagAccounted(lim: Limits, peers: Table, cs: map<string, Connection>, tuple: string)
    requires BucketsAccounted(lim, peers, cs) && tuple in cs
    ensures BucketsAccounted(lim, peers, cs[tuple := cs[tuple].(handshakeSettled := true)])
  {
    var cs' := cs[tuple := cs[tuple].(handshakeSettled := true)];
    forall e | e in peers.entries ensures e.holders == |Holding(cs', e.id)| <= lim.maxLivePerPeer {
      assert Holding(cs', e.id) == Holding(cs, e.id);
    }
    forall t | t in cs' ensures HasId(peers.entries, cs'[t].bucket) {
      assert HasId(peers.entries, cs[t].bucket);
    }
  }

  lemma SettleConnectionKeeps(lim: Limits, s: State, tuple: string, now: real)
    requires Valid(lim, s, now)
    ensures Valid(lim, SettleConnection(s, tuple), now)
  {
    if tuple in s.connections {
      SettleHandshakeKeeps(lim, s, tuple, now);
      UnregisterKeeps(lim, SettleHandshake(s, tuple), tuple, now);
    }
  }

  lemma UnregisterKeeps(lim: Limits, s: State, tuple: string, now: real)
    requires Valid(lim, s, now) && tuple in s.connections && s.connections[tuple].handshakeSettled
    ensures var id := s.connections[tuple].bucket;
            Valid(lim, State(s.peers.(entries := AddHolders(s.peers.entries, id, -1)), s.liveGlobal - 1, s.inFlight,
                             s.connections - {tuple}), now)
  {
    var cs, id := s.connections, s.connections[tuple].bucket;
    assert tuple in Holding(cs, id);
    AddHoldersKeeps(lim.peer, s.peers, id, -1, now);
    UnregisterAccounted(lim, s.peers, cs, tuple);
    UnregisterCounts(cs, tuple);
  }

  lemma UnregisterCounts(cs: map<string, Connection>, tuple: string)
    requires tuple in cs && cs[tuple].handshakeSettled
    ensures |cs - {tuple}| == |cs| - 1 && |Unsettled(cs - {tuple})| == |Unsettled(cs)|
  {
    assert (cs - {tuple}).Keys == cs.Keys - {tuple};
    assert Unsettled(cs - {tuple}) == Unsettled(cs);
  }

  /** A callback that arrives after its connection was settled, or was never admitted, changes nothing. */
  lemma LateCallbacksDoNothing(lim: Limits, s: State, tuple: string, accepted: bool)
    requires lim.peer.refillMs > 0.0 && tuple !in s.connections
    ensures Step(lim, s, SecureConnection(tuple, accepted)) == s
    ensures Step(lim, s, HandshakeFailure(tuple)) == s
    ensures Step(lim, s, Close(tuple)) == s
  {
  }

  /** Settling a connection or its handshake a second time changes nothing, and settling the connection settles the
      handshake whether or not that has been done before. */
  lemma SettlesOnce(s: State, tuple: string)
    ensures tuple !in SettleConnection(s, tuple).connections
    ensures SettleConnection(SettleConnection(s, tuple), tuple) == SettleConnection(s, tuple)
    ensures SettleHandshake(SettleConnection(s, tuple), tuple) == SettleConnection(s, tuple)
    ensures SettleConnection(SettleHandshake(s, tuple), tuple) == SettleConnection(s, tuple)
    ensures SettleHandshake(SettleHandshake(s, tuple), tuple) == SettleHandshake(s, tuple)
  {
    if tuple in s.connections {
      assert SettleHandshake(s, tuple).connections - {tuple} == s.connections - {tuple};
    }
  }

  // ----- who is admitted, on the counters ---------------------------------------

  /** The peer holds as many connections as it may. */
  ghost predicate PeerAtCap(lim: Limits, es: seq<Entry>, key: string) {
    if exists e :: e in es && e.key == key
    then exists e :: e in es && e.key == key && e.holders >= lim.maxLivePerPeer
    else lim.maxLivePerPeer == 0
  }

  /** The table has room for the peer, and the peer a token. */
  ghost predicate Granted(lim: Limits, s: State, key: string, now: real)
    requires lim.peer.refillMs > 0.0
  {
    !Full(lim.peer, s.peers.entries, key, now) && HasToken(lim.peer, s.peers.entries, key, now)
  }

  lemma HandedHolders(lim: Limits, s: State, key: string, now: real)
    requires ValidConfig(lim.peer) && Valid(lim, s, now) && Consume(lim.peer, s.peers, key, now).1.Consumed?
    ensures var t := Consume(lim.peer, s.peers, key, now).0;
      t.entries != [] && (Handed(t).holders >= lim.maxLivePerPeer <==> PeerAtCap(lim, s.peers.entries, key))
  {
    var rest, b := ConsumeShape(lim.peer, s.peers, key, now);
    FoundIsInUse(lim.peer, s.peers, key, now);
    var found := Lookup(EvictIdle(lim.peer, s.peers.entries, now), key);
    if found.None? {
      forall e | e in s.peers.entries && e.key == key ensures e.holders == 0 {
        assert ValidEntry(lim.peer, e, s.peers.nextId, now);
      }
    }
  }

  /** Each answer of the limiter, by table, token and counters, in the order the checks are made. */
  lemma AdmitDecides(lim: Limits, s: State, key: string, now: real)
    requires ValidConfig(lim.peer) && Valid(lim, s, now)
    ensures var refusal := Admit(lim, s, key, now).1;
      && (refusal == Some(PeerTableSaturated) <==> Full(lim.peer, s.peers.entries, key, now))
      && (refusal == Some(RateLimit) <==>
            !Full(lim.peer, s.peers.entries, key, now) && !HasToken(lim.peer, s.peers.entries, key, now))
      && (refusal == Some(GlobalConnectionCap) <==> Granted(lim, s, key, now) && |s.connections| >= lim.maxLiveGlobal)
      && (refusal == Some(HandshakeCap) <==>
            && Granted(lim, s, key, now) && |s.connections| < lim.maxLiveGlobal
            && |Unsettled(s.connections)| >= lim.maxInFlight)
      && (refusal == Some(PeerConnectionCap) <==>
            && Granted(lim, s, key, now) && |s.connections| < lim.maxLiveGlobal
            && |Unsettled(s.connections)| < lim.maxInFlight && PeerAtCap(lim, s.peers.entries, key))
      && (refusal == None <==> Admissible(lim, s, key, now))
  {
    SaturatedExactly(lim.peer, s.peers, key, now);
    ConsumedExactly(lim.peer, s.peers, key, now);
    if Consume(lim.peer, s.peers, key, now).1.Consumed? {
      HandedHolders(lim, s, key, now);
    }
  }

  /** Room and a token, and one connection more within all three caps. */
  ghost predicate Admissible(lim: Limits, s: State, key: string, now: real)
    requires lim.peer.refillMs > 0.0
  {
    && Granted(lim, s, key, now) && |s.connections| < lim.maxLiveGlobal
    && |Unsettled(s.connections)| < lim.maxInFlight && !PeerAtCap(lim, s.peers.entries, key)
  }

  /** The connection is the only change to the registry, and takes one slot of each kind. */
  ghost predicate Registers(s: State, s': State, tuple: string) {
    && tuple in s'.connections && s'.connections - {tuple} == s.connections
    && !s'.connections[tuple].handshakeSettled
    && s'.liveGlobal == s.liveGlobal + 1 && s'.inFlight == s.inFlight + 1
  }

  ghost predicate SameRegistry(s: State, s': State) {
    s'.connections == s.connections && s'.liveGlobal == s.liveGlobal && s'.inFlight == s.inFlight
  }

  lemma AdmitCounts(lim: Limits, s: State, key: string, now: real)
    requires lim.peer.refillMs > 0.0
    ensures var (s', refusal) := Admit(lim, s, key, now);
      && s'.connections == s.connections
      && (refusal.Some? ==> SameRegistry(s, s'))
      && (refusal.None? ==>
            s'.peers.entries != [] && s'.liveGlobal == s.liveGlobal + 1 && s'.inFlight == s.inFlight + 1)
  {
  }

  lemma AddedAlone(cs: map<string, Connection>, tuple: string, c: Connection)
    requires tuple !in cs
    ensures cs[tuple := c] - {tuple} == cs
  {
  }

  /** A connection is registered exactly when its handshake deadline has not passed, its peer is known and it is
      admissible; otherwise the registry and the counters stay. */
  lemma ConnectDecides(lim: Limits, s: State, tuple: string, peerKey: Option<string>, now: real, expired: bool)
    requires ValidConfig(lim.peer) && Valid(lim, s, now) && tuple !in s.connections
    ensures var s' := HandleConnection(lim, s, tuple, peerKey, now, expired);
      && (if !expired && peerKey.Some? && Admissible(lim, s, peerKey.value, now) then Registers(s, s', tuple)
          else SameRegistry(s, s'))
      && (expired || peerKey.None? ==> s' == s)
  {
    if !expired && peerKey.Some? {
      AdmitDecides(lim, s, peerKey.value, now);
      AdmitCounts(lim, s, peerKey.value, now);
      var s' := Admit(lim, s, peerKey.value, now).0;
      if Admit(lim, s, peerKey.value, now).1.None? {
        AddedAlone(s.connections, tuple, Connection(Handed(s'.peers).id, false));
      }
    }
  }

  // ----- shutdown --------------------------------------------------------------

  /** The captured entries of the registry, each once. */
  ghost predicate Enumerates(tuples: seq<string>, connections: map<string, Connection>) {
    && (forall i :: 0 <= i < |tuples| ==> tuples[i] in connections)
    && (forall t :: t in connections ==> t in tuples)
    && (forall i, j :: 0 <= i < j < |tuples| ==> tuples[i] != tuples[j])
  }

  /** Settling every captured connection brings each counter to zero before `reset` is reached. */
  lemma {:induction false} SettleAllDrains(lim: Limits, s: State, tuples: seq<string>, now: real)
    requires Valid(lim, s, now) && forall t :: t in s.connections ==> t in tuples
    ensures var s' := SettleAll(s, tuples);
            && Valid(lim, s', now) && s'.connections == map[]
            && s'.liveGlobal == 0 && s'.inFlight == 0
            && (forall e :: e in s'.peers.entries ==> e.holders == 0)
    decreases |tuples|
  {
    if tuples == [] {
      assert s.connections == map[];
      assert Unsettled(s.connections) == {};
      forall e | e in s.peers.entries ensures e.holders == 0 {
        assert Holding(s.connections, e.id) == {};
      }
    } else {
      var s1 := SettleConnection(s, tuples[0]);
      SettleConnectionKeeps(lim, s, tuples[0], now);
      forall t | t in s1.connections ensures t in tuples[1..] {
        assert t in s.connections;
      }
      SettleAllDrains(lim, s1, tuples[1..], now);
    }
  }

  lemma {:induction false} SumOfNone(es: seq<Entry>)
    requires forall e :: e in es ==> e.holders == 0
    ensures SumHolders(es) == 0
  {
    if es != [] {
      SumOfNone(es[1..]);
    }
  }

  // ----- every run -------------------------------------------------------------

  function After(e: Event, now: real): real {
    if e.Connect? then e.now else now
  }

  /** The clock never goes back, and a new connection does not reuse the tuple of an open one. */
  ghost predicate Legal(lim: Limits, s: State, events: seq<Event>, now: real)
    requires lim.peer.refillMs > 0.0
    decreases |events|
  {
    events == [] ||
    (&& (events[0].Connect? ==> now <= events[0].now && events[0].tuple !in s.connections)
     && (events[0].Stop? ==> Enumerates(events[0].captured, s.connections))
     && Legal(lim, Step(lim, s, events[0]), events[1..], After(events[0], now)))
  }

  function Run(lim: Limits, s: State, events: seq<Event>): State
    requires lim.peer.refillMs > 0.0
    decreases |events|
  {
    if events == [] then s else Run(lim, Step(lim, s, events[0]), events[1..])
  }

  /** A callback of one connection's socket. */
  predicate CallbackOf(e: Event, tuple: string) {
    (e.SecureConnection? || e.HandshakeFailure? || e.Close?) && e.tuple == tuple
  }

  /** One that ends the connection. */
  predicate Ends(e: Event) {
    !(e.SecureConnection? && e.accepted)
  }

  /** However often and in whatever order the end of a connection is reported, its slots come back once: any sequence
      of its callbacks amounts to one settling of the connection, or of the handshake alone when none ends it. */
  lemma {:induction false} CallbacksSettleOnce(lim: Limits, s: State, tuple: string, callbacks: seq<Event>)
    requires lim.peer.refillMs > 0.0 && forall i :: 0 <= i < |callbacks| ==> CallbackOf(callbacks[i], tuple)
    ensures Run(lim, s, callbacks) ==
      if exists i :: 0 <= i < |callbacks| && Ends(callbacks[i]) then SettleConnection(s, tuple)
      else if callbacks == [] then s else SettleHandshake(s, tuple)
    decreases |callbacks|
  {
    if callbacks != [] {
      SettlesOnce(s, tuple);
      SettlesOnce(SettleHandshake(s, tuple), tuple);
      CallbacksSettleOnce(lim, Step(lim, s, callbacks[0]), tuple, callbacks[1..]);
      assert callbacks == [callbacks[0]] + callbacks[1..];
    }
  }

  lemma LaterValid(lim: Limits, s: State, now: real, later: real)
    requires Valid(lim, s, now) && now <= later
    ensures Valid(lim, s, later)
  {
    forall i | 0 <= i < |s.peers.entries| ensures ValidEntry(lim.peer, s.peers.entries[i], s.peers.nextId, later) {
      assert ValidEntry(lim.peer, s.peers.entries[i], s.peers.nextId, now);
    }
  }

  lemma StepKeeps(lim: Limits, s: State, e: Event, now: real)
    requires ValidConfig(lim.peer) && Valid(lim, s, now)
    requires e.Connect? ==> now <= e.now && e.tuple !in s.connections
    ensures Valid(lim, Step(lim, s, e), After(e, now))
  {
    match e
    case Connect(tuple, peerKey, at, expired) =>
      LaterValid(lim, s, now, at);
      ConnectKeeps(lim, s, tuple, peerKey, at, expired);
    case SecureConnection(tuple, accepted) =>
      if accepted {
        SettleHandshakeKeeps(lim, s, tuple, now);
      } else {
        SettleConnectionKeeps(lim, s, tuple, now);
      }
    case HandshakeFailure(tuple) => SettleConnectionKeeps(lim, s, tuple, now);
    case Close(tuple) => SettleConnectionKeeps(lim, s, tuple, now);
    case Stop(captured) => ResetKeeps(lim, SettleAll(s, captured), now);
  }

  lemma ResetKeeps(lim: Limits, s: State, now: real)
    ensures Valid(lim, Reset(s), now)
  {
    assert Unsettled(Reset(s).connections) == {};
  }

  /** In every interleaving every slot is accounted for, no counter is negative and every cap holds. */
  lemma {:induction false} RunKeeps(lim: Limits, s: State, events: seq<Event>, now: real) returns (end: real)
    requires ValidConfig(lim.peer) && Valid(lim, s, now) && Legal(lim, s, events, now)
    ensures now <= end && Valid(lim, Run(lim, s, events), end)
    decreases |events|
  {
    if events == [] {
      end := now;
    } else {
      StepKeeps(lim, s, events[0], now);
      end := RunKeeps(lim, Step(lim, s, events[0]), events[1..], After(events[0], now));
    }
  }

  /** Under the frozen limits, in every run from start-up: at most 512 live connections, 64 handshakes in flight,
      32 connections a peer. */
  lemma FrozenCapsHold(events: seq<Event>)
    requires Legal(FROZEN, INITIAL, events, 0.0)
    ensures var s := Run(FROZEN, INITIAL, events);
      && 0 <= s.liveGlobal <= 512 && 0 <= s.inFlight <= 64
      && forall e :: e in s.peers.entries ==> 0 <= e.holders <= 32
  {
    assert Unsettled(INITIAL.connections) == {};
    var end := RunKeeps(FROZEN, INITIAL, events, 0.0);
  }

  /** The live count is also the sum of the holders of the peer table. */
  lemma LiveIsSumOfHolders(lim: Limits, s: State, now: real)
    requires Valid(lim, s, now)
    ensures SumHolders(s.peers.entries) == s.liveGlobal
  {
    SumIsHeld(s.peers.entries, s.connections);
  }

  lemma {:induction false} SumIsHeld(es: seq<Entry>, connections: map<string, Connection>)
    requires Distinct(es)
    requires forall e :: e in es ==> e.holders == |Holding(connections, e.id)|
    requires forall t :: t in connections ==> HasId(es, connections[t].bucket)
    ensures SumHolders(es) == |connections|
  {
    if es == [] {
      assert connections == map[];
    } else {
      var others := connections - Holding(connections, es[0].id);
      OthersHeld(es, connections);
      SumIsHeld(es[1..], others);
      assert others.Keys == connections.Keys - Holding(connections, es[0].id);
      assert es[0] in es;
    }
  }

  lemma OthersHeld(es: seq<Entry>, connections: map<string, Connection>)
    requires es != [] && Distinct(es)
    requires forall e :: e in es ==> e.holders == |Holding(connections, e.id)|
    requires forall t :: t in connections ==> HasId(es, connections[t].bucket)
    ensures var others := connections - Holding(connections, es[0].id);
            && (forall e :: e in es[1..] ==> e.holders == |Holding(others, e.id)|)
            && (forall t :: t in others ==> HasId(es[1..], others[t].bucket))
  {
    var mine := Holding(connections, es[0].id);
    var others := connections - mine;
    forall e | e in es[1..] ensures e.holders == |Holding(others, e.id)| {
      var i :| 0 <= i < |es[1..]| && es[1..][i] == e;
      assert es[0].id != es[i + 1].id && e in es;
      assert Holding(others, e.id) == Holding(connections, e.id);
    }
    forall t | t in others ensures HasId(es[1..], others[t].bucket) {
      var i :| 0 <= i < |es| && es[i].id == connections[t].bucket;
      assert t !in mine;
      assert es[1..][i - 1].id == others[t].bucket;
    }
  }

  /** From start-up, any run that ends in `stop` leaves nothing registered and every counter at zero. */
  lemma StopLeavesNothing(lim: Limits, events: seq<Event>, captured: seq<string>)
    requires ValidConfig(lim.peer) && Legal(lim, INITIAL, events, 0.0)
    requires forall t :: t in Run(lim, INITIAL, events).connections ==> t in captured
    ensures var settled := SettleAll(Run(lim, INITIAL, events), captured);
            && settled.liveGlobal == 0 && settled.inFlight == 0 && settled.connections == map[]
            && SumHolders(settled.peers.entries) == 0
            && Step(lim, Run(lim, INITIAL, events), Stop(captured)) == Reset(settled)
  {
    assert Unsettled(INITIAL.connections) == {};
    var end := RunKeeps(lim, INITIAL, events, 0.0);
    SettleAllDrains(lim, Run(lim, INITIAL, events), captured, end);
    SumOfNone(SettleAll(Run(lim, INITIAL, events), captured).peers.entries);
  }
}

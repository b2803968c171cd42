/** The gateway objects, updated in place; each handler is one step of `GatewayAdmission`. */
module RemoteGateway {
  import opened Options
  import opened RateTable
  import opened RequestLimiter
  import GatewayAdmission

  class AdmissionLimiter {
    const limits: GatewayAdmission.Limits
    const peers: BoundedRequestLimiter
    var liveGlobal: int
    var inFlightHandshakes: int

    constructor (limits: GatewayAdmission.Limits)
      ensures this.limits == limits && peers.cfg == limits.peer && fresh(peers)
      ensures liveGlobal == 0 && inFlightHandshakes == 0 && peers.State() == Table([], 0)
    {
      this.limits := limits;
      this.peers := new BoundedRequestLimiter(limits.peer);
      liveGlobal, inFlightHandshakes := 0, 0;
    }

    ghost predicate Composed() {
      peers.cfg == limits.peer && limits.peer.refillMs > 0.0
    }

    ghost function With(connections: map<string, GatewayAdmission.Connection>): GatewayAdmission.State
      reads this, peers
    {
      GatewayAdmission.State(peers.State(), liveGlobal, inFlightHandshakes, connections)
    }

    /** Decides one connection attempt; on admission `bucket` is the object its release acts on. */
    method Admit(peerKey: string, now: real, ghost connections: map<string, GatewayAdmission.Connection>)
      returns (refusal: Option<GatewayAdmission.Refusal>, bucket: nat)
      requires Composed()
      modifies this, peers
      ensures (With(connections), refusal) == GatewayAdmission.Admit(limits, old(With(connections)), peerKey, now)
      ensures refusal.None? ==> peers.entries != [] && bucket == Handed(peers.State()).id
    {
      var answer;
      answer, bucket := peers.ConsumeToken(peerKey, now);
      match answer {
        case RateLimited => return Some(GatewayAdmission.RateLimit), bucket;
        case Saturated => return Some(GatewayAdmission.PeerTableSaturated), bucket;
        case Consumed =>
      }
      if liveGlobal + 1 > limits.maxLiveGlobal {
        return Some(GatewayAdmission.GlobalConnectionCap), bucket;
      }
      if inFlightHandshakes + 1 > limits.maxInFlight {
        return Some(GatewayAdmission.HandshakeCap), bucket;
      }
      var holders := peers.HoldersOfHanded();
      if holders + 1 > limits.maxLivePerPeer {
        return Some(GatewayAdmission.PeerConnectionCap), bucket;
      }
      ghost var before := peers.entries;
      peers.AddToHolders(bucket, 1);
      LastIdKept(before, bucket, 1);
      liveGlobal, inFlightHandshakes := liveGlobal + 1, inFlightHandshakes + 1;
      refusal := None;
    }

    method ReleaseHandshake()
      modifies this
      ensures liveGlobal == old(liveGlobal)
      ensures inFlightHandshakes
           == if old(inFlightHandshakes) > 0 then old(inFlightHandshakes) - 1 else old(inFlightHandshakes)
    {
      if inFlightHandshakes > 0 {
        inFlightHandshakes := inFlightHandshakes - 1;
      }
    }

    /** The body of a release closure that has not run yet. */
    method ReleaseSlot(bucket: nat)
      modifies this, peers
      ensures peers.entries == AddHolders(old(peers.entries), bucket, -1) && peers.nextId == old(peers.nextId)
      ensures liveGlobal == old(liveGlobal) - 1 && inFlightHandshakes == old(inFlightHandshakes)
    {
      peers.AddToHolders(bucket, -1);
      liveGlobal := liveGlobal - 1;
    }

    method Reset()
      modifies this, peers
      ensures peers.State() == Table([], old(peers.nextId)) && liveGlobal == 0 && inFlightHandshakes == 0
    {
      peers.Clear();
      liveGlobal, inFlightHandshakes := 0, 0;
    }
  }

  lemma {:induction false} LastIdKept(es: seq<Entry>, id: nat, delta: int)
    requires es != []
    ensures |AddHolders(es, id, delta)| == |es| && AddHolders(es, id, delta)[|es| - 1].id == es[|es| - 1].id
  {
    if es[0].id != id && |es| > 1 {
      LastIdKept(es[1..], id, delta);
    }
  }

  /** The registry of admitted connections. */
  class Gateway {
    const limiter: AdmissionLimiter
    var connectionStates: map<string, GatewayAdmission.Connection>

    constructor (limits: GatewayAdmission.Limits)
      requires limits.peer.refillMs > 0.0
      ensures limiter.limits == limits && limiter.Composed() && State() == GatewayAdmission.INITIAL
      ensures fresh(limiter) && fresh(limiter.peers)
    {
      limiter := new AdmissionLimiter(limits);
      connectionStates := map[];
    }

    ghost function State(): GatewayAdmission.State
      reads this, limiter, limiter.peers
    {
      limiter.With(connectionStates)
    }

    method HandleConnection(tuple: string, peerKey: Option<string>, now: real, expired: bool)
      requires limiter.Composed()
      modifies this, limiter, limiter.peers
      ensures State() == GatewayAdmission.Step(limiter.limits, old(State()),
                                               GatewayAdmission.Connect(tuple, peerKey, now, expired))
    {
      if expired || peerKey.None? {
        return;
      }
      var refusal, bucket := limiter.Admit(peerKey.value, now, connectionStates);
      if refusal.None? {
        connectionStates := connectionStates[tuple := GatewayAdmission.Connection(bucket, false)];
      }
    }

    method SettleHandshakeFor(tuple: string)
      requires limiter.Composed()
      modifies this, limiter
      ensures State() == GatewayAdmission.SettleHandshake(old(State()), tuple)
    {
      if tuple !in connectionStates || connectionStates[tuple].handshakeSettled {
        return;
      }
      connectionStates := connectionStates[tuple := connectionStates[tuple].(handshakeSettled := true)];
      limiter.ReleaseHandshake();
    }

    method SettleConnection(tuple: string)
      requires limiter.Composed()
      modifies this, limiter, limiter.peers
      ensures State() == GatewayAdmission.SettleConnection(old(State()), tuple)
    {
      if tuple !in connectionStates {
        return;
      }
      var bucket := connectionStates[tuple].bucket;
      SettleHandshakeFor(tuple);
      limiter.ReleaseSlot(bucket);
      connectionStates := connectionStates - {tuple};
    }

    method HandleSecureConnection(tuple: string, accepted: bool)
      requires limiter.Composed()
      modifies this, limiter, limiter.peers
      ensures State() == GatewayAdmission.Step(limiter.limits, old(State()),
                                               GatewayAdmission.SecureConnection(tuple, accepted))
    {
      if accepted {
        SettleHandshakeFor(tuple);
      } else {
        SettleConnection(tuple);
      }
    }

    /** The synchronous part of `stop`: every captured connection is settled before any counter is reset. */
    method Stop(captured: seq<string>)
      requires limiter.Composed()
      modifies this, limiter, limiter.peers
      ensures State() == GatewayAdmission.Step(limiter.limits, old(State()), GatewayAdmission.Stop(captured))
      ensures connectionStates == map[] && limiter.liveGlobal == 0 && limiter.inFlightHandshakes == 0
    {
      var i := 0;
      while i < |captured|
        invariant 0 <= i <= |captured|
        invariant GatewayAdmission.SettleAll(State(), captured[i..])
               == GatewayAdmission.SettleAll(old(State()), captured)
      {
        assert captured[i..][1..] == captured[i + 1..];
        SettleConnection(captured[i]);
        i := i + 1;
      }
      connectionStates := map[];
      limiter.Reset();
    }
  }
}

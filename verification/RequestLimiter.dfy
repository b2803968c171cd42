/** The stateful limiter, updated in place; each method is the table operation it performs. */
module RequestLimiter {
  import opened Options
  import opened RateTable
  import RateRuns

  /** One outstanding-work slot, released at most once. */
  class Lease {
    const bucket: nat
    var released: bool

    constructor (bucket: nat)
      ensures this.bucket == bucket && !released
    {
      this.bucket, released := bucket, false;
    }
  }

  class BoundedRequestLimiter {
    const cfg: Config
    var entries: seq<Entry>
    var nextId: nat

    constructor (cfg: Config)
      ensures this.cfg == cfg && State() == Table([], 0)
    {
      this.cfg := cfg;
      entries, nextId := [], 0;
    }

    ghost function State(): Table
      reads this
    {
      Table(entries, nextId)
    }

    /** Drops the buckets without holders that nobody has used for the whole timeout, and only those. */
    method EvictIdleEntries(now: real)
      modifies this
      ensures entries == EvictIdle(cfg, old(entries), now) && nextId == old(nextId)
    {
      var visited := entries;
      var kept: seq<Entry> := [];
      var i := 0;
      while i < |visited|
        invariant 0 <= i <= |visited| && entries == visited && nextId == old(nextId)
        invariant kept + EvictIdle(cfg, visited[i..], now) == EvictIdle(cfg, visited, now)
      {
        assert visited[i..][1..] == visited[i + 1..];
        if !Reclaimable(cfg, visited[i], now) {
          kept := kept + [visited[i]];
        }
        i := i + 1;
      }
      entries := kept;
    }

    /** The answer and the table of `RateTable.Consume`; on success the caller gets the bucket just used. */
    method ConsumeToken(key: string, now: real) returns (answer: Answer, bucket: nat)
      requires cfg.refillMs > 0.0
      modifies this
      ensures (State(), answer) == Consume(cfg, old(State()), key, now)
      ensures answer.Consumed? ==> entries != [] && bucket == Handed(State()).id
      ensures ValidConfig(cfg) && ValidTable(cfg, old(State()), now) ==>
                && (answer.Saturated? <==> Full(cfg, old(entries), key, now))
                && (answer.Consumed? <==> !Full(cfg, old(entries), key, now) && HasToken(cfg, old(entries), key, now))
    {
      if ValidConfig(cfg) && ValidTable(cfg, State(), now) {
        SaturatedExactly(cfg, State(), key, now);
        ConsumedExactly(cfg, State(), key, now);
      }
      EvictIdleEntries(now);
      bucket := nextId;
      var found := Lookup(entries, key);
      if found.None? && |entries| >= cfg.maxKeys {
        return Saturated, bucket;
      }
      var b: Entry;
      if found.Some? {
        b := found.value;
      } else {
        b := Entry(nextId, key, cfg.burst, now, now, 0);
        nextId := nextId + 1;
      }
      bucket := b.id;
      entries := Without(entries, key);
      b := b.(lastSeenMs := now);
      var elapsedMs := now - b.lastRefillMs;
      if elapsedMs > 0.0 {
        b := b.(tokens := Refilled(cfg, b.tokens, elapsedMs), lastRefillMs := now);
      }
      if b.tokens < 1.0 {
        entries := entries + [b];
        return RateLimited, bucket;
      }
      entries := entries + [b.(tokens := b.tokens - 1.0)];
      answer := Consumed;
    }

    /** Adds to the holders of one bucket object; another object is not touched. */
    method AddToHolders(bucket: nat, delta: int)
      modifies this
      ensures entries == AddHolders(old(entries), bucket, delta) && nextId == old(nextId)
    {
      entries := AddHolders(entries, bucket, delta);
    }

    method HoldersOfHanded() returns (holders: int)
      requires entries != []
      ensures holders == Handed(State()).holders
    {
      holders := entries[|entries| - 1].holders;
    }

    /** Takes one outstanding-work slot on the bucket just consumed from, if one is available. */
    method TryHold(ghost leases: seq<RateRuns.Lease>) returns (lease: Option<Lease>)
      requires entries != []
      modifies this
      ensures RateRuns.System(State(),
                              if lease.Some? then leases + [RateRuns.Lease(lease.value.bucket, false)] else leases)
           == RateRuns.TryHold(cfg, RateRuns.System(old(State()), leases))
      ensures lease.Some? ==>
                fresh(lease.value) && !lease.value.released && lease.value.bucket == Handed(old(State())).id
      ensures lease.Some? <==>
                cfg.maxOutstanding.None? || old(entries[|entries| - 1].holders) < cfg.maxOutstanding.value
    {
      var b := entries[|entries| - 1];
      if cfg.maxOutstanding.Some? && b.holders + 1 > cfg.maxOutstanding.value {
        return None;
      }
      entries := AddHolders(entries, b.id, 1);
      var slot := new Lease(b.id);
      return Some(slot);
    }

    /** Gives the slot back the first time, and does nothing after that. */
    method Release(lease: Lease)
      modifies this, lease
      ensures lease.released && nextId == old(nextId)
      ensures entries == if old(lease.released) then old(entries) else AddHolders(old(entries), lease.bucket, -1)
    {
      if lease.released {
        return;
      }
      lease.released := true;
      entries := AddHolders(entries, lease.bucket, -1);
    }

    method Clear()
      modifies this
      ensures entries == [] && nextId == old(nextId)
    {
      entries := [];
    }
  }
}

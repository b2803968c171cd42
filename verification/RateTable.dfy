/**
 * The bounded token-bucket table behind rate-limiting Layers A, B and C.
 *
 * The table is a value: its entries in access order (oldest first), each with the
 * identity of the bucket object it retains, so that a lease that outlives its entry
 * can be told apart from one whose entry is still there.  Tokens and times are reals.
 */
module RateTable {
  import opened Options

  datatype Config = Config(
    refillMs: real,
    burst: real,
    maxKeys: nat,
    idleEvictionMs: real,
    maxOutstanding: Option<nat>)

  ghost predicate ValidConfig(cfg: Config) {
    cfg.refillMs > 0.0 && cfg.burst >= 0.0 && cfg.idleEvictionMs >= 0.0
  }

  /** An idle bucket is reclaimed no earlier than the moment it would be full again. */
  ghost predicate EvictsOnlyFull(cfg: Config) {
    cfg.idleEvictionMs >= cfg.burst * cfg.refillMs
  }

  /** `60_000 / requestsPerMinute`, the three frozen layers and their shared timeout. */
  const LAYER_A := Config(1000.0, 20.0, 4096, 60000.0, None)
  const LAYER_B := Config(500.0, 30.0, 2048, 60000.0, None)
  const LAYER_C := Config(200.0, 60.0, 1024, 60000.0, Some(4))

  datatype Entry = Entry(
    id: nat,
    key: string,
    tokens: real,
    lastRefillMs: real,
    lastSeenMs: real,
    holders: int)

  datatype Table = Table(entries: seq<Entry>, nextId: nat)

  datatype Answer = Consumed | RateLimited | Saturated

  // ----- the operations --------------------------------------------------------

  function Min(a: real, b: real): real {
    if a <= b then a else b
  }

  /** The token level `elapsedMs` after it was `tokens`. */
  function Refilled(cfg: Config, tokens: real, elapsedMs: real): real
    requires cfg.refillMs > 0.0
  {
    Min(cfg.burst, tokens + elapsedMs / cfg.refillMs)
  }

  predicate Reclaimable(cfg: Config, e: Entry, now: real) {
    e.holders == 0 && now - e.lastSeenMs >= cfg.idleEvictionMs
  }

  function EvictIdle(cfg: Config, es: seq<Entry>, now: real): seq<Entry> {
    if es == [] then []
    else if Reclaimable(cfg, es[0], now) then EvictIdle(cfg, es[1..], now)
    else [es[0]] + EvictIdle(cfg, es[1..], now)
  }

  function Lookup(es: seq<Entry>, key: string): Option<Entry> {
    if es == [] then None
    else if es[0].key == key then Some(es[0])
    else Lookup(es[1..], key)
  }

  function Without(es: seq<Entry>, key: string): seq<Entry> {
    if es == [] then []
    else if es[0].key == key then Without(es[1..], key)
    else [es[0]] + Without(es[1..], key)
  }

  /** The bucket object a request for `key` acts on: the retained one, or a full new one. */
  function Selected(cfg: Config, t: Table, key: string, now: real): Entry {
    match Lookup(EvictIdle(cfg, t.entries, now), key)
    case Some(e) => e
    case None => Entry(t.nextId, key, cfg.burst, now, now, 0)
  }

  /** The same bucket, marked as seen and lazily refilled. */
  function Touched(cfg: Config, b: Entry, now: real): Entry
    requires cfg.refillMs > 0.0
  {
    if now - b.lastRefillMs > 0.0 then
      b.(lastSeenMs := now, tokens := Refilled(cfg, b.tokens, now - b.lastRefillMs), lastRefillMs := now)
    else b.(lastSeenMs := now)
  }

  function Consume(cfg: Config, t: Table, key: string, now: real): (r: (Table, Answer))
    requires cfg.refillMs > 0.0
  {
    var es := EvictIdle(cfg, t.entries, now);
    var found := Lookup(es, key);
    if found.None? && |es| >= cfg.maxKeys then (Table(es, t.nextId), Saturated)
    else
      var b := Touched(cfg, Selected(cfg, t, key, now), now);
      var nextId := if found.None? then t.nextId + 1 else t.nextId;
      if b.tokens < 1.0 then (Table(Without(es, key) + [b], nextId), RateLimited)
      else (Table(Without(es, key) + [b.(tokens := b.tokens - 1.0)], nextId), Consumed)
  }

  /** Adds `delta` holders to the bucket object `id`; a bucket the table no longer retains is out of sight. */
  function AddHolders(es: seq<Entry>, id: nat, delta: int): seq<Entry> {
    if es == [] then []
    else if es[0].id == id then [es[0].(holders := es[0].holders + delta)] + es[1..]
    else [es[0]] + AddHolders(es[1..], id, delta)
  }

  /** The bucket a successful consume hands to its caller: the most recently used entry. */
  function Handed(t: Table): Entry
    requires t.entries != []
  {
    t.entries[|t.entries| - 1]
  }

  predicate HasId(es: seq<Entry>, id: nat) {
    exists i :: 0 <= i < |es| && es[i].id == id
  }

  // ----- what every operation keeps --------------------------------------------

  ghost predicate Distinct(es: seq<Entry>) {
    forall i, j :: 0 <= i < j < |es| ==> es[i].key != es[j].key && es[i].id != es[j].id
  }

  /** Access order: the oldest access first. */
  ghost predicate Ordered(es: seq<Entry>) {
    forall i, j :: 0 <= i < j < |es| ==> es[i].lastSeenMs <= es[j].lastSeenMs
  }

  ghost predicate ValidEntry(cfg: Config, e: Entry, nextId: nat, now: real) {
    && e.id < nextId
    && e.lastRefillMs == e.lastSeenMs <= now
    && 0.0 <= e.tokens <= cfg.burst
    && e.holders >= 0
  }

  ghost predicate ValidEntries(cfg: Config, es: seq<Entry>, nextId: nat, now: real) {
    && Distinct(es)
    && Ordered(es)
    && forall i :: 0 <= i < |es| ==> ValidEntry(cfg, es[i], nextId, now)
  }

  /** The table is well formed for every clock reading from `now` on. */
  ghost predicate ValidTable(cfg: Config, t: Table, now: real) {
    |t.entries| <= cfg.maxKeys && ValidEntries(cfg, t.entries, t.nextId, now)
  }

  /** What `key` may still spend at `now`: the abstract value of the whole table. */
  ghost function Level(cfg: Config, t: Table, key: string, now: real): real
    requires cfg.refillMs > 0.0
  {
    match Lookup(t.entries, key)
    case Some(e) => Refilled(cfg, e.tokens, now - e.lastRefillMs)
    case None => cfg.burst
  }

  lemma RefillComposes(cfg: Config, tokens: real, first: real, second: real)
    requires ValidConfig(cfg) && tokens <= cfg.burst && first >= 0.0 && second >= 0.0
    ensures Refilled(cfg, Refilled(cfg, tokens, first), second) == Refilled(cfg, tokens, first + second)
  {
    assert (first + second) / cfg.refillMs == first / cfg.refillMs + second / cfg.refillMs;
    assert first / cfg.refillMs >= 0.0 && second / cfg.refillMs >= 0.0;
  }

  /** A bucket idle for the whole eviction timeout is full. */
  lemma IdleIsFull(cfg: Config, tokens: real, elapsedMs: real)
    requires ValidConfig(cfg) && EvictsOnlyFull(cfg) && tokens >= 0.0
    requires elapsedMs >= cfg.idleEvictionMs
    ensures Refilled(cfg, tokens, elapsedMs) == cfg.burst
  {
    assert elapsedMs >= cfg.burst * cfg.refillMs;
    assert elapsedMs / cfg.refillMs >= cfg.burst;
  }

  lemma {:induction false} LookupIs(es: seq<Entry>, key: string)
    ensures Lookup(es, key).Some? ==> Lookup(es, key).value in es && Lookup(es, key).value.key == key
    ensures Lookup(es, key).None? ==> forall i :: 0 <= i < |es| ==> es[i].key != key
  {
    if es != [] && es[0].key != key {
      LookupIs(es[1..], key);
    }
  }

  lemma {:induction false} LookupAt(es: seq<Entry>, i: nat)
    requires i < |es| && Distinct(es)
    ensures Lookup(es, es[i].key) == Some(es[i])
  {
    if i > 0 {
      assert es[0].key != es[i].key;
      LookupAt(es[1..], i - 1);
    }
  }

  lemma {:induction false} LookupAppend(es: seq<Entry>, e: Entry, key: string)
    ensures Lookup(es + [e], key) ==
            if Lookup(es, key).Some? then Lookup(es, key) else if e.key == key then Some(e) else None
  {
    if es == [] {
      assert es + [e] == [e];
    } else {
      assert (es + [e])[1..] == es[1..] + [e];
      LookupAppend(es[1..], e, key);
    }
  }

  lemma ConsValid(cfg: Config, e: Entry, rest: seq<Entry>, nextId: nat, now: real)
    requires ValidEntry(cfg, e, nextId, now) && ValidEntries(cfg, rest, nextId, now)
    requires forall x :: x in rest ==> x.key != e.key && x.id != e.id && e.lastSeenMs <= x.lastSeenMs
    ensures ValidEntries(cfg, [e] + rest, nextId, now)
  {
    var es := [e] + rest;
    forall i, j | 0 <= i < j < |es|
      ensures es[i].key != es[j].key && es[i].id != es[j].id && es[i].lastSeenMs <= es[j].lastSeenMs
    {
      assert es[j] == rest[j - 1];
      if i > 0 {
        assert es[i] == rest[i - 1];
      }
    }
  }

  lemma TailValid(cfg: Config, es: seq<Entry>, nextId: nat, now: real)
    requires es != [] && ValidEntries(cfg, es, nextId, now)
    ensures ValidEntries(cfg, es[1..], nextId, now)
    ensures forall x :: x in es[1..] ==> x.key != es[0].key && x.id != es[0].id && es[0].lastSeenMs <= x.lastSeenMs
    ensures forall x :: x in es <==> x == es[0] || x in es[1..]
  {
  }

  lemma AppendValid(cfg: Config, rest: seq<Entry>, e: Entry, nextId: nat, now: real)
    requires ValidEntries(cfg, rest, nextId, now) && ValidEntry(cfg, e, nextId, now) && e.lastSeenMs == now
    requires forall x :: x in rest ==> x.key != e.key && x.id != e.id
    ensures ValidEntries(cfg, rest + [e], nextId, now)
  {
    forall i | 0 <= i < |rest| ensures rest[i].lastSeenMs <= now {
      assert ValidEntry(cfg, rest[i], nextId, now);
    }
  }

  lemma {:induction false} EvictKeeps(cfg: Config, es: seq<Entry>, nextId: nat, now: real)
    requires ValidEntries(cfg, es, nextId, now)
    ensures ValidEntries(cfg, EvictIdle(cfg, es, now), nextId, now)
    ensures |EvictIdle(cfg, es, now)| <= |es|
    ensures forall e :: e in EvictIdle(cfg, es, now) <==> e in es && !Reclaimable(cfg, e, now)
  {
    if es != [] {
      TailValid(cfg, es, nextId, now);
      EvictKeeps(cfg, es[1..], nextId, now);
      if !Reclaimable(cfg, es[0], now) {
        ConsValid(cfg, es[0], EvictIdle(cfg, es[1..], now), nextId, now);
      }
    }
  }

  lemma {:induction false} WithoutKeeps(cfg: Config, es: seq<Entry>, key: string, nextId: nat, now: real)
    requires ValidEntries(cfg, es, nextId, now)
    ensures ValidEntries(cfg, Without(es, key), nextId, now)
    ensures |Without(es, key)| == if Lookup(es, key).Some? then |es| - 1 else |es|
    ensures forall e :: e in Without(es, key) <==> e in es && e.key != key
  {
    if es != [] {
      TailValid(cfg, es, nextId, now);
      WithoutKeeps(cfg, es[1..], key, nextId, now);
      if es[0].key != key {
        ConsValid(cfg, es[0], Without(es[1..], key), nextId, now);
      } else {
        LookupIs(es[1..], key);
      }
    }
  }

  lemma {:induction false} LookupWithout(es: seq<Entry>, key: string, other: string)
    ensures Lookup(Without(es, key), other) == if other == key then None else Lookup(es, other)
  {
    if es != [] {
      LookupWithout(es[1..], key, other);
    }
  }

  lemma {:induction false} LookupEvict(cfg: Config, es: seq<Entry>, key: string, now: real)
    requires Distinct(es)
    ensures Lookup(EvictIdle(cfg, es, now), key) ==
            match Lookup(es, key)
            case Some(e) => if Reclaimable(cfg, e, now) then None else Some(e)
            case None => None
  {
    if es != [] {
      LookupEvict(cfg, es[1..], key, now);
      if es[0].key == key && Reclaimable(cfg, es[0], now) {
        LookupIs(es[1..], key);
        assert forall i :: 0 <= i < |es[1..]| ==> es[1..][i] == es[i + 1];
        assert Lookup(es[1..], key).None?;
      }
    }
  }

  /** A retained bucket is selected by its key; without one the selection is a new object. */
  lemma SelectedIs(cfg: Config, t: Table, key: string, now: real)
    requires ValidConfig(cfg) && ValidTable(cfg, t, now)
    ensures var es, b := EvictIdle(cfg, t.entries, now), Selected(cfg, t, key, now);
            && b.key == key
            && (if Lookup(es, key).Some? then b in es && ValidEntry(cfg, b, t.nextId, now)
                else b.id == t.nextId && ValidEntry(cfg, b, t.nextId + 1, now))
  {
    EvictKeeps(cfg, t.entries, t.nextId, now);
    LookupIs(EvictIdle(cfg, t.entries, now), key);
  }

  lemma TouchedIs(cfg: Config, b: Entry, nextId: nat, now: real)
    requires ValidConfig(cfg) && ValidEntry(cfg, b, nextId, now)
    ensures var b' := Touched(cfg, b, now);
            && ValidEntry(cfg, b', nextId, now)
            && b'.id == b.id && b'.key == b.key && b'.holders == b.holders && b'.lastSeenMs == now
            && b'.tokens == Refilled(cfg, b.tokens, now - b.lastRefillMs)
  {
    assert (now - b.lastRefillMs) / cfg.refillMs >= 0.0;
  }

  /** What a request that is not refused for saturation leaves: the other buckets, then the one acted on. */
  lemma ConsumeShape(cfg: Config, t: Table, key: string, now: real) returns (rest: seq<Entry>, b: Entry)
    requires ValidConfig(cfg) && ValidTable(cfg, t, now)
    requires !Consume(cfg, t, key, now).1.Saturated?
    ensures var es, t', s := EvictIdle(cfg, t.entries, now), Consume(cfg, t, key, now).0, Selected(cfg, t, key, now);
            && rest == Without(es, key) && t'.entries == rest + [b]
            && t'.nextId == (if Lookup(es, key).Some? then t.nextId else t.nextId + 1)
            && b.id == s.id && b.key == key && b.holders == s.holders && ValidEntry(cfg, b, t'.nextId, now)
            && b.lastSeenMs == now
            && b.tokens == Touched(cfg, s, now).tokens - (if Consume(cfg, t, key, now).1.Consumed? then 1.0 else 0.0)
  {
    var es := EvictIdle(cfg, t.entries, now);
    rest := Without(es, key);
    b := Consume(cfg, t, key, now).0.entries[|rest|];
    SelectedIs(cfg, t, key, now);
    TouchedIs(cfg, Selected(cfg, t, key, now), if Lookup(es, key).Some? then t.nextId else t.nextId + 1, now);
  }

  /** Every request keeps the table within `maxKeys`, in access order and with one entry a key. */
  lemma ConsumeKeeps(cfg: Config, t: Table, key: string, now: real)
    requires ValidConfig(cfg) && ValidTable(cfg, t, now)
    ensures ValidTable(cfg, Consume(cfg, t, key, now).0, now)
    ensures t.nextId <= Consume(cfg, t, key, now).0.nextId
  {
    var es := EvictIdle(cfg, t.entries, now);
    var t' := Consume(cfg, t, key, now).0;
    EvictKeeps(cfg, t.entries, t.nextId, now);
    if !Consume(cfg, t, key, now).1.Saturated? {
      var rest, b := ConsumeShape(cfg, t, key, now);
      WithoutKeeps(cfg, es, key, t.nextId, now);
      SelectedIs(cfg, t, key, now);
      forall x | x in rest ensures x.key != b.key && x.id != b.id {
        assert x in es && ValidEntry(cfg, x, t.nextId, now);
      }
      assert ValidEntries(cfg, rest, t'.nextId, now);
      AppendValid(cfg, rest, b, t'.nextId, now);
    }
  }

  /** A bucket with holders survives every request with its identity, key and holders. */
  lemma HeldSurvives(cfg: Config, t: Table, key: string, now: real, e: Entry)
    requires ValidConfig(cfg) && ValidTable(cfg, t, now)
    requires e in t.entries && e.holders > 0
    ensures exists e' :: e' in Consume(cfg, t, key, now).0.entries
                         && e'.id == e.id && e'.key == e.key && e'.holders == e.holders
  {
    var es := EvictIdle(cfg, t.entries, now);
    var t' := Consume(cfg, t, key, now).0;
    EvictKeeps(cfg, t.entries, t.nextId, now);
    if Consume(cfg, t, key, now).1.Saturated? {
      assert e in t'.entries;
    } else {
      var rest, b := ConsumeShape(cfg, t, key, now);
      WithoutKeeps(cfg, es, key, t.nextId, now);
      if e.key == key {
        var i :| 0 <= i < |es| && es[i] == e;
        LookupAt(es, i);
        assert b in t'.entries;
      } else {
        assert e in rest;
        assert e in t'.entries;
      }
    }
  }

  lemma {:induction false} AddHoldersIs(es: seq<Entry>, id: nat, delta: int)
    requires Distinct(es)
    ensures |AddHolders(es, id, delta)| == |es|
    ensures forall i :: 0 <= i < |es| ==>
              AddHolders(es, id, delta)[i] == if es[i].id == id then es[i].(holders := es[i].holders + delta) else es[i]
  {
    if es != [] {
      if es[0].id == id {
        forall i | 0 < i < |es| ensures es[i].id != id {
          assert es[0].id != es[i].id;
        }
      } else {
        AddHoldersIs(es[1..], id, delta);
      }
    }
  }

  /** Changing holders alone keeps the table well formed as long as none turns negative. */
  lemma AddHoldersKeeps(cfg: Config, t: Table, id: nat, delta: int, now: real)
    requires ValidTable(cfg, t, now)
    requires forall e :: e in t.entries && e.id == id ==> e.holders + delta >= 0
    ensures ValidTable(cfg, t.(entries := AddHolders(t.entries, id, delta)), now)
  {
    AddHoldersIs(t.entries, id, delta);
    var es := AddHolders(t.entries, id, delta);
    forall i | 0 <= i < |es| ensures ValidEntry(cfg, es[i], t.nextId, now) {
      assert ValidEntry(cfg, t.entries[i], t.nextId, now);
      assert t.entries[i] in t.entries;
    }
  }

  /** Every entry a request leaves is the same bucket object as before with the same holders, or a new one with none. */
  lemma ConsumeOrigin(cfg: Config, t: Table, key: string, now: real, e': Entry)
    requires ValidConfig(cfg) && ValidTable(cfg, t, now)
    requires e' in Consume(cfg, t, key, now).0.entries
    ensures (e'.id == t.nextId && e'.holders == 0)
         || exists e :: e in t.entries && e.id == e'.id && e.holders == e'.holders
  {
    EvictKeeps(cfg, t.entries, t.nextId, now);
    if !Consume(cfg, t, key, now).1.Saturated? {
      var rest, b := ConsumeShape(cfg, t, key, now);
      WithoutKeeps(cfg, EvictIdle(cfg, t.entries, now), key, t.nextId, now);
      SelectedIs(cfg, t, key, now);
      if e' != b {
        assert e' in rest;
      }
    }
  }

  // ----- the three answers, on the fields of the entries ------------------------

  /** Held, or seen within the eviction timeout. */
  predicate InUse(cfg: Config, e: Entry, now: real) {
    e.holders > 0 || now - e.lastSeenMs < cfg.idleEvictionMs
  }

  ghost function Used(cfg: Config, es: seq<Entry>, now: real): set<Entry> {
    set e | e in es && InUse(cfg, e, now)
  }

  /** The key has no entry in use, and as many others as the table may hold are. */
  ghost predicate Full(cfg: Config, es: seq<Entry>, key: string, now: real) {
    && (forall e :: e in es && e.key == key ==> e.holders <= 0 && now - e.lastSeenMs >= cfg.idleEvictionMs)
    && |Used(cfg, es, now)| >= cfg.maxKeys
  }

  /** The key has a token: its entry in use has refilled to one, or a new one would hold one. */
  ghost predicate HasToken(cfg: Config, es: seq<Entry>, key: string, now: real)
    requires cfg.refillMs > 0.0
  {
    if exists e :: e in es && e.key == key && InUse(cfg, e, now)
    then
      && cfg.burst >= 1.0
      && exists e :: e in es && e.key == key && InUse(cfg, e, now)
                     && e.tokens + (now - e.lastRefillMs) / cfg.refillMs >= 1.0
    else cfg.burst >= 1.0
  }

  lemma {:induction false} KeptAreUsed(cfg: Config, es: seq<Entry>, nextId: nat, now: real)
    requires ValidEntries(cfg, es, nextId, now)
    ensures |EvictIdle(cfg, es, now)| == |Used(cfg, es, now)|
  {
    if es == [] {
      assert Used(cfg, es, now) == {};
    } else {
      TailValid(cfg, es, nextId, now);
      KeptAreUsed(cfg, es[1..], nextId, now);
      assert ValidEntry(cfg, es[0], nextId, now);
      UsedCons(cfg, es, now);
    }
  }

  lemma UsedCons(cfg: Config, es: seq<Entry>, now: real)
    requires es != [] && es[0] !in es[1..]
    ensures |Used(cfg, es, now)| == |Used(cfg, es[1..], now)| + if InUse(cfg, es[0], now) then 1 else 0
  {
    assert es == [es[0]] + es[1..];
    var rest := Used(cfg, es[1..], now);
    assert Used(cfg, es, now) == rest + if InUse(cfg, es[0], now) then {es[0]} else {};
  }

  /** The entry a request finds is the key's entry in use. */
  lemma FoundIsInUse(cfg: Config, t: Table, key: string, now: real)
    requires ValidTable(cfg, t, now)
    ensures var found := Lookup(EvictIdle(cfg, t.entries, now), key);
      && (found.None? <==> forall e :: e in t.entries && e.key == key ==> !InUse(cfg, e, now))
      && (found.Some? ==> forall e :: e in t.entries && e.key == key ==> e == found.value)
      && (found.Some? ==> found.value in t.entries && found.value.key == key && InUse(cfg, found.value, now))
  {
    LookupEvict(cfg, t.entries, key, now);
    LookupIs(t.entries, key);
    forall e | e in t.entries && e.key == key ensures Lookup(t.entries, key) == Some(e) {
      var i :| 0 <= i < |t.entries| && t.entries[i] == e;
      LookupAt(t.entries, i);
    }
    if Lookup(t.entries, key).Some? {
      assert ValidEntry(cfg, Lookup(t.entries, key).value, t.nextId, now);
    }
  }

  /** A request is refused for saturation exactly when its key has no entry in use and `maxKeys` others are. */
  lemma SaturatedExactly(cfg: Config, t: Table, key: string, now: real)
    requires ValidConfig(cfg) && ValidTable(cfg, t, now)
    ensures Consume(cfg, t, key, now).1.Saturated? <==> Full(cfg, t.entries, key, now)
  {
    KeptAreUsed(cfg, t.entries, t.nextId, now);
    FoundIsInUse(cfg, t, key, now);
    forall e | e in t.entries && e.key == key ensures e.holders >= 0 {
      assert ValidEntry(cfg, e, t.nextId, now);
    }
  }

  /** And it is granted exactly when it is not refused for saturation and its key has a token. */
  lemma ConsumedExactly(cfg: Config, t: Table, key: string, now: real)
    requires ValidConfig(cfg) && ValidTable(cfg, t, now)
    ensures Consume(cfg, t, key, now).1.Consumed?
       <==> !Full(cfg, t.entries, key, now) && HasToken(cfg, t.entries, key, now)
  {
    SaturatedExactly(cfg, t, key, now);
    FoundIsInUse(cfg, t, key, now);
    var found := Lookup(EvictIdle(cfg, t.entries, now), key);
    SelectedIs(cfg, t, key, now);
    TouchedIs(cfg, Selected(cfg, t, key, now), if found.Some? then t.nextId else t.nextId + 1, now);
    if found.None? {
      assert (now - now) / cfg.refillMs == 0.0;
    }
  }

  // ----- eviction is invisible -------------------------------------------------

  /**
   * One request against the abstract value of the table: the answer depends on the level alone,
   * and afterwards every level at every later moment is what a table that never evicts would show.
   */
  lemma LevelStep(cfg: Config, t: Table, key: string, now: real, other: string, later: real)
    requires ValidConfig(cfg) && EvictsOnlyFull(cfg) && ValidTable(cfg, t, now) && now <= later
    ensures var (t', a) := Consume(cfg, t, key, now);
            && (!a.Saturated? ==> (a.Consumed? <==> Level(cfg, t, key, now) >= 1.0))
            && Level(cfg, t', other, later) ==
               if other == key && a.Consumed? then Refilled(cfg, Level(cfg, t, key, now) - 1.0, later - now)
               else Level(cfg, t, other, later)
  {
    var es := EvictIdle(cfg, t.entries, now);
    var (t', a) := Consume(cfg, t, key, now);
    EvictedLevel(cfg, t, other, now, later);
    if !a.Saturated? {
      EvictedLevel(cfg, t, key, now, now);
      SelectedLevel(cfg, t, key, now);
      var rest, b := ConsumeShape(cfg, t, key, now);
      LookupAppend(rest, b, other);
      LookupWithout(es, key, other);
      if other == key && !a.Consumed? {
        LevelLater(cfg, t, key, now, later);
      }
    }
  }

  lemma SelectedLevel(cfg: Config, t: Table, key: string, now: real)
    requires ValidConfig(cfg) && EvictsOnlyFull(cfg) && ValidTable(cfg, t, now)
    ensures Touched(cfg, Selected(cfg, t, key, now), now).tokens == Level(cfg, t, key, now)
  {
    var es := EvictIdle(cfg, t.entries, now);
    EvictedLevel(cfg, t, key, now, now);
    SelectedIs(cfg, t, key, now);
    TouchedIs(cfg, Selected(cfg, t, key, now), if Lookup(es, key).Some? then t.nextId else t.nextId + 1, now);
  }

  /** Evicting changes no level, because only full buckets are evicted. */
  lemma EvictedLevel(cfg: Config, t: Table, key: string, now: real, later: real)
    requires ValidConfig(cfg) && EvictsOnlyFull(cfg) && ValidTable(cfg, t, now) && now <= later
    ensures Level(cfg, Table(EvictIdle(cfg, t.entries, now), t.nextId), key, later) == Level(cfg, t, key, later)
  {
    LookupEvict(cfg, t.entries, key, now);
    LookupIs(t.entries, key);
    if Lookup(t.entries, key).Some? {
      var e := Lookup(t.entries, key).value;
      assert ValidEntry(cfg, e, t.nextId, now);
      if Reclaimable(cfg, e, now) {
        IdleIsFull(cfg, e.tokens, later - e.lastRefillMs);
      }
    }
  }

  /** Between requests a level just refills. */
  lemma LevelLater(cfg: Config, t: Table, key: string, now: real, later: real)
    requires ValidConfig(cfg) && ValidTable(cfg, t, now) && now <= later
    ensures Level(cfg, t, key, later) == Refilled(cfg, Level(cfg, t, key, now), later - now)
    ensures 0.0 <= Level(cfg, t, key, now) <= cfg.burst
  {
    LookupIs(t.entries, key);
    assert (later - now) / cfg.refillMs >= 0.0;
    if Lookup(t.entries, key).Some? {
      var e := Lookup(t.entries, key).value;
      assert ValidEntry(cfg, e, t.nextId, now);
      RefillComposes(cfg, e.tokens, now - e.lastRefillMs, later - now);
      assert (now - e.lastRefillMs) / cfg.refillMs >= 0.0;
      assert now - e.lastRefillMs + (later - now) == later - e.lastRefillMs;
    }
  }
}

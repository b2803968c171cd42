/**
 * Whole runs of the bounded table: any interleaving of requests, admissions that also take an
 * outstanding-work slot, and releases, on a clock that never goes back.
 */
module RateRuns {
  import opened Options
  import opened RateTable

  /** One outstanding-work slot: the bucket object it was taken on, and its one-shot flag. */
  datatype Lease = Lease(bucket: nat, released: bool)

  datatype System = System(table: Table, leases: seq<Lease>)

  datatype Op =
    | Request(key: string, now: real)   // consume
    | Admit(key: string, now: real)     // consume, then tryHold on the bucket
    | Release(lease: nat)               // the release closure of one lease

  const INITIAL := System(Table([], 0), [])

  function TryHold(cfg: Config, s: System): System
    requires s.table.entries != []
  {
    var b := Handed(s.table);
    if cfg.maxOutstanding.Some? && b.holders + 1 > cfg.maxOutstanding.value then s
    else System(s.table.(entries := AddHolders(s.table.entries, b.id, 1)), s.leases + [Lease(b.id, false)])
  }

  function Step(cfg: Config, s: System, op: Op): System
    requires cfg.refillMs > 0.0
  {
    match op
    case Request(key, now) => s.(table := Consume(cfg, s.table, key, now).0)
    case Admit(key, now) =>
      var (t, a) := Consume(cfg, s.table, key, now);
      if a.Consumed? then TryHold(cfg, s.(table := t)) else s.(table := t)
    case Release(i) =>
      if i < |s.leases| && !s.leases[i].released then
        System(s.table.(entries := AddHolders(s.table.entries, s.leases[i].bucket, -1)),
               s.leases[i := s.leases[i].(released := true)])
      else s
  }

  function Run(cfg: Config, s: System, ops: seq<Op>): System
    requires cfg.refillMs > 0.0
    decreases |ops|
  {
    if ops == [] then s else Run(cfg, Step(cfg, s, ops[0]), ops[1..])
  }

  /** The clock readings of a run never go back. */
  ghost predicate Chronological(ops: seq<Op>, now: real) {
    ops == [] || (match ops[0]
                  case Release(_) => Chronological(ops[1..], now)
                  case _ => now <= ops[0].now && Chronological(ops[1..], ops[0].now))
  }

  function After(op: Op, now: real): real {
    match op
    case Release(_) => now
    case _ => op.now
  }

  // ----- every reachable table -------------------------------------------------

  function Outstanding(leases: seq<Lease>, id: nat): nat {
    if leases == [] then 0
    else (if leases[0].bucket == id && !leases[0].released then 1 else 0) + Outstanding(leases[1..], id)
  }

  /**
   * The table is well formed, a bucket's holders are exactly the unreleased leases taken on it,
   * and no bucket with an unreleased lease has been dropped.
   */
  ghost predicate ValidSystem(cfg: Config, s: System, now: real) {
    && ValidTable(cfg, s.table, now)
    && Accounted(cfg, s.table.entries, s.leases)
    && Retained(s.table, s.leases)
  }

  ghost predicate Accounted(cfg: Config, es: seq<Entry>, leases: seq<Lease>) {
    forall i :: 0 <= i < |es| ==>
      && es[i].holders == Outstanding(leases, es[i].id)
      && (cfg.maxOutstanding.Some? ==> es[i].holders <= cfg.maxOutstanding.value)
  }

  ghost predicate Retained(t: Table, leases: seq<Lease>) {
    forall i :: 0 <= i < |leases| ==>
      && leases[i].bucket < t.nextId
      && (!leases[i].released ==> HasId(t.entries, leases[i].bucket))
  }

  lemma {:induction false} OutstandingAppend(leases: seq<Lease>, l: Lease, id: nat)
    ensures Outstanding(leases + [l], id) == Outstanding(leases, id) + if l.bucket == id && !l.released then 1 else 0
  {
    if leases == [] {
      assert leases + [l] == [l];
    } else {
      assert (leases + [l])[1..] == leases[1..] + [l];
      OutstandingAppend(leases[1..], l, id);
    }
  }

  lemma {:induction false} OutstandingRelease(leases: seq<Lease>, i: nat, id: nat)
    requires i < |leases| && !leases[i].released
    ensures Outstanding(leases[i := leases[i].(released := true)], id)
            == Outstanding(leases, id) - if leases[i].bucket == id then 1 else 0
  {
    var after := leases[i := leases[i].(released := true)];
    if i == 0 {
      assert after[1..] == leases[1..];
    } else {
      assert after[1..] == leases[1..][i - 1 := leases[i].(released := true)];
      OutstandingRelease(leases[1..], i - 1, id);
    }
  }

  lemma {:induction false} NoneOutstanding(leases: seq<Lease>, id: nat)
    requires forall l :: l in leases && !l.released ==> l.bucket != id
    ensures Outstanding(leases, id) == 0
  {
    if leases != [] {
      NoneOutstanding(leases[1..], id);
    }
  }

  lemma {:induction false} SomeOutstanding(leases: seq<Lease>, i: nat)
    requires i < |leases| && !leases[i].released
    ensures Outstanding(leases, leases[i].bucket) > 0
  {
    if i > 0 {
      SomeOutstanding(leases[1..], i - 1);
    }
  }

  lemma ConsumeKeepsSystem(cfg: Config, s: System, key: string, now: real)
    requires ValidConfig(cfg) && ValidSystem(cfg, s, now)
    ensures ValidSystem(cfg, s.(table := Consume(cfg, s.table, key, now).0), now)
  {
    var t' := Consume(cfg, s.table, key, now).0;
    ConsumeKeeps(cfg, s.table, key, now);
    forall k | 0 <= k < |t'.entries|
      ensures t'.entries[k].holders == Outstanding(s.leases, t'.entries[k].id)
      ensures cfg.maxOutstanding.Some? ==> t'.entries[k].holders <= cfg.maxOutstanding.value
    {
      ConsumeOrigin(cfg, s.table, key, now, t'.entries[k]);
      if t'.entries[k].id == s.table.nextId {
        NoneOutstanding(s.leases, t'.entries[k].id);
      }
    }
    forall k | 0 <= k < |s.leases| && !s.leases[k].released ensures HasId(t'.entries, s.leases[k].bucket) {
      SomeOutstanding(s.leases, k);
      var i :| 0 <= i < |s.table.entries| && s.table.entries[i].id == s.leases[k].bucket;
      HeldSurvives(cfg, s.table, key, now, s.table.entries[i]);
    }
  }

  lemma HoldAccounted(cfg: Config, es: seq<Entry>, leases: seq<Lease>, b: Entry)
    requires Distinct(es) && Accounted(cfg, es, leases) && b in es
    requires cfg.maxOutstanding.Some? ==> b.holders + 1 <= cfg.maxOutstanding.value
    ensures Accounted(cfg, AddHolders(es, b.id, 1), leases + [Lease(b.id, false)])
  {
    AddHoldersIs(es, b.id, 1);
    forall i | 0 <= i < |es|
      ensures Outstanding(leases + [Lease(b.id, false)], es[i].id)
              == Outstanding(leases, es[i].id) + if es[i].id == b.id then 1 else 0
    {
      OutstandingAppend(leases, Lease(b.id, false), es[i].id);
    }
  }

  lemma ReleaseAccounted(cfg: Config, es: seq<Entry>, leases: seq<Lease>, k: nat)
    requires Distinct(es) && Accounted(cfg, es, leases) && k < |leases| && !leases[k].released
    ensures Accounted(cfg, AddHolders(es, leases[k].bucket, -1), leases[k := leases[k].(released := true)])
  {
    AddHoldersIs(es, leases[k].bucket, -1);
    forall i | 0 <= i < |es|
      ensures Outstanding(leases[k := leases[k].(released := true)], es[i].id)
              == Outstanding(leases, es[i].id) - if es[i].id == leases[k].bucket then 1 else 0
    {
      OutstandingRelease(leases, k, es[i].id);
    }
  }

  /** Changing holders drops no bucket. */
  lemma HoldersRetain(t: Table, leases: seq<Lease>, id: nat, delta: int)
    requires Distinct(t.entries) && Retained(t, leases)
    ensures Retained(t.(entries := AddHolders(t.entries, id, delta)), leases)
  {
    var es' := AddHolders(t.entries, id, delta);
    AddHoldersIs(t.entries, id, delta);
    forall i | 0 <= i < |leases| && !leases[i].released ensures HasId(es', leases[i].bucket) {
      var k :| 0 <= k < |t.entries| && t.entries[k].id == leases[i].bucket;
      assert es'[k].id == leases[i].bucket;
    }
  }

  lemma TryHoldKeeps(cfg: Config, s: System, now: real)
    requires ValidSystem(cfg, s, now) && s.table.entries != []
    ensures ValidSystem(cfg, TryHold(cfg, s), now)
  {
    var b, s', es := Handed(s.table), TryHold(cfg, s), s.table.entries;
    if s' != s {
      HoldAccounted(cfg, es, s.leases, b);
      HoldersRetain(s.table, s.leases, b.id, 1);
      AddHoldersIs(es, b.id, 1);
      assert s'.table.entries[|es| - 1].id == b.id;
      assert ValidEntry(cfg, es[|es| - 1], s.table.nextId, now);
      AddHoldersKeeps(cfg, s.table, b.id, 1, now);
    }
  }

  lemma ReleaseKeeps(cfg: Config, s: System, k: nat, now: real)
    requires ValidConfig(cfg) && ValidSystem(cfg, s, now)
    ensures ValidSystem(cfg, Step(cfg, s, Release(k)), now)
  {
    var s' := Step(cfg, s, Release(k));
    if s' != s {
      var id := s.leases[k].bucket;
      SomeOutstanding(s.leases, k);
      ReleaseAccounted(cfg, s.table.entries, s.leases, k);
      HoldersRetain(s.table, s.leases, id, -1);
      AddHoldersKeeps(cfg, s.table, id, -1, now);
    }
  }

  lemma StepKeeps(cfg: Config, s: System, op: Op, now: real)
    requires ValidConfig(cfg) && ValidSystem(cfg, s, now) && Chronological([op], now)
    ensures ValidSystem(cfg, Step(cfg, s, op), After(op, now))
  {
    if op.Release? {
      ReleaseKeeps(cfg, s, op.lease, now);
    } else {
      LaterSystem(cfg, s, now, op.now);
      ConsumeKeepsSystem(cfg, s, op.key, op.now);
      var (t, a) := Consume(cfg, s.table, op.key, op.now);
      if op.Admit? && a.Consumed? {
        TryHoldKeeps(cfg, s.(table := t), op.now);
      }
    }
  }

  lemma LaterSystem(cfg: Config, s: System, now: real, later: real)
    requires ValidSystem(cfg, s, now) && now <= later
    ensures ValidSystem(cfg, s, later)
  {
    forall i | 0 <= i < |s.table.entries| ensures ValidEntry(cfg, s.table.entries[i], s.table.nextId, later) {
      assert ValidEntry(cfg, s.table.entries[i], s.table.nextId, now);
    }
  }

  /** In every run: the ceiling, the access order, the per-key cap, and no dropped holder. */
  lemma {:induction false} RunKeeps(cfg: Config, s: System, ops: seq<Op>, now: real) returns (end: real)
    requires ValidConfig(cfg) && ValidSystem(cfg, s, now) && Chronological(ops, now)
    ensures now <= end && ValidSystem(cfg, Run(cfg, s, ops), end)
    decreases |ops|
  {
    if ops == [] {
      end := now;
    } else {
      StepKeeps(cfg, s, ops[0], now);
      end := RunKeeps(cfg, Step(cfg, s, ops[0]), ops[1..], After(ops[0], now));
    }
  }

  // ----- eviction is invisible -------------------------------------------------

  /** One answered request of a run; requests refused for saturation are left out. */
  datatype Served = Served(key: string, now: real, consumed: bool)

  function Trace(cfg: Config, s: System, ops: seq<Op>): seq<Served>
    requires cfg.refillMs > 0.0
    decreases |ops|
  {
    if ops == [] then []
    else
      var rest := Trace(cfg, Step(cfg, s, ops[0]), ops[1..]);
      match ops[0]
      case Release(_) => rest
      case _ =>
        var a := Consume(cfg, s.table, ops[0].key, ops[0].now).1;
        if a.Saturated? then rest else [Served(ops[0].key, ops[0].now, a.Consumed?)] + rest
  }

  /** The reference: one bucket a key, full when first used, kept for ever. */
  datatype Bucket = Bucket(tokens: real, lastRefillMs: real)

  ghost function Unevicted(cfg: Config, buckets: map<string, Bucket>, key: string, now: real): real
    requires cfg.refillMs > 0.0
  {
    if key in buckets then Refilled(cfg, buckets[key].tokens, now - buckets[key].lastRefillMs) else cfg.burst
  }

  /** The reference's buckets after one more call. */
  ghost function Called(cfg: Config, buckets: map<string, Bucket>, key: string, now: real): map<string, Bucket>
    requires cfg.refillMs > 0.0
  {
    var level := Unevicted(cfg, buckets, key, now);
    buckets[key := Bucket(if level >= 1.0 then level - 1.0 else level, now)]
  }

  /** The answers the reference gives to the same requests. */
  ghost function Reference(cfg: Config, buckets: map<string, Bucket>, calls: seq<Served>): seq<bool>
    requires cfg.refillMs > 0.0
    decreases |calls|
  {
    if calls == [] then []
    else
      [Unevicted(cfg, buckets, calls[0].key, calls[0].now) >= 1.0] +
        Reference(cfg, Called(cfg, buckets, calls[0].key, calls[0].now), calls[1..])
  }

  ghost predicate SameAnswers(calls: seq<Served>, answers: seq<bool>) {
    |answers| == |calls| && forall i :: 0 <= i < |calls| ==> answers[i] == calls[i].consumed
  }

  lemma SameAnswersCons(call: Served, calls: seq<Served>, answer: bool, answers: seq<bool>)
    requires call.consumed == answer && SameAnswers(calls, answers)
    ensures SameAnswers([call] + calls, [answer] + answers)
  {
  }

  ghost predicate Agree(cfg: Config, t: Table, buckets: map<string, Bucket>, now: real)
    requires cfg.refillMs > 0.0
  {
    && (forall k, later: real :: now <= later ==> Level(cfg, t, k, later) == Unevicted(cfg, buckets, k, later))
    && (forall k :: k in buckets ==> buckets[k].tokens <= cfg.burst && buckets[k].lastRefillMs <= now)
  }

  /** Taking or releasing a slot moves no token. */
  lemma HoldersLeaveLevels(cfg: Config, t: Table, id: nat, delta: int, key: string, later: real)
    requires cfg.refillMs > 0.0
    ensures Level(cfg, t.(entries := AddHolders(t.entries, id, delta)), key, later) == Level(cfg, t, key, later)
  {
    HoldersLeaveLookups(t.entries, id, delta, key);
  }

  lemma {:induction false} HoldersLeaveLookups(es: seq<Entry>, id: nat, delta: int, key: string)
    ensures var before, after := Lookup(es, key), Lookup(AddHolders(es, id, delta), key);
            && (before.Some? <==> after.Some?)
            && (before.Some? ==>
                  && before.value.tokens == after.value.tokens
                  && before.value.lastRefillMs == after.value.lastRefillMs)
  {
    if es != [] && es[0].key != key {
      if es[0].id != id {
        HoldersLeaveLookups(es[1..], id, delta, key);
      }
    }
  }

  lemma StepLevels(cfg: Config, s: System, op: Op, key: string, later: real)
    requires cfg.refillMs > 0.0
    ensures Level(cfg, Step(cfg, s, op).table, key, later) ==
            match op
            case Release(_) => Level(cfg, s.table, key, later)
            case _ => Level(cfg, Consume(cfg, s.table, op.key, op.now).0, key, later)
  {
    match op
    case Request(_, _) =>
    case Admit(k, now) =>
      var (t, a) := Consume(cfg, s.table, k, now);
      if a.Consumed? {
        HoldersLeaveLevels(cfg, t, Handed(t).id, 1, key, later);
      }
    case Release(i) =>
      if i < |s.leases| {
        HoldersLeaveLevels(cfg, s.table, s.leases[i].bucket, -1, key, later);
      }
  }

  /** The reference after one more call agrees with the table after the same call. */
  lemma AgreeConsume(cfg: Config, t: Table, buckets: map<string, Bucket>, key: string, at: real, k: string, later: real)
    requires ValidConfig(cfg) && EvictsOnlyFull(cfg) && ValidTable(cfg, t, at) && at <= later
    requires Level(cfg, t, k, later) == Unevicted(cfg, buckets, k, later)
    requires Level(cfg, t, key, at) == Unevicted(cfg, buckets, key, at)
    ensures var (t', a) := Consume(cfg, t, key, at);
            && (!a.Saturated? ==> (a.Consumed? <==> Unevicted(cfg, buckets, key, at) >= 1.0))
            && Level(cfg, t', k, later)
               == Unevicted(cfg, if a.Saturated? then buckets else Called(cfg, buckets, key, at), k, later)
  {
    LevelStep(cfg, t, key, at, key, at);
    LevelStep(cfg, t, key, at, k, later);
    LevelLater(cfg, t, key, at, later);
  }

  lemma AgreeStep(cfg: Config, s: System, buckets: map<string, Bucket>, op: Op, now: real)
    requires ValidConfig(cfg) && EvictsOnlyFull(cfg) && ValidSystem(cfg, s, now) && Chronological([op], now)
    requires Agree(cfg, s.table, buckets, now) && !op.Release?
    ensures var a := Consume(cfg, s.table, op.key, op.now).1;
            && (!a.Saturated? ==> (a.Consumed? <==> Unevicted(cfg, buckets, op.key, op.now) >= 1.0))
            && Agree(cfg, Step(cfg, s, op).table,
                     if a.Saturated? then buckets else Called(cfg, buckets, op.key, op.now), op.now)
  {
    LaterSystem(cfg, s, now, op.now);
    LevelLater(cfg, s.table, op.key, op.now, op.now);
    var saturated := Consume(cfg, s.table, op.key, op.now).1.Saturated?;
    var buckets' := if saturated then buckets else Called(cfg, buckets, op.key, op.now);
    forall k, later: real | op.now <= later
      ensures Level(cfg, Step(cfg, s, op).table, k, later) == Unevicted(cfg, buckets', k, later)
    {
      StepLevels(cfg, s, op, k, later);
      AgreeConsume(cfg, s.table, buckets, op.key, op.now, k, later);
    }
    AgreeConsume(cfg, s.table, buckets, op.key, op.now, op.key, op.now);
  }

  lemma AgreeRelease(cfg: Config, s: System, buckets: map<string, Bucket>, op: Op, now: real)
    requires ValidConfig(cfg) && Agree(cfg, s.table, buckets, now) && op.Release?
    ensures Agree(cfg, Step(cfg, s, op).table, buckets, now)
  {
    forall k, later: real | now <= later
      ensures Level(cfg, Step(cfg, s, op).table, k, later) == Unevicted(cfg, buckets, k, later)
    {
      StepLevels(cfg, s, op, k, later);
    }
  }

  lemma {:induction false} AgreeRun(cfg: Config, s: System, buckets: map<string, Bucket>, ops: seq<Op>, now: real)
    requires ValidConfig(cfg) && EvictsOnlyFull(cfg) && ValidSystem(cfg, s, now) && Chronological(ops, now)
    requires Agree(cfg, s.table, buckets, now)
    ensures var calls := Trace(cfg, s, ops);
            SameAnswers(calls, Reference(cfg, buckets, calls))
    decreases |ops|
  {
    if ops != [] {
      var s', op := Step(cfg, s, ops[0]), ops[0];
      StepKeeps(cfg, s, op, now);
      if op.Release? {
        AgreeRelease(cfg, s, buckets, op, now);
        AgreeRun(cfg, s', buckets, ops[1..], now);
      } else {
        AgreeStep(cfg, s, buckets, op, now);
        if Consume(cfg, s.table, op.key, op.now).1.Saturated? {
          AgreeRun(cfg, s', buckets, ops[1..], op.now);
        } else {
          AgreeRun(cfg, s', Called(cfg, buckets, op.key, op.now), ops[1..], op.now);
          AgreeCall(cfg, buckets, op.key, op.now, Trace(cfg, s', ops[1..]));
        }
      }
    }
  }

  lemma AgreeCall(cfg: Config, buckets: map<string, Bucket>, key: string, now: real, rest: seq<Served>)
    requires cfg.refillMs > 0.0
    requires SameAnswers(rest, Reference(cfg, Called(cfg, buckets, key, now), rest))
    ensures var calls := [Served(key, now, Unevicted(cfg, buckets, key, now) >= 1.0)] + rest;
            SameAnswers(calls, Reference(cfg, buckets, calls))
  {
    var answer := Unevicted(cfg, buckets, key, now) >= 1.0;
    var calls := [Served(key, now, answer)] + rest;
    assert calls[1..] == rest;
    SameAnswersCons(calls[0], rest, answer, Reference(cfg, Called(cfg, buckets, key, now), rest));
  }

  /**
   * A table that evicts answers every run exactly as one that never evicts, once the calls
   * it refused for saturation are removed.
   */
  lemma EvictionInvisible(cfg: Config, ops: seq<Op>)
    requires ValidConfig(cfg) && EvictsOnlyFull(cfg) && Chronological(ops, 0.0)
    ensures var calls := Trace(cfg, INITIAL, ops);
            SameAnswers(calls, Reference(cfg, map[], calls))
  {
    AgreeRun(cfg, INITIAL, map[], ops, 0.0);
  }

  // ----- the rate bound --------------------------------------------------------

  /** Tokens `key` spent in the closed time window. */
  function Spent(calls: seq<Served>, key: string, from: real, to: real): nat {
    if calls == [] then 0
    else
      var one := if calls[0].key == key && calls[0].consumed && from <= calls[0].now <= to then 1 else 0;
      one + Spent(calls[1..], key, from, to)
  }

  /** What `key` can still spend in the window, as seen at `now`. */
  ghost function Budget(cfg: Config, t: Table, key: string, now: real, from: real, to: real): real
    requires cfg.refillMs > 0.0
  {
    if to < now then 0.0
    else if now < from then cfg.burst + (to - from) / cfg.refillMs
    else Level(cfg, t, key, now) + (to - now) / cfg.refillMs
  }

  lemma BudgetFalls(cfg: Config, t: Table, key: string, now: real, later: real, from: real, to: real)
    requires ValidConfig(cfg) && ValidTable(cfg, t, now) && now <= later && from <= to
    ensures Budget(cfg, t, key, later, from, to) <= Budget(cfg, t, key, now, from, to)
  {
    LevelLater(cfg, t, key, now, later);
    assert (later - now) / cfg.refillMs >= 0.0;
    assert to >= now ==> (to - now) / cfg.refillMs >= 0.0;
    assert (to - from) / cfg.refillMs >= 0.0;
    if later <= to {
      assert (to - now) / cfg.refillMs == (to - later) / cfg.refillMs + (later - now) / cfg.refillMs;
      assert now < from <= later ==> (to - later) / cfg.refillMs <= (to - from) / cfg.refillMs;
    }
    var e := Lookup(t.entries, key);
    LookupIs(t.entries, key);
  }

  lemma {:induction false} SpentWithinBudget(cfg: Config, s: System, ops: seq<Op>, now: real, key: string,
                                             from: real, to: real)
    requires ValidConfig(cfg) && EvictsOnlyFull(cfg) && ValidSystem(cfg, s, now) && Chronological(ops, now)
    requires from <= to
    ensures Spent(Trace(cfg, s, ops), key, from, to) as real <= Budget(cfg, s.table, key, now, from, to)
    decreases |ops|
  {
    LevelLater(cfg, s.table, key, now, now);
    if ops == [] {
      assert now <= to ==> (to - now) / cfg.refillMs >= 0.0;
      assert (to - from) / cfg.refillMs >= 0.0;
    } else {
      var op, s' := ops[0], Step(cfg, s, ops[0]);
      var now' := After(op, now);
      StepKeeps(cfg, s, op, now);
      SpentWithinBudget(cfg, s', ops[1..], now', key, from, to);
      StepLevels(cfg, s, op, key, now');
      match op
      case Release(_) =>
      case _ =>
        LaterSystem(cfg, s, now, now');
        BudgetFalls(cfg, s.table, key, now, now', from, to);
        LevelStep(cfg, s.table, op.key, now', key, now');
        LevelLater(cfg, s.table, key, now', now');
        var calls := Trace(cfg, s, ops);
        var rest := Trace(cfg, s', ops[1..]);
        assert !Consume(cfg, s.table, op.key, op.now).1.Saturated? ==> calls[1..] == rest;
    }
  }

  /** The promise of a token bucket: over any window, at most a burst plus what the window refills. */
  ghost predicate RateBounded(cfg: Config)
    requires cfg.refillMs > 0.0
  {
    forall ops: seq<Op>, key: string, from: real, to: real ::
      Chronological(ops, 0.0) && from <= to ==>
        Spent(Trace(cfg, INITIAL, ops), key, from, to) as real <= cfg.burst + (to - from) / cfg.refillMs
  }

  lemma RateBoundHolds(cfg: Config)
    requires ValidConfig(cfg) && EvictsOnlyFull(cfg)
    ensures RateBounded(cfg)
  {
    forall ops: seq<Op>, key: string, from: real, to: real | Chronological(ops, 0.0) && from <= to
      ensures Spent(Trace(cfg, INITIAL, ops), key, from, to) as real <= cfg.burst + (to - from) / cfg.refillMs
    {
      SpentWithinBudget(cfg, INITIAL, ops, 0.0, key, from, to);
      assert (to - from) / cfg.refillMs >= 0.0;
      if from <= 0.0 <= to {
        assert (to - 0.0) / cfg.refillMs <= (to - from) / cfg.refillMs;
      }
    }
  }

  // ----- and only then ---------------------------------------------------------

  function Repeated(key: string, now: real, n: nat): seq<Op> {
    if n == 0 then [] else [Request(key, now)] + Repeated(key, now, n - 1)
  }

  /** At most one bucket is retained, it is the unheld one for `key`, last used at `seen`. */
  ghost predicate Lone(t: Table, key: string, seen: real) {
    && |t.entries| <= 1
    && (forall i :: 0 <= i < |t.entries| ==>
          var e := t.entries[i];
          e.key == key && e.holders == 0 && e.lastSeenMs == e.lastRefillMs == seen && 0.0 <= e.tokens)
  }

  /** And it has at least `x` tokens to spend at `now`. */
  ghost predicate CanSpend(cfg: Config, t: Table, key: string, now: real, x: real)
    requires cfg.refillMs > 0.0
  {
    Touched(cfg, Selected(cfg, t, key, now), now).tokens >= x
  }

  lemma SpendOne(cfg: Config, t: Table, key: string, seen: real, now: real, x: real)
    requires ValidConfig(cfg) && cfg.maxKeys >= 1 && cfg.burst >= x >= 1.0
    requires Lone(t, key, seen) && seen <= now && CanSpend(cfg, t, key, now, x)
    ensures var (t', a) := Consume(cfg, t, key, now);
            a.Consumed? && Lone(t', key, now) && CanSpend(cfg, t', key, now, x - 1.0)
  {
    var es, sel := EvictIdle(cfg, t.entries, now), Selected(cfg, t, key, now);
    if |t.entries| == 1 {
      assert t.entries[1..] == [] && EvictIdle(cfg, t.entries[1..], now) == [];
      assert es != [] ==> es == [t.entries[0]] && es[1..] == [];
    }
    assert Without(es, key) == [];
    var b := Touched(cfg, sel, now);
    b := b.(tokens := b.tokens - 1.0);
    var t' := Consume(cfg, t, key, now).0;
    assert t'.entries == [b] && t'.entries[1..] == [];
    assert b.lastRefillMs == now && b.holders == 0 && b.key == key;
    assert (now - now) / cfg.refillMs == 0.0;
  }

  /** After a wait there is at least what the wait refills, whether or not the bucket was evicted meanwhile. */
  lemma Waited(cfg: Config, t: Table, key: string, seen: real, x: real, wait: real, y: real)
    requires ValidConfig(cfg) && Lone(t, key, seen) && CanSpend(cfg, t, key, seen, x)
    requires wait >= 0.0 && y <= cfg.burst && y <= x + wait / cfg.refillMs
    ensures CanSpend(cfg, t, key, seen + wait, y)
  {
    assert seen + wait - seen == wait && wait / cfg.refillMs >= 0.0;
    if |t.entries| == 1 {
      LoneLookup(cfg, t, key, seen, seen);
      LoneLookup(cfg, t, key, seen, seen + wait);
    }
  }

  lemma LoneLookup(cfg: Config, t: Table, key: string, seen: real, now: real)
    requires Lone(t, key, seen) && |t.entries| == 1
    ensures Lookup(EvictIdle(cfg, t.entries, now), key)
         == if now - seen >= cfg.idleEvictionMs then None else Some(t.entries[0])
  {
    assert t.entries[1..] == [] && EvictIdle(cfg, t.entries[1..], now) == [];
    assert [t.entries[0]] + [] == [t.entries[0]];
  }

  /** `n` of the tokens the second trace does not show were spent at `now`. */
  ghost predicate SpentMore(calls: seq<Served>, n: nat, rest: seq<Served>, key: string, now: real) {
    forall from: real, to: real :: from <= now <= to ==> Spent(calls, key, from, to) == n + Spent(rest, key, from, to)
  }

  lemma SpentMoreCons(calls: seq<Served>, n: nat, rest: seq<Served>, key: string, now: real)
    requires SpentMore(calls, n, rest, key, now)
    ensures SpentMore([Served(key, now, true)] + calls, n + 1, rest, key, now)
  {
    assert ([Served(key, now, true)] + calls)[1..] == calls;
  }

  lemma {:induction false} SpendAll(cfg: Config, s: System, key: string, seen: real, now: real,
                                    m: nat, x: real, tail: seq<Op>)
    returns (s': System)
    requires ValidConfig(cfg) && cfg.maxKeys >= 1 && cfg.burst >= x >= m as real
    requires Lone(s.table, key, seen) && seen <= now && CanSpend(cfg, s.table, key, now, x)
    ensures Lone(s'.table, key, if m == 0 then seen else now) && CanSpend(cfg, s'.table, key, now, x - m as real)
    ensures SpentMore(Trace(cfg, s, Repeated(key, now, m) + tail), m, Trace(cfg, s', tail), key, now)
    decreases m
  {
    if m == 0 {
      s' := s;
      assert Repeated(key, now, m) + tail == tail;
    } else {
      var ops, rest := Repeated(key, now, m) + tail, Repeated(key, now, m - 1) + tail;
      assert ops[0] == Request(key, now) && ops[1..] == rest;
      SpendOne(cfg, s.table, key, seen, now, x);
      var s1 := Step(cfg, s, ops[0]);
      s' := SpendAll(cfg, s1, key, now, now, m - 1, x - 1.0, tail);
      SpentMoreCons(Trace(cfg, s1, rest), m - 1, Trace(cfg, s', tail), key, now);
    }
  }

  /** The partner of the bound: on an empty table a key is granted as many requests at once as its burst holds. */
  lemma BurstIsGranted(cfg: Config, s: System, key: string, now: real, n: nat)
    requires ValidConfig(cfg) && cfg.maxKeys >= 1 && s.table.entries == [] && n as real <= cfg.burst
    ensures Spent(Trace(cfg, s, Repeated(key, now, n)), key, now, now) == n
  {
    assert CanSpend(cfg, s.table, key, now, cfg.burst);
    var s' := SpendAll(cfg, s, key, now, now, n, cfg.burst, []);
    assert Repeated(key, now, n) + [] == Repeated(key, now, n);
  }

  lemma SpendNext(cfg: Config, s: System, key: string, seen: real, now: real, tail: seq<Op>) returns (s': System)
    requires ValidConfig(cfg) && cfg.maxKeys >= 1 && cfg.burst >= 1.0
    requires Lone(s.table, key, seen) && seen <= now && CanSpend(cfg, s.table, key, now, 1.0)
    ensures Lone(s'.table, key, now)
    ensures SpentMore(Trace(cfg, s, [Request(key, now)] + tail), 1, Trace(cfg, s', tail), key, now)
  {
    var ops := [Request(key, now)] + tail;
    assert ops[0] == Request(key, now) && ops[1..] == tail;
    SpendOne(cfg, s.table, key, seen, now, 1.0);
    s' := Step(cfg, s, ops[0]);
    SpentMoreCons(Trace(cfg, s', tail), 0, Trace(cfg, s', tail), key, now);
  }

  /** The burst is `m` whole tokens and the fraction `f`, and `wait` refills what `f` is short of a token. */
  ghost predicate Splits(cfg: Config, m: nat, f: real, wait: real) {
    && ValidConfig(cfg) && cfg.maxKeys >= 1
    && m >= 1 && 0.0 <= f < 1.0 && cfg.burst == m as real + f
    && wait >= 0.0 && wait / cfg.refillMs == 1.0 - f
  }

  /** A whole burst at once, and one token more as soon as it is there. */
  function Round(key: string, now: real, m: nat, wait: real, tail: seq<Op>): seq<Op> {
    Repeated(key, now, m) + ([Request(key, now + wait)] + tail)
  }

  /** `n` of the tokens the second trace does not show were spent between `first` and `last`. */
  ghost predicate SpentBetween(calls: seq<Served>, n: nat, rest: seq<Served>, key: string, first: real, last: real) {
    forall from: real, to: real :: from <= first && last <= to ==>
      Spent(calls, key, from, to) == n + Spent(rest, key, from, to)
  }

  lemma SpentTwice(calls: seq<Served>, m: nat, middle: seq<Served>, n: nat, rest: seq<Served>, key: string,
                   first: real, last: real)
    requires first <= last && SpentMore(calls, m, middle, key, first) && SpentMore(middle, n, rest, key, last)
    ensures SpentBetween(calls, m + n, rest, key, first, last)
  {
  }

  lemma SpendRound(cfg: Config, s: System, key: string, seen: real, now: real, m: nat, f: real, wait: real,
                   tail: seq<Op>)
    returns (s': System)
    requires Splits(cfg, m, f, wait)
    requires Lone(s.table, key, seen) && seen <= now && CanSpend(cfg, s.table, key, now, cfg.burst)
    ensures Lone(s'.table, key, now + wait)
    ensures SpentBetween(Trace(cfg, s, Round(key, now, m, wait, tail)), m + 1, Trace(cfg, s', tail),
                         key, now, now + wait)
  {
    var after := [Request(key, now + wait)] + tail;
    var s1 := SpendAll(cfg, s, key, seen, now, m, cfg.burst, after);
    Waited(cfg, s1.table, key, now, f, wait, 1.0);
    s' := SpendNext(cfg, s1, key, now, now + wait, tail);
    SpentTwice(Trace(cfg, s, Round(key, now, m, wait, tail)), m, Trace(cfg, s1, after), 1, Trace(cfg, s', tail),
               key, now, now + wait);
  }

  lemma {:induction false} RepeatedChronological(key: string, at: real, n: nat, tail: seq<Op>, now: real)
    requires now <= at && Chronological(tail, at) && (n > 0 || Chronological(tail, now))
    ensures Chronological(Repeated(key, at, n) + tail, now)
  {
    var ops := Repeated(key, at, n) + tail;
    if n == 0 {
      assert ops == tail;
    } else {
      RepeatedChronological(key, at, n - 1, tail, at);
      assert ops[0] == Request(key, at) && ops[1..] == Repeated(key, at, n - 1) + tail;
    }
  }

  lemma RoundChronological(key: string, at: real, m: nat, wait: real, tail: seq<Op>, now: real)
    requires now <= at && m >= 1 && wait >= 0.0 && Chronological(tail, at + wait)
    ensures Chronological(Round(key, at, m, wait, tail), now)
  {
    var after := [Request(key, at + wait)] + tail;
    assert after[0] == Request(key, at + wait) && after[1..] == tail;
    RepeatedChronological(key, at, m, after, now);
  }

  /** Two rounds, the timeout between them. */
  function TwoRounds(cfg: Config, key: string, m: nat, wait: real): seq<Op> {
    Round(key, 0.0, m, wait, Round(key, wait + cfg.idleEvictionMs, m, wait, []))
  }

  lemma TwoRoundsChronological(cfg: Config, key: string, m: nat, f: real, wait: real)
    requires Splits(cfg, m, f, wait)
    ensures Chronological(TwoRounds(cfg, key, m, wait), 0.0)
  {
    var again := wait + cfg.idleEvictionMs;
    RoundChronological(key, again, m, wait, [], wait);
    RoundChronological(key, 0.0, m, wait, Round(key, again, m, wait, []), 0.0);
  }

  lemma TwoRoundsSpend(cfg: Config, s: System, key: string, m: nat, f: real, wait: real)
    requires Splits(cfg, m, f, wait) && s.table.entries == []
    ensures Spent(Trace(cfg, s, TwoRounds(cfg, key, m, wait)), key, 0.0, wait + cfg.idleEvictionMs + wait) == m + m + 2
  {
    var again := wait + cfg.idleEvictionMs;
    var s1 := SpendRound(cfg, s, key, 0.0, 0.0, m, f, wait, Round(key, again, m, wait, []));
    AllEvicted(cfg, s1.table, key, wait, again);
    var s2 := SpendRound(cfg, s1, key, wait, again, m, f, wait, []);
    assert Spent(Trace(cfg, s1, Round(key, again, m, wait, [])), key, 0.0, again + wait) == m + 1;
  }

  /** What two rounds take in refill time, and why that is too little for what they spend. */
  lemma TwoRoundsAreTooFast(cfg: Config, m: nat, f: real, wait: real)
    requires Splits(cfg, m, f, wait) && !EvictsOnlyFull(cfg)
    ensures (m + m + 2) as real > cfg.burst + (wait + cfg.idleEvictionMs + wait) / cfg.refillMs
  {
    var r := cfg.refillMs;
    assert (wait + cfg.idleEvictionMs + wait) / r == wait / r + cfg.idleEvictionMs / r + wait / r;
    assert cfg.idleEvictionMs / r < cfg.burst;
  }

  lemma BurstSplits(cfg: Config) returns (m: nat, f: real, wait: real)
    requires ValidConfig(cfg) && cfg.maxKeys >= 1 && cfg.burst >= 1.0
    ensures Splits(cfg, m, f, wait)
  {
    m, f := WholeAndFraction(cfg.burst);
    wait := Multiple(1.0 - f, cfg.refillMs);
  }

  lemma WholeAndFraction(x: real) returns (m: nat, f: real)
    requires x >= 1.0
    ensures m >= 1 && 0.0 <= f < 1.0 && x == m as real + f
  {
    m := x.Floor;
    f := x - m as real;
  }

  lemma Multiple(x: real, r: real) returns (y: real)
    requires x >= 0.0 && r > 0.0
    ensures y >= 0.0 && y / r == x
  {
    y := x * r;
  }

  /** A timeout shorter than the refill time hands a key a second burst early. */
  lemma EarlyEvictionBreaksTheBound(cfg: Config) returns (ops: seq<Op>, to: real)
    requires ValidConfig(cfg) && cfg.maxKeys >= 1 && cfg.burst >= 1.0
    requires !EvictsOnlyFull(cfg)
    ensures Chronological(ops, 0.0) && to >= 0.0
    ensures Spent(Trace(cfg, INITIAL, ops), "k", 0.0, to) as real > cfg.burst + (to - 0.0) / cfg.refillMs
  {
    var m, f, wait := BurstSplits(cfg);
    ops, to := TwoRounds(cfg, "k", m, wait), wait + cfg.idleEvictionMs + wait;
    TwoRoundsChronological(cfg, "k", m, f, wait);
    TwoRoundsSpend(cfg, INITIAL, "k", m, f, wait);
    TwoRoundsAreTooFast(cfg, m, f, wait);
  }

  /** A lone bucket idle for the timeout is gone, so the next request finds a full one. */
  lemma AllEvicted(cfg: Config, t: Table, key: string, seen: real, now: real)
    requires ValidConfig(cfg) && Lone(t, key, seen) && now - seen >= cfg.idleEvictionMs
    ensures Touched(cfg, Selected(cfg, t, key, now), now).tokens == cfg.burst
  {
    assert |t.entries| == 1 ==> t.entries[1..] == [];
    assert EvictIdle(cfg, t.entries, now) == [];
  }

  /** Such a table never lets a request through. */
  ghost predicate Closed(cfg: Config) {
    cfg.maxKeys == 0 || cfg.burst < 1.0
  }

  lemma ClosedConsumesNothing(cfg: Config, t: Table, key: string, now: real)
    requires ValidConfig(cfg) && Closed(cfg) && ValidTable(cfg, t, now)
    ensures !Consume(cfg, t, key, now).1.Consumed?
  {
    EvictKeeps(cfg, t.entries, t.nextId, now);
    if !Consume(cfg, t, key, now).1.Saturated? {
      SelectedIs(cfg, t, key, now);
      var found := Lookup(EvictIdle(cfg, t.entries, now), key).Some?;
      TouchedIs(cfg, Selected(cfg, t, key, now), if found then t.nextId else t.nextId + 1, now);
    }
  }

  lemma {:induction false} ClosedSpendsNothing(cfg: Config, s: System, ops: seq<Op>, now: real,
                                               key: string, from: real, to: real)
    requires ValidConfig(cfg) && Closed(cfg) && ValidSystem(cfg, s, now) && Chronological(ops, now)
    ensures Spent(Trace(cfg, s, ops), key, from, to) == 0
    decreases |ops|
  {
    if ops != [] {
      var s', now' := Step(cfg, s, ops[0]), After(ops[0], now);
      StepKeeps(cfg, s, ops[0], now);
      ClosedSpendsNothing(cfg, s', ops[1..], now', key, from, to);
      if !ops[0].Release? {
        LaterSystem(cfg, s, now, now');
        ClosedConsumesNothing(cfg, s.table, ops[0].key, now');
        var (calls, rest) := (Trace(cfg, s, ops), Trace(cfg, s', ops[1..]));
        assert !Consume(cfg, s.table, ops[0].key, now').1.Saturated? ==> calls[1..] == rest;
      }
    }
  }

  lemma ClosedIsRateBounded(cfg: Config)
    requires ValidConfig(cfg) && Closed(cfg)
    ensures RateBounded(cfg)
  {
    forall ops: seq<Op>, key: string, from: real, to: real | Chronological(ops, 0.0) && from <= to
      ensures Spent(Trace(cfg, INITIAL, ops), key, from, to) as real <= cfg.burst + (to - from) / cfg.refillMs
    {
      ClosedSpendsNothing(cfg, INITIAL, ops, 0.0, key, from, to);
      assert (to - from) / cfg.refillMs >= 0.0;
    }
  }

  /** The rate bound holds in every run exactly when only full buckets are evicted, or no request can get through. */
  lemma RateBoundedExactly(cfg: Config)
    requires ValidConfig(cfg)
    ensures RateBounded(cfg) <==> EvictsOnlyFull(cfg) || Closed(cfg)
  {
    if EvictsOnlyFull(cfg) {
      RateBoundHolds(cfg);
    } else if Closed(cfg) {
      ClosedIsRateBounded(cfg);
    } else {
      var ops, to := EarlyEvictionBreaksTheBound(cfg);
    }
  }

  /** The three frozen layers meet the condition. */
  lemma FrozenLayersAreRateBounded()
    ensures RateBounded(LAYER_A) && RateBounded(LAYER_B) && RateBounded(LAYER_C)
  {
    RateBoundHolds(LAYER_A);
    RateBoundHolds(LAYER_B);
    RateBoundHolds(LAYER_C);
  }
}

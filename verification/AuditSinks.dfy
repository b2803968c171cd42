/**
 * The two lifecycle-evidence sinks as state machines over their asynchronous steps.
 *
 * Emitters, drains, the durable chain and flushing callers interleave at every `await`.
 * An accepted event is named by its place in the order of acceptance, so the queue is the
 * events from `shifted` up to `accepted`, and the chain is the list of events it holds records of.
 */
module AuditSinks {
  const MAX_PENDING := 4096

  /** The gateway sink drains on every emission; the approval sink drains on every flush. */
  datatype Kind = Gateway | Approval

  /** Where a drain was scheduled: what had been accepted by then, and whether anything had been dropped. */
  datatype Mark = Mark(accepted: nat, overflowed: bool)

  /** A caller waiting in `flush()`: how many drains it waits for, and where it called. */
  datatype Flush = Flush(drains: nat, mark: Mark)

  datatype Sink = Sink(
    accepted: nat,
    shifted: nat,
    overflowed: bool,
    writeFailed: bool,
    scheduled: seq<Mark>,   // the drains chained one after the other so far
    results: seq<bool>,     // how those that are over ended
    writing: bool,          // the next of them is awaiting the write of the head of the queue
    chain: seq<nat>,
    landed: nat,            // writes that were rejected although their record is in the chain
    flushes: seq<Flush>)

  const EMPTY := Sink(0, 0, false, false, [], [], false, [], 0, [])

  /** A durable append can be rejected after its record was stored, when the checkpoint behind it fails. */
  datatype Write = Stored | Rejected(landed: bool)

  datatype Op =
    | Emit              // an event of a known type
    | EmitUnknown       // an event outside the closed catalogue
    | Begin             // the next scheduled drain starts, all before it being over
    | Settle(write: Write)
    | FlushCall

  // ----- the steps -------------------------------------------------------------

  function Schedule(s: Sink): Sink {
    s.(scheduled := s.scheduled + [Mark(s.accepted, s.overflowed)])
  }

  function Accept(k: Kind, s: Sink): Sink {
    if s.accepted - s.shifted >= MAX_PENDING then s.(overflowed := true)
    else
      var s' := s.(accepted := s.accepted + 1);
      if k.Gateway? then Schedule(s') else s'
  }

  /** The drain loop up to its next `await`: write the head, or end with an empty queue. */
  function Advance(k: Kind, s: Sink): Sink {
    if s.shifted < s.accepted then s.(writing := true)
    else s.(writing := false, results := s.results + [k.Gateway? || !s.overflowed])
  }

  /** The head has been stored and leaves the queue. */
  function Shift(s: Sink): Sink {
    s.(chain := s.chain + [s.shifted], shifted := s.shifted + 1, writing := false)
  }

  function Settled(k: Kind, s: Sink, w: Write): Sink {
    match w
    case Stored => Advance(k, Shift(s))
    case Rejected(landed) =>
      s.(writing := false,
         results := s.results + [false],
         writeFailed := s.writeFailed || k.Gateway?,
         chain := if landed then s.chain + [s.shifted] else s.chain,
         landed := if landed then s.landed + 1 else s.landed)
  }

  function CallFlush(k: Kind, s: Sink): Sink {
    var s' := if k.Approval? then Schedule(s) else s;
    s'.(flushes := s'.flushes + [Flush(|s'.scheduled|, Mark(s.accepted, s.overflowed))])
  }

  function Step(k: Kind, s: Sink, op: Op): Sink {
    match op
    case Emit => Accept(k, s)
    case EmitUnknown => if k.Gateway? then s else Accept(k, s)
    case Begin => if !s.writing && |s.results| < |s.scheduled| then Advance(k, s) else s
    case Settle(w) => if s.writing && s.shifted < s.accepted then Settled(k, s, w) else s
    case FlushCall => CallFlush(k, s)
  }

  function Run(k: Kind, s: Sink, ops: seq<Op>): Sink
    decreases |ops|
  {
    if ops == [] then s else Run(k, Step(k, s, ops[0]), ops[1..])
  }

  /** A flush can return once its drains are over. */
  predicate CanReturn(s: Sink, f: Flush) {
    f.drains <= |s.results|
  }

  /** Whether `flush()` resolves, rather than throws, when it returns in this state. */
  predicate Resolves(k: Kind, s: Sink, f: Flush)
    requires CanReturn(s, f)
  {
    && (f.drains > 0 ==> s.results[f.drains - 1])
    && (k.Gateway? ==> !s.writeFailed && !s.overflowed)
  }

  // ----- what every step keeps -------------------------------------------------

  /** Events in the order of acceptance, each followed by itself again or by the next. */
  ghost predicate Staircase(chain: seq<nat>, shifted: nat) {
    && (chain != [] ==> chain[0] == 0 && shifted <= chain[|chain| - 1] + 1 && chain[|chain| - 1] <= shifted)
    && (chain == [] ==> shifted == 0)
    && (forall i, j :: 0 <= i < j < |chain| && j == i + 1 ==> chain[i] <= chain[j] <= chain[i] + 1)
  }

  ghost predicate ScheduledSoFar(k: Kind, scheduled: seq<Mark>, accepted: nat, overflowed: bool) {
    && (forall d :: 0 <= d < |scheduled| ==>
          scheduled[d].accepted <= accepted && (scheduled[d].overflowed ==> overflowed))
    && (k.Gateway? ==> |scheduled| == accepted && (accepted > 0 ==> scheduled[accepted - 1].accepted == accepted))
  }

  /** A drain that ended well left nothing accepted before it was scheduled, nor, for approvals, anything dropped. */
  ghost predicate DrainsKept(k: Kind, scheduled: seq<Mark>, results: seq<bool>, shifted: nat) {
    && |results| <= |scheduled|
    && forall d :: 0 <= d < |results| && results[d] ==>
         scheduled[d].accepted <= shifted && (k.Approval? ==> !scheduled[d].overflowed)
  }

  ghost predicate FlushKept(k: Kind, f: Flush, scheduled: seq<Mark>) {
    && f.drains <= |scheduled|
    && (if f.drains == 0 then k.Gateway? && f.mark.accepted == 0
        else
          && f.mark.accepted <= scheduled[f.drains - 1].accepted
          && (k.Approval? ==> f.mark == scheduled[f.drains - 1]))
  }

  ghost predicate FlushesKept(k: Kind, flushes: seq<Flush>, scheduled: seq<Mark>, overflowed: bool) {
    forall i :: 0 <= i < |flushes| ==>
      FlushKept(k, flushes[i], scheduled) && (flushes[i].mark.overflowed ==> overflowed)
  }

  ghost predicate Valid(k: Kind, s: Sink) {
    && s.shifted <= s.accepted <= s.shifted + MAX_PENDING
    && (s.writing ==> |s.results| < |s.scheduled| && s.shifted < s.accepted)
    && ScheduledSoFar(k, s.scheduled, s.accepted, s.overflowed)
    && DrainsKept(k, s.scheduled, s.results, s.shifted)
    && FlushesKept(k, s.flushes, s.scheduled, s.overflowed)
    && (k.Gateway? ==> (s.writeFailed <==> false in s.results))
    && Staircase(s.chain, s.shifted) && |s.chain| == s.shifted + s.landed
  }

  /** Scheduling one more drain disturbs neither the drains nor the flushes before it. */
  lemma ScheduleKeeps(k: Kind, s: Sink, mark: Mark)
    requires DrainsKept(k, s.scheduled, s.results, s.shifted) && FlushesKept(k, s.flushes, s.scheduled, s.overflowed)
    ensures DrainsKept(k, s.scheduled + [mark], s.results, s.shifted)
    ensures FlushesKept(k, s.flushes, s.scheduled + [mark], s.overflowed)
  {
    forall i | 0 <= i < |s.flushes| ensures FlushKept(k, s.flushes[i], s.scheduled + [mark]) {
      assert FlushKept(k, s.flushes[i], s.scheduled);
    }
  }

  lemma AcceptKeeps(k: Kind, s: Sink)
    requires Valid(k, s)
    ensures Valid(k, Accept(k, s))
  {
    if s.accepted - s.shifted < MAX_PENDING {
      ScheduleKeeps(k, s, Mark(s.accepted + 1, s.overflowed));
      ScheduledMore(k, s.scheduled, s.accepted, s.overflowed);
    }
  }

  lemma ScheduledMore(k: Kind, scheduled: seq<Mark>, accepted: nat, overflowed: bool)
    requires ScheduledSoFar(k, scheduled, accepted, overflowed)
    ensures k.Gateway? ==> ScheduledSoFar(k, scheduled + [Mark(accepted + 1, overflowed)], accepted + 1, overflowed)
    ensures k.Approval? ==> ScheduledSoFar(k, scheduled, accepted + 1, overflowed)
    ensures k.Approval? ==> ScheduledSoFar(k, scheduled + [Mark(accepted, overflowed)], accepted, overflowed)
  {
  }

  /** A drain ends well only on an empty queue. */
  lemma DrainEnds(k: Kind, s: Sink, ok: bool)
    requires |s.results| < |s.scheduled| && ScheduledSoFar(k, s.scheduled, s.accepted, s.overflowed)
    requires DrainsKept(k, s.scheduled, s.results, s.shifted)
    requires ok ==> s.accepted == s.shifted && (k.Approval? ==> !s.overflowed)
    ensures DrainsKept(k, s.scheduled, s.results + [ok], s.shifted)
    ensures false in s.results + [ok] <==> false in s.results || !ok
  {
  }

  lemma AdvanceKeeps(k: Kind, s: Sink)
    requires Valid(k, s) && !s.writing && |s.results| < |s.scheduled|
    ensures Valid(k, Advance(k, s))
  {
    if s.shifted == s.accepted {
      DrainEnds(k, s, k.Gateway? || !s.overflowed);
    }
  }

  lemma StairUp(chain: seq<nat>, shifted: nat)
    requires Staircase(chain, shifted)
    ensures Staircase(chain + [shifted], shifted) && Staircase(chain + [shifted], shifted + 1)
  {
  }

  lemma StoredKeeps(k: Kind, s: Sink)
    requires Valid(k, s) && s.writing
    ensures Valid(k, Settled(k, s, Stored))
  {
    ShiftKeeps(k, s);
    AdvanceKeeps(k, Shift(s));
  }

  lemma ShiftKeeps(k: Kind, s: Sink)
    requires Valid(k, s) && s.writing
    ensures Valid(k, Shift(s))
  {
    StairUp(s.chain, s.shifted);
  }

  lemma RejectedKeeps(k: Kind, s: Sink, landed: bool)
    requires Valid(k, s) && s.writing
    ensures Valid(k, Settled(k, s, Rejected(landed)))
  {
    StairUp(s.chain, s.shifted);
    DrainEnds(k, s, false);
  }

  lemma CallFlushKeeps(k: Kind, s: Sink)
    requires Valid(k, s)
    ensures Valid(k, CallFlush(k, s))
  {
    ScheduleKeeps(k, s, Mark(s.accepted, s.overflowed));
    ScheduledMore(k, s.scheduled, s.accepted, s.overflowed);
  }

  lemma StepKeeps(k: Kind, s: Sink, op: Op)
    requires Valid(k, s)
    ensures Valid(k, Step(k, s, op))
  {
    match op
    case Emit => AcceptKeeps(k, s);
    case EmitUnknown => AcceptKeeps(k, s);
    case Begin => if !s.writing && |s.results| < |s.scheduled| { AdvanceKeeps(k, s); }
    case Settle(w) =>
      if s.writing {
        match w
        case Stored => StoredKeeps(k, s);
        case Rejected(landed) => RejectedKeeps(k, s, landed);
      }
    case FlushCall => CallFlushKeeps(k, s);
  }

  lemma {:induction false} RunKeeps(k: Kind, s: Sink, ops: seq<Op>)
    requires Valid(k, s)
    ensures Valid(k, Run(k, s, ops))
    decreases |ops|
  {
    if ops != [] {
      StepKeeps(k, s, ops[0]);
      RunKeeps(k, Step(k, s, ops[0]), ops[1..]);
    }
  }

  /** What time only adds to. */
  ghost predicate Grown(s: Sink, s': Sink) {
    && s.accepted <= s'.accepted && s.shifted <= s'.shifted && (s.overflowed ==> s'.overflowed)
    && s.chain <= s'.chain && s.results <= s'.results && s.flushes <= s'.flushes
  }

  lemma StepGrows(k: Kind, s: Sink, op: Op)
    ensures Grown(s, Step(k, s, op))
  {
  }

  /** Nothing recorded is ever taken back: records, answers, latches and positions only grow. */
  lemma {:induction false} RunGrows(k: Kind, s: Sink, ops: seq<Op>)
    ensures Grown(s, Run(k, s, ops))
    decreases |ops|
  {
    if ops != [] {
      StepGrows(k, s, ops[0]);
      RunGrows(k, Step(k, s, ops[0]), ops[1..]);
    }
  }

  // ----- what the chain holds --------------------------------------------------

  /** A staircase skips nothing below its top. */
  lemma {:induction false} StaircaseHolds(chain: seq<nat>, shifted: nat, n: nat, i: nat)
    requires Staircase(chain, shifted) && i < |chain| && n <= chain[i]
    ensures n in chain
    decreases i
  {
    if n < chain[i] && i > 0 {
      StaircaseHolds(chain, shifted, n, i - 1);
    }
  }

  /** Every event that left the queue has a record in the chain. */
  lemma ShiftedIsCommitted(k: Kind, s: Sink, n: nat)
    requires Valid(k, s) && n < s.shifted
    ensures n in s.chain
  {
    StaircaseHolds(s.chain, s.shifted, n, |s.chain| - 1);
  }

  lemma {:induction false} StaircaseRises(chain: seq<nat>, shifted: nat, i: nat, j: nat)
    requires Staircase(chain, shifted) && i <= j < |chain|
    ensures chain[i] <= chain[j] <= chain[i] + (j - i)
    decreases j - i
  {
    if i < j {
      StaircaseRises(chain, shifted, i, j - 1);
    }
  }

  /** Records stand in the order of acceptance, and an event is never recorded before the one accepted before it. */
  lemma InOrder(k: Kind, s: Sink, i: nat, j: nat)
    requires Valid(k, s) && i < j < |s.chain|
    ensures s.chain[i] <= s.chain[j]
    ensures s.chain[j] > 0 ==> s.chain[j] - 1 in s.chain[..j]
  {
    StaircaseRises(s.chain, s.shifted, i, j);
    if s.chain[j] > 0 {
      FirstBelow(s.chain, s.shifted, j);
    }
  }

  lemma {:induction false} FirstBelow(chain: seq<nat>, shifted: nat, j: nat)
    requires Staircase(chain, shifted) && 0 < j < |chain| && chain[j] > 0
    ensures chain[j] - 1 in chain[..j]
    decreases j
  {
    if chain[j - 1] == chain[j] && j > 1 {
      FirstBelow(chain, shifted, j - 1);
      assert chain[..j - 1] <= chain[..j];
    } else {
      assert chain[..j][j - 1] == chain[j - 1];
    }
  }

  /** The chain holds exactly the events that left the queue, each once and in order. */
  ghost predicate OnceEach(s: Sink) {
    |s.chain| == s.shifted && forall i :: 0 <= i < |s.chain| ==> s.chain[i] == i
  }

  lemma LandedDecides(k: Kind, s: Sink)
    requires Valid(k, s)
    ensures OnceEach(s) <==> s.landed == 0
  {
    if s.landed == 0 {
      forall i | 0 <= i < |s.chain| ensures s.chain[i] == i {
        StaircaseRises(s.chain, s.shifted, 0, i);
        StaircaseRises(s.chain, s.shifted, i, |s.chain| - 1);
      }
    }
  }

  /** A write in flight is rejected although its record was stored. */
  predicate Lands(s: Sink, op: Op) {
    op == Settle(Rejected(true)) && s.writing && s.shifted < s.accepted
  }

  /** Some step of the run is such a rejection. */
  predicate SomeLands(k: Kind, s: Sink, ops: seq<Op>)
    decreases |ops|
  {
    ops != [] && (Lands(s, ops[0]) || SomeLands(k, Step(k, s, ops[0]), ops[1..]))
  }

  lemma LandedStep(k: Kind, s: Sink, op: Op)
    ensures Step(k, s, op).landed == s.landed + if Lands(s, op) then 1 else 0
  {
  }

  lemma {:induction false} LandedRun(k: Kind, s: Sink, ops: seq<Op>)
    ensures Run(k, s, ops).landed >= s.landed
    ensures Run(k, s, ops).landed == s.landed <==> !SomeLands(k, s, ops)
    decreases |ops|
  {
    if ops != [] {
      LandedStep(k, s, ops[0]);
      LandedRun(k, Step(k, s, ops[0]), ops[1..]);
    }
  }

  /** Nothing accepted, scheduled or recorded yet. */
  ghost predicate Fresh(s: Sink) {
    && s.accepted == 0 && s.shifted == 0 && s.landed == 0 && !s.overflowed && !s.writeFailed && !s.writing
    && s.scheduled == [] && s.results == [] && s.chain == [] && s.flushes == []
  }

  lemma FreshSinkIsValid(k: Kind, s: Sink)
    requires Fresh(s)
    ensures Valid(k, s)
  {
  }

  /** From a fresh sink, a run leaves in the chain exactly the events that left the queue, each once and in order, if
      and only if no write of the run was rejected after its record was stored. */
  lemma ExactlyOnce(k: Kind, s: Sink, ops: seq<Op>)
    requires Fresh(s)
    ensures OnceEach(Run(k, s, ops)) <==> !SomeLands(k, s, ops)
  {
    FreshSinkIsValid(k, s);
    RunKeeps(k, s, ops);
    LandedDecides(k, Run(k, s, ops));
    LandedRun(k, s, ops);
  }

  lemma RunCons(k: Kind, s: Sink, op: Op, rest: seq<Op>)
    ensures Run(k, s, [op] + rest) == Run(k, Step(k, s, op), rest)
  {
    assert ([op] + rest)[1..] == rest;
  }

  /** A retry after a rejected write that had stored its record writes the event a second time. */
  lemma LandedRejectionDuplicates(k: Kind, s: Sink, retry: Write)
    requires Valid(k, s) && s.writing && |s.results| + 1 < |s.scheduled| && retry != Rejected(false)
    ensures Run(k, s, [Settle(Rejected(true))] + ([Begin] + ([Settle(retry)] + []))).chain
         == s.chain + [s.shifted, s.shifted]
  {
    var s1 := Step(k, s, Settle(Rejected(true)));
    var s2 := Step(k, s1, Begin);
    RunCons(k, s, Settle(Rejected(true)), [Begin] + ([Settle(retry)] + []));
    RunCons(k, s1, Begin, [Settle(retry)] + []);
    RunCons(k, s2, Settle(retry), []);
  }

  function Retried(n: nat): seq<Op> {
    if n == 0 then [] else [Settle(Rejected(true))] + ([Begin] + Retried(n - 1))
  }

  function Copies(event: nat, n: nat): seq<nat> {
    if n == 0 then [] else [event] + Copies(event, n - 1)
  }

  lemma RetryOnce(k: Kind, s: Sink) returns (s': Sink)
    requires Valid(k, s) && s.writing && |s.results| + 1 < |s.scheduled|
    ensures s' == Step(k, Step(k, s, Settle(Rejected(true))), Begin)
    ensures Valid(k, s') && s'.writing && s'.shifted == s.shifted && s'.chain == s.chain + [s.shifted]
    ensures |s'.results| == |s.results| + 1 && s'.scheduled == s.scheduled
  {
    var s1 := Step(k, s, Settle(Rejected(true)));
    s' := Step(k, s1, Begin);
    StepKeeps(k, s, Settle(Rejected(true)));
    StepKeeps(k, s1, Begin);
  }

  lemma OneMoreCopy(chain: seq<nat>, event: nat, n: nat)
    requires n > 0
    ensures chain + [event] + Copies(event, n - 1) == chain + Copies(event, n)
  {
  }

  /** And once more each time the storage rejects it that way, so that no bound holds on the copies of one event. */
  lemma {:induction false} LandedRejectionsPileUp(k: Kind, s: Sink, n: nat)
    requires Valid(k, s) && s.writing && |s.results| + n < |s.scheduled|
    ensures Run(k, s, Retried(n)).chain == s.chain + Copies(s.shifted, n)
    decreases n
  {
    if n > 0 {
      var s' := RetryOnce(k, s);
      RunCons(k, s, Settle(Rejected(true)), [Begin] + Retried(n - 1));
      RunCons(k, Step(k, s, Settle(Rejected(true))), Begin, Retried(n - 1));
      LandedRejectionsPileUp(k, s', n - 1);
      OneMoreCopy(s.chain, s.shifted, n);
    }
  }

  /** An event is emitted while 4096 are pending. */
  predicate Drops(k: Kind, s: Sink, op: Op) {
    (op.Emit? || (op.EmitUnknown? && k.Approval?)) && s.accepted - s.shifted >= 4096
  }

  predicate SomeDropped(k: Kind, s: Sink, ops: seq<Op>)
    decreases |ops|
  {
    ops != [] && (Drops(k, s, ops[0]) || SomeDropped(k, Step(k, s, ops[0]), ops[1..]))
  }

  /** The overflow latch is set in a run exactly when an event of a type the sink takes was emitted while 4096 events
      were pending. */
  lemma {:induction false} OverflowExactly(k: Kind, s: Sink, ops: seq<Op>)
    ensures Run(k, s, ops).overflowed <==> s.overflowed || SomeDropped(k, s, ops)
    decreases |ops|
  {
    if ops != [] {
      OverflowStep(k, s, ops[0]);
      OverflowExactly(k, Step(k, s, ops[0]), ops[1..]);
    }
  }

  lemma OverflowStep(k: Kind, s: Sink, op: Op)
    ensures Step(k, s, op).overflowed <==> s.overflowed || Drops(k, s, op)
    ensures op.Emit? && !Drops(k, s, op) ==> Step(k, s, op).accepted == s.accepted + 1
  {
  }

  // ----- what a resolved flush means -------------------------------------------

  /** In every run: when `flush()` resolves, every event emitted before the call was accepted and is in the chain. */
  lemma FlushMeansCommitted(k: Kind, s: Sink, i: nat)
    requires Valid(k, s) && i < |s.flushes| && CanReturn(s, s.flushes[i]) && Resolves(k, s, s.flushes[i])
    ensures !s.flushes[i].mark.overflowed
    ensures forall n :: 0 <= n < s.flushes[i].mark.accepted ==> n < s.shifted && n in s.chain
  {
    var f := s.flushes[i];
    forall n: nat | n < f.mark.accepted ensures n < s.shifted && n in s.chain {
      assert s.results[f.drains - 1];
      ShiftedIsCommitted(k, s, n);
    }
  }

  /** And it does resolve when, from a fresh sink on, no write was rejected and nothing was dropped. */
  lemma HealthyFlushResolves(k: Kind, s: Sink, ops: seq<Op>, s': Sink, i: nat)
    requires Valid(k, s) && s.results == [] && s' == Run(k, s, ops)
    requires forall j :: 0 <= j < |ops| ==> ops[j].Settle? ==> ops[j].write.Stored?
    requires !s'.overflowed && i < |s'.flushes| && CanReturn(s', s'.flushes[i])
    ensures Resolves(k, s', s'.flushes[i])
  {
    RunKeeps(k, s, ops);
    HealthyRun(k, s, ops);
    assert s'.flushes[i].drains > 0 ==> s'.results[s'.flushes[i].drains - 1] in s'.results;
  }

  lemma FreshIsValid(k: Kind)
    ensures Valid(k, EMPTY)
  {
  }

  lemma HealthyStep(k: Kind, s: Sink, op: Op)
    requires (op.Settle? ==> op.write.Stored?) && (!s.overflowed ==> false !in s.results)
    ensures !Step(k, s, op).overflowed ==> false !in Step(k, s, op).results
  {
  }

  lemma {:induction false} HealthyRun(k: Kind, s: Sink, ops: seq<Op>)
    requires forall j :: 0 <= j < |ops| ==> ops[j].Settle? ==> ops[j].write.Stored?
    requires !s.overflowed ==> false !in s.results
    ensures !Run(k, s, ops).overflowed ==> false !in Run(k, s, ops).results
    decreases |ops|
  {
    if ops != [] {
      HealthyStep(k, s, ops[0]);
      HealthyRun(k, Step(k, s, ops[0]), ops[1..]);
    }
  }

  /** Evidence is never lost: in every run an accepted event is in the queue or has a record in the chain. */
  lemma NothingLost(k: Kind, s: Sink, ops: seq<Op>, n: nat)
    requires Valid(k, s) && n < Run(k, s, ops).accepted
    ensures var s' := Run(k, s, ops); s'.shifted <= n || n in s'.chain
  {
    RunKeeps(k, s, ops);
    if n < Run(k, s, ops).shifted {
      ShiftedIsCommitted(k, Run(k, s, ops), n);
    }
  }
}

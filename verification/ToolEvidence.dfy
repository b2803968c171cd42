/**
 * The tool pipeline together with the approval-evidence sink it flushes: where the pipeline alone is told whether a
 * flush resolved, here the flush waits for the sink's drains and resolves or throws as the sink says.
 */
module ToolEvidence {
  import opened Options
  import opened AuditSinks
  import AdminDisclosure
  import P = ToolPipeline
  import PolicyDecisions
  import Proofs = ToolPipelineProofs
  import Decisions = ToolDecisions

  /**
   * The lifecycle events of one invocation, by their place in the sink's order of acceptance: the creation of the
   * request it asks approval with, the consumption of the approval it redeems, the outcome of its approved execution;
   * and the flush it waits in.
   */
  datatype Evidence = Evidence(request: Option<nat>, consumption: Option<nat>, outcome: Option<nat>, flush: Option<nat>)

  const NOTHING := Evidence(None, None, None, None)

  datatype System = System(
    server: P.Server,
    sink: Sink,
    created: seq<nat>,          // the creation event of each approval request
    evidence: seq<Evidence>)

  datatype Event =
    | SinkStep(op: Op)                            // a drain step, or an event emitted elsewhere
    | Pipeline(event: P.Event, others: nat)       // a pipeline step, which may first emit expiries it comes across
    | FlushReturns(i: nat, blocked: bool)         // a flush the pipeline awaits is over

  const APPROVALS := Kind.Approval

  predicate Flushing(pc: P.Pc) {
    pc.FlushingRequest? || pc.FlushingConsumption? || pc.FlushingOutcome? || pc.FlushingRefusal?
  }

  /** The invocation that reaches a flush in this step. */
  function Entered(s: P.Server, e: P.Event): Option<nat> {
    if (e.Decide? || e.Resume? || e.MirrorDone?) && e.i < |s.invocations|
       && e.i < |P.Step(s, e).invocations| && Flushing(P.Step(s, e).invocations[e.i].pc)
       && P.Step(s, e).invocations[e.i] != s.invocations[e.i]
    then Some(e.i) else None
  }

  /** Whether the step emits an event of its own right before the flush. */
  predicate Emits(s: P.Server, s': P.Server, pc: P.Pc) {
    if pc.FlushingRequest? then |s'.approvals| > |s.approvals| else !pc.FlushingRefusal?
  }

  function EmitAndFlush(s: Sink, emits: bool): Sink {
    CallFlush(APPROVALS, if emits then Accept(APPROVALS, s) else s)
  }

  /** The creation event of a request that is reused. */
  function Reused(created: seq<nat>, e: P.Event): Option<nat> {
    if e.Decide? && e.pending.Some? && e.pending.value.Some? && e.pending.value.value < |created|
    then Some(created[e.pending.value.value]) else None
  }

  function Gathered(x: Evidence, pc: P.Pc, own: nat, request: Option<nat>, flush: nat): Evidence {
    match pc
    case FlushingRequest => x.(request := request, flush := Some(flush))
    case FlushingConsumption => x.(consumption := Some(own), flush := Some(flush))
    case FlushingOutcome(_) => x.(outcome := Some(own), flush := Some(flush))
    case _ => x.(flush := Some(flush))
  }

  function PipelineStep(sys: System, e: P.Event, others: nat): System {
    var (s', before) := (P.Step(sys.server, e), AdminDisclosure.Offer(APPROVALS, sys.sink, others));
    var entered := Entered(sys.server, e);
    if entered.Some? && entered.value < |sys.evidence| then
      var (i, pc) := (entered.value, s'.invocations[entered.value].pc);
      var emits := Emits(sys.server, s', pc);
      var grows := |s'.approvals| > |sys.server.approvals|;
      System(s', EmitAndFlush(before, emits), if grows then sys.created + [before.accepted] else sys.created,
             sys.evidence[i := Gathered(sys.evidence[i], pc, before.accepted,
                                        if grows then Some(before.accepted) else Reused(sys.created, e),
                                        |before.flushes|)])
    else
      System(s', before, sys.created, if e.Arrive? then sys.evidence + [NOTHING] else sys.evidence)
  }

  predicate FlushIsOver(sys: System, i: nat) {
    && i < |sys.server.invocations| && Flushing(sys.server.invocations[i].pc)
    && i < |sys.evidence| && sys.evidence[i].flush.Some? && sys.evidence[i].flush.value < |sys.sink.flushes|
    && CanReturn(sys.sink, sys.sink.flushes[sys.evidence[i].flush.value])
  }

  function Step(sys: System, e: Event): System {
    match e
    case SinkStep(op) => sys.(sink := AuditSinks.Step(APPROVALS, sys.sink, op))
    case Pipeline(p, others) => if p.FlushDone? then sys else PipelineStep(sys, p, others)
    case FlushReturns(i, blocked) =>
      if FlushIsOver(sys, i) then
        var ok := Resolves(APPROVALS, sys.sink, sys.sink.flushes[sys.evidence[i].flush.value]);
        sys.(server := P.Step(sys.server, P.FlushDone(i, ok, blocked)))
      else sys
  }

  function Run(sys: System, events: seq<Event>): System
    decreases |events|
  {
    if events == [] then sys else Run(Step(sys, events[0]), events[1..])
  }

  // ----- the invariant ---------------------------------------------------------

  /** The event has a record in the chain. */
  ghost predicate Backed(n: Option<nat>, s: Sink) {
    n.Some? && n.value in s.chain
  }

  /** The flush was called after the event was emitted, or after an event was dropped. */
  ghost predicate Covered(n: Option<nat>, flush: Option<nat>, s: Sink) {
    && n.Some? && flush.Some? && flush.value < |s.flushes|
    && (s.flushes[flush.value].mark.overflowed || n.value < s.flushes[flush.value].mark.accepted)
  }

  ghost predicate Evident(v: P.Invocation, x: Evidence, s: Sink) {
    && (v.requestFlushed ==> Backed(x.request, s))
    && (v.consumptionFlushed ==> Backed(x.consumption, s))
    && (v.outcomeFlushed ==> Backed(x.outcome, s))
    && (v.pc.FlushingRequest? ==> Covered(x.request, x.flush, s))
    && (v.pc.FlushingConsumption? ==> Covered(x.consumption, x.flush, s))
    && (v.pc.FlushingOutcome? ==> Covered(x.outcome, x.flush, s))
  }

  /** Each flag is raised once, and an answer ends the invocation. */
  ghost predicate Fresh(v: P.Invocation) {
    && (v.pc.Admitted? ==> !v.requestFlushed && !v.consumptionFlushed)
    && (!v.pc.Answered? ==> !v.outcomeFlushed)
  }

  ghost predicate AllCreated(created: seq<nat>, s: Sink) {
    s.overflowed || forall r :: 0 <= r < |created| ==> created[r] < s.accepted
  }

  ghost predicate AllEvident(sys: System) {
    && |sys.evidence| == |sys.server.invocations|
    && forall i :: 0 <= i < |sys.evidence| ==>
         Fresh(sys.server.invocations[i]) && Evident(sys.server.invocations[i], sys.evidence[i], sys.sink)
  }

  ghost predicate ValidSystem(sys: System) {
    && Proofs.Valid(sys.server) && Valid(APPROVALS, sys.sink) && AllEvident(sys)
    && |sys.created| == |sys.server.approvals| && AllCreated(sys.created, sys.sink)
  }

  // ----- how a pipeline step moves an invocation -------------------------------

  ghost predicate Moves(v: P.Invocation, v': P.Invocation) {
    && v'.requestFlushed == v.requestFlushed && v'.consumptionFlushed == v.consumptionFlushed
    && v'.outcomeFlushed == v.outcomeFlushed
    && (v'.pc.Admitted? || v.pc.Answered? ==> v' == v)
    && (v'.pc.FlushingRequest? || v'.pc.FlushingConsumption? ==> v' == v || v.pc.Admitted?)
  }

  lemma OthersStay(s: P.Server, e: P.Event, j: nat)
    requires j < |s.invocations| && j != Proofs.Target(s, e)
    ensures j < |P.Step(s, e).invocations| && P.Step(s, e).invocations[j] == s.invocations[j]
  {
    if !e.Arrive? {
      Proofs.StepOnly(s, e);
    }
  }

  lemma MintMoves(s: P.Server, i: nat, w: P.Write)
    requires i < |s.invocations| && !s.invocations[i].pc.Answered?
    ensures Moves(s.invocations[i], P.Mint(s, i, w).invocations[i])
    ensures P.Mint(s, i, w).invocations[i].pc == P.Mirroring(w) && P.Mint(s, i, w).approvals == s.approvals
  {
  }

  lemma DispatchMoves(s: P.Server, i: nat, blocked: bool)
    requires P.At(s, i, P.Admitted)
    ensures var s' := P.Dispatch(s, i, blocked);
      Moves(s.invocations[i], s'.invocations[i]) && !Flushing(s'.invocations[i].pc) && s'.approvals == s.approvals
  {
    MintMoves(s, i, P.WriteStarted);
  }

  lemma RedeemMoves(s: P.Server, i: nat, binding: P.Binding, control: P.Control)
    requires P.At(s, i, P.Admitted)
    ensures var s' := P.RedeemAndGo(s, i, binding, control);
      && Moves(s.invocations[i], s'.invocations[i]) && !s'.invocations[i].pc.FlushingRequest?
      && |s'.approvals| == |s.approvals|
  {
  }

  lemma RequestMoves(s: P.Server, i: nat, binding: P.Binding, pending: Option<Option<nat>>)
    requires P.At(s, i, P.Admitted)
    ensures var s' := P.RequestAndGo(s, i, binding, pending);
      && Moves(s.invocations[i], s'.invocations[i])
      && |s.approvals| <= |s'.approvals| <= |s.approvals| + 1
      && (|s'.approvals| > |s.approvals| ==> s'.invocations[i].pc.FlushingRequest?)
      && (s'.invocations[i].pc.FlushingRequest? && |s'.approvals| == |s.approvals| ==>
            pending.Some? && pending.value.Some? && pending.value.value < |s.approvals|)
  {
  }

  /** A decision adds a request only where it goes on to flush it, and a request it reuses is in the table. */
  lemma DecidedMoves(s: P.Server, i: nat, layer1: PolicyDecisions.Effect, layer2: PolicyDecisions.Effect,
                     binding: P.Binding, control: Option<P.Control>, pending: Option<Option<nat>>, blocked: bool)
    requires P.At(s, i, P.Admitted)
    ensures var s' := P.Decided(s, i, layer1, layer2, binding, control, pending, blocked);
      && Moves(s.invocations[i], s'.invocations[i])
      && |s.approvals| <= |s'.approvals| <= |s.approvals| + 1
      && (|s'.approvals| > |s.approvals| ==> s'.invocations[i].pc.FlushingRequest?)
      && (s'.invocations[i].pc.FlushingRequest? && |s'.approvals| == |s.approvals| ==>
            pending.Some? && pending.value.Some? && pending.value.value < |s.approvals|)
  {
    match P.EffectiveEffect(s.invocations[i].tool, layer1, layer2)
    case Deny => MintMoves(s, i, P.WriteDenied(P.Denial, None));
    case Allow => DispatchMoves(s, i, blocked);
    case RequireApproval =>
      if control.Some? {
        RedeemMoves(s, i, binding, control.value);
      } else {
        RequestMoves(s, i, binding, pending);
      }
  }

  lemma GoMoves(s: P.Server, i: nat, pc: P.Pc)
    requires i < |s.invocations| && !s.invocations[i].pc.Answered?
    requires !pc.Admitted? && !pc.FlushingRequest? && !pc.FlushingConsumption?
    ensures var s' := P.Go(s, i, pc);
      Moves(s.invocations[i], s'.invocations[i]) && s'.invocations[i].pc == pc && s'.approvals == s.approvals
  {
  }

  lemma ConcludeMoves(s: P.Server, i: nat, ok: bool)
    requires i < |s.invocations| && !s.invocations[i].pc.Answered?
    ensures var s' := P.Conclude(s, i, ok);
      Moves(s.invocations[i], s'.invocations[i]) && Unrequested(s, s', i)
  {
    GoMoves(s, i, P.FlushingOutcome(ok));
    GoMoves(s, i, P.Answered(if ok then P.Success else P.ToolError));
  }

  lemma MirroredMoves(s: P.Server, i: nat, ok: bool)
    requires i < |s.invocations|
    ensures var s' := P.Mirrored(s, i, ok);
      Moves(s.invocations[i], s'.invocations[i]) && Unrequested(s, s', i)
  {
    match s.invocations[i].pc
    case Mirroring(w) =>
      GoMoves(s, i, P.Settled(w, false));
      GoMoves(s, i, P.Appending(w));
    case LoggingHealth(ranOk) =>
      ConcludeMoves(s, i, ranOk);
      GoMoves(s, i, P.Answered(P.Raised));
    case _ =>
  }

  lemma ResumedMoves(s: P.Server, i: nat)
    requires i < |s.invocations|
    ensures var s' := P.Resumed(s, i);
      Moves(s.invocations[i], s'.invocations[i]) && Unrequested(s, s', i)
  {
    match s.invocations[i].pc
    case Settled(WriteDenied(answer, after), _) =>
      GoMoves(s, i, P.Answered(P.PersistenceFailure));
      GoMoves(s, i, P.Answered(answer));
      if after.Some? {
        GoMoves(s, i, P.FlushingRefusal(after.value));
      }
    case Settled(WriteStarted, _) => GoMoves(s, i, P.Answered(P.AuditRefusal));
    case Settled(WriteCompleted(ok), _) =>
      ConcludeMoves(s, i, ok);
      GoMoves(s, i, P.Answered(P.AuditRefusal));
    case _ =>
  }

  lemma StoreMoves(s: P.Server, store: P.Store)
    requires s.appendQueue != [] && s.appendQueue[0] < |s.invocations|
    ensures var (s', i) := (P.StoreSettled(s, store), s.appendQueue[0]);
      Moves(s.invocations[i], s'.invocations[i]) && Untouched(s, s', i)
  {
  }

  lemma ReturnedMoves(s: P.Server, i: nat, ok: bool)
    requires i < |s.invocations|
    ensures var s' := P.Returned(s, i, ok);
      Moves(s.invocations[i], s'.invocations[i]) && Untouched(s, s', i)
  {
  }

  /** The step asks for no approval. */
  ghost predicate Unrequested(s: P.Server, s': P.Server, i: nat)
    requires i < |s.invocations| == |s'.invocations|
  {
    s'.approvals == s.approvals && (s'.invocations[i].pc.FlushingRequest? ==> s'.invocations[i] == s.invocations[i])
  }

  /** The step reaches no flush. */
  ghost predicate Untouched(s: P.Server, s': P.Server, i: nat)
    requires i < |s.invocations| == |s'.invocations|
  {
    s'.approvals == s.approvals && (Flushing(s'.invocations[i].pc) ==> s'.invocations[i] == s.invocations[i])
  }

  lemma TargetMoves(s: P.Server, e: P.Event, i: nat)
    requires !e.FlushDone? && i < |s.invocations| && i == Proofs.Target(s, e)
    ensures var s' := P.Step(s, e);
      && i < |s'.invocations| && Moves(s.invocations[i], s'.invocations[i])
      && (Flushing(s'.invocations[i].pc) && s'.invocations[i] != s.invocations[i] ==> Entered(s, e) == Some(i))
  {
    match e
    case Refuse(_) => if P.At(s, i, P.Admitted) { MintMoves(s, i, P.WriteDenied(P.Denial, None)); }
    case Decide(_, layer1, layer2, binding, control, pending, blocked) =>
      if P.At(s, i, P.Admitted) {
        DecidedMoves(s, i, layer1, layer2, binding, control, pending, blocked);
      }
    case MirrorDone(_, ok) => MirroredMoves(s, i, ok);
    case StoreSettles(store) => StoreMoves(s, store);
    case Resume(_) => ResumedMoves(s, i);
    case ToolReturns(_, ok) => ReturnedMoves(s, i, ok);
  }

  lemma Newcomers(s: P.Server, e: P.Event)
    ensures |P.Step(s, e).invocations| == |s.invocations| + if e.Arrive? then 1 else 0
    ensures e.Arrive? ==> var v := P.Step(s, e).invocations[|s.invocations|];
      Fresh(v) && !v.requestFlushed && !v.consumptionFlushed && !v.outcomeFlushed && !Flushing(v.pc)
  {
    if !e.Arrive? {
      Proofs.StepOnly(s, e);
    }
  }

  lemma RequestsStay(s: P.Server, e: P.Event)
    requires !e.FlushDone? && !(e.Decide? && P.At(s, e.i, P.Admitted))
    ensures |P.Step(s, e).approvals| == |s.approvals|
    ensures Entered(s, e).Some? ==> !P.Step(s, e).invocations[Entered(s, e).value].pc.FlushingRequest?
  {
    match e
    case MirrorDone(i, ok) => if i < |s.invocations| { MirroredMoves(s, i, ok); }
    case Resume(i) => if i < |s.invocations| { ResumedMoves(s, i); }
    case _ =>
  }

  /** A request is added only by a step that goes on to flush; a reused one is in the table. */
  lemma Requests(s: P.Server, e: P.Event)
    requires !e.FlushDone?
    ensures var (s', entered) := (P.Step(s, e), Entered(s, e));
      && |s.approvals| <= |s'.approvals| <= |s.approvals| + 1
      && (|s'.approvals| > |s.approvals| ==> entered.Some? && s'.invocations[entered.value].pc.FlushingRequest?)
      && (entered.Some? && s'.invocations[entered.value].pc.FlushingRequest? && |s'.approvals| == |s.approvals| ==>
            e.Decide? && e.pending.Some? && e.pending.value.Some? && e.pending.value.value < |s.approvals|)
  {
    if e.Decide? && P.At(s, e.i, P.Admitted) {
      DecidedMoves(s, e.i, e.layer1, e.layer2, e.binding, e.control, e.pending, e.blocked);
    } else {
      RequestsStay(s, e);
    }
  }

  // ----- what every step keeps -------------------------------------------------

  lemma BackedStays(n: Option<nat>, s: Sink, s': Sink)
    requires Backed(n, s) && Grown(s, s')
    ensures Backed(n, s')
  {
    var i :| 0 <= i < |s.chain| && s.chain[i] == n.value;
    assert s'.chain[i] == n.value;
  }

  lemma EvidentStays(v: P.Invocation, x: Evidence, s: Sink, s': Sink)
    requires Evident(v, x, s) && Grown(s, s')
    ensures Evident(v, x, s')
  {
    if v.requestFlushed { BackedStays(x.request, s, s'); }
    if v.consumptionFlushed { BackedStays(x.consumption, s, s'); }
    if v.outcomeFlushed { BackedStays(x.outcome, s, s'); }
  }

  lemma AllEvidentStay(sys: System, s': Sink)
    requires AllEvident(sys) && Grown(sys.sink, s')
    ensures AllEvident(sys.(sink := s'))
  {
    forall i | 0 <= i < |sys.evidence| ensures Evident(sys.server.invocations[i], sys.evidence[i], s') {
      EvidentStays(sys.server.invocations[i], sys.evidence[i], sys.sink, s');
    }
  }

  /** An invocation that moves without reaching a flush needs no more evidence than before. */
  lemma MovedIsEvident(v: P.Invocation, v': P.Invocation, x: Evidence, s: Sink)
    requires Fresh(v) && Evident(v, x, s) && Moves(v, v') && (Flushing(v'.pc) ==> v' == v)
    ensures Fresh(v') && Evident(v', x, s)
  {
  }

  /** One that reaches a flush has just emitted what the flush is for. */
  lemma EnteringIsEvident(v: P.Invocation, v': P.Invocation, x: Evidence, s: Sink, own: nat, request: Option<nat>,
                          flush: nat)
    requires Fresh(v) && Evident(v, x, s) && Moves(v, v') && Flushing(v'.pc) && v' != v
    requires v'.pc.FlushingRequest? ==> Covered(request, Some(flush), s)
    requires v'.pc.FlushingConsumption? || v'.pc.FlushingOutcome? ==> Covered(Some(own), Some(flush), s)
    ensures Fresh(v') && Evident(v', Gathered(x, v'.pc, own, request, flush), s)
  {
  }

  lemma AcceptGrows(s: Sink)
    requires Valid(APPROVALS, s)
    ensures var s' := Accept(APPROVALS, s);
      && Valid(APPROVALS, s') && Grown(s, s') && s'.flushes == s.flushes
      && (s'.overflowed || s.accepted < s'.accepted)
  {
    AcceptKeeps(APPROVALS, s);
  }

  lemma CallGrows(s: Sink)
    requires Valid(APPROVALS, s)
    ensures var s' := CallFlush(APPROVALS, s);
      && Valid(APPROVALS, s') && Grown(s, s') && |s'.flushes| == |s.flushes| + 1
      && s'.accepted == s.accepted && s'.overflowed == s.overflowed
      && s'.flushes[|s.flushes|].mark == Mark(s.accepted, s.overflowed)
  {
    CallFlushKeeps(APPROVALS, s);
  }

  lemma GrowsOn(s: Sink, s': Sink, s'': Sink)
    requires Grown(s, s') && Grown(s', s'')
    ensures Grown(s, s'')
  {
  }

  lemma EmitAndFlushKeeps(s: Sink, emits: bool)
    requires Valid(APPROVALS, s)
    ensures var s' := EmitAndFlush(s, emits);
      && Valid(APPROVALS, s') && Grown(s, s') && |s'.flushes| == |s.flushes| + 1
      && (emits ==> Covered(Some(s.accepted), Some(|s.flushes|), s'))
      && s'.flushes[|s.flushes|].mark == Mark(s'.accepted, s'.overflowed)
      && (emits ==> s'.overflowed || s.accepted < s'.accepted)
  {
    AcceptGrows(s);
    var ready := if emits then Accept(APPROVALS, s) else s;
    CallGrows(ready);
    GrowsOn(s, ready, CallFlush(APPROVALS, ready));
  }

  lemma CreatedStay(created: seq<nat>, s: Sink, s': Sink)
    requires AllCreated(created, s) && Grown(s, s')
    ensures AllCreated(created, s')
  {
  }

  lemma OfferKeeps(sys: System, others: nat)
    requires ValidSystem(sys)
    ensures var before := AdminDisclosure.Offer(APPROVALS, sys.sink, others);
      && Valid(APPROVALS, before) && Grown(sys.sink, before) && AllEvident(sys.(sink := before))
      && AllCreated(sys.created, before)
  {
    AdminDisclosure.OfferKeeps(APPROVALS, sys.sink, others);
    var before := AdminDisclosure.Offer(APPROVALS, sys.sink, others);
    AllEvidentStay(sys, before);
    CreatedStay(sys.created, sys.sink, before);
  }

  /** A pipeline step that reaches no flush. */
  lemma PassingKeeps(sys: System, e: P.Event)
    requires ValidSystem(sys) && !e.FlushDone? && Entered(sys.server, e).None?
    ensures ValidSystem(sys.(server := P.Step(sys.server, e),
                             evidence := if e.Arrive? then sys.evidence + [NOTHING] else sys.evidence))
  {
    var (s, s') := (sys.server, P.Step(sys.server, e));
    var evidence := if e.Arrive? then sys.evidence + [NOTHING] else sys.evidence;
    Proofs.StepKeeps(s, e);
    Newcomers(s, e);
    Requests(s, e);
    forall j | 0 <= j < |evidence|
      ensures Fresh(s'.invocations[j]) && Evident(s'.invocations[j], evidence[j], sys.sink)
    {
      if j < |s.invocations| {
        if j == Proofs.Target(s, e) {
          TargetMoves(s, e, j);
        } else {
          OthersStay(s, e, j);
        }
        MovedIsEvident(s.invocations[j], s'.invocations[j], sys.evidence[j], sys.sink);
      }
    }
  }

  /** What the flush of the entering step covers. */
  lemma EntryIsCovered(sys: System, e: P.Event, i: nat)
    requires ValidSystem(sys) && !e.FlushDone? && Entered(sys.server, e) == Some(i)
    ensures var (s', before) := (P.Step(sys.server, e), sys.sink);
      var (pc, grows) := (s'.invocations[i].pc, |s'.approvals| > |sys.server.approvals|);
      var sink' := EmitAndFlush(before, Emits(sys.server, s', pc));
      && (pc.FlushingRequest? ==>
            Covered(if grows then Some(before.accepted) else Reused(sys.created, e), Some(|before.flushes|), sink'))
      && (pc.FlushingConsumption? || pc.FlushingOutcome? ==>
            Covered(Some(before.accepted), Some(|before.flushes|), sink'))
      && AllCreated(if grows then sys.created + [before.accepted] else sys.created, sink')
  {
    var s' := P.Step(sys.server, e);
    Requests(sys.server, e);
    var emits := Emits(sys.server, s', s'.invocations[i].pc);
    EmitAndFlushKeeps(sys.sink, emits);
    CreatedStay(sys.created, sys.sink, EmitAndFlush(sys.sink, emits));
  }

  /** A pipeline step that reaches a flush, once the other events of the step have been offered. */
  lemma EnteringKeeps(sys: System, e: P.Event, i: nat)
    requires ValidSystem(sys) && !e.FlushDone? && Entered(sys.server, e) == Some(i)
    ensures ValidSystem(PipelineStep(sys, e, 0))
  {
    var (s, after) := (sys.server, PipelineStep(sys, e, 0));
    Proofs.StepKeeps(s, e);
    Newcomers(s, e);
    Requests(s, e);
    EntryIsCovered(sys, e, i);
    EmitAndFlushKeeps(sys.sink, Emits(s, after.server, after.server.invocations[i].pc));
    AllEvidentStay(sys, after.sink);
    EnteredIsEvident(sys, e, i);
    forall j | 0 <= j < |after.evidence|
      ensures Fresh(after.server.invocations[j]) && Evident(after.server.invocations[j], after.evidence[j], after.sink)
    {
      if j != i {
        OthersStay(s, e, j);
      }
    }
  }

  lemma EnteredIsEvident(sys: System, e: P.Event, i: nat)
    requires ValidSystem(sys) && !e.FlushDone? && Entered(sys.server, e) == Some(i)
    ensures var after := PipelineStep(sys, e, 0);
      Fresh(after.server.invocations[i]) && Evident(after.server.invocations[i], after.evidence[i], after.sink)
  {
    var (s, after) := (sys.server, PipelineStep(sys, e, 0));
    EntryIsCovered(sys, e, i);
    EmitAndFlushKeeps(sys.sink, Emits(s, after.server, after.server.invocations[i].pc));
    EvidentStays(s.invocations[i], sys.evidence[i], sys.sink, after.sink);
    TargetMoves(s, e, i);
    EnteringIsEvident(s.invocations[i], after.server.invocations[i], sys.evidence[i], after.sink, sys.sink.accepted,
                      if |after.server.approvals| > |s.approvals| then Some(sys.sink.accepted)
                      else Reused(sys.created, e), |sys.sink.flushes|);
  }

  lemma SameStep(sys: System, e: P.Event, others: nat, offered: System)
    requires offered == sys.(sink := AdminDisclosure.Offer(APPROVALS, sys.sink, others))
    ensures PipelineStep(sys, e, others) == PipelineStep(offered, e, 0)
  {
  }

  lemma PipelineKeeps(sys: System, e: P.Event, others: nat)
    requires ValidSystem(sys) && !e.FlushDone?
    ensures ValidSystem(PipelineStep(sys, e, others))
  {
    OfferKeeps(sys, others);
    var offered := sys.(sink := AdminDisclosure.Offer(APPROVALS, sys.sink, others));
    if Entered(sys.server, e).Some? {
      EnteringKeeps(offered, e, Entered(sys.server, e).value);
      SameStep(sys, e, others, offered);
    } else {
      PassingKeeps(offered, e);
    }
  }

  /** What a resolved flush covers is in the chain. */
  lemma CoveredIsBacked(n: Option<nat>, flush: nat, s: Sink)
    requires Valid(APPROVALS, s) && Covered(n, Some(flush), s)
    requires CanReturn(s, s.flushes[flush]) && Resolves(APPROVALS, s, s.flushes[flush])
    ensures Backed(n, s)
  {
    FlushMeansCommitted(APPROVALS, s, flush);
  }

  /** The flags that the outcome of a flush leads to. */
  ghost predicate FlagsAfter(v: P.Invocation, v': P.Invocation, ok: bool) {
    && !v'.pc.Admitted? && !Flushing(v'.pc) && (v.pc.FlushingOutcome? ==> v'.pc.Answered?)
    && (v'.requestFlushed <==> v.requestFlushed || (ok && v.pc.FlushingRequest?))
    && (v'.consumptionFlushed <==> v.consumptionFlushed || (ok && v.pc.FlushingConsumption?))
    && (v'.outcomeFlushed <==> v.outcomeFlushed || (ok && v.pc.FlushingOutcome?))
  }

  lemma RequestFlags(s: P.Server, i: nat, ok: bool, blocked: bool)
    requires P.At(s, i, P.FlushingRequest)
    ensures var s' := P.Flushed(s, i, ok, blocked);
      Proofs.OnlyAt(s, s', i) && s'.approvals == s.approvals && FlagsAfter(s.invocations[i], s'.invocations[i], ok)
  {
  }

  lemma ConsumptionFlags(s: P.Server, i: nat, ok: bool, blocked: bool)
    requires P.At(s, i, P.FlushingConsumption)
    ensures var s' := P.Flushed(s, i, ok, blocked);
      Proofs.OnlyAt(s, s', i) && s'.approvals == s.approvals && FlagsAfter(s.invocations[i], s'.invocations[i], ok)
  {
  }

  lemma LateFlags(s: P.Server, i: nat, ok: bool, blocked: bool)
    requires i < |s.invocations| && (s.invocations[i].pc.FlushingOutcome? || s.invocations[i].pc.FlushingRefusal?)
    ensures var s' := P.Flushed(s, i, ok, blocked);
      Proofs.OnlyAt(s, s', i) && s'.approvals == s.approvals && FlagsAfter(s.invocations[i], s'.invocations[i], ok)
  {
  }

  /** A flag raised by a resolved flush is backed by the chain. */
  lemma FlushedIsEvident(s: P.Server, x: Evidence, sink: Sink, i: nat, blocked: bool)
    requires Valid(APPROVALS, sink) && i < |s.invocations| && Flushing(s.invocations[i].pc)
    requires Fresh(s.invocations[i]) && Evident(s.invocations[i], x, sink)
    requires x.flush.Some? && x.flush.value < |sink.flushes| && CanReturn(sink, sink.flushes[x.flush.value])
    ensures var ok := Resolves(APPROVALS, sink, sink.flushes[x.flush.value]);
      var s' := P.Flushed(s, i, ok, blocked);
      && |s'.invocations| == |s.invocations| && |s'.approvals| == |s.approvals|
      && Fresh(s'.invocations[i]) && Evident(s'.invocations[i], x, sink)
  {
    var ok := Resolves(APPROVALS, sink, sink.flushes[x.flush.value]);
    match s.invocations[i].pc
    case FlushingRequest =>
      RequestFlags(s, i, ok, blocked);
      if ok { CoveredIsBacked(x.request, x.flush.value, sink); }
    case FlushingConsumption =>
      ConsumptionFlags(s, i, ok, blocked);
      if ok { CoveredIsBacked(x.consumption, x.flush.value, sink); }
    case FlushingOutcome(_) =>
      LateFlags(s, i, ok, blocked);
      if ok { CoveredIsBacked(x.outcome, x.flush.value, sink); }
    case FlushingRefusal(_) => LateFlags(s, i, ok, blocked);
  }

  lemma FlushReturnsKeeps(sys: System, i: nat, blocked: bool)
    requires ValidSystem(sys)
    ensures ValidSystem(Step(sys, FlushReturns(i, blocked)))
  {
    if FlushIsOver(sys, i) {
      var (s, after) := (sys.server, Step(sys, FlushReturns(i, blocked)));
      var ok := Resolves(APPROVALS, sys.sink, sys.sink.flushes[sys.evidence[i].flush.value]);
      var e := P.FlushDone(i, ok, blocked);
      Proofs.StepKeeps(s, e);
      FlushedIsEvident(s, sys.evidence[i], sys.sink, i, blocked);
      forall j | 0 <= j < |after.evidence|
        ensures Fresh(after.server.invocations[j])
        ensures Evident(after.server.invocations[j], after.evidence[j], after.sink)
      {
        if j != i {
          OthersStay(s, e, j);
        }
      }
    }
  }

  lemma StepKeeps(sys: System, e: Event)
    requires ValidSystem(sys)
    ensures ValidSystem(Step(sys, e))
  {
    match e
    case SinkStep(op) =>
      AuditSinks.StepKeeps(APPROVALS, sys.sink, op);
      StepGrows(APPROVALS, sys.sink, op);
      AllEvidentStay(sys, AuditSinks.Step(APPROVALS, sys.sink, op));
      CreatedStay(sys.created, sys.sink, AuditSinks.Step(APPROVALS, sys.sink, op));
    case Pipeline(p, others) => if !p.FlushDone? { PipelineKeeps(sys, p, others); }
    case FlushReturns(i, blocked) => FlushReturnsKeeps(sys, i, blocked);
  }

  lemma {:induction false} RunKeeps(sys: System, events: seq<Event>)
    requires ValidSystem(sys)
    ensures ValidSystem(Run(sys, events))
    decreases |events|
  {
    if events != [] {
      StepKeeps(sys, events[0]);
      RunKeeps(Step(sys, events[0]), events[1..]);
    }
  }

  // ----- the guarantees --------------------------------------------------------

  /** When a mutation begins to execute, the record that its approval was consumed is already in the chain. */
  lemma MutationFollowsEvidence(sys: System, e: Event, i: nat)
    requires ValidSystem(sys) && i < |sys.server.invocations| && sys.server.invocations[i].tool.Mutation?
    requires !sys.server.invocations[i].executed
    requires i < |Step(sys, e).server.invocations| && Step(sys, e).server.invocations[i].executed
    ensures sys.server.invocations[i].consumed.Some? && Backed(sys.evidence[i].consumption, sys.sink)
  {
    var (s, s') := (sys.server, Step(sys, e).server);
    assert Proofs.Fits(s, i);
    if e.Pipeline? {
      Proofs.StepMoves(s, e.event);
    } else {
      var ok := Resolves(APPROVALS, sys.sink, sys.sink.flushes[sys.evidence[e.i].flush.value]);
      Proofs.StepMoves(s, P.FlushDone(e.i, ok, e.blocked));
    }
    assert Proofs.Moves(s.degraded, s.invocations[i], s'.invocations[i]);
  }

  /** In every run: an executed mutation has its consumption in the chain, a successful approved execution its outcome
      as well, and a caller is told of a request only when the creation of that request is in the chain. */
  lemma EvidenceComesFirst(sys: System, events: seq<Event>, i: nat)
    requires ValidSystem(sys) && i < |Run(sys, events).server.invocations|
    ensures var after := Run(sys, events);
      && |after.evidence| == |after.server.invocations|
      && var (v, x) := (after.server.invocations[i], after.evidence[i]);
         && (v.executed && v.tool.Mutation? ==> Backed(x.consumption, after.sink))
         && (v.pc == P.Answered(P.Success) && v.consumed.Some? ==> Backed(x.outcome, after.sink))
         && (v.pc == P.Answered(P.ApprovalRequired) ==> Backed(x.request, after.sink))
  {
    RunKeeps(sys, events);
    assert Proofs.Fits(Run(sys, events).server, i);
  }

  /** No evidence has failed it. */
  predicate Unfailed(v: P.Invocation) {
    match v.pc
    case Mirroring(w) => !w.WriteDenied? || !w.answer.EvidenceFailure?
    case Appending(w) => !w.WriteDenied? || !w.answer.EvidenceFailure?
    case Settled(w, _) => !w.WriteDenied? || !w.answer.EvidenceFailure?
    case Answered(a) => !a.EvidenceFailure?
    case _ => true
  }

  /** While nothing was dropped and no write failed, no invocation is told that evidence is missing. */
  ghost predicate Healthy(sys: System) {
    !sys.sink.overflowed ==>
      && false !in sys.sink.results
      && forall i :: 0 <= i < |sys.server.invocations| ==> Unfailed(sys.server.invocations[i])
  }

  lemma FlushedStaysUnfailed(s: P.Server, i: nat, blocked: bool)
    requires i < |s.invocations| && Unfailed(s.invocations[i])
    ensures Unfailed(P.Flushed(s, i, true, blocked).invocations[i])
  {
  }

  lemma MirroredStaysUnfailed(s: P.Server, i: nat, ok: bool)
    requires i < |s.invocations| && Unfailed(s.invocations[i])
    ensures Unfailed(P.Mirrored(s, i, ok).invocations[i])
  {
    Decisions.MirrorIs(s, i, ok);
  }

  lemma ResumedStaysUnfailed(s: P.Server, i: nat)
    requires i < |s.invocations| && Unfailed(s.invocations[i])
    ensures Unfailed(P.Resumed(s, i).invocations[i])
  {
    Decisions.ResumeIs(s, i);
  }

  lemma DecidedStaysUnfailed(s: P.Server, e: P.Event)
    requires e.Decide? && P.At(s, e.i, P.Admitted)
    ensures e.i < |P.Step(s, e).invocations| && Unfailed(P.Step(s, e).invocations[e.i])
  {
    Decisions.DecisionLeads(s, e);
  }

  lemma StepStaysUnfailed(s: P.Server, e: P.Event, i: nat)
    requires (e.FlushDone? ==> e.ok) && i < |P.Step(s, e).invocations|
    requires i < |s.invocations| ==> Unfailed(s.invocations[i])
    ensures Unfailed(P.Step(s, e).invocations[i])
  {
    Newcomers(s, e);
    if !e.Arrive? {
      Proofs.StepOnly(s, e);
      if i == Proofs.Target(s, e) {
        match e
        case Decide(_, _, _, _, _, _, _) => if P.At(s, i, P.Admitted) { DecidedStaysUnfailed(s, e); }
        case FlushDone(_, _, blocked) => FlushedStaysUnfailed(s, i, blocked);
        case MirrorDone(_, ok) => MirroredStaysUnfailed(s, i, ok);
        case Resume(_) => ResumedStaysUnfailed(s, i);
        case _ =>
      }
    }
  }

  lemma AllStayUnfailed(s: P.Server, e: P.Event)
    requires (e.FlushDone? ==> e.ok) && forall i :: 0 <= i < |s.invocations| ==> Unfailed(s.invocations[i])
    ensures forall i :: 0 <= i < |P.Step(s, e).invocations| ==> Unfailed(P.Step(s, e).invocations[i])
  {
    forall i | 0 <= i < |P.Step(s, e).invocations| ensures Unfailed(P.Step(s, e).invocations[i]) {
      StepStaysUnfailed(s, e, i);
    }
  }

  lemma HealthyFlush(s: Sink, f: Flush)
    requires false !in s.results && CanReturn(s, f)
    ensures Resolves(APPROVALS, s, f)
  {
    assert f.drains > 0 ==> s.results[f.drains - 1] in s.results;
  }

  /** The evidence sink of a pipeline step: more events, and perhaps a flush, but no drain is over. */
  lemma PipelineSink(sys: System, e: P.Event, others: nat)
    ensures PipelineStep(sys, e, others).sink.results == sys.sink.results
    ensures sys.sink.overflowed ==> PipelineStep(sys, e, others).sink.overflowed
    ensures PipelineStep(sys, e, others).server == P.Step(sys.server, e)
  {
    AdminDisclosure.OfferStaysHealthy(APPROVALS, sys.sink, others);
  }

  lemma HealthyStep(sys: System, e: Event)
    requires Healthy(sys) && (e.SinkStep? && e.op.Settle? ==> e.op.write.Stored?)
    ensures Healthy(Step(sys, e))
  {
    match e
    case SinkStep(op) =>
      StepGrows(APPROVALS, sys.sink, op);
      AuditSinks.HealthyStep(APPROVALS, sys.sink, op);
    case Pipeline(p, others) =>
      if !p.FlushDone? {
        PipelineSink(sys, p, others);
        if !sys.sink.overflowed {
          AllStayUnfailed(sys.server, p);
        }
      }
    case FlushReturns(i, blocked) =>
      if FlushIsOver(sys, i) && !sys.sink.overflowed {
        HealthyFlush(sys.sink, sys.sink.flushes[sys.evidence[i].flush.value]);
        AllStayUnfailed(sys.server, P.FlushDone(i, true, blocked));
      }
  }

  /** In every run in which every write of evidence is stored and no event is dropped, no invocation is answered that
      its evidence could not be recorded. */
  lemma {:induction false} HealthyRunsGoOn(sys: System, events: seq<Event>)
    requires Healthy(sys)
    requires forall j :: 0 <= j < |events| ==>
               events[j].SinkStep? && events[j].op.Settle? ==> events[j].op.write.Stored?
    ensures Healthy(Run(sys, events))
    decreases |events|
  {
    if events != [] {
      HealthyStep(sys, events[0]);
      HealthyRunsGoOn(Step(sys, events[0]), events[1..]);
    }
  }

  lemma EmptyIsValid(sys: System)
    requires Proofs.Valid(sys.server) && sys.server.invocations == [] && sys.server.approvals == []
    requires Valid(APPROVALS, sys.sink) && sys.created == [] && sys.evidence == []
    ensures ValidSystem(sys)
  {
  }

  lemma StartedServer(s: P.Server)
    requires s == P.STARTED_SERVER
    ensures Proofs.Valid(s) && s.invocations == [] && s.approvals == []
  {
    Proofs.StartedServerIsValid();
  }

  lemma FreshSink(s: Sink)
    requires s == EMPTY
    ensures Valid(APPROVALS, s)
  {
    FreshIsValid(APPROVALS);
  }

  /** A started server over a fresh sink. */
  lemma StartIsValid(sys: System)
    requires sys.server == P.STARTED_SERVER && sys.sink == EMPTY && sys.created == [] && sys.evidence == []
    ensures ValidSystem(sys)
  {
    StartedServer(sys.server);
    FreshSink(sys.sink);
    EmptyIsValid(sys);
  }
}

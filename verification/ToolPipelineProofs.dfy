/** What every run of the pipeline keeps, and the guarantees that follow. */
module ToolPipelineProofs {
  import opened Options
  import opened PolicyDecisions
  import opened ToolPipeline

  // ----- the records of one operation ------------------------------------------

  /** The phases the chain holds for an operation id, in order. */
  function Phases(chain: seq<Record>, id: nat): seq<Phase> {
    if chain == [] then []
    else
      var before := Phases(chain[..|chain| - 1], id);
      if chain[|chain| - 1].operationId == id then before + [chain[|chain| - 1].phase] else before
  }

  lemma PhasesAppend(chain: seq<Record>, r: Record, id: nat)
    ensures Phases(chain + [r], id) == Phases(chain, id) + if r.operationId == id then [r.phase] else []
  {
    assert (chain + [r])[..|chain|] == chain;
  }

  lemma {:induction false} NoPhases(chain: seq<Record>, id: nat)
    requires forall k :: 0 <= k < |chain| ==> chain[k].operationId != id
    ensures Phases(chain, id) == []
  {
    if chain != [] {
      NoPhases(chain[..|chain| - 1], id);
    }
  }

  /** The whole life of an operation on the chain. */
  ghost predicate Lifecycle(phases: seq<Phase>) {
    phases <= [PhaseStarted, PhaseCompleted] || phases <= [PhaseDenied]
  }

  function Before(w: Write): seq<Phase> {
    if w.WriteCompleted? then [PhaseStarted] else []
  }

  function Through(w: Write): seq<Phase> {
    Before(w) + [PhaseOf(w)]
  }

  /** A recorded denial is never answered as an execution is, and asks for approval only behind committed evidence. */
  predicate Refusing(v: Invocation, w: Write) {
    w.WriteDenied? ==>
      && !w.answer.Success? && !w.answer.ToolError?
      && (w.answer.ApprovalRequired? ==> v.requestFlushed)
  }

  // ----- the invariant ---------------------------------------------------------

  /** The chain agrees with where the invocation stands. */
  ghost predicate PhasesFit(v: Invocation, phases: seq<Phase>) {
    match v.pc
    case Mirroring(w) => phases == Before(w) && Refusing(v, w)
    case Appending(w) => phases == Before(w) && Refusing(v, w)
    case Settled(w, secured) => (phases == Through(w) || (!secured && phases == Before(w))) && Refusing(v, w)
    case Executing => phases == [PhaseStarted]
    case FlushingOutcome(_) => phases == [PhaseStarted, PhaseCompleted]
    case FlushingRefusal(_) => phases == [PhaseDenied]
    case Answered(a) =>
      && Lifecycle(phases)
      && (a.Success? ==> phases == [PhaseStarted, PhaseCompleted])
      && (a.Denial? || a.ApprovalRequired? ==> phases == [PhaseDenied])
      && (a.ApprovalRequired? ==> v.requestFlushed)
    case _ => false
  }

  /** Only a started operation has executed, and only an executed one completes. */
  ghost predicate ExecutionFits(v: Invocation, phases: seq<Phase>) {
    && (v.executed ==> phases != [] && phases[0] == PhaseStarted)
    && (v.pc.Executing? ==> v.executed)
    && (match v.pc
        case Mirroring(w) => v.executed <==> w.WriteCompleted?
        case Appending(w) => v.executed <==> w.WriteCompleted?
        case Settled(w, _) => v.executed <==> w.WriteCompleted?
        case _ => true)
  }

  ghost predicate RecordsFit(v: Invocation, chain: seq<Record>) {
    if v.operationId.Some? then
      PhasesFit(v, Phases(chain, v.operationId.value)) && ExecutionFits(v, Phases(chain, v.operationId.value))
    else
      && (v.pc.Admitted? || v.pc.FlushingRequest? || v.pc.FlushingConsumption? || v.pc.Answered?
          || (v.tool.Health? && (v.pc.Executing? || v.pc.LoggingHealth? || v.pc.FlushingOutcome?)))
      && (v.executed ==> v.tool.Health? && !v.pc.Admitted? && !v.pc.FlushingRequest? && !v.pc.FlushingConsumption?)
      && (v.pc == Answered(Success) ==> v.tool.Health?)
      && v.pc != Answered(Denial) && v.pc != Answered(ApprovalRequired)
  }

  /** A mutation runs only past its own consumed approval. */
  ghost predicate MutationFits(v: Invocation) {
    && (v.executed && v.tool.Mutation? ==> v.consumed.Some? && v.consumptionFlushed)
    && (v.tool.Mutation? && (v.pc == Mirroring(WriteStarted) || v.pc == Appending(WriteStarted)
                             || (v.pc.Settled? && v.pc.write.WriteStarted?))
        ==> v.consumed.Some? && v.consumptionFlushed)
    && (v.pc.FlushingConsumption? ==> v.consumed.Some?)
    && (v.pc.Admitted? || v.pc.FlushingRequest? ==> v.consumed.None?)
    && (v.pc == Answered(Success) && v.consumed.Some? ==> v.outcomeFlushed)
  }

  /** The consumed approval was granted, for this binding, and is this invocation's alone. */
  ghost predicate ConsumptionFits(v: Invocation, i: nat, approvals: seq<Approval>) {
    v.consumed.Some? ==>
      && v.consumed.value < |approvals|
      && approvals[v.consumed.value].state.Consumed?
      && approvals[v.consumed.value].redeemer == Some(i)
      && approvals[v.consumed.value].token.Some?
      && v.binding == Some(approvals[v.consumed.value].binding)
  }

  ghost predicate Fits(s: Server, i: nat)
    requires i < |s.invocations|
  {
    var v := s.invocations[i];
    && (v.operationId.Some? ==> v.operationId.value < |s.owners| && s.owners[v.operationId.value] == i)
    && RecordsFit(v, s.chain) && MutationFits(v) && ConsumptionFits(v, i, s.approvals)
  }

  /** Every record belongs to the invocation its id was generated for. */
  ghost predicate Owned(s: Server) {
    && (forall k :: 0 <= k < |s.chain| ==> s.chain[k].operationId < |s.owners|)
    && (forall id :: 0 <= id < |s.owners| ==>
          s.owners[id] < |s.invocations| && s.invocations[s.owners[id]].operationId == Some(id))
  }

  ghost predicate QueueFits(s: Server) {
    && (forall k :: 0 <= k < |s.appendQueue| ==>
          s.appendQueue[k] < |s.invocations| && s.invocations[s.appendQueue[k]].pc.Appending?)
    && (forall k, l :: 0 <= k < l < |s.appendQueue| ==> s.appendQueue[k] != s.appendQueue[l])
    && (forall i :: 0 <= i < |s.invocations| && s.invocations[i].pc.Appending? ==> i in s.appendQueue)
  }

  ghost predicate Valid(s: Server) {
    && Owned(s) && QueueFits(s)
    && forall i :: 0 <= i < |s.invocations| ==> Fits(s, i)
  }

  // ----- steps that only move one invocation -----------------------------------

  /** What a step of invocation `i` leaves alone. */
  ghost predicate Mine(s: Server, s': Server, i: nat) {
    && |s.invocations| <= |s'.invocations|
    && (forall j :: 0 <= j < |s.invocations| && j != i ==> s'.invocations[j] == s.invocations[j])
    && s.owners <= s'.owners
    && (s'.chain == s.chain
        || (exists p: Phase :: i < |s.invocations| && s.invocations[i].operationId.Some?
                               && s'.chain == s.chain + [Record(p, s.invocations[i].operationId.value)]))
    && (forall r :: 0 <= r < |s.approvals| && s.approvals[r].state.Consumed? ==>
          r < |s'.approvals| && s'.approvals[r] == s.approvals[r])
  }

  lemma OthersFit(s: Server, s': Server, i: nat, j: nat)
    requires Valid(s) && Mine(s, s', i) && j < |s.invocations| && j != i
    ensures Fits(s', j)
  {
    var v := s.invocations[j];
    assert Fits(s, j);
    if s'.chain != s.chain {
      var p: Phase :| s'.chain == s.chain + [Record(p, s.invocations[i].operationId.value)];
      assert Fits(s, i);
      if v.operationId.Some? {
        PhasesAppend(s.chain, Record(p, s.invocations[i].operationId.value), v.operationId.value);
      }
    }
  }

  lemma StepOf(s: Server, s': Server, i: nat)
    requires Valid(s) && Mine(s, s', i) && |s'.invocations| == |s.invocations| && i < |s.invocations|
    requires Fits(s', i) && Owned(s') && QueueFits(s')
    ensures Valid(s')
  {
    forall j | 0 <= j < |s'.invocations| ensures Fits(s', j) {
      if j != i {
        OthersFit(s, s', i, j);
      }
    }
  }

  /** Moving an invocation that is not in the append queue disturbs neither ownership nor the queue. */
  lemma UpdateKeeps(s: Server, i: nat, v: Invocation)
    requires Valid(s) && i < |s.invocations| && !s.invocations[i].pc.Appending? && !v.pc.Appending?
    requires v.operationId == s.invocations[i].operationId
    requires RecordsFit(v, s.chain) && MutationFits(v) && ConsumptionFits(v, i, s.approvals)
    ensures Valid(Update(s, i, v))
  {
    assert Fits(s, i);
    StepOf(s, Update(s, i, v), i);
  }

  lemma DegradedKeeps(s: Server)
    requires Valid(s)
    ensures Valid(s.(degraded := true))
  {
    forall i | 0 <= i < |s.invocations| ensures Fits(s.(degraded := true), i) {
      assert Fits(s, i);
    }
  }

  lemma MintKeeps(s: Server, i: nat, w: Write)
    requires Valid(s) && i < |s.invocations| && s.invocations[i].operationId.None? && !s.invocations[i].executed
    requires !w.WriteCompleted? && Refusing(s.invocations[i], w) && !s.invocations[i].pc.Appending?
    requires w.WriteStarted? && s.invocations[i].tool.Mutation? ==>
               s.invocations[i].consumed.Some? && s.invocations[i].consumptionFlushed
    ensures Valid(Mint(s, i, w))
  {
    var s' := Mint(s, i, w);
    assert Fits(s, i);
    NoPhases(s.chain, |s.owners|);
    StepOf(s, s', i);
  }

  lemma DispatchKeeps(s: Server, i: nat, blocked: bool)
    requires Valid(s) && i < |s.invocations| && s.invocations[i].operationId.None? && !s.invocations[i].executed
    requires s.invocations[i].pc.Admitted? || s.invocations[i].pc.FlushingConsumption?
    requires s.invocations[i].tool.Mutation? ==> s.invocations[i].consumed.Some? && s.invocations[i].consumptionFlushed
    ensures Valid(Dispatch(s, i, blocked))
  {
    var v := s.invocations[i];
    assert Fits(s, i);
    if v.tool.Health? {
      UpdateKeeps(s, i, v.(pc := Executing, executed := true));
    } else if GateRefuses(s, blocked) {
      UpdateKeeps(s, i, v.(pc := Answered(AuditRefusal)));
    } else {
      MintKeeps(s, i, WriteStarted);
    }
  }

  lemma GoKeeps(s: Server, i: nat, pc: Pc)
    requires Valid(s) && i < |s.invocations| && !s.invocations[i].pc.Appending? && !pc.Appending?
    requires RecordsFit(s.invocations[i].(pc := pc), s.chain) && MutationFits(s.invocations[i].(pc := pc))
    ensures Valid(Go(s, i, pc))
  {
    assert Fits(s, i);
    UpdateKeeps(s, i, s.invocations[i].(pc := pc));
  }

  // ----- every step ------------------------------------------------------------

  lemma ArrivedKeeps(s: Server, tool: Tool, blocked: bool)
    requires Valid(s)
    ensures Valid(Arrived(s, tool, blocked))
  {
    var s' := Arrived(s, tool, blocked);
    forall j | 0 <= j < |s'.invocations| ensures Fits(s', j) {
      if j < |s.invocations| {
        assert s'.invocations[j] == s.invocations[j] && Fits(s, j);
      }
    }
  }

  /** Changing the table under unconsumed requests disturbs no invocation. */
  lemma ApprovalsKeep(s: Server, approvals: seq<Approval>)
    requires Valid(s) && |s.approvals| <= |approvals|
    requires forall r :: 0 <= r < |s.approvals| && s.approvals[r].state.Consumed? ==> approvals[r] == s.approvals[r]
    ensures Valid(s.(approvals := approvals))
  {
    var s' := s.(approvals := approvals);
    forall j | 0 <= j < |s'.invocations| ensures Fits(s', j) {
      assert Fits(s, j);
    }
  }

  lemma ConsumeKeeps(s: Server, i: nat, binding: Binding, control: Control)
    requires Valid(s) && At(s, i, Admitted)
    requires control.request < |s.approvals| && RedeemsFor(s.approvals[control.request], binding, control.token)
    ensures Valid(RedeemAndGo(s, i, binding, control))
  {
    assert Fits(s, i);
    StepOf(s, RedeemAndGo(s, i, binding, control), i);
  }

  lemma RedeemKeeps(s: Server, i: nat, binding: Binding, control: Control)
    requires Valid(s) && At(s, i, Admitted)
    ensures Valid(RedeemAndGo(s, i, binding, control))
  {
    if control.request < |s.approvals| && RedeemsFor(s.approvals[control.request], binding, control.token) {
      ConsumeKeeps(s, i, binding, control);
    } else {
      var transition := PolicyMoved(s.approvals, control, binding)
                        || (control.request < |s.approvals| && s.approvals[control.request].state.Expired?);
      var approvals := AfterFailedRedemption(s.approvals, control, binding);
      assert Fits(s, i);
      ApprovalsKeep(s, approvals);
      MintKeeps(s.(approvals := approvals), i, WriteDenied(Denial, Some(transition)));
    }
  }

  lemma RequestKeeps(s: Server, i: nat, binding: Binding, pending: Option<Option<nat>>)
    requires Valid(s) && At(s, i, Admitted)
    ensures Valid(RequestAndGo(s, i, binding, pending))
  {
    assert Fits(s, i);
    GoKeeps(s, i, Answered(Raised));
    GoKeeps(s, i, FlushingRequest);
    ApprovalsKeep(Go(s, i, FlushingRequest), s.approvals + [Approval(Pending, binding, None, None)]);
  }

  lemma DecidedKeeps(s: Server, i: nat, layer1: Effect, layer2: Effect, binding: Binding, control: Option<Control>,
                     pending: Option<Option<nat>>, blocked: bool)
    requires Valid(s) && At(s, i, Admitted)
    ensures Valid(Decided(s, i, layer1, layer2, binding, control, pending, blocked))
  {
    assert Fits(s, i);
    match EffectiveEffect(s.invocations[i].tool, layer1, layer2)
    case Deny => MintKeeps(s, i, WriteDenied(Denial, None));
    case Allow => DispatchKeeps(s, i, blocked);
    case RequireApproval =>
      if control.Some? {
        RedeemKeeps(s, i, binding, control.value);
      } else {
        RequestKeeps(s, i, binding, pending);
      }
  }

  lemma FlushedKeeps(s: Server, i: nat, ok: bool, blocked: bool)
    requires Valid(s) && i < |s.invocations|
    ensures Valid(Flushed(s, i, ok, blocked))
  {
    var v := s.invocations[i];
    assert Fits(s, i);
    match v.pc
    case FlushingRequest => RequestFlushed(s, i, ok, blocked);
    case FlushingConsumption => ConsumptionFlushed(s, i, ok, blocked);
    case FlushingOutcome(ranOk) => OutcomeFlushed(s, i, ranOk, ok, blocked);
    case FlushingRefusal(transition) => GoKeeps(s, i, Answered(if ok || !transition then Denial else EvidenceFailure));
    case _ =>
  }

  lemma RequestFlushed(s: Server, i: nat, ok: bool, blocked: bool)
    requires Valid(s) && At(s, i, FlushingRequest)
    ensures Valid(Flushed(s, i, ok, blocked))
  {
    assert Fits(s, i);
    if ok {
      var flushed := s.invocations[i].(requestFlushed := true);
      UpdateKeeps(s, i, flushed);
      MintKeeps(Update(s, i, flushed), i, WriteDenied(ApprovalRequired, None));
    } else {
      MintKeeps(s, i, WriteDenied(EvidenceFailure, None));
    }
  }

  lemma ConsumptionFlushed(s: Server, i: nat, ok: bool, blocked: bool)
    requires Valid(s) && At(s, i, FlushingConsumption)
    ensures Valid(Flushed(s, i, ok, blocked))
  {
    assert Fits(s, i);
    if ok {
      var flushed := s.invocations[i].(consumptionFlushed := true);
      UpdateKeeps(s, i, flushed);
      DispatchKeeps(Update(s, i, flushed), i, blocked);
    } else {
      MintKeeps(s, i, WriteDenied(EvidenceFailure, None));
    }
  }

  lemma OutcomeFlushed(s: Server, i: nat, ranOk: bool, ok: bool, blocked: bool)
    requires Valid(s) && At(s, i, FlushingOutcome(ranOk))
    ensures Valid(Flushed(s, i, ok, blocked))
  {
    assert Fits(s, i);
    if ok {
      var answer := if ranOk then Success else ToolError;
      UpdateKeeps(s, i, s.invocations[i].(pc := Answered(answer), outcomeFlushed := true));
    } else {
      GoKeeps(s, i, Answered(if ranOk then EvidenceFailure else ToolError));
    }
  }

  lemma ConcludeKeeps(s: Server, i: nat, ok: bool)
    requires Valid(s) && i < |s.invocations|
    requires var v := s.invocations[i];
      (v.pc.LoggingHealth? && v.operationId.None?) || (v.pc == Settled(WriteCompleted(ok), true) && v.operationId.Some?)
    ensures Valid(Conclude(s, i, ok))
  {
    assert Fits(s, i);
    if s.invocations[i].consumed.Some? {
      GoKeeps(s, i, FlushingOutcome(ok));
    } else {
      GoKeeps(s, i, Answered(if ok then Success else ToolError));
    }
  }

  lemma EnqueueKeeps(s: Server, i: nat, w: Write)
    requires Valid(s) && At(s, i, Mirroring(w))
    ensures Valid(Go(s, i, Appending(w)).(appendQueue := s.appendQueue + [i]))
  {
    assert Fits(s, i);
    QueueGrows(s, i, w);
    StepOf(s, Go(s, i, Appending(w)).(appendQueue := s.appendQueue + [i]), i);
  }

  lemma QueueGrows(s: Server, i: nat, w: Write)
    requires QueueFits(s) && At(s, i, Mirroring(w))
    ensures QueueFits(Go(s, i, Appending(w)).(appendQueue := s.appendQueue + [i]))
  {
  }

  lemma MirroredKeeps(s: Server, i: nat, ok: bool)
    requires Valid(s) && i < |s.invocations|
    ensures Valid(Mirrored(s, i, ok))
  {
    assert Fits(s, i);
    match s.invocations[i].pc
    case Mirroring(w) =>
      if !ok || s.degraded {
        GoKeeps(s, i, Settled(w, false));
      } else {
        EnqueueKeeps(s, i, w);
      }
    case LoggingHealth(ranOk) =>
      if ok {
        ConcludeKeeps(s, i, ranOk);
      } else {
        GoKeeps(s, i, Answered(Raised));
      }
    case _ =>
  }

  lemma SettledFits(v: Invocation, chain: seq<Record>, store: Store)
    requires v.pc.Appending? && v.operationId.Some? && RecordsFit(v, chain)
    ensures var r := Record(PhaseOf(v.pc.write), v.operationId.value);
      RecordsFit(v.(pc := Settled(v.pc.write, store.Stored?)),
                 if store.Stored? || store.landed then chain + [r] else chain)
  {
    PhasesAppend(chain, Record(PhaseOf(v.pc.write), v.operationId.value), v.operationId.value);
  }

  lemma StoreSettledKeeps(s: Server, store: Store)
    requires Valid(s)
    ensures Valid(StoreSettled(s, store))
  {
    if s.appendQueue != [] {
      var i := s.appendQueue[0];
      assert Fits(s, i);
      SettledFits(s.invocations[i], s.chain, store);
      PopKeeps(s, StoreSettled(s, store), i);
      StoreSettledMine(s, store);
      StepOf(s, StoreSettled(s, store), i);
    }
  }

  lemma StoreSettledMine(s: Server, store: Store)
    requires Valid(s) && s.appendQueue != []
    ensures Mine(s, StoreSettled(s, store), s.appendQueue[0]) && Owned(StoreSettled(s, store))
    ensures Fits(StoreSettled(s, store), s.appendQueue[0])
  {
    var i := s.appendQueue[0];
    var v := s.invocations[i];
    assert Fits(s, i);
    SettledFits(v, s.chain, store);
    assert (store.Stored? || store.landed) ==>
      StoreSettled(s, store).chain == s.chain + [Record(PhaseOf(v.pc.write), v.operationId.value)];
  }

  lemma PopKeeps(s: Server, s': Server, i: nat)
    requires Valid(s) && s.appendQueue != [] && s.appendQueue[0] == i && s'.appendQueue == s.appendQueue[1..]
    requires |s'.invocations| == |s.invocations|
    requires forall j :: 0 <= j < |s.invocations| && j != i ==> s'.invocations[j] == s.invocations[j]
    requires !s'.invocations[i].pc.Appending?
    ensures QueueFits(s')
  {
    forall j | 0 <= j < |s'.invocations| && s'.invocations[j].pc.Appending? ensures j in s'.appendQueue {
      assert j in s.appendQueue && j != i;
    }
  }

  lemma ResumedKeeps(s: Server, i: nat)
    requires Valid(s) && i < |s.invocations|
    ensures Valid(Resumed(s, i))
  {
    var v := s.invocations[i];
    assert Fits(s, i);
    match v.pc
    case Settled(WriteDenied(answer, after), secured) =>
      DeniedResumes(s, i, answer, after, secured);
    case Settled(WriteStarted, secured) =>
      if secured {
        UpdateKeeps(s, i, v.(pc := Executing, executed := true));
      } else {
        GoKeeps(s, i, Answered(AuditRefusal));
      }
    case Settled(WriteCompleted(ok), secured) =>
      if secured {
        ConcludeKeeps(s, i, ok);
      } else {
        GoKeeps(s, i, Answered(AuditRefusal));
        DegradedKeeps(Go(s, i, Answered(AuditRefusal)));
      }
    case _ =>
  }

  lemma DeniedResumes(s: Server, i: nat, answer: Answer, after: Option<bool>, secured: bool)
    requires Valid(s) && At(s, i, Settled(WriteDenied(answer, after), secured))
    ensures Valid(Resumed(s, i))
  {
    assert Fits(s, i);
    if !secured {
      GoKeeps(s, i, Answered(PersistenceFailure));
      DegradedKeeps(Go(s, i, Answered(PersistenceFailure)));
    } else if after.Some? {
      GoKeeps(s, i, FlushingRefusal(after.value));
    } else {
      GoKeeps(s, i, Answered(answer));
    }
  }

  lemma ReturnedKeeps(s: Server, i: nat, ok: bool)
    requires Valid(s) && i < |s.invocations|
    ensures Valid(Returned(s, i, ok))
  {
    assert Fits(s, i);
    if s.invocations[i].pc.Executing? {
      if s.invocations[i].operationId.None? {
        GoKeeps(s, i, LoggingHealth(ok));
      } else {
        GoKeeps(s, i, Mirroring(WriteCompleted(ok)));
      }
    }
  }

  lemma RefusedKeeps(s: Server, i: nat)
    requires Valid(s) && At(s, i, Admitted)
    ensures Valid(Mint(s, i, WriteDenied(Denial, None)))
  {
    assert Fits(s, i);
    MintKeeps(s, i, WriteDenied(Denial, None));
  }

  lemma StepKeeps(s: Server, e: Event)
    requires Valid(s)
    ensures Valid(Step(s, e))
  {
    match e
    case Arrive(tool, blocked) => ArrivedKeeps(s, tool, blocked);
    case Refuse(i) => if At(s, i, Admitted) { RefusedKeeps(s, i); }
    case Decide(i, layer1, layer2, binding, control, pending, blocked) =>
      if At(s, i, Admitted) {
        DecidedKeeps(s, i, layer1, layer2, binding, control, pending, blocked);
      }
    case FlushDone(i, ok, blocked) => if i < |s.invocations| { FlushedKeeps(s, i, ok, blocked); }
    case MirrorDone(i, ok) => if i < |s.invocations| { MirroredKeeps(s, i, ok); }
    case StoreSettles(store) => StoreSettledKeeps(s, store);
    case Resume(i) => if i < |s.invocations| { ResumedKeeps(s, i); }
    case ToolReturns(i, ok) => if i < |s.invocations| { ReturnedKeeps(s, i, ok); }
    case Operator(request, action) => ApprovalsKeep(s, Operated(s, request, action).approvals);
  }

  lemma {:induction false} RunKeeps(s: Server, events: seq<Event>)
    requires Valid(s)
    ensures Valid(Run(s, events))
    decreases |events|
  {
    if events != [] {
      StepKeeps(s, events[0]);
      RunKeeps(Step(s, events[0]), events[1..]);
    }
  }

  // ----- the guarantees --------------------------------------------------------

  lemma {:induction false} PhaseIsRecorded(chain: seq<Record>, id: nat, p: Phase)
    requires p in Phases(chain, id)
    ensures Record(p, id) in chain
  {
    var last := chain[|chain| - 1];
    if !(last.operationId == id && last.phase == p) {
      PhaseIsRecorded(chain[..|chain| - 1], id, p);
    }
  }

  /** The record of the start is in the hands of the store, or already secured. */
  ghost predicate AwaitsStart(v: Invocation) {
    v.pc == Appending(WriteStarted) || v.pc == Settled(WriteStarted, true)
  }

  /** How any one step can move an invocation. */
  ghost predicate Moves(degraded: bool, v: Invocation, v': Invocation) {
    && v'.tool == v.tool
    && (v'.executed && !v.executed ==> v.tool.Health? || v.pc == Settled(WriteStarted, true))
    && (degraded && AwaitsStart(v') ==> AwaitsStart(v))
  }

  ghost predicate AllMove(s: Server, s': Server) {
    && |s.invocations| <= |s'.invocations| && (s.degraded ==> s'.degraded)
    && forall i :: 0 <= i < |s.invocations| ==> Moves(s.degraded, s.invocations[i], s'.invocations[i])
  }

  lemma UpdateMoves(s: Server, i: nat, v: Invocation)
    requires i < |s.invocations| && Moves(s.degraded, s.invocations[i], v)
    ensures AllMove(s, Update(s, i, v))
  {
  }

  lemma DispatchMoves(s: Server, i: nat, blocked: bool)
    requires i < |s.invocations|
    ensures AllMove(s, Dispatch(s, i, blocked))
  {
  }

  lemma RedeemMoves(s: Server, i: nat, binding: Binding, control: Control)
    requires i < |s.invocations|
    ensures AllMove(s, RedeemAndGo(s, i, binding, control))
  {
  }

  lemma RequestMoves(s: Server, i: nat, binding: Binding, pending: Option<Option<nat>>)
    requires i < |s.invocations|
    ensures AllMove(s, RequestAndGo(s, i, binding, pending))
  {
  }

  lemma DecidedMoves(s: Server, i: nat, layer1: Effect, layer2: Effect, binding: Binding, control: Option<Control>,
                     pending: Option<Option<nat>>, blocked: bool)
    requires i < |s.invocations|
    ensures AllMove(s, Decided(s, i, layer1, layer2, binding, control, pending, blocked))
  {
    match EffectiveEffect(s.invocations[i].tool, layer1, layer2)
    case Deny => MintMoves(s, i, WriteDenied(Denial, None));
    case Allow => DispatchMoves(s, i, blocked);
    case RequireApproval =>
      if control.Some? {
        RedeemMoves(s, i, binding, control.value);
      } else {
        RequestMoves(s, i, binding, pending);
      }
  }

  lemma FlushedMoves(s: Server, i: nat, ok: bool, blocked: bool)
    requires i < |s.invocations|
    ensures AllMove(s, Flushed(s, i, ok, blocked))
  {
    match s.invocations[i].pc
    case FlushingRequest =>
      MintMoves(s, i, WriteDenied(EvidenceFailure, None));
      RequestMovesOn(s, i);
    case FlushingConsumption =>
      MintMoves(s, i, WriteDenied(EvidenceFailure, None));
      ConsumptionMoves(s, i, blocked);
    case FlushingOutcome(_) => OutcomeMoves(s, i, ok, blocked);
    case FlushingRefusal(_) => RefusalMoves(s, i, ok, blocked);
    case _ =>
  }

  lemma OutcomeMoves(s: Server, i: nat, ok: bool, blocked: bool)
    requires i < |s.invocations| && s.invocations[i].pc.FlushingOutcome?
    ensures AllMove(s, Flushed(s, i, ok, blocked))
  {
    var v := s.invocations[i];
    UpdateMoves(s, i, v.(pc := Answered(if v.pc.ok then Success else ToolError), outcomeFlushed := true));
    UpdateMoves(s, i, v.(pc := Answered(if v.pc.ok then EvidenceFailure else ToolError)));
  }

  lemma RefusalMoves(s: Server, i: nat, ok: bool, blocked: bool)
    requires i < |s.invocations| && s.invocations[i].pc.FlushingRefusal?
    ensures AllMove(s, Flushed(s, i, ok, blocked))
  {
    var v := s.invocations[i];
    UpdateMoves(s, i, v.(pc := Answered(if ok || !v.pc.transition then Denial else EvidenceFailure)));
  }

  lemma RequestMovesOn(s: Server, i: nat)
    requires i < |s.invocations|
    ensures AllMove(s, Mint(Update(s, i, s.invocations[i].(requestFlushed := true)), i,
                            WriteDenied(ApprovalRequired, None)))
  {
  }

  lemma ConsumptionMoves(s: Server, i: nat, blocked: bool)
    requires i < |s.invocations|
    ensures AllMove(s, Dispatch(Update(s, i, s.invocations[i].(consumptionFlushed := true)), i, blocked))
  {
  }

  lemma MintMoves(s: Server, i: nat, w: Write)
    requires i < |s.invocations|
    ensures AllMove(s, Mint(s, i, w))
  {
    UpdateMoves(s, i, s.invocations[i].(operationId := Some(|s.owners|), pc := Mirroring(w)));
  }

  lemma GoMoves(s: Server, i: nat, pc: Pc)
    requires i < |s.invocations|
    requires s.degraded && (pc == Appending(WriteStarted) || pc == Settled(WriteStarted, true)) ==>
               AwaitsStart(s.invocations[i])
    ensures AllMove(s, Go(s, i, pc))
  {
    UpdateMoves(s, i, s.invocations[i].(pc := pc));
  }

  lemma ConcludeMoves(s: Server, i: nat, ok: bool)
    requires i < |s.invocations|
    ensures AllMove(s, Conclude(s, i, ok))
  {
    GoMoves(s, i, FlushingOutcome(ok));
    GoMoves(s, i, Answered(if ok then Success else ToolError));
  }

  lemma MirroredMoves(s: Server, i: nat, ok: bool)
    requires i < |s.invocations|
    ensures AllMove(s, Mirrored(s, i, ok))
  {
    match s.invocations[i].pc
    case Mirroring(w) =>
      GoMoves(s, i, Settled(w, false));
      if !s.degraded {
        GoMoves(s, i, Appending(w));
      }
    case LoggingHealth(ranOk) =>
      ConcludeMoves(s, i, ranOk);
      GoMoves(s, i, Answered(Raised));
    case _ =>
  }

  lemma StoreSettledMoves(s: Server, store: Store)
    ensures AllMove(s, StoreSettled(s, store))
  {
    if s.appendQueue != [] && s.appendQueue[0] < |s.invocations| {
      var i := s.appendQueue[0];
      if s.invocations[i].pc.Appending? {
        GoMoves(s, i, Settled(s.invocations[i].pc.write, store.Stored?));
      }
    }
  }

  lemma ResumedMoves(s: Server, i: nat)
    requires i < |s.invocations|
    ensures AllMove(s, Resumed(s, i))
  {
    match s.invocations[i].pc
    case Settled(WriteDenied(answer, after), secured) => DeniedMoves(s, i, answer, after);
    case Settled(WriteStarted, secured) =>
      GoMoves(s, i, Answered(AuditRefusal));
      if secured {
        UpdateMoves(s, i, s.invocations[i].(pc := Executing, executed := true));
      }
    case Settled(WriteCompleted(ok), secured) =>
      ConcludeMoves(s, i, ok);
      GoMoves(s, i, Answered(AuditRefusal));
    case _ =>
  }

  lemma DeniedMoves(s: Server, i: nat, answer: Answer, after: Option<bool>)
    requires i < |s.invocations|
    ensures AllMove(s, Go(s, i, Answered(PersistenceFailure)).(degraded := true))
    ensures AllMove(s, Go(s, i, Answered(answer)))
    ensures after.Some? ==> AllMove(s, Go(s, i, FlushingRefusal(after.value)))
  {
    GoMoves(s, i, Answered(PersistenceFailure));
    GoMoves(s, i, Answered(answer));
    if after.Some? {
      GoMoves(s, i, FlushingRefusal(after.value));
    }
  }

  lemma ReturnedMoves(s: Server, i: nat, ok: bool)
    requires i < |s.invocations|
    ensures AllMove(s, Returned(s, i, ok))
  {
    GoMoves(s, i, LoggingHealth(ok));
    GoMoves(s, i, Mirroring(WriteCompleted(ok)));
  }

  lemma StepMoves(s: Server, e: Event)
    ensures AllMove(s, Step(s, e))
  {
    match e
    case Arrive(tool, blocked) =>
    case Refuse(i) => if i < |s.invocations| { MintMoves(s, i, WriteDenied(Denial, None)); }
    case Decide(i, layer1, layer2, binding, control, pending, blocked) =>
      if At(s, i, Admitted) {
        DecidedMoves(s, i, layer1, layer2, binding, control, pending, blocked);
      }
    case FlushDone(i, ok, blocked) => if i < |s.invocations| { FlushedMoves(s, i, ok, blocked); }
    case MirrorDone(i, ok) => if i < |s.invocations| { MirroredMoves(s, i, ok); }
    case StoreSettles(store) => StoreSettledMoves(s, store);
    case Resume(i) => if i < |s.invocations| { ResumedMoves(s, i); }
    case ToolReturns(i, ok) => if i < |s.invocations| { ReturnedMoves(s, i, ok); }
    case Operator(_, _) =>
  }

  /** Every tool execution but `health` has its own STARTED in the durable chain already when it begins. */
  lemma ExecutionFollowsStarted(s: Server, e: Event, i: nat)
    requires Valid(s) && i < |s.invocations| && !s.invocations[i].executed && !s.invocations[i].tool.Health?
    requires i < |Step(s, e).invocations| && Step(s, e).invocations[i].executed
    ensures s.invocations[i].operationId.Some? && s.invocations[i].operationId.value < |s.owners|
    ensures s.owners[s.invocations[i].operationId.value] == i
    ensures Record(PhaseStarted, s.invocations[i].operationId.value) in s.chain
  {
    StepMoves(s, e);
    assert Moves(s.degraded, s.invocations[i], Step(s, e).invocations[i]);
    assert Fits(s, i);
    PhaseIsRecorded(s.chain, s.invocations[i].operationId.value, PhaseStarted);
  }

  lemma {:induction false} TwoRecords(chain: seq<Record>, id: nat, k: nat, l: nat)
    requires Lifecycle(Phases(chain, id)) && k < l < |chain| && chain[k].operationId == chain[l].operationId == id
    ensures chain[k].phase == PhaseStarted && chain[l].phase == PhaseCompleted
  {
    var before := chain[..|chain| - 1];
    if l == |chain| - 1 {
      HasPhase(before, id, k);
      assert Phases(chain, id) == Phases(before, id) + [chain[l].phase];
      assert Phases(chain, id) == [PhaseStarted] + [PhaseCompleted];
      assert Phases(before, id) == Phases(chain, id)[..1] && Phases(chain, id)[1] == chain[l].phase;
    } else {
      TwoRecords(before, id, k, l);
    }
  }

  lemma {:induction false} HasPhase(chain: seq<Record>, id: nat, k: nat)
    requires k < |chain| && chain[k].operationId == id
    ensures chain[k].phase in Phases(chain, id)
  {
    if k < |chain| - 1 {
      HasPhase(chain[..|chain| - 1], id, k);
    }
  }

  /** In every run an operation id has at most one STARTED and at most one, later, COMPLETED; the id of a DENIED has no
      other record. */
  lemma OncePerOperation(s: Server, events: seq<Event>, k: nat, l: nat)
    requires Valid(s) && k < l < |Run(s, events).chain|
    requires Run(s, events).chain[k].operationId == Run(s, events).chain[l].operationId
    ensures Run(s, events).chain[k].phase == PhaseStarted && Run(s, events).chain[l].phase == PhaseCompleted
  {
    RunKeeps(s, events);
    var s' := Run(s, events);
    var id := s'.chain[k].operationId;
    assert Fits(s', s'.owners[id]);
    TwoRecords(s'.chain, id, k, l);
  }

  /** In every run a success answer has its COMPLETED in the durable chain, and an approved one its evidence flushed. */
  lemma SuccessIsRecorded(s: Server, events: seq<Event>, i: nat)
    requires Valid(s) && At(Run(s, events), i, Answered(Success))
    ensures var s' := Run(s, events);
      var v := s'.invocations[i];
      && (v.consumed.Some? ==> v.outcomeFlushed)
      && (!v.tool.Health? ==> v.operationId.Some? && Record(PhaseCompleted, v.operationId.value) in s'.chain
                              && Record(PhaseStarted, v.operationId.value) in s'.chain)
  {
    RunKeeps(s, events);
    var s' := Run(s, events);
    assert Fits(s', i);
    if s'.invocations[i].operationId.Some? {
      PhaseIsRecorded(s'.chain, s'.invocations[i].operationId.value, PhaseStarted);
      PhaseIsRecorded(s'.chain, s'.invocations[i].operationId.value, PhaseCompleted);
    }
  }

  /** In every run a policy denial, and a request for approval, is answered only with its DENIED in the durable chain;
      the latter only with the evidence of the request flushed as well. */
  lemma DenialIsRecorded(s: Server, events: seq<Event>, i: nat)
    requires Valid(s) && (At(Run(s, events), i, Answered(Denial)) || At(Run(s, events), i, Answered(ApprovalRequired)))
    ensures var s' := Run(s, events);
      var v := s'.invocations[i];
      && v.operationId.Some? && Record(PhaseDenied, v.operationId.value) in s'.chain && !v.executed
      && (v.pc.answer.ApprovalRequired? ==> v.requestFlushed)
  {
    RunKeeps(s, events);
    var s' := Run(s, events);
    assert Fits(s', i);
    PhaseIsRecorded(s'.chain, s'.invocations[i].operationId.value, PhaseDenied);
  }

  /** In every run each executed mutation consumed an approval that an operator had granted for exactly its payload,
      actor, workspace and policy, with the evidence flushed; no two invocations share one. */
  lemma MutationsAreApproved(s: Server, events: seq<Event>, i: nat, j: nat)
    requires Valid(s) && i < |Run(s, events).invocations| && j < |Run(s, events).invocations|
    ensures var s' := Run(s, events);
      var (v, w) := (s'.invocations[i], s'.invocations[j]);
      && (v.executed && v.tool.Mutation? ==>
            && v.consumed.Some? && v.consumed.value < |s'.approvals| && v.consumptionFlushed
            && s'.approvals[v.consumed.value].state.Consumed? && s'.approvals[v.consumed.value].token.Some?
            && Some(s'.approvals[v.consumed.value].binding) == v.binding)
      && (v.consumed.Some? && v.consumed == w.consumed ==> i == j)
  {
    RunKeeps(s, events);
    assert Fits(Run(s, events), i) && Fits(Run(s, events), j);
  }

  /** The approval table changes only by an operator, the deadline, or an admitted invocation whose composed policy
      decision is to require approval: never where the first gate or a policy layer refuses. */
  lemma ApprovalsTouchedOnlyWhenRequired(s: Server, e: Event)
    requires Step(s, e).approvals != s.approvals
    ensures e.Operator? ||
      (e.Decide? && At(s, e.i, Admitted) && !e.layer1.Deny? && !e.layer2.Deny?
       && EffectiveEffect(s.invocations[e.i].tool, e.layer1, e.layer2).RequireApproval?)
  {
  }

  /** The event may change the approval table. */
  predicate Asks(s: Server, e: Event) {
    || e.Operator?
    || (e.Decide? && At(s, e.i, Admitted)
        && EffectiveEffect(s.invocations[e.i].tool, e.layer1, e.layer2).RequireApproval?)
  }

  predicate NoneAsks(s: Server, events: seq<Event>)
    decreases |events|
  {
    events == [] || (!Asks(s, events[0]) && NoneAsks(Step(s, events[0]), events[1..]))
  }

  /** A run without an operator in which no composed decision is to require approval leaves the approval table as it
      is: refusals of the gate or of either policy layer, and plain permissions, create and redeem nothing. */
  lemma {:induction false} ApprovalsUntouched(s: Server, events: seq<Event>)
    requires NoneAsks(s, events)
    ensures Run(s, events).approvals == s.approvals
    decreases |events|
  {
    if events != [] {
      if Step(s, events[0]).approvals != s.approvals {
        ApprovalsTouchedOnlyWhenRequired(s, events[0]);
      }
      ApprovalsUntouched(Step(s, events[0]), events[1..]);
    }
  }

  ghost predicate ConsumedStay(s: Server, s': Server) {
    && |s.approvals| <= |s'.approvals|
    && forall r :: 0 <= r < |s.approvals| && s.approvals[r].state.Consumed? ==> s'.approvals[r] == s.approvals[r]
  }

  lemma StepLeavesConsumed(s: Server, e: Event)
    ensures ConsumedStay(s, Step(s, e))
  {
    if Step(s, e).approvals != s.approvals {
      ApprovalsTouchedOnlyWhenRequired(s, e);
    }
  }

  /** A consumed approval is consumed for good: in every run it keeps its redeemer and is never redeemed again. */
  lemma {:induction false} ConsumedForGood(s: Server, events: seq<Event>)
    ensures ConsumedStay(s, Run(s, events))
    decreases |events|
  {
    if events != [] {
      StepLeavesConsumed(s, events[0]);
      ConsumedForGood(Step(s, events[0]), events[1..]);
    }
  }

  // ----- the degraded latch ----------------------------------------------------

  /** Once the latch is set it stays set, and from then on only an invocation whose STARTED had already been handed
      to the store can still begin to execute. */
  lemma {:induction false} LatchStops(s: Server, events: seq<Event>, i: nat)
    requires s.degraded && i < |Run(s, events).invocations| && !Run(s, events).invocations[i].tool.Health?
    requires i < |s.invocations| ==> !s.invocations[i].executed && !AwaitsStart(s.invocations[i])
    ensures Run(s, events).degraded && !Run(s, events).invocations[i].executed
    decreases |events|
  {
    if events != [] {
      var s' := Step(s, events[0]);
      StepMoves(s, events[0]);
      if i < |s'.invocations| {
        ToolStays(s', events[1..], i);
        if i < |s.invocations| {
          assert Moves(s.degraded, s.invocations[i], s'.invocations[i]);
        } else {
          NewcomersStandAside(s, events[0], i);
        }
      }
      LatchStops(s', events[1..], i);
    }
  }

  /** The invocation a step moves, or none. */
  function Target(s: Server, e: Event): int {
    match e
    case Arrive(_, _) => -1
    case Operator(_, _) => -1
    case StoreSettles(_) => if s.appendQueue == [] then -1 else s.appendQueue[0]
    case _ => e.i
  }

  ghost predicate OnlyAt(s: Server, s': Server, i: int) {
    && |s'.invocations| == |s.invocations|
    && forall j :: 0 <= j < |s.invocations| && j != i ==> s'.invocations[j] == s.invocations[j]
  }

  lemma DecidedOnly(s: Server, i: nat, layer1: Effect, layer2: Effect,
                    binding: Binding, control: Option<Control>, pending: Option<Option<nat>>, blocked: bool)
    requires i < |s.invocations|
    ensures OnlyAt(s, Decided(s, i, layer1, layer2, binding, control, pending, blocked), i)
  {
    assert OnlyAt(s, Dispatch(s, i, blocked), i);
    assert OnlyAt(s, RequestAndGo(s, i, binding, pending), i);
    if control.Some? {
      assert OnlyAt(s, RedeemAndGo(s, i, binding, control.value), i);
    }
  }

  lemma FlushedOnly(s: Server, i: nat, ok: bool, blocked: bool)
    requires i < |s.invocations|
    ensures OnlyAt(s, Flushed(s, i, ok, blocked), i)
  {
  }

  lemma MirroredOnly(s: Server, i: nat, ok: bool)
    requires i < |s.invocations|
    ensures OnlyAt(s, Mirrored(s, i, ok), i)
  {
  }

  lemma ResumedOnly(s: Server, i: nat)
    requires i < |s.invocations|
    ensures OnlyAt(s, Resumed(s, i), i)
  {
  }

  lemma StepOnly(s: Server, e: Event)
    requires !e.Arrive?
    ensures OnlyAt(s, Step(s, e), Target(s, e))
  {
    match e
    case Refuse(i) =>
    case Decide(i, layer1, layer2, binding, control, pending, blocked) =>
      if At(s, i, Admitted) {
        DecidedOnly(s, i, layer1, layer2, binding, control, pending, blocked);
      }
    case FlushDone(i, ok, blocked) => if i < |s.invocations| { FlushedOnly(s, i, ok, blocked); }
    case MirrorDone(i, ok) => if i < |s.invocations| { MirroredOnly(s, i, ok); }
    case StoreSettles(_) =>
    case Resume(i) => if i < |s.invocations| { ResumedOnly(s, i); }
    case ToolReturns(_, _) =>
    case Operator(_, _) =>
  }

  lemma NewcomersStandAside(s: Server, e: Event, i: nat)
    requires |s.invocations| <= i < |Step(s, e).invocations|
    ensures !Step(s, e).invocations[i].executed && !AwaitsStart(Step(s, e).invocations[i])
  {
    if !e.Arrive? {
      StepOnly(s, e);
      assert false;
    }
  }

  lemma {:induction false} ToolStays(s: Server, events: seq<Event>, i: nat)
    requires i < |s.invocations|
    ensures i < |Run(s, events).invocations| && Run(s, events).invocations[i].tool == s.invocations[i].tool
    decreases |events|
  {
    if events != [] {
      StepMoves(s, events[0]);
      ToolStays(Step(s, events[0]), events[1..], i);
    }
  }

  ghost predicate Executes(s: Server, events: seq<Event>, i: nat) {
    i < |Run(s, events).invocations| && Run(s, events).invocations[i].executed
  }

  lemma RunCons(s: Server, e: Event, rest: seq<Event>)
    ensures Run(s, [e] + rest) == Run(Step(s, e), rest)
  {
    assert ([e] + rest)[1..] == rest;
  }

  lemma StoredStep(s: Server)
    requires Valid(s) && s.appendQueue != []
    ensures var s' := Step(s, StoreSettles(Stored));
      var i := s.appendQueue[0];
      && s'.appendQueue == s.appendQueue[1..] && |s'.invocations| == |s.invocations|
      && s.invocations[i].pc.Appending? && s'.invocations[i].pc == Settled(s.invocations[i].pc.write, true)
      && forall j :: 0 <= j < |s.invocations| && j != i ==> s'.invocations[j] == s.invocations[j]
  {
    assert Fits(s, s.appendQueue[0]);
  }

  lemma StartedResumes(s: Server, i: nat)
    requires At(s, i, Settled(WriteStarted, true))
    ensures Executes(s, [Resume(i)] + [], i)
  {
    RunCons(s, Resume(i), []);
  }

  /** A start that the store has is reached once the appends before it are over. */
  lemma {:induction false} StoreReaches(s: Server, i: nat, k: nat) returns (events: seq<Event>)
    requires Valid(s) && At(s, i, Appending(WriteStarted)) && k < |s.appendQueue| && s.appendQueue[k] == i
    ensures Executes(s, events, i)
    decreases k
  {
    var s' := Step(s, StoreSettles(Stored));
    StepKeeps(s, StoreSettles(Stored));
    StoredStep(s);
    if k == 0 {
      StartedResumes(s', i);
      events := [StoreSettles(Stored)] + ([Resume(i)] + []);
      RunCons(s, StoreSettles(Stored), [Resume(i)] + []);
    } else {
      assert s.appendQueue[0] != i && s'.appendQueue[k - 1] == i;
      var rest := StoreReaches(s', i, k - 1);
      events := [StoreSettles(Stored)] + rest;
      RunCons(s, StoreSettles(Stored), rest);
    }
  }

  /** On a degraded server, an invocation that has not run can still run exactly when its STARTED is with the store or
      secured: the latch does not call back what was already handed over. */
  lemma LatchExactly(s: Server, i: nat)
    requires Valid(s) && s.degraded && i < |s.invocations|
    requires !s.invocations[i].tool.Health? && !s.invocations[i].executed
    ensures (exists events :: Executes(s, events, i)) <==> AwaitsStart(s.invocations[i])
  {
    if AwaitsStart(s.invocations[i]) {
      if s.invocations[i].pc.Settled? {
        StartedResumes(s, i);
      } else {
        var k :| 0 <= k < |s.appendQueue| && s.appendQueue[k] == i;
        var events := StoreReaches(s, i, k);
      }
    } else {
      forall events ensures !Executes(s, events, i) {
        ToolStays(s, events, i);
        LatchStops(s, events, i);
      }
    }
  }

  function Allowed(i: nat): Event {
    Decide(i, Allow, Allow, Binding("", "", "", ""), None, None, false)
  }

  /** An invocation without an approval. */
  function Plain(pc: Pc, id: Option<nat>, executed: bool): Invocation {
    Invocation(Other, pc, None, id, None, false, false, executed, false)
  }

  // A concrete run in four parts. The first invocation runs; its COMPLETED and the second's STARTED go to the store, in
  // that order; the COMPLETED is rejected, which sets the latch; and then the STARTED is stored.

  function FirstRuns(): seq<Event> {
    [Arrive(Other, false), Arrive(Other, false), Allowed(0), MirrorDone(0, true), StoreSettles(Stored), Resume(0)]
  }

  function AfterFirst(): Server {
    Server([Plain(Executing, Some(0), true), Plain(Admitted, None, false)],
           [], [0], [], [Record(PhaseStarted, 0)], false)
  }

  function BothWrite(): seq<Event> {
    [ToolReturns(0, true), MirrorDone(0, true), Allowed(1), MirrorDone(1, true)]
  }

  function AfterBoth(): Server {
    Server([Plain(Appending(WriteCompleted(true)), Some(0), true), Plain(Appending(WriteStarted), Some(1), false)],
           [], [0, 1], [0, 1], [Record(PhaseStarted, 0)], false)
  }

  function FirstFails(): seq<Event> {
    [StoreSettles(Rejected(false)), Resume(0)]
  }

  function AfterFailure(): Server {
    Server([Plain(Answered(AuditRefusal), Some(0), true), Plain(Appending(WriteStarted), Some(1), false)],
           [], [0, 1], [1], [Record(PhaseStarted, 0)], true)
  }

  lemma FirstPart()
    ensures Run(STARTED_SERVER, FirstRuns()) == AfterFirst()
  {
  }

  lemma SecondPart()
    ensures Run(AfterFirst(), BothWrite()) == AfterBoth()
  {
  }

  lemma ThirdPart()
    ensures Run(AfterBoth(), FirstFails()) == AfterFailure()
  {
  }

  lemma FourthPart()
    ensures Executes(AfterFailure(), [StoreSettles(Stored), Resume(1)], 1)
  {
  }

  lemma {:induction false} RunConcat(s: Server, a: seq<Event>, b: seq<Event>)
    ensures Run(s, a + b) == Run(Run(s, a), b)
    decreases |a|
  {
    if a == [] {
      assert a + b == b;
    } else {
      assert (a + b)[1..] == a[1..] + b;
      RunConcat(Step(s, a[0]), a[1..], b);
    }
  }

  /** A concrete run in which a tool runs although the latch is set: its STARTED was with the store by then. */
  lemma LatchDoesNotCallBack(events: seq<Event>)
    requires events == FirstRuns() + (BothWrite() + FirstFails())
    ensures var s := Run(STARTED_SERVER, events);
      && s.degraded && |s.invocations| == 2 && !s.invocations[1].executed
      && Executes(s, [StoreSettles(Stored), Resume(1)], 1)
  {
    RunConcat(STARTED_SERVER, FirstRuns(), BothWrite() + FirstFails());
    RunConcat(AfterFirst(), BothWrite(), FirstFails());
    FirstPart();
    SecondPart();
    ThirdPart();
    FourthPart();
  }

  lemma StartedServerIsValid()
    ensures Valid(STARTED_SERVER)
  {
  }
}

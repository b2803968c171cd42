/**
 * The tool-execution pipeline of a started server as a state machine: any number of invocations,
 * interleaved at every `await`, over one durable chain, one degraded latch and one approval table.
 *
 * Each step is one synchronous stretch of the pipeline. What the model does not decide (schema
 * checks, policy layers, storage outcomes, flush outcomes, tool results) arrives with the step.
 */
module ToolPipeline {
  import opened Options
  import opened PolicyDecisions

  /** `health` reaches no subsystem; a mutation is one of the file-mutation tools. */
  datatype Tool = Health | Mutation | Other

  /** What an approval is bound to. */
  datatype Binding = Binding(payload: string, actor: string, workspace: string, policy: string)

  datatype Control = Control(request: nat, token: string)

  datatype ApprovalState = Pending | Approved | Consumed | Expired | Closed   // closed: rejected or invalidated

  /** One request; `redeemer` is the invocation that consumed it. */
  datatype Approval = Approval(state: ApprovalState, binding: Binding, token: Option<string>, redeemer: Option<nat>)

  datatype Answer =
    | Success
    | ToolError
    | Denial
    | ApprovalRequired
    | AuditRefusal          // refused by a gate, or the record of its start or end could not be secured
    | PersistenceFailure    // a denial that could not be recorded
    | EvidenceFailure       // required approval evidence could not be committed
    | Raised                // an error of the approval table leaves the pipeline

  datatype Phase = PhaseStarted | PhaseCompleted | PhaseDenied

  /** A lifecycle record on its way to the durable chain, and how the invocation goes on once it is secured. */
  datatype Write =
    | WriteDenied(answer: Answer, after: Option<bool>)   // `after`: evidence still to flush; is it of a transition?
    | WriteStarted
    | WriteCompleted(ok: bool)

  datatype Pc =
    | Admitted                          // past the first gate
    | FlushingRequest                   // an approval request was created or reused
    | FlushingConsumption               // an approval was consumed
    | Mirroring(write: Write)           // awaiting the in-memory mirror
    | Appending(write: Write)           // enqueued behind earlier appends to the durable chain
    | Settled(write: Write, secured: bool)
    | Executing                         // inside the subsystem
    | LoggingHealth(ok: bool)           // awaiting the in-memory mirror alone
    | FlushingOutcome(ok: bool)         // evidence of an approved execution
    | FlushingRefusal(transition: bool) // evidence of a failed redemption, which may have closed the request
    | Answered(answer: Answer)

  datatype Invocation = Invocation(
    tool: Tool,
    pc: Pc,
    binding: Option<Binding>,
    operationId: Option<nat>,
    consumed: Option<nat>,      // the approval it consumed
    requestFlushed: bool,       // whether the evidence of its approval request was committed
    consumptionFlushed: bool,   // and that of its consumption
    executed: bool,
    outcomeFlushed: bool)

  datatype Record = Record(phase: Phase, operationId: nat)

  datatype Server = Server(
    invocations: seq<Invocation>,
    approvals: seq<Approval>,
    owners: seq<nat>,           // the invocation each operation id was generated for
    appendQueue: seq<nat>,      // invocations whose append is enqueued, in order
    chain: seq<Record>,
    degraded: bool)

  const STARTED_SERVER := Server([], [], [], [], [], false)

  /** How a store operation ends; a rejected one may have left its record in the chain. */
  datatype Store = Stored | Rejected(landed: bool)

  datatype OperatorAction = Grant(token: string) | Reject | Expire

  datatype Event =
    | Arrive(tool: Tool, blocked: bool)
    | Refuse(i: nat)                                   // by schema, workspace, authorization or target checks
    | Decide(i: nat, layer1: Effect, layer2: Effect, binding: Binding, control: Option<Control>,
             pending: Option<Option<nat>>, blocked: bool)
    | FlushDone(i: nat, ok: bool, blocked: bool)
    | MirrorDone(i: nat, ok: bool)
    | StoreSettles(store: Store)
    | Resume(i: nat)
    | ToolReturns(i: nat, ok: bool)
    | Operator(request: nat, action: OperatorAction)   // an operator's decision, or the deadline

  // ----- pieces of the pipeline ------------------------------------------------

  function PhaseOf(w: Write): Phase {
    match w
    case WriteDenied(_, _) => PhaseDenied
    case WriteStarted => PhaseStarted
    case WriteCompleted(_) => PhaseCompleted
  }

  function Update(s: Server, i: nat, v: Invocation): Server
    requires i < |s.invocations|
  {
    s.(invocations := s.invocations[i := v])
  }

  function Go(s: Server, i: nat, pc: Pc): Server
    requires i < |s.invocations|
  {
    Update(s, i, s.invocations[i].(pc := pc))
  }

  /** The gate: the latch, or anything else that halts privileged work. */
  predicate GateRefuses(s: Server, blocked: bool) {
    s.degraded || blocked
  }

  /** A lifecycle record under a freshly generated operation id. */
  function Mint(s: Server, i: nat, w: Write): Server
    requires i < |s.invocations|
  {
    Update(s, i, s.invocations[i].(operationId := Some(|s.owners|), pc := Mirroring(w))).(owners := s.owners + [i])
  }

  /** `recordDurableDenial` up to its first `await`. */
  function DenyWith(s: Server, i: nat, answer: Answer, after: Option<bool>): Server
    requires i < |s.invocations|
  {
    Mint(s, i, WriteDenied(answer, after))
  }

  /** From the policy decision to the subsystem: the last gate, then STARTED. */
  function Dispatch(s: Server, i: nat, blocked: bool): Server
    requires i < |s.invocations|
  {
    if s.invocations[i].tool.Health? then Update(s, i, s.invocations[i].(pc := Executing, executed := true))
    else if GateRefuses(s, blocked) then Go(s, i, Answered(AuditRefusal))
    else Mint(s, i, WriteStarted)
  }

  /** The composed decision, with the mandatory approval of every mutation. */
  function EffectiveEffect(tool: Tool, layer1: Effect, layer2: Effect): Effect {
    var e := MostRestrictive(layer1, layer2);
    if e.Allow? && tool.Mutation? then RequireApproval else e
  }

  predicate Active(a: Approval) {
    a.state.Pending? || a.state.Approved?
  }

  predicate RedeemsFor(a: Approval, binding: Binding, token: string) {
    a.state.Approved? && a.binding == binding && a.token == Some(token)
  }

  /** An active request bound to another policy is closed for good by the attempt to redeem it. */
  predicate PolicyMoved(approvals: seq<Approval>, control: Control, binding: Binding) {
    && control.request < |approvals| && Active(approvals[control.request])
    && approvals[control.request].binding.policy != binding.policy
  }

  function AfterFailedRedemption(approvals: seq<Approval>, control: Control, binding: Binding): seq<Approval> {
    if PolicyMoved(approvals, control, binding)
    then approvals[control.request := approvals[control.request].(state := Closed)]
    else approvals
  }

  function RedeemAndGo(s: Server, i: nat, binding: Binding, control: Control): Server
    requires i < |s.invocations|
  {
    if control.request < |s.approvals| && RedeemsFor(s.approvals[control.request], binding, control.token) then
      var consumed := s.approvals[control.request].(state := Consumed, redeemer := Some(i));
      var v := s.invocations[i]
        .(pc := FlushingConsumption, binding := Some(binding), consumed := Some(control.request));
      Update(s, i, v).(approvals := s.approvals[control.request := consumed])
    else
      var transition := PolicyMoved(s.approvals, control, binding)
                        || (control.request < |s.approvals| && s.approvals[control.request].state.Expired?);
      DenyWith(s.(approvals := AfterFailedRedemption(s.approvals, control, binding)), i, Denial, Some(transition))
  }

  /** `createOrReusePending`: a quota error, an active request for the same payload, or a new one. */
  function RequestAndGo(s: Server, i: nat, binding: Binding, pending: Option<Option<nat>>): Server
    requires i < |s.invocations|
  {
    match pending
    case None => Go(s, i, Answered(Raised))
    case Some(Some(r)) =>
      if r < |s.approvals| && Active(s.approvals[r]) && s.approvals[r].binding.payload == binding.payload
      then Go(s, i, FlushingRequest) else s
    case Some(None) =>
      Go(s, i, FlushingRequest).(approvals := s.approvals + [Approval(Pending, binding, None, None)])
  }

  // ----- the steps -------------------------------------------------------------

  predicate At(s: Server, i: nat, pc: Pc) {
    i < |s.invocations| && s.invocations[i].pc == pc
  }

  function Arrived(s: Server, tool: Tool, blocked: bool): Server {
    var pc := if !tool.Health? && GateRefuses(s, blocked) then Answered(AuditRefusal) else Admitted;
    s.(invocations := s.invocations + [Invocation(tool, pc, None, None, None, false, false, false, false)])
  }

  function Decided(s: Server, i: nat, layer1: Effect, layer2: Effect, binding: Binding, control: Option<Control>,
                   pending: Option<Option<nat>>, blocked: bool): Server
    requires i < |s.invocations|
  {
    match EffectiveEffect(s.invocations[i].tool, layer1, layer2)
    case Deny => DenyWith(s, i, Denial, None)
    case Allow => Dispatch(s, i, blocked)
    case RequireApproval =>
      if control.Some? then RedeemAndGo(s, i, binding, control.value) else RequestAndGo(s, i, binding, pending)
  }

  function Flushed(s: Server, i: nat, ok: bool, blocked: bool): Server
    requires i < |s.invocations|
  {
    var v := s.invocations[i];
    match v.pc
    case FlushingRequest =>
      if ok then DenyWith(Update(s, i, v.(requestFlushed := true)), i, ApprovalRequired, None)
      else DenyWith(s, i, EvidenceFailure, None)
    case FlushingConsumption =>
      if ok then Dispatch(Update(s, i, v.(consumptionFlushed := true)), i, blocked)
      else DenyWith(s, i, EvidenceFailure, None)
    case FlushingOutcome(ranOk) =>
      if ok then Update(s, i, v.(pc := Answered(if ranOk then Success else ToolError), outcomeFlushed := true))
      else Go(s, i, Answered(if ranOk then EvidenceFailure else ToolError))
    case FlushingRefusal(transition) => Go(s, i, Answered(if ok || !transition then Denial else EvidenceFailure))
    case _ => s
  }

  /** After the terminal record: an approved execution has evidence of its own to commit. */
  function Conclude(s: Server, i: nat, ok: bool): Server
    requires i < |s.invocations|
  {
    if s.invocations[i].consumed.Some? then Go(s, i, FlushingOutcome(ok))
    else Go(s, i, Answered(if ok then Success else ToolError))
  }

  /** `appendRecord` refuses at once on a degraded runtime, and otherwise enqueues. */
  function Mirrored(s: Server, i: nat, ok: bool): Server
    requires i < |s.invocations|
  {
    match s.invocations[i].pc
    case Mirroring(w) =>
      if !ok || s.degraded then Go(s, i, Settled(w, false))
      else Go(s, i, Appending(w)).(appendQueue := s.appendQueue + [i])
    case LoggingHealth(ranOk) => if ok then Conclude(s, i, ranOk) else Go(s, i, Answered(Raised))
    case _ => s
  }

  /** The operation at the head of the append queue ends. */
  function StoreSettled(s: Server, store: Store): Server {
    if s.appendQueue == [] || s.appendQueue[0] >= |s.invocations| then s
    else
      var i := s.appendQueue[0];
      match s.invocations[i].pc
      case Appending(w) =>
        var s' := Go(s, i, Settled(w, store.Stored?)).(appendQueue := s.appendQueue[1..]);
        if (store.Stored? || store.landed) && s.invocations[i].operationId.Some?
        then s'.(chain := s.chain + [Record(PhaseOf(w), s.invocations[i].operationId.value)])
        else s'
      case _ => s
  }

  function Resumed(s: Server, i: nat): Server
    requires i < |s.invocations|
  {
    match s.invocations[i].pc
    case Settled(WriteDenied(answer, after), secured) =>
      if !secured then Go(s, i, Answered(PersistenceFailure)).(degraded := true)
      else if after.Some? then Go(s, i, FlushingRefusal(after.value))
      else Go(s, i, Answered(answer))
    case Settled(WriteStarted, secured) =>
      if secured then Update(s, i, s.invocations[i].(pc := Executing, executed := true))
      else Go(s, i, Answered(AuditRefusal))
    case Settled(WriteCompleted(ok), secured) =>
      if secured then Conclude(s, i, ok) else Go(s, i, Answered(AuditRefusal)).(degraded := true)
    case _ => s
  }

  function Returned(s: Server, i: nat, ok: bool): Server
    requires i < |s.invocations|
  {
    var v := s.invocations[i];
    if !v.pc.Executing? then s
    else if v.operationId.None? then Go(s, i, LoggingHealth(ok))
    else Go(s, i, Mirroring(WriteCompleted(ok)))
  }

  function Operated(s: Server, request: nat, action: OperatorAction): Server {
    if request >= |s.approvals| || !Active(s.approvals[request]) then s
    else
      var a := s.approvals[request];
      match action
      case Grant(token) =>
        if a.state.Pending?
        then s.(approvals := s.approvals[request := a.(state := Approved, token := Some(token))]) else s
      case Reject =>
        if a.state.Pending? then s.(approvals := s.approvals[request := a.(state := Closed)]) else s
      case Expire => s.(approvals := s.approvals[request := a.(state := Expired)])
  }

  function Step(s: Server, e: Event): Server {
    match e
    case Arrive(tool, blocked) => Arrived(s, tool, blocked)
    case Refuse(i) => if At(s, i, Admitted) then DenyWith(s, i, Denial, None) else s
    case Decide(i, layer1, layer2, binding, control, pending, blocked) =>
      if At(s, i, Admitted) then Decided(s, i, layer1, layer2, binding, control, pending, blocked) else s
    case FlushDone(i, ok, blocked) => if i < |s.invocations| then Flushed(s, i, ok, blocked) else s
    case MirrorDone(i, ok) => if i < |s.invocations| then Mirrored(s, i, ok) else s
    case StoreSettles(store) => StoreSettled(s, store)
    case Resume(i) => if i < |s.invocations| then Resumed(s, i) else s
    case ToolReturns(i, ok) => if i < |s.invocations| then Returned(s, i, ok) else s
    case Operator(request, action) => Operated(s, request, action)
  }

  function Run(s: Server, events: seq<Event>): Server
    decreases |events|
  {
    if events == [] then s else Run(Step(s, events[0]), events[1..])
  }
}

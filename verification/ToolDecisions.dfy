/**
 * What the two policy layers, the approval and the tool itself decide about an invocation, over whole runs: stated on
 * the events, so that it can be read without the functions that take the decision.
 */
module ToolDecisions {
  import opened Options
  import opened PolicyDecisions
  import opened ToolPipeline
  import opened ToolPipelineProofs

  // ----- what a decision leads to, on the event's own fields ---------------------

  /** Both layers allow a tool that is no mutation. */
  predicate Permitted(e: Event, tool: Tool)
    requires e.Decide?
  {
    e.layer1.Allow? && e.layer2.Allow? && !tool.Mutation?
  }

  /** The request an event presents is approved, for the binding the event has, under the token it presents. */
  ghost predicate Redeems(approvals: seq<Approval>, e: Event, request: nat)
    requires e.Decide?
  {
    && e.control.Some? && e.control.value.request == request < |approvals|
    && approvals[request].state.Approved? && approvals[request].binding == e.binding
    && approvals[request].token == Some(e.control.value.token)
  }

  /** Where an admitted invocation stands after its decision. */
  ghost predicate LeadsTo(s: Server, e: Event, v: Invocation, v': Invocation)
    requires e.Decide?
  {
    && v'.tool == v.tool
    && if e.layer1.Deny? || e.layer2.Deny? then
         v'.pc == Mirroring(WriteDenied(Denial, None)) && v'.executed == v.executed && v'.consumed == v.consumed
       else if Permitted(e, v.tool) then
         && v'.consumed == v.consumed
         && if v.tool.Health? then v'.pc == Executing && v'.executed
            else
              && v'.executed == v.executed
              && v'.pc == if s.degraded || e.blocked then Answered(AuditRefusal) else Mirroring(WriteStarted)
       else if e.control.Some? then
         && v'.executed == v.executed
         && if Redeems(s.approvals, e, e.control.value.request)
            then v'.pc == FlushingConsumption && v'.consumed == Some(e.control.value.request)
            else
              && v'.pc.Mirroring? && v'.pc.write.WriteDenied? && v'.pc.write.answer == Denial
              && v'.consumed == v.consumed
       else v' == v.(pc := v'.pc) && (v'.pc == Answered(Raised) || v'.pc == FlushingRequest || v'.pc == Admitted)
  }

  lemma DispatchLeads(s: Server, i: nat, blocked: bool)
    requires i < |s.invocations|
    ensures var (v, v') := (s.invocations[i], Dispatch(s, i, blocked).invocations[i]);
      && v'.tool == v.tool && v'.consumed == v.consumed
      && if v.tool.Health? then v'.pc == Executing && v'.executed
         else
           && v'.executed == v.executed
           && v'.pc == if s.degraded || blocked then Answered(AuditRefusal) else Mirroring(WriteStarted)
  {
  }

  lemma RedeemedLeads(s: Server, e: Event)
    requires e.Decide? && e.i < |s.invocations| && e.control.Some?
    requires Redeems(s.approvals, e, e.control.value.request)
    ensures var (v, v') := (s.invocations[e.i], RedeemAndGo(s, e.i, e.binding, e.control.value).invocations[e.i]);
      && v'.tool == v.tool && v'.executed == v.executed
      && v'.pc == FlushingConsumption && v'.consumed == Some(e.control.value.request)
  {
  }

  lemma UnredeemedLeads(s: Server, e: Event)
    requires e.Decide? && e.i < |s.invocations| && e.control.Some?
    requires !Redeems(s.approvals, e, e.control.value.request)
    ensures var (v, v') := (s.invocations[e.i], RedeemAndGo(s, e.i, e.binding, e.control.value).invocations[e.i]);
      && v'.tool == v.tool && v'.executed == v.executed && v'.consumed == v.consumed
      && v'.pc.Mirroring? && v'.pc.write.WriteDenied? && v'.pc.write.answer == Denial
  {
  }

  lemma RequestLeads(s: Server, i: nat, binding: Binding, pending: Option<Option<nat>>)
    requires At(s, i, Admitted)
    ensures var (v, v') := (s.invocations[i], RequestAndGo(s, i, binding, pending).invocations[i]);
      && v' == v.(pc := v'.pc)
      && (v'.pc == Answered(Raised) || v'.pc == FlushingRequest || v'.pc == Admitted)
  {
  }

  /** Every decision, by what the two layers say, whether the tool is a mutation, and the approval presented: a denial
      of either layer denies; two permissions let a tool that is no mutation go on; anything else needs an approval. */
  lemma DecisionLeads(s: Server, e: Event)
    requires e.Decide? && At(s, e.i, Admitted)
    ensures |Step(s, e).invocations| == |s.invocations|
    ensures LeadsTo(s, e, s.invocations[e.i], Step(s, e).invocations[e.i])
  {
    StepOnly(s, e);
    MostRestrictiveIs(e.layer1, e.layer2);
    match EffectiveEffect(s.invocations[e.i].tool, e.layer1, e.layer2)
    case Deny =>
    case Allow => DispatchLeads(s, e.i, e.blocked);
    case RequireApproval =>
      if e.control.Some? {
        if Redeems(s.approvals, e, e.control.value.request) {
          RedeemedLeads(s, e);
        } else {
          UnredeemedLeads(s, e);
        }
      } else {
        RequestLeads(s, e.i, e.binding, e.pending);
      }
  }

  // ----- the other steps, on one invocation ----------------------------------------

  function AfterResume(v: Invocation): Invocation {
    match v.pc
    case Settled(WriteDenied(answer, after), secured) =>
      if !secured then v.(pc := Answered(PersistenceFailure))
      else if after.Some? then v.(pc := FlushingRefusal(after.value))
      else v.(pc := Answered(answer))
    case Settled(WriteStarted, secured) =>
      if secured then v.(pc := Executing, executed := true) else v.(pc := Answered(AuditRefusal))
    case Settled(WriteCompleted(ok), secured) => if secured then Concluded(v, ok) else v.(pc := Answered(AuditRefusal))
    case _ => v
  }

  function Concluded(v: Invocation, ok: bool): Invocation {
    v.(pc := if v.consumed.Some? then FlushingOutcome(ok) else Answered(if ok then Success else ToolError))
  }

  function AfterMirror(v: Invocation, ok: bool, degraded: bool): Invocation {
    match v.pc
    case Mirroring(w) => v.(pc := if !ok || degraded then Settled(w, false) else Appending(w))
    case LoggingHealth(ranOk) => if ok then Concluded(v, ranOk) else v.(pc := Answered(Raised))
    case _ => v
  }

  lemma ResumeIs(s: Server, i: nat)
    requires i < |s.invocations|
    ensures |Resumed(s, i).invocations| == |s.invocations|
    ensures Resumed(s, i).invocations[i] == AfterResume(s.invocations[i])
  {
  }

  lemma MirrorIs(s: Server, i: nat, ok: bool)
    requires i < |s.invocations|
    ensures |Mirrored(s, i, ok).invocations| == |s.invocations|
    ensures Mirrored(s, i, ok).invocations[i] == AfterMirror(s.invocations[i], ok, s.degraded)
  {
  }

  // ----- an invocation that is barred stays so -----------------------------------

  predicate Ran(a: Answer) {
    a.Success? || a.ToolError?
  }

  predicate BarredWrite(w: Write) {
    w.WriteDenied? && !Ran(w.answer)
  }

  /** It has not run, and is on its way to, or at, an answer that is not the tool's. */
  predicate Barred(v: Invocation) {
    && !v.executed
    && match v.pc
       case Mirroring(w) => BarredWrite(w)
       case Appending(w) => BarredWrite(w)
       case Settled(w, _) => BarredWrite(w)
       case FlushingRequest => true
       case FlushingRefusal(_) => true
       case Answered(a) => !Ran(a)
       case _ => false
  }

  lemma FlushedStaysBarred(s: Server, i: nat, ok: bool, blocked: bool)
    requires i < |s.invocations| && Barred(s.invocations[i])
    ensures Barred(Flushed(s, i, ok, blocked).invocations[i])
  {
  }

  lemma MirroredStaysBarred(s: Server, i: nat, ok: bool)
    requires i < |s.invocations| && Barred(s.invocations[i])
    ensures Barred(Mirrored(s, i, ok).invocations[i])
  {
    MirrorIs(s, i, ok);
  }

  lemma ResumedStaysBarred(s: Server, i: nat)
    requires i < |s.invocations| && Barred(s.invocations[i])
    ensures Barred(Resumed(s, i).invocations[i])
  {
    ResumeIs(s, i);
  }

  lemma StoreStaysBarred(s: Server, store: Store)
    requires s.appendQueue != [] && s.appendQueue[0] < |s.invocations| && Barred(s.invocations[s.appendQueue[0]])
    ensures Barred(StoreSettled(s, store).invocations[s.appendQueue[0]])
  {
  }

  lemma StepStaysBarred(s: Server, e: Event, i: nat)
    requires i < |s.invocations| && Barred(s.invocations[i])
    ensures i < |Step(s, e).invocations| && Barred(Step(s, e).invocations[i])
  {
    if !e.Arrive? {
      StepOnly(s, e);
      if i == Target(s, e) {
        match e
        case FlushDone(_, ok, blocked) => FlushedStaysBarred(s, i, ok, blocked);
        case MirrorDone(_, ok) => MirroredStaysBarred(s, i, ok);
        case Resume(_) => ResumedStaysBarred(s, i);
        case StoreSettles(store) => StoreStaysBarred(s, store);
        case _ =>
      }
    }
  }

  lemma {:induction false} RunStaysBarred(s: Server, events: seq<Event>, i: nat)
    requires i < |s.invocations| && Barred(s.invocations[i])
    ensures i < |Run(s, events).invocations| && Barred(Run(s, events).invocations[i])
    decreases |events|
  {
    if events != [] {
      StepStaysBarred(s, events[0], i);
      RunStaysBarred(Step(s, events[0]), events[1..], i);
    }
  }

  /** What happens after a moment of a run. */
  lemma RunOn(s: Server, before: seq<Event>, e: Event, after: seq<Event>)
    ensures Run(s, before + ([e] + after)) == Run(Step(Run(s, before), e), after)
  {
    RunConcat(s, before, [e] + after);
    RunCons(Run(s, before), e, after);
  }

  lemma AdmittedHasNotRun(s: Server, events: seq<Event>, i: nat)
    requires Valid(s) && At(Run(s, events), i, Admitted)
    ensures !Run(s, events).invocations[i].executed
  {
    RunKeeps(s, events);
    assert Fits(Run(s, events), i);
  }

  /** The invocation never executes, and is never answered as an execution is. */
  ghost predicate NeverRuns(s: Server, i: nat) {
    && i < |s.invocations| && !s.invocations[i].executed
    && s.invocations[i].pc != Answered(Success) && s.invocations[i].pc != Answered(ToolError)
  }

  /** In every run, an invocation for which either policy layer says deny never executes. */
  lemma DeniedNeverRuns(s: Server, before: seq<Event>, e: Event, after: seq<Event>)
    requires Valid(s) && e.Decide? && At(Run(s, before), e.i, Admitted) && (e.layer1.Deny? || e.layer2.Deny?)
    ensures NeverRuns(Run(s, before + ([e] + after)), e.i)
  {
    RunOn(s, before, e, after);
    AdmittedHasNotRun(s, before, e.i);
    DeniedIsBarred(Run(s, before), e);
    RunStaysBarred(Step(Run(s, before), e), after, e.i);
  }

  lemma DeniedIsBarred(s: Server, e: Event)
    requires e.Decide? && At(s, e.i, Admitted) && !s.invocations[e.i].executed && (e.layer1.Deny? || e.layer2.Deny?)
    ensures e.i < |Step(s, e).invocations| && Barred(Step(s, e).invocations[e.i])
  {
    DecisionLeads(s, e);
  }

  /** Nor does one that the schema, workspace, authorization or target checks refuse. */
  lemma RefusedNeverRuns(s: Server, before: seq<Event>, i: nat, after: seq<Event>)
    requires Valid(s) && At(Run(s, before), i, Admitted)
    ensures NeverRuns(Run(s, before + ([Refuse(i)] + after)), i)
  {
    RunOn(s, before, Refuse(i), after);
    AdmittedHasNotRun(s, before, i);
    RunStaysBarred(Step(Run(s, before), Refuse(i)), after, i);
  }

  /** Nor one, other than health, that arrives while the server is degraded or its gate closed. */
  lemma GatedNeverRuns(s: Server, before: seq<Event>, tool: Tool, blocked: bool, after: seq<Event>)
    requires !tool.Health? && (blocked || Run(s, before).degraded)
    ensures NeverRuns(Run(s, before + ([Arrive(tool, blocked)] + after)), |Run(s, before).invocations|)
  {
    RunOn(s, before, Arrive(tool, blocked), after);
    RunStaysBarred(Step(Run(s, before), Arrive(tool, blocked)), after, |Run(s, before).invocations|);
  }

  // ----- an execution was cleared -------------------------------------------------

  predicate StartedWrite(w: Write) {
    w.WriteStarted? || w.WriteCompleted?
  }

  /** It has run, or is on its way to running or to the answer of a run. */
  predicate Underway(v: Invocation) {
    v.executed ||
    match v.pc
    case Mirroring(w) => StartedWrite(w)
    case Appending(w) => StartedWrite(w)
    case Settled(w, _) => StartedWrite(w)
    case FlushingConsumption => true
    case Executing => true
    case LoggingHealth(_) => true
    case FlushingOutcome(_) => true
    case Answered(a) => Ran(a)
    case _ => false
  }

  /** The event let the invocation through: neither layer denied, and both allowed it, and it is no mutation, unless
      it redeemed the approval it consumed. */
  ghost predicate Cleared(v: Invocation, s: Server, e: Event, i: nat) {
    && e.Decide? && e.i == i && At(s, i, Admitted) && !e.layer1.Deny? && !e.layer2.Deny?
    && (v.consumed.None? ==> e.layer1.Allow? && e.layer2.Allow? && !v.tool.Mutation?)
    && (v.consumed.Some? ==> Redeems(s.approvals, e, v.consumed.value))
  }

  /** What a step can do towards an execution. */
  ghost predicate Advances(v: Invocation, v': Invocation) {
    Underway(v') ==> Underway(v) && v'.consumed == v.consumed && v'.tool == v.tool
  }

  lemma FlushedAdvances(s: Server, i: nat, ok: bool, blocked: bool)
    requires i < |s.invocations|
    ensures Advances(s.invocations[i], Flushed(s, i, ok, blocked).invocations[i])
  {
  }

  lemma MirroredAdvances(s: Server, i: nat, ok: bool)
    requires i < |s.invocations|
    ensures Advances(s.invocations[i], Mirrored(s, i, ok).invocations[i])
  {
    MirrorIs(s, i, ok);
  }

  lemma ResumedAdvances(s: Server, i: nat)
    requires Valid(s) && i < |s.invocations|
    ensures Advances(s.invocations[i], Resumed(s, i).invocations[i])
  {
    assert Fits(s, i);
    ResumeIs(s, i);
  }

  lemma StoreAdvances(s: Server, store: Store)
    requires s.appendQueue != [] && s.appendQueue[0] < |s.invocations|
    ensures Advances(s.invocations[s.appendQueue[0]], StoreSettled(s, store).invocations[s.appendQueue[0]])
  {
  }

  lemma DecidedClears(s: Server, e: Event)
    requires Valid(s) && e.Decide? && At(s, e.i, Admitted)
    ensures e.i < |Step(s, e).invocations|
    ensures Underway(Step(s, e).invocations[e.i]) ==> Cleared(Step(s, e).invocations[e.i], s, e, e.i)
  {
    assert Fits(s, e.i);
    DecisionLeads(s, e);
  }

  /** One step: an invocation is under way only if it was before, or if this step clears it. */
  lemma StepAdvances(s: Server, e: Event, i: nat)
    requires Valid(s) && i < |Step(s, e).invocations| && Underway(Step(s, e).invocations[i])
    ensures i < |s.invocations|
    ensures Advances(s.invocations[i], Step(s, e).invocations[i]) || Cleared(Step(s, e).invocations[i], s, e, i)
  {
    if !e.Arrive? {
      StepOnly(s, e);
      if i == Target(s, e) {
        match e
        case Decide(_, _, _, _, _, _, _) => if At(s, i, Admitted) { DecidedClears(s, e); }
        case FlushDone(_, ok, blocked) => FlushedAdvances(s, i, ok, blocked);
        case MirrorDone(_, ok) => MirroredAdvances(s, i, ok);
        case Resume(_) => ResumedAdvances(s, i);
        case StoreSettles(store) => StoreAdvances(s, store);
        case _ =>
      }
    }
  }

  lemma RunLast(s: Server, events: seq<Event>)
    requires events != []
    ensures Run(s, events) == Step(Run(s, events[..|events| - 1]), events[|events| - 1])
  {
    var n := |events| - 1;
    assert events == events[..n] + [events[n]];
    RunConcat(s, events[..n], [events[n]]);
    RunCons(Run(s, events[..n]), events[n], []);
    assert [events[n]] + [] == [events[n]];
  }

  /** Some event of the run let the invocation through. */
  ghost predicate WasCleared(s: Server, events: seq<Event>, v: Invocation, i: nat) {
    exists k :: 0 <= k < |events| && Cleared(v, Run(s, events[..k]), events[k], i)
  }

  lemma ClearedBefore(s: Server, events: seq<Event>, n: nat, v: Invocation, v': Invocation, i: nat)
    requires n <= |events| && WasCleared(s, events[..n], v, i) && v'.consumed == v.consumed && v'.tool == v.tool
    ensures WasCleared(s, events, v', i)
  {
    var k :| 0 <= k < n && Cleared(v, Run(s, events[..n][..k]), events[..n][k], i);
    assert events[..n][..k] == events[..k] && events[..n][k] == events[k];
    assert Cleared(v', Run(s, events[..k]), events[k], i);
  }

  /** In every run from a start, an invocation that executed was let through by an event for which neither policy layer
      said deny; without a consumed approval both said allow and it is no mutation; with one, the event presented the
      token of a request approved for its binding. */
  lemma {:induction false} ExecutionWasCleared(s: Server, events: seq<Event>, i: nat)
    requires Valid(s) && |s.invocations| <= i < |Run(s, events).invocations|
    requires Underway(Run(s, events).invocations[i])
    ensures WasCleared(s, events, Run(s, events).invocations[i], i)
    decreases |events|
  {
    if events != [] {
      var n := |events| - 1;
      var (s0, e) := (Run(s, events[..n]), events[n]);
      RunLast(s, events);
      RunKeeps(s, events[..n]);
      StepAdvances(s0, e, i);
      var v := Step(s0, e).invocations[i];
      if Cleared(v, s0, e, i) {
        assert WasCleared(s, events, v, i);
      } else {
        ExecutionWasCleared(s, events[..n], i);
        ClearedBefore(s, events, n, s0.invocations[i], v, i);
      }
    }
  }

  // ----- the answer is the tool's --------------------------------------------------

  /** The result an invocation carries to its answer. */
  function Carried(v: Invocation): Option<bool> {
    match v.pc
    case Mirroring(WriteCompleted(ok)) => Some(ok)
    case Appending(WriteCompleted(ok)) => Some(ok)
    case Settled(WriteCompleted(ok), _) => Some(ok)
    case LoggingHealth(ok) => Some(ok)
    case FlushingOutcome(ok) => Some(ok)
    case Answered(a) => if a.Success? then Some(true) else if a.ToolError? then Some(false) else None
    case _ => None
  }

  ghost predicate Carries(v: Invocation, v': Invocation) {
    Carried(v').Some? ==> Carried(v') == Carried(v)
  }

  lemma FlushedCarries(s: Server, i: nat, ok: bool, blocked: bool)
    requires i < |s.invocations|
    ensures Carries(s.invocations[i], Flushed(s, i, ok, blocked).invocations[i])
  {
  }

  lemma MirroredCarries(s: Server, i: nat, ok: bool)
    requires i < |s.invocations|
    ensures Carries(s.invocations[i], Mirrored(s, i, ok).invocations[i])
  {
    MirrorIs(s, i, ok);
  }

  /** A recorded denial is not answered as an execution is. */
  ghost predicate Denies(v: Invocation) {
    v.pc.Settled? && v.pc.write.WriteDenied? ==> !Ran(v.pc.write.answer)
  }

  lemma ValidDenies(s: Server, i: nat)
    requires Valid(s) && i < |s.invocations|
    ensures Denies(s.invocations[i])
  {
    assert Fits(s, i);
  }

  lemma ResumeCarries(v: Invocation)
    requires Denies(v)
    ensures Carries(v, AfterResume(v))
  {
  }

  lemma ResumedCarries(s: Server, i: nat)
    requires Valid(s) && i < |s.invocations|
    ensures Carries(s.invocations[i], Resumed(s, i).invocations[i])
  {
    ValidDenies(s, i);
    ResumeIs(s, i);
    ResumeCarries(s.invocations[i]);
  }

  lemma StoreCarries(s: Server, store: Store)
    requires s.appendQueue != [] && s.appendQueue[0] < |s.invocations|
    ensures Carries(s.invocations[s.appendQueue[0]], StoreSettled(s, store).invocations[s.appendQueue[0]])
  {
  }

  lemma DecidedCarriesNothing(s: Server, e: Event)
    requires e.Decide? && At(s, e.i, Admitted)
    ensures e.i < |Step(s, e).invocations| && Carried(Step(s, e).invocations[e.i]).None?
  {
    DecisionLeads(s, e);
  }

  lemma RefusedCarriesNothing(s: Server, i: nat)
    requires At(s, i, Admitted)
    ensures i < |Step(s, Refuse(i)).invocations| && Carried(Step(s, Refuse(i)).invocations[i]).None?
  {
  }

  lemma ReturnedCarries(s: Server, i: nat, ok: bool)
    requires At(s, i, Executing)
    ensures i < |Step(s, ToolReturns(i, ok)).invocations|
    ensures Carried(Step(s, ToolReturns(i, ok)).invocations[i]) == Some(ok)
  {
  }

  lemma StepCarries(s: Server, e: Event, i: nat, ok: bool)
    requires Valid(s) && i < |Step(s, e).invocations| && Carried(Step(s, e).invocations[i]) == Some(ok)
    ensures i < |s.invocations|
    ensures Carried(s.invocations[i]) == Some(ok) || (e == ToolReturns(i, ok) && At(s, i, Executing))
  {
    if !e.Arrive? {
      StepOnly(s, e);
      if i == Target(s, e) {
        match e
        case Decide(_, _, _, _, _, _, _) => if At(s, i, Admitted) { DecidedCarriesNothing(s, e); }
        case Refuse(_) => if At(s, i, Admitted) { RefusedCarriesNothing(s, i); }
        case ToolReturns(_, returned) => if At(s, i, Executing) { ReturnedCarries(s, i, returned); }
        case FlushDone(_, flushed, blocked) => FlushedCarries(s, i, flushed, blocked);
        case MirrorDone(_, mirrored) => MirroredCarries(s, i, mirrored);
        case Resume(_) => ResumedCarries(s, i);
        case StoreSettles(store) => StoreCarries(s, store);
        case _ =>
      }
    }
  }

  /** The tool returned that result while the invocation was executing. */
  ghost predicate ToolReturned(s: Server, events: seq<Event>, i: nat, ok: bool) {
    exists k :: 0 <= k < |events| && events[k] == ToolReturns(i, ok) && At(Run(s, events[..k]), i, Executing)
  }

  lemma ReturnedBefore(s: Server, events: seq<Event>, n: nat, i: nat, ok: bool)
    requires n <= |events| && ToolReturned(s, events[..n], i, ok)
    ensures ToolReturned(s, events, i, ok)
  {
    var k :| 0 <= k < n && events[..n][k] == ToolReturns(i, ok) && At(Run(s, events[..n][..k]), i, Executing);
    assert events[..n][..k] == events[..k] && events[..n][k] == events[k];
  }

  /** In every run from a start, an invocation is answered as a success only if its tool returned well, and as a tool
      error only if it failed. */
  lemma {:induction false} AnswerIsTheTools(s: Server, events: seq<Event>, i: nat, ok: bool)
    requires Valid(s) && |s.invocations| <= i < |Run(s, events).invocations|
    requires Carried(Run(s, events).invocations[i]) == Some(ok)
    ensures ToolReturned(s, events, i, ok)
    decreases |events|
  {
    if events != [] {
      var n := |events| - 1;
      var (s0, e) := (Run(s, events[..n]), events[n]);
      RunLast(s, events);
      RunKeeps(s, events[..n]);
      StepCarries(s0, e, i, ok);
      if e == ToolReturns(i, ok) && At(s0, i, Executing) {
        assert ToolReturned(s, events, i, ok);
      } else {
        AnswerIsTheTools(s, events[..n], i, ok);
        ReturnedBefore(s, events, n, i, ok);
      }
    }
  }

  // ----- approvals -----------------------------------------------------------------

  predicate Over(a: Approval) {
    a.state.Consumed? || a.state.Expired? || a.state.Closed?
  }

  ghost predicate OverStays(before: seq<Approval>, after: seq<Approval>) {
    |before| <= |after| && forall r :: 0 <= r < |before| && Over(before[r]) ==> after[r] == before[r]
  }

  lemma DecidedOverStays(s: Server, e: Event)
    requires e.Decide? && At(s, e.i, Admitted)
    ensures OverStays(s.approvals, Step(s, e).approvals)
  {
  }

  lemma StepOverStays(s: Server, e: Event)
    ensures OverStays(s.approvals, Step(s, e).approvals)
  {
    if Step(s, e).approvals != s.approvals {
      ApprovalsTouchedOnlyWhenRequired(s, e);
      if e.Decide? {
        DecidedOverStays(s, e);
      }
    }
  }

  /** In every run a request that is consumed, expired, rejected or invalidated stays as it is for good. */
  lemma {:induction false} OverForGood(s: Server, events: seq<Event>)
    ensures OverStays(s.approvals, Run(s, events).approvals)
    decreases |events|
  {
    if events != [] {
      StepOverStays(s, events[0]);
      OverForGood(Step(s, events[0]), events[1..]);
    }
  }

  ghost predicate TokensStay(s: Server, e: Event, s': Server) {
    forall r, t :: 0 <= r < |s'.approvals| && s'.approvals[r].token == Some(t) ==>
      || (r < |s.approvals| && s.approvals[r].token == Some(t) && s'.approvals[r].binding == s.approvals[r].binding)
      || (e == Operator(r, Grant(t)) && r < |s.approvals| && s.approvals[r].state.Pending?
          && s'.approvals[r].binding == s.approvals[r].binding)
  }

  lemma StepTokens(s: Server, e: Event)
    ensures TokensStay(s, e, Step(s, e))
  {
    if Step(s, e).approvals != s.approvals {
      ApprovalsTouchedOnlyWhenRequired(s, e);
      if e.Decide? {
        DecidedTokens(s, e);
      }
    }
  }

  lemma DecidedTokens(s: Server, e: Event)
    requires e.Decide? && At(s, e.i, Admitted)
    ensures TokensStay(s, e, Step(s, e))
  {
  }

  /** An operator granted the request with that token while it was pending. */
  ghost predicate WasGranted(s: Server, events: seq<Event>, r: nat, token: string) {
    exists k :: 0 <= k < |events| && events[k] == Operator(r, Grant(token))
                && r < |Run(s, events[..k]).approvals| && Run(s, events[..k]).approvals[r].state.Pending?
  }

  lemma GrantedBefore(s: Server, events: seq<Event>, n: nat, r: nat, token: string)
    requires n <= |events| && WasGranted(s, events[..n], r, token)
    ensures WasGranted(s, events, r, token)
  {
    var k :| 0 <= k < n && events[..n][k] == Operator(r, Grant(token))
             && r < |Run(s, events[..n][..k]).approvals| && Run(s, events[..n][..k]).approvals[r].state.Pending?;
    assert events[..n][..k] == events[..k] && events[..n][k] == events[k];
  }

  /** In every run from a start, a request has a token only if an operator granted it with that token. */
  lemma {:induction false} TokensAreGranted(s: Server, events: seq<Event>, r: nat, token: string)
    requires s.approvals == [] && r < |Run(s, events).approvals| && Run(s, events).approvals[r].token == Some(token)
    ensures WasGranted(s, events, r, token)
    decreases |events|
  {
    if events != [] {
      var n := |events| - 1;
      var (s0, e) := (Run(s, events[..n]), events[n]);
      RunLast(s, events);
      StepTokens(s0, e);
      if e == Operator(r, Grant(token)) && r < |s0.approvals| && s0.approvals[r].state.Pending? {
        assert WasGranted(s, events, r, token);
      } else {
        TokensAreGranted(s, events[..n], r, token);
        GrantedBefore(s, events, n, r, token);
      }
    }
  }

  /** Only the approval at `r` changes. */
  ghost predicate OnlyApproval(before: seq<Approval>, after: seq<Approval>, r: nat) {
    |after| == |before| && forall q :: 0 <= q < |before| && q != r ==> after[q] == before[q]
  }

  /** What presenting a token does, where approval is required: a request approved for the same binding under the same
      token is consumed by this invocation; an active one bound to another policy is closed for good, and the
      invocation is denied; in every other case it is denied and no request changes. */
  lemma PresentingDoes(s: Server, e: Event)
    requires e.Decide? && At(s, e.i, Admitted) && e.control.Some? && !e.layer1.Deny? && !e.layer2.Deny?
    requires e.layer1.RequireApproval? || e.layer2.RequireApproval? || s.invocations[e.i].tool.Mutation?
    ensures var (s', r) := (Step(s, e), e.control.value.request);
      if Redeems(s.approvals, e, r) then
        && OnlyApproval(s.approvals, s'.approvals, r) && s'.invocations[e.i].pc == FlushingConsumption
        && s'.invocations[e.i].consumed == Some(r) && s'.approvals[r].state.Consumed?
        && s'.approvals[r].redeemer == Some(e.i)
      else
        var moved := r < |s.approvals| && (s.approvals[r].state.Pending? || s.approvals[r].state.Approved?)
                     && s.approvals[r].binding.policy != e.binding.policy;
        var expired := r < |s.approvals| && s.approvals[r].state.Expired?;
        && s'.invocations[e.i].pc == Mirroring(WriteDenied(Denial, Some(moved || expired)))
        && (if moved then OnlyApproval(s.approvals, s'.approvals, r) && s'.approvals[r].state.Closed?
            else s'.approvals == s.approvals)
  {
  }

  /** What asking for approval does, where it is required and no token is presented: a quota error ends the invocation,
      a request in the table is reused as it is, and otherwise one is added: pending, without a token, and bound to
      what the event binds it to. */
  lemma AskingDoes(s: Server, e: Event)
    requires e.Decide? && At(s, e.i, Admitted) && e.control.None? && !e.layer1.Deny? && !e.layer2.Deny?
    requires e.layer1.RequireApproval? || e.layer2.RequireApproval? || s.invocations[e.i].tool.Mutation?
    requires e.pending.Some? && e.pending.value.Some? ==>
               var r := e.pending.value.value;
               r < |s.approvals| && Active(s.approvals[r]) && s.approvals[r].binding.payload == e.binding.payload
    ensures var s' := Step(s, e);
      match e.pending
      case None => s'.approvals == s.approvals && s'.invocations[e.i].pc == Answered(Raised)
      case Some(Some(_)) => s'.approvals == s.approvals && s'.invocations[e.i].pc == FlushingRequest
      case Some(None) =>
        && |s'.approvals| == |s.approvals| + 1 && s'.approvals[..|s.approvals|] == s.approvals
        && s'.approvals[|s.approvals|].state.Pending? && s'.approvals[|s.approvals|].binding == e.binding
        && s'.approvals[|s.approvals|].token.None? && s'.invocations[e.i].pc == FlushingRequest
  {
  }

  /** What an operator, or the deadline, does to a request: a pending one is approved with the token granted, or
      closed; one that is pending or approved expires; and nothing happens to any other, nor to other requests. */
  lemma OperatorDoes(s: Server, r: nat, action: OperatorAction)
    ensures var after := Step(s, Operator(r, action)).approvals;
      if r >= |s.approvals| then after == s.approvals
      else
        && OnlyApproval(s.approvals, after, r)
        && after[r].binding == s.approvals[r].binding
        && match (s.approvals[r].state, action)
           case (Pending, Grant(token)) => after[r].state.Approved? && after[r].token == Some(token)
           case (Pending, Reject) => after[r].state.Closed?
           case (Pending, Expire) => after[r].state.Expired?
           case (Approved, Expire) => after[r].state.Expired?
           case _ => after == s.approvals
  {
  }

  // ----- the latch and the mirror ---------------------------------------------------

  /** An invocation finds that the record of its denial, or of its end, was not secured. */
  predicate Fails(s: Server, e: Event) {
    && e.Resume? && e.i < |s.invocations| && s.invocations[e.i].pc.Settled?
    && !s.invocations[e.i].pc.secured && !s.invocations[e.i].pc.write.WriteStarted?
  }

  predicate SomeFails(s: Server, events: seq<Event>)
    decreases |events|
  {
    events != [] && (Fails(s, events[0]) || SomeFails(Step(s, events[0]), events[1..]))
  }

  lemma ResumedDegrades(s: Server, i: nat)
    requires i < |s.invocations|
    ensures Resumed(s, i).degraded <==> s.degraded || Fails(s, Resume(i))
  {
  }

  lemma OthersDoNotDegrade(s: Server, e: Event)
    requires !e.Resume?
    ensures Step(s, e).degraded == s.degraded
  {
  }

  /** The latch is set in a run exactly when a record of a denial or of an end could not be secured. */
  lemma {:induction false} DegradedExactly(s: Server, events: seq<Event>)
    ensures Run(s, events).degraded <==> s.degraded || SomeFails(s, events)
    decreases |events|
  {
    if events != [] {
      if events[0].Resume? {
        if events[0].i < |s.invocations| {
          ResumedDegrades(s, events[0].i);
        }
      } else {
        OthersDoNotDegrade(s, events[0]);
      }
      DegradedExactly(Step(s, events[0]), events[1..]);
    }
  }

  /** A record goes on to the store exactly when the mirror has taken it and the server is not degraded, behind the
      records that are there; otherwise it is not secured. */
  lemma MirrorComesFirst(s: Server, i: nat, w: Write, ok: bool)
    requires At(s, i, Mirroring(w))
    ensures var s' := Step(s, MirrorDone(i, ok));
      if ok && !s.degraded then At(s', i, Appending(w)) && s'.appendQueue == s.appendQueue + [i]
      else At(s', i, Settled(w, false)) && s'.appendQueue == s.appendQueue
  {
  }

  /** An invocation is admitted on arrival unless the server is degraded or its gate closed, which only health passes;
      and a refusal of the checks after that is recorded as a denial. */
  lemma ArrivalLeads(s: Server, tool: Tool, blocked: bool, i: nat)
    ensures At(Step(s, Arrive(tool, blocked)), |s.invocations|,
               if !tool.Health? && (s.degraded || blocked) then Answered(AuditRefusal) else Admitted)
    ensures At(s, i, Admitted) ==> At(Step(s, Refuse(i)), i, Mirroring(WriteDenied(Denial, None)))
  {
  }

  /** The store ends the oldest append: a stored record is in the chain and secured; a rejected one is not secured, and
      is in the chain only if it landed; no other append moves. */
  lemma StoreLeads(s: Server, store: Store)
    requires Valid(s) && s.appendQueue != []
    ensures var (i, s') := (s.appendQueue[0], Step(s, StoreSettles(store)));
      var v := s.invocations[i];
      && v.pc.Appending? && v.operationId.Some? && s'.appendQueue == s.appendQueue[1..]
      && At(s', i, Settled(v.pc.write, store.Stored?))
      && s'.chain == if store.Stored? || store.landed
                     then s.chain + [Record(PhaseOf(v.pc.write), v.operationId.value)] else s.chain
  {
    assert Fits(s, s.appendQueue[0]);
  }

  /** What an unsecured record leads to: a start does not run, and it and an end are answered as audit failures; a
      denial is answered as a persistence failure. */
  lemma UnsecuredAnswers(s: Server, i: nat, w: Write)
    requires At(s, i, Settled(w, false))
    ensures var s' := Step(s, Resume(i));
      At(s', i, Answered(if w.WriteDenied? then PersistenceFailure else AuditRefusal))
      && s'.invocations[i].executed == s.invocations[i].executed
  {
  }

  /** What the outcome of a flush leads to: the request is reported, or the approved start is gone on with, or the
      outcome answered, only if the evidence was committed; and otherwise the failure is recorded or answered. */
  lemma FlushLeads(s: Server, i: nat, ok: bool, blocked: bool)
    requires i < |s.invocations|
    ensures var (v, v') := (s.invocations[i], Step(s, FlushDone(i, ok, blocked)).invocations[i]);
      match v.pc
      case FlushingRequest => v'.pc == Mirroring(WriteDenied(if ok then ApprovalRequired else EvidenceFailure, None))
      case FlushingConsumption =>
        if !ok then v'.pc == Mirroring(WriteDenied(EvidenceFailure, None))
        else if v.tool.Health? then v'.pc == Executing
        else v'.pc == if s.degraded || blocked then Answered(AuditRefusal) else Mirroring(WriteStarted)
      case FlushingOutcome(ranOk) =>
        v'.pc == Answered(if !ranOk then ToolError else if ok then Success else EvidenceFailure)
      case _ => true
  {
  }

  /** A refusal that closed a request, or found it expired, is answered as a denial only if its evidence was
      committed. */
  lemma RefusalAnswers(s: Server, i: nat, transition: bool, ok: bool, blocked: bool)
    requires At(s, i, FlushingRefusal(transition))
    ensures At(Step(s, FlushDone(i, ok, blocked)), i,
               Answered(if transition && !ok then EvidenceFailure else Denial))
  {
  }

  // ----- and whoever is entitled can run -------------------------------------------

  /** The event lets the invocation through: it is permitted and the gate is open to it, or approval is required and it
      presents one. */
  ghost predicate Entitled(s: Server, e: Event)
    requires e.Decide? && e.i < |s.invocations|
  {
    var tool := s.invocations[e.i].tool;
    && !e.layer1.Deny? && !e.layer2.Deny?
    && if Permitted(e, tool) then tool.Health? || !e.blocked
       else e.control.Some? && Redeems(s.approvals, e, e.control.value.request)
  }

  /** A request to be reused is an active one for the same payload, as the table found it. */
  ghost predicate FindsRequest(s: Server, e: Event)
    requires e.Decide?
  {
    e.control.None? && e.pending.Some? && e.pending.value.Some? ==>
      var r := e.pending.value.value;
      r < |s.approvals| && Active(s.approvals[r]) && s.approvals[r].binding.payload == e.binding.payload
  }

  lemma AskingGoesOn(s: Server, e: Event)
    requires e.Decide? && At(s, e.i, Admitted) && FindsRequest(s, e) && e.control.None?
    requires !e.layer1.Deny? && !e.layer2.Deny? && !Permitted(e, s.invocations[e.i].tool)
    ensures e.i < |Step(s, e).invocations| && Step(s, e).invocations[e.i].pc != Admitted
  {
    AskingDoes(s, e);
  }

  lemma NotEntitledIsBarred(s: Server, e: Event)
    requires Valid(s) && !s.degraded && e.Decide? && At(s, e.i, Admitted) && FindsRequest(s, e) && !Entitled(s, e)
    ensures e.i < |Step(s, e).invocations| && Barred(Step(s, e).invocations[e.i])
  {
    assert Fits(s, e.i);
    DecisionLeads(s, e);
    if e.control.None? && !e.layer1.Deny? && !e.layer2.Deny? && !Permitted(e, s.invocations[e.i].tool) {
      AskingGoesOn(s, e);
    }
  }

  lemma EntitledGoesOn(s: Server, e: Event)
    requires Valid(s) && !s.degraded && e.Decide? && At(s, e.i, Admitted) && Entitled(s, e)
    ensures var s' := Step(s, e);
      && e.i < |s'.invocations| && !s'.degraded
      && (|| s'.invocations[e.i].executed
          || s'.invocations[e.i].pc == Mirroring(WriteStarted)
          || s'.invocations[e.i].pc == FlushingConsumption)
  {
    DecisionLeads(s, e);
    OthersDoNotDegrade(s, e);
  }

  lemma StartCanRun(s: Server, i: nat) returns (events: seq<Event>)
    requires Valid(s) && !s.degraded && At(s, i, Mirroring(WriteStarted))
    ensures Executes(s, events, i)
  {
    var s' := Step(s, MirrorDone(i, true));
    StepKeeps(s, MirrorDone(i, true));
    assert s'.appendQueue[|s.appendQueue|] == i;
    var rest := StoreReaches(s', i, |s.appendQueue|);
    events := [MirrorDone(i, true)] + rest;
    RunCons(s, MirrorDone(i, true), rest);
  }

  lemma ConsumedCanRun(s: Server, i: nat) returns (events: seq<Event>)
    requires Valid(s) && !s.degraded && At(s, i, FlushingConsumption)
    ensures Executes(s, events, i)
  {
    var e := FlushDone(i, true, false);
    var s' := Step(s, e);
    StepKeeps(s, e);
    if s'.invocations[i].executed {
      events := [e] + [];
      RunCons(s, e, []);
    } else {
      var rest := StartCanRun(s', i);
      events := [e] + rest;
      RunCons(s, e, rest);
    }
  }

  /** On a server that is not degraded, an admitted invocation can execute after its decision exactly when the event
      entitles it to. */
  lemma EntitledExactly(s: Server, e: Event)
    requires Valid(s) && !s.degraded && e.Decide? && At(s, e.i, Admitted) && FindsRequest(s, e)
    ensures (exists events :: Executes(Step(s, e), events, e.i)) <==> Entitled(s, e)
  {
    var s' := Step(s, e);
    StepKeeps(s, e);
    if Entitled(s, e) {
      EntitledGoesOn(s, e);
      if s'.invocations[e.i].executed {
        assert Run(s', []) == s';
        assert Executes(s', [], e.i);
      } else if s'.invocations[e.i].pc == FlushingConsumption {
        var events := ConsumedCanRun(s', e.i);
      } else {
        var events := StartCanRun(s', e.i);
      }
    } else {
      NotEntitledIsBarred(s, e);
      forall events ensures !Executes(s', events, e.i) {
        RunStaysBarred(s', events, e.i);
      }
    }
  }

  // ----- and what has run can be answered ------------------------------------------

  ghost predicate Reaches(s: Server, events: seq<Event>, i: nat, pc: Pc) {
    At(Run(s, events), i, pc)
  }

  /** A record that the store has is secured once the appends before it are over. */
  lemma {:induction false} StoreSecures(s: Server, i: nat, w: Write, k: nat) returns (events: seq<Event>)
    requires Valid(s) && !s.degraded && At(s, i, Appending(w)) && k < |s.appendQueue| && s.appendQueue[k] == i
    ensures Reaches(s, events, i, Settled(w, true)) && !Run(s, events).degraded
    ensures Run(s, events).invocations[i].consumed == s.invocations[i].consumed
    decreases k
  {
    var e := StoreSettles(Stored);
    var s' := Step(s, e);
    StepKeeps(s, e);
    StoredStep(s);
    StoredKeepsRest(s);
    if k == 0 {
      events := [e] + [];
      RunCons(s, e, []);
    } else {
      assert s.appendQueue[0] != i && s'.appendQueue[k - 1] == i;
      var rest := StoreSecures(s', i, w, k - 1);
      events := [e] + rest;
      RunCons(s, e, rest);
    }
  }

  lemma StoredKeepsRest(s: Server)
    requires Valid(s) && s.appendQueue != []
    ensures var (s', i) := (Step(s, StoreSettles(Stored)), s.appendQueue[0]);
      s'.degraded == s.degraded && s'.invocations[i].consumed == s.invocations[i].consumed
  {
  }

  lemma WriteCanBeSecured(s: Server, i: nat, w: Write) returns (events: seq<Event>)
    requires Valid(s) && !s.degraded && At(s, i, Mirroring(w))
    ensures Reaches(s, events, i, Settled(w, true)) && !Run(s, events).degraded
    ensures Run(s, events).invocations[i].consumed == s.invocations[i].consumed
  {
    var e := MirrorDone(i, true);
    var s' := Step(s, e);
    StepKeeps(s, e);
    assert s'.appendQueue[|s.appendQueue|] == i;
    var rest := StoreSecures(s', i, w, |s.appendQueue|);
    events := [e] + rest;
    RunCons(s, e, rest);
  }

  lemma OutcomeCanBeFlushed(s: Server, i: nat, ok: bool)
    requires At(s, i, FlushingOutcome(ok))
    ensures Reaches(s, [FlushDone(i, true, false)] + [], i, Answered(if ok then Success else ToolError))
  {
    RunCons(s, FlushDone(i, true, false), []);
  }

  lemma ThenReaches(s: Server, first: seq<Event>, rest: seq<Event>, i: nat, pc: Pc)
    requires Reaches(Run(s, first), rest, i, pc)
    ensures Reaches(s, first + rest, i, pc)
  {
    RunConcat(s, first, rest);
  }

  lemma ConcludedCanAnswer(s: Server, i: nat, ok: bool) returns (events: seq<Event>)
    requires i < |s.invocations|
    requires s.invocations[i].pc == FlushingOutcome(ok) || At(s, i, Answered(if ok then Success else ToolError))
    ensures Reaches(s, events, i, Answered(if ok then Success else ToolError))
  {
    if At(s, i, Answered(if ok then Success else ToolError)) {
      events := [];
    } else {
      events := [FlushDone(i, true, false)] + [];
      OutcomeCanBeFlushed(s, i, ok);
    }
  }

  lemma SettledCanAnswer(s: Server, i: nat, ok: bool) returns (events: seq<Event>)
    requires At(s, i, Settled(WriteCompleted(ok), true))
    ensures Reaches(s, events, i, Answered(if ok then Success else ToolError))
  {
    var rest := ConcludedCanAnswer(Step(s, Resume(i)), i, ok);
    events := [Resume(i)] + rest;
    RunCons(s, Resume(i), rest);
  }

  lemma LoggedCanAnswer(s: Server, i: nat, ok: bool) returns (events: seq<Event>)
    requires At(s, i, LoggingHealth(ok))
    ensures Reaches(s, events, i, Answered(if ok then Success else ToolError))
  {
    var rest := ConcludedCanAnswer(Step(s, MirrorDone(i, true)), i, ok);
    events := [MirrorDone(i, true)] + rest;
    RunCons(s, MirrorDone(i, true), rest);
  }

  /** On a server that is not degraded, an invocation whose tool returns can be answered as the tool returned. */
  lemma ExecutionCanAnswer(s: Server, i: nat, ok: bool) returns (events: seq<Event>)
    requires Valid(s) && !s.degraded && At(s, i, Executing)
    ensures Reaches(s, [ToolReturns(i, ok)] + events, i, Answered(if ok then Success else ToolError))
  {
    var e := ToolReturns(i, ok);
    var s' := Step(s, e);
    StepKeeps(s, e);
    if s'.invocations[i].pc == LoggingHealth(ok) {
      events := LoggedCanAnswer(s', i, ok);
    } else {
      var first := WriteCanBeSecured(s', i, WriteCompleted(ok));
      var rest := SettledCanAnswer(Run(s', first), i, ok);
      events := first + rest;
      ThenReaches(s', first, rest, i, Answered(if ok then Success else ToolError));
    }
    RunCons(s, e, events);
  }

  /** And one that a policy layer denies can be answered with the denial. */
  lemma DenialCanAnswer(s: Server, e: Event) returns (events: seq<Event>)
    requires Valid(s) && !s.degraded && e.Decide? && At(s, e.i, Admitted) && (e.layer1.Deny? || e.layer2.Deny?)
    ensures Reaches(Step(s, e), events, e.i, Answered(Denial))
  {
    var s' := Step(s, e);
    StepKeeps(s, e);
    var w := WriteDenied(Denial, None);
    var first := WriteCanBeSecured(s', e.i, w);
    var rest := [Resume(e.i)] + [];
    RunCons(Run(s', first), Resume(e.i), []);
    events := first + rest;
    ThenReaches(s', first, rest, e.i, Answered(Denial));
  }
}

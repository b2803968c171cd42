/** Running an admitted composite plan step by step. */
module PlanRunner {
  import opened Options
  import opened Texts

  datatype Step = Step(
    stepId: string,
    toolRegistryId: string,
    executable: string,
    argv: seq<string>,
    cwd: string,
    timeoutMs: int,
    outputLimitBytes: int,
    projectCodeExecution: bool,
    sideEffectClass: string)

  datatype Plan = Plan(planId: string, compositeTool: string, steps: seq<Step>)

  datatype Entry = Entry(
    executable: string,
    permittedArgvTemplate: seq<string>,
    sideEffectClass: string,
    projectCodeExecution: bool,
    timeoutCeilingMs: int,
    maxOutputBytesCeiling: int,
    allowCwdSubdirectory: bool)

  type Registry = map<string, Entry>

  const ARC_TEST_NODE_REGISTRY_ID := "arc-test-node-v1"
  const NAME_PATTERN := "--test-name-pattern="

  // ----- validateStepAgainstRegistry -------------------------------------------

  predicate SafeToken(token: string) {
    forall i :: 0 <= i < |token| ==> token[i] !in {';', '&', '|', '`', '$', '>', '<', '\r', '\n'}
  }

  predicate SafeTokens(step: Step) {
    SafeToken(step.executable) && forall i :: 0 <= i < |step.argv| ==> SafeToken(step.argv[i])
  }

  predicate Contains(s: string, part: string) {
    part <= s || (s != "" && Contains(s[1..], part))
  }

  predicate SafeFilter(arg: string)
    requires NAME_PATTERN <= arg
  {
    var filter := arg[|NAME_PATTERN|..];
    !Contains(filter, "../") && !Contains(filter, "..\\") && '\0' !in filter
  }

  predicate SafeTarget(arg: string) {
    && !("-" <= arg) && !Contains(arg, "..") && !("/" <= arg)
    && !(|arg| >= 3 && IsLetter(arg[0]) && arg[1] == ':' && arg[2] == '\\')
  }

  /** `--test --test-reporter=tap`, then an optional name filter, then an optional target. */
  predicate TestArgv(argv: seq<string>) {
    && 2 <= |argv| <= 4 && argv[0] == "--test" && argv[1] == "--test-reporter=tap"
    && var rest := argv[2..];
       var filtered := rest != [] && NAME_PATTERN <= rest[0];
       var targets := if filtered then rest[1..] else rest;
       (filtered ==> SafeFilter(rest[0])) && |targets| <= 1 && (targets != [] ==> SafeTarget(targets[0]))
  }

  predicate PermittedStep(step: Step, registry: Registry) {
    && SafeTokens(step)
    && step.toolRegistryId in registry
    && var entry := registry[step.toolRegistryId];
       && step.executable == entry.executable
       && (if step.toolRegistryId == ARC_TEST_NODE_REGISTRY_ID then TestArgv(step.argv)
           else step.argv == entry.permittedArgvTemplate)
       && step.sideEffectClass == entry.sideEffectClass
       && step.projectCodeExecution == entry.projectCodeExecution
       && step.timeoutMs <= entry.timeoutCeilingMs
       && step.outputLimitBytes <= entry.maxOutputBytesCeiling
       && (entry.allowCwdSubdirectory || step.cwd == "")
  }

  predicate AllPermitted(steps: seq<Step>, registry: Registry) {
    forall i :: 0 <= i < |steps| ==> PermittedStep(steps[i], registry)
  }

  /** `validateStepExecutionAgainstPlan`: the candidate's tokens again, and every field against the plan. */
  predicate FollowsPlan(plan: Plan, i: int, candidate: Step) {
    0 <= i < |plan.steps| && SafeTokens(candidate) && candidate == plan.steps[i]
  }

  ghost predicate StandsAt(s: string, part: string, i: nat) {
    i + |part| <= |s| && s[i..i + |part|] == part
  }

  lemma StandsInTail(s: string, part: string, i: nat)
    requires s != ""
    ensures StandsAt(s[1..], part, i) <==> StandsAt(s, part, i + 1)
  {
    if i + 1 + |part| <= |s| {
      assert s[1..][i..i + |part|] == s[i + 1..i + 1 + |part|];
    }
  }

  /** The search finds a part exactly when it stands somewhere in the text. */
  lemma {:induction false} ContainsExactly(s: string, part: string)
    ensures Contains(s, part) <==> exists i: nat :: StandsAt(s, part, i)
  {
    if part <= s {
      assert StandsAt(s, part, 0);
    } else if s != "" {
      ContainsExactly(s[1..], part);
      if i: nat :| StandsAt(s[1..], part, i) {
        StandsInTail(s, part, i);
      }
      if i: nat :| StandsAt(s, part, i) {
        if i > 0 {
          StandsInTail(s, part, i - 1);
        }
      }
    }
  }

  /** The arguments of a test run are one of four shapes. */
  lemma TestArgvShapes(argv: seq<string>)
    ensures TestArgv(argv) <==>
      || argv == ["--test", "--test-reporter=tap"]
      || (exists f: string :: NAME_PATTERN <= f && SafeFilter(f) && argv == ["--test", "--test-reporter=tap", f])
      || (exists t: string :: !(NAME_PATTERN <= t) && SafeTarget(t) && argv == ["--test", "--test-reporter=tap", t])
      || (exists f: string, t: string :: NAME_PATTERN <= f && SafeFilter(f) && SafeTarget(t)
                                         && argv == ["--test", "--test-reporter=tap", f, t])
  {
  }

  /** What is run: no token has a character of a shell, the executable and the ceilings are the registry's, and a test
      target is no option, is not absolute and goes nowhere up. */
  lemma PermittedMeans(step: Step, registry: Registry, token: string, c: char)
    requires PermittedStep(step, registry)
    ensures (token == step.executable || token in step.argv) && c in token ==> c !in ";&|`$><\r\n"
    ensures step.toolRegistryId in registry
    ensures var entry := registry[step.toolRegistryId];
      && step.executable == entry.executable && step.sideEffectClass == entry.sideEffectClass
      && step.timeoutMs <= entry.timeoutCeilingMs && step.outputLimitBytes <= entry.maxOutputBytesCeiling
      && step.projectCodeExecution == entry.projectCodeExecution && (step.cwd == "" || entry.allowCwdSubdirectory)
      && (step.toolRegistryId != "arc-test-node-v1" ==> step.argv == entry.permittedArgvTemplate)
  {
  }

  lemma TargetIsBelow(arg: string, i: nat)
    requires SafeTarget(arg)
    ensures arg != "" ==> arg[0] != '-' && arg[0] != '/'
    ensures !StandsAt(arg, "..", i)
  {
    ContainsExactly(arg, "..");
  }

  // ----- one pass over the steps -----------------------------------------------

  datatype Status = Passed | Failed | TimedOut | Skipped

  /** What the executor did: exit code (none when killed) and its own timeout, or an error; `exhausted` for the two
      capacity errors that are passed on. */
  datatype Execution = Exited(code: Option<int>, timedOut: bool) | Threw(exhausted: bool)

  /** What the loop sees around one step: whether the run had been aborted before it, and after it. */
  datatype Observation = Observation(abortedBefore: bool, execution: Execution, abortedAfter: bool)

  datatype Progress = Progress(statuses: seq<Status>, executed: nat, failed: bool, timedOut: bool, raised: bool)

  const UNSTARTED := Progress([], 0, false, false, false)

  /** How a step that ran is reported. */
  function StatusOf(o: Observation): Status {
    match o.execution
    case Threw(_) => Failed
    case Exited(code, timedOut) =>
      if timedOut || o.abortedAfter then TimedOut else if code == Some(0) then Passed else Failed
  }

  function After(p: Progress, o: Observation): Progress {
    if p.raised then p
    else if p.timedOut || p.failed || o.abortedBefore then
      p.(statuses := p.statuses + [Skipped],
         failed := p.failed || o.abortedBefore,
         timedOut := p.timedOut || o.abortedBefore)
    else if o.execution == Threw(true) then p.(executed := p.executed + 1, raised := true)
    else
      var status := StatusOf(o);
      p.(statuses := p.statuses + [status],
         executed := p.executed + 1,
         failed := !status.Passed?,
         timedOut := status.TimedOut?)
  }

  function Run(seen: seq<Observation>): Progress {
    if seen == [] then UNSTARTED else After(Run(seen[..|seen| - 1]), seen[|seen| - 1])
  }

  datatype Overall = Success | PlanFailed | PlanTimedOut

  function OverallOf(p: Progress): Overall {
    if p.timedOut then PlanTimedOut else if p.failed then PlanFailed else Success
  }

  // ----- the shape of every run ------------------------------------------------

  ghost predicate AllAre(statuses: seq<Status>, from: int, to: int, s: Status)
    requires 0 <= from <= to <= |statuses|
  {
    forall i :: from <= i < to ==> statuses[i] == s
  }

  /** PASSED up to `passed`, then at most one FAILED or TIMED_OUT, then SKIPPED. */
  ghost predicate Shaped(statuses: seq<Status>, passed: nat, executed: nat) {
    && passed <= executed <= passed + 1 && executed <= |statuses|
    && AllAre(statuses, 0, passed, Passed)
    && (executed > passed ==> statuses[passed].Failed? || statuses[passed].TimedOut?)
    && AllAre(statuses, executed, |statuses|, Skipped)
  }

  ghost predicate Consistent(p: Progress, passed: nat) {
    if p.raised then
      && passed == |p.statuses| && AllAre(p.statuses, 0, passed, Passed) && p.executed == passed + 1
      && !p.failed && !p.timedOut
    else
      && Shaped(p.statuses, passed, p.executed)
      && (p.failed <==> passed < |p.statuses|)
      && (p.timedOut ==> p.failed)
  }

  lemma AfterKeeps(p: Progress, o: Observation, passed: nat) returns (passed': nat)
    requires Consistent(p, passed)
    ensures Consistent(After(p, o), passed')
  {
    passed' := if !p.raised && |After(p, o).statuses| > |p.statuses| && After(p, o).statuses[|p.statuses|].Passed?
               then passed + 1 else passed;
  }

  /** Every run: one result a step in plan order unless it is abandoned, shaped as above, the executor asked for
      exactly the steps that are not skipped, and success exactly when every step passed. */
  lemma {:induction false} RunIsShaped(seen: seq<Observation>) returns (passed: nat)
    ensures var p := Run(seen);
      && Consistent(p, passed)
      && (!p.raised ==> |p.statuses| == |seen| && (OverallOf(p).Success? <==> AllAre(p.statuses, 0, |seen|, Passed)))
      && (p.raised ==> p.executed <= |seen|)
  {
    if seen == [] {
      passed := 0;
    } else {
      var before := RunIsShaped(seen[..|seen| - 1]);
      passed := AfterKeeps(Run(seen[..|seen| - 1]), seen[|seen| - 1], before);
    }
    if !Run(seen).raised {
      SuccessIsAllPassed(Run(seen), passed);
    }
  }

  lemma SuccessIsAllPassed(p: Progress, passed: nat)
    requires Consistent(p, passed) && !p.raised
    ensures OverallOf(p).Success? <==> AllAre(p.statuses, 0, |p.statuses|, Passed)
  {
    if passed < |p.statuses| {
      assert !p.statuses[passed].Passed?;
    }
  }

  /** The step was started, exited with code 0 in time, and no abort was seen before or after it. */
  ghost predicate Clean(o: Observation) {
    !o.abortedBefore && o.execution == Exited(Some(0), false) && !o.abortedAfter
  }

  ghost predicate AllClean(seen: seq<Observation>, n: nat)
    requires n <= |seen|
  {
    forall j :: 0 <= j < n ==> Clean(seen[j])
  }

  /** The step at `i` was started. */
  ghost predicate Started(seen: seq<Observation>, i: nat)
    requires i < |seen|
  {
    AllClean(seen, i) && !seen[i].abortedBefore
  }

  /** What the status of the step at `i` says about what was seen. */
  ghost predicate StatusIs(status: Status, seen: seq<Observation>, i: nat)
    requires i < |seen|
  {
    var e := seen[i].execution;
    && (status.Passed? <==> Started(seen, i) && e.Exited? && e.code == Some(0) && !e.timedOut && !seen[i].abortedAfter)
    && (status.TimedOut? <==> Started(seen, i) && e.Exited? && (e.timedOut || seen[i].abortedAfter))
    && (status.Failed? <==>
          Started(seen, i) && (e.Threw? || (e.code != Some(0) && !e.timedOut && !seen[i].abortedAfter)))
    && (status.Skipped? <==> !Started(seen, i))
  }

  ghost predicate StatusesAre(p: Progress, seen: seq<Observation>) {
    && |p.statuses| == |seen|
    && (forall i :: 0 <= i < |seen| ==> StatusIs(p.statuses[i], seen, i))
    && (!p.failed && !p.timedOut <==> AllClean(seen, |seen|))
  }

  lemma StatusesExtend(p: Progress, seen: seq<Observation>, o: Observation)
    requires StatusesAre(p, seen) && !p.raised && !After(p, o).raised && (p.timedOut ==> p.failed)
    ensures StatusesAre(After(p, o), seen + [o])
  {
    var all := seen + [o];
    assert forall n :: 0 <= n <= |seen| ==> (AllClean(all, n) <==> AllClean(seen, n)) by {
      assert forall j :: 0 <= j < |seen| ==> all[j] == seen[j];
    }
    forall i | 0 <= i < |seen| ensures StatusIs(After(p, o).statuses[i], all, i) {
      assert StatusIs(p.statuses[i], seen, i);
    }
    LastStatus(p, seen, o);
    assert AllClean(all, |all|) <==> AllClean(seen, |seen|) && Clean(o);
  }

  lemma LastStatus(p: Progress, seen: seq<Observation>, o: Observation)
    requires |p.statuses| == |seen| && (!p.failed && !p.timedOut <==> AllClean(seen, |seen|))
    requires !p.raised && !After(p, o).raised
    ensures |After(p, o).statuses| == |seen| + 1 && StatusIs(After(p, o).statuses[|seen|], seen + [o], |seen|)
    ensures !After(p, o).failed && !After(p, o).timedOut <==> AllClean(seen, |seen|) && Clean(o)
  {
    assert AllClean(seen + [o], |seen|) <==> AllClean(seen, |seen|) by {
      assert forall j :: 0 <= j < |seen| ==> (seen + [o])[j] == seen[j];
    }
  }

  /** Every run: each status says exactly what was seen of its step. */
  lemma {:induction false} StatusesAreTrue(seen: seq<Observation>)
    requires !Run(seen).raised
    ensures StatusesAre(Run(seen), seen)
  {
    if seen != [] {
      var (front, last) := (seen[..|seen| - 1], seen[|seen| - 1]);
      StatusesAreTrue(front);
      var passed := RunIsShaped(front);
      assert front + [last] == seen;
      StatusesExtend(Run(front), front, last);
    }
  }

  lemma StartedInFront(seen: seq<Observation>, n: nat, i: nat)
    requires i < n <= |seen|
    ensures Started(seen[..n], i) <==> Started(seen, i)
  {
    AllCleanInFront(seen, n, i);
  }

  lemma AllCleanInFront(seen: seq<Observation>, n: nat, i: nat)
    requires i <= n <= |seen|
    ensures AllClean(seen[..n], i) <==> AllClean(seen, i)
  {
    assert forall j :: 0 <= j < i ==> seen[..n][j] == seen[j];
  }

  /** A step that was started ended in a capacity error. */
  ghost predicate Exhausted(seen: seq<Observation>, i: nat)
    requires i < |seen|
  {
    Started(seen, i) && seen[i].execution == Threw(true)
  }

  /** A run is abandoned exactly when a step that was started ended in a capacity error. */
  lemma {:induction false} RaisedExactly(seen: seq<Observation>)
    ensures Run(seen).raised <==> exists i :: 0 <= i < |seen| && Exhausted(seen, i)
  {
    if seen != [] {
      var n := |seen| - 1;
      RaisedExactly(seen[..n]);
      forall i | 0 <= i < n ensures Exhausted(seen[..n], i) <==> Exhausted(seen, i) {
        StartedInFront(seen, n, i);
      }
      if Run(seen[..n]).raised {
        var i :| 0 <= i < n && Exhausted(seen[..n], i);
      } else {
        StatusesAreTrue(seen[..n]);
        AllCleanInFront(seen, n, n);
        RaisedLast(seen);
      }
    }
  }

  lemma RaisedLast(seen: seq<Observation>)
    requires seen != []
    requires var front := seen[..|seen| - 1];
      !Run(front).raised && (!Run(front).failed && !Run(front).timedOut <==> AllClean(seen, |front|))
    ensures Run(seen).raised <==> Exhausted(seen, |seen| - 1)
  {
  }

  /** A run is reported as timed out exactly when a step timed out or an abort was seen before a step. */
  lemma {:induction false} TimeoutIsReported(seen: seq<Observation>)
    requires !Run(seen).raised
    ensures |Run(seen).statuses| == |seen|
    ensures OverallOf(Run(seen)).PlanTimedOut? <==>
      exists i :: 0 <= i < |seen| && (Run(seen).statuses[i].TimedOut? || seen[i].abortedBefore)
  {
    if seen != [] {
      var (front, last) := (seen[..|seen| - 1], seen[|seen| - 1]);
      TimeoutIsReported(front);
      TimeoutSeenLast(Run(front).statuses, Run(seen).statuses, front, seen);
    }
  }

  /** Whether some step timed out or met an abort, with one more step. */
  lemma TimeoutSeenLast(before: seq<Status>, after: seq<Status>, front: seq<Observation>, seen: seq<Observation>)
    requires seen != [] && front == seen[..|seen| - 1] && |before| == |front|
    requires |after| == |seen| && after[..|front|] == before
    ensures (exists i :: 0 <= i < |seen| && (after[i].TimedOut? || seen[i].abortedBefore)) <==>
      || (exists i :: 0 <= i < |front| && (before[i].TimedOut? || front[i].abortedBefore))
      || after[|front|].TimedOut? || seen[|front|].abortedBefore
  {
    forall i | 0 <= i < |front| ensures after[i] == before[i] && seen[i] == front[i] {
      assert after[i] == after[..|front|][i];
    }
  }

  /** A run that has raised stays so. */
  lemma {:induction false} RaisedStays(seen: seq<Observation>, n: nat)
    requires n <= |seen| && Run(seen[..n]).raised
    ensures Run(seen) == Run(seen[..n])
  {
    if n < |seen| {
      assert seen[..|seen| - 1][..n] == seen[..n];
      RaisedStays(seen[..|seen| - 1], n);
    } else {
      assert seen[..n] == seen;
    }
  }

  /** After the registry check, no step of the plan deviates from the plan. */
  lemma NoDeviation(plan: Plan, registry: Registry, i: int)
    requires AllPermitted(plan.steps, registry) && 0 <= i < |plan.steps|
    ensures FollowsPlan(plan, i, plan.steps[i])
  {
    assert PermittedStep(plan.steps[i], registry);
  }

  // ----- executeCompositePlan --------------------------------------------------

  class Ticket {
    const valid: bool
    const admittedPlanHash: string
    const workspaceId: string
    var consumed: bool

    constructor (valid: bool, admittedPlanHash: string, workspaceId: string)
      ensures this.valid == valid && this.admittedPlanHash == admittedPlanHash && this.workspaceId == workspaceId
      ensures !consumed
    {
      this.valid, this.admittedPlanHash, this.workspaceId, consumed := valid, admittedPlanHash, workspaceId, false;
    }
  }

  /** The privileged executor, with the steps it was asked to run. */
  class Executor {
    const authorized: bool
    var asked: seq<Step>

    constructor (authorized: bool)
      ensures this.authorized == authorized && asked == []
    {
      this.authorized, asked := authorized, [];
    }

    method ExecuteDeterministicStep(step: Step)
      modifies this
      ensures asked == old(asked) + [step]
    {
      asked := asked + [step];
    }
  }

  datatype StepResult = StepResult(stepId: string, toolRegistryId: string, status: Status)

  datatype Outcome = Refused | Raised | Completed(overall: Overall, results: seq<StepResult>)

  predicate Admissible(valid: bool, consumed: bool, ticketHash: string, ticketWorkspace: string,
                       admittedPlanHash: string, workspaceId: string, authorized: bool, planHash: string)
  {
    && valid && !consumed && ticketHash == admittedPlanHash && ticketWorkspace == workspaceId
    && authorized && planHash == admittedPlanHash
  }

  ghost predicate ResultsAre(results: seq<StepResult>, steps: seq<Step>, statuses: seq<Status>) {
    && |results| == |statuses| <= |steps|
    && forall i :: 0 <= i < |results| ==>
         results[i] == StepResult(steps[i].stepId, steps[i].toolRegistryId, statuses[i])
  }

  method ExecuteCompositePlan(plan: Plan, admittedPlanHash: string, workspaceId: string, ticket: Ticket,
                              executor: Executor, registry: Registry, hash: Plan -> string, seen: seq<Observation>)
    returns (outcome: Outcome)
    requires |seen| == |plan.steps|
    modifies ticket, executor
    ensures outcome.Refused? <==>
      !(Admissible(ticket.valid, old(ticket.consumed), ticket.admittedPlanHash, ticket.workspaceId, admittedPlanHash,
                   workspaceId, executor.authorized, hash(plan))
        && AllPermitted(plan.steps, registry))
    ensures outcome.Refused? ==> executor.asked == old(executor.asked) && ticket.consumed == old(ticket.consumed)
    ensures !outcome.Refused? ==>
      && ticket.consumed && (outcome.Raised? <==> Run(seen).raised)
      && Run(seen).executed <= |plan.steps|
      && executor.asked == old(executor.asked) + plan.steps[..Run(seen).executed]
    ensures outcome.Completed? ==>
      outcome.overall == OverallOf(Run(seen)) && ResultsAre(outcome.results, plan.steps, Run(seen).statuses)
  {
    if !Admissible(ticket.valid, ticket.consumed, ticket.admittedPlanHash, ticket.workspaceId, admittedPlanHash,
                   workspaceId, executor.authorized, hash(plan)) {
      return Refused;
    }
    var v := 0;
    while v < |plan.steps|
      invariant 0 <= v <= |plan.steps| && forall j :: 0 <= j < v ==> PermittedStep(plan.steps[j], registry)
    {
      if !PermittedStep(plan.steps[v], registry) {
        return Refused;
      }
      v := v + 1;
    }
    outcome := RunSteps(plan, executor, registry, seen);
    ticket.consumed := true;
  }

  /** The loop itself. */
  method RunSteps(plan: Plan, executor: Executor, registry: Registry, seen: seq<Observation>) returns (outcome: Outcome)
    requires |seen| == |plan.steps| && AllPermitted(plan.steps, registry)
    modifies executor
    ensures Run(seen).executed <= |plan.steps|
    ensures executor.asked == old(executor.asked) + plan.steps[..Run(seen).executed]
    ensures !outcome.Refused? && (outcome.Raised? <==> Run(seen).raised)
    ensures outcome.Completed? ==>
      outcome.overall == OverallOf(Run(seen)) && ResultsAre(outcome.results, plan.steps, Run(seen).statuses)
  {
    var results: seq<StepResult> := [];
    var overallFailed, overallTimedOut := false, false;
    var i := 0;
    ghost var asked := executor.asked;
    while i < |plan.steps|
      invariant 0 <= i <= |plan.steps|
      invariant InLoop(plan.steps, seen, i, results, overallFailed, overallTimedOut, executor.asked, asked)
    {
      var step := plan.steps[i];
      if overallTimedOut || overallFailed || seen[i].abortedBefore {
        Skips(plan.steps, seen, i, results, overallFailed, overallTimedOut, executor.asked, asked);
        if seen[i].abortedBefore {
          overallTimedOut, overallFailed := true, true;
        }
        results := results + [StepResult(step.stepId, step.toolRegistryId, Skipped)];
      } else {
        NoDeviation(plan, registry, i);
        assert FollowsPlan(plan, i, step);
        Runs(plan.steps, seen, i, results, executor.asked, asked);
        executor.ExecuteDeterministicStep(step);
        if seen[i].execution == Threw(true) {
          RaisedStays(seen, i + 1);
          return Raised;
        }
        var status := StatusOf(seen[i]);
        overallTimedOut := status.TimedOut?;
        overallFailed := !status.Passed?;
        results := results + [StepResult(step.stepId, step.toolRegistryId, status)];
      }
      i := i + 1;
    }
    assert seen[..i] == seen;
    return Completed(if overallTimedOut then PlanTimedOut else if overallFailed then PlanFailed else Success, results);
  }

  lemma Skips(steps: seq<Step>, seen: seq<Observation>, i: nat, results: seq<StepResult>, failed: bool, timedOut: bool,
              asked: seq<Step>, askedBefore: seq<Step>)
    requires InLoop(steps, seen, i, results, failed, timedOut, asked, askedBefore) && i < |steps|
    requires failed || timedOut || seen[i].abortedBefore
    ensures InLoop(steps, seen, i + 1, results + [StepResult(steps[i].stepId, steps[i].toolRegistryId, Skipped)],
                   failed || seen[i].abortedBefore, timedOut || seen[i].abortedBefore, asked, askedBefore)
  {
    assert seen[..i + 1][..i] == seen[..i];
  }

  lemma Runs(steps: seq<Step>, seen: seq<Observation>, i: nat, results: seq<StepResult>, asked: seq<Step>,
             askedBefore: seq<Step>)
    requires InLoop(steps, seen, i, results, false, false, asked, askedBefore) && i < |steps| && !seen[i].abortedBefore
    ensures if seen[i].execution == Threw(true) then
        var p := Run(seen[..i + 1]);
        p.raised && p.executed == i + 1 && asked + [steps[i]] == askedBefore + steps[..i + 1]
      else
        var status := StatusOf(seen[i]);
        InLoop(steps, seen, i + 1, results + [StepResult(steps[i].stepId, steps[i].toolRegistryId, status)],
               !status.Passed?, status.TimedOut?, asked + [steps[i]], askedBefore)
  {
    assert seen[..i + 1][..i] == seen[..i];
    assert steps[..i + 1] == steps[..i] + [steps[i]];
    assert askedBefore + steps[..i] + [steps[i]] == askedBefore + steps[..i + 1];
  }

  ghost predicate InLoop(steps: seq<Step>, seen: seq<Observation>, i: nat, results: seq<StepResult>, failed: bool,
                         timedOut: bool, asked: seq<Step>, askedBefore: seq<Step>)
  {
    && i <= |steps| == |seen|
    && var p := Run(seen[..i]);
       && !p.raised && p.failed == failed && p.timedOut == timedOut && |p.statuses| == i
       && ResultsAre(results, steps, p.statuses)
       && p.executed <= i && (!failed && !timedOut ==> p.executed == i)
       && asked == askedBefore + steps[..p.executed]
  }
}

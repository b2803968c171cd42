/**
 * Administrative requests that change state, queue their evidence and answer only after a flush:
 * an approval's token, and an enrollment's one-time secret, leave the process only behind committed evidence.
 *
 * Any number of requests are in flight at once, interleaved with every step of the sink.
 */
module AdminDisclosure {
  import opened AuditSinks

  datatype Answer = Pending | Disclosed | Refused | InternalError

  /**
   * One request: whether it has something to disclose, the evidence it offered to the sink (the events from
   * `first` on, unless some were dropped), the flush it waits in, and its answer.
   */
  datatype Request = Request(granted: bool, first: nat, offered: nat, flush: nat, answer: Answer)

  datatype System = System(sink: Sink, requests: seq<Request>)

  datatype Event =
    | SinkStep(op: Op)
    | Call(granted: bool, offered: nat)   // the synchronous transition, its events, and the call of `flush()`
    | Return(request: nat)                // the flush is over: answer

  /** The events of one transition, offered one after the other. */
  function Offer(k: Kind, s: Sink, n: nat): Sink
    decreases n
  {
    if n == 0 then s else Offer(k, Accept(k, s), n - 1)
  }

  function Answered(k: Kind, s: Sink, r: Request): Answer
    requires r.flush < |s.flushes| && CanReturn(s, s.flushes[r.flush])
  {
    if !Resolves(k, s, s.flushes[r.flush]) then InternalError else if r.granted then Disclosed else Refused
  }

  predicate CanAnswer(sys: System, i: nat) {
    && i < |sys.requests| && sys.requests[i].answer.Pending?
    && sys.requests[i].flush < |sys.sink.flushes| && CanReturn(sys.sink, sys.sink.flushes[sys.requests[i].flush])
  }

  function Step(k: Kind, sys: System, e: Event): System {
    match e
    case SinkStep(op) => sys.(sink := AuditSinks.Step(k, sys.sink, op))
    case Call(granted, offered) =>
      var queued := Offer(k, sys.sink, offered);
      System(CallFlush(k, queued),
             sys.requests + [Request(granted, sys.sink.accepted, offered, |queued.flushes|, Pending)])
    case Return(i) =>
      if CanAnswer(sys, i) then
        var r := sys.requests[i];
        sys.(requests := sys.requests[i := r.(answer := Answered(k, sys.sink, r))])
      else sys
  }

  function Run(k: Kind, sys: System, events: seq<Event>): System
    decreases |events|
  {
    if events == [] then sys else Run(k, Step(k, sys, events[0]), events[1..])
  }

  // ----- what every run keeps --------------------------------------------------

  /** Every event of the request has a record in the chain. */
  ghost predicate Committed(r: Request, s: Sink) {
    forall n :: r.first <= n < r.first + r.offered ==> n in s.chain
  }

  /** Every event of the request is in the chain or still queued, or the overflow latch says one was dropped. */
  ghost predicate NotLost(r: Request, s: Sink) {
    s.overflowed || forall n :: r.first <= n < r.first + r.offered ==> n in s.chain || s.shifted <= n < s.accepted
  }

  /** A request's flush was called after its events were offered. */
  ghost predicate Waits(r: Request, s: Sink) {
    && r.flush < |s.flushes|
    && (s.flushes[r.flush].mark.overflowed || s.flushes[r.flush].mark.accepted == r.first + r.offered)
  }

  ghost predicate Truthful(r: Request, s: Sink) {
    && Waits(r, s)
    && (r.answer.Disclosed? ==> r.granted)
    && (r.answer.Disclosed? || r.answer.Refused? ==> Committed(r, s))
  }

  ghost predicate ValidSystem(k: Kind, sys: System) {
    Valid(k, sys.sink) && forall i :: 0 <= i < |sys.requests| ==> Truthful(sys.requests[i], sys.sink)
  }

  lemma {:induction false} OfferKeeps(k: Kind, s: Sink, n: nat)
    requires Valid(k, s)
    ensures var s' := Offer(k, s, n);
      Valid(k, s') && Grown(s, s') && s'.flushes == s.flushes && (s'.overflowed || s'.accepted == s.accepted + n)
    decreases n
  {
    if n > 0 {
      AcceptKeeps(k, s);
      StepGrows(k, s, Emit);
      OfferKeeps(k, Accept(k, s), n - 1);
    }
  }

  lemma GrownKeepsTruth(r: Request, s: Sink, s': Sink)
    requires Truthful(r, s) && Grown(s, s')
    ensures Truthful(r, s')
  {
    assert s'.flushes[r.flush] == s.flushes[r.flush];
    forall n | n in s.chain ensures n in s'.chain {
      var i :| 0 <= i < |s.chain| && s.chain[i] == n;
      assert s'.chain[i] == n;
    }
  }

  /** The answer a returning flush leads to is backed by the chain. */
  lemma AnswerIsTruthful(k: Kind, s: Sink, r: Request)
    requires Valid(k, s) && Waits(r, s) && CanReturn(s, s.flushes[r.flush])
    ensures Truthful(r.(answer := Answered(k, s, r)), s)
  {
    if Resolves(k, s, s.flushes[r.flush]) {
      FlushMeansCommitted(k, s, r.flush);
    }
  }

  lemma AllStayTruthful(rs: seq<Request>, s: Sink, s': Sink)
    requires Grown(s, s') && forall i :: 0 <= i < |rs| ==> Truthful(rs[i], s)
    ensures forall i :: 0 <= i < |rs| ==> Truthful(rs[i], s')
  {
    forall i | 0 <= i < |rs| ensures Truthful(rs[i], s') {
      GrownKeepsTruth(rs[i], s, s');
    }
  }

  lemma CallKeeps(k: Kind, s: Sink, granted: bool, offered: nat)
    requires Valid(k, s)
    ensures var queued := Offer(k, s, offered);
      var s' := CallFlush(k, queued);
      && Valid(k, s') && Grown(s, s')
      && Truthful(Request(granted, s.accepted, offered, |queued.flushes|, Pending), s')
  {
    OfferKeeps(k, s, offered);
    CallFlushKeeps(k, Offer(k, s, offered));
  }

  lemma StepKeeps(k: Kind, sys: System, e: Event)
    requires ValidSystem(k, sys)
    ensures ValidSystem(k, Step(k, sys, e)) && Grown(sys.sink, Step(k, sys, e).sink)
  {
    match e
    case SinkStep(op) =>
      AuditSinks.StepKeeps(k, sys.sink, op);
      StepGrows(k, sys.sink, op);
      AllStayTruthful(sys.requests, sys.sink, AuditSinks.Step(k, sys.sink, op));
    case Call(granted, offered) =>
      CallKeeps(k, sys.sink, granted, offered);
      AllStayTruthful(sys.requests, sys.sink, Step(k, sys, e).sink);
    case Return(i) =>
      if CanAnswer(sys, i) {
        AnswerIsTruthful(k, sys.sink, sys.requests[i]);
      }
  }

  lemma {:induction false} RunKeeps(k: Kind, sys: System, events: seq<Event>)
    requires ValidSystem(k, sys)
    ensures ValidSystem(k, Run(k, sys, events)) && Grown(sys.sink, Run(k, sys, events).sink)
    decreases |events|
  {
    if events != [] {
      StepKeeps(k, sys, events[0]);
      RunKeeps(k, Step(k, sys, events[0]), events[1..]);
    }
  }

  // ----- the guarantees --------------------------------------------------------

  /** In every run, a disclosed token or secret has all the evidence of its transition in the chain, and so has
      every definite refusal. */
  lemma DisclosureFollowsEvidence(k: Kind, sys: System, events: seq<Event>, i: nat)
    requires ValidSystem(k, sys) && i < |Run(k, sys, events).requests|
    ensures var after := Run(k, sys, events);
      var r := after.requests[i];
      && (r.answer.Disclosed? ==> r.granted && Committed(r, after.sink))
      && (r.answer.Refused? ==> Committed(r, after.sink))
  {
    RunKeeps(k, sys, events);
  }

  /** Whatever the answer, the evidence is not lost: each event is in the chain, is queued for a later drain, or
      its loss is latched, so that no flush called later resolves. */
  lemma EvidenceSurvives(k: Kind, sys: System, events: seq<Event>, i: nat)
    requires ValidSystem(k, sys) && i < |Run(k, sys, events).requests|
    ensures var after := Run(k, sys, events); NotLost(after.requests[i], after.sink)
  {
    RunKeeps(k, sys, events);
    var after := Run(k, sys, events);
    var (r, s) := (after.requests[i], after.sink);
    assert Truthful(r, s);
    if !s.overflowed {
      assert FlushKept(k, s.flushes[r.flush], s.scheduled);
      forall n | r.first <= n < r.first + r.offered ensures n in s.chain || s.shifted <= n < s.accepted {
        if n < s.shifted {
          ShiftedIsCommitted(k, s, n);
        }
      }
    }
  }

  /** While nothing was dropped and no write failed, every answer given is the one the transition earned. */
  ghost predicate Healthy(sys: System) {
    !sys.sink.overflowed ==>
      && false !in sys.sink.results
      && forall i :: 0 <= i < |sys.requests| && !sys.requests[i].answer.Pending? ==>
           sys.requests[i].answer == if sys.requests[i].granted then Disclosed else Refused
  }

  lemma {:induction false} OfferStaysHealthy(k: Kind, s: Sink, n: nat)
    ensures Offer(k, s, n).results == s.results && (s.overflowed ==> Offer(k, s, n).overflowed)
    decreases n
  {
    if n > 0 {
      OfferStaysHealthy(k, Accept(k, s), n - 1);
    }
  }

  lemma HealthyAnswer(k: Kind, s: Sink, r: Request)
    requires Valid(k, s) && !s.overflowed && false !in s.results
    requires r.flush < |s.flushes| && CanReturn(s, s.flushes[r.flush])
    ensures Answered(k, s, r) == if r.granted then Disclosed else Refused
  {
    var f := s.flushes[r.flush];
    assert f.drains > 0 ==> s.results[f.drains - 1] in s.results;
  }

  lemma HealthyStep(k: Kind, sys: System, e: Event)
    requires ValidSystem(k, sys) && Healthy(sys)
    requires e.SinkStep? && e.op.Settle? ==> e.op.write.Stored?
    ensures Healthy(Step(k, sys, e))
  {
    match e
    case SinkStep(op) =>
      StepGrows(k, sys.sink, op);
      AuditSinks.HealthyStep(k, sys.sink, op);
    case Call(_, offered) => OfferStaysHealthy(k, sys.sink, offered);
    case Return(i) =>
      if CanAnswer(sys, i) && !sys.sink.overflowed {
        HealthyAnswer(k, sys.sink, sys.requests[i]);
      }
  }

  /** In every run from a fresh sink in which every write is stored and no event is dropped, each answer given is
      right: a granted request is answered with its token or secret, and any other with its refusal. */
  lemma {:induction false} HealthyRunsAnswer(k: Kind, sys: System, events: seq<Event>)
    requires ValidSystem(k, sys) && Healthy(sys)
    requires forall j :: 0 <= j < |events| ==>
               events[j].SinkStep? && events[j].op.Settle? ==> events[j].op.write.Stored?
    ensures Healthy(Run(k, sys, events))
    decreases |events|
  {
    if events != [] {
      StepKeeps(k, sys, events[0]);
      HealthyStep(k, sys, events[0]);
      HealthyRunsAnswer(k, Step(k, sys, events[0]), events[1..]);
    }
  }

  /** An answer is given once. */
  lemma {:induction false} AnswersStand(k: Kind, sys: System, events: seq<Event>, i: nat)
    requires i < |sys.requests| && !sys.requests[i].answer.Pending?
    ensures i < |Run(k, sys, events).requests| && Run(k, sys, events).requests[i] == sys.requests[i]
    decreases |events|
  {
    if events != [] {
      AnswersStand(k, Step(k, sys, events[0]), events[1..], i);
    }
  }
}

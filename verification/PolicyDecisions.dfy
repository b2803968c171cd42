/** Reducing the decisions for several targets to one. */
module PolicyDecisions {
  import opened Options
  import opened JsStrings

  datatype Effect = Deny | RequireApproval | Allow

  datatype Decision = Decision(effect: Effect, ruleId: JsString, reason: string)

  function Rank(e: Effect): nat {
    match e
    case Deny => 0
    case RequireApproval => 1
    case Allow => 2
  }

  /** `mostRestrictive` */
  function MostRestrictive(a: Effect, b: Effect): Effect {
    if Rank(a) <= Rank(b) then a else b
  }

  /** `a < b` on strings. */
  predicate Less(a: JsString, b: JsString) {
    a != b && LessEq(a, b)
  }

  /** `d` is at least as restrictive as `e`, and of equals has the smaller rule id. */
  predicate Precedes(d: Decision, e: Decision) {
    Rank(d.effect) < Rank(e.effect) || (Rank(d.effect) == Rank(e.effect) && LessEq(d.ruleId, e.ruleId))
  }

  ghost predicate Wins(w: Decision, decisions: seq<Decision>) {
    w in decisions && forall d :: d in decisions ==> Precedes(w, d)
  }

  lemma PrecedesTransitive(a: Decision, b: Decision, c: Decision)
    requires Precedes(a, b) && Precedes(b, c)
    ensures Precedes(a, c)
  {
    if Rank(a.effect) == Rank(b.effect) == Rank(c.effect) {
      LessEqTransitive(a.ruleId, b.ruleId, c.ruleId);
    }
  }

  /** No decision of the same effect has a rule id that stands before this one. */
  ghost predicate HasLeastId(w: Decision, decisions: seq<Decision>) {
    forall d :: d in decisions && d.effect == w.effect ==> d.ruleId == w.ruleId || StandsBefore(w.ruleId, d.ruleId)
  }

  lemma WinnerHasLeastId(decisions: seq<Decision>, w: Decision)
    requires Wins(w, decisions)
    ensures HasLeastId(w, decisions)
  {
    forall d | d in decisions && d.effect == w.effect
      ensures d.ruleId == w.ruleId || StandsBefore(w.ruleId, d.ruleId)
    {
      assert Precedes(w, d);
      LessEqExactly(w.ruleId, d.ruleId);
    }
  }

  /** Of two layers a denial denies, and both must allow. */
  lemma MostRestrictiveIs(a: Effect, b: Effect)
    ensures MostRestrictive(a, b).Deny? <==> a.Deny? || b.Deny?
    ensures MostRestrictive(a, b).Allow? <==> a.Allow? && b.Allow?
  {
  }

  /** The decision taken is the most restrictive, with the smallest rule id among equals; there is none only for no
      targets. */
  method ReduceDecisions(decisions: seq<Decision>) returns (winner: Option<Decision>)
    ensures winner.None? <==> decisions == []
    ensures winner.Some? ==> Wins(winner.value, decisions) && HasLeastId(winner.value, decisions)
  {
    winner := None;
    var i := 0;
    while i < |decisions|
      invariant 0 <= i <= |decisions|
      invariant winner.None? <==> i == 0
      invariant winner.Some? ==> Wins(winner.value, decisions[..i])
    {
      var decision := decisions[i];
      assert decisions[..i + 1] == decisions[..i] + [decision];
      if winner.None? {
        LessEqTotal(decision.ruleId, decision.ruleId);
        winner := Some(decision);
      } else {
        ghost var before := winner.value;
        LessEqTotal(decision.ruleId, before.ruleId);
        if Rank(decision.effect) < Rank(winner.value.effect)
           || (Rank(decision.effect) == Rank(winner.value.effect) && Less(decision.ruleId, winner.value.ruleId)) {
          forall d | d in decisions[..i] ensures Precedes(decision, d) {
            PrecedesTransitive(decision, before, d);
          }
          LessEqTotal(decision.ruleId, decision.ruleId);
          winner := Some(decision);
        }
      }
      i := i + 1;
    }
    assert decisions[..i] == decisions;
    if winner.Some? {
      WinnerHasLeastId(decisions, winner.value);
    }
  }

  /** Effect and rule id do not depend on the order of the targets. */
  lemma OrderDoesNotMatter(a: seq<Decision>, b: seq<Decision>, v: Decision, w: Decision)
    requires multiset(a) == multiset(b) && Wins(v, a) && Wins(w, b)
    ensures v.effect == w.effect && v.ruleId == w.ruleId
  {
    assert v in multiset(a) && w in multiset(b);
    assert v in b && w in a;
    if Rank(v.effect) == Rank(w.effect) {
      LessEqAntisymmetric(v.ruleId, w.ruleId);
    }
  }

  /** Refusing any target refuses all, and everything is allowed only if every target is. */
  lemma MostRestrictiveWins(decisions: seq<Decision>, w: Decision)
    requires Wins(w, decisions)
    ensures w.effect.Deny? <==> exists d :: d in decisions && d.effect.Deny?
    ensures w.effect.Allow? <==> forall d :: d in decisions ==> d.effect.Allow?
  {
    assert forall d :: d in decisions ==> Precedes(w, d);
  }
}

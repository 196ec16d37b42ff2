/**
 * What the gate's verdicts say, in terms of the fields of a proposal, its
 * registered effect and the decision on file (src/policy/effect-gate.mjs).
 */
module GateLaws {
  import opened Wrappers
  import opened Json
  import opened Hashing
  import opened Gates
  import Approvals
  import Text

  // ---------------------------------------------------------------- the fields

  predicate Full(v: Value) {
    v.Str? && v.s != ""
  }

  predicate LeftOut(v: Value) {
    v == Undefined || v == Null
  }

  predicate Claims(v: Value, words: set<string>) {
    LeftOut(v) || (v.Str? && v.s in words)
  }

  /** A string that the platform reads as a date. */
  predicate Dated(policy: Policy, v: Value) {
    Full(v) && policy.parseDate(v.s) != None
  }

  /** A well-formed proposal, field by field. */
  predicate Shaped(policy: Policy, p: Value) {
    && p.Obj? && Full(Get(p, "id")) && Full(Get(p, "work_order_id")) && Full(Get(p, "proposed_by"))
    && Full(Get(p, "action")) && Full(Get(p, "target"))
    && Get(p, "parameters").Obj? && Get(p, "evidence_refs").Arr?
    && Claims(Get(p, "claimed_externality"), {"internal", "external"})
    && Claims(Get(p, "claimed_reversibility"), {"reversible", "partially-reversible", "irreversible"})
    && Claims(Get(p, "claimed_risk"), {"LOW", "MEDIUM", "HIGH", "CONSEQUENTIAL"})
    && (LeftOut(Get(p, "uncertainty")) || Full(Get(p, "uncertainty")))
    && Dated(policy, Get(p, "created_at"))
    && (LeftOut(Get(p, "expires_at")) || Dated(policy, Get(p, "expires_at")))
  }

  /** The words for a risk, and no others, claim it. */
  lemma RiskWords(v: Value)
    ensures RiskOf(v) == (if v == Str("LOW") then Some(LOW) else if v == Str("MEDIUM") then Some(MEDIUM)
                          else if v == Str("HIGH") then Some(HIGH) else if v == Str("CONSEQUENTIAL") then Some(CONSEQUENTIAL) else None)
    ensures Missing(v) || RiskOf(v).Some? <==> Claims(v, {"LOW", "MEDIUM", "HIGH", "CONSEQUENTIAL"})
  {
  }

  lemma ReversalWords(v: Value)
    ensures ReversalOf(v) == (if v == Str("reversible") then Some(REVERSIBLE)
                              else if v == Str("partially-reversible") then Some(PARTIALLY_REVERSIBLE)
                              else if v == Str("irreversible") then Some(IRREVERSIBLE) else None)
    ensures Missing(v) || ReversalOf(v).Some? <==> Claims(v, {"reversible", "partially-reversible", "irreversible"})
  {
  }

  lemma ShapedIff(policy: Policy, p: Value)
    ensures WellFormed(policy, p) <==> Shaped(policy, p)
  {
    RiskWords(Get(p, "claimed_risk"));
    ReversalWords(Get(p, "claimed_reversibility"));
  }

  // ---------------------------------------------------------------- the parameters

  /** Bound `i` is one that the parameter of its name exceeds. */
  predicate Exceeds(bounds: seq<(string, Option<nat>)>, parameters: Value, i: int) {
    && 0 <= i < |bounds| && bounds[i].1.Some?
    && Get(parameters, bounds[i].0).Str? && Text.Utf16Length(Get(parameters, bounds[i].0).s) > bounds[i].1.value
  }

  /** The parameter reported is the first, in the order of the bounds, that is a string longer than its bound; none if there is none. */
  lemma {:induction false} FirstOverBoundIff(bounds: seq<(string, Option<nat>)>, parameters: Value)
    ensures FirstOverBound(bounds, parameters).None? <==> forall i :: !Exceeds(bounds, parameters, i)
    ensures FirstOverBound(bounds, parameters).Some? ==>
      exists i :: Exceeds(bounds, parameters, i) && bounds[i].0 == FirstOverBound(bounds, parameters).value
                  && forall j :: j < i ==> !Exceeds(bounds, parameters, j)
  {
    if bounds != [] {
      FirstOverBoundIff(bounds[1..], parameters);
      forall i | i > 0 ensures Exceeds(bounds, parameters, i) <==> Exceeds(bounds[1..], parameters, i - 1) { }
      if Exceeds(bounds, parameters, 0) {
        assert FirstOverBound(bounds, parameters) == Some(bounds[0].0);
      } else {
        assert FirstOverBound(bounds, parameters) == FirstOverBound(bounds[1..], parameters);
        if i :| Exceeds(bounds[1..], parameters, i) { assert Exceeds(bounds, parameters, i + 1); }
        if FirstOverBound(bounds, parameters).Some? {
          var i :| Exceeds(bounds[1..], parameters, i) && bounds[1..][i].0 == FirstOverBound(bounds[1..], parameters).value
                   && forall j :: j < i ==> !Exceeds(bounds[1..], parameters, j);
          assert Exceeds(bounds, parameters, i + 1) && bounds[i + 1].0 == bounds[1..][i].0;
          forall j | j < i + 1 ensures !Exceeds(bounds, parameters, j) {
            if j > 0 { assert !Exceeds(bounds[1..], parameters, j - 1); }
          }
        }
      }
    }
  }

  // ---------------------------------------------------------------- the stages

  /** It says when it expires, and that moment has come. */
  predicate TooLate(policy: Policy, p: Value, now: int) {
    var x := Get(p, "expires_at");
    Full(x) && policy.parseDate(x.s).Some? && now >= policy.parseDate(x.s).value
  }

  /** The registry says so, or a claim does. */
  predicate AsksForHuman(e: Effect, p: Value) {
    || e.requiresApproval || e.external || e.risk == CONSEQUENTIAL
    || Get(p, "claimed_externality") == Str("external") || Get(p, "claimed_risk") == Str("CONSEQUENTIAL")
  }

  lemma AsksIff(e: Effect, p: Value)
    ensures NeedsApproval(e, p) <==> AsksForHuman(e, p)
  {
    RiskWords(Get(p, "claimed_risk"));
  }

  /** An approval of exactly this digest and scope is on file, unused and in time. */
  predicate OnFile(store: Approvals.Store, id: string, digest: Digest, scope: string, now: int) {
    && id in store.decisions
    && var d := store.decisions[id];
       d.decision == "APPROVED" && !d.consumed && d.digest == digest && d.scope == scope && now < d.expiresAt
  }

  lemma OnFileIff(store: Approvals.Store, id: string, digest: Digest, scope: string, now: int)
    ensures Approvals.Check(store, id, digest, scope, now).Ok? <==> OnFile(store, id, digest, scope, now)
    ensures OnFile(store, id, digest, scope, now) ==> Approvals.Check(store, id, digest, scope, now).value == store.decisions[id]
  {
  }

  /**
   * The gate allows exactly the well-formed proposals of a registered effect
   * whose parameters are within their bounds, whose path is not denied, whose
   * effect is not forbidden, which have not expired, and which have a human
   * approval of their digest and scope on file if the effect, or what they
   * claim, asks for one.
   */
  lemma AllowsIff(policy: Policy, store: Approvals.Store, p: Value, approvalId: Option<string>, nonce: string, now: int)
    ensures Gates.Evaluate(policy, store, p, approvalId, nonce, now).kind == ALLOW <==>
      && policy.budget >= 7 && Shaped(policy, p) && Get(p, "action").s in policy.registry
      && var e := policy.registry[Get(p, "action").s];
         && (forall i :: !Exceeds(e.bounds, Get(p, "parameters"), i))
         && (e.pathTarget ==> !policy.pathDenied(Get(p, "target").s))
         && (e.forbiddenClass == None || e.forbiddenClass == Some(""))
         && (LeftOut(Get(p, "expires_at")) || now < policy.parseDate(Get(p, "expires_at").s).value)
         && (AsksForHuman(e, p) ==>
               approvalId.Some? && approvalId.value != ""
               && OnFile(store, approvalId.value, DigestOf(p), e.capabilityClass + ":" + Get(p, "target").s, now))
  {
    AllowIff(policy, store, p, approvalId, nonce, now);
    ShapedIff(policy, p);
    if Shaped(policy, p) && Get(p, "action").s in policy.registry {
      var e := policy.registry[Get(p, "action").s];
      FirstOverBoundIff(e.bounds, Get(p, "parameters"));
      AsksIff(e, p);
      if approvalId.Some? { OnFileIff(store, approvalId.value, DigestOf(p), e.capabilityClass + ":" + Get(p, "target").s, now); }
    }
  }

  /** What an ALLOW is bound to. */
  lemma AllowBinds(policy: Policy, store: Approvals.Store, p: Value, approvalId: Option<string>, nonce: string, now: int)
    requires Gates.Evaluate(policy, store, p, approvalId, nonce, now).kind == ALLOW
    ensures p.Obj? && Get(p, "action").Str? && Get(p, "action").s in policy.registry && Get(p, "target").Str?
    ensures var v, e := Gates.Evaluate(policy, store, p, approvalId, nonce, now), policy.registry[Get(p, "action").s];
            && v.nonce == nonce && v.digest == Some(DigestOf(p)) && v.scope == e.capabilityClass + ":" + Get(p, "target").s
            && v.approvalId == (if AsksForHuman(e, p) then approvalId else None) && v.at == now && v.effective.Some?
            && (v.effective.value.external <==> e.external || Get(p, "claimed_externality") == Str("external"))
            && v.effective.value.risk == StricterRisk(e.risk, Get(p, "claimed_risk"))
            && v.effective.value.reversal == StricterReversal(e.reversal, Get(p, "claimed_reversibility"))
  {
    AllowsIff(policy, store, p, approvalId, nonce, now);
    AllowIff(policy, store, p, approvalId, nonce, now);
    AsksIff(policy.registry[ActionOf(p)], p);
    RiskWords(Get(p, "claimed_risk"));
    ReversalWords(Get(p, "claimed_reversibility"));
  }

  /** The claimed risk counts when it is one of the higher ones. */
  function StricterRisk(registered: Risk, claim: Value): Risk {
    if registered == CONSEQUENTIAL || claim == Str("CONSEQUENTIAL") then CONSEQUENTIAL
    else if registered == HIGH || claim == Str("HIGH") then HIGH
    else if registered == MEDIUM || claim == Str("MEDIUM") then MEDIUM
    else LOW
  }

  function StricterReversal(registered: Reversal, claim: Value): Reversal {
    if registered == IRREVERSIBLE || claim == Str("irreversible") then IRREVERSIBLE
    else if registered == PARTIALLY_REVERSIBLE || claim == Str("partially-reversible") then PARTIALLY_REVERSIBLE
    else REVERSIBLE
  }

  /** The proposal passes everything that is checked within `budget` steps before the grant. */
  ghost predicate Passes(policy: Policy, p: Value, now: int, budget: nat) {
    && (budget >= 1 ==> Shaped(policy, p) && Get(p, "action").s in policy.registry)
    && (budget >= 2 ==>
          var e := policy.registry[Get(p, "action").s];
          && (forall i :: !Exceeds(e.bounds, Get(p, "parameters"), i))
          && (budget >= 3 ==> !(e.pathTarget && policy.pathDenied(Get(p, "target").s)))
          && (budget >= 4 ==> e.forbiddenClass == None || e.forbiddenClass == Some(""))
          && (budget >= 6 ==> !TooLate(policy, p, now)))
  }

  /** The first check that fails within the budget decides the reason; what needs more steps than there are ends in `Exhausted`. */
  lemma ReasonIff(policy: Policy, store: Approvals.Store, p: Value, approvalId: Option<string>, nonce: string, now: int)
    ensures var v := Gates.Evaluate(policy, store, p, approvalId, nonce, now);
            && (v.reason.Structure? <==> policy.budget >= 1 && !Shaped(policy, p))
            && (v.reason.UnknownEffect? <==> policy.budget >= 1 && Shaped(policy, p) && Get(p, "action").s !in policy.registry)
            && (v.reason.Exhausted? <==> policy.budget < 7 && Passes(policy, p, now, policy.budget))
    ensures var v := Gates.Evaluate(policy, store, p, approvalId, nonce, now);
            v.reason.OverBound? <==> policy.budget >= 2 && Passes(policy, p, now, 1) && !Passes(policy, p, now, 2)
    ensures var v := Gates.Evaluate(policy, store, p, approvalId, nonce, now);
            v.reason.PathDenied? <==> policy.budget >= 3 && Passes(policy, p, now, 2) && !Passes(policy, p, now, 3)
    ensures var v := Gates.Evaluate(policy, store, p, approvalId, nonce, now);
            v.reason.Forbidden? <==> policy.budget >= 4 && Passes(policy, p, now, 3) && !Passes(policy, p, now, 4)
    ensures var v := Gates.Evaluate(policy, store, p, approvalId, nonce, now);
            v.reason.ProposalExpired? <==> policy.budget >= 6 && Passes(policy, p, now, 5) && TooLate(policy, p, now)
  {
    ShapedIff(policy, p);
    if Shaped(policy, p) && Get(p, "action").s in policy.registry {
      FirstOverBoundIff(policy.registry[Get(p, "action").s].bounds, Get(p, "parameters"));
    }
  }

  /** The verdict that goes with its reason, and what a refusal leaves out. */
  predicate KindFits(v: Verdict) {
    && (v.kind == ALLOW <==> v.reason.Admissible?) && (v.kind == REPAIR <==> v.reason.OverBound?)
    && (v.kind == DEFER <==> v.reason.NoApproval?) && (v.kind == FALLBACK ==> v.reason.Exhausted?)
    && (v.kind != ALLOW ==> v.nonce == "" && v.approvalId == None)
  }

  /** The budget ran out: a fallback only where the registry names a baseline. */
  lemma OnExhaustedIs(policy: Policy, p: Value, now: int)
    ensures var v := OnExhausted(policy, p, now);
            && KindFits(v) && v.at == now && v.reason.Exhausted?
            && (v.kind == FALLBACK <==>
                  Get(p, "action").Str? && Get(p, "action").s in policy.registry
                  && var b := policy.registry[Get(p, "action").s].baseline; b.Some? && b.value != "")
  {
  }

  lemma GrantKind(e: Effect, store: Approvals.Store, p: Value, approvalId: Option<string>, nonce: string, now: int)
    requires p.Obj?
    ensures var v := Grant(e, store, p, approvalId, nonce, now); KindFits(v) && v.at == now && !v.reason.Exhausted?
  {
  }

  /** A verdict of the gate, with the reason that fits it. */
  predicate Fitting(policy: Policy, p: Value, now: int, v: Verdict) {
    KindFits(v) && v.at == now && (v.reason.Exhausted? ==> v == OnExhausted(policy, p, now))
  }

  lemma RefusalFits(policy: Policy, p: Value, now: int, param: string)
    ensures Fitting(policy, p, now, Refuse(DENY, Structure, now)) && Fitting(policy, p, now, Refuse(DENY, UnknownEffect, now))
    ensures Fitting(policy, p, now, Refuse(REPAIR, OverBound(param), now)) && Fitting(policy, p, now, Refuse(DENY, PathDenied, now))
    ensures Fitting(policy, p, now, Refuse(DENY, Forbidden, now)) && Fitting(policy, p, now, Refuse(DENY, ProposalExpired, now))
    ensures Fitting(policy, p, now, OnExhausted(policy, p, now))
  {
    OnExhaustedIs(policy, p, now);
  }

  lemma StagesFit(policy: Policy, e: Effect, store: Approvals.Store, p: Value, approvalId: Option<string>, nonce: string, now: int)
    requires p.Obj?
    ensures Fitting(policy, p, now, Stages(policy, e, store, p, approvalId, nonce, now))
  {
    var over := FirstOverBound(e.bounds, Get(p, "parameters"));
    RefusalFits(policy, p, now, if over.Some? then over.value else "");
    GrantKind(e, store, p, approvalId, nonce, now);
  }

  lemma KindIff(policy: Policy, store: Approvals.Store, p: Value, approvalId: Option<string>, nonce: string, now: int)
    ensures Fitting(policy, p, now, Gates.Evaluate(policy, store, p, approvalId, nonce, now))
  {
    RefusalFits(policy, p, now, "");
    if p.Obj? && ActionOf(p) in policy.registry { StagesFit(policy, policy.registry[ActionOf(p)], store, p, approvalId, nonce, now); }
  }

  /** What stands between a proposal that passes every check and its ALLOW is the approval it asks for. */
  lemma ApprovalDecides(policy: Policy, store: Approvals.Store, p: Value, approvalId: Option<string>, nonce: string, now: int)
    requires policy.budget >= 7 && Passes(policy, p, now, 7)
    ensures var v, e := Gates.Evaluate(policy, store, p, approvalId, nonce, now), policy.registry[Get(p, "action").s];
            var scope := e.capabilityClass + ":" + Get(p, "target").s;
            && (v.reason.NoApproval? <==> AsksForHuman(e, p) && (approvalId == None || approvalId == Some("")))
            && (v.reason.BadApproval? <==> AsksForHuman(e, p) && approvalId.Some? && approvalId.value != ""
                                           && !OnFile(store, approvalId.value, DigestOf(p), scope, now))
            && (v.kind != ALLOW ==> v.digest == Some(DigestOf(p)) && v.scope == scope)
  {
    ShapedIff(policy, p);
    var e := policy.registry[Get(p, "action").s];
    FirstOverBoundIff(e.bounds, Get(p, "parameters"));
    AsksIff(e, p);
    if approvalId.Some? { OnFileIff(store, approvalId.value, DigestOf(p), e.capabilityClass + ":" + Get(p, "target").s, now); }
  }
}

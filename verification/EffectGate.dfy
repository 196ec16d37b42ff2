/** The effect gate (src/policy/effect-gate.mjs) as a function of its inputs. */
module Gates {
  import opened Wrappers
  import opened Json
  import opened Hashing
  import Approvals
  import Text

  datatype Risk = LOW | MEDIUM | HIGH | CONSEQUENTIAL

  datatype Reversal = REVERSIBLE | PARTIALLY_REVERSIBLE | IRREVERSIBLE

  /** A registered effect (src/policy/effect-registry.mjs). */
  datatype Effect = Effect(
    external: bool, reversal: Reversal, capabilityClass: string, risk: Risk, requiresApproval: bool,
    bounds: seq<(string, Option<nat>)>, forbiddenClass: Option<string>, baseline: Option<string>, pathTarget: bool)

  /** The registry, the budget, the path policy and the platform's date parser. */
  datatype Policy = Policy(
    registry: map<string, Effect>, budget: nat, pathDenied: string -> bool, parseDate: string -> Option<int>)

  datatype Kind = ALLOW | REPAIR | DEFER | DENY | FALLBACK

  datatype Reason =
    | Structure | UnknownEffect | OverBound(param: string) | PathDenied | Forbidden | ProposalExpired
    | NoApproval | BadApproval(error: Approvals.ApprovalError) | Admissible | Exhausted

  /** What an effect counts as, with the claims of the proposal taken in. */
  datatype Effective = Effective(external: bool, reversal: Reversal, risk: Risk)

  datatype Verdict = Verdict(
    kind: Kind, reason: Reason, at: int, scope: string, digest: Option<Digest>, nonce: string, approvalId: Option<string>,
    effective: Option<Effective>)

  // ---------------------------------------------------------------- reading a proposal

  predicate IsText(v: Value) {
    v.Str? && v.s != ""
  }

  predicate Missing(v: Value) {
    v.Undefined? || v.Null?
  }

  function TextOf(v: Value): string {
    if v.Str? then v.s else ""
  }

  function ActionOf(p: Value): string { TextOf(Get(p, "action")) }

  function TargetOf(p: Value): string { TextOf(Get(p, "target")) }

  function RiskOf(v: Value): Option<Risk> {
    if v == Str("LOW") then Some(LOW)
    else if v == Str("MEDIUM") then Some(MEDIUM)
    else if v == Str("HIGH") then Some(HIGH)
    else if v == Str("CONSEQUENTIAL") then Some(CONSEQUENTIAL)
    else None
  }

  function ReversalOf(v: Value): Option<Reversal> {
    if v == Str("reversible") then Some(REVERSIBLE)
    else if v == Str("partially-reversible") then Some(PARTIALLY_REVERSIBLE)
    else if v == Str("irreversible") then Some(IRREVERSIBLE)
    else None
  }

  predicate IsDate(policy: Policy, v: Value) {
    IsText(v) && policy.parseDate(v.s).Some?
  }

  /** `validateEffectProposal`. */
  predicate WellFormed(policy: Policy, p: Value) {
    && p.Obj?
    && IsText(Get(p, "id")) && IsText(Get(p, "work_order_id")) && IsText(Get(p, "proposed_by"))
    && IsText(Get(p, "action")) && IsText(Get(p, "target"))
    && Get(p, "parameters").Obj? && Get(p, "evidence_refs").Arr?
    && (var e := Get(p, "claimed_externality"); Missing(e) || e == Str("internal") || e == Str("external"))
    && (var r := Get(p, "claimed_reversibility"); Missing(r) || ReversalOf(r).Some?)
    && (var r := Get(p, "claimed_risk"); Missing(r) || RiskOf(r).Some?)
    && (var u := Get(p, "uncertainty"); Missing(u) || IsText(u))
    && IsDate(policy, Get(p, "created_at"))
    && (var x := Get(p, "expires_at"); Missing(x) || IsDate(policy, x))
  }

  predicate ExpiredAt(policy: Policy, p: Value, now: int) {
    var x := Get(p, "expires_at");
    IsDate(policy, x) && now >= policy.parseDate(x.s).value
  }

  // ---------------------------------------------------------------- effect semantics

  /** The first parameter longer than its bound. */
  function FirstOverBound(bounds: seq<(string, Option<nat>)>, parameters: Value): Option<string> {
    if bounds == [] then None
    else
      var v := Get(parameters, bounds[0].0);
      if bounds[0].1.Some? && v.Str? && Text.Utf16Length(v.s) > bounds[0].1.value then Some(bounds[0].0)
      else FirstOverBound(bounds[1..], parameters)
  }

  function Order(r: Risk): int {
    match r case LOW => 0 case MEDIUM => 1 case HIGH => 2 case CONSEQUENTIAL => 3
  }

  /** Strictest wins: a claim only replaces the registered risk when it is higher. */
  function EffectiveRisk(e: Effect, p: Value): Risk {
    match RiskOf(Get(p, "claimed_risk"))
    case Some(r) => if Order(r) > Order(e.risk) then r else e.risk
    case None => e.risk
  }

  function Degree(r: Reversal): int {
    match r case REVERSIBLE => 0 case PARTIALLY_REVERSIBLE => 1 case IRREVERSIBLE => 2
  }

  function EffectiveReversal(e: Effect, p: Value): Reversal {
    match ReversalOf(Get(p, "claimed_reversibility"))
    case Some(r) => if Degree(r) > Degree(e.reversal) then r else e.reversal
    case None => e.reversal
  }

  predicate EffectivelyExternal(e: Effect, p: Value) {
    e.external || Get(p, "claimed_externality") == Str("external")
  }

  function EffectiveOf(e: Effect, p: Value): Effective {
    Effective(EffectivelyExternal(e, p), EffectiveReversal(e, p), EffectiveRisk(e, p))
  }

  predicate NeedsApproval(e: Effect, p: Value) {
    e.requiresApproval || EffectiveRisk(e, p) == CONSEQUENTIAL || EffectivelyExternal(e, p)
  }

  /** `canonicalScope`. */
  function ScopeOf(e: Effect, target: string): (s: string)
    ensures s != ""
  {
    e.capabilityClass + ":" + target
  }

  predicate IsForbidden(e: Effect) {
    e.forbiddenClass.Some? && e.forbiddenClass.value != ""
  }

  predicate GivenApproval(approvalId: Option<string>) {
    approvalId.Some? && approvalId.value != ""
  }

  // ---------------------------------------------------------------- evaluate

  function Refuse(kind: Kind, reason: Reason, now: int): Verdict {
    Verdict(kind, reason, now, "", None, "", None, None)
  }

  /** The budget ran out: the registered baseline, or nothing. */
  function OnExhausted(policy: Policy, p: Value, now: int): Verdict {
    var a := ActionOf(p);
    if Get(p, "action").Str? && a in policy.registry && policy.registry[a].baseline.Some? && policy.registry[a].baseline.value != ""
    then Refuse(FALLBACK, Exhausted, now) else Refuse(DENY, Exhausted, now)
  }

  /** The last stage: the exact grant. */
  function Grant(e: Effect, assurance: Approvals.Store, p: Value, approvalId: Option<string>, nonce: string, now: int): Verdict
    requires p.Obj?
  {
    var scope := ScopeOf(e, TargetOf(p));
    var digest := DigestOf(p);
    if !NeedsApproval(e, p) then Verdict(ALLOW, Admissible, now, scope, Some(digest), nonce, None, Some(EffectiveOf(e, p)))
    else if !GivenApproval(approvalId) then Verdict(DEFER, NoApproval, now, scope, Some(digest), "", None, None)
    else match Approvals.Check(assurance, approvalId.value, digest, scope, now) {
      case Err(x) => Verdict(DENY, BadApproval(x), now, scope, Some(digest), "", None, None)
      case Ok(_) => Verdict(ALLOW, Admissible, now, scope, Some(digest), nonce, approvalId, Some(EffectiveOf(e, p)))
    }
  }

  /** The stages between classification and the grant, each behind one unit of budget. */
  function Stages(policy: Policy, e: Effect, assurance: Approvals.Store, p: Value, approvalId: Option<string>,
                  nonce: string, now: int): Verdict
    requires p.Obj?
  {
    if policy.budget < 2 then OnExhausted(policy, p, now)
    else if FirstOverBound(e.bounds, Get(p, "parameters")).Some?
      then Refuse(REPAIR, OverBound(FirstOverBound(e.bounds, Get(p, "parameters")).value), now)
    else if policy.budget < 3 then OnExhausted(policy, p, now)
    else if e.pathTarget && policy.pathDenied(TargetOf(p)) then Refuse(DENY, PathDenied, now)
    else if policy.budget < 4 then OnExhausted(policy, p, now)
    else if IsForbidden(e) then Refuse(DENY, Forbidden, now)
    else if policy.budget < 6 then OnExhausted(policy, p, now)
    else if ExpiredAt(policy, p, now) then Refuse(DENY, ProposalExpired, now)
    else if policy.budget < 7 then OnExhausted(policy, p, now)
    else Grant(e, assurance, p, approvalId, nonce, now)
  }

  function Evaluate(policy: Policy, assurance: Approvals.Store, p: Value, approvalId: Option<string>,
                    nonce: string, now: int): Verdict
  {
    if policy.budget < 1 then OnExhausted(policy, p, now)
    else if !WellFormed(policy, p) then Refuse(DENY, Structure, now)
    else if ActionOf(p) !in policy.registry then Refuse(DENY, UnknownEffect, now)
    else Stages(policy, policy.registry[ActionOf(p)], assurance, p, approvalId, nonce, now)
  }

  // ---------------------------------------------------------------- what ALLOW means

  /** Nothing but the approval stands in the way. */
  predicate Clear(policy: Policy, p: Value, now: int) {
    && policy.budget >= 7 && WellFormed(policy, p) && ActionOf(p) in policy.registry
    && var e := policy.registry[ActionOf(p)];
       && FirstOverBound(e.bounds, Get(p, "parameters")).None?
       && !(e.pathTarget && policy.pathDenied(TargetOf(p)))
       && !IsForbidden(e) && !ExpiredAt(policy, p, now)
  }

  /** A human approval is at hand whenever the effect, or a stricter claim, needs one. */
  predicate Granted(policy: Policy, assurance: Approvals.Store, p: Value, approvalId: Option<string>, now: int)
    requires Clear(policy, p, now)
  {
    var e := policy.registry[ActionOf(p)];
    NeedsApproval(e, p) ==>
      GivenApproval(approvalId)
      && Approvals.Check(assurance, approvalId.value, DigestOf(p), ScopeOf(e, TargetOf(p)), now).Ok?
  }

  /** ALLOW exactly when the proposal is clear and granted, and then bound to its digest and scope. */
  lemma AllowIff(policy: Policy, assurance: Approvals.Store, p: Value, approvalId: Option<string>, nonce: string, now: int)
    ensures var v := Evaluate(policy, assurance, p, approvalId, nonce, now);
            v.kind == ALLOW <==> Clear(policy, p, now) && Granted(policy, assurance, p, approvalId, now)
    ensures var v := Evaluate(policy, assurance, p, approvalId, nonce, now);
            v.kind == ALLOW ==>
              var e := policy.registry[ActionOf(p)];
              && v.nonce == nonce && v.digest == Some(DigestOf(p)) && v.scope == ScopeOf(e, TargetOf(p))
              && v.approvalId == (if NeedsApproval(e, p) then approvalId else None)
              && v.effective == Some(EffectiveOf(e, p))
  {
  }

  /** One of the two, and at least as strict as both. */
  predicate Stricter(effective: int, registered: int, claimed: Option<int>) {
    && effective >= registered && (claimed.Some? ==> effective >= claimed.value)
    && (effective == registered || claimed == Some(effective))
  }

  /**
   * Claims can only tighten: each effective value is the stricter of the
   * registered and the claimed one, and no claim removes a need for approval
   * that the registry states.
   */
  lemma ClaimsOnlyTighten(e: Effect, p: Value)
    ensures var claimed := RiskOf(Get(p, "claimed_risk"));
            Stricter(Order(EffectiveRisk(e, p)), Order(e.risk), if claimed.Some? then Some(Order(claimed.value)) else None)
    ensures var claimed := ReversalOf(Get(p, "claimed_reversibility"));
            Stricter(Degree(EffectiveReversal(e, p)), Degree(e.reversal), if claimed.Some? then Some(Degree(claimed.value)) else None)
    ensures EffectivelyExternal(e, p) <==> e.external || Get(p, "claimed_externality") == Str("external")
    ensures e.requiresApproval || e.risk == CONSEQUENTIAL || e.external ==> NeedsApproval(e, p)
  {
  }

  /** Proposals with one digest agree on everything the gate's authority decision reads. */
  lemma SameDigestSameDemands(p: Value, q: Value)
    requires Wf(p) && Wf(q) && p.Obj? && !q.Undefined? && DigestOf(p) == DigestOf(q)
    requires IsText(Get(p, "action")) && IsText(Get(p, "target")) && IsText(Get(p, "id"))
    ensures q.Obj? && Get(q, "action") == Get(p, "action") && Get(q, "target") == Get(p, "target") && Get(q, "id") == Get(p, "id")
    ensures RiskOf(Get(q, "claimed_risk")) == RiskOf(Get(p, "claimed_risk"))
    ensures ReversalOf(Get(q, "claimed_reversibility")) == ReversalOf(Get(p, "claimed_reversibility"))
    ensures Get(q, "claimed_externality") == Str("external") <==> Get(p, "claimed_externality") == Str("external")
  {
    DigestFixesStrings(p, q, "action", ActionOf(p));
    DigestFixesStrings(p, q, "target", TargetOf(p));
    DigestFixesStrings(p, q, "id", TextOf(Get(p, "id")));
    DigestFixesStrings(p, q, "claimed_externality", "external");
    DigestFixesStrings(p, q, "claimed_reversibility", "reversible");
    DigestFixesStrings(p, q, "claimed_reversibility", "partially-reversible");
    DigestFixesStrings(p, q, "claimed_reversibility", "irreversible");
    DigestFixesStrings(p, q, "claimed_risk", "LOW");
    DigestFixesStrings(p, q, "claimed_risk", "MEDIUM");
    DigestFixesStrings(p, q, "claimed_risk", "HIGH");
    DigestFixesStrings(p, q, "claimed_risk", "CONSEQUENTIAL");
  }
}

module EffectGates {
  import opened Wrappers
  import opened Json
  import opened Hashing
  import opened Gates
  import Approvals
  import AssuranceStores
  import Text

  class EffectGate {
    const assurance: AssuranceStores.AssuranceStore
    const policy: Policy
    /** Nonces of ALLOW verdicts that no execution attempt has used. */
    var nonces: set<string>

    constructor (assurance: AssuranceStores.AssuranceStore, policy: Policy)
      ensures this.assurance == assurance && this.policy == policy && nonces == {}
    {
      this.assurance, this.policy, nonces := assurance, policy, {};
    }

    /** The loop over the bounded parameters, in order. */
    method CheckBounds(effect: Effect, parameters: Value) returns (over: Option<string>)
      ensures over == FirstOverBound(effect.bounds, parameters)
    {
      for i := 0 to |effect.bounds|
        invariant FirstOverBound(effect.bounds, parameters) == FirstOverBound(effect.bounds[i..], parameters)
      {
        var param, bound := effect.bounds[i].0, effect.bounds[i].1;
        assert effect.bounds[i..][1..] == effect.bounds[i + 1..];
        var x := Get(parameters, param);
        if bound.Some? && x.Str? && Text.Utf16Length(x.s) > bound.value { return Some(param); }
      }
      over := None;
    }

    /** Strictest wins, dimension by dimension. */
    method TakeClaims(effect: Effect, p: Value) returns (effective: Effective, needsApproval: bool)
      ensures effective == EffectiveOf(effect, p) && needsApproval == NeedsApproval(effect, p)
    {
      var external := effect.external || Get(p, "claimed_externality") == Str("external");
      var reversal := effect.reversal;
      var claimed := ReversalOf(Get(p, "claimed_reversibility"));
      if claimed.Some? && Degree(claimed.value) > Degree(reversal) { reversal := claimed.value; }
      var risk := effect.risk;
      var claimedRisk := RiskOf(Get(p, "claimed_risk"));
      if claimedRisk.Some? && Order(claimedRisk.value) > Order(risk) { risk := claimedRisk.value; }
      effective := Effective(external, reversal, risk);
      needsApproval := effect.requiresApproval || risk == CONSEQUENTIAL || external;
    }

    /** The exact grant: a valid approval where one is needed, and a nonce for the executor. */
    method GrantExactly(effect: Effect, p: Value, effective: Effective, needsApproval: bool,
                        approvalId: Option<string>, nonce: string, now: int)
      returns (v: Verdict)
      requires p.Obj? && effective == EffectiveOf(effect, p) && needsApproval == NeedsApproval(effect, p)
      modifies this`nonces
      ensures v == Grant(effect, assurance.View(), p, approvalId, nonce, now)
      ensures nonces == if v.kind == ALLOW then old(nonces) + {nonce} else old(nonces)
    {
      var scope, digest := ScopeOf(effect, TargetOf(p)), DigestOf(p);
      if needsApproval {
        if !GivenApproval(approvalId) {
          return Verdict(DEFER, NoApproval, now, scope, Some(digest), "", None, None);
        }
        var a := assurance.ValidateForExecution(approvalId.value, digest, scope, now);
        if a.Err? {
          return Verdict(DENY, BadApproval(a.error), now, scope, Some(digest), "", None, None);
        }
      }
      nonces := nonces + {nonce};
      v := Verdict(ALLOW, Admissible, now, scope, Some(digest), nonce, if needsApproval then approvalId else None, Some(effective));
    }

    /** `evaluate`: counts steps against the budget and stops at the first stage that decides. */
    method Evaluate(p: Value, approvalId: Option<string>, nonce: string, now: int) returns (v: Verdict)
      modifies this`nonces
      ensures v == Gates.Evaluate(policy, assurance.View(), p, approvalId, nonce, now)
      ensures nonces == if v.kind == ALLOW then old(nonces) + {nonce} else old(nonces)
    {
      var steps := 1;
      if steps > policy.budget { return OnExhausted(policy, p, now); }
      if !WellFormed(policy, p) { return Refuse(DENY, Structure, now); }
      var action := ActionOf(p);
      if action !in policy.registry { return Refuse(DENY, UnknownEffect, now); }
      var effect := policy.registry[action];
      steps := steps + 1;
      if steps > policy.budget { return OnExhausted(policy, p, now); }
      var over := CheckBounds(effect, Get(p, "parameters"));
      if over.Some? { return Refuse(REPAIR, OverBound(over.value), now); }
      steps := steps + 1;
      if steps > policy.budget { return OnExhausted(policy, p, now); }
      if effect.pathTarget {
        if policy.pathDenied(TargetOf(p)) { return Refuse(DENY, PathDenied, now); }
      }
      steps := steps + 1;
      if steps > policy.budget { return OnExhausted(policy, p, now); }
      if IsForbidden(effect) { return Refuse(DENY, Forbidden, now); }
      steps := steps + 1;
      if steps > policy.budget { return OnExhausted(policy, p, now); }
      var effective, needsApproval := TakeClaims(effect, p);
      steps := steps + 1;
      if steps > policy.budget { return OnExhausted(policy, p, now); }
      if ExpiredAt(policy, p, now) { return Refuse(DENY, ProposalExpired, now); }
      steps := steps + 1;
      if steps > policy.budget { return OnExhausted(policy, p, now); }
      v := GrantExactly(effect, p, effective, needsApproval, approvalId, nonce, now);
    }

    /** The executor's side: true once per issued nonce. */
    method ConsumeAllowNonce(nonce: string) returns (ok: bool)
      modifies this`nonces
      ensures ok == (nonce in old(nonces)) && nonces == old(nonces) - {nonce}
    {
      ok := nonce in nonces;
      nonces := nonces - {nonce};
    }
  }
}

/**
 * The one-shot effect pipeline as a step system: gate, assurance store,
 * executor and event log, with a crash possible between any two durable writes.
 * Every step writes at most one durable line.
 */
module Pipeline {
  import opened Wrappers
  import opened Json
  import opened Hashing
  import opened Events
  import opened Gates
  import Approvals
  import EventLog
  import Recovery

  // ---------------------------------------------------------------- state

  /** One admitted execution: the proposal as passed in, its verdict and digest, and when it was admitted. */
  datatype Call = Call(proposal: Value, verdict: Verdict, digest: Digest, at: int)

  /** Where `execute` stands: nothing running, admitted, reservation written, side effect started. */
  datatype Phase = Idle | Admitted(call: Call) | Holding(call: Call) | InFlight(call: Call)

  /** The process: what a crash loses. */
  datatype Live = Live(
    log: EventLog.Log, assurance: Approvals.Store, nonces: set<string>,
    executed: map<Digest, ExecResult>, unknown: map<string, ExecResult>, phase: Phase)

  /** What happened, in order, over the whole run. */
  datatype Happening =
    | Reserving(digest: Digest, scope: string)
    | Invoking(call: Call)
    | Finishing(digest: Digest, scope: string, ending: Ending)
    | Reconciling(scope: string)

  /** A verdict the gate returned, and the proposal it looked at. */
  datatype Issue = Issue(verdict: Verdict, proposal: Value)

  datatype World = World(
    disk: seq<Record>, torn: bool, assuranceLog: seq<Approvals.Line>, live: Option<Live>,
    issued: map<string, Issue>, history: seq<Happening>)

  const START := World([], false, [], None, map[], [])

  datatype ExecError =
    | NotAllowed | NonceInvalid | ProposalMutated | AlreadyExecuted | ScopeReserved
    | ApprovalRefused(error: Approvals.ApprovalError) | InvalidResult
    | MessageUnreadable | NotHuman | NothingPending | BadResolution | NotLogged

  // ---------------------------------------------------------------- execute, in four steps

  /** Guards, the verdict's nonce and the approval: everything up to line 101 of the executor. */
  function Begin(w: World, l: Live, p: Value, v: Verdict, now: int): (World, Option<ExecError>)
    requires p.Obj?
  {
    if v.kind != ALLOW then (w, Some(NotAllowed))
    else if v.nonce !in l.nonces then (w, Some(NonceInvalid))
    else
      var l1 := l.(nonces := l.nonces - {v.nonce});
      var w1 := w.(live := Some(l1));
      var d := DigestOf(p);
      if v.digest != Some(d) then (w1, Some(ProposalMutated))
      else if d in l.executed then (w1, Some(AlreadyExecuted))
      else if v.scope in l.unknown then (w1, Some(ScopeReserved))
      else
        var admitted := l1.(phase := Admitted(Call(p, v, d, now)));
        if !GivenApproval(v.approvalId) then (w.(live := Some(admitted)), None)
        else match Approvals.Check(l.assurance, v.approvalId.value, d, v.scope, now) {
          case Err(e) => (w1, Some(ApprovalRefused(e)))
          case Ok(_) =>
            (w.(assuranceLog := w.assuranceLog + [Approvals.ConsumptionLine(v.approvalId.value, now)],
                live := Some(admitted.(assurance := Approvals.Consume(l.assurance, v.approvalId.value)))), None)
        }
  }

  function ReserveKey(d: Digest): string { "exec-reserve:" + d.text }

  function ResultKey(d: Digest): string { "exec:" + d.text }

  function ProposalId(p: Value): string { TextOf(Get(p, "id")) }

  function ReserveEvent(c: Call): Event {
    Event("executor", Some(ReserveKey(c.digest)), Reserved(ProposalId(c.proposal), c.digest, c.verdict.scope))
  }

  /** The write-ahead reservation. */
  function Reserve(w: World, l: Live, now: int): World
    requires l.phase.Admitted?
  {
    var c := l.phase.call;
    var a := EventLog.Append(l.log, ReserveEvent(c), now).value;
    w.(disk := a.log.events, live := Some(l.(log := a.log, phase := Holding(c))),
       history := if a.replayed then w.history else w.history + [Reserving(c.digest, c.verdict.scope)])
  }

  /** The side effect starts. */
  function Perform(w: World, l: Live): World
    requires l.phase.Holding?
  {
    w.(live := Some(l.(phase := InFlight(l.phase.call))), history := w.history + [Invoking(l.phase.call)])
  }

  /**
   * How the side effect ends: it throws something with a message, or something
   * whose message cannot be read or put into text (null, undefined, a symbol as
   * message), or gives back an outcome and a detail.
   */
  datatype Ending = Threw(message: string) | ThrewUnreadable | Returned(outcome: Option<string>, detail: Option<string>)

  /**
   * What the executor finds after the side effect: how it ended, and the id that
   * the proposal then has, which was handed to it and may have changed. An empty
   * detail or id stands for any that is no non-empty string, and a text outside
   * the enumeration for any outcome that is none of its names.
   */
  datatype PerformReturn = PerformReturn(ending: Ending, proposalId: string)

  predicate KnownOutcome(s: string) {
    s == "SUCCESS" || s == "FAIL" || s == "CANCELLED" || s == "BLOCKED" || s == "NOT_EXECUTED" || s == "UNKNOWN"
  }

  /**
   * The proposal still has an id, and the side effect threw something with a
   * message, or gave back an outcome of the enumeration, or none, and no empty detail.
   */
  predicate ValidReturn(ret: PerformReturn) {
    && ret.proposalId != ""
    && match ret.ending
       case Threw(_) => true
       case ThrewUnreadable => false
       case Returned(o, d) => (o.None? || KnownOutcome(o.value)) && (d.None? || d.value != "")
  }

  function MakeResult(c: Call, ret: PerformReturn, id: string, now: int): ExecResult
    requires !ret.ending.ThrewUnreadable?
  {
    var (outcome, detail) :=
      match ret.ending
      case Threw(m) => ("FAIL", Some("execution threw: " + m))
      case Returned(o, d) => (if o.Some? then o.value else "UNKNOWN", d);
    ExecResult(id, ret.proposalId, c.digest, c.verdict.approvalId, outcome, now, detail, false)
  }

  /** `validateExecutionResult`. */
  predicate ValidResult(r: ExecResult) {
    && r.id != "" && r.proposalId != "" && KnownOutcome(r.outcome)
    && (r.approvalId.None? || r.approvalId.value != "") && (r.detail.None? || r.detail.value != "")
  }

  /** A result comes about, and passes. */
  predicate Recordable(c: Call, ret: PerformReturn, id: string, now: int) {
    !ret.ending.ThrewUnreadable? && ValidResult(MakeResult(c, ret, id, now))
  }

  function ResultEvent(c: Call, r: ExecResult): Event {
    Event("executor", Some(ResultKey(c.digest)), Executed(r, c.verdict.scope))
  }

  /** The guards are set, then the final record is written. */
  function Recorded(w: World, l: Live, ending: Ending, r: ExecResult, now: int): World
    requires l.phase.InFlight?
  {
    var c := l.phase.call;
    var a := EventLog.Append(l.log, ResultEvent(c, r), now).value;
    w.(disk := a.log.events,
       live := Some(l.(log := a.log, executed := l.executed[c.digest := r],
                       unknown := if r.outcome == "UNKNOWN" then l.unknown[c.verdict.scope := r] else l.unknown,
                       phase := Idle)),
       history := w.history + [Finishing(c.digest, c.verdict.scope, ending)])
  }

  /**
   * The side effect is over: make the result, validate it, set the guards, write
   * the final record. What throws on the way leaves the guards as they are.
   */
  function Conclude(w: World, l: Live, ret: PerformReturn, id: string, now: int): (World, Result<ExecResult, ExecError>)
    requires l.phase.InFlight?
  {
    var c := l.phase.call;
    if ret.ending.ThrewUnreadable? then (w.(live := Some(l.(phase := Idle))), Err(MessageUnreadable))
    else if !ValidResult(MakeResult(c, ret, id, now)) then (w.(live := Some(l.(phase := Idle))), Err(InvalidResult))
    else
      var r := MakeResult(c, ret, id, now);
      (Recorded(w, l, ret.ending, r, now), Ok(r))
  }

  /** What follows admission: the reservation, the side effect, its result. */
  function RunAdmitted(w: World, l: Live, ret: PerformReturn, id: string, t1: int, t2: int): (World, Result<ExecResult, ExecError>)
    requires l.phase.Admitted?
  {
    var holding := Reserve(w, l, t1);
    var running := Perform(holding, holding.live.value);
    Conclude(running, running.live.value, ret, id, t2)
  }

  /** The four steps of one `execute` call in a row; a refusal ends it after the first. */
  function Execute(w: World, l: Live, p: Value, v: Verdict, ret: PerformReturn, id: string, t0: int, t1: int, t2: int)
    : (World, Result<ExecResult, ExecError>)
    requires w.live == Some(l) && p.Obj?
  {
    var (admitted, error) := Begin(w, l, p, v, t0);
    if error.Some? then (admitted, Err(error.value))
    else RunAdmitted(admitted, admitted.live.value, ret, id, t1, t2)
  }

  // ---------------------------------------------------------------- the other calls

  predicate Resolution(s: string) {
    s == "SUCCESS" || s == "FAIL" || s == "NOT_EXECUTED"
  }

  /** `reconcileUnknown`; the reservation leaves the map before the log is written. */
  function Reconcile(w: World, l: Live, scope: string, resolved: string, actor: Actor, role: string, now: int)
    : (World, Option<ExecError>)
  {
    if role != "human" then (w, Some(NotHuman))
    else if scope !in l.unknown then (w, Some(NothingPending))
    else if !Resolution(resolved) then (w, Some(BadResolution))
    else
      var l1 := l.(unknown := l.unknown - {scope});
      match EventLog.Append(l.log, Event(Signature(actor), None, Reconciled(scope, l.unknown[scope].id, resolved)), now) {
        case Err(_) => (w.(live := Some(l1)), Some(NotLogged))
        case Ok(a) =>
          (w.(disk := a.log.events, live := Some(l1.(log := a.log)), history := w.history + [Reconciling(scope)]), None)
      }
  }

  function AskApproval(w: World, l: Live, req: Approvals.Request): World {
    match Approvals.MakeRequest(req)
    case Err(_) => w
    case Ok(r) =>
      w.(assuranceLog := w.assuranceLog + [Approvals.RequestLine(r)],
         live := Some(l.(assurance := Approvals.Apply(l.assurance, Approvals.RequestLine(r)))))
  }

  function DecideApproval(w: World, l: Live, requestId: string, id: string, decision: string, actor: string,
                          role: string, ttl: int, now: int): World
  {
    match Approvals.MakeDecision(l.assurance, requestId, id, decision, actor, role, ttl, now)
    case Err(_) => w
    case Ok(d) =>
      w.(assuranceLog := w.assuranceLog + [Approvals.DecisionLine(d)],
         live := Some(l.(assurance := Approvals.Apply(l.assurance, Approvals.DecisionLine(d)))))
  }

  function AskGate(policy: Policy, w: World, l: Live, p: Value, approvalId: Option<string>, nonce: string, now: int): World {
    var v := Gates.Evaluate(policy, l.assurance, p, approvalId, nonce, now);
    if v.kind != ALLOW then w
    else w.(live := Some(l.(nonces := l.nonces + {nonce})), issued := w.issued[nonce := Issue(v, p)])
  }

  // ---------------------------------------------------------------- crash and restart

  function Boot(w: World, now: int): World {
    var log := EventLog.Reopen(w.disk, w.torn, now);
    var g := Recovery.Rebuild(log.events);
    w.(disk := log.events, torn := false,
       live := Some(Live(log, Approvals.Replay(w.assuranceLog), {}, g.executed, g.unknown, Idle)))
  }

  datatype Step =
    | Request(req: Approvals.Request)
    | Decide(requestId: string, id: string, decision: string, actor: string, role: string, ttl: int, now: int)
    | Evaluate(proposal: Value, approvalId: Option<string>, nonce: string, now: int)
    | DoBegin(proposal: Value, verdict: Verdict, now: int)
    | DoReserve(now: int)
    | DoPerform
    | DoConclude(ret: PerformReturn, id: string, now: int)
    | DoReconcile(scope: string, resolved: string, who: Actor, role: string, now: int)
    | Crash(torn: bool)              // the process dies; `torn`: in the middle of a log write
    | Restart(now: int)
    | RestartCutShort(torn: bool)    // it dies again after the tail was repaired, before the recovery event is whole

  /**
   * When a step can be taken. Nonces and decision ids are fresh, a verdict handed
   * to `execute` is one the gate returned, and the executor is not re-entered;
   * requests, decisions and evaluations may come at any time, also from inside
   * the side effect.
   */
  predicate Enabled(w: World, s: Step) {
    match s
    case Request(_) => w.live.Some?
    case Decide(_, id, _, _, _, _, _) => w.live.Some? && !Approvals.Decided(w.assuranceLog, id)
    case Evaluate(p, _, nonce, _) => w.live.Some? && Wf(p) && nonce !in w.issued
    case DoBegin(p, v, _) =>
      && w.live.Some? && w.live.value.phase.Idle? && Wf(p) && p.Obj?
      && (v.kind == ALLOW ==> v.nonce in w.issued && w.issued[v.nonce].verdict == v)
    case DoReserve(_) => w.live.Some? && w.live.value.phase.Admitted?
    case DoPerform => w.live.Some? && w.live.value.phase.Holding?
    case DoConclude(_, id, _) => w.live.Some? && w.live.value.phase.InFlight? && id != ""
    case DoReconcile(_, _, _, _, _) => w.live.Some? && w.live.value.phase.Idle?
    case Crash(_) => w.live.Some?
    case Restart(_) => w.live.None?
    case RestartCutShort(_) => w.live.None? && w.torn
  }

  function Next(policy: Policy, w: World, s: Step): World
    requires Enabled(w, s)
  {
    match s
    case Request(req) => AskApproval(w, w.live.value, req)
    case Decide(requestId, id, decision, actor, role, ttl, now) =>
      DecideApproval(w, w.live.value, requestId, id, decision, actor, role, ttl, now)
    case Evaluate(p, approvalId, nonce, now) => AskGate(policy, w, w.live.value, p, approvalId, nonce, now)
    case DoBegin(p, v, now) => Begin(w, w.live.value, p, v, now).0
    case DoReserve(now) => Reserve(w, w.live.value, now)
    case DoPerform => Perform(w, w.live.value)
    case DoConclude(ret, id, now) => Conclude(w, w.live.value, ret, id, now).0
    case DoReconcile(scope, resolved, actor, role, now) => Reconcile(w, w.live.value, scope, resolved, actor, role, now).0
    case Crash(torn) => w.(live := None, torn := torn)
    case Restart(now) => Boot(w, now)
    case RestartCutShort(torn) => w.(torn := torn)
  }

  /** A run: every step enabled where it is taken. */
  predicate IsRun(policy: Policy, steps: seq<Step>)
    decreases |steps|, 0
  {
    steps == [] ||
    (var before := steps[..|steps| - 1];
     IsRun(policy, before) && Enabled(After(policy, before), steps[|steps| - 1]))
  }

  function After(policy: Policy, steps: seq<Step>): World
    requires IsRun(policy, steps)
    decreases |steps|, 1
  {
    if steps == [] then START
    else
      var before := steps[..|steps| - 1];
      Next(policy, After(policy, before), steps[|steps| - 1])
  }

  lemma Extend(policy: Policy, steps: seq<Step>, s: Step)
    requires IsRun(policy, steps) && Enabled(After(policy, steps), s)
    ensures IsRun(policy, steps + [s]) && After(policy, steps + [s]) == Next(policy, After(policy, steps), s)
  {
    assert (steps + [s])[..|steps|] == steps;
  }

  // ---------------------------------------------------------------- conditions on a run

  /** The side effect only leaves behind what can be recorded. */
  predicate ReturnsValid(s: Step) {
    s.DoConclude? ==> ValidReturn(s.ret)
  }

  /** Reconciliations name their actor, so that they can be logged. */
  predicate ReconcilesNamed(s: Step) {
    s.DoReconcile? ==> Named(s.who)
  }

  predicate AllReturnsValid(steps: seq<Step>) {
    forall i :: 0 <= i < |steps| ==> ReturnsValid(steps[i])
  }

  predicate Disciplined(steps: seq<Step>) {
    forall i :: 0 <= i < |steps| ==> ReturnsValid(steps[i]) && ReconcilesNamed(steps[i])
  }

  // ---------------------------------------------------------------- the claims

  /** No two invocations of one proposal digest. */
  predicate AtMostOnce(h: seq<Happening>) {
    forall i, j :: 0 <= i < j < |h| && h[i].Invoking? && h[j].Invoking? ==> h[i].call.digest != h[j].call.digest
  }

  /** No decision backs two invocations. */
  predicate ApprovalsDistinct(h: seq<Happening>) {
    forall i, j :: 0 <= i < j < |h| && h[i].Invoking? && h[j].Invoking? && GivenApproval(h[i].call.verdict.approvalId) ==>
      h[i].call.verdict.approvalId != h[j].call.verdict.approvalId
  }

  /** No verdict backs two invocations. */
  predicate VerdictsDistinct(h: seq<Happening>) {
    forall i, j :: 0 <= i < j < |h| && h[i].Invoking? && h[j].Invoking? ==>
      h[i].call.verdict.nonce != h[j].call.verdict.nonce
  }

  /** The side effect itself tells what became of it: it failed loudly, or gave back an outcome other than UNKNOWN. */
  predicate Tells(e: Ending) {
    e.Threw? || (e.Returned? && e.outcome.Some? && e.outcome.value != "UNKNOWN")
  }

  /** What settles a reservation of `d` on `s`: a side effect that tells, or a human reconciliation of the scope. */
  predicate Settles(x: Happening, d: Digest, s: string) {
    (x.Finishing? && x.digest == d && Tells(x.ending)) || (x.Reconciling? && x.scope == s)
  }

  /**
   * Between a reservation on a scope and any later invocation of another
   * proposal on that scope, the reservation was settled.
   */
  ghost predicate ScopesHeld(h: seq<Happening>) {
    forall i, j :: 0 <= i < j < |h| && h[i].Reserving? && h[j].Invoking?
                   && h[i].scope == h[j].call.verdict.scope && h[i].digest != h[j].call.digest ==>
      exists k :: i < k < j && Settles(h[k], h[i].digest, h[i].scope)
  }
}

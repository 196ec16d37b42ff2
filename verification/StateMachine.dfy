/**
 * The work-order state machine: the table of spec/state-machine.json and
 * `validateTransition` / `evaluateProposal` over it.
 */
module StateMachine {
  import opened Wrappers

  datatype State =
    | PLANNED | READY | IN_PROGRESS | READY_FOR_REVIEW | CHANGES_REQUESTED
    | BLOCKED | WAIT_PROVIDER | FOUNDER_REQUIRED | APPROVED_FOR_EXTERNAL_ACTION
    | DONE | FAIL | CANCELLED
    | UnknownState(name: string)

  datatype Trigger =
    | WorkOrderCompleted | Cancel | DispatchBuilder | Block | WorkerReturned
    | ProviderFailure | Fail | ProviderRecovered | ReviewChangesRequested
    | EscalateToHuman | ReviewPassed | Unblock | HumanApproved | HumanRejected
    | ExternalActionSucceeded | ExternalActionFailed | OutcomeUnknown
    | UnknownTrigger(name: string)

  datatype Guard =
    | WorkOrderValid | LeaseAcquired | HashMatches | BudgetPolicyValid | WorkerResultValid
    | WaitResolved | AttemptsWithinBound | ReviewerIsNotBuilder | NoExternalActionRequired
    | EvidenceFresh | BlockerResolutionRecorded | ApprovalValidAndBound | ApprovalConsumedOnce

  datatype Evidence =
    | CancellationReason | BlockerRecord | WorkerResult | VerificationEvidence
    | ProviderWaitRecord | FailureRecord | ReviewVerdict | BlockerResolution
    | ApprovalDecision | ExecutionResult

  datatype Authority = Supervisor | Human

  datatype Transition = Transition(
    from: State, to: State, on: Trigger,
    guards: set<Guard>, evidence: set<Evidence>, authority: Authority)

  /** The rows of the table that leave a state, in the table's order. */
  function Rows(from: State): seq<Transition> {
    match from
    case PLANNED => [
      Transition(PLANNED, READY, WorkOrderCompleted, {WorkOrderValid}, {}, Supervisor),
      Transition(PLANNED, CANCELLED, Cancel, {}, {CancellationReason}, Supervisor)]
    case READY => [
      Transition(READY, IN_PROGRESS, DispatchBuilder, {LeaseAcquired, HashMatches, BudgetPolicyValid}, {}, Supervisor),
      Transition(READY, BLOCKED, Block, {}, {BlockerRecord}, Supervisor),
      Transition(READY, CANCELLED, Cancel, {}, {CancellationReason}, Supervisor)]
    case IN_PROGRESS => [
      Transition(IN_PROGRESS, READY_FOR_REVIEW, WorkerReturned, {WorkerResultValid}, {WorkerResult, VerificationEvidence}, Supervisor),
      Transition(IN_PROGRESS, BLOCKED, Block, {}, {BlockerRecord}, Supervisor),
      Transition(IN_PROGRESS, WAIT_PROVIDER, ProviderFailure, {}, {ProviderWaitRecord}, Supervisor),
      Transition(IN_PROGRESS, FAIL, Fail, {}, {FailureRecord}, Supervisor),
      Transition(IN_PROGRESS, CANCELLED, Cancel, {}, {CancellationReason}, Supervisor)]
    case WAIT_PROVIDER => [
      Transition(WAIT_PROVIDER, READY, ProviderRecovered, {WaitResolved, AttemptsWithinBound}, {}, Supervisor),
      Transition(WAIT_PROVIDER, BLOCKED, Block, {}, {BlockerRecord}, Supervisor),
      Transition(WAIT_PROVIDER, FAIL, Fail, {}, {FailureRecord}, Supervisor)]
    case READY_FOR_REVIEW => [
      Transition(READY_FOR_REVIEW, CHANGES_REQUESTED, ReviewChangesRequested, {ReviewerIsNotBuilder}, {ReviewVerdict}, Supervisor),
      Transition(READY_FOR_REVIEW, FOUNDER_REQUIRED, EscalateToHuman, {ReviewerIsNotBuilder}, {ReviewVerdict}, Supervisor),
      Transition(READY_FOR_REVIEW, DONE, ReviewPassed, {ReviewerIsNotBuilder, NoExternalActionRequired, EvidenceFresh}, {ReviewVerdict, VerificationEvidence}, Supervisor),
      Transition(READY_FOR_REVIEW, BLOCKED, Block, {}, {BlockerRecord}, Supervisor)]
    case CHANGES_REQUESTED => [
      Transition(CHANGES_REQUESTED, IN_PROGRESS, DispatchBuilder, {LeaseAcquired, HashMatches, AttemptsWithinBound}, {}, Supervisor),
      Transition(CHANGES_REQUESTED, BLOCKED, Block, {}, {BlockerRecord}, Supervisor),
      Transition(CHANGES_REQUESTED, FAIL, Fail, {}, {FailureRecord}, Supervisor),
      Transition(CHANGES_REQUESTED, CANCELLED, Cancel, {}, {CancellationReason}, Supervisor)]
    case BLOCKED => [
      Transition(BLOCKED, READY, Unblock, {BlockerResolutionRecorded}, {BlockerResolution}, Supervisor),
      Transition(BLOCKED, CANCELLED, Cancel, {}, {CancellationReason}, Supervisor),
      Transition(BLOCKED, FAIL, Fail, {}, {FailureRecord}, Supervisor)]
    case FOUNDER_REQUIRED => [
      Transition(FOUNDER_REQUIRED, APPROVED_FOR_EXTERNAL_ACTION, HumanApproved, {ApprovalValidAndBound}, {ApprovalDecision}, Human),
      Transition(FOUNDER_REQUIRED, CANCELLED, HumanRejected, {}, {ApprovalDecision}, Human),
      Transition(FOUNDER_REQUIRED, BLOCKED, Block, {}, {BlockerRecord}, Supervisor)]
    case APPROVED_FOR_EXTERNAL_ACTION => [
      Transition(APPROVED_FOR_EXTERNAL_ACTION, DONE, ExternalActionSucceeded, {ApprovalConsumedOnce}, {ExecutionResult}, Supervisor),
      Transition(APPROVED_FOR_EXTERNAL_ACTION, FAIL, ExternalActionFailed, {}, {ExecutionResult}, Supervisor),
      Transition(APPROVED_FOR_EXTERNAL_ACTION, BLOCKED, OutcomeUnknown, {}, {ExecutionResult}, Supervisor)]
    case _ => []
  }

  predicate InTable(t: Transition) {
    t in Rows(t.from)
  }

  predicate IsTerminal(s: State) {
    s.DONE? || s.FAIL? || s.CANCELLED?
  }

  /** What a caller may put in a field: a string, or some other JSON value. Null is no value. */
  datatype Datum = Text(text: string) | NotText

  /** The guards that hold, the evidence supplied, and who acts. */
  datatype Context = Context(guards: set<Guard>, evidence: map<Evidence, Datum>, authority: Authority)

  datatype TransitionError = UnknownSource | Terminal | InvalidTransition | GuardFailed | EvidenceMissing | AuthorityRequired
                           | SelfPromotion | ProposalMismatch

  function Find(ts: seq<Transition>, on: Trigger): Option<Transition> {
    if ts == [] then None
    else if ts[0].on == on then Some(ts[0])
    else Find(ts[1..], on)
  }

  /** The conditions of one row, in the order they are checked. */
  function CheckRow(t: Transition, ctx: Context): Result<Transition, TransitionError> {
    if exists g :: g in t.guards && g !in ctx.guards then Err(GuardFailed)
    else if exists e :: e in t.evidence && e !in ctx.evidence then Err(EvidenceMissing)
    else if t.authority == Human && ctx.authority != Human then Err(AuthorityRequired)
    else Ok(t)
  }

  function ValidateTransition(from: State, on: Trigger, ctx: Context): Result<Transition, TransitionError> {
    if from.UnknownState? then Err(UnknownSource)
    else if IsTerminal(from) then Err(Terminal)
    else match Find(Rows(from), on) {
      case None => Err(InvalidTransition)
      case Some(t) => CheckRow(t, ctx)
    }
  }

  /** What accepting `t` in context `ctx` says. */
  predicate Admits(t: Transition, ctx: Context) {
    && InTable(t)
    && (forall g :: g in t.guards ==> g in ctx.guards)
    && (forall e :: e in t.evidence ==> e in ctx.evidence)
    && (t.authority == Human ==> ctx.authority == Human)
  }

  lemma {:induction false} FindSound(ts: seq<Transition>, on: Trigger)
    ensures Find(ts, on).Some? ==> Find(ts, on).value in ts && Find(ts, on).value.on == on
    ensures Find(ts, on).None? ==> forall t :: t in ts ==> t.on != on
  {
    if ts != [] {
      FindSound(ts[1..], on);
    }
  }

  lemma RowsLeave(from: State, t: Transition)
    requires t in Rows(from)
    ensures t.from == from
  {
  }

  /** Two rows never share a source state and an event. */
  lemma TableIsDeterministic(s: Transition, t: Transition)
    requires InTable(s) && InTable(t) && s.from == t.from && s.on == t.on
    ensures s == t
  {
  }

  lemma CheckRowIff(t: Transition, ctx: Context)
    requires InTable(t)
    ensures CheckRow(t, ctx).Ok? <==> Admits(t, ctx)
    ensures CheckRow(t, ctx).Ok? ==> CheckRow(t, ctx) == Ok(t)
  {
  }

  lemma FoundIsAdmitted(from: State, on: Trigger, ctx: Context)
    requires ValidateTransition(from, on, ctx).Ok?
    ensures var t := ValidateTransition(from, on, ctx).value; Admits(t, ctx) && t.from == from && t.on == on
  {
    FindSound(Rows(from), on);
    var t := Find(Rows(from), on).value;
    RowsLeave(from, t);
    CheckRowIff(t, ctx);
  }

  lemma AdmittedIsFound(t: Transition, ctx: Context)
    requires Admits(t, ctx)
    ensures ValidateTransition(t.from, t.on, ctx) == Ok(t)
  {
    FindSound(Rows(t.from), t.on);
    var u := Find(Rows(t.from), t.on).value;
    NoExitFromTerminal(t);
    RowsLeave(t.from, u);
    TableIsDeterministic(t, u);
    CheckRowIff(t, ctx);
  }

  /** The rows that leave `from` on `on` and whose conditions hold. */
  predicate Offers(t: Transition, from: State, on: Trigger, ctx: Context) {
    Admits(t, ctx) && t.from == from && t.on == on
  }

  /** A transition is accepted exactly when its row exists and its conditions hold. */
  lemma AcceptedIff(from: State, on: Trigger, ctx: Context, t: Transition)
    ensures ValidateTransition(from, on, ctx) == Ok(t) <==> Offers(t, from, on, ctx)
  {
    if ValidateTransition(from, on, ctx) == Ok(t) {
      FoundIsAdmitted(from, on, ctx);
    }
    if Offers(t, from, on, ctx) {
      AdmittedIsFound(t, ctx);
    }
  }

  lemma NoExitFromTerminal(t: Transition)
    requires InTable(t)
    ensures !IsTerminal(t.from) && !t.from.UnknownState? && !t.to.UnknownState?
  {
  }

  lemma IntoDone(t: Transition)
    requires InTable(t) && t.to == DONE
    ensures || (t.from == READY_FOR_REVIEW && t.on == ReviewPassed
                && t.guards == {ReviewerIsNotBuilder, NoExternalActionRequired, EvidenceFresh}
                && t.evidence == {ReviewVerdict, VerificationEvidence})
            || (t.from == APPROVED_FOR_EXTERNAL_ACTION && t.on == ExternalActionSucceeded
                && t.guards == {ApprovalConsumedOnce})
  {
  }

  lemma IntoApproved(t: Transition)
    requires InTable(t) && t.to == APPROVED_FOR_EXTERNAL_ACTION
    ensures t.from == FOUNDER_REQUIRED && t.on == HumanApproved && t.authority == Human && t.evidence == {ApprovalDecision}
  {
  }

  lemma IntoFounderRequired(t: Transition)
    requires InTable(t) && t.to == FOUNDER_REQUIRED
    ensures t.from == READY_FOR_REVIEW && t.on == EscalateToHuman && t.guards == {ReviewerIsNotBuilder}
  {
  }

  lemma IntoReview(t: Transition)
    requires InTable(t) && t.to == READY_FOR_REVIEW
    ensures t.from == IN_PROGRESS && t.on == WorkerReturned && t.evidence == {WorkerResult, VerificationEvidence}
  {
  }

  lemma IntoProgress(t: Transition)
    requires InTable(t) && t.to == IN_PROGRESS
    ensures t.on == DispatchBuilder
  {
  }

  // ---------------------------------------------------------------- proposals

  datatype Role = WorkerRole | SupervisorRole

  function EvaluateProposal(from: State, proposed: State, on: Trigger, ctx: Context, role: Role)
    : Result<Transition, TransitionError>
  {
    if (proposed == APPROVED_FOR_EXTERNAL_ACTION || proposed == DONE) && role != SupervisorRole then Err(SelfPromotion)
    else match ValidateTransition(from, on, ctx) {
      case Err(e) => Err(e)
      case Ok(t) => if t.to != proposed then Err(ProposalMismatch) else Ok(t)
    }
  }

  /** No accepted worker proposal moves a work order to DONE or to an approved state. */
  lemma WorkersCannotPromote(from: State, proposed: State, on: Trigger, ctx: Context)
    ensures var r := EvaluateProposal(from, proposed, on, ctx, WorkerRole);
            r.Ok? ==> r.value.to != DONE && r.value.to != APPROVED_FOR_EXTERNAL_ACTION
                      && r.value.on != ReviewPassed && r.value.on != HumanApproved && r.value.on != ExternalActionSucceeded
  {
    FindSound(Rows(from), on);
    var r := EvaluateProposal(from, proposed, on, ctx, WorkerRole);
    if r.Ok? {
      RowsLeave(from, r.value);
      if r.value.on == ReviewPassed || r.value.on == ExternalActionSucceeded {
        PromotesToDone(r.value);
      } else if r.value.on == HumanApproved {
        PromotesToApproved(r.value);
      }
    }
  }

  lemma PromotesToDone(t: Transition)
    requires InTable(t) && (t.on == ReviewPassed || t.on == ExternalActionSucceeded)
    ensures t.to == DONE
  {
  }

  lemma PromotesToApproved(t: Transition)
    requires InTable(t) && t.on == HumanApproved
    ensures t.to == APPROVED_FOR_EXTERNAL_ACTION
  {
  }

  // ---------------------------------------------------------------- whole runs

  /** An accepted step: the row taken and the context it was accepted in. */
  datatype Step = Step(row: Transition, ctx: Context)

  function EndState(start: State, steps: seq<Step>): State {
    if steps == [] then start else steps[|steps| - 1].row.to
  }

  /** Step `i` was accepted, in the state where the steps before it ended. */
  predicate Follows(start: State, steps: seq<Step>, i: nat)
    requires i < |steps|
  {
    Admits(steps[i].row, steps[i].ctx) && steps[i].row.from == EndState(start, steps[..i])
  }

  predicate IsPath(start: State, steps: seq<Step>) {
    forall i {:trigger Follows(start, steps, i)} :: 0 <= i < |steps| ==> Follows(start, steps, i)
  }

  /** Nothing follows a terminal state. */
  lemma TerminalIsLast(start: State, steps: seq<Step>, i: nat)
    requires IsPath(start, steps) && i < |steps| && IsTerminal(steps[i].row.to)
    ensures i == |steps| - 1
  {
    if i + 1 < |steps| {
      assert Follows(start, steps, i + 1);
      NoExitFromTerminal(steps[i + 1].row);
    }
  }

  /** Reviewed by someone else, on fresh evidence, with nothing external to do. */
  ghost predicate EndsReviewed(steps: seq<Step>, d: int) {
    && d == |steps| - 3 && d >= 0
    && steps[d].row.on == DispatchBuilder
    && steps[d + 1].row.on == WorkerReturned && VerificationEvidence in steps[d + 1].ctx.evidence
    && steps[d + 2].row.on == ReviewPassed
    && ReviewerIsNotBuilder in steps[d + 2].ctx.guards && EvidenceFresh in steps[d + 2].ctx.guards
  }

  /** Escalated, approved by a human on a recorded decision, and the approved action succeeded. */
  ghost predicate EndsApproved(steps: seq<Step>, d: int) {
    && d == |steps| - 5 && d >= 0
    && steps[d].row.on == DispatchBuilder
    && steps[d + 1].row.on == WorkerReturned && VerificationEvidence in steps[d + 1].ctx.evidence
    && steps[d + 2].row.on == EscalateToHuman && ReviewerIsNotBuilder in steps[d + 2].ctx.guards
    && steps[d + 3].row.on == HumanApproved
    && steps[d + 3].ctx.authority == Human && ApprovalDecision in steps[d + 3].ctx.evidence
    && steps[d + 4].row.on == ExternalActionSucceeded && ApprovalConsumedOnce in steps[d + 4].ctx.guards
  }

  lemma Before(steps: seq<Step>, i: nat)
    requires IsPath(PLANNED, steps) && i < |steps| && steps[i].row.from != PLANNED
    ensures i > 0 && steps[i - 1].row.to == steps[i].row.from && InTable(steps[i - 1].row)
  {
    assert Follows(PLANNED, steps, i);
    if i > 0 {
      assert Follows(PLANNED, steps, i - 1);
    }
  }

  /** A work order under review was dispatched and returned with evidence in the two steps before. */
  lemma ReachedReview(steps: seq<Step>, i: nat)
    requires IsPath(PLANNED, steps) && i < |steps| && steps[i].row.from == READY_FOR_REVIEW
    ensures i >= 2 && steps[i - 2].row.on == DispatchBuilder
    ensures steps[i - 1].row.on == WorkerReturned && VerificationEvidence in steps[i - 1].ctx.evidence
  {
    Before(steps, i);
    IntoReview(steps[i - 1].row);
    assert Follows(PLANNED, steps, i - 1);
    Before(steps, i - 1);
    IntoProgress(steps[i - 2].row);
  }

  /** An approved external action was escalated by a reviewer and approved by a human before. */
  lemma ReachedApproval(steps: seq<Step>, i: nat)
    requires IsPath(PLANNED, steps) && i < |steps| && steps[i].row.from == APPROVED_FOR_EXTERNAL_ACTION
    ensures i >= 2 && steps[i - 2].row.from == READY_FOR_REVIEW
    ensures steps[i - 2].row.on == EscalateToHuman && ReviewerIsNotBuilder in steps[i - 2].ctx.guards
    ensures steps[i - 1].row.on == HumanApproved
    ensures steps[i - 1].ctx.authority == Human && ApprovalDecision in steps[i - 1].ctx.evidence
  {
    Before(steps, i);
    IntoApproved(steps[i - 1].row);
    assert Follows(PLANNED, steps, i - 1);
    Before(steps, i - 1);
    IntoFounderRequired(steps[i - 2].row);
    assert Follows(PLANNED, steps, i - 2);
  }

  /**
   * In any run from PLANNED to DONE the steps from the last dispatch on are one
   * of two roads, and the approved one passed through a human.
   */
  lemma RoadToDone(steps: seq<Step>) returns (d: int)
    requires IsPath(PLANNED, steps) && EndState(PLANNED, steps) == DONE
    ensures 0 <= d < |steps| && steps[d].row.on == DispatchBuilder
    ensures forall i :: d < i < |steps| ==> steps[i].row.on != DispatchBuilder
    ensures EndsReviewed(steps, d) || EndsApproved(steps, d)
  {
    var n := |steps|;
    if steps[n - 1].row.on == ReviewPassed {
      DoneByReview(steps);
      d := n - 3;
    } else {
      DoneByApproval(steps);
      d := n - 5;
    }
  }

  lemma DoneByReview(steps: seq<Step>)
    requires IsPath(PLANNED, steps) && EndState(PLANNED, steps) == DONE
    requires steps[|steps| - 1].row.on == ReviewPassed
    ensures EndsReviewed(steps, |steps| - 3)
  {
    var i := |steps| - 1;
    assert Follows(PLANNED, steps, i);
    IntoDone(steps[i].row);
    ReachedReview(steps, i);
  }

  lemma DoneByApproval(steps: seq<Step>)
    requires IsPath(PLANNED, steps) && EndState(PLANNED, steps) == DONE
    requires steps[|steps| - 1].row.on != ReviewPassed
    ensures EndsApproved(steps, |steps| - 5)
  {
    var i := |steps| - 1;
    assert Follows(PLANNED, steps, i);
    IntoDone(steps[i].row);
    ReachedApproval(steps, i);
    ReachedReview(steps, i - 2);
  }
}

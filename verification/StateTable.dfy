/**
 * The table of spec/state-machine.json read by event instead of by state, and
 * the answers of `validateTransition` and `evaluateProposal` in its terms.
 */
module StateTable {
  import opened Wrappers
  import opened StateMachine

  /** A row of the supervisor's that nothing guards and one piece of evidence goes with. */
  predicate Plain(t: Transition, from: set<State>, to: State, evidence: Evidence) {
    t.from in from && t.to == to && t.guards == {} && t.evidence == {evidence} && t.authority == Supervisor
  }

  predicate Guarded(t: Transition, from: State, to: State, guards: set<Guard>, evidence: set<Evidence>) {
    t.from == from && t.to == to && t.guards == guards && t.evidence == evidence && t.authority == Supervisor
  }

  /** What may happen on each event, from where, and under which conditions. */
  predicate Listed(t: Transition) {
    match t.on
    case WorkOrderCompleted => Guarded(t, PLANNED, READY, {WorkOrderValid}, {})
    case Cancel => Plain(t, {PLANNED, READY, IN_PROGRESS, CHANGES_REQUESTED, BLOCKED}, CANCELLED, CancellationReason)
    case Block => Plain(t, {READY, IN_PROGRESS, WAIT_PROVIDER, READY_FOR_REVIEW, CHANGES_REQUESTED, FOUNDER_REQUIRED}, BLOCKED, BlockerRecord)
    case Fail => Plain(t, {IN_PROGRESS, WAIT_PROVIDER, CHANGES_REQUESTED, BLOCKED}, FAIL, FailureRecord)
    case ProviderFailure => Plain(t, {IN_PROGRESS}, WAIT_PROVIDER, ProviderWaitRecord)
    case ProviderRecovered => Guarded(t, WAIT_PROVIDER, READY, {WaitResolved, AttemptsWithinBound}, {})
    case DispatchBuilder =>
      || Guarded(t, READY, IN_PROGRESS, {LeaseAcquired, HashMatches, BudgetPolicyValid}, {})
      || Guarded(t, CHANGES_REQUESTED, IN_PROGRESS, {LeaseAcquired, HashMatches, AttemptsWithinBound}, {})
    case WorkerReturned => Guarded(t, IN_PROGRESS, READY_FOR_REVIEW, {WorkerResultValid}, {WorkerResult, VerificationEvidence})
    case ReviewChangesRequested => Guarded(t, READY_FOR_REVIEW, CHANGES_REQUESTED, {ReviewerIsNotBuilder}, {ReviewVerdict})
    case EscalateToHuman => Guarded(t, READY_FOR_REVIEW, FOUNDER_REQUIRED, {ReviewerIsNotBuilder}, {ReviewVerdict})
    case ReviewPassed =>
      Guarded(t, READY_FOR_REVIEW, DONE, {ReviewerIsNotBuilder, NoExternalActionRequired, EvidenceFresh}, {ReviewVerdict, VerificationEvidence})
    case Unblock => Guarded(t, BLOCKED, READY, {BlockerResolutionRecorded}, {BlockerResolution})
    case HumanApproved =>
      && t.from == FOUNDER_REQUIRED && t.to == APPROVED_FOR_EXTERNAL_ACTION
      && t.guards == {ApprovalValidAndBound} && t.evidence == {ApprovalDecision} && t.authority == Human
    case HumanRejected =>
      t.from == FOUNDER_REQUIRED && t.to == CANCELLED && t.guards == {} && t.evidence == {ApprovalDecision} && t.authority == Human
    case ExternalActionSucceeded => Guarded(t, APPROVED_FOR_EXTERNAL_ACTION, DONE, {ApprovalConsumedOnce}, {ExecutionResult})
    case ExternalActionFailed => Plain(t, {APPROVED_FOR_EXTERNAL_ACTION}, FAIL, ExecutionResult)
    case OutcomeUnknown => Plain(t, {APPROVED_FOR_EXTERNAL_ACTION}, BLOCKED, ExecutionResult)
    case UnknownTrigger(_) => false
  }

  lemma ListedIsInTable(t: Transition)
    requires Listed(t)
    ensures InTable(t)
  {
    match t.from
    case PLANNED => assert t in Rows(PLANNED);
    case READY => assert t in Rows(READY);
    case IN_PROGRESS => assert t in Rows(IN_PROGRESS);
    case WAIT_PROVIDER => assert t in Rows(WAIT_PROVIDER);
    case READY_FOR_REVIEW => assert t in Rows(READY_FOR_REVIEW);
    case CHANGES_REQUESTED => assert t in Rows(CHANGES_REQUESTED);
    case BLOCKED => assert t in Rows(BLOCKED);
    case FOUNDER_REQUIRED => assert t in Rows(FOUNDER_REQUIRED);
    case APPROVED_FOR_EXTERNAL_ACTION => assert t in Rows(APPROVED_FOR_EXTERNAL_ACTION);
    case _ => assert false;
  }

  /** One row at a time. */
  lemma {:induction false} RowsAreListed(ts: seq<Transition>, t: Transition)
    requires t in ts && forall i :: 0 <= i < |ts| ==> Listed(ts[i])
    ensures Listed(t)
  {
  }

  lemma EarlyRowIsListed(t: Transition)
    requires InTable(t) && t.from in {PLANNED, READY, IN_PROGRESS, WAIT_PROVIDER}
    ensures Listed(t)
  {
    match t.from
    case PLANNED => RowsAreListed(Rows(PLANNED), t);
    case READY => RowsAreListed(Rows(READY), t);
    case IN_PROGRESS => RowsAreListed(Rows(IN_PROGRESS), t);
    case WAIT_PROVIDER => RowsAreListed(Rows(WAIT_PROVIDER), t);
  }

  lemma LateRowIsListed(t: Transition)
    requires InTable(t) && t.from in {READY_FOR_REVIEW, CHANGES_REQUESTED, BLOCKED}
    ensures Listed(t)
  {
    match t.from
    case READY_FOR_REVIEW => RowsAreListed(Rows(READY_FOR_REVIEW), t);
    case CHANGES_REQUESTED => RowsAreListed(Rows(CHANGES_REQUESTED), t);
    case BLOCKED => RowsAreListed(Rows(BLOCKED), t);
  }

  lemma LastRowIsListed(t: Transition)
    requires InTable(t) && t.from in {FOUNDER_REQUIRED, APPROVED_FOR_EXTERNAL_ACTION}
    ensures Listed(t)
  {
    match t.from
    case FOUNDER_REQUIRED => RowsAreListed(Rows(FOUNDER_REQUIRED), t);
    case APPROVED_FOR_EXTERNAL_ACTION => RowsAreListed(Rows(APPROVED_FOR_EXTERNAL_ACTION), t);
  }

  /** The table by state and the table by event are the same. */
  lemma TableByEvent(t: Transition)
    ensures InTable(t) <==> Listed(t)
  {
    if Listed(t) { ListedIsInTable(t); }
    if InTable(t) && t.from in {PLANNED, READY, IN_PROGRESS, WAIT_PROVIDER} { EarlyRowIsListed(t); }
    if InTable(t) && t.from in {READY_FOR_REVIEW, CHANGES_REQUESTED, BLOCKED} { LateRowIsListed(t); }
    if InTable(t) && t.from in {FOUNDER_REQUIRED, APPROVED_FOR_EXTERNAL_ACTION} { LastRowIsListed(t); }
  }

  lemma OnlyRow(t: Transition, u: Transition)
    requires Listed(t) && Listed(u) && t.from == u.from && t.on == u.on
    ensures t == u
  {
    TableByEvent(t);
    TableByEvent(u);
    TableIsDeterministic(t, u);
  }

  predicate Closed(s: State) {
    s in {DONE, FAIL, CANCELLED}
  }

  /** Some row of the table leaves `from` on `on`. */
  ghost predicate Leaves(from: State, on: Trigger) {
    exists t :: Listed(t) && t.from == from && t.on == on
  }

  /** A transition is accepted exactly when a row leaves the state on the event, and its guards, evidence and authority are there. */
  lemma AcceptedByEventIff(from: State, on: Trigger, ctx: Context, t: Transition)
    ensures ValidateTransition(from, on, ctx) == Ok(t) <==>
              && Listed(t) && t.from == from && t.on == on
              && t.guards <= ctx.guards && t.evidence <= ctx.evidence.Keys && (t.authority == Human ==> ctx.authority == Human)
  {
    AcceptedIff(from, on, ctx, t);
    TableByEvent(t);
  }

  lemma FoundIff(from: State, on: Trigger)
    ensures Find(Rows(from), on).Some? ==>
              var t := Find(Rows(from), on).value; Listed(t) && t.from == from && t.on == on
    ensures Find(Rows(from), on).Some? <==> Leaves(from, on)
  {
    FindSound(Rows(from), on);
    if Find(Rows(from), on).Some? {
      var t := Find(Rows(from), on).value;
      RowsLeave(from, t);
      TableByEvent(t);
    }
    if Leaves(from, on) {
      var t :| Listed(t) && t.from == from && t.on == on;
      TableByEvent(t);
    }
  }

  /** Why a transition is refused: state, row, guards, evidence, authority, in this order. */
  lemma RefusedByEventIs(from: State, on: Trigger, ctx: Context)
    requires ValidateTransition(from, on, ctx).Err?
    ensures var e := ValidateTransition(from, on, ctx).error;
            && (e == UnknownSource <==> from.UnknownState?)
            && (e == Terminal <==> Closed(from))
            && (e == InvalidTransition <==> !from.UnknownState? && !Closed(from) && !Leaves(from, on))
            && forall t :: Listed(t) && t.from == from && t.on == on && !Closed(from) ==>
                 e == if !(t.guards <= ctx.guards) then GuardFailed
                      else if !(t.evidence <= ctx.evidence.Keys) then EvidenceMissing
                      else AuthorityRequired
  {
    FoundIff(from, on);
    var row := Find(Rows(from), on);
    if row.Some? {
      RowRefusal(row.value, ctx);
      forall t | Listed(t) && t.from == from && t.on == on ensures t == row.value { OnlyRow(t, row.value); }
    }
    AnswerIs(from, row, ctx, on);
  }

  lemma AnswerIs(from: State, row: Option<Transition>, ctx: Context, on: Trigger)
    requires row == Find(Rows(from), on)
    ensures ValidateTransition(from, on, ctx) ==
              if from.UnknownState? then Err(UnknownSource) else if Closed(from) then Err(Terminal)
              else if row.None? then Err(InvalidTransition) else CheckRow(row.value, ctx)
  {
  }

  /** A row whose conditions are not met. */
  lemma RowRefusal(t: Transition, ctx: Context)
    ensures CheckRow(t, ctx) ==
              if !(t.guards <= ctx.guards) then Err(GuardFailed)
              else if !(t.evidence <= ctx.evidence.Keys) then Err(EvidenceMissing)
              else if t.authority == Human && ctx.authority != Human then Err(AuthorityRequired)
              else Ok(t)
  {
  }

  /** A proposal is accepted exactly when its transition is, leads where it says, and is no promotion by anybody but the supervisor. */
  lemma ProposalIff(from: State, proposed: State, on: Trigger, ctx: Context, role: Role, t: Transition)
    ensures EvaluateProposal(from, proposed, on, ctx, role) == Ok(t) <==>
              && ValidateTransition(from, on, ctx) == Ok(t) && t.to == proposed
              && (role != SupervisorRole ==> proposed != DONE && proposed != APPROVED_FOR_EXTERNAL_ACTION)
    ensures EvaluateProposal(from, proposed, on, ctx, role) == Err(SelfPromotion) <==>
              role != SupervisorRole && (proposed == DONE || proposed == APPROVED_FOR_EXTERNAL_ACTION)
  {
    if ValidateTransition(from, on, ctx).Err? { RefusedByEventIs(from, on, ctx); NeverSelfPromotion(from, on, ctx); }
  }

  lemma NeverSelfPromotion(from: State, on: Trigger, ctx: Context)
    ensures ValidateTransition(from, on, ctx) != Err(SelfPromotion)
  {
  }
}

/**
 * Authority over whole runs: every invocation was allowed by the gate, and one
 * that needs approval is backed by a human decision of its own.
 */
module PipelineAuthority {
  import opened Wrappers
  import opened Json
  import opened Hashing
  import opened Events
  import opened Gates
  import opened Pipeline
  import opened PipelineDurable
  import Approvals

  // ---------------------------------------------------------------- what an issued verdict stands for

  /** The gate allowed this proposal under this verdict. */
  predicate IssueOk(policy: Policy, n: string, x: Issue) {
    && Wf(x.proposal) && WellFormed(policy, x.proposal) && ActionOf(x.proposal) in policy.registry
    && x.verdict.nonce == n && x.verdict.digest == Some(DigestOf(x.proposal))
    && (var e := policy.registry[ActionOf(x.proposal)];
        && !IsForbidden(e) && x.verdict.scope == ScopeOf(e, TargetOf(x.proposal))
        && (NeedsApproval(e, x.proposal) ==> GivenApproval(x.verdict.approvalId))
        && (x.verdict.approvalId.Some? ==> GivenApproval(x.verdict.approvalId)))
  }

  predicate IssuesOk(policy: Policy, issued: map<string, Issue>) {
    forall n {:trigger IssueOk(policy, n, issued[n])} :: n in issued ==> IssueOk(policy, n, issued[n])
  }

  /** The executed proposal itself meets the gate's demands, on its own digest and scope. */
  predicate Lawful(policy: Policy, c: Call) {
    && Wf(c.proposal) && c.proposal.Obj? && IsText(Get(c.proposal, "action")) && IsText(Get(c.proposal, "target"))
    && ActionOf(c.proposal) in policy.registry
    && ProposalId(c.proposal) != "" && c.digest == DigestOf(c.proposal)
    && (var e := policy.registry[ActionOf(c.proposal)];
        && !IsForbidden(e) && c.verdict.scope == ScopeOf(e, TargetOf(c.proposal))
        && (NeedsApproval(e, c.proposal) ==> GivenApproval(c.verdict.approvalId))
        && (c.verdict.approvalId.Some? ==> GivenApproval(c.verdict.approvalId)))
  }

  /** A human approved exactly this digest and scope, unexpired, and the approval was used up for it. */
  predicate Backed(lines: seq<Approvals.Line>, c: Call) {
    GivenApproval(c.verdict.approvalId) ==>
      var id := c.verdict.approvalId.value;
      Approvals.ApprovedByHuman(lines, id, c.digest, c.verdict.scope, c.at) && Approvals.ConsumptionLine(id, c.at) in lines
  }

  /** The approval cannot be used again: a reload of the log finds it consumed. */
  predicate SpentApproval(lines: seq<Approvals.Line>, c: Call) {
    GivenApproval(c.verdict.approvalId) ==>
      var id := c.verdict.approvalId.value;
      var ds := Approvals.Replay(lines).decisions;
      id in ds && ds[id].consumed
  }

  /** Nor can the verdict: its nonce was issued and is gone. */
  predicate SpentVerdict(w: World, c: Call) {
    c.verdict.nonce in w.issued && (w.live.Some? ==> c.verdict.nonce !in w.live.value.nonces)
  }

  predicate Accounted(policy: Policy, w: World, c: Call) {
    Lawful(policy, c) && Backed(w.assuranceLog, c) && SpentApproval(w.assuranceLog, c) && SpentVerdict(w, c)
  }

  /** Two calls share neither verdict nor approval. */
  predicate Apart(c: Call, d: Call) {
    && c.verdict.nonce != d.verdict.nonce
    && (GivenApproval(c.verdict.approvalId) ==> c.verdict.approvalId != d.verdict.approvalId)
  }

  predicate CallsAccounted(policy: Policy, w: World) {
    forall i {:trigger Accounted(policy, w, w.history[i].call)} :: 0 <= i < |w.history| && w.history[i].Invoking? ==>
      Accounted(policy, w, w.history[i].call)
  }

  predicate CallsApart(h: seq<Happening>) {
    forall i, j {:trigger Apart(h[i].call, h[j].call)} ::
      0 <= i < j < |h| && h[i].Invoking? && h[j].Invoking? ==> Apart(h[i].call, h[j].call)
  }

  /** A call that has not started yet shares nothing with those that have. */
  predicate ApartFromPast(h: seq<Happening>, c: Call) {
    forall i {:trigger Apart(h[i].call, c)} :: 0 <= i < |h| && h[i].Invoking? ==> Apart(h[i].call, c)
  }

  predicate Running(w: World) {
    w.live.Some? && !w.live.value.phase.Idle?
  }

  predicate NotStarted(w: World) {
    w.live.Some? && (w.live.value.phase.Admitted? || w.live.value.phase.Holding?)
  }

  predicate Authorized(policy: Policy, w: World) {
    && IssuesOk(policy, w.issued) && CallsAccounted(policy, w) && CallsApart(w.history)
    && (w.live.Some? ==> w.live.value.nonces <= w.issued.Keys)
    && (Running(w) ==> Accounted(policy, w, w.live.value.phase.call))
    && (NotStarted(w) ==> ApartFromPast(w.history, w.live.value.phase.call))
  }

  // ---------------------------------------------------------------- an accounted call stays accounted

  lemma LogGrows(lines: seq<Approvals.Line>, line: Approvals.Line, c: Call)
    requires Backed(lines, c) && SpentApproval(lines, c)
    requires line.DecisionLine? ==> !Approvals.Decided(lines, line.decision.id)
    requires HumansDecide(lines)
    ensures Backed(lines + [line], c) && SpentApproval(lines + [line], c)
  {
    if GivenApproval(c.verdict.approvalId) {
      var id := c.verdict.approvalId.value;
      var more := lines + [line];
      var i :| 0 <= i < |lines| && lines[i].DecisionLine? &&
        var d := lines[i].decision;
        d.id == id && d.decision == "APPROVED" && d.role == "human" && d.digest == c.digest
        && d.scope == c.verdict.scope && c.at < d.expiresAt;
      assert more[i] == lines[i];
      assert Approvals.Decided(lines, id);
      assert !Approvals.Decided([line], id);
      Approvals.ConsumedStays(lines, [line], id);
    }
  }

  /** The assurance log only grows, and never decides an id again. */
  predicate GrowsSafely(w: World, next: World) {
    || next.assuranceLog == w.assuranceLog
    || (|next.assuranceLog| == |w.assuranceLog| + 1 && next.assuranceLog[..|w.assuranceLog|] == w.assuranceLog
        && var line := next.assuranceLog[|w.assuranceLog|];
           line.DecisionLine? ==> !Approvals.Decided(w.assuranceLog, line.decision.id))
  }

  /** Verdicts stay issued; only a fresh nonce becomes valid. */
  predicate IssuesSafely(w: World, next: World) {
    && w.issued.Keys <= next.issued.Keys
    && (next.live.Some? ==> forall n :: n in next.live.value.nonces ==>
          n !in w.issued || (w.live.Some? && n in w.live.value.nonces))
  }

  lemma AccountedStays(policy: Policy, w: World, next: World, c: Call)
    requires Accounted(policy, w, c) && HumansDecide(w.assuranceLog)
    requires GrowsSafely(w, next) && IssuesSafely(w, next)
    ensures Accounted(policy, next, c)
  {
    if next.assuranceLog != w.assuranceLog {
      var n := |w.assuranceLog|;
      assert next.assuranceLog == w.assuranceLog + [next.assuranceLog[n]];
      LogGrows(w.assuranceLog, next.assuranceLog[n], c);
    }
  }

  lemma BeginSafe(w: World, l: Live, c: Call, next: World)
    requires w.live == Some(l) && (Refused(w, l, next) || Taken(w, l, c, next))
    ensures GrowsSafely(w, next) && IssuesSafely(w, next) && next.history == w.history && next.issued == w.issued
  {
  }

  lemma StepIsSafe(policy: Policy, w: World, s: Step)
    requires Enabled(w, s)
    ensures GrowsSafely(w, Next(policy, w, s)) && IssuesSafely(w, Next(policy, w, s))
  {
    match s
    case DoBegin(p, v, now) =>
      BeginShape(w, w.live.value, p, v, now);
      BeginSafe(w, w.live.value, Call(p, v, DigestOf(p), now), Begin(w, w.live.value, p, v, now).0);
    case _ =>
  }

  // ---------------------------------------------------------------- the step that issues a verdict

  lemma AllowedIsIssueOk(policy: Policy, assurance: Approvals.Store, p: Value, approvalId: Option<string>, nonce: string, now: int)
    requires Wf(p)
    ensures var v := Gates.Evaluate(policy, assurance, p, approvalId, nonce, now);
            v.kind == ALLOW ==> IssueOk(policy, nonce, Issue(v, p))
  {
    AllowIff(policy, assurance, p, approvalId, nonce, now);
  }

  // ---------------------------------------------------------------- the step that admits a call

  /** A proposal with the digest of an allowed one is itself lawful under that verdict. */
  lemma SameDigestLawful(policy: Policy, n: string, x: Issue, c: Call)
    requires IssueOk(policy, n, x) && c.verdict == x.verdict
    requires Wf(c.proposal) && c.proposal.Obj? && c.digest == DigestOf(c.proposal) && c.verdict.digest == Some(c.digest)
    ensures Lawful(policy, c)
  {
    SameDigestSameDemands(x.proposal, c.proposal);
  }

  lemma TakenApproval(w: World, l: Live, c: Call, next: World)
    requires Durable(w) && w.live == Some(l) && Taken(w, l, c, next)
    ensures Backed(next.assuranceLog, c) && SpentApproval(next.assuranceLog, c)
  {
    if GivenApproval(c.verdict.approvalId) {
      var id := c.verdict.approvalId.value;
      var line := Approvals.ConsumptionLine(id, c.at);
      Approvals.CheckedIsApproved(w.assuranceLog, id, c.digest, c.verdict.scope, c.at);
      Approvals.ReplaySnoc(w.assuranceLog, line);
      ApprovedStays(w.assuranceLog, line, id, c.digest, c.verdict.scope, c.at);
      assert next.assuranceLog[|w.assuranceLog|] == line;
    }
  }

  lemma TakenIsApart(policy: Policy, w: World, l: Live, c: Call, next: World, d: Call)
    requires Durable(w) && w.live == Some(l) && Taken(w, l, c, next) && Accounted(policy, w, d)
    ensures Apart(d, c)
  {
  }

  lemma TakenIsAccounted(policy: Policy, w: World, l: Live, c: Call, next: World)
    requires Durable(w) && Authorized(policy, w) && w.live == Some(l) && Taken(w, l, c, next)
    requires Wf(c.proposal) && c.verdict.nonce in w.issued && w.issued[c.verdict.nonce].verdict == c.verdict
    ensures Accounted(policy, next, c) && ApartFromPast(w.history, c)
  {
    assert IssueOk(policy, c.verdict.nonce, w.issued[c.verdict.nonce]);
    SameDigestLawful(policy, c.verdict.nonce, w.issued[c.verdict.nonce], c);
    TakenApproval(w, l, c, next);
    forall i | 0 <= i < |w.history| && w.history[i].Invoking?
      ensures Apart(w.history[i].call, c)
    {
      assert Accounted(policy, w, w.history[i].call);
      TakenIsApart(policy, w, l, c, next, w.history[i].call);
    }
  }

  lemma ApprovedStays(lines: seq<Approvals.Line>, line: Approvals.Line, id: string, digest: Digest, scope: string, at: int)
    requires Approvals.ApprovedByHuman(lines, id, digest, scope, at)
    ensures Approvals.ApprovedByHuman(lines + [line], id, digest, scope, at)
  {
    var i :| 0 <= i < |lines| && lines[i].DecisionLine? &&
      var d := lines[i].decision;
      d.id == id && d.decision == "APPROVED" && d.role == "human" && d.digest == digest && d.scope == scope && at < d.expiresAt;
    assert (lines + [line])[i] == lines[i];
  }

  // ---------------------------------------------------------------- every step

  lemma KeepsCalls(policy: Policy, w: World, next: World, h: seq<Happening>)
    requires Authorized(policy, w) && HumansDecide(w.assuranceLog)
    requires GrowsSafely(w, next) && IssuesSafely(w, next)
    requires h == w.history
    ensures forall i {:trigger Accounted(policy, next, h[i].call)} :: 0 <= i < |h| && h[i].Invoking? ==>
              Accounted(policy, next, h[i].call)
    ensures Running(w) ==> Accounted(policy, next, w.live.value.phase.call)
  {
    forall i | 0 <= i < |h| && h[i].Invoking?
      ensures Accounted(policy, next, h[i].call)
    {
      assert Accounted(policy, w, h[i].call);
      AccountedStays(policy, w, next, h[i].call);
    }
    if Running(w) {
      AccountedStays(policy, w, next, w.live.value.phase.call);
    }
  }

  predicate OnlyQuiet(h: seq<Happening>, more: seq<Happening>) {
    && |more| >= |h| && more[..|h|] == h
    && forall i :: |h| <= i < |more| ==> !more[i].Invoking?
  }

  lemma SameInvocations(h: seq<Happening>, more: seq<Happening>)
    requires CallsApart(h) && OnlyQuiet(h, more)
    ensures CallsApart(more)
  {
    forall i, j | 0 <= i < j < |more| && more[i].Invoking? && more[j].Invoking?
      ensures Apart(more[i].call, more[j].call)
    {
      assert Apart(h[i].call, h[j].call) && more[i] == h[i] && more[j] == h[j];
    }
  }

  lemma SamePast(h: seq<Happening>, more: seq<Happening>, c: Call)
    requires ApartFromPast(h, c) && OnlyQuiet(h, more)
    ensures ApartFromPast(more, c)
  {
    forall i | 0 <= i < |more| && more[i].Invoking?
      ensures Apart(more[i].call, c)
    {
      assert Apart(h[i].call, c) && more[i] == h[i];
    }
  }

  /** A step that leaves the phase alone, or ends it, and adds no invocation. */
  lemma QuietStep(policy: Policy, w: World, next: World)
    requires Authorized(policy, w) && HumansDecide(w.assuranceLog)
    requires GrowsSafely(w, next) && IssuesSafely(w, next) && IssuesOk(policy, next.issued)
    requires next.live.Some? ==> next.live.value.nonces <= next.issued.Keys
    requires OnlyQuiet(w.history, next.history)
    requires Running(next) ==> Running(w) && next.live.value.phase.call == w.live.value.phase.call
    requires NotStarted(next) ==> NotStarted(w)
    ensures Authorized(policy, next)
  {
    KeepsCalls(policy, w, next, w.history);
    forall i | 0 <= i < |next.history| && next.history[i].Invoking?
      ensures Accounted(policy, next, next.history[i].call)
    {
      assert Accounted(policy, next, w.history[i].call) && next.history[i] == w.history[i];
    }
    SameInvocations(w.history, next.history);
    if NotStarted(next) {
      SamePast(w.history, next.history, next.live.value.phase.call);
    }
  }

  lemma BeginAuthorized(policy: Policy, w: World, l: Live, c: Call, next: World)
    requires Durable(w) && Authorized(policy, w) && w.live == Some(l) && l.phase.Idle?
    requires Wf(c.proposal) && (c.verdict.kind == ALLOW ==> c.verdict.nonce in w.issued && w.issued[c.verdict.nonce].verdict == c.verdict)
    requires Refused(w, l, next) || Taken(w, l, c, next)
    ensures Authorized(policy, next)
  {
    BeginSafe(w, l, c, next);
    if Refused(w, l, next) {
      QuietStep(policy, w, next);
    } else {
      KeepsCalls(policy, w, next, w.history);
      TakenIsAccounted(policy, w, l, c, next);
    }
  }

  lemma ApartSnoc(h: seq<Happening>, c: Call)
    requires CallsApart(h) && ApartFromPast(h, c)
    ensures CallsApart(h + [Invoking(c)])
  {
    var more := h + [Invoking(c)];
    forall i, j | 0 <= i < j < |more| && more[i].Invoking? && more[j].Invoking?
      ensures Apart(more[i].call, more[j].call)
    {
      if j < |h| { assert Apart(h[i].call, h[j].call); } else { assert Apart(h[i].call, c); }
    }
  }

  lemma PerformAuthorized(policy: Policy, w: World, l: Live)
    requires Authorized(policy, w) && HumansDecide(w.assuranceLog) && w.live == Some(l) && l.phase.Holding?
    ensures Authorized(policy, Perform(w, l))
  {
    var next, c := Perform(w, l), l.phase.call;
    KeepsCalls(policy, w, next, w.history);
    ApartSnoc(w.history, c);
    forall i | 0 <= i < |next.history| && next.history[i].Invoking?
      ensures Accounted(policy, next, next.history[i].call)
    {
      if i < |w.history| {
        assert Accounted(policy, next, w.history[i].call) && next.history[i] == w.history[i];
      }
    }
  }

  predicate StartsOrIssues(s: Step) {
    s.DoBegin? || s.DoPerform? || s.Evaluate?
  }

  /** History only grows, without an invocation, and no call starts running. */
  predicate Quiet(w: World, next: World) {
    && next.issued == w.issued
    && (next.live.Some? ==> next.live.value.nonces == {} || (w.live.Some? && next.live.value.nonces == w.live.value.nonces))
    && OnlyQuiet(w.history, next.history)
    && (Running(next) ==> Running(w) && next.live.value.phase.call == w.live.value.phase.call)
    && (NotStarted(next) ==> NotStarted(w))
  }

  lemma ConcludeIsQuiet(w: World, l: Live, ret: PerformReturn, id: string, now: int)
    requires w.live == Some(l) && l.phase.InFlight?
    ensures Quiet(w, Conclude(w, l, ret, id, now).0)
  {
  }

  lemma ReconcileIsQuiet(w: World, l: Live, scope: string, resolved: string, actor: Actor, role: string, now: int)
    requires w.live == Some(l)
    ensures Quiet(w, Reconcile(w, l, scope, resolved, actor, role, now).0)
  {
  }

  lemma ReserveIsQuiet(w: World, l: Live, now: int)
    requires w.live == Some(l) && l.phase.Admitted?
    ensures Quiet(w, Reserve(w, l, now))
  {
  }

  lemma BootIsQuiet(w: World, now: int)
    requires w.live.None?
    ensures Quiet(w, Boot(w, now))
  {
  }

  lemma OtherStepsAreQuiet(policy: Policy, w: World, s: Step)
    requires Enabled(w, s) && !StartsOrIssues(s)
    ensures Quiet(w, Next(policy, w, s))
  {
    match s
    case DoConclude(ret, id, now) => ConcludeIsQuiet(w, w.live.value, ret, id, now);
    case DoReconcile(scope, resolved, actor, role, now) =>
      ReconcileIsQuiet(w, w.live.value, scope, resolved, actor, role, now);
    case DoReserve(now) => ReserveIsQuiet(w, w.live.value, now);
    case Restart(now) => BootIsQuiet(w, now);
    case _ =>
  }

  lemma OtherStepAuthorized(policy: Policy, w: World, s: Step)
    requires Durable(w) && Authorized(policy, w) && Enabled(w, s) && !StartsOrIssues(s)
    ensures Authorized(policy, Next(policy, w, s))
  {
    StepIsSafe(policy, w, s);
    OtherStepsAreQuiet(policy, w, s);
    QuietStep(policy, w, Next(policy, w, s));
  }

  lemma IssuesGrow(policy: Policy, issued: map<string, Issue>, nonce: string, x: Issue)
    requires IssuesOk(policy, issued) && IssueOk(policy, nonce, x)
    ensures IssuesOk(policy, issued[nonce := x])
  {
    var grown := issued[nonce := x];
    forall n | n in grown
      ensures IssueOk(policy, n, grown[n])
    {
      if n != nonce { assert IssueOk(policy, n, issued[n]); }
    }
  }

  lemma NewIssueAuthorized(policy: Policy, w: World, l: Live, nonce: string, x: Issue)
    requires HumansDecide(w.assuranceLog) && Authorized(policy, w) && w.live == Some(l)
    requires nonce !in w.issued && IssuesOk(policy, w.issued[nonce := x])
    ensures Authorized(policy, w.(live := Some(l.(nonces := l.nonces + {nonce})), issued := w.issued[nonce := x]))
  {
    var next := w.(live := Some(l.(nonces := l.nonces + {nonce})), issued := w.issued[nonce := x]);
    KeepsCalls(policy, w, next, w.history);
  }

  lemma EvaluateAuthorized(policy: Policy, w: World, l: Live, p: Value, approvalId: Option<string>, nonce: string, now: int)
    requires Durable(w) && Authorized(policy, w) && w.live == Some(l) && Wf(p) && nonce !in w.issued
    ensures Authorized(policy, AskGate(policy, w, l, p, approvalId, nonce, now))
  {
    var v := Gates.Evaluate(policy, l.assurance, p, approvalId, nonce, now);
    AllowedIsIssueOk(policy, l.assurance, p, approvalId, nonce, now);
    if v.kind == ALLOW {
      IssuesGrow(policy, w.issued, nonce, Issue(v, p));
      NewIssueAuthorized(policy, w, l, nonce, Issue(v, p));
    }
  }

  lemma KeepsAuthority(policy: Policy, w: World, s: Step)
    requires Durable(w) && Authorized(policy, w) && Enabled(w, s)
    ensures Authorized(policy, Next(policy, w, s))
  {
    if s.DoBegin? {
      var c := Call(s.proposal, s.verdict, DigestOf(s.proposal), s.now);
      BeginShape(w, w.live.value, s.proposal, s.verdict, s.now);
      BeginAuthorized(policy, w, w.live.value, c, Begin(w, w.live.value, s.proposal, s.verdict, s.now).0);
    } else if s.DoPerform? {
      PerformAuthorized(policy, w, w.live.value);
    } else if s.Evaluate? {
      EvaluateAuthorized(policy, w, w.live.value, s.proposal, s.approvalId, s.nonce, s.now);
    } else {
      OtherStepAuthorized(policy, w, s);
    }
  }
}

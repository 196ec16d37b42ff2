/**
 * Consent over whole runs: what was said in the steps of a run, and that every
 * invocation which needs a human had one who approved just that.
 */
module PipelineConsent {
  import opened Wrappers
  import opened Json
  import opened Hashing
  import opened Events
  import opened Gates
  import opened GateLaws
  import opened Pipeline
  import opened PipelineDurable
  import opened PipelineAuthority
  import opened PipelineTheorems
  import opened PipelineSteps
  import Approvals

  // ---------------------------------------------------------------- lines of the assurance log

  /** The decision on file is what a human said in step `j`, on the request made in step `i` before. */
  predicate Said(steps: seq<Step>, i: int, j: int, d: Approvals.Decision) {
    && 0 <= i < j < |steps| && steps[i].Request? && steps[j].Decide?
    && steps[i].req.id == d.requestId && steps[i].req.digest == d.digest && steps[i].req.scope == d.scope
    && steps[j].requestId == d.requestId && steps[j].id == d.id && steps[j].decision == d.decision
    && steps[j].actor == d.actor && steps[j].role == d.role == "human"
    && d.decidedAt == steps[j].now && d.expiresAt == steps[j].now + steps[j].ttl * 1000
  }

  predicate Asked(steps: seq<Step>, r: Approvals.Request) {
    exists i :: 0 <= i < |steps| && steps[i] == Request(r)
  }

  ghost predicate HasSource(steps: seq<Step>, line: Approvals.Line) {
    match line
    case RequestLine(r) => Asked(steps, r)
    case DecisionLine(d) => exists i, j :: Said(steps, i, j, d)
    case ConsumptionLine(_, _) => true
  }

  ghost predicate AllHaveSource(steps: seq<Step>, lines: seq<Approvals.Line>) {
    forall k {:trigger HasSource(steps, lines[k])} :: 0 <= k < |lines| ==> HasSource(steps, lines[k])
  }

  lemma SourceStays(steps: seq<Step>, s: Step, line: Approvals.Line)
    requires HasSource(steps, line)
    ensures HasSource(steps + [s], line)
  {
    var more := steps + [s];
    match line
    case RequestLine(r) =>
      var i :| 0 <= i < |steps| && steps[i] == Request(r);
      assert more[i] == Request(r);
    case DecisionLine(d) =>
      var i, j :| Said(steps, i, j, d);
      assert Said(more, i, j, d);
    case ConsumptionLine(_, _) =>
  }

  /** The requests on file are those of the log. */
  lemma {:induction false} RequestOnFile(lines: seq<Approvals.Line>, id: string)
    requires id in Approvals.Replay(lines).requests
    ensures exists k :: 0 <= k < |lines| && lines[k] == Approvals.RequestLine(Approvals.Replay(lines).requests[id])
    ensures Approvals.Replay(lines).requests[id].id == id
  {
    var n := |lines| - 1;
    var p, last := lines[..n], lines[n];
    Approvals.LineIsAbout(Approvals.Replay(p), last, id);
    if last.RequestLine? && last.request.id == id {
      assert lines[n] == Approvals.RequestLine(Approvals.Replay(lines).requests[id]);
    } else {
      RequestOnFile(p, id);
      var k :| 0 <= k < |p| && p[k] == Approvals.RequestLine(Approvals.Replay(p).requests[id]);
      assert lines[k] == p[k];
    }
  }

  /** What a step writes to the assurance log, if anything. */
  lemma OneLine(policy: Policy, w: World, s: Step)
    requires Enabled(w, s)
    ensures var lines, more := w.assuranceLog, Next(policy, w, s).assuranceLog;
            || more == lines
            || (|more| == |lines| + 1 && more[..|lines|] == lines
                && match more[|lines|]
                   case RequestLine(r) => s == Request(r)
                   case DecisionLine(d) =>
                     s.Decide? && w.live.Some?
                     && Approvals.MakeDecision(w.live.value.assurance, s.requestId, s.id, s.decision, s.actor, s.role, s.ttl, s.now) == Ok(d)
                   case ConsumptionLine(_, _) => s.DoBegin?)
  {
    if s.DoBegin? { BeginShape(w, w.live.value, s.proposal, s.verdict, s.now); }
  }

  lemma NewDecision(steps: seq<Step>, w: World, s: Step, d: Approvals.Decision)
    requires Durable(w) && w.live.Some? && s.Decide? && AllHaveSource(steps, w.assuranceLog)
    requires Approvals.MakeDecision(w.live.value.assurance, s.requestId, s.id, s.decision, s.actor, s.role, s.ttl, s.now) == Ok(d)
    ensures HasSource(steps + [s], Approvals.DecisionLine(d))
  {
    Approvals.DecidedAsSaid(w.live.value.assurance, s.requestId, s.id, s.decision, s.actor, s.role, s.ttl, s.now);
    RequestOnFile(w.assuranceLog, s.requestId);
    var r := Approvals.Replay(w.assuranceLog).requests[s.requestId];
    var k :| 0 <= k < |w.assuranceLog| && w.assuranceLog[k] == Approvals.RequestLine(r);
    assert HasSource(steps, w.assuranceLog[k]);
    var i :| 0 <= i < |steps| && steps[i] == Request(r);
    assert Said(steps + [s], i, |steps|, d);
  }

  lemma {:induction false} LinesHaveSource(policy: Policy, steps: seq<Step>)
    requires IsRun(policy, steps)
    ensures AllHaveSource(steps, After(policy, steps).assuranceLog)
    decreases |steps|
  {
    if steps != [] {
      var before, s := steps[..|steps| - 1], steps[|steps| - 1];
      var w := After(policy, before);
      LinesHaveSource(policy, before);
      AlwaysDurable(policy, before);
      OneLine(policy, w, s);
      var lines, more := w.assuranceLog, After(policy, steps).assuranceLog;
      assert before + [s] == steps;
      forall k {:trigger HasSource(steps, more[k])} | 0 <= k < |more| ensures HasSource(steps, more[k]) {
        if k < |lines| {
          assert more[k] == lines[k] && HasSource(before, lines[k]);
          SourceStays(before, s, lines[k]);
        } else if more[k].RequestLine? {
          assert steps[|before|] == s;
        } else if more[k].DecisionLine? {
          NewDecision(before, w, s, more[k].decision);
        }
      }
    }
  }

  // ---------------------------------------------------------------- verdicts

  /** The verdict is the gate's, given in step `g` on this proposal. */
  predicate Judged(steps: seq<Step>, g: int, n: string, x: Issue) {
    0 <= g < |steps| && steps[g].Evaluate? && steps[g].proposal == x.proposal && steps[g].nonce == n && steps[g].now == x.verdict.at
  }

  /** It had not expired when it was judged. */
  predicate InTime(policy: Policy, p: Value, at: int) {
    var x := Get(p, "expires_at");
    LeftOut(x) || (x.Str? && policy.parseDate(x.s).Some? && at < policy.parseDate(x.s).value)
  }

  ghost predicate IssueHasSource(policy: Policy, steps: seq<Step>, n: string, x: Issue) {
    (exists g :: Judged(steps, g, n, x)) && InTime(policy, x.proposal, x.verdict.at)
  }

  ghost predicate IssuesHaveSource(policy: Policy, steps: seq<Step>, issued: map<string, Issue>) {
    forall n {:trigger IssueHasSource(policy, steps, n, issued[n])} :: n in issued ==> IssueHasSource(policy, steps, n, issued[n])
  }

  lemma OneIssue(policy: Policy, w: World, s: Step, n: string)
    requires Enabled(w, s) && n in Next(policy, w, s).issued
    ensures var x := Next(policy, w, s).issued[n];
            || (n in w.issued && w.issued[n] == x)
            || (s.Evaluate? && s.nonce == n && x.proposal == s.proposal && x.verdict.at == s.now && InTime(policy, x.proposal, s.now))
  {
    if s.DoBegin? { BeginShape(w, w.live.value, s.proposal, s.verdict, s.now); }
    if s.Evaluate? {
      AllowsIff(policy, w.live.value.assurance, s.proposal, s.approvalId, s.nonce, s.now);
      KindIff(policy, w.live.value.assurance, s.proposal, s.approvalId, s.nonce, s.now);
    }
  }

  lemma {:induction false} VerdictsHaveSource(policy: Policy, steps: seq<Step>)
    requires IsRun(policy, steps)
    ensures IssuesHaveSource(policy, steps, After(policy, steps).issued)
    decreases |steps|
  {
    if steps != [] {
      var before, s := steps[..|steps| - 1], steps[|steps| - 1];
      var w, issued := After(policy, before), After(policy, steps).issued;
      VerdictsHaveSource(policy, before);
      forall n {:trigger IssueHasSource(policy, steps, n, issued[n])} | n in issued ensures IssueHasSource(policy, steps, n, issued[n]) {
        OneIssue(policy, w, s, n);
        if n in w.issued && w.issued[n] == issued[n] {
          assert IssueHasSource(policy, before, n, w.issued[n]);
          var g :| Judged(before, g, n, issued[n]);
          assert Judged(steps, g, n, issued[n]);
        } else {
          assert Judged(steps, |before|, n, issued[n]);
        }
      }
    }
  }

  // ---------------------------------------------------------------- every invocation

  lemma SameCall(policy: Policy, w: World, s: Step)
    requires Enabled(w, s) && Running(Next(policy, w, s)) && !s.DoBegin?
    ensures Running(w) && Next(policy, w, s).live.value.phase.call == w.live.value.phase.call
  {
    if !StartsOrIssues(s) { OtherStepsAreQuiet(policy, w, s); }
  }

  lemma BeginRunning(w: World, l: Live, p: Value, v: Verdict, now: int)
    requires w.live == Some(l) && l.phase.Idle? && p.Obj? && Running(Begin(w, l, p, v, now).0)
    ensures Begin(w, l, p, v, now).0.live.value.phase == Admitted(Call(p, v, DigestOf(p), now))
  {
    BeginShape(w, l, p, v, now);
  }

  /** A call under way was begun in some step, with just its proposal and verdict, at its time. */
  lemma {:induction false} BegunBefore(policy: Policy, steps: seq<Step>) returns (a: nat)
    requires IsRun(policy, steps) && Running(After(policy, steps))
    ensures var c := After(policy, steps).live.value.phase.call;
            && a < |steps| && steps[a] == DoBegin(c.proposal, c.verdict, c.at) && IsRun(policy, steps[..a + 1])
            && After(policy, steps[..a + 1]).live.Some? && After(policy, steps[..a + 1]).live.value.phase == Admitted(c)
    decreases |steps|
  {
    var n := |steps| - 1;
    var before, s := steps[..n], steps[n];
    var w := After(policy, before);
    if s.DoBegin? {
      a := n;
      assert steps[..a + 1] == steps;
      BeginRunning(w, w.live.value, s.proposal, s.verdict, s.now);
    } else {
      SameCall(policy, w, s);
      a := BegunBefore(policy, before);
      assert before[..a + 1] == steps[..a + 1];
    }
  }

  /**
   * A human approved the call before it began: in step `i` somebody asked for
   * an approval of its digest and scope, in step `j` a human approved that
   * request, under the id that the verdict names, and the call began in step
   * `a`, before the time given was up.
   */
  predicate Consented(steps: seq<Step>, i: int, j: int, a: int, c: Call, scope: string)
    requires c.proposal.Obj?
  {
    && 0 <= i < j < a < |steps| && steps[i].Request? && steps[j].Decide? && steps[a] == DoBegin(c.proposal, c.verdict, c.at)
    && steps[i].req.digest == DigestOf(c.proposal) && steps[i].req.scope == scope
    && steps[j].requestId == steps[i].req.id && steps[j].decision == "APPROVED" && steps[j].role == "human"
    && c.verdict.approvalId == Some(steps[j].id) && c.at < steps[j].now + steps[j].ttl * 1000
  }

  lemma ApprovalHasSource(steps: seq<Step>, lines: seq<Approvals.Line>, id: string, digest: Digest, scope: string, at: int)
    returns (i: int, j: int)
    requires AllHaveSource(steps, lines) && Approvals.ApprovedByHuman(lines, id, digest, scope, at)
    ensures 0 <= i < j < |steps| && steps[i].Request? && steps[j].Decide?
    ensures steps[i].req.digest == digest && steps[i].req.scope == scope
    ensures steps[j].requestId == steps[i].req.id && steps[j].id == id && steps[j].decision == "APPROVED" && steps[j].role == "human"
    ensures at < steps[j].now + steps[j].ttl * 1000
  {
    var k :| 0 <= k < |lines| && lines[k].DecisionLine? &&
      var d := lines[k].decision;
      d.id == id && d.decision == "APPROVED" && d.role == "human" && d.digest == digest && d.scope == scope && at < d.expiresAt;
    assert HasSource(steps, lines[k]);
    i, j :| Said(steps, i, j, lines[k].decision);
  }

  /** What the executor admitted is a proposal on its canonical scope, and has an approval if a human is needed. */
  lemma AdmittedIsLawful(policy: Policy, w: World)
    requires Authorized(policy, w) && Running(w)
    ensures var c := w.live.value.phase.call;
            && c.proposal.Obj? && c.digest == DigestOf(c.proposal)
            && Get(c.proposal, "action").Str? && Get(c.proposal, "action").s in policy.registry && Get(c.proposal, "target").Str?
            && var e := policy.registry[Get(c.proposal, "action").s];
               && c.verdict.scope == e.capabilityClass + ":" + Get(c.proposal, "target").s
               && (AsksForHuman(e, c.proposal) ==>
                     GivenApproval(c.verdict.approvalId)
                     && Approvals.ApprovedByHuman(w.assuranceLog, c.verdict.approvalId.value, c.digest, c.verdict.scope, c.at))
  {
    var c := w.live.value.phase.call;
    assert Accounted(policy, w, c);
    assert c.verdict.nonce in w.issued;
    AsksIff(policy.registry[ActionOf(c.proposal)], c.proposal);
  }

  /** A call is on its proposal's canonical scope. */
  predicate OnItsScope(policy: Policy, c: Call) {
    && c.proposal.Obj? && Get(c.proposal, "action").Str? && Get(c.proposal, "action").s in policy.registry
    && Get(c.proposal, "target").Str?
    && c.verdict.scope == policy.registry[Get(c.proposal, "action").s].capabilityClass + ":" + Get(c.proposal, "target").s
  }

  lemma BegunIsConsented(policy: Policy, begun: seq<Step>, c: Call) returns (i: int, j: int)
    requires IsRun(policy, begun) && begun != [] && begun[|begun| - 1] == DoBegin(c.proposal, c.verdict, c.at)
    requires After(policy, begun).live.Some? && After(policy, begun).live.value.phase == Admitted(c)
    ensures OnItsScope(policy, c)
    ensures AsksForHuman(policy.registry[Get(c.proposal, "action").s], c.proposal) ==>
              Consented(begun, i, j, |begun| - 1, c, c.verdict.scope)
  {
    var w := After(policy, begun);
    AlwaysAuthorized(policy, begun);
    AdmittedIsLawful(policy, w);
    i, j := 0, 0;
    if AsksForHuman(policy.registry[Get(c.proposal, "action").s], c.proposal) {
      LinesHaveSource(policy, begun);
      i, j := ApprovalHasSource(begun, w.assuranceLog, c.verdict.approvalId.value, c.digest, c.verdict.scope, c.at);
      assert begun[j].Decide? && begun[|begun| - 1].DoBegin?;
    }
  }

  /**
   * A call under way that needs a human had one: somebody asked, in a step of
   * the run, for an approval of exactly its digest and scope, and later a human
   * approved that request in time.
   */
  lemma RunningIsConsented(policy: Policy, steps: seq<Step>) returns (i: int, j: int, a: int)
    requires IsRun(policy, steps) && Running(After(policy, steps))
    ensures var c := After(policy, steps).live.value.phase.call;
            && OnItsScope(policy, c) && a < |steps|
            && (AsksForHuman(policy.registry[Get(c.proposal, "action").s], c.proposal) ==> Consented(steps, i, j, a, c, c.verdict.scope))
  {
    a := BegunBefore(policy, steps);
    var c := After(policy, steps).live.value.phase.call;
    i, j := BegunIsConsented(policy, steps[..a + 1], c);
  }

  /** The same of every invocation in the history of a run; all of it came before the invocation. */
  lemma EveryInvocationConsented(policy: Policy, steps: seq<Step>, x: nat) returns (i: int, j: int, a: int, b: nat)
    requires IsRun(policy, steps) && x < |After(policy, steps).history| && After(policy, steps).history[x].Invoking?
    ensures var c := After(policy, steps).history[x].call;
            && b < |steps| && steps[b].DoPerform?
            && c.proposal.Obj? && Get(c.proposal, "action").Str? && Get(c.proposal, "action").s in policy.registry
            && Get(c.proposal, "target").Str?
            && var e := policy.registry[Get(c.proposal, "action").s];
               AsksForHuman(e, c.proposal) ==>
                 a < b && Consented(steps, i, j, a, c, e.capabilityClass + ":" + Get(c.proposal, "target").s)
  {
    b := HappeningIsDue(policy, steps, x);
    i, j, a := RunningIsConsented(policy, steps[..b]);
  }

  /** Without a human's word in favour, nothing that asks for a human is ever invoked. */
  lemma NothingWithoutConsent(policy: Policy, steps: seq<Step>, x: nat)
    requires IsRun(policy, steps) && x < |After(policy, steps).history| && After(policy, steps).history[x].Invoking?
    requires forall j :: 0 <= j < |steps| && steps[j].Decide? ==> steps[j].decision != "APPROVED" || steps[j].role != "human"
    ensures var p := After(policy, steps).history[x].call.proposal;
            && p.Obj? && Get(p, "action").Str? && Get(p, "action").s in policy.registry
            && !AsksForHuman(policy.registry[Get(p, "action").s], p)
  {
    var i, j, a, b := EveryInvocationConsented(policy, steps, x);
  }

  lemma SameExpiry(policy: Policy, p: Value, q: Value, at: int)
    requires Wf(p) && Wf(q) && p.Obj? && !q.Undefined? && DigestOf(p) == DigestOf(q) && InTime(policy, p, at)
    ensures var x := Get(q, "expires_at"); x.Str? ==> policy.parseDate(x.s).Some? && at < policy.parseDate(x.s).value
  {
    var x := Get(q, "expires_at");
    if x.Str? { DigestFixesStrings(p, q, "expires_at", x.s); }
  }

  /** What the executor admits was judged by the gate, in a step at whose time it had not expired. */
  lemma BegunIsJudged(policy: Policy, before: seq<Step>, c: Call) returns (g: int)
    requires IsRun(policy, before) && Enabled(After(policy, before), DoBegin(c.proposal, c.verdict, c.at))
    requires var next := Next(policy, After(policy, before), DoBegin(c.proposal, c.verdict, c.at));
             next.live.Some? && next.live.value.phase == Admitted(c)
    ensures 0 <= g < |before| && JudgedInTime(policy, before[g], c)
  {
    var w := After(policy, before);
    AlwaysAuthorized(policy, before);
    VerdictsHaveSource(policy, before);
    BeginShape(w, w.live.value, c.proposal, c.verdict, c.at);
    g := TakenIsJudged(policy, before, w, c);
  }

  /** The gate looked at a proposal of this digest, under this verdict's nonce, and it had not expired. */
  predicate JudgedInTime(policy: Policy, s: Step, c: Call) {
    && s.Evaluate? && s.proposal.Obj? && c.proposal.Obj? && DigestOf(s.proposal) == DigestOf(c.proposal)
    && s.nonce == c.verdict.nonce
    && var x := Get(c.proposal, "expires_at");
       x.Str? ==> policy.parseDate(x.s).Some? && s.now < policy.parseDate(x.s).value
  }

  lemma TakenIsJudged(policy: Policy, steps: seq<Step>, w: World, c: Call) returns (g: int)
    requires Authorized(policy, w) && IssuesHaveSource(policy, steps, w.issued) && Wf(c.proposal) && c.proposal.Obj?
    requires c.verdict.nonce in w.issued && w.issued[c.verdict.nonce].verdict == c.verdict
    requires c.verdict.digest == Some(DigestOf(c.proposal))
    ensures 0 <= g < |steps| && JudgedInTime(policy, steps[g], c)
  {
    var n := c.verdict.nonce;
    var x := w.issued[n];
    assert IssueHasSource(policy, steps, n, x) && IssueOk(policy, n, x);
    g :| Judged(steps, g, n, x);
    SameExpiry(policy, x.proposal, c.proposal, x.verdict.at);
  }

  lemma BegunFrom(policy: Policy, steps: seq<Step>, a: nat)
    requires IsRun(policy, steps) && a < |steps| && IsRun(policy, steps[..a + 1])
    ensures IsRun(policy, steps[..a]) && Enabled(After(policy, steps[..a]), steps[a])
    ensures After(policy, steps[..a + 1]) == Next(policy, After(policy, steps[..a]), steps[a])
  {
    PartOfRun(policy, steps, a);
  }

  /** Every invocation was judged by the gate before, in a step at whose time its proposal had not expired. */
  lemma EveryInvocationJudged(policy: Policy, steps: seq<Step>, x: nat) returns (g: int, b: nat)
    requires IsRun(policy, steps) && x < |After(policy, steps).history| && After(policy, steps).history[x].Invoking?
    ensures b < |steps| && steps[b].DoPerform? && 0 <= g < b
    ensures JudgedInTime(policy, steps[g], After(policy, steps).history[x].call)
  {
    b := HappeningIsDue(policy, steps, x);
    var c := After(policy, steps).history[x].call;
    var a := BegunBefore(policy, steps[..b]);
    BegunFrom(policy, steps[..b], a);
    g := BegunIsJudged(policy, steps[..b][..a], c);
  }
}

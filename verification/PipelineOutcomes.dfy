/**
 * What one call of the executor comes to: when it is admitted, what is recorded
 * of its side effect, what a reconciliation does, and that an outcome nobody
 * knows holds its scope until a human reconciles it.
 */
module PipelineOutcomes {
  import opened Wrappers
  import opened Json
  import opened Hashing
  import opened Events
  import opened Gates
  import opened GateLaws
  import opened Pipeline
  import opened PipelineDurable
  import opened PipelineAuthority
  import opened PipelineGuards
  import opened PipelineTheorems
  import opened PipelineSteps
  import opened Recovery
  import Approvals
  import EventLog

  // ---------------------------------------------------------------- admission

  /**
   * A call is admitted exactly with an ALLOW whose nonce is unused, on the very
   * proposal that was judged, which was not executed, on a scope that is free,
   * and with the approval the verdict names, if any, on file and unused.
   */
  lemma AdmittedIff(w: World, l: Live, p: Value, v: Verdict, now: int)
    requires w.live == Some(l) && p.Obj?
    ensures Begin(w, l, p, v, now).1.None? <==>
              && v.kind == ALLOW && v.nonce in l.nonces && v.digest == Some(DigestOf(p))
              && DigestOf(p) !in l.executed && v.scope !in l.unknown
              && (v.approvalId.Some? && v.approvalId.value != "" ==>
                    OnFile(l.assurance, v.approvalId.value, DigestOf(p), v.scope, now))
    ensures Begin(w, l, p, v, now).1.None? ==>
              var next := Begin(w, l, p, v, now).0;
              && next.live.Some? && next.live.value.phase == Admitted(Call(p, v, DigestOf(p), now))
              && next.live.value.nonces == l.nonces - {v.nonce} && next.disk == w.disk && next.history == w.history
              && next.assuranceLog == (if v.approvalId.Some? && v.approvalId.value != ""
                                       then w.assuranceLog + [Approvals.ConsumptionLine(v.approvalId.value, now)] else w.assuranceLog)
  {
    if v.approvalId.Some? { OnFileIff(l.assurance, v.approvalId.value, DigestOf(p), v.scope, now); }
  }

  /** Why a call is refused: the first of these that applies. Behind the first two the nonce is spent. */
  lemma RefusedIff(w: World, l: Live, p: Value, v: Verdict, now: int)
    requires w.live == Some(l) && p.Obj?
    ensures var e := Begin(w, l, p, v, now).1;
            && (e == Some(NotAllowed) <==> v.kind != ALLOW)
            && (e == Some(NonceInvalid) <==> v.kind == ALLOW && v.nonce !in l.nonces)
            && (v.kind == ALLOW && v.nonce in l.nonces ==>
                  && (e == Some(ProposalMutated) <==> v.digest != Some(DigestOf(p)))
                  && (v.digest == Some(DigestOf(p)) ==>
                        && (e == Some(AlreadyExecuted) <==> DigestOf(p) in l.executed)
                        && (e == Some(ScopeReserved) <==> DigestOf(p) !in l.executed && v.scope in l.unknown)))
    ensures var (next, e) := Begin(w, l, p, v, now);
            e.Some? ==> next == w.(live := Some(l.(nonces := if v.kind == ALLOW then l.nonces - {v.nonce} else l.nonces)))
  {
    assert v.kind == ALLOW && v.nonce !in l.nonces ==> l.nonces - {v.nonce} == l.nonces;
    assert l.(nonces := l.nonces) == l;
    BeginShape(w, l, p, v, now);
  }

  // ---------------------------------------------------------------- the side effect's end

  /** The side effect gave back no outcome, or said that it is unknown. */
  predicate Silent(e: Ending) {
    e.Returned? && (e.outcome == None || e.outcome == Some("UNKNOWN"))
  }

  /** A result says what the side effect did: a thrown error is a FAIL that quotes it, and no outcome is UNKNOWN. */
  predicate SaysWhatHappened(r: ExecResult, e: Ending) {
    match e
    case Threw(m) => r.outcome == "FAIL" && r.detail == Some("execution threw: " + m)
    case ThrewUnreadable => false
    case Returned(Some(o), d) => r.outcome == o && r.detail == d
    case Returned(None, d) => r.outcome == "UNKNOWN" && r.detail == d
  }

  /** The result is that of this call. */
  predicate ResultOf(r: ExecResult, c: Call, ret: PerformReturn, id: string, now: int) {
    && r.id == id && r.proposalId == ret.proposalId && r.digest == c.digest && r.approvalId == c.verdict.approvalId
    && r.executedAt == now && !r.recovered && SaysWhatHappened(r, ret.ending)
  }

  /** The outcomes that the schema knows. */
  const OUTCOMES := {"SUCCESS", "FAIL", "CANCELLED", "BLOCKED", "NOT_EXECUTED", "UNKNOWN"}

  /** A valid end leaves the proposal its id, and threw what has a message, or returned a known outcome or none, with a detail that is not empty or none. */
  lemma ValidIff(ret: PerformReturn)
    ensures ValidReturn(ret) <==>
              && ret.proposalId != ""
              && match ret.ending
                 case Threw(_) => true
                 case ThrewUnreadable => false
                 case Returned(o, d) => (o.Some? ==> o.value in OUTCOMES) && d != Some("")
  {
  }

  /**
   * A valid end is recorded as it was: in the result, in memory, and in one new
   * line of the log; and the scope is held exactly when the side effect was silent.
   */
  lemma RecordedAs(policy: Policy, w: World, l: Live, ret: PerformReturn, id: string, now: int)
    requires Durable(w) && Authorized(policy, w) && Tracked(policy, w)
    requires w.live == Some(l) && l.phase.InFlight? && id != "" && ValidReturn(ret)
    ensures var (next, res) := Conclude(w, l, ret, id, now);
            var c := l.phase.call;
            && res.Ok? && ResultOf(res.value, c, ret, id, now)
            && next.live.Some? && next.live.value.phase == Idle
            && next.live.value.executed == l.executed[c.digest := res.value]
            && next.live.value.unknown == (if Silent(ret.ending) then l.unknown[c.verdict.scope := res.value] else l.unknown)
            && (c.verdict.scope in next.live.value.unknown <==> Silent(ret.ending))
    ensures var (next, res) := Conclude(w, l, ret, id, now);
            var c := l.phase.call;
            && |next.disk| == |w.disk| + 1 && next.disk[..|w.disk|] == w.disk && res.Ok?
            && next.disk[|w.disk|].event == Event("executor", Some("exec:" + c.digest.text), Executed(res.value, c.verdict.scope))
            && next.history == w.history + [Finishing(c.digest, c.verdict.scope, ret.ending)]
  {
    RecordedIff(policy, w, l, ret, id, now);
    ConcludeScan(policy, w, l, ret, id, now);
    ResultIsOf(l.phase.call, ret, id, now);
    RecordIsNew(policy, w, l, MakeResult(l.phase.call, ret, id, now), now);
  }

  lemma ResultIsOf(c: Call, ret: PerformReturn, id: string, now: int)
    requires !ret.ending.ThrewUnreadable?
    ensures ResultOf(MakeResult(c, ret, id, now), c, ret, id, now)
    ensures Tells(ret.ending) <==> !Silent(ret.ending)
  {
  }

  lemma RecordIsNew(policy: Policy, w: World, l: Live, r: ExecResult, now: int)
    requires Durable(w) && Tracked(policy, w) && w.live == Some(l) && l.phase.InFlight? && r.digest == l.phase.call.digest
    ensures var c, a := l.phase.call, EventLog.Append(l.log, ResultEvent(l.phase.call, r), now).value;
            && a.log.events == w.disk + [a.record]
            && a.record.event == Event("executor", Some("exec:" + c.digest.text), Executed(r, c.verdict.scope))
  {
    var c := l.phase.call;
    AppendDurable(w, ResultEvent(c, r), now);
    if EventLog.Append(l.log, ResultEvent(c, r), now).value.replayed {
      ReplayedResult(w, l.log, c.digest);
      assert false;
    }
  }

  /** Any other end throws out of `execute`, and leaves log and guards as they were. */
  lemma OtherEndThrows(policy: Policy, w: World, l: Live, ret: PerformReturn, id: string, now: int)
    requires Authorized(policy, w) && w.live == Some(l) && l.phase.InFlight? && id != "" && !ValidReturn(ret)
    ensures var (next, res) := Conclude(w, l, ret, id, now);
            && res == Err(if ret.ending.ThrewUnreadable? then MessageUnreadable else InvalidResult)
            && next == w.(live := Some(l.(phase := Idle)))
  {
    RecordedIff(policy, w, l, ret, id, now);
  }

  /** The reservation names the proposal, its digest and its scope, and is in the log before the side effect starts. */
  lemma ReservedAs(policy: Policy, w: World, l: Live, now: int)
    requires Durable(w) && w.live == Some(l) && l.phase.Admitted?
    ensures var next, c := Reserve(w, l, now), l.phase.call;
            && next.live.Some? && next.live.value.phase == Holding(c)
            && (next.disk == w.disk || (|next.disk| == |w.disk| + 1 && next.disk[..|w.disk|] == w.disk
                  && next.disk[|w.disk|].event
                     == Event("executor", Some("exec-reserve:" + c.digest.text), Reserved(TextOf(Get(c.proposal, "id")), c.digest, c.verdict.scope))))
            && (next.disk == w.disk ==> c.digest in Marked(w))
  {
    var c := l.phase.call;
    AppendDurable(w, ReserveEvent(c), now);
    if EventLog.Append(l.log, ReserveEvent(c), now).value.replayed { ReplayedReserve(w, l.log, c.digest); }
  }

  // ---------------------------------------------------------------- reconciliation

  /**
   * A reconciliation goes through exactly for a human with a name, on a scope
   * that an unknown outcome holds, with one of three resolutions; it frees that
   * scope only, and the log says who resolved which result how.
   */
  lemma ReconciledIff(w: World, l: Live, scope: string, resolved: string, actor: Actor, role: string, now: int)
    requires Durable(w) && w.live == Some(l)
    ensures Reconcile(w, l, scope, resolved, actor, role, now).1.None? <==>
              role == "human" && scope in l.unknown && resolved in {"SUCCESS", "FAIL", "NOT_EXECUTED"}
              && actor.ActorText? && actor.text != ""
    ensures var (next, e) := Reconcile(w, l, scope, resolved, actor, role, now);
            e.None? ==>
              && |next.disk| == |w.disk| + 1 && next.disk[..|w.disk|] == w.disk
              && next.disk[|w.disk|].event == Event(actor.text, None, Reconciled(scope, l.unknown[scope].id, resolved))
              && next.live.Some? && next.live.value.unknown == l.unknown - {scope} && next.live.value.executed == l.executed
              && next.history == w.history + [Reconciling(scope)]
    ensures var (next, e) := Reconcile(w, l, scope, resolved, actor, role, now);
            e.Some? ==>
              && (e == Some(NotHuman) <==> role != "human")
              && (e == Some(NothingPending) <==> role == "human" && scope !in l.unknown)
              && (e == Some(BadResolution) <==> role == "human" && scope in l.unknown && resolved !in {"SUCCESS", "FAIL", "NOT_EXECUTED"})
              && next == (if e == Some(NotLogged) then w.(live := Some(l.(unknown := l.unknown - {scope}))) else w)
  {
    if role == "human" && scope in l.unknown && Resolution(resolved) && Named(actor) {
      AppendDurable(w, Event(Signature(actor), None, Reconciled(scope, l.unknown[scope].id, resolved)), now);
    }
  }

  // ---------------------------------------------------------------- recovery

  /** What a reopened executor says of a call whose reservation is all the log has. */
  predicate CrashedOn(r: ExecResult, p: Pending) {
    && r.digest == p.digest && r.outcome == "UNKNOWN" && r.recovered && r.approvalId == None && r.executedAt == p.record.at
    && (p.record.event.body.Reserved? ==> r.proposalId == p.record.event.body.proposalId)
  }

  /** In which words. */
  lemma CrashSays(p: Pending)
    ensures CrashResult(p).id == "exec-crash-" + p.digest.text
    ensures CrashResult(p).detail == Some("process crashed between reservation and result record; effect may or may not have occurred")
  {
  }

  lemma {:induction false} SettledExecuted(executed: map<Digest, ExecResult>, unknown: map<string, ExecResult>, ps: seq<Pending>, d: Digest)
    requires Distinct(ps)
    ensures var g := Settle(executed, unknown, ps);
            && (d in executed && Find(ps, d).None? ==> d in g.executed && g.executed[d] == executed[d])
            && (Find(ps, d).Some? ==> d in g.executed && CrashedOn(g.executed[d], Find(ps, d).value))
    decreases ps
  {
    if ps != [] {
      var t, result := ScopeOfPending(ps[0]), CrashResult(ps[0]);
      SettledExecuted(executed[ps[0].digest := result], if t != "" && t !in unknown then unknown[t := result] else unknown, ps[1..], d);
      FindIff(ps[1..], d);
    }
  }

  /** The scope of an open reservation, and what is said of it. */
  ghost predicate LeftOpenOn(ps: seq<Pending>, s: string, r: ExecResult) {
    exists e :: Find(ps, e).Some? && CrashedOn(r, Find(ps, e).value) && ScopeOfPending(Find(ps, e).value) == s
  }

  lemma LaterLeftOpen(ps: seq<Pending>, s: string, r: ExecResult)
    requires ps != [] && Distinct(ps) && LeftOpenOn(ps[1..], s, r)
    ensures LeftOpenOn(ps, s, r)
  {
    var e :| Find(ps[1..], e).Some? && CrashedOn(r, Find(ps[1..], e).value) && ScopeOfPending(Find(ps[1..], e).value) == s;
    FindIff(ps[1..], e);
    assert Find(ps, e) == Find(ps[1..], e);
  }

  lemma {:induction false} SettledUnknown(executed: map<Digest, ExecResult>, unknown: map<string, ExecResult>, ps: seq<Pending>, s: string)
    requires Distinct(ps)
    ensures var g := Settle(executed, unknown, ps);
            && (s in unknown ==> s in g.unknown && g.unknown[s] == unknown[s])
            && (s in g.unknown && s !in unknown ==> LeftOpenOn(ps, s, g.unknown[s]))
    decreases ps
  {
    if ps != [] {
      var t, result := ScopeOfPending(ps[0]), CrashResult(ps[0]);
      var u := if t != "" && t !in unknown then unknown[t := result] else unknown;
      SettledUnknown(executed[ps[0].digest := result], u, ps[1..], s);
      var g := Settle(executed, unknown, ps);
      if s in g.unknown && s !in unknown {
        if s in u { assert Find(ps, ps[0].digest) == Some(ps[0]); } else { LaterLeftOpen(ps, s, g.unknown[s]); }
      }
    }
  }

  /** A reopened executor has every result as the log recorded it, and for every reservation left open an unknown outcome of just that proposal. */
  lemma RebuiltExecuted(events: seq<Record>, d: Digest, seen: Guards, g: Guards)
    requires seen == ScanAll(events) && g == Rebuild(events)
    ensures && (d in seen.executed && Find(seen.pending, d).None? ==> d in g.executed && g.executed[d] == seen.executed[d])
            && (Find(seen.pending, d).Some? ==> d in g.executed && CrashedOn(g.executed[d], Find(seen.pending, d).value))
  {
    ScanDistinct(events);
    SettledExecuted(seen.executed, seen.unknown, seen.pending, d);
  }

  /** A scope is blocked by the unknown result that the log leaves on it, or else by that of a reservation left open. */
  lemma RebuiltUnknown(events: seq<Record>, s: string, seen: Guards, g: Guards)
    requires seen == ScanAll(events) && g == Rebuild(events)
    ensures && (s in seen.unknown ==> s in g.unknown && g.unknown[s] == seen.unknown[s])
            && (s in g.unknown && s !in seen.unknown ==> LeftOpenOn(seen.pending, s, g.unknown[s]))
  {
    ScanDistinct(events);
    SettledUnknown(seen.executed, seen.unknown, seen.pending, s);
  }

  // ---------------------------------------------------------------- silence holds the scope

  /** The scope is blocked: by the process, or by what the next one will read. */
  predicate HeldScope(w: World, s: string) {
    if w.live.Some? then s in w.live.value.unknown else s in Blocked(w)
  }

  /** A human resolves what holds `s`. */
  predicate Resolves(step: Step, s: string) {
    step.DoReconcile? && step.scope == s && step.role == "human" && step.resolved in {"SUCCESS", "FAIL", "NOT_EXECUTED"}
  }

  lemma ConcludeStaysHeld(policy: Policy, w: World, l: Live, ret: PerformReturn, id: string, now: int, s: string)
    requires Durable(w) && Authorized(policy, w) && Tracked(policy, w) && w.live == Some(l) && l.phase.InFlight? && id != "" && s in l.unknown
    ensures HeldScope(Conclude(w, l, ret, id, now).0, s)
  {
    if ValidReturn(ret) { RecordedAs(policy, w, l, ret, id, now); } else { OtherEndThrows(policy, w, l, ret, id, now); }
  }

  lemma ReconcileStaysHeld(w: World, l: Live, scope: string, resolved: string, actor: Actor, role: string, now: int, s: string)
    requires Durable(w) && w.live == Some(l) && s in l.unknown
    requires !Resolves(DoReconcile(scope, resolved, actor, role, now), s)
    ensures HeldScope(Reconcile(w, l, scope, resolved, actor, role, now).0, s)
  {
    ReconciledIff(w, l, scope, resolved, actor, role, now);
  }

  lemma StaysHeld(policy: Policy, w: World, step: Step, s: string)
    requires Durable(w) && Authorized(policy, w) && Tracked(policy, w) && Enabled(w, step) && HeldScope(w, s) && !Resolves(step, s)
    ensures HeldScope(Next(policy, w, step), s)
  {
    if step.DoBegin? {
      BeginShape(w, w.live.value, step.proposal, step.verdict, step.now);
    } else if step.DoConclude? {
      ConcludeStaysHeld(policy, w, w.live.value, step.ret, step.id, step.now, s);
    } else if step.DoReconcile? {
      ReconcileStaysHeld(w, w.live.value, step.scope, step.resolved, step.who, step.role, step.now, s);
    } else if step.Restart? {
      BootRestarts(w, step.now);
    } else {
      OtherStaysHeld(policy, w, step, s);
    }
  }

  lemma OtherStaysHeld(policy: Policy, w: World, step: Step, s: string)
    requires Tracked(policy, w) && Enabled(w, step) && HeldScope(w, s)
    requires !step.DoBegin? && !step.DoConclude? && !step.DoReconcile? && !step.Restart?
    ensures HeldScope(Next(policy, w, step), s)
  {
    if step.Crash? || step.RestartCutShort? { assert Seen(Next(policy, w, step)) == Seen(w); }
  }

  /** Once held, a scope is held after every part of the run in which no human resolves it. */
  lemma {:induction false} HeldSince(policy: Policy, steps: seq<Step>, a: nat, s: string)
    requires IsRun(policy, steps) && a <= |steps| && IsRun(policy, steps[..a]) && HeldScope(After(policy, steps[..a]), s)
    requires forall k :: a <= k < |steps| ==> !Resolves(steps[k], s)
    ensures HeldScope(After(policy, steps), s)
    decreases |steps|
  {
    if a == |steps| {
      assert steps[..a] == steps;
    } else {
      var before := steps[..|steps| - 1];
      assert before[..a] == steps[..a];
      HeldSince(policy, before, a, s);
      RunInvariants(policy, before);
      StaysHeld(policy, After(policy, before), steps[|steps| - 1], s);
    }
  }

  lemma SilenceHolds(policy: Policy, steps: seq<Step>, s: Step)
    requires IsRun(policy, steps) && Enabled(After(policy, steps), s)
    requires s.DoConclude? && ValidReturn(s.ret) && Silent(s.ret.ending)
    ensures HeldScope(Next(policy, After(policy, steps), s), After(policy, steps).live.value.phase.call.verdict.scope)
  {
    RunInvariants(policy, steps);
    RecordedAs(policy, After(policy, steps), After(policy, steps).live.value, s.ret, s.id, s.now);
  }

  lemma RunningIsFree(policy: Policy, steps: seq<Step>)
    requires IsRun(policy, steps) && Running(After(policy, steps))
    ensures !HeldScope(After(policy, steps), After(policy, steps).live.value.phase.call.verdict.scope)
  {
    AlwaysTracked(policy, steps);
  }

  /**
   * A side effect that is silent about its outcome holds its scope, in every
   * run: if a call is under way on that scope later, in this process or another,
   * a human resolved the outcome in between.
   */
  lemma SilenceHoldsTheScope(policy: Policy, steps: seq<Step>, a: nat) returns (k: nat)
    requires IsRun(policy, steps) && a < |steps| && IsRun(policy, steps[..a]) && Enabled(After(policy, steps[..a]), steps[a])
    requires steps[a].DoConclude? && ValidReturn(steps[a].ret) && Silent(steps[a].ret.ending)
    requires Running(After(policy, steps))
    requires After(policy, steps[..a]).live.value.phase.call.verdict.scope == After(policy, steps).live.value.phase.call.verdict.scope
    ensures a < k < |steps| && Resolves(steps[k], After(policy, steps).live.value.phase.call.verdict.scope)
  {
    var s := After(policy, steps).live.value.phase.call.verdict.scope;
    SilenceHolds(policy, steps[..a], steps[a]);
    RunningIsFree(policy, steps);
    if forall k :: a < k < |steps| ==> !Resolves(steps[k], s) {
      PartOfRun(policy, steps, a);
      HeldSince(policy, steps, a + 1, s);
      assert false;
    }
    k :| a < k < |steps| && Resolves(steps[k], s);
  }
}

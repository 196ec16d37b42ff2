/** The executor (src/policy/executor.mjs) over its gate, assurance store and event store. */
module Executors {
  import opened Wrappers
  import opened Json
  import opened Hashing
  import opened Events
  import opened Gates
  import opened Recovery
  import opened Pipeline
  import EventLog
  import EventStores
  import Approvals
  import AssuranceStores
  import EffectGates

  class Executor {
    const gate: EffectGates.EffectGate
    const assurance: AssuranceStores.AssuranceStore
    const store: EventStores.EventStore
    /** Scope to the unresolved unknown result that blocks it. */
    var unknownReservations: map<string, ExecResult>
    /** Proposal digest to its result. */
    var executedDigests: map<Digest, ExecResult>
    ghost var issued: map<string, Issue>
    ghost var history: seq<Happening>
    ghost var phase: Phase

    /** The state of the step system that this process is in. */
    ghost function View(): World
      reads this, gate, assurance, assurance.file, store
    {
      Pipeline.World(store.events, false, assurance.file.lines, Some(Process()), issued, history)
    }

    ghost function Process(): Live
      reads this, gate, assurance, store
    {
      Live(store.View(), assurance.View(), gate.nonces, executedDigests, unknownReservations, phase)
    }

    ghost predicate Valid()
      reads this, gate, assurance, assurance.file, store, store.file
    {
      gate.assurance == assurance && assurance.Valid() && store.Valid()
    }

    /** Rebuilds both guard maps from the log: a pass over all events, then over what is left pending. */
    constructor (gate: EffectGates.EffectGate, assurance: AssuranceStores.AssuranceStore, store: EventStores.EventStore,
                 ghost issued: map<string, Issue>, ghost history: seq<Happening>)
      requires gate.assurance == assurance && assurance.Valid() && store.Valid() && gate.nonces == {}
      ensures Valid() && this.gate == gate && this.assurance == assurance && this.store == store
      ensures this.issued == issued && this.history == history && phase == Idle
      ensures var g := Rebuild(store.events); executedDigests == g.executed && unknownReservations == g.unknown
    {
      this.gate, this.assurance, this.store := gate, assurance, store;
      this.issued, this.history, phase := issued, history, Idle;
      unknownReservations, executedDigests := map[], map[];
      new;
      var pendingReserves := ScanLog();
      SettlePending(pendingReserves);
    }

    method ScanLog() returns (pendingReserves: seq<Pending>)
      requires unknownReservations == map[] && executedDigests == map[]
      modifies this`unknownReservations, this`executedDigests
      ensures Guards(executedDigests, unknownReservations, pendingReserves) == ScanAll(store.events)
    {
      pendingReserves := [];
      var events := store.events;
      for i := 0 to |events|
        invariant Guards(executedDigests, unknownReservations, pendingReserves) == ScanAll(events[..i])
      {
        assert events[..i + 1][..i] == events[..i];
        var ev := events[i];
        match ev.event.body
        case Reserved(_, digest, _) =>
          pendingReserves := Put(pendingReserves, Pending(digest, ev));
        case Executed(result, scope) =>
          pendingReserves := Drop(pendingReserves, result.digest);
          executedDigests := executedDigests[result.digest := result];
          if result.outcome == "UNKNOWN" && scope != "" {
            unknownReservations := unknownReservations[scope := result];
          }
        case Reconciled(scope, _, _) =>
          unknownReservations := unknownReservations - {scope};
        case _ =>
      }
      assert events[..|events|] == events;
    }

    method SettlePending(pendingReserves: seq<Pending>)
      modifies this`unknownReservations, this`executedDigests
      ensures Guards(executedDigests, unknownReservations, [])
           == Settle(old(executedDigests), old(unknownReservations), pendingReserves)
    {
      assert pendingReserves[0..] == pendingReserves;
      for i := 0 to |pendingReserves|
        invariant Settle(executedDigests, unknownReservations, pendingReserves[i..])
               == Settle(old(executedDigests), old(unknownReservations), pendingReserves)
      {
        var pending := pendingReserves[i];
        assert pendingReserves[i..][1..] == pendingReserves[i + 1..];
        var synthesized := CrashResult(pending);
        var scope := ScopeOfPending(pending);
        executedDigests := executedDigests[pending.digest := synthesized];
        if scope != "" && scope !in unknownReservations {
          unknownReservations := unknownReservations[scope := synthesized];
        }
      }
    }

    /** Guards, nonce and approval, up to the point where the call may run. */
    method Admit(p: Value, v: Verdict, now: int) returns (error: Option<ExecError>)
      requires Valid() && p.Obj? && phase.Idle?
      modifies this`phase, gate`nonces, assurance, assurance.file
      ensures Valid() && (View(), error) == Begin(old(View()), old(Process()), p, v, now)
    {
      if v.kind != ALLOW {
        return Some(NotAllowed);
      }
      var unused := gate.ConsumeAllowNonce(v.nonce);
      if !unused {
        assert gate.nonces == old(gate.nonces);
        return Some(NonceInvalid);
      }
      var digest := DigestOf(p);
      if v.digest != Some(digest) {
        return Some(ProposalMutated);
      }
      if digest in executedDigests {
        return Some(AlreadyExecuted);
      }
      if v.scope in unknownReservations {
        return Some(ScopeReserved);
      }
      if GivenApproval(v.approvalId) {
        var a := assurance.ConsumeOnce(v.approvalId.value, digest, v.scope, now);
        if a.Err? {
          return Some(ApprovalRefused(a.error));
        }
        Approvals.ReplaySnoc(old(assurance.file.lines), Approvals.ConsumptionLine(v.approvalId.value, now));
      }
      phase := Admitted(Call(p, v, digest, now));
      error := None;
    }

    /** The write-ahead reservation of the call under way. */
    method WriteAhead(p: Value, v: Verdict, digest: Digest, now: int)
      requires Valid() && phase.Admitted? && phase.call.(at := 0) == Call(p, v, digest, 0)
      modifies this`phase, this`history, store, store.file
      ensures Valid() && View() == Reserve(old(View()), old(Process()), now)
    {
      var reservation := Event("executor", Some(ReserveKey(digest)), Reserved(ProposalId(p), digest, v.scope));
      var reserved := store.Append(reservation, now);
      if !reserved.value.1 {
        history := history + [Reserving(digest, v.scope)];
      }
      phase := Holding(phase.call);
    }

    /** The guards, then the final record. */
    method RecordResult(p: Value, v: Verdict, digest: Digest, result: ExecResult, now: int, ghost ending: Ending)
      requires Valid() && phase.InFlight? && phase.call.(at := 0) == Call(p, v, digest, 0)
      modifies this, store, store.file
      ensures Valid() && View() == Recorded(old(View()), old(Process()), ending, result, now)
    {
      phase := Idle;
      executedDigests := executedDigests[digest := result];
      if result.outcome == "UNKNOWN" {
        unknownReservations := unknownReservations[v.scope := result];
      }
      ghost var log, c := store.View(), old(phase.call);
      assert ResultEvent(c, result) == Event("executor", Some(ResultKey(digest)), Executed(result, v.scope));
      var recorded := store.Append(Event("executor", Some(ResultKey(digest)), Executed(result, v.scope)), now);
      assert store.View() == EventLog.Append(log, ResultEvent(c, result), now).value.log;
      history := history + [Finishing(digest, v.scope, ending)];
    }

    /** What follows the side effect: the result, its validation, the guards and the final record. */
    method Finish(p: Value, v: Verdict, digest: Digest, ret: PerformReturn, id: string, now: int)
      returns (r: Result<ExecResult, ExecError>)
      requires Valid() && phase.InFlight? && phase.call.(at := 0) == Call(p, v, digest, 0)
      modifies this, store, store.file
      ensures Valid() && (View(), r) == Conclude(old(View()), old(Process()), ret, id, now)
    {
      var outcome, detail := "UNKNOWN", None;
      match ret.ending {
        case ThrewUnreadable =>
          phase := Idle;
          return Err(MessageUnreadable);
        case Threw(message) => outcome, detail := "FAIL", Some("execution threw: " + message);
        case Returned(o, d) =>
          if o.Some? { outcome := o.value; }
          detail := d;
      }
      var result := ExecResult(id, ret.proposalId, digest, v.approvalId, outcome, now, detail, false);
      if !ValidResult(result) {
        phase := Idle;
        return Err(InvalidResult);
      }
      RecordResult(p, v, digest, result, now, ret.ending);
      r := Ok(result);
    }

    ghost method MarkInvoked()
      requires phase.Holding?
      modifies this`phase, this`history
      ensures View() == Perform(old(View()), old(Process())) && phase == InFlight(old(phase).call)
    {
      history := history + [Invoking(phase.call)];
      phase := InFlight(phase.call);
    }

    /** The admitted call: reservation first, then the side effect, then its result. */
    method RunCall(p: Value, v: Verdict, digest: Digest, perform: Value -> PerformReturn, id: string, t1: int, t2: int)
      returns (r: Result<ExecResult, ExecError>)
      requires Valid() && phase.Admitted? && phase.call.(at := 0) == Call(p, v, digest, 0)
      modifies this, store, store.file
      ensures Valid() && phase.Idle?
      ensures (View(), r) == RunAdmitted(old(View()), old(Process()), perform(p), id, t1, t2)
    {
      WriteAhead(p, v, digest, t1);
      MarkInvoked();
      var ret := perform(p);
      r := Finish(p, v, digest, ret, id, t2);
    }

    /**
     * `execute`: exactly the steps admit, reserve, perform, conclude, in this
     * order, or a refusal that leaves the side effect alone. `perform` is the
     * side effect; `t0`, `t1`, `t2` are the clock readings and `id` the result's id.
     */
    method Execute(p: Value, v: Verdict, perform: Value -> PerformReturn, id: string, t0: int, t1: int, t2: int)
      returns (r: Result<ExecResult, ExecError>)
      requires Valid() && p.Obj? && phase.Idle?
      modifies this, gate`nonces, assurance, assurance.file, store, store.file
      ensures Valid() && phase.Idle?
      ensures (View(), r) == Pipeline.Execute(old(View()), old(Process()), p, v, perform(p), id, t0, t1, t2)
    {
      var error := Admit(p, v, t0);
      if error.Some? {
        return Err(error.value);
      }
      r := RunCall(p, v, DigestOf(p), perform, id, t1, t2);
    }

    /** `reconcileUnknown`. */
    method ReconcileUnknown(scope: string, resolved: string, actor: Actor, role: string, now: int)
      returns (error: Option<ExecError>)
      requires Valid()
      modifies this`unknownReservations, this`history, store, store.file
      ensures Valid() && (View(), error) == Reconcile(old(View()), old(Process()), scope, resolved, actor, role, now)
    {
      if role != "human" {
        return Some(NotHuman);
      }
      if scope !in unknownReservations {
        return Some(NothingPending);
      }
      if !Resolution(resolved) {
        return Some(BadResolution);
      }
      var pending := unknownReservations[scope];
      unknownReservations := unknownReservations - {scope};
      var logged := store.Append(Event(Signature(actor), None, Reconciled(scope, pending.id, resolved)), now);
      if logged.Err? {
        return Some(NotLogged);
      }
      history := history + [Reconciling(scope)];
      error := None;
    }
  }

  lemma ExtendThree(policy: Policy, steps: seq<Step>, a: Step, b: Step, c: Step)
    requires IsRun(policy, steps) && Enabled(After(policy, steps), a) && Enabled(Next(policy, After(policy, steps), a), b)
    requires Enabled(Next(policy, Next(policy, After(policy, steps), a), b), c)
    ensures IsRun(policy, steps + [a, b, c])
    ensures After(policy, steps + [a, b, c]) == Next(policy, Next(policy, Next(policy, After(policy, steps), a), b), c)
  {
    Extend(policy, steps, a);
    Extend(policy, steps + [a], b);
    Extend(policy, steps + [a] + [b], c);
    assert steps + [a] + [b] + [c] == steps + [a, b, c];
  }

  lemma AdmittedSteps(policy: Policy, w: World, ret: PerformReturn, id: string, t1: int, t2: int)
    requires w.live.Some? && w.live.value.phase.Admitted? && id != ""
    ensures Enabled(w, DoReserve(t1)) && Enabled(Next(policy, w, DoReserve(t1)), DoPerform)
    ensures Enabled(Next(policy, Next(policy, w, DoReserve(t1)), DoPerform), DoConclude(ret, id, t2))
    ensures Next(policy, Next(policy, Next(policy, w, DoReserve(t1)), DoPerform), DoConclude(ret, id, t2))
         == RunAdmitted(w, w.live.value, ret, id, t1, t2).0
  {
  }

  /** The steps that follow an admitted call. */
  lemma AdmittedRuns(policy: Policy, steps: seq<Step>, ret: PerformReturn, id: string, t1: int, t2: int)
    requires IsRun(policy, steps) && id != ""
    requires After(policy, steps).live.Some? && After(policy, steps).live.value.phase.Admitted?
    ensures var more := steps + [DoReserve(t1), DoPerform, DoConclude(ret, id, t2)];
            && IsRun(policy, more)
            && var w := After(policy, steps);
               After(policy, more) == RunAdmitted(w, w.live.value, ret, id, t1, t2).0
  {
    AdmittedSteps(policy, After(policy, steps), ret, id, t1, t2);
    ExtendThree(policy, steps, DoReserve(t1), DoPerform, DoConclude(ret, id, t2));
  }

  lemma AdmittedPhase(w: World, l: Live, p: Value, v: Verdict, now: int)
    requires w.live == Some(l) && p.Obj? && Begin(w, l, p, v, now).1.None?
    ensures var next := Begin(w, l, p, v, now).0; next.live.Some? && next.live.value.phase.Admitted?
  {
  }

  lemma BeginRuns(policy: Policy, steps: seq<Step>, p: Value, v: Verdict, now: int)
    requires IsRun(policy, steps) && Enabled(After(policy, steps), DoBegin(p, v, now))
    ensures var w := After(policy, steps);
            IsRun(policy, steps + [DoBegin(p, v, now)]) && After(policy, steps + [DoBegin(p, v, now)]) == Begin(w, w.live.value, p, v, now).0
  {
    Extend(policy, steps, DoBegin(p, v, now));
  }

  lemma OneThenThree<T>(s: seq<T>, a: T, b: T, c: T, d: T)
    ensures s + [a] + [b, c, d] == s + [a, b, c, d]
  {
  }

  lemma ExecuteSplits(w: World, p: Value, v: Verdict, ret: PerformReturn, id: string, t0: int, t1: int, t2: int)
    requires w.live.Some? && p.Obj?
    ensures var (next, error) := Begin(w, w.live.value, p, v, t0);
            && (error.Some? ==> Pipeline.Execute(w, w.live.value, p, v, ret, id, t0, t1, t2).0 == next)
            && (error.None? ==>
                  && next.live.Some? && next.live.value.phase.Admitted?
                  && Pipeline.Execute(w, w.live.value, p, v, ret, id, t0, t1, t2).0 == RunAdmitted(next, next.live.value, ret, id, t1, t2).0)
  {
    if Begin(w, w.live.value, p, v, t0).1.None? { AdmittedPhase(w, w.live.value, p, v, t0); }
  }

  /**
   * A call of `execute` is a piece of a run: its four steps, or just the first
   * when it is refused. What is proved of all runs holds of the class.
   */
  lemma ExecuteIsRun(policy: Policy, steps: seq<Step>, p: Value, v: Verdict, ret: PerformReturn, id: string, t0: int, t1: int, t2: int)
    returns (more: seq<Step>)
    requires IsRun(policy, steps) && Enabled(After(policy, steps), DoBegin(p, v, t0)) && id != ""
    ensures IsRun(policy, steps + more)
    ensures var w := After(policy, steps);
            After(policy, steps + more) == Pipeline.Execute(w, w.live.value, p, v, ret, id, t0, t1, t2).0
    ensures more == [DoBegin(p, v, t0)] || more == [DoBegin(p, v, t0), DoReserve(t1), DoPerform, DoConclude(ret, id, t2)]
  {
    var w := After(policy, steps);
    BeginRuns(policy, steps, p, v, t0);
    ExecuteSplits(w, p, v, ret, id, t0, t1, t2);
    if Begin(w, w.live.value, p, v, t0).1.None? {
      AdmittedRuns(policy, steps + [DoBegin(p, v, t0)], ret, id, t1, t2);
      OneThenThree(steps, DoBegin(p, v, t0), DoReserve(t1), DoPerform, DoConclude(ret, id, t2));
      more := [DoBegin(p, v, t0), DoReserve(t1), DoPerform, DoConclude(ret, id, t2)];
    } else {
      more := [DoBegin(p, v, t0)];
    }
  }
}

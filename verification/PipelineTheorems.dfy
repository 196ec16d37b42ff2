/** The pipeline's guarantees over whole runs, and exactly when they hold. */
module PipelineTheorems {
  import opened Wrappers
  import opened Json
  import opened Hashing
  import opened Events
  import opened Gates
  import opened Pipeline
  import opened PipelineDurable
  import opened PipelineAuthority
  import opened PipelineGuards
  import opened Recovery
  import Approvals
  import EventLog

  // ---------------------------------------------------------------- at most once

  predicate NotInvoked(h: seq<Happening>, d: Digest) {
    forall i {:trigger h[i]} :: 0 <= i < |h| && h[i].Invoking? ==> h[i].call.digest != d
  }

  /** When every return is valid, nothing the log marks is missing from memory but the call under way. */
  predicate OneShot(w: World) {
    && AtMostOnce(w.history)
    && (w.live.Some? ==>
          DigestsOf(Seen(w).pending)
            <= w.live.value.executed.Keys + (if HasReserved(w) then {w.live.value.phase.call.digest} else {}))
    && (NotStarted(w) ==> NotInvoked(w.history, w.live.value.phase.call.digest))
  }

  /** A call the executor admitted is recorded exactly when what its side effect left behind is valid. */
  lemma RecordedIff(policy: Policy, w: World, l: Live, ret: PerformReturn, id: string, now: int)
    requires Authorized(policy, w) && w.live == Some(l) && l.phase.InFlight? && id != ""
    ensures Recordable(l.phase.call, ret, id, now) <==> ValidReturn(ret)
    ensures Conclude(w, l, ret, id, now).1.Ok? <==> ValidReturn(ret)
  {
    assert Lawful(policy, l.phase.call);
  }

  lemma UntouchedOneShot(w: World, next: World)
    requires OneShot(w) && GuardsUntouched(w, next)
    requires next.live.Some? ==> next.live.value.phase == w.live.value.phase
    ensures OneShot(next)
  {
    assert Seen(next) == Seen(w);
  }

  lemma TakenOneShot(policy: Policy, w: World, l: Live, c: Call, next: World)
    requires OneShot(w) && Tracked(policy, w) && w.live == Some(l) && l.phase.Idle? && Taken(w, l, c, next)
    ensures OneShot(next)
  {
    assert Seen(next) == Seen(w);
    forall i | 0 <= i < |w.history| && w.history[i].Invoking?
      ensures w.history[i].call.digest != c.digest
    {
      assert w.history[i].call.digest in Marked(w);
    }
  }

  lemma BeginOneShot(policy: Policy, w: World, l: Live, p: Value, v: Verdict, now: int)
    requires OneShot(w) && Tracked(policy, w) && w.live == Some(l) && l.phase.Idle? && p.Obj?
    ensures OneShot(Begin(w, l, p, v, now).0)
  {
    BeginShape(w, l, p, v, now);
    var (next, error) := Begin(w, l, p, v, now);
    if error.Some? {
      UntouchedOneShot(w, next);
    } else {
      TakenOneShot(policy, w, l, Call(p, v, DigestOf(p), now), next);
    }
  }

  lemma ReserveOneShot(w: World, l: Live, next: World)
    requires OneShot(w) && w.live == Some(l) && l.phase.Admitted? && ReservedFor(w, l, next)
    requires l.phase.call.digest !in l.executed
    ensures OneShot(next) && next.history == w.history + [Reserving(l.phase.call.digest, l.phase.call.verdict.scope)]
  {
    assert NotStarted(w);
  }

  lemma PerformOneShot(w: World, l: Live)
    requires OneShot(w) && w.live == Some(l) && l.phase.Holding?
    ensures OneShot(Perform(w, l))
  {
    assert Seen(Perform(w, l)) == Seen(w);
    assert NotStarted(w);
  }

  lemma ConcludeOneShot(policy: Policy, w: World, l: Live, ending: Ending, r: ExecResult, next: World)
    requires OneShot(w) && Tracked(policy, w) && w.live == Some(l) && l.phase.InFlight? && Concluded(w, l, ending, r, next)
    ensures OneShot(next)
  {
    ConcludeMarked(policy, w, l, ending, r, next);
  }

  lemma ReconcileOneShot(w: World, l: Live, scope: string, logged: bool, next: World)
    requires OneShot(w) && w.live == Some(l) && l.phase.Idle? && ReconciledAs(w, l, scope, logged, next)
    ensures OneShot(next)
  {
    assert Seen(next).pending == Seen(w).pending;
  }

  lemma RestartedOneShot(w: World, next: World)
    requires OneShot(w) && Restarted(w, next)
    ensures OneShot(next)
  {
  }

  lemma OthersUntouched(policy: Policy, w: World, s: Step)
    requires Enabled(w, s)
    requires s.Request? || s.Decide? || s.Evaluate? || s.Crash? || s.RestartCutShort?
    ensures var next := Next(policy, w, s);
            GuardsUntouched(w, next) && (next.live.Some? ==> next.live.value.phase == w.live.value.phase)
  {
  }

  lemma OthersOneShot(policy: Policy, w: World, s: Step)
    requires OneShot(w) && Enabled(w, s)
    requires s.Request? || s.Decide? || s.Evaluate? || s.Crash? || s.RestartCutShort?
    ensures OneShot(Next(policy, w, s))
  {
    OthersUntouched(policy, w, s);
    UntouchedOneShot(w, Next(policy, w, s));
  }

  lemma EndOneShot(policy: Policy, w: World, l: Live, ret: PerformReturn, id: string, now: int)
    requires Durable(w) && Authorized(policy, w) && Tracked(policy, w) && OneShot(w)
    requires w.live == Some(l) && l.phase.InFlight? && id != "" && ValidReturn(ret)
    ensures OneShot(Conclude(w, l, ret, id, now).0)
  {
    RecordedIff(policy, w, l, ret, id, now);
    ConcludeScan(policy, w, l, ret, id, now);
    ConcludeOneShot(policy, w, l, ret.ending, MakeResult(l.phase.call, ret, id, now), Conclude(w, l, ret, id, now).0);
  }

  lemma KeepsOneShot(policy: Policy, w: World, s: Step)
    requires Durable(w) && Authorized(policy, w) && Tracked(policy, w) && OneShot(w) && Enabled(w, s) && ReturnsValid(s)
    ensures OneShot(Next(policy, w, s))
  {
    match s
    case DoBegin(p, v, now) => BeginOneShot(policy, w, w.live.value, p, v, now);
    case DoReserve(now) =>
      ReserveScan(policy, w, w.live.value, now);
      ReserveOneShot(w, w.live.value, Reserve(w, w.live.value, now));
    case DoPerform => PerformOneShot(w, w.live.value);
    case DoConclude(ret, id, now) => EndOneShot(policy, w, w.live.value, ret, id, now);
    case DoReconcile(scope, resolved, actor, role, now) =>
      ReconcileScan(w, w.live.value, scope, resolved, actor, role, now);
      var (next, error) := Reconcile(w, w.live.value, scope, resolved, actor, role, now);
      ReconcileOneShot(w, w.live.value, scope, error.None?, next);
    case Restart(now) =>
      BootRestarts(w, now);
      RestartedOneShot(w, Boot(w, now));
    case _ => OthersOneShot(policy, w, s);
  }

  // ---------------------------------------------------------------- unknown outcomes hold their scope

  /** The reservations that nothing has settled yet. */
  function Open(h: seq<Happening>): set<(Digest, string)> {
    if h == [] then {}
    else
      var x := h[|h| - 1];
      var rest := set e | e in Open(h[..|h| - 1]) && !Settles(x, e.0, e.1);
      if x.Reserving? then rest + {(x.digest, x.scope)} else rest
  }

  lemma OpenSnoc(h: seq<Happening>, x: Happening)
    ensures Open(h + [x]) ==
              (set e | e in Open(h) && !Settles(x, e.0, e.1)) + (if x.Reserving? then {(x.digest, x.scope)} else {})
  {
    assert (h + [x])[..|h|] == h;
  }

  /** An unsettled reservation is open. */
  lemma {:induction false} UnsettledIsOpen(h: seq<Happening>, i: nat)
    requires i < |h| && h[i].Reserving?
    requires forall k :: i < k < |h| ==> !Settles(h[k], h[i].digest, h[i].scope)
    ensures (h[i].digest, h[i].scope) in Open(h)
    decreases |h|
  {
    var n := |h| - 1;
    if i < n {
      assert h[..n][i] == h[i];
      UnsettledIsOpen(h[..n], i);
    }
  }

  /** At this happening, if it is an invocation, its scope is open for no other proposal. */
  predicate HeldAt(h: seq<Happening>, j: nat)
    requires j < |h|
  {
    h[j].Invoking? ==>
      forall e :: e in Open(h[..j]) && e.1 == h[j].call.verdict.scope ==> e.0 == h[j].call.digest
  }

  predicate AllHeld(h: seq<Happening>) {
    forall j {:trigger HeldAt(h, j)} :: 0 <= j < |h| ==> HeldAt(h, j)
  }

  lemma AllHeldSnoc(h: seq<Happening>, x: Happening)
    requires AllHeld(h)
    requires x.Invoking? ==> forall e :: e in Open(h) && e.1 == x.call.verdict.scope ==> e.0 == x.call.digest
    ensures AllHeld(h + [x])
  {
    var more := h + [x];
    forall j | 0 <= j < |more|
      ensures HeldAt(more, j)
    {
      if j < |h| {
        assert HeldAt(h, j) && more[..j] == h[..j];
      } else {
        assert more[..j] == h;
      }
    }
  }

  lemma HeldMeansScopesHeld(h: seq<Happening>)
    requires AllHeld(h)
    ensures ScopesHeld(h)
  {
    forall i, j | 0 <= i < j < |h| && h[i].Reserving? && h[j].Invoking?
                  && h[i].scope == h[j].call.verdict.scope && h[i].digest != h[j].call.digest
      ensures exists k :: i < k < j && Settles(h[k], h[i].digest, h[i].scope)
    {
      if !exists k :: i < k < j && Settles(h[k], h[i].digest, h[i].scope) {
        assert HeldAt(h, j);
        UnsettledIsOpen(h[..j], i);
      }
    }
  }

  /** Memory, or else the log, blocks the scope of every open reservation. */
  predicate OpenBlocked(w: World) {
    forall e {:trigger e in Open(w.history)} :: e in Open(w.history) ==>
      if w.live.None? then e.1 in Blocked(w)
      else e.1 in w.live.value.unknown
           || (HasReserved(w) && e == (w.live.value.phase.call.digest, w.live.value.phase.call.verdict.scope))
  }

  predicate Held(w: World) {
    && AllHeld(w.history) && OpenBlocked(w)
    && (w.live.Some? ==> Seen(w).unknown.Keys <= w.live.value.unknown.Keys)
  }

  lemma UntouchedHeld(policy: Policy, w: World, next: World)
    requires Held(w) && Tracked(policy, w) && Durable(w) && GuardsUntouched(w, next)
    requires next.live.Some? ==> next.live.value.phase == w.live.value.phase
    ensures Held(next)
  {
    assert Seen(next) == Seen(w);
    if next.live.None? && w.live.Some? {
      ScanDistinct(w.disk);
      forall e | e in Open(w.history)
        ensures e.1 in Blocked(next)
      {
        if e.1 !in w.live.value.unknown {
          FindIff(Seen(w).pending, e.0);
        }
      }
    }
  }

  lemma BeginHeld(policy: Policy, w: World, l: Live, p: Value, v: Verdict, now: int)
    requires Held(w) && Tracked(policy, w) && Durable(w) && w.live == Some(l) && l.phase.Idle? && p.Obj?
    ensures Held(Begin(w, l, p, v, now).0)
  {
    BeginShape(w, l, p, v, now);
    var next := Begin(w, l, p, v, now).0;
    assert Seen(next) == Seen(w);
  }

  lemma ReserveHeld(w: World, l: Live, next: World)
    requires Held(w) && w.live == Some(l) && l.phase.Admitted? && ReservedFor(w, l, next)
    requires next.history == w.history + [Reserving(l.phase.call.digest, l.phase.call.verdict.scope)]
    ensures Held(next)
  {
    var c := l.phase.call;
    OpenSnoc(w.history, Reserving(c.digest, c.verdict.scope));
    AllHeldSnoc(w.history, Reserving(c.digest, c.verdict.scope));
  }

  lemma PerformHeld(policy: Policy, w: World, l: Live)
    requires Held(w) && Tracked(policy, w) && w.live == Some(l) && l.phase.Holding?
    ensures Held(Perform(w, l))
  {
    assert Seen(Perform(w, l)) == Seen(w);
    OpenSnoc(w.history, Invoking(l.phase.call));
    AllHeldSnoc(w.history, Invoking(l.phase.call));
  }

  lemma ConcludeHeld(w: World, l: Live, ending: Ending, r: ExecResult, next: World)
    requires Held(w) && w.live == Some(l) && l.phase.InFlight? && Concluded(w, l, ending, r, next)
    ensures Held(next)
  {
    var c := l.phase.call;
    OpenSnoc(w.history, Finishing(c.digest, c.verdict.scope, ending));
    AllHeldSnoc(w.history, Finishing(c.digest, c.verdict.scope, ending));
  }

  lemma ReconcileHeld(w: World, l: Live, scope: string, next: World)
    requires Held(w) && w.live == Some(l) && l.phase.Idle? && ReconciledAs(w, l, scope, true, next)
    ensures Held(next)
  {
    OpenSnoc(w.history, Reconciling(scope));
    AllHeldSnoc(w.history, Reconciling(scope));
  }

  lemma RestartedHeld(w: World, next: World)
    requires Held(w) && w.live.None? && Restarted(w, next)
    ensures Held(next)
  {
  }

  lemma OthersHeld(policy: Policy, w: World, s: Step)
    requires Held(w) && Tracked(policy, w) && Durable(w) && Enabled(w, s)
    requires s.Request? || s.Decide? || s.Evaluate? || s.Crash? || s.RestartCutShort?
    ensures Held(Next(policy, w, s))
  {
    OthersUntouched(policy, w, s);
    UntouchedHeld(policy, w, Next(policy, w, s));
  }

  lemma EndHeld(policy: Policy, w: World, l: Live, ret: PerformReturn, id: string, now: int)
    requires Durable(w) && Authorized(policy, w) && Tracked(policy, w) && Held(w)
    requires w.live == Some(l) && l.phase.InFlight? && id != "" && ValidReturn(ret)
    ensures Held(Conclude(w, l, ret, id, now).0)
  {
    RecordedIff(policy, w, l, ret, id, now);
    ConcludeScan(policy, w, l, ret, id, now);
    ConcludeHeld(w, l, ret.ending, MakeResult(l.phase.call, ret, id, now), Conclude(w, l, ret, id, now).0);
  }

  lemma ReserveStepHeld(policy: Policy, w: World, l: Live, now: int)
    requires Durable(w) && Tracked(policy, w) && OneShot(w) && Held(w) && w.live == Some(l) && l.phase.Admitted?
    ensures Held(Reserve(w, l, now))
  {
    ReserveScan(policy, w, l, now);
    ReserveOneShot(w, l, Reserve(w, l, now));
    ReserveHeld(w, l, Reserve(w, l, now));
  }

  lemma ReconcileStepHeld(policy: Policy, w: World, l: Live, scope: string, resolved: string, actor: Actor, role: string, now: int)
    requires Durable(w) && Tracked(policy, w) && Held(w) && w.live == Some(l) && l.phase.Idle? && Named(actor)
    ensures Held(Reconcile(w, l, scope, resolved, actor, role, now).0)
  {
    ReconcileScan(w, l, scope, resolved, actor, role, now);
    var (next, error) := Reconcile(w, l, scope, resolved, actor, role, now);
    if error.None? { ReconcileHeld(w, l, scope, next); }
  }

  lemma RestartHeld(policy: Policy, w: World, now: int)
    requires Durable(w) && Tracked(policy, w) && Held(w) && w.live.None?
    ensures Held(Boot(w, now))
  {
    BootRestarts(w, now);
    RestartedHeld(w, Boot(w, now));
  }

  lemma KeepsHeld(policy: Policy, w: World, s: Step)
    requires Durable(w) && Authorized(policy, w) && Tracked(policy, w) && OneShot(w) && Held(w)
    requires Enabled(w, s) && ReturnsValid(s) && ReconcilesNamed(s)
    ensures Held(Next(policy, w, s))
  {
    match s
    case DoBegin(p, v, now) => BeginHeld(policy, w, w.live.value, p, v, now);
    case DoReserve(now) => ReserveStepHeld(policy, w, w.live.value, now);
    case DoPerform => PerformHeld(policy, w, w.live.value);
    case DoConclude(ret, id, now) => EndHeld(policy, w, w.live.value, ret, id, now);
    case DoReconcile(scope, resolved, actor, role, now) =>
      ReconcileStepHeld(policy, w, w.live.value, scope, resolved, actor, role, now);
    case Restart(now) => RestartHeld(policy, w, now);
    case _ => OthersHeld(policy, w, s);
  }

  // ---------------------------------------------------------------- whole runs

  lemma {:induction false} AlwaysDurable(policy: Policy, steps: seq<Step>)
    requires IsRun(policy, steps)
    ensures Durable(After(policy, steps))
    decreases |steps|
  {
    if steps != [] {
      var before, s := steps[..|steps| - 1], steps[|steps| - 1];
      AlwaysDurable(policy, before);
      KeepsDurable(policy, After(policy, before), s);
    }
  }

  lemma {:induction false} AlwaysAuthorized(policy: Policy, steps: seq<Step>)
    requires IsRun(policy, steps)
    ensures Authorized(policy, After(policy, steps))
    decreases |steps|
  {
    if steps != [] {
      var before, s := steps[..|steps| - 1], steps[|steps| - 1];
      AlwaysDurable(policy, before);
      AlwaysAuthorized(policy, before);
      KeepsAuthority(policy, After(policy, before), s);
    }
  }

  lemma {:induction false} AlwaysTracked(policy: Policy, steps: seq<Step>)
    requires IsRun(policy, steps)
    ensures Tracked(policy, After(policy, steps))
    decreases |steps|
  {
    if steps != [] {
      var before, s := steps[..|steps| - 1], steps[|steps| - 1];
      AlwaysDurable(policy, before);
      AlwaysAuthorized(policy, before);
      AlwaysTracked(policy, before);
      KeepsTracked(policy, After(policy, before), s);
    }
  }

  lemma {:induction false} AlwaysOneShot(policy: Policy, steps: seq<Step>)
    requires IsRun(policy, steps) && AllReturnsValid(steps)
    ensures OneShot(After(policy, steps))
    decreases |steps|
  {
    if steps != [] {
      var before, s := steps[..|steps| - 1], steps[|steps| - 1];
      assert AllReturnsValid(before);
      AlwaysDurable(policy, before);
      AlwaysAuthorized(policy, before);
      AlwaysTracked(policy, before);
      AlwaysOneShot(policy, before);
      KeepsOneShot(policy, After(policy, before), s);
    }
  }

  lemma {:induction false} AlwaysHeld(policy: Policy, steps: seq<Step>)
    requires IsRun(policy, steps) && Disciplined(steps)
    ensures Held(After(policy, steps))
    decreases |steps|
  {
    if steps != [] {
      var before, s := steps[..|steps| - 1], steps[|steps| - 1];
      assert Disciplined(before) && AllReturnsValid(before);
      AlwaysDurable(policy, before);
      AlwaysAuthorized(policy, before);
      AlwaysTracked(policy, before);
      AlwaysOneShot(policy, before);
      AlwaysHeld(policy, before);
      KeepsHeld(policy, After(policy, before), s);
    }
  }

  /** The invariants hold after every run. */
  lemma RunInvariants(policy: Policy, steps: seq<Step>)
    requires IsRun(policy, steps)
    ensures var w := After(policy, steps);
            Durable(w) && Authorized(policy, w) && Tracked(policy, w)
    ensures AllReturnsValid(steps) ==> OneShot(After(policy, steps))
    ensures Disciplined(steps) ==> Held(After(policy, steps))
  {
    AlwaysDurable(policy, steps);
    AlwaysAuthorized(policy, steps);
    AlwaysTracked(policy, steps);
    if AllReturnsValid(steps) { AlwaysOneShot(policy, steps); }
    if Disciplined(steps) { AlwaysHeld(policy, steps); }
  }

  /**
   * At most once: in a run whose side effects only return what validates, with
   * crashes anywhere, no proposal digest is invoked twice.
   */
  lemma InvokedAtMostOnce(policy: Policy, steps: seq<Step>)
    requires IsRun(policy, steps) && AllReturnsValid(steps)
    ensures AtMostOnce(After(policy, steps).history)
  {
    RunInvariants(policy, steps);
  }

  /**
   * In every run each invocation ran a registered effect that is not forbidden,
   * on its canonical scope; if that effect, or the proposal's own stricter claim,
   * needs approval, a human approved exactly this digest and scope, the approval
   * was unexpired when it was consumed, and it backs no other invocation.
   */
  lemma EveryInvocationBacked(policy: Policy, steps: seq<Step>, i: nat)
    requires IsRun(policy, steps) && i < |After(policy, steps).history| && After(policy, steps).history[i].Invoking?
    ensures var w := After(policy, steps);
            var c := w.history[i].call;
            Lawful(policy, c) && Backed(w.assuranceLog, c)
    ensures ApprovalsDistinct(After(policy, steps).history) && VerdictsDistinct(After(policy, steps).history)
  {
    RunInvariants(policy, steps);
    var w := After(policy, steps);
    assert Accounted(policy, w, w.history[i].call);
    forall j, k | 0 <= j < k < |w.history| && w.history[j].Invoking? && w.history[k].Invoking?
      ensures w.history[j].call.verdict.nonce != w.history[k].call.verdict.nonce
      ensures GivenApproval(w.history[j].call.verdict.approvalId) ==>
                w.history[j].call.verdict.approvalId != w.history[k].call.verdict.approvalId
    {
      assert Apart(w.history[j].call, w.history[k].call);
    }
  }

  /** Between a reservation and its settlement nothing else runs on its scope, across any restarts. */
  lemma UnknownOutcomesHoldTheirScope(policy: Policy, steps: seq<Step>)
    requires IsRun(policy, steps) && Disciplined(steps)
    ensures ScopesHeld(After(policy, steps).history)
  {
    RunInvariants(policy, steps);
    HeldMeansScopesHeld(After(policy, steps).history);
  }

  /** What a process started after a crash of `w` blocks, next to what `w` blocked. */
  lemma RestartedKeys(policy: Policy, w: World, l: Live, next: World)
    requires Tracked(policy, w) && w.live == Some(l) && Restarted(w, next)
    ensures var n := next.live.value;
            && l.executed.Keys <= n.executed.Keys && l.unknown.Keys <= n.unknown.Keys
            && (OneShot(w) && l.phase.Idle? ==> n.executed.Keys == l.executed.Keys)
            && (Held(w) ==> n.unknown.Keys == l.unknown.Keys + ScopesOf(Seen(w).pending))
  {
  }

  /** A restart after a crash in any live state blocks at least what the process blocked. */
  lemma RestartNeverWeakens(policy: Policy, steps: seq<Step>, torn: bool, now: int)
    requires IsRun(policy, steps) && After(policy, steps).live.Some?
    ensures var w := After(policy, steps);
            var l, next := w.live.value, Boot(w.(live := None, torn := torn), now).live.value;
            && l.executed.Keys <= next.executed.Keys && l.unknown.Keys <= next.unknown.Keys
            && (AllReturnsValid(steps) && l.phase.Idle? ==> next.executed.Keys == l.executed.Keys)
            && (Disciplined(steps) ==> next.unknown.Keys == l.unknown.Keys + ScopesOf(Seen(w).pending))
            && (Disciplined(steps) && Seen(w).pending == [] ==> next.unknown.Keys == l.unknown.Keys)
  {
    RunInvariants(policy, steps);
    var w := After(policy, steps);
    var crashed := w.(live := None, torn := torn);
    BootRestarts(crashed, now);
    assert Restarted(w, Boot(crashed, now));
    RestartedKeys(policy, w, w.live.value, Boot(crashed, now));
  }
}

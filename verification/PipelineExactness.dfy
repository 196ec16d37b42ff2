/**
 * The conditions of the whole-run theorems are exact: whenever one is dropped,
 * there is a run that breaks the claim.
 */
module PipelineExactness {
  import opened Wrappers
  import opened Json
  import opened Hashing
  import opened Events
  import opened Gates
  import opened Pipeline
  import opened PipelineDurable
  import opened PipelineAuthority
  import opened PipelineGuards
  import opened PipelineTheorems
  import opened Recovery
  import EventLog
  import Approvals

  /** A proposal the gate allows without any approval. */
  predicate Free(policy: Policy, p: Value) {
    Wf(p) && Clear(policy, p, 0) && !NeedsApproval(policy.registry[ActionOf(p)], p)
  }

  function OwnScope(policy: Policy, p: Value): string
    requires Free(policy, p)
  {
    ScopeOf(policy.registry[ActionOf(p)], TargetOf(p))
  }

  /** The verdict the gate gives it. */
  function FreeVerdict(policy: Policy, p: Value, nonce: string): Verdict
    requires Free(policy, p)
  {
    Verdict(ALLOW, Admissible, 0, OwnScope(policy, p), Some(DigestOf(p)), nonce, None, Some(EffectiveOf(policy.registry[ActionOf(p)], p)))
  }

  lemma GateAllowsFree(policy: Policy, store: Approvals.Store, p: Value, nonce: string)
    requires Free(policy, p)
    ensures Gates.Evaluate(policy, store, p, None, nonce, 0) == FreeVerdict(policy, p, nonce)
  {
  }

  /** Evaluate, admit and reserve a free proposal. */
  function CallSteps(policy: Policy, p: Value, nonce: string): seq<Step>
    requires Free(policy, p)
  {
    [Evaluate(p, None, nonce, 0), DoBegin(p, FreeVerdict(policy, p, nonce), 0), DoReserve(0)]
  }

  /** Nothing in the process stands in its way. */
  predicate CanCall(policy: Policy, w: World, p: Value, nonce: string)
    requires Free(policy, p)
  {
    && w.live.Some? && w.live.value.phase.Idle? && nonce !in w.issued
    && DigestOf(p) !in w.live.value.executed && OwnScope(policy, p) !in w.live.value.unknown
  }

  lemma Extend2(policy: Policy, steps: seq<Step>, s: Step, t: Step)
    requires IsRun(policy, steps) && Enabled(After(policy, steps), s)
    requires Enabled(Next(policy, After(policy, steps), s), t)
    ensures IsRun(policy, steps + [s, t])
    ensures After(policy, steps + [s, t]) == Next(policy, Next(policy, After(policy, steps), s), t)
  {
    Extend(policy, steps, s);
    Extend(policy, steps + [s], t);
    assert steps + [s] + [t] == steps + [s, t];
  }

  /** The world when a free proposal has just been evaluated and admitted. */
  function AdmittedWorld(policy: Policy, w: World, p: Value, nonce: string): World
    requires Free(policy, p) && w.live.Some?
  {
    var v := FreeVerdict(policy, p, nonce);
    w.(issued := w.issued[nonce := Issue(v, p)],
       live := Some(w.live.value.(nonces := w.live.value.nonces + {nonce} - {nonce},
                                  phase := Admitted(Call(p, v, DigestOf(p), 0)))))
  }

  lemma CallIsAdmitted(policy: Policy, w: World, p: Value, nonce: string)
    requires Free(policy, p) && CanCall(policy, w, p, nonce)
    ensures var s, t := Evaluate(p, None, nonce, 0), DoBegin(p, FreeVerdict(policy, p, nonce), 0);
            && Enabled(w, s) && Enabled(Next(policy, w, s), t)
            && Next(policy, Next(policy, w, s), t) == AdmittedWorld(policy, w, p, nonce)
  {
    GateAllowsFree(policy, w.live.value.assurance, p, nonce);
  }

  /** What a free call leaves behind once its reservation is written. */
  predicate HoldsCall(policy: Policy, w: World, p: Value, nonce: string, next: World)
    requires Free(policy, p) && w.live.Some?
  {
    && next.live.Some?
    && next.live.value.phase == Holding(Call(p, FreeVerdict(policy, p, nonce), DigestOf(p), 0))
    && next.live.value.executed == w.live.value.executed && next.live.value.unknown == w.live.value.unknown
    && next.issued.Keys == w.issued.Keys + {nonce}
    && (next.history == w.history + [Reserving(DigestOf(p), OwnScope(policy, p))]
        || (next.history == w.history && DigestOf(p) in DigestsOf(Seen(w).pending)))
  }

  lemma ReservedHolds(policy: Policy, w: World, p: Value, nonce: string, next: World)
    requires Free(policy, p) && w.live.Some?
    requires var a := AdmittedWorld(policy, w, p, nonce);
             ReservedFor(a, a.live.value, next) && next.issued == a.issued
    ensures HoldsCall(policy, w, p, nonce, next)
  {
    assert Seen(AdmittedWorld(policy, w, p, nonce)) == Seen(w);
  }

  lemma CallReachesAdmitted(policy: Policy, steps: seq<Step>, p: Value, nonce: string)
    requires IsRun(policy, steps) && Free(policy, p) && CanCall(policy, After(policy, steps), p, nonce)
    ensures var more := steps + CallSteps(policy, p, nonce)[..2];
            IsRun(policy, more) && After(policy, more) == AdmittedWorld(policy, After(policy, steps), p, nonce)
  {
    var s, t := Evaluate(p, None, nonce, 0), DoBegin(p, FreeVerdict(policy, p, nonce), 0);
    CallIsAdmitted(policy, After(policy, steps), p, nonce);
    Extend2(policy, steps, s, t);
    assert CallSteps(policy, p, nonce)[..2] == [s, t];
  }

  lemma AdmittedHolds(policy: Policy, w: World, p: Value, nonce: string)
    requires Free(policy, p) && w.live.Some?
    requires var a := AdmittedWorld(policy, w, p, nonce); Durable(a) && Tracked(policy, a)
    ensures var a := AdmittedWorld(policy, w, p, nonce); HoldsCall(policy, w, p, nonce, Reserve(a, a.live.value, 0))
  {
    var a := AdmittedWorld(policy, w, p, nonce);
    ReserveScan(policy, a, a.live.value, 0);
    ReservedHolds(policy, w, p, nonce, Reserve(a, a.live.value, 0));
  }

  lemma CallHolds(policy: Policy, steps: seq<Step>, p: Value, nonce: string)
    requires IsRun(policy, steps) && Free(policy, p) && CanCall(policy, After(policy, steps), p, nonce)
    ensures IsRun(policy, steps + CallSteps(policy, p, nonce))
    ensures HoldsCall(policy, After(policy, steps), p, nonce, After(policy, steps + CallSteps(policy, p, nonce)))
  {
    var more := steps + CallSteps(policy, p, nonce)[..2];
    assert steps + CallSteps(policy, p, nonce) == more + [DoReserve(0)];
    CallReachesAdmitted(policy, steps, p, nonce);
    RunInvariants(policy, more);
    AdmittedHolds(policy, After(policy, steps), p, nonce);
    Extend(policy, more, DoReserve(0));
  }

  /** The first start, on an empty disk. */
  lemma FirstBoot(policy: Policy)
    ensures IsRun(policy, [Restart(0)])
    ensures var w := After(policy, [Restart(0)]);
            && w.live.Some? && w.live.value.phase.Idle? && w.live.value.executed == map[] && w.live.value.unknown == map[]
            && w.issued == map[] && w.history == [] && Seen(w).pending == []
  {
    assert [] + [Restart(0)] == [Restart(0)];
    Extend(policy, [], Restart(0));
  }

  /** A start, and one free proposal whose side effect has begun. */
  function OneCall(policy: Policy, p: Value): seq<Step>
    requires Free(policy, p)
  {
    [Restart(0)] + CallSteps(policy, p, "1")
  }

  lemma OneCallHolds(policy: Policy, p: Value)
    requires Free(policy, p)
    ensures IsRun(policy, OneCall(policy, p))
    ensures var w := After(policy, OneCall(policy, p));
            && w.live.Some? && w.live.value.executed == map[] && w.live.value.unknown == map[] && w.issued.Keys == {"1"}
            && w.live.value.phase == Holding(Call(p, FreeVerdict(policy, p, "1"), DigestOf(p), 0))
            && w.history == [Reserving(DigestOf(p), OwnScope(policy, p))]
  {
    FirstBoot(policy);
    CallHolds(policy, [Restart(0)], p, "1");
  }

  // ---------------------------------------------------------------- an invalid end of the side effect breaks both claims

  /** The side effect ran, and what it left behind could not be recorded: the executor forgets it. */
  function Forgotten(policy: Policy, p: Value, ret: PerformReturn): seq<Step>
    requires Free(policy, p)
  {
    OneCall(policy, p) + [DoPerform] + [DoConclude(ret, "x", 0)]
  }

  /** A side effect that leaves behind what cannot be recorded leaves the process idle and its maps as they were. */
  lemma InvalidConclude(policy: Policy, w: World, c: Call, ret: PerformReturn)
    requires w.live.Some? && w.live.value.phase == Holding(c) && !ValidReturn(ret)
    ensures Enabled(w, DoPerform) && Enabled(Next(policy, w, DoPerform), DoConclude(ret, "x", 0))
    ensures var l, next := w.live.value, Next(policy, Next(policy, w, DoPerform), DoConclude(ret, "x", 0));
            && next.live.Some? && next.live.value.phase.Idle? && next.live.value.executed == l.executed && next.live.value.unknown == l.unknown
            && next.issued == w.issued && next.history == w.history + [Invoking(c)]
  {
  }

  lemma InvalidReturnIsForgotten(policy: Policy, p: Value, ret: PerformReturn)
    requires Free(policy, p) && !ValidReturn(ret)
    ensures IsRun(policy, Forgotten(policy, p, ret))
    ensures var w := After(policy, Forgotten(policy, p, ret));
            && w.live.Some? && w.live.value.phase.Idle? && w.live.value.executed == map[] && w.live.value.unknown == map[]
            && w.issued.Keys == {"1"}
            && w.history == [Reserving(DigestOf(p), OwnScope(policy, p)),
                             Invoking(Call(p, FreeVerdict(policy, p, "1"), DigestOf(p), 0))]
  {
    var one := OneCall(policy, p);
    OneCallHolds(policy, p);
    InvalidConclude(policy, After(policy, one), Call(p, FreeVerdict(policy, p, "1"), DigestOf(p), 0), ret);
    Extend(policy, one, DoPerform);
    Extend(policy, one + [DoPerform], DoConclude(ret, "x", 0));
  }

  /** Then another free proposal, or the same one again, is invoked. */
  function InvokedAfter(policy: Policy, before: seq<Step>, q: Value): seq<Step>
    requires Free(policy, q)
  {
    before + CallSteps(policy, q, "2") + [DoPerform]
  }

  lemma InvokesAfter(policy: Policy, before: seq<Step>, q: Value)
    requires IsRun(policy, before) && Free(policy, q) && CanCall(policy, After(policy, before), q, "2")
    ensures IsRun(policy, InvokedAfter(policy, before, q))
    ensures var h, more := After(policy, before).history, After(policy, InvokedAfter(policy, before, q)).history;
            var c := Call(q, FreeVerdict(policy, q, "2"), DigestOf(q), 0);
            more == h + [Invoking(c)] || more == h + [Reserving(DigestOf(q), OwnScope(policy, q)), Invoking(c)]
  {
    CallHolds(policy, before, q, "2");
    Extend(policy, before + CallSteps(policy, q, "2"), DoPerform);
    var h := After(policy, before).history;
    var c := Call(q, FreeVerdict(policy, q, "2"), DigestOf(q), 0);
    assert h + [Reserving(DigestOf(q), OwnScope(policy, q))] + [Invoking(c)]
        == h + [Reserving(DigestOf(q), OwnScope(policy, q)), Invoking(c)];
  }

  /** The same free proposal is invoked twice in one process lifetime. */
  lemma InvokedTwice(policy: Policy, p: Value, ret: PerformReturn)
    requires Free(policy, p) && !ValidReturn(ret)
    ensures var steps := InvokedAfter(policy, Forgotten(policy, p, ret), p);
            IsRun(policy, steps) && !AtMostOnce(After(policy, steps).history)
  {
    InvalidReturnIsForgotten(policy, p, ret);
    InvokesAfter(policy, Forgotten(policy, p, ret), p);
    var h := After(policy, InvokedAfter(policy, Forgotten(policy, p, ret), p)).history;
    assert h[1].Invoking? && h[|h| - 1].Invoking? && h[1].call.digest == h[|h| - 1].call.digest;
  }

  /** A proposal runs on a scope whose earlier occurrence nobody settled. */
  lemma ScopeNotHeld(policy: Policy, p: Value, q: Value, before: seq<Step>)
    requires Free(policy, p) && Free(policy, q) && OwnScope(policy, p) == OwnScope(policy, q) && DigestOf(p) != DigestOf(q)
    requires IsRun(policy, before) && CanCall(policy, After(policy, before), q, "2")
    requires var h := After(policy, before).history;
             && |h| > 0 && h[0] == Reserving(DigestOf(p), OwnScope(policy, p))
             && forall k :: 0 <= k < |h| ==> !Settles(h[k], DigestOf(p), OwnScope(policy, p))
    ensures var steps := InvokedAfter(policy, before, q);
            IsRun(policy, steps) && !ScopesHeld(After(policy, steps).history)
  {
    InvokesAfter(policy, before, q);
    var h := After(policy, InvokedAfter(policy, before, q)).history;
    InvokedUnsettled(h, |After(policy, before).history|, DigestOf(p), OwnScope(policy, p));
  }

  /** An invocation at the end of a history whose beginning reserved its scope for another proposal and never settled that. */
  lemma InvokedUnsettled(h: seq<Happening>, n: nat, digest: Digest, scope: string)
    requires 0 < n <= |h| - 1 && h[0] == Reserving(digest, scope)
    requires forall k :: 0 <= k < n ==> !Settles(h[k], digest, scope)
    requires forall k :: n <= k < |h| - 1 ==> !Settles(h[k], digest, scope)
    requires h[|h| - 1].Invoking? && h[|h| - 1].call.verdict.scope == scope && h[|h| - 1].call.digest != digest
    ensures !ScopesHeld(h)
  {
    var j := |h| - 1;
    assert h[0].Reserving? && h[j].Invoking? && h[0].scope == h[j].call.verdict.scope && h[0].digest != h[j].call.digest;
  }

  // ---------------------------------------------------------------- a reconciliation that cannot be logged

  /** A crash leaves the scope blocked; a nameless reconciliation frees it in memory only. */
  function FreedUnlogged(policy: Policy, p: Value, a: Actor): seq<Step>
    requires Free(policy, p)
  {
    OneCall(policy, p) + [Crash(false), Restart(0)] + [DoReconcile(OwnScope(policy, p), "SUCCESS", a, "human", 0)]
  }

  lemma PendingAfterOneCall(policy: Policy, w: World, p: Value)
    requires Free(policy, p) && Tracked(policy, w) && OneShot(w) && w.live.Some?
    requires w.live.value.executed == map[] && w.live.value.phase == Holding(Call(p, FreeVerdict(policy, p, "1"), DigestOf(p), 0))
    ensures Marked(w) == {DigestOf(p)} && OwnScope(policy, p) in Blocked(w)
  {
    FindIff(Seen(w).pending, DigestOf(p));
  }

  lemma FreedWorld(policy: Policy, w: World, p: Value, a: Actor)
    requires Free(policy, p) && !Named(a) && w.live.Some? && w.live.value.phase.Idle? && OwnScope(policy, p) in w.live.value.unknown
    ensures var s := DoReconcile(OwnScope(policy, p), "SUCCESS", a, "human", 0);
            Enabled(w, s)
            && Next(policy, w, s) == w.(live := Some(w.live.value.(unknown := w.live.value.unknown - {OwnScope(policy, p)})))
  {
  }

  lemma CrashAndRestart(policy: Policy, steps: seq<Step>)
    requires IsRun(policy, steps) && After(policy, steps).live.Some?
    ensures IsRun(policy, steps + [Crash(false), Restart(0)])
    ensures var w, next := After(policy, steps), After(policy, steps + [Crash(false), Restart(0)]);
            Restarted(w, next) && next.issued == w.issued
  {
    var w := After(policy, steps);
    RunInvariants(policy, steps);
    Extend2(policy, steps, Crash(false), Restart(0));
    var dead := w.(live := None, torn := false);
    KeepsDurable(policy, w, Crash(false));
    BootRestarts(dead, 0);
    assert Seen(dead) == Seen(w);
  }

  /** After the crash and the restart, before anybody reconciles. */
  predicate StillBlocked(policy: Policy, w: World, p: Value)
    requires Free(policy, p)
  {
    && w.live.Some? && w.live.value.phase.Idle? && w.live.value.executed.Keys == {DigestOf(p)}
    && OwnScope(policy, p) in w.live.value.unknown && w.issued.Keys == {"1"}
    && w.history == [Reserving(DigestOf(p), OwnScope(policy, p))]
  }

  lemma OneCallOneShot(policy: Policy, p: Value)
    requires Free(policy, p)
    ensures IsRun(policy, OneCall(policy, p))
    ensures var w := After(policy, OneCall(policy, p)); Tracked(policy, w) && OneShot(w)
  {
    var one := OneCall(policy, p);
    OneCallHolds(policy, p);
    assert AllReturnsValid(one);
    RunInvariants(policy, one);
  }

  lemma OneCallIsPending(policy: Policy, p: Value)
    requires Free(policy, p)
    ensures IsRun(policy, OneCall(policy, p))
    ensures var w := After(policy, OneCall(policy, p)); Marked(w) == {DigestOf(p)} && OwnScope(policy, p) in Blocked(w)
  {
    OneCallHolds(policy, p);
    OneCallOneShot(policy, p);
    PendingAfterOneCall(policy, After(policy, OneCall(policy, p)), p);
  }

  lemma CrashBlocks(policy: Policy, p: Value)
    requires Free(policy, p)
    ensures var again := OneCall(policy, p) + [Crash(false), Restart(0)];
            IsRun(policy, again) && StillBlocked(policy, After(policy, again), p)
  {
    OneCallHolds(policy, p);
    OneCallIsPending(policy, p);
    CrashAndRestart(policy, OneCall(policy, p));
  }

  lemma NamelessReconciliationFrees(policy: Policy, p: Value, a: Actor)
    requires Free(policy, p) && !Named(a)
    ensures IsRun(policy, FreedUnlogged(policy, p, a))
    ensures var w := After(policy, FreedUnlogged(policy, p, a));
            && w.live.Some? && w.live.value.phase.Idle? && w.live.value.executed.Keys == {DigestOf(p)}
            && OwnScope(policy, p) !in w.live.value.unknown && w.issued.Keys == {"1"}
            && w.history == [Reserving(DigestOf(p), OwnScope(policy, p))]
  {
    var again := OneCall(policy, p) + [Crash(false), Restart(0)];
    CrashBlocks(policy, p);
    FreedWorld(policy, After(policy, again), p, a);
    Extend(policy, again, DoReconcile(OwnScope(policy, p), "SUCCESS", a, "human", 0));
  }

  // ---------------------------------------------------------------- the exact conditions

  /** Every return in the run is one of those allowed. */
  ghost predicate ReturnsFrom(allowed: PerformReturn -> bool, steps: seq<Step>) {
    forall i :: 0 <= i < |steps| && steps[i].DoConclude? ==> allowed(steps[i].ret)
  }

  ghost predicate ActorsFrom(allowed: Actor -> bool, steps: seq<Step>) {
    forall i :: 0 <= i < |steps| && steps[i].DoReconcile? ==> allowed(steps[i].who)
  }

  /** No run that draws its returns from `allowed` invokes a digest twice. */
  ghost predicate OneShotUnder(policy: Policy, allowed: PerformReturn -> bool) {
    forall steps :: IsRun(policy, steps) && ReturnsFrom(allowed, steps) ==> AtMostOnce(After(policy, steps).history)
  }

  /** No run that draws its returns and reconciling actors from these sets lets an unsettled scope be used. */
  ghost predicate HoldsUnder(policy: Policy, allowed: PerformReturn -> bool, actors: Actor -> bool) {
    forall steps :: IsRun(policy, steps) && ReturnsFrom(allowed, steps) && ActorsFrom(actors, steps) ==>
      ScopesHeld(After(policy, steps).history)
  }

  ghost predicate Draws(allowed: PerformReturn -> bool, actors: Actor -> bool, steps: seq<Step>) {
    ReturnsFrom(allowed, steps) && ActorsFrom(actors, steps)
  }

  lemma DrawsJoined(allowed: PerformReturn -> bool, actors: Actor -> bool, a: seq<Step>, b: seq<Step>)
    requires Draws(allowed, actors, a) && Draws(allowed, actors, b)
    ensures Draws(allowed, actors, a + b)
  {
  }

  lemma CallDraws(policy: Policy, allowed: PerformReturn -> bool, actors: Actor -> bool, p: Value, nonce: string)
    requires Free(policy, p)
    ensures Draws(allowed, actors, CallSteps(policy, p, nonce)) && Draws(allowed, actors, [DoPerform]) && Draws(allowed, actors, [Restart(0)])
  {
  }

  lemma OneCallDraws(policy: Policy, allowed: PerformReturn -> bool, actors: Actor -> bool, p: Value)
    requires Free(policy, p)
    ensures Draws(allowed, actors, OneCall(policy, p))
  {
    CallDraws(policy, allowed, actors, p, "1");
    DrawsJoined(allowed, actors, [Restart(0)], CallSteps(policy, p, "1"));
  }

  lemma InvokedDraws(policy: Policy, allowed: PerformReturn -> bool, actors: Actor -> bool, before: seq<Step>, q: Value)
    requires Free(policy, q) && Draws(allowed, actors, before)
    ensures Draws(allowed, actors, InvokedAfter(policy, before, q))
  {
    CallDraws(policy, allowed, actors, q, "2");
    DrawsJoined(allowed, actors, before, CallSteps(policy, q, "2"));
    DrawsJoined(allowed, actors, before + CallSteps(policy, q, "2"), [DoPerform]);
  }

  lemma DrawsForgotten(policy: Policy, allowed: PerformReturn -> bool, actors: Actor -> bool, p: Value, r: PerformReturn, q: Value)
    requires Free(policy, p) && Free(policy, q) && allowed(r)
    ensures Draws(allowed, actors, InvokedAfter(policy, Forgotten(policy, p, r), q))
  {
    var one := OneCall(policy, p);
    OneCallDraws(policy, allowed, actors, p);
    DrawsJoined(allowed, actors, one, [DoPerform]);
    DrawsJoined(allowed, actors, one + [DoPerform], [DoConclude(r, "x", 0)]);
    InvokedDraws(policy, allowed, actors, Forgotten(policy, p, r), q);
  }

  lemma DrawsFreed(policy: Policy, allowed: PerformReturn -> bool, actors: Actor -> bool, p: Value, a: Actor, q: Value)
    requires Free(policy, p) && Free(policy, q) && actors(a)
    ensures Draws(allowed, actors, InvokedAfter(policy, FreedUnlogged(policy, p, a), q))
  {
    var one, reconciled := OneCall(policy, p), DoReconcile(OwnScope(policy, p), "SUCCESS", a, "human", 0);
    OneCallDraws(policy, allowed, actors, p);
    DrawsJoined(allowed, actors, one, [Crash(false), Restart(0)]);
    DrawsJoined(allowed, actors, one + [Crash(false), Restart(0)], [reconciled]);
    InvokedDraws(policy, allowed, actors, FreedUnlogged(policy, p, a), q);
  }

  lemma InvalidReturnRepeats(policy: Policy, allowed: PerformReturn -> bool, p: Value, r: PerformReturn)
    requires Free(policy, p) && allowed(r) && !ValidReturn(r)
    ensures !OneShotUnder(policy, allowed)
  {
    var steps := InvokedAfter(policy, Forgotten(policy, p, r), p);
    InvokedTwice(policy, p, r);
    DrawsForgotten(policy, allowed, (a: Actor) => true, p, r, p);
    assert IsRun(policy, steps) && !AtMostOnce(After(policy, steps).history);
  }

  /**
   * Exactly when execution is one-shot: for any policy that lets some effect
   * through without approval, no run repeats an invocation if and only if the
   * side effects leave the proposal its id, return what validates, and throw
   * nothing but what has a readable message.
   */
  lemma OneShotIff(policy: Policy, allowed: PerformReturn -> bool, p: Value)
    requires Free(policy, p)
    ensures OneShotUnder(policy, allowed) <==> forall r :: allowed(r) ==> ValidReturn(r)
  {
    if forall r :: allowed(r) ==> ValidReturn(r) {
      forall steps | IsRun(policy, steps) && ReturnsFrom(allowed, steps)
        ensures AtMostOnce(After(policy, steps).history)
      {
        InvokedAtMostOnce(policy, steps);
      }
    } else {
      var r :| allowed(r) && !ValidReturn(r);
      InvalidReturnRepeats(policy, allowed, p, r);
    }
  }

  /** Two free proposals on one scope, told apart by their digests. */
  predicate Rivals(policy: Policy, p: Value, q: Value) {
    Free(policy, p) && Free(policy, q) && OwnScope(policy, p) == OwnScope(policy, q) && DigestOf(p) != DigestOf(q)
  }

  lemma InvalidReturnReleases(policy: Policy, allowed: PerformReturn -> bool, actors: Actor -> bool,
                              p: Value, q: Value, r: PerformReturn)
    requires Rivals(policy, p, q) && allowed(r) && !ValidReturn(r)
    ensures !HoldsUnder(policy, allowed, actors)
  {
    var steps := InvokedAfter(policy, Forgotten(policy, p, r), q);
    InvalidReturnIsForgotten(policy, p, r);
    ScopeNotHeld(policy, p, q, Forgotten(policy, p, r));
    DrawsForgotten(policy, allowed, actors, p, r, q);
    assert IsRun(policy, steps) && !ScopesHeld(After(policy, steps).history);
  }

  lemma NamelessActorReleases(policy: Policy, allowed: PerformReturn -> bool, actors: Actor -> bool, p: Value, q: Value, a: Actor)
    requires Rivals(policy, p, q) && actors(a) && !Named(a)
    ensures !HoldsUnder(policy, allowed, actors)
  {
    var steps := InvokedAfter(policy, FreedUnlogged(policy, p, a), q);
    NamelessReconciliationFrees(policy, p, a);
    ScopeNotHeld(policy, p, q, FreedUnlogged(policy, p, a));
    DrawsFreed(policy, allowed, actors, p, a, q);
    assert IsRun(policy, steps) && !ScopesHeld(After(policy, steps).history);
  }

  /**
   * Exactly when unknown outcomes hold their scope: what the side effects leave
   * behind is valid, and every reconciling actor has a name the log can record.
   */
  lemma HoldsIff(policy: Policy, allowed: PerformReturn -> bool, actors: Actor -> bool, p: Value, q: Value)
    requires Rivals(policy, p, q)
    ensures HoldsUnder(policy, allowed, actors) <==> (forall r :: allowed(r) ==> ValidReturn(r)) && (forall a :: actors(a) ==> Named(a))
  {
    if exists r :: allowed(r) && !ValidReturn(r) {
      var r :| allowed(r) && !ValidReturn(r);
      InvalidReturnReleases(policy, allowed, actors, p, q, r);
    } else if exists a :: actors(a) && !Named(a) {
      var a :| actors(a) && !Named(a);
      NamelessActorReleases(policy, allowed, actors, p, q, a);
    } else {
      forall steps | IsRun(policy, steps) && ReturnsFrom(allowed, steps) && ActorsFrom(actors, steps)
        ensures ScopesHeld(After(policy, steps).history)
      {
        UnknownOutcomesHoldTheirScope(policy, steps);
      }
    }
  }
}

/**
 * The executor's guards against the log: what memory blocks, a reload of the
 * log blocks too, and every invocation left its mark on disk first.
 */
module PipelineGuards {
  import opened Wrappers
  import opened Json
  import opened Hashing
  import opened Events
  import opened Gates
  import opened Pipeline
  import opened PipelineDurable
  import opened PipelineAuthority
  import opened Recovery
  import EventLog

  // ---------------------------------------------------------------- the log as the executor reads it

  function Seen(w: World): Guards {
    ScanAll(w.disk)
  }

  /** Every digest the log has reserved or recorded. */
  function Marked(w: World): set<Digest> {
    Seen(w).executed.Keys + DigestsOf(Seen(w).pending)
  }

  /** Every scope a reload would block. */
  function Blocked(w: World): set<string> {
    Seen(w).unknown.Keys + ScopesOf(Seen(w).pending)
  }

  /** An event marks the digest it reserves, and unmarks none. */
  lemma ScanMarks(g: Guards, r: Record, d: Digest)
    requires Distinct(g.pending)
    requires d in g.executed.Keys + DigestsOf(g.pending) || (r.event.body.Reserved? && r.event.body.digest == d)
    ensures d in Scan(g, r).executed.Keys + DigestsOf(Scan(g, r).pending)
  {
    match r.event.body
    case Reserved(_, digest, _) => PutKeys(g.pending, Pending(digest, r));
    case Executed(result, _) => DropKeys(g.pending, result.digest);
    case _ =>
  }

  lemma {:induction false} ReservationIsMarked(events: seq<Record>, i: nat)
    requires i < |events| && events[i].event.body.Reserved?
    ensures events[i].event.body.digest in ScanAll(events).executed.Keys + DigestsOf(ScanAll(events).pending)
  {
    var n := |events| - 1;
    var p := events[..n];
    ScanDistinct(p);
    if i < n {
      assert p[i] == events[i];
      ReservationIsMarked(p, i);
    }
    ScanMarks(ScanAll(p), events[n], events[i].event.body.digest);
  }

  lemma {:induction false} ResultIsSeen(events: seq<Record>, i: nat)
    requires i < |events| && events[i].event.body.Executed?
    ensures events[i].event.body.result.digest in ScanAll(events).executed
  {
    var n := |events| - 1;
    if i < n {
      assert events[..n][i] == events[i];
      ResultIsSeen(events[..n], i);
    }
  }

  lemma KeysTellKind(d: Digest, e: Digest)
    ensures ReserveKey(d) == ReserveKey(e) ==> d == e
    ensures ResultKey(d) == ResultKey(e) ==> d == e
    ensures ReserveKey(d) != ResultKey(e)
  {
    if ReserveKey(d) == ReserveKey(e) {
      assert ReserveKey(d)[|"exec-reserve:"|..] == d.text;
      assert ReserveKey(e)[|"exec-reserve:"|..] == e.text;
    }
    if ResultKey(d) == ResultKey(e) {
      assert ResultKey(d)[|"exec:"|..] == d.text;
      assert ResultKey(e)[|"exec:"|..] == e.text;
    }
    assert ReserveKey(d)[4] == '-' && ResultKey(e)[4] == ':';
  }

  /** A reservation is answered from the index only if the log marked its digest before. */
  lemma ReplayedReserve(w: World, log: EventLog.Log, d: Digest)
    requires KeysFit(w.disk) && EventLog.Valid(log) && log.events == w.disk && ReserveKey(d) in log.byKey
    ensures d in Marked(w)
  {
    var r := log.byKey[ReserveKey(d)];
    assert EventLog.EntryOk(log, ReserveKey(d));
    assert r in w.disk;
    var i :| 0 <= i < |w.disk| && w.disk[i] == r;
    assert KeyFits(w.disk[i]);
    if r.event.body.Reserved? {
      KeysTellKind(d, r.event.body.digest);
      ReservationIsMarked(w.disk, i);
    } else if r.event.body.Executed? {
      KeysTellKind(d, r.event.body.result.digest);
    }
  }

  /** A final record is answered from the index only if the log has one for its digest. */
  lemma ReplayedResult(w: World, log: EventLog.Log, d: Digest)
    requires KeysFit(w.disk) && EventLog.Valid(log) && log.events == w.disk && ResultKey(d) in log.byKey
    ensures d in Seen(w).executed
  {
    var r := log.byKey[ResultKey(d)];
    assert EventLog.EntryOk(log, ResultKey(d));
    assert r in w.disk;
    var i :| 0 <= i < |w.disk| && w.disk[i] == r;
    assert KeyFits(w.disk[i]);
    if r.event.body.Executed? {
      KeysTellKind(d, r.event.body.result.digest);
      ResultIsSeen(w.disk, i);
    } else if r.event.body.Reserved? {
      KeysTellKind(r.event.body.digest, d);
    }
  }

  // ---------------------------------------------------------------- a digest has one scope

  /** Some proposal with this digest has this canonical scope. */
  ghost predicate ScopeFits(policy: Policy, d: Digest, s: string) {
    exists p :: FitsBy(policy, p, d, s)
  }

  predicate FitsBy(policy: Policy, p: Value, d: Digest, s: string) {
    && Wf(p) && p.Obj? && IsText(Get(p, "action")) && IsText(Get(p, "target")) && IsText(Get(p, "id"))
    && DigestOf(p) == d && ActionOf(p) in policy.registry
    && s == ScopeOf(policy.registry[ActionOf(p)], TargetOf(p))
  }

  lemma OneScope(policy: Policy, d: Digest, s: string, t: string)
    requires ScopeFits(policy, d, s) && ScopeFits(policy, d, t)
    ensures s == t
  {
    var p :| FitsBy(policy, p, d, s);
    var q :| FitsBy(policy, q, d, t);
    SameDigestSameDemands(p, q);
  }

  /** The executed call's proposal fits the scope of its verdict. */
  lemma IssueFits(policy: Policy, n: string, x: Issue)
    requires IssueOk(policy, n, x)
    ensures x.verdict.digest.Some? && ScopeFits(policy, x.verdict.digest.value, x.verdict.scope)
  {
    assert FitsBy(policy, x.proposal, DigestOf(x.proposal), x.verdict.scope);
  }

  // ---------------------------------------------------------------- the invariant

  ghost predicate PendingFits(policy: Policy, w: World) {
    forall d, s {:trigger PendingOn(Seen(w).pending, d, s)} :: PendingOn(Seen(w).pending, d, s) ==> ScopeFits(policy, d, s)
  }

  predicate InvokedMarked(w: World) {
    forall i {:trigger w.history[i]} :: 0 <= i < |w.history| && w.history[i].Invoking? ==>
      w.history[i].call.digest in Marked(w)
  }

  /** Digests stay marked, and only the steps that start a call add invocations. */
  lemma StillMarked(w: World, next: World)
    requires InvokedMarked(w) && Marked(w) <= Marked(next)
    requires |next.history| >= |w.history| && next.history[..|w.history|] == w.history
    requires forall i :: |w.history| <= i < |next.history| ==> !next.history[i].Invoking?
    ensures InvokedMarked(next)
  {
    forall i | 0 <= i < |next.history| && next.history[i].Invoking?
      ensures next.history[i].call.digest in Marked(next)
    {
      assert next.history[i] == w.history[i];
    }
  }

  predicate HasReserved(w: World) {
    w.live.Some? && (w.live.value.phase.Holding? || w.live.value.phase.InFlight?)
  }

  /** Memory lies between what the log records as final and all it marks. */
  predicate Between(w: World, l: Live) {
    && Seen(w).executed.Keys <= l.executed.Keys <= Marked(w)
    && l.unknown.Keys <= Blocked(w)
  }

  ghost predicate Tracked(policy: Policy, w: World) {
    && PendingFits(policy, w) && InvokedMarked(w)
    && (w.live.Some? ==> Between(w, w.live.value))
    && (Running(w) ==>
          var l := w.live.value;
          && l.phase.call.digest !in l.executed && l.phase.call.verdict.scope !in l.unknown
          && l.phase.call.verdict.scope != ""
          && ScopeFits(policy, l.phase.call.digest, l.phase.call.verdict.scope))
    && (HasReserved(w) ==> PendingOn(Seen(w).pending, w.live.value.phase.call.digest, w.live.value.phase.call.verdict.scope))
  }

  /** Steps that touch neither the log nor the guards, and start nothing. */
  predicate GuardsUntouched(w: World, next: World) {
    && next.disk == w.disk && next.history == w.history
    && (next.live.Some? ==>
          && w.live.Some? && next.live.value.executed == w.live.value.executed && next.live.value.unknown == w.live.value.unknown
          && (next.live.value.phase == w.live.value.phase || next.live.value.phase.Idle?))
  }

  lemma UntouchedTracked(policy: Policy, w: World, next: World)
    requires Tracked(policy, w) && GuardsUntouched(w, next)
    ensures Tracked(policy, next)
  {
    assert Seen(next) == Seen(w);
  }

  lemma TakenTracked(policy: Policy, w: World, l: Live, c: Call, next: World)
    requires Tracked(policy, w) && Authorized(policy, w) && w.live == Some(l) && Taken(w, l, c, next)
    requires c.verdict.nonce in w.issued && w.issued[c.verdict.nonce].verdict == c.verdict
    ensures Tracked(policy, next)
  {
    assert Seen(next) == Seen(w);
    assert IssueOk(policy, c.verdict.nonce, w.issued[c.verdict.nonce]);
    IssueFits(policy, c.verdict.nonce, w.issued[c.verdict.nonce]);
  }

  // ---------------------------------------------------------------- the write-ahead reservation

  /**
   * The reservation is in the log, new or from before, and pending on the
   * call's scope; memory is as it was.
   */
  predicate ReservedFor(w: World, l: Live, next: World)
    requires l.phase.Admitted?
  {
    var c := l.phase.call;
    var was, now := Seen(w), Seen(next);
    && next.live.Some? && next.live.value.phase == Holding(c)
    && next.live.value.executed == l.executed && next.live.value.unknown == l.unknown
    && (next.history == w.history + [Reserving(c.digest, c.verdict.scope)]
        || (next.history == w.history && c.digest in DigestsOf(was.pending)))
    && PendingOn(now.pending, c.digest, c.verdict.scope)
    && now.executed == was.executed && now.unknown == was.unknown
    && DigestsOf(now.pending) == DigestsOf(was.pending) + {c.digest}
    && ScopesOf(was.pending) <= ScopesOf(now.pending)
  }

  /** Only the call's own reservation is new. */
  ghost predicate OthersPendingBefore(w: World, c: Call, next: World) {
    forall d, s {:trigger PendingOn(Seen(next).pending, d, s)} ::
      PendingOn(Seen(next).pending, d, s) && d != c.digest ==> PendingOn(Seen(w).pending, d, s)
  }

  lemma PutKeepsScopes(policy: Policy, w: World, c: Call, r: Record)
    requires PendingFits(policy, w) && ScopeFits(policy, c.digest, c.verdict.scope)
    requires Distinct(Seen(w).pending) && ScopeOfPending(Pending(c.digest, r)) == c.verdict.scope
    ensures ScopesOf(Seen(w).pending) <= ScopesOf(Put(Seen(w).pending, Pending(c.digest, r)))
  {
    var ps := Seen(w).pending;
    ScopesNotEmpty(ps);
    forall s | s in ScopesOf(ps)
      ensures s in ScopesOf(Put(ps, Pending(c.digest, r)))
    {
      if PendingOn(ps, c.digest, s) {
        OneScope(policy, c.digest, c.verdict.scope, s);
      }
      PutScopes(ps, Pending(c.digest, r), s);
    }
  }

  /** Memory after the reservation step. */
  predicate HoldsNow(l: Live, next: World)
    requires l.phase.Admitted?
  {
    && next.live.Some? && next.live.value.phase == Holding(l.phase.call)
    && next.live.value.executed == l.executed && next.live.value.unknown == l.unknown
  }

  lemma ReservedBefore(policy: Policy, w: World, l: Live, next: World)
    requires Tracked(policy, w) && w.live == Some(l) && l.phase.Admitted? && l.phase.call.digest in Marked(w)
    requires HoldsNow(l, next) && Seen(next) == Seen(w) && next.history == w.history
    ensures ReservedFor(w, l, next)
  {
    var c := l.phase.call;
    var ps := Seen(w).pending;
    FindIff(ps, c.digest);
    assert PendingOn(ps, c.digest, ScopeOfPending(Find(ps, c.digest).value));
    OneScope(policy, c.digest, c.verdict.scope, ScopeOfPending(Find(ps, c.digest).value));
  }

  lemma ReservedNow(policy: Policy, w: World, l: Live, r: Record, next: World)
    requires Tracked(policy, w) && w.live == Some(l) && l.phase.Admitted? && r.event == ReserveEvent(l.phase.call)
    requires HoldsNow(l, next) && Seen(next) == Scan(Seen(w), r) && Distinct(Seen(w).pending)
    requires next.history == w.history + [Reserving(l.phase.call.digest, l.phase.call.verdict.scope)]
    ensures ReservedFor(w, l, next) && OthersPendingBefore(w, l.phase.call, next)
  {
    var c := l.phase.call;
    PutKeys(Seen(w).pending, Pending(c.digest, r));
    PutKeepsScopes(policy, w, c, r);
  }

  lemma ReserveScan(policy: Policy, w: World, l: Live, now: int)
    requires Durable(w) && Tracked(policy, w) && w.live == Some(l) && l.phase.Admitted?
    ensures ReservedFor(w, l, Reserve(w, l, now)) && OthersPendingBefore(w, l.phase.call, Reserve(w, l, now))
  {
    var next := Reserve(w, l, now);
    var a := EventLog.Append(l.log, ReserveEvent(l.phase.call), now).value;
    AppendDurable(w, ReserveEvent(l.phase.call), now);
    if a.replayed {
      ReplayedReserve(w, l.log, l.phase.call.digest);
      ReservedBefore(policy, w, l, next);
    } else {
      ScanSnoc(w.disk, a.record);
      ScanDistinct(w.disk);
      ReservedNow(policy, w, l, a.record, next);
    }
  }

  lemma {:induction false} ScopesNotEmpty(ps: seq<Pending>)
    ensures "" !in ScopesOf(ps)
  {
    if ps != [] {
      ScopesNotEmpty(ps[1..]);
    }
  }

  lemma ReserveTracked(policy: Policy, w: World, l: Live, next: World)
    requires Tracked(policy, w) && w.live == Some(l) && l.phase.Admitted?
    requires ReservedFor(w, l, next) && OthersPendingBefore(w, l.phase.call, next)
    ensures Tracked(policy, next)
  {
    var c := l.phase.call;
    forall d, s | PendingOn(Seen(next).pending, d, s)
      ensures ScopeFits(policy, d, s)
    {
      if d != c.digest { assert PendingOn(Seen(w).pending, d, s); }
    }
    StillMarked(w, next);
  }

  lemma PerformTracked(policy: Policy, w: World, l: Live)
    requires Durable(w) && Tracked(policy, w) && w.live == Some(l) && l.phase.Holding?
    ensures Tracked(policy, Perform(w, l))
  {
    var next := Perform(w, l);
    assert Seen(next) == Seen(w);
    FindIff(Seen(w).pending, l.phase.call.digest);
    forall i | 0 <= i < |next.history| && next.history[i].Invoking?
      ensures next.history[i].call.digest in Marked(next)
    {
      if i < |w.history| { assert next.history[i] == w.history[i]; }
    }
  }

  // ---------------------------------------------------------------- the final record

  /** The result is the log's final record for the call, and in the guard maps; it holds the scope unless the side effect told. */
  predicate Concluded(w: World, l: Live, ending: Ending, r: ExecResult, next: World)
    requires l.phase.InFlight?
  {
    var c := l.phase.call;
    var was, now := Seen(w), Seen(next);
    && next.live.Some? && next.live.value.phase.Idle?
    && next.live.value.executed == l.executed[c.digest := r]
    && next.live.value.unknown == (if Tells(ending) then l.unknown else l.unknown[c.verdict.scope := r])
    && next.history == w.history + [Finishing(c.digest, c.verdict.scope, ending)]
    && now.executed == was.executed[c.digest := r]
    && now.unknown == (if Tells(ending) then was.unknown else was.unknown[c.verdict.scope := r])
    && now.pending == Drop(was.pending, c.digest) && Distinct(was.pending)
  }

  /** The final record is new to the log. */
  lemma RecordedScan(policy: Policy, w: World, l: Live, ending: Ending, r: ExecResult, now: int)
    requires Durable(w) && Tracked(policy, w) && w.live == Some(l) && l.phase.InFlight?
    requires r.digest == l.phase.call.digest && (r.outcome == "UNKNOWN" <==> !Tells(ending))
    ensures Concluded(w, l, ending, r, Recorded(w, l, ending, r, now))
  {
    var c := l.phase.call;
    var a := EventLog.Append(l.log, ResultEvent(c, r), now).value;
    AppendDurable(w, ResultEvent(c, r), now);
    ScanDistinct(w.disk);
    if a.replayed {
      ReplayedResult(w, l.log, c.digest);
      assert false;
    }
    ScanSnoc(w.disk, a.record);
  }

  lemma ConcludeScan(policy: Policy, w: World, l: Live, ret: PerformReturn, id: string, now: int)
    requires Durable(w) && Tracked(policy, w) && w.live == Some(l) && l.phase.InFlight?
    requires Recordable(l.phase.call, ret, id, now)
    ensures Concluded(w, l, ret.ending, MakeResult(l.phase.call, ret, id, now), Conclude(w, l, ret, id, now).0)
  {
    RecordedScan(policy, w, l, ret.ending, MakeResult(l.phase.call, ret, id, now), now);
  }

  /** Recording a result frees no scope but the call's own. */
  lemma ConcludeBlocked(policy: Policy, w: World, l: Live, ending: Ending, r: ExecResult, next: World, s: string)
    requires Tracked(policy, w) && w.live == Some(l) && l.phase.InFlight? && Concluded(w, l, ending, r, next)
    requires s in Blocked(w) && s != l.phase.call.verdict.scope
    ensures s in Blocked(next)
  {
    ScopesNotEmpty(Seen(w).pending);
    if s in ScopesOf(Seen(w).pending) {
      DropScopes(Seen(w).pending, l.phase.call.digest, s);
    }
  }

  lemma ConcludePendingFits(policy: Policy, w: World, l: Live, ending: Ending, r: ExecResult, next: World)
    requires PendingFits(policy, w) && l.phase.InFlight? && Concluded(w, l, ending, r, next)
    ensures PendingFits(policy, next)
  {
    var c := l.phase.call;
    DropKeys(Seen(w).pending, c.digest);
    forall d, s | PendingOn(Seen(next).pending, d, s)
      ensures ScopeFits(policy, d, s)
    {
      FindIff(Seen(next).pending, d);
      assert PendingOn(Seen(w).pending, d, s);
    }
  }

  lemma ConcludeMarked(policy: Policy, w: World, l: Live, ending: Ending, r: ExecResult, next: World)
    requires Tracked(policy, w) && w.live == Some(l) && l.phase.InFlight? && Concluded(w, l, ending, r, next)
    ensures Marked(next) == Marked(w)
    ensures DigestsOf(Seen(next).pending) == DigestsOf(Seen(w).pending) - {l.phase.call.digest}
  {
    FindIff(Seen(w).pending, l.phase.call.digest);
    DropKeys(Seen(w).pending, l.phase.call.digest);
  }

  lemma ConcludeTracked(policy: Policy, w: World, l: Live, ending: Ending, r: ExecResult, next: World)
    requires Tracked(policy, w) && w.live == Some(l) && l.phase.InFlight? && Concluded(w, l, ending, r, next)
    ensures Tracked(policy, next)
  {
    var c := l.phase.call;
    ConcludePendingFits(policy, w, l, ending, r, next);
    ConcludeMarked(policy, w, l, ending, r, next);
    FindIff(Seen(w).pending, c.digest);
    forall s | s in next.live.value.unknown
      ensures s in Blocked(next)
    {
      if s != c.verdict.scope { ConcludeBlocked(policy, w, l, ending, r, next, s); }
    }
    StillMarked(w, next);
  }

  // ---------------------------------------------------------------- reconciliation and restart

  /** The scope left memory, and the log too when the event could be written. */
  predicate ReconciledAs(w: World, l: Live, scope: string, logged: bool, next: World) {
    && Seen(next) == (if logged then Seen(w).(unknown := Seen(w).unknown - {scope}) else Seen(w))
    && next.live.Some?
    && (next == w || next.live.value.unknown == l.unknown - {scope})
    && (logged ==> next.live.value.unknown == l.unknown - {scope})
    && next.live.value.executed == l.executed && next.live.value.phase == l.phase
    && next.history == (if logged then w.history + [Reconciling(scope)] else w.history)
  }

  lemma ReconcileScan(w: World, l: Live, scope: string, resolved: string, actor: Actor, role: string, now: int)
    requires Durable(w) && w.live == Some(l)
    ensures var (next, error) := Reconcile(w, l, scope, resolved, actor, role, now);
            ReconciledAs(w, l, scope, error.None?, next) && (Named(actor) && error.Some? ==> next == w)
  {
    if role == "human" && scope in l.unknown && Resolution(resolved) && Named(actor) {
      var e := Event(Signature(actor), None, Reconciled(scope, l.unknown[scope].id, resolved));
      AppendDurable(w, e, now);
      ScanSnoc(w.disk, EventLog.Append(l.log, e, now).value.record);
    }
  }

  lemma ReconcileTracked(policy: Policy, w: World, l: Live, scope: string, logged: bool, next: World)
    requires Tracked(policy, w) && w.live == Some(l) && l.phase.Idle? && ReconciledAs(w, l, scope, logged, next)
    ensures Tracked(policy, next)
  {
    assert Seen(next).pending == Seen(w).pending;
    StillMarked(w, next);
  }

  /** A process that has just started: no call, and exactly what the log marks and blocks. */
  predicate Restarted(w: World, next: World) {
    && next.history == w.history && Seen(next) == Seen(w)
    && next.live.Some? && next.live.value.phase.Idle?
    && next.live.value.executed.Keys == Marked(w) && next.live.value.unknown.Keys == Blocked(w)
  }

  lemma BootRestarts(w: World, now: int)
    requires Durable(w) && w.live.None?
    ensures Restarted(w, Boot(w, now))
  {
    BootDurable(w, now);
    if w.torn {
      ScanSnoc(w.disk, Record(EventLog.RecoveryEvent(1), EventLog.LastNumber(w.disk) + 1, now));
    }
    RebuildKeys(Boot(w, now).disk);
  }

  lemma RestartedTracked(policy: Policy, w: World, next: World)
    requires Tracked(policy, w) && Restarted(w, next)
    ensures Tracked(policy, next)
  {
    StillMarked(w, next);
  }

  // ---------------------------------------------------------------- every step

  lemma BeginTracked(policy: Policy, w: World, l: Live, p: Value, v: Verdict, now: int)
    requires Tracked(policy, w) && Authorized(policy, w) && w.live == Some(l) && p.Obj?
    requires v.kind == ALLOW ==> v.nonce in w.issued && w.issued[v.nonce].verdict == v
    ensures Tracked(policy, Begin(w, l, p, v, now).0)
  {
    BeginShape(w, l, p, v, now);
    var (next, error) := Begin(w, l, p, v, now);
    if error.Some? {
      UntouchedTracked(policy, w, next);
    } else {
      TakenTracked(policy, w, l, Call(p, v, DigestOf(p), now), next);
    }
  }

  lemma OthersTracked(policy: Policy, w: World, s: Step)
    requires Tracked(policy, w) && Enabled(w, s)
    requires s.Request? || s.Decide? || s.Evaluate? || s.Crash? || s.RestartCutShort?
    ensures Tracked(policy, Next(policy, w, s))
  {
    UntouchedTracked(policy, w, Next(policy, w, s));
  }

  lemma EndTracked(policy: Policy, w: World, l: Live, ret: PerformReturn, id: string, now: int)
    requires Durable(w) && Tracked(policy, w) && w.live == Some(l) && l.phase.InFlight?
    ensures Tracked(policy, Conclude(w, l, ret, id, now).0)
  {
    var next := Conclude(w, l, ret, id, now).0;
    if Recordable(l.phase.call, ret, id, now) {
      ConcludeScan(policy, w, l, ret, id, now);
      ConcludeTracked(policy, w, l, ret.ending, MakeResult(l.phase.call, ret, id, now), next);
    } else {
      UntouchedTracked(policy, w, next);
    }
  }

  lemma KeepsTracked(policy: Policy, w: World, s: Step)
    requires Durable(w) && Authorized(policy, w) && Tracked(policy, w) && Enabled(w, s)
    ensures Tracked(policy, Next(policy, w, s))
  {
    match s
    case DoBegin(p, v, now) => BeginTracked(policy, w, w.live.value, p, v, now);
    case DoReserve(now) =>
      ReserveScan(policy, w, w.live.value, now);
      ReserveTracked(policy, w, w.live.value, Reserve(w, w.live.value, now));
    case DoPerform => PerformTracked(policy, w, w.live.value);
    case DoConclude(ret, id, now) => EndTracked(policy, w, w.live.value, ret, id, now);
    case DoReconcile(scope, resolved, actor, role, now) =>
      ReconcileScan(w, w.live.value, scope, resolved, actor, role, now);
      var (next, error) := Reconcile(w, w.live.value, scope, resolved, actor, role, now);
      ReconcileTracked(policy, w, w.live.value, scope, error.None?, next);
    case Restart(now) =>
      BootRestarts(w, now);
      RestartedTracked(policy, w, Boot(w, now));
    case _ => OthersTracked(policy, w, s);
  }
}

/** Invariants of every run: what is on disk, and that memory agrees with it. */
module PipelineDurable {
  import opened Wrappers
  import opened Hashing
  import opened Events
  import opened Pipeline
  import Approvals
  import EventLog
  import Json
  import opened Gates
  import Recovery

  /** Reservations and results are keyed by their digest; nothing else is keyed. */
  predicate KeyFits(r: Record) {
    match r.event.body
    case Reserved(_, d, _) => r.event.key == Some(ReserveKey(d))
    case Executed(result, _) => r.event.key == Some(ResultKey(result.digest))
    case _ => r.event.key == None
  }

  predicate KeysFit(disk: seq<Record>) {
    forall i {:trigger disk[i]} :: 0 <= i < |disk| ==> KeyFits(disk[i])
  }

  predicate HumansDecide(lines: seq<Approvals.Line>) {
    forall i {:trigger lines[i]} :: 0 <= i < |lines| && lines[i].DecisionLine? ==> lines[i].decision.role == "human"
  }

  /** The disk is a valid log, and a live process holds exactly what a reload would give. */
  ghost predicate Durable(w: World) {
    && EventLog.ValidLines(w.disk) && KeysFit(w.disk) && HumansDecide(w.assuranceLog)
    && (w.live.Some? ==>
          && !w.torn && EventLog.Valid(w.live.value.log) && w.live.value.log.events == w.disk
          && w.live.value.assurance == Approvals.Replay(w.assuranceLog))
  }

  lemma KeysFitSnoc(disk: seq<Record>, r: Record)
    requires KeysFit(disk) && KeyFits(r)
    ensures KeysFit(disk + [r])
  {
  }

  lemma AppendDurable(w: World, e: Event, now: int)
    requires Durable(w) && w.live.Some? && EventLog.Append(w.live.value.log, e, now).Ok?
    requires KeyFits(Record(e, 0, 0))
    ensures var a := EventLog.Append(w.live.value.log, e, now).value;
            && EventLog.Valid(a.log) && KeysFit(a.log.events)
            && a.log.events == (if a.replayed then w.disk else w.disk + [a.record])
            && (!a.replayed ==> a.record.event == e)
  {
    var log := w.live.value.log;
    var a := EventLog.Append(log, e, now).value;
    EventLog.AppendKeepsShape(log, e, now);
    if !a.replayed {
      KeysFitSnoc(w.disk, a.record);
    }
  }

  lemma BootDurable(w: World, now: int)
    requires Durable(w) && w.live.None?
    ensures Durable(Boot(w, now))
    ensures Boot(w, now).disk ==
              if w.torn then w.disk + [Record(EventLog.RecoveryEvent(1), EventLog.LastNumber(w.disk) + 1, now)] else w.disk
  {
    EventLog.ReopenOfValid(w.disk, w.torn, now);
    if w.torn {
      KeysFitSnoc(w.disk, Record(EventLog.RecoveryEvent(1), EventLog.LastNumber(w.disk) + 1, now));
    }
  }

  lemma HumansSnoc(lines: seq<Approvals.Line>, line: Approvals.Line)
    requires HumansDecide(lines) && (line.DecisionLine? ==> line.decision.role == "human")
    ensures HumansDecide(lines + [line])
  {
  }

  lemma AssuranceLineDurable(w: World, line: Approvals.Line, next: World)
    requires Durable(w) && w.live.Some? && (line.DecisionLine? ==> line.decision.role == "human")
    requires next.disk == w.disk && next.torn == w.torn && next.assuranceLog == w.assuranceLog + [line]
    requires next.live.Some? && next.live.value.log == w.live.value.log
    requires next.live.value.assurance == Approvals.Apply(w.live.value.assurance, line)
    ensures Durable(next)
  {
    HumansSnoc(w.assuranceLog, line);
    Approvals.ReplaySnoc(w.assuranceLog, line);
  }

  /** The durable state and its mirrors in memory are untouched. */
  predicate SameDurable(w: World, next: World) {
    && next.disk == w.disk && next.torn == w.torn && next.assuranceLog == w.assuranceLog
    && w.live.Some? && next.live.Some?
    && next.live.value.log == w.live.value.log && next.live.value.assurance == w.live.value.assurance
  }

  lemma SameStaysDurable(w: World, next: World)
    requires Durable(w) && SameDurable(w, next)
    ensures Durable(next)
  {
  }

  /** A refused call loses at most the verdict's nonce. */
  predicate Refused(w: World, l: Live, next: World) {
    && next.live.Some? && next.live.value.nonces <= l.nonces
    && next == w.(live := Some(l.(nonces := next.live.value.nonces)))
  }

  /** An admitted call passed every guard, spent its nonce, and consumed its approval if it has one. */
  predicate Taken(w: World, l: Live, c: Call, next: World) {
    var given := GivenApproval(c.verdict.approvalId);
    && c.proposal.Obj? && c.digest == DigestOf(c.proposal) && c.verdict.digest == Some(c.digest)
    && c.verdict.kind == ALLOW && c.verdict.nonce in l.nonces
    && c.digest !in l.executed && c.verdict.scope !in l.unknown
    && (given ==> Approvals.Check(l.assurance, c.verdict.approvalId.value, c.digest, c.verdict.scope, c.at).Ok?)
    && next == w.(
         assuranceLog := if given then w.assuranceLog + [Approvals.ConsumptionLine(c.verdict.approvalId.value, c.at)]
                         else w.assuranceLog,
         live := Some(l.(nonces := l.nonces - {c.verdict.nonce}, phase := Admitted(c),
                         assurance := if given then Approvals.Consume(l.assurance, c.verdict.approvalId.value)
                                      else l.assurance)))
  }

  lemma BeginShape(w: World, l: Live, p: Json.Value, v: Verdict, now: int)
    requires w.live == Some(l) && p.Obj?
    ensures var (next, error) := Begin(w, l, p, v, now);
            if error.Some? then Refused(w, l, next) else Taken(w, l, Call(p, v, DigestOf(p), now), next)
  {
    var (next, error) := Begin(w, l, p, v, now);
    assert w == w.(live := Some(l.(nonces := l.nonces)));
  }

  lemma BeginDurable(w: World, l: Live, c: Call, next: World)
    requires Durable(w) && w.live == Some(l) && (Refused(w, l, next) || Taken(w, l, c, next))
    ensures Durable(next)
  {
    if next.assuranceLog != w.assuranceLog {
      AssuranceLineDurable(w, Approvals.ConsumptionLine(c.verdict.approvalId.value, c.at), next);
    } else {
      SameStaysDurable(w, next);
    }
  }

  lemma RequestDurable(w: World, l: Live, req: Approvals.Request)
    requires Durable(w) && w.live == Some(l)
    ensures Durable(AskApproval(w, l, req))
  {
    if Approvals.MakeRequest(req).Ok? {
      AssuranceLineDurable(w, Approvals.RequestLine(req), AskApproval(w, l, req));
    }
  }

  lemma DecideDurable(w: World, l: Live, requestId: string, id: string, decision: string, actor: string,
                      role: string, ttl: int, now: int)
    requires Durable(w) && w.live == Some(l)
    ensures Durable(DecideApproval(w, l, requestId, id, decision, actor, role, ttl, now))
  {
    var d := Approvals.MakeDecision(l.assurance, requestId, id, decision, actor, role, ttl, now);
    if d.Ok? {
      AssuranceLineDurable(w, Approvals.DecisionLine(d.value),
                           DecideApproval(w, l, requestId, id, decision, actor, role, ttl, now));
    }
  }

  /** The next state wrote one event, or found it written, and nothing else durable. */
  predicate Wrote(w: World, a: EventLog.Appended, next: World) {
    && next.disk == a.log.events && next.torn == w.torn && next.assuranceLog == w.assuranceLog
    && w.live.Some? && next.live.Some?
    && next.live.value.log == a.log && next.live.value.assurance == w.live.value.assurance
  }

  lemma WroteDurable(w: World, e: Event, now: int, next: World)
    requires Durable(w) && w.live.Some? && KeyFits(Record(e, 0, 0)) && EventLog.Append(w.live.value.log, e, now).Ok?
    requires Wrote(w, EventLog.Append(w.live.value.log, e, now).value, next)
    ensures Durable(next)
  {
    AppendDurable(w, e, now);
  }

  lemma ReserveDurable(w: World, l: Live, now: int)
    requires Durable(w) && w.live == Some(l) && l.phase.Admitted?
    ensures Durable(Reserve(w, l, now))
  {
    WroteDurable(w, ReserveEvent(l.phase.call), now, Reserve(w, l, now));
  }

  lemma ConcludeDurable(w: World, l: Live, ret: PerformReturn, id: string, now: int)
    requires Durable(w) && w.live == Some(l) && l.phase.InFlight?
    ensures Durable(Conclude(w, l, ret, id, now).0)
  {
    var c := l.phase.call;
    if Recordable(c, ret, id, now) {
      WroteDurable(w, ResultEvent(c, MakeResult(c, ret, id, now)), now, Conclude(w, l, ret, id, now).0);
    } else {
      SameStaysDurable(w, Conclude(w, l, ret, id, now).0);
    }
  }

  lemma ReconcileDurable(w: World, l: Live, scope: string, resolved: string, actor: Actor, role: string, now: int)
    requires Durable(w) && w.live == Some(l)
    ensures Durable(Reconcile(w, l, scope, resolved, actor, role, now).0)
  {
    var (next, error) := Reconcile(w, l, scope, resolved, actor, role, now);
    if error.None? {
      WroteDurable(w, Event(Signature(actor), None, Reconciled(scope, l.unknown[scope].id, resolved)), now, next);
    } else {
      SameStaysDurable(w, next);
    }
  }

  lemma KeepsDurable(policy: Policy, w: World, s: Step)
    requires Durable(w) && Enabled(w, s)
    ensures Durable(Next(policy, w, s))
  {
    match s
    case Request(req) => RequestDurable(w, w.live.value, req);
    case Decide(requestId, id, decision, actor, role, ttl, now) =>
      DecideDurable(w, w.live.value, requestId, id, decision, actor, role, ttl, now);
    case Evaluate(p, approvalId, nonce, now) =>
      SameStaysDurable(w, AskGate(policy, w, w.live.value, p, approvalId, nonce, now));
    case DoBegin(p, v, now) =>
      BeginShape(w, w.live.value, p, v, now);
      BeginDurable(w, w.live.value, Call(p, v, DigestOf(p), now), Begin(w, w.live.value, p, v, now).0);
    case DoReserve(now) => ReserveDurable(w, w.live.value, now);
    case DoPerform => SameStaysDurable(w, Perform(w, w.live.value));
    case DoConclude(ret, id, now) => ConcludeDurable(w, w.live.value, ret, id, now);
    case DoReconcile(scope, resolved, actor, role, now) =>
      ReconcileDurable(w, w.live.value, scope, resolved, actor, role, now);
    case Restart(now) => BootDurable(w, now);
    case Crash(_) =>
    case RestartCutShort(_) =>
  }
}

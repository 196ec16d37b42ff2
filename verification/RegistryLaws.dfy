/**
 * What each operation of src/supervisor/project-registry.mjs does to the
 * project's state, field by field, and when it refuses.
 */
module RegistryLaws {
  import opened Wrappers
  import opened Events
  import SM = StateMachine
  import EventLog
  import opened Registry

  predicate Known(s: SM.State) {
    s in {SM.PLANNED, SM.READY, SM.IN_PROGRESS, SM.READY_FOR_REVIEW, SM.CHANGES_REQUESTED, SM.BLOCKED, SM.WAIT_PROVIDER,
          SM.FOUNDER_REQUIRED, SM.APPROVED_FOR_EXTERNAL_ACTION, SM.DONE, SM.FAIL, SM.CANCELLED}
  }

  predicate Closed(s: SM.State) {
    s in {SM.DONE, SM.FAIL, SM.CANCELLED}
  }

  /** An optional field that can be read: it is missing, or a text that is not empty. */
  predicate Legible(o: Option<SM.Datum>) {
    o.Some? ==> o.value.Text? && o.value.text != ""
  }

  /** The state of a project can be read exactly when every text in it can be, and the status is one of the machine's. */
  lemma ReadIff(events: seq<Record>)
    ensures StateOf(events).Ok? <==>
              var s := Fold(events);
              s.Some? ==>
                && s.value.project != "" && Known(s.value.status)
                && Legible(s.value.workOrder) && Legible(s.value.branch) && Legible(s.value.blocker) && Legible(s.value.nextAction)
    ensures StateOf(events).Ok? ==> StateOf(events).value == Fold(events)
    ensures StateOf(events).Err? ==> StateOf(events).error == Unreadable
  {
  }

  /** The disk has one more event, by `actor`, with this body. */
  ghost predicate Logged(before: World, after: World, actor: string, body: Body, now: int) {
    && |after.disk| == |before.disk| + 1 && after.disk[..|before.disk|] == before.disk
    && var r := after.disk[|before.disk|]; r.event.actor == actor && r.event.body == body && r.at == now
  }

  lemma Folded(w: World, log: EventLog.Log, e: Event, now: int)
    requires DiskOk(w) && w.live == Some(log) && EventLog.Append(log, e, now).Ok?
    requires !EventLog.Append(log, e, now).value.replayed
    ensures var next := PersistSnapshot(Wrote(w, EventLog.Append(log, e, now).value.log)).0;
            Logged(w, next, e.actor, e.body, now) && Fold(next.disk) == Reduce(Fold(w.disk), next.disk[|w.disk|])
  {
    AppendOk(w, log, e, now);
    SnapshotKeeps(Wrote(w, EventLog.Append(log, e, now).value.log));
  }

  /** Whatever an operation answers, when it wrote and the state can be read, the snapshot is that state and the answer too. */
  lemma AnswerIsState(w: World)
    ensures PersistSnapshot(w).1.Ok? ==> Fold(w.disk) == Some(PersistSnapshot(w).1.value) == PersistSnapshot(w).0.snapshot
  {
  }

  // ---------------------------------------------------------------- register

  /** A second registration answers the state on file; so does any that cannot read it or has no actor, without a trace. */
  lemma RegisteredAgain(w: World, log: EventLog.Log, project: string, actor: string, workOrder: Option<SM.Datum>, branch: Option<SM.Datum>, now: int)
    requires DiskOk(w) && w.live == Some(log) && (Fold(w.disk).Some? || actor == "")
    ensures var (v, r) := DoRegister(w, log, project, actor, workOrder, branch, now);
            && v == w
            && (StateOf(w.disk).Err? ==> r == Err(Unreadable))
            && (StateOf(w.disk).Ok? && Fold(w.disk).Some? ==> r == Ok(Fold(w.disk).value))
            && (Fold(w.disk).None? ==> r == Err(RegistryError.NotLogged))
  {
  }

  /** A new project is PLANNED, on the branch given or on main, with the work order given, nothing blocks it and nothing is next. */
  lemma RegisterIs(w: World, log: EventLog.Log, project: string, actor: string, workOrder: Option<SM.Datum>, branch: Option<SM.Datum>, now: int)
    requires DiskOk(w) && w.live == Some(log) && Fold(w.disk).None? && actor != ""
    ensures var v := DoRegister(w, log, project, actor, workOrder, branch, now).0;
            var on := if branch.Some? then branch.value else SM.Text("main");
            && Logged(w, v, actor, ProjectRegistered(project, workOrder, on), now)
            && Fold(v.disk).Some?
            && var s := Fold(v.disk).value;
            && s.project == project && s.status == SM.PLANNED && s.workOrder == workOrder && s.branch == Some(on)
            && s.blocker == None && s.nextAction == None && s.updatedAt == now
  {
    var on := if branch.Some? then branch.value else SM.Text("main");
    Folded(w, log, Event(actor, None, ProjectRegistered(project, workOrder, on)), now);
  }

  // ---------------------------------------------------------------- transition

  /** The blocker record among the evidence, if there is one. */
  predicate Blocks(ctx: SM.Context, blocker: Option<SM.Datum>) {
    && (blocker.Some? <==> SM.BlockerRecord in ctx.evidence)
    && (SM.BlockerRecord in ctx.evidence ==> blocker == Some(ctx.evidence[SM.BlockerRecord]))
  }

  /**
   * An accepted transition moves the project to the row's state, takes its
   * blocker from the evidence and its next action from the request, and leaves
   * project, work order and branch alone.
   */
  lemma TransitionIs(w: World, log: EventLog.Log, q: Request, now: int)
    requires DiskOk(w) && w.live == Some(log) && StateOf(w.disk).Ok? && Fold(w.disk).Some? && q.actor != ""
    requires SM.ValidateTransition(Fold(w.disk).value.status, q.on, q.ctx).Ok?
    requires q.key.Some? && q.key.value != "" ==> q.key.value !in log.byKey
    ensures var t := SM.ValidateTransition(Fold(w.disk).value.status, q.on, q.ctx).value;
            var v := DoTransition(w, log, q, now).0;
            && |v.disk| == |w.disk| + 1 && v.disk[..|w.disk|] == w.disk && Fold(v.disk).Some?
            && var (e, was, s) := (v.disk[|w.disk|].event, Fold(w.disk).value, Fold(v.disk).value);
            && e.actor == q.actor && e.key == q.key && e.body.StateTransition?
            && e.body.from == was.status && e.body.to == t.to && e.body.on == q.on
            && s.status == t.to && Blocks(q.ctx, s.blocker) && s.nextAction == q.nextAction && s.updatedAt == now
            && s.project == was.project && s.workOrder == was.workOrder && s.branch == was.branch
            && v.path == w.path + [SM.Step(t, q.ctx)]
  {
    var t := SM.ValidateTransition(Fold(w.disk).value.status, q.on, q.ctx).value;
    SM.FoundIsAdmitted(Fold(w.disk).value.status, q.on, q.ctx);
    TransitionShape(w, log, q, now);
    TransitionLogged(w, log, q, t, now);
    SnapshotKeeps(LogTransition(w, log, q, t, now));
  }

  lemma TransitionLogged(w: World, log: EventLog.Log, q: Request, t: SM.Transition, now: int)
    requires DiskOk(w) && w.live == Some(log) && q.actor != ""
    requires q.key.Some? && q.key.value != "" ==> q.key.value !in log.byKey
    ensures var v := LogTransition(w, log, q, t, now);
            && |v.disk| == |w.disk| + 1 && v.disk[..|w.disk|] == w.disk
            && v.disk[|w.disk|].event == TransitionEvent(q, t) && v.disk[|w.disk|].at == now
            && Fold(v.disk) == Reduce(Fold(w.disk), v.disk[|w.disk|])
            && v.path == w.path + [SM.Step(t, q.ctx)]
  {
    AppendOk(w, log, TransitionEvent(q, t), now);
  }

  /** What is refused changes nothing, and is answered with the first reason. */
  lemma TransitionRefused(w: World, log: EventLog.Log, q: Request, now: int)
    requires DiskOk(w) && w.live == Some(log)
    requires !(StateOf(w.disk).Ok? && Fold(w.disk).Some? && q.actor != "" && SM.ValidateTransition(Fold(w.disk).value.status, q.on, q.ctx).Ok?)
    ensures var (v, r) := DoTransition(w, log, q, now);
            && v == w
            && (StateOf(w.disk).Err? ==> r == Err(Unreadable))
            && (Fold(w.disk).None? ==> r == Err(NotRegistered))
            && (StateOf(w.disk).Ok? && Fold(w.disk).Some? ==>
                  match SM.ValidateTransition(Fold(w.disk).value.status, q.on, q.ctx)
                  case Err(e) => r == Err(Refused(e))
                  case Ok(_) => r == Err(RegistryError.NotLogged))
  {
  }

  // ---------------------------------------------------------------- activateWorkOrder

  /** Another work order is active, and the project is not closed. */
  predicate Occupied(s: ProjectState, id: Option<SM.Datum>) {
    s.workOrder.Some? && s.workOrder != id && !Closed(s.status)
  }

  /** A work order is activated exactly for a project on file whose own work order is missing, the same, or closed. */
  lemma ActivatedIff(w: World, log: EventLog.Log, id: Option<SM.Datum>, actor: string, now: int)
    requires DiskOk(w) && w.live == Some(log) && StateOf(w.disk).Ok?
    ensures var (v, r) := DoActivate(w, log, id, actor, now);
            && (v.disk != w.disk <==> Fold(w.disk).Some? && !Occupied(Fold(w.disk).value, id) && actor != "")
            && (v.disk == w.disk ==> v == w)
            && (r == Err(ActiveWorkOrder) <==> Fold(w.disk).Some? && Occupied(Fold(w.disk).value, id))
            && (Fold(w.disk).None? ==> r == Err(NotRegistered))
  {
    if actor != "" && Fold(w.disk).Some? && !Occupied(Fold(w.disk).value, id) {
      Folded(w, log, Event(actor, None, WorkOrderActivated(id)), now);
    }
  }

  /** It becomes the project's work order, and nothing else of the project changes but the time. */
  lemma ActivateIs(w: World, log: EventLog.Log, id: Option<SM.Datum>, actor: string, now: int)
    requires DiskOk(w) && w.live == Some(log) && StateOf(w.disk).Ok?
    requires DoActivate(w, log, id, actor, now).0.disk != w.disk
    ensures var v := DoActivate(w, log, id, actor, now).0;
            && Logged(w, v, actor, WorkOrderActivated(id), now)
            && Fold(w.disk).Some? && Fold(v.disk).Some?
            && var (was, s) := (Fold(w.disk).value, Fold(v.disk).value);
            && s.workOrder == id && s.updatedAt == now
            && s.project == was.project && s.status == was.status && s.branch == was.branch
            && s.blocker == was.blocker && s.nextAction == was.nextAction
  {
    ActivatedIff(w, log, id, actor, now);
    Folded(w, log, Event(actor, None, WorkOrderActivated(id)), now);
  }

  lemma TransitKeepsWorkOrder(w: World, log: EventLog.Log, q: Request, now: int)
    requires DiskOk(w) && w.live == Some(log) && Fold(w.disk).Some?
    ensures var v := DoTransition(w, log, q, now).0;
            Fold(v.disk).Some? && Fold(v.disk).value.workOrder == Fold(w.disk).value.workOrder
  {
    TransitionShape(w, log, q, now);
    var t := SM.ValidateTransition(Fold(w.disk).value.status, q.on, q.ctx);
    if t.Ok? && q.actor != "" {
      AppendOk(w, log, TransitionEvent(q, t.value), now);
      SnapshotKeeps(LogTransition(w, log, q, t.value, now));
    }
  }

  lemma ActivateKeepsWorkOrder(w: World, log: EventLog.Log, id: Option<SM.Datum>, actor: string, now: int)
    requires DiskOk(w) && w.live == Some(log) && Fold(w.disk).Some?
    requires Fold(w.disk).value.workOrder.Some? && !Closed(Fold(w.disk).value.status)
    ensures var v := DoActivate(w, log, id, actor, now).0;
            Fold(v.disk).Some? && Fold(v.disk).value.workOrder == Fold(w.disk).value.workOrder
  {
    if StateOf(w.disk).Ok? && DoActivate(w, log, id, actor, now).0.disk != w.disk {
      ActivatedIff(w, log, id, actor, now);
      ActivateIs(w, log, id, actor, now);
    } else if StateOf(w.disk).Ok? {
      ActivatedIff(w, log, id, actor, now);
    }
  }

  lemma StepKeepsWorkOrder(steps: seq<Step>, s: Step)
    requires IsRun(steps + [s]) && IsRun(steps)
    requires var p := Fold(After(steps).disk); p.Some? && p.value.workOrder.Some? && !Closed(p.value.status)
    ensures Fold(After(steps + [s]).disk).Some?
    ensures Fold(After(steps + [s]).disk).value.workOrder == Fold(After(steps).disk).value.workOrder
  {
    LogIsAPath(steps);
    assert (steps + [s])[..|steps|] == steps;
    var w := After(steps);
    match s
    case Register(_, _, _, _, _) =>
    case Transit(q, now) => TransitKeepsWorkOrder(w, w.live.value, q, now);
    case Activate(id, actor, now) => ActivateKeepsWorkOrder(w, w.live.value, id, actor, now);
    case Crash(_) =>
    case Restart(now) => BootOnPath(w, now);
  }

  /**
   * A project holds on to its work order for as long as it is open: whatever is
   * called between two states of a run, crashes and restarts included, the work
   * order is the same in both, unless the project was closed by then.
   */
  lemma {:induction false} WorkOrderStays(steps: seq<Step>, more: seq<Step>)
    requires IsRun(steps + more) && IsRun(steps)
    requires Fold(After(steps).disk).Some? && Fold(After(steps).disk).value.workOrder.Some?
    requires Fold(After(steps + more).disk).Some? && !Closed(Fold(After(steps + more).disk).value.status)
    ensures Fold(After(steps + more).disk).value.workOrder == Fold(After(steps).disk).value.workOrder
    decreases |more|
  {
    if more == [] {
      assert steps + more == steps;
    } else {
      var n := |more| - 1;
      var before, s := steps + more[..n], more[n];
      assert steps + more == before + [s];
      assert (steps + more)[..|steps + more| - 1] == before;
      StaysRegistered(steps, more[..n]);
      if Closed(Fold(After(before).disk).value.status) { TerminalNeverChanges(before, [s]); }
      WorkOrderStays(steps, more[..n]);
      StepKeepsWorkOrder(before, s);
    }
  }
}

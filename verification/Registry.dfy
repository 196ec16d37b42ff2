/**
 * The project registry (src/supervisor/project-registry.mjs): one project's
 * state, folded from its event log, and whole runs of its operations.
 */
module Registry {
  import opened Wrappers
  import opened Events
  import SM = StateMachine
  import EventLog

  datatype ProjectState = ProjectState(
    project: string, status: SM.State, workOrder: Option<SM.Datum>, branch: Option<SM.Datum>,
    blocker: Option<SM.Datum>, nextAction: Option<SM.Datum>, updatedAt: int)

  datatype RegistryError = Unreadable | NotRegistered | Refused(error: SM.TransitionError) | ActiveWorkOrder | NotLogged

  // ---------------------------------------------------------------- the fold

  /** The reducer of `state`. */
  function Reduce(acc: Option<ProjectState>, r: Record): Option<ProjectState> {
    match r.event.body
    case ProjectRegistered(project, workOrder, branch) =>
      Some(ProjectState(project, SM.PLANNED, workOrder, Some(branch), None, None, r.at))
    case StateTransition(_, to, _, blocker, nextAction) =>
      if acc.None? then acc
      else Some(acc.value.(status := to, blocker := blocker, nextAction := nextAction, updatedAt := r.at))
    case WorkOrderActivated(id) =>
      if acc.None? then acc else Some(acc.value.(workOrder := id, updatedAt := r.at))
    case _ => acc
  }

  function Fold(events: seq<Record>): Option<ProjectState> {
    if events == [] then None else Reduce(Fold(events[..|events| - 1]), events[|events| - 1])
  }

  /** An optional field is absent or a non-empty string. */
  predicate Readable(o: Option<SM.Datum>) {
    o.None? || (o.value.Text? && o.value.text != "")
  }

  /** `validateProjectState`. */
  predicate ValidState(s: ProjectState) {
    && s.project != "" && !s.status.UnknownState?
    && Readable(s.workOrder) && Readable(s.branch) && Readable(s.blocker) && Readable(s.nextAction)
  }

  /** `state`: nothing, a valid state, or an exception. */
  function StateOf(events: seq<Record>): Result<Option<ProjectState>, RegistryError> {
    var s := Fold(events);
    if s.Some? && !ValidState(s.value) then Err(Unreadable) else Ok(s)
  }

  // ---------------------------------------------------------------- operations

  /** The log as the process holds it, the log on disk, the snapshot file, and the accepted transitions. */
  datatype World = World(
    disk: seq<Record>, torn: bool, live: Option<EventLog.Log>, snapshot: Option<ProjectState>, path: seq<SM.Step>)

  const START := World([], false, None, None, [])

  /** After an append: read the state back and write the snapshot. */
  function PersistSnapshot(w: World): (World, Result<ProjectState, RegistryError>) {
    match StateOf(w.disk)
    case Err(e) => (w, Err(e))
    case Ok(None) => (w.(snapshot := None), Err(NotRegistered))
    case Ok(Some(s)) => (w.(snapshot := Some(s)), Ok(s))
  }

  function Wrote(w: World, log: EventLog.Log): World {
    w.(disk := log.events, live := Some(log))
  }

  /** `initial.branch ?? 'main'`. */
  function BranchOf(branch: Option<SM.Datum>): SM.Datum {
    if branch.None? then SM.Text("main") else branch.value
  }

  function DoRegister(w: World, log: EventLog.Log, project: string, actor: string, workOrder: Option<SM.Datum>, branch: Option<SM.Datum>, now: int)
    : (World, Result<ProjectState, RegistryError>)
  {
    match StateOf(log.events)
    case Err(e) => (w, Err(e))
    case Ok(Some(existing)) => (w, Ok(existing))
    case Ok(None) =>
      match EventLog.Append(log, Event(actor, None, ProjectRegistered(project, workOrder, BranchOf(branch))), now) {
        case Err(_) => (w, Err(NotLogged))
        case Ok(a) => PersistSnapshot(Wrote(w, a.log))
      }
  }

  /** What a transition's context adds to the machine's: who asks, the next action, and an idempotency key. */
  datatype Request = Request(on: SM.Trigger, ctx: SM.Context, actor: string, nextAction: Option<SM.Datum>, key: Option<string>)

  function BlockerOf(ctx: SM.Context): Option<SM.Datum> {
    if SM.BlockerRecord in ctx.evidence then Some(ctx.evidence[SM.BlockerRecord]) else None
  }

  function TransitionEvent(q: Request, t: SM.Transition): Event {
    Event(q.actor, q.key, StateTransition(t.from, t.to, t.on, BlockerOf(q.ctx), q.nextAction))
  }

  function DoTransition(w: World, log: EventLog.Log, q: Request, now: int): (World, Result<ProjectState, RegistryError>) {
    match StateOf(log.events)
    case Err(e) => (w, Err(e))
    case Ok(None) => (w, Err(NotRegistered))
    case Ok(Some(current)) =>
      match SM.ValidateTransition(current.status, q.on, q.ctx) {
        case Err(e) => (w, Err(Refused(e)))
        case Ok(t) =>
          match EventLog.Append(log, TransitionEvent(q, t), now) {
            case Err(_) => (w, Err(NotLogged))
            case Ok(a) =>
              var path := if a.replayed then w.path else w.path + [SM.Step(t, q.ctx)];
              PersistSnapshot(Wrote(w, a.log).(path := path))
          }
      }
  }

  function DoActivate(w: World, log: EventLog.Log, workOrderId: Option<SM.Datum>, actor: string, now: int)
    : (World, Result<ProjectState, RegistryError>)
  {
    match StateOf(log.events)
    case Err(e) => (w, Err(e))
    case Ok(None) => (w, Err(NotRegistered))
    case Ok(Some(current)) =>
      if current.workOrder.Some? && !SM.IsTerminal(current.status) && current.workOrder != workOrderId then (w, Err(ActiveWorkOrder))
      else
        match EventLog.Append(log, Event(actor, None, WorkOrderActivated(workOrderId)), now) {
          case Err(_) => (w, Err(NotLogged))
          case Ok(a) => PersistSnapshot(Wrote(w, a.log))
        }
  }

  /** `verifyRecovery`: the snapshot is the replayed state. */
  predicate Recovered(w: World) {
    StateOf(w.disk) == Ok(w.snapshot)
  }

  // ---------------------------------------------------------------- runs

  datatype Step =
    | Register(project: string, actor: string, workOrder: Option<SM.Datum>, branch: Option<SM.Datum>, now: int)
    | Transit(request: Request, now: int)
    | Activate(workOrderId: Option<SM.Datum>, actor: string, now: int)
    | Crash(torn: bool)
    | Restart(now: int)

  predicate Enabled(w: World, s: Step) {
    if s.Restart? then w.live.None? else w.live.Some?
  }

  function Boot(w: World, now: int): World {
    var log := EventLog.Reopen(w.disk, w.torn, now);
    w.(disk := log.events, torn := false, live := Some(log))
  }

  function Next(w: World, s: Step): World
    requires Enabled(w, s)
  {
    match s
    case Register(project, actor, workOrder, branch, now) => DoRegister(w, w.live.value, project, actor, workOrder, branch, now).0
    case Transit(q, now) => DoTransition(w, w.live.value, q, now).0
    case Activate(id, actor, now) => DoActivate(w, w.live.value, id, actor, now).0
    case Crash(torn) => w.(live := None, torn := torn)
    case Restart(now) => Boot(w, now)
  }

  predicate IsRun(steps: seq<Step>)
    decreases |steps|, 0
  {
    steps == [] ||
    (var before := steps[..|steps| - 1]; IsRun(before) && Enabled(After(before), steps[|steps| - 1]))
  }

  function After(steps: seq<Step>): World
    requires IsRun(steps)
    decreases |steps|, 1
  {
    if steps == [] then START else Next(After(steps[..|steps| - 1]), steps[|steps| - 1])
  }

  // ---------------------------------------------------------------- the log is a path

  /** The transitions a log records, in order. */
  function Transitions(events: seq<Record>): seq<Body> {
    if events == [] then []
    else
      var rest, b := Transitions(events[..|events| - 1]), events[|events| - 1].event.body;
      if b.StateTransition? then rest + [b] else rest
  }

  predicate Records(b: Body, s: SM.Step) {
    b.StateTransition? && b.from == s.row.from && b.to == s.row.to && b.on == s.row.on
  }

  predicate LogRecordsPath(bs: seq<Body>, path: seq<SM.Step>) {
    |bs| == |path| && forall i {:trigger Records(bs[i], path[i])} :: 0 <= i < |bs| ==> Records(bs[i], path[i])
  }

  ghost predicate DiskOk(w: World) {
    && EventLog.ValidLines(w.disk)
    && (w.live.Some? ==> !w.torn && EventLog.Valid(w.live.value) && w.live.value.events == w.disk)
  }

  /** The registered status is where the path of accepted transitions ends. */
  predicate OnPath(w: World) {
    && SM.IsPath(SM.PLANNED, w.path) && LogRecordsPath(Transitions(w.disk), w.path)
    && (if Fold(w.disk).Some? then Fold(w.disk).value.status == SM.EndState(SM.PLANNED, w.path) else w.path == [])
  }

  lemma FoldSnoc(events: seq<Record>, r: Record)
    ensures Fold(events + [r]) == Reduce(Fold(events), r)
    ensures Transitions(events + [r])
         == if r.event.body.StateTransition? then Transitions(events) + [r.event.body] else Transitions(events)
  {
    assert (events + [r])[..|events|] == events;
  }

  lemma AppendOk(w: World, log: EventLog.Log, e: Event, now: int)
    requires DiskOk(w) && w.live == Some(log) && EventLog.Append(log, e, now).Ok?
    ensures var a := EventLog.Append(log, e, now).value;
            && DiskOk(Wrote(w, a.log))
            && (if a.replayed then a.log.events == w.disk
                else a.log.events == w.disk + [a.record] && a.record.event == e
                     && Fold(a.log.events) == Reduce(Fold(w.disk), a.record)
                     && Transitions(a.log.events)
                          == (if e.body.StateTransition? then Transitions(w.disk) + [e.body] else Transitions(w.disk)))
            && (e.key == None ==> !a.replayed)
  {
    var a := EventLog.Append(log, e, now).value;
    EventLog.AppendKeepsShape(log, e, now);
    if !a.replayed {
      FoldSnoc(w.disk, a.record);
    }
  }

  lemma SnapshotKeeps(w: World)
    ensures var next := PersistSnapshot(w).0;
            next.disk == w.disk && next.torn == w.torn && next.live == w.live && next.path == w.path
    ensures PersistSnapshot(w).1.Ok? ==> Recovered(PersistSnapshot(w).0)
  {
  }

  lemma PathSnoc(path: seq<SM.Step>, s: SM.Step)
    requires SM.IsPath(SM.PLANNED, path) && SM.Admits(s.row, s.ctx) && s.row.from == SM.EndState(SM.PLANNED, path)
    ensures SM.IsPath(SM.PLANNED, path + [s]) && SM.EndState(SM.PLANNED, path + [s]) == s.row.to
  {
    var more := path + [s];
    forall i | 0 <= i < |more|
      ensures SM.Follows(SM.PLANNED, more, i)
    {
      assert more[..i] == path[..i];
      if i < |path| {
        assert SM.Follows(SM.PLANNED, path, i);
      } else {
        assert path[..i] == path;
      }
    }
  }

  lemma RecordsSnoc(bs: seq<Body>, path: seq<SM.Step>, b: Body, s: SM.Step)
    requires LogRecordsPath(bs, path) && Records(b, s)
    ensures LogRecordsPath(bs + [b], path + [s])
  {
    forall i | 0 <= i < |bs| + 1
      ensures Records((bs + [b])[i], (path + [s])[i])
    {
      if i < |bs| { assert Records(bs[i], path[i]); }
    }
  }

  /** An event that is no transition and leaves the status at the end of the path, and the snapshot after it. */
  lemma OtherOnPath(w: World, log: EventLog.Log, e: Event, now: int)
    requires DiskOk(w) && OnPath(w) && w.live == Some(log) && EventLog.Append(log, e, now).Ok?
    requires e.key.None? && !e.body.StateTransition?
    requires var s := Reduce(Fold(w.disk), EventLog.Append(log, e, now).value.record);
             s.Some? && s.value.status == SM.EndState(SM.PLANNED, w.path)
    ensures var next := PersistSnapshot(Wrote(w, EventLog.Append(log, e, now).value.log)).0; DiskOk(next) && OnPath(next)
  {
    AppendOk(w, log, e, now);
    SnapshotKeeps(Wrote(w, EventLog.Append(log, e, now).value.log));
  }

  lemma RegisterOnPath(w: World, log: EventLog.Log, project: string, actor: string, workOrder: Option<SM.Datum>, branch: Option<SM.Datum>, now: int)
    requires DiskOk(w) && OnPath(w) && w.live == Some(log)
    ensures var next := DoRegister(w, log, project, actor, workOrder, branch, now).0; DiskOk(next) && OnPath(next)
  {
    if StateOf(w.disk) == Ok(None) && actor != "" {
      OtherOnPath(w, log, Event(actor, None, ProjectRegistered(project, workOrder, BranchOf(branch))), now);
    }
  }

  lemma ActivateOnPath(w: World, log: EventLog.Log, workOrderId: Option<SM.Datum>, actor: string, now: int)
    requires DiskOk(w) && OnPath(w) && w.live == Some(log)
    ensures var next := DoActivate(w, log, workOrderId, actor, now).0; DiskOk(next) && OnPath(next)
  {
    if actor != "" && Fold(w.disk).Some? {
      OtherOnPath(w, log, Event(actor, None, WorkOrderActivated(workOrderId)), now);
    }
  }

  /** Logging an accepted transition, before the snapshot is written. */
  function LogTransition(w: World, log: EventLog.Log, q: Request, t: SM.Transition, now: int): World
    requires q.actor != ""
  {
    var a := EventLog.Append(log, TransitionEvent(q, t), now).value;
    Wrote(w, a.log).(path := if a.replayed then w.path else w.path + [SM.Step(t, q.ctx)])
  }

  /** One more transition in the log, and one more step on the path. */
  lemma StepOnPath(w: World, next: World, r: Record, s: SM.Step)
    requires OnPath(w) && SM.Admits(s.row, s.ctx) && Records(r.event.body, s)
    requires Fold(w.disk).Some? && Fold(w.disk).value.status == s.row.from
    requires next.path == w.path + [s] && Fold(next.disk) == Reduce(Fold(w.disk), r)
    requires Transitions(next.disk) == Transitions(w.disk) + [r.event.body]
    ensures OnPath(next)
  {
    PathSnoc(w.path, s);
    RecordsSnoc(Transitions(w.disk), w.path, r.event.body, s);
  }

  lemma LoggedOnPath(w: World, log: EventLog.Log, q: Request, t: SM.Transition, now: int)
    requires DiskOk(w) && OnPath(w) && w.live == Some(log) && q.actor != "" && SM.Admits(t, q.ctx)
    requires Fold(w.disk).Some? && Fold(w.disk).value.status == t.from
    ensures var next := LogTransition(w, log, q, t, now); DiskOk(next) && OnPath(next)
  {
    var e := TransitionEvent(q, t);
    AppendOk(w, log, e, now);
    var a := EventLog.Append(log, e, now).value;
    if !a.replayed { StepOnPath(w, LogTransition(w, log, q, t, now), a.record, SM.Step(t, q.ctx)); }
  }

  /** What an accepted transition does. */
  lemma TransitionShape(w: World, log: EventLog.Log, q: Request, now: int)
    requires DiskOk(w) && w.live == Some(log)
    ensures var current, next := Fold(w.disk), DoTransition(w, log, q, now).0;
            if current.Some? && ValidState(current.value) && q.actor != ""
               && SM.ValidateTransition(current.value.status, q.on, q.ctx).Ok?
            then next == PersistSnapshot(LogTransition(w, log, q, SM.ValidateTransition(current.value.status, q.on, q.ctx).value, now)).0
            else next == w
  {
  }

  lemma TransitionOnPath(w: World, log: EventLog.Log, q: Request, now: int)
    requires DiskOk(w) && OnPath(w) && w.live == Some(log)
    ensures var next := DoTransition(w, log, q, now).0; DiskOk(next) && OnPath(next)
  {
    var current := Fold(w.disk);
    TransitionShape(w, log, q, now);
    if current.Some? && ValidState(current.value) && q.actor != "" {
      var v := SM.ValidateTransition(current.value.status, q.on, q.ctx);
      if v.Ok? {
        SM.FoundIsAdmitted(current.value.status, q.on, q.ctx);
        LoggedOnPath(w, log, q, v.value, now);
        SnapshotKeeps(LogTransition(w, log, q, v.value, now));
      }
    }
  }

  lemma BootOnPath(w: World, now: int)
    requires DiskOk(w) && OnPath(w) && w.live.None?
    ensures DiskOk(Boot(w, now)) && OnPath(Boot(w, now)) && Fold(Boot(w, now).disk) == Fold(w.disk)
  {
    EventLog.ReopenOfValid(w.disk, w.torn, now);
    if w.torn {
      FoldSnoc(w.disk, Record(EventLog.RecoveryEvent(1), EventLog.LastNumber(w.disk) + 1, now));
    }
  }

  lemma KeepsOnPath(w: World, s: Step)
    requires DiskOk(w) && OnPath(w) && Enabled(w, s)
    ensures DiskOk(Next(w, s)) && OnPath(Next(w, s))
  {
    match s
    case Register(project, actor, workOrder, branch, now) => RegisterOnPath(w, w.live.value, project, actor, workOrder, branch, now);
    case Transit(q, now) => TransitionOnPath(w, w.live.value, q, now);
    case Activate(id, actor, now) => ActivateOnPath(w, w.live.value, id, actor, now);
    case Crash(_) =>
    case Restart(now) => BootOnPath(w, now);
  }

  /**
   * Every registry log is a path in the machine: it records exactly the accepted
   * transitions, each from the state the one before it led to, and the folded
   * status is where they end.
   */
  lemma {:induction false} LogIsAPath(steps: seq<Step>)
    requires IsRun(steps)
    ensures DiskOk(After(steps)) && OnPath(After(steps))
    decreases |steps|
  {
    if steps != [] {
      LogIsAPath(steps[..|steps| - 1]);
      KeepsOnPath(After(steps[..|steps| - 1]), steps[|steps| - 1]);
    }
  }

  /** A project that is DONE got there on one of the two roads of the machine, from its last dispatch on. */
  lemma DoneByTheRoad(steps: seq<Step>) returns (d: int)
    requires IsRun(steps) && Fold(After(steps).disk).Some? && Fold(After(steps).disk).value.status == SM.DONE
    ensures var path := After(steps).path;
            && 0 <= d < |path| && path[d].row.on == SM.DispatchBuilder
            && (forall i :: d < i < |path| ==> path[i].row.on != SM.DispatchBuilder)
            && (SM.EndsReviewed(path, d) || SM.EndsApproved(path, d))
  {
    LogIsAPath(steps);
    d := SM.RoadToDone(After(steps).path);
  }

  lemma StepExtendsPath(w: World, s: Step)
    requires Enabled(w, s)
    ensures w.path <= Next(w, s).path
  {
  }

  lemma {:induction false} PathExtends(steps: seq<Step>, more: seq<Step>)
    requires IsRun(steps + more)
    ensures IsRun(steps) && After(steps).path <= After(steps + more).path
    decreases |more|
  {
    if more == [] {
      assert steps + more == steps;
    } else {
      var shorter := more[..|more| - 1];
      assert (steps + more)[..|steps + more| - 1] == steps + shorter;
      PathExtends(steps, shorter);
      StepExtendsPath(After(steps + shorter), more[|more| - 1]);
    }
  }

  lemma TransitionKeepsRegistered(w: World, log: EventLog.Log, q: Request, now: int)
    requires DiskOk(w) && w.live == Some(log) && Fold(w.disk).Some?
    ensures Fold(DoTransition(w, log, q, now).0.disk).Some?
  {
    TransitionShape(w, log, q, now);
    var v := SM.ValidateTransition(Fold(w.disk).value.status, q.on, q.ctx);
    if v.Ok? && q.actor != "" {
      AppendOk(w, log, TransitionEvent(q, v.value), now);
      SnapshotKeeps(LogTransition(w, log, q, v.value, now));
    }
  }

  /** An activation changes nothing, or logs its event and writes the snapshot. */
  lemma ActivateShape(w: World, log: EventLog.Log, id: Option<SM.Datum>, actor: string, now: int)
    requires w.live == Some(log)
    ensures var (next, a) := (DoActivate(w, log, id, actor, now).0, EventLog.Append(log, Event(actor, None, WorkOrderActivated(id)), now));
            next == w || (a.Ok? && next == PersistSnapshot(Wrote(w, a.value.log)).0)
  {
  }

  lemma ActivationRegistered(w: World, log: EventLog.Log, id: Option<SM.Datum>, actor: string, now: int, a: EventLog.Appended)
    requires DiskOk(w) && w.live == Some(log) && Fold(w.disk).Some?
    requires EventLog.Append(log, Event(actor, None, WorkOrderActivated(id)), now) == Ok(a)
    ensures Fold(PersistSnapshot(Wrote(w, a.log)).0.disk).Some?
  {
    AppendOk(w, log, Event(actor, None, WorkOrderActivated(id)), now);
    SnapshotKeeps(Wrote(w, a.log));
  }

  lemma ActivateKeepsRegistered(w: World, log: EventLog.Log, id: Option<SM.Datum>, actor: string, now: int)
    requires DiskOk(w) && w.live == Some(log) && Fold(w.disk).Some?
    ensures Fold(DoActivate(w, log, id, actor, now).0.disk).Some?
  {
    ActivateShape(w, log, id, actor, now);
    var a := EventLog.Append(log, Event(actor, None, WorkOrderActivated(id)), now);
    if a.Ok? { ActivationRegistered(w, log, id, actor, now, a.value); }
  }

  lemma StepKeepsRegistered(w: World, s: Step)
    requires DiskOk(w) && OnPath(w) && Enabled(w, s) && Fold(w.disk).Some?
    ensures Fold(Next(w, s).disk).Some?
  {
    match s
    case Register(_, _, _, _, _) =>
    case Transit(q, now) => TransitionKeepsRegistered(w, w.live.value, q, now);
    case Activate(id, actor, now) => ActivateKeepsRegistered(w, w.live.value, id, actor, now);
    case Crash(_) =>
    case Restart(now) => BootOnPath(w, now);
  }

  lemma {:induction false} StaysRegistered(steps: seq<Step>, more: seq<Step>)
    requires IsRun(steps + more) && IsRun(steps) && Fold(After(steps).disk).Some?
    ensures Fold(After(steps + more).disk).Some?
    decreases |more|
  {
    if more == [] {
      assert steps + more == steps;
    } else {
      var shorter := more[..|more| - 1];
      assert (steps + more)[..|steps + more| - 1] == steps + shorter;
      StaysRegistered(steps, shorter);
      LogIsAPath(steps + shorter);
      StepKeepsRegistered(After(steps + shorter), more[|more| - 1]);
    }
  }

  lemma TerminalEndsPath(p: seq<SM.Step>, q: seq<SM.Step>)
    requires SM.IsPath(SM.PLANNED, q) && p <= q && SM.IsTerminal(SM.EndState(SM.PLANNED, p))
    ensures SM.EndState(SM.PLANNED, q) == SM.EndState(SM.PLANNED, p)
  {
    assert q[|p| - 1] == p[|p| - 1];
    SM.TerminalIsLast(SM.PLANNED, q, |p| - 1);
  }

  /** Terminal for good: whatever is called afterwards, across restarts, the status stays. */
  lemma TerminalNeverChanges(steps: seq<Step>, more: seq<Step>)
    requires IsRun(steps + more) && IsRun(steps)
    requires Fold(After(steps).disk).Some? && SM.IsTerminal(Fold(After(steps).disk).value.status)
    ensures Fold(After(steps + more).disk).Some?
    ensures Fold(After(steps + more).disk).value.status == Fold(After(steps).disk).value.status
  {
    LogIsAPath(steps);
    LogIsAPath(steps + more);
    PathExtends(steps, more);
    StaysRegistered(steps, more);
    TerminalEndsPath(After(steps).path, After(steps + more).path);
  }

  // ---------------------------------------------------------------- when the state stays readable

  /** The texts that one event puts into the state can be read back. */
  predicate ReadableBody(b: Body) {
    match b
    case ProjectRegistered(project, workOrder, branch) => project != "" && Readable(workOrder) && Readable(Some(branch))
    case StateTransition(_, _, _, blocker, nextAction) => Readable(blocker) && Readable(nextAction)
    case WorkOrderActivated(id) => Readable(id)
    case _ => true
  }

  predicate AllReadable(events: seq<Record>) {
    forall r :: r in events ==> ReadableBody(r.event.body)
  }

  predicate CanRead(w: World) {
    StateOf(w.disk).Ok?
  }

  /** What the reducer makes of a body whose turn it is. */
  predicate Fits(acc: Option<ProjectState>, b: Body) {
    match b
    case ProjectRegistered(_, _, _) => acc.None?
    case StateTransition(_, to, _, _, _) => acc.Some? && !to.UnknownState?
    case WorkOrderActivated(_) => acc.Some?
    case _ => false
  }

  lemma ReduceReadableIff(acc: Option<ProjectState>, r: Record)
    requires Fits(acc, r.event.body) && (acc.Some? ==> ValidState(acc.value))
    ensures Reduce(acc, r).Some? && (ValidState(Reduce(acc, r).value) <==> ReadableBody(r.event.body))
  {
  }

  lemma AllReadableSnoc(lines: seq<Record>, r: Record)
    ensures AllReadable(lines + [r]) <==> AllReadable(lines) && ReadableBody(r.event.body)
  {
    assert forall x :: x in lines + [r] <==> x in lines || x == r;
  }

  /** One append to a log that can be read: it can be read afterwards exactly when the new event can. */
  lemma AppendReadableIff(w: World, log: EventLog.Log, e: Event, now: int)
    requires DiskOk(w) && w.live == Some(log) && CanRead(w) && EventLog.Append(log, e, now).Ok?
    requires Fits(Fold(w.disk), e.body)
    ensures var a := EventLog.Append(log, e, now).value;
            if a.replayed then a.log.events == w.disk
            else (StateOf(a.log.events).Ok? <==> ReadableBody(e.body))
                 && (AllReadable(a.log.events) <==> AllReadable(w.disk) && ReadableBody(e.body))
  {
    var a := EventLog.Append(log, e, now).value;
    AppendOk(w, log, e, now);
    if !a.replayed {
      ReduceReadableIff(Fold(w.disk), a.record);
      AllReadableSnoc(w.disk, a.record);
    }
  }

  /** Registering leaves a state that can be read exactly when name, work order and branch can. */
  lemma RegisterReadableIff(w: World, log: EventLog.Log, project: string, actor: string,
                            workOrder: Option<SM.Datum>, branch: Option<SM.Datum>, now: int)
    requires DiskOk(w) && w.live == Some(log) && StateOf(w.disk) == Ok(None) && actor != ""
    ensures var next := DoRegister(w, log, project, actor, workOrder, branch, now).0;
            && (CanRead(next) <==> project != "" && Readable(workOrder) && Readable(branch))
            && (AllReadable(next.disk) <==> AllReadable(w.disk) && project != "" && Readable(workOrder) && Readable(branch))
  {
    var e := Event(actor, None, ProjectRegistered(project, workOrder, BranchOf(branch)));
    AppendOk(w, log, e, now);
    AppendReadableIff(w, log, e, now);
    SnapshotKeeps(Wrote(w, EventLog.Append(log, e, now).value.log));
  }

  /** A work order that goes in leaves a state that can be read exactly when its id can. */
  lemma ActivateReadableIff(w: World, log: EventLog.Log, id: Option<SM.Datum>, actor: string, now: int)
    requires DiskOk(w) && w.live == Some(log) && DoActivate(w, log, id, actor, now).0.disk != w.disk
    ensures var next := DoActivate(w, log, id, actor, now).0;
            (CanRead(next) <==> Readable(id)) && (AllReadable(next.disk) <==> AllReadable(w.disk) && Readable(id))
  {
    var e := Event(actor, None, WorkOrderActivated(id));
    AppendReadableIff(w, log, e, now);
    SnapshotKeeps(Wrote(w, EventLog.Append(log, e, now).value.log));
  }

  /** A logged transition leaves a state that can be read exactly when its blocker and next action can. */
  lemma TransitionReadableIff(w: World, log: EventLog.Log, q: Request, now: int)
    requires DiskOk(w) && w.live == Some(log) && DoTransition(w, log, q, now).0.disk != w.disk
    ensures var next, readable := DoTransition(w, log, q, now).0, Readable(BlockerOf(q.ctx)) && Readable(q.nextAction);
            (CanRead(next) <==> readable) && (AllReadable(next.disk) <==> AllReadable(w.disk) && readable)
  {
    TransitionShape(w, log, q, now);
    var current := Fold(w.disk).value;
    var t := SM.ValidateTransition(current.status, q.on, q.ctx).value;
    SM.FoundIsAdmitted(current.status, q.on, q.ctx);
    SM.NoExitFromTerminal(t);
    SnapshotKeeps(LogTransition(w, log, q, t, now));
    AppendReadableIff(w, log, TransitionEvent(q, t), now);
  }

  lemma SameStateReadable(a: seq<Record>, b: seq<Record>)
    requires Fold(a) == Fold(b)
    ensures StateOf(a).Ok? <==> StateOf(b).Ok?
  {
  }

  /** A recovery event says nothing about the project. */
  lemma BootAllReadable(w: World, now: int)
    requires EventLog.ValidLines(w.disk)
    ensures AllReadable(Boot(w, now).disk) <==> AllReadable(w.disk)
  {
    EventLog.ReopenOfValid(w.disk, w.torn, now);
    if w.torn {
      AllReadableSnoc(w.disk, Record(EventLog.RecoveryEvent(1), EventLog.LastNumber(w.disk) + 1, now));
    }
  }

  lemma BootReadable(w: World, now: int)
    requires DiskOk(w) && OnPath(w) && w.live.None?
    ensures CanRead(Boot(w, now)) <==> CanRead(w)
    ensures AllReadable(Boot(w, now).disk) <==> AllReadable(w.disk)
  {
    BootOnPath(w, now);
    SameStateReadable(Boot(w, now).disk, w.disk);
    BootAllReadable(w, now);
  }

  /** Once it cannot be read, no call changes the log any more: the project is stuck. */
  lemma UnreadableIsForGood(w: World, s: Step)
    requires DiskOk(w) && OnPath(w) && Enabled(w, s) && StateOf(w.disk).Err?
    ensures StateOf(Next(w, s).disk).Err?
    ensures !s.Restart? ==> Next(w, s).disk == w.disk
  {
    if s.Restart? {
      BootOnPath(w, s.now);
    }
  }

  lemma StepReadableIff(w: World, s: Step)
    requires DiskOk(w) && OnPath(w) && Enabled(w, s)
    requires CanRead(w) <==> AllReadable(w.disk)
    ensures CanRead(Next(w, s)) <==> AllReadable(Next(w, s).disk)
  {
    if s.Restart? {
      BootReadable(w, s.now);
    } else if !CanRead(w) {
      UnreadableIsForGood(w, s);
    } else if Next(w, s).disk != w.disk {
      match s
      case Register(project, actor, workOrder, branch, now) => RegisterReadableIff(w, w.live.value, project, actor, workOrder, branch, now);
      case Transit(q, now) => TransitionReadableIff(w, w.live.value, q, now);
      case Activate(id, actor, now) => ActivateReadableIff(w, w.live.value, id, actor, now);
      case Crash(_) =>
    }
  }

  /**
   * After every run the project can be read if and only if no registration, activation
   * or accepted transition in its log carries an empty or non-string value.
   */
  lemma {:induction false} StaysReadableIff(steps: seq<Step>)
    requires IsRun(steps)
    ensures CanRead(After(steps)) <==> AllReadable(After(steps).disk)
    decreases |steps|
  {
    if steps != [] {
      var before := steps[..|steps| - 1];
      StaysReadableIff(before);
      LogIsAPath(before);
      StepReadableIff(After(before), steps[|steps| - 1]);
    }
  }
}

/** The registry of one project over its event store. */
module ProjectRegistries {
  import opened Wrappers
  import opened Events
  import opened Registry
  import SM = StateMachine
  import EventLog
  import EventStores

  class ProjectRegistry {
    const store: EventStores.EventStore
    /** The contents of STATE.json. */
    var snapshot: Option<ProjectState>
    ghost var path: seq<SM.Step>

    ghost function View(): World
      reads this, store
    {
      World(store.events, false, Some(store.View()), snapshot, path)
    }

    constructor (store: EventStores.EventStore, snapshot: Option<ProjectState>, ghost path: seq<SM.Step>)
      ensures this.store == store && this.snapshot == snapshot && this.path == path
    {
      this.store, this.snapshot, this.path := store, snapshot, path;
    }

    /** `state`: the replay of the log through the reducer. */
    method State() returns (r: Result<Option<ProjectState>, RegistryError>)
      ensures r == StateOf(store.events)
    {
      var acc: Option<ProjectState> := None;
      for i := 0 to |store.events|
        invariant acc == Fold(store.events[..i])
      {
        assert store.events[..i + 1][..i] == store.events[..i];
        acc := Reduce(acc, store.events[i]);
      }
      assert store.events[..|store.events|] == store.events;
      if acc.Some? && !ValidState(acc.value) {
        return Err(Unreadable);
      }
      r := Ok(acc);
    }

    method WriteSnapshot() returns (r: Result<ProjectState, RegistryError>)
      modifies this`snapshot
      ensures (View(), r) == PersistSnapshot(old(View()))
    {
      var s := State();
      if s.Err? {
        return Err(s.error);
      }
      snapshot := s.value;
      if s.value.None? {
        return Err(NotRegistered);
      }
      r := Ok(s.value.value);
    }

    method Register(project: string, actor: string, workOrder: Option<SM.Datum>, branch: Option<SM.Datum>, now: int)
      returns (r: Result<ProjectState, RegistryError>)
      requires store.Valid()
      modifies this`snapshot, store, store.file
      ensures store.Valid()
      ensures (View(), r) == DoRegister(old(View()), old(store.View()), project, actor, workOrder, branch, now)
    {
      var existing := State();
      if existing.Err? {
        return Err(existing.error);
      }
      if existing.value.Some? {
        return Ok(existing.value.value);
      }
      var logged := store.Append(Event(actor, None, ProjectRegistered(project, workOrder, BranchOf(branch))), now);
      if logged.Err? {
        return Err(NotLogged);
      }
      r := WriteSnapshot();
    }

    method Transition(q: Request, now: int) returns (r: Result<ProjectState, RegistryError>)
      requires store.Valid()
      modifies this, store, store.file
      ensures store.Valid()
      ensures (View(), r) == DoTransition(old(View()), old(store.View()), q, now)
      ensures r.Ok? ==> Recovered(View())
    {
      var current := State();
      if current.Err? {
        return Err(current.error);
      }
      if current.value.None? {
        return Err(NotRegistered);
      }
      var v := SM.ValidateTransition(current.value.value.status, q.on, q.ctx);
      if v.Err? {
        return Err(Refused(v.error));
      }
      var logged := store.Append(TransitionEvent(q, v.value), now);
      if logged.Err? {
        return Err(NotLogged);
      }
      if !logged.value.1 {
        path := path + [SM.Step(v.value, q.ctx)];
      }
      r := WriteSnapshot();
    }

    method ActivateWorkOrder(workOrderId: Option<SM.Datum>, actor: string, now: int) returns (r: Result<ProjectState, RegistryError>)
      requires store.Valid()
      modifies this`snapshot, store, store.file
      ensures store.Valid()
      ensures (View(), r) == DoActivate(old(View()), old(store.View()), workOrderId, actor, now)
      ensures r.Ok? ==> Recovered(View())
    {
      var current := State();
      if current.Err? {
        return Err(current.error);
      }
      if current.value.None? {
        return Err(NotRegistered);
      }
      var s := current.value.value;
      if s.workOrder.Some? && !SM.IsTerminal(s.status) {
        if s.workOrder != workOrderId {
          return Err(ActiveWorkOrder);
        }
      }
      var logged := store.Append(Event(actor, None, WorkOrderActivated(workOrderId)), now);
      if logged.Err? {
        return Err(NotLogged);
      }
      r := WriteSnapshot();
    }
  }
}

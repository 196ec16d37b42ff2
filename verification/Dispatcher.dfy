/**
 * Dispatch of a work order to a worker (src/supervisor/dispatcher.mjs): a chain
 * of guards, then a lease, then a log entry.
 */
module Dispatching {
  import opened Wrappers
  import opened Events
  import opened Leases
  import opened Hashing
  import EventLog
  import Json
  import ScopeContracts
  import ScopeMeet
  import ScopeRequests
  import StateMachine

  datatype Args = Args(
    project: string, workOrder: Json.Value, expected: Option<Digest>, state: StateMachine.State,
    workerClass: string, actor: Actor, budgetValid: bool, decision: ScopeMeet.Decision)

  datatype DispatchError =
    | ScopeInvalid | WorkOrderInvalid | StateForbidsDispatch | WrongWorkerClass | HashMismatch | BudgetInvalid
    | DuplicateDispatch | NotLogged

  /** `SPEC.workerClasses` */
  function WorkerClassOf(s: StateMachine.State): Option<string> {
    match s
    case READY => Some("builder")
    case CHANGES_REQUESTED => Some("builder")
    case READY_FOR_REVIEW => Some("reviewer")
    case _ => None
  }

  /** `WORKER_SCOPE_ROLES` */
  function RequiredRole(workerClass: string): Option<string> {
    if workerClass == "builder" then Some("builder") else if workerClass == "reviewer" then Some("reviewer") else None
  }

  predicate ScopeAllows(a: Args) {
    && ScopeRequests.ValidDecision(a.decision)
    && (a.decision.verdict.Allow? || a.decision.verdict.Narrow?) && a.decision.effective.Some?
    && a.decision.effective.value.project == a.project
    && RequiredRole(a.workerClass).Some?
    && ScopeContracts.Roles in a.decision.effective.value.sets
    && RequiredRole(a.workerClass).value in a.decision.effective.value.sets[ScopeContracts.Roles]
  }

  function IdOf(workOrder: Json.Value): string {
    var id := Get(workOrder, "id");
    if id.Str? then id.s else ""
  }

  /** The guards in turn, once the scope decision is judged. `validateWorkOrder` is a parameter; it accepts no undefined. */
  function GuardChain(allowed: bool, a: Args, wellFormed: Json.Value -> bool): Option<DispatchError> {
    if !allowed then Some(ScopeInvalid)
    else if a.workOrder.Undefined? || !wellFormed(a.workOrder) then Some(WorkOrderInvalid)
    else if WorkerClassOf(a.state).None? then Some(StateForbidsDispatch)
    else if WorkerClassOf(a.state).value != a.workerClass then Some(WrongWorkerClass)
    else if a.expected.Some? && DigestOf(a.workOrder) != a.expected.value then Some(HashMismatch)
    else if !a.budgetValid then Some(BudgetInvalid)
    else None
  }

  function Guard(a: Args, wellFormed: Json.Value -> bool): Option<DispatchError> {
    GuardChain(ScopeAllows(a), a, wellFormed)
  }

  function LeaseKey(a: Args): string {
    Key(a.project, IdOf(a.workOrder), if a.workerClass == "reviewer" then "review" else "build")
  }

  /** `workOrderHash`; undefined has none, and no guard lets it through. */
  function HashOf(workOrder: Json.Value): Digest {
    if workOrder.Undefined? then Sha256("") else DigestOf(workOrder)
  }

  function PacketOf(a: Args, lease: Lease): Packet {
    Packet(a.project, IdOf(a.workOrder), HashOf(a.workOrder), a.workerClass, lease.key, lease.token)
  }

  function Decimal(n: nat): string {
    if n < 10 then [('0' as int + n) as char] else Decimal(n / 10) + [('0' as int + n % 10) as char]
  }

  function DispatchEvent(a: Args, lease: Lease): Event {
    Event(Signature(a.actor), Some("dispatch:" + lease.key + ":" + Decimal(lease.token)), WorkerDispatched(PacketOf(a, lease)))
  }

  /** The steps behind the guards: the lease, then the log entry. */
  function Proceed(w: World, l: Live, ttl: int, a: Args, now: int): (World, Result<Packet, DispatchError>) {
    var (taken, r) := DoAcquire(w, l, ttl, LeaseKey(a), a.actor, now);
    match r
    case Err(LeaseHeld) => (taken, Err(DuplicateDispatch))
    case Err(_) => (taken, Err(DispatchError.NotLogged))
    case Ok(lease) => (DoLog(taken, taken.live.value, DispatchEvent(a, lease), now), Ok(PacketOf(a, lease)))
  }

  function Attempt(refused: Option<DispatchError>, w: World, l: Live, ttl: int, a: Args, now: int): (World, Result<Packet, DispatchError>) {
    if refused.Some? then (w, Err(refused.value)) else Proceed(w, l, ttl, a, now)
  }

  /** `dispatch`, on the process `l` of `w`. */
  function Dispatch(w: World, l: Live, ttl: int, a: Args, wellFormed: Json.Value -> bool, now: int): (World, Result<Packet, DispatchError>) {
    Attempt(Guard(a, wellFormed), w, l, ttl, a, now)
  }

  // ---------------------------------------------------------------- one dispatch

  lemma ChainIff(allowed: bool, a: Args, wellFormed: Json.Value -> bool)
    ensures GuardChain(allowed, a, wellFormed).None? <==>
            && allowed && !a.workOrder.Undefined? && wellFormed(a.workOrder)
            && WorkerClassOf(a.state) == Some(a.workerClass) && a.budgetValid
            && (a.expected.Some? ==> a.expected.value == HashOf(a.workOrder))
  {
  }

  lemma GuardIff(a: Args, wellFormed: Json.Value -> bool)
    ensures Guard(a, wellFormed).None? <==>
            && ScopeAllows(a) && !a.workOrder.Undefined? && wellFormed(a.workOrder)
            && WorkerClassOf(a.state) == Some(a.workerClass) && a.budgetValid
            && (a.expected.Some? ==> a.expected.value == HashOf(a.workOrder))
  {
    ChainIff(ScopeAllows(a), a, wellFormed);
  }

  lemma AttemptIff(refused: Option<DispatchError>, w: World, l: Live, ttl: int, a: Args, now: int)
    ensures Attempt(refused, w, l, ttl, a, now).1.Ok? <==> refused.None? && !Held(l.state, LeaseKey(a), now) && Named(a.actor)
  {
  }

  /**
   * A packet is handed out exactly when the scope decision is valid, allows the
   * project and has the worker's role; the state permits that class of worker;
   * the work order is the one that was scheduled; the budget holds; and nobody
   * holds the lease.
   */
  lemma DispatchedIff(w: World, l: Live, ttl: int, a: Args, wellFormed: Json.Value -> bool, now: int)
    ensures Dispatch(w, l, ttl, a, wellFormed, now).1.Ok? <==>
            && ScopeAllows(a) && !a.workOrder.Undefined? && wellFormed(a.workOrder)
            && WorkerClassOf(a.state) == Some(a.workerClass) && a.budgetValid
            && (a.expected.Some? ==> a.expected.value == HashOf(a.workOrder))
            && !Held(l.state, LeaseKey(a), now) && Named(a.actor)
  {
    GuardIff(a, wellFormed);
    AttemptIff(Guard(a, wellFormed), w, l, ttl, a, now);
  }

  lemma RefusedAttempt(refused: Option<DispatchError>, w: World, l: Live, ttl: int, a: Args, now: int)
    requires w.live == Some(l) && Attempt(refused, w, l, ttl, a, now).1.Err?
    ensures Attempt(refused, w, l, ttl, a, now).0 != w <==> refused.None? && !Held(l.state, LeaseKey(a), now) && !Named(a.actor)
    ensures Attempt(refused, w, l, ttl, a, now).0.disk == w.disk
  {
    if refused.None? && !Held(l.state, LeaseKey(a), now) && !Named(a.actor) {
      var lease := NewLease(l.state, LeaseKey(a), a.actor, now, ttl);
      assert Take(l.state, lease).counter != l.state.counter;
    }
  }

  /** A refused dispatch changes leases or log exactly when it passed every guard, found the lease free, and had no actor. */
  lemma RefusedChangesIff(w: World, l: Live, ttl: int, a: Args, wellFormed: Json.Value -> bool, now: int)
    requires w.live == Some(l) && Dispatch(w, l, ttl, a, wellFormed, now).1.Err?
    ensures Dispatch(w, l, ttl, a, wellFormed, now).0 != w <==>
            Guard(a, wellFormed).None? && !Held(l.state, LeaseKey(a), now) && !Named(a.actor)
    ensures Dispatch(w, l, ttl, a, wellFormed, now).0.disk == w.disk
  {
    RefusedAttempt(Guard(a, wellFormed), w, l, ttl, a, now);
  }

  /** What a successful attempt makes of the world: its own lease, with the token in the packet. */
  ghost predicate Takes(w: World, l: Live, ttl: int, a: Args, now: int, v: World, p: Packet) {
    var lease := NewLease(l.state, LeaseKey(a), a.actor, now, ttl);
    && v.history == w.history + [Granted(lease)] && p == PacketOf(a, lease)
    && v.live.Some? && v.live.value.state == Take(l.state, lease)
  }

  /** The two log entries of a successful attempt, in their order. */
  ghost predicate Logs(l: Live, ttl: int, a: Args, now: int, v: World) {
    var lease, n := NewLease(l.state, LeaseKey(a), a.actor, now, ttl), |l.log.events|;
    && |v.disk| == n + 2 && v.disk[..n] == l.log.events
    && v.disk[n].event == Event(Signature(a.actor), None, LeaseAcquired(lease)) && v.disk[n + 1].event == DispatchEvent(a, lease)
  }

  lemma AttemptTakes(refused: Option<DispatchError>, w: World, l: Live, ttl: int, a: Args, now: int)
    requires w.live == Some(l) && Attempt(refused, w, l, ttl, a, now).1.Ok?
    ensures var (v, r) := Attempt(refused, w, l, ttl, a, now); Takes(w, l, ttl, a, now, v, r.value)
  {
  }

  lemma AttemptLogs(refused: Option<DispatchError>, w: World, l: Live, ttl: int, a: Args, now: int)
    requires w.live == Some(l) && Attempt(refused, w, l, ttl, a, now).1.Ok?
    requires DispatchEvent(a, NewLease(l.state, LeaseKey(a), a.actor, now, ttl)).key.value !in l.log.byKey
    ensures Logs(l, ttl, a, now, Attempt(refused, w, l, ttl, a, now).0)
  {
  }

  /** A dispatch takes exactly its own lease and, unless its key is in the log already, writes lease and packet to the log. */
  lemma DispatchTakes(w: World, l: Live, ttl: int, a: Args, wellFormed: Json.Value -> bool, now: int)
    requires w.live == Some(l) && Dispatch(w, l, ttl, a, wellFormed, now).1.Ok?
    ensures var (v, r) := Dispatch(w, l, ttl, a, wellFormed, now);
            && Takes(w, l, ttl, a, now, v, r.value)
            && (DispatchEvent(a, NewLease(l.state, LeaseKey(a), a.actor, now, ttl)).key.value !in l.log.byKey ==> Logs(l, ttl, a, now, v))
  {
    AttemptTakes(Guard(a, wellFormed), w, l, ttl, a, now);
    if DispatchEvent(a, NewLease(l.state, LeaseKey(a), a.actor, now, ttl)).key.value !in l.log.byKey {
      AttemptLogs(Guard(a, wellFormed), w, l, ttl, a, now);
    }
  }

  // ---------------------------------------------------------------- runs

  // For any guards whatever: what they let through takes a lease.

  datatype DStep = Send(args: Args, now: int) | Other(step: Step)

  datatype DWorld = DWorld(base: World, packets: seq<Packet>)

  predicate CanTake(w: World, s: DStep) {
    match s
    case Send(_, _) => w.live.Some?
    case Other(step) => Enabled(w, step)
  }

  function Move(ttl: int, guard: Args -> Option<DispatchError>, d: DWorld, s: DStep): DWorld
    requires CanTake(d.base, s)
  {
    match s
    case Other(step) => d.(base := Next(ttl, d.base, step))
    case Send(a, now) =>
      var (v, r) := Attempt(guard(a), d.base, d.base.live.value, ttl, a, now);
      DWorld(v, if r.Ok? then d.packets + [r.value] else d.packets)
  }

  predicate IsDRun(ttl: int, guard: Args -> Option<DispatchError>, ds: seq<DStep>)
    decreases |ds|, 0
  {
    ds == [] ||
    (var before := ds[..|ds| - 1];
     IsDRun(ttl, guard, before) && CanTake(DAfter(ttl, guard, before).base, ds[|ds| - 1]))
  }

  function DAfter(ttl: int, guard: Args -> Option<DispatchError>, ds: seq<DStep>): DWorld
    requires IsDRun(ttl, guard, ds)
    decreases |ds|, 1
  {
    if ds == [] then DWorld(START, [])
    else Move(ttl, guard, DAfter(ttl, guard, ds[..|ds| - 1]), ds[|ds| - 1])
  }

  predicate ActorNamed(s: DStep) {
    match s case Send(a, _) => Named(a.actor) case Other(step) => HolderNamed(step)
  }

  predicate ActorsNamed(ds: seq<DStep>) {
    forall i :: 0 <= i < |ds| ==> ActorNamed(ds[i])
  }

  /** When a step asks for a lease, if it does. */
  function AsksAt(s: DStep): Option<int> {
    match s
    case Send(_, now) => Some(now)
    case Other(step) => if step.Acquire? then Some(step.now) else None
  }

  predicate NoneAskedAfter(ds: seq<DStep>, now: int) {
    forall i {:trigger AsksAt(ds[i])} :: 0 <= i < |ds| && AsksAt(ds[i]).Some? ==> AsksAt(ds[i]).value <= now
  }

  /** The clock that leases are asked by never goes back. */
  predicate AskedOnward(ds: seq<DStep>) {
    forall i, j {:trigger AsksAt(ds[i]), AsksAt(ds[j])} :: 0 <= i < j < |ds| && AsksAt(ds[i]).Some? && AsksAt(ds[j]).Some? ==>
      AsksAt(ds[i]).value <= AsksAt(ds[j]).value
  }

  /** The lease steps that a dispatch step amounts to. */
  function Lowered(w: World, ttl: int, guard: Args -> Option<DispatchError>, s: DStep): seq<Step>
    requires CanTake(w, s)
  {
    match s
    case Other(step) => [step]
    case Send(a, now) =>
      if guard(a).Some? then []
      else
        var (v, r) := DoAcquire(w, w.live.value, ttl, LeaseKey(a), a.actor, now);
        [Acquire(LeaseKey(a), a.actor, now)] + (if r.Ok? then [LogOther(DispatchEvent(a, r.value), now)] else [])
  }

  lemma ExtendTwo(ttl: int, steps: seq<Step>, s: Step, t: Step)
    requires IsRun(ttl, steps) && Enabled(After(ttl, steps), s) && Enabled(Next(ttl, After(ttl, steps), s), t)
    ensures IsRun(ttl, steps + [s, t]) && After(ttl, steps + [s, t]) == Next(ttl, Next(ttl, After(ttl, steps), s), t)
  {
    Extend(ttl, steps, s);
    Extend(ttl, steps + [s], t);
    assert steps + [s, t] == steps + [s] + [t];
  }

  /** A dispatch is its lease steps, one after the other. */
  lemma LoweredSteps(w: World, ttl: int, guard: Args -> Option<DispatchError>, a: Args, now: int)
    requires w.live.Some?
    ensures var more, v := Lowered(w, ttl, guard, Send(a, now)), Attempt(guard(a), w, w.live.value, ttl, a, now).0;
            && |more| <= 2
            && (|more| == 0 ==> v == w)
            && (|more| >= 1 ==> Enabled(w, more[0]))
            && (|more| == 1 ==> v == Next(ttl, w, more[0]))
            && (|more| == 2 ==> Enabled(Next(ttl, w, more[0]), more[1]) && v == Next(ttl, Next(ttl, w, more[0]), more[1]))
  {
  }

  lemma LoweredNamed(w: World, ttl: int, guard: Args -> Option<DispatchError>, s: DStep)
    requires CanTake(w, s) && ActorNamed(s)
    ensures HoldersNamed(Lowered(w, ttl, guard, s))
  {
  }

  predicate AllAskedAt(steps: seq<Step>, t: Option<int>) {
    forall i :: 0 <= i < |steps| && steps[i].Acquire? ==> t == Some(steps[i].now)
  }

  lemma LoweredAsks(w: World, ttl: int, guard: Args -> Option<DispatchError>, s: DStep)
    requires CanTake(w, s)
    ensures AllAskedAt(Lowered(w, ttl, guard, s), AsksAt(s)) && ClockOnward(Lowered(w, ttl, guard, s))
  {
  }

  lemma NoneAfterJoined(a: seq<Step>, b: seq<Step>, now: int)
    requires NoneAfter(a, now) && NoneAfter(b, now)
    ensures NoneAfter(a + b, now)
  {
  }

  lemma OnwardJoined(a: seq<Step>, b: seq<Step>, t: Option<int>)
    requires ClockOnward(a) && ClockOnward(b) && AllAskedAt(b, t) && (t.Some? ==> NoneAfter(a, t.value))
    ensures ClockOnward(a + b)
  {
    var all := a + b;
    forall i, j | 0 <= i < j < |all| && all[i].Acquire? && all[j].Acquire?
      ensures all[i].now <= all[j].now
    {
      if j >= |a| {
        assert all[j] == b[j - |a|];
        if i >= |a| { assert all[i] == b[i - |a|]; }
      }
    }
  }

  /** The clock of the dispatches is the clock of the lease steps. */
  ghost predicate SameClock(ds: seq<DStep>, steps: seq<Step>) {
    && (AskedOnward(ds) ==> ClockOnward(steps))
    && forall now {:trigger NoneAskedAfter(ds, now)} :: NoneAskedAfter(ds, now) ==> NoneAfter(steps, now)
  }

  lemma SameClockJoined(before: seq<DStep>, s: DStep, first: seq<Step>, w: World, ttl: int, guard: Args -> Option<DispatchError>)
    requires SameClock(before, first) && CanTake(w, s)
    ensures SameClock(before + [s], first + Lowered(w, ttl, guard, s))
  {
    var ds, more := before + [s], Lowered(w, ttl, guard, s);
    assert ds[|before|] == s && forall i :: 0 <= i < |before| ==> ds[i] == before[i];
    LoweredAsks(w, ttl, guard, s);
    forall now {:trigger NoneAskedAfter(ds, now)} | NoneAskedAfter(ds, now) ensures NoneAfter(first + more, now) {
      assert forall i :: 0 <= i < |before| ==> AsksAt(ds[i]) == AsksAt(before[i]);
      assert NoneAskedAfter(before, now);
      assert AsksAt(ds[|before|]) == AsksAt(s);
      NoneAfterJoined(first, more, now);
    }
    if AskedOnward(ds) {
      assert AskedOnward(before) by { assert forall i :: 0 <= i < |before| ==> AsksAt(ds[i]) == AsksAt(before[i]); }
      if AsksAt(s).Some? {
        assert NoneAskedAfter(before, AsksAt(s).value) by {
          assert AsksAt(ds[|before|]) == AsksAt(s);
          assert forall i :: 0 <= i < |before| ==> AsksAt(ds[i]) == AsksAt(before[i]);
        }
      }
      OnwardJoined(first, more, AsksAt(s));
    }
  }

  /** Appending the lowered steps of a step to a run. */
  lemma LoweredExtends(ttl: int, guard: Args -> Option<DispatchError>, steps: seq<Step>, packets: seq<Packet>, s: DStep)
    requires IsRun(ttl, steps) && CanTake(After(ttl, steps), s)
    ensures var w := After(ttl, steps);
            var all := steps + Lowered(w, ttl, guard, s);
            IsRun(ttl, all) && After(ttl, all) == Move(ttl, guard, DWorld(w, packets), s).base
  {
    var w := After(ttl, steps);
    var more := Lowered(w, ttl, guard, s);
    match s
    case Other(step) => Extend(ttl, steps, step);
    case Send(a, now) =>
      LoweredSteps(w, ttl, guard, a, now);
      if |more| == 0 {
        assert steps + more == steps;
      } else if |more| == 1 {
        Extend(ttl, steps, more[0]);
        assert more == [more[0]];
      } else {
        ExtendTwo(ttl, steps, more[0], more[1]);
        assert more == [more[0], more[1]];
      }
  }

  ghost predicate GrantedAt(h: seq<Happening>, g: nat, p: Packet) {
    g < |h| && h[g].Granted? && h[g].lease.key == p.leaseKey && h[g].lease.token == p.token
  }

  ghost predicate Backed(h: seq<Happening>, p: Packet) {
    exists g: nat :: GrantedAt(h, g, p)
  }

  /** Each packet goes back to a grant, and their tokens ascend. */
  ghost predicate PacketsBacked(d: DWorld) {
    && (forall i {:trigger d.packets[i]} :: 0 <= i < |d.packets| ==> Backed(d.base.history, d.packets[i]))
    && forall i, j {:trigger d.packets[i], d.packets[j]} :: 0 <= i < j < |d.packets| ==> d.packets[i].token < d.packets[j].token
  }

  lemma HistoryGrows(ttl: int, w: World, s: Step)
    requires Enabled(w, s)
    ensures w.history <= Next(ttl, w, s).history
  {
  }

  lemma StillBacked(h: seq<Happening>, g: seq<Happening>, p: Packet)
    requires h <= g && Backed(h, p)
    ensures Backed(g, p)
  {
    var i: nat :| GrantedAt(h, i, p);
    assert GrantedAt(g, i, p);
  }

  /** Packets stay backed when the history grows, and one whose grant is new comes last. */
  lemma PacketsGrow(d: DWorld, e: DWorld, p: Option<Packet>)
    requires PacketsBacked(d) && d.base.history <= e.base.history
    requires p.None? ==> e.packets == d.packets
    requires p.Some? ==> e.packets == d.packets + [p.value] && GrantedAt(e.base.history, |d.base.history|, p.value) && TokensGrow(e.base.history)
    ensures PacketsBacked(e)
  {
    var h, g := d.base.history, e.base.history;
    forall i {:trigger d.packets[i]} | 0 <= i < |d.packets| ensures Backed(g, d.packets[i]) {
      StillBacked(h, g, d.packets[i]);
    }
    if p.Some? {
      forall i | 0 <= i < |d.packets| ensures d.packets[i].token < p.value.token {
        var j: nat :| GrantedAt(h, j, d.packets[i]);
        assert g[j] == h[j];
      }
    }
  }

  lemma MoveKeepsBacked(ttl: int, guard: Args -> Option<DispatchError>, d: DWorld, s: DStep)
    requires CanTake(d.base, s) && PacketsBacked(d) && TokensGrow(Move(ttl, guard, d, s).base.history)
    ensures PacketsBacked(Move(ttl, guard, d, s))
  {
    var e := Move(ttl, guard, d, s);
    match s
    case Other(step) =>
      HistoryGrows(ttl, d.base, step);
      PacketsGrow(d, e, None);
    case Send(a, now) =>
      var (v, r) := Attempt(guard(a), d.base, d.base.live.value, ttl, a, now);
      if r.Ok? {
        AttemptTakes(guard(a), d.base, d.base.live.value, ttl, a, now);
        PacketsGrow(d, e, Some(r.value));
      } else {
        PacketsGrow(d, e, None);
      }
  }

  /** A run of dispatches is a run of the lease manager. */
  lemma {:induction false} RunIsLeaseRun(ttl: int, guard: Args -> Option<DispatchError>, ds: seq<DStep>) returns (steps: seq<Step>)
    requires IsDRun(ttl, guard, ds)
    ensures IsRun(ttl, steps) && After(ttl, steps) == DAfter(ttl, guard, ds).base
    ensures ActorsNamed(ds) ==> HoldersNamed(steps)
    ensures SameClock(ds, steps)
    ensures PacketsBacked(DAfter(ttl, guard, ds))
    decreases |ds|
  {
    if ds == [] {
      steps := [];
    } else {
      var before, s := ds[..|ds| - 1], ds[|ds| - 1];
      var first := RunIsLeaseRun(ttl, guard, before);
      var d := DAfter(ttl, guard, before);
      LoweredExtends(ttl, guard, first, d.packets, s);
      steps := first + Lowered(d.base, ttl, guard, s);
      TokensStrictlyIncrease(ttl, steps);
      MoveKeepsBacked(ttl, guard, d, s);
      assert ds == before + [s];
      SameClockJoined(before, s, first, d.base, ttl, guard);
      if ActorsNamed(ds) {
        assert ActorsNamed(before);
        assert HoldersNamed(first);
        LoweredNamed(d.base, ttl, guard, s);
      }
    }
  }

  /**
   * Two packets for one lease key, in any run: between the grant behind the
   * first and the grant behind the second, the first lease was released, or the
   * key was granted again after it had expired. This takes actors with names, or
   * a clock that never goes back.
   */
  lemma DispatchesAreSeparated(ttl: int, guard: Args -> Option<DispatchError>, ds: seq<DStep>, i: nat, j: nat) returns (a: nat, b: nat, k: nat)
    requires IsDRun(ttl, guard, ds) && (ActorsNamed(ds) || AskedOnward(ds))
    requires var ps := DAfter(ttl, guard, ds).packets; i < j < |ps| && ps[i].leaseKey == ps[j].leaseKey
    ensures var d := DAfter(ttl, guard, ds);
            && GrantedAt(d.base.history, a, d.packets[i]) && GrantedAt(d.base.history, b, d.packets[j])
            && a < k <= b && Over(d.base.history, a, k)
  {
    var steps := RunIsLeaseRun(ttl, guard, ds);
    var d := DAfter(ttl, guard, ds);
    var h := d.base.history;
    assert Backed(h, d.packets[i]) && Backed(h, d.packets[j]);
    a :| GrantedAt(h, a, d.packets[i]);
    b :| GrantedAt(h, b, d.packets[j]);
    TokensStrictlyIncrease(ttl, steps);
    assert d.packets[i].token < d.packets[j].token;
    assert a < b;
    k := GrantsAreSeparated(ttl, steps, a, b);
  }
}

/** The dispatcher over a lease manager and its event store. */
module Dispatchers {
  import opened Wrappers
  import opened Events
  import opened Dispatching
  import opened Hashing
  import Leases
  import LeaseManagers
  import Json

  class Dispatcher {
    const leases: LeaseManagers.LeaseManager

    constructor (leases: LeaseManagers.LeaseManager)
      ensures this.leases == leases
    {
      this.leases := leases;
    }

    /** The guards, in order. */
    method Check(a: Args, wellFormed: Json.Value -> bool) returns (refused: Option<DispatchError>)
      ensures refused == Guard(a, wellFormed)
    {
      if !ScopeAllows(a) { return Some(ScopeInvalid); }
      if a.workOrder.Undefined? || !wellFormed(a.workOrder) { return Some(WorkOrderInvalid); }
      var permitted := WorkerClassOf(a.state);
      if permitted.None? { return Some(StateForbidsDispatch); }
      if permitted.value != a.workerClass { return Some(WrongWorkerClass); }
      if a.expected.Some? && DigestOf(a.workOrder) != a.expected.value { return Some(HashMismatch); }
      if !a.budgetValid { return Some(BudgetInvalid); }
      refused := None;
    }

    /** Behind the guards: the lease, then the log. */
    method HandOut(a: Args, now: int) returns (r: Result<Packet, DispatchError>)
      requires leases.store.Valid()
      modifies leases, leases.store, leases.store.file
      ensures leases.store.Valid()
      ensures (leases.View(), r) == Proceed(old(leases.View()), old(leases.Process()), leases.ttlMs, a, now)
    {
      var phase := if a.workerClass == "reviewer" then "review" else "build";
      var lease := leases.Acquire(a.project, IdOf(a.workOrder), phase, a.actor, now);
      if lease.Err? {
        return Err(if lease.error.LeaseHeld? then DuplicateDispatch else DispatchError.NotLogged);
      }
      var packet := Packet(a.project, IdOf(a.workOrder), HashOf(a.workOrder), a.workerClass, lease.value.key, lease.value.token);
      var logged := leases.store.Append(DispatchEvent(a, lease.value), now);
      r := Ok(packet);
    }

    /** `dispatch`: the guards in order, then the lease, then the log. */
    method Dispatch(a: Args, wellFormed: Json.Value -> bool, now: int) returns (r: Result<Packet, DispatchError>)
      requires leases.store.Valid()
      modifies leases, leases.store, leases.store.file
      ensures leases.store.Valid()
      ensures (leases.View(), r) == Dispatching.Dispatch(old(leases.View()), old(leases.Process()), leases.ttlMs, a, wellFormed, now)
    {
      var refused := Check(a, wellFormed);
      if refused.Some? { return Err(refused.value); }
      r := HandOut(a, now);
    }
  }
}

/**
 * Leases with fencing tokens (src/supervisor/lease-manager.mjs): the manager's
 * state, its operations, and whole runs of it over one event log.
 */
module Leases {
  import opened Wrappers
  import opened Events
  import EventLog

  /** The manager's two fields. */
  datatype State = State(leases: map<string, Lease>, counter: nat)

  const NO_LEASES := State(map[], 0)

  datatype LeaseError = LeaseHeld | NoLease | FencingMismatch | StaleToken | LeaseExpired | NotLogged

  function Key(project: string, workOrderId: string, phase: string): string {
    project + "::" + workOrderId + "::" + phase
  }

  // ---------------------------------------------------------------- operations

  /** The recovery loop's step. */
  function Recall(s: State, body: Body): State {
    match body
    case LeaseAcquired(l) => State(s.leases[l.key := l], if s.counter < l.token then l.token else s.counter)
    case LeaseReleased(key, token) =>
      if key in s.leases && s.leases[key].token == token then s.(leases := s.leases - {key}) else s
    case _ => s
  }

  function Recover(events: seq<Record>): State {
    if events == [] then NO_LEASES else Recall(Recover(events[..|events| - 1]), events[|events| - 1].event.body)
  }

  /** Held by somebody whose time is not up. */
  predicate Held(s: State, key: string, now: int) {
    key in s.leases && !s.leases[key].released && now < s.leases[key].expiresAt
  }

  function NewLease(s: State, key: string, holder: Actor, now: int, ttl: int): Lease {
    Lease(key, holder, s.counter + 1, now, now + ttl, false)
  }

  function Take(s: State, l: Lease): State {
    State(s.leases[l.key := l], l.token)
  }

  /** Who may release: the current holder with the current token. */
  function MayRelease(s: State, key: string, holder: Actor, token: nat): Option<LeaseError> {
    if key !in s.leases || s.leases[key].released then Some(NoLease)
    else if s.leases[key].holder != holder || s.leases[key].token != token then Some(FencingMismatch)
    else None
  }

  /** The fencing check of a write. */
  function AssertCurrent(s: State, key: string, token: nat, now: int): Result<Lease, LeaseError> {
    if key !in s.leases || s.leases[key].released then Err(NoLease)
    else if s.leases[key].token != token then Err(StaleToken)
    else if s.leases[key].expiresAt <= now then Err(LeaseExpired)
    else Ok(s.leases[key])
  }

  // ---------------------------------------------------------------- runs

  /** A lease handed to a caller, or one given back. */
  datatype Happening = Granted(lease: Lease) | Released(key: string, token: nat)

  datatype Live = Live(log: EventLog.Log, state: State)

  datatype World = World(disk: seq<Record>, torn: bool, live: Option<Live>, history: seq<Happening>)

  const START := World([], false, None, [])

  datatype Step =
    | Acquire(key: string, holder: Actor, now: int)
    | Release(key: string, holder: Actor, token: nat, now: int)
    | LogOther(e: Event, now: int)
    | Crash(torn: bool)
    | Restart(now: int)

  predicate LeaseBody(b: Body) {
    b.LeaseAcquired? || b.LeaseReleased?
  }

  predicate Enabled(w: World, s: Step) {
    match s
    case Restart(_) => w.live.None?
    case LogOther(e, _) => w.live.Some? && !LeaseBody(e.body)
    case _ => w.live.Some?
  }

  /** `acquire`: the map changes first; with a holder that is no non-empty text the log then refuses the event. */
  function DoAcquire(w: World, l: Live, ttl: int, key: string, holder: Actor, now: int): (World, Result<Lease, LeaseError>) {
    if Held(l.state, key, now) then (w, Err(LeaseHeld))
    else
      var lease := NewLease(l.state, key, holder, now, ttl);
      var taken := l.(state := Take(l.state, lease));
      match EventLog.Append(l.log, Event(Signature(holder), None, LeaseAcquired(lease)), now) {
        case Err(_) => (w.(live := Some(taken)), Err(NotLogged))
        case Ok(a) => (w.(disk := a.log.events, live := Some(taken.(log := a.log)), history := w.history + [Granted(lease)]), Ok(lease))
      }
  }

  function DoRelease(w: World, l: Live, key: string, holder: Actor, token: nat, now: int): (World, Option<LeaseError>) {
    var refused := MayRelease(l.state, key, holder, token);
    if refused.Some? then (w, refused)
    else
      var freed := l.(state := l.state.(leases := l.state.leases - {key}));
      match EventLog.Append(l.log, Event(Signature(holder), None, LeaseReleased(key, token)), now) {
        case Err(_) => (w.(live := Some(freed)), Some(NotLogged))
        case Ok(a) => (w.(disk := a.log.events, live := Some(freed.(log := a.log)), history := w.history + [Released(key, token)]), None)
      }
  }

  function DoLog(w: World, l: Live, e: Event, now: int): World {
    match EventLog.Append(l.log, e, now)
    case Err(_) => w.(live := Some(l.(log := EventLog.Refused(l.log, e))))
    case Ok(a) => w.(disk := a.log.events, live := Some(l.(log := a.log)))
  }

  function Boot(w: World, now: int): World {
    var log := EventLog.Reopen(w.disk, w.torn, now);
    w.(disk := log.events, torn := false, live := Some(Live(log, Recover(log.events))))
  }

  function Next(ttl: int, w: World, s: Step): World
    requires Enabled(w, s)
  {
    match s
    case Acquire(key, holder, now) => DoAcquire(w, w.live.value, ttl, key, holder, now).0
    case Release(key, holder, token, now) => DoRelease(w, w.live.value, key, holder, token, now).0
    case LogOther(e, now) => DoLog(w, w.live.value, e, now)
    case Crash(torn) => w.(live := None, torn := torn)
    case Restart(now) => Boot(w, now)
  }

  predicate IsRun(ttl: int, steps: seq<Step>)
    decreases |steps|, 0
  {
    steps == [] ||
    (var before := steps[..|steps| - 1];
     IsRun(ttl, before) && Enabled(After(ttl, before), steps[|steps| - 1]))
  }

  function After(ttl: int, steps: seq<Step>): World
    requires IsRun(ttl, steps)
    decreases |steps|, 1
  {
    if steps == [] then START
    else
      var before := steps[..|steps| - 1];
      Next(ttl, After(ttl, before), steps[|steps| - 1])
  }

  /** Leases are only asked for in somebody's name. */
  predicate HolderNamed(s: Step) {
    s.Acquire? ==> Named(s.holder)
  }

  predicate HoldersNamed(steps: seq<Step>) {
    forall i :: 0 <= i < |steps| ==> HolderNamed(steps[i])
  }

  // ---------------------------------------------------------------- the history as a state

  function BodyOf(x: Happening): Body {
    match x
    case Granted(l) => LeaseAcquired(l)
    case Released(k, t) => LeaseReleased(k, t)
  }

  /** What the grants and releases so far leave in force. */
  function Current(h: seq<Happening>): State {
    if h == [] then NO_LEASES else Recall(Current(h[..|h| - 1]), BodyOf(h[|h| - 1]))
  }

  lemma CurrentSnoc(h: seq<Happening>, x: Happening)
    ensures Current(h + [x]) == Recall(Current(h), BodyOf(x))
  {
    assert (h + [x])[..|h|] == h;
  }

  lemma RecoverSnoc(events: seq<Record>, r: Record)
    ensures Recover(events + [r]) == Recall(Recover(events), r.event.body)
  {
    assert (events + [r])[..|events|] == events;
  }

  /** Tokens grow from grant to grant. */
  predicate TokensGrow(h: seq<Happening>) {
    forall i, j :: 0 <= i < j < |h| && h[i].Granted? && h[j].Granted? ==> h[i].lease.token < h[j].lease.token
  }

  /** Every grant was of an unreleased lease, with a token no greater than `n`. */
  predicate GrantsSound(h: seq<Happening>, n: nat) {
    forall i {:trigger h[i]} :: 0 <= i < |h| && h[i].Granted? ==> h[i].lease.token <= n && !h[i].lease.released
  }

  predicate WasGranted(h: seq<Happening>, token: nat) {
    exists i :: 0 <= i < |h| && h[i].Granted? && h[i].lease.token == token
  }

  /** A lease in force is its key's, unreleased, and was granted. */
  predicate InForce(h: seq<Happening>, k: string, l: Lease) {
    l.key == k && !l.released && exists i :: 0 <= i < |h| && h[i] == Granted(l)
  }

  predicate CurrentGranted(h: seq<Happening>) {
    forall k {:trigger InForce(h, k, Current(h).leases[k])} :: k in Current(h).leases ==> InForce(h, k, Current(h).leases[k])
  }

  /** Each grant found its key free, or its lease expired. */
  predicate FoundFree(h: seq<Happening>, j: nat)
    requires j < |h|
  {
    h[j].Granted? ==> !Held(Current(h[..j]), h[j].lease.key, h[j].lease.acquiredAt)
  }

  predicate AllFoundFree(h: seq<Happening>) {
    forall j {:trigger FoundFree(h, j)} :: 0 <= j < |h| ==> FoundFree(h, j)
  }

  /** A live lease is the one in force, or one whose grant was never logged and so never returned. */
  predicate LiveLeaseOk(w: World, s: State, k: string)
    requires k in s.leases
  {
    && s.leases[k].token <= s.counter
    && ((k in Current(w.history).leases && s.leases[k] == Current(w.history).leases[k])
        || !WasGranted(w.history, s.leases[k].token))
  }

  predicate LiveOk(w: World, s: State) {
    && Current(w.history).counter <= s.counter
    && forall k {:trigger LiveLeaseOk(w, s, k)} :: k in s.leases ==> LiveLeaseOk(w, s, k)
  }

  ghost predicate DiskOk(w: World) {
    && EventLog.ValidLines(w.disk)
    && (w.live.Some? ==> !w.torn && EventLog.Valid(w.live.value.log) && w.live.value.log.events == w.disk)
    && Recover(w.disk) == Current(w.history)
  }

  ghost predicate Fenced(w: World) {
    && DiskOk(w)
    && TokensGrow(w.history) && GrantsSound(w.history, Current(w.history).counter) && CurrentGranted(w.history)
    && (w.live.Some? ==> LiveOk(w, w.live.value.state))
  }

  predicate HoldersKnown(s: State) {
    forall k :: k in s.leases ==> Named(s.leases[k].holder)
  }

  /** Memory is what the log says. */
  predicate Mirrored(w: World) {
    AllFoundFree(w.history) && HoldersKnown(Current(w.history)) && (w.live.Some? ==> w.live.value.state == Current(w.history))
  }

  // ---------------------------------------------------------------- preservation

  lemma AppendDisk(w: World, l: Live, e: Event, now: int)
    requires DiskOk(w) && w.live == Some(l) && EventLog.Append(l.log, e, now).Ok?
    ensures var a := EventLog.Append(l.log, e, now).value;
            && EventLog.Valid(a.log)
            && Recover(a.log.events) == (if a.replayed then Current(w.history) else Recall(Current(w.history), e.body))
            && (e.key == None ==> !a.replayed)
  {
    var a := EventLog.Append(l.log, e, now).value;
    EventLog.AppendKeepsShape(l.log, e, now);
    if !a.replayed {
      RecoverSnoc(w.disk, a.record);
    }
  }

  lemma GrantFacts(h: seq<Happening>, l: Lease)
    requires TokensGrow(h) && GrantsSound(h, Current(h).counter) && CurrentGranted(h)
    requires l.token > Current(h).counter && !l.released
    ensures var more := h + [Granted(l)];
            && TokensGrow(more) && GrantsSound(more, Current(more).counter) && CurrentGranted(more)
            && Current(more) == State(Current(h).leases[l.key := l], l.token)
  {
    var more := h + [Granted(l)];
    CurrentSnoc(h, Granted(l));
    assert more[|h|] == Granted(l);
    forall k | k in Current(more).leases
      ensures InForce(more, k, Current(more).leases[k])
    {
      if k != l.key { StillInForce(h, Granted(l), k, Current(h).leases[k]); }
    }
  }

  lemma StillInForce(h: seq<Happening>, x: Happening, k: string, l: Lease)
    requires InForce(h, k, l)
    ensures InForce(h + [x], k, l)
  {
    var i :| 0 <= i < |h| && h[i] == Granted(l);
    assert (h + [x])[i] == Granted(l);
  }

  lemma ReleaseFacts(h: seq<Happening>, key: string, token: nat)
    requires TokensGrow(h) && GrantsSound(h, Current(h).counter) && CurrentGranted(h)
    ensures var more := h + [Released(key, token)];
            && TokensGrow(more) && GrantsSound(more, Current(more).counter) && CurrentGranted(more)
            && Current(more) == Recall(Current(h), LeaseReleased(key, token))
  {
    var more := h + [Released(key, token)];
    CurrentSnoc(h, Released(key, token));
    forall k | k in Current(more).leases
      ensures InForce(more, k, Current(more).leases[k])
    {
      StillInForce(h, Released(key, token), k, Current(h).leases[k]);
    }
  }

  lemma GrantedSnoc(h: seq<Happening>, x: Happening, token: nat)
    ensures WasGranted(h + [x], token) <==> WasGranted(h, token) || (x.Granted? && x.lease.token == token)
  {
    var more := h + [x];
    if WasGranted(h, token) {
      var i :| 0 <= i < |h| && h[i].Granted? && h[i].lease.token == token;
      assert more[i] == h[i];
    }
    assert more[|h|] == x;
  }

  /** Taking a fresh lease in memory, logged or not. */
  lemma TakeLiveOk(w: World, l: Live, key: string, holder: Actor, now: int, ttl: int, next: World)
    requires w.live == Some(l) && LiveOk(w, l.state) && GrantsSound(w.history, Current(w.history).counter)
    requires var lease := NewLease(l.state, key, holder, now, ttl);
             next.history == w.history || next.history == w.history + [Granted(lease)]
    ensures LiveOk(next, Take(l.state, NewLease(l.state, key, holder, now, ttl)))
  {
    var lease := NewLease(l.state, key, holder, now, ttl);
    var s := Take(l.state, lease);
    CurrentSnoc(w.history, Granted(lease));
    forall k | k in s.leases
      ensures LiveLeaseOk(next, s, k)
    {
      if k != key {
        assert LiveLeaseOk(w, l.state, k);
        GrantedSnoc(w.history, Granted(lease), s.leases[k].token);
      }
    }
  }

  lemma AcquireFenced(w: World, l: Live, ttl: int, key: string, holder: Actor, now: int)
    requires Fenced(w) && w.live == Some(l)
    ensures Fenced(DoAcquire(w, l, ttl, key, holder, now).0)
  {
    var next := DoAcquire(w, l, ttl, key, holder, now).0;
    if !Held(l.state, key, now) {
      var lease := NewLease(l.state, key, holder, now, ttl);
      TakeLiveOk(w, l, key, holder, now, ttl, next);
      if Named(holder) {
        AppendDisk(w, l, Event(Signature(holder), None, LeaseAcquired(lease)), now);
        GrantFacts(w.history, lease);
      }
    }
  }

  lemma ReleaseLiveOk(w: World, l: Live, key: string, token: nat, next: World)
    requires w.live == Some(l) && LiveOk(w, l.state) && key in l.state.leases && l.state.leases[key].token == token
    requires next.history == w.history || next.history == w.history + [Released(key, token)]
    ensures LiveOk(next, l.state.(leases := l.state.leases - {key}))
  {
    var s := l.state.(leases := l.state.leases - {key});
    CurrentSnoc(w.history, Released(key, token));
    forall k | k in s.leases
      ensures LiveLeaseOk(next, s, k)
    {
      assert LiveLeaseOk(w, l.state, k);
      GrantedSnoc(w.history, Released(key, token), s.leases[k].token);
    }
  }

  lemma ReleaseFenced(w: World, l: Live, key: string, holder: Actor, token: nat, now: int)
    requires Fenced(w) && w.live == Some(l)
    ensures Fenced(DoRelease(w, l, key, holder, token, now).0)
  {
    var next := DoRelease(w, l, key, holder, token, now).0;
    if MayRelease(l.state, key, holder, token).None? {
      ReleaseLiveOk(w, l, key, token, next);
      if Named(holder) {
        AppendDisk(w, l, Event(Signature(holder), None, LeaseReleased(key, token)), now);
        ReleaseFacts(w.history, key, token);
      }
    }
  }

  lemma SameHistoryLiveOk(w: World, next: World, s: State)
    requires LiveOk(w, s) && next.history == w.history
    ensures LiveOk(next, s)
  {
    forall k | k in s.leases
      ensures LiveLeaseOk(next, s, k)
    {
      assert LiveLeaseOk(w, s, k);
    }
  }

  lemma LogFenced(w: World, l: Live, e: Event, now: int)
    requires Fenced(w) && w.live == Some(l) && !LeaseBody(e.body)
    ensures Fenced(DoLog(w, l, e, now))
  {
    if EventLog.Append(l.log, e, now).Ok? {
      AppendDisk(w, l, e, now);
      SameHistoryLiveOk(w, DoLog(w, l, e, now), l.state);
    } else {
      EventLog.RefusedKeepsShape(l.log, e);
      SameHistoryLiveOk(w, DoLog(w, l, e, now), l.state);
    }
  }

  lemma BootDisk(w: World, now: int)
    requires DiskOk(w) && w.live.None?
    ensures var next := Boot(w, now);
            DiskOk(next) && next.history == w.history && next.live.Some? && next.live.value.state == Current(w.history)
  {
    EventLog.ReopenOfValid(w.disk, w.torn, now);
    if w.torn {
      RecoverSnoc(w.disk, Record(EventLog.RecoveryEvent(1), EventLog.LastNumber(w.disk) + 1, now));
    }
  }

  /** The state in force is a state a live process may be in. */
  lemma CurrentIsLiveOk(w: World)
    requires GrantsSound(w.history, Current(w.history).counter) && CurrentGranted(w.history)
    ensures LiveOk(w, Current(w.history))
  {
    var s := Current(w.history);
    forall k | k in s.leases
      ensures LiveLeaseOk(w, s, k)
    {
      assert InForce(w.history, k, s.leases[k]);
    }
  }

  lemma BootFenced(w: World, now: int)
    requires Fenced(w) && w.live.None?
    ensures Fenced(Boot(w, now))
  {
    BootDisk(w, now);
    CurrentIsLiveOk(Boot(w, now));
  }

  lemma KeepsFenced(ttl: int, w: World, s: Step)
    requires Fenced(w) && Enabled(w, s)
    ensures Fenced(Next(ttl, w, s))
  {
    match s
    case Acquire(key, holder, now) => AcquireFenced(w, w.live.value, ttl, key, holder, now);
    case Release(key, holder, token, now) => ReleaseFenced(w, w.live.value, key, holder, token, now);
    case LogOther(e, now) => LogFenced(w, w.live.value, e, now);
    case Crash(_) =>
    case Restart(now) => BootFenced(w, now);
  }

  // ---------------------------------------------------------------- named holders

  lemma FoundFreeSnoc(h: seq<Happening>, x: Happening)
    requires AllFoundFree(h)
    requires x.Granted? ==> !Held(Current(h), x.lease.key, x.lease.acquiredAt)
    ensures AllFoundFree(h + [x])
  {
    var more := h + [x];
    forall j | 0 <= j < |more|
      ensures FoundFree(more, j)
    {
      if j < |h| {
        assert FoundFree(h, j) && more[..j] == h[..j];
      } else {
        assert more[..j] == h;
      }
    }
  }

  lemma KeepsMirrored(ttl: int, w: World, s: Step)
    requires Fenced(w) && Mirrored(w) && Enabled(w, s) && HolderNamed(s)
    ensures Mirrored(Next(ttl, w, s))
  {
    match s
    case Acquire(key, holder, now) =>
      var l := w.live.value;
      var lease := NewLease(l.state, key, holder, now, ttl);
      if !Held(l.state, key, now) {
        CurrentSnoc(w.history, Granted(lease));
        FoundFreeSnoc(w.history, Granted(lease));
      }
    case Release(key, holder, token, now) =>
      ReleaseMirrored(w, w.live.value, key, holder, token, now);
    case LogOther(_, _) =>
    case Crash(_) =>
    case Restart(now) => BootDisk(w, now);
  }

  lemma ReleaseMirrored(w: World, l: Live, key: string, holder: Actor, token: nat, now: int)
    requires Fenced(w) && Mirrored(w) && w.live == Some(l)
    requires !Named(holder) ==> MayRelease(l.state, key, holder, token).Some?
    ensures Mirrored(DoRelease(w, l, key, holder, token, now).0)
  {
    CurrentSnoc(w.history, Released(key, token));
    FoundFreeSnoc(w.history, Released(key, token));
  }

  // ---------------------------------------------------------------- a clock that never goes back

  /** A lease in force is the live one, or its time is up. */
  predicate LiveOrUp(s: State, l: Lease, now: int) {
    (l.key in s.leases && s.leases[l.key] == l) || l.expiresAt <= now
  }

  predicate AllLiveOrUp(s: State, h: seq<Happening>, now: int) {
    forall k {:trigger Current(h).leases[k]} :: k in Current(h).leases ==> LiveOrUp(s, Current(h).leases[k], now)
  }

  /** At time `now`, memory lacks no lease in force but expired ones. */
  predicate Settled(w: World, now: int) {
    && AllFoundFree(w.history) && HoldersKnown(Current(w.history))
    && (w.live.Some? ==> AllLiveOrUp(w.live.value.state, w.history, now))
  }

  lemma InForceFacts(h: seq<Happening>, k: string)
    requires GrantsSound(h, Current(h).counter) && CurrentGranted(h) && k in Current(h).leases
    ensures var l := Current(h).leases[k]; l.key == k && !l.released && WasGranted(h, l.token)
  {
    assert InForce(h, k, Current(h).leases[k]);
  }

  /** After a grant that found its key free or expired, at that time. */
  lemma GrantSettled(s: State, h: seq<Happening>, lease: Lease, now: int)
    requires GrantsSound(h, Current(h).counter) && CurrentGranted(h) && AllLiveOrUp(s, h, now)
    requires !Held(s, lease.key, now)
    ensures AllLiveOrUp(Take(s, lease), h, now) && AllLiveOrUp(Take(s, lease), h + [Granted(lease)], now)
  {
    CurrentSnoc(h, Granted(lease));
    var g, t := h + [Granted(lease)], Take(s, lease);
    if lease.key in Current(h).leases { InForceFacts(h, lease.key); }
    forall k {:trigger Current(h).leases[k]} | k in Current(h).leases ensures LiveOrUp(t, Current(h).leases[k], now) {
      InForceFacts(h, k);
      assert LiveOrUp(s, Current(h).leases[k], now);
    }
    forall k {:trigger Current(g).leases[k]} | k in Current(g).leases ensures LiveOrUp(t, Current(g).leases[k], now) {
      if k != lease.key { assert LiveOrUp(t, Current(h).leases[k], now); }
    }
  }

  lemma FreeInForce(s: State, h: seq<Happening>, key: string, now: int)
    requires GrantsSound(h, Current(h).counter) && CurrentGranted(h) && AllLiveOrUp(s, h, now) && !Held(s, key, now)
    ensures !Held(Current(h), key, now)
  {
    if key in Current(h).leases {
      InForceFacts(h, key);
      assert LiveOrUp(s, Current(h).leases[key], now);
    }
  }

  lemma AcquireSettled(w: World, l: Live, ttl: int, key: string, holder: Actor, now: int)
    requires Fenced(w) && Settled(w, now) && w.live == Some(l)
    ensures Settled(DoAcquire(w, l, ttl, key, holder, now).0, now)
  {
    if !Held(l.state, key, now) {
      var lease, h := NewLease(l.state, key, holder, now, ttl), w.history;
      FreeInForce(l.state, h, key, now);
      CurrentSnoc(h, Granted(lease));
      FoundFreeSnoc(h, Granted(lease));
      GrantSettled(l.state, h, lease, now);
    }
  }

  lemma ReleaseSettled(w: World, l: Live, key: string, holder: Actor, token: nat, now: int)
    requires Fenced(w) && Settled(w, now) && w.live == Some(l)
    ensures Settled(DoRelease(w, l, key, holder, token, now).0, now)
  {
    var next := DoRelease(w, l, key, holder, token, now).0;
    if MayRelease(l.state, key, holder, token).None? {
      var h := w.history;
      CurrentSnoc(h, Released(key, token));
      FoundFreeSnoc(h, Released(key, token));
      forall k {:trigger Current(next.history).leases[k]} | k in Current(next.history).leases
        ensures LiveOrUp(next.live.value.state, Current(next.history).leases[k], now)
      {
        InForceFacts(h, k);
        assert LiveOrUp(l.state, Current(h).leases[k], now);
      }
    }
  }

  lemma BootSettled(w: World, at: int, now: int)
    requires Fenced(w) && Settled(w, now) && w.live.None?
    ensures Settled(Boot(w, at), now)
  {
    BootDisk(w, at);
    forall k {:trigger Current(w.history).leases[k]} | k in Current(w.history).leases
      ensures LiveOrUp(Current(w.history), Current(w.history).leases[k], now)
    {
      InForceFacts(w.history, k);
    }
  }

  lemma LogSettled(w: World, l: Live, e: Event, at: int, now: int)
    requires Settled(w, now) && w.live == Some(l)
    ensures Settled(DoLog(w, l, e, at), now)
  {
  }

  lemma CrashSettled(w: World, torn: bool, now: int)
    requires Settled(w, now)
    ensures Settled(w.(live := None, torn := torn), now)
  {
  }

  lemma OthersSettled(ttl: int, w: World, s: Step, now: int)
    requires Fenced(w) && Settled(w, now) && Enabled(w, s) && !s.Acquire? && !s.Release?
    ensures Settled(Next(ttl, w, s), now)
  {
    match s
    case LogOther(e, at) => LogSettled(w, w.live.value, e, at, now);
    case Crash(torn) => CrashSettled(w, torn, now);
    case Restart(at) => BootSettled(w, at, now);
  }

  lemma KeepsSettled(ttl: int, w: World, s: Step, now: int)
    requires Fenced(w) && Settled(w, now) && Enabled(w, s) && (s.Acquire? ==> s.now == now)
    ensures Settled(Next(ttl, w, s), now)
  {
    if s.Acquire? {
      AcquireSettled(w, w.live.value, ttl, s.key, s.holder, now);
    } else if s.Release? {
      ReleaseSettled(w, w.live.value, s.key, s.holder, s.token, now);
    } else {
      OthersSettled(ttl, w, s, now);
    }
  }

  lemma LaterSettled(w: World, now: int, later: int)
    requires Settled(w, now) && now <= later
    ensures Settled(w, later)
  {
    if w.live.Some? {
      forall k {:trigger Current(w.history).leases[k]} | k in Current(w.history).leases
        ensures LiveOrUp(w.live.value.state, Current(w.history).leases[k], later)
      {
        assert LiveOrUp(w.live.value.state, Current(w.history).leases[k], now);
      }
    }
  }

  /** The clock that `acquire` reads never goes back. */
  predicate ClockOnward(steps: seq<Step>) {
    forall i, j :: 0 <= i < j < |steps| && steps[i].Acquire? && steps[j].Acquire? ==> steps[i].now <= steps[j].now
  }

  predicate NoneAfter(steps: seq<Step>, now: int) {
    forall i :: 0 <= i < |steps| && steps[i].Acquire? ==> steps[i].now <= now
  }

  lemma {:induction false} OnwardSettled(ttl: int, steps: seq<Step>, now: int)
    requires IsRun(ttl, steps) && ClockOnward(steps) && NoneAfter(steps, now)
    ensures Settled(After(ttl, steps), now)
    decreases |steps|
  {
    if steps != [] {
      var before, s := steps[..|steps| - 1], steps[|steps| - 1];
      var at := if s.Acquire? then s.now else now;
      OnwardSettled(ttl, before, at);
      RunInvariants(ttl, before);
      KeepsSettled(ttl, After(ttl, before), s, at);
      LaterSettled(After(ttl, steps), at, now);
    }
  }

  lemma {:induction false} LatestAcquire(steps: seq<Step>) returns (now: int)
    ensures NoneAfter(steps, now)
    decreases |steps|
  {
    if steps == [] {
      now := 0;
    } else {
      var s := steps[|steps| - 1];
      now := LatestAcquire(steps[..|steps| - 1]);
      if s.Acquire? && now < s.now { now := s.now; }
    }
  }

  /** With such a clock each grant found its key free, whoever the holders were. */
  lemma OnwardFindsFree(ttl: int, steps: seq<Step>)
    requires IsRun(ttl, steps) && ClockOnward(steps)
    ensures AllFoundFree(After(ttl, steps).history)
  {
    var now := LatestAcquire(steps);
    OnwardSettled(ttl, steps, now);
  }

  // ---------------------------------------------------------------- whole runs

  lemma {:induction false} RunInvariants(ttl: int, steps: seq<Step>)
    requires IsRun(ttl, steps)
    ensures Fenced(After(ttl, steps))
    ensures HoldersNamed(steps) ==> Mirrored(After(ttl, steps))
    decreases |steps|
  {
    if steps != [] {
      var before, s := steps[..|steps| - 1], steps[|steps| - 1];
      RunInvariants(ttl, before);
      KeepsFenced(ttl, After(ttl, before), s);
      if HoldersNamed(steps) {
        assert HoldersNamed(before);
        KeepsMirrored(ttl, After(ttl, before), s);
      }
    }
  }

  /** The tokens handed out grow strictly over the whole run, restarts included. */
  lemma TokensStrictlyIncrease(ttl: int, steps: seq<Step>)
    requires IsRun(ttl, steps)
    ensures TokensGrow(After(ttl, steps).history)
  {
    RunInvariants(ttl, steps);
  }

  /** `token` was granted at `i`, and nothing since replaced or released it. */
  predicate LastOnKey(h: seq<Happening>, i: nat, key: string)
    requires i < |h| && h[i].Granted?
  {
    h[i].lease.key == key && forall k :: i < k < |h| ==>
      match h[k]
      case Granted(l) => l.key != key
      case Released(r, t) => !(r == key && t == h[i].lease.token)
  }

  lemma {:induction false} InForceWasGranted(h: seq<Happening>, key: string)
    requires key in Current(h).leases
    ensures Current(h).leases[key].key == key
    ensures exists j :: 0 <= j < |h| && h[j] == Granted(Current(h).leases[key])
  {
    var n := |h| - 1;
    var p := h[..n];
    if h[n].Granted? && h[n].lease.key == key {
    } else {
      InForceWasGranted(p, key);
      var j :| 0 <= j < |p| && p[j] == Granted(Current(p).leases[key]);
      assert h[j] == p[j];
    }
  }

  lemma TokenTellsLease(h: seq<Happening>, i: nat, key: string)
    requires TokensGrow(h) && i < |h| && h[i].Granted?
    requires key in Current(h).leases && Current(h).leases[key].token == h[i].lease.token
    ensures Current(h).leases[key] == h[i].lease && h[i].lease.key == key
  {
    InForceWasGranted(h, key);
    var j :| 0 <= j < |h| && h[j] == Granted(Current(h).leases[key]);
    assert !(i < j) && !(j < i);
  }

  lemma {:induction false} InForceIsLast(h: seq<Happening>, i: nat, key: string)
    requires TokensGrow(h) && i < |h| && h[i].Granted?
    requires key in Current(h).leases && Current(h).leases[key].token == h[i].lease.token
    ensures LastOnKey(h, i, key)
    decreases |h|
  {
    TokenTellsLease(h, i, key);
    var n := |h| - 1;
    if i < n {
      assert h[..n][i] == h[i];
      InForceIsLast(h[..n], i, key);
    }
  }

  /**
   * At any time of any run, a granted token passes the fencing check of a key
   * only while it is that key's last grant and has not been released: once
   * superseded it never passes again.
   */
  lemma OnlyTheLastGrantPasses(ttl: int, steps: seq<Step>, i: nat, key: string, now: int)
    requires IsRun(ttl, steps) && After(ttl, steps).live.Some?
    requires i < |After(ttl, steps).history| && After(ttl, steps).history[i].Granted?
    ensures var w := After(ttl, steps);
            AssertCurrent(w.live.value.state, key, w.history[i].lease.token, now).Ok? ==>
              LastOnKey(w.history, i, key) && now < w.history[i].lease.expiresAt
  {
    RunInvariants(ttl, steps);
    var w := After(ttl, steps);
    var s := w.live.value.state;
    if AssertCurrent(s, key, w.history[i].lease.token, now).Ok? {
      assert LiveLeaseOk(w, s, key);
      assert WasGranted(w.history, s.leases[key].token);
      TokenTellsLease(w.history, i, key);
      InForceIsLast(w.history, i, key);
    }
  }

  /** The lease of an earlier grant is over when a later one on its key is made. */
  predicate Over(h: seq<Happening>, i: nat, k: nat)
    requires i < |h| && h[i].Granted? && k < |h|
  {
    var l := h[i].lease;
    match h[k]
    case Released(key, token) => key == l.key && token == l.token
    case Granted(m) => m.key == l.key && m.acquiredAt >= l.expiresAt
  }

  /** An unreleased, unreplaced grant is still in force. */
  lemma {:induction false} LastIsInForce(h: seq<Happening>, i: nat, key: string)
    requires i < |h| && h[i].Granted? && LastOnKey(h, i, key)
    ensures key in Current(h).leases && Current(h).leases[key] == h[i].lease
    decreases |h|
  {
    var n := |h| - 1;
    if i < n {
      assert h[..n][i] == h[i];
      LastIsInForce(h[..n], i, key);
    }
  }

  /** Named holders, or a clock that never goes back. */
  predicate Orderly(steps: seq<Step>) {
    HoldersNamed(steps) || ClockOnward(steps)
  }

  /**
   * Any two grants on one key are separated: by a release of the first, or by a
   * grant on the key made after the first had expired.
   */
  lemma GrantsAreSeparated(ttl: int, steps: seq<Step>, i: nat, j: nat) returns (k: nat)
    requires IsRun(ttl, steps) && Orderly(steps)
    requires var h := After(ttl, steps).history;
             i < j < |h| && h[i].Granted? && h[j].Granted? && h[i].lease.key == h[j].lease.key
    ensures i < k <= j && Over(After(ttl, steps).history, i, k)
  {
    RunInvariants(ttl, steps);
    if ClockOnward(steps) { OnwardFindsFree(ttl, steps); }
    var h := After(ttl, steps).history;
    k := NextOnKey(h, i, j);
    if h[k].Granted? {
      assert FoundFree(h, k);
      LastIsInForce(h[..k], i, h[i].lease.key);
      CurrentUnreleased(h, k, h[i].lease.key, Current(h).counter);
    }
  }

  /** The first happening after `i` that replaces or releases its lease. */
  lemma NextOnKey(h: seq<Happening>, i: nat, j: nat) returns (k: nat)
    requires i < j < |h| && h[i].Granted? && h[j].Granted? && h[i].lease.key == h[j].lease.key
    ensures i < k <= j && LastOnKey(h[..k], i, h[i].lease.key)
    ensures h[k].Granted? ==> h[k].lease.key == h[i].lease.key
    ensures h[k].Released? ==> h[k].key == h[i].lease.key && h[k].token == h[i].lease.token
  {
    var l := h[i].lease;
    k := i + 1;
    while !(h[k].Granted? && h[k].lease.key == l.key) && !(h[k].Released? && h[k].key == l.key && h[k].token == l.token)
      invariant i < k <= j && LastOnKey(h[..k], i, l.key)
      decreases j - k
    {
      k := k + 1;
    }
  }

  lemma CurrentUnreleased(h: seq<Happening>, k: nat, key: string, n: nat)
    requires GrantsSound(h, n) && k <= |h| && key in Current(h[..k]).leases
    ensures !Current(h[..k]).leases[key].released
  {
    InForceWasGranted(h[..k], key);
    var j :| 0 <= j < k && h[..k][j] == Granted(Current(h[..k]).leases[key]);
    assert h[j] == h[..k][j];
  }

  // ---------------------------------------------------------------- the exact condition

  ghost predicate HoldersFrom(allowed: Actor -> bool, steps: seq<Step>) {
    forall i :: 0 <= i < |steps| && steps[i].Acquire? ==> allowed(steps[i].holder)
  }

  /** In every run with these holders, a reload of the log gives the live map. */
  ghost predicate RecoversUnder(ttl: int, allowed: Actor -> bool) {
    forall steps :: IsRun(ttl, steps) && HoldersFrom(allowed, steps) && After(ttl, steps).live.Some? ==>
      After(ttl, steps).live.value.state == Recover(After(ttl, steps).disk)
  }

  predicate Separated(h: seq<Happening>, i: nat, j: nat)
    requires i < j < |h| && h[i].Granted? && h[j].Granted?
  {
    h[i].lease.key == h[j].lease.key ==> exists k :: i < k <= j && Over(h, i, k)
  }

  ghost predicate AllSeparated(h: seq<Happening>) {
    forall i, j :: 0 <= i < j < |h| && h[i].Granted? && h[j].Granted? ==> Separated(h, i, j)
  }

  /** In every run with these holders, and with the clock going `onward` if so stated, grants on one key are separated. */
  ghost predicate SeparatesUnder(ttl: int, allowed: Actor -> bool, onward: bool) {
    forall steps :: IsRun(ttl, steps) && HoldersFrom(allowed, steps) && (onward ==> ClockOnward(steps)) ==>
      AllSeparated(After(ttl, steps).history)
  }

  lemma Extend(ttl: int, steps: seq<Step>, s: Step)
    requires IsRun(ttl, steps) && Enabled(After(ttl, steps), s)
    ensures IsRun(ttl, steps + [s]) && After(ttl, steps + [s]) == Next(ttl, After(ttl, steps), s)
  {
    assert (steps + [s])[..|steps|] == steps;
  }

  lemma FirstBoot(ttl: int)
    ensures IsRun(ttl, [Restart(0)])
    ensures After(ttl, [Restart(0)]) == World([], false, Some(Live(EventLog.EMPTY, NO_LEASES)), [])
  {
    assert [] + [Restart(0)] == [Restart(0)];
    Extend(ttl, [], Restart(0));
  }

  function Unlogged(b: Actor): seq<Step> {
    [Restart(0)] + [Acquire("k", b, 0)]
  }

  /** With a holder that is no non-empty text the lease is in memory and not in the log. */
  lemma NamelessHolderIsNotLogged(ttl: int, b: Actor)
    requires !Named(b)
    ensures IsRun(ttl, Unlogged(b))
    ensures var w := After(ttl, Unlogged(b)); w.disk == [] && w.live.Some? && "k" in w.live.value.state.leases
  {
    FirstBoot(ttl);
    Extend(ttl, [Restart(0)], Acquire("k", b, 0));
  }

  /** Recovery gives the live map exactly when each lease is asked for in a name that the log takes. */
  lemma RecoversIff(ttl: int, allowed: Actor -> bool)
    ensures RecoversUnder(ttl, allowed) <==> forall b :: allowed(b) ==> Named(b)
  {
    if b :| allowed(b) && !Named(b) {
      NamelessHolderIsNotLogged(ttl, b);
      var w := After(ttl, Unlogged(b));
      assert HoldersFrom(allowed, Unlogged(b));
      assert w.live.value.state != Recover(w.disk);
    } else {
      forall steps | IsRun(ttl, steps) && HoldersFrom(allowed, steps) && After(ttl, steps).live.Some?
        ensures After(ttl, steps).live.value.state == Recover(After(ttl, steps).disk)
      {
        assert HoldersNamed(steps);
        RunInvariants(ttl, steps);
      }
    }
  }

  /** A nameless takeover of an expired lease, given back, and a grant by a clock that went back. */
  function TakenBack(ttl: int, a: Actor, b: Actor): seq<Step> {
    [Restart(0)] + [Acquire("k", a, 0)] + [Acquire("k", b, ttl)] + [Release("k", b, 2, ttl)] + [Acquire("k", a, ttl - 1)]
  }

  /** Up to the takeover: the log and its history know the first lease only, the manager the second only. */
  lemma TakeoverUnlogged(ttl: int, a: Actor, b: Actor)
    requires Named(a) && !Named(b)
    ensures var steps := [Restart(0)] + [Acquire("k", a, 0)] + [Acquire("k", b, ttl)];
            && IsRun(ttl, steps) && After(ttl, steps).live.Some?
            && After(ttl, steps).live.value.state == State(map["k" := Lease("k", b, 2, ttl, ttl + ttl, false)], 2)
            && After(ttl, steps).history == [Granted(Lease("k", a, 1, 0, ttl, false))]
  {
    FirstBoot(ttl);
    Extend(ttl, [Restart(0)], Acquire("k", a, 0));
    Extend(ttl, [Restart(0)] + [Acquire("k", a, 0)], Acquire("k", b, ttl));
    assert map["k" := Lease("k", a, 1, 0, ttl, false)]["k" := Lease("k", b, 2, ttl, ttl + ttl, false)]
        == map["k" := Lease("k", b, 2, ttl, ttl + ttl, false)];
  }

  lemma TakenBackGrants(ttl: int, a: Actor, b: Actor)
    requires Named(a) && !Named(b)
    ensures IsRun(ttl, TakenBack(ttl, a, b))
    ensures After(ttl, TakenBack(ttl, a, b)).history
         == [Granted(Lease("k", a, 1, 0, ttl, false)), Granted(Lease("k", a, 3, ttl - 1, ttl - 1 + ttl, false))]
  {
    var s3 := [Restart(0)] + [Acquire("k", a, 0)] + [Acquire("k", b, ttl)];
    TakeoverUnlogged(ttl, a, b);
    Extend(ttl, s3, Release("k", b, 2, ttl));
    var s4 := s3 + [Release("k", b, 2, ttl)];
    Extend(ttl, s4, Acquire("k", a, ttl - 1));
  }

  lemma OrderlyIsSeparated(ttl: int, steps: seq<Step>)
    requires IsRun(ttl, steps) && Orderly(steps)
    ensures AllSeparated(After(ttl, steps).history)
  {
    var h := After(ttl, steps).history;
    forall i, j | 0 <= i < j < |h| && h[i].Granted? && h[j].Granted?
      ensures Separated(h, i, j)
    {
      if h[i].lease.key == h[j].lease.key {
        var k := GrantsAreSeparated(ttl, steps, i, j);
      }
    }
  }

  /** Grants are separated exactly when each lease is asked for in a name that the log takes, or the clock never goes back. */
  lemma SeparatesIff(ttl: int, allowed: Actor -> bool, onward: bool, a: Actor)
    requires Named(a) && allowed(a)
    ensures SeparatesUnder(ttl, allowed, onward) <==> (forall b :: allowed(b) ==> Named(b)) || onward
  {
    if !onward && exists b :: allowed(b) && !Named(b) {
      var b :| allowed(b) && !Named(b);
      var steps := TakenBack(ttl, a, b);
      TakenBackGrants(ttl, a, b);
      assert HoldersFrom(allowed, steps);
      var h := After(ttl, steps).history;
      assert h[0].Granted? && h[1].Granted? && !Over(h, 0, 1);
      assert !Separated(h, 0, 1);
    } else {
      forall steps | IsRun(ttl, steps) && HoldersFrom(allowed, steps) && (onward ==> ClockOnward(steps))
        ensures AllSeparated(After(ttl, steps).history)
      {
        assert Orderly(steps);
        OrderlyIsSeparated(ttl, steps);
      }
    }
  }
}

/** The lease manager over its event store. */
module LeaseManagers {
  import opened Wrappers
  import opened Events
  import opened Leases
  import EventLog
  import EventStores

  class LeaseManager {
    const store: EventStores.EventStore
    const ttlMs: int
    var leases: map<string, Lease>
    var fencingCounter: nat
    ghost var history: seq<Happening>

    ghost function Fields(): State
      reads this
    {
      State(leases, fencingCounter)
    }

    /** The state of the step system that this process is in. */
    ghost function View(): World
      reads this, store
    {
      World(store.events, false, Some(Process()), history)
    }

    ghost function Process(): Live
      reads this, store
    {
      Live(store.View(), Fields())
    }

    /** `#recover`: one pass over the log. */
    constructor (store: EventStores.EventStore, ttlMs: int, ghost history: seq<Happening>)
      ensures this.store == store && this.ttlMs == ttlMs && this.history == history
      ensures Fields() == Recover(store.events)
    {
      this.store, this.ttlMs, this.history := store, ttlMs, history;
      leases, fencingCounter := map[], 0;
      new;
      var events := store.events;
      for i := 0 to |events|
        invariant Fields() == Recover(events[..i]) && this.history == history
      {
        assert events[..i + 1][..i] == events[..i];
        match events[i].event.body
        case LeaseAcquired(lease) =>
          leases := leases[lease.key := lease];
          fencingCounter := if fencingCounter < lease.token then lease.token else fencingCounter;
        case LeaseReleased(key, token) =>
          if key in leases && leases[key].token == token {
            leases := leases - {key};
          }
        case _ =>
      }
      assert events[..|events|] == events;
    }

    /** `acquire`: a lease with a fresh token, unless the key is held and unexpired. */
    method Acquire(project: string, workOrderId: string, phase: string, holder: Actor, now: int)
      returns (r: Result<Lease, LeaseError>)
      requires store.Valid()
      modifies this, store, store.file
      ensures store.Valid()
      ensures (View(), r) == DoAcquire(old(View()), old(Process()), ttlMs, Key(project, workOrderId, phase), holder, now)
      ensures r == Err(LeaseHeld) ==> View() == old(View()) && store.file.lines == old(store.file.lines)
    {
      var key := Key(project, workOrderId, phase);
      if key in leases && !leases[key].released {
        var expired := leases[key].expiresAt <= now;
        if !expired {
          return Err(LeaseHeld);
        }
      }
      fencingCounter := fencingCounter + 1;
      var lease := Lease(key, holder, fencingCounter, now, now + ttlMs, false);
      leases := leases[key := lease];
      var logged := store.Append(Event(Signature(holder), None, LeaseAcquired(lease)), now);
      if logged.Err? {
        return Err(NotLogged);
      }
      history := history + [Granted(lease)];
      r := Ok(lease);
    }

    /** `release`: only by the current holder with the current token. */
    method Release(key: string, holder: Actor, token: nat, now: int) returns (error: Option<LeaseError>)
      requires store.Valid()
      modifies this, store, store.file
      ensures store.Valid()
      ensures (View(), error) == DoRelease(old(View()), old(Process()), key, holder, token, now)
    {
      if key !in leases || leases[key].released {
        return Some(NoLease);
      }
      if leases[key].holder != holder || leases[key].token != token {
        return Some(FencingMismatch);
      }
      leases := leases - {key};
      var logged := store.Append(Event(Signature(holder), None, LeaseReleased(key, token)), now);
      if logged.Err? {
        return Some(NotLogged);
      }
      history := history + [Released(key, token)];
      error := None;
    }

    /** `assertCurrent`: the fencing check of a write. */
    method AssertCurrent(key: string, token: nat, now: int) returns (r: Result<Lease, LeaseError>)
      ensures r == Leases.AssertCurrent(Fields(), key, token, now)
    {
      if key !in leases || leases[key].released {
        return Err(NoLease);
      }
      if leases[key].token != token {
        return Err(StaleToken);
      }
      if leases[key].expiresAt <= now {
        return Err(LeaseExpired);
      }
      r := Ok(leases[key]);
    }

    /** `activeLease`: the lease that would pass the fencing check right now, if any. */
    method ActiveLease(key: string, now: int) returns (r: Option<Lease>)
      ensures r.Some? <==> Held(Fields(), key, now)
      ensures r.Some? ==> Leases.AssertCurrent(Fields(), key, r.value.token, now) == Ok(r.value)
      ensures r.None? ==> forall t: nat :: Leases.AssertCurrent(Fields(), key, t, now).Err?
    {
      if key !in leases || leases[key].released || leases[key].expiresAt <= now {
        return None;
      }
      r := Some(leases[key]);
    }
  }
}

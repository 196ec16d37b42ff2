/**
 * What each operation of src/supervisor/lease-manager.mjs answers and leaves
 * behind, on the fields of the lease on the key.
 */
module LeaseLaws {
  import opened Wrappers
  import opened Events
  import opened Leases
  import EventLog

  /** The key is free: no lease, one given back, or one whose time is up. */
  predicate Free(s: State, key: string, now: int) {
    key in s.leases ==> s.leases[key].released || s.leases[key].expiresAt <= now
  }

  /** The disk has one more event with this body, and the history one more happening. */
  ghost predicate Recorded(before: World, after: World, actor: Actor, body: Body, x: Happening, now: int) {
    && |after.disk| == |before.disk| + 1 && after.disk[..|before.disk|] == before.disk
    && (var r := after.disk[|before.disk|]; actor == ActorText(r.event.actor) && r.event.body == body && r.at == now)
    && after.history == before.history + [x]
  }

  lemma AppendIs(w: World, l: Live, e: Event, now: int)
    requires DiskOk(w) && w.live == Some(l) && e.key == None && LeaseBody(e.body)
    ensures EventLog.Append(l.log, e, now).Ok? <==> e.actor != ""
    ensures EventLog.Append(l.log, e, now).Ok? ==>
              var a := EventLog.Append(l.log, e, now).value;
              && a.log.events == w.disk + [a.record] && a.record.event == e && a.record.at == now
  {
    if e.actor != "" { EventLog.AppendKeepsShape(l.log, e, now); }
  }

  /**
   * A lease is granted exactly on a free key to a holder with a name. It has the
   * next token, runs from now for the manager's time to live, and is the only
   * lease that changes.
   */
  lemma AcquiredIff(w: World, l: Live, ttl: int, key: string, holder: Actor, now: int)
    requires DiskOk(w) && w.live == Some(l)
    ensures var (v, r) := DoAcquire(w, l, ttl, key, holder, now);
            && (r.Ok? <==> Free(l.state, key, now) && Named(holder))
            && (r == Err(LeaseHeld) <==> !Free(l.state, key, now))
            && (!Free(l.state, key, now) ==> v == w)
            && (r.Ok? ==>
                  && r.value.key == key && r.value.holder == holder && r.value.token == l.state.counter + 1
                  && r.value.acquiredAt == now && r.value.expiresAt == now + ttl && !r.value.released
                  && Recorded(w, v, holder, LeaseAcquired(r.value), Granted(r.value), now)
                  && v.live.Some? && v.live.value.state.counter == r.value.token
                  && v.live.value.state.leases == l.state.leases[key := r.value])
  {
    if Free(l.state, key, now) {
      AppendIs(w, l, Event(Signature(holder), None, LeaseAcquired(NewLease(l.state, key, holder, now, ttl))), now);
    }
  }

  /** Without a name the lease is in memory all the same, and nothing is logged. */
  lemma AcquiredUnlogged(w: World, l: Live, ttl: int, key: string, holder: Actor, now: int)
    requires DiskOk(w) && w.live == Some(l) && Free(l.state, key, now) && !Named(holder)
    ensures var (v, r) := DoAcquire(w, l, ttl, key, holder, now);
            && r == Err(LeaseError.NotLogged) && v.disk == w.disk && v.history == w.history
            && v.live.Some? && v.live.value.log == l.log
            && v.live.value.state.leases.Keys == l.state.leases.Keys + {key} && v.live.value.state.counter == l.state.counter + 1
            && v.live.value.state.leases[key].holder == holder && v.live.value.state.leases[key].expiresAt == now + ttl
  {
    AppendIs(w, l, Event(Signature(holder), None, LeaseAcquired(NewLease(l.state, key, holder, now, ttl))), now);
  }

  /** There is a lease on the key that was not given back, with this holder and this token. */
  predicate Holds(s: State, key: string, holder: Actor, token: nat) {
    key in s.leases && !s.leases[key].released && s.leases[key].holder == holder && s.leases[key].token == token
  }

  /**
   * A release goes through exactly for the holder of the lease and its token,
   * expired or not, and removes that lease and no other; a wrong holder or token
   * is told so, and a key without lease that there is none.
   */
  lemma ReleasedIff(w: World, l: Live, key: string, holder: Actor, token: nat, now: int)
    requires DiskOk(w) && w.live == Some(l)
    ensures var (v, r) := DoRelease(w, l, key, holder, token, now);
            && (r.None? <==> Holds(l.state, key, holder, token) && Named(holder))
            && (r == Some(NoLease) <==> key !in l.state.leases || l.state.leases[key].released)
            && (r == Some(FencingMismatch) <==>
                  key in l.state.leases && !l.state.leases[key].released && !Holds(l.state, key, holder, token))
            && (!Holds(l.state, key, holder, token) ==> v == w)
            && (Holds(l.state, key, holder, token) ==> v.live.Some? && v.live.value.state == State(l.state.leases - {key}, l.state.counter))
            && (r.None? ==> Recorded(w, v, holder, LeaseReleased(key, token), Released(key, token), now))
            && (r.Some? ==> v.disk == w.disk && v.history == w.history)
  {
    if Holds(l.state, key, holder, token) {
      AppendIs(w, l, Event(Signature(holder), None, LeaseReleased(key, token)), now);
    }
  }

  /** The fencing check passes exactly for the token of a lease that is neither given back nor expired, and returns that lease. */
  lemma CurrentIff(s: State, key: string, token: nat, now: int)
    ensures AssertCurrent(s, key, token, now).Ok? <==>
              key in s.leases && !s.leases[key].released && s.leases[key].token == token && now < s.leases[key].expiresAt
    ensures AssertCurrent(s, key, token, now).Ok? ==> AssertCurrent(s, key, token, now).value == s.leases[key]
    ensures AssertCurrent(s, key, token, now) == Err(StaleToken) <==>
              key in s.leases && !s.leases[key].released && s.leases[key].token != token
    ensures AssertCurrent(s, key, token, now) == Err(LeaseError.LeaseExpired) <==>
              key in s.leases && !s.leases[key].released && s.leases[key].token == token && s.leases[key].expiresAt <= now
  {
  }

  /**
   * Nobody gives back a lease that is not his: at any time of any run, whoever
   * releases with a token that was handed out was handed it himself, for that
   * key, and nobody was after him.
   */
  lemma OnlyTheHolderReleases(ttl: int, steps: seq<Step>, i: nat, key: string, holder: Actor, now: int)
    requires IsRun(ttl, steps) && After(ttl, steps).live.Some?
    requires i < |After(ttl, steps).history| && After(ttl, steps).history[i].Granted?
    ensures var w := After(ttl, steps);
            var lease := w.history[i].lease;
            DoRelease(w, w.live.value, key, holder, lease.token, now).1.None? ==>
              lease.key == key && lease.holder == holder && LastOnKey(w.history, i, key)
  {
    RunInvariants(ttl, steps);
    var w := After(ttl, steps);
    var s, token := w.live.value.state, w.history[i].lease.token;
    ReleasedIff(w, w.live.value, key, holder, token, now);
    if Holds(s, key, holder, token) {
      assert LiveLeaseOk(w, s, key);
      assert WasGranted(w.history, s.leases[key].token);
      TokenTellsLease(w.history, i, key);
      InForceIsLast(w.history, i, key);
    }
  }
}

/**
 * Who gets a packet from src/supervisor/dispatcher.mjs, and what is in it,
 * written out on the fields of the request.
 */
module DispatchLaws {
  import opened Wrappers
  import opened Events
  import opened Leases
  import opened Hashing
  import opened Dispatching
  import LeaseLaws
  import EventLog
  import Json
  import SM = StateMachine
  import ScopeContracts
  import ScopeMeet
  import ScopeRequests

  /** Builders work on what is ready or came back from review, reviewers on what waits for review; nobody else works. */
  predicate Work(state: SM.State, workerClass: string) {
    || (workerClass == "builder" && (state == SM.READY || state == SM.CHANGES_REQUESTED))
    || (workerClass == "reviewer" && state == SM.READY_FOR_REVIEW)
  }

  /** The decision is one that the engine made, lets something through, is for the project, and has the worker's class among its roles. */
  ghost predicate InScope(a: Args) {
    && ScopeRequests.ValidDecision(a.decision)
    && (a.decision.verdict == ScopeMeet.Allow || a.decision.verdict == ScopeMeet.Narrow)
    && a.decision.effective.Some?
    && a.decision.effective.value.project == a.project
    && (a.workerClass == "builder" || a.workerClass == "reviewer")
    && ScopeContracts.Roles in a.decision.effective.value.sets
    && a.workerClass in a.decision.effective.value.sets[ScopeContracts.Roles]
  }

  /** The work order is there, well formed, and the one that was scheduled. */
  ghost predicate Scheduled(a: Args, wellFormed: Json.Value -> bool) {
    && a.workOrder != Json.Undefined && wellFormed(a.workOrder)
    && (a.expected.Some? ==> DigestOf(a.workOrder) == a.expected.value)
  }

  /** The lease of a dispatch: one per project, work order and phase. */
  ghost predicate LeaseFor(a: Args, key: string) {
    exists id: string :: Identifies(a, id) && key == a.project + "::" + id + (if a.workerClass == "reviewer" then "::review" else "::build")
  }

  predicate Identifies(a: Args, id: string) {
    var x := Get(a.workOrder, "id");
    if x.Str? then x.s == id else id == ""
  }

  lemma LeaseKeyIs(a: Args)
    ensures LeaseFor(a, LeaseKey(a))
  {
    var id := IdOf(a.workOrder);
    var phase := if a.workerClass == "reviewer" then "review" else "build";
    assert Identifies(a, id);
    assert a.project + "::" + id + "::" + phase == a.project + "::" + id + (if a.workerClass == "reviewer" then "::review" else "::build");
  }

  lemma ScopeAllowsIff(a: Args)
    ensures ScopeAllows(a) <==> InScope(a)
  {
  }

  /** A packet is handed out exactly when scope, work order, state, budget, lease and actor are all in order. */
  lemma HandedOutIff(w: World, l: Live, ttl: int, a: Args, wellFormed: Json.Value -> bool, now: int)
    ensures Dispatch(w, l, ttl, a, wellFormed, now).1.Ok? <==>
              && InScope(a) && Scheduled(a, wellFormed) && Work(a.state, a.workerClass) && a.budgetValid
              && LeaseLaws.Free(l.state, LeaseKey(a), now) && Named(a.actor)
  {
    ScopeAllowsIff(a);
    ChainRefusal(ScopeAllows(a), a, wellFormed);
    AttemptIff(Guard(a, wellFormed), w, l, ttl, a, now);
    FreeIff(l.state, LeaseKey(a), now);
  }

  lemma FreeIff(s: State, key: string, now: int)
    ensures LeaseLaws.Free(s, key, now) <==> !Held(s, key, now)
  {
  }

  /** The first condition that fails is the answer. */
  lemma RefusalIs(w: World, l: Live, ttl: int, a: Args, wellFormed: Json.Value -> bool, now: int)
    requires Dispatch(w, l, ttl, a, wellFormed, now).1.Err?
    ensures Dispatch(w, l, ttl, a, wellFormed, now).1.error ==
              if !InScope(a) then ScopeInvalid
              else if a.workOrder == Json.Undefined || !wellFormed(a.workOrder) then WorkOrderInvalid
              else if !Work(a.state, "builder") && !Work(a.state, "reviewer") then StateForbidsDispatch
              else if !Work(a.state, a.workerClass) then WrongWorkerClass
              else if !Scheduled(a, wellFormed) then HashMismatch
              else if !a.budgetValid then BudgetInvalid
              else if !LeaseLaws.Free(l.state, LeaseKey(a), now) then DuplicateDispatch
              else DispatchError.NotLogged
  {
    ScopeAllowsIff(a);
    RefusalInTurn(Guard(a, wellFormed), w, l, ttl, a, now);
    ChainRefusal(ScopeAllows(a), a, wellFormed);
  }

  lemma ChainRefusal(allowed: bool, a: Args, wellFormed: Json.Value -> bool)
    ensures GuardChain(allowed, a, wellFormed) ==
              if !allowed then Some(ScopeInvalid)
              else if a.workOrder == Json.Undefined || !wellFormed(a.workOrder) then Some(WorkOrderInvalid)
              else if !Work(a.state, "builder") && !Work(a.state, "reviewer") then Some(StateForbidsDispatch)
              else if !Work(a.state, a.workerClass) then Some(WrongWorkerClass)
              else if !Scheduled(a, wellFormed) then Some(HashMismatch)
              else if !a.budgetValid then Some(BudgetInvalid)
              else None
  {
  }

  lemma RefusalInTurn(refused: Option<DispatchError>, w: World, l: Live, ttl: int, a: Args, now: int)
    requires Attempt(refused, w, l, ttl, a, now).1.Err?
    ensures Attempt(refused, w, l, ttl, a, now).1.error ==
              if refused.Some? then refused.value
              else if !LeaseLaws.Free(l.state, LeaseKey(a), now) then DuplicateDispatch
              else DispatchError.NotLogged
  {
  }

  /** What a packet says: whose project, which work order with its hash, which class of worker, and the lease with its token. */
  ghost predicate Says(a: Args, p: Packet, token: nat) {
    && p.project == a.project && Identifies(a, p.workOrderId) && p.workerClass == a.workerClass
    && a.workOrder != Json.Undefined && p.hash == DigestOf(a.workOrder)
    && LeaseFor(a, p.leaseKey) && p.token == token
  }

  ghost predicate LeasedBy(lease: Lease, p: Packet, actor: Actor, now: int, ttl: int) {
    && lease.token == p.token && lease.key == p.leaseKey && lease.holder == actor
    && lease.acquiredAt == now && lease.expiresAt == now + ttl && !lease.released
  }

  /** It is the packet of the lease taken for it: the manager's next token, held by the actor from now on. */
  lemma PacketIs(w: World, l: Live, ttl: int, a: Args, wellFormed: Json.Value -> bool, now: int)
    requires w.live == Some(l) && Dispatch(w, l, ttl, a, wellFormed, now).1.Ok?
    ensures var (v, r) := Dispatch(w, l, ttl, a, wellFormed, now);
            && Says(a, r.value, l.state.counter + 1)
            && v.live.Some? && r.value.leaseKey in v.live.value.state.leases
            && LeasedBy(v.live.value.state.leases[r.value.leaseKey], r.value, a.actor, now, ttl)
            && v.live.value.state.leases - {r.value.leaseKey} == l.state.leases - {r.value.leaseKey}
  {
    DispatchedIff(w, l, ttl, a, wellFormed, now);
    PacketOfAttempt(Guard(a, wellFormed), w, l, ttl, a, now);
  }

  lemma PacketOfAttempt(refused: Option<DispatchError>, w: World, l: Live, ttl: int, a: Args, now: int)
    requires w.live == Some(l) && Attempt(refused, w, l, ttl, a, now).1.Ok? && a.workOrder != Json.Undefined
    ensures var (v, r) := Attempt(refused, w, l, ttl, a, now);
            && Says(a, r.value, l.state.counter + 1)
            && v.live.Some? && r.value.leaseKey in v.live.value.state.leases
            && LeasedBy(v.live.value.state.leases[r.value.leaseKey], r.value, a.actor, now, ttl)
            && v.live.value.state.leases - {r.value.leaseKey} == l.state.leases - {r.value.leaseKey}
  {
    AttemptTakes(refused, w, l, ttl, a, now);
    LeaseKeyIs(a);
  }

  // ---------------------------------------------------------------- the key of the log entry

  function ValueOf(digits: string): int {
    if digits == "" then 0 else 10 * ValueOf(digits[..|digits| - 1]) + (digits[|digits| - 1] as int - '0' as int)
  }

  /** `Decimal` writes the number in digits, without a leading zero. */
  lemma {:induction false} DecimalReadsBack(n: nat)
    ensures forall c :: c in Decimal(n) ==> '0' <= c <= '9'
    ensures ValueOf(Decimal(n)) == n && Decimal(n) != "" && (n > 0 ==> Decimal(n)[0] != '0')
  {
    if n >= 10 {
      DecimalReadsBack(n / 10);
      var d := Decimal(n / 10);
      assert Decimal(n)[..|Decimal(n)| - 1] == d;
    }
  }

  /** Two dispatches under one lease key have different log keys exactly when their tokens differ. */
  lemma LogKeysDifferIff(a: Args, x: Lease, y: Lease)
    requires x.key == y.key
    ensures DispatchEvent(a, x).key == DispatchEvent(a, y).key <==> x.token == y.token
    ensures DispatchEvent(a, x).key.Some? && DispatchEvent(a, x).key.value == "dispatch:" + x.key + ":" + Decimal(x.token)
    ensures DispatchEvent(a, x).actor == (if a.actor.ActorText? then a.actor.text else "")
  {
    DecimalReadsBack(x.token);
    DecimalReadsBack(y.token);
    var p := "dispatch:" + x.key + ":";
    assert (p + Decimal(x.token))[|p|..] == Decimal(x.token);
    assert (p + Decimal(y.token))[|p|..] == Decimal(y.token);
  }
}

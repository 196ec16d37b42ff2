/**
 * How the executor rebuilds its guards from the event log
 * (the constructor of src/policy/executor.mjs).
 */
module Recovery {
  import opened Wrappers
  import opened Hashing
  import opened Events

  /** A reservation without a final execution record, so far. */
  datatype Pending = Pending(digest: Digest, record: Record)

  /** The two guard maps, and the local map of pending reservations in insertion order. */
  datatype Guards = Guards(executed: map<Digest, ExecResult>, unknown: map<string, ExecResult>, pending: seq<Pending>)

  const NONE := Guards(map[], map[], [])

  function Put(ps: seq<Pending>, p: Pending): seq<Pending> {
    if ps == [] then [p]
    else if ps[0].digest == p.digest then [p] + ps[1..]
    else [ps[0]] + Put(ps[1..], p)
  }

  function Drop(ps: seq<Pending>, d: Digest): seq<Pending> {
    if ps == [] then [] else if ps[0].digest == d then Drop(ps[1..], d) else [ps[0]] + Drop(ps[1..], d)
  }

  /** One pass of the loop over the log. */
  function Scan(g: Guards, r: Record): Guards {
    match r.event.body
    case Reserved(_, digest, _) => g.(pending := Put(g.pending, Pending(digest, r)))
    case Executed(result, scope) =>
      Guards(g.executed[result.digest := result],
             if result.outcome == "UNKNOWN" && scope != "" then g.unknown[scope := result] else g.unknown,
             Drop(g.pending, result.digest))
    case Reconciled(scope, _, _) => g.(unknown := g.unknown - {scope})
    case _ => g
  }

  function ScanAll(events: seq<Record>): Guards {
    if events == [] then NONE else Scan(ScanAll(events[..|events| - 1]), events[|events| - 1])
  }

  lemma ScanSnoc(events: seq<Record>, r: Record)
    ensures ScanAll(events + [r]) == Scan(ScanAll(events), r)
  {
    assert (events + [r])[..|events|] == events;
  }

  function ScopeOfPending(p: Pending): string {
    if p.record.event.body.Reserved? then p.record.event.body.scope else ""
  }

  /** The outcome of a crash: unknown. The digest's short form is the symbolic digest's own text. */
  function CrashResult(p: Pending): ExecResult {
    ExecResult("exec-crash-" + p.digest.text,
               if p.record.event.body.Reserved? then p.record.event.body.proposalId else "",
               p.digest, None, "UNKNOWN", p.record.at,
               Some("process crashed between reservation and result record; effect may or may not have occurred"), true)
  }

  /** The second loop: every pending reservation becomes an unknown outcome that holds its scope. */
  function Settle(executed: map<Digest, ExecResult>, unknown: map<string, ExecResult>, ps: seq<Pending>): Guards
    decreases ps
  {
    if ps == [] then Guards(executed, unknown, [])
    else
      var s, result := ScopeOfPending(ps[0]), CrashResult(ps[0]);
      Settle(executed[ps[0].digest := result],
             if s != "" && s !in unknown then unknown[s := result] else unknown,
             ps[1..])
  }

  function Rebuild(events: seq<Record>): Guards {
    var g := ScanAll(events); Settle(g.executed, g.unknown, g.pending)
  }

  // ---------------------------------------------------------------- what a rebuild contains

  function DigestsOf(ps: seq<Pending>): set<Digest> {
    if ps == [] then {} else {ps[0].digest} + DigestsOf(ps[1..])
  }

  function ScopesOf(ps: seq<Pending>): set<string> {
    if ps == [] then {} else (if ScopeOfPending(ps[0]) == "" then {} else {ScopeOfPending(ps[0])}) + ScopesOf(ps[1..])
  }

  lemma {:induction false} SettleKeys(executed: map<Digest, ExecResult>, unknown: map<string, ExecResult>, ps: seq<Pending>)
    ensures var g := Settle(executed, unknown, ps);
            && g.executed.Keys == executed.Keys + DigestsOf(ps)
            && g.unknown.Keys == unknown.Keys + ScopesOf(ps)
    decreases ps
  {
    if ps != [] {
      var s, result := ScopeOfPending(ps[0]), CrashResult(ps[0]);
      SettleKeys(executed[ps[0].digest := result],
                 if s != "" && s !in unknown then unknown[s := result] else unknown, ps[1..]);
    }
  }

  /** Each digest is pending at most once. */
  predicate Distinct(ps: seq<Pending>) {
    ps != [] ==> ps[0].digest !in DigestsOf(ps[1..]) && Distinct(ps[1..])
  }

  /** The reservation that is pending for a digest. */
  function Find(ps: seq<Pending>, d: Digest): Option<Pending> {
    if ps == [] then None else if ps[0].digest == d then Some(ps[0]) else Find(ps[1..], d)
  }

  lemma {:induction false} FindIff(ps: seq<Pending>, d: Digest)
    ensures Find(ps, d).Some? <==> d in DigestsOf(ps)
    ensures Find(ps, d).Some? ==> Find(ps, d).value.digest == d
    ensures Find(ps, d).Some? && ScopeOfPending(Find(ps, d).value) != "" ==> ScopeOfPending(Find(ps, d).value) in ScopesOf(ps)
  {
    if ps != [] {
      FindIff(ps[1..], d);
    }
  }

  lemma {:induction false} PutKeys(ps: seq<Pending>, p: Pending)
    requires Distinct(ps)
    ensures Distinct(Put(ps, p)) && DigestsOf(Put(ps, p)) == DigestsOf(ps) + {p.digest}
    ensures Find(Put(ps, p), p.digest) == Some(p)
    ensures forall d :: d != p.digest ==> Find(Put(ps, p), d) == Find(ps, d)
  {
    if ps != [] && ps[0].digest != p.digest {
      PutKeys(ps[1..], p);
    }
  }

  lemma {:induction false} DropKeys(ps: seq<Pending>, e: Digest)
    requires Distinct(ps)
    ensures Distinct(Drop(ps, e)) && DigestsOf(Drop(ps, e)) == DigestsOf(ps) - {e}
    ensures forall d :: d != e ==> Find(Drop(ps, e), d) == Find(ps, d)
  {
    if ps != [] {
      DropKeys(ps[1..], e);
    }
  }

  lemma {:induction false} ScanDistinct(events: seq<Record>)
    ensures Distinct(ScanAll(events).pending)
  {
    if events != [] {
      var p, r := events[..|events| - 1], events[|events| - 1];
      ScanDistinct(p);
      match r.event.body
      case Reserved(_, digest, _) => PutKeys(ScanAll(p).pending, Pending(digest, r));
      case Executed(result, _) => DropKeys(ScanAll(p).pending, result.digest);
      case _ =>
    }
  }

  predicate PendingOn(ps: seq<Pending>, d: Digest, s: string) {
    Find(ps, d).Some? && ScopeOfPending(Find(ps, d).value) == s
  }

  /** A scope is held by a pending reservation exactly when some digest is pending on it. */
  lemma {:induction false} ScopePendingIff(ps: seq<Pending>, s: string)
    requires Distinct(ps) && s != ""
    ensures s in ScopesOf(ps) <==> exists d :: PendingOn(ps, d, s)
  {
    if ps != [] {
      ScopePendingIff(ps[1..], s);
      forall d | PendingOn(ps[1..], d, s)
        ensures PendingOn(ps, d, s)
      {
        FindIff(ps[1..], d);
      }
      forall d | PendingOn(ps, d, s) && d != ps[0].digest
        ensures PendingOn(ps[1..], d, s)
      {
      }
      if ScopeOfPending(ps[0]) == s {
        assert PendingOn(ps, ps[0].digest, s);
      }
    }
  }

  /** Reserving adds the new scope and keeps the scopes of every other digest. */
  lemma PutScopes(ps: seq<Pending>, p: Pending, s: string)
    requires Distinct(ps) && s != "" && ((s in ScopesOf(ps) && !PendingOn(ps, p.digest, s)) || s == ScopeOfPending(p))
    ensures s in ScopesOf(Put(ps, p))
  {
    PutKeys(ps, p);
    ScopePendingIff(ps, s);
    ScopePendingIff(Put(ps, p), s);
    if s == ScopeOfPending(p) {
      assert PendingOn(Put(ps, p), p.digest, s);
    } else {
      var d :| PendingOn(ps, d, s);
      assert PendingOn(Put(ps, p), d, s);
    }
  }

  /** Recording a result frees at most the scope its digest was pending on. */
  lemma DropScopes(ps: seq<Pending>, e: Digest, s: string)
    requires Distinct(ps) && s in ScopesOf(ps) && s != "" && !PendingOn(ps, e, s)
    ensures s in ScopesOf(Drop(ps, e))
  {
    DropKeys(ps, e);
    ScopePendingIff(ps, s);
    ScopePendingIff(Drop(ps, e), s);
    var d :| PendingOn(ps, d, s);
    assert PendingOn(Drop(ps, e), d, s);
  }

  /** What a reopened executor blocks: everything it has seen, and every reservation left open. */
  lemma RebuildKeys(events: seq<Record>)
    ensures var s, g := ScanAll(events), Rebuild(events);
            && g.executed.Keys == s.executed.Keys + DigestsOf(s.pending)
            && g.unknown.Keys == s.unknown.Keys + ScopesOf(s.pending)
  {
    var s := ScanAll(events);
    SettleKeys(s.executed, s.unknown, s.pending);
  }
}

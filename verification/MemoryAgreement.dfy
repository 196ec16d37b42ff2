/**
 * Memory and log agree: the records of a running store are the last-write-wins
 * fold of its log after every operation, except in exactly two cases.
 */
module MemoryAgreement {
  import opened Wrappers
  import opened MemoryModel
  import opened MemoryLineage
  import opened MemoryRevocation
  import opened MemoryRuns
  import opened MemoryAuthority
  import opened MemoryTheorems

  ghost predicate Exact(w: World) {
    w.mem == FoldLog(w.log)
  }

  lemma PersistExact(w: World, r: Rec)
    requires Exact(w)
    ensures Exact(Persist(w, r))
  {
    FoldSnoc(w.log, r);
  }

  lemma AppendExact(w: World, input: Rec)
    requires Exact(w)
    ensures Exact(Append(w, input).0)
  {
    if CheckAppend(input).None? { PersistExact(w, Fresh(input)); }
  }

  lemma ConsolidateExact(w: World, ids: seq<string>, content: string, opts: Options, newId: string)
    requires Exact(w)
    ensures Exact(Consolidate(w, ids, content, opts, newId).0)
  {
    var src := Sources(w.mem, ids);
    if src.Ok? && src.value != [] {
      var s := Summary(src.value, ids, content, opts, newId);
      AppendExact(w, s);
      var (next, r) := Append(w, s);
      if r.Ok? { PersistExact(next, r.value.(authorityRevoked := true)); }
    }
  }

  lemma ConsolidatedHasNoSteps(w: World, ids: seq<string>, content: string, opts: Options, newId: string)
    requires Consolidate(w, ids, content, opts, newId).1.Ok?
    ensures Consolidate(w, ids, content, opts, newId).1.value.steps == None
  {
  }

  /** Steps that are given and refused stay in memory; the record on file had none. */
  lemma StepsExactIff(next: World, r: Result<Rec, MemoryError>, steps: Option<Steps>)
    requires Exact(next) && (r.Ok? ==> Filed(next, r.value) && r.value.steps.None?)
    ensures Exact(SetSteps(next, r, steps).0) <==> !(r.Ok? && steps.Some? && !NonEmptyArray(steps))
  {
    if r.Ok? {
      var stored := r.value.(steps := steps);
      PersistExact(next, stored);
      if steps.Some? {
        assert Put(next.mem, stored).records[stored.id].steps != next.mem.records[stored.id].steps;
      } else {
        assert Put(next.mem, stored).records == next.mem.records;
      }
    }
  }

  /** Likewise for the whole derivation. */
  lemma DeriveExactIff(w: World, ids: seq<string>, content: string, steps: Option<Steps>, opts: Options, newId: string)
    requires Exact(w) && newId !in w.mem.records
    ensures Exact(DeriveProcedure(w, ids, content, steps, opts, newId).0) <==>
            !(steps.Some? && !NonEmptyArray(steps) && Consolidate(w, ids, content, opts.(kind := Some("procedural")), newId).1.Ok?)
  {
    var kind := opts.(kind := Some("procedural"));
    ConsolidateExact(w, ids, content, kind, newId);
    var (next, r) := Consolidate(w, ids, content, kind, newId);
    if r.Ok? {
      ConsolidatedIsFiled(w, ids, content, kind, newId);
      ConsolidatedHasNoSteps(w, ids, content, kind, newId);
    }
    StepsExactIff(next, r, steps);
  }

  lemma {:induction false} SweepExact(w: World, scope: string, ids: seq<string>)
    requires Exact(w) && forall k :: k in ids ==> k in w.mem.records && w.mem.records[k].id == k
    ensures Exact(Sweep(w, scope, ids))
    decreases ids
  {
    if ids != [] {
      var r := w.mem.records[ids[0]];
      var gone := r.(content := "[deleted]", deleted := true);
      PersistExact(w, gone);
      SweepExact(if r.retention == scope && !r.deleted then Persist(w, gone) else w, scope, ids[1..]);
    }
  }

  lemma {:induction false} EachExact(w: World, ids: seq<string>)
    requires Exact(w) && forall k :: k in ids ==> k in w.mem.records && w.mem.records[k].id == k
    ensures Exact(RevokeEach(w, ids))
    decreases ids
  {
    if ids != [] {
      var r := w.mem.records[ids[0]];
      PersistExact(w, Void(r));
      EachExact(if r.authorityRevoked then w else Persist(w, Void(r)), ids[1..]);
    }
  }

  /** The loop writes no line for a record whose authority is revoked already. */
  lemma {:induction false} EachSkips(w: World, ids: seq<string>, k: string)
    requires forall x :: x in ids ==> x in w.mem.records && w.mem.records[x].id == x
    requires k in w.mem.records && w.mem.records[k].authorityRevoked && k in FoldLog(w.log).records
    ensures var v := RevokeEach(w, ids);
            && k in v.mem.records && v.mem.records[k] == w.mem.records[k]
            && k in FoldLog(v.log).records && FoldLog(v.log).records[k] == FoldLog(w.log).records[k]
    decreases ids
  {
    if ids != [] {
      var r := w.mem.records[ids[0]];
      FoldSnoc(w.log, Void(r));
      EachSkips(if r.authorityRevoked then w else Persist(w, Void(r)), ids[1..], k);
    }
  }

  lemma ClosureStartsAtSource(m: Mem, source: string)
    requires WellFiled(m) && source in m.records
    ensures Closure(m, source) != [] && Closure(m, source)[0] == source
  {
    SeenGrows(m, source, []);
    assert [source] <= VisitChildren(m, source, [] + [source], 0);
  }

  /** The flag on the source reaches the log with the source's own line, if there is one. */
  lemma RevokeAllExactIff(w: World, source: string)
    requires WellFiled(w.mem) && Exact(w) && source in w.mem.records
    ensures Exact(RevokeAll(w, source)) <==> !(w.mem.records[source].authorityRevoked && !w.mem.records[source].revoked)
    ensures w.mem.records[source].authorityRevoked && !w.mem.records[source].revoked ==>
      var v := RevokeAll(w, source);
      && source in v.mem.records && v.mem.records[source].revoked
      && source in FoldLog(v.log).records && !FoldLog(v.log).records[source].revoked
  {
    ClosureIsFiled(w.mem, source);
    ClosureStartsAtSource(w.mem, source);
    var c, src := Closure(w.mem, source), w.mem.records[source];
    var x := src.(revoked := true);
    var flagged := Touch(w, x);
    if !src.authorityRevoked {
      FlagIsWritten(w, x);
      EachExact(Persist(w, Void(x)), c[1..]);
    } else if src.revoked {
      assert flagged.mem.records == w.mem.records;
      EachExact(w, c);
    } else {
      EachSkips(flagged, c, source);
    }
  }

  lemma FlagIsWritten(w: World, x: Rec)
    requires Exact(w) && x.id in w.mem.records
    ensures Persist(Touch(w, x), Void(x)) == Persist(w, Void(x)) && Exact(Persist(w, Void(x)))
  {
    PersistExact(w, Void(x));
    assert Put(Put(w.mem, x), Void(x)).records == Put(w.mem, Void(x)).records;
  }

  lemma RevokeExactIff(w: World, source: string, reason: string, expected: Option<seq<string>>, check: Rec -> bool, markerId: string)
    requires WellFiled(w.mem) && Exact(w) && markerId != "" && markerId !in w.mem.records
    ensures Exact(RevokeSource(w, source, reason, expected, check, markerId).0) <==>
            !(RevokeSource(w, source, reason, expected, check, markerId).1.Ok?
              && w.mem.records[source].authorityRevoked && !w.mem.records[source].revoked)
  {
    RevocationRefusedIff(w, source, reason, expected, check, markerId);
    if source in w.mem.records && Expected(w.mem, source, expected, check) {
      NoteIsAppended(w, source, reason, expected, check, markerId);
      RevokeAllExactIff(w, source);
      var v, note := RevokeAll(w, source), RevocationNote(w.mem, source, reason, markerId);
      if w.mem.records[source].authorityRevoked && !w.mem.records[source].revoked {
        FoldSnoc(v.log, note);
        assert Persist(v, note).mem.records[source] != FoldLog(Persist(v, note).log).records[source];
      } else {
        PersistExact(v, note);
      }
    }
  }

  /** The two ways in which an operation leaves memory ahead of the log. */
  predicate Drifts(w: World, op: Op)
    requires WellFiled(w.mem)
  {
    || (op.Revoke? && op.source in w.mem.records
        && RevokeSource(w, op.source, op.reason, op.expected, op.check, op.markerId).1.Ok?
        && w.mem.records[op.source].authorityRevoked && !w.mem.records[op.source].revoked)
    || (op.Derive? && op.steps.Some? && !NonEmptyArray(op.steps)
        && Consolidate(w, op.sources, op.text, op.dopts.(kind := Some("procedural")), op.derivedId).1.Ok?)
  }

  lemma ConflictExact(w: World, a: string, b: string, why: string, noteId: string)
    requires WellFiled(w.mem) && Exact(w) && noteId !in w.mem.records && noteId != ""
    ensures Exact(Conflict(w, a, b, why, noteId).0)
  {
    if a in w.mem.records && b in w.mem.records {
      ConflictIsThreeWrites(w, a, b, why, noteId);
      var (note, ra, rb) := (Marker(w, a, b, why, noteId), LinkedBoth(w, a, b).0, LinkedBoth(w, a, b).1);
      PersistExact(w, note);
      PersistExact(Persist(w, note), ra);
      PersistExact(Persist(Persist(w, note), ra), rb);
    }
  }

  lemma SupersedeExact(w: World, oldId: string, next: Rec, derived: Option<seq<string>>, links: Option<set<string>>)
    requires WellFiled(w.mem) && Exact(w)
    ensures Exact(Supersede(w, oldId, next, derived, links).0)
  {
    if oldId in w.mem.records {
      AppendExact(w, next.(derivedFrom := if derived.Some? then derived.value else [oldId],
                           conflicts := if links.Some? then links.value else {},
                           supersedes := Some(oldId)));
    }
  }

  /** After a completed operation the records are the fold of the log exactly when the operation was not one of these two. */
  lemma AgreementIff(w: World, op: Op)
    requires WellFiled(w.mem) && Exact(w) && UsesFreshId(w.mem, op)
    ensures Exact(Do(w, op)) <==> !Drifts(w, op)
  {
    match op
    case Add(input) => AppendExact(w, input);
    case Replace(oldId, next, derived, links) => SupersedeExact(w, oldId, next, derived, links);
    case Contradict(a, b, why, noteId) => ConflictExact(w, a, b, why, noteId);
    case Merge(ids, content, opts, mergedId) => ConsolidateExact(w, ids, content, opts, mergedId);
    case Derive(sources, text, steps, dopts, derivedId) => DeriveExactIff(w, sources, text, steps, dopts, derivedId);
    case Revoke(source, reason, expected, check, markerId) => RevokeExactIff(w, source, reason, expected, check, markerId);
    case Remove(id) =>
      if id in w.mem.records { PersistExact(w, w.mem.records[id].(content := "[deleted]", deleted := true)); }
    case Retain(scope) =>
      FiledUnderOrder(w.mem);
      SweepExact(w, scope, w.mem.order);
  }

  predicate NeverDrifts(s: State, events: seq<Event>)
    requires CanRun(s, events, true)
    decreases events
  {
    events == [] || ((events[0].Call? ==> !Drifts(s.world, events[0].op)) && NeverDrifts(Next(s, events[0]), events[1..]))
  }

  /** Over whole runs, crashes and torn tails included. A reload agrees with its log whatever went before. */
  lemma {:induction false} RunsAgree(s: State, events: seq<Event>)
    requires CanRun(s, events, true) && Holds(s, {}, {}) && Exact(s.world) && NeverDrifts(s, events)
    ensures Exact(After(s, events, true).world)
    decreases events
  {
    if events != [] {
      var e := events[0];
      StepRemembers(s, e);
      if e.Call? {
        AgreementIff(s.world, e.op);
      } else {
        LoadAgrees(Do(s.world, e.during).log[..e.written], e.torn, e.recoveryId);
      }
      RunsAgree(Next(s, e), events[1..]);
    }
  }

  lemma LoadAgrees(lines: seq<Rec>, torn: bool, id: string)
    ensures Exact(Load(lines, torn, id))
  {
    AppendExact(World(FoldLog(lines), lines), RecoveryNote(id));
  }

  /** With a drift, memory and log still differ in nothing but the source's `revoked` flag and a procedure's steps. */
  lemma DriftIsSmall(s: State, events: seq<Event>, k: string)
    requires CanRun(s, events, true) && Holds(s, {}, {}) && k in After(s, events, true).world.mem.records
    ensures var w := After(s, events, true).world;
            && k in FoldLog(w.log).records
            && w.mem.records[k].(revoked := false, steps := None) == FoldLog(w.log).records[k].(revoked := false, steps := None)
  {
    RunRemembers(s, events);
    var w := After(s, events, true).world;
    assert SameCore(w.mem, FoldLog(w.log), k);
  }
}

/**
 * Theorems over whole runs of the memory store: operations, crashes after any
 * number of written lines, and reloads with a quarantined torn line.
 */
module MemoryTheorems {
  import opened Wrappers
  import opened MemoryModel
  import opened MemoryLineage
  import opened MemoryRevocation
  import opened MemoryRuns
  import opened MemoryAuthority
  import opened MemoryCuts

  /** `made`: the ids of the records that `consolidate` and `deriveProcedure` made. */
  datatype State = State(world: World, made: set<string>)

  /** A crash leaves the first `written` lines of the log, and perhaps a fragment, which the reload quarantines. */
  datatype Event = Call(op: Op) | Crash(during: Op, written: nat, torn: bool, recoveryId: string)

  function OpOf(e: Event): Op {
    if e.Call? then e.op else e.during
  }

  function Claimed(s: State, op: Op): set<string> {
    if MakesDerived(op) then s.made + {NewId(op).value} else s.made
  }

  function Next(s: State, e: Event): State
    requires CanHappen(s, e)
  {
    var full := Do(s.world, OpOf(e));
    var w := if e.Call? then full else Load(full.log[..e.written], e.torn, e.recoveryId);
    State(w, Claimed(s, OpOf(e)) * w.mem.records.Keys)
  }

  predicate CanHappen(s: State, e: Event) {
    && WellFiled(s.world.mem) && UsesFreshId(s.world.mem, OpOf(e))
    && (e.Crash? ==>
          var full := Do(s.world, OpOf(e));
          && |s.world.log| <= e.written <= |full.log|
          && e.recoveryId != "" && e.recoveryId !in full.mem.records && NewId(e.during) != Some(e.recoveryId))
  }

  /**
   * The crash cuts a revocation where it does harm: some record made by
   * derivation keeps authority that one of the voided records has lost.
   */
  predicate Harms(s: State, e: Event)
    requires CanHappen(s, e)
  {
    e.Crash? && e.during.Revoke? && !NothingLeft(s.world.mem, s.made, CutIds(s.world, e))
  }

  /** The records whose void lines the crash let through. */
  function CutIds(w: World, e: Event): set<string>
    requires e.Crash? && e.during.Revoke? && WellFiled(w.mem) && |w.log| <= e.written
  {
    VoidedBy(w.mem, e.during.source, e.during.expected, e.during.check, e.written - |w.log|)
  }

  /** A run; unless `harmful`, no crash in it does harm. */
  predicate CanRun(s: State, events: seq<Event>, harmful: bool)
    decreases events
  {
    events == [] || (CanHappen(s, events[0]) && (harmful || !Harms(s, events[0])) && CanRun(Next(s, events[0]), events[1..], harmful))
  }

  function After(s: State, events: seq<Event>, harmful: bool): State
    requires CanRun(s, events, harmful)
    decreases events
  {
    if events == [] then s else After(Next(s, events[0]), events[1..], harmful)
  }

  const EMPTY := State(World(NO_RECORDS, []), {})

  /** Memory and log agree on the core, revoked records are void, and the caps hold outside `cut`. */
  ghost predicate Holds(s: State, made: set<string>, cut: set<string>) {
    Ready(s.world, made, cut) && s.made <= s.world.mem.records.Keys
  }

  lemma EmptyHolds()
    ensures Holds(EMPTY, {}, {})
  {
    assert SetOf(NO_RECORDS.order) == NO_RECORDS.records.Keys;
  }

  // ---------------------------------------------------------------- one step

  function CutOf(m: Mem, op: Op): set<string>
    requires WellFiled(m)
  {
    if op.Revoke? then Below(m, op.source) else {}
  }

  lemma ReplaceFollows(w: World, made: set<string>, oldId: string, next: Rec, derived: Option<seq<string>>, links: Option<set<string>>)
    requires Ready(w, made, {}) && next.id !in w.mem.records && next.id !in made
    ensures Follows(Supersede(w, oldId, next, derived, links).0, w.log, made, {})
  {
    StartFollows(w, made, {});
    if oldId in w.mem.records {
      AppendFollows(w, w.log, made, {}, next.(derivedFrom := if derived.Some? then derived.value else [oldId],
                                              conflicts := if links.Some? then links.value else {},
                                              supersedes := Some(oldId)));
    }
  }

  lemma AddFollows(w: World, made: set<string>, input: Rec)
    requires Ready(w, made, {}) && input.id !in w.mem.records && input.id !in made
    ensures Follows(Append(w, input).0, w.log, made, {})
  {
    StartFollows(w, made, {});
    AppendFollows(w, w.log, made, {}, input);
  }

  lemma RetainFollows(w: World, made: set<string>, scope: string)
    requires Ready(w, made, {}) && WellFiled(w.mem)
    ensures Follows(Do(w, Retain(scope)), w.log, made, {})
  {
    StartFollows(w, made, {});
    FiledUnderOrder(w.mem);
    SweepFollows(w, w.log, made, {}, scope, w.mem.order);
  }

  lemma RemoveFollows(w: World, made: set<string>, id: string)
    requires Ready(w, made, {})
    ensures Follows(Delete(w, id).0, w.log, made, {})
  {
    StartFollows(w, made, {});
    if id in w.mem.records { PersistFollows(w, w.log, made, {}, w.mem.records[id].(content := "[deleted]", deleted := true)); }
  }

  lemma DoFollows(w: World, made: set<string>, op: Op)
    requires Ready(w, made, {}) && UsesFreshId(w.mem, op)
    requires NewId(op).Some? && !MakesDerived(op) ==> NewId(op).value !in made
    ensures Follows(Do(w, op), w.log, made, CutOf(w.mem, op))
  {
    match op
    case Add(input) => AddFollows(w, made, input);
    case Replace(oldId, next, derived, links) => ReplaceFollows(w, made, oldId, next, derived, links);
    case Contradict(a, b, why, noteId) => ConflictFollows(w, made, {}, a, b, why, noteId);
    case Merge(ids, content, opts, mergedId) => ConsolidateFollows(w, made, ids, content, opts, mergedId);
    case Derive(sources, text, steps, dopts, derivedId) => DeriveFollows(w, made, sources, text, steps, dopts, derivedId);
    case Revoke(source, reason, expected, check, markerId) => RevokeFollows(w, made, source, reason, expected, check, markerId);
    case Remove(id) => RemoveFollows(w, made, id);
    case Retain(scope) => RetainFollows(w, made, scope);
  }

  /** An id that is not in use may be claimed in advance. */
  lemma ClaimAhead(m: Mem, made: set<string>, id: string)
    requires Sound(m, made, {}) && id !in m.records
    ensures Sound(m, made + {id}, {})
  {
    forall k {:trigger CapHolds(m, {}, k)} | k in made + {id} && k in m.records ensures CapHolds(m, {}, k) { assert k in made; }
  }

  lemma FewerMade(m: Mem, made: set<string>, fewer: set<string>, cut: set<string>)
    requires Sound(m, made, cut) && fewer <= made
    ensures Sound(m, fewer, cut)
  {
    forall k {:trigger CapHolds(m, cut, k)} | k in fewer && k in m.records ensures CapHolds(m, cut, k) { assert k in made; }
  }

  lemma LaterSelf(m: Mem)
    ensures Later(m, m)
  {
    forall k {:trigger Remembers(m, m, k)} | k in m.records ensures Remembers(m, m, k) { }
  }

  lemma NotedSound(m: Mem, made: set<string>, cut: set<string>, note: Rec)
    requires Sound(m, made, cut) && note.id !in m.records && note.id !in made && Proper(note) && !note.authorityRevoked
    ensures Sound(Put(m, note), made, cut) && Later(m, Put(m, note))
  {
    AllowedKeepsSound(m, made, cut, note);
    PutIsLater(m, made, cut, note);
  }

  /** A reload of sound lines is sound, with or without a torn one behind them. */
  lemma LoadReady(lines: seq<Rec>, made: set<string>, cut: set<string>, torn: bool, id: string)
    requires Sound(FoldLog(lines), made, cut) && id != "" && id !in FoldLog(lines).records
    ensures Ready(Load(lines, torn, id), made - {id}, cut)
    ensures Load(lines, torn, id).mem == FoldLog(Load(lines, torn, id).log)
    ensures Later(FoldLog(lines), Load(lines, torn, id).mem)
  {
    var m := FoldLog(lines);
    FewerMade(m, made, made - {id}, cut);
    if torn {
      var note := RecoveryNote(id);
      assert CheckAppend(note).None?;
      NotedSound(m, made - {id}, cut, note);
      FoldSnoc(lines, note);
      AlikeSelf(Put(m, note));
    } else {
      LaterSelf(m);
      AlikeSelf(m);
    }
  }

  lemma AlikeSelf(m: Mem)
    ensures Alike(m, m)
  {
    forall k {:trigger SameCore(m, m, k)} | k in m.records ensures SameCore(m, m, k) { }
  }

  /** An operation that runs to its end keeps every cap. */
  lemma CallSound(w: World, made: set<string>, op: Op)
    requires Ready(w, made, {}) && UsesFreshId(w.mem, op)
    requires NewId(op).Some? && !MakesDerived(op) ==> NewId(op).value !in made
    ensures Ready(Do(w, op), made, {}) && Later(w.mem, Do(w, op).mem)
  {
    DoFollows(w, made, op);
    var v := Do(w, op);
    if op.Revoke? {
      WiderCut(w.mem, made, {}, op.source);
      FollowedSound(w, v, made, Below(w.mem, op.source));
      RevocationRefusedIff(w, op.source, op.reason, op.expected, op.check, op.markerId);
      if v != w { RevokeCompletes(w, made, {}, op.source, op.reason, op.expected, op.check, op.markerId); }
    } else {
      FollowedSound(w, v, made, {});
    }
  }

  /** Whatever part of an operation's lines was written, the log is sound outside the cut. */
  lemma PartSound(w: World, made: set<string>, op: Op, n: nat)
    requires Ready(w, made, {}) && UsesFreshId(w.mem, op) && |w.log| <= n <= |Do(w, op).log|
    requires NewId(op).Some? && !MakesDerived(op) ==> NewId(op).value !in made
    ensures var part := FoldLog(Do(w, op).log[..n]);
            Sound(part, made, CutOf(w.mem, op)) && Later(w.mem, part) && Later(part, Do(w, op).mem)
  {
    DoFollows(w, made, op);
    var v, cut := Do(w, op), CutOf(w.mem, op);
    if op.Revoke? { WiderCut(w.mem, made, {}, op.source); }
    AlikeSound(w.mem, FoldLog(w.log), made, cut);
    PrefixSound(w.log, v.log, made, cut, n);
    var part := v.log[..n];
    assert Extends(part, v.log, made, cut);
    PrefixSound(part, v.log, made, cut, |v.log|);
    assert v.log[..|v.log|] == v.log;
    AlikeSelf(FoldLog(part));
    LaterAlike(w.mem, FoldLog(w.log), FoldLog(part), FoldLog(part));
    AlikeBack(v.mem, FoldLog(v.log));
    LaterFolds(FoldLog(part), FoldLog(v.log), v.mem);
  }

  lemma LaterFolds(a: Mem, b: Mem, c: Mem)
    requires Later(a, b) && Alike(b, c)
    ensures Later(a, c)
  {
    forall k {:trigger Remembers(a, c, k)} | k in a.records ensures Remembers(a, c, k) {
      assert Remembers(a, b, k) && SameCore(b, c, k);
    }
  }

  // ---------------------------------------------------------------- runs

  lemma NewToPart(a: Mem, b: Mem, id: string)
    requires Later(a, b) && id !in b.records
    ensures id !in a.records
  {
    assert id in a.records ==> Remembers(a, b, id);
  }

  lemma CrashHolds(w: World, made: set<string>, e: Event)
    requires e.Crash? && WellFiled(w.mem) && CanHappen(State(w, {}), e)
    requires Ready(w, made, {}) && (NewId(e.during).Some? && !MakesDerived(e.during) ==> NewId(e.during).value !in made)
    ensures var t := Load(Do(w, e.during).log[..e.written], e.torn, e.recoveryId);
            Ready(t, made - {e.recoveryId}, CutOf(w.mem, e.during)) && Later(w.mem, t.mem)
  {
    var lines, v := Do(w, e.during).log[..e.written], Do(w, e.during);
    var t := Load(lines, e.torn, e.recoveryId);
    PartSound(w, made, e.during, e.written);
    NewToPart(FoldLog(lines), v.mem, e.recoveryId);
    LoadReady(lines, made, CutOf(w.mem, e.during), e.torn, e.recoveryId);
    LaterThan(w.mem, FoldLog(lines), t.mem);
  }

  lemma LoadVoids(m: Mem, lines: seq<Rec>, voided: set<string>, torn: bool, id: string)
    requires VoidedIn(m, FoldLog(lines), voided) && id !in m.records
    ensures VoidedIn(m, Load(lines, torn, id).mem, voided)
  {
    if torn && CheckAppend(RecoveryNote(id)).None? { NewRecordVoidsNothing(m, FoldLog(lines), voided, RecoveryNote(id)); }
  }

  lemma RecoveryIsNew(w: World, e: Event)
    requires e.Crash? && CanHappen(State(w, {}), e) && Ready(w, {}, {})
    ensures e.recoveryId !in w.mem.records
  {
    CallSound(w, {}, e.during);
    NewToPart(w.mem, Do(w, e.during).mem, e.recoveryId);
  }

  lemma NextIsLoad(s: State, e: Event, lines: seq<Rec>)
    requires CanHappen(s, e) && e.Crash? && lines == Do(s.world, e.during).log[..e.written]
    ensures Next(s, e).world == Load(lines, e.torn, e.recoveryId)
  {
  }

  /** The lines that are left void these records. */
  lemma CutLinesVoid(w: World, e: Event, lines: seq<Rec>)
    requires e.Crash? && e.during.Revoke? && CanHappen(State(w, {}), e) && Ready(w, {}, {})
    requires lines == Do(w, e.during).log[..e.written]
    ensures VoidedIn(w.mem, FoldLog(lines), CutIds(w, e))
  {
    PartOfDoVoids(w, e.during, e.written);
  }

  /** Whatever the crash let through of a revocation, and whatever the reload added: these records are void, and no others that were not. */
  lemma CutVoids(s: State, e: Event)
    requires e.Crash? && e.during.Revoke? && CanHappen(s, e) && Holds(s, {}, {})
    ensures VoidedIn(s.world.mem, Next(s, e).world.mem, CutIds(s.world, e))
  {
    RecoveryIsNew(s.world, e);
    var lines := Do(s.world, e.during).log[..e.written];
    CutLinesVoid(s.world, e, lines);
    NextIsLoad(s, e, lines);
    LoadVoids(s.world.mem, lines, CutIds(s.world, e), e.torn, e.recoveryId);
  }

  /**
   * After a crash at any point of a revocation, with or without a torn line,
   * and also when the revocation is refused or complete: every cap holds
   * exactly when no record that was made from a voided record, and was not
   * voided itself, has authority left.
   */
  lemma CutSoundIff(s: State, e: Event)
    requires CanHappen(s, e) && Holds(s, s.made, {}) && e.Crash? && e.during.Revoke?
    ensures Capped(Next(s, e).world.mem, Next(s, e).made, {}) <==> NothingLeft(s.world.mem, s.made, CutIds(s.world, e))
  {
    var n := e.written - |s.world.log|;
    FewerMade(s.world.mem, s.made, {}, {});
    CutVoids(s, e);
    VoidedAreRecords(s.world.mem, e.during.source, e.during.expected, e.during.check, n);
    MadeStays(s, e);
    VoidedCappedIff(s.world.mem, Next(s, e).world.mem, s.made, CutIds(s.world, e));
  }

  lemma MadeStays(s: State, e: Event)
    requires CanHappen(s, e) && Holds(s, s.made, {}) && e.Crash? && e.during.Revoke?
    ensures Next(s, e).made == s.made
  {
    FewerMade(s.world.mem, s.made, {}, {});
    CrashHolds(s.world, {}, e);
    forall k | k in s.made ensures k in Next(s, e).world.mem.records { assert Remembers(s.world.mem, Next(s, e).world.mem, k); }
  }

  /** A step keeps every cap exactly when it is no crash that does harm. */
  lemma StepHoldsIff(s: State, e: Event)
    requires CanHappen(s, e) && Holds(s, s.made, {})
    ensures Holds(Next(s, e), Next(s, e).made, {}) <==> !Harms(s, e)
    ensures Later(s.world.mem, Next(s, e).world.mem)
  {
    var op, w, t := OpOf(e), s.world, Next(s, e);
    var made := Claimed(s, op);
    if MakesDerived(op) { ClaimAhead(w.mem, s.made, NewId(op).value); }
    CallSound(w, made, op);
    if e.Call? {
      FewerMade(t.world.mem, made, t.made, {});
    } else {
      CrashHolds(w, made, e);
      RecoveryIsNotMade(s, e);
      FewerMade(t.world.mem, made - {e.recoveryId}, t.made, CutOf(w.mem, op));
      if op.Revoke? { CutSoundIff(s, e); }
    }
  }

  lemma RecoveryIsNotMade(s: State, e: Event)
    requires CanHappen(s, e) && e.Crash? && s.made <= s.world.mem.records.Keys && Later(s.world.mem, Do(s.world, e.during).mem)
    ensures e.recoveryId !in Next(s, e).made
  {
    NewToPart(s.world.mem, Do(s.world, e.during).mem, e.recoveryId);
  }

  lemma StepRemembers(s: State, e: Event)
    requires CanHappen(s, e) && Holds(s, {}, {})
    ensures Holds(Next(s, e), {}, {}) && Later(s.world.mem, Next(s, e).world.mem)
  {
    CallSound(s.world, {}, OpOf(e));
    if e.Crash? { CrashHolds(s.world, {}, e); }
  }

  lemma {:induction false} RunHolds(s: State, events: seq<Event>)
    requires CanRun(s, events, false) && Holds(s, s.made, {})
    ensures Holds(After(s, events, false), After(s, events, false).made, {})
    decreases events
  {
    if events != [] {
      StepHoldsIff(s, events[0]);
      RunHolds(Next(s, events[0]), events[1..]);
    }
  }

  lemma {:induction false} RunRemembers(s: State, events: seq<Event>)
    requires CanRun(s, events, true) && Holds(s, {}, {})
    ensures Holds(After(s, events, true), {}, {})
    ensures Later(s.world.mem, After(s, events, true).world.mem)
    decreases events
  {
    if events == [] {
      forall k {:trigger Remembers(s.world.mem, s.world.mem, k)} | k in s.world.mem.records
        ensures Remembers(s.world.mem, s.world.mem, k) { }
    } else {
      StepRemembers(s, events[0]);
      RunRemembers(Next(s, events[0]), events[1..]);
      LaterThan(s.world.mem, Next(s, events[0]).world.mem, After(s, events, true).world.mem);
    }
  }

  /**
   * Authority never grows along derivation: in every run from the empty store
   * in which no crash does harm, each record made by `consolidate` or
   * `deriveProcedure` is bounded by each of its sources, which all exist.
   */
  lemma AuthorityNeverGrows(events: seq<Event>, k: string, source: string)
    requires CanRun(EMPTY, events, false)
    requires var t := After(EMPTY, events, false);
             k in t.made && k in t.world.mem.records && source in t.world.mem.records[k].derivedFrom
    ensures var m := After(EMPTY, events, false).world.mem;
            source in m.records && AtMost(m.records[k].authority, m.records[source].authority)
  {
    EmptyHolds();
    RunHolds(EMPTY, events);
    var m := After(EMPTY, events, false).world.mem;
    assert CapHolds(m, {}, k);
    assert Caps(m, {}, source, m.records[k].authority);
  }

  lemma {:induction false} CapsChain(m: Mem, made: set<string>, path: seq<string>)
    requires Sound(m, made, {}) && IsChain(m, path) && path[0] in m.records
    requires forall i :: 0 < i < |path| ==> path[i] in made
    ensures var last := path[|path| - 1];
            last in m.records && AtMost(m.records[last].authority, m.records[path[0]].authority)
    decreases |path|
  {
    if |path| > 1 {
      var n := |path| - 1;
      forall i {:trigger Linked(m, path[..n], i)} | 0 <= i < n - 1 ensures Linked(m, path[..n], i) { assert Linked(m, path, i); }
      CapsChain(m, made, path[..n]);
      assert Linked(m, path, n - 1);
      assert CapHolds(m, {}, path[n]);
      assert Caps(m, {}, path[n - 1], m.records[path[n]].authority);
    }
  }

  /** The bound reaches through any number of derivations. */
  lemma AncestorsBound(events: seq<Event>, path: seq<string>)
    requires CanRun(EMPTY, events, false)
    requires IsChain(After(EMPTY, events, false).world.mem, path)
    requires forall i :: 0 < i < |path| ==> path[i] in After(EMPTY, events, false).made
    requires path[0] in After(EMPTY, events, false).world.mem.records
    ensures var m := After(EMPTY, events, false).world.mem;
            && path[|path| - 1] in m.records
            && AtMost(m.records[path[|path| - 1]].authority, m.records[path[0]].authority)
  {
    EmptyHolds();
    RunHolds(EMPTY, events);
    CapsChain(After(EMPTY, events, false).world.mem, After(EMPTY, events, false).made, path);
  }

  /** Revoked is revoked: whatever happens later, interrupted revocations included, the record stays and stays void. */
  lemma RevokedForGood(s: State, events: seq<Event>, k: string)
    requires CanRun(s, events, true) && Holds(s, {}, {})
    requires k in s.world.mem.records && s.world.mem.records[k].authorityRevoked
    ensures var m := After(s, events, true).world.mem;
            k in m.records && m.records[k].authorityRevoked && m.records[k].authority == VOID
  {
    RunRemembers(s, events);
    assert Remembers(s.world.mem, After(s, events, true).world.mem, k);
  }

  /**
   * The store mints no authority: in every run, interrupted revocations
   * included, no record is of an assurance kind or names a use that would
   * permit an execution.
   */
  lemma NothingIsMinted(events: seq<Event>, k: string, use: string)
    requires CanRun(EMPTY, events, true) && k in After(EMPTY, events, true).world.mem.records
    ensures var r := After(EMPTY, events, true).world.mem.records[k];
            !AssuranceKind(r.kind) && (use in r.authority.uses ==> !ForbiddenUse(use))
  {
    EmptyHolds();
    RunRemembers(EMPTY, events);
    assert Proper(After(EMPTY, events, true).world.mem.records[k]);
  }

  // ---------------------------------------------------------------- interrupted revocations

  predicate Always(r: Rec) { true }

  lemma LaterKeepsLineage(a: Mem, b: Mem)
    requires Later(a, b)
    ensures KeepsLineage(a, b)
  {
    forall k {:trigger SameSources(a, b, k)} | k in a.records ensures SameSources(a, b, k) { assert Remembers(a, b, k); }
  }

  /** What a crash in the middle of a revocation leaves behind: only records below its source may exceed their cap. */
  lemma InterruptedHolds(s: State, e: Event)
    requires CanHappen(s, e) && Holds(s, s.made, {}) && e.Crash? && e.during.Revoke? && e.during.source in s.world.mem.records
    ensures Holds(Next(s, e), Next(s, e).made, Below(s.world.mem, e.during.source))
    ensures Below(s.world.mem, e.during.source) <= Below(Next(s, e).world.mem, e.during.source)
    ensures e.during.source in Next(s, e).world.mem.records
  {
    var w, u, source := s.world, Next(s, e).world, e.during.source;
    CallSound(w, s.made, e.during);
    CrashHolds(w, s.made, e);
    RecoveryIsNotMade(s, e);
    FewerMade(u.mem, s.made - {e.recoveryId}, Next(s, e).made, Below(w.mem, source));
    LaterKeepsLineage(w.mem, u.mem);
    BelowGrows(w.mem, u.mem, source);
  }

  /** Revoking again is enough: every cap holds, and everything that was below the source is void. */
  lemma RetryCompletes(s: State, e: Event, reason: string, markerId: string)
    requires CanHappen(s, e) && Holds(s, s.made, {}) && e.Crash? && e.during.Revoke? && e.during.source in s.world.mem.records
    requires CanHappen(Next(s, e), Call(Revoke(e.during.source, reason, None, Always, markerId)))
    ensures var t := Next(Next(s, e), Call(Revoke(e.during.source, reason, None, Always, markerId)));
            && Sound(t.world.mem, t.made, {})
            && forall k :: k in Below(s.world.mem, e.during.source) ==>
                 k in t.world.mem.records && t.world.mem.records[k].authority == VOID
  {
    InterruptedHolds(s, e);
    AgainCompletes(Next(s, e), Below(s.world.mem, e.during.source), e.during.source, reason, markerId);
  }

  lemma AgainCompletes(u: State, cut: set<string>, source: string, reason: string, markerId: string)
    requires Holds(u, u.made, cut) && source in u.world.mem.records && cut <= Below(u.world.mem, source)
    requires CanHappen(u, Call(Revoke(source, reason, None, Always, markerId)))
    ensures var t := Next(u, Call(Revoke(source, reason, None, Always, markerId)));
            && Sound(t.world.mem, t.made, {})
            && forall k :: k in cut ==> k in t.world.mem.records && t.world.mem.records[k].authority == VOID
  {
    RevokeCompletes(u.world, u.made, cut, source, reason, None, Always, markerId);
    BelowEndsVoid(u.world, source, reason, None, Always, markerId);
    var t := Next(u, Call(Revoke(source, reason, None, Always, markerId)));
    FewerMade(t.world.mem, u.made, t.made, {});
  }

  /** Lineage only grows, so what was below a record stays below it. */
  lemma BelowGrows(a: Mem, b: Mem, source: string)
    requires WellFiled(a) && WellFiled(b) && KeepsLineage(a, b) && source in a.records
    ensures source in b.records && Below(a, source) <= Below(b, source)
  {
    assert SameSources(a, b, source);
    BelowIsReachable(a, source);
    BelowIsReachable(b, source);
    forall k | k in Below(a, source) ensures k in Below(b, source) {
      assert Reachable(a, source, k);
      StillReachable(a, b, source, k);
    }
  }
}

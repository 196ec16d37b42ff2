/**
 * The memory factory over whole runs: what it lets through, and what its
 * records say, whatever else happens to the store in between.
 */
module FactoryRuns {
  import opened Wrappers
  import opened MemoryModel
  import opened MemoryLineage
  import opened MemoryRevocation
  import opened MemoryRuns
  import opened MemoryAuthority
  import opened MemoryTheorems
  import opened FactoryModel
  import opened MemoryProvenance
  import ScopeContracts
  import ScopeMeet

  // ---------------------------------------------------------------- what the factory lets through

  function IdsOf(op: Op): seq<string>
    requires MakesDerived(op)
  {
    if op.Merge? then op.ids else op.sources
  }

  function OptionsOf(op: Op): Options
    requires MakesDerived(op)
  {
    if op.Merge? then op.opts else op.dopts.(kind := Some("procedural"))
  }

  function ContentOf(op: Op): string
    requires MakesDerived(op)
  {
    if op.Merge? then op.content else op.text
  }

  /** A store operation as the factory calls it. */
  ghost predicate FactoryMade(m: Mem, project: string, op: Op) {
    && MakesDerived(op) && Sources(m, IdsOf(op)).Ok? && Sources(m, IdsOf(op)).value != []
    && var rs := Sources(m, IdsOf(op)).value;
       && (forall i :: 0 <= i < |rs| ==> FactorySource(project, rs[i]) && !rs[i].deleted && !rs[i].revoked && !rs[i].authorityRevoked)
       && OptionsOf(op).project == Some(project)
       && OptionsOf(op).visibility == Some(CommonVisibility(rs)) && OptionsOf(op).sourceVersions == Some(AllVersions(rs))
  }

  lemma {:induction false} FactorySourcesAre(m: Mem, project: string, ids: seq<string>)
    ensures FactorySources(m, project, ids).Ok? <==> AllFactorySources(m, project, ids)
    ensures FactorySources(m, project, ids).Ok? ==> Sources(m, ids).Ok? && Sources(m, ids).value == FactorySources(m, project, ids).value
  {
    if ids != [] {
      FactorySourcesAre(m, project, ids[1..]);
      if AllFactorySources(m, project, ids) {
        assert ids[0] in m.records;
        forall i | 0 <= i < |ids[1..]| ensures ids[1..][i] in m.records && FactorySource(project, m.records[ids[1..][i]]) { assert ids[i + 1] in m.records; }
      }
      if ids[0] in m.records && FactorySource(project, m.records[ids[0]]) && AllFactorySources(m, project, ids[1..]) {
        forall i | 0 <= i < |ids| ensures ids[i] in m.records && FactorySource(project, m.records[ids[i]]) {
          if i > 0 { assert ids[1..][i - 1] in m.records; }
        }
      }
    }
  }

  lemma {:induction false} CountIds(ids: seq<string>)
    ensures |SetOf(ids)| <= |ids|
    ensures |SetOf(ids)| == |ids| <==> Distinct(ids)
  {
    if ids != [] {
      var n := |ids| - 1;
      var p := ids[..n];
      CountIds(p);
      assert SetOf(ids) == SetOf(p) + {ids[n]} by { assert ids == p + [ids[n]]; }
      if ids[n] in p {
        assert SetOf(ids) == SetOf(p);
        var i :| 0 <= i < n && p[i] == ids[n];
        assert ids[i] == ids[n];
      } else if Distinct(p) {
        forall i, j | 0 <= i < j < |ids| ensures ids[i] != ids[j] { if j == n { assert p[i] in p; } else { assert p[i] != p[j]; } }
      } else {
        var i, j :| 0 <= i < j < |p| && p[i] == p[j];
        assert ids[i] == ids[j];
      }
    }
  }

  ghost predicate GoodSource(m: Mem, project: string, k: string) {
    k in m.records && FactorySource(project, m.records[k]) && !m.records[k].deleted && !m.records[k].revoked && !m.records[k].authorityRevoked
  }

  ghost predicate AllGood(m: Mem, project: string, ids: seq<string>) {
    forall k {:trigger GoodSource(m, project, k)} :: k in ids ==> GoodSource(m, project, k)
  }

  /** What is asked for is stated, and none of it is nameless. */
  predicate WellAsked(q: Request) {
    "" !in q.ids && q.visibility.Some? && "" !in q.visibility.value && q.uses.Some? && "" !in q.uses.value
  }

  /** No more is asked for than what the sources warrant, each of them. */
  ghost predicate Warranted(q: Request, rs: seq<Rec>)
    requires q.visibility.Some? && q.uses.Some?
  {
    && q.confidence == Some(Conservative(rs))
    && forall i :: 0 <= i < |rs| ==> q.visibility.value <= VisibilityOf(rs[i]) && q.uses.value <= rs[i].authority.uses
  }

  lemma RulingIff(q: Request, rs: seq<Rec>)
    requires rs != []
    ensures var ruling := ValidateConsolidation(q, rs);
            ruling.Some? && ruling.value.objections == {} <==>
              WellAsked(q) && LocallySound(q.ids, rs) && !AnyRevoked(rs) && Warranted(q, rs)
  {
    SharedAre(rs, OrElse(q.visibility, {}), OrElse(q.uses, {}));
  }

  lemma KnownSources(m: Mem, project: string, ids: seq<string>)
    requires AllGood(m, project, ids)
    ensures AllFactorySources(m, project, ids)
  {
    forall i | 0 <= i < |ids| ensures ids[i] in m.records && FactorySource(project, m.records[ids[i]]) { assert GoodSource(m, project, ids[i]); }
  }

  /**
   * The gates admit a proposal exactly when it names some records of the
   * factory, each once, none deleted or revoked, asks for the confidence they
   * warrant, and for no visibility or use that one of them lacks.
   */
  lemma AdmittedIff(m: Mem, project: string, q: Request)
    requires WellFiled(m)
    ensures Admit(m, project, q).Ok? <==>
            && q.ids != [] && Distinct(q.ids) && AllGood(m, project, q.ids) && WellAsked(q)
            && Sources(m, q.ids).Ok? && Warranted(q, Sources(m, q.ids).value)
  {
    FactorySourcesAre(m, project, q.ids);
    SourcesAre(m, q.ids);
    if AllGood(m, project, q.ids) { KnownSources(m, project, q.ids); }
    if FactorySources(m, project, q.ids).Ok? {
      var rs := Sources(m, q.ids).value;
      LocalIff(m, q.ids);
      GoodIff(m, project, q.ids);
      if q.ids != [] { RulingIff(q, rs); }
    }
  }

  lemma LocalIff(m: Mem, ids: seq<string>)
    requires WellFiled(m) && Sources(m, ids).Ok?
    ensures var rs := Sources(m, ids).value;
            LocallySound(ids, rs) <==> ids != [] && Distinct(ids) && forall i :: 0 <= i < |rs| ==> !rs[i].deleted
  {
    SourcesAre(m, ids);
    CountIds(ids);
    var rs := Sources(m, ids).value;
    if ids != [] { assert ids[0] in SetOf(ids); }
    forall i | 0 <= i < |rs| ensures rs[i].id in SetOf(ids) { assert rs[i] == m.records[ids[i]]; }
  }

  lemma GoodIff(m: Mem, project: string, ids: seq<string>)
    requires Sources(m, ids).Ok? && AllFactorySources(m, project, ids)
    ensures var rs := Sources(m, ids).value;
            AllGood(m, project, ids) <==> (forall i :: 0 <= i < |rs| ==> !rs[i].deleted) && !AnyRevoked(rs)
  {
    SourcesAre(m, ids);
    var rs := Sources(m, ids).value;
    if AllGood(m, project, ids) {
      forall i | 0 <= i < |rs| ensures !rs[i].deleted && !rs[i].revoked && !rs[i].authorityRevoked {
        assert rs[i] == m.records[ids[i]] && GoodSource(m, project, ids[i]);
      }
    }
    if (forall i :: 0 <= i < |rs| ==> !rs[i].deleted) && !AnyRevoked(rs) {
      forall k {:trigger GoodSource(m, project, k)} | k in ids ensures GoodSource(m, project, k) {
        var i :| 0 <= i < |ids| && ids[i] == k;
        assert rs[i] == m.records[k];
      }
    }
  }

  lemma {:induction false} SharedAre(rs: seq<Rec>, visibility: set<string>, uses: set<string>)
    requires rs != []
    ensures visibility <= CommonVisibility(rs) && uses <= CommonUses(rs) <==>
            forall i :: 0 <= i < |rs| ==> visibility <= VisibilityOf(rs[i]) && uses <= rs[i].authority.uses
  {
    if |rs| > 1 {
      var p := rs[..|rs| - 1];
      SharedAre(p, visibility, uses);
      assert forall i :: 0 <= i < |p| ==> p[i] == rs[i];
      assert forall i :: 0 <= i < |rs| ==> i < |p| || rs[i] == rs[|rs| - 1];
    }
  }

  /** The store operation behind an admitted proposal. */
  function ConsolidateOp(project: string, p: Proposal, ruling: Ruling, rs: seq<Rec>, newId: string): Op {
    Merge(p.request.ids, p.content, StoreOptions(project, p, OrElse(p.kind, "semantic"), ruling, rs), newId)
  }

  function DeriveOp(project: string, p: Proposal, steps: Option<Steps>, ruling: Ruling, rs: seq<Rec>, newId: string): Op {
    Derive(p.request.ids, p.content, steps, StoreOptions(project, p, "procedural", ruling, rs), newId)
  }

  lemma AdmittedIsMade(m: Mem, project: string, q: Request)
    requires WellFiled(m) && Admit(m, project, q).Ok?
    ensures var (ruling, rs) := Admit(m, project, q).value;
            && Sources(m, q.ids) == Ok(rs) && rs != []
            && ruling.visibility == CommonVisibility(rs)
            && forall i :: 0 <= i < |rs| ==> FactorySource(project, rs[i]) && !rs[i].deleted && !rs[i].revoked && !rs[i].authorityRevoked
  {
    var rs := Admit(m, project, q).value.1;
    FactorySourcesAre(m, project, q.ids);
    SourcesAre(m, q.ids);
    LocalIff(m, q.ids);
    forall i | 0 <= i < |rs| ensures FactorySource(project, rs[i]) && !rs[i].deleted && !rs[i].revoked && !rs[i].authorityRevoked {
      assert rs[i] == m.records[q.ids[i]];
    }
  }

  /** A factory consolidation changes nothing, or is a store operation with everything taken from the sources. */
  lemma ConsolidationRefines(w: World, project: string, p: Proposal, newId: string)
    requires WellFiled(w.mem)
    ensures var v := FactoryConsolidate(w, project, p, newId).0;
            match Admit(w.mem, project, p.request)
            case Err(_) => v == w
            case Ok((ruling, rs)) =>
              var op := ConsolidateOp(project, p, ruling, rs, newId);
              FactoryMade(w.mem, project, op) && v == Do(w, op)
  {
    if Admit(w.mem, project, p.request).Ok? { AdmittedIsMade(w.mem, project, p.request); }
  }

  lemma AdmittedDerivationIsMade(m: Mem, project: string, q: Request)
    requires WellFiled(m) && AdmitDerivation(m, project, q).Ok?
    ensures var (ruling, rs) := AdmitDerivation(m, project, q).value;
            && Sources(m, q.ids) == Ok(rs) && rs != []
            && ruling.visibility == CommonVisibility(rs)
            && forall i :: 0 <= i < |rs| ==> FactorySource(project, rs[i]) && !rs[i].deleted && !rs[i].revoked && !rs[i].authorityRevoked
  {
    AdmittedIsMade(m, project, Defaulted(q, FactorySources(m, project, q.ids).value));
  }

  lemma DerivationRefines(w: World, project: string, p: Proposal, steps: Option<Steps>, newId: string)
    requires WellFiled(w.mem)
    ensures var v := FactoryDerive(w, project, p, steps, newId).0;
            match AdmitDerivation(w.mem, project, p.request)
            case Err(_) => v == w
            case Ok((ruling, rs)) =>
              var op := DeriveOp(project, p, steps, ruling, rs, newId);
              FactoryMade(w.mem, project, op) && v == Do(w, op)
  {
    if AdmitDerivation(w.mem, project, p.request).Ok? { AdmittedDerivationIsMade(w.mem, project, p.request); }
  }

  /** A factory revocation goes ahead exactly when the source is known and everything below it is the factory's. */
  lemma FactoryRevokesIff(w: World, project: string, source: string, reason: string, markerId: string)
    requires WellFiled(w.mem) && markerId != "" && markerId !in w.mem.records
    ensures var (v, r) := FactoryRevoke(w, project, source, reason, markerId);
            && (r.Ok? <==> source in w.mem.records
                           && forall k {:trigger Reachable(w.mem, source, k)} :: Reachable(w.mem, source, k) ==>
                                k in w.mem.records && FactorySource(project, w.mem.records[k]))
            && (r.Err? ==> v == w)
            && (r.Ok? ==> Decided(w.mem, v.mem, source, markerId))
  {
    if source in w.mem.records {
      var c := Closure(w.mem, source);
      ClosureIsExact(w.mem, source);
      ClosureIsFiled(w.mem, source);
      if AllFactorySources(w.mem, project, c) {
        forall k {:trigger Reachable(w.mem, source, k)} | Reachable(w.mem, source, k)
          ensures k in w.mem.records && FactorySource(project, w.mem.records[k])
        {
          var i :| 0 <= i < |c| && c[i] == k;
        }
        ExpectedClosure(w.mem, source, FactoryCheck(project));
        RevocationIsExact(w, source, reason, Some(c), FactoryCheck(project), markerId);
      } else {
        var i :| 0 <= i < |c| && !(c[i] in w.mem.records && FactorySource(project, w.mem.records[c[i]]));
        assert Reachable(w.mem, source, c[i]);
      }
    }
  }

  lemma ExpectedClosure(m: Mem, source: string, check: Rec -> bool)
    requires WellFiled(m) && source in m.records
    requires forall k {:trigger Reachable(m, source, k)} :: Reachable(m, source, k) ==> k in m.records && check(m.records[k])
    ensures Expected(m, source, Some(Closure(m, source)), check)
  {
    ClosureIsExact(m, source);
  }

  // ---------------------------------------------------------------- runs

  /** The summary that an operation files under its new id. */
  ghost function MadeRecord(m: Mem, op: Op): Rec
    requires MakesDerived(op) && Sources(m, IdsOf(op)).Ok? && Sources(m, IdsOf(op)).value != []
  {
    Summary(Sources(m, IdsOf(op)).value, IdsOf(op), ContentOf(op), OptionsOf(op), NewId(op).value)
  }

  /** If `m` has a record `made.id`, it is `made` in all that lasts. */
  ghost predicate Files(made: Rec, m: Mem) {
    made.id in m.records ==> Lasting(m.records[made.id]) == Lasting(made)
  }

  lemma NewIsSummary(w: World, project: string, op: Op)
    requires WellFiled(w.mem) && FactoryMade(w.mem, project, op) && UsesFreshId(w.mem, op)
    ensures MadeRecord(w.mem, op).id == NewId(op).value && Files(MadeRecord(w.mem, op), Do(w, op).mem)
  {
  }

  /** However many of the lines were written, and whatever a reload appends to them. */
  lemma LoadFiles(made: Rec, lines: seq<Rec>, whole: Mem, cut: set<string>, torn: bool, id: string)
    requires Later(FoldLog(lines), whole) && Files(made, whole)
    requires Sound(FoldLog(lines), {}, cut) && id != "" && id !in whole.records && id != made.id
    ensures Files(made, Load(lines, torn, id).mem)
  {
    var part, loaded := FoldLog(lines), Load(lines, torn, id).mem;
    NewToPart(part, whole, id);
    LoadReady(lines, {}, cut, torn, id);
    LoadKeys(lines, torn, id);
    if made.id in loaded.records {
      assert made.id in part.records;
      assert Remembers(part, whole, made.id) && Remembers(part, loaded, made.id);
    }
  }

  lemma LoadKeys(lines: seq<Rec>, torn: bool, id: string)
    ensures Load(lines, torn, id).mem.records.Keys <= FoldLog(lines).records.Keys + {id}
  {
  }

  lemma CrashFiles(w: World, project: string, op: Op, n: nat, torn: bool, id: string)
    requires Ready(w, {}, {}) && FactoryMade(w.mem, project, op) && UsesFreshId(w.mem, op)
    requires |w.log| <= n <= |Do(w, op).log| && id != "" && id !in Do(w, op).mem.records && NewId(op) != Some(id)
    ensures MadeRecord(w.mem, op).id == NewId(op).value && Files(MadeRecord(w.mem, op), Load(Do(w, op).log[..n], torn, id).mem)
  {
    NewIsSummary(w, project, op);
    PartSound(w, {}, op, n);
    LoadFiles(MadeRecord(w.mem, op), Do(w, op).log[..n], Do(w, op).mem, CutOf(w.mem, op), torn, id);
  }

  /** `ours`: the event is a factory call. */
  datatype FEvent = FEvent(event: Event, ours: bool)

  datatype FState = FState(state: State, built: set<string>)

  ghost predicate FCanHappen(project: string, f: FState, e: FEvent) {
    CanHappen(f.state, e.event) && (e.ours ==> FactoryMade(f.state.world.mem, project, OpOf(e.event)))
  }

  ghost function FNext(project: string, f: FState, e: FEvent): FState
    requires FCanHappen(project, f, e)
  {
    var t := Next(f.state, e.event);
    FState(t, (if e.ours then f.built + {NewId(OpOf(e.event)).value} else f.built) * t.world.mem.records.Keys)
  }

  ghost predicate FCanRun(project: string, f: FState, es: seq<FEvent>)
    decreases es
  {
    es == [] || (FCanHappen(project, f, es[0]) && FCanRun(project, FNext(project, f, es[0]), es[1..]))
  }

  ghost function FAfter(project: string, f: FState, es: seq<FEvent>): FState
    requires FCanRun(project, f, es)
    decreases es
  {
    if es == [] then f else FAfter(project, FNext(project, f, es[0]), es[1..])
  }

  ghost predicate FHolds(f: FState) {
    Holds(f.state, {}, {}) && f.built <= f.state.world.mem.records.Keys && AllDrawn(f.state.world.mem, f.built)
  }

  lemma NewAfterEvent(f: FState, project: string, e: FEvent)
    requires FCanHappen(project, f, e) && e.ours && Holds(f.state, {}, {})
    ensures var made := MadeRecord(f.state.world.mem, OpOf(e.event));
            made.id == NewId(OpOf(e.event)).value && Files(made, Next(f.state, e.event).world.mem)
  {
    var w, op := f.state.world, OpOf(e.event);
    if e.event.Call? {
      NewIsSummary(w, project, op);
    } else {
      CrashFiles(w, project, op, e.event.written, e.event.torn, e.event.recoveryId);
    }
  }

  lemma NewBuilt(a: Mem, b: Mem, project: string, op: Op)
    requires WellFiled(a) && WellFiled(b) && Later(a, b) && FactoryMade(a, project, op) && UsesFreshId(a, op)
    requires Files(MadeRecord(a, op), b) && MadeRecord(a, op).id == NewId(op).value && NewId(op).value in b.records
    ensures DrawnFrom(b, NewId(op).value)
  {
    NewIsDrawn(a, b, IdsOf(op), ContentOf(op), OptionsOf(op), NewId(op).value);
  }

  lemma FStepHolds(project: string, f: FState, e: FEvent)
    requires FCanHappen(project, f, e) && FHolds(f)
    ensures FHolds(FNext(project, f, e))
  {
    StepRemembers(f.state, e.event);
    var a, b := f.state.world.mem, Next(f.state, e.event).world.mem;
    var op := OpOf(e.event);
    if e.ours { NewAfterEvent(f, project, e); }
    forall k {:trigger DrawnFrom(b, k)} | k in FNext(project, f, e).built && k in b.records ensures DrawnFrom(b, k) {
      if k in f.built {
        assert DrawnFrom(a, k);
        StaysDrawn(a, b, k);
      } else {
        NewBuilt(a, b, project, op);
      }
    }
  }

  lemma {:induction false} FRunHolds(project: string, f: FState, es: seq<FEvent>)
    requires FCanRun(project, f, es) && FHolds(f)
    ensures FHolds(FAfter(project, f, es))
    decreases es
  {
    if es != [] {
      FStepHolds(project, f, es[0]);
      FRunHolds(project, FNext(project, f, es[0]), es[1..]);
    }
  }

  const NOTHING := FState(EMPTY, {})

  lemma NothingHolds()
    ensures FHolds(NOTHING)
  {
    EmptyHolds();
  }

  // ---------------------------------------------------------------- provenance

  /** Whatever `built` holds at the end of a run from the empty store. */
  ghost predicate Built(project: string, es: seq<FEvent>, k: string) {
    FCanRun(project, NOTHING, es) && k in FAfter(project, NOTHING, es).built
  }

  lemma BuiltRoots(project: string, es: seq<FEvent>, k: string, t: Mark)
    requires Built(project, es, k)
    ensures var f := FAfter(project, NOTHING, es);
            var m := f.state.world.mem;
            && AllDrawn(m, f.built) && k in m.records && m.records[k].versions.Some? && m.records[k].visibility.Some?
            && (Has(t, m.records[k]) <==> exists root :: RootHas(m, f.built, k, root, t))
  {
    NothingHolds();
    FRunHolds(project, NOTHING, es);
    var f := FAfter(project, NOTHING, es);
    assert DrawnFrom(f.state.world.mem, k);
    RootsDecide(f.state.world.mem, f.built, k, t);
  }

  /** The versions of a factory-built record are those of all the records it ultimately descends from. */
  lemma VersionsAreTheRoots(project: string, es: seq<FEvent>, k: string, v: string)
    requires Built(project, es, k)
    ensures var f := FAfter(project, NOTHING, es);
            var m := f.state.world.mem;
            && k in m.records && m.records[k].versions.Some?
            && (v in m.records[k].versions.value <==>
                  exists root :: IsRoot(m, f.built, root, k) && root in m.records && v in VersionsOf(m.records[root]))
  {
    BuiltRoots(project, es, k, SpeaksFor(v));
    var f := FAfter(project, NOTHING, es);
    var m := f.state.world.mem;
    if root :| RootHas(m, f.built, k, root, SpeaksFor(v)) { assert v in VersionsOf(m.records[root]); }
    if root :| IsRoot(m, f.built, root, k) && root in m.records && v in VersionsOf(m.records[root]) {
      assert RootHas(m, f.built, k, root, SpeaksFor(v));
    }
  }

  /** It is verified exactly when all of them are, and contradicted exactly when one of them is. */
  lemma ConfidenceIsTheRoots(project: string, es: seq<FEvent>, k: string)
    requires Built(project, es, k)
    ensures var f := FAfter(project, NOTHING, es);
            var m := f.state.world.mem;
            && k in m.records
            && (m.records[k].confidence == Verified <==>
                  forall root :: IsRoot(m, f.built, root, k) && root in m.records ==> m.records[root].confidence == Verified)
            && (m.records[k].confidence == Contradicted <==>
                  exists root :: IsRoot(m, f.built, root, k) && root in m.records && m.records[root].confidence == Contradicted)
  {
    BuiltRoots(project, es, k, Refuted);
    BuiltRoots(project, es, k, Doubtful);
    var f := FAfter(project, NOTHING, es);
    var m := f.state.world.mem;
    if root :| RootHas(m, f.built, k, root, Refuted) { assert m.records[root].confidence == Contradicted; }
    if root :| IsRoot(m, f.built, root, k) && root in m.records && m.records[root].confidence == Contradicted {
      assert RootHas(m, f.built, k, root, Refuted);
    }
    if root :| RootHas(m, f.built, k, root, Doubtful) { assert m.records[root].confidence != Verified; }
    if root :| IsRoot(m, f.built, root, k) && root in m.records && m.records[root].confidence != Verified {
      assert RootHas(m, f.built, k, root, Doubtful);
    }
  }

  /** Whatever mark a root has, the built record has. */
  lemma RootMark(project: string, es: seq<FEvent>, k: string, root: string, t: Mark)
    requires Built(project, es, k)
    requires var f := FAfter(project, NOTHING, es);
             IsRoot(f.state.world.mem, f.built, root, k) && root in f.state.world.mem.records
    ensures var m := FAfter(project, NOTHING, es).state.world.mem;
            k in m.records && (Has(t, m.records[root]) ==> Has(t, m.records[k]))
  {
    BuiltRoots(project, es, k, t);
    var f := FAfter(project, NOTHING, es);
    if Has(t, f.state.world.mem.records[root]) { assert RootHas(f.state.world.mem, f.built, k, root, t); }
  }

  lemma RetrievedUnder(m: Mem, project: string, e: ScopeContracts.Contract, picked: Rec -> bool, k: string)
    requires e.sets.Keys == ScopeContracts.ALL_SETS && RetrieveUnder(m, project, e, picked).Ok?
    requires k in RetrieveUnder(m, project, e, picked).value && k in m.records
    ensures ScopeContracts.Audiences in e.sets && VersionsInScope(e, m.records[k]) && Visible(e, m.records[k])
  {
    ScopeContracts.EveryField(ScopeContracts.Audiences);
    ScopeContracts.EveryField(ScopeContracts.MemoryKinds);
  }

  lemma RetrievedIs(m: Mem, project: string, d: ScopeMeet.Decision, picked: Rec -> bool, k: string)
    requires Retrieve(m, project, d, picked).Ok? && k in Retrieve(m, project, d, picked).value && k in m.records
    ensures d.effective.Some? && ScopeContracts.Audiences in d.effective.value.sets
    ensures VersionsInScope(d.effective.value, m.records[k]) && Visible(d.effective.value, m.records[k])
  {
    GrantsSets(d);
    RetrievedUnder(m, project, d.effective.value, picked, k);
  }

  /** A scope that retrieves it covers every version, and shares an audience with every one of them. */
  lemma RetrievalCoversTheRoots(project: string, es: seq<FEvent>, k: string, d: ScopeMeet.Decision, picked: Rec -> bool, root: string)
    requires Built(project, es, k)
    requires var f := FAfter(project, NOTHING, es);
             var r := Retrieve(f.state.world.mem, project, d, picked);
             r.Ok? && k in r.value && IsRoot(f.state.world.mem, f.built, root, k) && root in f.state.world.mem.records
    ensures var m := FAfter(project, NOTHING, es).state.world.mem;
            && d.effective.Some? && ScopeContracts.Audiences in d.effective.value.sets
            && VersionsOf(m.records[root]) <= d.effective.value.sourceVersions
            && VisibilityOf(m.records[root]) * d.effective.value.sets[ScopeContracts.Audiences] != {}
  {
    var f := FAfter(project, NOTHING, es);
    var m := f.state.world.mem;
    BuiltRoots(project, es, k, Refuted);
    RetrievedIs(m, project, d, picked, k);
    var e := d.effective.value;
    forall v | v in VersionsOf(m.records[root]) ensures v in e.sourceVersions { RootMark(project, es, k, root, SpeaksFor(v)); }
    var a :| a in m.records[k].visibility.value * e.sets[ScopeContracts.Audiences];
    RootMark(project, es, k, root, HiddenFrom(a));
    assert a in VisibilityOf(m.records[root]) * e.sets[ScopeContracts.Audiences];
  }
}

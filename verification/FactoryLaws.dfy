/**
 * What the memory factory (src/memory/factory.mjs, src/memory/consolidation.mjs)
 * takes in, lets through and hands out, on the fields of the records.
 */
module FactoryLaws {
  import opened Wrappers
  import opened MemoryModel
  import opened MemoryLineage
  import opened MemoryRevocation
  import opened MemoryRuns
  import opened MemoryAuthority
  import opened FactoryModel
  import opened FactoryRuns
  import W = MemoryWrites
  import Text
  import ScopeContracts
  import ScopeMeet
  import ScopeRequests

  /** The record speaks for version `v`: it was built from it, or, if it was built from none, it is its own. */
  predicate SpeaksFor(r: Rec, v: string) {
    if r.versions.Some? then v in r.versions.value else r.version == Some(v)
  }

  lemma VersionsIff(r: Rec)
    ensures forall v {:trigger v in VersionsOf(r)} :: v in VersionsOf(r) <==> SpeaksFor(r, v)
    ensures VersionsOf(r) != {} <==> exists v :: SpeaksFor(r, v)
  {
    if v :| SpeaksFor(r, v) { assert v in VersionsOf(r); }
    if VersionsOf(r) != {} { var v :| v in VersionsOf(r); assert SpeaksFor(r, v); }
  }

  /** Of the project, with versions, all of them lines without outer white space. */
  ghost predicate Owned(project: string, r: Rec) {
    && r.project == Some(project)
    && (exists v :: SpeaksFor(r, v))
    && forall v :: SpeaksFor(r, v) ==> Text.TrimmedLine(v)
  }

  lemma OwnedIff(project: string, r: Rec)
    ensures FactorySource(project, r) <==> Owned(project, r)
  {
    VersionsIff(r);
  }

  // ---------------------------------------------------------------- ingest

  /** A record is taken in exactly when it is the project's, states a proper version, and could be appended; it is filed as an append files it. */
  lemma IngestedIff(w: World, project: string, input: Rec)
    ensures var (v, r) := Ingest(w, project, input);
            && (r.Ok? <==>
                  && input.project == Some(project) && input.version.Some? && Text.TrimmedLine(input.version.value)
                  && W.Admitted(input))
            && (r.Err? ==> v == w)
            && (r.Ok? ==> W.Files(w, v, r.value) && W.SameButFlags(r.value, input) && W.NoFlags(r.value))
            && (r == Err(ProjectDenied) <==> input.project != Some(project))
  {
    W.AppendIff(w, input);
  }

  /** What is wrong with a source, if anything is. */
  ghost predicate Denied(m: Mem, project: string, id: string, e: FactoryError) {
    if id !in m.records then e == UnknownSource(id)
    else if m.records[id].project != Some(project) then e == ProjectDenied
    else !Owned(project, m.records[id]) && e == VersionDenied
  }

  /** Sources are fetched when all are the factory's; otherwise the first that is not is answered with what is wrong with it. */
  lemma {:induction false} FetchedIff(m: Mem, project: string, ids: seq<string>)
    ensures match FactorySources(m, project, ids)
            case Ok(rs) =>
              |rs| == |ids| && forall i :: 0 <= i < |ids| ==> ids[i] in m.records && rs[i] == m.records[ids[i]] && Owned(project, rs[i])
            case Err(e) =>
              exists i :: 0 <= i < |ids| && Denied(m, project, ids[i], e)
                          && forall j :: 0 <= j < i ==> ids[j] in m.records && Owned(project, m.records[ids[j]])
  {
    if ids != [] {
      if ids[0] in m.records { OwnedIff(project, m.records[ids[0]]); }
      if ids[0] !in m.records || !FactorySource(project, m.records[ids[0]]) {
        assert Denied(m, project, ids[0], FactorySources(m, project, ids).error);
      } else {
        FetchedIff(m, project, ids[1..]);
        if FactorySources(m, project, ids[1..]).Err? { FetchedOn(m, project, ids); }
      }
    }
  }

  lemma FetchedOn(m: Mem, project: string, ids: seq<string>)
    requires ids != [] && ids[0] in m.records && FactorySource(project, m.records[ids[0]]) && Owned(project, m.records[ids[0]])
    requires FactorySources(m, project, ids[1..]).Err?
    requires var e := FactorySources(m, project, ids[1..]).error;
             exists i :: 0 <= i < |ids[1..]| && Denied(m, project, ids[1..][i], e)
                         && forall j :: 0 <= j < i ==> ids[1..][j] in m.records && Owned(project, m.records[ids[1..][j]])
    ensures FactorySources(m, project, ids).Err?
    ensures var e := FactorySources(m, project, ids).error;
            exists i :: 0 <= i < |ids| && Denied(m, project, ids[i], e)
                        && forall j :: 0 <= j < i ==> ids[j] in m.records && Owned(project, m.records[ids[j]])
  {
    var e := FactorySources(m, project, ids[1..]).error;
    var i :| 0 <= i < |ids[1..]| && Denied(m, project, ids[1..][i], e)
             && forall j :: 0 <= j < i ==> ids[1..][j] in m.records && Owned(project, m.records[ids[1..][j]]);
    assert Denied(m, project, ids[i + 1], e);
    forall j | 0 <= j < i + 1 ensures ids[j] in m.records && Owned(project, m.records[ids[j]]) {
      if j > 0 { assert ids[1..][j - 1] == ids[j]; }
    }
  }

  // ---------------------------------------------------------------- the acceptance rule

  /** The confidence that records warrant: refuted by one, verified by all, otherwise a hypothesis. */
  ghost predicate Warrants(rs: seq<Rec>, c: Confidence) {
    && (c == Contradicted <==> exists i :: 0 <= i < |rs| && rs[i].confidence == Contradicted)
    && (c == Verified <==> rs != [] && forall i :: 0 <= i < |rs| ==> rs[i].confidence == Verified)
    && (c == Contradicted || c == Verified || c == Hypothesis)
  }

  lemma WarrantedIs(rs: seq<Rec>, c: Confidence)
    ensures Warrants(rs, c) <==> c == Conservative(rs)
  {
    if rs != [] && AllVerified(rs) { assert rs[0].confidence == Verified; }
  }

  /** What every one of the records shows, and admits. */
  ghost predicate WithinAll(visibility: set<string>, uses: set<string>, rs: seq<Rec>) {
    forall i :: 0 <= i < |rs| ==>
      visibility <= (if rs[i].visibility.Some? then rs[i].visibility.value else {"project"}) && uses <= rs[i].authority.uses
  }

  lemma WithinIff(visibility: set<string>, uses: set<string>, rs: seq<Rec>)
    ensures WithinAuthority(visibility, uses, rs) <==>
              (forall i :: 0 <= i < |rs| ==> !rs[i].revoked && !rs[i].authorityRevoked) && WithinAll(visibility, uses, rs)
  {
    if rs != [] { SharedAre(rs, visibility, uses); }
  }

  /** Some records were asked for, each once, and these are they, none deleted. */
  ghost predicate AsAsked(ids: seq<string>, rs: seq<Rec>) {
    && ids != [] && Distinct(ids) && |rs| == |ids|
    && forall i :: 0 <= i < |rs| ==> rs[i].id in ids && !rs[i].deleted
  }

  lemma AsAskedIff(ids: seq<string>, rs: seq<Rec>)
    ensures LocallySound(ids, rs) <==> AsAsked(ids, rs)
  {
    CountIds(ids);
    if ids != [] { assert ids[0] in SetOf(ids); }
  }

  /** Each of the three gates objects exactly when its own condition fails; a ruling needs everything stated and nothing nameless. */
  lemma RulingIs(q: Request, rs: seq<Rec>)
    ensures var r := ValidateConsolidation(q, rs);
            && (r.Some? <==> WellAsked(q) && q.confidence.Some?)
            && (r.Some? ==>
                  && (LocalTransition in r.value.objections <==> !AsAsked(q.ids, rs))
                  && (EvidenceCoherence in r.value.objections <==> !Warrants(rs, q.confidence.value))
                  && (AuthorityPreservation in r.value.objections <==>
                        || (exists i :: 0 <= i < |rs| && (rs[i].revoked || rs[i].authorityRevoked))
                        || !WithinAll(q.visibility.value, q.uses.value, rs))
                  && Warrants(rs, r.value.confidence))
  {
    if q.confidence.Some? { WarrantedIs(rs, q.confidence.value); }
    WarrantedIs(rs, Conservative(rs));
    AsAskedIff(q.ids, rs);
    if q.visibility.Some? && q.uses.Some? { WithinIff(q.visibility.value, q.uses.value, rs); }
  }

  ghost predicate Shown(m: Mem, ids: seq<string>, to: string) {
    forall s :: s in ids ==> W.Shows(m, s, to)
  }

  ghost predicate SpokenFor(m: Mem, ids: seq<string>, v: string) {
    exists s :: s in ids && s in m.records && SpeaksFor(m.records[s], v)
  }

  /** What the factory files: a record of the project, seen by whoever sees all sources, speaking for every version that one of them speaks for. */
  ghost predicate FactoryFiled(m: Mem, project: string, p: Proposal, kind: string, newId: string, r: Rec) {
    && r.id == newId && r.kind == kind && r.project == Some(project) && r.content == p.content && r.derivedFrom == p.request.ids
    && (p.retention.Some? ==> r.retention == p.retention.value) && (p.retention.None? ==> r.retention == "project")
    && r.visibility.Some? && (forall to {:trigger to in r.visibility.value} :: to in r.visibility.value <==> Shown(m, p.request.ids, to))
    && r.versions.Some? && (forall v {:trigger v in r.versions.value} :: v in r.versions.value <==> SpokenFor(m, p.request.ids, v))
    && W.WeakestOf(m, p.request.ids, r.authority) && W.ConfidenceOf(m, p.request.ids, r.confidence)
    && !r.authorityRevoked && !r.revoked
  }

  lemma SpokenIff(m: Mem, ids: seq<string>, v: string)
    requires Sources(m, ids).Ok?
    ensures v in AllVersions(Sources(m, ids).value) <==> SpokenFor(m, ids, v)
  {
    SourcesAre(m, ids);
    var rs := Sources(m, ids).value;
    if v in AllVersions(rs) {
      var i :| 0 <= i < |rs| && v in VersionsOf(rs[i]);
      VersionsIff(rs[i]);
      assert ids[i] in ids && rs[i] == m.records[ids[i]];
    }
    if SpokenFor(m, ids, v) {
      var s :| s in ids && s in m.records && SpeaksFor(m.records[s], v);
      var i := W.SomeSource(m, ids, s);
      VersionsIff(rs[i]);
    }
  }

  lemma OptionsAre(m: Mem, project: string, p: Proposal, kind: string, ruling: Ruling, rs: seq<Rec>)
    requires Sources(m, p.request.ids) == Ok(rs) && rs != [] && ruling.visibility == CommonVisibility(rs)
    ensures var o := StoreOptions(project, p, kind, ruling, rs);
            && o.kind == Some(kind) && o.project == Some(project) && o.retention == p.retention
            && o.visibility.Some? && (forall to {:trigger to in o.visibility.value} :: to in o.visibility.value <==> Shown(m, p.request.ids, to))
            && o.sourceVersions.Some?
            && (forall v {:trigger v in o.sourceVersions.value} :: v in o.sourceVersions.value <==> SpokenFor(m, p.request.ids, v))
  {
    forall to ensures to in ruling.visibility <==> Shown(m, p.request.ids, to) { W.ShownIff(m, p.request.ids, to); }
    forall v ensures v in AllVersions(rs) <==> SpokenFor(m, p.request.ids, v) { SpokenIff(m, p.request.ids, v); }
  }

  lemma NoneFlagged(m: Mem, ids: seq<string>)
    requires Sources(m, ids).Ok?
    requires forall i :: 0 <= i < |Sources(m, ids).value| ==> !Sources(m, ids).value[i].revoked && !Sources(m, ids).value[i].authorityRevoked
    ensures !W.SourceRevoked(m, ids)
  {
    W.RevokedIff(m, ids);
  }

  /** An admitted proposal is filed exactly when its content, kind, retention and common uses are ones that an append admits. */
  lemma FactoryConsolidatedIff(w: World, project: string, p: Proposal, newId: string)
    requires WellFiled(w.mem) && newId != ""
    ensures FactoryConsolidate(w, project, p, newId).1.Ok? <==>
              && Admit(w.mem, project, p.request).Ok? && p.content != "" && !W.WouldPermit(w.mem, p.request.ids)
              && (p.kind.Some? ==> p.kind.value in W.MEMORY_KINDS) && (p.retention.Some? ==> p.retention.value in W.RETENTIONS)
    ensures var r := FactoryConsolidate(w, project, p, newId).1;
            Admit(w.mem, project, p.request).Err? ==> r == Err(Admit(w.mem, project, p.request).error)
  {
    if Admit(w.mem, project, p.request).Ok? {
      AdmittedIsMade(w.mem, project, p.request);
      SourcesAre(w.mem, p.request.ids);
      var (ruling, rs) := Admit(w.mem, project, p.request).value;
      W.ConsolidatedIff(w, p.request.ids, p.content, StoreOptions(project, p, OrElse(p.kind, "semantic"), ruling, rs), newId);
    }
  }

  lemma FactoryDerivedIff(w: World, project: string, p: Proposal, steps: Option<Steps>, newId: string)
    requires WellFiled(w.mem) && newId != ""
    ensures FactoryDerive(w, project, p, steps, newId).1.Ok? <==>
              && AdmitDerivation(w.mem, project, p.request).Ok? && p.content != "" && !W.WouldPermit(w.mem, p.request.ids)
              && W.RealSteps(steps) && (p.retention.Some? ==> p.retention.value in W.RETENTIONS)
  {
    if AdmitDerivation(w.mem, project, p.request).Ok? {
      AdmittedDerivationIsMade(w.mem, project, p.request);
      SourcesAre(w.mem, p.request.ids);
      var (ruling, rs) := AdmitDerivation(w.mem, project, p.request).value;
      W.DerivedIff(w, p.request.ids, p.content, steps, StoreOptions(project, p, "procedural", ruling, rs), newId);
    }
  }

  /** What a factory consolidation files, field by field. */
  lemma FactoryConsolidated(w: World, project: string, p: Proposal, newId: string)
    requires WellFiled(w.mem) && project != "" && newId !in w.mem.records && FactoryConsolidate(w, project, p, newId).1.Ok?
    ensures var (v, r) := FactoryConsolidate(w, project, p, newId);
            && FactoryFiled(w.mem, project, p, if p.kind.Some? then p.kind.value else "semantic", newId, r.value)
            && W.Files(w, v, r.value)
  {
    AdmittedIsMade(w.mem, project, p.request);
    var (ruling, rs) := Admit(w.mem, project, p.request).value;
    var kind := OrElse(p.kind, "semantic");
    OptionsAre(w.mem, project, p, kind, ruling, rs);
    NoneFlagged(w.mem, p.request.ids);
    W.ConsolidatedIs(w, p.request.ids, p.content, StoreOptions(project, p, kind, ruling, rs), newId);
  }

  /** And what a derivation files: the same of kind "procedural", with the steps given. */
  lemma FactoryDerived(w: World, project: string, p: Proposal, steps: Option<Steps>, newId: string)
    requires WellFiled(w.mem) && project != "" && newId !in w.mem.records && FactoryDerive(w, project, p, steps, newId).1.Ok?
    ensures var (v, r) := FactoryDerive(w, project, p, steps, newId);
            && FactoryFiled(w.mem, project, p, "procedural", newId, r.value)
            && r.value.steps == steps && W.RealSteps(steps)
            && v.mem == Mem(w.mem.order + [newId], w.mem.records[newId := r.value])
  {
    AdmittedDerivationIsMade(w.mem, project, p.request);
    var (ruling, rs) := AdmitDerivation(w.mem, project, p.request).value;
    var opts := StoreOptions(project, p, "procedural", ruling, rs);
    OptionsAre(w.mem, project, p, "procedural", ruling, rs);
    NoneFlagged(w.mem, p.request.ids);
    DerivedFields(w, p.request.ids, p.content, steps, opts, newId);
  }

  lemma DerivedFields(w: World, ids: seq<string>, content: string, steps: Option<Steps>, opts: Options, newId: string)
    requires newId !in w.mem.records && DeriveProcedure(w, ids, content, steps, opts, newId).1.Ok?
    ensures var (v, r) := DeriveProcedure(w, ids, content, steps, opts, newId);
            && W.RealSteps(steps) && r.value.steps == steps
            && W.Sums(w.mem, ids, opts, r.value)
            && W.Titled(ids, content, opts.(kind := Some("procedural")), newId, r.value.(steps := None))
            && (r.value.authorityRevoked <==> W.SourceRevoked(w.mem, ids))
            && v.mem == Mem(w.mem.order + [newId], w.mem.records[newId := r.value])
  {
    W.DerivedIs(w, ids, content, steps, opts, newId);
    W.ConsolidatedIs(w, ids, content, opts.(kind := Some("procedural")), newId);
  }

  /** A procedure that asks for nothing is let through exactly when its sources are in order and share no nameless audience or use. */
  lemma UnaskedDerivationIff(m: Mem, project: string, ids: seq<string>)
    requires WellFiled(m)
    ensures AdmitDerivation(m, project, Request(ids, None, None, None)).Ok? <==>
              && ids != [] && Distinct(ids) && "" !in ids && AllGood(m, project, ids)
              && !Shown(m, ids, "") && !(forall s :: s in ids ==> W.Admits(m, s, ""))
  {
    FactorySourcesAre(m, project, ids);
    SourcesAre(m, ids);
    if AllGood(m, project, ids) { KnownSources(m, project, ids); }
    if ids != [] && FactorySources(m, project, ids).Ok? {
      var rs := Sources(m, ids).value;
      var q := Defaulted(Request(ids, None, None, None), rs);
      AdmittedIff(m, project, q);
      SharedAre(rs, CommonVisibility(rs), CommonUses(rs));
      W.ShownIff(m, ids, "");
      W.UsesIff(m, ids, "");
    }
  }

  // ---------------------------------------------------------------- revokeAuthority

  /** A revocation is answered like the store's, with what it voided, unless the source is unknown or something below it is not the factory's. */
  lemma FactoryRevokedIs(w: World, project: string, source: string, reason: string, markerId: string)
    requires WellFiled(w.mem) && markerId != "" && markerId !in w.mem.records
    ensures var (v, r) := FactoryRevoke(w, project, source, reason, markerId);
            && (r == Err(UnknownSource(source)) <==> source !in w.mem.records)
            && (r.Err? && source in w.mem.records ==> r == Err(ClosureDenied))
            && (r.Ok? ==> forall k {:trigger k in r.value} :: k in r.value <==>
                  k in w.mem.records && Reachable(w.mem, source, k) && !w.mem.records[k].authorityRevoked)
  {
    FactoryRevokesIff(w, project, source, reason, markerId);
    if source in w.mem.records && AllFactorySources(w.mem, project, Closure(w.mem, source)) {
      ClosureIsExact(w.mem, source);
      ClosureIsFiled(w.mem, source);
      forall k {:trigger Reachable(w.mem, source, k)} | Reachable(w.mem, source, k)
        ensures k in w.mem.records && FactoryCheck(project)(w.mem.records[k])
      {
        var i :| 0 <= i < |Closure(w.mem, source)| && Closure(w.mem, source)[i] == k;
      }
      ExpectedClosure(w.mem, source, FactoryCheck(project));
      RevocationIsExact(w, source, reason, Some(Closure(w.mem, source)), FactoryCheck(project), markerId);
    }
  }

  // ---------------------------------------------------------------- retrieve

  /** The decision is one that the engine made and lets something through. */
  ghost predicate LetsThrough(d: ScopeMeet.Decision) {
    ScopeRequests.ValidDecision(d) && (d.verdict == ScopeMeet.Allow || d.verdict == ScopeMeet.Narrow) && d.effective.Some?
  }

  /** Of the project, and of a kind that the scope names. */
  ghost predicate Ours(e: ScopeContracts.Contract, project: string, r: Rec) {
    && r.project == Some(project)
    && ScopeContracts.MemoryKinds in e.sets && r.kind in e.sets[ScopeContracts.MemoryKinds]
  }

  /** Every version it speaks for, and there is one, is a text that the scope names. */
  ghost predicate Covered(e: ScopeContracts.Contract, r: Rec) {
    (exists v :: SpeaksFor(r, v)) && forall v :: SpeaksFor(r, v) ==> v != "" && v in e.sourceVersions
  }

  /** It states its audiences, and one of them is in scope. */
  ghost predicate Heard(e: ScopeContracts.Contract, r: Rec) {
    && r.visibility.Some? && ScopeContracts.Audiences in e.sets
    && exists a :: a in r.visibility.value && a in e.sets[ScopeContracts.Audiences]
  }

  lemma CoveredIff(e: ScopeContracts.Contract, r: Rec)
    ensures VersionsInScope(e, r) <==> Covered(e, r)
  {
    VersionsIff(r);
  }

  lemma HeardIff(e: ScopeContracts.Contract, r: Rec)
    requires ScopeContracts.Audiences in e.sets
    ensures Visible(e, r) <==> Heard(e, r) && !r.deleted
  {
    if r.visibility.Some? && r.visibility.value * e.sets[ScopeContracts.Audiences] != {} {
      var a :| a in r.visibility.value * e.sets[ScopeContracts.Audiences];
      assert a in r.visibility.value && a in e.sets[ScopeContracts.Audiences];
    }
    if Heard(e, r) {
      var a :| a in r.visibility.value && a in e.sets[ScopeContracts.Audiences];
      assert a in r.visibility.value * e.sets[ScopeContracts.Audiences];
    }
  }

  /** Something of ours is on file, and none of it is covered by the scope's versions. */
  ghost predicate NothingCovered(m: Mem, project: string, e: ScopeContracts.Contract) {
    && (exists k {:trigger m.records[k]} :: k in m.records && Ours(e, project, m.records[k]))
    && forall k {:trigger m.records[k]} :: k in m.records && Ours(e, project, m.records[k]) ==> !Covered(e, m.records[k])
  }

  /**
   * A retrieval hands out exactly the records of the project, of a kind in
   * scope, whose versions are all in scope, that have an audience in scope, are
   * not deleted, and that the ranking picks.
   */
  lemma RetrievedIff(m: Mem, project: string, d: ScopeMeet.Decision, picked: Rec -> bool)
    ensures var r := Retrieve(m, project, d, picked);
            && (r == Err(ScopeDenied) <==> !LetsThrough(d))
            && (LetsThrough(d) ==>
                  var e := d.effective.value;
                  && (r == Err(ProjectOutside) <==> e.project != project)
                  && (r == Err(VersionOutside) <==> e.project == project && NothingCovered(m, project, e))
                  && (r.Ok? ==> forall k {:trigger k in r.value} :: k in r.value <==>
                        k in m.records && Ours(e, project, m.records[k]) && Covered(e, m.records[k])
                        && Heard(e, m.records[k]) && !m.records[k].deleted && picked(m.records[k])))
  {
    if LetsThrough(d) {
      GrantsSets(d);
      if d.effective.value.project == project { UnderIff(m, project, d.effective.value, picked); }
    }
  }

  lemma UnderIff(m: Mem, project: string, e: ScopeContracts.Contract, picked: Rec -> bool)
    requires e.sets.Keys == ScopeContracts.ALL_SETS
    ensures var r := RetrieveUnder(m, project, e, picked);
            && (r.Err? ==> r.error == VersionOutside)
            && (r.Err? <==> NothingCovered(m, project, e))
            && (r.Ok? ==> forall k {:trigger k in r.value} :: k in r.value <==>
                  k in m.records && Ours(e, project, m.records[k]) && Covered(e, m.records[k])
                  && Heard(e, m.records[k]) && !m.records[k].deleted && picked(m.records[k]))
  {
    ScopeContracts.EveryField(ScopeContracts.MemoryKinds);
    ScopeContracts.EveryField(ScopeContracts.Audiences);
    forall k | k in m.records
      ensures InProject(e, project, m.records[k]) <==> Ours(e, project, m.records[k])
      ensures VersionsInScope(e, m.records[k]) <==> Covered(e, m.records[k])
      ensures Visible(e, m.records[k]) <==> Heard(e, m.records[k]) && !m.records[k].deleted
    {
      CoveredIff(e, m.records[k]);
      HeardIff(e, m.records[k]);
    }
    var mine := set k | k in m.records && InProject(e, project, m.records[k]);
    if k :| k in m.records && Ours(e, project, m.records[k]) { assert k in mine; }
    if mine != {} { var k :| k in mine; assert Ours(e, project, m.records[k]); }
  }
}

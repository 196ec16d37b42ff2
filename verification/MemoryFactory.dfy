/**
 * The class `MemoryFactory` of src/memory/factory.mjs over a memory store, and
 * `validateConsolidation` with its list of reasons.
 */
module MemoryFactories {
  import opened Wrappers
  import opened MemoryModel
  import opened FactoryModel
  import MemoryStores
  import ScopeContracts
  import ScopeMeet
  import Text

  /** `validateConsolidation`: the three gates, one after the other. */
  method CheckConsolidation(q: Request, rs: seq<Rec>) returns (r: Option<Ruling>)
    ensures r == ValidateConsolidation(q, rs)
  {
    if q.visibility.None? || q.uses.None? || q.confidence.None? { return None; }
    if "" in q.ids || "" in q.visibility.value || "" in q.uses.value { return None; }
    var reasons: set<Objection> := {};
    var sourceIds := SetOf(q.ids);
    if sourceIds == {} || |sourceIds| != |q.ids| || |rs| != |sourceIds|
       || (exists i :: 0 <= i < |rs| && (rs[i].id !in sourceIds || rs[i].deleted)) {
      reasons := reasons + {LocalTransition};
    }
    assert reasons == if LocallySound(q.ids, rs) then {} else {LocalTransition};
    var confidence := Conservative(rs);
    if q.confidence.value != confidence { reasons := reasons + {EvidenceCoherence}; }
    var visibility, uses := SharedVisibility(rs), SharedUses(rs);
    if rs != [] && (AnyRevoked(rs) || !(q.visibility.value <= visibility) || !(q.uses.value <= uses)) {
      reasons := reasons + {AuthorityPreservation};
    }
    assert reasons == (if LocallySound(q.ids, rs) then {} else {LocalTransition})
                      + (if q.confidence.value == Conservative(rs) then {} else {EvidenceCoherence})
                      + (if WithinAuthority(q.visibility.value, q.uses.value, rs) then {} else {AuthorityPreservation});
    r := Some(Ruling(reasons, visibility, uses, confidence));
  }

  class MemoryFactory {
    const store: MemoryStores.MemoryStore
    const project: string

    constructor (store: MemoryStores.MemoryStore, project: string)
      ensures this.store == store && this.project == project
    {
      this.store, this.project := store, project;
    }

    method Ingest(input: Rec) returns (r: Result<Rec, FactoryError>)
      requires store.Valid()
      modifies store
      ensures store.Valid() && (store.View(), r) == FactoryModel.Ingest(old(store.View()), project, input)
    {
      if input.project != Some(project) { return Err(ProjectDenied); }
      if input.version.None? || !Text.TrimmedLine(input.version.value) { return Err(VersionDenied); }
      var appended := store.Append(input);
      r := FromStore(appended);
    }

    /** `#sources` */
    method Fetch(ids: seq<string>) returns (r: Result<seq<Rec>, FactoryError>)
      requires store.Valid()
      ensures r == FactorySources(store.View().mem, project, ids)
    {
      var found: seq<Rec> := [];
      assert ids[0..] == ids;
      assert forall rest: seq<Rec> :: [] + rest == rest;
      for i := 0 to |ids|
        invariant FactorySources(store.View().mem, project, ids) == Behind(found, FactorySources(store.View().mem, project, ids[i..]))
      {
        assert ids[i..][1..] == ids[i + 1..];
        if ids[i] !in store.records { return Err(UnknownSource(ids[i])); }
        var source := store.records[ids[i]];
        if !FactorySource(project, source) { return Err(SourceError(project, source)); }
        ghost var rest := FactorySources(store.View().mem, project, ids[i + 1..]);
        assert rest.Ok? ==> found + ([source] + rest.value) == found + [source] + rest.value;
        found := found + [source];
      }
      assert found + [] == found;
      r := Ok(found);
    }

    method Consolidate(p: Proposal, newId: string) returns (r: Result<Rec, FactoryError>)
      requires store.Valid()
      modifies store
      ensures store.Valid() && (store.View(), r) == FactoryConsolidate(old(store.View()), project, p, newId)
    {
      var found := Fetch(p.request.ids);
      if found.Err? { return Err(found.error); }
      var ruling := CheckConsolidation(p.request, found.value);
      if ruling.None? { return Err(Malformed); }
      if ruling.value.objections != {} { return Err(NotAccepted(ruling.value.objections)); }
      var made := store.Consolidate(p.request.ids, p.content,
                                    StoreOptions(project, p, OrElse(p.kind, "semantic"), ruling.value, found.value), newId);
      r := FromStore(made);
    }

    method DeriveProcedure(p: Proposal, steps: Option<Steps>, newId: string) returns (r: Result<Rec, FactoryError>)
      requires store.Valid()
      modifies store
      ensures store.Valid() && (store.View(), r) == FactoryDerive(old(store.View()), project, p, steps, newId)
    {
      var found := Fetch(p.request.ids);
      if found.Err? { return Err(found.error); }
      var ruling := CheckConsolidation(Defaulted(p.request, found.value), found.value);
      if ruling.None? { return Err(Malformed); }
      if ruling.value.objections != {} { return Err(NotAccepted(ruling.value.objections)); }
      var made := store.DeriveProcedure(p.request.ids, p.content, steps,
                                        StoreOptions(project, p, "procedural", ruling.value, found.value), newId);
      r := FromStore(made);
    }

    /** `revokeAuthority`: everything the revocation would reach is checked first. */
    method RevokeAuthority(source: string, reason: string, markerId: string) returns (r: Result<seq<string>, FactoryError>)
      requires store.Valid()
      modifies store
      ensures store.Valid() && (store.View(), r) == FactoryRevoke(old(store.View()), project, source, reason, markerId)
    {
      ghost var start := store.View();
      if source !in store.records { return Err(UnknownSource(source)); }
      var closure := store.DescendantClosure(source);
      var ids := closure.value;
      ClosureIsFiled(start.mem, source);
      for i := 0 to |ids|
        invariant forall j :: 0 <= j < i ==> ids[j] in store.records && FactorySource(project, store.records[ids[j]])
      {
        if ids[i] !in store.records || !FactorySource(project, store.records[ids[i]]) { return Err(ClosureDenied); }
      }
      var revoked := store.RevokeSourceAuthority(source, reason, Some(ids), FactoryCheck(project), markerId);
      r := if revoked.Ok? then Ok(revoked.value) else Err(StoreRefused(revoked.error));
    }

    /** `retrieve`, with the ranking as a parameter. */
    method Retrieve(d: ScopeMeet.Decision, picked: Rec -> bool) returns (r: Result<set<string>, Refusal>)
      requires store.Valid()
      ensures r == FactoryModel.Retrieve(store.View().mem, project, d, picked)
    {
      if !Grants(d) { return Err(ScopeDenied); }
      GrantsSets(d);
      if d.effective.value.project != project { return Err(ProjectOutside); }
      r := Filter(d.effective.value, picked);
    }

    /** Project and kind, then versions, then audience and ranking. */
    method Filter(e: ScopeContracts.Contract, picked: Rec -> bool) returns (r: Result<set<string>, Refusal>)
      requires store.Valid() && e.sets.Keys == ScopeContracts.ALL_SETS
      ensures r == RetrieveUnder(store.View().mem, project, e, picked)
    {
      ScopeContracts.EveryField(ScopeContracts.MemoryKinds);
      ScopeContracts.EveryField(ScopeContracts.Audiences);
      var mine := set k | k in store.records && InProject(e, project, store.records[k]);
      var covered := set k | k in mine && VersionsInScope(e, store.records[k]);
      if covered == {} && mine != {} {
        assert forall k :: k in mine ==> k !in covered;
        return Err(VersionOutside);
      }
      assert mine != {} ==> exists k :: k in mine && VersionsInScope(e, store.records[k]);
      var results := set k | k in covered && Visible(e, store.records[k]) && picked(store.records[k]);
      assert results == set k | k in mine && Retrievable(e, project, store.records[k]) && picked(store.records[k]);
      r := Ok(results);
    }
  }

  function Behind(found: seq<Rec>, rest: Result<seq<Rec>, FactoryError>): Result<seq<Rec>, FactoryError> {
    if rest.Err? then rest else Ok(found + rest.value)
  }
}

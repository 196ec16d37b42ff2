/**
 * The memory factory (src/memory/factory.mjs) and its acceptance rule
 * (src/memory/consolidation.mjs), as functions on the memory store.
 */
module FactoryModel {
  import opened Wrappers
  import opened MemoryModel
  import opened MemoryRuns
  import Text
  import ScopeContracts
  import ScopeMeet
  import ScopeRequests

  datatype FactoryError =
    | UnknownSource(id: string) | ProjectDenied | VersionDenied | ClosureDenied | Malformed
    | NotAccepted(reasons: set<Objection>) | StoreRefused(error: MemoryError)

  datatype Objection = LocalTransition | EvidenceCoherence | AuthorityPreservation

  /** The versions a record speaks for: those it was built from, or its own. */
  function VersionsOf(r: Rec): set<string> {
    if r.versions.Some? then r.versions.value else if r.version.Some? then {r.version.value} else {}
  }

  /** `#validateFactorySource`: of this project, with versions that are all proper. */
  predicate FactorySource(project: string, r: Rec) {
    r.project == Some(project) && VersionsOf(r) != {} && forall v :: v in VersionsOf(r) ==> Text.TrimmedLine(v)
  }

  function SourceError(project: string, r: Rec): FactoryError {
    if r.project != Some(project) then ProjectDenied else VersionDenied
  }

  /** `#sources` */
  function FactorySources(m: Mem, project: string, ids: seq<string>): Result<seq<Rec>, FactoryError> {
    if ids == [] then Ok([])
    else if ids[0] !in m.records then Err(UnknownSource(ids[0]))
    else if !FactorySource(project, m.records[ids[0]]) then Err(SourceError(project, m.records[ids[0]]))
    else match FactorySources(m, project, ids[1..]) {
      case Err(e) => Err(e)
      case Ok(rest) => Ok([m.records[ids[0]]] + rest)
    }
  }

  function AllVersions(rs: seq<Rec>): set<string> {
    set i, v | 0 <= i < |rs| && v in VersionsOf(rs[i]) :: v
  }

  // ---------------------------------------------------------------- ingest

  function Ingest(w: World, project: string, input: Rec): (World, Result<Rec, FactoryError>) {
    if input.project != Some(project) then (w, Err(ProjectDenied))
    else if input.version.None? || !Text.TrimmedLine(input.version.value) then (w, Err(VersionDenied))
    else
      var (v, r) := Append(w, input);
      (v, if r.Ok? then Ok(r.value) else Err(StoreRefused(r.error)))
  }

  // ---------------------------------------------------------------- the acceptance rule

  datatype Request = Request(ids: seq<string>, visibility: Option<set<string>>, uses: Option<set<string>>, confidence: Option<Confidence>)

  datatype Ruling = Ruling(objections: set<Objection>, visibility: set<string>, uses: set<string>, confidence: Confidence)

  function SharedVisibility(rs: seq<Rec>): set<string> {
    if rs == [] then {} else CommonVisibility(rs)
  }

  function SharedUses(rs: seq<Rec>): set<string> {
    if rs == [] then {} else CommonUses(rs)
  }

  /** The sources are what was asked for, each once, and none is deleted. */
  predicate LocallySound(ids: seq<string>, sources: seq<Rec>) {
    && SetOf(ids) != {} && |SetOf(ids)| == |ids| && |sources| == |SetOf(ids)|
    && forall i :: 0 <= i < |sources| ==> sources[i].id in SetOf(ids) && !sources[i].deleted
  }

  function Conservative(rs: seq<Rec>): Confidence {
    if AnyContradicted(rs) then Contradicted else if rs != [] && AllVerified(rs) then Verified else Hypothesis
  }

  /** Nothing was revoked, and no more is asked for than all sources share. */
  predicate WithinAuthority(visibility: set<string>, uses: set<string>, rs: seq<Rec>) {
    rs == [] || (!AnyRevoked(rs) && visibility <= SharedVisibility(rs) && uses <= SharedUses(rs))
  }

  /** `validateConsolidation`: three gates, and what the sources allow. */
  function ValidateConsolidation(q: Request, rs: seq<Rec>): Option<Ruling> {
    if q.visibility.None? || q.uses.None? || q.confidence.None? then None
    else if "" in q.ids || "" in q.visibility.value || "" in q.uses.value then None
    else Some(Ruling(
      (if LocallySound(q.ids, rs) then {} else {LocalTransition})
      + (if q.confidence.value == Conservative(rs) then {} else {EvidenceCoherence})
      + (if WithinAuthority(q.visibility.value, q.uses.value, rs) then {} else {AuthorityPreservation}),
      SharedVisibility(rs), SharedUses(rs), Conservative(rs)))
  }

  datatype Proposal = Proposal(request: Request, content: string, kind: Option<string>, retention: Option<string>)

  function StoreOptions(project: string, p: Proposal, kind: string, ruling: Ruling, rs: seq<Rec>): Options {
    Options(Some(kind), Some(project), p.retention, Some(ruling.visibility), Some(AllVersions(rs)))
  }

  /** What the gates let through: the store's own operation, with everything taken from the sources. */
  function Admit(m: Mem, project: string, q: Request): Result<(Ruling, seq<Rec>), FactoryError> {
    match FactorySources(m, project, q.ids)
    case Err(e) => Err(e)
    case Ok(rs) =>
      match ValidateConsolidation(q, rs)
      case None => Err(Malformed)
      case Some(ruling) => if ruling.objections != {} then Err(NotAccepted(ruling.objections)) else Ok((ruling, rs))
  }

  function FromStore(r: Result<Rec, MemoryError>): Result<Rec, FactoryError> {
    if r.Ok? then Ok(r.value) else Err(StoreRefused(r.error))
  }

  function FactoryConsolidate(w: World, project: string, p: Proposal, newId: string): (World, Result<Rec, FactoryError>) {
    match Admit(w.mem, project, p.request)
    case Err(e) => (w, Err(e))
    case Ok((ruling, rs)) =>
      var (v, r) := Consolidate(w, p.request.ids, p.content, StoreOptions(project, p, OrElse(p.kind, "semantic"), ruling, rs), newId);
      (v, FromStore(r))
  }

  /** What a procedure asks for when it asks for nothing: just what the sources share. */
  function Defaulted(q: Request, rs: seq<Rec>): Request {
    Request(q.ids, Some(OrElse(q.visibility, SharedVisibility(rs))), Some(OrElse(q.uses, SharedUses(rs))),
            Some(OrElse(q.confidence, Conservative(rs))))
  }

  function AdmitDerivation(m: Mem, project: string, q: Request): Result<(Ruling, seq<Rec>), FactoryError> {
    match FactorySources(m, project, q.ids)
    case Err(e) => Err(e)
    case Ok(rs) => Admit(m, project, Defaulted(q, rs))
  }

  function FactoryDerive(w: World, project: string, p: Proposal, steps: Option<Steps>, newId: string): (World, Result<Rec, FactoryError>) {
    match AdmitDerivation(w.mem, project, p.request)
    case Err(e) => (w, Err(e))
    case Ok((ruling, rs)) =>
      var (v, r) := DeriveProcedure(w, p.request.ids, p.content, steps, StoreOptions(project, p, "procedural", ruling, rs), newId);
      (v, FromStore(r))
  }

  // ---------------------------------------------------------------- revocation

  predicate AllFactorySources(m: Mem, project: string, ids: seq<string>) {
    forall i :: 0 <= i < |ids| ==> ids[i] in m.records && FactorySource(project, m.records[ids[i]])
  }

  /** The validator that the factory hands to the store. */
  function FactoryCheck(project: string): Rec -> bool {
    (r: Rec) => FactorySource(project, r)
  }

  /** `revokeAuthority`: nothing happens unless every record it would reach is the factory's. */
  function FactoryRevoke(w: World, project: string, source: string, reason: string, markerId: string)
    : (World, Result<seq<string>, FactoryError>)
    requires WellFiled(w.mem)
  {
    if source !in w.mem.records then (w, Err(UnknownSource(source)))
    else
      var closure := Closure(w.mem, source);
      ClosureIsFiled(w.mem, source);
      if !AllFactorySources(w.mem, project, closure) then (w, Err(ClosureDenied))
      else
        var (v, r) := RevokeSource(w, source, reason, Some(closure), FactoryCheck(project), markerId);
        (v, if r.Ok? then Ok(r.value) else Err(StoreRefused(r.error)))
  }

  // ---------------------------------------------------------------- retrieval

  datatype Refusal = ScopeDenied | ProjectOutside | VersionOutside

  /** Of the project and of a kind in scope. */
  predicate InProject(e: ScopeContracts.Contract, project: string, r: Rec)
    requires ScopeContracts.MemoryKinds in e.sets
  {
    r.project == Some(project) && r.kind in e.sets[ScopeContracts.MemoryKinds]
  }

  predicate VersionsInScope(e: ScopeContracts.Contract, r: Rec) {
    VersionsOf(r) != {} && "" !in VersionsOf(r) && VersionsOf(r) <= e.sourceVersions
  }

  /** `bm25Query`'s own filter: a stated visibility with an audience in scope, and not deleted. */
  predicate Visible(e: ScopeContracts.Contract, r: Rec)
    requires ScopeContracts.Audiences in e.sets
  {
    r.visibility.Some? && r.visibility.value * e.sets[ScopeContracts.Audiences] != {} && !r.deleted
  }

  predicate Grants(d: ScopeMeet.Decision) {
    ScopeRequests.ValidDecision(d) && (d.verdict.Allow? || d.verdict.Narrow?) && d.effective.Some?
  }

  predicate Retrievable(e: ScopeContracts.Contract, project: string, r: Rec)
    requires e.sets.Keys == ScopeContracts.ALL_SETS
  {
    ScopeContracts.EveryField(ScopeContracts.MemoryKinds);
    ScopeContracts.EveryField(ScopeContracts.Audiences);
    InProject(e, project, r) && VersionsInScope(e, r) && Visible(e, r)
  }

  /** The records of the project and of a kind in scope, narrowed down to those that the ranking picks. */
  function RetrieveUnder(m: Mem, project: string, e: ScopeContracts.Contract, picked: Rec -> bool): Result<set<string>, Refusal>
    requires e.sets.Keys == ScopeContracts.ALL_SETS
  {
    ScopeContracts.EveryField(ScopeContracts.MemoryKinds);
    var mine := set k | k in m.records && InProject(e, project, m.records[k]);
    if mine != {} && (forall k :: k in mine ==> !VersionsInScope(e, m.records[k])) then Err(VersionOutside)
    else Ok(set k | k in mine && Retrievable(e, project, m.records[k]) && picked(m.records[k]))
  }

  lemma GrantsSets(d: ScopeMeet.Decision)
    requires Grants(d)
    ensures d.effective.value.sets.Keys == ScopeContracts.ALL_SETS
  {
    ScopeRequests.ValidHasSets(d);
  }

  function RetrieveIf(granted: bool, m: Mem, project: string, e: Option<ScopeContracts.Contract>, picked: Rec -> bool): Result<set<string>, Refusal>
    requires granted ==> e.Some? && e.value.sets.Keys == ScopeContracts.ALL_SETS
  {
    if !granted then Err(ScopeDenied)
    else if e.value.project != project then Err(ProjectOutside)
    else RetrieveUnder(m, project, e.value, picked)
  }

  /** `retrieve` */
  function Retrieve(m: Mem, project: string, d: ScopeMeet.Decision, picked: Rec -> bool): Result<set<string>, Refusal> {
    if Grants(d) then GrantsSets(d); RetrieveIf(true, m, project, d.effective, picked)
    else RetrieveIf(false, m, project, None, picked)
  }
}

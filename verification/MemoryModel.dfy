/**
 * The memory store (src/memory/store.mjs) as a value: an insertion-ordered map
 * of records over an append-only log, and its operations.
 */
module MemoryModel {
  import opened Wrappers

  /** The classes of `AUTHORITY_ORDER`, weakest first. */
  datatype Class = NoAuthority | ToolOutput | ExternalDocument | AssistantSuggestion | Observation | UserStatement | UserAuthorization

  function Order(c: Class): int {
    match c
    case NoAuthority => 0
    case ToolOutput => 1
    case ExternalDocument => 2
    case AssistantSuggestion => 3
    case Observation => 4
    case UserStatement => 5
    case UserAuthorization => 6
  }

  datatype Authority = Authority(cls: Class, uses: set<string>)

  const VOID := Authority(NoAuthority, {})

  datatype Confidence = Hypothesis | Observed | Verified | Contradicted

  /** What a caller may give as the steps of a procedure: an array of JSON values, or another JSON value, null included. */
  datatype Steps = StepList(items: seq<string>) | NoArray

  /** The rule of `validateProcedureRecord`; steps that are left out are undefined. */
  predicate NonEmptyArray(steps: Option<Steps>) {
    steps.Some? && steps.value.StepList? && steps.value.items != []
  }

  /** Lists that the source keeps sorted or free of duplicates are sets here. */
  datatype Rec = Rec(
    id: string, kind: string, content: string, project: Option<string>,
    version: Option<string>, versions: Option<set<string>>,
    authority: Authority, confidence: Confidence, retention: string, visibility: Option<set<string>>,
    derivedFrom: seq<string>, supersedes: Option<string>, conflicts: set<string>,
    revoked: bool, authorityRevoked: bool, steps: Option<Steps>, deleted: bool)

  /** A JavaScript map: its keys in insertion order, and what they map to. */
  datatype Mem = Mem(order: seq<string>, records: map<string, Rec>)

  const NO_RECORDS := Mem([], map[])

  function Put(m: Mem, r: Rec): Mem {
    Mem(if r.id in m.records then m.order else m.order + [r.id], m.records[r.id := r])
  }

  /** The last-write-wins fold of a log. */
  function FoldLog(lines: seq<Rec>): Mem {
    if lines == [] then NO_RECORDS else Put(FoldLog(lines[..|lines| - 1]), lines[|lines| - 1])
  }

  lemma FoldSnoc(lines: seq<Rec>, r: Rec)
    ensures FoldLog(lines + [r]) == Put(FoldLog(lines), r)
  {
    assert (lines + [r])[..|lines|] == lines;
  }

  /** Memory and log of a running store. */
  datatype World = World(mem: Mem, log: seq<Rec>)

  function Persist(w: World, r: Rec): World {
    World(Put(w.mem, r), w.log + [r])
  }

  /** A change in memory that is not written. */
  function Touch(w: World, r: Rec): World {
    w.(mem := Put(w.mem, r))
  }

  datatype MemoryError = AuthorityRefused | UnknownKind | Invalid | Missing(id: string) | NoSources | ClosureChanged | Rejected

  // ---------------------------------------------------------------- append

  predicate AssuranceKind(k: string) {
    k in ["grant", "credential", "scope", "approval", "approval-token", "execution-token", "policy-exception", "assurance"]
  }

  predicate MemoryKind(k: string) {
    k in ["working", "episodic", "semantic", "procedural", "evidence-ref"]
  }

  predicate RetentionClass(s: string) {
    s in ["session", "project", "permanent"]
  }

  predicate ForbiddenUse(u: string) {
    u in ["execute-external-action", "grant-permission", "approve", "mint-token"]
  }

  /** `validateMemoryRecord`, as far as the types leave something to check. */
  predicate ValidRecord(r: Rec) {
    && r.id != "" && MemoryKind(r.kind) && r.content != "" && RetentionClass(r.retention)
    && (r.supersedes.None? || r.supersedes.value != "")
  }

  /** What `append` makes of its input: both revocation flags start out false. */
  function Fresh(input: Rec): Rec {
    input.(revoked := false, authorityRevoked := false)
  }

  function CheckAppend(input: Rec): Option<MemoryError> {
    if AssuranceKind(input.kind) then Some(AuthorityRefused)
    else if !MemoryKind(input.kind) then Some(UnknownKind)
    else if !ValidRecord(input) then Some(Invalid)
    else if exists u :: u in input.authority.uses && ForbiddenUse(u) then Some(AuthorityRefused)
    else None
  }

  function Append(w: World, input: Rec): (World, Result<Rec, MemoryError>) {
    var e := CheckAppend(input);
    if e.Some? then (w, Err(e.value)) else (Persist(w, Fresh(input)), Ok(Fresh(input)))
  }

  /** A note the store writes about itself: no authority, derived from `ids`. */
  function Note(id: string, content: string, project: Option<string>, retention: string, ids: seq<string>): Rec {
    Rec(id, "episodic", content, project, Some("memory-store@1"), None, VOID, Observed, retention, None,
        ids, None, {}, false, false, None, false)
  }

  // ---------------------------------------------------------------- supersede, conflict

  /** `supersede`: lineage fields that the input leaves out default to the old record. */
  function Supersede(w: World, oldId: string, input: Rec, derived: Option<seq<string>>, conflicts: Option<set<string>>)
    : (World, Result<Rec, MemoryError>)
  {
    if oldId !in w.mem.records then (w, Err(Missing(oldId)))
    else Append(w, input.(derivedFrom := if derived.Some? then derived.value else [oldId],
                          conflicts := if conflicts.Some? then conflicts.value else {},
                          supersedes := Some(oldId)))
  }

  function AddConflict(w: World, id: string, other: string): World
    requires id in w.mem.records
  {
    var r := w.mem.records[id]; Touch(w, r.(conflicts := r.conflicts + {other}))
  }

  /** A project is carried over to a note only when it is set and not empty. */
  function Shared(p: Option<string>, q: Option<string>): Option<string> {
    if p.Some? && p.value != "" && p == q then p else None
  }

  /** `conflict`: both sides change in memory, the marker is appended, then both sides are written. */
  function Conflict(w: World, a: string, b: string, reason: string, markerId: string): (World, Result<Rec, MemoryError>) {
    if a !in w.mem.records || b !in w.mem.records then (w, Err(Missing(if a !in w.mem.records then a else b)))
    else
      var project := Shared(w.mem.records[a].project, w.mem.records[b].project);
      var linked := AddConflict(AddConflict(w, a, b), b, a);
      var (marked, r) := Append(linked, Note(markerId, "CONFLICT recorded between " + a + " and " + b + ": " + reason, project, "project", [a, b]));
      if r.Err? then (marked, r)
      else (Persist(Persist(marked, linked.mem.records[a]), linked.mem.records[b]), r)
  }

  // ---------------------------------------------------------------- consolidate, deriveProcedure

  datatype Options = Options(
    kind: Option<string>, project: Option<string>, retention: Option<string>,
    visibility: Option<set<string>>, sourceVersions: Option<set<string>>)

  function Sources(m: Mem, ids: seq<string>): Result<seq<Rec>, MemoryError> {
    if ids == [] then Ok([])
    else if ids[0] !in m.records then Err(Missing(ids[0]))
    else match Sources(m, ids[1..]) {
      case Err(e) => Err(e)
      case Ok(rest) => Ok([m.records[ids[0]]] + rest)
    }
  }

  function Weaker(c: Class, d: Class): Class {
    if Order(d) < Order(c) then d else c
  }

  function Weakest(rs: seq<Rec>): Class
    requires rs != []
  {
    if |rs| == 1 then rs[0].authority.cls else Weaker(Weakest(rs[..|rs| - 1]), rs[|rs| - 1].authority.cls)
  }

  function CommonUses(rs: seq<Rec>): set<string>
    requires rs != []
  {
    if |rs| == 1 then rs[0].authority.uses else CommonUses(rs[..|rs| - 1]) * rs[|rs| - 1].authority.uses
  }

  /** Records without a visibility are visible to the project. */
  function VisibilityOf(r: Rec): set<string> {
    if r.visibility.Some? then r.visibility.value else {"project"}
  }

  function CommonVisibility(rs: seq<Rec>): set<string>
    requires rs != []
  {
    if |rs| == 1 then VisibilityOf(rs[0]) else CommonVisibility(rs[..|rs| - 1]) * VisibilityOf(rs[|rs| - 1])
  }

  predicate AnyContradicted(rs: seq<Rec>) {
    exists i :: 0 <= i < |rs| && rs[i].confidence == Contradicted
  }

  predicate AllVerified(rs: seq<Rec>) {
    forall i :: 0 <= i < |rs| ==> rs[i].confidence == Verified
  }

  predicate AnyRevoked(rs: seq<Rec>) {
    exists i :: 0 <= i < |rs| && (rs[i].revoked || rs[i].authorityRevoked)
  }

  function JointConfidence(rs: seq<Rec>): Confidence {
    if AnyContradicted(rs) then Contradicted else if AllVerified(rs) then Verified else Hypothesis
  }

  function JointConflicts(rs: seq<Rec>): set<string> {
    set i, c | 0 <= i < |rs| && c in rs[i].conflicts :: c
  }

  function OwnVersions(rs: seq<Rec>): set<string> {
    set i | 0 <= i < |rs| && rs[i].version.Some? && rs[i].version.value != "" :: rs[i].version.value
  }

  function OrElse<T>(o: Option<T>, d: T): T {
    if o.Some? then o.value else d
  }

  /** The summary record: weakest class, common uses, and nothing at all when a source was revoked. */
  function Summary(rs: seq<Rec>, ids: seq<string>, content: string, opts: Options, newId: string): Rec
    requires rs != []
  {
    Rec(newId, OrElse(opts.kind, "semantic"), content,
        Shared(opts.project, opts.project),
        Some("memory-consolidation@1"), Some(OrElse(opts.sourceVersions, OwnVersions(rs))),
        if AnyRevoked(rs) then VOID else Authority(Weakest(rs), CommonUses(rs)),
        JointConfidence(rs), OrElse(opts.retention, "project"),
        Some(if opts.visibility.Some? then opts.visibility.value else CommonVisibility(rs)),
        ids, None, JointConflicts(rs), false, false, None, false)
  }

  function Consolidate(w: World, ids: seq<string>, content: string, opts: Options, newId: string)
    : (World, Result<Rec, MemoryError>)
  {
    match Sources(w.mem, ids)
    case Err(e) => (w, Err(e))
    case Ok(rs) =>
      if rs == [] then (w, Err(NoSources))
      else
        var (made, r) := Append(w, Summary(rs, ids, content, opts, newId));
        if r.Ok? && AnyRevoked(rs) then
          var stored := r.value.(authorityRevoked := true);
          (Persist(made, stored), Ok(stored))
        else (made, r)
  }

  /** The steps of a record just made: set in memory, and written when they are a non-empty array. */
  function SetSteps(made: World, r: Result<Rec, MemoryError>, steps: Option<Steps>): (World, Result<Rec, MemoryError>) {
    if r.Err? then (made, r)
    else
      var stored := r.value.(steps := steps);
      if NonEmptyArray(steps) then (Persist(made, stored), Ok(stored)) else (Touch(made, stored), Err(Invalid))
  }

  /** `deriveProcedure`: the steps are set in memory before the record is validated and written. */
  function DeriveProcedure(w: World, ids: seq<string>, content: string, steps: Option<Steps>, opts: Options, newId: string)
    : (World, Result<Rec, MemoryError>)
  {
    var (made, r) := Consolidate(w, ids, content, opts.(kind := Some("procedural")), newId);
    SetSteps(made, r, steps)
  }

  // ---------------------------------------------------------------- closure and revocation

  predicate Distinct(ids: seq<string>) {
    forall i, j :: 0 <= i < j < |ids| ==> ids[i] != ids[j]
  }

  function SetOf(ids: seq<string>): set<string> {
    set x | x in ids
  }

  /** Order and keys of the map fit, and each record is filed under its id. */
  predicate WellFiled(m: Mem) {
    && Distinct(m.order) && SetOf(m.order) == m.records.Keys
    && forall k {:trigger m.records[k]} :: k in m.records ==> m.records[k].id == k
  }

  predicate Child(m: Mem, a: string, b: string) {
    b in m.records && a in m.records[b].derivedFrom
  }

  /** `visit`: `ids` is both the list so far and the set of seen ids. */
  function Visit(m: Mem, id: string, ids: seq<string>): (r: seq<string>)
    requires WellFiled(m) && id in m.records && SetOf(ids) <= m.records.Keys
    ensures ids <= r && SetOf(r) <= m.records.Keys
    decreases |m.records.Keys - SetOf(ids)|, 0
  {
    if id in ids then ids
    else
      SeenGrows(m, id, ids);
      VisitChildren(m, id, ids + [id], 0)
  }

  function VisitChildren(m: Mem, id: string, ids: seq<string>, i: nat): (r: seq<string>)
    requires WellFiled(m) && i <= |m.order| && SetOf(ids) <= m.records.Keys
    ensures ids <= r && SetOf(r) <= m.records.Keys
    decreases |m.records.Keys - SetOf(ids)|, 1 + |m.order| - i
  {
    if i == |m.order| then ids
    else
      var k := m.order[i];
      assert k in SetOf(m.order);
      var next := if Child(m, id, k) then Visit(m, k, ids) else ids;
      SeenKept(m, ids, next);
      VisitChildren(m, id, next, i + 1)
  }

  lemma SeenGrows(m: Mem, id: string, ids: seq<string>)
    requires id in m.records && id !in ids
    ensures SetOf(ids + [id]) == SetOf(ids) + {id}
    ensures |m.records.Keys - SetOf(ids + [id])| < |m.records.Keys - SetOf(ids)|
  {
    assert m.records.Keys - SetOf(ids + [id]) == (m.records.Keys - SetOf(ids)) - {id};
  }

  lemma SeenKept(m: Mem, ids: seq<string>, next: seq<string>)
    requires ids <= next
    ensures |m.records.Keys - SetOf(next)| <= |m.records.Keys - SetOf(ids)|
  {
    var a, b := m.records.Keys - SetOf(next), m.records.Keys - SetOf(ids);
    assert a <= b;
    SubsetSize(a, b);
  }

  lemma SubsetSize(a: set<string>, b: set<string>)
    requires a <= b
    ensures |a| <= |b|
  {
    assert b == a + (b - a);
  }

  function Closure(m: Mem, source: string): seq<string>
    requires WellFiled(m) && source in m.records
  {
    Visit(m, source, [])
  }

  /** The revocation loop over the closure. */
  function RevokeEach(w: World, ids: seq<string>): World
    requires forall k :: k in ids ==> k in w.mem.records && w.mem.records[k].id == k
    decreases ids
  {
    if ids == [] then w
    else
      var r := w.mem.records[ids[0]];
      RevokeEach(if r.authorityRevoked then w else Persist(w, r.(authorityRevoked := true, authority := VOID)), ids[1..])
  }

  function Affected(m: Mem, ids: seq<string>): seq<string>
    requires forall k :: k in ids ==> k in m.records
  {
    if ids == [] then []
    else if m.records[ids[0]].authorityRevoked then Affected(m, ids[1..])
    else [ids[0]] + Affected(m, ids[1..])
  }

  function JoinIds(ids: seq<string>): string {
    if ids == [] then "" else if |ids| == 1 then ids[0] else ids[0] + ", " + JoinIds(ids[1..])
  }

  /** The caller's view of the closure still matches, and every record passes the caller's check. */
  predicate MayRevoke(m: Mem, closure: seq<string>, expected: Option<seq<string>>, check: Rec -> bool)
    requires forall k :: k in closure ==> k in m.records
  {
    && (expected.Some? ==> multiset(expected.value) == multiset(closure))
    && forall i :: 0 <= i < |closure| ==> check(m.records[closure[i]])
  }

  lemma ClosureIsFiled(m: Mem, source: string)
    requires WellFiled(m) && source in m.records
    ensures forall k :: k in Closure(m, source) ==> k in m.records && m.records[k].id == k
  {
    forall k | k in Closure(m, source) ensures k in m.records { assert k in SetOf(Closure(m, source)); }
  }

  /** The source is flagged in memory first; the loop writes whatever it voids. */
  function RevokeAll(w: World, source: string): World
    requires WellFiled(w.mem) && source in w.mem.records
  {
    ClosureIsFiled(w.mem, source);
    RevokeEach(Touch(w, w.mem.records[source].(revoked := true)), Closure(w.mem, source))
  }

  function RevocationMark(source: string, reason: string, affected: seq<string>, project: Option<string>, markerId: string): Rec {
    Note(markerId, "AUTHORITY REVOKED for " + source + " (" + reason + "); propagated to derived artifacts: " + JoinIds(affected),
         Shared(project, project), "permanent", [source])
  }

  function RevocationNote(m: Mem, source: string, reason: string, markerId: string): Rec
    requires WellFiled(m) && source in m.records
  {
    ClosureIsFiled(m, source);
    RevocationMark(source, reason, Affected(m, Closure(m, source)), m.records[source].project, markerId)
  }

  function RevokeSource(w: World, source: string, reason: string, expected: Option<seq<string>>, check: Rec -> bool, markerId: string)
    : (World, Result<seq<string>, MemoryError>)
    requires WellFiled(w.mem)
  {
    if source !in w.mem.records then (w, Err(Missing(source)))
    else
      var closure := Closure(w.mem, source);
      ClosureIsFiled(w.mem, source);
      if expected.Some? && multiset(expected.value) != multiset(closure) then (w, Err(ClosureChanged))
      else if !MayRevoke(w.mem, closure, expected, check) then (w, Err(Rejected))
      else
        var (marked, r) := Append(RevokeAll(w, source), RevocationNote(w.mem, source, reason, markerId));
        (marked, if r.Ok? then Ok(Affected(w.mem, closure)) else Err(r.error))
  }

  // ---------------------------------------------------------------- deletion and retention

  function Delete(w: World, id: string): (World, bool) {
    if id !in w.mem.records then (w, false)
    else (Persist(w, w.mem.records[id].(content := "[deleted]", deleted := true)), true)
  }

  /** The sweep visits the records in map order. */
  function Sweep(w: World, scope: string, ids: seq<string>): World
    requires forall k :: k in ids ==> k in w.mem.records && w.mem.records[k].id == k
    decreases ids
  {
    if ids == [] then w
    else
      var r := w.mem.records[ids[0]];
      Sweep(if r.retention == scope && !r.deleted then Delete(w, ids[0]).0 else w, scope, ids[1..])
  }

  // ---------------------------------------------------------------- loading

  function RecoveryNote(id: string): Rec {
    Note(id, "MEMORY LOG RECOVERY: quarantined 1 corrupt trailing line(s) after a partial write", None, "permanent", [])
  }

  /** Opening a log of whole lines that may end in a torn one. */
  function Load(lines: seq<Rec>, torn: bool, noteId: string): World {
    var w := World(FoldLog(lines), lines);
    if torn then Append(w, RecoveryNote(noteId)).0 else w
  }
}

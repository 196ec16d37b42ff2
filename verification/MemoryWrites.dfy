/**
 * What each writing operation of src/memory/store.mjs puts on file and answers,
 * field by field, and when it refuses.
 */
module MemoryWrites {
  import opened Wrappers
  import opened MemoryModel
  import opened MemoryLineage
  import opened MemoryRevocation
  import opened MemoryRuns
  import opened MemoryAuthority
  import opened MemoryProvenance

  /** `after` has one line more, and files it under its id; a new id comes last. */
  ghost predicate Files(before: World, after: World, r: Rec) {
    && after.log == before.log + [r]
    && after.mem.records == before.mem.records[r.id := r]
    && after.mem.order == if r.id in before.mem.records then before.mem.order else before.mem.order + [r.id]
  }

  /** The kinds that memory knows, the kinds it refuses as authority, and the uses no record may have. */
  const MEMORY_KINDS := {"working", "episodic", "semantic", "procedural", "evidence-ref"}
  const ASSURANCE_KINDS := {"grant", "credential", "scope", "approval", "approval-token", "execution-token", "policy-exception", "assurance"}
  const FORBIDDEN_USES := {"execute-external-action", "grant-permission", "approve", "mint-token"}
  const RETENTIONS := {"session", "project", "permanent"}

  predicate Nonempty(o: Option<string>) {
    o.Some? && o.value != ""
  }

  /** Text where the schema wants text, and a retention class. */
  predicate Formed(r: Rec) {
    && r.id != "" && r.content != "" && r.retention in RETENTIONS
    && (r.supersedes.Some? ==> Nonempty(r.supersedes))
  }

  predicate Admitted(r: Rec) {
    r.kind in MEMORY_KINDS && Formed(r) && r.authority.uses !! FORBIDDEN_USES
  }

  predicate NoFlags(r: Rec) {
    !r.revoked && !r.authorityRevoked
  }

  /** Two records that differ in their revocation flags at most. */
  predicate SameButFlags(a: Rec, b: Rec) {
    a.(revoked := b.revoked, authorityRevoked := b.authorityRevoked) == b
  }

  /** An append succeeds exactly for an admitted record, and files that record without revocation flags. */
  lemma AppendIff(w: World, input: Rec)
    ensures Append(w, input).1.Ok? <==> Admitted(input)
    ensures var (v, r) := Append(w, input);
            if r.Ok? then Files(w, v, r.value) && NoFlags(r.value) && SameButFlags(r.value, input) else v == w
  {
    ForbiddenIff(input.authority.uses);
  }

  lemma ForbiddenIff(uses: set<string>)
    ensures uses !! FORBIDDEN_USES <==> forall u :: u in uses ==> !ForbiddenUse(u)
  {
    forall u ensures u in FORBIDDEN_USES <==> ForbiddenUse(u) { }
  }

  /** Why an append is refused: authority first, then the kind, then the form, then the uses. */
  lemma AppendRefusal(w: World, input: Rec)
    requires !Admitted(input)
    ensures Append(w, input).1 == Err(
              if input.kind in ASSURANCE_KINDS then AuthorityRefused
              else if input.kind !in MEMORY_KINDS then UnknownKind
              else if !Formed(input) then Invalid
              else AuthorityRefused)
  {
    ForbiddenIff(input.authority.uses);
  }

  // ---------------------------------------------------------------- supersede

  /** The fields that a replacement takes from its input as they are. */
  ghost predicate TakenOver(r: Rec, input: Rec) {
    && r.id == input.id && r.kind == input.kind && r.content == input.content && r.project == input.project
    && r.version == input.version && r.versions == input.versions
    && r.authority == input.authority && r.confidence == input.confidence
    && r.retention == input.retention && r.visibility == input.visibility
    && r.steps == input.steps && r.deleted == input.deleted
  }

  /**
   * A replacement names what it replaces, is derived from it unless a lineage is
   * given, which is then taken as it is, and has the conflicts given, or none.
   */
  lemma ReplacementIs(w: World, oldId: string, input: Rec, derived: Option<seq<string>>, conflicts: Option<set<string>>)
    ensures var (v, r) := Supersede(w, oldId, input, derived, conflicts);
            r.Ok? ==>
              && Files(w, v, r.value) && TakenOver(r.value, input) && NoFlags(r.value)
              && r.value.supersedes == Some(oldId)
              && (derived.None? ==> r.value.derivedFrom == [oldId] && Child(v.mem, oldId, input.id))
              && (derived.Some? ==> r.value.derivedFrom == derived.value)
              && (conflicts.None? ==> r.value.conflicts == {})
              && (conflicts.Some? ==> r.value.conflicts == conflicts.value)
  {
  }

  /** It succeeds exactly for an old record on file and an input that could be appended; otherwise nothing changes. */
  lemma ReplacementIff(w: World, oldId: string, input: Rec, derived: Option<seq<string>>, conflicts: Option<set<string>>)
    ensures var (v, r) := Supersede(w, oldId, input, derived, conflicts);
            && (r.Ok? <==> oldId in w.mem.records && Admitted(input.(supersedes := Some(oldId))))
            && (r.Err? ==> v == w)
            && (r == Err(Missing(oldId)) <==> oldId !in w.mem.records)
  {
    ForbiddenIff(input.authority.uses);
  }

  // ---------------------------------------------------------------- conflict

  /** A note of the store's own: an observed episode without authority, conflicts or flags. */
  ghost predicate IsNote(r: Rec, id: string, retention: string, sources: seq<string>) {
    && r.id == id && r.kind == "episodic" && r.version == Some("memory-store@1") && r.versions == None
    && r.authority.cls == NoAuthority && r.authority.uses == {} && r.confidence == Observed
    && r.retention == retention && r.visibility == None && r.derivedFrom == sources
    && r.supersedes == None && r.conflicts == {} && NoFlags(r) && r.steps == None && !r.deleted
  }

  /** What a record on one side of a conflict becomes: the other side is among its conflicts, and nothing else changed. */
  ghost predicate Opposes(before: Rec, after: Rec, other: string) {
    && (forall c {:trigger c in after.conflicts} :: c in after.conflicts <==> c in before.conflicts || c == other)
    && after == before.(conflicts := after.conflicts)
  }

  /** Where a conflict is refused. */
  lemma ConflictIff(w: World, a: string, b: string, reason: string, markerId: string)
    requires markerId != "" && markerId !in w.mem.records
    ensures var (v, r) := Conflict(w, a, b, reason, markerId);
            && (r.Ok? <==> a in w.mem.records && b in w.mem.records)
            && (r.Err? ==> v == w && r == Err(Missing(if a !in w.mem.records then a else b)))
  {
  }

  lemma BothOppose(w: World, a: string, b: string)
    requires WellFiled(w.mem) && a in w.mem.records && b in w.mem.records
    ensures Opposes(w.mem.records[a], LinkedBoth(w, a, b).0, b) && Opposes(w.mem.records[b], LinkedBoth(w, a, b).1, a)
    ensures a == b ==> LinkedBoth(w, a, b).0 == LinkedBoth(w, a, b).1
  {
  }

  /** A note and two records on file, written one after the other. */
  lemma ThreeWrites(w: World, note: Rec, ra: Rec, rb: Rec)
    requires note.id !in w.mem.records && ra.id in w.mem.records && rb.id in w.mem.records
    requires ra.id == rb.id ==> ra == rb
    ensures var v := Persist(Persist(Persist(w, note), ra), rb);
            && v.mem.records.Keys == w.mem.records.Keys + {note.id} && v.log == w.log + [note, ra, rb]
            && v.mem.records[note.id] == note && v.mem.records[ra.id] == ra && v.mem.records[rb.id] == rb
            && forall k {:trigger v.mem.records[k]} :: k in w.mem.records && k != ra.id && k != rb.id ==> v.mem.records[k] == w.mem.records[k]
  {
    assert w.log + [note] + [ra] + [rb] == w.log + [note, ra, rb];
  }

  /**
   * A conflict links both sides to each other, changes no other record, and files
   * a note derived from both, of their project when they share one.
   */
  lemma ConflictIs(w: World, a: string, b: string, reason: string, markerId: string)
    requires WellFiled(w.mem) && a in w.mem.records && b in w.mem.records && markerId != "" && markerId !in w.mem.records
    ensures var (v, r) := Conflict(w, a, b, reason, markerId);
            && r.Ok? && IsNote(r.value, markerId, "project", [a, b])
            && r.value.content == "CONFLICT recorded between " + a + " and " + b + ": " + reason
            && (r.value.project.Some? ==> r.value.project == w.mem.records[a].project)
            && (r.value.project.Some? <==> Nonempty(w.mem.records[a].project) && w.mem.records[a].project == w.mem.records[b].project)
            && v.mem.records.Keys == w.mem.records.Keys + {markerId}
            && Opposes(w.mem.records[a], v.mem.records[a], b) && Opposes(w.mem.records[b], v.mem.records[b], a)
            && v.log == w.log + [r.value, v.mem.records[a], v.mem.records[b]]
            && v.mem.records[markerId] == r.value
            && forall k {:trigger v.mem.records[k]} :: k in w.mem.records && k != a && k != b ==> v.mem.records[k] == w.mem.records[k]
  {
    ConflictIsThreeWrites(w, a, b, reason, markerId);
    BothRelink(w, a, b);
    var (ra, rb) := LinkedBoth(w, a, b);
    BothOppose(w, a, b);
    ThreeWrites(w, Marker(w, a, b, reason, markerId), ra, rb);
  }

  // ---------------------------------------------------------------- consolidate

  ghost predicate Flagged(m: Mem, s: string) {
    s in m.records && (m.records[s].revoked || m.records[s].authorityRevoked)
  }

  ghost predicate SourceRevoked(m: Mem, ids: seq<string>) {
    exists s {:trigger Flagged(m, s)} :: s in ids && Flagged(m, s)
  }

  ghost predicate AllOnFile(m: Mem, ids: seq<string>) {
    ids != [] && forall s :: s in ids ==> s in m.records
  }

  ghost predicate Admits(m: Mem, s: string, use: string) {
    s in m.records && use in m.records[s].authority.uses
  }

  ghost predicate Shows(m: Mem, s: string, to: string) {
    s in m.records && to in (if m.records[s].visibility.Some? then m.records[s].visibility.value else {"project"})
  }

  ghost predicate Disputes(m: Mem, s: string, c: string) {
    s in m.records && c in m.records[s].conflicts
  }

  ghost predicate Speaks(m: Mem, s: string, v: string) {
    s in m.records && v != "" && m.records[s].version == Some(v)
  }

  /** The strength of a summary of `ids`: the weakest class of the sources, and the uses that all of them admit; nothing if one was revoked. */
  ghost predicate WeakestOf(m: Mem, ids: seq<string>, a: Authority) {
    if SourceRevoked(m, ids) then a.cls == NoAuthority && a.uses == {}
    else
      && (exists s :: s in ids && s in m.records && m.records[s].authority.cls == a.cls)
      && (forall s :: s in ids && s in m.records ==> Order(a.cls) <= Order(m.records[s].authority.cls))
      && (forall u {:trigger u in a.uses} :: u in a.uses <==> forall s :: s in ids ==> Admits(m, s, u))
  }

  ghost predicate ConfidenceOf(m: Mem, ids: seq<string>, c: Confidence) {
    && (c == Contradicted <==> exists s :: s in ids && s in m.records && m.records[s].confidence == Contradicted)
    && (c == Verified <==> forall s :: s in ids && s in m.records ==> m.records[s].confidence == Verified)
    && (c != Contradicted && c != Verified ==> c == Hypothesis)
  }

  lemma SomeSource(m: Mem, ids: seq<string>, s: string) returns (i: nat)
    requires Sources(m, ids).Ok? && s in ids
    ensures i < |ids| == |Sources(m, ids).value| && ids[i] == s
    ensures s in m.records && Sources(m, ids).value[i] == m.records[s]
  {
    SourcesAre(m, ids);
    i :| 0 <= i < |ids| && ids[i] == s;
    assert Sources(m, ids).value[i] == m.records[ids[i]];
  }

  lemma RevokedIff(m: Mem, ids: seq<string>)
    requires Sources(m, ids).Ok?
    ensures AnyRevoked(Sources(m, ids).value) <==> SourceRevoked(m, ids)
  {
    SourcesAre(m, ids);
    var rs := Sources(m, ids).value;
    if AnyRevoked(rs) {
      var i :| 0 <= i < |rs| && (rs[i].revoked || rs[i].authorityRevoked);
      assert Flagged(m, ids[i]);
    }
    if SourceRevoked(m, ids) {
      var s :| s in ids && Flagged(m, s);
      var i := SomeSource(m, ids, s);
      assert rs[i].revoked || rs[i].authorityRevoked;
    }
  }

  lemma {:induction false} UsesAreCommon(rs: seq<Rec>, u: string)
    requires rs != []
    ensures u in CommonUses(rs) <==> forall i :: 0 <= i < |rs| ==> u in rs[i].authority.uses
  {
    var n := |rs| - 1;
    if n > 0 {
      UsesAreCommon(rs[..n], u);
      assert forall i :: 0 <= i < n ==> rs[..n][i] == rs[i];
    }
  }

  lemma UsesIff(m: Mem, ids: seq<string>, u: string)
    requires Sources(m, ids).Ok? && Sources(m, ids).value != []
    ensures u in CommonUses(Sources(m, ids).value) <==> forall s :: s in ids ==> Admits(m, s, u)
  {
    SourcesAre(m, ids);
    var rs := Sources(m, ids).value;
    UsesAreCommon(rs, u);
    if u in CommonUses(rs) {
      forall s | s in ids ensures Admits(m, s, u) { var i := SomeSource(m, ids, s); assert u in rs[i].authority.uses; }
    }
    if forall s :: s in ids ==> Admits(m, s, u) {
      forall i | 0 <= i < |rs| ensures u in rs[i].authority.uses { assert Admits(m, ids[i], u); }
    }
  }

  lemma ShownIff(m: Mem, ids: seq<string>, to: string)
    requires Sources(m, ids).Ok? && Sources(m, ids).value != []
    ensures to in CommonVisibility(Sources(m, ids).value) <==> forall s :: s in ids ==> Shows(m, s, to)
  {
    SourcesAre(m, ids);
    var rs := Sources(m, ids).value;
    SeenByAll(rs, to);
    if to in CommonVisibility(rs) {
      forall s | s in ids ensures Shows(m, s, to) { var i := SomeSource(m, ids, s); assert to in VisibilityOf(rs[i]); }
    }
    if forall s :: s in ids ==> Shows(m, s, to) {
      forall i | 0 <= i < |rs| ensures to in VisibilityOf(rs[i]) { assert Shows(m, ids[i], to); }
    }
  }

  lemma DisputedIff(m: Mem, ids: seq<string>, c: string)
    requires Sources(m, ids).Ok?
    ensures c in JointConflicts(Sources(m, ids).value) <==> exists s :: s in ids && Disputes(m, s, c)
  {
    SourcesAre(m, ids);
    var rs := Sources(m, ids).value;
    if c in JointConflicts(rs) {
      var i :| 0 <= i < |rs| && c in rs[i].conflicts;
      assert Disputes(m, ids[i], c);
    }
    if exists s :: s in ids && Disputes(m, s, c) {
      var s :| s in ids && Disputes(m, s, c);
      var i := SomeSource(m, ids, s);
      assert c in rs[i].conflicts;
    }
  }

  lemma SpokenIff(m: Mem, ids: seq<string>, v: string)
    requires Sources(m, ids).Ok?
    ensures v in OwnVersions(Sources(m, ids).value) <==> exists s :: s in ids && Speaks(m, s, v)
  {
    SourcesAre(m, ids);
    var rs := Sources(m, ids).value;
    if v in OwnVersions(rs) {
      var i :| 0 <= i < |rs| && rs[i].version.Some? && rs[i].version.value != "" && rs[i].version.value == v;
      assert Speaks(m, ids[i], v);
    }
    if exists s :: s in ids && Speaks(m, s, v) {
      var s :| s in ids && Speaks(m, s, v);
      var i := SomeSource(m, ids, s);
      assert rs[i].version == Some(v);
    }
  }

  lemma ConfidenceIs(m: Mem, ids: seq<string>)
    requires Sources(m, ids).Ok? && ids != []
    ensures ConfidenceOf(m, ids, JointConfidence(Sources(m, ids).value))
  {
    SourcesAre(m, ids);
    var rs := Sources(m, ids).value;
    if AnyContradicted(rs) {
      var i :| 0 <= i < |rs| && rs[i].confidence == Contradicted;
      assert ids[i] in ids && m.records[ids[i]].confidence == Contradicted;
    }
    forall s | s in ids ensures exists i :: 0 <= i < |rs| && rs[i] == m.records[s] { var i := SomeSource(m, ids, s); }
    if forall s :: s in ids && s in m.records ==> m.records[s].confidence == Verified {
      forall i | 0 <= i < |rs| ensures rs[i].confidence == Verified { assert ids[i] in ids; }
    }
  }

  lemma StrengthIs(m: Mem, ids: seq<string>)
    requires Sources(m, ids).Ok? && ids != []
    requires Sources(m, ids).value != []
    ensures var rs := Sources(m, ids).value;
            WeakestOf(m, ids, if AnyRevoked(rs) then VOID else Authority(Weakest(rs), CommonUses(rs)))
  {
    RevokedIff(m, ids);
    SourcesAre(m, ids);
    var rs := Sources(m, ids).value;
    SummaryIsTight(rs);
    var i :| 0 <= i < |rs| && Weakest(rs) == rs[i].authority.cls;
    assert ids[i] in ids && m.records[ids[i]].authority.cls == Weakest(rs);
    forall s | s in ids ensures Order(Weakest(rs)) <= Order(m.records[s].authority.cls) {
      var j := SomeSource(m, ids, s);
      WeakestIsBelow(rs, j);
    }
    forall u ensures u in CommonUses(rs) <==> forall s :: s in ids ==> Admits(m, s, u) { UsesIff(m, ids, u); }
  }

  /** The sources' part of a summary. */
  ghost predicate Sums(m: Mem, ids: seq<string>, opts: Options, r: Rec) {
    && WeakestOf(m, ids, r.authority) && ConfidenceOf(m, ids, r.confidence)
    && (forall c {:trigger c in r.conflicts} :: c in r.conflicts <==> exists s :: s in ids && Disputes(m, s, c))
    && (opts.visibility.Some? ==> r.visibility == opts.visibility)
    && (opts.visibility.None? ==>
          r.visibility.Some? && forall to {:trigger to in r.visibility.value} :: to in r.visibility.value <==> forall s :: s in ids ==> Shows(m, s, to))
    && (opts.sourceVersions.Some? ==> r.versions == opts.sourceVersions)
    && (opts.sourceVersions.None? ==>
          r.versions.Some? && forall v {:trigger v in r.versions.value} :: v in r.versions.value <==> exists s :: s in ids && Speaks(m, s, v))
  }

  /** Its own part: what the options say, or the defaults, and the ids it was made from. */
  ghost predicate Titled(ids: seq<string>, content: string, opts: Options, newId: string, r: Rec) {
    && r.id == newId && r.content == content && r.derivedFrom == ids
    && (opts.kind.Some? ==> r.kind == opts.kind.value) && (opts.kind.None? ==> r.kind == "semantic")
    && (opts.retention.Some? ==> r.retention == opts.retention.value) && (opts.retention.None? ==> r.retention == "project")
    && (Nonempty(opts.project) ==> r.project == opts.project) && (!Nonempty(opts.project) ==> r.project == None)
    && r.version == Some("memory-consolidation@1") && r.supersedes == None && r.steps == None && !r.revoked && !r.deleted
  }

  lemma SummaryIs(m: Mem, ids: seq<string>, content: string, opts: Options, newId: string)
    requires Sources(m, ids).Ok? && ids != []
    requires Sources(m, ids).value != []
    ensures var r := Summary(Sources(m, ids).value, ids, content, opts, newId);
            Sums(m, ids, opts, r) && Titled(ids, content, opts, newId, r) && !r.authorityRevoked
  {
    StrengthIs(m, ids);
    ConfidenceIs(m, ids);
    forall c ensures c in JointConflicts(Sources(m, ids).value) <==> exists s :: s in ids && Disputes(m, s, c) { DisputedIff(m, ids, c); }
    forall to ensures to in CommonVisibility(Sources(m, ids).value) <==> forall s :: s in ids ==> Shows(m, s, to) { ShownIff(m, ids, to); }
    forall v ensures v in OwnVersions(Sources(m, ids).value) <==> exists s :: s in ids && Speaks(m, s, v) { SpokenIff(m, ids, v); }
  }

  /**
   * What `consolidate` makes of records on file, and that it changes no other
   * record: one line, and a second one with the revocation flag when a source
   * had been revoked.
   */
  lemma ConsolidatedIs(w: World, ids: seq<string>, content: string, opts: Options, newId: string)
    requires newId !in w.mem.records && Consolidate(w, ids, content, opts, newId).1.Ok?
    ensures var (v, r) := Consolidate(w, ids, content, opts, newId);
            && AllOnFile(w.mem, ids)
            && Sums(w.mem, ids, opts, r.value) && Titled(ids, content, opts, newId, r.value)
            && (r.value.authorityRevoked <==> SourceRevoked(w.mem, ids))
            && v.mem == Mem(w.mem.order + [newId], w.mem.records[newId := r.value])
            && v.log == w.log + (if SourceRevoked(w.mem, ids) then [r.value.(authorityRevoked := false), r.value] else [r.value])
  {
    SourcesAre(w.mem, ids);
    SummaryIs(w.mem, ids, content, opts, newId);
    RevokedIff(w.mem, ids);
    MadeOf(w, ids, content, opts, newId);
  }

  /** The summary, marked as revoked when a source had been. */
  lemma MadeOf(w: World, ids: seq<string>, content: string, opts: Options, newId: string)
    requires newId !in w.mem.records && Consolidate(w, ids, content, opts, newId).1.Ok?
    ensures Sources(w.mem, ids).Ok? && Sources(w.mem, ids).value != []
    ensures var (rs, v) := (Sources(w.mem, ids).value, Consolidate(w, ids, content, opts, newId).0);
            var s := Summary(rs, ids, content, opts, newId);
            var r := s.(authorityRevoked := AnyRevoked(rs));
            && Consolidate(w, ids, content, opts, newId).1 == Ok(r)
            && v.mem == Mem(w.mem.order + [newId], w.mem.records[newId := r])
            && v.log == w.log + (if AnyRevoked(rs) then [s, r] else [s])
  {
    var s := Summary(Sources(w.mem, ids).value, ids, content, opts, newId);
    assert Fresh(s) == s;
    var marked := s.(authorityRevoked := true);
    assert w.mem.records[newId := s][newId := marked] == w.mem.records[newId := marked];
    assert w.log + [s] + [marked] == w.log + [s, marked];
  }

  /** The uses that a summary of `ids` would have. */
  ghost predicate WouldPermit(m: Mem, ids: seq<string>) {
    !SourceRevoked(m, ids) && exists u {:trigger u in FORBIDDEN_USES} :: u in FORBIDDEN_USES && forall s :: s in ids ==> Admits(m, s, u)
  }

  /** It succeeds exactly for sources that are all on file and options and content that an append admits; otherwise nothing changes. */
  lemma ConsolidatedIff(w: World, ids: seq<string>, content: string, opts: Options, newId: string)
    requires newId != ""
    ensures var (v, r) := Consolidate(w, ids, content, opts, newId);
            && (r.Ok? <==>
                  && AllOnFile(w.mem, ids) && content != "" && !WouldPermit(w.mem, ids)
                  && (opts.kind.Some? ==> opts.kind.value in MEMORY_KINDS)
                  && (opts.retention.Some? ==> opts.retention.value in RETENTIONS))
            && (r.Err? ==> v == w)
            && (r == Err(NoSources) <==> ids == [])
            && (r.Err? && r.error.Missing? <==> exists s :: s in ids && s !in w.mem.records)
  {
    SourcesAre(w.mem, ids);
    if Sources(w.mem, ids).Ok? && ids != [] {
      SummaryIs(w.mem, ids, content, opts, newId);
      var s := Summary(Sources(w.mem, ids).value, ids, content, opts, newId);
      AppendIff(w, s);
      PermitsIff(w.mem, ids, s.authority);
    } else if ids != [] {
      MissingIsMissing(w.mem, ids);
    }
  }

  lemma PermitsIff(m: Mem, ids: seq<string>, a: Authority)
    requires WeakestOf(m, ids, a)
    ensures a.uses !! FORBIDDEN_USES <==> !WouldPermit(m, ids)
  {
  }

  lemma {:induction false} MissingIsMissing(m: Mem, ids: seq<string>)
    requires Sources(m, ids).Err?
    ensures Sources(m, ids).error.Missing? && Sources(m, ids).error.id in ids && Sources(m, ids).error.id !in m.records
  {
    if ids[0] in m.records { MissingIsMissing(m, ids[1..]); }
  }

  // ---------------------------------------------------------------- deriveProcedure, deleteRecord

  /** A procedure is a summary of kind "procedural" with the steps given. */
  lemma DerivedIs(w: World, ids: seq<string>, content: string, steps: Option<Steps>, opts: Options, newId: string)
    requires newId !in w.mem.records && DeriveProcedure(w, ids, content, steps, opts, newId).1.Ok?
    ensures var (v, r) := DeriveProcedure(w, ids, content, steps, opts, newId);
            && r.value.kind == "procedural" && r.value.steps == steps
            && RealSteps(steps)
            && Sums(w.mem, ids, opts, r.value) && r.value.derivedFrom == ids && r.value.content == content && r.value.id == newId
            && (r.value.authorityRevoked <==> SourceRevoked(w.mem, ids))
            && v.mem == Mem(w.mem.order + [newId], w.mem.records[newId := r.value])
            && |v.log| > 0 && v.log[|v.log| - 1] == r.value
  {
    var kind := opts.(kind := Some("procedural"));
    ConsolidatedIs(w, ids, content, kind, newId);
    var c := Consolidate(w, ids, content, kind, newId).1.value;
    assert w.mem.records[newId := c][newId := c.(steps := steps)] == w.mem.records[newId := c.(steps := steps)];
  }

  predicate RealSteps(steps: Option<Steps>) {
    steps.Some? && steps.value.StepList? && |steps.value.items| > 0
  }

  /** It succeeds exactly when the summary could be made and the steps are a list that is not empty. */
  lemma DerivedIff(w: World, ids: seq<string>, content: string, steps: Option<Steps>, opts: Options, newId: string)
    requires newId != ""
    ensures DeriveProcedure(w, ids, content, steps, opts, newId).1.Ok? <==>
              && AllOnFile(w.mem, ids) && content != "" && !WouldPermit(w.mem, ids) && RealSteps(steps)
              && (opts.retention.Some? ==> opts.retention.value in RETENTIONS)
  {
    ConsolidatedIff(w, ids, content, opts.(kind := Some("procedural")), newId);
  }

  /** Refused steps leave the summary on file as it was made, and in memory with the steps. */
  lemma StepsRefused(w: World, ids: seq<string>, content: string, steps: Option<Steps>, opts: Options, newId: string)
    requires !RealSteps(steps) && Consolidate(w, ids, content, opts.(kind := Some("procedural")), newId).1.Ok?
    ensures var (v, r) := DeriveProcedure(w, ids, content, steps, opts, newId);
            var (made, s) := Consolidate(w, ids, content, opts.(kind := Some("procedural")), newId);
            && r == Err(Invalid) && v.log == made.log
            && newId in v.mem.records && v.mem.records[newId] == s.value.(steps := steps)
            && v.mem.records - {newId} == made.mem.records - {newId}
  {
  }

  /** A deletion blanks the content and marks the record; everything else of it, and every other record, stays. */
  lemma DeletedIs(w: World, id: string)
    requires WellFiled(w.mem)
    ensures var (v, done) := Delete(w, id);
            && (done <==> id in w.mem.records)
            && (!done ==> v == w)
            && (done ==>
                  && id in v.mem.records && Files(w, v, v.mem.records[id])
                  && v.mem.records[id].content == "[deleted]" && v.mem.records[id].deleted
                  && v.mem.records[id].(content := w.mem.records[id].content, deleted := w.mem.records[id].deleted) == w.mem.records[id])
  {
  }

  /** The ids in a note are told apart by a comma and a space. */
  lemma {:induction false} JoinedIs(a: seq<string>, b: seq<string>, id: string)
    ensures JoinIds([]) == "" && JoinIds([id]) == id
    ensures a != [] && b != [] ==> JoinIds(a + b) == JoinIds(a) + ", " + JoinIds(b)
  {
    if a != [] && b != [] {
      assert (a + b)[0] == a[0] && (a + b)[1..] == a[1..] + b;
      if |a| == 1 {
        assert a[1..] + b == b;
      } else {
        JoinedIs(a[1..], b, id);
        assert a[0] + ", " + (JoinIds(a[1..]) + ", " + JoinIds(b)) == (a[0] + ", " + JoinIds(a[1..])) + ", " + JoinIds(b);
      }
    }
  }

  /** The note of a revocation names the source, the reason and what lost its authority. */
  lemma RevocationNoteIs(w: World, source: string, reason: string, expected: Option<seq<string>>, check: Rec -> bool, markerId: string)
    requires WellFiled(w.mem) && markerId != "" && markerId !in w.mem.records
    requires source in w.mem.records && Expected(w.mem, source, expected, check)
    ensures var (v, r) := RevokeSource(w, source, reason, expected, check, markerId);
            && r.Ok? && markerId in v.mem.records && |v.log| > 0
            && var note := v.mem.records[markerId];
            && IsNote(note, markerId, "permanent", [source]) && v.log[|v.log| - 1] == note
            && note.content == "AUTHORITY REVOKED for " + source + " (" + reason + "); propagated to derived artifacts: " + JoinIds(r.value)
            && (Nonempty(w.mem.records[source].project) ==> note.project == w.mem.records[source].project)
            && (!Nonempty(w.mem.records[source].project) ==> note.project == None)
  {
    ExpectationMet(w.mem, source, expected, check);
    NoteIsAppended(w, source, reason, expected, check, markerId);
  }

  /** A log of whole lines is taken as it is; behind a torn line comes a note of the store's, without sources or project. */
  lemma LoadedIs(lines: seq<Rec>, torn: bool, noteId: string)
    requires noteId != "" && noteId !in FoldLog(lines).records
    ensures var w := Load(lines, torn, noteId);
            && (!torn ==> w == World(FoldLog(lines), lines))
            && (torn ==>
                  && noteId in w.mem.records && IsNote(w.mem.records[noteId], noteId, "permanent", [])
                  && w.mem.records[noteId].project == None
                  && w.mem.records[noteId].content == "MEMORY LOG RECOVERY: quarantined 1 corrupt trailing line(s) after a partial write"
                  && Files(World(FoldLog(lines), lines), w, w.mem.records[noteId]))
  {
  }

  /** The last line about an id is its record. */
  lemma {:induction false} FoldedIs(lines: seq<Rec>, id: string)
    ensures id in FoldLog(lines).records <==> exists i :: 0 <= i < |lines| && lines[i].id == id
    ensures id in FoldLog(lines).records ==>
              exists i :: 0 <= i < |lines| && FoldLog(lines).records[id] == lines[i] && lines[i].id == id
                          && forall j :: i < j < |lines| ==> lines[j].id != id
  {
    if lines != [] {
      var n := |lines| - 1;
      FoldedIs(lines[..n], id);
      assert forall i :: 0 <= i < n ==> lines[..n][i] == lines[i];
      if lines[n].id == id {
        assert FoldLog(lines).records[id] == lines[n];
      } else if id in FoldLog(lines[..n]).records {
        var i :| 0 <= i < n && FoldLog(lines[..n]).records[id] == lines[..n][i] && lines[..n][i].id == id
                 && forall j :: i < j < n ==> lines[..n][j].id != id;
        assert FoldLog(lines).records[id] == lines[i];
      }
    }
  }

  /** The order of the classes, weakest first. */
  lemma ClassesAscend(c: Class, d: Class)
    ensures c == NoAuthority && d != NoAuthority ==> Order(c) < Order(d)
    ensures c == ToolOutput && !d.NoAuthority? && !d.ToolOutput? ==> Order(c) < Order(d)
    ensures c == ExternalDocument && (d.AssistantSuggestion? || d.Observation? || d.UserStatement? || d.UserAuthorization?) ==> Order(c) < Order(d)
    ensures c == AssistantSuggestion && (d.Observation? || d.UserStatement? || d.UserAuthorization?) ==> Order(c) < Order(d)
    ensures c == Observation && (d.UserStatement? || d.UserAuthorization?) ==> Order(c) < Order(d)
    ensures c == UserStatement && d == UserAuthorization ==> Order(c) < Order(d)
    ensures Order(c) == Order(d) <==> c == d
  {
  }
}

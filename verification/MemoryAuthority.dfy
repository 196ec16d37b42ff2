/**
 * Authority never grows along derivation: over whole runs of the memory store,
 * crashes between two writes included, a derived record has no more authority
 * than any of its sources, and a revocation is never undone.
 */
module MemoryAuthority {
  import opened Wrappers
  import opened MemoryModel
  import opened MemoryLineage
  import opened MemoryRevocation
  import opened MemoryRuns

  // ---------------------------------------------------------------- consolidation caps

  lemma {:induction false} WeakestIsBelow(rs: seq<Rec>, i: nat)
    requires i < |rs|
    ensures Order(Weakest(rs)) <= Order(rs[i].authority.cls)
  {
    if |rs| > 1 && i < |rs| - 1 { WeakestIsBelow(rs[..|rs| - 1], i); }
  }

  lemma {:induction false} CommonUsesAreUses(rs: seq<Rec>, i: nat)
    requires i < |rs|
    ensures CommonUses(rs) <= rs[i].authority.uses
  {
    if |rs| > 1 && i < |rs| - 1 { CommonUsesAreUses(rs[..|rs| - 1], i); }
  }

  /** The class is one of the sources' classes, and a use that all sources admit is kept. */
  lemma {:induction false} SummaryIsTight(rs: seq<Rec>)
    requires rs != []
    ensures exists i :: 0 <= i < |rs| && Weakest(rs) == rs[i].authority.cls
    ensures forall u {:trigger u in CommonUses(rs)} :: (forall i :: 0 <= i < |rs| ==> u in rs[i].authority.uses) ==> u in CommonUses(rs)
  {
    if |rs| == 1 {
      assert Weakest(rs) == rs[0].authority.cls;
    } else {
      var p := rs[..|rs| - 1];
      SummaryIsTight(p);
      var i :| 0 <= i < |p| && Weakest(p) == p[i].authority.cls;
      assert Weakest(p) == rs[i].authority.cls;
      forall u {:trigger u in CommonUses(rs)} | forall i :: 0 <= i < |rs| ==> u in rs[i].authority.uses ensures u in CommonUses(rs) {
        forall i | 0 <= i < |p| ensures u in p[i].authority.uses { assert p[i] == rs[i]; }
        assert u in CommonUses(p);
      }
    }
  }

  lemma {:induction false} SourcesAre(m: Mem, ids: seq<string>)
    ensures Sources(m, ids).Ok? <==> forall s :: s in ids ==> s in m.records
    ensures Sources(m, ids).Ok? ==>
      && |Sources(m, ids).value| == |ids|
      && forall i {:trigger Sources(m, ids).value[i]} :: 0 <= i < |ids| ==> ids[i] in m.records && Sources(m, ids).value[i] == m.records[ids[i]]
  {
    if ids != [] {
      SourcesAre(m, ids[1..]);
      if ids[0] in m.records && Sources(m, ids[1..]).Ok? {
        forall i {:trigger Sources(m, ids).value[i]} | 0 <= i < |ids|
          ensures ids[i] in m.records && Sources(m, ids).value[i] == m.records[ids[i]]
        {
          if i > 0 { assert Sources(m, ids[1..]).value[i - 1] == m.records[ids[1..][i - 1]]; }
        }
      }
    }
  }

  lemma SummaryIsCapped(m: Mem, ids: seq<string>, content: string, opts: Options, newId: string)
    requires Sources(m, ids).Ok? && ids != []
    requires Sources(m, ids).value != []
    ensures CappedBy(m, {}, Summary(Sources(m, ids).value, ids, content, opts, newId).authority, ids)
  {
    SourcesAre(m, ids);
    var rs := Sources(m, ids).value;
    var a := Summary(rs, ids, content, opts, newId).authority;
    forall s {:trigger Caps(m, {}, s, a)} | s in ids ensures Caps(m, {}, s, a) {
      var i :| 0 <= i < |ids| && ids[i] == s;
      assert rs[i] == m.records[s];
      WeakestIsBelow(rs, i);
      CommonUsesAreUses(rs, i);
    }
  }

  // ---------------------------------------------------------------- one operation at a time

  /** Memory follows the log, and the state is sound apart from what `cut` excuses. */
  ghost predicate Ready(w: World, made: set<string>, cut: set<string>) {
    Alike(w.mem, FoldLog(w.log)) && Sound(w.mem, made, cut)
  }

  lemma AppendFollows(w: World, start: seq<Rec>, made: set<string>, cut: set<string>, input: Rec)
    requires Follows(w, start, made, cut) && input.id !in w.mem.records
    requires input.id in made ==> CappedBy(w.mem, cut, input.authority, input.derivedFrom)
    ensures Follows(Append(w, input).0, start, made, cut)
  {
    if CheckAppend(input).None? { PersistFollows(w, start, made, cut, Fresh(input)); }
  }

  /** A line that changes nothing but an existing record's conflicts. */
  ghost predicate Relinks(m: Mem, r: Rec) {
    r.id in m.records && r.(conflicts := {}) == m.records[r.id].(conflicts := {})
  }

  lemma RelinkFollows(w: World, start: seq<Rec>, made: set<string>, cut: set<string>, r: Rec)
    requires Follows(w, start, made, cut) && Voided(w.mem) && Relinks(w.mem, r)
    ensures Follows(Persist(w, r), start, made, cut) && Voided(Persist(w, r).mem)
  {
    PersistFollows(w, start, made, cut, r);
  }

  function Marker(w: World, a: string, b: string, why: string, noteId: string): Rec
    requires a in w.mem.records && b in w.mem.records
  {
    Note(noteId, "CONFLICT recorded between " + a + " and " + b + ": " + why,
         Shared(w.mem.records[a].project, w.mem.records[b].project), "project", [a, b])
  }

  /** Changes in memory that later lines write out leave no other trace. */
  lemma WrittenOut(m: Mem, x: Rec, y: Rec, note: Rec, ra: Rec, rb: Rec)
    requires x.id in m.records && y.id in m.records && note.id !in m.records && ra.id == x.id && rb.id == y.id
    ensures Put(Put(Put(Put(Put(m, x), y), note), ra), rb) == Put(Put(Put(m, note), ra), rb)
  {
    var p, q := Put(Put(Put(Put(Put(m, x), y), note), ra), rb), Put(Put(Put(m, note), ra), rb);
    assert p.records == q.records;
    assert p.order == q.order;
  }

  /** The two records as a conflict leaves them. */
  function LinkedBoth(w: World, a: string, b: string): (Rec, Rec)
    requires a in w.mem.records && b in w.mem.records
  {
    var linked := AddConflict(AddConflict(w, a, b), b, a);
    (linked.mem.records[a], linked.mem.records[b])
  }

  lemma BothRelink(w: World, a: string, b: string)
    requires WellFiled(w.mem) && a in w.mem.records && b in w.mem.records
    ensures LinkedBoth(w, a, b).0.id == a && LinkedBoth(w, a, b).1.id == b
    ensures Relinks(w.mem, LinkedBoth(w, a, b).0) && Relinks(w.mem, LinkedBoth(w, a, b).1)
  {
  }

  /** Once complete, a conflict has the same effect as three writes: the note and both records. */
  lemma ConflictIsThreeWrites(w: World, a: string, b: string, why: string, noteId: string)
    requires WellFiled(w.mem) && a in w.mem.records && b in w.mem.records && noteId != "" && noteId !in w.mem.records
    ensures var (ra, rb) := LinkedBoth(w, a, b);
            Conflict(w, a, b, why, noteId).0 == Persist(Persist(Persist(w, Marker(w, a, b, why, noteId)), ra), rb)
  {
    BothRelink(w, a, b);
    var (ra, rb) := LinkedBoth(w, a, b);
    var note := Marker(w, a, b, why, noteId);
    assert CheckAppend(note).None?;
    var x := w.mem.records[a].(conflicts := w.mem.records[a].conflicts + {b});
    var first := Touch(w, x);
    var y := first.mem.records[b].(conflicts := first.mem.records[b].conflicts + {a});
    WrittenOut(w.mem, x, y, note, ra, rb);
  }

  lemma ThreeFollow(w: World, made: set<string>, cut: set<string>, note: Rec, ra: Rec, rb: Rec)
    requires Alike(w.mem, FoldLog(w.log)) && Voided(w.mem)
    requires note.id !in w.mem.records && note.id !in made && !note.authorityRevoked && Proper(note)
    requires Relinks(w.mem, ra) && Relinks(w.mem, rb)
    ensures Follows(Persist(Persist(Persist(w, note), ra), rb), w.log, made, cut)
  {
    StartFollows(w, made, cut);
    PersistFollows(w, w.log, made, cut, note);
    var next := Persist(w, note);
    assert Relinks(next.mem, ra) && Relinks(next.mem, rb);
    RelinkFollows(next, w.log, made, cut, ra);
    assert Relinks(Persist(next, ra).mem, rb);
    RelinkFollows(Persist(next, ra), w.log, made, cut, rb);
  }

  lemma ConflictFollows(w: World, made: set<string>, cut: set<string>, a: string, b: string, why: string, noteId: string)
    requires Ready(w, made, cut) && noteId != "" && noteId !in w.mem.records && noteId !in made
    ensures Follows(Conflict(w, a, b, why, noteId).0, w.log, made, cut)
  {
    if a in w.mem.records && b in w.mem.records {
      ConflictIsThreeWrites(w, a, b, why, noteId);
      BothRelink(w, a, b);
      ThreeFollow(w, made, cut, Marker(w, a, b, why, noteId), LinkedBoth(w, a, b).0, LinkedBoth(w, a, b).1);
    } else {
      StartFollows(w, made, cut);
    }
  }

  lemma ConsolidateFollows(w: World, made: set<string>, ids: seq<string>, content: string, opts: Options, newId: string)
    requires Ready(w, made, {}) && newId !in w.mem.records
    ensures Follows(Consolidate(w, ids, content, opts, newId).0, w.log, made, {})
  {
    StartFollows(w, made, {});
    var src := Sources(w.mem, ids);
    if src.Ok? && src.value != [] {
      SummaryIsCapped(w.mem, ids, content, opts, newId);
      var s := Summary(src.value, ids, content, opts, newId);
      AppendFollows(w, w.log, made, {}, s);
      var (next, r) := Append(w, s);
      if r.Ok? && AnyRevoked(src.value) {
        PersistFollows(next, w.log, made, {}, r.value.(authorityRevoked := true));
      }
    }
  }

  /** Proper, and void when it is marked as revoked; and memory has it as it is. */
  ghost predicate Filed(w: World, r: Rec) {
    && r.id in w.mem.records && w.mem.records[r.id] == r
    && Proper(r) && (r.authorityRevoked ==> r.authority == VOID)
  }

  /** What `consolidate` returns is filed. */
  lemma ConsolidatedIsFiled(w: World, ids: seq<string>, content: string, opts: Options, newId: string)
    requires newId !in w.mem.records && Consolidate(w, ids, content, opts, newId).1.Ok?
    ensures var (v, r) := Consolidate(w, ids, content, opts, newId);
            Filed(v, r.value) && r.value.id == newId
  {
  }

  /** The steps of a record on file, written or just set: the log's lines stay allowed. */
  lemma StepsFollow(next: World, start: seq<Rec>, made: set<string>, r: Result<Rec, MemoryError>, steps: Option<Steps>)
    requires Follows(next, start, made, {}) && (r.Ok? ==> Filed(next, r.value))
    ensures Follows(SetSteps(next, r, steps).0, start, made, {})
  {
    if r.Ok? {
      PersistFollows(next, start, made, {}, r.value.(steps := steps));
      TouchFollows(next, start, made, {}, r.value.(steps := steps));
    }
  }

  lemma DeriveFollows(w: World, made: set<string>, ids: seq<string>, content: string, steps: Option<Steps>, opts: Options, newId: string)
    requires Ready(w, made, {}) && newId !in w.mem.records
    ensures Follows(DeriveProcedure(w, ids, content, steps, opts, newId).0, w.log, made, {})
  {
    var kind := opts.(kind := Some("procedural"));
    ConsolidateFollows(w, made, ids, content, kind, newId);
    var (next, r) := Consolidate(w, ids, content, kind, newId);
    if r.Ok? { ConsolidatedIsFiled(w, ids, content, kind, newId); }
    StepsFollow(next, w.log, made, r, steps);
  }

  lemma {:induction false} EachFollows(w: World, start: seq<Rec>, made: set<string>, cut: set<string>, ids: seq<string>)
    requires Follows(w, start, made, cut) && Voided(w.mem)
    requires forall k :: k in ids ==> k in cut && k in w.mem.records && w.mem.records[k].id == k
    ensures Follows(RevokeEach(w, ids), start, made, cut)
    decreases ids
  {
    if ids != [] {
      var r := w.mem.records[ids[0]];
      if !r.authorityRevoked { PersistFollows(w, start, made, cut, Void(r)); }
      EachFollows(if r.authorityRevoked then w else Persist(w, Void(r)), start, made, cut, ids[1..]);
    }
  }

  lemma {:induction false} SweepFollows(w: World, start: seq<Rec>, made: set<string>, cut: set<string>, scope: string, ids: seq<string>)
    requires Follows(w, start, made, cut) && Voided(w.mem)
    requires forall k :: k in ids ==> k in w.mem.records && w.mem.records[k].id == k
    ensures Follows(Sweep(w, scope, ids), start, made, cut)
    decreases ids
  {
    if ids != [] {
      var r := w.mem.records[ids[0]];
      var gone := r.(content := "[deleted]", deleted := true);
      var next := if r.retention == scope && !r.deleted then Persist(w, gone) else w;
      if r.retention == scope && !r.deleted { PersistFollows(w, start, made, cut, gone); }
      SweepFollows(next, start, made, cut, scope, ids[1..]);
    }
  }

  // ---------------------------------------------------------------- revocation

  /** The records a revocation of `source` reaches. */
  function Below(m: Mem, source: string): set<string>
    requires WellFiled(m)
  {
    if source in m.records then SetOf(Closure(m, source)) else {}
  }

  lemma BelowIsReachable(m: Mem, source: string)
    requires WellFiled(m)
    ensures source in m.records ==> forall k {:trigger Reachable(m, source, k)} :: k in Below(m, source) <==> Reachable(m, source, k)
    ensures source !in m.records ==> Below(m, source) == {}
    ensures Below(m, source) <= m.records.Keys
  {
    if source in m.records {
      ClosureIsExact(m, source);
      forall k {:trigger Reachable(m, source, k)} ensures k in Below(m, source) <==> Reachable(m, source, k) {
        assert k in Closure(m, source) <==> Reachable(m, source, k);
      }
    }
  }

  /** The flag on the source, then the void lines. */
  lemma VoidsFollow(w: World, made: set<string>, source: string)
    requires WellFiled(w.mem) && Voided(w.mem) && Alike(w.mem, FoldLog(w.log)) && source in w.mem.records
    ensures Follows(RevokeAll(w, source), w.log, made, Below(w.mem, source))
  {
    var cut, flag := Below(w.mem, source), w.mem.records[source].(revoked := true);
    StartFollows(w, made, cut);
    ClosureIsFiled(w.mem, source);
    TouchFollows(w, w.log, made, cut, flag);
    EachFollows(Touch(w, flag), w.log, made, cut, Closure(w.mem, source));
  }

  lemma RevokeFollows(w: World, made: set<string>, source: string, reason: string,
                      expected: Option<seq<string>>, check: Rec -> bool, markerId: string)
    requires WellFiled(w.mem) && Voided(w.mem) && Alike(w.mem, FoldLog(w.log))
    requires markerId != "" && markerId !in w.mem.records && markerId !in made
    ensures Follows(RevokeSource(w, source, reason, expected, check, markerId).0, w.log, made, Below(w.mem, source))
  {
    var cut := Below(w.mem, source);
    StartFollows(w, made, cut);
    RevocationRefusedIff(w, source, reason, expected, check, markerId);
    if source in w.mem.records && Expected(w.mem, source, expected, check) {
      VoidsFollow(w, made, source);
      LoopOutcome(w, source);
      NoteIsAppended(w, source, reason, expected, check, markerId);
      PersistFollows(RevokeAll(w, source), w.log, made, cut, RevocationNote(w.mem, source, reason, markerId));
    }
  }

  lemma BelowEndsVoid(w: World, source: string, reason: string, expected: Option<seq<string>>, check: Rec -> bool, markerId: string)
    requires WellFiled(w.mem) && Voided(w.mem) && markerId != "" && markerId !in w.mem.records
    requires source in w.mem.records && Expected(w.mem, source, expected, check)
    ensures var v := RevokeSource(w, source, reason, expected, check, markerId).0.mem;
            forall k :: k in Below(w.mem, source) ==> k in v.records && v.records[k].authority == VOID && v.records[k].authorityRevoked
  {
    var v := RevokeSource(w, source, reason, expected, check, markerId).0.mem;
    RevocationIsExact(w, source, reason, expected, check, markerId);
    BelowIsReachable(w.mem, source);
    forall k | k in Below(w.mem, source)
      ensures k in v.records && v.records[k].authority == VOID && v.records[k].authorityRevoked
    {
      assert Reachable(w.mem, source, k);
      assert v.records[k] == Outcome(w.mem, source, k);
    }
  }

  /** A cut may be read more widely, as long as it is everything below a source. */
  lemma WiderCut(m: Mem, made: set<string>, cut: set<string>, source: string)
    requires Sound(m, made, cut) && cut <= Below(m, source)
    ensures Sound(m, made, Below(m, source))
  {
    var wide := Below(m, source);
    BelowIsReachable(m, source);
    forall k {:trigger CapHolds(m, wide, k)} | k in made && k in m.records ensures CapHolds(m, wide, k) {
      assert CapHolds(m, cut, k);
      if k !in wide {
        var a := m.records[k].authority;
        forall s {:trigger Caps(m, wide, s, a)} | s in m.records[k].derivedFrom ensures Caps(m, wide, s, a) {
          assert Caps(m, cut, s, a);
          if s in wide {
            assert Child(m, s, k);
            ReachLast(m, source, s, k);
            assert false;
          }
        }
      }
    }
  }

  /** A revocation that runs to its end leaves no excuse: whatever was cut is void. */
  lemma VoidNeedsNoExcuse(m: Mem, made: set<string>, cut: set<string>)
    requires Sound(m, made, cut)
    requires forall k :: k in cut ==> k in m.records && m.records[k].authority == VOID
    ensures Sound(m, made, {})
  {
    forall k {:trigger CapHolds(m, {}, k)} | k in made && k in m.records ensures CapHolds(m, {}, k) {
      assert CapHolds(m, cut, k);
      var a := m.records[k].authority;
      forall s {:trigger Caps(m, {}, s, a)} | s in m.records[k].derivedFrom ensures Caps(m, {}, s, a) {
        assert k !in cut ==> Caps(m, cut, s, a);
      }
    }
  }

  lemma RevokeCompletes(w: World, made: set<string>, cut: set<string>, source: string, reason: string,
                        expected: Option<seq<string>>, check: Rec -> bool, markerId: string)
    requires Ready(w, made, cut) && cut <= Below(w.mem, source)
    requires markerId != "" && markerId !in w.mem.records && markerId !in made
    requires source in w.mem.records && Expected(w.mem, source, expected, check)
    ensures Sound(RevokeSource(w, source, reason, expected, check, markerId).0.mem, made, {})
  {
    var v := RevokeSource(w, source, reason, expected, check, markerId).0;
    WiderCut(w.mem, made, cut, source);
    RevokeFollows(w, made, source, reason, expected, check, markerId);
    FollowedSound(w, v, made, Below(w.mem, source));
    BelowEndsVoid(w, source, reason, expected, check, markerId);
    VoidNeedsNoExcuse(v.mem, made, Below(w.mem, source));
  }

  /** What follows a sound log is sound. */
  lemma FollowedSound(w: World, v: World, made: set<string>, cut: set<string>)
    requires Ready(w, made, cut) && Follows(v, w.log, made, cut)
    ensures Sound(v.mem, made, cut) && Later(w.mem, v.mem)
  {
    AlikeSound(w.mem, FoldLog(w.log), made, cut);
    PrefixSound(w.log, v.log, made, cut, |v.log|);
    assert v.log[..|v.log|] == v.log;
    AlikeBack(v.mem, FoldLog(v.log));
    AlikeSound(FoldLog(v.log), v.mem, made, cut);
    LaterAlike(w.mem, FoldLog(w.log), v.mem, FoldLog(v.log));
  }

  lemma AlikeBack(a: Mem, b: Mem)
    requires Alike(a, b)
    ensures Alike(b, a)
  {
    forall k {:trigger SameCore(b, a, k)} | k in b.records ensures SameCore(b, a, k) { assert SameCore(a, b, k); }
  }

  lemma LaterAlike(a: Mem, fa: Mem, b: Mem, fb: Mem)
    requires Alike(a, fa) && Alike(b, fb) && Later(fa, fb)
    ensures Later(a, b)
  {
    forall k {:trigger Remembers(a, b, k)} | k in a.records ensures Remembers(a, b, k) {
      assert SameCore(a, fa, k);
      assert Remembers(fa, fb, k);
      assert SameCore(b, fb, k);
    }
  }
}

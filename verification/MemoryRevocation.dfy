/** What a revocation in src/memory/store.mjs does to every record of the store. */
module MemoryRevocation {
  import opened Wrappers
  import opened MemoryModel
  import opened MemoryLineage

  function Void(r: Rec): Rec {
    if r.authorityRevoked then r else r.(authorityRevoked := true, authority := VOID)
  }

  /** `after` holds the records of `before`, those listed voided and all others as they were. */
  ghost predicate VoidsExactly(before: Mem, after: Mem, ids: seq<string>) {
    && after.order == before.order && after.records.Keys == before.records.Keys
    && forall k {:trigger after.records[k]} :: k in before.records ==>
         after.records[k] == if k in ids then Void(before.records[k]) else before.records[k]
  }

  lemma {:induction false} EachIsVoided(w: World, ids: seq<string>)
    requires WellFiled(w.mem) && forall k :: k in ids ==> k in w.mem.records && w.mem.records[k].id == k
    ensures VoidsExactly(w.mem, RevokeEach(w, ids).mem, ids)
    decreases ids
  {
    if ids != [] {
      var r := w.mem.records[ids[0]];
      var next := if r.authorityRevoked then w else Persist(w, Void(r));
      assert VoidsExactly(w.mem, next.mem, [ids[0]]);
      EachIsVoided(next, ids[1..]);
      var last := RevokeEach(next, ids[1..]).mem;
      forall k {:trigger last.records[k]} | k in w.mem.records
        ensures last.records[k] == if k in ids then Void(w.mem.records[k]) else w.mem.records[k]
      {
        assert k in ids <==> k == ids[0] || k in ids[1..];
      }
    }
  }

  lemma {:induction false} AffectedAre(m: Mem, ids: seq<string>)
    requires forall k :: k in ids ==> k in m.records
    ensures forall k {:trigger k in Affected(m, ids)} :: k in Affected(m, ids) <==> k in ids && !m.records[k].authorityRevoked
    ensures Distinct(ids) ==> Distinct(Affected(m, ids))
  {
    if ids != [] {
      AffectedAre(m, ids[1..]);
      forall k ensures k in ids <==> k == ids[0] || k in ids[1..] { }
      if Distinct(ids) {
        assert Distinct(ids[1..]) && ids[0] !in ids[1..];
        assert ids[0] !in Affected(m, ids[1..]);
      }
    }
  }

  /** Equal as multisets, for lists without repetition: equal as sets. */
  lemma {:induction false} CountDistinct(s: seq<string>)
    ensures Distinct(s) <==> forall x {:trigger multiset(s)[x]} :: multiset(s)[x] <= 1
  {
    if s != [] {
      var n := |s| - 1;
      assert s == s[..n] + [s[n]];
      CountDistinct(s[..n]);
      assert forall x {:trigger multiset(s)[x]} :: multiset(s)[x] == multiset(s[..n])[x] + (if x == s[n] then 1 else 0);
      if Distinct(s) {
        assert s[n] !in s[..n];
        assert s[n] !in multiset(s[..n]);
      } else if Distinct(s[..n]) {
        var i, j :| 0 <= i < j < |s| && s[i] == s[j];
        assert j == n && s[..n][i] == s[n];
        assert s[n] in multiset(s[..n]);
        assert multiset(s)[s[n]] > 1;
      } else {
        var x :| multiset(s[..n])[x] > 1;
        assert multiset(s)[x] > 1;
      }
    }
  }

  lemma SameListing(e: seq<string>, c: seq<string>)
    requires Distinct(c)
    ensures multiset(e) == multiset(c) <==> Distinct(e) && SetOf(e) == SetOf(c)
  {
    CountDistinct(e);
    CountDistinct(c);
    if multiset(e) == multiset(c) {
      forall x ensures x in SetOf(e) <==> x in SetOf(c) {
        assert x in e <==> x in multiset(e);
        assert x in c <==> x in multiset(c);
      }
    }
    if Distinct(e) && SetOf(e) == SetOf(c) {
      forall x ensures multiset(e)[x] == multiset(c)[x] {
        assert x in multiset(e) <==> x in SetOf(e);
        assert x in multiset(c) <==> x in SetOf(c);
        assert multiset(e)[x] <= 1 && multiset(c)[x] <= 1;
      }
    }
  }

  /** What the revoked source and everything derived from it becomes, and what everything else stays. */
  ghost function Outcome(m: Mem, source: string, k: string): Rec
    requires k in m.records
  {
    var r := m.records[k];
    if Reachable(m, source, k) then Void(if k == source then r.(revoked := true) else r) else r
  }

  /** The caller's expectation, spelled out: each reachable record listed once and none else, and all of them pass. */
  ghost predicate Expected(m: Mem, source: string, expected: Option<seq<string>>, check: Rec -> bool) {
    && (expected.Some? ==>
          && Distinct(expected.value)
          && forall k {:trigger Reachable(m, source, k)} :: k in expected.value <==> Reachable(m, source, k))
    && forall k {:trigger Reachable(m, source, k)} :: Reachable(m, source, k) && k in m.records ==> check(m.records[k])
  }

  lemma ExpectationMet(m: Mem, source: string, expected: Option<seq<string>>, check: Rec -> bool)
    requires WellFiled(m) && source in m.records
    ensures forall k :: k in Closure(m, source) ==> k in m.records
    ensures MayRevoke(m, Closure(m, source), expected, check) <==> Expected(m, source, expected, check)
  {
    ClosureIsExact(m, source);
    var c := Closure(m, source);
    if expected.Some? {
      SameListing(expected.value, c);
      if SetOf(expected.value) == SetOf(c) {
        forall k {:trigger Reachable(m, source, k)} ensures k in expected.value <==> Reachable(m, source, k) {
          assert k in SetOf(expected.value) <==> k in SetOf(c);
        }
      }
    }
    if MayRevoke(m, c, expected, check) {
      forall k {:trigger Reachable(m, source, k)} | Reachable(m, source, k) && k in m.records ensures check(m.records[k]) {
        var i :| 0 <= i < |c| && c[i] == k;
      }
    }
    if Expected(m, source, expected, check) {
      if expected.Some? {
        forall k ensures k in SetOf(expected.value) <==> k in SetOf(c) {
          assert k in expected.value <==> Reachable(m, source, k);
          assert k in c <==> Reachable(m, source, k);
        }
        assert SetOf(expected.value) == SetOf(c);
      }
      forall i | 0 <= i < |c| ensures check(m.records[c[i]]) { assert Reachable(m, source, c[i]); }
    }
  }

  /** Every record of `m` met its outcome in `after`, which holds one note more. */
  ghost predicate Decided(m: Mem, after: Mem, source: string, markerId: string) {
    && after.order == m.order + [markerId]
    && after.records.Keys == m.records.Keys + {markerId}
    && after.records[markerId].authority == VOID && !after.records[markerId].authorityRevoked
    && after.records[markerId].derivedFrom == [source]
    && forall k {:trigger after.records[k]} :: k in m.records && k != markerId ==> after.records[k] == Outcome(m, source, k)
  }

  /** The revocation loop, run over the closure of the flagged source. */
  lemma LoopOutcome(w: World, source: string)
    requires WellFiled(w.mem) && source in w.mem.records
    ensures var voided := RevokeAll(w, source).mem;
            && voided.order == w.mem.order && voided.records.Keys == w.mem.records.Keys
            && forall k {:trigger voided.records[k]} :: k in w.mem.records ==> voided.records[k] == Outcome(w.mem, source, k)
  {
    var flagged, c := Touch(w, w.mem.records[source].(revoked := true)), Closure(w.mem, source);
    ClosureIsExact(w.mem, source);
    ClosureIsFiled(w.mem, source);
    EachIsVoided(flagged, c);
    ReachesItself(w.mem, source);
    var voided := RevokeEach(flagged, c).mem;
    forall k {:trigger voided.records[k]} | k in w.mem.records ensures voided.records[k] == Outcome(w.mem, source, k) {
      assert voided.records[k] == if k in c then Void(flagged.mem.records[k]) else flagged.mem.records[k];
    }
  }

  lemma NoteIsAppended(w: World, source: string, reason: string, expected: Option<seq<string>>, check: Rec -> bool, markerId: string)
    requires WellFiled(w.mem) && markerId != ""
    requires source in w.mem.records && Expected(w.mem, source, expected, check)
    ensures RevokeSource(w, source, reason, expected, check, markerId).0
            == Persist(RevokeAll(w, source), RevocationNote(w.mem, source, reason, markerId))
    ensures forall k :: k in Closure(w.mem, source) ==> k in w.mem.records
    ensures RevokeSource(w, source, reason, expected, check, markerId).1 == Ok(Affected(w.mem, Closure(w.mem, source)))
  {
    ClosureIsFiled(w.mem, source);
    ExpectationMet(w.mem, source, expected, check);
    assert CheckAppend(RevocationNote(w.mem, source, reason, markerId)).None?;
  }

  /** A successful revocation decides every record of the store, and lists what it voided. */
  lemma RevocationIsExact(w: World, source: string, reason: string, expected: Option<seq<string>>, check: Rec -> bool, markerId: string)
    requires WellFiled(w.mem) && markerId != "" && markerId !in w.mem.records
    requires source in w.mem.records && Expected(w.mem, source, expected, check)
    ensures RevokeSource(w, source, reason, expected, check, markerId).1.Ok?
    ensures Decided(w.mem, RevokeSource(w, source, reason, expected, check, markerId).0.mem, source, markerId)
    ensures var affected := RevokeSource(w, source, reason, expected, check, markerId).1.value;
            && Distinct(affected)
            && forall k {:trigger k in affected} :: k in affected <==>
                 k in w.mem.records && Reachable(w.mem, source, k) && !w.mem.records[k].authorityRevoked
  {
    ClosureIsExact(w.mem, source);
    NoteIsAppended(w, source, reason, expected, check, markerId);
    AffectedAre(w.mem, Closure(w.mem, source));
    LoopOutcome(w, source);
  }

  /** It is refused, and changes nothing, exactly when the source is unknown or the expectation is not met. */
  lemma RevocationRefusedIff(w: World, source: string, reason: string, expected: Option<seq<string>>, check: Rec -> bool, markerId: string)
    requires WellFiled(w.mem) && markerId != "" && markerId !in w.mem.records
    ensures var (v, r) := RevokeSource(w, source, reason, expected, check, markerId);
            && (r.Ok? <==> source in w.mem.records && Expected(w.mem, source, expected, check))
            && (r.Err? ==> v == w)
  {
    if source in w.mem.records {
      ExpectationMet(w.mem, source, expected, check);
      if Expected(w.mem, source, expected, check) {
        RevocationIsExact(w, source, reason, expected, check, markerId);
      }
    }
  }
}

/**
 * What a crash in the middle of a revocation leaves: the revocation loop of
 * src/memory/store.mjs writes one line for each record that it voids, in the
 * order of the closure, and the note last.
 */
module MemoryCuts {
  import opened Wrappers
  import opened MemoryModel
  import opened MemoryLineage
  import opened MemoryRevocation
  import opened MemoryRuns
  import opened MemoryAuthority

  // ---------------------------------------------------------------- the lines of a revocation

  function VoidLines(m: Mem, ids: seq<string>): (lines: seq<Rec>)
    requires forall k :: k in ids ==> k in m.records
    ensures |lines| == |ids| && forall i {:trigger lines[i]} :: 0 <= i < |ids| ==> ids[i] in ids && lines[i] == Void(m.records[ids[i]])
  {
    seq(|ids|, i requires 0 <= i < |ids| => assert ids[i] in ids; Void(m.records[ids[i]]))
  }

  /** What the loop writes for a list of ids depends on the listed records alone. */
  lemma {:induction false} AffectedLocal(m: Mem, n: Mem, ids: seq<string>)
    requires forall k :: k in ids ==> k in m.records && k in n.records && m.records[k].authorityRevoked == n.records[k].authorityRevoked
    ensures Affected(m, ids) == Affected(n, ids)
  {
    if ids != [] { AffectedLocal(m, n, ids[1..]); }
  }

  lemma {:induction false} AffectedInside(m: Mem, ids: seq<string>)
    requires forall k :: k in ids ==> k in m.records
    ensures forall k {:trigger k in Affected(m, ids)} :: k in Affected(m, ids) ==> k in ids && k in m.records && !m.records[k].authorityRevoked
  {
    AffectedAre(m, ids);
  }

  lemma VoidLinesLocal(m: Mem, n: Mem, ids: seq<string>)
    requires forall k :: k in ids ==> k in m.records && k in n.records && m.records[k] == n.records[k]
    ensures VoidLines(m, ids) == VoidLines(n, ids)
  {
    forall i | 0 <= i < |ids| ensures VoidLines(m, ids)[i] == VoidLines(n, ids)[i] { assert ids[i] in ids; }
  }

  /** The lines for the other ids stay the same when one record was voided. */
  lemma OtherLines(m: Mem, r: Rec, rest: seq<string>)
    requires r.id in m.records && r.id !in rest && forall k :: k in rest ==> k in m.records
    ensures Affected(Put(m, r), rest) == Affected(m, rest)
    ensures forall k :: k in Affected(m, rest) ==> k in m.records
    ensures VoidLines(Put(m, r), Affected(m, rest)) == VoidLines(m, Affected(m, rest))
  {
    AffectedLocal(m, Put(m, r), rest);
    AffectedInside(m, rest);
    VoidLinesLocal(m, Put(m, r), Affected(m, rest));
  }

  lemma OneMoreLine(m: Mem, k: string, ids: seq<string>)
    requires k in m.records && forall x :: x in ids ==> x in m.records
    ensures VoidLines(m, [k] + ids) == [Void(m.records[k])] + VoidLines(m, ids)
  {
  }

  lemma {:induction false} EachWrites(w: World, ids: seq<string>)
    requires Distinct(ids) && forall k :: k in ids ==> k in w.mem.records && w.mem.records[k].id == k
    ensures forall k :: k in Affected(w.mem, ids) ==> k in w.mem.records
    ensures RevokeEach(w, ids).log == w.log + VoidLines(w.mem, Affected(w.mem, ids))
    decreases ids
  {
    AffectedInside(w.mem, ids);
    if ids != [] {
      var r, rest := w.mem.records[ids[0]], ids[1..];
      assert ids[0] !in rest && Distinct(rest);
      if r.authorityRevoked {
        EachWrites(w, rest);
      } else {
        var next := Persist(w, Void(r));
        EachWrites(next, rest);
        OtherLines(w.mem, Void(r), rest);
        OneMoreLine(w.mem, ids[0], Affected(w.mem, rest));
        Regrouped(w.log, Void(r), VoidLines(w.mem, Affected(w.mem, rest)));
      }
    }
  }

  lemma Regrouped(log: seq<Rec>, r: Rec, lines: seq<Rec>)
    ensures (log + [r]) + lines == log + ([r] + lines)
  {
  }

  /** The whole loop: one line for each record of the closure that is not void yet. */
  lemma RevokeAllWrites(w: World, source: string)
    requires WellFiled(w.mem) && source in w.mem.records
    ensures forall k :: k in Closure(w.mem, source) ==> k in w.mem.records
    ensures var hit, flagged := Affected(w.mem, Closure(w.mem, source)), Put(w.mem, w.mem.records[source].(revoked := true));
            && (forall k :: k in hit ==> k in flagged.records)
            && RevokeAll(w, source).log == w.log + VoidLines(flagged, hit)
  {
    var c := Closure(w.mem, source);
    ClosureIsFiled(w.mem, source);
    ClosureIsExact(w.mem, source);
    var flagged := Touch(w, w.mem.records[source].(revoked := true));
    EachWrites(flagged, c);
    AffectedLocal(w.mem, flagged.mem, c);
  }

  // ---------------------------------------------------------------- what some of the lines do

  /** Authority and sources of `k` in `n`, when the records of `voided` lost theirs since `m`. */
  ghost predicate VoidedAt(m: Mem, n: Mem, voided: set<string>, k: string) {
    && k in m.records && k in n.records && n.records[k].derivedFrom == m.records[k].derivedFrom
    && n.records[k].authority == if k in voided then VOID else m.records[k].authority
  }

  ghost predicate VoidedIn(m: Mem, n: Mem, voided: set<string>) {
    forall k {:trigger VoidedAt(m, n, voided, k)} :: k in m.records ==> VoidedAt(m, n, voided, k)
  }

  /** The line voids a record of `m` and keeps its sources. */
  ghost predicate Voids(m: Mem, r: Rec, k: string) {
    r.id == k && k in m.records && r.authority == VOID && r.derivedFrom == m.records[k].derivedFrom
  }

  lemma {:induction false} LinesVoid(log: seq<Rec>, lines: seq<Rec>, ids: seq<string>)
    requires |lines| == |ids|
    requires forall i {:trigger lines[i]} :: 0 <= i < |lines| ==> Voids(FoldLog(log), lines[i], ids[i])
    ensures VoidedIn(FoldLog(log), FoldLog(log + lines), SetOf(ids))
    decreases |lines|
  {
    var m := FoldLog(log);
    if lines == [] {
      assert log + lines == log;
      forall k {:trigger VoidedAt(m, m, SetOf(ids), k)} | k in m.records ensures VoidedAt(m, m, SetOf(ids), k) { }
    } else {
      var n := |lines| - 1;
      LinesVoid(log, lines[..n], ids[..n]);
      assert log + lines == log + lines[..n] + [lines[n]];
      FoldSnoc(log + lines[..n], lines[n]);
      assert Voids(m, lines[n], ids[n]);
      var before, after := FoldLog(log + lines[..n]), FoldLog(log + lines);
      forall k {:trigger VoidedAt(m, after, SetOf(ids), k)} | k in m.records ensures VoidedAt(m, after, SetOf(ids), k) {
        assert VoidedAt(m, before, SetOf(ids[..n]), k);
        assert k in ids <==> k in ids[..n] || k == ids[n] by { assert ids == ids[..n] + [ids[n]]; }
      }
    }
  }

  /** A new record changes nothing about the others. */
  lemma NewRecordVoidsNothing(m: Mem, n: Mem, voided: set<string>, r: Rec)
    requires VoidedIn(m, n, voided) && r.id !in m.records
    ensures VoidedIn(m, Put(n, r), voided)
  {
    forall k {:trigger VoidedAt(m, Put(n, r), voided, k)} | k in m.records ensures VoidedAt(m, Put(n, r), voided, k) {
      assert VoidedAt(m, n, voided, k);
    }
  }

  lemma AlikeVoidedIn(a: Mem, b: Mem, n: Mem, voided: set<string>)
    requires Alike(a, b) && VoidedIn(b, n, voided)
    ensures VoidedIn(a, n, voided)
  {
    forall k {:trigger VoidedAt(a, n, voided, k)} | k in a.records ensures VoidedAt(a, n, voided, k) {
      assert SameCore(a, b, k) && VoidedAt(b, n, voided, k);
      assert Core(a.records[k]).authority == a.records[k].authority && Core(b.records[k]).authority == b.records[k].authority;
      assert Core(a.records[k]).derivedFrom == a.records[k].derivedFrom && Core(b.records[k]).derivedFrom == b.records[k].derivedFrom;
    }
  }

  // ---------------------------------------------------------------- cuts

  function Least(a: nat, b: nat): nat {
    if a <= b then a else b
  }

  /** The ids that a revocation voids, in the order of its lines: none when it is refused. */
  function VoidOrder(m: Mem, source: string, expected: Option<seq<string>>, check: Rec -> bool): seq<string>
    requires WellFiled(m)
  {
    if source !in m.records then []
    else
      ClosureIsFiled(m, source);
      if MayRevoke(m, Closure(m, source), expected, check) then Affected(m, Closure(m, source)) else []
  }

  /** The records that the first `n` lines of a revocation void. */
  function VoidedBy(m: Mem, source: string, expected: Option<seq<string>>, check: Rec -> bool, n: nat): set<string>
    requires WellFiled(m)
  {
    var order := VoidOrder(m, source, expected, check);
    SetOf(order[..Least(n, |order|)])
  }

  lemma VoidOrderAreRecords(m: Mem, source: string, expected: Option<seq<string>>, check: Rec -> bool)
    requires WellFiled(m)
    ensures forall k :: k in VoidOrder(m, source, expected, check) ==> k in m.records
  {
    if source in m.records {
      ClosureIsFiled(m, source);
      AffectedInside(m, Closure(m, source));
    }
  }

  lemma VoidedAreRecords(m: Mem, source: string, expected: Option<seq<string>>, check: Rec -> bool, n: nat)
    requires WellFiled(m)
    ensures VoidedBy(m, source, expected, check, n) <= m.records.Keys
  {
    VoidOrderAreRecords(m, source, expected, check);
    var order := VoidOrder(m, source, expected, check);
    forall k | k in order[..Least(n, |order|)] ensures k in m.records { assert k in order; }
  }

  lemma RevocationLines(w: World, source: string, reason: string, expected: Option<seq<string>>, check: Rec -> bool, markerId: string)
    requires WellFiled(w.mem) && markerId != "" && markerId !in w.mem.records
    requires source in w.mem.records && Expected(w.mem, source, expected, check)
    ensures var order := VoidOrder(w.mem, source, expected, check);
            var flagged := Put(w.mem, w.mem.records[source].(revoked := true));
            && (forall k :: k in order ==> k in flagged.records && !w.mem.records[k].authorityRevoked && k in w.mem.records)
            && RevokeSource(w, source, reason, expected, check, markerId).0.log
               == w.log + VoidLines(flagged, order) + [RevocationNote(w.mem, source, reason, markerId)]
  {
    ExpectationMet(w.mem, source, expected, check);
    NoteIsAppended(w, source, reason, expected, check, markerId);
    RevokeAllWrites(w, source);
    AffectedInside(w.mem, Closure(w.mem, source));
  }

  lemma LinesAreVoids(w: World, source: string, ids: seq<string>)
    requires WellFiled(w.mem) && Alike(w.mem, FoldLog(w.log)) && source in w.mem.records
    requires forall k :: k in ids ==> k in w.mem.records && !w.mem.records[k].authorityRevoked
    ensures var lines := VoidLines(Put(w.mem, w.mem.records[source].(revoked := true)), ids);
            forall i {:trigger lines[i]} :: 0 <= i < |lines| ==> Voids(FoldLog(w.log), lines[i], ids[i])
  {
    var flagged := Put(w.mem, w.mem.records[source].(revoked := true));
    var lines := VoidLines(flagged, ids);
    forall i {:trigger lines[i]} | 0 <= i < |lines| ensures Voids(FoldLog(w.log), lines[i], ids[i]) {
      assert ids[i] in ids;
      assert SameCore(w.mem, FoldLog(w.log), ids[i]);
      assert Core(w.mem.records[ids[i]]).derivedFrom == Core(FoldLog(w.log).records[ids[i]]).derivedFrom;
    }
  }

  /** The log after any number of a revocation's lines: exactly the records of those lines are void that were not. */
  lemma PartVoids(w: World, source: string, reason: string, expected: Option<seq<string>>, check: Rec -> bool, markerId: string,
                  full: seq<Rec>, written: nat)
    requires WellFiled(w.mem) && Alike(w.mem, FoldLog(w.log)) && markerId != "" && markerId !in w.mem.records
    requires full == RevokeSource(w, source, reason, expected, check, markerId).0.log && |w.log| <= written <= |full|
    ensures VoidedIn(w.mem, FoldLog(full[..written]), VoidedBy(w.mem, source, expected, check, written - |w.log|))
  {
    RevocationRefusedIff(w, source, reason, expected, check, markerId);
    if source in w.mem.records && Expected(w.mem, source, expected, check) {
      RevocationLines(w, source, reason, expected, check, markerId);
      PrefixVoids(w, source, VoidOrder(w.mem, source, expected, check), RevocationNote(w.mem, source, reason, markerId), full, written);
    } else {
      if source in w.mem.records { ExpectationMet(w.mem, source, expected, check); }
      assert full[..written] == w.log;
      NothingVoids(w);
    }
  }

  lemma PartOfDoVoids(w: World, op: Op, written: nat)
    requires op.Revoke? && WellFiled(w.mem) && Alike(w.mem, FoldLog(w.log)) && UsesFreshId(w.mem, op)
    requires |w.log| <= written <= |Do(w, op).log|
    ensures VoidedIn(w.mem, FoldLog(Do(w, op).log[..written]), VoidedBy(w.mem, op.source, op.expected, op.check, written - |w.log|))
  {
    PartVoids(w, op.source, op.reason, op.expected, op.check, op.markerId, Do(w, op).log, written);
  }

  lemma NothingVoids(w: World)
    requires Alike(w.mem, FoldLog(w.log))
    ensures VoidedIn(w.mem, FoldLog(w.log), SetOf([]))
  {
    LinesVoid(w.log, [], []);
    assert w.log + [] == w.log;
    AlikeVoidedIn(w.mem, FoldLog(w.log), FoldLog(w.log), SetOf([]));
  }

  lemma SomeLinesVoid(w: World, source: string, order: seq<string>, k: nat)
    requires WellFiled(w.mem) && Alike(w.mem, FoldLog(w.log)) && source in w.mem.records && k <= |order|
    requires forall k :: k in order ==> k in w.mem.records && !w.mem.records[k].authorityRevoked
    ensures var lines := VoidLines(Put(w.mem, w.mem.records[source].(revoked := true)), order);
            |lines| == |order| && VoidedIn(w.mem, FoldLog(w.log + lines[..k]), SetOf(order[..k]))
  {
    var lines := VoidLines(Put(w.mem, w.mem.records[source].(revoked := true)), order);
    LinesAreVoids(w, source, order);
    var some := lines[..k];
    forall i {:trigger some[i]} | 0 <= i < k ensures Voids(FoldLog(w.log), some[i], order[..k][i]) {
      assert Voids(FoldLog(w.log), lines[i], order[i]);
    }
    LinesVoid(w.log, some, order[..k]);
    AlikeVoidedIn(w.mem, FoldLog(w.log), FoldLog(w.log + some), SetOf(order[..k]));
  }

  lemma PrefixVoids(w: World, source: string, order: seq<string>, note: Rec, full: seq<Rec>, written: nat)
    requires WellFiled(w.mem) && Alike(w.mem, FoldLog(w.log)) && source in w.mem.records && note.id !in w.mem.records
    requires forall k :: k in order ==> k in w.mem.records && !w.mem.records[k].authorityRevoked
    requires full == w.log + VoidLines(Put(w.mem, w.mem.records[source].(revoked := true)), order) + [note]
    requires |w.log| <= written <= |full|
    ensures VoidedIn(w.mem, FoldLog(full[..written]), SetOf(order[..Least(written - |w.log|, |order|)]))
  {
    var flagged := Put(w.mem, w.mem.records[source].(revoked := true));
    var lines, k := VoidLines(flagged, order), Least(written - |w.log|, |order|);
    SomeLinesVoid(w, source, order, k);
    if written - |w.log| <= |order| {
      assert full[..written] == w.log + lines[..k];
    } else {
      assert full[..written] == w.log + lines[..k] + [note];
      FoldSnoc(w.log + lines[..k], note);
      NewRecordVoidsNothing(w.mem, FoldLog(w.log + lines[..k]), SetOf(order[..k]), note);
    }
  }

  // ---------------------------------------------------------------- caps after a cut

  /** `k` was made from a voided record, was not voided itself, and has authority left. */
  predicate LeftOver(m: Mem, voided: set<string>, k: string)
    requires k in m.records
  {
    k !in voided && m.records[k].authority != VOID && exists s :: s in m.records[k].derivedFrom && s in voided
  }

  predicate NothingLeft(m: Mem, made: set<string>, voided: set<string>) {
    forall k :: k in made && k in m.records ==> !LeftOver(m, voided, k)
  }

  lemma AtMostVoid(a: Authority)
    ensures AtMost(a, VOID) <==> a == VOID
  {
  }

  lemma LeftOverBreaksCap(m: Mem, n: Mem, voided: set<string>, k: string)
    requires VoidedIn(m, n, voided) && voided <= m.records.Keys && k in m.records && LeftOver(m, voided, k)
    ensures !CapHolds(n, {}, k)
  {
    var s :| s in m.records[k].derivedFrom && s in voided;
    assert VoidedAt(m, n, voided, k) && VoidedAt(m, n, voided, s);
    AtMostVoid(m.records[k].authority);
    assert !Caps(n, {}, s, n.records[k].authority);
  }

  lemma CapStays(m: Mem, n: Mem, voided: set<string>, k: string)
    requires VoidedIn(m, n, voided) && CapHolds(m, {}, k) && !LeftOver(m, voided, k)
    ensures CapHolds(n, {}, k)
  {
    assert VoidedAt(m, n, voided, k);
    var a := n.records[k].authority;
    forall s | s in m.records[k].derivedFrom ensures s in n.records && Caps(n, {}, s, a) {
      assert Caps(m, {}, s, m.records[k].authority) && VoidedAt(m, n, voided, s);
      AtMostVoid(a);
    }
  }

  /** Once some records were voided, every cap holds exactly when nothing made from them is left over. */
  lemma VoidedCappedIff(m: Mem, n: Mem, made: set<string>, voided: set<string>)
    requires VoidedIn(m, n, voided) && voided <= m.records.Keys && Capped(m, made, {}) && made <= m.records.Keys
    ensures Capped(n, made, {}) <==> NothingLeft(m, made, voided)
  {
    if Capped(n, made, {}) {
      forall k | k in made && k in m.records ensures !LeftOver(m, voided, k) {
        assert VoidedAt(m, n, voided, k);
        assert CapHolds(n, {}, k);
        if LeftOver(m, voided, k) { LeftOverBreaksCap(m, n, voided, k); }
      }
    }
    if NothingLeft(m, made, voided) {
      forall k {:trigger CapHolds(n, {}, k)} | k in made && k in n.records ensures CapHolds(n, {}, k) {
        assert CapHolds(m, {}, k);
        CapStays(m, n, voided, k);
      }
    }
  }
}

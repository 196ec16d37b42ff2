/**
 * The operations of the memory store (src/memory/store.mjs) as data, what
 * memory and log always agree on, and the lines that raise nobody's authority.
 */
module MemoryRuns {
  import opened Wrappers
  import opened MemoryModel
  import opened MemoryLineage
  import opened MemoryRevocation

  datatype Op =
    | Add(input: Rec)
    | Replace(oldId: string, next: Rec, derived: Option<seq<string>>, links: Option<set<string>>)
    | Contradict(a: string, b: string, why: string, noteId: string)
    | Merge(ids: seq<string>, content: string, opts: Options, mergedId: string)
    | Derive(sources: seq<string>, text: string, steps: Option<Steps>, dopts: Options, derivedId: string)
    | Revoke(source: string, reason: string, expected: Option<seq<string>>, check: Rec -> bool, markerId: string)
    | Remove(id: string)
    | Retain(scope: string)

  function Do(w: World, op: Op): World
    requires WellFiled(w.mem)
  {
    match op
    case Add(input) => Append(w, input).0
    case Replace(oldId, next, derived, links) => Supersede(w, oldId, next, derived, links).0
    case Contradict(a, b, why, noteId) => Conflict(w, a, b, why, noteId).0
    case Merge(ids, content, opts, mergedId) => Consolidate(w, ids, content, opts, mergedId).0
    case Derive(sources, text, steps, dopts, derivedId) => DeriveProcedure(w, sources, text, steps, dopts, derivedId).0
    case Revoke(source, reason, expected, check, markerId) => RevokeSource(w, source, reason, expected, check, markerId).0
    case Remove(id) => Delete(w, id).0
    case Retain(scope) =>
      FiledUnderOrder(w.mem);
      Sweep(w, scope, w.mem.order)
  }

  lemma FiledUnderOrder(m: Mem)
    requires WellFiled(m)
    ensures forall k :: k in m.order ==> k in m.records && m.records[k].id == k
  {
    forall k | k in m.order ensures k in m.records { assert k in SetOf(m.order); }
  }

  /** The id of the record an operation creates. */
  function NewId(op: Op): Option<string> {
    match op
    case Add(input) => Some(input.id)
    case Replace(_, next, _, _) => Some(next.id)
    case Contradict(_, _, _, noteId) => Some(noteId)
    case Merge(_, _, _, mergedId) => Some(mergedId)
    case Derive(_, _, _, _, derivedId) => Some(derivedId)
    case Revoke(_, _, _, _, markerId) => Some(markerId)
    case _ => None
  }

  /** Ids are generated: not empty, and not in use. */
  predicate UsesFreshId(m: Mem, op: Op) {
    NewId(op).Some? ==> NewId(op).value != "" && NewId(op).value !in m.records
  }

  predicate MakesDerived(op: Op) {
    op.Merge? || op.Derive?
  }

  // ---------------------------------------------------------------- what memory and log agree on

  /** The part of a record that memory and log always agree on. */
  function Core(r: Rec): Rec {
    r.(revoked := false, steps := None)
  }

  ghost predicate SameCore(a: Mem, b: Mem, k: string) {
    k in a.records && k in b.records && Core(a.records[k]) == Core(b.records[k])
  }

  ghost predicate Alike(a: Mem, b: Mem) {
    && a.order == b.order && a.records.Keys == b.records.Keys
    && forall k {:trigger SameCore(a, b, k)} :: k in a.records ==> SameCore(a, b, k)
  }

  /** Memory and log make the same step when a line is written. */
  lemma PutAlike(a: Mem, b: Mem, r: Rec)
    requires Alike(a, b)
    ensures Alike(Put(a, r), Put(b, r))
  {
    forall k {:trigger SameCore(Put(a, r), Put(b, r), k)} | k in Put(a, r).records ensures SameCore(Put(a, r), Put(b, r), k) {
      assert k != r.id ==> SameCore(a, b, k);
    }
  }

  /** The part of a record that no operation changes. */
  function Lasting(r: Rec): Rec {
    r.(content := "", authority := VOID, conflicts := {}, revoked := false, authorityRevoked := false, steps := None, deleted := false)
  }

  /** `k` is what it was, and in particular has the same sources. */
  ghost predicate SameSources(a: Mem, b: Mem, k: string) {
    k in a.records && k in b.records && Lasting(a.records[k]) == Lasting(b.records[k])
  }

  ghost predicate KeepsLineage(a: Mem, b: Mem) {
    forall k {:trigger SameSources(a, b, k)} :: k in a.records ==> SameSources(a, b, k)
  }

  lemma StillReachable(a: Mem, b: Mem, s: string, k: string)
    requires KeepsLineage(a, b) && Reachable(a, s, k)
    ensures Reachable(b, s, k)
  {
    var p :| Connects(a, s, k, p);
    forall i {:trigger Linked(b, p, i)} | 0 <= i < |p| - 1 ensures Linked(b, p, i) {
      assert Linked(a, p, i);
      assert SameSources(a, b, p[i + 1]);
    }
    assert Connects(b, s, k, p);
  }

  // ---------------------------------------------------------------- authority

  /** A record of memory: of no assurance kind, and without a use that would permit an execution. */
  predicate Proper(r: Rec) {
    MemoryKind(r.kind) && forall u :: u in r.authority.uses ==> !ForbiddenUse(u)
  }

  /** Every record is proper, and has no authority once it was revoked. */
  ghost predicate Voided(m: Mem) {
    forall k {:trigger m.records[k]} :: k in m.records ==>
      Proper(m.records[k]) && (m.records[k].authorityRevoked ==> m.records[k].authority == VOID)
  }

  predicate AtMost(a: Authority, b: Authority) {
    Order(a.cls) <= Order(b.cls) && a.uses <= b.uses
  }

  /** `a` is within what source `s` still allows, and `s` lies outside `cut`. */
  ghost predicate Caps(m: Mem, cut: set<string>, s: string, a: Authority) {
    s in m.records && s !in cut && AtMost(a, m.records[s].authority)
  }

  ghost predicate CappedBy(m: Mem, cut: set<string>, a: Authority, sources: seq<string>) {
    forall s {:trigger Caps(m, cut, s, a)} :: s in sources ==> Caps(m, cut, s, a)
  }

  /**
   * The sources of `k` exist, and `k` has no more authority than any of them.
   * An interrupted revocation excuses the records in `cut`, which it was to reach.
   */
  ghost predicate CapHolds(m: Mem, cut: set<string>, k: string) {
    && k in m.records
    && (forall s :: s in m.records[k].derivedFrom ==> s in m.records)
    && (k in cut || CappedBy(m, cut, m.records[k].authority, m.records[k].derivedFrom))
  }

  ghost predicate Capped(m: Mem, made: set<string>, cut: set<string>) {
    forall k {:trigger CapHolds(m, cut, k)} :: k in made && k in m.records ==> CapHolds(m, cut, k)
  }

  ghost predicate Sound(m: Mem, made: set<string>, cut: set<string>) {
    WellFiled(m) && Voided(m) && Capped(m, made, cut)
  }

  /** A line that raises nobody's authority, and lowers it only inside `cut`. */
  ghost predicate Allowed(m: Mem, made: set<string>, cut: set<string>, r: Rec) {
    && Proper(r) && (r.authorityRevoked ==> r.authority == VOID)
    && if r.id in m.records then
         var o := m.records[r.id];
         && Lasting(r) == Lasting(o) && (o.authorityRevoked ==> r.authorityRevoked)
         && (r.authority == o.authority || (r.authority == VOID && r.id in cut))
       else r.id in made ==> CappedBy(m, cut, r.authority, r.derivedFrom)
  }

  lemma PutFiles(m: Mem, r: Rec)
    requires WellFiled(m)
    ensures WellFiled(Put(m, r))
  {
    var n := Put(m, r);
    assert r.id !in m.records ==> r.id !in SetOf(m.order);
    forall x ensures x in SetOf(n.order) <==> x in n.records.Keys {
      assert x in SetOf(m.order) <==> x in m.records.Keys;
    }
    assert SetOf(n.order) == n.records.Keys;
  }

  lemma CapSurvives(m: Mem, made: set<string>, cut: set<string>, r: Rec, k: string)
    requires Allowed(m, made, cut, r) && CapHolds(m, cut, k)
    ensures CapHolds(Put(m, r), cut, k)
  {
    var n := Put(m, r);
    if k !in cut {
      var a := m.records[k].authority;
      forall s {:trigger Caps(n, cut, s, a)} | s in n.records[k].derivedFrom ensures Caps(n, cut, s, a) {
        assert Caps(m, cut, s, a);
      }
    }
  }

  lemma AllowedKeepsSound(m: Mem, made: set<string>, cut: set<string>, r: Rec)
    requires Sound(m, made, cut) && Allowed(m, made, cut, r)
    ensures Sound(Put(m, r), made, cut)
  {
    PutFiles(m, r);
    var n := Put(m, r);
    forall k {:trigger CapHolds(n, cut, k)} | k in made && k in n.records ensures CapHolds(n, cut, k) {
      if k in m.records {
        CapSurvives(m, made, cut, r, k);
      } else {
        forall s {:trigger Caps(n, cut, s, r.authority)} | s in r.derivedFrom ensures Caps(n, cut, s, r.authority) {
          assert Caps(m, cut, s, r.authority);
        }
        forall s | s in r.derivedFrom ensures s in n.records { assert Caps(m, cut, s, r.authority); }
      }
    }
  }

  lemma AlikeCaps(a: Mem, b: Mem, cut: set<string>, x: Authority, sources: seq<string>)
    requires Alike(a, b) && CappedBy(a, cut, x, sources)
    ensures CappedBy(b, cut, x, sources)
  {
    forall s {:trigger Caps(b, cut, s, x)} | s in sources ensures Caps(b, cut, s, x) {
      assert Caps(a, cut, s, x) && SameCore(a, b, s);
    }
  }

  lemma AlikeAllows(a: Mem, b: Mem, made: set<string>, cut: set<string>, r: Rec)
    requires Alike(a, b) && Allowed(a, made, cut, r)
    ensures Allowed(b, made, cut, r)
  {
    if r.id in a.records {
      assert SameCore(a, b, r.id);
    } else if r.id in made {
      AlikeCaps(a, b, cut, r.authority, r.derivedFrom);
    }
  }

  /** Soundness looks only at what memory and log agree on. */
  lemma AlikeSound(a: Mem, b: Mem, made: set<string>, cut: set<string>)
    requires Alike(a, b) && Sound(a, made, cut)
    ensures Sound(b, made, cut)
  {
    forall k {:trigger b.records[k]} | k in b.records
      ensures b.records[k].id == k
      ensures Proper(b.records[k]) && (b.records[k].authorityRevoked ==> b.records[k].authority == VOID)
    {
      assert SameCore(a, b, k);
      assert Core(b.records[k]).kind == b.records[k].kind && Core(b.records[k]).authority == b.records[k].authority;
    }
    forall k {:trigger CapHolds(b, cut, k)} | k in made && k in b.records ensures CapHolds(b, cut, k) {
      assert CapHolds(a, cut, k) && SameCore(a, b, k);
      if k !in cut { AlikeCaps(a, b, cut, a.records[k].authority, a.records[k].derivedFrom); }
    }
  }

  // ---------------------------------------------------------------- lines of an operation

  ghost predicate LineAllowed(log: seq<Rec>, i: int, made: set<string>, cut: set<string>) {
    0 <= i < |log| && Allowed(FoldLog(log[..i]), made, cut, log[i])
  }

  /** Every line written after `start` was allowed when it was written. */
  ghost predicate Extends(start: seq<Rec>, log: seq<Rec>, made: set<string>, cut: set<string>) {
    && start <= log
    && forall i {:trigger LineAllowed(log, i, made, cut)} :: |start| <= i < |log| ==> LineAllowed(log, i, made, cut)
  }

  /** Nothing is forgotten: records stay as they were, apart from what may change, and so do revocations. */
  ghost predicate Remembers(a: Mem, b: Mem, k: string) {
    && SameSources(a, b, k)
    && (a.records[k].authorityRevoked ==> b.records[k].authorityRevoked)
  }

  ghost predicate Later(a: Mem, b: Mem) {
    a.order <= b.order && forall k {:trigger Remembers(a, b, k)} :: k in a.records ==> Remembers(a, b, k)
  }

  lemma LaterThan(a: Mem, b: Mem, c: Mem)
    requires Later(a, b) && Later(b, c)
    ensures Later(a, c)
  {
    forall k {:trigger Remembers(a, c, k)} | k in a.records ensures Remembers(a, c, k) {
      assert Remembers(a, b, k) && Remembers(b, c, k);
    }
  }

  lemma PutIsLater(m: Mem, made: set<string>, cut: set<string>, r: Rec)
    requires Allowed(m, made, cut, r)
    ensures Later(m, Put(m, r))
  {
    forall k {:trigger Remembers(m, Put(m, r), k)} | k in m.records ensures Remembers(m, Put(m, r), k) { }
  }

  /** After any number of the allowed lines the log is still sound. */
  lemma {:induction false} PrefixSound(start: seq<Rec>, log: seq<Rec>, made: set<string>, cut: set<string>, n: nat)
    requires Extends(start, log, made, cut) && |start| <= n <= |log|
    requires Sound(FoldLog(start), made, cut)
    ensures Sound(FoldLog(log[..n]), made, cut)
    ensures Later(FoldLog(start), FoldLog(log[..n]))
    decreases n
  {
    if n == |start| {
      assert log[..n] == start;
      var m := FoldLog(log[..n]);
      forall k {:trigger Remembers(m, m, k)} | k in m.records ensures Remembers(m, m, k) { }
    } else {
      PrefixSound(start, log, made, cut, n - 1);
      assert LineAllowed(log, n - 1, made, cut);
      assert log[..n - 1] + [log[n - 1]] == log[..n];
      FoldSnoc(log[..n - 1], log[n - 1]);
      AllowedKeepsSound(FoldLog(log[..n - 1]), made, cut, log[n - 1]);
      PutIsLater(FoldLog(log[..n - 1]), made, cut, log[n - 1]);
      LaterThan(FoldLog(start), FoldLog(log[..n - 1]), FoldLog(log[..n]));
    }
  }

  /** Memory follows the log, and the lines after `start` were allowed. */
  ghost predicate Follows(w: World, start: seq<Rec>, made: set<string>, cut: set<string>) {
    Alike(w.mem, FoldLog(w.log)) && Extends(start, w.log, made, cut)
  }

  lemma PersistFollows(w: World, start: seq<Rec>, made: set<string>, cut: set<string>, r: Rec)
    requires Follows(w, start, made, cut) && Allowed(w.mem, made, cut, r)
    ensures Follows(Persist(w, r), start, made, cut)
  {
    var log := w.log + [r];
    FoldSnoc(w.log, r);
    PutAlike(w.mem, FoldLog(w.log), r);
    AlikeAllows(w.mem, FoldLog(w.log), made, cut, r);
    forall i {:trigger LineAllowed(log, i, made, cut)} | |start| <= i < |log| ensures LineAllowed(log, i, made, cut) {
      if i < |w.log| {
        assert LineAllowed(w.log, i, made, cut);
        assert log[..i] == w.log[..i];
      } else {
        assert log[..i] == w.log;
      }
    }
  }

  lemma StartFollows(w: World, made: set<string>, cut: set<string>)
    requires Alike(w.mem, FoldLog(w.log))
    ensures Follows(w, w.log, made, cut)
  {
  }

  /** A change of fields that the log need not know. */
  lemma TouchFollows(w: World, start: seq<Rec>, made: set<string>, cut: set<string>, r: Rec)
    requires Follows(w, start, made, cut) && r.id in w.mem.records && Core(r) == Core(w.mem.records[r.id])
    ensures Follows(Touch(w, r), start, made, cut)
  {
    var n, f := Put(w.mem, r), FoldLog(w.log);
    forall k {:trigger SameCore(n, f, k)} | k in n.records ensures SameCore(n, f, k) { assert SameCore(w.mem, f, k); }
  }

}

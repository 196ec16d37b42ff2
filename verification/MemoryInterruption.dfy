/**
 * A store in which a crash in the middle of a revocation
 * (src/memory/store.mjs) does harm, and a store in which it does so at its
 * second line and not at its first.
 */
module MemoryInterruption {
  import opened Wrappers
  import opened MemoryModel
  import opened MemoryLineage
  import opened MemoryRevocation
  import opened MemoryRuns
  import opened MemoryAuthority
  import opened MemoryCuts
  import opened MemoryTheorems

  function Remark(id: string, from: seq<string>): Rec {
    Rec(id, "semantic", "text", None, Some("v1"), None, Authority(UserStatement, {"inform"}), Observed, "project", None,
        from, None, {}, false, false, None, false)
  }

  /** A chain of three records; `made` says which of them were consolidated. */
  function Chain(made: set<string>): State {
    State(World(Put(Put(Put(NO_RECORDS, Remark("a", [])), Remark("b", ["a"])), Remark("c", ["b"])),
                [Remark("a", []), Remark("b", ["a"]), Remark("c", ["b"])]), made)
  }

  function Lines(): Mem {
    Chain({}).world.mem
  }

  lemma ChainFiles()
    ensures WellFiled(Lines())
  {
    var a, b, c := Remark("a", []), Remark("b", ["a"]), Remark("c", ["b"]);
    PutFiles(NO_RECORDS, a);
    PutFiles(Put(NO_RECORDS, a), b);
    PutFiles(Put(Put(NO_RECORDS, a), b), c);
  }

  lemma ThreeFold(a: Rec, b: Rec, c: Rec)
    ensures FoldLog([a, b, c]) == Put(Put(Put(NO_RECORDS, a), b), c)
  {
    FoldSnoc([], a);
    FoldSnoc([a], b);
    FoldSnoc([a, b], c);
    assert [] + [a] == [a] && [a] + [b] == [a, b] && [a, b] + [c] == [a, b, c];
  }

  lemma ChainFolds()
    ensures WellFiled(Lines()) && FoldLog(Chain({}).world.log) == Lines()
  {
    ChainFiles();
    ThreeFold(Remark("a", []), Remark("b", ["a"]), Remark("c", ["b"]));
  }

  lemma ChainSound(made: set<string>)
    requires made <= {"b", "c"}
    ensures Sound(Lines(), made, {})
  {
    var a, b, c := Remark("a", []), Remark("b", ["a"]), Remark("c", ["b"]);
    assert Sound(NO_RECORDS, made, {});
    AllowedKeepsSound(NO_RECORDS, made, {}, a);
    var one := Put(NO_RECORDS, a);
    assert CappedBy(one, {}, b.authority, ["a"]);
    AllowedKeepsSound(one, made, {}, b);
    var two := Put(one, b);
    assert CappedBy(two, {}, c.authority, ["b"]);
    AllowedKeepsSound(two, made, {}, c);
  }

  lemma ChainHolds(made: set<string>)
    requires made <= {"b", "c"}
    ensures Holds(Chain(made), made, {})
  {
    ChainFolds();
    ChainSound(made);
    AlikeSelf(Lines());
  }

  ghost predicate OnlyChild(m: Mem, x: string, y: string) {
    forall k {:trigger Child(m, x, k)} :: k in m.records ==> (Child(m, x, k) <==> k == y)
  }

  ghost predicate NoChild(m: Mem, x: string) {
    forall k {:trigger Child(m, x, k)} :: k in m.records ==> !Child(m, x, k)
  }

  /** The chain's records, as far as a walk looks at them. */
  ghost predicate IsChainOf(m: Mem, a: string, b: string, c: string) {
    && WellFiled(m) && m.order == [a, b, c] && m.records.Keys == {a, b, c}
    && m.records[a].derivedFrom == [] && m.records[b].derivedFrom == [a] && m.records[c].derivedFrom == [b]
    && !m.records[a].authorityRevoked && !m.records[b].authorityRevoked && !m.records[c].authorityRevoked
  }

  lemma ChainRecords()
    ensures IsChainOf(Lines(), "a", "b", "c")
  {
    ChainFolds();
  }

  lemma ChainShape(m: Mem, a: string, b: string, c: string)
    requires IsChainOf(m, a, b, c)
    ensures OnlyChild(m, a, b) && OnlyChild(m, b, c) && NoChild(m, c)
  {
    assert m.order[0] == a && m.order[1] == b && m.order[2] == c;
  }

  lemma {:induction false} ScanOver(m: Mem, id: string, ids: seq<string>, i: nat)
    requires WellFiled(m) && i <= |m.order| && SetOf(ids) <= m.records.Keys
    requires forall j :: i <= j < |m.order| ==> !Child(m, id, m.order[j])
    ensures VisitChildren(m, id, ids, i) == ids
    decreases |m.order| - i
  {
    if i < |m.order| { ScanOver(m, id, ids, i + 1); }
  }

  /** Skipping to the only child, and over the rest. */
  lemma ScanSkips(m: Mem, id: string, ids: seq<string>, i: nat)
    requires WellFiled(m) && i < |m.order| && SetOf(ids) <= m.records.Keys && !Child(m, id, m.order[i])
    ensures VisitChildren(m, id, ids, i) == VisitChildren(m, id, ids, i + 1)
  {
    assert m.order[i] in SetOf(m.order);
  }

  lemma ScanHits(m: Mem, id: string, ids: seq<string>, j: nat)
    requires WellFiled(m) && j < |m.order| && SetOf(ids) <= m.records.Keys
    requires OnlyChild(m, id, m.order[j]) && m.order[j] in m.records
    ensures VisitChildren(m, id, ids, j) == Visit(m, m.order[j], ids)
  {
    forall k | j + 1 <= k < |m.order| ensures !Child(m, id, m.order[k]) { assert m.order[k] in SetOf(m.order) && m.order[k] != m.order[j]; }
    ScanOver(m, id, Visit(m, m.order[j], ids), j + 1);
  }

  lemma NoOtherChild(m: Mem, id: string, i: nat, j: nat)
    requires WellFiled(m) && i < j < |m.order| && OnlyChild(m, id, m.order[j])
    ensures !Child(m, id, m.order[i])
  {
    assert m.order[i] in SetOf(m.order) && m.order[i] != m.order[j];
  }

  lemma {:induction false} ScanUpTo(m: Mem, id: string, ids: seq<string>, i: nat, j: nat)
    requires WellFiled(m) && i <= j < |m.order| && SetOf(ids) <= m.records.Keys && OnlyChild(m, id, m.order[j])
    ensures VisitChildren(m, id, ids, i) == VisitChildren(m, id, ids, j)
    decreases j - i
  {
    if i < j {
      NoOtherChild(m, id, i, j);
      ScanSkips(m, id, ids, i);
      ScanUpTo(m, id, ids, i + 1, j);
    }
  }

  lemma ScanTo(m: Mem, id: string, ids: seq<string>, j: nat)
    requires WellFiled(m) && j < |m.order| && SetOf(ids) <= m.records.Keys
    requires OnlyChild(m, id, m.order[j]) && m.order[j] in m.records
    ensures VisitChildren(m, id, ids, 0) == Visit(m, m.order[j], ids)
  {
    ScanUpTo(m, id, ids, 0, j);
    ScanHits(m, id, ids, j);
  }

  lemma LeafVisit(m: Mem, id: string, ids: seq<string>)
    requires WellFiled(m) && id in m.records && SetOf(ids) <= m.records.Keys && id !in ids && NoChild(m, id)
    ensures Visit(m, id, ids) == ids + [id]
  {
    SeenGrows(m, id, ids);
    forall j | 0 <= j < |m.order| ensures !Child(m, id, m.order[j]) { assert m.order[j] in SetOf(m.order); }
    ScanOver(m, id, ids + [id], 0);
  }

  /** Visiting a record with one child, the last of the order or the one before it. */
  lemma LinkVisit(m: Mem, id: string, ids: seq<string>, j: nat)
    requires WellFiled(m) && j < |m.order| && m.order[j] in m.records && id in m.records
    requires id !in ids && SetOf(ids) <= m.records.Keys && OnlyChild(m, id, m.order[j])
    ensures SetOf(ids + [id]) <= m.records.Keys && Visit(m, id, ids) == Visit(m, m.order[j], ids + [id])
  {
    SeenGrows(m, id, ids);
    ScanTo(m, id, ids + [id], j);
  }

  /** The walk goes down a chain. */
  lemma WalkDown(m: Mem, a: string, b: string, c: string)
    requires WellFiled(m) && m.order == [a, b, c]
    requires OnlyChild(m, a, b) && OnlyChild(m, b, c) && NoChild(m, c)
    ensures a in m.records && Closure(m, a) == [a, b, c]
  {
    assert a == m.order[0] && b == m.order[1] && c == m.order[2];
    assert a in SetOf(m.order) && b in SetOf(m.order) && c in SetOf(m.order);
    LinkVisit(m, a, [], 1);
    LinkVisit(m, b, [] + [a], 2);
    LeafVisit(m, c, [] + [a] + [b]);
    assert [] + [a] + [b] + [c] == [a, b, c];
  }

  /** A crash behind line `n` of a revocation of "a". */
  function CutAt(n: nat): Event {
    Crash(Revoke("a", "leaked", None, Always, "note"), 3 + n, false, "recovered")
  }

  lemma {:induction false} AllAffected(m: Mem, ids: seq<string>)
    requires forall k :: k in ids ==> k in m.records && !m.records[k].authorityRevoked
    ensures Affected(m, ids) == ids
  {
    if ids != [] { AllAffected(m, ids[1..]); }
  }

  lemma ChainIsVoidedInOrder(m: Mem, a: string, b: string, c: string, check: Rec -> bool)
    requires IsChainOf(m, a, b, c) && forall r :: check(r)
    ensures VoidOrder(m, a, None, check) == [a, b, c] && Expected(m, a, None, check)
  {
    ChainShape(m, a, b, c);
    WalkDown(m, a, b, c);
    ExpectationMet(m, a, None, check);
    AllAffected(m, [a, b, c]);
  }

  /** A crash anywhere in a revocation that goes ahead is possible. */
  lemma CutIsPossible(s: State, e: Event)
    requires WellFiled(s.world.mem) && e.Crash? && e.during.Revoke? && UsesFreshId(s.world.mem, e.during)
    requires e.during.source in s.world.mem.records && Expected(s.world.mem, e.during.source, e.during.expected, e.during.check)
    requires var order := VoidOrder(s.world.mem, e.during.source, e.during.expected, e.during.check);
             |s.world.log| <= e.written <= |s.world.log| + |order| + 1
    requires e.recoveryId != "" && e.recoveryId !in s.world.mem.records && e.recoveryId != e.during.markerId
    ensures CanHappen(s, e)
  {
    var op := e.during;
    RevocationLines(s.world, op.source, op.reason, op.expected, op.check, op.markerId);
    RevocationIsExact(s.world, op.source, op.reason, op.expected, op.check, op.markerId);
  }

  lemma CutIdsAre(w: World, e: Event, order: seq<string>, n: nat)
    requires e.Crash? && e.during.Revoke? && WellFiled(w.mem) && e.written == |w.log| + n
    requires VoidOrder(w.mem, e.during.source, e.during.expected, e.during.check) == order
    ensures CutIds(w, e) == SetOf(order[..Least(n, |order|)])
  {
  }

  lemma CutOfOrder(s: State, e: Event, order: seq<string>, n: nat)
    requires WellFiled(s.world.mem) && "a" in s.world.mem.records && Expected(s.world.mem, "a", None, Always)
    requires VoidOrder(s.world.mem, "a", None, Always) == order && n <= |order| + 1
    requires "note" !in s.world.mem.records && "recovered" !in s.world.mem.records
    requires e == Crash(Revoke("a", "leaked", None, Always, "note"), |s.world.log| + n, false, "recovered")
    ensures CanHappen(s, e) && CutIds(s.world, e) == SetOf(order[..Least(n, |order|)])
  {
    CutIsPossible(s, e);
    CutIdsAre(s.world, e, order, n);
  }

  lemma CutCanHappen(made: set<string>, n: nat)
    requires n <= 4
    ensures CanHappen(Chain(made), CutAt(n)) && CutIds(Chain(made).world, CutAt(n)) == SetOf(["a", "b", "c"][..Least(n, 3)])
  {
    ChainRecords();
    ChainIsVoidedInOrder(Lines(), "a", "b", "c", Always);
    CutOfOrder(Chain(made), CutAt(n), ["a", "b", "c"], n);
  }

  lemma FirstOfChain(n: nat)
    requires n <= 4
    ensures var voided := SetOf(["a", "b", "c"][..Least(n, 3)]);
            ("a" in voided <==> n >= 1) && ("b" in voided <==> n >= 2) && ("c" in voided <==> n >= 3)
  {
    var order := ["a", "b", "c"];
    assert order[0] == "a" && order[1] == "b" && order[2] == "c";
    forall x ensures x in SetOf(order[..Least(n, 3)]) <==> exists i :: 0 <= i < Least(n, 3) && order[i] == x { }
  }

  /** Consolidated from what a crash behind the first line has voided. */
  lemma InterruptedRevocationBreaksCap()
    ensures CanHappen(Chain({"b"}), CutAt(1)) && Holds(Chain({"b"}), {"b"}, {})
    ensures !Capped(Next(Chain({"b"}), CutAt(1)).world.mem, Next(Chain({"b"}), CutAt(1)).made, {})
  {
    ChainHolds({"b"});
    CutCanHappen({"b"}, 1);
    CutSoundIff(Chain({"b"}), CutAt(1));
    FirstOfChain(1);
    LeftOverInChain("b", "a", CutIds(Chain({"b"}).world, CutAt(1)));
  }

  lemma LeftOverInChain(k: string, s: string, voided: set<string>)
    requires (k == "b" && s == "a") || (k == "c" && s == "b")
    ensures k in Lines().records && (LeftOver(Lines(), voided, k) <==> k !in voided && s in voided)
  {
    assert Lines().records[k].derivedFrom == [s];
  }

  /** Consolidated two steps below the source: harmless behind the first line, harmful behind the second, harmless again once all are written. */
  lemma LaterLinesBreakCapToo(n: nat)
    requires n <= 4
    ensures CanHappen(Chain({"c"}), CutAt(n)) && (Harms(Chain({"c"}), CutAt(n)) <==> n == 2)
  {
    CutCanHappen({"c"}, n);
    FirstOfChain(n);
    var voided := SetOf(["a", "b", "c"][..Least(n, 3)]);
    LeftOverInChain("c", "b", voided);
    assert NothingLeft(Lines(), {"c"}, voided) <==> !LeftOver(Lines(), voided, "c");
  }
}

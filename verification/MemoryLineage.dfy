/**
 * Lineage graphs: the depth-first closure of src/memory/store.mjs lists what is
 * reachable, each record once, and a revocation changes nothing else.
 */
module MemoryLineage {
  import opened Wrappers
  import opened MemoryModel

  // ---------------------------------------------------------------- reachability

  /** `path` leads along derived-from edges from its first id to its last. */
  ghost predicate IsChain(m: Mem, path: seq<string>) {
    && path != []
    && forall i {:trigger Linked(m, path, i)} :: 0 <= i < |path| - 1 ==> Linked(m, path, i)
  }

  ghost predicate Linked(m: Mem, path: seq<string>, i: int) {
    0 <= i < |path| - 1 && Child(m, path[i], path[i + 1])
  }

  ghost predicate Connects(m: Mem, a: string, b: string, path: seq<string>) {
    IsChain(m, path) && path[0] == a && path[|path| - 1] == b
  }

  ghost predicate Reachable(m: Mem, a: string, b: string) {
    exists path :: Connects(m, a, b, path)
  }

  lemma ReachesItself(m: Mem, a: string)
    ensures Reachable(m, a, a)
  {
    assert Connects(m, a, a, [a]);
  }

  lemma ReachFirst(m: Mem, a: string, b: string, c: string)
    requires Child(m, a, b) && Reachable(m, b, c)
    ensures Reachable(m, a, c)
  {
    var p :| Connects(m, b, c, p);
    var q := [a] + p;
    forall i {:trigger Linked(m, q, i)} | 0 <= i < |q| - 1 ensures Linked(m, q, i) {
      if i > 0 { assert Linked(m, p, i - 1); }
    }
    assert Connects(m, a, c, q);
  }

  lemma ReachLast(m: Mem, a: string, b: string, c: string)
    requires Reachable(m, a, b) && Child(m, b, c)
    ensures Reachable(m, a, c)
  {
    var p :| Connects(m, a, b, p);
    var q := p + [c];
    forall i {:trigger Linked(m, q, i)} | 0 <= i < |q| - 1 ensures Linked(m, q, i) {
      if i < |p| - 1 { assert Linked(m, p, i); }
    }
    assert Connects(m, a, c, q);
  }

  // ---------------------------------------------------------------- the walk

  /** All children of `x` are listed. */
  ghost predicate Expanded(m: Mem, x: string, ids: seq<string>) {
    forall k {:trigger Child(m, x, k)} :: Child(m, x, k) ==> k in ids
  }

  /** What a walk from `id` adds to a list: reachable records, whose children it lists as well. */
  ghost predicate Sweeps(m: Mem, id: string, before: seq<string>, after: seq<string>) {
    && before <= after
    && (Distinct(before) ==> Distinct(after))
    && forall x {:trigger Reachable(m, id, x)} {:trigger Expanded(m, x, after)} :: x in after && x !in before ==>
         Reachable(m, id, x) && Expanded(m, x, after)
  }

  lemma ExpandedGrows(m: Mem, x: string, a: seq<string>, b: seq<string>)
    requires Expanded(m, x, a) && a <= b
    ensures Expanded(m, x, b)
  {
  }

  /** A walk from a child, then a walk from its parent. */
  lemma SweepThrough(m: Mem, id: string, k: string, ids: seq<string>, next: seq<string>, r: seq<string>)
    requires Child(m, id, k) && Sweeps(m, k, ids, next) && Sweeps(m, id, next, r)
    ensures Sweeps(m, id, ids, r)
  {
    forall x {:trigger Reachable(m, id, x)} {:trigger Expanded(m, x, r)} | x in r && x !in ids
      ensures Reachable(m, id, x) && Expanded(m, x, r)
    {
      if x in next {
        assert Reachable(m, k, x);
        ReachFirst(m, id, k, x);
        ExpandedGrows(m, x, next, r);
      } else {
        assert Reachable(m, id, x);
      }
    }
  }

  /** The children of `id` among the records from the `i`th on are listed. */
  ghost predicate ListsChildren(m: Mem, id: string, i: nat, r: seq<string>) {
    forall j {:trigger m.order[j]} :: i <= j < |m.order| && Child(m, id, m.order[j]) ==> m.order[j] in r
  }

  lemma AllChildrenListed(m: Mem, id: string, r: seq<string>)
    requires WellFiled(m) && ListsChildren(m, id, 0, r)
    ensures Expanded(m, id, r)
  {
    forall k {:trigger Child(m, id, k)} | Child(m, id, k) ensures k in r {
      assert k in SetOf(m.order);
      var j :| 0 <= j < |m.order| && m.order[j] == k;
    }
  }

  lemma StartSweeps(m: Mem, id: string, ids: seq<string>, r: seq<string>)
    requires WellFiled(m) && id !in ids && Sweeps(m, id, ids + [id], r) && ListsChildren(m, id, 0, r)
    ensures id in r && Sweeps(m, id, ids, r)
  {
    assert r[|ids|] == id;
    AllChildrenListed(m, id, r);
    ReachesItself(m, id);
    forall x {:trigger Reachable(m, id, x)} {:trigger Expanded(m, x, r)} | x in r && x !in ids
      ensures Reachable(m, id, x) && Expanded(m, x, r)
    {
      assert x != id ==> x !in ids + [id];
    }
  }

  lemma {:induction false} VisitSweeps(m: Mem, id: string, ids: seq<string>)
    requires WellFiled(m) && id in m.records && SetOf(ids) <= m.records.Keys
    ensures id in Visit(m, id, ids)
    ensures Sweeps(m, id, ids, Visit(m, id, ids))
    decreases |m.records.Keys - SetOf(ids)|, 0
  {
    if id !in ids {
      SeenGrows(m, id, ids);
      ChildrenSweep(m, id, ids + [id], 0);
      StartSweeps(m, id, ids, VisitChildren(m, id, ids + [id], 0));
    }
  }

  /** One child more, visited or not. */
  lemma ChildSweep(m: Mem, id: string, i: nat, ids: seq<string>, next: seq<string>, r: seq<string>)
    requires i < |m.order| && Sweeps(m, id, next, r) && ListsChildren(m, id, i + 1, r)
    requires if Child(m, id, m.order[i]) then m.order[i] in next && Sweeps(m, m.order[i], ids, next) else next == ids
    ensures Sweeps(m, id, ids, r) && ListsChildren(m, id, i, r)
  {
    if Child(m, id, m.order[i]) { SweepThrough(m, id, m.order[i], ids, next, r); }
  }

  lemma {:induction false} ChildrenSweep(m: Mem, id: string, ids: seq<string>, i: nat)
    requires WellFiled(m) && i <= |m.order| && SetOf(ids) <= m.records.Keys && id in ids
    ensures Sweeps(m, id, ids, VisitChildren(m, id, ids, i)) && ListsChildren(m, id, i, VisitChildren(m, id, ids, i))
    decreases |m.records.Keys - SetOf(ids)|, 1 + |m.order| - i
  {
    if i < |m.order| {
      var k := m.order[i];
      assert k in SetOf(m.order);
      var next := if Child(m, id, k) then Visit(m, k, ids) else ids;
      SeenKept(m, ids, next);
      ChildrenSweep(m, id, next, i + 1);
      if Child(m, id, k) { VisitSweeps(m, k, ids); }
      ChildSweep(m, id, i, ids, next, VisitChildren(m, id, next, i + 1));
    }
  }

  /** A list that holds the start of a chain and is closed under children holds its end. */
  lemma {:induction false} ChainStaysInside(m: Mem, path: seq<string>, ids: seq<string>)
    requires IsChain(m, path) && path[0] in ids
    requires forall x {:trigger Expanded(m, x, ids)} :: x in ids ==> Expanded(m, x, ids)
    ensures path[|path| - 1] in ids
    decreases |path|
  {
    if |path| > 1 {
      var rest := path[..|path| - 1];
      forall i {:trigger Linked(m, rest, i)} | 0 <= i < |rest| - 1 ensures Linked(m, rest, i) {
        assert Linked(m, path, i);
      }
      ChainStaysInside(m, rest, ids);
      assert Linked(m, path, |path| - 2);
      assert Expanded(m, rest[|rest| - 1], ids);
      assert Child(m, rest[|rest| - 1], path[|path| - 1]);
    }
  }

  /** The closure, on any graph: exactly what is reachable, each record once. */
  lemma ClosureIsExact(m: Mem, source: string)
    requires WellFiled(m) && source in m.records
    ensures Distinct(Closure(m, source))
    ensures forall k {:trigger Reachable(m, source, k)} :: k in Closure(m, source) <==> Reachable(m, source, k)
    ensures forall k {:trigger k in Closure(m, source)} :: k in Closure(m, source) ==> k in m.records
  {
    VisitSweeps(m, source, []);
    var c := Closure(m, source);
    forall x {:trigger Expanded(m, x, c)} | x in c ensures Expanded(m, x, c) { }
    forall k {:trigger Reachable(m, source, k)} | Reachable(m, source, k) ensures k in c {
      var path :| Connects(m, source, k, path);
      ChainStaysInside(m, path, c);
    }
    forall k {:trigger k in c} | k in c ensures k in m.records { assert k in SetOf(c); }
  }
}

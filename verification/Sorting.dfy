/** Sorting a set of strings by code unit (`Array.prototype.sort` without a comparison). */
module Sorting {
  import Text

  predicate ComesFirst(n: string, names: set<string>) {
    n in names && forall m {:trigger m in names} :: m in names ==> m == n || Text.Less(n, m)
  }

  lemma {:induction false} SomeComesFirst(names: set<string>)
    requires names != {}
    ensures exists n :: ComesFirst(n, names)
    decreases |names|
  {
    var m :| m in names;
    var rest := names - {m};
    if rest == {} {
      assert names == {m};
      assert ComesFirst(m, names);
    } else {
      SomeComesFirst(rest);
      var n :| ComesFirst(n, rest);
      assert names == rest + {m};
      Text.LessTotal(m, n);
      if Text.Less(m, n) {
        forall k {:trigger k in names} | k in names && k != m ensures Text.Less(m, k) {
          if k != n { Text.LessTransitive(m, n, k); }
        }
        assert ComesFirst(m, names);
      } else {
        assert ComesFirst(n, names);
      }
    }
  }

  lemma OnlyOneFirst(m: string, n: string, names: set<string>)
    requires ComesFirst(m, names) && ComesFirst(n, names)
    ensures m == n
  {
    if m != n {
      Text.LessTransitive(m, n, m);
      Text.LessIrreflexive(m);
    }
  }

  lemma OneFirst(names: set<string>)
    ensures forall m, n {:trigger ComesFirst(m, names), ComesFirst(n, names)} :: ComesFirst(m, names) && ComesFirst(n, names) ==> m == n
  {
    forall m, n {:trigger ComesFirst(m, names), ComesFirst(n, names)} | ComesFirst(m, names) && ComesFirst(n, names) ensures m == n {
      OnlyOneFirst(m, n, names);
    }
  }

  /** The name that no other comes before. */
  function First(names: set<string>): (n: string)
    requires names != {}
    ensures ComesFirst(n, names)
  {
    SomeComesFirst(names);
    OneFirst(names);
    var n :| n in names && ComesFirst(n, names);
    n
  }

  function Sort(names: set<string>): (sorted: seq<string>)
    ensures forall n {:trigger n in sorted} {:trigger n in names} :: n in sorted <==> n in names
    decreases |names|
  {
    if names == {} then []
    else
      var n := First(names);
      assert forall m :: m in names <==> m == n || m in names - {n};
      [n] + Sort(names - {n})
  }

  predicate Ascends(sorted: seq<string>) {
    forall i, j :: 0 <= i < j < |sorted| ==> Text.Less(sorted[i], sorted[j])
  }

  /** Sorting puts the names in ascending order, each once. */
  lemma {:induction false} SortAscends(names: set<string>)
    ensures Ascends(Sort(names))
    decreases |names|
  {
    if names != {} {
      var n := First(names);
      var rest := Sort(names - {n});
      SortAscends(names - {n});
      var sorted := [n] + rest;
      forall i, j | 0 <= i < j < |sorted| ensures Text.Less(sorted[i], sorted[j]) {
        assert sorted[j] == rest[j - 1] && rest[j - 1] in rest;
        if i > 0 { assert sorted[i] == rest[i - 1]; }
      }
    }
  }

  /** The first of some names is the one that a pass over a sorted list meets first. */
  lemma FirstInOrder(sorted: seq<string>, i: nat, some: set<string>)
    requires Ascends(sorted) && i < |sorted| && sorted[i] in some
    requires forall n {:trigger n in some} :: n in some ==> n in sorted
    requires forall j :: 0 <= j < i ==> sorted[j] !in some
    ensures First(some) == sorted[i]
  {
    forall m {:trigger m in some} | m in some ensures m == sorted[i] || Text.Less(sorted[i], m) {
      var j :| 0 <= j < |sorted| && sorted[j] == m;
    }
    OnlyOneFirst(sorted[i], First(some), some);
  }
}

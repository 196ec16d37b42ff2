/**
 * Provenance through any depth of derivation: what a factory-built record says
 * about versions, visibility and confidence is exactly what the records it
 * ultimately descends from say together.
 */
module MemoryProvenance {
  import opened Wrappers
  import opened MemoryModel
  import opened MemoryLineage
  import opened MemoryRuns
  import opened MemoryAuthority
  import opened MemoryTheorems
  import opened FactoryModel

  // ---------------------------------------------------------------- what is inherited

  /** Something a record has as soon as one of its sources has it. */
  datatype Mark = SpeaksFor(version: string) | HiddenFrom(audience: string) | Refuted | Doubtful

  predicate Has(t: Mark, r: Rec) {
    match t
    case SpeaksFor(v) => v in VersionsOf(r)
    case HiddenFrom(a) => a !in VisibilityOf(r)
    case Refuted => r.confidence == Contradicted
    case Doubtful => r.confidence != Verified
  }

  ghost predicate SourceHas(m: Mem, k: string, s: string, t: Mark) {
    k in m.records && s in m.records[k].derivedFrom && s in m.records && Has(t, m.records[s])
  }

  ghost predicate Inherits(m: Mem, k: string, t: Mark) {
    k in m.records && (Has(t, m.records[k]) <==> exists s :: SourceHas(m, k, s, t))
  }

  function IndexIn(order: seq<string>, k: string): nat
    requires k in order
  {
    if order[0] == k then 0 else 1 + IndexIn(order[1..], k)
  }

  lemma {:induction false} IndexStays(a: seq<string>, b: seq<string>, k: string)
    requires a <= b && k in a
    ensures IndexIn(b, k) == IndexIn(a, k) < |a|
  {
    if a[0] != k { IndexStays(a[1..], b[1..], k); }
  }

  lemma {:induction false} NewComesLater(a: seq<string>, b: seq<string>, k: string)
    requires a <= b && k !in a && k in b
    ensures |a| <= IndexIn(b, k)
  {
    if a != [] { NewComesLater(a[1..], b[1..], k); }
  }

  ghost predicate Earlier(m: Mem, s: string, k: string) {
    s in m.records && s in m.order && k in m.order && IndexIn(m.order, s) < IndexIn(m.order, k)
  }

  /** `k` was made from earlier records, and has exactly the marks that some source has. */
  ghost predicate DrawnFrom(m: Mem, k: string) {
    && k in m.records
    && (forall s {:trigger Earlier(m, s, k)} :: s in m.records[k].derivedFrom ==> Earlier(m, s, k))
    && (forall t {:trigger Inherits(m, k, t)} :: Inherits(m, k, t))
    && m.records[k].versions.Some? && m.records[k].visibility.Some?
  }

  ghost predicate AllDrawn(m: Mem, built: set<string>) {
    WellFiled(m) && forall k {:trigger DrawnFrom(m, k)} :: k in built && k in m.records ==> DrawnFrom(m, k)
  }

  // ---------------------------------------------------------------- roots

  /** A chain of built records from `root`, which is none, to `k`. */
  ghost predicate RootPath(m: Mem, built: set<string>, root: string, k: string, path: seq<string>) {
    Connects(m, root, k, path) && root !in built && root in m.records && forall i :: 0 < i < |path| ==> path[i] in built
  }

  /** `root` is one of the records that were not built and that `k` descends from. */
  ghost predicate IsRoot(m: Mem, built: set<string>, root: string, k: string) {
    exists path :: RootPath(m, built, root, k, path)
  }

  lemma RootThrough(m: Mem, built: set<string>, root: string, s: string, k: string)
    requires k in built && Child(m, s, k)
    requires IsRoot(m, built, root, s) || (root == s && s !in built && s in m.records)
    ensures IsRoot(m, built, root, k)
  {
    if IsRoot(m, built, root, s) {
      var p :| RootPath(m, built, root, s, p);
      var q := p + [k];
      forall i {:trigger Linked(m, q, i)} | 0 <= i < |q| - 1 ensures Linked(m, q, i) {
        if i < |p| - 1 { assert Linked(m, p, i); }
      }
      assert RootPath(m, built, root, k, q);
    } else {
      var q := [s, k];
      assert Linked(m, q, 0);
      assert RootPath(m, built, root, k, q);
    }
  }

  /** The last step to `k` comes from a source that is the root or has it. */
  lemma RootSource(m: Mem, built: set<string>, root: string, k: string) returns (s: string)
    requires k in built && IsRoot(m, built, root, k)
    ensures Child(m, s, k) && (s == root || (s in built && IsRoot(m, built, root, s)))
  {
    var p :| RootPath(m, built, root, k, p);
    var n := |p| - 1;
    assert n > 0;
    s := p[n - 1];
    assert Linked(m, p, n - 1);
    if n - 1 > 0 {
      forall i {:trigger Linked(m, p[..n], i)} | 0 <= i < n - 1 ensures Linked(m, p[..n], i) { assert Linked(m, p, i); }
      assert RootPath(m, built, root, s, p[..n]);
    }
  }

  ghost predicate RootHas(m: Mem, built: set<string>, k: string, root: string, t: Mark) {
    IsRoot(m, built, root, k) && root in m.records && Has(t, m.records[root])
  }

  /** At any depth: a built record has a mark exactly when one of its roots has it. */
  lemma {:induction false} RootsDecide(m: Mem, built: set<string>, k: string, t: Mark)
    requires AllDrawn(m, built) && k in built && k in m.records
    ensures Has(t, m.records[k]) <==> exists root :: RootHas(m, built, k, root, t)
    decreases if k in m.order then IndexIn(m.order, k) else 0
  {
    assert DrawnFrom(m, k) && Inherits(m, k, t);
    if Has(t, m.records[k]) {
      var s :| SourceHas(m, k, s, t);
      assert Earlier(m, s, k) && Child(m, s, k);
      if s in built {
        RootsDecide(m, built, s, t);
        var root :| RootHas(m, built, s, root, t);
        RootThrough(m, built, root, s, k);
        assert RootHas(m, built, k, root, t);
      } else {
        RootThrough(m, built, s, s, k);
        assert RootHas(m, built, k, s, t);
      }
    }
    if root :| RootHas(m, built, k, root, t) {
      var s := RootSource(m, built, root, k);
      assert Earlier(m, s, k);
      if s != root {
        RootsDecide(m, built, s, t);
        assert RootHas(m, built, s, root, t);
      }
      assert SourceHas(m, k, s, t);
    }
  }

  // ---------------------------------------------------------------- one derivation

  ghost predicate SomeHas(rs: seq<Rec>, t: Mark) {
    exists i :: 0 <= i < |rs| && Has(t, rs[i])
  }

  lemma JointMarks(rs: seq<Rec>)
    requires rs != []
    ensures JointConfidence(rs) == Contradicted <==> SomeHas(rs, Refuted)
    ensures JointConfidence(rs) != Verified <==> SomeHas(rs, Doubtful)
  {
    if i :| 0 <= i < |rs| && rs[i].confidence == Contradicted { assert Has(Refuted, rs[i]) && Has(Doubtful, rs[i]); }
    if i :| 0 <= i < |rs| && rs[i].confidence != Verified { assert Has(Doubtful, rs[i]); }
    if i :| 0 <= i < |rs| && Has(Doubtful, rs[i]) { assert rs[i].confidence != Verified; }
  }

  lemma VersionMarks(rs: seq<Rec>, v: string)
    ensures v in AllVersions(rs) <==> SomeHas(rs, SpeaksFor(v))
  {
    if i :| 0 <= i < |rs| && v in VersionsOf(rs[i]) { assert Has(SpeaksFor(v), rs[i]); }
  }

  lemma AudienceMarks(rs: seq<Rec>, a: string)
    requires rs != []
    ensures a !in CommonVisibility(rs) <==> SomeHas(rs, HiddenFrom(a))
  {
    SeenByAll(rs, a);
    if i :| 0 <= i < |rs| && a !in VisibilityOf(rs[i]) { assert Has(HiddenFrom(a), rs[i]); }
  }

  /** The marks of a summary are those of its sources. */
  lemma SummaryInherits(rs: seq<Rec>, ids: seq<string>, content: string, opts: Options, newId: string, t: Mark)
    requires rs != [] && opts.visibility == Some(CommonVisibility(rs)) && opts.sourceVersions == Some(AllVersions(rs))
    ensures Has(t, Summary(rs, ids, content, opts, newId)) <==> SomeHas(rs, t)
  {
    JointMarks(rs);
    match t
    case SpeaksFor(v) => VersionMarks(rs, v);
    case HiddenFrom(a) => AudienceMarks(rs, a);
    case _ =>
  }

  lemma {:induction false} SeenByAll(rs: seq<Rec>, a: string)
    requires rs != []
    ensures a in CommonVisibility(rs) <==> forall i :: 0 <= i < |rs| ==> a in VisibilityOf(rs[i])
  {
    if |rs| > 1 {
      var p := rs[..|rs| - 1];
      SeenByAll(p, a);
      assert forall i :: 0 <= i < |p| ==> p[i] == rs[i];
      assert forall i :: 0 <= i < |rs| ==> i < |p| || rs[i] == rs[|rs| - 1];
    }
  }

  lemma LastingMarks(a: Rec, b: Rec, t: Mark)
    requires Lasting(a) == Lasting(b)
    ensures Has(t, a) <==> Has(t, b)
    ensures a.derivedFrom == b.derivedFrom
  {
    assert Lasting(a).versions == a.versions && Lasting(b).versions == b.versions;
    assert Lasting(a).version == a.version && Lasting(b).version == b.version;
    assert Lasting(a).visibility == a.visibility && Lasting(b).visibility == b.visibility;
    assert Lasting(a).confidence == a.confidence && Lasting(b).confidence == b.confidence;
    assert Lasting(a).derivedFrom == a.derivedFrom && Lasting(b).derivedFrom == b.derivedFrom;
  }

  /** What happens later leaves a built record drawn from its sources. */
  lemma StaysDrawn(a: Mem, b: Mem, k: string)
    requires WellFiled(a) && WellFiled(b) && Later(a, b) && DrawnFrom(a, k)
    ensures DrawnFrom(b, k)
  {
    assert Remembers(a, b, k);
    LastingMarks(a.records[k], b.records[k], Refuted);
    forall s {:trigger Earlier(b, s, k)} | s in b.records[k].derivedFrom ensures Earlier(b, s, k) {
      assert Earlier(a, s, k) && Remembers(a, b, s);
      IndexStays(a.order, b.order, s);
      IndexStays(a.order, b.order, k);
    }
    forall t {:trigger Inherits(b, k, t)} ensures Inherits(b, k, t) {
      assert Inherits(a, k, t);
      LastingMarks(a.records[k], b.records[k], t);
      forall s ensures SourceHas(a, k, s, t) <==> SourceHas(b, k, s, t) {
        if s in a.records[k].derivedFrom {
          assert Earlier(a, s, k) && Remembers(a, b, s);
          LastingMarks(a.records[s], b.records[s], t);
        }
      }
    }
    assert Lasting(a.records[k]).versions.Some? && Lasting(a.records[k]).visibility.Some?;
  }

  /** A record that is new in `b` and lasting like a summary of records of `a` is drawn from them. */
  lemma NewIsDrawn(a: Mem, b: Mem, ids: seq<string>, content: string, opts: Options, newId: string)
    requires WellFiled(a) && WellFiled(b) && Later(a, b) && newId !in a.records && newId in b.records
    requires Sources(a, ids).Ok? && Sources(a, ids).value != []
    requires var rs := Sources(a, ids).value;
             && opts.visibility == Some(CommonVisibility(rs)) && opts.sourceVersions == Some(AllVersions(rs))
             && Lasting(b.records[newId]) == Lasting(Summary(rs, ids, content, opts, newId))
    ensures DrawnFrom(b, newId)
  {
    var rs := Sources(a, ids).value;
    var sum := Summary(rs, ids, content, opts, newId);
    SourcesAre(a, ids);
    LastingMarks(b.records[newId], sum, Refuted);
    assert b.records[newId].derivedFrom == ids;
    assert newId in SetOf(b.order) && newId !in SetOf(a.order);
    forall s {:trigger Earlier(b, s, newId)} | s in ids ensures Earlier(b, s, newId) {
      assert Remembers(a, b, s) && s in SetOf(a.order);
      IndexStays(a.order, b.order, s);
      NewComesLater(a.order, b.order, newId);
    }
    forall t {:trigger Inherits(b, newId, t)} ensures Inherits(b, newId, t) {
      LastingMarks(b.records[newId], sum, t);
      SummaryInherits(rs, ids, content, opts, newId, t);
      MarksOfSources(a, b, ids, newId, t);
    }
    assert Lasting(sum).versions.Some? && Lasting(sum).visibility.Some?;
  }

  lemma MarksOfSources(a: Mem, b: Mem, ids: seq<string>, newId: string, t: Mark)
    requires Later(a, b) && newId in b.records && b.records[newId].derivedFrom == ids && Sources(a, ids).Ok?
    ensures SomeHas(Sources(a, ids).value, t) <==> exists s :: SourceHas(b, newId, s, t)
  {
    SourcesAre(a, ids);
    var rs := Sources(a, ids).value;
    if i :| 0 <= i < |rs| && Has(t, rs[i]) {
      assert rs[i] == a.records[ids[i]] && Remembers(a, b, ids[i]);
      LastingMarks(a.records[ids[i]], b.records[ids[i]], t);
      assert SourceHas(b, newId, ids[i], t);
    }
    if s :| SourceHas(b, newId, s, t) {
      var i :| 0 <= i < |ids| && ids[i] == s;
      assert rs[i] == a.records[s] && Remembers(a, b, s);
      LastingMarks(a.records[s], b.records[s], t);
    }
  }
}

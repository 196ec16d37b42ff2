/**
 * The class `MemoryStore` of src/memory/store.mjs: its record map and its log,
 * updated in place, each method proved to do what the model's operation does.
 */
module MemoryStores {
  import opened Wrappers
  import opened LogFiles
  import opened MemoryModel
  import opened MemoryLineage
  import opened MemoryRevocation
  import opened MemoryRuns

  /** What a retention sweep leaves of a record. */
  function Swept(r: Rec, scope: string): Rec {
    if r.retention == scope && !r.deleted then r.(content := "[deleted]", deleted := true) else r
  }

  ghost predicate SweepsExactly(before: Mem, after: Mem, scope: string, ids: seq<string>) {
    && after.order == before.order && after.records.Keys == before.records.Keys
    && forall k {:trigger after.records[k]} :: k in before.records ==>
         after.records[k] == if k in ids then Swept(before.records[k], scope) else before.records[k]
  }

  /** A sweep empties exactly the records of its retention class, and leaves authority and lineage alone. */
  lemma {:induction false} SweepIsExact(w: World, scope: string, ids: seq<string>)
    requires forall k :: k in ids ==> k in w.mem.records && w.mem.records[k].id == k
    ensures SweepsExactly(w.mem, Sweep(w, scope, ids).mem, scope, ids)
    decreases ids
  {
    if ids != [] {
      var r := w.mem.records[ids[0]];
      var next := if r.retention == scope && !r.deleted then Delete(w, ids[0]).0 else w;
      assert SweepsExactly(w.mem, next.mem, scope, [ids[0]]);
      SweepIsExact(next, scope, ids[1..]);
      var last := Sweep(next, scope, ids[1..]).mem;
      forall k {:trigger last.records[k]} | k in w.mem.records
        ensures last.records[k] == if k in ids then Swept(w.mem.records[k], scope) else w.mem.records[k]
      {
        assert k in ids <==> k == ids[0] || k in ids[1..];
      }
    }
  }

  function Behind(found: seq<Rec>, rest: Result<seq<Rec>, MemoryError>): Result<seq<Rec>, MemoryError> {
    if rest.Err? then rest else Ok(found + rest.value)
  }

  predicate IsDue(r: Rec, scope: string) {
    r.retention == scope && !r.deleted
  }

  function Due(m: Mem, ids: seq<string>, scope: string): set<string> {
    set k | k in ids && k in m.records && IsDue(m.records[k], scope)
  }

  lemma DueGrows(m: Mem, ids: seq<string>, i: nat, scope: string)
    requires i < |ids| && ids[i] in m.records
    ensures Due(m, ids[..i + 1], scope) == Due(m, ids[..i], scope) + (if IsDue(m.records[ids[i]], scope) then {ids[i]} else {})
  {
    assert ids[..i + 1] == ids[..i] + [ids[i]];
  }

  /** The records still to be visited are as they were, and filed. */
  ghost predicate Untouched(m: Mem, start: Mem, ids: seq<string>) {
    forall k {:trigger k in ids} :: k in ids ==> k in m.records && m.records[k].id == k && k in start.records && m.records[k] == start.records[k]
  }

  /** Flagging a record does not change what the loop will do. */
  lemma {:induction false} AffectedFlagged(m: Mem, r: Rec, ids: seq<string>)
    requires forall k :: k in ids ==> k in m.records
    requires r.id in m.records && r.authorityRevoked == m.records[r.id].authorityRevoked
    ensures Affected(Put(m, r), ids) == Affected(m, ids)
  {
    if ids != [] { AffectedFlagged(m, r, ids[1..]); }
  }

  lemma UntouchedNext(m: Mem, start: Mem, ids: seq<string>, i: nat, r: Rec)
    requires Distinct(ids) && i < |ids| && Untouched(m, start, ids[i..]) && r.id == ids[i]
    ensures ids[i..][0] == ids[i] && ids[i..][1..] == ids[i + 1..]
    ensures ids[i] in m.records && ids[i] in start.records && m.records[ids[i]] == start.records[ids[i]]
    ensures Untouched(m, start, ids[i + 1..]) && Untouched(Put(m, r), start, ids[i + 1..])
  {
    assert ids[i] in ids[i..];
    assert ids[i] !in ids[i + 1..];
    assert ids[i..][1..] == ids[i + 1..];
    var n := Put(m, r);
    forall k {:trigger k in ids[i + 1..]} | k in ids[i + 1..]
      ensures k in n.records && n.records[k] == m.records[k] && m.records[k].id == k
      ensures k in start.records && m.records[k] == start.records[k]
    {
      assert k in ids[i..];
    }
  }

  /** What the sweep does to one record. */
  function SweptWorld(w: World, scope: string, k: string): World
    requires k in w.mem.records
  {
    if IsDue(w.mem.records[k], scope) then Persist(w, Swept(w.mem.records[k], scope)) else w
  }

  ghost predicate Sweeping(w: World, start: Mem, scope: string, ids: seq<string>, i: nat, goal: World) {
    && Distinct(ids) && i <= |ids| && Untouched(w.mem, start, ids[i..])
    && (forall k :: k in ids[i..] ==> k in w.mem.records && w.mem.records[k].id == k)
    && Sweep(w, scope, ids[i..]) == goal
  }

  lemma SweepOn(w: World, start: Mem, scope: string, ids: seq<string>, i: nat, goal: World)
    requires i < |ids| && Sweeping(w, start, scope, ids, i, goal)
    ensures ids[i] in w.mem.records && ids[i] in start.records && w.mem.records[ids[i]] == start.records[ids[i]]
    ensures Sweeping(SweptWorld(w, scope, ids[i]), start, scope, ids, i + 1, goal)
  {
    UntouchedNext(w.mem, start, ids, i, Swept(w.mem.records[ids[i]], scope));
    var next := SweptWorld(w, scope, ids[i]);
    forall k | k in ids[i + 1..] ensures k in next.mem.records && next.mem.records[k].id == k {
      assert Untouched(next.mem, start, ids[i + 1..]);
    }
  }

  /** What the revocation loop does to one record. */
  function VoidedWorld(w: World, k: string): World
    requires k in w.mem.records
  {
    if w.mem.records[k].authorityRevoked then w else Persist(w, Void(w.mem.records[k]))
  }

  ghost predicate Voiding(w: World, start: Mem, ids: seq<string>, i: nat, goal: World) {
    && Distinct(ids) && i <= |ids| && Untouched(w.mem, start, ids[i..])
    && (forall k :: k in ids[i..] ==> k in w.mem.records && w.mem.records[k].id == k)
    && RevokeEach(w, ids[i..]) == goal
  }

  lemma VoidOn(w: World, start: Mem, ids: seq<string>, i: nat, goal: World)
    requires i < |ids| && Voiding(w, start, ids, i, goal)
    ensures ids[i] in w.mem.records && ids[i] in start.records && w.mem.records[ids[i]] == start.records[ids[i]]
    ensures Voiding(VoidedWorld(w, ids[i]), start, ids, i + 1, goal)
  {
    UntouchedNext(w.mem, start, ids, i, Void(w.mem.records[ids[i]]));
    var next := VoidedWorld(w, ids[i]);
    forall k | k in ids[i + 1..] ensures k in next.mem.records && next.mem.records[k].id == k {
      assert Untouched(next.mem, start, ids[i + 1..]);
    }
  }

  predicate AllKnown(m: Mem, ids: seq<string>) {
    forall k :: k in ids ==> k in m.records
  }

  /** What the loop has listed so far, and what it still will. */
  ghost predicate Listing(m: Mem, ids: seq<string>, i: nat, affected: seq<string>, all: seq<string>) {
    i <= |ids| && AllKnown(m, ids[i..]) && all == affected + Affected(m, ids[i..])
  }

  lemma ListOn(m: Mem, ids: seq<string>, i: nat, affected: seq<string>, all: seq<string>)
    requires i < |ids| && Listing(m, ids, i, affected, all)
    ensures ids[i] in m.records
    ensures Listing(m, ids, i + 1, if m.records[ids[i]].authorityRevoked then affected else affected + [ids[i]], all)
  {
    assert ids[i..][0] == ids[i] && ids[i..][1..] == ids[i + 1..];
    assert forall k :: k in ids[i + 1..] ==> k in ids[i..];
  }

  /** The walk below `id` on its way through the records. */
  ghost predicate Walking(m: Mem, id: string, base: seq<string>, listed: seq<string>, i: nat, goal: seq<string>) {
    && WellFiled(m) && i <= |m.order| && base <= listed && SetOf(base) <= m.records.Keys && SetOf(listed) <= m.records.Keys
    && VisitChildren(m, id, listed, i) == goal
  }

  /** How many records the walk has not seen yet. */
  function Unseen(m: Mem, ids: seq<string>): nat {
    |m.records.Keys - SetOf(ids)|
  }

  function Walked(m: Mem, id: string, listed: seq<string>, k: string): seq<string>
    requires WellFiled(m) && SetOf(listed) <= m.records.Keys && k in m.records
  {
    if Child(m, id, k) then Visit(m, k, listed) else listed
  }

  lemma WalkOn(m: Mem, id: string, base: seq<string>, listed: seq<string>, i: nat, goal: seq<string>)
    requires Walking(m, id, base, listed, i, goal) && i < |m.order|
    ensures m.order[i] in m.records
    ensures Walking(m, id, base, Walked(m, id, listed, m.order[i]), i + 1, goal)
    ensures Unseen(m, listed) <= Unseen(m, base)
  {
    assert m.order[i] in SetOf(m.order);
    SeenKept(m, base, listed);
  }

  lemma WalkDone(m: Mem, id: string, base: seq<string>, listed: seq<string>, goal: seq<string>)
    requires Walking(m, id, base, listed, |m.order|, goal)
    ensures listed == goal
  {
  }

  /** The store after the first `i` lines of a file were read. */
  function ReadUpTo(file: seq<Line<Rec>>, i: nat): World
    requires i <= |file|
  {
    World(FoldLog(Records(file[..i])), Records(file[..i]))
  }

  lemma ReadOneMore(file: seq<Line<Rec>>, i: nat)
    requires i < |file|
    ensures ReadUpTo(file, i + 1) == if file[i].Whole? then Persist(ReadUpTo(file, i), file[i].record) else ReadUpTo(file, i)
  {
    RecordsOn(file, i);
    if file[i].Whole? { FoldSnoc(Records(file[..i]), file[i].record); } else { assert Records(file[..i]) + [] == Records(file[..i]); }
  }

  lemma ReadAll(file: seq<Line<Rec>>)
    ensures ReadUpTo(file, |file|) == World(FoldLog(Records(file)), Records(file))
  {
    assert file[..|file|] == file;
  }

  class MemoryStore {
    var order: seq<string>
    var records: map<string, Rec>
    var lines: seq<Rec>

    ghost function View(): World
      reads this
    {
      World(Mem(order, records), lines)
    }

    ghost predicate Valid()
      reads this
    {
      WellFiled(View().mem)
    }

    constructor ()
      ensures Valid() && View() == World(NO_RECORDS, [])
    {
      order, records, lines := [], map[], [];
    }

    /** The reading loop of `#load`: files whole lines, and stops at a fragment that is not the last. */
    method ReadLines(file: seq<Line<Rec>>) returns (r: Result<nat, nat>)
      requires Valid() && View() == World(NO_RECORDS, [])
      modifies this
      ensures r.Err? <==> Damaged(file)
      ensures r.Err? ==> r.error > 0 && DamagedAt(file, r.error - 1)
      ensures r.Ok? ==> Valid() && View() == World(FoldLog(Records(file)), Records(file))
      ensures r.Ok? ==> r.value == if Torn(file) then 1 else 0
    {
      var corrupt: nat := 0;
      for i := 0 to |file|
        invariant Valid() && View() == ReadUpTo(file, i) && WholeSoFar(file, i, corrupt)
      {
        ReadOneMore(file, i);
        WholeOn(file, i);
        match file[i]
        case Fragment =>
          if i == |file| - 1 {
            corrupt := corrupt + 1;
          } else {
            return Err(i + 1);
          }
        case Whole(rec) =>
          Write(rec);
      }
      ReadAll(file);
      WholeAll(file, corrupt);
      r := Ok(corrupt);
    }

    /**
     * `#load`: a fragment is dropped and noted when it is the last line of the
     * file and refused, with its line number, anywhere else.
     */
    method Load(file: seq<Line<Rec>>, noteId: string) returns (r: Result<bool, nat>)
      requires Valid() && View() == World(NO_RECORDS, [])
      modifies this
      ensures r.Err? <==> Damaged(file)
      ensures r.Err? ==> r.error > 0 && DamagedAt(file, r.error - 1)
      ensures r.Ok? ==> Valid() && View() == MemoryModel.Load(Records(file), Torn(file), noteId)
    {
      var read := ReadLines(file);
      if read.Err? { return Err(read.error); }
      if read.value > 0 {
        var _ := Append(RecoveryNote(noteId));
      }
      r := Ok(true);
    }

    /** `this.records.set` */
    method File(r: Rec)
      requires Valid()
      modifies this
      ensures Valid() && View() == Touch(old(View()), r)
    {
      PutFiles(View().mem, r);
      if r.id !in records { order := order + [r.id]; }
      records := records[r.id := r];
    }

    /** `#persist` */
    method Write(r: Rec)
      requires Valid()
      modifies this
      ensures Valid() && View() == Persist(old(View()), r)
    {
      lines := lines + [r];
      File(r);
    }

    method Append(input: Rec) returns (r: Result<Rec, MemoryError>)
      requires Valid()
      modifies this
      ensures Valid() && (View(), r) == MemoryModel.Append(old(View()), input)
    {
      var e := CheckAppend(input);
      if e.Some? { return Err(e.value); }
      Write(Fresh(input));
      r := Ok(Fresh(input));
    }

    method Supersede(oldId: string, input: Rec, derived: Option<seq<string>>, conflicts: Option<set<string>>)
      returns (r: Result<Rec, MemoryError>)
      requires Valid()
      modifies this
      ensures Valid() && (View(), r) == MemoryModel.Supersede(old(View()), oldId, input, derived, conflicts)
    {
      if oldId !in records { return Err(Missing(oldId)); }
      r := Append(input.(derivedFrom := if derived.Some? then derived.value else [oldId],
                         conflicts := if conflicts.Some? then conflicts.value else {},
                         supersedes := Some(oldId)));
    }

    method Conflict(a: string, b: string, reason: string, markerId: string) returns (r: Result<Rec, MemoryError>)
      requires Valid()
      modifies this
      ensures Valid() && (View(), r) == MemoryModel.Conflict(old(View()), a, b, reason, markerId)
    {
      if a !in records || b !in records { return Err(Missing(if a !in records then a else b)); }
      var project := Shared(records[a].project, records[b].project);
      File(records[a].(conflicts := records[a].conflicts + {b}));
      File(records[b].(conflicts := records[b].conflicts + {a}));
      var ra, rb := records[a], records[b];
      r := Append(Note(markerId, "CONFLICT recorded between " + a + " and " + b + ": " + reason, project, "project", [a, b]));
      if r.Ok? {
        Write(ra);
        Write(rb);
      }
    }

    method Lookup(ids: seq<string>) returns (r: Result<seq<Rec>, MemoryError>)
      requires Valid()
      ensures r == Sources(View().mem, ids)
    {
      var found: seq<Rec> := [];
      assert ids[0..] == ids;
      assert forall rest: seq<Rec> :: [] + rest == rest;
      for i := 0 to |ids|
        invariant Sources(View().mem, ids) == Behind(found, Sources(View().mem, ids[i..]))
      {
        assert ids[i..][1..] == ids[i + 1..];
        if ids[i] !in records { return Err(Missing(ids[i])); }
        ghost var rest := Sources(View().mem, ids[i + 1..]);
        assert rest.Ok? ==> found + ([records[ids[i]]] + rest.value) == found + [records[ids[i]]] + rest.value;
        found := found + [records[ids[i]]];
      }
      assert found + [] == found;
      r := Ok(found);
    }

    /** The three reductions over the sources. */
    method Reduce(rs: seq<Rec>) returns (weakest: Class, uses: set<string>, visibility: set<string>)
      requires rs != []
      ensures weakest == Weakest(rs) && uses == CommonUses(rs) && visibility == CommonVisibility(rs)
    {
      weakest, uses, visibility := rs[0].authority.cls, rs[0].authority.uses, VisibilityOf(rs[0]);
      var i := 1;
      while i < |rs|
        invariant 1 <= i <= |rs|
        invariant weakest == Weakest(rs[..i]) && uses == CommonUses(rs[..i]) && visibility == CommonVisibility(rs[..i])
      {
        assert rs[..i + 1][..i] == rs[..i];
        if Order(rs[i].authority.cls) < Order(weakest) { weakest := rs[i].authority.cls; }
        uses := uses * rs[i].authority.uses;
        visibility := visibility * VisibilityOf(rs[i]);
        i := i + 1;
      }
      assert rs[..i] == rs;
    }

    method Consolidate(ids: seq<string>, content: string, opts: Options, newId: string) returns (r: Result<Rec, MemoryError>)
      requires Valid()
      modifies this
      ensures Valid() && (View(), r) == MemoryModel.Consolidate(old(View()), ids, content, opts, newId)
    {
      var found := Lookup(ids);
      if found.Err? { return Err(found.error); }
      var rs := found.value;
      if rs == [] { return Err(NoSources); }
      var weakest, uses, visibility := Reduce(rs);
      var revoked := AnyRevoked(rs);
      var versions := if opts.sourceVersions.Some? then opts.sourceVersions.value else OwnVersions(rs);
      r := Append(Rec(newId, OrElse(opts.kind, "semantic"), content, Shared(opts.project, opts.project),
                      Some("memory-consolidation@1"), Some(versions), if revoked then VOID else Authority(weakest, uses),
                      JointConfidence(rs), OrElse(opts.retention, "project"),
                      Some(if opts.visibility.Some? then opts.visibility.value else visibility),
                      ids, None, JointConflicts(rs), false, false, None, false));
      if r.Ok? && revoked {
        var stored := records[r.value.id].(authorityRevoked := true);
        Write(stored);
        r := Ok(stored);
      }
    }

    method DeriveProcedure(ids: seq<string>, content: string, steps: Option<Steps>, opts: Options, newId: string)
      returns (r: Result<Rec, MemoryError>)
      requires Valid()
      modifies this
      ensures Valid() && (View(), r) == MemoryModel.DeriveProcedure(old(View()), ids, content, steps, opts, newId)
    {
      r := Consolidate(ids, content, opts.(kind := Some("procedural")), newId);
      if r.Err? { return; }
      var stored := records[r.value.id].(steps := steps);
      if !NonEmptyArray(steps) {
        File(stored);
        return Err(Invalid);
      }
      Write(stored);
      r := Ok(stored);
    }

    /** `visit`: extends the list and the set of seen ids together. */
    method Visit(id: string, ids: seq<string>, seen: set<string>) returns (listed: seq<string>, marked: set<string>)
      requires Valid() && id in records && seen == SetOf(ids) && SetOf(ids) <= records.Keys
      ensures listed == MemoryModel.Visit(View().mem, id, ids) && marked == SetOf(listed)
      decreases Unseen(View().mem, ids), 0
    {
      if id in seen { return ids, seen; }
      SeenGrows(View().mem, id, ids);
      listed, marked := VisitAll(id, ids + [id], seen + {id});
    }

    /** Its loop over all records. */
    method VisitAll(id: string, ids: seq<string>, seen: set<string>) returns (listed: seq<string>, marked: set<string>)
      requires Valid() && id in records && seen == SetOf(ids) && SetOf(ids) <= records.Keys
      ensures listed == VisitChildren(View().mem, id, ids, 0) && marked == SetOf(listed)
      decreases Unseen(View().mem, ids), 2
    {
      listed, marked := ids, seen;
      ghost var goal := VisitChildren(View().mem, id, ids, 0);
      for i := 0 to |order|
        invariant marked == SetOf(listed) && Walking(View().mem, id, ids, listed, i, goal)
      {
        listed, marked := VisitIfChild(id, i, listed, marked, ids, goal);
      }
      WalkDone(View().mem, id, ids, listed, goal);
    }

    /** The body of that loop, which started with `base` and is to end with `goal`. */
    method VisitIfChild(id: string, i: nat, ids: seq<string>, seen: set<string>, ghost base: seq<string>, ghost goal: seq<string>)
      returns (listed: seq<string>, marked: set<string>)
      requires Valid() && i < |order| && seen == SetOf(ids) && Walking(View().mem, id, base, ids, i, goal)
      ensures marked == SetOf(listed) && Walking(View().mem, id, base, listed, i + 1, goal)
      decreases Unseen(View().mem, base), 1
    {
      WalkOn(View().mem, id, base, ids, i, goal);
      listed, marked := ids, seen;
      if id in records[order[i]].derivedFrom {
        listed, marked := Visit(order[i], ids, seen);
      }
    }

    method DescendantClosure(source: string) returns (r: Result<seq<string>, MemoryError>)
      requires Valid()
      ensures r == if source in View().mem.records then Ok(Closure(View().mem, source)) else Err(Missing(source))
    {
      if source !in records { return Err(Missing(source)); }
      var ids, _ := Visit(source, [], {});
      r := Ok(ids);
    }

    method RevokeSourceAuthority(source: string, reason: string, expected: Option<seq<string>>, check: Rec -> bool, markerId: string)
      returns (r: Result<seq<string>, MemoryError>)
      requires Valid()
      modifies this
      ensures Valid() && (View(), r) == RevokeSource(old(View()), source, reason, expected, check, markerId)
    {
      ghost var start := View();
      if source !in records { return Err(Missing(source)); }
      var ids, _ := Visit(source, [], {});
      ClosureIsFiled(start.mem, source);
      if expected.Some? && multiset(expected.value) != multiset(ids) { return Err(ClosureChanged); }
      var passed := CheckAll(ids, check);
      if !passed { return Err(Rejected); }
      var project := records[source].project;
      var affected := VoidAll(source, ids);
      var noted := Append(RevocationMark(source, reason, affected, project, markerId));
      r := if noted.Ok? then Ok(affected) else Err(noted.error);
    }

    method VoidAll(source: string, ids: seq<string>) returns (affected: seq<string>)
      requires Valid() && source in records && ids == Closure(View().mem, source)
      modifies this
      ensures Valid() && View() == RevokeAll(old(View()), source)
      ensures forall k :: k in ids ==> k in old(records)
      ensures affected == Affected(old(View()).mem, ids)
    {
      ghost var start := View();
      ClosureIsFiled(start.mem, source);
      ClosureIsExact(start.mem, source);
      File(records[source].(revoked := true));
      AffectedFlagged(start.mem, records[source], ids);
      affected := VoidEach(ids);
    }

    method CheckAll(ids: seq<string>, check: Rec -> bool) returns (passed: bool)
      requires forall k :: k in ids ==> k in records
      ensures passed <==> forall i :: 0 <= i < |ids| ==> check(records[ids[i]])
    {
      for i := 0 to |ids|
        invariant forall j :: 0 <= j < i ==> check(records[ids[j]])
      {
        if !check(records[ids[i]]) { return false; }
      }
      passed := true;
    }

    method VoidOne(k: string) returns (hit: bool)
      requires Valid() && k in records
      modifies this
      ensures Valid() && hit == !old(records[k]).authorityRevoked
      ensures View() == VoidedWorld(old(View()), k)
    {
      hit := !records[k].authorityRevoked;
      if hit { Write(records[k].(authorityRevoked := true, authority := VOID)); }
    }

    /** The revocation loop: voids and writes what is not void yet. */
    method VoidEach(ids: seq<string>) returns (affected: seq<string>)
      requires Valid() && Distinct(ids) && forall k :: k in ids ==> k in records && records[k].id == k
      modifies this
      ensures Valid() && View() == RevokeEach(old(View()), ids)
      ensures affected == Affected(old(View()).mem, ids)
    {
      ghost var start, goal := View().mem, RevokeEach(View(), ids);
      ghost var all := Affected(start, ids);
      affected := [];
      assert ids[0..] == ids && AllKnown(start, ids);
      for i := 0 to |ids|
        invariant Valid() && Voiding(View(), start, ids, i, goal) && Listing(start, ids, i, affected, all)
      {
        VoidOn(View(), start, ids, i, goal);
        ListOn(start, ids, i, affected, all);
        var hit := VoidOne(ids[i]);
        if hit { affected := affected + [ids[i]]; }
      }
    }

    method DeleteRecord(id: string) returns (done: bool)
      requires Valid()
      modifies this
      ensures Valid() && (View(), done) == Delete(old(View()), id)
    {
      if id !in records { return false; }
      Write(records[id].(content := "[deleted]", deleted := true));
      done := true;
    }

    method Expire(k: string, scope: string) returns (hit: bool)
      requires Valid() && k in records
      modifies this
      ensures Valid() && hit == IsDue(old(records[k]), scope)
      ensures View() == SweptWorld(old(View()), scope, k)
    {
      hit := records[k].retention == scope && !records[k].deleted;
      if hit { var _ := DeleteRecord(k); }
    }

    method ApplyRetention(scope: string) returns (removed: set<string>)
      requires Valid()
      modifies this
      ensures Valid()
      ensures forall k :: k in old(order) ==> k in old(records) && old(records)[k].id == k
      ensures View() == Sweep(old(View()), scope, old(order))
      ensures removed == Due(old(View()).mem, old(order), scope)
    {
      ghost var start := View().mem;
      FiledUnderOrder(start);
      var all := order;
      assert all[0..] == all;
      ghost var goal := Sweep(View(), scope, all);
      removed := {};
      for i := 0 to |all|
        invariant Valid() && Sweeping(View(), start, scope, all, i, goal)
        invariant removed == Due(start, all[..i], scope)
      {
        SweepOn(View(), start, scope, all, i, goal);
        DueGrows(start, all, i, scope);
        var hit := Expire(all[i], scope);
        if hit { removed := removed + {all[i]}; }
      }
      assert all[..|all|] == all;
    }
  }
}

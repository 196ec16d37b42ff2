/**
 * The intersection of scope contracts is a meet: the greatest contract below
 * all inputs, refused exactly when there is none, whatever the order,
 * repetition or grouping of the inputs.
 */
module ScopeLattice {
  import opened Wrappers
  import opened ScopeContracts
  import opened ScopeNormal
  import opened ScopeMeet
  import opened TimestampChoice
  import Json

  ghost predicate LowerBound(x: Contract, cs: seq<Contract>) {
    forall i {:trigger Below(x, cs[i])} :: 0 <= i < |cs| ==> Below(x, cs[i])
  }

  // ---------------------------------------------------------------- dimension by dimension

  lemma SetsBelowAll(cs: seq<Contract>, i: nat)
    requires cs != [] && HasSets(cs) && i < |cs|
    ensures SetsBelow(MeetSets(cs), cs[i].sets)
  {
    var m := MeetSets(cs);
    forall f {:trigger m[f]} | f in m && f in cs[i].sets ensures m[f] <= cs[i].sets[f] { assert m[f] == MeetSet(cs, f); }
  }

  lemma SetsGreatest(cs: seq<Contract>, x: map<SetField, set<string>>)
    requires cs != [] && HasSets(cs) && x.Keys == ALL_SETS
    requires forall i {:trigger SetsBelow(x, cs[i].sets)} :: 0 <= i < |cs| ==> SetsBelow(x, cs[i].sets)
    ensures SetsBelow(x, MeetSets(cs))
    ensures (forall f {:trigger x[f]} :: f in x ==> x[f] != {}) ==> EmptyFields(cs) == {}
  {
    forall f {:trigger x[f]} | f in x ensures x[f] <= MeetSet(cs, f) {
      forall s, i | s in x[f] && 0 <= i < |cs| ensures s in cs[i].sets[f] { assert SetsBelow(x, cs[i].sets); }
    }
    if f :| f in EmptyFields(cs) { assert f in x && x[f] <= MeetSet(cs, f); }
  }

  lemma BoundsBelowAll(cs: seq<Contract>, i: nat)
    requires cs != [] && BoundsMeet(cs) && i < |cs|
    ensures BoundsBelow(MeetBounds(cs), cs[i].bounds)
  {
    var m := MeetBounds(cs);
    forall n | n in m ensures n in cs[i].bounds { assert BoundMeets(cs, n); }
    forall n | n in cs[i].bounds ensures n in m { assert n in BoundNames(cs); }
    forall n {:trigger m[n]} | n in m && n in cs[i].bounds ensures Within(m[n], cs[i].bounds[n]) {
      assert BoundMeets(cs, n);
      GreatestIs(Mins(cs, n));
      LeastIs(Maxes(cs, n));
    }
  }

  ghost predicate BoundsBelowEach(x: map<string, Bound>, cs: seq<Contract>) {
    forall i {:trigger BoundsBelow(x, cs[i].bounds)} :: 0 <= i < |cs| ==> BoundsBelow(x, cs[i].bounds)
  }

  lemma BoundGreatest(cs: seq<Contract>, x: map<string, Bound>, n: string)
    requires cs != [] && BoundsOk(x) && BoundsBelowEach(x, cs) && n in x
    ensures BoundMeets(cs, n) && Within(x[n], MeetBound(cs, n))
  {
    forall j {:trigger cs[j]} | 0 <= j < |cs| ensures n in cs[j].bounds && Within(x[n], cs[j].bounds[n]) {
      assert BoundsBelow(x, cs[j].bounds);
    }
    assert BoundOk(n, x[n]);
    GreatestIs(Mins(cs, n));
    LeastIs(Maxes(cs, n));
  }

  lemma BoundsGreatest(cs: seq<Contract>, x: map<string, Bound>)
    requires cs != [] && BoundsOk(x) && BoundsBelowEach(x, cs)
    ensures BoundsMeet(cs) && BoundsBelow(x, MeetBounds(cs))
  {
    assert BoundsBelow(x, cs[0].bounds);
    forall n {:trigger BoundMeets(cs, n)} {:trigger n in BoundNames(cs)} | n in BoundNames(cs) ensures n in x && BoundMeets(cs, n) {
      var i :| 0 <= i < |cs| && n in cs[i].bounds;
      assert BoundsBelow(x, cs[i].bounds);
      BoundGreatest(cs, x, n);
    }
    assert BoundsMeet(cs);
    var m := MeetBounds(cs);
    forall n | n in x ensures n in m && Within(x[n], m[n]) {
      BoundGreatest(cs, x, n);
      assert n in cs[0].bounds && n in BoundNames(cs);
    }
  }

  lemma BudgetsBelowAll(cs: seq<Contract>, i: nat)
    requires cs != [] && HasBudgets(cs) && i < |cs|
    ensures BudgetsBelow(MeetBudgets(cs), cs[i].budgets)
  {
    var m := MeetBudgets(cs);
    forall f {:trigger m[f]} | f in m && f in cs[i].budgets ensures m[f] <= cs[i].budgets[f] { LeastIs(Budgets(cs, f)); }
  }

  lemma BudgetsGreatest(cs: seq<Contract>, x: map<BudgetField, real>)
    requires cs != [] && HasBudgets(cs) && x.Keys == ALL_BUDGETS
    requires forall i {:trigger BudgetsBelow(x, cs[i].budgets)} :: 0 <= i < |cs| ==> BudgetsBelow(x, cs[i].budgets)
    ensures BudgetsBelow(x, MeetBudgets(cs))
  {
    var m := MeetBudgets(cs);
    forall f {:trigger m[f]} | f in m && f in x ensures x[f] <= m[f] {
      LeastIs(Budgets(cs, f));
      var i :| 0 <= i < |cs| && Budgets(cs, f)[i] == Least(Budgets(cs, f));
      assert BudgetsBelow(x, cs[i].budgets);
    }
  }

  lemma SetsOfMeet(cs: seq<Contract>)
    requires Ready(cs) && SetsOk(cs[0].sets) && EmptyFields(cs) == {}
    ensures SetsOk(MeetSets(cs))
  {
    var m := MeetSets(cs);
    forall f {:trigger m[f]} | f in m ensures ItemsOk(f, m[f]) {
      assert f !in EmptyFields(cs);
      assert m[f] == MeetSet(cs, f);
      assert ItemsOk(f, cs[0].sets[f]);
    }
  }

  lemma BoundsOfMeet(cs: seq<Contract>)
    requires Ready(cs) && BoundsOk(cs[0].bounds) && Json.PROTO !in cs[0].bounds && BoundsMeet(cs)
    ensures BoundsOk(MeetBounds(cs)) && Json.PROTO !in MeetBounds(cs)
  {
    var b := MeetBounds(cs);
    forall n {:trigger b[n]} | n in b ensures BoundOk(n, b[n]) && n != Json.PROTO {
      assert BoundMeets(cs, n);
      assert BoundOk(n, cs[0].bounds[n]);
    }
  }

  lemma BudgetsOfMeet(cs: seq<Contract>)
    requires Ready(cs) && AllSound(cs)
    ensures BudgetsOk(MeetBudgets(cs))
  {
    var g := MeetBudgets(cs);
    forall f {:trigger g[f]} | f in g ensures BudgetOk(f, g[f]) {
      LeastIs(Budgets(cs, f));
      var i :| 0 <= i < |cs| && Budgets(cs, f)[i] == Least(Budgets(cs, f));
      assert Sound(cs[i]);
      assert BudgetOk(f, cs[i].budgets[f]);
    }
  }

  lemma UnionsOfMeet(cs: seq<Contract>)
    requires AllSound(cs)
    ensures PatternsOk(AllExcludes(cs)) && Lines(AllVersions(cs))
  {
    forall i | 0 <= i < |cs| ensures PatternsOk(cs[i].excludes) && Lines(cs[i].sourceVersions) { assert Sound(cs[i]); }
  }

  /** The start is one of the starts, and no start is later; likewise for the end. */
  lemma WindowIsExtreme(cs: seq<Contract>)
    requires cs != []
    ensures exists i :: 0 <= i < |cs| && cs[i].validFrom == Start(cs)
    ensures exists i :: 0 <= i < |cs| && cs[i].validUntil == End(cs)
    ensures forall i {:trigger cs[i]} :: 0 <= i < |cs| ==>
      cs[i].validFrom.instant <= Start(cs).instant && End(cs).instant <= cs[i].validUntil.instant
  {
    assert Starts(cs)[0] in Starts(cs) && Ends(cs)[0] in Ends(cs);
    BestIsExtreme(Starts(cs), true, Starts(cs)[0]);
    BestIsExtreme(Ends(cs), false, Ends(cs)[0]);
    var i :| 0 <= i < |cs| && Starts(cs)[i] == Start(cs);
    var j :| 0 <= j < |cs| && Ends(cs)[j] == End(cs);
    assert cs[i].validFrom == Start(cs) && cs[j].validUntil == End(cs);
    forall k {:trigger cs[k]} | 0 <= k < |cs|
      ensures cs[k].validFrom.instant <= Start(cs).instant && End(cs).instant <= cs[k].validUntil.instant
    {
      assert Starts(cs)[k] in Starts(cs) && Ends(cs)[k] in Ends(cs);
      BestIsExtreme(Starts(cs), true, Starts(cs)[k]);
      BestIsExtreme(Ends(cs), false, Ends(cs)[k]);
    }
  }

  /** A window that every input allows lies inside the selected one. */
  lemma WindowGreatest(cs: seq<Contract>, x: Contract)
    requires cs != [] && LowerBound(x, cs)
    ensures Start(cs).instant <= x.validFrom.instant && x.validUntil.instant <= End(cs).instant
  {
    WindowIsExtreme(cs);
    var i :| 0 <= i < |cs| && cs[i].validFrom == Start(cs);
    var j :| 0 <= j < |cs| && cs[j].validUntil == End(cs);
    assert Below(x, cs[i]) && Below(x, cs[j]);
  }

  // ---------------------------------------------------------------- the meet

  lemma MeetIsSound(cs: seq<Contract>)
    requires cs != [] && AllSound(cs) && Ready(cs) && Meet(cs).Ok?
    ensures Sound(Meet(cs).value)
  {
    assert Sound(cs[0]);
    SetsOfMeet(cs);
    BoundsOfMeet(cs);
    BudgetsOfMeet(cs);
    UnionsOfMeet(cs);
    FewestIs(Occurrences(cs));
    var i :| 0 <= i < |cs| && Occurrences(cs)[i] == Fewest(Occurrences(cs));
    assert Sound(cs[i]);
  }

  lemma RestBelowAll(cs: seq<Contract>, i: nat)
    requires i < |cs| && OneProject(cs)
    ensures cs[0].project == cs[i].project && cs[i].excludes <= AllExcludes(cs)
    ensures cs[i].validFrom.instant <= Start(cs).instant && End(cs).instant <= cs[i].validUntil.instant
    ensures Fewest(Occurrences(cs)) <= cs[i].maxOccurrences
  {
    WindowIsExtreme(cs);
    FewestIs(Occurrences(cs));
    assert Occurrences(cs)[i] == cs[i].maxOccurrences;
  }

  lemma EffectiveBelow(cs: seq<Contract>, i: nat)
    requires Ready(cs) && OneProject(cs) && BoundsMeet(cs) && i < |cs|
    ensures Below(Effective(cs), cs[i])
  {
    SetsBelowAll(cs, i);
    BoundsBelowAll(cs, i);
    BudgetsBelowAll(cs, i);
    RestBelowAll(cs, i);
  }

  /** The meet is below every input. */
  lemma MeetIsBelow(cs: seq<Contract>, i: nat)
    requires Ready(cs) && Meet(cs).Ok? && i < |cs|
    ensures Below(Meet(cs).value, cs[i])
  {
    MeetIsEffective(cs);
    EffectiveBelow(cs, i);
  }

  lemma SetsUnderMeet(cs: seq<Contract>, x: Contract)
    requires Ready(cs) && LowerBound(x, cs) && SetsOk(x.sets)
    ensures SetsBelow(x.sets, MeetSets(cs)) && EmptyFields(cs) == {}
  {
    forall i {:trigger SetsBelow(x.sets, cs[i].sets)} | 0 <= i < |cs| ensures SetsBelow(x.sets, cs[i].sets) { assert Below(x, cs[i]); }
    SetsGreatest(cs, x.sets);
  }

  lemma BoundsUnderMeet(cs: seq<Contract>, x: Contract)
    requires Ready(cs) && LowerBound(x, cs) && BoundsOk(x.bounds)
    ensures BoundsMeet(cs) && BoundsBelow(x.bounds, MeetBounds(cs))
  {
    forall i {:trigger BoundsBelow(x.bounds, cs[i].bounds)} | 0 <= i < |cs| ensures BoundsBelow(x.bounds, cs[i].bounds) { assert Below(x, cs[i]); }
    assert BoundsBelowEach(x.bounds, cs);
    BoundsGreatest(cs, x.bounds);
  }

  lemma BudgetsUnderMeet(cs: seq<Contract>, x: Contract)
    requires Ready(cs) && LowerBound(x, cs) && BudgetsOk(x.budgets)
    ensures BudgetsBelow(x.budgets, MeetBudgets(cs))
  {
    forall i {:trigger BudgetsBelow(x.budgets, cs[i].budgets)} | 0 <= i < |cs| ensures BudgetsBelow(x.budgets, cs[i].budgets) { assert Below(x, cs[i]); }
    BudgetsGreatest(cs, x.budgets);
  }

  lemma RestUnderMeet(cs: seq<Contract>, x: Contract)
    requires cs != [] && LowerBound(x, cs)
    ensures OneProject(cs) && x.project == cs[0].project && AllExcludes(cs) <= x.excludes
    ensures x.maxOccurrences <= Fewest(Occurrences(cs))
  {
    forall i | 0 <= i < |cs| ensures cs[i].project == x.project && cs[i].excludes <= x.excludes { assert Below(x, cs[i]); }
    FewestIs(Occurrences(cs));
    var i :| 0 <= i < |cs| && Occurrences(cs)[i] == Fewest(Occurrences(cs));
    assert Below(x, cs[i]);
  }

  lemma UnderMeet(cs: seq<Contract>, x: Contract)
    requires Ready(cs) && Sound(x) && LowerBound(x, cs)
    ensures OneProject(cs) && EmptyFields(cs) == {} && BoundsMeet(cs) && Start(cs).instant < End(cs).instant
    ensures Below(x, Effective(cs))
  {
    SetsUnderMeet(cs, x);
    BoundsUnderMeet(cs, x);
    BudgetsUnderMeet(cs, x);
    WindowGreatest(cs, x);
    RestUnderMeet(cs, x);
  }

  lemma MeetIsEffective(cs: seq<Contract>)
    requires Ready(cs)
    ensures Meet(cs).Ok? <==> OneProject(cs) && EmptyFields(cs) == {} && BoundsMeet(cs) && Start(cs).instant < End(cs).instant
    ensures Meet(cs).Ok? ==> Meet(cs) == Ok(Effective(cs))
  {
  }

  /** Whatever is below all inputs is below the meet, which then exists. */
  lemma MeetIsGreatest(cs: seq<Contract>, x: Contract)
    requires cs != [] && AllSound(cs) && Ready(cs) && Sound(x) && LowerBound(x, cs)
    ensures Meet(cs).Ok? && Sound(Meet(cs).value) && Below(x, Meet(cs).value)
  {
    UnderMeet(cs, x);
    MeetIsEffective(cs);
    MeetIsSound(cs);
  }

  /** The intersection is refused exactly when no sound contract is below all inputs. */
  lemma MeetExistsIff(cs: seq<Contract>)
    requires cs != [] && AllSound(cs) && Ready(cs)
    ensures Meet(cs).Ok? <==> exists x :: Sound(x) && LowerBound(x, cs)
  {
    if Meet(cs).Ok? {
      var e := Meet(cs).value;
      MeetIsSound(cs);
      forall i {:trigger Below(e, cs[i])} | 0 <= i < |cs| ensures Below(e, cs[i]) { MeetIsBelow(cs, i); }
      assert LowerBound(e, cs);
    }
    if x :| Sound(x) && LowerBound(x, cs) { MeetIsGreatest(cs, x); }
  }
}

/**
 * The laws of intersecting scopes: neither the order of the inputs nor their
 * repetition nor their grouping changes the effective contract or its digest.
 */
module ScopeLaws {
  import opened Wrappers
  import opened ScopeContracts
  import opened ScopeNormal
  import opened ScopeMeet
  import opened ScopeLattice
  import opened TimestampChoice
  import Json
  import Sorting

  lemma BelowTransitive(a: Contract, b: Contract, c: Contract)
    requires Below(a, b) && Below(b, c) && b.sets.Keys == ALL_SETS && b.budgets.Keys == ALL_BUDGETS
    ensures Below(a, c)
  {
    forall f {:trigger a.sets[f]} | f in a.sets && f in c.sets ensures a.sets[f] <= c.sets[f] { EveryField(f); }
    forall n {:trigger a.bounds[n]} | n in a.bounds && n in c.bounds ensures Within(a.bounds[n], c.bounds[n]) {
      assert Within(a.bounds[n], b.bounds[n]);
    }
    forall f {:trigger a.budgets[f]} | f in a.budgets && f in c.budgets ensures a.budgets[f] <= c.budgets[f] { EveryBudget(f); }
  }

  lemma SetsAntisymmetric(a: map<SetField, set<string>>, b: map<SetField, set<string>>)
    requires a.Keys == b.Keys && SetsBelow(a, b) && SetsBelow(b, a)
    ensures a == b
  {
    forall f | f in a ensures a[f] == b[f] { }
  }

  lemma BoundsAntisymmetric(a: map<string, Bound>, b: map<string, Bound>)
    requires BoundsBelow(a, b) && BoundsBelow(b, a)
    ensures a == b
  {
    forall n | n in a ensures a[n] == b[n] { assert Within(a[n], b[n]) && Within(b[n], a[n]); }
  }

  lemma BudgetsAntisymmetric(a: map<BudgetField, real>, b: map<BudgetField, real>)
    requires a.Keys == b.Keys && BudgetsBelow(a, b) && BudgetsBelow(b, a)
    ensures a == b
  {
    forall f | f in a ensures a[f] == b[f] { }
  }

  /** Contracts below each other are the same on every restrictive dimension; timestamps as instants. */
  lemma BelowAntisymmetric(a: Contract, b: Contract)
    requires a.sets.Keys == b.sets.Keys && a.budgets.Keys == b.budgets.Keys && Below(a, b) && Below(b, a)
    ensures a.project == b.project && a.sets == b.sets && a.excludes == b.excludes && a.bounds == b.bounds && a.budgets == b.budgets
    ensures a.validFrom.instant == b.validFrom.instant && a.validUntil.instant == b.validUntil.instant
    ensures a.maxOccurrences == b.maxOccurrences
  {
    SetsAntisymmetric(a.sets, b.sets);
    BoundsAntisymmetric(a.bounds, b.bounds);
    BudgetsAntisymmetric(a.budgets, b.budgets);
  }

  /** A listed candidate that reaches as far as every other is the selected one. */
  lemma BestIsOnly(cs: seq<Candidate>, latest: bool, c: Candidate)
    requires c in cs && forall d {:trigger d in cs} :: d in cs ==> AsFar(c, d, latest)
    ensures Best(cs, latest) == c
  {
    BestIsExtreme(cs, latest, c);
    OrderIsTotal(c, Best(cs, latest));
  }

  lemma BestOfTheSet(cs: seq<Candidate>, ds: seq<Candidate>, latest: bool)
    requires cs != [] && forall c {:trigger c in cs} {:trigger c in ds} :: c in cs <==> c in ds
    ensures ds != [] && Best(cs, latest) == Best(ds, latest)
  {
    assert cs[0] in cs;
    var c := Best(cs, latest);
    BestIsExtreme(cs, latest, cs[0]);
    forall d {:trigger d in ds} | d in ds ensures AsFar(c, d, latest) { BestIsExtreme(cs, latest, d); }
    BestIsOnly(ds, latest, c);
  }

  lemma AsFarTransitive(a: Candidate, b: Candidate, c: Candidate, latest: bool)
    requires AsFar(a, b, latest) && AsFar(b, c, latest)
    ensures AsFar(a, c, latest)
  {
    if latest { OrderIsTransitive(c, b, a); } else { OrderIsTransitive(a, b, c); }
  }

  lemma BestOfBest(cs: seq<Candidate>, ds: seq<Candidate>, latest: bool)
    requires cs != []
    ensures Best([Best(cs, latest)] + ds, latest) == Best(cs + ds, latest)
  {
    var b := Best(cs, latest);
    var grouped, flat := [b] + ds, cs + ds;
    assert b in grouped && cs[0] in cs;
    var c := Best(grouped, latest);
    BestIsExtreme(grouped, latest, b);
    BestIsExtreme(cs, latest, cs[0]);
    assert c in flat;
    forall d {:trigger d in flat} | d in flat ensures AsFar(c, d, latest) {
      if d in cs {
        BestIsExtreme(cs, latest, d);
        AsFarTransitive(c, b, d, latest);
      } else {
        assert d in grouped;
        BestIsExtreme(grouped, latest, d);
      }
    }
    BestIsOnly(flat, latest, c);
  }

  // ---------------------------------------------------------------- labels

  function Strictness(r: Reversibility): int {
    match r case Reversible => 0 case PartiallyReversible => 1 case Irreversible => 2
  }

  ghost predicate HasLabels(e: Contract, cs: seq<Contract>) {
    && e.externality == (if AnyExternal(cs) then External else Internal)
    && e.reversibility == (if AnyWith(cs, Irreversible) then Irreversible
                           else if AnyWith(cs, PartiallyReversible) then PartiallyReversible else Reversible)
    && e.approvalRequired == AnyApproval(cs) && e.sourceVersions == AllVersions(cs)
  }

  lemma EffectiveHasLabels(cs: seq<Contract>)
    requires Ready(cs) && BoundsMeet(cs)
    ensures HasLabels(Effective(cs), cs)
  {
  }

  ghost predicate Strictest(e: Contract, cs: seq<Contract>) {
    && (e.externality == External <==> exists i :: 0 <= i < |cs| && cs[i].externality == External)
    && (e.approvalRequired <==> exists i :: 0 <= i < |cs| && cs[i].approvalRequired)
    && (exists i :: 0 <= i < |cs| && cs[i].reversibility == e.reversibility)
    && (forall i :: 0 <= i < |cs| ==> Strictness(cs[i].reversibility) <= Strictness(e.reversibility))
    && (forall v :: v in e.sourceVersions <==> exists i :: 0 <= i < |cs| && v in cs[i].sourceVersions)
  }

  lemma LabelsStrictest(e: Contract, cs: seq<Contract>)
    requires cs != [] && HasLabels(e, cs)
    ensures Strictest(e, cs)
  {
    assert cs[0].reversibility == Reversible || AnyWith(cs, Irreversible) || AnyWith(cs, PartiallyReversible);
  }

  /** Labels take the strictest value of all inputs, and the versions are all of theirs. */
  lemma LabelsAreStrictest(cs: seq<Contract>)
    requires Ready(cs) && Meet(cs).Ok?
    ensures Strictest(Meet(cs).value, cs)
  {
    MeetIsEffective(cs);
    EffectiveHasLabels(cs);
    LabelsStrictest(Effective(cs), cs);
  }

  // ---------------------------------------------------------------- inputs that agree on every dimension

  ghost predicate SameProject(cs: seq<Contract>, ds: seq<Contract>)
    requires cs != [] && ds != []
  {
    OneProject(cs) == OneProject(ds) && (OneProject(cs) ==> cs[0].project == ds[0].project)
  }

  ghost predicate SameSets(cs: seq<Contract>, ds: seq<Contract>)
    requires Ready(cs) && Ready(ds)
  {
    forall f {:trigger MeetSet(cs, f)} {:trigger MeetSet(ds, f)} :: MeetSet(cs, f) == MeetSet(ds, f)
  }

  ghost predicate SameBound(cs: seq<Contract>, ds: seq<Contract>, n: string)
    requires cs != [] && ds != []
  {
    AllBound(cs, n) == AllBound(ds, n) && (AllBound(cs, n) ==> MeetBound(cs, n) == MeetBound(ds, n))
  }

  ghost predicate SameBounds(cs: seq<Contract>, ds: seq<Contract>)
    requires cs != [] && ds != []
  {
    BoundNames(cs) == BoundNames(ds) && forall n {:trigger SameBound(cs, ds, n)} :: n in BoundNames(cs) ==> SameBound(cs, ds, n)
  }

  ghost predicate SameLimits(cs: seq<Contract>, ds: seq<Contract>)
    requires Ready(cs) && Ready(ds)
  {
    && (forall f {:trigger Budgets(cs, f)} {:trigger Budgets(ds, f)} :: Least(Budgets(cs, f)) == Least(Budgets(ds, f)))
    && Start(cs) == Start(ds) && End(cs) == End(ds) && Fewest(Occurrences(cs)) == Fewest(Occurrences(ds))
  }

  /** The labels come out alike: of reversibility only the strictest counts. */
  ghost predicate SameLabels(cs: seq<Contract>, ds: seq<Contract>) {
    && AnyExternal(cs) == AnyExternal(ds) && AnyApproval(cs) == AnyApproval(ds)
    && AnyWith(cs, Irreversible) == AnyWith(ds, Irreversible)
    && (!AnyWith(cs, Irreversible) ==> AnyWith(cs, PartiallyReversible) == AnyWith(ds, PartiallyReversible))
    && AllExcludes(cs) == AllExcludes(ds) && AllVersions(cs) == AllVersions(ds)
  }

  ghost predicate Agree(cs: seq<Contract>, ds: seq<Contract>)
    requires Ready(cs) && Ready(ds)
  {
    SameProject(cs, ds) && SameSets(cs, ds) && SameBounds(cs, ds) && SameLimits(cs, ds) && SameLabels(cs, ds)
  }

  lemma SameSetsMeet(cs: seq<Contract>, ds: seq<Contract>)
    requires Ready(cs) && Ready(ds) && SameSets(cs, ds)
    ensures EmptyFields(cs) == EmptyFields(ds) && MeetSets(cs) == MeetSets(ds)
  {
    forall f | f in ALL_SETS ensures MeetSet(cs, f) == MeetSet(ds, f) { }
  }

  lemma SameBoundsMeet(cs: seq<Contract>, ds: seq<Contract>)
    requires cs != [] && ds != [] && SameBounds(cs, ds)
    ensures BoundsMeet(cs) == BoundsMeet(ds)
    ensures BoundsMeet(cs) ==> MeetBounds(cs) == MeetBounds(ds)
    ensures !BoundsMeet(cs) ==> BoundReason(cs) == BoundReason(ds)
  {
    forall n {:trigger BoundMeets(cs, n)} {:trigger BoundMeets(ds, n)} | n in BoundNames(cs) ensures BoundMeets(cs, n) == BoundMeets(ds, n) {
      assert SameBound(cs, ds, n);
    }
    assert BadBounds(cs) == BadBounds(ds);
    if BoundsMeet(cs) {
      var m, k := MeetBounds(cs), MeetBounds(ds);
      assert m.Keys == k.Keys;
      forall n | n in m ensures m[n] == k[n] { assert SameBound(cs, ds, n) && BoundMeets(cs, n) && BoundMeets(ds, n); }
    } else {
      var bad :| bad in BoundNames(cs) && !BoundMeets(cs, bad);
      assert bad in BadBounds(cs);
      assert SameBound(cs, ds, Sorting.First(BadBounds(cs)));
    }
  }

  lemma SameBudgetsMeet(cs: seq<Contract>, ds: seq<Contract>)
    requires Ready(cs) && Ready(ds) && SameLimits(cs, ds)
    ensures MeetBudgets(cs) == MeetBudgets(ds)
  {
    var m, k := MeetBudgets(cs), MeetBudgets(ds);
    forall f | f in m ensures m[f] == k[f] { assert Least(Budgets(cs, f)) == Least(Budgets(ds, f)); }
  }

  lemma AgreedEffective(cs: seq<Contract>, ds: seq<Contract>)
    requires Ready(cs) && Ready(ds) && BoundsMeet(cs) && BoundsMeet(ds)
    requires cs[0].project == ds[0].project && MeetSets(cs) == MeetSets(ds) && MeetBounds(cs) == MeetBounds(ds)
    requires MeetBudgets(cs) == MeetBudgets(ds) && SameLimits(cs, ds) && SameLabels(cs, ds)
    ensures Effective(cs) == Effective(ds)
  {
  }

  /** Inputs that agree on every dimension have the same intersection, or are refused for the same reason. */
  lemma AgreedMeet(cs: seq<Contract>, ds: seq<Contract>)
    requires Ready(cs) && Ready(ds) && Agree(cs, ds)
    ensures Meet(cs) == Meet(ds)
  {
    SameSetsMeet(cs, ds);
    SameBoundsMeet(cs, ds);
    SameBudgetsMeet(cs, ds);
    if OneProject(cs) && BoundsMeet(cs) { AgreedEffective(cs, ds); }
  }

  // ---------------------------------------------------------------- extremes

  lemma ExtremeOnly<T(!new)>(xs: seq<T>, before: (T, T) -> bool, v: T)
    requires Order(before) && v in xs && forall x {:trigger x in xs} :: x in xs ==> x == v || before(v, x)
    ensures Extreme(xs, before) == v
  {
    ExtremeIs(xs, before);
  }

  ghost predicate SameElements<T(!new)>(xs: seq<T>, ys: seq<T>) {
    forall x {:trigger x in xs} {:trigger x in ys} :: x in xs <==> x in ys
  }

  lemma ExtremeOfTheSet<T(!new)>(xs: seq<T>, ys: seq<T>, before: (T, T) -> bool)
    requires Order(before) && xs != [] && SameElements(xs, ys)
    ensures ys != [] && Extreme(xs, before) == Extreme(ys, before)
  {
    assert xs[0] in xs;
    ExtremeIs(xs, before);
    ExtremeOnly(ys, before, Extreme(xs, before));
  }

  lemma ExtremeOfExtreme<T(!new)>(xs: seq<T>, ys: seq<T>, before: (T, T) -> bool)
    requires Order(before) && xs != []
    ensures Extreme([Extreme(xs, before)] + ys, before) == Extreme(xs + ys, before)
  {
    var e := Extreme(xs, before);
    var grouped, flat := [e] + ys, xs + ys;
    var v := Extreme(grouped, before);
    ExtremeIs(xs, before);
    ExtremeIs(grouped, before);
    assert e in grouped;
    assert v in flat;
    forall x {:trigger x in flat} | x in flat ensures x == v || before(v, x) {
      if x in ys { assert x in grouped; }
    }
    ExtremeOnly(flat, before, v);
  }

  /** The values that a list of contracts has on one dimension. */
  ghost predicate Holds<T(!new)>(cs: seq<Contract>, g: Contract -> T, xs: seq<T>) {
    |xs| == |cs| && forall i {:trigger xs[i]} {:trigger cs[i]} :: 0 <= i < |cs| ==> xs[i] == g(cs[i])
  }

  lemma OnceOver<T(!new)>(cs: seq<Contract>, ds: seq<Contract>, xs: seq<T>, ys: seq<T>, g: Contract -> T)
    requires SameInputs(cs, ds) && Holds(cs, g, xs) && Holds(ds, g, ys)
    ensures forall x :: x in xs ==> x in ys
  {
    forall x | x in xs ensures x in ys {
      var i :| 0 <= i < |xs| && xs[i] == x;
      var j := Covered(cs, ds, i);
      assert ys[j] == x;
    }
  }

  lemma ExtremeOfInputs<T(!new)>(cs: seq<Contract>, ds: seq<Contract>, xs: seq<T>, ys: seq<T>, g: Contract -> T, before: (T, T) -> bool)
    requires Order(before) && cs != [] && ds != [] && SameInputs(cs, ds) && Holds(cs, g, xs) && Holds(ds, g, ys)
    ensures Extreme(xs, before) == Extreme(ys, before)
  {
    OnceOver(cs, ds, xs, ys, g);
    OnceOver(ds, cs, ys, xs, g);
    ExtremeOfTheSet(xs, ys, before);
  }

  lemma ExtremeOfGroups<T(!new)>(e: Contract, cs: seq<Contract>, ds: seq<Contract>, xs: seq<T>, grouped: seq<T>, flat: seq<T>,
                                 g: Contract -> T, before: (T, T) -> bool)
    requires Order(before) && cs != [] && Holds(cs, g, xs) && Holds([e] + ds, g, grouped) && Holds(cs + ds, g, flat)
    requires g(e) == Extreme(xs, before)
    ensures Extreme(grouped, before) == Extreme(flat, before)
  {
    var ys := seq(|ds|, i requires 0 <= i < |ds| => g(ds[i]));
    assert grouped == [g(e)] + ys;
    assert flat == xs + ys;
    ExtremeOfExtreme(xs, ys, before);
  }

  /** The dimensions, as functions of one contract. */
  function MinOf(n: string): Contract -> real {
    (c: Contract) => if n in c.bounds then c.bounds[n].min else 0.0
  }

  function MaxOf(n: string): Contract -> real {
    (c: Contract) => if n in c.bounds then c.bounds[n].max else 0.0
  }

  function BudgetOf(f: BudgetField): Contract -> real {
    (c: Contract) => if f in c.budgets then c.budgets[f] else 0.0
  }

  function OccurrencesOf(c: Contract): int { c.maxOccurrences }

  function StartOf(c: Contract): Candidate { c.validFrom }

  function EndOf(c: Contract): Candidate { c.validUntil }

  // ---------------------------------------------------------------- order and repetition

  ghost predicate SameInputs(cs: seq<Contract>, ds: seq<Contract>) {
    forall c {:trigger c in cs} {:trigger c in ds} :: c in cs <==> c in ds
  }

  lemma Covered(cs: seq<Contract>, ds: seq<Contract>, i: nat) returns (j: nat)
    requires SameInputs(cs, ds) && i < |cs|
    ensures j < |ds| && ds[j] == cs[i]
  {
    assert cs[i] in ds;
    j :| 0 <= j < |ds| && ds[j] == cs[i];
  }

  lemma ProjectOnceOver(cs: seq<Contract>, ds: seq<Contract>)
    requires SameInputs(cs, ds) && cs != [] && ds != [] && OneProject(ds)
    ensures OneProject(cs) && cs[0].project == ds[0].project
  {
    forall i | 0 <= i < |cs| ensures cs[i].project == ds[0].project { var j := Covered(cs, ds, i); }
  }

  lemma SetOnceOver(cs: seq<Contract>, ds: seq<Contract>, f: SetField)
    requires SameInputs(cs, ds) && Ready(cs) && Ready(ds)
    ensures MeetSet(ds, f) <= MeetSet(cs, f)
  {
    EveryField(f);
    forall i | 0 <= i < |cs| ensures MeetSet(ds, f) <= cs[i].sets[f] { var j := Covered(cs, ds, i); }
  }

  lemma BoundOnceOver(cs: seq<Contract>, ds: seq<Contract>, n: string)
    requires SameInputs(cs, ds)
    ensures n in BoundNames(cs) ==> n in BoundNames(ds)
    ensures AllBound(ds, n) ==> AllBound(cs, n)
  {
    if n in BoundNames(cs) {
      var i :| 0 <= i < |cs| && n in cs[i].bounds;
      var j := Covered(cs, ds, i);
    }
    if AllBound(ds, n) {
      forall i {:trigger cs[i]} | 0 <= i < |cs| ensures n in cs[i].bounds { var j := Covered(cs, ds, i); }
    }
  }

  lemma BoundOfTheSet(cs: seq<Contract>, ds: seq<Contract>, n: string)
    requires SameInputs(cs, ds) && cs != [] && ds != []
    ensures SameBound(cs, ds, n)
  {
    BoundOnceOver(cs, ds, n);
    BoundOnceOver(ds, cs, n);
    if AllBound(cs, n) {
      Orders();
      ExtremeOfInputs(cs, ds, Mins(cs, n), Mins(ds, n), MinOf(n), MoreReal);
      ExtremeOfInputs(cs, ds, Maxes(cs, n), Maxes(ds, n), MaxOf(n), LessReal);
    }
  }

  lemma WindowOfTheSet(cs: seq<Contract>, ds: seq<Contract>)
    requires SameInputs(cs, ds) && cs != [] && ds != []
    ensures Start(cs) == Start(ds) && End(cs) == End(ds)
  {
    OnceOver(cs, ds, Starts(cs), Starts(ds), StartOf);
    OnceOver(ds, cs, Starts(ds), Starts(cs), StartOf);
    OnceOver(cs, ds, Ends(cs), Ends(ds), EndOf);
    OnceOver(ds, cs, Ends(ds), Ends(cs), EndOf);
    BestOfTheSet(Starts(cs), Starts(ds), true);
    BestOfTheSet(Ends(cs), Ends(ds), false);
  }

  lemma LimitsOfTheSet(cs: seq<Contract>, ds: seq<Contract>)
    requires SameInputs(cs, ds) && Ready(cs) && Ready(ds)
    ensures SameLimits(cs, ds)
  {
    Orders();
    forall f {:trigger Budgets(cs, f)} {:trigger Budgets(ds, f)} ensures Least(Budgets(cs, f)) == Least(Budgets(ds, f)) {
      ExtremeOfInputs(cs, ds, Budgets(cs, f), Budgets(ds, f), BudgetOf(f), LessReal);
    }
    WindowOfTheSet(cs, ds);
    ExtremeOfInputs(cs, ds, Occurrences(cs), Occurrences(ds), OccurrencesOf, LessInt);
  }

  /** Whatever label one input has is seen in the other list. */
  lemma LabelsOnceOver(cs: seq<Contract>, ds: seq<Contract>)
    requires SameInputs(cs, ds)
    ensures (AnyExternal(cs) ==> AnyExternal(ds)) && (AnyApproval(cs) ==> AnyApproval(ds))
    ensures forall r :: AnyWith(cs, r) ==> AnyWith(ds, r)
    ensures AllExcludes(cs) <= AllExcludes(ds) && AllVersions(cs) <= AllVersions(ds)
  {
    forall i | 0 <= i < |cs| ensures exists j :: 0 <= j < |ds| && ds[j] == cs[i] { var j := Covered(cs, ds, i); }
  }

  lemma ProjectOfTheSet(cs: seq<Contract>, ds: seq<Contract>)
    requires SameInputs(cs, ds) && cs != [] && ds != []
    ensures SameProject(cs, ds)
  {
    if OneProject(cs) { ProjectOnceOver(ds, cs); }
    if OneProject(ds) { ProjectOnceOver(cs, ds); }
  }

  lemma SetsOfTheSet(cs: seq<Contract>, ds: seq<Contract>)
    requires SameInputs(cs, ds) && Ready(cs) && Ready(ds)
    ensures SameSets(cs, ds)
  {
    forall f {:trigger MeetSet(cs, f)} {:trigger MeetSet(ds, f)} ensures MeetSet(cs, f) == MeetSet(ds, f) {
      SetOnceOver(cs, ds, f);
      SetOnceOver(ds, cs, f);
    }
  }

  lemma BoundsOfTheSet(cs: seq<Contract>, ds: seq<Contract>)
    requires SameInputs(cs, ds) && cs != [] && ds != []
    ensures SameBounds(cs, ds)
  {
    forall n ensures n in BoundNames(cs) <==> n in BoundNames(ds) {
      BoundOnceOver(cs, ds, n);
      BoundOnceOver(ds, cs, n);
    }
    forall n {:trigger SameBound(cs, ds, n)} ensures SameBound(cs, ds, n) { BoundOfTheSet(cs, ds, n); }
  }

  lemma LabelsOfTheSet(cs: seq<Contract>, ds: seq<Contract>)
    requires SameInputs(cs, ds)
    ensures SameLabels(cs, ds)
  {
    LabelsOnceOver(cs, ds);
    LabelsOnceOver(ds, cs);
  }

  /** The meet, or the reason of its refusal, is a function of the set of the inputs. */
  lemma MeetOfTheSet(cs: seq<Contract>, ds: seq<Contract>)
    requires Ready(cs) && Ready(ds) && SameInputs(cs, ds)
    ensures Meet(cs) == Meet(ds)
  {
    ProjectOfTheSet(cs, ds);
    SetsOfTheSet(cs, ds);
    BoundsOfTheSet(cs, ds);
    LimitsOfTheSet(cs, ds);
    LabelsOfTheSet(cs, ds);
    AgreedMeet(cs, ds);
  }

  // ---------------------------------------------------------------- grouping

  /** What the intersection of some inputs says of them, dimension by dimension. */
  ghost predicate Stands(e: Contract, cs: seq<Contract>)
    requires Ready(cs)
  {
    && Ready([e]) && OneProject(cs) && e.project == cs[0].project && BoundsMeet(cs)
    && e.sets == MeetSets(cs) && e.excludes == AllExcludes(cs) && e.bounds == MeetBounds(cs) && e.budgets == MeetBudgets(cs)
    && e.validFrom == Start(cs) && e.validUntil == End(cs) && e.maxOccurrences == Fewest(Occurrences(cs))
    && HasLabels(e, cs)
  }

  lemma MeetStands(cs: seq<Contract>)
    requires Ready(cs) && Meet(cs).Ok?
    ensures Stands(Meet(cs).value, cs)
  {
    MeetIsEffective(cs);
  }

  lemma GroupsAreReady(cs: seq<Contract>, ds: seq<Contract>)
    requires HasSets(cs) && HasBudgets(cs) && HasSets(ds) && HasBudgets(ds)
    ensures HasSets(cs + ds) && HasBudgets(cs + ds)
  {
  }

  lemma GroupedProject(e: Contract, cs: seq<Contract>, ds: seq<Contract>)
    requires cs != [] && OneProject(cs) && e.project == cs[0].project
    ensures SameProject([e] + ds, cs + ds)
  {
    var grouped, flat := [e] + ds, cs + ds;
    if OneProject(grouped) {
      forall i | 0 <= i < |flat| ensures flat[i].project == e.project { if i >= |cs| { assert flat[i] == grouped[1 + i - |cs|]; } }
    }
    if OneProject(flat) {
      forall i | 0 <= i < |grouped| ensures grouped[i].project == e.project { if i > 0 { assert grouped[i] == flat[i - 1 + |cs|]; } }
    }
  }

  lemma GroupedSet(e: Contract, cs: seq<Contract>, ds: seq<Contract>, f: SetField)
    requires Ready(cs) && Ready([e] + ds) && Ready(cs + ds) && e.sets == MeetSets(cs)
    ensures MeetSet([e] + ds, f) == MeetSet(cs + ds, f)
  {
    var grouped, flat := [e] + ds, cs + ds;
    EveryField(f);
    forall x | x in MeetSet(grouped, f) ensures x in MeetSet(flat, f) {
      assert x in e.sets[f];
      forall i | 0 <= i < |flat| ensures x in flat[i].sets[f] { if i >= |cs| { assert flat[i] == grouped[1 + i - |cs|]; } }
    }
    forall x | x in MeetSet(flat, f) ensures x in MeetSet(grouped, f) {
      forall i | 0 <= i < |cs| ensures x in cs[i].sets[f] { assert flat[i] == cs[i]; }
      assert x in e.sets[f];
      forall i | 0 <= i < |grouped| ensures x in grouped[i].sets[f] { if i > 0 { assert grouped[i] == flat[i - 1 + |cs|]; } }
    }
  }

  lemma BoundNamesJoined(cs: seq<Contract>, ds: seq<Contract>, n: string)
    ensures n in BoundNames(cs + ds) <==> n in BoundNames(cs) || n in BoundNames(ds)
    ensures AllBound(cs + ds, n) <==> AllBound(cs, n) && AllBound(ds, n)
  {
    var all := cs + ds;
    assert forall i :: 0 <= i < |cs| ==> all[i] == cs[i];
    assert forall i :: 0 <= i < |ds| ==> all[|cs| + i] == ds[i];
    assert forall i :: |cs| <= i < |all| ==> all[i] == ds[i - |cs|];
  }

  lemma OneBound(e: Contract, n: string)
    ensures n in BoundNames([e]) <==> n in e.bounds
    ensures AllBound([e], n) <==> n in e.bounds
  {
    assert [e][0] == e;
  }

  lemma GroupedNames(e: Contract, cs: seq<Contract>, ds: seq<Contract>, n: string)
    requires cs != [] && BoundsMeet(cs) && e.bounds == MeetBounds(cs)
    ensures n in BoundNames([e] + ds) <==> n in BoundNames(cs + ds)
    ensures AllBound([e] + ds, n) <==> AllBound(cs + ds, n)
    ensures AllBound(cs + ds, n) ==> AllBound(cs, n) && n in e.bounds && e.bounds[n] == MeetBound(cs, n)
  {
    BoundNamesJoined([e], ds, n);
    BoundNamesJoined(cs, ds, n);
    OneBound(e, n);
    if n in e.bounds { assert BoundMeets(cs, n); }
    if AllBound(cs, n) { assert n in cs[0].bounds; }
  }

  lemma GroupedBound(e: Contract, cs: seq<Contract>, ds: seq<Contract>, n: string)
    requires cs != [] && BoundsMeet(cs) && e.bounds == MeetBounds(cs)
    ensures SameBound([e] + ds, cs + ds, n)
  {
    GroupedNames(e, cs, ds, n);
    if AllBound(cs + ds, n) {
      Orders();
      ExtremeOfGroups(e, cs, ds, Mins(cs, n), Mins([e] + ds, n), Mins(cs + ds, n), MinOf(n), MoreReal);
      ExtremeOfGroups(e, cs, ds, Maxes(cs, n), Maxes([e] + ds, n), Maxes(cs + ds, n), MaxOf(n), LessReal);
    }
  }

  lemma GroupedBounds(e: Contract, cs: seq<Contract>, ds: seq<Contract>)
    requires cs != [] && BoundsMeet(cs) && e.bounds == MeetBounds(cs)
    ensures SameBounds([e] + ds, cs + ds)
  {
    var grouped, flat := [e] + ds, cs + ds;
    forall n {:trigger SameBound(grouped, flat, n)} {:trigger n in BoundNames(grouped)} {:trigger n in BoundNames(flat)}
      ensures SameBound(grouped, flat, n) && (n in BoundNames(grouped) <==> n in BoundNames(flat))
    {
      GroupedNames(e, cs, ds, n);
      GroupedBound(e, cs, ds, n);
    }
  }

  lemma GroupedBudget(e: Contract, cs: seq<Contract>, ds: seq<Contract>, f: BudgetField)
    requires Ready(cs) && Ready([e] + ds) && Ready(cs + ds) && e.budgets == MeetBudgets(cs)
    ensures Least(Budgets([e] + ds, f)) == Least(Budgets(cs + ds, f))
  {
    EveryBudget(f);
    Orders();
    ExtremeOfGroups(e, cs, ds, Budgets(cs, f), Budgets([e] + ds, f), Budgets(cs + ds, f), BudgetOf(f), LessReal);
  }

  lemma GroupedWindow(e: Contract, cs: seq<Contract>, ds: seq<Contract>)
    requires cs != [] && e.validFrom == Start(cs) && e.validUntil == End(cs)
    ensures Start([e] + ds) == Start(cs + ds) && End([e] + ds) == End(cs + ds)
  {
    assert Starts([e] + ds) == [Start(cs)] + Starts(ds) && Starts(cs + ds) == Starts(cs) + Starts(ds);
    assert Ends([e] + ds) == [End(cs)] + Ends(ds) && Ends(cs + ds) == Ends(cs) + Ends(ds);
    BestOfBest(Starts(cs), Starts(ds), true);
    BestOfBest(Ends(cs), Ends(ds), false);
  }

  lemma GroupedLimits(e: Contract, cs: seq<Contract>, ds: seq<Contract>)
    requires Ready(cs) && Ready([e] + ds) && Ready(cs + ds) && e.budgets == MeetBudgets(cs)
    requires e.validFrom == Start(cs) && e.validUntil == End(cs) && e.maxOccurrences == Fewest(Occurrences(cs))
    ensures SameLimits([e] + ds, cs + ds)
  {
    var grouped, flat := [e] + ds, cs + ds;
    forall f {:trigger Budgets(grouped, f)} {:trigger Budgets(flat, f)} ensures Least(Budgets(grouped, f)) == Least(Budgets(flat, f)) {
      GroupedBudget(e, cs, ds, f);
    }
    GroupedWindow(e, cs, ds);
    Orders();
    ExtremeOfGroups(e, cs, ds, Occurrences(cs), Occurrences(grouped), Occurrences(flat), OccurrencesOf, LessInt);
  }

  lemma AnyJoined(cs: seq<Contract>, ds: seq<Contract>)
    ensures AnyExternal(cs + ds) <==> AnyExternal(cs) || AnyExternal(ds)
    ensures AnyApproval(cs + ds) <==> AnyApproval(cs) || AnyApproval(ds)
    ensures forall r :: AnyWith(cs + ds, r) <==> AnyWith(cs, r) || AnyWith(ds, r)
    ensures AllExcludes(cs + ds) == AllExcludes(cs) + AllExcludes(ds)
    ensures AllVersions(cs + ds) == AllVersions(cs) + AllVersions(ds)
  {
    var all := cs + ds;
    assert forall i :: 0 <= i < |cs| ==> all[i] == cs[i];
    assert forall i :: 0 <= i < |ds| ==> all[|cs| + i] == ds[i];
    assert forall i :: |cs| <= i < |all| ==> all[i] == ds[i - |cs|];
  }

  lemma OneIsItself(e: Contract)
    ensures AnyExternal([e]) <==> e.externality == External
    ensures AnyApproval([e]) <==> e.approvalRequired
    ensures forall r :: AnyWith([e], r) <==> e.reversibility == r
    ensures AllExcludes([e]) == e.excludes && AllVersions([e]) == e.sourceVersions
  {
    assert [e][0] == e;
  }

  lemma GroupedLabels(e: Contract, cs: seq<Contract>, ds: seq<Contract>)
    requires HasLabels(e, cs) && e.excludes == AllExcludes(cs)
    ensures SameLabels([e] + ds, cs + ds)
  {
    AnyJoined(cs, ds);
    AnyJoined([e], ds);
    OneIsItself(e);
  }

  /** Intersecting some inputs first and the rest with the result gives the same contract, or the same refusal. */
  lemma MeetOfGroups(cs: seq<Contract>, ds: seq<Contract>)
    requires Ready(cs) && HasSets(ds) && HasBudgets(ds) && Meet(cs).Ok?
    ensures Ready(cs + ds) && Ready([Meet(cs).value] + ds)
    ensures Meet([Meet(cs).value] + ds) == Meet(cs + ds)
  {
    var e := Meet(cs).value;
    MeetStands(cs);
    GroupsAreReady(cs, ds);
    GroupsAreReady([e], ds);
    GroupsAgree(e, cs, ds);
    AgreedMeet([e] + ds, cs + ds);
  }

  lemma GroupsAgree(e: Contract, cs: seq<Contract>, ds: seq<Contract>)
    requires Ready(cs) && Stands(e, cs) && Ready([e] + ds) && Ready(cs + ds)
    ensures Agree([e] + ds, cs + ds)
  {
    GroupedProject(e, cs, ds);
    forall f {:trigger MeetSet([e] + ds, f)} {:trigger MeetSet(cs + ds, f)} ensures MeetSet([e] + ds, f) == MeetSet(cs + ds, f) {
      GroupedSet(e, cs, ds, f);
    }
    GroupedBounds(e, cs, ds);
    GroupedLimits(e, cs, ds);
    GroupedLabels(e, cs, ds);
  }

  lemma LowerBoundOfTheSet(x: Contract, cs: seq<Contract>, ds: seq<Contract>)
    requires LowerBound(x, cs) && forall c {:trigger c in ds} :: c in ds ==> c in cs
    ensures LowerBound(x, ds)
  {
    forall i {:trigger Below(x, ds[i])} | 0 <= i < |ds| ensures Below(x, ds[i]) {
      assert ds[i] in ds;
      var j :| 0 <= j < |cs| && cs[j] == ds[i];
      assert Below(x, cs[j]);
    }
  }

  lemma MeetIsLowerBound(cs: seq<Contract>)
    requires AllSound(cs) && Ready(cs) && Meet(cs).Ok?
    ensures Sound(Meet(cs).value) && LowerBound(Meet(cs).value, cs)
  {
    MeetIsSound(cs);
    forall i {:trigger Below(Meet(cs).value, cs[i])} | 0 <= i < |cs| ensures Below(Meet(cs).value, cs[i]) { MeetIsBelow(cs, i); }
  }

  /** What some inputs already refuse, more inputs do not allow. */
  lemma RefusalStays(cs: seq<Contract>, ds: seq<Contract>)
    requires AllSound(cs) && Ready(cs) && AllSound(ds) && Ready(cs + ds) && Meet(cs).Err?
    ensures Meet(cs + ds).Err?
  {
    var flat := cs + ds;
    forall i {:trigger Sound(flat[i])} | 0 <= i < |flat| ensures Sound(flat[i]) {
      if i < |cs| { assert Sound(cs[i]); } else { assert Sound(ds[i - |cs|]); }
    }
    if Meet(flat).Ok? {
      MeetIsLowerBound(flat);
      LowerBoundOfTheSet(Meet(flat).value, flat, cs);
      MeetIsGreatest(cs, Meet(flat).value);
      assert false;
    }
  }

  // ---------------------------------------------------------------- decisions

  ghost predicate SameRaws(rs: seq<Raw>, qs: seq<Raw>) {
    forall r {:trigger r in rs} {:trigger r in qs} :: r in rs <==> r in qs
  }

  lemma CleanedOnceOver(rs: seq<Raw>, qs: seq<Raw>)
    requires AllAcceptable(qs) && SameRaws(rs, qs)
    ensures AllAcceptable(rs)
    ensures forall c {:trigger c in CleanAll(qs)} :: c in CleanAll(rs) ==> c in CleanAll(qs)
  {
    forall i {:trigger rs[i]} | 0 <= i < |rs| ensures Acceptable(rs[i]) {
      assert rs[i] in qs;
      var j :| 0 <= j < |qs| && qs[j] == rs[i];
    }
    forall c {:trigger c in CleanAll(qs)} | c in CleanAll(rs) ensures c in CleanAll(qs) {
      var i :| 0 <= i < |rs| && CleanAll(rs)[i] == c;
      assert rs[i] in qs;
      var j :| 0 <= j < |qs| && qs[j] == rs[i];
      assert CleanAll(qs)[j] == c;
    }
  }

  lemma CleanedAlike(rs: seq<Raw>, qs: seq<Raw>)
    requires SameRaws(rs, qs) && AllAcceptable(rs)
    ensures AllAcceptable(qs) && SameInputs(CleanAll(rs), CleanAll(qs))
  {
    CleanedOnceOver(qs, rs);
    CleanedOnceOver(rs, qs);
  }

  /** The decision, when all inputs are contracts. */
  lemma DecisionIsMeet(rs: seq<Raw>)
    requires rs != [] && AllAcceptable(rs)
    ensures AllSound(CleanAll(rs)) && Ready(CleanAll(rs))
    ensures Intersect(rs) == Decide(Meet(CleanAll(rs)), |rs|)
  {
    FirstFaultIff(rs);
    CleanedAreReady(rs);
  }

  lemma DecidedDigest(cs: seq<Contract>, count: nat)
    requires Ready(cs)
    ensures var d := Decide(Meet(cs), count);
            d.effective == (if Meet(cs).Ok? then Some(Meet(cs).value) else None) && d.digest == Digest(d.effective)
  {
  }

  ghost predicate RefusesInput(d: Decision) {
    exists fault :: d == Refuse(InvalidContract(fault), {All})
  }

  lemma UnacceptableIsRefused(rs: seq<Raw>)
    requires rs != [] && !AllAcceptable(rs)
    ensures RefusesInput(Intersect(rs))
  {
    FirstFaultIff(rs);
    assert Intersect(rs) == Refuse(InvalidContract(FirstFault(rs).value), {All});
  }

  /** The same decision, for another number of inputs. */
  function Recounted(d: Decision, count: nat): Decision {
    if d.effective.Some? then d.(verdict := if count > 1 then Narrow else Allow) else d
  }

  /**
   * The decision depends on the set of the inputs. Only their number shows, in
   * Allow or Narrow, and among several faulty inputs the one that is reported.
   */
  lemma DecisionOfTheSet(rs: seq<Raw>, qs: seq<Raw>)
    requires SameRaws(rs, qs)
    ensures AllAcceptable(rs) == AllAcceptable(qs)
    ensures AllAcceptable(rs) ==> Intersect(qs) == Recounted(Intersect(rs), |qs|)
    ensures !AllAcceptable(rs) ==> RefusesInput(Intersect(rs)) && RefusesInput(Intersect(qs))
  {
    assert rs == [] || rs[0] in rs;
    assert qs == [] || qs[0] in qs;
    if AllAcceptable(rs) {
      CleanedAlike(rs, qs);
      if rs != [] {
        assert rs[0] in qs;
        DecisionIsMeet(rs);
        DecisionIsMeet(qs);
        MeetOfTheSet(CleanAll(rs), CleanAll(qs));
        DecidedDigest(CleanAll(rs), |rs|);
      }
    } else {
      if AllAcceptable(qs) { CleanedAlike(qs, rs); assert false; }
      UnacceptableIsRefused(rs);
      UnacceptableIsRefused(qs);
    }
  }

  lemma {:induction false} FirstFaultJoined(rs: seq<Raw>, qs: seq<Raw>)
    ensures FirstFault(rs + qs) == Or(FirstFault(rs), FirstFault(qs))
  {
    if rs == [] {
      assert rs + qs == qs;
    } else {
      assert (rs + qs)[1..] == rs[1..] + qs;
      FirstFaultJoined(rs[1..], qs);
    }
  }

  lemma WindowTimed(cs: seq<Contract>)
    requires cs != [] && forall i {:trigger cs[i]} :: 0 <= i < |cs| ==> OnTime(cs[i])
    ensures Timed(Start(cs)) && Timed(End(cs))
  {
    WindowIsExtreme(cs);
    var i :| 0 <= i < |cs| && cs[i].validFrom == Start(cs);
    var j :| 0 <= j < |cs| && cs[j].validUntil == End(cs);
    assert OnTime(cs[i]) && OnTime(cs[j]);
  }

  lemma CleanedAreTimed(rs: seq<Raw>, i: nat)
    requires AllAcceptable(rs) && i < |rs|
    ensures OnTime(CleanAll(rs)[i])
  {
    NormalizedIsSound(rs[i]);
  }

  /** What a decision makes effective is a contract that is accepted again, unchanged. */
  lemma EffectiveAgain(rs: seq<Raw>, again: Raw)
    requires Intersect(rs).effective.Some? && Spells(again, Intersect(rs).effective.value)
    ensures AllAcceptable(rs) && Sound(Intersect(rs).effective.value) && OnTime(Intersect(rs).effective.value)
    ensures Normalize(again) == Ok(Intersect(rs).effective.value)
  {
    var e := Intersect(rs).effective.value;
    if !AllAcceptable(rs) { UnacceptableIsRefused(rs); }
    DecisionIsMeet(rs);
    var cs := CleanAll(rs);
    DecidedDigest(cs, |rs|);
    MeetIsSound(cs);
    forall i {:trigger cs[i]} | 0 <= i < |cs| ensures OnTime(cs[i]) { CleanedAreTimed(rs, i); }
    WindowTimed(cs);
    MeetIsEffective(cs);
    NormalizeAgainIff(again, e);
  }

  lemma CleanedJoined(rs: seq<Raw>, qs: seq<Raw>)
    ensures CleanAll(rs + qs) == CleanAll(rs) + CleanAll(qs)
  {
  }

  lemma FaultsOfGroups(rs: seq<Raw>, qs: seq<Raw>, again: Raw)
    requires AllAcceptable(rs) && Normalize(again).Ok?
    ensures FirstFault([again] + qs) == FirstFault(qs) == FirstFault(rs + qs)
  {
    FirstFaultIff(rs);
    FirstFaultJoined(rs, qs);
    FirstFaultJoined([again], qs);
    assert FirstFault([again]) == FaultOf(again) by { assert [again][1..] == []; }
  }

  lemma FaultDecides(rs: seq<Raw>, fault: Fault)
    requires rs != [] && FirstFault(rs) == Some(fault)
    ensures Intersect(rs) == Refuse(InvalidContract(fault), {All})
  {
  }

  lemma RegroupedDecision(rs: seq<Raw>, qs: seq<Raw>, again: Raw, e: Contract)
    requires rs != [] && AllAcceptable(rs) && Normalize(again) == Ok(e) && Ready(CleanAll(rs)) && Meet(CleanAll(rs)) == Ok(e)
    ensures Intersect([again] + qs) == Recounted(Intersect(rs + qs), 1 + |qs|)
  {
    FaultsOfGroups(rs, qs, again);
    if FirstFault(qs).None? {
      FirstFaultIff(qs);
      FirstFaultIff(rs + qs);
      FirstFaultIff([again] + qs);
      GroupedDecision(rs, qs, again, e);
    } else {
      FaultDecides(rs + qs, FirstFault(qs).value);
      FaultDecides([again] + qs, FirstFault(qs).value);
    }
  }

  /**
   * Handing in the effective contract of some inputs for them gives the same
   * decision, refusals included; only the number of inputs shows.
   */
  lemma DecisionOfGroups(rs: seq<Raw>, qs: seq<Raw>, again: Raw)
    requires Intersect(rs).effective.Some? && Spells(again, Intersect(rs).effective.value)
    ensures Intersect([again] + qs) == Recounted(Intersect(rs + qs), 1 + |qs|)
  {
    EffectiveAgain(rs, again);
    GroupIsMeet(rs, Intersect(rs).effective.value);
    RegroupedDecision(rs, qs, again, Intersect(rs).effective.value);
  }

  lemma GroupIsMeet(rs: seq<Raw>, e: Contract)
    requires AllAcceptable(rs) && Intersect(rs).effective == Some(e)
    ensures rs != [] && Ready(CleanAll(rs)) && Meet(CleanAll(rs)) == Ok(e)
  {
    DecisionIsMeet(rs);
    DecidedDigest(CleanAll(rs), |rs|);
  }

  lemma RecountedDecide(cs: seq<Contract>, count: nat, other: nat)
    requires Ready(cs)
    ensures Recounted(Decide(Meet(cs), count), other) == Decide(Meet(cs), other)
  {
  }

  lemma CleanedGroups(rs: seq<Raw>, qs: seq<Raw>, again: Raw, e: Contract)
    requires Clean(again) == e
    ensures CleanAll(rs + qs) == CleanAll(rs) + CleanAll(qs) && CleanAll([again] + qs) == [e] + CleanAll(qs)
  {
    CleanedJoined(rs, qs);
    CleanedJoined([again], qs);
    assert CleanAll([again]) == [e];
  }

  lemma GroupsMeet(cs: seq<Contract>, ds: seq<Contract>, e: Contract)
    requires Ready(cs) && Meet(cs) == Ok(e) && HasSets(ds) && HasBudgets(ds)
    ensures Ready(cs + ds) && Ready([e] + ds) && Meet([e] + ds) == Meet(cs + ds)
  {
    MeetOfGroups(cs, ds);
  }

  lemma GroupedDecision(rs: seq<Raw>, qs: seq<Raw>, again: Raw, e: Contract)
    requires rs != [] && AllAcceptable(qs) && AllAcceptable(rs + qs) && AllAcceptable([again] + qs)
    requires Ready(CleanAll(rs)) && Meet(CleanAll(rs)) == Ok(e) && Clean(again) == e
    ensures Intersect([again] + qs) == Recounted(Intersect(rs + qs), 1 + |qs|)
  {
    CleanedGroups(rs, qs, again, e);
    DecisionIsMeet(rs + qs);
    DecisionIsMeet([again] + qs);
    if qs != [] { DecisionIsMeet(qs); }
    GroupsMeet(CleanAll(rs), CleanAll(qs), e);
    RecountedDecide(CleanAll(rs + qs), |rs + qs|, 1 + |qs|);
  }

  // ---------------------------------------------------------------- one contract

  lemma OneSet(c: Contract, f: SetField)
    requires Ready([c])
    ensures f in c.sets && MeetSet([c], f) == c.sets[f]
  {
    EveryField(f);
    assert [c][0] == c;
  }

  lemma OneBoundMeets(c: Contract, n: string)
    requires BoundsOk(c.bounds) && n in c.bounds
    ensures BoundMeets([c], n) && MeetBound([c], n) == c.bounds[n]
  {
    OneBound(c, n);
    assert BoundOk(n, c.bounds[n]);
  }

  lemma OneBoundsMeet(c: Contract)
    requires BoundsOk(c.bounds)
    ensures BoundsMeet([c]) && MeetBounds([c]) == c.bounds
  {
    forall n {:trigger BoundMeets([c], n)} {:trigger n in BoundNames([c])} | n in BoundNames([c]) ensures n in c.bounds && BoundMeets([c], n) {
      OneBound(c, n);
      OneBoundMeets(c, n);
    }
    var m := MeetBounds([c]);
    forall n | n in c.bounds ensures n in m && m[n] == c.bounds[n] {
      OneBound(c, n);
      OneBoundMeets(c, n);
    }
  }

  lemma OneStart(c: Contract)
    ensures Start([c]) == c.validFrom && End([c]) == c.validUntil
  {
    assert Starts([c])[0] in Starts([c]) && Ends([c])[0] in Ends([c]);
    BestIsExtreme(Starts([c]), true, c.validFrom);
    BestIsExtreme(Ends([c]), false, c.validUntil);
  }

  lemma OneIsNotEmpty(c: Contract)
    requires SetsOk(c.sets) && Ready([c])
    ensures MeetSets([c]) == c.sets && EmptyFields([c]) == {}
  {
    forall f | f in ALL_SETS ensures f in c.sets && MeetSet([c], f) == c.sets[f] && MeetSet([c], f) != {} {
      OneSet(c, f);
      assert ItemsOk(f, c.sets[f]);
    }
  }

  lemma OneEffective(c: Contract)
    requires Ready([c]) && BoundsMeet([c]) && MeetSets([c]) == c.sets && MeetBounds([c]) == c.bounds
    requires MeetBudgets([c]) == c.budgets && Start([c]) == c.validFrom && End([c]) == c.validUntil
    ensures Effective([c]) == c.(plainBounds := true)
  {
    OneIsItself(c);
  }

  /** A sound contract alone is its own intersection, with its bounds in a plain object. */
  lemma OneMeetsItself(c: Contract)
    requires Sound(c) && Ready([c])
    ensures Meet([c]) == Ok(c.(plainBounds := true))
  {
    OneIsNotEmpty(c);
    OneBoundsMeet(c);
    assert MeetBudgets([c]) == c.budgets;
    OneStart(c);
    OneEffective(c);
    MeetIsEffective([c]);
  }

  /**
   * An accepted contract alone is allowed. Handed in again as it came out, it is
   * allowed exactly when no bound is named `__proto__`.
   */
  lemma AllowedAgainIff(raw: Raw, again: Raw)
    requires Acceptable(raw) && Spells(again, Clean(raw))
    ensures Intersect([raw]).verdict == Allow
    ensures Intersect([again]) == if Json.PROTO in raw.bounds then Refuse(InvalidContract(Fault(BoundsAt, MustBe(Object))), {All}) else Intersect([raw])
  {
    NormalizedIsSound(raw);
    NormalizeAgainIff(again, Clean(raw));
    FaultIff(again);
    OneIsAllowed(raw);
    if Json.PROTO !in raw.bounds { OneIsAllowed(again); }
  }

  lemma OneIsAllowed(raw: Raw)
    requires Acceptable(raw)
    ensures Intersect([raw]) == Decide(Ok(Clean(raw).(plainBounds := true)), 1)
  {
    EveryFirst([raw], Acceptable);
    assert CleanAll([raw]) == [Clean(raw)];
    NormalizedIsSound(raw);
    DecisionIsMeet([raw]);
    OneMeetsItself(Clean(raw));
  }
}

/**
 * The loops of src/policy/scope-engine.mjs that fill result objects, proved
 * against the functions that say what they fill in.
 */
module ScopeEngine {
  import opened Wrappers
  import opened ScopeContracts
  import opened ScopeNormal
  import opened ScopeMeet
  import opened TimestampChoice
  import Json
  import Sorting

  lemma FieldsSoFar(i: nat)
    requires i < |SET_FIELDS|
    ensures SET_FIELDS[i] !in SET_FIELDS[..i]
    ensures SET_FIELDS[..i + 1] == SET_FIELDS[..i] + [SET_FIELDS[i]]
  {
  }

  lemma AllFieldsSeen(f: SetField)
    ensures f in SET_FIELDS[..|SET_FIELDS|]
  {
    EveryField(f);
    assert SET_FIELDS[..|SET_FIELDS|] == SET_FIELDS;
  }

  method NormalizeSets(raw: map<SetField, seq<string>>) returns (r: Result<map<SetField, set<string>>, Fault>)
    ensures match FieldFaults(raw, SET_FIELDS) case Some(fault) => r == Err(fault) case None => r == Ok(SetsOf(raw))
  {
    var sets: map<SetField, set<string>> := map[];
    for i := 0 to |SET_FIELDS|
      invariant FieldFaults(raw, SET_FIELDS) == FieldFaults(raw, SET_FIELDS[i..])
      invariant forall f :: f in sets <==> f in SET_FIELDS[..i]
      invariant forall f {:trigger sets[f]} :: f in sets ==> f in raw && sets[f] == ToSet(raw[f])
    {
      var f := SET_FIELDS[i];
      FieldsSoFar(i);
      assert SET_FIELDS[i..][0] == f && SET_FIELDS[i..][1..] == SET_FIELDS[i + 1..];
      var fault := FieldFault(raw, f);
      if fault.Some? { return Err(fault.value); }
      sets := sets[f := ToSet(raw[f])];
    }
    assert SET_FIELDS[|SET_FIELDS|..] == [];
    forall f | f in raw ensures f in sets { AllFieldsSeen(f); }
    assert sets == SetsOf(raw);
    r := Ok(sets);
  }

  /** The names that are gone through, and the result so far. */
  ghost predicate BoundsSoFar(raw: map<string, Range>, names: seq<string>, i: nat, bounds: map<string, Bound>, plain: bool)
    requires i <= |names| && forall n :: n in names ==> n in raw
  {
    && (forall j :: 0 <= j < i ==> names[j] !in FaultyBounds(raw))
    && (forall n {:trigger n in bounds} :: n in bounds <==> n in names[..i] && n != Json.PROTO)
    && (forall n {:trigger bounds[n]} :: n in bounds ==> n in raw && bounds[n] == BoundOf(raw[n]))
    && (plain <==> Json.PROTO !in names[..i])
  }

  lemma BoundsAllSeen(raw: map<string, Range>, names: seq<string>, bounds: map<string, Bound>, plain: bool)
    requires forall n {:trigger n in names} {:trigger n in raw} :: n in names <==> n in raw
    requires BoundsSoFar(raw, names, |names|, bounds, plain)
    ensures FaultyBounds(raw) == {} && bounds == BoundsOf(raw) && (plain <==> Json.PROTO !in raw)
  {
    assert names[..|names|] == names;
    forall n | n in raw ensures n !in FaultyBounds(raw) {
      assert n in names;
      var j :| 0 <= j < |names| && names[j] == n;
    }
  }

  lemma OneMoreBound(raw: map<string, Range>, names: seq<string>, i: nat, bounds: map<string, Bound>, plain: bool)
    requires i < |names| && (forall n :: n in names ==> n in raw) && BoundsSoFar(raw, names, i, bounds, plain)
    requires names[i] !in FaultyBounds(raw)
    ensures var n := names[i];
            if n == Json.PROTO then BoundsSoFar(raw, names, i + 1, bounds, false)
            else BoundsSoFar(raw, names, i + 1, bounds[n := BoundOf(raw[n])], plain)
  {
    assert names[..i + 1] == names[..i] + [names[i]];
  }

  /** The fault that the loop meets is the one of the first faulty name. */
  lemma FirstFaultyBound(raw: Raw, names: seq<string>, i: nat)
    requires raw.plainBounds && Sorting.Ascends(names) && i < |names|
    requires forall n {:trigger n in names} {:trigger n in raw.bounds} :: n in names <==> n in raw.bounds
    requires forall j :: 0 <= j < i ==> names[j] !in FaultyBounds(raw.bounds)
    requires names[i] in raw.bounds && RangeFault(names[i], raw.bounds[names[i]]).Some?
    ensures BoundFault(raw) == RangeFault(names[i], raw.bounds[names[i]])
  {
    assert names[i] in FaultyBounds(raw.bounds);
    Sorting.FirstInOrder(names, i, FaultyBounds(raw.bounds));
  }

  /** The loop over the sorted names. Assigning `__proto__` makes no property and replaces the prototype. */
  method NormalizeBounds(raw: Raw) returns (r: Result<(map<string, Bound>, bool), Fault>)
    ensures match BoundFault(raw)
            case Some(fault) => r == Err(fault)
            case None => r == Ok((BoundsOf(raw.bounds), Json.PROTO !in raw.bounds))
  {
    if !raw.plainBounds { return Err(Fault(BoundsAt, MustBe(Object))); }
    var bounds: map<string, Bound> := map[];
    var plain := true;
    var names := Sorting.Sort(raw.bounds.Keys);
    Sorting.SortAscends(raw.bounds.Keys);
    for i := 0 to |names|
      invariant BoundsSoFar(raw.bounds, names, i, bounds, plain)
    {
      var n := names[i];
      assert n in names;
      var fault := RangeFault(n, raw.bounds[n]);
      if fault.Some? {
        FirstFaultyBound(raw, names, i);
        return Err(fault.value);
      }
      OneMoreBound(raw.bounds, names, i, bounds, plain);
      if n == Json.PROTO { plain := false; } else { bounds := bounds[n := BoundOf(raw.bounds[n])]; }
    }
    BoundsAllSeen(raw.bounds, names, bounds, plain);
    r := Ok((bounds, plain));
  }

  /** `normalizeScopeContract` */
  method NormalizeScopeContract(raw: Raw) returns (r: Result<Contract, Fault>)
    ensures r == Normalize(raw)
  {
    var fault := HeadFault(raw);
    if fault.Some? { return Err(fault.value); }
    var sets := NormalizeSets(raw.sets);
    if sets.Err? { return Err(sets.error); }
    fault := Or(EnumFaults(raw.sets), PathFault(raw));
    if fault.Some? { return Err(fault.value); }
    var bounds := NormalizeBounds(raw);
    if bounds.Err? { return Err(bounds.error); }
    fault := Or(BudgetFaults(raw), Or(WindowFault(raw.validFrom, raw.validUntil), LabelFault(raw)));
    if fault.Some? { return Err(fault.value); }
    r := Ok(Contract(raw.project, sets.value, ToSet(OrEmpty(raw.excludes)), bounds.value.0, bounds.value.1,
                     raw.budgets, Timestamp(raw.validFrom), Timestamp(raw.validUntil), raw.maxOccurrences,
                     if raw.externality == Some(Internal) then Internal else External,
                     if raw.reversibility.Some? then raw.reversibility.value else Irreversible,
                     raw.approvalRequired != Some(false), ToSet(OrEmpty(raw.sourceVersions))));
  }

  lemma MapOneMore<T, U>(s: seq<T>, i: nat, f: T -> U)
    requires i < |s|
    ensures Map(s[..i + 1], f) == Map(s[..i], f) + [f(s[i])]
  {
  }

  method NormalizeAll(raws: seq<Raw>) returns (r: Result<seq<Contract>, Fault>)
    ensures match FirstFault(raws) case Some(fault) => r == Err(fault) case None => r == Ok(CleanAll(raws))
  {
    var contracts: seq<Contract> := [];
    for i := 0 to |raws|
      invariant FirstFault(raws) == FirstFault(raws[i..]) && contracts == CleanAll(raws[..i])
    {
      assert raws[i..][0] == raws[i] && raws[i..][1..] == raws[i + 1..];
      var c := NormalizeScopeContract(raws[i]);
      MapOneMore(raws, i, Clean);
      if c.Err? { return Err(c.error); }
      contracts := contracts + [c.value];
    }
    assert raws[..|raws|] == raws && raws[|raws|..] == [];
    r := Ok(contracts);
  }

  /** The loop over the set fields: what is left of each, and which are empty. */
  method IntersectSets(cs: seq<Contract>) returns (sets: map<SetField, set<string>>, empty: set<SetField>)
    requires Ready(cs)
    ensures sets == MeetSets(cs) && empty == EmptyFields(cs)
  {
    sets, empty := map[], {};
    for i := 0 to |SET_FIELDS|
      invariant forall f :: f in sets <==> f in SET_FIELDS[..i]
      invariant forall f {:trigger sets[f]} :: f in sets ==> sets[f] == MeetSet(cs, f)
      invariant forall f :: f in empty <==> f in SET_FIELDS[..i] && MeetSet(cs, f) == {}
    {
      var f := SET_FIELDS[i];
      FieldsSoFar(i);
      EveryField(f);
      var left := set x | x in cs[0].sets[f] && forall j :: 0 <= j < |cs| ==> x in cs[j].sets[f];
      sets := sets[f := left];
      if left == {} { empty := empty + {f}; }
    }
    forall f | f in ALL_SETS ensures f in SET_FIELDS[..|SET_FIELDS|] { AllFieldsSeen(f); }
    forall f | f in sets ensures f in ALL_SETS { EveryField(f); }
    forall f | f in empty ensures f in ALL_SETS { EveryField(f); }
    assert sets == MeetSets(cs);
    assert empty == EmptyFields(cs);
  }

  ghost predicate MeetSoFar(cs: seq<Contract>, names: seq<string>, i: nat, bounds: map<string, Bound>)
    requires cs != [] && i <= |names|
  {
    && (forall n {:trigger n in bounds} :: n in bounds <==> n in names[..i])
    && (forall j {:trigger names[j]} :: 0 <= j < i ==> BoundMeets(cs, names[j]))
    && forall n {:trigger bounds[n]} :: n in bounds ==> AllBound(cs, n) && bounds[n] == MeetBound(cs, n)
  }

  lemma OneMoreMeets(cs: seq<Contract>, names: seq<string>, i: nat, bounds: map<string, Bound>)
    requires cs != [] && i < |names| && MeetSoFar(cs, names, i, bounds) && BoundMeets(cs, names[i])
    ensures MeetSoFar(cs, names, i + 1, bounds[names[i] := MeetBound(cs, names[i])])
  {
    assert names[..i + 1] == names[..i] + [names[i]];
  }

  lemma BoundsAllMeet(cs: seq<Contract>, names: seq<string>, bounds: map<string, Bound>)
    requires cs != [] && MeetSoFar(cs, names, |names|, bounds)
    requires forall n {:trigger n in names} {:trigger n in BoundNames(cs)} :: n in names <==> n in BoundNames(cs)
    ensures BoundsMeet(cs) && bounds == MeetBounds(cs)
  {
    assert names[..|names|] == names;
    forall n {:trigger BoundMeets(cs, n)} | n in BoundNames(cs) ensures BoundMeets(cs, n) {
      assert n in names;
      var j :| 0 <= j < |names| && names[j] == n;
    }
  }

  lemma FirstBadBound(cs: seq<Contract>, names: seq<string>, i: nat)
    requires cs != [] && Sorting.Ascends(names) && forall n {:trigger n in names} :: n in names <==> n in BoundNames(cs)
    requires i < |names| && !BoundMeets(cs, names[i]) && forall j :: 0 <= j < i ==> BoundMeets(cs, names[j])
    ensures !BoundsMeet(cs) && BoundReason(cs) == if AllBound(cs, names[i]) then EmptyBound(names[i]) else MissingBound(names[i])
  {
    assert names[i] in names;
    Sorting.FirstInOrder(names, i, BadBounds(cs));
  }

  /** The loop over the sorted parameter names, which stops at the first bound that is missing or empty. */
  method IntersectBounds(cs: seq<Contract>) returns (r: Result<map<string, Bound>, Reason>)
    requires cs != []
    ensures r == if BoundsMeet(cs) then Ok(MeetBounds(cs)) else Err(BoundReason(cs))
  {
    var bounds: map<string, Bound> := map[];
    var names := Sorting.Sort(BoundNames(cs));
    Sorting.SortAscends(BoundNames(cs));
    for i := 0 to |names|
      invariant MeetSoFar(cs, names, i, bounds)
    {
      var n := names[i];
      if !AllBound(cs, n) {
        FirstBadBound(cs, names, i);
        return Err(MissingBound(n));
      }
      var min, max := Greatest(Mins(cs, n)), Least(Maxes(cs, n));
      if min > max {
        FirstBadBound(cs, names, i);
        return Err(EmptyBound(n));
      }
      OneMoreMeets(cs, names, i, bounds);
      bounds := bounds[n := Bound(min, max)];
    }
    BoundsAllMeet(cs, names, bounds);
    r := Ok(bounds);
  }

  /** `intersectScopes` */
  method IntersectScopes(raws: seq<Raw>) returns (d: Decision)
    ensures d == Intersect(raws)
  {
    if raws == [] { return Decision(Defer, None, Digest(None), [NoContracts], {All}, None); }
    var contracts := NormalizeAll(raws);
    if contracts.Err? { return Refuse(InvalidContract(contracts.error), {All}); }
    var cs := contracts.value;
    FirstFaultIff(raws);
    CleanedAreReady(raws);
    var met := IntersectContracts(cs);
    if met.Err? { return met.error; }
    d := Decision(if |cs| > 1 then Narrow else Allow, Some(met.value), Digest(Some(met.value)), [], {}, None);
  }

  method IntersectContracts(cs: seq<Contract>) returns (r: Result<Contract, Decision>)
    requires Ready(cs)
    ensures r == Meet(cs)
  {
    if !OneProject(cs) { return Err(Refuse(ProjectMismatch, {Project})); }
    var sets, empty := IntersectSets(cs);
    if empty != {} { return Err(Refuse(EmptyIntersection, set f | f in empty :: Field(f))); }
    var bounds := IntersectBounds(cs);
    if bounds.Err? { return Err(Refuse(bounds.error, {ParameterBounds})); }
    var from, until := Best(Starts(cs), true), Best(Ends(cs), false);
    if from.instant >= until.instant { return Err(Refuse(EmptyWindow, {ValidFrom, ValidUntil})); }
    r := Ok(Contract(cs[0].project, sets, AllExcludes(cs), bounds.value, true, MeetBudgets(cs), from, until, Fewest(Occurrences(cs)),
                     if AnyExternal(cs) then External else Internal,
                     if AnyWith(cs, Irreversible) then Irreversible
                     else if AnyWith(cs, PartiallyReversible) then PartiallyReversible else Reversible,
                     AnyApproval(cs), AllVersions(cs)));
  }
}

/**
 * What the scope engine answers, field by field: which request an evaluation
 * allows and what it holds against the others, and which reason a refused
 * intersection gives (src/policy/scope-engine.mjs).
 */
module ScopeAnswers {
  import opened Wrappers
  import opened ScopeContracts
  import opened ScopeNormal
  import opened ScopeMeet
  import opened ScopeRequests
  import opened ScopeLattice
  import opened TimestampChoice
  import Globs
  import Paths
  import Sorting
  import Text

  // ---------------------------------------------------------------- requests

  /** A plain object with just the six fields, each a trimmed single line, and a path that stays in the repository. */
  predicate Proper(r: Request) {
    && r.plain && r.unknown == []
    && Text.TrimmedLine(r.role) && Text.TrimmedLine(r.tool) && Text.TrimmedLine(r.memoryKind)
    && Text.TrimmedLine(r.capability) && Text.TrimmedLine(r.target) && Text.TrimmedLine(r.path)
    && Paths.NormalizeRequestPath(r.path).Ok?
  }

  lemma ProperIff(r: Request)
    ensures Proper(r) <==> ObjectionToRequest(r).None?
    ensures Proper(r) <==> RequestOk(r)
  {
  }

  /** The contract admits the normalised path. */
  ghost predicate PathWithin(e: Contract, r: Request)
    requires IncludePaths in e.sets && Proper(r)
  {
    var n := Paths.NormalizeRequestPath(r.path).value;
    && (exists p :: p in e.sets[IncludePaths] && Globs.GlobMatches(p, n))
    && !exists p :: p in e.excludes && Globs.GlobMatches(p, n)
  }

  /** The names in a request that are outside the contract's lists. */
  lemma NamesOutside(e: Contract, r: Request, n: string)
    requires e.sets.Keys == ALL_SETS
    ensures var found := Violations(e, r, n);
            && (Outside(Roles) in found <==> r.role !in e.sets[Roles])
            && (Outside(Tools) in found <==> r.tool !in e.sets[Tools])
            && (Outside(MemoryKinds) in found <==> r.memoryKind !in e.sets[MemoryKinds])
            && (Outside(Capabilities) in found <==> r.capability !in e.sets[Capabilities])
            && (Outside(Targets) in found <==> r.target !in e.sets[Targets])
  {
  }

  lemma PathOutside(e: Contract, r: Request, n: string)
    requires e.sets.Keys == ALL_SETS
    ensures var found := Violations(e, r, n);
            && (Outside(IncludePaths) in found <==> !exists p :: p in e.sets[IncludePaths] && Globs.GlobMatches(p, n))
            && (ExcludedPath in found <==> exists p :: p in e.excludes && Globs.GlobMatches(p, n))
  {
  }

  lemma NothingElseOutside(e: Contract, r: Request, n: string)
    requires e.sets.Keys == ALL_SETS
    ensures Violations(e, r, n) <= {Outside(Roles), Outside(Tools), Outside(MemoryKinds), Outside(Capabilities), Outside(Targets),
                                    Outside(IncludePaths), ExcludedPath}
  {
  }

  /** What is held against a proper request: each kind of item exactly when its own test fails, and nothing else. */
  lemma ViolationsAre(e: Contract, r: Request)
    requires e.sets.Keys == ALL_SETS && Proper(r)
    ensures var n := Paths.NormalizeRequestPath(r.path).value;
            var found := Violations(e, r, n);
            && (Outside(Roles) in found <==> r.role !in e.sets[Roles])
            && (Outside(Tools) in found <==> r.tool !in e.sets[Tools])
            && (Outside(MemoryKinds) in found <==> r.memoryKind !in e.sets[MemoryKinds])
            && (Outside(Capabilities) in found <==> r.capability !in e.sets[Capabilities])
            && (Outside(Targets) in found <==> r.target !in e.sets[Targets])
            && (Outside(IncludePaths) in found <==> !exists p :: p in e.sets[IncludePaths] && Globs.GlobMatches(p, n))
            && (ExcludedPath in found <==> exists p :: p in e.excludes && Globs.GlobMatches(p, n))
            && found <= {Outside(Roles), Outside(Tools), Outside(MemoryKinds), Outside(Capabilities), Outside(Targets),
                         Outside(IncludePaths), ExcludedPath}
  {
    var n := Paths.NormalizeRequestPath(r.path).value;
    NamesOutside(e, r, n);
    PathOutside(e, r, n);
    NothingElseOutside(e, r, n);
  }

  /** A decision without a contract is returned as it is. */
  lemma NothingToEvaluate(d: Decision, r: Request)
    requires ValidDecision(d) && d.effective.None?
    ensures Evaluate(d, r) == d
  {
  }

  /** What is not evaluated is denied, with nothing but an objection. */
  lemma NotEvaluated(d: Decision, r: Request)
    requires !ValidDecision(d) || (d.effective.Some? && !Proper(r))
    ensures var a := Evaluate(d, r);
            && a.verdict == Deny && a.effective == None && a.digest == Digest(None) && a.unresolved == {All}
            && a.violations == Some({Validation}) && |a.reasons| == 1 && a.reasons[0].InvalidRequest?
  {
    ProperIff(r);
    if ValidDecision(d) { EvaluateIs(d, r); }
  }

  /** The decision itself comes back, with the verdict, and with what is held against the request. */
  lemma Evaluated(d: Decision, r: Request, e: Contract)
    requires ValidDecision(d) && d.effective == Some(e) && Proper(r) && e.sets.Keys == ALL_SETS
    ensures var a, found := Evaluate(d, r), Violations(e, r, Paths.NormalizeRequestPath(r.path).value);
            && a == d.(verdict := a.verdict, reasons := a.reasons, violations := Some(found))
            && (if found == {} then a.verdict == Allow && a.reasons == d.reasons else a.verdict == Deny && a.reasons == [RequestExceeds])
  {
    ProperIff(r);
    EvaluateIs(d, r);
  }

  lemma NothingHeldIff(e: Contract, r: Request, found: set<Violation>)
    requires e.sets.Keys == ALL_SETS && Proper(r) && found == Violations(e, r, Paths.NormalizeRequestPath(r.path).value)
    ensures found == {} <==>
      && r.role in e.sets[Roles] && r.tool in e.sets[Tools] && r.memoryKind in e.sets[MemoryKinds]
      && r.capability in e.sets[Capabilities] && r.target in e.sets[Targets] && PathWithin(e, r)
  {
    ViolationsAre(e, r);
  }

  /**
   * A request is allowed exactly when the decision is valid and has a contract,
   * the request is proper, each of its five names is in the contract's list of
   * that kind, and its path is included and not excluded.
   */
  lemma AllowedIff(d: Decision, r: Request)
    ensures ValidDecision(d) && d.effective.Some? ==> d.effective.value.sets.Keys == ALL_SETS
    ensures Evaluate(d, r).verdict == Allow <==>
      && ValidDecision(d) && d.effective.Some? && Proper(r)
      && var e := d.effective.value;
         && r.role in e.sets[Roles] && r.tool in e.sets[Tools] && r.memoryKind in e.sets[MemoryKinds]
         && r.capability in e.sets[Capabilities] && r.target in e.sets[Targets] && PathWithin(e, r)
  {
    if !(ValidDecision(d) && d.effective.Some?) {
      AllowIff(d, r);
    } else if !Proper(r) {
      NotEvaluated(d, r);
    } else {
      EvaluateIs(d, r);
      Evaluated(d, r, d.effective.value);
      NothingHeldIff(d.effective.value, r, Violations(d.effective.value, r, Paths.NormalizeRequestPath(r.path).value));
    }
    if ValidDecision(d) && d.effective.Some? { ValidHasSets(d); }
  }

  /** A field of a request that is no trimmed single line. */
  predicate Bad(r: Request, f: RequestField) {
    match f
    case Role => !Text.TrimmedLine(r.role)
    case Tool => !Text.TrimmedLine(r.tool)
    case MemoryKind => !Text.TrimmedLine(r.memoryKind)
    case Capability => !Text.TrimmedLine(r.capability)
    case Target => !Text.TrimmedLine(r.target)
    case Path => !Text.TrimmedLine(r.path)
  }

  /** The order in which the fields are looked at. */
  function Turn(f: RequestField): nat {
    match f case Role => 0 case Tool => 1 case MemoryKind => 2 case Capability => 3 case Target => 4 case Path => 5
  }

  /** The objection names what is wrong first. */
  lemma ObjectionIs(r: Request)
    ensures ObjectionToRequest(r) == Some(RequestNotObject) <==> !r.plain
    ensures r.plain && r.unknown != [] ==> ObjectionToRequest(r) == Some(UnknownRequestField(r.unknown[0]))
    ensures r.plain && r.unknown == [] ==>
              forall f :: ObjectionToRequest(r) == Some(NotALine(f)) <==> Bad(r, f) && forall g :: Bad(r, g) ==> Turn(f) <= Turn(g)
    ensures r.plain && r.unknown == [] && (forall f :: !Bad(r, f)) ==>
              match Paths.NormalizeRequestPath(r.path)
              case Ok(_) => ObjectionToRequest(r) == None
              case Err(e) => ObjectionToRequest(r) == Some(BadPath(e))
  {
    if r.plain && r.unknown == [] {
      forall f ensures ObjectionToRequest(r) == Some(NotALine(f)) <==> Bad(r, f) && forall g :: Bad(r, g) ==> Turn(f) <= Turn(g) {
        assert Bad(r, Role) || Bad(r, Tool) || Bad(r, MemoryKind) || Bad(r, Capability) || Bad(r, Target) || Bad(r, Path)
            || forall g :: !Bad(r, g);
      }
    }
  }

  // ---------------------------------------------------------------- decisions

  /** The digest of a contract, or of none; the prototype of its bounds does not show in it. */
  predicate DigestIsOf(d: ScopeDigest, c: Option<Contract>) {
    match c
    case None => d.of == None
    case Some(e) => d.of.Some? && d.of.value.(plainBounds := e.plainBounds) == e && d.of.value.plainBounds
  }

  lemma DigestIff(d: ScopeDigest, c: Option<Contract>)
    ensures d == Digest(c) <==> DigestIsOf(d, c)
  {
  }

  /** What is held against a decision: its reasons first, then what does not fit together, then its contract, then its digest. */
  lemma DecisionObjectionIs(d: Decision)
    ensures ObjectionTo(d) == Some(BadReason) <==> !ReasonsAreLines(d)
    ensures ReasonsAreLines(d) && d.effective.None? ==>
              ObjectionTo(d) == if d.verdict in {Deny, Defer} && DigestIsOf(d.digest, None) then None else Some(Inconsistent)
    ensures ReasonsAreLines(d) && d.effective.Some? && d.verdict == Defer ==> ObjectionTo(d) == Some(Inconsistent)
    ensures ReasonsAreLines(d) && d.effective.Some? && d.verdict != Defer ==>
              match Normalize(Listed(d.effective.value))
              case Err(fault) => ObjectionTo(d) == Some(BadEffective(fault))
              case Ok(c) => ObjectionTo(d) == if DigestIsOf(d.digest, Some(c)) then None else Some(DigestMismatch)
  {
    DigestIff(d.digest, None);
    if d.effective.Some? && Normalize(Listed(d.effective.value)).Ok? { DigestIff(d.digest, Some(Normalize(Listed(d.effective.value)).value)); }
  }

  // ---------------------------------------------------------------- intersections

  /** The same item is on every list of this kind. */
  predicate OnEvery(cs: seq<Contract>, f: SetField, x: string) {
    forall i :: 0 <= i < |cs| ==> f in cs[i].sets && x in cs[i].sets[f]
  }

  predicate NoneOnEvery(cs: seq<Contract>, f: SetField) {
    forall i, x :: 0 <= i < |cs| && f in cs[i].sets && x in cs[i].sets[f] ==> !OnEvery(cs, f, x)
  }

  predicate Bounds(c: Contract, n: string) {
    n in c.bounds
  }

  /** The parameter is bounded in one contract and not in another. */
  predicate BoundInSome(cs: seq<Contract>, n: string) {
    (exists i :: 0 <= i < |cs| && Bounds(cs[i], n)) && exists j :: 0 <= j < |cs| && !Bounds(cs[j], n)
  }

  predicate BoundInAll(cs: seq<Contract>, n: string) {
    forall i :: 0 <= i < |cs| ==> Bounds(cs[i], n)
  }

  /** It is bounded in all, and the minimum of one is above the maximum of another. */
  predicate BoundsCross(cs: seq<Contract>, n: string) {
    BoundInAll(cs, n) && exists i, j :: 0 <= i < |cs| && 0 <= j < |cs| && cs[i].bounds[n].min > cs[j].bounds[n].max
  }

  lemma MeetsIff(cs: seq<Contract>, n: string)
    requires cs != []
    ensures AllBound(cs, n) <==> BoundInAll(cs, n)
    ensures BoundMeets(cs, n) <==> BoundInAll(cs, n) && !BoundsCross(cs, n)
  {
    if AllBound(cs, n) {
      assert BoundInAll(cs, n) by { forall i | 0 <= i < |cs| ensures Bounds(cs[i], n) { assert n in cs[i].bounds; } }
      GreatestIs(Mins(cs, n));
      LeastIs(Maxes(cs, n));
      if !BoundMeets(cs, n) {
        var i :| 0 <= i < |cs| && Mins(cs, n)[i] == Greatest(Mins(cs, n));
        var j :| 0 <= j < |cs| && Maxes(cs, n)[j] == Least(Maxes(cs, n));
        assert cs[i].bounds[n].min > cs[j].bounds[n].max;
      }
    }
    if BoundInAll(cs, n) {
      forall i {:trigger cs[i]} | 0 <= i < |cs| ensures n in cs[i].bounds { assert Bounds(cs[i], n); }
      if BoundsCross(cs, n) {
        var i, j :| 0 <= i < |cs| && 0 <= j < |cs| && cs[i].bounds[n].min > cs[j].bounds[n].max;
        assert Mins(cs, n)[i] > Maxes(cs, n)[j];
      }
    }
  }

  lemma EmptyIff(cs: seq<Contract>, f: SetField)
    requires cs != [] && HasSets(cs)
    ensures f in EmptyFields(cs) <==> NoneOnEvery(cs, f)
  {
    EveryField(f);
    forall x ensures x in MeetSet(cs, f) <==> OnEvery(cs, f, x) {
      forall i | 0 <= i < |cs| ensures f in cs[i].sets { assert cs[i].sets.Keys == ALL_SETS; }
    }
    if MeetSet(cs, f) != {} {
      var x :| x in MeetSet(cs, f);
      assert OnEvery(cs, f, x) && x in cs[0].sets[f];
    }
    if !NoneOnEvery(cs, f) {
      var i, x :| 0 <= i < |cs| && f in cs[i].sets && x in cs[i].sets[f] && OnEvery(cs, f, x);
      assert x in MeetSet(cs, f);
    }
  }

  predicate ManyProjects(cs: seq<Contract>) {
    exists i, j :: 0 <= i < |cs| && 0 <= j < |cs| && cs[i].project != cs[j].project
  }

  predicate StartsLate(cs: seq<Contract>) {
    exists i, j :: 0 <= i < |cs| && 0 <= j < |cs| && cs[i].validFrom.instant >= cs[j].validUntil.instant
  }

  lemma LateIff(cs: seq<Contract>)
    requires cs != []
    ensures Start(cs).instant >= End(cs).instant <==> StartsLate(cs)
  {
    WindowIsExtreme(cs);
    var i :| 0 <= i < |cs| && cs[i].validFrom == Start(cs);
    var j :| 0 <= j < |cs| && cs[j].validUntil == End(cs);
    if Start(cs).instant >= End(cs).instant { assert cs[i].validFrom.instant >= cs[j].validUntil.instant; }
  }

  predicate Troubled(cs: seq<Contract>, n: string) {
    BoundInSome(cs, n) || BoundsCross(cs, n)
  }

  lemma TroubledIff(cs: seq<Contract>, n: string)
    requires cs != []
    ensures n in BadBounds(cs) <==> Troubled(cs, n)
    ensures n in BadBounds(cs) ==> (AllBound(cs, n) <==> !BoundInSome(cs, n))
  {
    MeetsIff(cs, n);
    if n in BoundNames(cs) {
      var i :| 0 <= i < |cs| && n in cs[i].bounds;
      assert Bounds(cs[i], n);
    }
    if exists i :: 0 <= i < |cs| && Bounds(cs[i], n) {
      var i :| 0 <= i < |cs| && Bounds(cs[i], n);
      assert n in BoundNames(cs);
    }
    assert BoundInAll(cs, n) ==> Bounds(cs[0], n);
  }

  /** A refusal: nothing in force, one reason, and the dimensions it concerns. */
  ghost predicate Refuses(d: Decision, reason: Reason, about: set<Dimension>) {
    && d.verdict == Deny && d.effective == None && d.digest.of == None && d.violations == None
    && d.reasons == [reason] && d.unresolved == about
  }

  /** The name of the parameter in trouble that sorts first, and which trouble it is. */
  ghost predicate FirstTrouble(cs: seq<Contract>, reason: Reason) {
    exists n ::
      && Troubled(cs, n) && (forall m {:trigger Troubled(cs, m)} :: Troubled(cs, m) ==> m == n || Text.Less(n, m))
      && reason == if BoundInSome(cs, n) then MissingBound(n) else EmptyBound(n)
  }

  lemma TroubleIs(cs: seq<Contract>)
    requires cs != []
    ensures BoundsMeet(cs) <==> forall n {:trigger Troubled(cs, n)} :: !Troubled(cs, n)
    ensures !BoundsMeet(cs) ==> FirstTrouble(cs, BoundReason(cs))
  {
    forall n {:trigger Troubled(cs, n)} ensures n in BadBounds(cs) <==> Troubled(cs, n) { TroubledIff(cs, n); }
    forall n {:trigger BoundMeets(cs, n)} | n in BoundNames(cs) ensures BoundMeets(cs, n) <==> !Troubled(cs, n) { TroubledIff(cs, n); }
    if !BoundsMeet(cs) {
      var n := Sorting.First(BadBounds(cs));
      TroubledIff(cs, n);
      assert Troubled(cs, n);
      forall m {:trigger Troubled(cs, m)} | Troubled(cs, m) ensures m == n || Text.Less(n, m) { assert m in BadBounds(cs); }
    }
  }

  /** The first of four tests that fails gives the reason: one project, a common item on each list, bounds that meet, a window that is open. */
  lemma MeetRefusedIs(cs: seq<Contract>)
    requires Ready(cs)
    ensures Meet(cs).Err? <==>
              ManyProjects(cs) || (exists f :: NoneOnEvery(cs, f)) || (exists n :: Troubled(cs, n)) || StartsLate(cs)
    ensures ManyProjects(cs) ==> Meet(cs).Err? && Refuses(Meet(cs).error, ProjectMismatch, {Project})
    ensures !ManyProjects(cs) && (exists f :: NoneOnEvery(cs, f)) ==>
              && Meet(cs).Err? && Refuses(Meet(cs).error, EmptyIntersection, Meet(cs).error.unresolved)
              && forall x {:trigger x in Meet(cs).error.unresolved} :: x in Meet(cs).error.unresolved <==> x.Field? && NoneOnEvery(cs, x.f)
    ensures !ManyProjects(cs) && (forall f :: !NoneOnEvery(cs, f)) && (exists n :: Troubled(cs, n)) ==>
              && Meet(cs).Err? && |Meet(cs).error.reasons| == 1 && FirstTrouble(cs, Meet(cs).error.reasons[0])
              && Refuses(Meet(cs).error, Meet(cs).error.reasons[0], {ParameterBounds})
    ensures !ManyProjects(cs) && (forall f :: !NoneOnEvery(cs, f)) && (forall n :: !Troubled(cs, n)) && StartsLate(cs) ==>
              Meet(cs).Err? && Refuses(Meet(cs).error, EmptyWindow, {ValidFrom, ValidUntil})
  {
    forall f ensures f in EmptyFields(cs) <==> NoneOnEvery(cs, f) { EmptyIff(cs, f); }
    if ManyProjects(cs) {
      var i, j :| 0 <= i < |cs| && 0 <= j < |cs| && cs[i].project != cs[j].project;
      assert !OneProject(cs);
    }
    assert OneProject(cs) <==> !ManyProjects(cs);
    TroubleIs(cs);
    LateIff(cs);
  }

  /** The lists of an intersection: the items on every list of their kind, and what is excluded, or named as a version, anywhere. */
  ghost predicate ListsMet(cs: seq<Contract>, e: Contract) {
    && e.sets.Keys == ALL_SETS
    && (forall f, x {:trigger OnEvery(cs, f, x)} :: f in e.sets && x in e.sets[f] <==> f in ALL_SETS && OnEvery(cs, f, x))
    && (forall x {:trigger x in e.excludes} :: x in e.excludes <==> exists i :: 0 <= i < |cs| && x in cs[i].excludes)
    && (forall v {:trigger v in e.sourceVersions} :: v in e.sourceVersions <==> exists i :: 0 <= i < |cs| && v in cs[i].sourceVersions)
  }

  /** The bound of one parameter: the greatest minimum and the least maximum. */
  ghost predicate BoundMet(cs: seq<Contract>, n: string, b: Bound) {
    && BoundInAll(cs, n)
    && (exists i :: 0 <= i < |cs| && cs[i].bounds[n].min == b.min) && (forall i :: 0 <= i < |cs| ==> cs[i].bounds[n].min <= b.min)
    && (exists i :: 0 <= i < |cs| && cs[i].bounds[n].max == b.max) && (forall i :: 0 <= i < |cs| ==> b.max <= cs[i].bounds[n].max)
  }

  ghost predicate BoundsMetIn(cs: seq<Contract>, e: Contract) {
    && e.plainBounds
    && (forall n {:trigger n in e.bounds} :: n in e.bounds <==> exists i :: 0 <= i < |cs| && Bounds(cs[i], n))
    && forall n {:trigger e.bounds[n]} :: n in e.bounds ==> BoundMet(cs, n, e.bounds[n])
  }

  ghost predicate BudgetMet(cs: seq<Contract>, f: BudgetField, x: real) {
    && (exists i :: 0 <= i < |cs| && f in cs[i].budgets && cs[i].budgets[f] == x)
    && forall i :: 0 <= i < |cs| && f in cs[i].budgets ==> x <= cs[i].budgets[f]
  }

  ghost predicate WindowMet(cs: seq<Contract>, from: Candidate, until: Candidate) {
    && (exists i :: 0 <= i < |cs| && cs[i].validFrom == from)
    && (exists i :: 0 <= i < |cs| && cs[i].validUntil == until)
    && forall i :: 0 <= i < |cs| ==> cs[i].validFrom.instant <= from.instant && until.instant <= cs[i].validUntil.instant
  }

  lemma WindowIsMet(cs: seq<Contract>)
    requires cs != []
    ensures WindowMet(cs, Start(cs), End(cs))
  {
    WindowIsExtreme(cs);
  }

  /** The rest: each budget the least, the window the narrowest, and every label the strictest. */
  ghost predicate LimitsMet(cs: seq<Contract>, e: Contract) {
    && e.budgets.Keys == ALL_BUDGETS && (forall f {:trigger e.budgets[f]} :: f in e.budgets ==> BudgetMet(cs, f, e.budgets[f]))
    && WindowMet(cs, e.validFrom, e.validUntil)
    && (exists i :: 0 <= i < |cs| && cs[i].maxOccurrences == e.maxOccurrences)
    && (forall i :: 0 <= i < |cs| ==> e.maxOccurrences <= cs[i].maxOccurrences)
  }

  ghost predicate LabelsMet(cs: seq<Contract>, e: Contract) {
    && (forall i :: 0 <= i < |cs| ==> cs[i].project == e.project)
    && (e.externality == External <==> exists i :: 0 <= i < |cs| && cs[i].externality == External)
    && (e.reversibility == Irreversible <==> exists i :: 0 <= i < |cs| && cs[i].reversibility == Irreversible)
    && (e.reversibility == Reversible <==> forall i :: 0 <= i < |cs| ==> cs[i].reversibility == Reversible)
    && (e.approvalRequired <==> exists i :: 0 <= i < |cs| && cs[i].approvalRequired)
  }

  lemma ListsAreMet(cs: seq<Contract>)
    requires Ready(cs) && Meet(cs).Ok?
    ensures ListsMet(cs, Meet(cs).value)
  {
    var e := Meet(cs).value;
    forall f, x {:trigger OnEvery(cs, f, x)} ensures f in e.sets && x in e.sets[f] <==> f in ALL_SETS && OnEvery(cs, f, x) {
      EveryField(f);
      forall i | 0 <= i < |cs| ensures f in cs[i].sets { assert cs[i].sets.Keys == ALL_SETS; }
      assert x in MeetSet(cs, f) <==> OnEvery(cs, f, x);
    }
  }

  lemma BoundsAreMet(cs: seq<Contract>)
    requires Ready(cs) && Meet(cs).Ok?
    ensures BoundsMetIn(cs, Meet(cs).value)
  {
    var e := Meet(cs).value;
    forall n {:trigger n in e.bounds} ensures n in e.bounds <==> exists i :: 0 <= i < |cs| && Bounds(cs[i], n) {
      if n in BoundNames(cs) { var i :| 0 <= i < |cs| && n in cs[i].bounds; assert Bounds(cs[i], n); }
    }
    forall n {:trigger e.bounds[n]} | n in e.bounds ensures BoundMet(cs, n, e.bounds[n]) {
      MeetsIff(cs, n);
      assert BoundMeets(cs, n);
      OneBoundMet(cs, n);
    }
  }

  lemma OneBoundMet(cs: seq<Contract>, n: string)
    requires cs != [] && AllBound(cs, n)
    ensures BoundMet(cs, n, MeetBound(cs, n))
  {
    MeetsIff(cs, n);
    GreatestIs(Mins(cs, n));
    LeastIs(Maxes(cs, n));
    var i :| 0 <= i < |cs| && Mins(cs, n)[i] == Greatest(Mins(cs, n));
    var j :| 0 <= j < |cs| && Maxes(cs, n)[j] == Least(Maxes(cs, n));
    assert cs[i].bounds[n].min == MeetBound(cs, n).min && cs[j].bounds[n].max == MeetBound(cs, n).max;
    forall k | 0 <= k < |cs| ensures cs[k].bounds[n].min <= MeetBound(cs, n).min && MeetBound(cs, n).max <= cs[k].bounds[n].max {
      assert Mins(cs, n)[k] <= Greatest(Mins(cs, n)) && Least(Maxes(cs, n)) <= Maxes(cs, n)[k];
    }
  }

  lemma BudgetsAreMet(cs: seq<Contract>, m: map<BudgetField, real>)
    requires cs != [] && HasBudgets(cs) && m == MeetBudgets(cs)
    ensures m.Keys == ALL_BUDGETS && forall f {:trigger m[f]} :: f in m ==> BudgetMet(cs, f, m[f])
  {
    forall f {:trigger m[f]} | f in m ensures BudgetMet(cs, f, m[f]) {
      LeastIs(Budgets(cs, f));
      var i :| 0 <= i < |cs| && Budgets(cs, f)[i] == Least(Budgets(cs, f));
      assert cs[i].budgets[f] == m[f];
    }
  }

  lemma FewestIsMet(cs: seq<Contract>, n: int)
    requires cs != [] && n == Fewest(Occurrences(cs))
    ensures (exists i :: 0 <= i < |cs| && cs[i].maxOccurrences == n) && forall i :: 0 <= i < |cs| ==> n <= cs[i].maxOccurrences
  {
    FewestIs(Occurrences(cs));
    var i :| 0 <= i < |cs| && Occurrences(cs)[i] == n;
    assert cs[i].maxOccurrences == n;
    forall k | 0 <= k < |cs| ensures n <= cs[k].maxOccurrences { assert n <= Occurrences(cs)[k]; }
  }

  lemma LimitsAreMet(cs: seq<Contract>, e: Contract)
    requires Ready(cs) && BoundsMeet(cs) && e == Effective(cs)
    ensures LimitsMet(cs, e)
  {
    BudgetsAreMet(cs, e.budgets);
    WindowIsMet(cs);
    FewestIsMet(cs, e.maxOccurrences);
  }

  lemma ReversalIsMet(cs: seq<Contract>)
    ensures AnyWith(cs, Irreversible) <==> exists i :: 0 <= i < |cs| && cs[i].reversibility == Irreversible
    ensures !AnyWith(cs, Irreversible) && !AnyWith(cs, PartiallyReversible) <==> forall i :: 0 <= i < |cs| ==> cs[i].reversibility == Reversible
  {
    if !AnyWith(cs, Irreversible) && !AnyWith(cs, PartiallyReversible) {
      forall i | 0 <= i < |cs| ensures cs[i].reversibility == Reversible {
        assert cs[i].reversibility != Irreversible && cs[i].reversibility != PartiallyReversible;
      }
    }
  }

  lemma LabelsAreMet(cs: seq<Contract>, e: Contract)
    requires Ready(cs) && BoundsMeet(cs) && OneProject(cs) && e == Effective(cs)
    ensures LabelsMet(cs, e)
  {
    ReversalIsMet(cs);
  }

  /** An intersection that is not refused, dimension by dimension. */
  lemma MeetIs(cs: seq<Contract>)
    requires Ready(cs) && Meet(cs).Ok?
    ensures var e := Meet(cs).value; ListsMet(cs, e) && BoundsMetIn(cs, e) && LimitsMet(cs, e) && LabelsMet(cs, e)
  {
    MeetIsEffective(cs);
    ListsAreMet(cs);
    BoundsAreMet(cs);
    LimitsAreMet(cs, Meet(cs).value);
    LabelsAreMet(cs, Meet(cs).value);
  }

  /** The first of some answers that is one. */
  ghost predicate FirstAnswer<T(!new)>(answers: seq<Option<T>>, first: Option<T>) {
    match first
    case None => forall i :: 0 <= i < |answers| ==> answers[i] == None
    case Some(_) => exists i :: 0 <= i < |answers| && answers[i] == first && forall j :: 0 <= j < i ==> answers[j] == None
  }

  lemma FirstAnswerOn<T(!new)>(head: Option<T>, rest: seq<Option<T>>, first: Option<T>)
    requires FirstAnswer(rest, first)
    ensures FirstAnswer([head] + rest, if head.Some? then head else first)
  {
    var all := [head] + rest;
    if head.None? && first.Some? {
      var i :| 0 <= i < |rest| && rest[i] == first && forall j :: 0 <= j < i ==> rest[j] == None;
      assert all[i + 1] == first;
    } else if head.Some? {
      assert all[0] == head;
    }
  }

  lemma MapOn<T, U>(s: seq<T>, f: T -> U)
    requires s != []
    ensures Map(s, f) == [f(s[0])] + Map(s[1..], f)
  {
  }

  /** The fault of the first contract that has one. */
  lemma {:induction false} FirstFaultIs(raws: seq<Raw>)
    ensures FirstAnswer(Map(raws, FaultOf), FirstFault(raws))
  {
    if raws != [] {
      FirstFaultIs(raws[1..]);
      MapOn(raws, FaultOf);
      FirstAnswerOn(FaultOf(raws[0]), Map(raws[1..], FaultOf), FirstFault(raws[1..]));
    }
  }

  /** What an intersection answers: put off without contracts, refused for the first fault or by the meet, else allowed, or narrowed when there is more than one. */
  lemma IntersectIs(raws: seq<Raw>)
    ensures var d := Intersect(raws);
            && (raws == [] ==> d.verdict == Defer && d.effective == None && d.digest.of == None && d.reasons == [NoContracts] && d.unresolved == {All})
            && (FirstFault(raws).Some? ==> Refuses(d, InvalidContract(FirstFault(raws).value), {All}))
            && (raws != [] && FirstFault(raws).None? ==>
                  && Ready(CleanAll(raws))
                  && match Meet(CleanAll(raws))
                     case Err(refusal) => d == refusal
                     case Ok(e) =>
                       && d.verdict == (if |raws| == 1 then Allow else Narrow) && d.effective == Some(e) && DigestIsOf(d.digest, Some(e))
                       && d.reasons == [] && d.unresolved == {} && d.violations == None)
  {
    if raws != [] && FirstFault(raws).None? {
      FirstFaultIff(raws);
      CleanedAreReady(raws);
      if Meet(CleanAll(raws)).Ok? { DigestIff(Intersect(raws).digest, Some(Meet(CleanAll(raws)).value)); }
    }
  }
}

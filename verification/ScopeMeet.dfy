/**
 * The intersection of scope contracts (`intersectScopes` in
 * src/policy/scope-engine.mjs), dimension by dimension.
 */
module ScopeMeet {
  import opened Wrappers
  import opened ScopeContracts
  import opened ScopeNormal
  import opened TimestampChoice
  import Paths
  import Sorting

  datatype Verdict = Allow | Narrow | Defer | Deny

  datatype RequestField = Role | Tool | MemoryKind | Capability | Target | Path

  /** Why a decision or a request is not evaluated. */
  datatype Objection =
    | BadReason | Inconsistent | BadEffective(fault: Fault) | DigestMismatch
    | RequestNotObject | UnknownRequestField(field: string) | NotALine(at: RequestField) | BadPath(error: Paths.PathError)

  /** The reasons that the engine gives, and any other text. */
  datatype Reason =
    | NoContracts | InvalidContract(fault: Fault) | ProjectMismatch | EmptyIntersection
    | MissingBound(name: string) | EmptyBound(name: string) | EmptyWindow
    | RequestExceeds | InvalidRequest(objection: Objection) | Said(text: string)

  datatype Dimension = All | Project | Field(f: SetField) | ParameterBounds | ValidFrom | ValidUntil

  datatype Violation = Outside(f: SetField) | ExcludedPath | Validation

  /** SHA-256 of the canonical JSON of a contract or of null, taken as injective. */
  datatype ScopeDigest = ScopeDigest(of: Option<Contract>)

  /** `scopeDigest`: whether the bounds are a plain object is not in the text. */
  function Digest(c: Option<Contract>): ScopeDigest {
    ScopeDigest(if c.Some? then Some(c.value.(plainBounds := true)) else None)
  }

  datatype Decision = Decision(
    verdict: Verdict, effective: Option<Contract>, digest: ScopeDigest,
    reasons: seq<Reason>, unresolved: set<Dimension>, violations: Option<set<Violation>>)

  function Refuse(reason: Reason, unresolved: set<Dimension>): Decision {
    Decision(Deny, None, Digest(None), [reason], unresolved, None)
  }

  // ---------------------------------------------------------------- Math.min and Math.max

  /** The element that comes before all others. */
  function Extreme<T>(xs: seq<T>, before: (T, T) -> bool): T
    requires xs != []
  {
    if |xs| == 1 then xs[0]
    else var rest := Extreme(xs[..|xs| - 1], before); if before(xs[|xs| - 1], rest) then xs[|xs| - 1] else rest
  }

  ghost predicate Order<T(!new)>(before: (T, T) -> bool) {
    && (forall a, b :: before(a, b) ==> !before(b, a))
    && (forall a, b :: a == b || before(a, b) || before(b, a))
    && forall a, b, c :: before(a, b) && before(b, c) ==> before(a, c)
  }

  lemma {:induction false} ExtremeIs<T(!new)>(xs: seq<T>, before: (T, T) -> bool)
    requires xs != [] && Order(before)
    ensures Extreme(xs, before) in xs
    ensures forall x {:trigger x in xs} :: x in xs ==> x == Extreme(xs, before) || before(Extreme(xs, before), x)
  {
    if |xs| > 1 {
      var last := xs[|xs| - 1];
      ExtremeIs(xs[..|xs| - 1], before);
      assert xs == xs[..|xs| - 1] + [last];
    }
  }

  predicate LessReal(a: real, b: real) { a < b }

  predicate MoreReal(a: real, b: real) { b < a }

  predicate LessInt(a: int, b: int) { a < b }

  lemma Orders()
    ensures Order(LessReal) && Order(MoreReal) && Order(LessInt)
  {
  }

  function Least(xs: seq<real>): real
    requires xs != []
  {
    Extreme(xs, LessReal)
  }

  function Greatest(xs: seq<real>): real
    requires xs != []
  {
    Extreme(xs, MoreReal)
  }

  function Fewest(xs: seq<int>): int
    requires xs != []
  {
    Extreme(xs, LessInt)
  }

  lemma LeastIs(xs: seq<real>)
    requires xs != []
    ensures exists i :: 0 <= i < |xs| && xs[i] == Least(xs)
    ensures forall i :: 0 <= i < |xs| ==> Least(xs) <= xs[i]
  {
    Orders();
    ExtremeIs(xs, LessReal);
    forall i | 0 <= i < |xs| ensures Least(xs) <= xs[i] { assert xs[i] in xs; }
  }

  lemma GreatestIs(xs: seq<real>)
    requires xs != []
    ensures exists i :: 0 <= i < |xs| && xs[i] == Greatest(xs)
    ensures forall i :: 0 <= i < |xs| ==> xs[i] <= Greatest(xs)
  {
    Orders();
    ExtremeIs(xs, MoreReal);
    forall i | 0 <= i < |xs| ensures xs[i] <= Greatest(xs) { assert xs[i] in xs; }
  }

  lemma FewestIs(xs: seq<int>)
    requires xs != []
    ensures exists i :: 0 <= i < |xs| && xs[i] == Fewest(xs)
    ensures forall i :: 0 <= i < |xs| ==> Fewest(xs) <= xs[i]
  {
    Orders();
    ExtremeIs(xs, LessInt);
    forall i | 0 <= i < |xs| ensures Fewest(xs) <= xs[i] { assert xs[i] in xs; }
  }

  // ---------------------------------------------------------------- the dimensions

  predicate HasSets(cs: seq<Contract>) {
    forall i {:trigger cs[i]} :: 0 <= i < |cs| ==> cs[i].sets.Keys == ALL_SETS
  }

  predicate HasBudgets(cs: seq<Contract>) {
    forall i {:trigger cs[i]} :: 0 <= i < |cs| ==> cs[i].budgets.Keys == ALL_BUDGETS
  }

  /** The items of the first list that all the others have. */
  function MeetSet(cs: seq<Contract>, f: SetField): set<string>
    requires cs != [] && HasSets(cs)
  {
    EveryField(f);
    set x | x in cs[0].sets[f] && forall i :: 0 <= i < |cs| ==> x in cs[i].sets[f]
  }

  function MeetSets(cs: seq<Contract>): map<SetField, set<string>>
    requires cs != [] && HasSets(cs)
  {
    map f | f in ALL_SETS :: MeetSet(cs, f)
  }

  function EmptyFields(cs: seq<Contract>): set<SetField>
    requires cs != [] && HasSets(cs)
  {
    set f | f in ALL_SETS && MeetSet(cs, f) == {}
  }

  function AllExcludes(cs: seq<Contract>): set<string> {
    set i, x | 0 <= i < |cs| && x in cs[i].excludes :: x
  }

  function AllVersions(cs: seq<Contract>): set<string> {
    set i, x | 0 <= i < |cs| && x in cs[i].sourceVersions :: x
  }

  function BoundNames(cs: seq<Contract>): set<string> {
    set i, n | 0 <= i < |cs| && n in cs[i].bounds :: n
  }

  predicate AllBound(cs: seq<Contract>, n: string) {
    forall i {:trigger cs[i]} :: 0 <= i < |cs| ==> n in cs[i].bounds
  }

  function Mins(cs: seq<Contract>, n: string): (xs: seq<real>)
    requires AllBound(cs, n)
    ensures |xs| == |cs| && forall i :: 0 <= i < |cs| ==> xs[i] == cs[i].bounds[n].min
  {
    seq(|cs|, i requires 0 <= i < |cs| => cs[i].bounds[n].min)
  }

  function Maxes(cs: seq<Contract>, n: string): (xs: seq<real>)
    requires AllBound(cs, n)
    ensures |xs| == |cs| && forall i :: 0 <= i < |cs| ==> xs[i] == cs[i].bounds[n].max
  {
    seq(|cs|, i requires 0 <= i < |cs| => cs[i].bounds[n].max)
  }

  /** What all the bounds of one parameter leave, if all the contracts have one. */
  function MeetBound(cs: seq<Contract>, n: string): Bound
    requires cs != [] && AllBound(cs, n)
  {
    Bound(Greatest(Mins(cs, n)), Least(Maxes(cs, n)))
  }

  predicate BoundMeets(cs: seq<Contract>, n: string)
    requires cs != []
  {
    AllBound(cs, n) && MeetBound(cs, n).min <= MeetBound(cs, n).max
  }

  predicate BoundsMeet(cs: seq<Contract>)
    requires cs != []
  {
    forall n {:trigger BoundMeets(cs, n)} :: n in BoundNames(cs) ==> BoundMeets(cs, n)
  }

  function BadBounds(cs: seq<Contract>): set<string>
    requires cs != []
  {
    set n | n in BoundNames(cs) && !BoundMeets(cs, n)
  }

  /** The first parameter, in sorted order, that has no bound in some contract or none left. */
  function BoundReason(cs: seq<Contract>): Reason
    requires cs != [] && !BoundsMeet(cs)
  {
    assert BadBounds(cs) != {} by {
      var n :| n in BoundNames(cs) && !BoundMeets(cs, n);
      assert n in BadBounds(cs);
    }
    var first := Sorting.First(BadBounds(cs));
    if AllBound(cs, first) then EmptyBound(first) else MissingBound(first)
  }

  function MeetBounds(cs: seq<Contract>): map<string, Bound>
    requires cs != [] && BoundsMeet(cs)
  {
    map n | n in BoundNames(cs) :: assert BoundMeets(cs, n); MeetBound(cs, n)
  }

  function Budgets(cs: seq<Contract>, f: BudgetField): (xs: seq<real>)
    requires HasBudgets(cs)
    ensures |xs| == |cs| && forall i :: 0 <= i < |cs| ==> f in cs[i].budgets && xs[i] == cs[i].budgets[f]
  {
    EveryBudget(f);
    seq(|cs|, i requires 0 <= i < |cs| => cs[i].budgets[f])
  }

  function MeetBudgets(cs: seq<Contract>): map<BudgetField, real>
    requires cs != [] && HasBudgets(cs)
  {
    map f | f in ALL_BUDGETS :: Least(Budgets(cs, f))
  }

  function Starts(cs: seq<Contract>): (ts: seq<Candidate>)
    ensures |ts| == |cs| && forall i :: 0 <= i < |cs| ==> ts[i] == cs[i].validFrom
  {
    seq(|cs|, i requires 0 <= i < |cs| => cs[i].validFrom)
  }

  function Ends(cs: seq<Contract>): (ts: seq<Candidate>)
    ensures |ts| == |cs| && forall i :: 0 <= i < |cs| ==> ts[i] == cs[i].validUntil
  {
    seq(|cs|, i requires 0 <= i < |cs| => cs[i].validUntil)
  }

  function Occurrences(cs: seq<Contract>): (ns: seq<int>)
    ensures |ns| == |cs| && forall i :: 0 <= i < |cs| ==> ns[i] == cs[i].maxOccurrences
  {
    seq(|cs|, i requires 0 <= i < |cs| => cs[i].maxOccurrences)
  }

  predicate AnyExternal(cs: seq<Contract>) {
    exists i :: 0 <= i < |cs| && cs[i].externality == External
  }

  predicate AnyWith(cs: seq<Contract>, r: Reversibility) {
    exists i :: 0 <= i < |cs| && cs[i].reversibility == r
  }

  predicate AnyApproval(cs: seq<Contract>) {
    exists i :: 0 <= i < |cs| && cs[i].approvalRequired
  }

  predicate OneProject(cs: seq<Contract>)
    requires cs != []
  {
    forall i :: 0 <= i < |cs| ==> cs[i].project == cs[0].project
  }

  // ---------------------------------------------------------------- the intersection

  /** `selectTimestamp`, over the starts for the latest and over the ends for the earliest. */
  function Start(cs: seq<Contract>): Candidate
    requires cs != []
  {
    Best(Starts(cs), true)
  }

  function End(cs: seq<Contract>): Candidate
    requires cs != []
  {
    Best(Ends(cs), false)
  }

  function Effective(cs: seq<Contract>): Contract
    requires cs != [] && HasSets(cs) && HasBudgets(cs) && BoundsMeet(cs)
  {
    Contract(cs[0].project, MeetSets(cs), AllExcludes(cs), MeetBounds(cs), true, MeetBudgets(cs), Start(cs), End(cs),
             Fewest(Occurrences(cs)), if AnyExternal(cs) then External else Internal,
             if AnyWith(cs, Irreversible) then Irreversible
             else if AnyWith(cs, PartiallyReversible) then PartiallyReversible else Reversible,
             AnyApproval(cs), AllVersions(cs))
  }

  predicate Ready(cs: seq<Contract>) {
    cs != [] && HasSets(cs) && HasBudgets(cs)
  }

  function Meet(cs: seq<Contract>): Result<Contract, Decision>
    requires Ready(cs)
  {
    if !OneProject(cs) then Err(Refuse(ProjectMismatch, {Project}))
    else if EmptyFields(cs) != {} then Err(Refuse(EmptyIntersection, set f | f in EmptyFields(cs) :: Field(f)))
    else if !BoundsMeet(cs) then Err(Refuse(BoundReason(cs), {ParameterBounds}))
    else if Start(cs).instant >= End(cs).instant then Err(Refuse(EmptyWindow, {ValidFrom, ValidUntil}))
    else Ok(Effective(cs))
  }

  predicate Every<T>(s: seq<T>, p: T -> bool) {
    forall i {:trigger s[i]} :: 0 <= i < |s| ==> p(s[i])
  }

  function Map<T, U>(s: seq<T>, f: T -> U): (r: seq<U>)
    ensures |r| == |s| && forall i {:trigger r[i]} :: 0 <= i < |s| ==> r[i] == f(s[i])
  {
    seq(|s|, i requires 0 <= i < |s| => f(s[i]))
  }

  predicate AllAcceptable(raws: seq<Raw>) {
    Every(raws, Acceptable)
  }

  function CleanAll(raws: seq<Raw>): seq<Contract> {
    Map(raws, Clean)
  }

  lemma SoundAreReady(cs: seq<Contract>)
    requires cs != [] && AllSound(cs)
    ensures Ready(cs)
  {
    forall i {:trigger cs[i]} | 0 <= i < |cs| ensures cs[i].sets.Keys == ALL_SETS && cs[i].budgets.Keys == ALL_BUDGETS { assert Sound(cs[i]); }
  }

  predicate AllSound(cs: seq<Contract>) {
    forall i {:trigger Sound(cs[i])} :: 0 <= i < |cs| ==> Sound(cs[i])
  }

  lemma CleanedAreReady(raws: seq<Raw>)
    requires raws != [] && AllAcceptable(raws)
    ensures AllSound(CleanAll(raws)) && Ready(CleanAll(raws))
  {
    var cs := CleanAll(raws);
    forall i {:trigger Sound(cs[i])} | 0 <= i < |cs| ensures Sound(cs[i]) {
      assert Acceptable(raws[i]);
      NormalizedIsSound(raws[i]);
    }
    SoundAreReady(cs);
  }

  /** The fault of the first contract that has one. */
  function FirstFault(raws: seq<Raw>): Option<Fault> {
    if raws == [] then None else Or(FaultOf(raws[0]), FirstFault(raws[1..]))
  }

  lemma {:induction false} FirstFaultIff(raws: seq<Raw>)
    ensures FirstFault(raws).None? <==> AllAcceptable(raws)
  {
    if raws != [] {
      FaultIff(raws[0]);
      FirstFaultIff(raws[1..]);
      EveryFirst(raws, Acceptable);
    }
  }

  lemma EveryFirst<T>(s: seq<T>, p: T -> bool)
    requires s != []
    ensures Every(s, p) <==> p(s[0]) && Every(s[1..], p)
  {
    if p(s[0]) && Every(s[1..], p) {
      forall i {:trigger s[i]} | 0 <= i < |s| ensures p(s[i]) {
        if i > 0 { assert s[i] == s[1..][i - 1]; }
      }
    }
  }

  /** The verdict tells whether more than one contract went in. */
  function Decide(met: Result<Contract, Decision>, count: nat): Decision {
    match met
    case Err(refusal) => refusal
    case Ok(e) => Decision(if count > 1 then Narrow else Allow, Some(e), Digest(Some(e)), [], {}, None)
  }

  /** `intersectScopes` */
  function Intersect(raws: seq<Raw>): Decision {
    if raws == [] then Decision(Defer, None, Digest(None), [NoContracts], {All}, None)
    else match FirstFault(raws)
    case Some(fault) => Refuse(InvalidContract(fault), {All})
    case None =>
      FirstFaultIff(raws);
      CleanedAreReady(raws);
      Decide(Meet(CleanAll(raws)), |raws|)
  }
}

/**
 * Scope decisions and the requests evaluated against them
 * (`validateScopeDecisionRuntime` and `evaluateScopeRequest` in
 * src/policy/scope-engine.mjs).
 */
module ScopeRequests {
  import opened Wrappers
  import opened ScopeContracts
  import opened ScopeNormal
  import opened ScopeMessages
  import opened ScopeMeet
  import opened ScopeLattice
  import opened ScopeLaws
  import opened TimestampChoice
  import Globs
  import Json
  import Paths
  import Sorting
  import Text

  // ---------------------------------------------------------------- decisions

  const INVALID_CONTRACT := "invalid scope contract: "

  const INVALID_REQUEST := "invalid scope request or decision: "

  /** The text of an objection, behind its head, is a trimmed single line. */
  predicate ObjectsInLine(o: Objection) {
    match o
    case BadEffective(fault) => SaysLine(INVALID_REQUEST, fault)
    case UnknownRequestField(field) => Text.TrimmedLine(INVALID_REQUEST + UnknownFieldText("scope request", field))
    case _ => true
  }

  /** The text of a reason is a trimmed single line; fixed words are. */
  predicate ReasonIsLine(r: Reason) {
    match r
    case InvalidContract(fault) => SaysLine(INVALID_CONTRACT, fault)
    case MissingBound(name) => Text.TrimmedLine("missing parameter bound: " + name)
    case EmptyBound(name) => Text.TrimmedLine("empty parameter bound: " + name)
    case InvalidRequest(o) => ObjectsInLine(o)
    case Said(text) => Text.TrimmedLine(text)
    case _ => true
  }

  predicate ReasonsAreLines(d: Decision) {
    Every(d.reasons, ReasonIsLine)
  }

  /** The contract of a decision, normalised again. */
  function Renormalized(d: Decision): Option<Result<Contract, Fault>> {
    if d.effective.None? then None else Some(Normalize(Listed(d.effective.value)))
  }

  /** `validateScopeDecisionRuntime`: what it throws, once its contract is normalised. */
  function Judged(d: Decision, again: Option<Result<Contract, Fault>>): Option<Objection> {
    if !ReasonsAreLines(d) then Some(BadReason)
    else match again
    case None => if (d.verdict.Deny? || d.verdict.Defer?) && d.digest == Digest(None) then None else Some(Inconsistent)
    case Some(normalized) =>
      if d.verdict.Defer? then Some(Inconsistent)
      else match normalized
      case Err(fault) => Some(BadEffective(fault))
      case Ok(c) => if d.digest == Digest(Some(c)) then None else Some(DigestMismatch)
  }

  function ObjectionTo(d: Decision): Option<Objection> {
    Judged(d, Renormalized(d))
  }

  predicate ValidDecision(d: Decision) {
    ObjectionTo(d).None?
  }

  /** A contract as normalisation gives it, but for the prototype of its bounds. */
  predicate Genuine(c: Contract) {
    OnTime(c) && Json.PROTO !in c.bounds
  }

  lemma SpelledAgain(raw: Raw, c: Contract)
    requires Spells(raw, c) && Genuine(c) && c.plainBounds
    ensures Clean(raw) == c
  {
    SpelledBoundsKept(raw.bounds, c.bounds);
    TimestampOf(c.validFrom);
    TimestampOf(c.validUntil);
    SpelledIsClean(raw, c, c.validFrom, c.validUntil);
  }

  lemma ListedIsClean(c: Contract)
    requires Genuine(c) && c.plainBounds
    ensures Clean(Listed(c)) == c
  {
    ListedSpells(c);
    SpelledAgain(Listed(c), c);
  }

  lemma ListedAgain(c: Contract)
    requires Genuine(c)
    ensures Normalize(Listed(c)).Ok? <==> Sound(c) && c.plainBounds
    ensures Normalize(Listed(c)).Ok? ==> Normalize(Listed(c)) == Ok(c)
  {
    ListedSpells(c);
    FaultIff(Listed(c));
    if Normalize(Listed(c)).Ok? {
      ListedIsClean(c);
      NormalizedIsSound(Listed(c));
    } else if Sound(c) && c.plainBounds {
      NormalizeAgainIff(Listed(c), c);
      assert false;
    }
  }

  /** A decision is valid when its reasons are lines, the verdict fits, and the digest is that of its contract, which is sound and plain. */
  lemma ValidDecisionIff(d: Decision)
    requires d.effective.Some? ==> Genuine(d.effective.value)
    ensures ValidDecision(d) <==>
            && ReasonsAreLines(d) && d.digest == Digest(d.effective)
            && match d.effective
               case None => d.verdict.Deny? || d.verdict.Defer?
               case Some(e) => !d.verdict.Defer? && Sound(e) && e.plainBounds
  {
    if d.effective.Some? { ListedAgain(d.effective.value); }
  }

  // ---------------------------------------------------------------- requests

  /** A request; a field that is missing or no string is written as "". */
  datatype Request = Request(
    plain: bool, unknown: seq<string>,
    role: string, tool: string, memoryKind: string, capability: string, target: string, path: string)

  function ObjectionToRequest(r: Request): Option<Objection> {
    if !r.plain then Some(RequestNotObject)
    else if r.unknown != [] then Some(UnknownRequestField(r.unknown[0]))
    else if !Text.TrimmedLine(r.role) then Some(NotALine(Role))
    else if !Text.TrimmedLine(r.tool) then Some(NotALine(Tool))
    else if !Text.TrimmedLine(r.memoryKind) then Some(NotALine(MemoryKind))
    else if !Text.TrimmedLine(r.capability) then Some(NotALine(Capability))
    else if !Text.TrimmedLine(r.target) then Some(NotALine(Target))
    else if !Text.TrimmedLine(r.path) then Some(NotALine(Path))
    else match Paths.NormalizeRequestPath(r.path)
    case Err(error) => Some(BadPath(error))
    case Ok(_) => None
  }

  predicate RequestOk(r: Request) {
    && r.plain && r.unknown == []
    && Text.TrimmedLine(r.role) && Text.TrimmedLine(r.tool) && Text.TrimmedLine(r.memoryKind)
    && Text.TrimmedLine(r.capability) && Text.TrimmedLine(r.target) && Paths.NormalizeRequestPath(r.path).Ok?
  }

  lemma RequestOkIff(r: Request)
    ensures RequestOk(r) <==> ObjectionToRequest(r).None?
  {
  }

  function Refused(o: Objection): Decision {
    Decision(Deny, None, Digest(None), [InvalidRequest(o)], {All}, Some({Validation}))
  }

  predicate Included(e: Contract, n: string)
    requires IncludePaths in e.sets
  {
    exists p :: p in e.sets[IncludePaths] && Globs.GlobMatches(p, n)
  }

  predicate Excluded(e: Contract, n: string) {
    exists p :: p in e.excludes && Globs.GlobMatches(p, n)
  }

  /** What the request asks for on a dimension that is compared item by item. */
  function Asked(r: Request, f: SetField): Option<string> {
    match f
    case Roles => Some(r.role)
    case Tools => Some(r.tool)
    case MemoryKinds => Some(r.memoryKind)
    case Capabilities => Some(r.capability)
    case Targets => Some(r.target)
    case _ => None
  }

  function Violations(e: Contract, r: Request, n: string): set<Violation>
    requires e.sets.Keys == ALL_SETS
  {
    EveryField(IncludePaths);
    (set f | f in ALL_SETS && Asked(r, f).Some? && Asked(r, f).value !in e.sets[f] :: Outside(f))
    + (if Included(e, n) then {} else {Outside(IncludePaths)})
    + (if Excluded(e, n) then {ExcludedPath} else {})
  }

  /** What becomes of a valid decision with a contract, for a proper request. */
  function Outcome(d: Decision, r: Request): Decision
    requires d.effective.Some? && d.effective.value.sets.Keys == ALL_SETS && RequestOk(r)
  {
    var found := Violations(d.effective.value, r, Paths.NormalizeRequestPath(r.path).value);
    if found != {} then d.(verdict := Deny, reasons := [RequestExceeds], violations := Some(found))
    else d.(verdict := Allow, violations := Some({}))
  }

  lemma ValidHasSets(d: Decision)
    requires ValidDecision(d) && d.effective.Some?
    ensures d.effective.value.sets.Keys == ALL_SETS
  {
    FaultIff(Listed(d.effective.value));
  }

  /** `evaluateScopeRequest` */
  function Evaluate(d: Decision, r: Request): Decision {
    match ObjectionTo(d)
    case Some(o) => Refused(o)
    case None =>
      if d.effective.None? then d
      else match ObjectionToRequest(r)
      case Some(o) => Refused(o)
      case None =>
        ValidHasSets(d);
        RequestOkIff(r);
        Outcome(d, r)
  }

  // ---------------------------------------------------------------- what is allowed

  /** The request stays inside the contract on every dimension it has. */
  ghost predicate Permits(e: Contract, r: Request)
    requires e.sets.Keys == ALL_SETS
  {
    && RequestOk(r)
    && (forall f {:trigger Asked(r, f)} :: f in ALL_SETS && Asked(r, f).Some? ==> Asked(r, f).value in e.sets[f])
    && (exists p :: p in e.sets[IncludePaths] && Globs.GlobMatches(p, Paths.NormalizeRequestPath(r.path).value))
    && forall p :: p in e.excludes ==> !Globs.GlobMatches(p, Paths.NormalizeRequestPath(r.path).value)
  }

  lemma NoViolationsIff(e: Contract, r: Request)
    requires e.sets.Keys == ALL_SETS && RequestOk(r)
    ensures Violations(e, r, Paths.NormalizeRequestPath(r.path).value) == {} <==> Permits(e, r)
  {
    var n := Paths.NormalizeRequestPath(r.path).value;
    var found := Violations(e, r, n);
    if found == {} {
      forall f {:trigger Asked(r, f)} | f in ALL_SETS && Asked(r, f).Some? ensures Asked(r, f).value in e.sets[f] {
        assert Outside(f) !in found;
      }
      assert Outside(IncludePaths) !in found && ExcludedPath !in found;
    }
  }

  /** A request is allowed exactly when the decision is valid, has a contract, and the contract permits the request. */
  lemma AllowIff(d: Decision, r: Request)
    ensures Evaluate(d, r).verdict == Allow <==>
            ValidDecision(d) && d.effective.Some? && d.effective.value.sets.Keys == ALL_SETS && Permits(d.effective.value, r)
  {
    RequestOkIff(r);
    if ValidDecision(d) && d.effective.Some? {
      ValidHasSets(d);
      if RequestOk(r) { NoViolationsIff(d.effective.value, r); }
    }
  }

  /** A narrower contract permits nothing more. */
  lemma NarrowerPermitsLess(a: Contract, b: Contract, r: Request)
    requires a.sets.Keys == ALL_SETS && b.sets.Keys == ALL_SETS && Below(a, b) && Permits(a, r)
    ensures Permits(b, r)
  {
    var n := Paths.NormalizeRequestPath(r.path).value;
    forall f {:trigger Asked(r, f)} | f in ALL_SETS && Asked(r, f).Some? ensures Asked(r, f).value in b.sets[f] {
      assert a.sets[f] <= b.sets[f];
    }
    assert a.sets[IncludePaths] <= b.sets[IncludePaths];
  }

  lemma AllowedIsPermitted(d: Decision, r: Request)
    requires Evaluate(d, r).verdict == Allow
    ensures d.effective.Some? && d.effective.value.sets.Keys == ALL_SETS && Permits(d.effective.value, r)
  {
    AllowIff(d, r);
  }

  lemma EffectiveIsBelow(raws: seq<Raw>, i: nat)
    requires i < |raws| && AllAcceptable(raws) && Intersect(raws).effective.Some?
    ensures Sound(Clean(raws[i])) && Below(Intersect(raws).effective.value, Clean(raws[i]))
  {
    var e := Intersect(raws).effective.value;
    GroupIsMeet(raws, e);
    DecisionIsMeet(raws);
    assert CleanAll(raws)[i] == Clean(raws[i]);
    assert Sound(CleanAll(raws)[i]);
    MeetIsBelow(CleanAll(raws), i);
  }

  /** What the intersection allows, every single input permits. */
  lemma AllowedByAll(raws: seq<Raw>, r: Request, i: nat)
    requires i < |raws| && AllAcceptable(raws) && Evaluate(Intersect(raws), r).verdict == Allow
    ensures Clean(raws[i]).sets.Keys == ALL_SETS && Permits(Clean(raws[i]), r)
  {
    AllowedIsPermitted(Intersect(raws), r);
    EffectiveIsBelow(raws, i);
    NarrowerPermitsLess(Intersect(raws).effective.value, Clean(raws[i]), r);
  }

  /** An exclude of everything under a literal directory, in any input, keeps every path that leads there out, however spelled. */
  lemma ExcludedByAny(raws: seq<Raw>, r: Request, i: nat, p: string)
    requires i < |raws| && AllAcceptable(raws) && p + "/**" in OrEmpty(raws[i].excludes)
    requires Paths.RepoPattern(p) && Globs.Literal(p) && Globs.Split(p) <= Paths.Target(r.path)
    ensures Evaluate(Intersect(raws), r).verdict != Allow
  {
    if Evaluate(Intersect(raws), r).verdict == Allow {
      AllowedByAll(raws, r, i);
      assert p + "/**" in Clean(raws[i]).excludes;
      Paths.ExcludedIff(p, r.path, Paths.NormalizeRequestPath(r.path).value);
      assert false;
    }
  }

  // ---------------------------------------------------------------- decisions stay valid

  lemma HeadsAreHeads()
    ensures Head(INVALID_CONTRACT) && Head(INVALID_REQUEST)
  {
  }

  lemma {:induction false} FirstFaultOfOne(raws: seq<Raw>) returns (i: nat)
    requires FirstFault(raws).Some?
    ensures i < |raws| && FaultOf(raws[i]) == FirstFault(raws) && forall j :: 0 <= j < i ==> FaultOf(raws[j]).None?
  {
    if FaultOf(raws[0]).Some? {
      i := 0;
    } else {
      var k := FirstFaultOfOne(raws[1..]);
      i := k + 1;
      forall j | 0 <= j < i ensures FaultOf(raws[j]).None? { if j > 0 { assert raws[j] == raws[1..][j - 1]; } }
    }
  }

  /** A fault that quotes an unknown field which does not end a line. */
  predicate QuotesBadField(fault: Option<Fault>) {
    fault.Some? && fault.value.complaint.UnknownField? && !Text.LineEnd(fault.value.complaint.field)
  }

  lemma RefusedInputIff(raws: seq<Raw>)
    requires FirstFault(raws).Some?
    ensures ReasonIsLine(InvalidContract(FirstFault(raws).value)) <==> !QuotesBadField(FirstFault(raws))
  {
    var i := FirstFaultOfOne(raws);
    HeadsAreHeads();
    SaysLineIff(INVALID_CONTRACT, raws[i]);
  }

  lemma NamedReasonIsLine(name: string)
    requires Text.TrimmedLine(name)
    ensures ReasonIsLine(MissingBound(name)) && ReasonIsLine(EmptyBound(name))
  {
    Text.TrimmedIff("missing parameter bound: ", name);
    Text.TrimmedIff("empty parameter bound: ", name);
  }

  lemma BoundReasonIsLine(cs: seq<Contract>)
    requires cs != [] && AllSound(cs) && !BoundsMeet(cs)
    ensures ReasonIsLine(BoundReason(cs))
  {
    var bad :| bad in BoundNames(cs) && !BoundMeets(cs, bad);
    assert bad in BadBounds(cs);
    var n := Sorting.First(BadBounds(cs));
    var i :| 0 <= i < |cs| && n in cs[i].bounds;
    assert Sound(cs[i]) && BoundOk(n, cs[i].bounds[n]);
    NamedReasonIsLine(n);
  }

  lemma MeetReasonIsLine(cs: seq<Contract>)
    requires AllSound(cs) && Ready(cs) && Meet(cs).Err?
    ensures exists reason, unresolved :: Meet(cs).error == Refuse(reason, unresolved) && ReasonIsLine(reason)
  {
    if !BoundsMeet(cs) { BoundReasonIsLine(cs); }
    var d := Meet(cs).error;
    assert d == Refuse(d.reasons[0], d.unresolved);
  }

  lemma RefusalIsValidIff(reason: Reason, unresolved: set<Dimension>)
    ensures ValidDecision(Refuse(reason, unresolved)) <==> ReasonIsLine(reason)
  {
    var d := Refuse(reason, unresolved);
    assert d.reasons[0] == reason;
  }

  lemma ValidWhen(d: Decision, e: Contract)
    requires d.effective == Some(e) && !d.verdict.Defer? && d.reasons == [] && d.digest == Digest(Some(e))
    requires Normalize(Listed(e)) == Ok(e)
    ensures ValidDecision(d)
  {
  }

  lemma MetDecision(raws: seq<Raw>, e: Contract)
    requires Intersect(raws).effective == Some(e)
    ensures Intersect(raws) == Decide(Ok(e), |raws|) && Normalize(Listed(e)) == Ok(e)
  {
    ListedSpells(e);
    EffectiveAgain(raws, Listed(e));
    GroupIsMeet(raws, e);
    DecisionIsMeet(raws);
  }

  lemma MetIsValid(raws: seq<Raw>, e: Contract)
    requires Intersect(raws).effective == Some(e)
    ensures ValidDecision(Intersect(raws))
  {
    MetDecision(raws, e);
    ValidWhen(Decide(Ok(e), |raws|), e);
  }

  /**
   * A decision of the engine passes its own runtime check unless it refuses an
   * input for an unknown field that is empty, has a line break or ends in white
   * space: then the reason is no trimmed single line.
   */
  lemma IntersectionValidIff(raws: seq<Raw>)
    ensures ValidDecision(Intersect(raws)) <==> !QuotesBadField(FirstFault(raws))
  {
    if raws == [] {
      assert Intersect(raws).reasons[0] == NoContracts;
    } else if FirstFault(raws).Some? {
      FaultDecides(raws, FirstFault(raws).value);
      RefusedInputIff(raws);
      RefusalIsValidIff(InvalidContract(FirstFault(raws).value), {All});
    } else {
      FirstFaultIff(raws);
      if Intersect(raws).effective.Some? { MetIsValid(raws, Intersect(raws).effective.value); } else { UnmetIsValid(raws); }
    }
  }

  lemma UnmetIsValid(raws: seq<Raw>)
    requires raws != [] && AllAcceptable(raws) && Intersect(raws).effective.None?
    ensures ValidDecision(Intersect(raws))
  {
    var cs := CleanAll(raws);
    DecisionIsMeet(raws);
    DecidedDigest(cs, |raws|);
    MeetReasonIsLine(cs);
    var reason, unresolved :| Meet(cs).error == Refuse(reason, unresolved) && ReasonIsLine(reason);
    RefusalIsValidIff(reason, unresolved);
  }

  /** For one, a contract whose first field is unknown and has no name, or a line break at its end. */
  lemma BadFieldFails(raw: Raw, more: seq<Raw>)
    requires raw.plain && raw.unknown != [] && raw.unknown[0] in {"", "a\n"}
    ensures !ValidDecision(Intersect([raw] + more))
  {
    var field := raw.unknown[0];
    assert !Text.LineEnd(field) by { assert field != "" ==> field[1] == '\n'; }
    assert ([raw] + more)[0] == raw;
    IntersectionValidIff([raw] + more);
  }

  lemma RequestObjectionIff(r: Request)
    requires ObjectionToRequest(r).Some?
    ensures ObjectsInLine(ObjectionToRequest(r).value) <==> (r.plain && r.unknown != [] ==> Text.LineEnd(r.unknown[0]))
  {
    HeadsAreHeads();
    if r.plain && r.unknown != [] { UnknownFieldIff(INVALID_REQUEST, "scope request", r.unknown[0]); }
  }

  lemma ListedFaultIsLine(c: Contract)
    requires FaultOf(Listed(c)).Some?
    ensures SaysLine(INVALID_REQUEST, FaultOf(Listed(c)).value)
  {
    HeadsAreHeads();
    SaysLineIff(INVALID_REQUEST, Listed(c));
    UnknownReported(Listed(c));
    NothingUnknown(Listed(c), FaultOf(Listed(c)).value);
  }

  lemma NothingUnknown(raw: Raw, f: Fault)
    requires raw.unknown == [] && raw.unknownBudgets == []
    requires forall n {:trigger raw.bounds[n]} :: n in raw.bounds && raw.bounds[n].Range? ==> raw.bounds[n].unknown == []
    ensures !FirstUnknown(raw, f)
  {
  }

  lemma JudgedInLine(d: Decision, again: Option<Result<Contract, Fault>>)
    requires Judged(d, again).Some?
    requires again.Some? && again.value.Err? ==> SaysLine(INVALID_REQUEST, again.value.error)
    ensures ObjectsInLine(Judged(d, again).value)
  {
  }

  lemma DecisionObjectionIsLine(d: Decision)
    requires ObjectionTo(d).Some?
    ensures ObjectsInLine(ObjectionTo(d).value)
  {
    if d.effective.Some? && Normalize(Listed(d.effective.value)).Err? { ListedFaultIsLine(d.effective.value); }
    JudgedInLine(d, Renormalized(d));
  }

  lemma RefusedIsValidIff(o: Objection)
    ensures ValidDecision(Refused(o)) <==> ObjectsInLine(o)
  {
    assert Refused(o).reasons[0] == InvalidRequest(o);
  }

  /** What an evaluation returns is a valid decision, unless it refuses a request for such an unknown field. */
  lemma EvaluationValidIff(d: Decision, r: Request)
    ensures ValidDecision(Evaluate(d, r)) <==>
            !(ValidDecision(d) && d.effective.Some? && r.plain && r.unknown != [] && !Text.LineEnd(r.unknown[0]))
  {
    if ObjectionTo(d).Some? {
      DecisionObjectionIsLine(d);
      RefusedIsValidIff(ObjectionTo(d).value);
    } else if d.effective.Some? {
      if ObjectionToRequest(r).Some? {
        RequestObjectionIff(r);
        RefusedIsValidIff(ObjectionToRequest(r).value);
      } else {
        OutcomeIsValid(d, r);
      }
    }
  }

  lemma JudgedAlike(d: Decision, out: Decision, again: Option<Result<Contract, Fault>>)
    requires again.Some? && Judged(d, again).None? && out.digest == d.digest && !out.verdict.Defer? && ReasonsAreLines(out)
    ensures Judged(out, again).None?
  {
  }

  lemma OutcomeIsValid(d: Decision, r: Request)
    requires ValidDecision(d) && d.effective.Some? && RequestOk(r)
    ensures d.effective.value.sets.Keys == ALL_SETS && ValidDecision(Outcome(d, r))
  {
    ValidHasSets(d);
    assert [RequestExceeds][0] == RequestExceeds;
    JudgedAlike(d, Outcome(d, r), Renormalized(d));
  }

  lemma OutcomesAlike(d: Decision, q: Request, r: Request)
    requires d.effective.Some? && d.effective.value.sets.Keys == ALL_SETS && RequestOk(q) && RequestOk(r)
    ensures Outcome(Outcome(d, q), r).verdict == Outcome(d, r).verdict
    ensures Outcome(Outcome(d, q), r).effective == Outcome(d, r).effective
  {
  }

  lemma EvaluateIs(d: Decision, r: Request)
    requires ValidDecision(d) && d.effective.Some?
    ensures d.effective.value.sets.Keys == ALL_SETS
    ensures RequestOk(r) ==> Evaluate(d, r) == Outcome(d, r)
    ensures !RequestOk(r) ==> ObjectionToRequest(r).Some? && Evaluate(d, r) == Refused(ObjectionToRequest(r).value)
  {
    ValidHasSets(d);
    RequestOkIff(r);
  }

  /** Nothing but the contract decides: the outcome of an earlier request leaves no trace. */
  lemma EarlierRequestsLeaveNoTrace(d: Decision, q: Request, r: Request)
    requires ValidDecision(d) && RequestOk(q)
    ensures Evaluate(Evaluate(d, q), r).verdict == Evaluate(d, r).verdict
    ensures Evaluate(Evaluate(d, q), r).effective == Evaluate(d, r).effective
  {
    if d.effective.Some? {
      OutcomeIsValid(d, q);
      EvaluateIs(d, q);
      EvaluateIs(d, r);
      EvaluateIs(Outcome(d, q), r);
      if RequestOk(r) { OutcomesAlike(d, q, r); }
    }
  }

  /** The digest binds the contract: exchange one without the other and the decision is refused. */
  lemma DigestBindsContract(d: Decision, other: Option<Contract>, r: Request)
    requires ValidDecision(d) && other != d.effective
    requires (d.effective.Some? ==> Genuine(d.effective.value)) && (other.Some? ==> Genuine(other.value))
    ensures exists o :: Evaluate(d.(effective := other), r) == Refused(o)
  {
    var forged := d.(effective := other);
    ValidDecisionIff(d);
    ValidDecisionIff(forged);
    assert !ValidDecision(forged);
    assert Evaluate(forged, r) == Refused(ObjectionTo(forged).value);
  }
}

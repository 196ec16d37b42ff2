/**
 * Which fault the normalisation of a scope contract reports
 * (`normalizeScopeContract` in src/policy/scope-engine.mjs): of everything that
 * is wrong with the contract, what is looked at first.
 */
module ScopeFaults {
  import opened Wrappers
  import opened ScopeContracts
  import opened ScopeNormal
  import Paths
  import Sorting
  import Text
  import Timestamps

  // ---------------------------------------------------------------- what is wrong

  predicate NotAllowed(sets: map<SetField, seq<string>>, f: SetField, v: string) {
    f in sets && v in sets[f] && v !in Allowed(f)
  }

  /** Of the values that the field does not support, the one that sorts first. */
  ghost predicate FirstUnsupported(sets: map<SetField, seq<string>>, f: SetField, v: string) {
    NotAllowed(sets, f, v) && forall u {:trigger NotAllowed(sets, f, u)} :: NotAllowed(sets, f, u) ==> u == v || Text.Less(v, u)
  }

  predicate Listed(l: Listing, s: string) {
    l.Items? && s in l.items
  }

  /** Something is wrong with the bound of this name. */
  predicate Troubled(bounds: map<string, Range>, n: string) {
    && n in bounds
    && (!Text.TrimmedLine(n) || bounds[n] == NotAnObject || bounds[n].unknown != []
        || bounds[n].bound == None || bounds[n].bound.value.min > bounds[n].bound.value.max)
  }

  ghost predicate FirstTroubled(bounds: map<string, Range>, n: string) {
    Troubled(bounds, n) && forall m {:trigger Troubled(bounds, m)} :: Troubled(bounds, m) ==> m == n || Text.Less(n, m)
  }

  /** A budget is a number of its kind: dollars not below zero, whole numbers of the rest, at least one attempt. */
  predicate Budgeted(budgets: map<BudgetField, real>, b: BudgetField) {
    b in budgets && match b
    case CostUsd => budgets[b] >= 0.0
    case Attempts => budgets[b].Floor as real == budgets[b] && budgets[b] >= 1.0
    case _ => budgets[b].Floor as real == budgets[b] && budgets[b] >= 0.0
  }

  predicate Untimely(s: string, c: Complaint) {
    match Timestamps.ParseIso(s)
    case Ok(_) => false
    case Err(NotAString) => c == MustBe(Line)
    case Err(NotCanonical) => c == MustBe(CanonicalTime)
    case Err(Impossible) => c == ImpossibleTime
  }

  /** This is wrong with the contract. */
  ghost predicate Wrong(raw: Raw, x: Fault) {
    match x.at
    case ContractAt =>
      if x.complaint == MustBe(Object) then !raw.plain else raw.unknown != [] && x.complaint == UnknownField(raw.unknown[0])
    case ProjectAt => x.complaint == MustBe(Line) && !Text.TrimmedLine(raw.project)
    case FieldAt(f) =>
      if x.complaint == MustBe(NonEmptyArray) then f !in raw.sets || raw.sets[f] == []
      else f in {Roles, MemoryKinds, RetentionClasses} && x.complaint.Unsupported? && FirstUnsupported(raw.sets, f, x.complaint.value)
    case ItemAt(f) =>
      if x.complaint == MustBe(Line) then f in raw.sets && exists s :: s in raw.sets[f] && !Text.TrimmedLine(s)
      else f == IncludePaths && x.complaint == MustBe(SafePattern)
           && (f in raw.sets ==> exists s :: s in raw.sets[f] && !Paths.RepoPattern(s))
    case ExcludesAt => x.complaint == MustBe(Array) && raw.excludes == NotAnArray
    case ExcludeAt =>
      if x.complaint == MustBe(Line) then exists s :: Listed(raw.excludes, s) && !Text.TrimmedLine(s)
      else x.complaint == MustBe(SafePattern) && exists s :: Listed(raw.excludes, s) && !Paths.RepoPattern(s)
    case BoundsAt => x.complaint == MustBe(Object) && !raw.plainBounds
    case BoundNameAt => x.complaint == MustBe(Line) && exists n :: FirstTroubled(raw.bounds, n) && !Text.TrimmedLine(n)
    case BoundAt(n) =>
      && FirstTroubled(raw.bounds, n) && Text.TrimmedLine(n)
      && x.complaint == (match raw.bounds[n]
                         case NotAnObject => MustBe(Object)
                         case Range(unknown, _) => if unknown != [] then UnknownField(unknown[0]) else NeedsRange)
    case BudgetsAt =>
      if x.complaint == MustBe(Object) then !raw.plainBudgets
      else raw.unknownBudgets != [] && x.complaint == UnknownField(raw.unknownBudgets[0])
    case BudgetAt(b) => x.complaint == IsInvalid && !Budgeted(raw.budgets, b)
    case FromAt => Untimely(raw.validFrom, x.complaint)
    case UntilAt => Untimely(raw.validUntil, x.complaint)
    case WindowAt => x.complaint == MustBeOrdered && !InOrder(raw.validFrom, raw.validUntil)
    case OccurrencesAt => x.complaint == MustBe(PositiveInteger) && raw.maxOccurrences <= 0
    case ExternalityAt => x.complaint == MustBe(AnExternality) && raw.externality == None
    case ReversibilityAt => x.complaint == MustBe(AReversibility) && raw.reversibility == None
    case ApprovalAt => x.complaint == MustBe(Boolean) && raw.approvalRequired == None
    case VersionsAt => x.complaint == MustBe(Array) && raw.sourceVersions == NotAnArray
    case VersionAt => x.complaint == MustBe(Line) && exists s :: Listed(raw.sourceVersions, s) && !Text.TrimmedLine(s)
  }

  // ---------------------------------------------------------------- what is looked at first

  function Turn(f: SetField): nat {
    match f
    case IncludePaths => 0 case Roles => 1 case Tools => 2 case MemoryKinds => 3 case Audiences => 4
    case Capabilities => 5 case Targets => 6 case DataClasses => 7 case RetentionClasses => 8
  }

  /** The order of the checks: the head, each list with its items, the values allowed, the paths, bounds, budgets, window, labels. */
  function Rank(x: Fault): nat {
    match x.at
    case ContractAt => if x.complaint == MustBe(Object) then 0 else 1
    case ProjectAt => 2
    case FieldAt(f) => if x.complaint == MustBe(NonEmptyArray) then 10 + 2 * Turn(f) else 40 + Turn(f)
    case ItemAt(f) => if x.complaint == MustBe(Line) then 11 + 2 * Turn(f) else 50
    case ExcludesAt => 51
    case ExcludeAt => if x.complaint == MustBe(Line) then 52 else 53
    case BoundsAt => 60
    case BoundNameAt => 61
    case BoundAt(_) => 61
    case BudgetsAt => if x.complaint == MustBe(Object) then 70 else 71
    case BudgetAt(b) => (match b case CostUsd => 72 case Tokens => 73 case Seconds => 74 case Attempts => 75)
    case FromAt => 80
    case UntilAt => 81
    case WindowAt => 82
    case OccurrencesAt => 83
    case ExternalityAt => 84
    case ReversibilityAt => 85
    case ApprovalAt => 86
    case VersionsAt => 87
    case VersionAt => 88
  }

  /** Of what is wrong between two ranks this is the first; or nothing is. */
  ghost predicate Reports(fault: Option<Fault>, raw: Raw, lo: nat, hi: nat) {
    match fault
    case None => forall y {:trigger Wrong(raw, y)} :: Wrong(raw, y) ==> !(lo <= Rank(y) <= hi)
    case Some(x) =>
      && Wrong(raw, x) && lo <= Rank(x) <= hi
      && forall y {:trigger Wrong(raw, y)} :: Wrong(raw, y) && lo <= Rank(y) <= hi ==> Rank(x) <= Rank(y)
  }

  lemma Then(a: Option<Fault>, b: Option<Fault>, raw: Raw, lo: nat, mid: nat, hi: nat)
    requires lo <= mid < hi && Reports(a, raw, lo, mid) && Reports(b, raw, mid + 1, hi)
    ensures Reports(Or(a, b), raw, lo, hi)
  {
  }

  lemma HeadReports(raw: Raw)
    ensures Reports(HeadFault(raw), raw, 0, 9)
  {
  }

  /** The faults of one list have ranks of their own. */
  lemma FieldRanks(x: Fault, f: SetField)
    requires 10 + 2 * Turn(f) <= Rank(x) <= 11 + 2 * Turn(f)
    ensures x == Fault(FieldAt(f), MustBe(NonEmptyArray)) || x == Fault(ItemAt(f), MustBe(Line))
    ensures Rank(x) == 10 + 2 * Turn(f) <==> x == Fault(FieldAt(f), MustBe(NonEmptyArray))
  {
  }

  lemma LinesIff(items: seq<string>)
    ensures Lines(ToSet(items)) <==> forall s :: s in items ==> Text.TrimmedLine(s)
    ensures PatternsOk(ToSet(items)) <==> forall s :: s in items ==> Paths.RepoPattern(s)
  {
    forall s ensures s in items <==> s in ToSet(items) { }
  }

  lemma WrongFieldIff(raw: Raw, f: SetField)
    ensures Wrong(raw, Fault(FieldAt(f), MustBe(NonEmptyArray))) <==> f !in raw.sets || raw.sets[f] == []
    ensures Wrong(raw, Fault(ItemAt(f), MustBe(Line))) <==> f in raw.sets && !Lines(ToSet(raw.sets[f]))
  {
    if f in raw.sets { LinesIff(raw.sets[f]); }
  }

  lemma FieldReports(raw: Raw, f: SetField)
    ensures Reports(FieldFault(raw.sets, f), raw, 10 + 2 * Turn(f), 11 + 2 * Turn(f))
  {
    WrongFieldIff(raw, f);
    var fault := FieldFault(raw.sets, f);
    forall y {:trigger Wrong(raw, y)} | Wrong(raw, y) && 10 + 2 * Turn(f) <= Rank(y) <= 11 + 2 * Turn(f)
      ensures fault.Some? && Rank(fault.value) <= Rank(y)
    {
      FieldRanks(y, f);
    }
  }

  lemma TurnOf(k: nat)
    requires k < |SET_FIELDS|
    ensures Turn(SET_FIELDS[k]) == k
  {
  }

  /** The fields from the `k`th on. */
  lemma {:induction false} FieldsReport(raw: Raw, fields: seq<SetField>, k: nat)
    requires fields != [] && k + |fields| == 9 && forall i :: 0 <= i < |fields| ==> Turn(fields[i]) == k + i
    ensures Reports(FieldFaults(raw.sets, fields), raw, 10 + 2 * k, 27)
    decreases fields
  {
    FieldReports(raw, fields[0]);
    if |fields| > 1 {
      FieldsReport(raw, fields[1..], k + 1);
      Then(FieldFault(raw.sets, fields[0]), FieldFaults(raw.sets, fields[1..]), raw, 10 + 2 * k, 11 + 2 * k, 27);
    } else {
      assert FieldFaults(raw.sets, fields) == FieldFault(raw.sets, fields[0]);
    }
  }

  lemma AllFieldsReport(raw: Raw)
    ensures Reports(FieldFaults(raw.sets, SET_FIELDS), raw, 10, 27)
  {
    forall i | 0 <= i < |SET_FIELDS| ensures Turn(SET_FIELDS[i]) == i { TurnOf(i); }
    FieldsReport(raw, SET_FIELDS, 0);
  }

  /** The restricted fields, each with the ranks up to the next. */
  predicate Ranked(f: SetField, lo: nat, hi: nat) {
    match f
    case Roles => (lo, hi) == (28, 41)
    case MemoryKinds => (lo, hi) == (42, 43)
    case RetentionClasses => (lo, hi) == (44, 49)
    case _ => false
  }

  /** A fault of these ranks is one of that field, or of none that is restricted. */
  lemma ValueRanks(x: Fault, f: SetField, lo: nat, hi: nat)
    requires Ranked(f, lo, hi) && lo <= Rank(x) <= hi
    ensures x.at.FieldAt? && x.complaint != MustBe(NonEmptyArray)
    ensures x.at.f != f ==> x.at.f !in {Roles, MemoryKinds, RetentionClasses}
    ensures x.at.f == f ==> Rank(x) == 40 + Turn(f)
  {
  }

  lemma EnumReports(raw: Raw, f: SetField, lo: nat, hi: nat)
    requires Ranked(f, lo, hi)
    ensures Reports(EnumFault(raw.sets, f), raw, lo, hi)
  {
    var bad, fault := Unlisted(raw.sets, f), EnumFault(raw.sets, f);
    forall v {:trigger v in bad} {:trigger NotAllowed(raw.sets, f, v)} ensures v in bad <==> NotAllowed(raw.sets, f, v) { }
    if bad != {} { assert FirstUnsupported(raw.sets, f, Sorting.First(bad)); }
    forall y {:trigger Wrong(raw, y)} | Wrong(raw, y) && lo <= Rank(y) <= hi ensures fault.Some? && Rank(fault.value) <= Rank(y) {
      ValueRanks(y, f, lo, hi);
    }
  }

  lemma EnumsReport(raw: Raw)
    ensures Reports(EnumFaults(raw.sets), raw, 28, 49)
  {
    EnumReports(raw, Roles, 28, 41);
    EnumReports(raw, MemoryKinds, 42, 43);
    EnumReports(raw, RetentionClasses, 44, 49);
    Then(EnumFault(raw.sets, MemoryKinds), EnumFault(raw.sets, RetentionClasses), raw, 42, 43, 49);
    Then(EnumFault(raw.sets, Roles), Or(EnumFault(raw.sets, MemoryKinds), EnumFault(raw.sets, RetentionClasses)), raw, 28, 41, 49);
  }

  // ---------------------------------------------------------------- paths, bounds, budgets

  /** One check, and nothing else of its rank. */
  lemma CheckReports(raw: Raw, ok: bool, x: Fault, r: nat)
    requires Rank(x) == r && (Wrong(raw, x) <==> !ok)
    requires forall y {:trigger Rank(y)} :: Rank(y) == r && y != x ==> !Wrong(raw, y)
    ensures Reports(Check(ok, x.at, x.complaint), raw, r, r)
  {
  }

  lemma PathRanks(x: Fault)
    ensures Rank(x) == 50 ==> x.at.ItemAt? && x.complaint != MustBe(Line)
    ensures Rank(x) == 51 ==> x.at == ExcludesAt
    ensures Rank(x) == 52 ==> x == Fault(ExcludeAt, MustBe(Line))
    ensures Rank(x) == 53 ==> x.at == ExcludeAt && x.complaint != MustBe(Line)
    ensures !(54 <= Rank(x) <= 59)
  {
  }

  lemma ListedIff(l: Listing)
    ensures Lines(ToSet(OrEmpty(l))) <==> forall s :: Listed(l, s) ==> Text.TrimmedLine(s)
    ensures PatternsOk(ToSet(OrEmpty(l))) <==> forall s :: Listed(l, s) ==> Paths.RepoPattern(s)
  {
    LinesIff(OrEmpty(l));
    forall s ensures s in OrEmpty(l) <==> Listed(l, s) { }
  }

  lemma WrongPathIff(raw: Raw)
    ensures Wrong(raw, Fault(ItemAt(IncludePaths), MustBe(SafePattern))) <==>
              !(IncludePaths in raw.sets && PatternsOk(ToSet(raw.sets[IncludePaths])))
    ensures Wrong(raw, Fault(ExcludesAt, MustBe(Array))) <==> raw.excludes.NotAnArray?
  {
    if IncludePaths in raw.sets { LinesIff(raw.sets[IncludePaths]); }
  }

  lemma WrongExcludeIff(raw: Raw)
    ensures Wrong(raw, Fault(ExcludeAt, MustBe(Line))) <==> !Lines(ToSet(OrEmpty(raw.excludes)))
    ensures Wrong(raw, Fault(ExcludeAt, MustBe(SafePattern))) <==> !PatternsOk(ToSet(OrEmpty(raw.excludes)))
  {
    ListedIff(raw.excludes);
  }

  lemma IncludeReports(raw: Raw)
    ensures Reports(Check(IncludePaths in raw.sets && PatternsOk(ToSet(raw.sets[IncludePaths])), ItemAt(IncludePaths), MustBe(SafePattern)), raw, 50, 50)
    ensures Reports(Check(!raw.excludes.NotAnArray?, ExcludesAt, MustBe(Array)), raw, 51, 51)
  {
    WrongPathIff(raw);
    forall y {:trigger Rank(y)} | 50 <= Rank(y) <= 51 && y != Fault(ItemAt(IncludePaths), MustBe(SafePattern)) && y != Fault(ExcludesAt, MustBe(Array))
      ensures !Wrong(raw, y) { PathRanks(y); }
    CheckReports(raw, IncludePaths in raw.sets && PatternsOk(ToSet(raw.sets[IncludePaths])), Fault(ItemAt(IncludePaths), MustBe(SafePattern)), 50);
    CheckReports(raw, !raw.excludes.NotAnArray?, Fault(ExcludesAt, MustBe(Array)), 51);
  }

  lemma ExcludeReports(raw: Raw)
    ensures Reports(Check(Lines(ToSet(OrEmpty(raw.excludes))), ExcludeAt, MustBe(Line)), raw, 52, 52)
    ensures Reports(Check(PatternsOk(ToSet(OrEmpty(raw.excludes))), ExcludeAt, MustBe(SafePattern)), raw, 53, 59)
  {
    WrongExcludeIff(raw);
    forall y {:trigger Rank(y)} | 52 <= Rank(y) <= 53 && y != Fault(ExcludeAt, MustBe(Line)) && y != Fault(ExcludeAt, MustBe(SafePattern))
      ensures !Wrong(raw, y) { PathRanks(y); }
    CheckReports(raw, Lines(ToSet(OrEmpty(raw.excludes))), Fault(ExcludeAt, MustBe(Line)), 52);
    CheckReports(raw, PatternsOk(ToSet(OrEmpty(raw.excludes))), Fault(ExcludeAt, MustBe(SafePattern)), 53);
    forall y {:trigger Rank(y)} ensures !(54 <= Rank(y) <= 59) { PathRanks(y); }
  }

  lemma PathsReport(raw: Raw)
    ensures Reports(PathFault(raw), raw, 50, 59)
  {
    IncludeReports(raw);
    ExcludeReports(raw);
    var a := Check(IncludePaths in raw.sets && PatternsOk(ToSet(raw.sets[IncludePaths])), ItemAt(IncludePaths), MustBe(SafePattern));
    var b := Check(!raw.excludes.NotAnArray?, ExcludesAt, MustBe(Array));
    var c := Check(Lines(ToSet(OrEmpty(raw.excludes))), ExcludeAt, MustBe(Line));
    var d := Check(PatternsOk(ToSet(OrEmpty(raw.excludes))), ExcludeAt, MustBe(SafePattern));
    Then(c, d, raw, 52, 52, 59);
    Then(b, Or(c, d), raw, 51, 51, 59);
    Then(a, Or(b, Or(c, d)), raw, 50, 50, 59);
  }

  lemma BoundRanks(x: Fault)
    ensures Rank(x) == 60 ==> x.at == BoundsAt
    ensures Rank(x) == 61 ==> x.at == BoundNameAt || x.at.BoundAt?
    ensures !(62 <= Rank(x) <= 69)
  {
  }

  lemma TroubledIff(bounds: map<string, Range>, n: string)
    ensures n in FaultyBounds(bounds) <==> Troubled(bounds, n)
  {
  }

  /** The fault of a bound, when its name is the first in trouble. */
  lemma WrongBound(raw: Raw, n: string)
    requires FirstTroubled(raw.bounds, n)
    ensures n in raw.bounds && RangeFault(n, raw.bounds[n]).Some?
    ensures Wrong(raw, RangeFault(n, raw.bounds[n]).value) && Rank(RangeFault(n, raw.bounds[n]).value) == 61
  {
  }

  lemma BoundsReport(raw: Raw)
    ensures Reports(BoundFault(raw), raw, 60, 69)
  {
    var bad, fault := FaultyBounds(raw.bounds), BoundFault(raw);
    forall n {:trigger n in bad} {:trigger Troubled(raw.bounds, n)} ensures n in bad <==> Troubled(raw.bounds, n) { TroubledIff(raw.bounds, n); }
    if bad != {} {
      assert FirstTroubled(raw.bounds, Sorting.First(bad));
      WrongBound(raw, Sorting.First(bad));
    }
    forall y {:trigger Wrong(raw, y)} | Wrong(raw, y) && 60 <= Rank(y) <= 69 ensures fault.Some? && Rank(fault.value) <= Rank(y) {
      BoundRanks(y);
    }
  }

  lemma BudgetRanks(x: Fault)
    ensures Rank(x) == 70 ==> x == Fault(BudgetsAt, MustBe(Object))
    ensures Rank(x) == 71 ==> x.at == BudgetsAt && x.complaint != MustBe(Object)
    ensures 72 <= Rank(x) <= 75 ==> x.at.BudgetAt?
    ensures !(76 <= Rank(x) <= 79)
  {
  }

  lemma BudgetedIff(budgets: map<BudgetField, real>, b: BudgetField)
    ensures Budgeted(budgets, b) <==> b in budgets && BudgetOk(b, budgets[b])
  {
  }

  lemma BudgetReports(raw: Raw, b: BudgetField, r: nat)
    requires r == Rank(Fault(BudgetAt(b), IsInvalid))
    ensures Reports(BudgetFault(raw.budgets, b), raw, r, if b.Attempts? then 79 else r)
  {
    BudgetedIff(raw.budgets, b);
    var fault := BudgetFault(raw.budgets, b);
    forall y {:trigger Wrong(raw, y)} | Wrong(raw, y) && r <= Rank(y) <= (if b.Attempts? then 79 else r)
      ensures fault.Some? && Rank(fault.value) <= Rank(y)
    {
      BudgetRanks(y);
    }
  }

  lemma BudgetHeadReports(raw: Raw)
    ensures Reports(Or(Check(raw.plainBudgets, BudgetsAt, MustBe(Object)), Exact(raw.unknownBudgets, BudgetsAt)), raw, 70, 71)
  {
    forall y {:trigger Rank(y)} | 70 <= Rank(y) <= 71 ensures y.at == BudgetsAt { BudgetRanks(y); }
  }

  lemma BudgetTailReports(raw: Raw)
    ensures Reports(Or(BudgetFault(raw.budgets, Tokens), Or(BudgetFault(raw.budgets, Seconds), BudgetFault(raw.budgets, Attempts))), raw, 73, 79)
  {
    var t, s, a := BudgetFault(raw.budgets, Tokens), BudgetFault(raw.budgets, Seconds), BudgetFault(raw.budgets, Attempts);
    BudgetReports(raw, Tokens, 73);
    BudgetReports(raw, Seconds, 74);
    BudgetReports(raw, Attempts, 75);
    Then(s, a, raw, 74, 74, 79);
    Then(t, Or(s, a), raw, 73, 73, 79);
  }

  lemma BudgetsReport(raw: Raw)
    ensures Reports(BudgetFaults(raw), raw, 70, 79)
  {
    var plain, exact := Check(raw.plainBudgets, BudgetsAt, MustBe(Object)), Exact(raw.unknownBudgets, BudgetsAt);
    var c := BudgetFault(raw.budgets, CostUsd);
    var rest := Or(BudgetFault(raw.budgets, Tokens), Or(BudgetFault(raw.budgets, Seconds), BudgetFault(raw.budgets, Attempts)));
    BudgetReports(raw, CostUsd, 72);
    BudgetTailReports(raw);
    BudgetHeadReports(raw);
    Then(c, rest, raw, 72, 72, 79);
    Then(Or(plain, exact), Or(c, rest), raw, 70, 71, 79);
    assert BudgetFaults(raw) == Or(Or(plain, exact), Or(c, rest));
  }

  // ---------------------------------------------------------------- window and labels

  lemma WindowRanks(x: Fault)
    ensures Rank(x) == 80 ==> x.at == FromAt
    ensures Rank(x) == 81 ==> x.at == UntilAt
    ensures Rank(x) == 82 ==> x.at == WindowAt
  {
  }

  lemma TimeReports(raw: Raw, s: string, at: Place, r: nat)
    requires (at, r, s) in {(FromAt, 80, raw.validFrom), (UntilAt, 81, raw.validUntil)}
    ensures Reports(TimeFault(s, at), raw, r, r)
  {
    var fault := TimeFault(s, at);
    forall y {:trigger Wrong(raw, y)} | Wrong(raw, y) && Rank(y) == r ensures fault == Some(y) { WindowRanks(y); }
  }

  /** The end of the window, and the order of the two. */
  lemma EndReports(raw: Raw, until: Option<Fault>, order: Option<Fault>)
    requires until == TimeFault(raw.validUntil, UntilAt)
    requires order == Check(InOrder(raw.validFrom, raw.validUntil), WindowAt, MustBeOrdered)
    ensures Reports(Or(until, order), raw, 81, 82)
  {
    TimeReports(raw, raw.validUntil, UntilAt, 81);
    OrderReports(raw);
    Then(until, order, raw, 81, 81, 82);
  }

  lemma StartReports(raw: Raw, from: Option<Fault>, rest: Option<Fault>)
    requires from == TimeFault(raw.validFrom, FromAt) && Reports(rest, raw, 81, 82)
    ensures Reports(Or(from, rest), raw, 80, 82)
  {
    TimeReports(raw, raw.validFrom, FromAt, 80);
    Then(from, rest, raw, 80, 80, 82);
  }

  lemma WindowReports(raw: Raw)
    ensures Reports(WindowFault(raw.validFrom, raw.validUntil), raw, 80, 82)
  {
    var until := TimeFault(raw.validUntil, UntilAt);
    var order := Check(InOrder(raw.validFrom, raw.validUntil), WindowAt, MustBeOrdered);
    EndReports(raw, until, order);
    StartReports(raw, TimeFault(raw.validFrom, FromAt), Or(until, order));
  }

  lemma OrderReports(raw: Raw)
    ensures Reports(Check(InOrder(raw.validFrom, raw.validUntil), WindowAt, MustBeOrdered), raw, 82, 82)
  {
    forall y {:trigger Rank(y)} | Rank(y) == 82 ensures y.at == WindowAt { WindowRanks(y); }
  }

  lemma LabelRanks(x: Fault)
    ensures Rank(x) == 83 ==> x.at == OccurrencesAt
    ensures Rank(x) == 84 ==> x.at == ExternalityAt
    ensures Rank(x) == 85 ==> x.at == ReversibilityAt
    ensures Rank(x) == 86 ==> x.at == ApprovalAt
    ensures Rank(x) == 87 ==> x.at == VersionsAt
    ensures Rank(x) == 88 ==> x.at == VersionAt
    ensures Rank(x) <= 88
  {
  }

  lemma NumberReports(raw: Raw)
    ensures Reports(Check(raw.maxOccurrences >= 1, OccurrencesAt, MustBe(PositiveInteger)), raw, 83, 83)
    ensures Reports(Check(raw.externality.Some?, ExternalityAt, MustBe(AnExternality)), raw, 84, 84)
  {
    forall y {:trigger Rank(y)} | 83 <= Rank(y) <= 84 ensures y.at == OccurrencesAt || y.at == ExternalityAt { LabelRanks(y); }
  }

  lemma ChoiceReports(raw: Raw)
    ensures Reports(Check(raw.reversibility.Some?, ReversibilityAt, MustBe(AReversibility)), raw, 85, 85)
    ensures Reports(Check(raw.approvalRequired.Some?, ApprovalAt, MustBe(Boolean)), raw, 86, 86)
  {
    forall y {:trigger Rank(y)} | 85 <= Rank(y) <= 86 ensures y.at == ReversibilityAt || y.at == ApprovalAt { LabelRanks(y); }
  }

  lemma WrongVersionIff(raw: Raw)
    ensures Wrong(raw, Fault(VersionAt, MustBe(Line))) <==> !Lines(ToSet(OrEmpty(raw.sourceVersions)))
    ensures Wrong(raw, Fault(VersionsAt, MustBe(Array))) <==> raw.sourceVersions.NotAnArray?
  {
    ListedIff(raw.sourceVersions);
  }

  lemma VersionReports(raw: Raw)
    ensures Reports(Check(!raw.sourceVersions.NotAnArray?, VersionsAt, MustBe(Array)), raw, 87, 87)
    ensures Reports(Check(Lines(ToSet(OrEmpty(raw.sourceVersions))), VersionAt, MustBe(Line)), raw, 88, 88)
  {
    WrongVersionIff(raw);
    forall y {:trigger Rank(y)} | 87 <= Rank(y) <= 88 && y != Fault(VersionsAt, MustBe(Array)) && y != Fault(VersionAt, MustBe(Line))
      ensures !Wrong(raw, y) { LabelRanks(y); }
    CheckReports(raw, !raw.sourceVersions.NotAnArray?, Fault(VersionsAt, MustBe(Array)), 87);
    CheckReports(raw, Lines(ToSet(OrEmpty(raw.sourceVersions))), Fault(VersionAt, MustBe(Line)), 88);
  }

  lemma LabelTailReports(raw: Raw)
    ensures var a, v := Check(raw.approvalRequired.Some?, ApprovalAt, MustBe(Boolean)), Check(!raw.sourceVersions.NotAnArray?, VersionsAt, MustBe(Array));
            Reports(Or(a, Or(v, Check(Lines(ToSet(OrEmpty(raw.sourceVersions))), VersionAt, MustBe(Line)))), raw, 86, 88)
  {
    var a, v := Check(raw.approvalRequired.Some?, ApprovalAt, MustBe(Boolean)), Check(!raw.sourceVersions.NotAnArray?, VersionsAt, MustBe(Array));
    var x := Check(Lines(ToSet(OrEmpty(raw.sourceVersions))), VersionAt, MustBe(Line));
    ChoiceReports(raw);
    VersionReports(raw);
    Then(v, x, raw, 87, 87, 88);
    Then(a, Or(v, x), raw, 86, 86, 88);
  }

  lemma LabelHeadReports(raw: Raw)
    ensures Reports(Or(Check(raw.maxOccurrences >= 1, OccurrencesAt, MustBe(PositiveInteger)), Check(raw.externality.Some?, ExternalityAt, MustBe(AnExternality))), raw, 83, 84)
  {
    NumberReports(raw);
    Then(Check(raw.maxOccurrences >= 1, OccurrencesAt, MustBe(PositiveInteger)), Check(raw.externality.Some?, ExternalityAt, MustBe(AnExternality)), raw, 83, 83, 84);
  }

  lemma LabelsReport(raw: Raw)
    ensures Reports(LabelFault(raw), raw, 83, 88)
  {
    var o, e := Check(raw.maxOccurrences >= 1, OccurrencesAt, MustBe(PositiveInteger)), Check(raw.externality.Some?, ExternalityAt, MustBe(AnExternality));
    var r, a := Check(raw.reversibility.Some?, ReversibilityAt, MustBe(AReversibility)), Check(raw.approvalRequired.Some?, ApprovalAt, MustBe(Boolean));
    var v, x := Check(!raw.sourceVersions.NotAnArray?, VersionsAt, MustBe(Array)), Check(Lines(ToSet(OrEmpty(raw.sourceVersions))), VersionAt, MustBe(Line));
    var rest := Or(a, Or(v, x));
    LabelHeadReports(raw);
    ChoiceReports(raw);
    LabelTailReports(raw);
    Then(r, rest, raw, 85, 85, 88);
    Then(Or(o, e), Or(r, rest), raw, 83, 84, 88);
    assert LabelFault(raw) == Or(Or(o, e), Or(r, rest));
  }

  // ---------------------------------------------------------------- what is reported

  lemma SecondHalf(raw: Raw)
    ensures Reports(Or(BoundFault(raw), Or(BudgetFaults(raw), Or(WindowFault(raw.validFrom, raw.validUntil), LabelFault(raw)))), raw, 60, 88)
  {
    BoundsReport(raw);
    BudgetsReport(raw);
    WindowReports(raw);
    LabelsReport(raw);
    var w, l := WindowFault(raw.validFrom, raw.validUntil), LabelFault(raw);
    Then(w, l, raw, 80, 82, 88);
    Then(BudgetFaults(raw), Or(w, l), raw, 70, 79, 88);
    Then(BoundFault(raw), Or(BudgetFaults(raw), Or(w, l)), raw, 60, 69, 88);
  }

  lemma OneFirst(m: string, n: string)
    requires m == n || (Text.Less(m, n) && Text.Less(n, m))
    ensures m == n
  {
    if m != n {
      Text.LessTransitive(m, n, m);
      Text.LessIrreflexive(m);
    }
  }

  /** But for bounds, and lists that are no safe patterns, a rank tells the place. */
  lemma SamePlace(x: Fault, y: Fault)
    requires Rank(x) == Rank(y) && Rank(x) != 61 && Rank(x) != 50
    ensures x.at == y.at
  {
  }

  lemma OneBound(raw: Raw, m: string, n: string)
    requires FirstTroubled(raw.bounds, m) && FirstTroubled(raw.bounds, n)
    ensures m == n
  {
    OneFirst(m, n);
  }

  lemma OneOfTheBounds(raw: Raw, x: Fault, y: Fault)
    requires Wrong(raw, x) && Wrong(raw, y) && Rank(x) == Rank(y) == 61
    ensures x == y
  {
    BoundRanks(x);
    BoundRanks(y);
    var m :| FirstTroubled(raw.bounds, m) && (x.at == BoundAt(m) || (x.at == BoundNameAt && !Text.TrimmedLine(m)));
    var n :| FirstTroubled(raw.bounds, n) && (y.at == BoundAt(n) || (y.at == BoundNameAt && !Text.TrimmedLine(n)));
    OneBound(raw, m, n);
  }

  lemma OneValue(raw: Raw, x: Fault, y: Fault)
    requires Wrong(raw, x) && Wrong(raw, y) && Rank(x) == Rank(y) && x.at.FieldAt? && x.at == y.at
    ensures x == y
  {
    if x.complaint != MustBe(NonEmptyArray) && y.complaint != MustBe(NonEmptyArray) { OneFirst(x.complaint.value, y.complaint.value); }
  }

  lemma OneElsewhere(raw: Raw, x: Fault, y: Fault)
    requires Wrong(raw, x) && Wrong(raw, y) && Rank(x) == Rank(y) && x.at == y.at && !x.at.FieldAt? && Rank(x) != 61
    ensures x == y
  {
  }

  lemma OneOfThePaths(raw: Raw, x: Fault, y: Fault)
    requires Wrong(raw, x) && Wrong(raw, y) && Rank(x) == Rank(y) == 50
    ensures x == y
  {
    PathRanks(x);
    PathRanks(y);
  }

  /** Two faults of one rank that are both there are the same. */
  lemma OneOfARank(raw: Raw, x: Fault, y: Fault)
    requires Wrong(raw, x) && Wrong(raw, y) && Rank(x) == Rank(y)
    ensures x == y
  {
    if Rank(x) == 61 {
      OneOfTheBounds(raw, x, y);
    } else if Rank(x) == 50 {
      OneOfThePaths(raw, x, y);
    } else {
      SamePlace(x, y);
      if x.at.FieldAt? { OneValue(raw, x, y); } else { OneElsewhere(raw, x, y); }
    }
  }

  lemma FirstHalf(raw: Raw, rest: Option<Fault>)
    requires Reports(rest, raw, 50, 88)
    ensures Reports(Or(HeadFault(raw), Or(FieldFaults(raw.sets, SET_FIELDS), Or(EnumFaults(raw.sets), rest))), raw, 0, 88)
  {
    HeadReports(raw);
    AllFieldsReport(raw);
    EnumsReport(raw);
    Then(EnumFaults(raw.sets), rest, raw, 28, 49, 88);
    Then(FieldFaults(raw.sets, SET_FIELDS), Or(EnumFaults(raw.sets), rest), raw, 10, 27, 88);
    Then(HeadFault(raw), Or(FieldFaults(raw.sets, SET_FIELDS), Or(EnumFaults(raw.sets), rest)), raw, 0, 9, 88);
  }

  lemma FaultReports(raw: Raw)
    ensures Reports(FaultOf(raw), raw, 0, 88)
  {
    var rest := Or(BoundFault(raw), Or(BudgetFaults(raw), Or(WindowFault(raw.validFrom, raw.validUntil), LabelFault(raw))));
    PathsReport(raw);
    SecondHalf(raw);
    Then(PathFault(raw), rest, raw, 50, 59, 88);
    FirstHalf(raw, Or(PathFault(raw), rest));
  }

  /** Of everything that is wrong with a contract, what is looked at first is reported; and a contract is accepted exactly when nothing is wrong. */
  lemma ReportedIff(raw: Raw, x: Fault)
    ensures Normalize(raw) == Err(x) <==> Wrong(raw, x) && forall y {:trigger Wrong(raw, y)} :: Wrong(raw, y) ==> Rank(x) <= Rank(y)
    ensures Normalize(raw).Ok? <==> forall y {:trigger Wrong(raw, y)} :: !Wrong(raw, y)
  {
    FaultReports(raw);
    forall y {:trigger Rank(y)} ensures Rank(y) <= 88 { LabelRanks(y); }
    if Wrong(raw, x) && FaultOf(raw).Some? && Rank(x) == Rank(FaultOf(raw).value) { OneOfARank(raw, x, FaultOf(raw).value); }
  }
}

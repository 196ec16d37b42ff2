/**
 * Normalising a scope contract (`normalizeScopeContract` in
 * src/policy/scope-engine.mjs): what is refused, in which order and in which
 * words, and what comes out.
 */
module ScopeNormal {
  import opened Wrappers
  import opened ScopeContracts
  import opened TimestampChoice
  import Json
  import Paths
  import Sorting
  import Text
  import Timestamps

  // ---------------------------------------------------------------- contracts as they come in

  /** A field that may be left out. */
  datatype Listing = Absent | NotAnArray | Items(items: seq<string>)

  /** The bound of one parameter; none if an end is missing or no finite number. */
  datatype Range = NotAnObject | Range(unknown: seq<string>, bound: Option<Bound>)

  /**
   * Any value. Fields that nothing expects are listed in property order. Where a
   * value of another type is refused like a wrong one, it is written as a wrong
   * one: a string as "", a list of `sets` or a budget as a missing one, the
   * number of occurrences as 0.
   */
  datatype Raw = Raw(
    plain: bool, unknown: seq<string>, project: string, sets: map<SetField, seq<string>>, excludes: Listing,
    plainBounds: bool, bounds: map<string, Range>,
    plainBudgets: bool, unknownBudgets: seq<string>, budgets: map<BudgetField, real>,
    validFrom: string, validUntil: string, maxOccurrences: int,
    externality: Option<Externality>, reversibility: Option<Reversibility>, approvalRequired: Option<bool>, sourceVersions: Listing)

  function ToSet(s: seq<string>): set<string> {
    set x | x in s
  }

  /** `?? []` */
  function OrEmpty(l: Listing): seq<string> {
    if l.Items? then l.items else []
  }

  // ---------------------------------------------------------------- what is refused

  datatype Place =
    | ContractAt | ProjectAt | FieldAt(f: SetField) | ItemAt(f: SetField) | ExcludesAt | ExcludeAt
    | BoundsAt | BoundNameAt | BoundAt(name: string) | BudgetsAt | BudgetAt(b: BudgetField)
    | FromAt | UntilAt | WindowAt | OccurrencesAt | ExternalityAt | ReversibilityAt | ApprovalAt | VersionsAt | VersionAt

  datatype Wanted =
    | Object | Line | Array | NonEmptyArray | SafePattern | CanonicalTime | PositiveInteger
    | AnExternality | AReversibility | Boolean

  datatype Complaint =
    | MustBe(wanted: Wanted) | UnknownField(field: string) | Unsupported(value: string)
    | NeedsRange | IsInvalid | ImpossibleTime | MustBeOrdered

  /** The error that normalisation throws. */
  datatype Fault = Fault(at: Place, complaint: Complaint)

  function Check(ok: bool, at: Place, complaint: Complaint): Option<Fault> {
    if ok then None else Some(Fault(at, complaint))
  }

  function Or(a: Option<Fault>, b: Option<Fault>): Option<Fault> {
    if a.Some? then a else b
  }

  /** `requireExactFields` */
  function Exact(unknown: seq<string>, at: Place): Option<Fault> {
    if unknown == [] then None else Some(Fault(at, UnknownField(unknown[0])))
  }

  function HeadFault(raw: Raw): Option<Fault> {
    Or(Check(raw.plain, ContractAt, MustBe(Object)),
       Or(Exact(raw.unknown, ContractAt), Check(Text.TrimmedLine(raw.project), ProjectAt, MustBe(Line))))
  }

  function FieldFault(sets: map<SetField, seq<string>>, f: SetField): Option<Fault> {
    if f !in sets || sets[f] == [] then Some(Fault(FieldAt(f), MustBe(NonEmptyArray)))
    else Check(Lines(ToSet(sets[f])), ItemAt(f), MustBe(Line))
  }

  function FieldFaults(sets: map<SetField, seq<string>>, fields: seq<SetField>): Option<Fault> {
    if fields == [] then None else Or(FieldFault(sets, fields[0]), FieldFaults(sets, fields[1..]))
  }

  function Unlisted(sets: map<SetField, seq<string>>, f: SetField): set<string> {
    if f in sets then set x | x in sets[f] && x !in Allowed(f) else {}
  }

  /** `requireEnumSet`, on the sorted list. */
  function EnumFault(sets: map<SetField, seq<string>>, f: SetField): Option<Fault> {
    var bad := Unlisted(sets, f);
    if bad == {} then None else Some(Fault(FieldAt(f), Unsupported(Sorting.First(bad))))
  }

  function EnumFaults(sets: map<SetField, seq<string>>): Option<Fault> {
    Or(EnumFault(sets, Roles), Or(EnumFault(sets, MemoryKinds), EnumFault(sets, RetentionClasses)))
  }

  function PathFault(raw: Raw): Option<Fault> {
    Or(Check(IncludePaths in raw.sets && PatternsOk(ToSet(raw.sets[IncludePaths])), ItemAt(IncludePaths), MustBe(SafePattern)),
       Or(Check(!raw.excludes.NotAnArray?, ExcludesAt, MustBe(Array)),
          Or(Check(Lines(ToSet(OrEmpty(raw.excludes))), ExcludeAt, MustBe(Line)),
             Check(PatternsOk(ToSet(OrEmpty(raw.excludes))), ExcludeAt, MustBe(SafePattern)))))
  }

  predicate RangeIsOk(r: Range) {
    r.Range? && r.bound.Some? && r.bound.value.min <= r.bound.value.max
  }

  function RangeFault(name: string, r: Range): Option<Fault> {
    Or(Check(Text.TrimmedLine(name), BoundNameAt, MustBe(Line)),
       Or(Check(r.Range?, BoundAt(name), MustBe(Object)),
          Or(Exact(if r.Range? then r.unknown else [], BoundAt(name)), Check(RangeIsOk(r), BoundAt(name), NeedsRange))))
  }

  function FaultyBounds(bounds: map<string, Range>): set<string> {
    set n | n in bounds && RangeFault(n, bounds[n]).Some?
  }

  /** The names are gone through in sorted order. */
  function BoundFault(raw: Raw): Option<Fault> {
    if !raw.plainBounds then Some(Fault(BoundsAt, MustBe(Object)))
    else
      var bad := FaultyBounds(raw.bounds);
      if bad == {} then None else RangeFault(Sorting.First(bad), raw.bounds[Sorting.First(bad)])
  }

  function BudgetFault(budgets: map<BudgetField, real>, f: BudgetField): Option<Fault> {
    Check(f in budgets && BudgetOk(f, budgets[f]), BudgetAt(f), IsInvalid)
  }

  function BudgetFaults(raw: Raw): Option<Fault> {
    Or(Check(raw.plainBudgets, BudgetsAt, MustBe(Object)),
       Or(Exact(raw.unknownBudgets, BudgetsAt),
          Or(BudgetFault(raw.budgets, CostUsd), Or(BudgetFault(raw.budgets, Tokens),
             Or(BudgetFault(raw.budgets, Seconds), BudgetFault(raw.budgets, Attempts))))))
  }

  function ParseFault(parsed: Result<int, Timestamps.TimestampError>, at: Place): Option<Fault> {
    match parsed
    case Ok(_) => None
    case Err(NotAString) => Some(Fault(at, MustBe(Line)))
    case Err(NotCanonical) => Some(Fault(at, MustBe(CanonicalTime)))
    case Err(Impossible) => Some(Fault(at, ImpossibleTime))
  }

  function TimeFault(s: string, at: Place): Option<Fault> {
    ParseFault(Timestamps.ParseIso(s), at)
  }

  predicate InOrder(from: string, until: string) {
    Valid(from) && Valid(until) && InstantOf(from) < InstantOf(until)
  }

  function WindowFault(from: string, until: string): Option<Fault> {
    Or(TimeFault(from, FromAt), Or(TimeFault(until, UntilAt), Check(InOrder(from, until), WindowAt, MustBeOrdered)))
  }

  function LabelFault(raw: Raw): Option<Fault> {
    Or(Check(raw.maxOccurrences >= 1, OccurrencesAt, MustBe(PositiveInteger)),
       Or(Check(raw.externality.Some?, ExternalityAt, MustBe(AnExternality)),
          Or(Check(raw.reversibility.Some?, ReversibilityAt, MustBe(AReversibility)),
             Or(Check(raw.approvalRequired.Some?, ApprovalAt, MustBe(Boolean)),
                Or(Check(!raw.sourceVersions.NotAnArray?, VersionsAt, MustBe(Array)),
                   Check(Lines(ToSet(OrEmpty(raw.sourceVersions))), VersionAt, MustBe(Line)))))))
  }

  /** The first fault, in the order of the checks. */
  function FaultOf(raw: Raw): Option<Fault> {
    Or(HeadFault(raw),
       Or(FieldFaults(raw.sets, SET_FIELDS),
          Or(EnumFaults(raw.sets),
             Or(PathFault(raw),
                Or(BoundFault(raw), Or(BudgetFaults(raw), Or(WindowFault(raw.validFrom, raw.validUntil), LabelFault(raw))))))))
  }

  // ---------------------------------------------------------------- what is accepted

  predicate AllRangesOk(bounds: map<string, Range>) {
    forall n {:trigger bounds[n]} :: n in bounds ==>
      Text.TrimmedLine(n) && RangeIsOk(bounds[n]) && bounds[n].unknown == []
  }

  predicate ListsOk(sets: map<SetField, seq<string>>) {
    sets.Keys == ALL_SETS && forall f {:trigger sets[f]} :: f in sets ==> ItemsOk(f, ToSet(sets[f]))
  }

  /** The conditions, in no order: nothing unknown, and every field as a sound contract has it. */
  predicate Acceptable(raw: Raw) {
    && raw.plain && raw.unknown == [] && Text.TrimmedLine(raw.project) && ListsOk(raw.sets)
    && !raw.excludes.NotAnArray? && PatternsOk(ToSet(OrEmpty(raw.excludes)))
    && raw.plainBounds && AllRangesOk(raw.bounds)
    && raw.plainBudgets && raw.unknownBudgets == [] && BudgetsOk(raw.budgets)
    && InOrder(raw.validFrom, raw.validUntil) && raw.maxOccurrences >= 1
    && raw.externality.Some? && raw.reversibility.Some? && raw.approvalRequired.Some?
    && !raw.sourceVersions.NotAnArray? && Lines(ToSet(OrEmpty(raw.sourceVersions)))
  }

  lemma {:induction false} FieldFaultsIff(sets: map<SetField, seq<string>>, fields: seq<SetField>)
    ensures FieldFaults(sets, fields).None? <==> forall f {:trigger FieldFault(sets, f)} :: f in fields ==> FieldFault(sets, f).None?
  {
    if fields != [] {
      FieldFaultsIff(sets, fields[1..]);
      assert fields == [fields[0]] + fields[1..];
    }
  }

  lemma PatternsAreLines(s: set<string>)
    requires PatternsOk(s)
    ensures Lines(s)
  {
    forall x | x in s ensures Text.TrimmedLine(x) { assert Paths.RepoPattern(x); }
  }

  predicate IncludesOk(sets: map<SetField, seq<string>>) {
    IncludePaths in sets && PatternsOk(ToSet(sets[IncludePaths]))
  }

  /** What the three passes over the lists find of one of them. */
  predicate ListPasses(sets: map<SetField, seq<string>>, f: SetField) {
    && FieldFault(sets, f).None? && (Enumerated(f) ==> EnumFault(sets, f).None?)
    && (f.IncludePaths? ==> IncludesOk(sets))
  }

  lemma ListPassing(sets: map<SetField, seq<string>>, f: SetField)
    requires f in sets && ItemsOk(f, ToSet(sets[f]))
    ensures ListPasses(sets, f)
  {
    var items := ToSet(sets[f]);
    forall x | x in items ensures Text.TrimmedLine(x) && (f.IncludePaths? ==> Paths.RepoPattern(x)) { assert Item(f, x); }
    if Enumerated(f) {
      forall x | x in sets[f] ensures x in Allowed(f) { assert x in items && Item(f, x); }
    }
  }

  lemma ListPassed(sets: map<SetField, seq<string>>, f: SetField)
    requires ListPasses(sets, f)
    ensures f in sets && ItemsOk(f, ToSet(sets[f]))
  {
    var items := ToSet(sets[f]);
    assert sets[f][0] in items;
    forall x | x in items ensures Item(f, x) {
      assert Enumerated(f) ==> x !in Unlisted(sets, f);
    }
  }

  lemma ListsOkIff(sets: map<SetField, seq<string>>)
    ensures ListsOk(sets) <==> FieldFaults(sets, SET_FIELDS).None? && EnumFaults(sets).None? && IncludesOk(sets)
  {
    FieldFaultsIff(sets, SET_FIELDS);
    if ListsOk(sets) {
      forall f {:trigger FieldFault(sets, f)} ensures ListPasses(sets, f) {
        EveryField(f);
        assert ItemsOk(f, ToSet(sets[f]));
        ListPassing(sets, f);
      }
      assert ListPasses(sets, Roles) && ListPasses(sets, MemoryKinds) && ListPasses(sets, RetentionClasses) && ListPasses(sets, IncludePaths);
    }
    if FieldFaults(sets, SET_FIELDS).None? && EnumFaults(sets).None? && IncludesOk(sets) {
      forall f ensures f in ALL_SETS && f in sets && ItemsOk(f, ToSet(sets[f])) {
        EveryField(f);
        assert FieldFault(sets, f).None?;
        ListPassed(sets, f);
      }
      assert sets.Keys == ALL_SETS;
    }
  }

  lemma PathsOkIff(raw: Raw)
    ensures PathFault(raw).None? <==> IncludesOk(raw.sets) && !raw.excludes.NotAnArray? && PatternsOk(ToSet(OrEmpty(raw.excludes)))
  {
    if PatternsOk(ToSet(OrEmpty(raw.excludes))) { PatternsAreLines(ToSet(OrEmpty(raw.excludes))); }
  }

  lemma BoundsOkIff(raw: Raw)
    ensures BoundFault(raw).None? <==> raw.plainBounds && AllRangesOk(raw.bounds)
  {
    forall n {:trigger raw.bounds[n]} | n in raw.bounds
      ensures n in FaultyBounds(raw.bounds) <==> !(Text.TrimmedLine(n) && RangeIsOk(raw.bounds[n]) && raw.bounds[n].unknown == [])
    {
    }
  }

  lemma BudgetsOkIff(raw: Raw)
    ensures BudgetFaults(raw).None? <==> raw.plainBudgets && raw.unknownBudgets == [] && BudgetsOk(raw.budgets)
  {
    forall f ensures f in ALL_BUDGETS { EveryBudget(f); }
    if BudgetFaults(raw).None? { assert raw.budgets.Keys == ALL_BUDGETS; }
  }

  /** The pass over the fields finds no fault exactly in what is acceptable. */
  lemma FaultIff(raw: Raw)
    ensures FaultOf(raw).None? <==> Acceptable(raw)
  {
    ListsOkIff(raw.sets);
    PathsOkIff(raw);
    BoundsOkIff(raw);
    BudgetsOkIff(raw);
  }

  // ---------------------------------------------------------------- what comes out

  /** A timestamp text with its instant, if it has one. */
  function Timestamp(s: string): Candidate {
    Candidate(s, if Valid(s) then InstantOf(s) else 0)
  }

  function BoundOf(r: Range): Bound {
    if r.Range? && r.bound.Some? then r.bound.value else Bound(0.0, 0.0)
  }

  /** The assignments of the loop: that to `__proto__` makes no property. */
  function BoundsOf(bounds: map<string, Range>): map<string, Bound> {
    map n | n in bounds && n != Json.PROTO :: BoundOf(bounds[n])
  }

  function SetsOf(lists: map<SetField, seq<string>>): map<SetField, set<string>> {
    map f | f in lists :: ToSet(lists[f])
  }

  /** What normalisation makes of an acceptable contract. Assigning `__proto__` replaces the prototype of its bounds. */
  function Clean(raw: Raw): Contract {
    Contract(raw.project, SetsOf(raw.sets), ToSet(OrEmpty(raw.excludes)),
             BoundsOf(raw.bounds), Json.PROTO !in raw.bounds,
             raw.budgets, Timestamp(raw.validFrom), Timestamp(raw.validUntil), raw.maxOccurrences,
             if raw.externality == Some(Internal) then Internal else External,
             if raw.reversibility.Some? then raw.reversibility.value else Irreversible,
             raw.approvalRequired != Some(false), ToSet(OrEmpty(raw.sourceVersions)))
  }

  /** `normalizeScopeContract` */
  function Normalize(raw: Raw): Result<Contract, Fault> {
    match FaultOf(raw)
    case Some(fault) => Err(fault)
    case None => Ok(Clean(raw))
  }

  lemma NormalizedIsSound(raw: Raw)
    requires Acceptable(raw)
    ensures Sound(Clean(raw)) && OnTime(Clean(raw))
  {
    var c := Clean(raw);
    forall f {:trigger c.sets[f]} | f in c.sets ensures ItemsOk(f, c.sets[f]) { assert c.sets[f] == ToSet(raw.sets[f]); }
    forall n {:trigger c.bounds[n]} | n in c.bounds ensures BoundOk(n, c.bounds[n]) { assert c.bounds[n] == BoundOf(raw.bounds[n]); }
  }

  // ---------------------------------------------------------------- normalising again

  /** A contract handed in again, with its lists in any order; absent lists may stay absent. */
  predicate Spells(raw: Raw, c: Contract) {
    && raw.plain && raw.unknown == [] && raw.project == c.project && raw.sets.Keys == c.sets.Keys
    && (forall f {:trigger raw.sets[f]} :: f in raw.sets ==> ToSet(raw.sets[f]) == c.sets[f])
    && !raw.excludes.NotAnArray? && ToSet(OrEmpty(raw.excludes)) == c.excludes
    && raw.plainBounds == c.plainBounds && SpellsBounds(raw.bounds, c.bounds)
    && raw.plainBudgets && raw.unknownBudgets == [] && raw.budgets == c.budgets
    && raw.validFrom == c.validFrom.value && raw.validUntil == c.validUntil.value && raw.maxOccurrences == c.maxOccurrences
    && raw.externality == Some(c.externality) && raw.reversibility == Some(c.reversibility) && raw.approvalRequired == Some(c.approvalRequired)
    && !raw.sourceVersions.NotAnArray? && ToSet(OrEmpty(raw.sourceVersions)) == c.sourceVersions
  }

  predicate SpellsBounds(raw: map<string, Range>, bounds: map<string, Bound>) {
    raw.Keys == bounds.Keys && forall n {:trigger raw[n]} :: n in raw ==> raw[n] == Range([], Some(bounds[n]))
  }

  /** The normalised contract itself, handed in again. */
  function Listed(c: Contract): Raw {
    Raw(true, [], c.project, map f | f in c.sets :: Sorting.Sort(c.sets[f]), Items(Sorting.Sort(c.excludes)),
        c.plainBounds, map n | n in c.bounds :: Range([], Some(c.bounds[n])), true, [], c.budgets,
        c.validFrom.value, c.validUntil.value, c.maxOccurrences,
        Some(c.externality), Some(c.reversibility), Some(c.approvalRequired), Items(Sorting.Sort(c.sourceVersions)))
  }

  lemma ListedSpells(c: Contract)
    ensures Spells(Listed(c), c)
  {
    forall s: set<string> ensures ToSet(Sorting.Sort(s)) == s { }
  }

  lemma SameSets(raw: map<SetField, seq<string>>, sets: map<SetField, set<string>>)
    requires raw.Keys == sets.Keys && forall f {:trigger raw[f]} :: f in raw ==> ToSet(raw[f]) == sets[f]
    ensures SetsOf(raw) == sets
  {
  }

  lemma SpelledSets(raw: Raw, c: Contract)
    requires Spells(raw, c) && SetsOk(c.sets)
    ensures ListsOk(raw.sets)
  {
    forall f {:trigger raw.sets[f]} | f in raw.sets ensures ItemsOk(f, ToSet(raw.sets[f])) { assert ItemsOk(f, c.sets[f]); }
  }

  lemma SpelledBoundsKept(raw: map<string, Range>, bounds: map<string, Bound>)
    requires SpellsBounds(raw, bounds) && Json.PROTO !in bounds
    ensures BoundsOf(raw) == bounds
  {
  }

  lemma TimestampOf(t: Candidate)
    requires Timed(t)
    ensures Timestamp(t.value) == t
  {
  }

  lemma SpelledBounds(raw: map<string, Range>, bounds: map<string, Bound>)
    requires SpellsBounds(raw, bounds) && BoundsOk(bounds) && Json.PROTO !in bounds
    ensures AllRangesOk(raw) && BoundsOf(raw) == bounds
  {
    forall n {:trigger raw[n]} | n in raw ensures Text.TrimmedLine(n) && RangeIsOk(raw[n]) && raw[n].unknown == [] {
      assert BoundOk(n, bounds[n]);
    }
  }

  lemma SpelledTimes(raw: Raw, c: Contract)
    requires raw.validFrom == c.validFrom.value && raw.validUntil == c.validUntil.value
    requires OnTime(c) && c.validFrom.instant < c.validUntil.instant
    ensures InOrder(raw.validFrom, raw.validUntil)
    ensures Timestamp(raw.validFrom) == c.validFrom && Timestamp(raw.validUntil) == c.validUntil
  {
  }

  lemma CleanIs(raw: Raw, from: Candidate, until: Candidate)
    requires from == Timestamp(raw.validFrom) && until == Timestamp(raw.validUntil)
    ensures Clean(raw) ==
            Contract(raw.project, SetsOf(raw.sets), ToSet(OrEmpty(raw.excludes)),
                     BoundsOf(raw.bounds), Json.PROTO !in raw.bounds,
                     raw.budgets, from, until, raw.maxOccurrences,
                     if raw.externality == Some(Internal) then Internal else External,
                     if raw.reversibility.Some? then raw.reversibility.value else Irreversible,
                     raw.approvalRequired != Some(false), ToSet(OrEmpty(raw.sourceVersions)))
  {
  }

  lemma SpelledFields(raw: Raw, c: Contract, from: Candidate, until: Candidate)
    requires Spells(raw, c) && c.plainBounds
    requires BoundsOf(raw.bounds) == c.bounds && Json.PROTO !in raw.bounds && from == c.validFrom && until == c.validUntil
    ensures Contract(raw.project, SetsOf(raw.sets), ToSet(OrEmpty(raw.excludes)),
                     BoundsOf(raw.bounds), Json.PROTO !in raw.bounds,
                     raw.budgets, from, until, raw.maxOccurrences,
                     if raw.externality == Some(Internal) then Internal else External,
                     if raw.reversibility.Some? then raw.reversibility.value else Irreversible,
                     raw.approvalRequired != Some(false), ToSet(OrEmpty(raw.sourceVersions))) == c
  {
    SameSets(raw.sets, c.sets);
    assert (if raw.externality == Some(Internal) then Internal else External) == c.externality;
    assert (if raw.reversibility.Some? then raw.reversibility.value else Irreversible) == c.reversibility;
    assert (raw.approvalRequired != Some(false)) == c.approvalRequired;
  }

  lemma SpelledIsClean(raw: Raw, c: Contract, from: Candidate, until: Candidate)
    requires Spells(raw, c) && c.plainBounds
    requires BoundsOf(raw.bounds) == c.bounds && Json.PROTO !in raw.bounds
    requires from == Timestamp(raw.validFrom) == c.validFrom && until == Timestamp(raw.validUntil) == c.validUntil
    ensures Clean(raw) == c
  {
    CleanIs(raw, from, until);
    SpelledFields(raw, c, from, until);
  }

  /** All that can be wrong then is the prototype of the bounds. */
  lemma SecondFault(raw: Raw, c: Contract)
    requires Spells(raw, c) && Sound(c) && OnTime(c) && !c.plainBounds
    ensures FaultOf(raw) == Some(Fault(BoundsAt, MustBe(Object)))
  {
    SpelledSets(raw, c);
    ListsOkIff(raw.sets);
    PathsOkIff(raw);
  }

  /**
   * A sound contract is accepted again, in whatever order its lists are given,
   * exactly when its bounds are still a plain object; then it comes out unchanged.
   */
  lemma NormalizeAgainIff(raw: Raw, c: Contract)
    requires Spells(raw, c) && Sound(c) && OnTime(c)
    ensures Normalize(raw) == if c.plainBounds then Ok(c) else Err(Fault(BoundsAt, MustBe(Object)))
  {
    if c.plainBounds {
      FaultIff(raw);
      SpelledSets(raw, c);
      SpelledBounds(raw.bounds, c.bounds);
      SpelledTimes(raw, c);
      SpelledIsClean(raw, c, c.validFrom, c.validUntil);
    } else {
      SecondFault(raw, c);
    }
  }

  /** What is accepted is accepted a second time exactly when no bound is named `__proto__`. */
  lemma AcceptedAgainIff(raw: Raw)
    requires Normalize(raw).Ok?
    ensures var c := Normalize(raw).value;
            Normalize(Listed(c)) == if Json.PROTO in raw.bounds then Err(Fault(BoundsAt, MustBe(Object))) else Ok(c)
  {
    FaultIff(raw);
    NormalizedIsSound(raw);
    ListedSpells(Clean(raw));
    NormalizeAgainIff(Listed(Clean(raw)), Clean(raw));
  }

  /** Normalisation keeps every bound exactly when none is named `__proto__`. */
  lemma BoundsKeptIff(raw: Raw)
    requires Normalize(raw).Ok?
    ensures (forall n :: n in raw.bounds ==> n in Normalize(raw).value.bounds) <==> Json.PROTO !in raw.bounds
    ensures forall n :: n in Normalize(raw).value.bounds ==>
              n in raw.bounds && raw.bounds[n].Range? && raw.bounds[n].bound == Some(Normalize(raw).value.bounds[n])
  {
    FaultIff(raw);
    forall n | n in BoundsOf(raw.bounds) ensures n in raw.bounds && raw.bounds[n].Range? && raw.bounds[n].bound == Some(BoundsOf(raw.bounds)[n]) {
      assert RangeIsOk(raw.bounds[n]);
    }
  }

  predicate LosesBound(raw: Raw) {
    Normalize(raw).Ok? && exists n :: n in raw.bounds && n !in Normalize(raw).value.bounds
  }

  lemma LosesIff(raw: Raw)
    ensures LosesBound(raw) <==> Acceptable(raw) && Json.PROTO in raw.bounds
  {
    FaultIff(raw);
    if Acceptable(raw) { BoundsKeptIff(raw); }
  }

  lemma OtherBounds(raw: Raw, bounds: map<string, Range>)
    requires Acceptable(raw) && AllRangesOk(bounds)
    ensures Acceptable(raw.(bounds := bounds))
  {
  }

  lemma OneMoreRange(bounds: map<string, Range>, name: string, b: Bound)
    requires AllRangesOk(bounds) && Text.TrimmedLine(name) && b.min <= b.max
    ensures AllRangesOk(bounds[name := Range([], Some(b))])
  {
    var more := bounds[name := Range([], Some(b))];
    forall n {:trigger more[n]} | n in more ensures Text.TrimmedLine(n) && RangeIsOk(more[n]) && more[n].unknown == [] {
      if n != name { assert more[n] == bounds[n]; }
    }
  }

  lemma ProtoIsALine()
    ensures Text.TrimmedLine(Json.PROTO)
  {
  }

  /** Every acceptable contract becomes one that loses a bound, when one named `__proto__` is added. */
  lemma AnyCanLoseABound(raw: Raw, b: Bound)
    requires Acceptable(raw) && b.min <= b.max
    ensures LosesBound(raw.(bounds := raw.bounds[Json.PROTO := Range([], Some(b))]))
  {
    var bounds := raw.bounds[Json.PROTO := Range([], Some(b))];
    ProtoIsALine();
    OneMoreRange(raw.bounds, Json.PROTO, b);
    OtherBounds(raw, bounds);
    LosesIff(raw.(bounds := bounds));
  }
}

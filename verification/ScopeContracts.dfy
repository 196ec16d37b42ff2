/** Scope contracts (src/policy/scope-engine.mjs): what one is, and which of two is narrower. */
module ScopeContracts {
  import opened Wrappers
  import Json
  import Text
  import Paths
  import opened TimestampChoice

  datatype SetField =
    | IncludePaths | Roles | Tools | MemoryKinds | Audiences | Capabilities | Targets | DataClasses | RetentionClasses

  const SET_FIELDS := [IncludePaths, Roles, Tools, MemoryKinds, Audiences, Capabilities, Targets, DataClasses, RetentionClasses]

  function FieldName(f: SetField): string {
    match f
    case IncludePaths => "include_paths"
    case Roles => "roles"
    case Tools => "tools"
    case MemoryKinds => "memory_kinds"
    case Audiences => "audiences"
    case Capabilities => "capabilities"
    case Targets => "targets"
    case DataClasses => "data_classes"
    case RetentionClasses => "retention_classes"
  }

  datatype BudgetField = CostUsd | Tokens | Seconds | Attempts

  const BUDGET_FIELDS := [CostUsd, Tokens, Seconds, Attempts]

  function BudgetName(f: BudgetField): string {
    match f
    case CostUsd => "cost_usd"
    case Tokens => "tokens"
    case Seconds => "seconds"
    case Attempts => "attempts"
  }

  datatype Bound = Bound(min: real, max: real)

  datatype Externality = Internal | External

  datatype Reversibility = Reversible | PartiallyReversible | Irreversible

  /**
   * A normalised contract. Its lists are sorted and free of duplicates, so they
   * are sets here, and its timestamps carry the instants they stand for. The
   * bounds are an object, which need not be a plain one.
   */
  datatype Contract = Contract(
    project: string, sets: map<SetField, set<string>>, excludes: set<string>, bounds: map<string, Bound>, plainBounds: bool,
    budgets: map<BudgetField, real>, validFrom: Candidate, validUntil: Candidate, maxOccurrences: int,
    externality: Externality, reversibility: Reversibility, approvalRequired: bool, sourceVersions: set<string>)

  predicate Enumerated(f: SetField) {
    f.Roles? || f.MemoryKinds? || f.RetentionClasses?
  }

  function Allowed(f: SetField): set<string> {
    match f
    case Roles => {"planner", "builder", "reviewer", "security-reviewer", "supervisor", "human"}
    case MemoryKinds => {"working", "episodic", "semantic", "procedural", "evidence-ref"}
    case RetentionClasses => {"session", "project", "permanent"}
    case _ => {}
  }

  /** What an item of a set field must be. */
  predicate Item(f: SetField, s: string) {
    Text.TrimmedLine(s) && (Enumerated(f) ==> s in Allowed(f)) && (f.IncludePaths? ==> Paths.RepoPattern(s))
  }

  predicate ItemsOk(f: SetField, s: set<string>) {
    s != {} && forall x :: x in s ==> Item(f, x)
  }

  predicate Lines(s: set<string>) {
    forall x :: x in s ==> Text.TrimmedLine(x)
  }

  predicate PatternsOk(s: set<string>) {
    forall x :: x in s ==> Paths.RepoPattern(x)
  }

  predicate BoundOk(name: string, b: Bound) {
    Text.TrimmedLine(name) && b.min <= b.max
  }

  predicate BudgetOk(f: BudgetField, v: real) {
    if f.CostUsd? then v >= 0.0 else v == v.Floor as real && v >= (if f.Attempts? then 1.0 else 0.0)
  }

  const ALL_SETS := {IncludePaths, Roles, Tools, MemoryKinds, Audiences, Capabilities, Targets, DataClasses, RetentionClasses}

  const ALL_BUDGETS := {CostUsd, Tokens, Seconds, Attempts}

  lemma EveryField(f: SetField)
    ensures f in ALL_SETS && f in SET_FIELDS
  {
    match f
    case IncludePaths => assert SET_FIELDS[0] == f;
    case Roles => assert SET_FIELDS[1] == f;
    case Tools => assert SET_FIELDS[2] == f;
    case MemoryKinds => assert SET_FIELDS[3] == f;
    case Audiences => assert SET_FIELDS[4] == f;
    case Capabilities => assert SET_FIELDS[5] == f;
    case Targets => assert SET_FIELDS[6] == f;
    case DataClasses => assert SET_FIELDS[7] == f;
    case RetentionClasses => assert SET_FIELDS[8] == f;
  }

  lemma EveryBudget(f: BudgetField)
    ensures f in ALL_BUDGETS && f in BUDGET_FIELDS
  {
    match f
    case CostUsd => assert BUDGET_FIELDS[0] == f;
    case Tokens => assert BUDGET_FIELDS[1] == f;
    case Seconds => assert BUDGET_FIELDS[2] == f;
    case Attempts => assert BUDGET_FIELDS[3] == f;
  }

  predicate SetsOk(sets: map<SetField, set<string>>) {
    sets.Keys == ALL_SETS && forall f {:trigger sets[f]} :: f in sets ==> ItemsOk(f, sets[f])
  }

  predicate BoundsOk(bounds: map<string, Bound>) {
    forall n {:trigger bounds[n]} :: n in bounds ==> BoundOk(n, bounds[n])
  }

  predicate BudgetsOk(budgets: map<BudgetField, real>) {
    budgets.Keys == ALL_BUDGETS && forall f {:trigger budgets[f]} :: f in budgets ==> BudgetOk(f, budgets[f])
  }

  predicate Sound(c: Contract) {
    && Text.TrimmedLine(c.project) && SetsOk(c.sets) && PatternsOk(c.excludes)
    && BoundsOk(c.bounds) && Json.PROTO !in c.bounds
    && BudgetsOk(c.budgets) && c.validFrom.instant < c.validUntil.instant && c.maxOccurrences >= 1 && Lines(c.sourceVersions)
  }

  /** The instants of a contract are those of its texts. */
  predicate OnTime(c: Contract) {
    Timed(c.validFrom) && Timed(c.validUntil)
  }

  // ---------------------------------------------------------------- the order

  predicate Within(a: Bound, b: Bound) {
    b.min <= a.min && a.max <= b.max
  }

  ghost predicate SetsBelow(a: map<SetField, set<string>>, b: map<SetField, set<string>>) {
    forall f {:trigger a[f]} {:trigger b[f]} :: f in a && f in b ==> a[f] <= b[f]
  }

  ghost predicate BoundsBelow(a: map<string, Bound>, b: map<string, Bound>) {
    a.Keys == b.Keys && forall n {:trigger a[n]} {:trigger b[n]} :: n in a && n in b ==> Within(a[n], b[n])
  }

  ghost predicate BudgetsBelow(a: map<BudgetField, real>, b: map<BudgetField, real>) {
    forall f {:trigger a[f]} {:trigger b[f]} :: f in a && f in b ==> a[f] <= b[f]
  }

  /** `a` permits no more than `b` on any restrictive dimension. */
  ghost predicate Below(a: Contract, b: Contract) {
    && a.project == b.project && SetsBelow(a.sets, b.sets) && b.excludes <= a.excludes
    && BoundsBelow(a.bounds, b.bounds) && BudgetsBelow(a.budgets, b.budgets)
    && b.validFrom.instant <= a.validFrom.instant && a.validUntil.instant <= b.validUntil.instant && a.maxOccurrences <= b.maxOccurrences
  }
}

/**
 * The canonical text that a scope contract is hashed in (`scopeDigest` in
 * src/policy/scope-engine.mjs): two contracts have the same text exactly when
 * they are the same contract.
 */
module ScopeText {
  import opened Wrappers
  import opened Json
  import opened Hashing
  import opened ScopeContracts
  import opened TimestampChoice
  import JsonMeaning
  import ScopeMeet
  import ScopeRequests
  import Sorting
  import Text

  // ---------------------------------------------------------------- objects with named fields

  function Fields<K>(ks: seq<K>, name: K -> string, val: K -> Value): seq<Field> {
    if ks == [] then [] else [Field(name(ks[0]), val(ks[0]))] + Fields(ks[1..], name, val)
  }

  ghost predicate Distinct<K>(ks: seq<K>, name: K -> string) {
    forall i, j :: 0 <= i < j < |ks| ==> name(ks[i]) != name(ks[j])
  }

  ghost predicate AllSet<K(!new)>(ks: seq<K>, name: K -> string, val: K -> Value) {
    forall k {:trigger k in ks} :: k in ks ==> name(k) != PROTO && Wf(val(k)) && !val(k).Undefined?
  }

  lemma {:induction false} FieldKeys<K(!new)>(ks: seq<K>, name: K -> string, val: K -> Value)
    ensures forall s {:trigger s in Keys(Fields(ks, name, val))} :: s in Keys(Fields(ks, name, val)) <==> exists i :: 0 <= i < |ks| && name(ks[i]) == s
  {
    if ks != [] {
      FieldKeys(ks[1..], name, val);
      forall s {:trigger s in Keys(Fields(ks, name, val))}
        ensures s in Keys(Fields(ks, name, val)) <==> exists i :: 0 <= i < |ks| && name(ks[i]) == s
      {
        assert Keys(Fields(ks, name, val)) == {name(ks[0])} + Keys(Fields(ks[1..], name, val));
        if i :| 0 <= i < |ks| && name(ks[i]) == s {
          if i > 0 { assert name(ks[1..][i - 1]) == s; }
        }
      }
    }
  }

  lemma {:induction false} FieldsWf<K(!new)>(ks: seq<K>, name: K -> string, val: K -> Value)
    requires Distinct(ks, name) && AllSet(ks, name, val)
    ensures WfFields(Fields(ks, name, val))
  {
    if ks != [] {
      assert forall k :: k in ks[1..] ==> k in ks;
      FieldsWf(ks[1..], name, val);
      FieldKeys(ks[1..], name, val);
      assert ks[0] in ks;
    }
  }

  /** What an object shows: each name with what its value shows. */
  lemma {:induction false} FieldsShown<K(!new)>(ks: seq<K>, name: K -> string, val: K -> Value, i: nat)
    requires Distinct(ks, name) && AllSet(ks, name, val) && i < |ks|
    ensures name(ks[i]) in JsonMeaning.ShownFields(Fields(ks, name, val))
    ensures JsonMeaning.ShownFields(Fields(ks, name, val))[name(ks[i])] == JsonMeaning.Shown(val(ks[i]))
  {
    assert ks[0] in ks;
    if i > 0 {
      assert forall k :: k in ks[1..] ==> k in ks;
      FieldsShown(ks[1..], name, val, i - 1);
      assert name(ks[0]) != name(ks[i]);
    }
  }

  lemma SameFields<K(!new)>(ks: seq<K>, name: K -> string, v: K -> Value, w: K -> Value, k: K)
    requires Distinct(ks, name) && AllSet(ks, name, v) && AllSet(ks, name, w) && k in ks
    requires JsonMeaning.Shown(Obj(Fields(ks, name, v))) == JsonMeaning.Shown(Obj(Fields(ks, name, w)))
    ensures JsonMeaning.Shown(v(k)) == JsonMeaning.Shown(w(k))
  {
    var i :| 0 <= i < |ks| && ks[i] == k;
    FieldsShown(ks, name, v, i);
    FieldsShown(ks, name, w, i);
  }

  // ---------------------------------------------------------------- lists of strings

  function Texts(xs: seq<string>): seq<Value> {
    if xs == [] then [] else [Str(xs[0])] + Texts(xs[1..])
  }

  /** A set of strings is written as its sorted list. */
  function List(s: set<string>): Value {
    Arr(Texts(Sorting.Sort(s)))
  }

  lemma {:induction false} TextsWf(xs: seq<string>)
    ensures WfElems(Texts(xs))
  {
    if xs != [] { TextsWf(xs[1..]); }
  }

  lemma {:induction false} TextsTell(xs: seq<string>, ys: seq<string>)
    requires JsonMeaning.ShownElems(Texts(xs)) == JsonMeaning.ShownElems(Texts(ys))
    ensures xs == ys
  {
    if xs != [] && ys != [] {
      var a, b := JsonMeaning.ShownElems(Texts(xs)), JsonMeaning.ShownElems(Texts(ys));
      assert a[0] == b[0] && a[1..] == JsonMeaning.ShownElems(Texts(xs[1..])) && b[1..] == JsonMeaning.ShownElems(Texts(ys[1..]));
      TextsTell(xs[1..], ys[1..]);
      assert xs == [xs[0]] + xs[1..] && ys == [ys[0]] + ys[1..];
    }
  }

  lemma ListTells(s: set<string>, t: set<string>)
    ensures Wf(List(s))
    ensures JsonMeaning.Shown(List(s)) == JsonMeaning.Shown(List(t)) ==> s == t
  {
    TextsWf(Sorting.Sort(s));
    if JsonMeaning.Shown(List(s)) == JsonMeaning.Shown(List(t)) {
      TextsTell(Sorting.Sort(s), Sorting.Sort(t));
      forall x ensures x in s <==> x in t { assert x in Sorting.Sort(s) <==> x in Sorting.Sort(t); }
    }
  }

  // ---------------------------------------------------------------- numbers

  /** What the platform does to the numbers it is given: it prints each as a numeral, and no two of them alike. */
  ghost predicate Printer(show: real -> string, nums: set<real>) {
    && (forall x :: x in nums ==> Numeral(show(x)))
    && forall x, y :: x in nums && y in nums && show(x) == show(y) ==> x == y
  }

  lemma NumeralOf(show: real -> string, nums: set<real>, x: real)
    requires Printer(show, nums) && x in nums
    ensures Numeral(show(x)) && Wf(Num(show(x)))
  {
  }

  function Strokes(n: nat): string {
    if n == 0 then "1" else Strokes(n - 1) + "1"
  }

  lemma {:induction false} StrokesAreNumerals(n: nat)
    ensures Numeral(Strokes(n)) && |Strokes(n)| == n + 1
  {
    if n > 0 { StrokesAreNumerals(n - 1); }
  }

  /** There is such a printer for any numbers, with numerals of length at most their count. */
  lemma {:induction false} SomePrinter(nums: set<real>)
    ensures exists show: real -> string :: Printer(show, nums) && forall x :: x in nums ==> |show(x)| <= |nums|
    decreases |nums|
  {
    if y :| y in nums {
      var rest := nums - {y};
      SomePrinter(rest);
      var before: real -> string :| Printer(before, rest) && forall x :: x in rest ==> |before(x)| <= |rest|;
      StrokesAreNumerals(|rest|);
      var show := (x: real) => if x == y then Strokes(|rest|) else before(x);
      assert forall x :: x in nums ==> x == y || x in rest;
      assert Printer(show, nums);
    } else {
      var show := (x: real) => "0";
      assert Printer(show, nums);
    }
  }

  /** The numbers of a contract. */
  function NumbersOf(c: Option<Contract>): set<real> {
    if c.None? then {} else BoundNumbers(c.value.bounds) + c.value.budgets.Values + {c.value.maxOccurrences as real}
  }

  function EndsOf(b: Bound): set<real> {
    {b.min, b.max}
  }

  function BoundNumbers(bounds: map<string, Bound>): set<real> {
    set n, x | n in bounds && x in EndsOf(bounds[n]) :: x
  }

  lemma EndsAreNumbers(bounds: map<string, Bound>, n: string)
    requires n in bounds
    ensures EndsOf(bounds[n]) <= BoundNumbers(bounds)
  {
  }

  datatype RangeEnd = Min | Max

  function EndName(e: RangeEnd): string {
    match e case Min => "min" case Max => "max"
  }

  function EndOf(b: Bound, show: real -> string): RangeEnd -> Value {
    (e: RangeEnd) => match e case Min => Num(show(b.min)) case Max => Num(show(b.max))
  }

  const ENDS := [Min, Max]

  function BoundValue(b: Bound, show: real -> string): Value {
    Obj(Fields(ENDS, EndName, EndOf(b, show)))
  }

  lemma EndNames()
    ensures Distinct(ENDS, EndName) && EndName(Min) != PROTO && EndName(Max) != PROTO
  {
    assert EndName(Min)[1] != EndName(Max)[1] && EndName(Min)[1] == 'i' && EndName(Max)[1] == 'a';
    assert PROTO[1] == '_';
  }

  lemma BoundTells(a: Bound, b: Bound, show: real -> string, nums: set<real>)
    requires Printer(show, nums) && EndsOf(a) <= nums && EndsOf(b) <= nums
    ensures Wf(BoundValue(a, show))
    ensures JsonMeaning.Shown(BoundValue(a, show)) == JsonMeaning.Shown(BoundValue(b, show)) ==> a == b
  {
    EndNames();
    NumeralOf(show, nums, a.min);
    NumeralOf(show, nums, a.max);
    NumeralOf(show, nums, b.min);
    NumeralOf(show, nums, b.max);
    assert AllSet(ENDS, EndName, EndOf(a, show)) && AllSet(ENDS, EndName, EndOf(b, show));
    FieldsWf(ENDS, EndName, EndOf(a, show));
    if JsonMeaning.Shown(BoundValue(a, show)) == JsonMeaning.Shown(BoundValue(b, show)) {
      assert ENDS[0] in ENDS && ENDS[1] in ENDS;
      SameFields(ENDS, EndName, EndOf(a, show), EndOf(b, show), Min);
      SameFields(ENDS, EndName, EndOf(a, show), EndOf(b, show), Max);
    }
  }

  // ---------------------------------------------------------------- parameter bounds

  function Itself(s: string): string { s }

  function BoundAtName(bounds: map<string, Bound>, show: real -> string): string -> Value {
    (n: string) => if n in bounds then BoundValue(bounds[n], show) else Null
  }

  function BoundFields(bounds: map<string, Bound>, show: real -> string): seq<Field> {
    Fields(Sorting.Sort(bounds.Keys), Itself, BoundAtName(bounds, show))
  }

  lemma BoundFieldsSet(bounds: map<string, Bound>, show: real -> string, nums: set<real>)
    requires Printer(show, nums) && BoundNumbers(bounds) <= nums && PROTO !in bounds
    ensures Distinct(Sorting.Sort(bounds.Keys), Itself)
    ensures AllSet(Sorting.Sort(bounds.Keys), Itself, BoundAtName(bounds, show))
    ensures Wf(Obj(BoundFields(bounds, show)))
  {
    var names := Sorting.Sort(bounds.Keys);
    Sorting.SortAscends(bounds.Keys);
    forall i, j | 0 <= i < j < |names| ensures Itself(names[i]) != Itself(names[j]) { Text.LessIrreflexive(names[i]); }
    forall n {:trigger n in names} | n in names
      ensures Itself(n) != PROTO && Wf(BoundAtName(bounds, show)(n)) && !BoundAtName(bounds, show)(n).Undefined?
    {
      EndsAreNumbers(bounds, n);
      BoundTells(bounds[n], bounds[n], show, nums);
    }
    FieldsWf(names, Itself, BoundAtName(bounds, show));
  }

  lemma BoundIsShown(bounds: map<string, Bound>, show: real -> string, nums: set<real>, n: string)
    requires Printer(show, nums) && BoundNumbers(bounds) <= nums && PROTO !in bounds && n in bounds
    ensures var shown := JsonMeaning.ShownFields(BoundFields(bounds, show));
            n in shown && shown[n] == JsonMeaning.Shown(BoundValue(bounds[n], show))
  {
    BoundFieldsSet(bounds, show, nums);
    var names := Sorting.Sort(bounds.Keys);
    assert n in names;
    var i :| 0 <= i < |names| && names[i] == n;
    FieldsShown(names, Itself, BoundAtName(bounds, show), i);
  }

  lemma OnlyBoundsShown(bounds: map<string, Bound>, show: real -> string, n: string)
    requires n !in bounds
    ensures n !in JsonMeaning.ShownFields(BoundFields(bounds, show))
  {
    var names := Sorting.Sort(bounds.Keys);
    FieldKeys(names, Itself, BoundAtName(bounds, show));
    assert forall i :: 0 <= i < |names| ==> names[i] in names;
  }

  lemma BoundShown(bounds: map<string, Bound>, show: real -> string, nums: set<real>, n: string)
    requires Printer(show, nums) && BoundNumbers(bounds) <= nums && PROTO !in bounds
    ensures var shown := JsonMeaning.ShownFields(BoundFields(bounds, show));
            (n in shown <==> n in bounds) && (n in bounds ==> shown[n] == JsonMeaning.Shown(BoundValue(bounds[n], show)))
  {
    if n in bounds { BoundIsShown(bounds, show, nums, n); } else { OnlyBoundsShown(bounds, show, n); }
  }

  lemma BoundsTell(a: map<string, Bound>, b: map<string, Bound>, show: real -> string, nums: set<real>)
    requires Printer(show, nums) && BoundNumbers(a) <= nums && BoundNumbers(b) <= nums && PROTO !in a && PROTO !in b
    requires JsonMeaning.ShownFields(BoundFields(a, show)) == JsonMeaning.ShownFields(BoundFields(b, show))
    ensures a == b
  {
    forall n ensures n in a <==> n in b {
      BoundShown(a, show, nums, n);
      BoundShown(b, show, nums, n);
    }
    forall n | n in a ensures a[n] == b[n] {
      BoundShown(a, show, nums, n);
      BoundShown(b, show, nums, n);
      EndsAreNumbers(a, n);
      EndsAreNumbers(b, n);
      BoundTells(a[n], b[n], show, nums);
    }
  }

  // ---------------------------------------------------------------- budgets

  function BudgetAtName(budgets: map<BudgetField, real>, show: real -> string): BudgetField -> Value {
    (f: BudgetField) => if f in budgets then Num(show(budgets[f])) else Null
  }

  function BudgetFields(budgets: map<BudgetField, real>, show: real -> string): seq<Field> {
    Fields(BUDGET_FIELDS, BudgetName, BudgetAtName(budgets, show))
  }

  /** Length and first character tell the names apart. */
  lemma BudgetPrint(f: BudgetField)
    ensures var s := BudgetName(f);
            match f
            case CostUsd => |s| == 8 && s[0] == 'c'
            case Tokens => |s| == 6
            case Seconds => |s| == 7
            case Attempts => |s| == 8 && s[0] == 'a'
  {
  }

  lemma BudgetNames()
    ensures Distinct(BUDGET_FIELDS, BudgetName) && forall f :: BudgetName(f) != PROTO
  {
    forall f ensures BudgetName(f) != PROTO { BudgetPrint(f); assert |PROTO| == 9; }
    forall i, j | 0 <= i < j < |BUDGET_FIELDS| ensures BudgetName(BUDGET_FIELDS[i]) != BudgetName(BUDGET_FIELDS[j]) {
      BudgetPrint(BUDGET_FIELDS[i]);
      BudgetPrint(BUDGET_FIELDS[j]);
    }
  }

  lemma BudgetsSet(budgets: map<BudgetField, real>, show: real -> string, nums: set<real>)
    requires Printer(show, nums) && budgets.Values <= nums && budgets.Keys == ALL_BUDGETS
    ensures AllSet(BUDGET_FIELDS, BudgetName, BudgetAtName(budgets, show))
  {
    BudgetNames();
    forall f {:trigger f in BUDGET_FIELDS} | f in BUDGET_FIELDS
      ensures BudgetName(f) != PROTO && Wf(BudgetAtName(budgets, show)(f)) && !BudgetAtName(budgets, show)(f).Undefined?
    {
      EveryBudget(f);
      assert budgets[f] in budgets.Values;
      NumeralOf(show, nums, budgets[f]);
    }
  }

  lemma BudgetsTell(a: map<BudgetField, real>, b: map<BudgetField, real>, show: real -> string, nums: set<real>)
    requires Printer(show, nums) && a.Values <= nums && b.Values <= nums
    requires a.Keys == ALL_BUDGETS && b.Keys == ALL_BUDGETS
    ensures Wf(Obj(BudgetFields(a, show)))
    ensures JsonMeaning.Shown(Obj(BudgetFields(a, show))) == JsonMeaning.Shown(Obj(BudgetFields(b, show))) ==> a == b
  {
    BudgetNames();
    BudgetsSet(a, show, nums);
    BudgetsSet(b, show, nums);
    FieldsWf(BUDGET_FIELDS, BudgetName, BudgetAtName(a, show));
    if JsonMeaning.Shown(Obj(BudgetFields(a, show))) == JsonMeaning.Shown(Obj(BudgetFields(b, show))) {
      forall f | f in a ensures a[f] == b[f] {
        EveryBudget(f);
        SameFields(BUDGET_FIELDS, BudgetName, BudgetAtName(a, show), BudgetAtName(b, show), f);
        assert a[f] in a.Values && b[f] in b.Values;
      }
    }
  }

  // ---------------------------------------------------------------- the contract

  datatype Key =
    | KProject | KSet(f: SetField) | KExcludes | KBounds | KBudgets | KFrom | KUntil | KOccurrences
    | KExternality | KReversibility | KApproval | KVersions

  function KeyName(k: Key): string {
    match k
    case KProject => "project"
    case KSet(f) => FieldName(f)
    case KExcludes => "exclude_paths"
    case KBounds => "parameter_bounds"
    case KBudgets => "budgets"
    case KFrom => "valid_from"
    case KUntil => "valid_until"
    case KOccurrences => "max_occurrences"
    case KExternality => "externality"
    case KReversibility => "reversibility"
    case KApproval => "approval_required"
    case KVersions => "source_versions"
  }

  /** The properties in the order in which they are assigned. */
  const KEYS := [KProject] + [KSet(IncludePaths), KSet(Roles), KSet(Tools), KSet(MemoryKinds), KSet(Audiences)]
              + [KSet(Capabilities), KSet(Targets), KSet(DataClasses), KSet(RetentionClasses)]
              + [KExcludes, KBounds, KBudgets, KFrom, KUntil, KOccurrences, KExternality, KReversibility, KApproval, KVersions]

  function ExternalityText(e: Externality): string {
    match e case Internal => "internal" case External => "external"
  }

  function ReversibilityText(r: Reversibility): string {
    match r case Reversible => "reversible" case PartiallyReversible => "partially-reversible" case Irreversible => "irreversible"
  }

  function ValueAt(c: Contract, show: real -> string): Key -> Value {
    (k: Key) =>
      match k
      case KProject => Str(c.project)
      case KSet(f) => if f in c.sets then List(c.sets[f]) else Null
      case KExcludes => List(c.excludes)
      case KBounds => Obj(BoundFields(c.bounds, show))
      case KBudgets => Obj(BudgetFields(c.budgets, show))
      case KFrom => Str(c.validFrom.value)
      case KUntil => Str(c.validUntil.value)
      case KOccurrences => Num(show(c.maxOccurrences as real))
      case KExternality => Str(ExternalityText(c.externality))
      case KReversibility => Str(ReversibilityText(c.reversibility))
      case KApproval => Bool(c.approvalRequired)
      case KVersions => List(c.sourceVersions)
  }

  /** The object that is hashed; null for no contract. */
  function JsonOf(c: Option<Contract>, show: real -> string): Value {
    if c.None? then Null else Obj(Fields(KEYS, KeyName, ValueAt(c.value, show)))
  }

  // ---------------------------------------------------------------- the names of the properties

  /** Length and first character of a name. */
  function FieldPrint(f: SetField): (nat, char) {
    match f
    case IncludePaths => (13, 'i')
    case Roles => (5, 'r')
    case Tools => (5, 't')
    case MemoryKinds => (12, 'm')
    case Audiences => (9, 'a')
    case Capabilities => (12, 'c')
    case Targets => (7, 't')
    case DataClasses => (12, 'd')
    case RetentionClasses => (17, 'r')
  }

  function Print(k: Key): (nat, char) {
    match k
    case KProject => (7, 'p')
    case KSet(f) => FieldPrint(f)
    case KExcludes => (13, 'e')
    case KBounds => (16, 'p')
    case KBudgets => (7, 'b')
    case KFrom => (10, 'v')
    case KUntil => (11, 'v')
    case KOccurrences => (15, 'm')
    case KExternality => (11, 'e')
    case KReversibility => (13, 'r')
    case KApproval => (17, 'a')
    case KVersions => (15, 's')
  }

  lemma FieldPrinted(f: SetField)
    ensures FieldName(f) != "" && FieldPrint(f) == (|FieldName(f)|, FieldName(f)[0])
  {
  }

  lemma KeyPrinted(k: Key)
    ensures KeyName(k) != "" && Print(k) == (|KeyName(k)|, KeyName(k)[0])
  {
    if k.KSet? { FieldPrinted(k.f); }
  }

  /** They tell the names apart. */
  lemma PrintTells(k: Key, l: Key)
    ensures Print(k) == Print(l) ==> k == l
    ensures Print(k).1 != '_'
  {
  }

  function Rank(k: Key): nat {
    match k
    case KProject => 0
    case KSet(f) =>
      (match f
       case IncludePaths => 1 case Roles => 2 case Tools => 3 case MemoryKinds => 4 case Audiences => 5
       case Capabilities => 6 case Targets => 7 case DataClasses => 8 case RetentionClasses => 9)
    case KExcludes => 10
    case KBounds => 11
    case KBudgets => 12
    case KFrom => 13
    case KUntil => 14
    case KOccurrences => 15
    case KExternality => 16
    case KReversibility => 17
    case KApproval => 18
    case KVersions => 19
  }

  lemma KeyRanks(k: Key)
    ensures |KEYS| == 20 && KEYS[Rank(k)] == k && k in KEYS
  {
  }

  lemma RankOf(i: nat)
    requires i < |KEYS|
    ensures Rank(KEYS[i]) == i
  {
  }

  lemma KeyNames()
    ensures Distinct(KEYS, KeyName) && forall k :: KeyName(k) != PROTO
  {
    forall i, j | 0 <= i < j < |KEYS| ensures KeyName(KEYS[i]) != KeyName(KEYS[j]) {
      RankOf(i);
      RankOf(j);
      KeyPrinted(KEYS[i]);
      KeyPrinted(KEYS[j]);
      PrintTells(KEYS[i], KEYS[j]);
    }
    forall k ensures KeyName(k) != PROTO {
      KeyPrinted(k);
      PrintTells(k, k);
    }
  }

  // ---------------------------------------------------------------- the text tells the contract

  /** What the text has to tell: a contract as normalisation gives it, for one state of the prototype of its bounds. */
  ghost predicate Proper(c: Contract) {
    Sound(c) && OnTime(c) && c.plainBounds
  }

  lemma KeysSet(c: Contract, show: real -> string, nums: set<real>)
    requires Printer(show, nums) && NumbersOf(Some(c)) <= nums && Sound(c)
    ensures AllSet(KEYS, KeyName, ValueAt(c, show))
  {
    KeyNames();
    forall k {:trigger k in KEYS} | k in KEYS
      ensures KeyName(k) != PROTO && Wf(ValueAt(c, show)(k)) && !ValueAt(c, show)(k).Undefined?
    {
      KeySet(c, show, nums, k);
    }
  }

  lemma KeySet(c: Contract, show: real -> string, nums: set<real>, k: Key)
    requires Printer(show, nums) && NumbersOf(Some(c)) <= nums && Sound(c)
    ensures Wf(ValueAt(c, show)(k)) && !ValueAt(c, show)(k).Undefined?
  {
    match k
    case KSet(f) => if f in c.sets { ListTells(c.sets[f], {}); }
    case KExcludes => ListTells(c.excludes, {});
    case KVersions => ListTells(c.sourceVersions, {});
    case KBounds => BoundFieldsSet(c.bounds, show, nums);
    case KBudgets => BudgetsTell(c.budgets, c.budgets, show, nums);
    case KOccurrences => NumeralOf(show, nums, c.maxOccurrences as real);
    case _ =>
  }

  lemma LabelTexts(a: Externality, b: Externality, q: Reversibility, r: Reversibility)
    ensures ExternalityText(a) == ExternalityText(b) ==> a == b
    ensures ReversibilityText(q) == ReversibilityText(r) ==> q == r
  {
    assert ExternalityText(Internal)[0] == 'i' && ExternalityText(External)[0] == 'e';
    assert ReversibilityText(Reversible)[0] == 'r' && ReversibilityText(PartiallyReversible)[0] == 'p' && ReversibilityText(Irreversible)[0] == 'i';
  }

  /** The contracts are the same at one property. */
  ghost predicate SameAt(a: Contract, b: Contract, k: Key) {
    match k
    case KProject => a.project == b.project
    case KSet(f) => f in a.sets && f in b.sets && a.sets[f] == b.sets[f]
    case KExcludes => a.excludes == b.excludes
    case KBounds => a.bounds == b.bounds
    case KBudgets => a.budgets == b.budgets
    case KFrom => a.validFrom.value == b.validFrom.value
    case KUntil => a.validUntil.value == b.validUntil.value
    case KOccurrences => a.maxOccurrences == b.maxOccurrences
    case KExternality => a.externality == b.externality
    case KReversibility => a.reversibility == b.reversibility
    case KApproval => a.approvalRequired == b.approvalRequired
    case KVersions => a.sourceVersions == b.sourceVersions
  }

  lemma ListValueTells(a: Contract, b: Contract, show: real -> string, k: Key, v: Value, w: Value)
    requires k.KSet? || k.KExcludes? || k.KVersions?
    requires a.sets.Keys == ALL_SETS && b.sets.Keys == ALL_SETS && v == ValueAt(a, show)(k) && w == ValueAt(b, show)(k)
    requires JsonMeaning.Shown(v) == JsonMeaning.Shown(w)
    ensures SameAt(a, b, k)
  {
    if k.KSet? {
      EveryField(k.f);
      ListTells(a.sets[k.f], b.sets[k.f]);
    } else {
      ListTells(a.excludes, b.excludes);
      ListTells(a.sourceVersions, b.sourceVersions);
    }
  }

  lemma LimitValueTells(a: Contract, b: Contract, show: real -> string, nums: set<real>, k: Key, v: Value, w: Value)
    requires k.KBounds? || k.KBudgets? || k.KOccurrences?
    requires Printer(show, nums) && NumbersOf(Some(a)) <= nums && NumbersOf(Some(b)) <= nums
    requires PROTO !in a.bounds && PROTO !in b.bounds && a.budgets.Keys == ALL_BUDGETS && b.budgets.Keys == ALL_BUDGETS
    requires v == ValueAt(a, show)(k) && w == ValueAt(b, show)(k)
    requires JsonMeaning.Shown(v) == JsonMeaning.Shown(w)
    ensures SameAt(a, b, k)
  {
    if k.KBounds? {
      BoundsTell(a.bounds, b.bounds, show, nums);
    } else if k.KBudgets? {
      BudgetsTell(a.budgets, b.budgets, show, nums);
    } else {
      assert a.maxOccurrences as real == b.maxOccurrences as real;
    }
  }

  lemma LabelValueTells(a: Contract, b: Contract, show: real -> string, k: Key, v: Value, w: Value)
    requires !(k.KSet? || k.KExcludes? || k.KVersions? || k.KBounds? || k.KBudgets? || k.KOccurrences?)
    requires v == ValueAt(a, show)(k) && w == ValueAt(b, show)(k) && JsonMeaning.Shown(v) == JsonMeaning.Shown(w)
    ensures SameAt(a, b, k)
  {
    LabelTexts(a.externality, b.externality, a.reversibility, b.reversibility);
  }

  lemma ValueTells(a: Contract, b: Contract, show: real -> string, nums: set<real>, k: Key, v: Value, w: Value)
    requires Printer(show, nums) && NumbersOf(Some(a)) <= nums && NumbersOf(Some(b)) <= nums
    requires Sound(a) && Sound(b) && v == ValueAt(a, show)(k) && w == ValueAt(b, show)(k)
    requires JsonMeaning.Shown(v) == JsonMeaning.Shown(w)
    ensures SameAt(a, b, k)
  {
    if k.KSet? || k.KExcludes? || k.KVersions? {
      ListValueTells(a, b, show, k, v, w);
    } else if k.KBounds? || k.KBudgets? || k.KOccurrences? {
      LimitValueTells(a, b, show, nums, k, v, w);
    } else {
      LabelValueTells(a, b, show, k, v, w);
    }
  }

  lemma SameTime(s: Candidate, t: Candidate)
    requires Timed(s) && Timed(t) && s.value == t.value
    ensures s == t
  {
  }

  lemma SameEverywhere(a: Contract, b: Contract)
    requires a.sets.Keys == b.sets.Keys && a.plainBounds == b.plainBounds
    requires a.validFrom == b.validFrom && a.validUntil == b.validUntil
    requires forall k :: SameAt(a, b, k)
    ensures a == b
  {
    assert SameAt(a, b, KProject) && SameAt(a, b, KExcludes) && SameAt(a, b, KBounds) && SameAt(a, b, KBudgets);
    assert SameAt(a, b, KOccurrences) && SameAt(a, b, KExternality);
    assert SameAt(a, b, KReversibility) && SameAt(a, b, KApproval) && SameAt(a, b, KVersions);
    forall f | f in a.sets ensures a.sets[f] == b.sets[f] { assert SameAt(a, b, KSet(f)); }
    assert a.sets == b.sets;
  }

  lemma TextTells(a: Contract, b: Contract, show: real -> string, nums: set<real>)
    requires Printer(show, nums) && NumbersOf(Some(a)) <= nums && NumbersOf(Some(b)) <= nums
    requires Proper(a) && Proper(b)
    ensures JsonMeaning.Shown(JsonOf(Some(a), show)) == JsonMeaning.Shown(JsonOf(Some(b), show)) ==> a == b
  {
    if JsonMeaning.Shown(JsonOf(Some(a), show)) == JsonMeaning.Shown(JsonOf(Some(b), show)) {
      KeyNames();
      KeysSet(a, show, nums);
      KeysSet(b, show, nums);
      forall k ensures SameAt(a, b, k) {
        KeyRanks(k);
        SameFields(KEYS, KeyName, ValueAt(a, show), ValueAt(b, show), k);
        ValueTells(a, b, show, nums, k, ValueAt(a, show)(k), ValueAt(b, show)(k));
      }
      assert SameAt(a, b, KFrom) && SameAt(a, b, KUntil);
      SameTime(a.validFrom, b.validFrom);
      SameTime(a.validUntil, b.validUntil);
      SameEverywhere(a, b);
    }
  }

  lemma TextIsWf(c: Option<Contract>, show: real -> string, nums: set<real>)
    requires Printer(show, nums) && NumbersOf(c) <= nums && (c.Some? ==> Sound(c.value))
    ensures Wf(JsonOf(c, show)) && !JsonOf(c, show).Undefined?
  {
    if c.Some? {
      KeyNames();
      KeysSet(c.value, show, nums);
      FieldsWf(KEYS, KeyName, ValueAt(c.value, show));
    }
  }

  /**
   * Digests of canonical texts agree exactly when the contracts are the same:
   * the symbolic digest of the model says no more and no less. The printer has
   * to tell apart just the numbers that occur.
   */
  lemma ScopeDigestsAgreeIff(a: Option<Contract>, b: Option<Contract>, show: real -> string)
    requires Printer(show, NumbersOf(a) + NumbersOf(b)) && (a.Some? ==> Proper(a.value)) && (b.Some? ==> Proper(b.value))
    ensures DigestOf(JsonOf(a, show)) == DigestOf(JsonOf(b, show)) <==> a == b
    ensures DigestOf(JsonOf(a, show)) == DigestOf(JsonOf(b, show)) <==> ScopeMeet.Digest(a) == ScopeMeet.Digest(b)
  {
    var nums := NumbersOf(a) + NumbersOf(b);
    TextIsWf(a, show, nums);
    TextIsWf(b, show, nums);
    DigestsAgreeIff(JsonOf(a, show), JsonOf(b, show));
    if a.Some? && b.Some? { TextTells(a.value, b.value, show, nums); }
  }

  /**
   * Exchange the contract of a valid decision and keep its digest: the decision
   * stays valid exactly when the other contract is sound, its bounds are a plain
   * object, and its canonical text has that digest.
   */
  lemma ExchangedIsValidIff(d: ScopeMeet.Decision, other: Option<Contract>, show: real -> string)
    requires ScopeRequests.ValidDecision(d) && Printer(show, NumbersOf(d.effective) + NumbersOf(other))
    requires (d.effective.Some? ==> ScopeRequests.Genuine(d.effective.value)) && (other.Some? ==> ScopeRequests.Genuine(other.value))
    ensures ScopeRequests.ValidDecision(d.(effective := other)) <==>
              && (other.Some? ==> Sound(other.value) && other.value.plainBounds)
              && DigestOf(JsonOf(other, show)) == DigestOf(JsonOf(d.effective, show))
  {
    ScopeRequests.ValidDecisionIff(d);
    ScopeRequests.ValidDecisionIff(d.(effective := other));
    if other.Some? ==> Proper(other.value) { ScopeDigestsAgreeIff(other, d.effective, show); }
  }
}

/**
 * The words of the errors that normalising a scope contract throws
 * (src/policy/scope-engine.mjs). Most messages are fixed words around names and
 * values that have been checked before; those that quote an unknown field are
 * not, and are spelled out here.
 */
module ScopeMessages {
  import opened Wrappers
  import opened ScopeContracts
  import opened ScopeNormal
  import Sorting
  import Text
  import Timestamps

  /** Where a field can be unknown. */
  function PlaceText(p: Place): string {
    match p
    case BoundAt(name) => "scope parameter_bounds." + name
    case BudgetsAt => "scope budgets"
    case _ => "scope contract"
  }

  function UnknownFieldText(place: string, field: string): string {
    place + (" has unknown field: " + field)
  }

  /** The names and values that a message quotes, other than unknown fields, are trimmed single lines. */
  predicate QuotesLines(f: Fault) {
    && (f.at.BoundAt? ==> Text.TrimmedLine(f.at.name))
    && (f.complaint.Unsupported? ==> Text.TrimmedLine(f.complaint.value))
  }

  /** The message, behind a head of fixed words, is a trimmed single line. */
  predicate SaysLine(head: string, f: Fault) {
    if f.complaint.UnknownField? then Text.TrimmedLine(head + UnknownFieldText(PlaceText(f.at), f.complaint.field))
    else QuotesLines(f)
  }

  lemma EnumQuotesLines(sets: map<SetField, seq<string>>, f: SetField)
    requires FieldFault(sets, f).None?
    ensures EnumFault(sets, f).Some? ==> QuotesLines(EnumFault(sets, f).value)
  {
    var bad := Unlisted(sets, f);
    if bad != {} {
      var x := Sorting.First(bad);
      assert x in ToSet(sets[f]);
    }
  }

  lemma {:induction false} FieldFaultsQuoteLines(sets: map<SetField, seq<string>>, fields: seq<SetField>)
    ensures FieldFaults(sets, fields).Some? ==> QuotesLines(FieldFaults(sets, fields).value)
  {
    if fields != [] { FieldFaultsQuoteLines(sets, fields[1..]); }
  }

  lemma ListFaultsQuoteLines(sets: map<SetField, seq<string>>)
    ensures var fault := Or(FieldFaults(sets, SET_FIELDS), EnumFaults(sets)); fault.Some? ==> QuotesLines(fault.value)
  {
    FieldFaultsQuoteLines(sets, SET_FIELDS);
    FieldFaultsIff(sets, SET_FIELDS);
    if FieldFaults(sets, SET_FIELDS).None? {
      forall f ensures FieldFault(sets, f).None? { EveryField(f); }
      EnumQuotesLines(sets, Roles);
      EnumQuotesLines(sets, MemoryKinds);
      EnumQuotesLines(sets, RetentionClasses);
    }
  }

  lemma BoundFaultQuotesLines(raw: Raw)
    ensures BoundFault(raw).Some? ==> QuotesLines(BoundFault(raw).value)
  {
  }

  /** The checks come in such an order that every other name and value has passed its own check when it is quoted. */
  lemma FaultQuotesLines(raw: Raw)
    ensures FaultOf(raw).Some? ==> QuotesLines(FaultOf(raw).value)
  {
    ListFaultsQuoteLines(raw.sets);
    BoundFaultQuotesLines(raw);
  }

  predicate Head(head: string) {
    head != "" && !Text.IsSpace(head[0]) && Text.Unbroken(head)
  }

  lemma PlaceIsUnbroken(p: Place)
    requires p.BoundAt? ==> Text.TrimmedLine(p.name)
    ensures Text.Unbroken(PlaceText(p))
  {
    if p.BoundAt? { Text.UnbrokenJoined("scope parameter_bounds.", p.name); }
  }

  /** What quotes an unknown field is a line exactly when that field can end one. */
  lemma UnknownFieldIff(head: string, place: string, field: string)
    requires Head(head) && Text.Unbroken(place)
    ensures Text.TrimmedLine(head + UnknownFieldText(place, field)) <==> Text.LineEnd(field)
  {
    var start, end := head + place, " has unknown field: " + field;
    Text.UnbrokenJoined(head, place);
    Text.LineEndJoined(" has unknown field: ", field);
    assert start[0] == head[0] && end != "";
    assert head + UnknownFieldText(place, field) == start + end;
    Text.TrimmedIff(start, end);
  }

  /** The message of any fault is a trimmed single line unless it quotes an unknown field that does not end one. */
  lemma SaysLineIff(head: string, raw: Raw)
    requires Head(head) && FaultOf(raw).Some?
    ensures var complaint := FaultOf(raw).value.complaint;
            SaysLine(head, FaultOf(raw).value) <==> (complaint.UnknownField? ==> Text.LineEnd(complaint.field))
  {
    var f := FaultOf(raw).value;
    FaultQuotesLines(raw);
    if f.complaint.UnknownField? {
      PlaceIsUnbroken(f.at);
      UnknownFieldIff(head, PlaceText(f.at), f.complaint.field);
    }
  }

  /** It is the first that its object has. */
  predicate FirstUnknown(raw: Raw, f: Fault) {
    match f.at
    case ContractAt => raw.unknown != [] && f.complaint == UnknownField(raw.unknown[0])
    case BudgetsAt => raw.unknownBudgets != [] && f.complaint == UnknownField(raw.unknownBudgets[0])
    case BoundAt(name) =>
      name in raw.bounds && raw.bounds[name].Range? && raw.bounds[name].unknown != [] && f.complaint == UnknownField(raw.bounds[name].unknown[0])
    case _ => false
  }

  predicate ReportsFirst(raw: Raw, fault: Option<Fault>) {
    fault.Some? && fault.value.complaint.UnknownField? ==> FirstUnknown(raw, fault.value)
  }

  lemma {:induction false} ListsReport(raw: Raw, fields: seq<SetField>)
    ensures ReportsFirst(raw, FieldFaults(raw.sets, fields))
  {
    if fields != [] { ListsReport(raw, fields[1..]); }
  }

  lemma BoundsReport(raw: Raw)
    ensures ReportsFirst(raw, BoundFault(raw))
  {
  }

  lemma BudgetsReport(raw: Raw)
    ensures ReportsFirst(raw, HeadFault(raw)) && ReportsFirst(raw, BudgetFaults(raw))
  {
  }

  lemma EnumReports(raw: Raw, f: SetField)
    ensures ReportsFirst(raw, EnumFault(raw.sets, f))
  {
  }

  lemma OthersReport(raw: Raw)
    ensures ReportsFirst(raw, PathFault(raw)) && ReportsFirst(raw, LabelFault(raw))
  {
  }

  lemma TimeReports(raw: Raw, parsed: Result<int, Timestamps.TimestampError>, at: Place)
    ensures ReportsFirst(raw, ParseFault(parsed, at))
  {
  }

  lemma OneOfThree(raw: Raw, a: Option<Fault>, b: Option<Fault>, c: Option<Fault>)
    requires ReportsFirst(raw, a) && ReportsFirst(raw, b) && ReportsFirst(raw, c)
    ensures ReportsFirst(raw, Or(a, Or(b, c)))
  {
  }

  lemma WindowReports(raw: Raw)
    ensures ReportsFirst(raw, WindowFault(raw.validFrom, raw.validUntil))
  {
    TimeReports(raw, Timestamps.ParseIso(raw.validFrom), FromAt);
    TimeReports(raw, Timestamps.ParseIso(raw.validUntil), UntilAt);
    OneOfThree(raw, TimeFault(raw.validFrom, FromAt), TimeFault(raw.validUntil, UntilAt),
               Check(InOrder(raw.validFrom, raw.validUntil), WindowAt, MustBeOrdered));
  }

  /** The unknown field that is reported, if one is, is the first of the contract, of one of its bounds, or of its budgets. */
  lemma UnknownReported(raw: Raw)
    ensures ReportsFirst(raw, FaultOf(raw))
  {
    ListsReport(raw, SET_FIELDS);
    BoundsReport(raw);
    BudgetsReport(raw);
    EnumReports(raw, Roles);
    EnumReports(raw, MemoryKinds);
    EnumReports(raw, RetentionClasses);
    OthersReport(raw);
    WindowReports(raw);
  }
}

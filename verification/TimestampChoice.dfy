/**
 * Sorting timestamps and taking an extreme one (`selectTimestamp` in
 * src/policy/scope-engine.mjs).
 */
module TimestampChoice {
  import opened Wrappers
  import Text
  import Timestamps

  datatype Candidate = Candidate(value: string, instant: int)

  /** The comparison of the sort: by instant, then by text. */
  predicate Before(a: Candidate, b: Candidate) {
    a.instant < b.instant || (a.instant == b.instant && Text.Less(a.value, b.value))
  }

  predicate NotAfter(a: Candidate, b: Candidate) {
    a == b || Before(a, b)
  }

  function Insert(c: Candidate, sorted: seq<Candidate>): seq<Candidate> {
    if sorted == [] || Before(c, sorted[0]) then [c] + sorted else [sorted[0]] + Insert(c, sorted[1..])
  }

  function Sorted(cs: seq<Candidate>): seq<Candidate> {
    if cs == [] then [] else Insert(cs[0], Sorted(cs[1..]))
  }

  lemma OrderIsTotal(a: Candidate, b: Candidate)
    ensures NotAfter(a, b) || NotAfter(b, a)
    ensures NotAfter(a, b) && NotAfter(b, a) ==> a == b
  {
    Text.LessTotal(a.value, b.value);
    if Text.Less(a.value, b.value) && Text.Less(b.value, a.value) {
      Text.LessTransitive(a.value, b.value, a.value);
      Text.LessIrreflexive(a.value);
    }
  }

  lemma OrderIsTransitive(a: Candidate, b: Candidate, c: Candidate)
    requires NotAfter(a, b) && NotAfter(b, c)
    ensures NotAfter(a, c)
  {
    if Text.Less(a.value, b.value) && Text.Less(b.value, c.value) { Text.LessTransitive(a.value, b.value, c.value); }
  }

  /** Nothing in `s` comes before `c`. */
  ghost predicate Leads(c: Candidate, s: seq<Candidate>) {
    forall x {:trigger x in s} :: x in s ==> NotAfter(c, x)
  }

  ghost predicate InOrder(s: seq<Candidate>) {
    s == [] || (Leads(s[0], s) && InOrder(s[1..]))
  }

  lemma {:induction false} InsertKeepsOrder(c: Candidate, s: seq<Candidate>)
    requires InOrder(s)
    ensures InOrder(Insert(c, s)) && Insert(c, s) != []
    ensures forall x {:trigger x in Insert(c, s)} :: x in Insert(c, s) <==> x == c || x in s
  {
    if s != [] {
      OrderIsTotal(c, s[0]);
      assert s == [s[0]] + s[1..];
      if Before(c, s[0]) {
        forall x {:trigger x in [c] + s} | x in [c] + s ensures NotAfter(c, x) {
          if x in s { OrderIsTransitive(c, s[0], x); }
        }
        assert ([c] + s)[1..] == s;
      } else {
        InsertKeepsOrder(c, s[1..]);
        var r := [s[0]] + Insert(c, s[1..]);
        assert r[1..] == Insert(c, s[1..]);
        forall x {:trigger x in r} | x in r ensures NotAfter(s[0], x) {
          if x != s[0] && x != c { assert x in s[1..] && x in s; }
        }
      }
    }
  }

  lemma {:induction false} SortedInOrder(cs: seq<Candidate>)
    ensures InOrder(Sorted(cs)) && |Sorted(cs)| >= (if cs == [] then 0 else 1)
    ensures forall x {:trigger x in Sorted(cs)} :: x in Sorted(cs) <==> x in cs
  {
    if cs != [] {
      SortedInOrder(cs[1..]);
      InsertKeepsOrder(cs[0], Sorted(cs[1..]));
      assert cs == [cs[0]] + cs[1..];
    }
  }

  lemma {:induction false} LastIsGreatest(s: seq<Candidate>, x: Candidate)
    requires InOrder(s) && x in s
    ensures NotAfter(x, s[|s| - 1])
  {
    if |s| > 1 {
      assert s == [s[0]] + s[1..];
      if x in s[1..] { LastIsGreatest(s[1..], x); }
      assert s[|s| - 1] in s;
    }
  }

  function Best(cs: seq<Candidate>, latest: bool): Candidate
    requires cs != []
  {
    SortedInOrder(cs);
    var sorted := Sorted(cs);
    if latest then sorted[|sorted| - 1] else sorted[0]
  }

  predicate AsFar(c: Candidate, d: Candidate, latest: bool) {
    if latest then NotAfter(d, c) else NotAfter(c, d)
  }

  lemma BestIsExtreme(cs: seq<Candidate>, latest: bool, d: Candidate)
    requires d in cs
    ensures Best(cs, latest) in cs && AsFar(Best(cs, latest), d, latest)
  {
    SortedInOrder(cs);
    assert Best(cs, latest) in Sorted(cs);
    assert d in Sorted(cs);
    if latest { LastIsGreatest(Sorted(cs), d); }
  }

  // ---------------------------------------------------------------- selectTimestamp

  predicate Valid(s: string) {
    Timestamps.ParseIso(s).Ok?
  }

  function InstantOf(s: string): int
    requires Valid(s)
  {
    Timestamps.ParseIso(s).value
  }

  function Candidates(values: seq<string>): (cs: seq<Candidate>)
    requires forall v :: v in values ==> Valid(v)
    ensures |cs| == |values|
    ensures forall i {:trigger cs[i]} :: 0 <= i < |values| ==> cs[i] == Candidate(values[i], InstantOf(values[i]))
  {
    seq(|values|, i requires 0 <= i < |values| => assert values[i] in values; Candidate(values[i], InstantOf(values[i])))
  }

  function SelectTimestamp(values: seq<string>, latest: bool): string
    requires values != [] && forall v :: v in values ==> Valid(v)
  {
    Best(Candidates(values), latest).value
  }

  function Texts(cs: seq<Candidate>): (ts: seq<string>)
    ensures |ts| == |cs| && forall i {:trigger ts[i]} :: 0 <= i < |cs| ==> ts[i] == cs[i].value
  {
    seq(|cs|, i requires 0 <= i < |cs| => cs[i].value)
  }

  /** A timestamp with its own instant. */
  predicate Timed(c: Candidate) {
    Valid(c.value) && InstantOf(c.value) == c.instant
  }

  /** Carrying the instants along selects what parsing the texts again selects. */
  lemma BestIsSelected(cs: seq<Candidate>, latest: bool)
    requires cs != [] && forall i {:trigger cs[i]} :: 0 <= i < |cs| ==> Timed(cs[i])
    ensures forall t :: t in Texts(cs) ==> Valid(t)
    ensures SelectTimestamp(Texts(cs), latest) == Best(cs, latest).value
  {
    var ts := Texts(cs);
    forall t | t in ts ensures Valid(t) {
      var i :| 0 <= i < |ts| && ts[i] == t;
      assert Timed(cs[i]);
    }
    var ds := Candidates(ts);
    forall i | 0 <= i < |cs| ensures ds[i] == cs[i] { assert Timed(cs[i]); }
    assert ds == cs;
  }

  /** `a` is at least as far in the wanted direction as `b`. */
  predicate Reaches(a: string, b: string, latest: bool)
    requires Valid(a) && Valid(b)
  {
    AsFar(Candidate(a, InstantOf(a)), Candidate(b, InstantOf(b)), latest)
  }

  ghost predicate Dominates(v: string, values: seq<string>, latest: bool)
    requires forall w :: w in values ==> Valid(w)
  {
    Valid(v) && forall w {:trigger w in values} :: w in values ==> Reaches(v, w, latest)
  }

  lemma SelectedDominates(values: seq<string>, latest: bool)
    requires values != [] && forall v :: v in values ==> Valid(v)
    ensures SelectTimestamp(values, latest) in values
    ensures Dominates(SelectTimestamp(values, latest), values, latest)
  {
    var cs := Candidates(values);
    assert cs[0] in cs;
    BestIsExtreme(cs, latest, cs[0]);
    var i :| 0 <= i < |cs| && cs[i] == Best(cs, latest);
    assert values[i] in values;
    forall w {:trigger w in values} | w in values ensures Reaches(values[i], w, latest) {
      var j :| 0 <= j < |values| && values[j] == w;
      assert cs[j] in cs;
      BestIsExtreme(cs, latest, cs[j]);
    }
  }

  /** The selected text is the one listed text that no other exceeds: an extreme instant, then an extreme spelling. */
  lemma SelectIff(values: seq<string>, latest: bool, v: string)
    requires values != [] && forall w :: w in values ==> Valid(w)
    ensures SelectTimestamp(values, latest) == v <==> v in values && Dominates(v, values, latest)
  {
    SelectedDominates(values, latest);
    var best := SelectTimestamp(values, latest);
    if v in values && Dominates(v, values, latest) {
      OrderIsTotal(Candidate(v, InstantOf(v)), Candidate(best, InstantOf(best)));
    }
  }

  /** Order and repetition do not matter. */
  lemma SelectIsOfTheSet(values: seq<string>, others: seq<string>, latest: bool)
    requires values != [] && others != [] && forall v :: v in values ==> Valid(v)
    requires forall v {:trigger v in values} {:trigger v in others} :: v in values <==> v in others
    ensures SelectTimestamp(values, latest) == SelectTimestamp(others, latest)
  {
    SelectedDominates(values, latest);
    SelectIff(others, latest, SelectTimestamp(values, latest));
  }

  ghost predicate HasInstant(cs: seq<Candidate>, i: int) {
    exists k :: 0 <= k < |cs| && cs[k].instant == i
  }

  /** The best candidate's instant is the extreme one. */
  lemma BestInstant(cs: seq<Candidate>, latest: bool, i: int)
    requires HasInstant(cs, i)
    ensures HasInstant(cs, Best(cs, latest).instant)
    ensures if latest then i <= Best(cs, latest).instant else Best(cs, latest).instant <= i
  {
    var k :| 0 <= k < |cs| && cs[k].instant == i;
    assert cs[k] in cs;
    BestIsExtreme(cs, latest, cs[k]);
    var j :| 0 <= j < |cs| && cs[j] == Best(cs, latest);
  }

  lemma BestOfInstants(cs: seq<Candidate>, ds: seq<Candidate>, latest: bool)
    requires cs != [] && ds != []
    requires forall i {:trigger HasInstant(cs, i)} {:trigger HasInstant(ds, i)} :: HasInstant(cs, i) <==> HasInstant(ds, i)
    ensures Best(cs, latest).instant == Best(ds, latest).instant
  {
    assert HasInstant(cs, cs[0].instant) && HasInstant(ds, ds[0].instant);
    BestInstant(cs, latest, cs[0].instant);
    BestInstant(ds, latest, ds[0].instant);
    BestInstant(cs, latest, Best(ds, latest).instant);
    BestInstant(ds, latest, Best(cs, latest).instant);
  }

  lemma SelectedIsBest(values: seq<string>, latest: bool)
    requires values != [] && forall v :: v in values ==> Valid(v)
    ensures Valid(SelectTimestamp(values, latest))
    ensures InstantOf(SelectTimestamp(values, latest)) == Best(Candidates(values), latest).instant
  {
    var cs := Candidates(values);
    assert cs[0] in cs;
    BestIsExtreme(cs, latest, cs[0]);
    var i :| 0 <= i < |cs| && cs[i] == Best(cs, latest);
    assert values[i] in values;
  }

  /**
   * Nor does the spelling: lists whose entries denote the same instants yield
   * the same instant, and it is the extreme one.
   */
  lemma SelectIsOfTheInstants(values: seq<string>, others: seq<string>, latest: bool, i: int)
    requires values != [] && others != []
    requires (forall v :: v in values ==> Valid(v)) && (forall v :: v in others ==> Valid(v))
    requires forall i {:trigger HasInstant(Candidates(values), i)} :: HasInstant(Candidates(values), i) <==> HasInstant(Candidates(others), i)
    requires HasInstant(Candidates(values), i)
    ensures Valid(SelectTimestamp(values, latest)) && Valid(SelectTimestamp(others, latest))
    ensures InstantOf(SelectTimestamp(values, latest)) == InstantOf(SelectTimestamp(others, latest))
    ensures if latest then i <= InstantOf(SelectTimestamp(values, latest)) else InstantOf(SelectTimestamp(values, latest)) <= i
  {
    SelectedIsBest(values, latest);
    SelectedIsBest(others, latest);
    BestOfInstants(Candidates(values), Candidates(others), latest);
    BestInstant(Candidates(values), latest, i);
  }
}

/** A small registry and two proposals to which the exactness results of the pipeline apply. */
module PipelineWitness {
  import opened Wrappers
  import opened Json
  import opened Hashing
  import opened Gates
  import opened Pipeline
  import opened PipelineExactness

  function NoPath(p: string): bool { false }

  function AnyDate(s: string): Option<int> { Some(0) }

  /** One local, harmless effect. */
  function Registry(): Policy {
    Policy(map["note" := Effect(false, REVERSIBLE, "local", LOW, false, [], None, None, false)], 10, NoPath, AnyDate)
  }

  function Fields(id: string): seq<Field> {
    [Field("id", Str(id)), Field("work_order_id", Str("w")), Field("proposed_by", Str("worker")), Field("action", Str("note")),
     Field("target", Str("log")), Field("parameters", Obj([])), Field("evidence_refs", Arr([])), Field("created_at", Str("2026-01-01"))]
  }

  function Note(id: string): Value {
    Obj(Fields(id))
  }

  lemma {:induction false} LookupAt(fs: seq<Field>, i: nat, k: string)
    requires i < |fs| && fs[i].key == k && forall j :: 0 <= j < i ==> fs[j].key != k
    ensures Lookup(fs, k) == fs[i].val
  {
    if i > 0 { LookupAt(fs[1..], i - 1, k); }
  }

  lemma {:induction false} LookupNone(fs: seq<Field>, k: string)
    requires forall j :: 0 <= j < |fs| ==> fs[j].key != k
    ensures Lookup(fs, k) == Undefined
  {
    if fs != [] { LookupNone(fs[1..], k); }
  }

  lemma {:induction false} KeysAre(fs: seq<Field>, k: string)
    ensures k in Keys(fs) <==> exists i :: 0 <= i < |fs| && fs[i].key == k
  {
    if fs != [] {
      KeysAre(fs[1..], k);
      if i :| 0 <= i < |fs| && fs[i].key == k { if i > 0 { assert fs[1..][i - 1].key == k; } }
    }
  }

  lemma {:induction false} AllWf(fs: seq<Field>)
    requires forall i :: 0 <= i < |fs| ==> Wf(fs[i].val)
    requires forall i, j :: 0 <= i < j < |fs| ==> fs[i].key != fs[j].key
    ensures WfFields(fs)
  {
    if fs != [] {
      KeysAre(fs[1..], fs[0].key);
      AllWf(fs[1..]);
    }
  }

  lemma KeysDiffer(id: string)
    ensures var fs := Fields(id); forall i, j {:trigger fs[i].key, fs[j].key} :: 0 <= i < j < |fs| ==> fs[i].key != fs[j].key
  {
  }

  lemma ReadsAt(id: string, i: nat)
    requires i < |Fields(id)|
    ensures Get(Note(id), Fields(id)[i].key) == Fields(id)[i].val
  {
    var fs := Fields(id);
    KeysDiffer(id);
    forall j | 0 <= j < i ensures fs[j].key != fs[i].key { }
    LookupAt(fs, i, fs[i].key);
  }

  lemma NoteReads(id: string)
    ensures var p := Note(id);
            && Get(p, "id") == Str(id) && Get(p, "work_order_id") == Str("w") && Get(p, "proposed_by") == Str("worker")
            && Get(p, "action") == Str("note") && Get(p, "target") == Str("log") && Get(p, "parameters") == Obj([])
            && Get(p, "evidence_refs") == Arr([]) && Get(p, "created_at") == Str("2026-01-01")
  {
    ReadsAt(id, 0);
    ReadsAt(id, 1);
    ReadsAt(id, 2);
    ReadsAt(id, 3);
    ReadsAt(id, 4);
    ReadsAt(id, 5);
    ReadsAt(id, 6);
    ReadsAt(id, 7);
  }

  lemma NoteOmits(id: string)
    ensures var p := Note(id);
            && Get(p, "claimed_externality") == Undefined && Get(p, "claimed_reversibility") == Undefined
            && Get(p, "claimed_risk") == Undefined && Get(p, "uncertainty") == Undefined && Get(p, "expires_at") == Undefined
  {
    var fs := Fields(id);
    LookupNone(fs, "claimed_externality");
    LookupNone(fs, "claimed_reversibility");
    LookupNone(fs, "claimed_risk");
    LookupNone(fs, "uncertainty");
    LookupNone(fs, "expires_at");
  }

  lemma NoteIsWf(id: string)
    ensures Wf(Note(id))
  {
    AllWf(Fields(id));
  }

  lemma NoteIsClear(id: string)
    requires id != ""
    ensures Clear(Registry(), Note(id), 0)
  {
    NoteReads(id);
    NoteOmits(id);
    assert ActionOf(Note(id)) == "note";
  }

  lemma NoteIsFree(id: string)
    requires id != ""
    ensures Free(Registry(), Note(id)) && OwnScope(Registry(), Note(id)) == "local:log"
  {
    NoteReads(id);
    NoteOmits(id);
    NoteIsWf(id);
    NoteIsClear(id);
    assert ActionOf(Note(id)) == "note" && TargetOf(Note(id)) == "log";
  }

  /** Two notes are rivals: free, on one scope, and of different digests. */
  lemma NotesAreRivals(a: string, b: string)
    requires a != "" && b != "" && a != b
    ensures Rivals(Registry(), Note(a), Note(b))
  {
    NoteIsFree(a);
    NoteIsFree(b);
    NoteReads(a);
    NoteReads(b);
    if DigestOf(Note(a)) == DigestOf(Note(b)) {
      DigestFixesStrings(Note(a), Note(b), "id", a);
      assert false;
    }
  }

  /** A concrete run that invokes one proposal twice: what the side effect left behind the first time could not be recorded. */
  lemma NoteInvokedTwice(ret: PerformReturn)
    requires !ValidReturn(ret)
    ensures Free(Registry(), Note("n"))
    ensures var steps := InvokedAfter(Registry(), Forgotten(Registry(), Note("n"), ret), Note("n"));
            IsRun(Registry(), steps) && !AtMostOnce(After(Registry(), steps).history)
  {
    NoteIsFree("n");
    InvokedTwice(Registry(), Note("n"), ret);
  }

  /** Four such ends: an outcome nobody knows, an empty detail, a thrown null, and a proposal that lost its id. */
  function Ends(): seq<PerformReturn> {
    [PerformReturn(Returned(Some("DONE"), None), "n"), PerformReturn(Returned(None, Some("")), "n"),
     PerformReturn(ThrewUnreadable, "n"), PerformReturn(Threw("no"), "")]
  }

  lemma EachEndRepeats(i: nat)
    requires i < |Ends()|
    ensures Free(Registry(), Note("n"))
    ensures var steps := InvokedAfter(Registry(), Forgotten(Registry(), Note("n"), Ends()[i]), Note("n"));
            IsRun(Registry(), steps) && !AtMostOnce(After(Registry(), steps).history)
  {
    NoteInvokedTwice(Ends()[i]);
  }
}

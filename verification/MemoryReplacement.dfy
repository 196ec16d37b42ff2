/**
 * Replacement and revocation together (src/memory/store.mjs): what replaced a
 * record loses its authority with it, whatever happened in between.
 */
module MemoryReplacement {
  import opened Wrappers
  import opened MemoryModel
  import opened MemoryLineage
  import opened MemoryRevocation
  import opened MemoryRuns
  import opened MemoryAuthority
  import opened MemoryTheorems
  import opened MemoryWrites

  /** No authority of any kind, and marked. */
  predicate Stripped(r: Rec) {
    r.authorityRevoked && r.authority.cls == NoAuthority && r.authority.uses == {}
  }

  /** A record other than the start is reached exactly through one of its own sources. */
  lemma ReachedIff(m: Mem, a: string, k: string)
    requires a != k && k in m.records
    ensures Reachable(m, a, k) <==> exists s {:trigger Reachable(m, a, s)} :: s in m.records[k].derivedFrom && Reachable(m, a, s)
  {
    if Reachable(m, a, k) {
      var p :| Connects(m, a, k, p);
      var q, s := p[..|p| - 1], p[|p| - 2];
      assert Linked(m, p, |p| - 2);
      forall i {:trigger Linked(m, q, i)} | 0 <= i < |q| - 1 ensures Linked(m, q, i) { assert Linked(m, p, i); }
      assert Connects(m, a, s, q) && Reachable(m, a, s) && s in m.records[k].derivedFrom;
    }
    if exists s {:trigger Reachable(m, a, s)} :: s in m.records[k].derivedFrom && Reachable(m, a, s) {
      var s :| s in m.records[k].derivedFrom && Reachable(m, a, s);
      ReachLast(m, a, s, k);
    }
  }

  /** After a revocation, exactly the records derived from its source, and those revoked before, are stripped; all others are as they were. */
  lemma RevocationStrips(m: Mem, after: Mem, source: string, markerId: string, k: string)
    requires Decided(m, after, source, markerId) && Voided(m) && k in m.records && k != markerId
    ensures k in after.records
    ensures Stripped(after.records[k]) <==> Reachable(m, source, k) || m.records[k].authorityRevoked
    ensures !Reachable(m, source, k) ==> after.records[k] == m.records[k]
  {
    assert after.records[k] == Outcome(m, source, k);
  }

  /** The event of replacing `oldId`, and that of revoking it. */
  function Replacing(oldId: string, input: Rec, derived: Option<seq<string>>, conflicts: Option<set<string>>): Event {
    Call(Replace(oldId, input, derived, conflicts))
  }

  function Revoking(source: string, reason: string, expected: Option<seq<string>>, check: Rec -> bool, markerId: string): Event {
    Call(Revoke(source, reason, expected, check, markerId))
  }

  /** The replacement is on file after the step, with the lineage it was given or else the old record. */
  lemma ReplacedStep(s: State, oldId: string, input: Rec, derived: Option<seq<string>>, conflicts: Option<set<string>>)
    requires CanHappen(s, Replacing(oldId, input, derived, conflicts)) && Supersede(s.world, oldId, input, derived, conflicts).1.Ok?
    ensures var m := Next(s, Replacing(oldId, input, derived, conflicts)).world.mem;
            && oldId in m.records && input.id in m.records && input.id != oldId
            && m.records[input.id].supersedes == Some(oldId)
            && (derived.None? ==> Child(m, oldId, input.id))
            && (derived.Some? ==> m.records[input.id].derivedFrom == derived.value)
  {
    ReplacementIs(s.world, oldId, input, derived, conflicts);
    ReplacementIff(s.world, oldId, input, derived, conflicts);
  }

  /** Lineage survives a run. */
  lemma RunKeepsLineage(s: State, events: seq<Event>)
    requires CanRun(s, events, true) && Holds(s, {}, {})
    ensures KeepsLineage(s.world.mem, After(s, events, true).world.mem) && Holds(After(s, events, true), {}, {})
  {
    RunRemembers(s, events);
    LaterKeepsLineage(s.world.mem, After(s, events, true).world.mem);
  }

  /** Everything reached from the source is stripped by the step that revokes it. */
  lemma RevokedStep(t: State, source: string, reason: string, expected: Option<seq<string>>, check: Rec -> bool, markerId: string, k: string)
    requires CanHappen(t, Revoking(source, reason, expected, check, markerId)) && Holds(t, {}, {})
    requires source in t.world.mem.records && Expected(t.world.mem, source, expected, check)
    requires k in t.world.mem.records
    ensures var m := Next(t, Revoking(source, reason, expected, check, markerId)).world.mem;
            && k in m.records
            && (Stripped(m.records[k]) <==> Reachable(t.world.mem, source, k) || t.world.mem.records[k].authorityRevoked)
            && (!Reachable(t.world.mem, source, k) ==> m.records[k] == t.world.mem.records[k])
  {
    RevocationIsExact(t.world, source, reason, expected, check, markerId);
    RevocationStrips(t.world.mem, RevokeSource(t.world, source, reason, expected, check, markerId).0.mem, source, markerId, k);
  }

  /** Stripped stays stripped over any run. */
  lemma StaysStripped(s: State, events: seq<Event>, k: string)
    requires CanRun(s, events, true) && Holds(s, {}, {}) && k in s.world.mem.records && Stripped(s.world.mem.records[k])
    ensures var m := After(s, events, true).world.mem; k in m.records && Stripped(m.records[k])
  {
    RevokedForGood(s, events, k);
  }

  /** The three stages: a replacement, a run, a revocation of the record that was replaced. */
  ghost predicate ReplacedThenRevoked(s: State, oldId: string, input: Rec, derived: Option<seq<string>>, conflicts: Option<set<string>>,
                                      between: seq<Event>, revoking: Event) {
    && Holds(s, {}, {}) && CanHappen(s, Replacing(oldId, input, derived, conflicts))
    && Supersede(s.world, oldId, input, derived, conflicts).1.Ok?
    && CanRun(Next(s, Replacing(oldId, input, derived, conflicts)), between, true)
    && var t := After(Next(s, Replacing(oldId, input, derived, conflicts)), between, true);
    && revoking.Call? && revoking.op.Revoke? && revoking.op.source == oldId
    && CanHappen(t, revoking) && Expected(t.world.mem, oldId, revoking.op.expected, revoking.op.check)
  }

  lemma ReplacementOnFile(s: State, oldId: string, input: Rec, derived: Option<seq<string>>, conflicts: Option<set<string>>,
                          between: seq<Event>, revoking: Event)
    requires ReplacedThenRevoked(s, oldId, input, derived, conflicts, between, revoking)
    ensures var t := After(Next(s, Replacing(oldId, input, derived, conflicts)), between, true);
            && Holds(t, {}, {}) && oldId in t.world.mem.records && input.id in t.world.mem.records && input.id != oldId
            && (derived.None? ==> Child(t.world.mem, oldId, input.id))
            && (derived.Some? ==> t.world.mem.records[input.id].derivedFrom == derived.value)
  {
    var first := Next(s, Replacing(oldId, input, derived, conflicts));
    ReplacedStep(s, oldId, input, derived, conflicts);
    StepRemembers(s, Replacing(oldId, input, derived, conflicts));
    RunKeepsLineage(first, between);
    assert SameSources(first.world.mem, After(first, between, true).world.mem, oldId);
    assert SameSources(first.world.mem, After(first, between, true).world.mem, input.id);
  }

  /**
   * A replacement made without lineage falls with its original: once the old
   * record is revoked, however long after and whatever happened in between,
   * crashes included, the replacement has no authority, nor has any record
   * derived from it, and none of them gets it back.
   */
  lemma ReplacementFalls(s: State, oldId: string, input: Rec, conflicts: Option<set<string>>,
                         between: seq<Event>, revoking: Event, later: seq<Event>, k: string)
    requires ReplacedThenRevoked(s, oldId, input, None, conflicts, between, revoking)
    requires var t := After(Next(s, Replacing(oldId, input, None, conflicts)), between, true);
             && k in t.world.mem.records && Reachable(t.world.mem, input.id, k)
             && CanRun(Next(t, revoking), later, true)
    ensures var t := After(Next(s, Replacing(oldId, input, None, conflicts)), between, true);
            && k in After(Next(t, revoking), later, true).world.mem.records
            && Stripped(After(Next(t, revoking), later, true).world.mem.records[k])
  {
    var t := After(Next(s, Replacing(oldId, input, None, conflicts)), between, true);
    ReplacementOnFile(s, oldId, input, None, conflicts, between, revoking);
    ReachFirst(t.world.mem, oldId, input.id, k);
    RevokedStep(t, oldId, revoking.op.reason, revoking.op.expected, revoking.op.check, revoking.op.markerId, k);
    StepRemembers(t, revoking);
    StaysStripped(Next(t, revoking), later, k);
  }

  /**
   * A replacement with a lineage of its own falls exactly when one of the
   * records it names is the old one or derived from it, or when it had been
   * revoked before; otherwise the revocation leaves it as it is.
   */
  lemma OwnLineageFallsIff(s: State, oldId: string, input: Rec, sources: seq<string>, conflicts: Option<set<string>>,
                           between: seq<Event>, revoking: Event)
    requires ReplacedThenRevoked(s, oldId, input, Some(sources), conflicts, between, revoking)
    ensures var t := After(Next(s, Replacing(oldId, input, Some(sources), conflicts)), between, true);
            var m := Next(t, revoking).world.mem;
            var reached := exists x {:trigger Reachable(t.world.mem, oldId, x)} :: x in sources && Reachable(t.world.mem, oldId, x);
            && input.id in t.world.mem.records && input.id in m.records
            && (Stripped(m.records[input.id]) <==> reached || t.world.mem.records[input.id].authorityRevoked)
            && (!reached ==> m.records[input.id] == t.world.mem.records[input.id])
  {
    var t := After(Next(s, Replacing(oldId, input, Some(sources), conflicts)), between, true);
    ReplacementOnFile(s, oldId, input, Some(sources), conflicts, between, revoking);
    ReachedIff(t.world.mem, oldId, input.id);
    RevokedStep(t, oldId, revoking.op.reason, revoking.op.expected, revoking.op.check, revoking.op.markerId, input.id);
  }
}

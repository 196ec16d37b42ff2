/**
 * Runs step by step: which step each happening is due to, and which steps every
 * invocation goes back to: an evaluation in time, a request, and a human's own
 * approval of it.
 */
module PipelineSteps {
  import opened Wrappers
  import opened Json
  import opened Hashing
  import opened Events
  import opened Gates
  import opened GateLaws
  import opened Pipeline
  import opened PipelineDurable
  import opened PipelineAuthority
  import opened PipelineGuards
  import opened PipelineTheorems
  import Approvals

  // ---------------------------------------------------------------- parts of a run

  lemma {:induction false} PartOfRun(policy: Policy, steps: seq<Step>, k: nat)
    requires IsRun(policy, steps) && k <= |steps|
    ensures IsRun(policy, steps[..k])
    ensures k < |steps| ==>
              && Enabled(After(policy, steps[..k]), steps[k]) && IsRun(policy, steps[..k + 1])
              && After(policy, steps[..k + 1]) == Next(policy, After(policy, steps[..k]), steps[k])
    decreases |steps|
  {
    if k == |steps| {
      assert steps[..k] == steps;
    } else if k == |steps| - 1 {
      assert steps[..k + 1] == steps;
    } else {
      var before := steps[..|steps| - 1];
      PartOfRun(policy, before, k);
      assert before[..k] == steps[..k] && before[..k + 1] == steps[..k + 1];
    }
  }

  // ---------------------------------------------------------------- what a happening is due to

  /** The step, taken in `w`, that makes `x` happen. */
  predicate DueTo(w: World, s: Step, x: Happening) {
    w.live.Some? &&
    match x
    case Reserving(d, scope) =>
      var p := w.live.value.phase; s.DoReserve? && p.Admitted? && d == p.call.digest && scope == p.call.verdict.scope
    case Invoking(c) => s.DoPerform? && w.live.value.phase == Holding(c)
    case Finishing(d, scope, ending) =>
      var p := w.live.value.phase; s.DoConclude? && s.ret.ending == ending && p.InFlight? && d == p.call.digest && scope == p.call.verdict.scope
    case Reconciling(scope) =>
      s.DoReconcile? && s.scope == scope && s.role == "human" && s.resolved in {"SUCCESS", "FAIL", "NOT_EXECUTED"}
      && s.who.ActorText? && s.who.text != "" && scope in w.live.value.unknown
  }

  lemma OneHappening(policy: Policy, w: World, s: Step)
    requires Enabled(w, s)
    ensures var h, more := w.history, Next(policy, w, s).history;
            more == h || (|more| == |h| + 1 && more[..|h|] == h && DueTo(w, s, more[|h|]))
  {
    if s.DoBegin? { BeginShape(w, w.live.value, s.proposal, s.verdict, s.now); }
  }

  /** Each happening of a run is due to a step of its own, taken when all before it had happened. */
  lemma {:induction false} HappeningIsDue(policy: Policy, steps: seq<Step>, i: nat) returns (k: nat)
    requires IsRun(policy, steps) && i < |After(policy, steps).history|
    ensures k < |steps| && IsRun(policy, steps[..k])
    ensures After(policy, steps[..k]).history == After(policy, steps).history[..i]
    ensures DueTo(After(policy, steps[..k]), steps[k], After(policy, steps).history[i])
    decreases |steps|
  {
    var n := |steps| - 1;
    var before := steps[..n];
    OneHappening(policy, After(policy, before), steps[n]);
    if i < |After(policy, before).history| {
      k := HappeningIsDue(policy, before, i);
      assert before[..k] == steps[..k];
    } else {
      k := n;
    }
  }
}

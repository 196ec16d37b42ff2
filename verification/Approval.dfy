/** The assurance store (src/policy/approval.mjs): one-shot human approvals. */
module Approvals {
  import opened Wrappers
  import opened Hashing

  datatype Request = Request(id: string, digest: Digest, action: string, target: string, scope: string, actor: string, at: int)

  datatype Decision = Decision(
    id: string, requestId: string, digest: Digest, scope: string, decision: string,
    actor: string, role: string, decidedAt: int, expiresAt: int, consumed: bool)

  /** One line of the assurance log. */
  datatype Line =
    | RequestLine(request: Request)
    | DecisionLine(decision: Decision)
    | ConsumptionLine(approvalId: string, at: int)

  datatype Store = Store(decisions: map<string, Decision>, requests: map<string, Request>)

  datatype ApprovalError =
    | UnknownRequest | NotHuman | Invalid
    | UnknownApproval | WasRejected | AlreadyConsumed | DigestMismatch | ScopeMismatch | Expired

  function Consume(store: Store, id: string): Store {
    if id in store.decisions then store.(decisions := store.decisions[id := store.decisions[id].(consumed := true)]) else store
  }

  function Apply(store: Store, line: Line): Store {
    match line
    case RequestLine(r) => store.(requests := store.requests[r.id := r])
    case DecisionLine(d) => store.(decisions := store.decisions[d.id := d])
    case ConsumptionLine(id, _) => Consume(store, id)
  }

  /** What a reload makes of the log. */
  function Replay(lines: seq<Line>): Store {
    if lines == [] then Store(map[], map[]) else Apply(Replay(lines[..|lines| - 1]), lines[|lines| - 1])
  }

  lemma ReplaySnoc(lines: seq<Line>, line: Line)
    ensures Replay(lines + [line]) == Apply(Replay(lines), line)
  {
    assert (lines + [line])[..|lines|] == lines;
  }

  function MakeRequest(r: Request): Result<Request, ApprovalError> {
    if r.id != "" && r.action != "" && r.target != "" && r.scope != "" && r.actor != "" then Ok(r) else Err(Invalid)
  }

  /** A decision on a known request, by a human, lasting `ttl` seconds. */
  function MakeDecision(store: Store, requestId: string, id: string, decision: string, actor: string, role: string,
                        ttl: int, now: int): Result<Decision, ApprovalError>
  {
    if requestId !in store.requests then Err(UnknownRequest)
    else if role != "human" then Err(NotHuman)
    else
      var req := store.requests[requestId];
      var d := Decision(id, requestId, req.digest, req.scope, decision, actor, role, now, now + ttl * 1000, false);
      if id != "" && requestId != "" && req.scope != "" && actor != "" && (decision == "APPROVED" || decision == "REJECTED")
      then Ok(d) else Err(Invalid)
  }

  function Check(store: Store, id: string, digest: Digest, scope: string, now: int): Result<Decision, ApprovalError> {
    if id !in store.decisions then Err(UnknownApproval)
    else
      var a := store.decisions[id];
      if a.decision != "APPROVED" then Err(WasRejected)
      else if a.consumed then Err(AlreadyConsumed)
      else if a.digest != digest then Err(DigestMismatch)
      else if a.scope != scope then Err(ScopeMismatch)
      else if now >= a.expiresAt then Err(Expired)
      else Ok(a)
  }

  // ---------------------------------------------------------------- what a request and a decision come to

  /** A request is filed as it is, when all its texts are given. */
  lemma RequestedIff(r: Request)
    ensures MakeRequest(r).Ok? <==> "" !in {r.id, r.action, r.target, r.scope, r.actor}
    ensures MakeRequest(r).Ok? ==> MakeRequest(r).value == r
    ensures MakeRequest(r).Err? ==> MakeRequest(r).error == Invalid
  {
  }

  /** A human's word on a known request is filed as it was given, for the digest and scope of that request, for `ttl` seconds. */
  lemma DecidedAsSaid(store: Store, requestId: string, id: string, decision: string, actor: string, role: string, ttl: int, now: int)
    ensures var r := MakeDecision(store, requestId, id, decision, actor, role, ttl, now);
            && (r == Err(UnknownRequest) <==> requestId !in store.requests)
            && (r == Err(NotHuman) <==> requestId in store.requests && role != "human")
            && (r.Ok? <==> requestId in store.requests && role == "human" && decision in {"APPROVED", "REJECTED"}
                           && "" !in {id, requestId, store.requests[requestId].scope, actor})
    ensures var r := MakeDecision(store, requestId, id, decision, actor, role, ttl, now);
            r.Ok? ==>
              var d := r.value;
              && d.id == id && d.requestId == requestId && d.decision == decision && d.actor == actor && d.role == role
              && d.digest == store.requests[requestId].digest && d.scope == store.requests[requestId].scope
              && d.decidedAt == now && d.expiresAt == now + ttl * 1000 && !d.consumed
  {
  }

  /** What is wrong with an approval: the first of these that applies. */
  lemma CheckedIff(store: Store, id: string, digest: Digest, scope: string, now: int)
    ensures Check(store, id, digest, scope, now) == Err(UnknownApproval) <==> id !in store.decisions
    ensures id in store.decisions ==>
              var d, r := store.decisions[id], Check(store, id, digest, scope, now);
              && (r == Err(WasRejected) <==> d.decision != "APPROVED")
              && (r == Err(AlreadyConsumed) <==> d.decision == "APPROVED" && d.consumed)
              && (r == Err(DigestMismatch) <==> d.decision == "APPROVED" && !d.consumed && d.digest != digest)
              && (r == Err(ScopeMismatch) <==> d.decision == "APPROVED" && !d.consumed && d.digest == digest && d.scope != scope)
              && (r == Err(Expired) <==> d.decision == "APPROVED" && !d.consumed && d.digest == digest && d.scope == scope && d.expiresAt <= now)
              && (r == Ok(d) <==> d.decision == "APPROVED" && !d.consumed && d.digest == digest && d.scope == scope && now < d.expiresAt)
  {
  }

  /** A rejection serves for nothing. */
  lemma RejectionStands(store: Store, requestId: string, id: string, actor: string, ttl: int, now: int, digest: Digest, scope: string, at: int)
    requires MakeDecision(store, requestId, id, "REJECTED", actor, "human", ttl, now).Ok?
    ensures var d := MakeDecision(store, requestId, id, "REJECTED", actor, "human", ttl, now).value;
            Check(Apply(store, DecisionLine(d)), id, digest, scope, at) == Err(WasRejected)
  {
    DecidedAsSaid(store, requestId, id, "REJECTED", actor, "human", ttl, now);
  }

  /** An approval serves for the digest and scope of its request, until its time is up, and once. */
  lemma ApprovalServesIff(store: Store, requestId: string, id: string, actor: string, ttl: int, now: int, digest: Digest, scope: string, at: int)
    requires MakeDecision(store, requestId, id, "APPROVED", actor, "human", ttl, now).Ok?
    ensures var given := Apply(store, DecisionLine(MakeDecision(store, requestId, id, "APPROVED", actor, "human", ttl, now).value));
            && (Check(given, id, digest, scope, at).Ok? <==>
                  digest == store.requests[requestId].digest && scope == store.requests[requestId].scope && at < now + ttl * 1000)
            && Check(Apply(given, ConsumptionLine(id, at)), id, digest, scope, at) == Err(AlreadyConsumed)
  {
    DecidedAsSaid(store, requestId, id, "APPROVED", actor, "human", ttl, now);
  }

  /** A line changes nothing on file but what it is about. */
  lemma LineIsAbout(store: Store, line: Line, id: string)
    ensures line.RequestLine? ==>
              && Apply(store, line).decisions == store.decisions
              && line.request.id in Apply(store, line).requests && Apply(store, line).requests[line.request.id] == line.request
    ensures !line.RequestLine? ==> Apply(store, line).requests == store.requests
    ensures id in store.requests && (line.RequestLine? ==> id != line.request.id) ==>
              id in Apply(store, line).requests && Apply(store, line).requests[id] == store.requests[id]
    ensures id in store.decisions && (line.DecisionLine? ==> id != line.decision.id) && (line.ConsumptionLine? ==> id != line.approvalId) ==>
              id in Apply(store, line).decisions && Apply(store, line).decisions[id] == store.decisions[id]
  {
  }

  // ---------------------------------------------------------------- what the log says of an approval

  predicate Decided(lines: seq<Line>, id: string) {
    exists i :: 0 <= i < |lines| && lines[i].DecisionLine? && lines[i].decision.id == id
  }

  /** A human's approval of exactly this digest and scope stands in the log. */
  predicate ApprovedByHuman(lines: seq<Line>, id: string, digest: Digest, scope: string, now: int) {
    exists i :: 0 <= i < |lines| && lines[i].DecisionLine? &&
      var d := lines[i].decision;
      d.id == id && d.decision == "APPROVED" && d.role == "human" && d.digest == digest && d.scope == scope && now < d.expiresAt
  }

  /** Every decision in the store is a line of the log; all were made by humans. */
  lemma {:induction false} StoreFromLog(lines: seq<Line>, id: string)
    requires id in Replay(lines).decisions
    requires forall i :: 0 <= i < |lines| && lines[i].DecisionLine? ==> lines[i].decision.role == "human"
    ensures var a := Replay(lines).decisions[id];
            exists i :: 0 <= i < |lines| && lines[i].DecisionLine? && lines[i].decision.(consumed := true) == a.(consumed := true)
                        && lines[i].decision.id == id
  {
    var n := |lines| - 1;
    var p, last := lines[..n], lines[n];
    if last.DecisionLine? && last.decision.id == id {
    } else {
      StoreFromLog(p, id);
      var a := Replay(p).decisions[id];
      var i :| 0 <= i < |p| && p[i].DecisionLine? && p[i].decision.(consumed := true) == a.(consumed := true)
               && p[i].decision.id == id;
      assert lines[i] == p[i];
    }
  }

  /** A successful check is a human's approval in the log. */
  lemma CheckedIsApproved(lines: seq<Line>, id: string, digest: Digest, scope: string, now: int)
    requires Check(Replay(lines), id, digest, scope, now).Ok?
    requires forall i :: 0 <= i < |lines| && lines[i].DecisionLine? ==> lines[i].decision.role == "human"
    ensures ApprovedByHuman(lines, id, digest, scope, now)
  {
    StoreFromLog(lines, id);
  }

  /** Once consumed, an approval stays consumed in every longer log, unless a later line decides its id again. */
  lemma {:induction false} ConsumedStays(lines: seq<Line>, more: seq<Line>, id: string)
    requires id in Replay(lines).decisions && Replay(lines).decisions[id].consumed
    requires !Decided(more, id)
    ensures id in Replay(lines + more).decisions && Replay(lines + more).decisions[id].consumed
    decreases |more|
  {
    if more == [] {
      assert lines + more == lines;
    } else {
      var shorter, last := more[..|more| - 1], more[|more| - 1];
      assert lines + more == lines + shorter + [last];
      assert forall i :: 0 <= i < |shorter| ==> shorter[i] == more[i];
      ConsumedStays(lines, shorter, id);
      ReplaySnoc(lines + shorter, last);
    }
  }
}

module AssuranceStores {
  import opened Wrappers
  import opened Hashing
  import opened Approvals

  class AssuranceFile {
    var lines: seq<Line>

    constructor ()
      ensures lines == []
    {
      lines := [];
    }
  }

  class AssuranceStore {
    var decisions: map<string, Decision>
    var requests: map<string, Request>
    const file: AssuranceFile

    ghost function View(): Store
      reads this
    {
      Store(decisions, requests)
    }

    /** Memory holds what a reload of the log would give. */
    ghost predicate Valid()
      reads this, file
    {
      View() == Replay(file.lines)
    }

    /** Reopening: the reload loop over the log. */
    constructor (file: AssuranceFile)
      ensures this.file == file && Valid()
    {
      this.file := file;
      decisions, requests := map[], map[];
      new;
      var lines := file.lines;
      for i := 0 to |lines|
        invariant View() == Replay(lines[..i])
        invariant this.file == file && file.lines == lines
      {
        assert lines[..i + 1][..i] == lines[..i];
        match lines[i]
        case RequestLine(r) => requests := requests[r.id := r];
        case DecisionLine(d) => decisions := decisions[d.id := d];
        case ConsumptionLine(id, _) =>
          if id in decisions {
            decisions := decisions[id := decisions[id].(consumed := true)];
          }
      }
      assert lines[..|lines|] == lines;
    }

    method Persist(line: Line)
      modifies file
      ensures file.lines == old(file.lines) + [line]
    {
      file.lines := file.lines + [line];
    }

    method Request(req: Request) returns (r: Result<Request, ApprovalError>)
      requires Valid()
      modifies this, file
      ensures Valid() && r == MakeRequest(req)
      ensures file.lines == if r.Ok? then old(file.lines) + [RequestLine(req)] else old(file.lines)
    {
      r := MakeRequest(req);
      if r.Ok? {
        ReplaySnoc(file.lines, RequestLine(req));
        requests := requests[req.id := req];
        Persist(RequestLine(req));
      }
    }

    method Decide(requestId: string, id: string, decision: string, actor: string, role: string, ttl: int, now: int)
      returns (r: Result<Decision, ApprovalError>)
      requires Valid()
      modifies this, file
      ensures Valid() && r == MakeDecision(old(View()), requestId, id, decision, actor, role, ttl, now)
      ensures file.lines == if r.Ok? then old(file.lines) + [DecisionLine(r.value)] else old(file.lines)
    {
      if requestId !in requests {
        return Err(UnknownRequest);
      }
      if role != "human" {
        return Err(NotHuman);
      }
      var req := requests[requestId];
      var rec := Approvals.Decision(id, requestId, req.digest, req.scope, decision, actor, role, now, now + ttl * 1000, false);
      if id == "" || requestId == "" || req.scope == "" || actor == "" || (decision != "APPROVED" && decision != "REJECTED") {
        return Err(Invalid);
      }
      ReplaySnoc(file.lines, DecisionLine(rec));
      decisions := decisions[rec.id := rec];
      Persist(DecisionLine(rec));
      r := Ok(rec);
    }

    method ValidateForExecution(id: string, digest: Digest, scope: string, now: int) returns (r: Result<Decision, ApprovalError>)
      ensures r == Check(View(), id, digest, scope, now)
    {
      if id !in decisions { return Err(UnknownApproval); }
      var a := decisions[id];
      if a.decision != "APPROVED" { return Err(WasRejected); }
      if a.consumed { return Err(AlreadyConsumed); }
      if a.digest != digest { return Err(DigestMismatch); }
      if a.scope != scope { return Err(ScopeMismatch); }
      if now >= a.expiresAt { return Err(Expired); }
      r := Ok(a);
    }

    /** Uses the approval up: memory and log both say so before anything else happens. */
    method ConsumeOnce(id: string, digest: Digest, scope: string, now: int) returns (r: Result<Decision, ApprovalError>)
      requires Valid()
      modifies this, file
      ensures Valid() && r == Check(old(View()), id, digest, scope, now)
      ensures file.lines == if r.Ok? then old(file.lines) + [ConsumptionLine(id, now)] else old(file.lines)
      ensures r.Ok? ==> Check(View(), id, digest, scope, now) == Err(AlreadyConsumed)
    {
      r := ValidateForExecution(id, digest, scope, now);
      if r.Ok? {
        ReplaySnoc(file.lines, ConsumptionLine(id, now));
        decisions := decisions[id := decisions[id].(consumed := true)];
        Persist(ConsumptionLine(id, now));
      }
    }
  }
}

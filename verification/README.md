# A verified model of the control plane's guarantees

This project models the stateful guarantees of a control plane that lets
workers propose, and only people approve, effects on the outside world. It is
written in Dafny and has five parts.

1. **One-shot effects.** `EffectGate` judges a proposal, `AssuranceStore` holds
   human approvals, `Executor` consumes both, reserves the occurrence in the
   `EventStore` before the side effect runs, and rebuilds its guards from the
   log after a crash. `Pipeline.dfy` is a step system whose steps are the
   durable writes; a crash may come between any two of them, and may tear the
   last line of the log. `PipelineTheorems.dfy` holds the claims about whole
   runs, `PipelineExactness.dfy` shows that their conditions are exact, and
   `Executor.dfy`, `EffectGate.dfy`, `Approval.dfy` and `EventStore.dfy` hold
   the classes with their loops, each proved to make the model's steps.
2. **Memory lineage.** `MemoryModel.dfy` is the memory store as a value: an
   insertion-ordered map of records over an append-only log. Closure,
   revocation, authority caps, the agreement of memory and log, and provenance
   through the factory are proved over whole runs with crashes between writes
   and reloads. `MemoryStore.dfy` and `MemoryFactory.dfy` hold the classes.
3. **Scopes.** Contracts, their intersection as a meet, decisions and requests,
   the glob matcher, request paths, and timestamps (a part of section 5.6 of
   RFC 3339, with the day limits of section 5.7).
4. **Leases, dispatch and the work-order machine.** Fencing tokens over
   restarts, dispatch over leases, and the twelve-state machine replayed from
   the log of each project.
5. **Canonical JSON.** The printer that every digest rests on, and a reader for
   the grammar of RFC 8259 that undoes it.

Each part has modules that say what its operations do on the fields they read
and write, apart from the functions the operations are built from: `GateLaws`,
`PipelineOutcomes` and `PipelineConsent` for effects, `MemoryWrites`,
`MemoryReplacement` and `FactoryLaws` for memory, `ScopeAnswers` and
`ScopeFaults` for scopes, `StateTable`, `RegistryLaws`, `LeaseLaws` and `DispatchLaws` for the rest.
`PipelineConsent` and `PipelineOutcomes` also follow single calls through whole
runs: which words of a human and which verdict stand behind an invocation, and
what an unknown outcome blocks until a human resolves it.

A log is a sequence of records and possibly a torn last line. SHA-256 is taken
as injective: a digest is its preimage under a constructor. Clocks, nonces,
generated ids, the registry of effects, the path policy, the platform's date
parser, field validators of work orders and the side effect itself are
parameters. Ids and nonces are fresh. A field that the source checks to be a
non-empty string, and compares with nothing, is written as the empty string
when it is anything else.

`dafny verify dfyconfig.toml` checks the whole project.

## Conditions of the whole-run theorems

The steps of `Pipeline.dfy` can be taken under the conditions that the code
relies on and does not check: the side effect does not call the executor again,
a verdict handed to `execute` is one that the gate returned (the nonce set
stores only the nonce) and does not change while `execute` runs, clocks give
instants that the platform can write, decision ids are fresh, assurance lines are written
whole, and a torn write leaves a fragment that does not parse. Where a further
condition is needed, it is stated, and shown to be exact.

## Where the code departs from its documentation

The code is modelled as it is. These are the inputs on which it does not do
what its documentation says, each with a lemma.

- A side effect that returns an outcome outside the enumeration or a detail
  that is no non-empty string, or takes the proposal its id, makes `execute`
  throw at `src/policy/executor.mjs:137`; one that throws what has no readable
  message, such as null, makes it throw at line 125. Either is before the guard
  at line 138 is set, and the same process then runs the same digest again
  (`PipelineExactness.InvokedTwice`, `PipelineWitness.EachEndRepeats`).
  Execution is one-shot exactly when no side effect ends so (`OneShotIff`).
- `reconcileUnknown` with an actor that is no non-empty string frees the scope
  in memory before the log refuses the event
  (`src/policy/executor.mjs:156-157`; `NamelessReconciliationFrees`, `HoldsIff`).
- `acquire` with a holder that is no non-empty string changes the lease map
  before the log refuses the event (`src/supervisor/lease-manager.mjs:71-72`;
  `RecoversIff`), and so does a dispatch with such an actor
  (`RefusedChangesIff`). Grants on one key can then overlap, but only if the
  clock goes back as well (`SeparatesIff`).
- An event that JSON cannot write is refused after it has used up a number
  (`src/state/event-store.mjs:69-72`), so numbers can have gaps, and a reload
  takes back the ones used up last (`RefusedKeepsShape`, `ReopenIsReload`).
- Canonical JSON drops an own key `__proto__`, and prints NaN, infinities and
  undefined array items as null (`ProtoKeyIsLost`, `RoundTripIff`).
- A parameter bound named `__proto__` is dropped from a scope contract, and
  assigning it (`src/policy/scope-engine.mjs:124`) replaces the prototype of
  the bounds, so that the result is refused when it is handed in again. All
  bounds are kept, and the result is accepted again, exactly when no bound has
  that name (`BoundsKeptIff`, `AcceptedAgainIff`, `AllowedAgainIff`).
- The reason of a decision that refuses a contract quotes the first unknown
  field as it is. The runtime check of decisions refuses the decision exactly
  when that field is empty, has a line break or ends in white space
  (`BadFieldFails`, `IntersectionValidIff`); the same goes for evaluations and
  unknown fields of requests (`EvaluationValidIff`).
- Revoking a record whose authority was revoked before sets its `revoked` flag
  in memory only (`src/memory/store.mjs:285-289`), and `deriveProcedure` leaves
  steps that are given and are no non-empty array in memory only
  (`src/memory/store.mjs:241-243`) (`AgreementIff`).
- A crash in the middle of a revocation can leave derived records above the
  authority of their source until the revocation is repeated
  (`InterruptedRevocationBreaksCap`, `LaterLinesBreakCapToo`,
  `RetryCompletes`). Behind any number of its lines the caps hold after the
  crash exactly when no record made by derivation, with authority other than
  none and outside the records voided so far, has a source among them
  (`CutSoundIff`).
- A registration with an empty name, an empty or non-string work order or
  branch, an activation of an empty or non-string work order, and a transition
  with an empty or non-string blocker or next action are logged and then make
  the project unreadable for good. It stays readable exactly when none of them
  is in its log (`StaysReadableIff`, `UnreadableIsForGood`).
- The look-ahead of the path pattern does not cross U+2028 and U+2029. A
  pattern with a `.` or `..` part is accepted exactly when it passes the other
  checks and each such part comes after a part with one of these characters
  (`HiddenStepUp`, `DotPartAcceptedIff`); no accepted request path matches such
  a pattern (`HiddenDotPartNeverMatches`).
- A request path that comes down to the repository root is refused as `.` and
  accepted as `./` (`RequestPathIff`).

## Model

| member | source | states |
|---|---|---|
| PipelineTheorems.InvokedAtMostOnce | src/policy/executor.mjs:26-142 | In every run of evaluations, approvals, executions split into their durable steps, reconciliations, crashes at any point and restarts, in which each side effect leaves the proposal its id, returns only what validates and throws only what has a readable message, no proposal digest is invoked twice |
| PipelineExactness.OneShotIff | src/policy/executor.mjs:117-141 | Runs are one-shot if and only if each side effect leaves the proposal its id, returns only what validates and throws only what has a readable message: otherwise `execute` throws at line 125 or 137, before the guard at line 138 is set |
| PipelineExactness.InvokedTwice | src/policy/executor.mjs:117-140 | The run that shows it: after such an end of the side effect the same proposal is evaluated, admitted and invoked again in one process |
| PipelineExactness.InvalidReturnRepeats | src/policy/executor.mjs:117-140 | For any set of ends with such a one, that run draws on the set and breaks at-most-once |
| PipelineWitness.NoteInvokedTwice | src/policy/executor.mjs:80-142 | The double invocation on a concrete registry and proposal |
| PipelineWitness.EachEndRepeats | src/policy/executor.mjs:117-137 | An unknown outcome, an empty detail, a thrown null and a proposal that lost its id each bring it about |
| PipelineWitness.NotesAreRivals | src/policy/executor.mjs:95-97 | Two concrete proposals of one scope and different digests that the gate allows without approval, to which the exactness results apply |
| PipelineTheorems.EveryInvocationBacked | src/policy/effect-gate.mjs:112-136 | In every run each invocation ran a registered effect that is not forbidden, on its canonical scope, and if that effect or a stricter claim needs approval, the assurance log has an approval by a human for exactly this digest and scope, unexpired when consumed; no approval and no verdict backs two invocations |
| PipelineConsent.EveryInvocationConsented | src/policy/approval.mjs:56-125 | In every run, for each invocation whose effect or claims ask for a human there are an earlier step that requested an approval of exactly its digest and scope, and a later step, before the call, in which a human answered APPROVED to that request, with the call made before that answer ran out |
| PipelineConsent.NothingWithoutConsent | src/policy/approval.mjs:71-117 | A run in which no human says APPROVED, but only REJECTED say, invokes nothing that asks for a human |
| PipelineConsent.EveryInvocationJudged | src/policy/effect-gate.mjs:106-136 | In every run each invocation was judged before by the gate, under its own nonce, at a time when its proposal had not expired |
| PipelineTheorems.UnknownOutcomesHoldTheirScope | src/policy/executor.mjs:45-71 | Between a reservation on a scope and its settlement, by an end of its side effect that is neither silent nor UNKNOWN or by a human reconciliation, nothing else is invoked on that scope, across any number of restarts |
| PipelineOutcomes.SilenceHoldsTheScope | src/policy/executor.mjs:117-159 | In every run, after a side effect that returned no outcome or UNKNOWN, a call is under way on its scope again, in this process or a later one, only if a human resolved the outcome in between |
| PipelineOutcomes.RecordedAs | src/policy/executor.mjs:117-141 | A thrown error is recorded as FAIL with its message, a returned outcome as it is, none as UNKNOWN, each with the detail given, in the guards and in one new line of the log; the scope is held exactly when the outcome is missing or UNKNOWN |
| PipelineOutcomes.ValidIff | src/policy/executor.mjs:117-137 | An end is valid exactly when the proposal keeps its id and the side effect threw what has a message, or returned one of the six outcomes or none, with no empty detail |
| PipelineOutcomes.OtherEndThrows | src/policy/executor.mjs:117-137 | Any other end throws out of `execute` and leaves log and guards as they were |
| PipelineOutcomes.AdmittedIff | src/policy/executor.mjs:80-101 | A call is admitted exactly with an ALLOW whose nonce is unused, on the proposal that was judged, not executed before, on a free scope, with the named approval on file and unused; the nonce and the approval are then spent |
| PipelineOutcomes.RefusedIff | src/policy/executor.mjs:80-101 | The refusals in their order, and that behind the first two the nonce is spent and nothing else changes |
| PipelineOutcomes.ReservedAs | src/policy/executor.mjs:103-115 | The reservation that is written ahead, field by field |
| PipelineOutcomes.ReconciledIff | src/policy/executor.mjs:149-159 | A reconciliation goes through exactly for a held scope, one of the three resolutions, a human role and a named actor, and frees that scope only |
| PipelineOutcomes.RebuiltExecuted | src/policy/executor.mjs:46-71 | After a restart a digest has the result the log gives for it, or that of a crash during its open reservation |
| PipelineOutcomes.RebuiltUnknown | src/policy/executor.mjs:46-71 | After a restart a scope is held by what the log leaves unknown on it, or by the last reservation left open on it |
| PipelineExactness.HoldsIff | src/policy/executor.mjs:117-158 | That holds if and only if the side effects end as for `OneShotIff` and every reconciling actor is a name that the log accepts |
| PipelineExactness.ScopeNotHeld | src/policy/executor.mjs:137-139 | A run in which a second proposal runs on a scope whose occurrence nobody settled |
| PipelineExactness.NamelessReconciliationFrees | src/policy/executor.mjs:149-159 | A reconciliation by an actor that is no non-empty string frees the scope in memory and leaves the log blocking it |
| PipelineTheorems.RestartNeverWeakens | src/policy/executor.mjs:46-71 | A restart after a crash in any reachable live state blocks at least the digests and scopes the process blocked; with side effects that end so and no call under way the same digests, and once every reservation has a final record the same scopes |
| PipelineTheorems.RestartedKeys | src/policy/executor.mjs:46-71 | What a restarted process blocks, compared key by key with the process before the crash |
| PipelineTheorems.RunInvariants | src/policy/executor.mjs:80-142 | All run invariants hold after every run |
| PipelineTheorems.RecordedIff | src/policy/executor.mjs:117-141 | An admitted call is recorded exactly when its side effect leaves the proposal its id and returns what validates or throws what has a readable message |
| PipelineAuthority.SameDigestLawful | src/policy/effect-gate.mjs:98-136 | A proposal with the digest of an allowed one meets the same demands under that verdict |
| PipelineGuards.ReplayedReserve | src/policy/executor.mjs:108-115 | A reservation is answered from the index only if the log marked its digest before |
| PipelineGuards.ReplayedResult | src/policy/executor.mjs:140-140 | A final record is answered from the index only if the log has one for its digest |
| PipelineGuards.ConcludeBlocked | src/policy/executor.mjs:47-57 | Recording a result frees no scope but the call's own |
| Recovery.RebuildKeys | src/policy/executor.mjs:46-71 | The rebuilt guards block every digest and scope of the log's results, and every reservation left open |
| Recovery.ScopePendingIff | src/policy/executor.mjs:46-57 | A scope is held by a pending reservation exactly when some digest is pending on it |
| Executors.ExecuteIsRun | src/policy/executor.mjs:80-142 | One call of `execute` is a piece of a run, so the theorems about runs hold of the class |
| Executors.Executor.constructor | src/policy/executor.mjs:26-72 | The two replay loops build exactly the guard maps of the model's recovery |
| Executors.Executor.ScanLog | src/policy/executor.mjs:47-57 | The pass over all events computes the model's scan |
| Executors.Executor.SettlePending | src/policy/executor.mjs:58-71 | The pass over pending reservations adds one unknown outcome for each and overwrites no scope that is already held |
| Executors.Executor.Admit | src/policy/executor.mjs:80-101 | Verdict, nonce, digest, occurrence and scope guards in order, then the approval is consumed; a refusal loses at most the nonce |
| Executors.Executor.WriteAhead | src/policy/executor.mjs:108-115 | The reservation is in the log before the side effect starts |
| Executors.Executor.Finish | src/policy/executor.mjs:117-141 | The outcome or the error of the side effect, validation, then the guards and the final record; what throws on the way leaves the guards as they are; by `PipelineOutcomes.RecordedAs`, what is recorded is what the side effect did |
| Executors.Executor.RecordResult | src/policy/executor.mjs:138-140 | The guards, then the final record |
| Executors.Executor.RunCall | src/policy/executor.mjs:103-142 | Reservation, side effect and result are the model's steps in that order, on which `ReservedAs` and `RecordedAs` say what is written |
| Executors.Executor.Execute | src/policy/executor.mjs:80-142 | `execute` makes exactly the model's steps, or is refused with the side effect untouched; `AdmittedIff`, `ReservedAs` and `RecordedAs` say what these are |
| Executors.Executor.ReconcileUnknown | src/policy/executor.mjs:149-159 | `reconcileUnknown` makes exactly the model's step, with its four refusals |
| Gates.AllowIff | src/policy/effect-gate.mjs:51-148 | ALLOW exactly when every stage passes within the budget and a valid approval is at hand where one is needed; the verdict is then bound to digest, scope and approval |
| GateLaws.AllowsIff | src/policy/effect-gate.mjs:51-148 | ALLOW written out on the fields of proposal, registry and approvals: shape, registration, every bounded parameter, path, forbidden class, `expires_at` later than now, and the approval where registry or claims ask for one |
| GateLaws.AllowBinds | src/policy/effect-gate.mjs:98-136 | What an ALLOW is bound to: nonce, digest, scope, approval, and the stricter of each registered label and the claim |
| GateLaws.ReasonIff | src/policy/effect-gate.mjs:51-148 | Each refusal exactly when its own check is the first to fail within the step budget: structure, unknown effect, over a bound, path, forbidden, expired, budget spent |
| GateLaws.FirstOverBoundIff | src/policy/effect-gate.mjs:69-77 | REPAIR names the first bounded parameter that is a string longer than its bound, and comes for no other reason |
| GateLaws.ApprovalDecides | src/policy/effect-gate.mjs:112-136 | For a proposal that passes every check the approval alone decides: DEFER without one, DENY with one that does not serve, else ALLOW |
| GateLaws.KindIff | src/policy/effect-gate.mjs:51-148 | Which verdict goes with which reason, and what a refusal leaves out |
| Gates.ClaimsOnlyTighten | src/policy/effect-gate.mjs:98-116 | Effective risk and reversibility are the stricter of the registered and the claimed one, and no claim removes a need for approval that the registry states |
| Gates.SameDigestSameDemands | src/evidence/hashing.mjs:30-32 | Proposals with one digest agree on everything the authority decision reads |
| EffectGates.EffectGate.Evaluate | src/policy/effect-gate.mjs:51-148 | The staged evaluation with its step counter gives the model's verdict, effective externality, reversibility and risk included, and adds exactly the nonce of an ALLOW; `GateLaws.AllowsIff` and `ReasonIff` say which that is |
| EffectGates.EffectGate.TakeClaims | src/policy/effect-gate.mjs:98-116 | The assignments compute the effective values and the need for approval |
| EffectGates.EffectGate.ConsumeAllowNonce | src/policy/effect-gate.mjs:161-165 | True exactly for an issued nonce, which it uses up |
| Approvals.CheckedIsApproved | src/policy/approval.mjs:104-117 | A successful check is an approval that a human gave for exactly this digest and scope, and that the log holds |
| Approvals.ConsumedStays | src/policy/approval.mjs:38-49 | A consumed approval is consumed in every longer log that does not decide its id again |
| Approvals.StoreFromLog | src/policy/approval.mjs:71-97 | Every decision in memory is a line of the log, made by a human |
| Approvals.RequestedIff | src/policy/approval.mjs:56-65 | A request is filed exactly when each of its texts is given, and as it was given |
| Approvals.DecidedAsSaid | src/policy/approval.mjs:71-97 | A decision on file says what the human said: its decision, actor and role, the digest and scope of the request with that id, `now + ttl * 1000`, not consumed; with each refusal |
| Approvals.CheckedIff | src/policy/approval.mjs:104-117 | Which of the six errors is given, on the fields of the decision, and success exactly when none applies |
| Approvals.RejectionStands | src/policy/approval.mjs:71-117 | A REJECTED decision is refused for every digest, scope and time |
| Approvals.ApprovalServesIff | src/policy/approval.mjs:71-125 | An APPROVED one serves exactly for the digest and scope of its request, before its time is up, and once |
| AssuranceStores.AssuranceStore.constructor | src/policy/approval.mjs:27-49 | The reload loop gives the model's replay of the log |
| AssuranceStores.AssuranceStore.Request | src/policy/approval.mjs:56-65 | A valid request is filed and written, anything else changes nothing |
| AssuranceStores.AssuranceStore.Decide | src/policy/approval.mjs:71-97 | Only a known request and a human role give a decision, written before it is returned; the decision is the one that `Approvals.DecidedAsSaid` describes |
| AssuranceStores.AssuranceStore.ValidateForExecution | src/policy/approval.mjs:104-117 | The six checks in order |
| AssuranceStores.AssuranceStore.ConsumeOnce | src/policy/approval.mjs:120-125 | A valid approval is consumed in memory and in the log together |
| EventLog.AppendKeepsShape | src/state/event-store.mjs:61-77 | An append to a valid log gives a valid log: unchanged for a seen key, otherwise longer by one event, numbered one more than the last and the numbers used up since |
| EventLog.AppendIff | src/state/event-store.mjs:61-77 | Type, actor, seen key and writability in this order, each on the event itself: the three refusals, the replay, or one more event with the next number |
| EventLog.RefusedKeepsShape | src/state/event-store.mjs:61-74 | A refused append records nothing, and uses up a number exactly when it gets to an event that JSON cannot write |
| EventLog.KeysAreUnique | src/state/event-store.mjs:61-77 | No two events of a valid log share an idempotency key |
| EventLog.ReplayedIff | src/state/event-store.mjs:64-66 | An append is answered from the log exactly when an event with its key is there |
| EventLog.AppendIsIdempotent | src/state/event-store.mjs:57-77 | Two appends under one key record one event and return it twice |
| EventLog.RestoreOfValid | src/state/event-store.mjs:28-46 | Reloading the events of a valid log gives its three fields back, but for numbers used up since the last event |
| EventLog.ReopenOfValid | src/state/event-store.mjs:28-55 | A reopened log has the same events, plus one recovery event when a torn tail was dropped |
| EventLog.ReopenIsReload | src/state/event-store.mjs:28-46 | With a whole tail, reopening gives the fields themselves if and only if no number was used up since the last event |
| EventStores.EventStore.Load | src/state/event-store.mjs:28-55 | A fragment in the last line is dropped and noted; one anywhere else is refused with its line number |
| EventStores.EventStore.ReadLines | src/state/event-store.mjs:33-46 | The reading loop computes the fields of the whole lines and stops at the first fragment that is not last |
| EventStores.EventStore.Append | src/state/event-store.mjs:61-77 | `append` on the fields and the file is the model's append, refusals and replays included |
| LogFiles.WholesReadBack | src/state/event-store.mjs:28-77 | A file that appends wrote reads back as the records that were appended, with or without a torn tail |
| JsonMeaning.SameTextIff | src/evidence/hashing.mjs:5-17 | Two values get the same canonical text exactly when they show the same tree of data |
| JsonMeaning.SameTextSameData | src/evidence/hashing.mjs:5-17 | For values without lossy parts, the same text means the same data up to the order of object keys |
| JsonMeaning.RoundTripIff | src/evidence/hashing.mjs:5-17 | Canonical text is always readable, and the reader returns all of the data exactly when the value is lossless |
| JsonMeaning.ProtoKeyIsLost | src/evidence/hashing.mjs:11-14 | An own key `__proto__` is not in the text: assigning it calls the accessor |
| JsonMeaning.SortValueOrders | src/evidence/hashing.mjs:9-17 | Sorted values have their keys in property order, all the way down |
| JsonMeaning.FormUnique | src/evidence/hashing.mjs:9-17 | A tree of data has one ordered form |
| JsonReader.PrintedTextReadsBack | src/evidence/hashing.mjs:5-7 | A reader of the grammar of RFC 8259 undoes the printer |
| JsonReader.ReadBack | src/evidence/hashing.mjs:5-7 | Any value's text is read back exactly, whatever follows it |
| Json.SortValueLoop | src/evidence/hashing.mjs:9-17 | The loop that fills `out` computes the recursive sort |
| Hashing.DigestsAgreeIff | src/evidence/hashing.mjs:23-41 | Digests agree exactly when the values show the same data, up to hash collisions |
| Hashing.DigestFixesStrings | src/evidence/hashing.mjs:23-41 | A digest fixes every string field of the object it was taken from |
| Text.LessTransitive | src/evidence/hashing.mjs:13-13 | The string order of `sort` and `<` is transitive |
| Text.LessTotal | src/evidence/hashing.mjs:13-13 | It is total on different strings |
| Sorting.SortAscends | src/policy/scope-engine.mjs:31-31 | Sorting a set of strings lists each once, in ascending order of code units |
| StateMachine.AcceptedIff | src/supervisor/state-machine.mjs:49-72 | A transition is accepted exactly when the table has its row and guards, evidence and authority are there |
| StateMachine.FoundIsAdmitted | src/supervisor/state-machine.mjs:54-70 | What is accepted leads where the row says, with all its conditions |
| StateMachine.TableIsDeterministic | spec/state-machine.json:25-56 | No two rows share a source state and an event |
| StateTable.TableByEvent | spec/state-machine.json:25-56 | The table read by event: from where each event leads where, under which guards, with which evidence and authority, and nothing else |
| StateTable.RefusedByEventIs | src/supervisor/state-machine.mjs:49-72 | Which of the six refusals is given: unknown or terminal state, no row, guards, evidence, authority, in this order |
| StateTable.ProposalIff | src/supervisor/state-machine.mjs:79-91 | A proposal is accepted exactly when its transition is, leads where it says, and is no promotion by anybody but the supervisor |
| StateMachine.WorkersCannotPromote | src/supervisor/state-machine.mjs:79-91 | No accepted worker proposal leads to DONE or to an approved state |
| StateMachine.TerminalIsLast | src/supervisor/state-machine.mjs:51-53 | In any run nothing follows a terminal state |
| StateMachine.RoadToDone | spec/state-machine.json:25-56 | In any run from PLANNED to DONE the steps from the last dispatch on are one of two roads: return and passed review, or return, escalation, human approval and a succeeded external action |
| StateMachine.ReachedReview | spec/state-machine.json:25-56 | A work order under review was dispatched and returned in the two steps before |
| StateMachine.ReachedApproval | spec/state-machine.json:25-56 | An approved external action was escalated and approved by a human before |
| Registry.LogIsAPath | src/supervisor/project-registry.mjs:40-82 | Every registry log is a path in the machine, and the folded status is where the path ends |
| Registry.DoneByTheRoad | src/supervisor/project-registry.mjs:66-82 | A project that is DONE got there on one of the two roads |
| Registry.TerminalNeverChanges | src/supervisor/project-registry.mjs:66-94 | Whatever is called after a terminal state, across restarts, the status stays |
| Registry.StaysReadableIff | src/supervisor/project-registry.mjs:24-94 | After every run the project can be read if and only if no registration, activation or accepted transition in its log carries an empty or non-string project name, work order, branch, blocker or next action |
| Registry.RegisterReadableIff | src/supervisor/project-registry.mjs:24-37 | Registering leaves a readable state exactly when the name is not empty and work order and branch are absent or non-empty strings |
| Registry.ActivateReadableIff | src/supervisor/project-registry.mjs:84-94 | An activation that is logged leaves a readable state exactly when its id is absent or a non-empty string |
| Registry.TransitionReadableIff | src/supervisor/project-registry.mjs:50-82 | A transition that is logged leaves a readable state exactly when its blocker and next action are absent or non-empty strings |
| Registry.UnreadableIsForGood | src/supervisor/project-registry.mjs:40-94 | Once the state cannot be read, no call changes the log any more |
| RegistryLaws.WorkOrderStays | src/supervisor/project-registry.mjs:66-94 | In every run a project keeps its work order for as long as it is open |
| RegistryLaws.ActivatedIff | src/supervisor/project-registry.mjs:84-94 | A work order is activated exactly for a project on file whose own work order is missing, the same, or closed by DONE, FAIL or CANCELLED; otherwise nothing changes |
| RegistryLaws.ActivateIs | src/supervisor/project-registry.mjs:40-94 | It becomes the work order, and nothing else of the project but the time changes |
| RegistryLaws.RegisterIs | src/supervisor/project-registry.mjs:24-60 | A new project is PLANNED, on the branch given or on main, with the work order given, no blocker and no next action |
| RegistryLaws.TransitionIs | src/supervisor/project-registry.mjs:40-82 | An accepted transition sets the status of its row, the blocker of the evidence and the next action of the request, and leaves project, work order and branch alone |
| RegistryLaws.TransitionRefused | src/supervisor/project-registry.mjs:66-82 | What is refused changes nothing and is answered with the first reason |
| ProjectRegistries.ProjectRegistry.constructor | src/supervisor/project-registry.mjs:11-22 | Opening a project's directory reloads its log |
| ProjectRegistries.ProjectRegistry.State | src/supervisor/project-registry.mjs:40-60 | The fold of the reducer over the log, then validation |
| ProjectRegistries.ProjectRegistry.Register | src/supervisor/project-registry.mjs:24-37 | Registering appends and writes the snapshot of what the log then says |
| ProjectRegistries.ProjectRegistry.Transition | src/supervisor/project-registry.mjs:66-82 | A transition is logged exactly when the machine accepts it from the folded state |
| ProjectRegistries.ProjectRegistry.ActivateWorkOrder | src/supervisor/project-registry.mjs:84-94 | Another work order is refused while one is active in a state that is not terminal |
| Leases.TokensStrictlyIncrease | src/supervisor/lease-manager.mjs:35-74 | Tokens handed out grow strictly over every run, restarts included |
| Leases.OnlyTheLastGrantPasses | src/supervisor/lease-manager.mjs:88-97 | A token passes the fencing check of a key only while it is the key's last grant, unreleased and unexpired; superseded tokens never pass again |
| Leases.GrantsAreSeparated | src/supervisor/lease-manager.mjs:52-86 | With named holders, or with a clock that never goes back whoever the holders are, any two grants on one key are separated by a release of the first or by a grant made after it had expired |
| Leases.RecoversIff | src/supervisor/lease-manager.mjs:35-86 | A reload of the log gives the live map in every run if and only if each lease is asked for in a name that the log accepts, a non-empty string |
| Leases.SeparatesIff | src/supervisor/lease-manager.mjs:52-74 | Grants are separated in every run if and only if each lease is asked for in such a name or the clock never goes back |
| Leases.OnwardFindsFree | src/supervisor/lease-manager.mjs:52-74 | With such a clock each grant found its key free or its lease expired, holders that the log refuses, crashes and restarts included |
| Leases.NamelessHolderIsNotLogged | src/supervisor/lease-manager.mjs:71-72 | With a holder that is no non-empty string the lease is in memory and not in the log |
| LeaseLaws.OnlyTheHolderReleases | src/supervisor/lease-manager.mjs:77-86 | At any time of any run, whoever releases with a token that was handed out was handed it himself, for that key, and nobody after him |
| LeaseLaws.AcquiredIff | src/supervisor/lease-manager.mjs:52-74 | A lease is granted exactly on a key that is free, given back or expired, to a named holder, with the next token and the manager's time to live; no other lease changes |
| LeaseLaws.ReleasedIff | src/supervisor/lease-manager.mjs:77-86 | A release goes through exactly for the holder of the lease with its token, and removes that lease only; the two refusals told apart |
| LeaseLaws.CurrentIff | src/supervisor/lease-manager.mjs:89-97 | The fencing check passes exactly for the token of a lease neither given back nor expired; the three refusals told apart |
| LeaseManagers.LeaseManager.constructor | src/supervisor/lease-manager.mjs:25-45 | The recovery loop computes the model's recovery |
| LeaseManagers.LeaseManager.Acquire | src/supervisor/lease-manager.mjs:52-74 | `acquire` is the model's step; a held key changes nothing |
| LeaseManagers.LeaseManager.Release | src/supervisor/lease-manager.mjs:77-86 | `release` is the model's step, for the current holder and token only |
| LeaseManagers.LeaseManager.AssertCurrent | src/supervisor/lease-manager.mjs:89-97 | The fencing check, with its three refusals |
| LeaseManagers.LeaseManager.ActiveLease | src/supervisor/lease-manager.mjs:99-104 | The lease returned is the one whose token passes the fencing check, and null means that none passes |
| Dispatching.DispatchedIff | src/supervisor/dispatcher.mjs:34-74 | A packet is handed out exactly when scope, work order, state, hash and budget guards pass, the lease is free and the actor is a non-empty string |
| Dispatching.RefusedChangesIff | src/supervisor/dispatcher.mjs:34-74 | A refused dispatch changes leases or log if and only if it passed every guard, found the lease free and had an actor that is no non-empty string |
| Dispatching.DispatchTakes | src/supervisor/dispatcher.mjs:64-95 | A dispatch takes exactly its own lease and writes lease and packet to the log, in that order |
| DispatchLaws.HandedOutIff | src/supervisor/dispatcher.mjs:34-74 | The same written out: the verdict and project of the decision, the worker among its roles, the state that the class of worker works in, the digest that was scheduled, the budget, and the lease on the key |
| DispatchLaws.RefusalIs | src/supervisor/dispatcher.mjs:34-74 | The first of these that fails is the error |
| DispatchLaws.PacketIs | src/supervisor/dispatcher.mjs:63-95 | Project, work order, hash, class, lease key and token of the packet, and that the lease behind it is the actor's from now for the time to live |
| DispatchLaws.LogKeysDifferIff | src/supervisor/dispatcher.mjs:90-94 | Two dispatches under one lease key have the same idempotency key exactly when their tokens are equal |
| Dispatching.DispatchesAreSeparated | src/supervisor/dispatcher.mjs:34-96 | Two packets for one lease key are separated, in any run with named actors or with a clock that never goes back, by a release or an expiry of the first lease |
| Dispatching.RunIsLeaseRun | src/supervisor/dispatcher.mjs:34-96 | A run of dispatches is a run of the lease manager, and packet tokens ascend |
| Dispatchers.Dispatcher.Check | src/supervisor/dispatcher.mjs:35-61 | The guards in their order |
| Dispatchers.Dispatcher.Dispatch | src/supervisor/dispatcher.mjs:34-96 | `dispatch` is the model's dispatch on the lease manager and its event store |
| MemoryLineage.ClosureIsExact | src/memory/store.mjs:254-268 | On any lineage graph, cycles included, the closure ends and lists each record reachable from the source once, and nothing else |
| MemoryRevocation.RevocationIsExact | src/memory/store.mjs:270-305 | After a revocation every reachable record is void and marked, every other record is unchanged, and the ids returned are those that were not void before |
| MemoryRevocation.RevocationRefusedIff | src/memory/store.mjs:270-283 | A revocation is refused, with nothing changed, exactly when the source is unknown or the caller's expectation of the closure or a record check fails |
| MemoryRevocation.SameListing | src/memory/store.mjs:274-279 | The comparison of sorted id lists accepts exactly the lists that name each record of the closure once |
| MemoryReplacement.ReplacementFalls | src/memory/store.mjs:147-305 | A replacement made without lineage falls with its original: once the old record is revoked, after any run, crashes included, the replacement and everything derived from it is void and marked, for good |
| MemoryReplacement.OwnLineageFallsIff | src/memory/store.mjs:147-305 | One made with a lineage of its own falls exactly when a record it names is the old one or derived from it, or when it had been revoked; otherwise it stays as it is |
| MemoryReplacement.RevocationStrips | src/memory/store.mjs:270-293 | After a revocation exactly the records derived from its source, and those revoked before, are void; all others are unchanged |
| MemoryWrites.ReplacementIs | src/memory/store.mjs:147-157 | A replacement supersedes the old record, is derived from it unless a lineage is given, which is taken as it is, has the conflicts given or none, every other field of its input, and changes no other record |
| MemoryWrites.ReplacementIff | src/memory/store.mjs:147-157 | It succeeds exactly for an old record on file and an input that could be appended |
| MemoryWrites.AppendIff | src/memory/store.mjs:89-117 | An append succeeds exactly for a memory kind, non-empty texts, a retention class and no forbidden use, and files the record without revocation flags; otherwise nothing changes |
| MemoryWrites.AppendRefusal | src/memory/store.mjs:89-117 | The error, with the assurance kinds and the forbidden uses spelled out |
| MemoryWrites.ConflictIs | src/memory/store.mjs:160-181 | A conflict adds each side to the conflicts of the other, changes no other record, and files a note without authority derived from both |
| MemoryWrites.ConsolidatedIs | src/memory/store.mjs:189-231 | A summary field by field: class, uses, confidence, conflicts, audiences and versions from the sources, the rest from the options or the defaults; void and marked exactly when a source was revoked |
| MemoryWrites.ConsolidatedIff | src/memory/store.mjs:189-231 | Consolidation succeeds exactly for sources on file, content, and a kind, retention and common uses that an append admits |
| MemoryWrites.DerivedIs | src/memory/store.mjs:238-246 | A procedure is such a summary of kind procedural with the steps given |
| MemoryWrites.DerivedIff | src/memory/store.mjs:238-246 | It succeeds exactly when the summary could be made and the steps are a list that is not empty |
| MemoryWrites.DeletedIs | src/memory/store.mjs:312-318 | A deletion blanks the content and marks the record, and leaves all else |
| MemoryWrites.RevocationNoteIs | src/memory/store.mjs:294-305 | The note of a revocation: its text, project, retention and source |
| MemoryWrites.JoinedIs | src/memory/store.mjs:297-297 | The list of ids in that note |
| MemoryWrites.LoadedIs | src/memory/store.mjs:42-77 | A log of whole lines is taken as it is; behind a torn line comes a note without authority, sources or project |
| MemoryWrites.FoldedIs | src/memory/store.mjs:44-54 | After loading, the record under an id is the last line about it |
| MemoryAuthority.SummaryIsCapped | src/memory/store.mjs:189-224 | A consolidated record has at most the class of each source and only uses that each source has |
| MemoryAuthority.SummaryIsTight | src/memory/store.mjs:195-203 | The class is one of the sources' classes, and a use that all sources admit is kept |
| MemoryAuthority.ConflictIsThreeWrites | src/memory/store.mjs:161-181 | A completed conflict has the effect of three writes: the marker and both linked records |
| MemoryTheorems.AuthorityNeverGrows | src/memory/store.mjs:89-330 | In every run with fresh ids, with crashes between any two writes, in which no crash inside a revocation does harm as `CutSoundIff` states it, each record made by consolidation or derivation is capped by each of its sources, which all exist |
| MemoryTheorems.AncestorsBound | src/memory/store.mjs:189-246 | The cap reaches through any number of derivations |
| MemoryTheorems.RevokedForGood | src/memory/store.mjs:270-330 | A void record stays void whatever follows, interrupted revocations included |
| MemoryTheorems.NothingIsMinted | src/memory/store.mjs:89-117 | In every run no record is of an assurance kind or names a use that would permit an execution |
| MemoryTheorems.InterruptedHolds | src/memory/store.mjs:284-293 | A crash in the middle of a revocation leaves only records below its source above their cap |
| MemoryTheorems.RetryCompletes | src/memory/store.mjs:270-305 | Revoking the same source again after such a crash restores every cap and voids everything that was below the source |
| MemoryTheorems.CutSoundIff | src/memory/store.mjs:270-305 | After a crash at any point of a revocation, behind any number of its lines, torn or not, refused and complete ones included, every cap holds if and only if no record made by derivation that has authority and was not voided has a source among the records voided so far, all told from the state before and the number of lines |
| MemoryTheorems.StepHoldsIff | src/memory/store.mjs:89-330 | Any step, crashes included, keeps all invariants and caps if and only if it is not such a harmful crash |
| MemoryCuts.PartVoids | src/memory/store.mjs:284-305 | Whatever prefix of the lines of a revocation is in the log, reading it back voids just the first records of the closure that were not void yet, one for each line |
| MemoryCuts.VoidedCappedIff | src/memory/store.mjs:189-224 | Once any set of records is voided, every cap holds if and only if nothing that was made from them is left over with authority |
| MemoryInterruption.InterruptedRevocationBreaksCap | src/memory/store.mjs:286-293 | A concrete store in which such a crash leaves a derived record above its cap |
| MemoryInterruption.LaterLinesBreakCapToo | src/memory/store.mjs:286-293 | A chain of three records in which a crash behind the second line does harm, and a crash behind any other number of lines does not |
| MemoryAgreement.AgreementIff | src/memory/store.mjs:42-330 | After a completed operation the records are the last-write-wins fold of the log if and only if the operation neither re-revoked a record whose authority was revoked unflagged, nor derived a procedure with steps that are given and are no non-empty array |
| MemoryAgreement.RevokeExactIff | src/memory/store.mjs:284-291 | Revocation keeps memory and log equal if and only if it does not set the flag of a source that is void already |
| MemoryAgreement.DeriveExactIff | src/memory/store.mjs:238-246 | Derivation does if and only if the steps are a non-empty array or left out |
| MemoryAgreement.RunsAgree | src/memory/store.mjs:42-83 | Over whole runs without such an operation memory equals the fold of the log, reloads behind a quarantined torn line included |
| MemoryAgreement.DriftIsSmall | src/memory/store.mjs:238-293 | With such operations memory and log still differ in nothing but the `revoked` flag and the steps |
| MemoryStores.SweepIsExact | src/memory/store.mjs:312-330 | A retention sweep empties exactly the records of its class |
| MemoryStores.MemoryStore.Load | src/memory/store.mjs:42-77 | A fragment in the last line is dropped and noted; one anywhere else is refused with its line number |
| MemoryStores.MemoryStore.ReadLines | src/memory/store.mjs:44-54 | The reading loop files the whole lines and stops at the first fragment that is not last |
| MemoryStores.MemoryStore.Append | src/memory/store.mjs:89-117 | `append` is the model's append, with its refusals |
| MemoryStores.MemoryStore.Supersede | src/memory/store.mjs:147-158 | `supersede` is the model's, defaults of the lineage included; the record is the one that `MemoryWrites.ReplacementIs` describes |
| MemoryStores.MemoryStore.Conflict | src/memory/store.mjs:161-181 | `conflict` links both records in memory first and writes them last |
| MemoryStores.MemoryStore.Lookup | src/memory/store.mjs:190-194 | The sources in order, or the first missing id |
| MemoryStores.MemoryStore.Reduce | src/memory/store.mjs:195-221 | The reductions over the sources give weakest class, common uses and common visibility |
| MemoryStores.MemoryStore.Consolidate | src/memory/store.mjs:189-231 | `consolidate` is the model's, the second write for revoked sources included |
| MemoryStores.MemoryStore.DeriveProcedure | src/memory/store.mjs:238-246 | `deriveProcedure` sets the steps in memory before it validates and writes |
| MemoryStores.MemoryStore.Visit | src/memory/store.mjs:256-265 | The depth-first walk with its list and its seen set |
| MemoryStores.MemoryStore.DescendantClosure | src/memory/store.mjs:254-268 | The closure, or a refusal for an unknown source |
| MemoryStores.MemoryStore.RevokeSourceAuthority | src/memory/store.mjs:270-305 | `revokeSourceAuthority` is the model's |
| MemoryStores.MemoryStore.VoidEach | src/memory/store.mjs:286-293 | The revocation loop writes one line for each record that was not void |
| MemoryStores.MemoryStore.DeleteRecord | src/memory/store.mjs:312-318 | Deletion writes a tombstone and keeps authority and lineage |
| MemoryStores.MemoryStore.ApplyRetention | src/memory/store.mjs:321-330 | The sweep and the set of ids it removed |
| FactoryRuns.AdmittedIff | src/memory/consolidation.mjs:18-50 | A proposal is admitted exactly when it names some of the factory's records, each once, none deleted or revoked, asks for the confidence they warrant, and for no visibility or use that one of them lacks |
| FactoryRuns.ConsolidationRefines | src/memory/factory.mjs:44-53 | A factory consolidation changes nothing, or is the store's own with visibility and versions taken from the sources |
| FactoryRuns.DerivationRefines | src/memory/factory.mjs:55-69 | Likewise for a procedure |
| FactoryRuns.FactoryRevokesIff | src/memory/factory.mjs:71-85 | A factory revocation goes ahead if and only if the source is known and everything below it is the factory's; it then decides every record, otherwise it changes nothing |
| FactoryRuns.VersionsAreTheRoots | src/memory/factory.mjs:134-136 | In every run the versions of a factory-built record are exactly those of the records it ultimately descends from |
| FactoryRuns.ConfidenceIsTheRoots | src/memory/consolidation.mjs:33-36 | It is verified exactly when all of them are, and contradicted exactly when one of them is |
| FactoryRuns.RetrievalCoversTheRoots | src/memory/factory.mjs:23-42 | A scope that retrieves it covers every version of, and shares an audience with, every one of them |
| FactoryLaws.RetrievedIff | src/memory/factory.mjs:23-42 | A retrieval hands out exactly the records of the project, of a kind in scope, with all versions in scope and an audience in scope, not deleted, that the ranking picks; and each refusal |
| FactoryLaws.IngestedIff | src/memory/factory.mjs:17-21 | A record is taken in exactly when it is the project's, states a version that is a trimmed line, and could be appended |
| FactoryLaws.RulingIs | src/memory/consolidation.mjs:18-50 | Each of the three gates objects exactly when its own condition fails |
| FactoryLaws.FetchedIff | src/memory/factory.mjs:113-127 | Sources are fetched when all are on file, of the project and with proper versions; otherwise the first that is not decides the error |
| FactoryLaws.FactoryConsolidatedIff | src/memory/factory.mjs:44-53 | An admitted proposal is filed exactly when its content, kind, retention and common uses are ones that an append admits |
| FactoryLaws.FactoryDerivedIff | src/memory/factory.mjs:55-69 | The same of a derivation, with steps that are a list and not empty |
| FactoryLaws.FactoryConsolidated | src/memory/factory.mjs:44-53 | What a consolidation files: of the project, seen by exactly those who see all sources, speaking for exactly the versions that one of them speaks for, with their weakest authority and joint confidence |
| FactoryLaws.FactoryDerived | src/memory/factory.mjs:55-69 | The same of a derivation, with the steps given |
| FactoryLaws.UnaskedDerivationIff | src/memory/factory.mjs:55-69 | A procedure that asks for nothing is let through exactly when its sources are in order and share no nameless audience or use |
| FactoryLaws.FactoryRevokedIs | src/memory/factory.mjs:71-85 | A revocation answers with exactly what it voided, or which of the two refusals it is |
| MemoryProvenance.RootsDecide | src/memory/store.mjs:199-224 | At any depth of derivation a built record has a mark exactly when one of its roots has it |
| MemoryProvenance.SummaryInherits | src/memory/store.mjs:204-224 | A summary has a mark exactly when one of its sources has it |
| MemoryProvenance.StaysDrawn | src/memory/store.mjs:89-330 | Nothing that happens later changes what a built record is drawn from |
| MemoryFactories.CheckConsolidation | src/memory/consolidation.mjs:18-50 | The three gates and the computed effective values |
| MemoryFactories.MemoryFactory.Ingest | src/memory/factory.mjs:17-21 | Only records of the project with a proper source version reach the store |
| MemoryFactories.MemoryFactory.Fetch | src/memory/factory.mjs:113-127 | The sources in order, or the first that is unknown, foreign or without proper versions |
| MemoryFactories.MemoryFactory.Consolidate | src/memory/factory.mjs:44-53 | `consolidate` is the model's |
| MemoryFactories.MemoryFactory.DeriveProcedure | src/memory/factory.mjs:55-69 | `deriveProcedure` is the model's, defaults included |
| MemoryFactories.MemoryFactory.RevokeAuthority | src/memory/factory.mjs:71-85 | `revokeAuthority` is the model's |
| MemoryFactories.MemoryFactory.Retrieve | src/memory/factory.mjs:23-42 | `retrieve` is the model's filter |
| Timestamps.ParseIsoIff | src/policy/scope-engine.mjs:69-85 | A text parses to an instant exactly when it is the format of a stamp whose date and clock time exist and that stands for the instant |
| Timestamps.ScanIff | src/policy/scope-engine.mjs:24-24 | The pattern accepts exactly the formats of grammatical stamps, and the captured fields are theirs |
| Timestamps.ShowsIff | src/policy/scope-engine.mjs:75-80 | The `Date` shows what was put in exactly when the month has the day |
| Timestamps.FormatInjective | src/policy/scope-engine.mjs:24-24 | No two stamps are written alike |
| Calendar.RollOverIff | src/policy/scope-engine.mjs:75-80 | A date comes back from its day number exactly when its month has that day |
| Calendar.DayNumbersCount | src/policy/scope-engine.mjs:75-77 | Day numbers count the days of the Gregorian calendar from 1 January 1970 |
| Calendar.DayNumberInjective | src/policy/scope-engine.mjs:75-77 | Different days have different numbers |
| TimestampChoice.SelectIff | src/policy/scope-engine.mjs:87-91 | The selected text is the one listed text that no other exceeds, by instant and then by spelling |
| TimestampChoice.SelectIsOfTheSet | src/policy/scope-engine.mjs:87-91 | Order and repetition of the list do not matter |
| TimestampChoice.SelectIsOfTheInstants | src/policy/scope-engine.mjs:87-91 | Nor does the spelling of offsets: lists with the same instants give the same, extreme instant |
| TimestampChoice.BestIsSelected | src/policy/scope-engine.mjs:87-91 | Selecting among timestamps that carry their instants gives what parsing the texts again gives |
| Globs.GlobIff | src/policy/scope-engine.mjs:216-228 | The backtracking matcher accepts exactly when the path's segments can be shared out, none or many to each `**` and one that fits to every other part |
| Globs.SegmentIff | src/policy/scope-engine.mjs:224-225 | A part fits a segment exactly when its units can be shared out, any to each `*`, one to each `?`, and every other its own |
| Globs.SubtreeIff | src/policy/scope-engine.mjs:216-228 | A literal path followed by `/**` matches exactly the paths at or under it |
| Globs.VisitIsWild | src/policy/scope-engine.mjs:219-227 | The indexed recursion computes the match of the remaining parts |
| Paths.RequestPathIff | src/policy/scope-engine.mjs:230-236 | A request path is accepted exactly when it is relative text that neither leads above the repository nor comes down to its bare root without a trailing slash |
| Paths.ExcludedIff | src/policy/scope-engine.mjs:230-252 | An exclude of everything under a literal path matches exactly the request paths that lead to it or below, however spelled |
| Paths.SpellingDoesNotMatter | src/policy/scope-engine.mjs:233-233 | Dot segments, empty segments and steps into a directory and out again leave no trace |
| Paths.NormalizeIsIdempotent | src/policy/scope-engine.mjs:233-233 | Normalising again changes nothing |
| Paths.DotPartAcceptedIff | src/policy/scope-engine.mjs:23-23 | A pattern with a `.` or `..` part is accepted if and only if it passes the other checks and each such part comes after a part with U+2028 or U+2029; without such parts the other checks decide |
| Paths.NoSeparatorNoDotPart | src/policy/scope-engine.mjs:23-23 | An accepted pattern without these two characters has no `.` or `..` part |
| Paths.SeesIff | src/policy/scope-engine.mjs:23-23 | The look-ahead of the pattern, over characters, sees exactly the dot parts with no separator in a part before them |
| Paths.HiddenStepUp | src/policy/scope-engine.mjs:23-23 | A concrete accepted pattern with a `..` part |
| Paths.HiddenDotPartNeverMatches | src/policy/scope-engine.mjs:216-236 | No accepted request path matches an accepted pattern with a `.` or `..` part |
| Paths.StepUpNeverMatches | src/policy/scope-engine.mjs:216-236 | No accepted request path matches a pattern with a `..` part |
| ScopeNormal.FaultIff | src/policy/scope-engine.mjs:105-152 | The checks in their order find no fault exactly in a contract with nothing unknown and every field as a sound contract has it |
| ScopeFaults.ReportedIff | src/policy/scope-engine.mjs:105-152 | Of everything that is wrong with a contract, each item with its own condition, the one that comes first in the order of the checks is reported; the contract is accepted exactly when nothing is wrong |
| ScopeNormal.NormalizeAgainIff | src/policy/scope-engine.mjs:105-152 | A sound contract handed in again, in any list order, is accepted and comes out unchanged if and only if its bounds are a plain object, and is otherwise refused for them |
| ScopeNormal.AcceptedAgainIff | src/policy/scope-engine.mjs:118-125 | What normalisation returned is accepted a second time if and only if no bound was named `__proto__` |
| ScopeNormal.NormalizedIsSound | src/policy/scope-engine.mjs:105-152 | Whatever is accepted is sound, with the instants of its own texts |
| ScopeNormal.BoundsKeptIff | src/policy/scope-engine.mjs:118-125 | Normalisation keeps every bound if and only if none is named `__proto__`, and what it keeps is unchanged |
| ScopeNormal.AnyCanLoseABound | src/policy/scope-engine.mjs:118-125 | Every acceptable contract loses a bound once one of that name is added |
| ScopeMessages.SaysLineIff | src/policy/scope-engine.mjs:33-67 | The message of a fault is a trimmed single line unless it quotes an unknown field that is empty, has a line break or ends in white space |
| ScopeMessages.UnknownReported | src/policy/scope-engine.mjs:37-41 | The unknown field that is quoted is the first of the contract, of one of its bounds or of its budgets |
| ScopeLattice.MeetIsGreatest | src/policy/scope-engine.mjs:173-214 | Whatever sound contract is below all inputs on the restrictive dimensions is below the intersection, which then exists |
| ScopeLattice.MeetIsBelow | src/policy/scope-engine.mjs:173-214 | The intersection is below each input |
| ScopeLattice.MeetIsSound | src/policy/scope-engine.mjs:173-214 | The intersection is a sound contract |
| ScopeLattice.MeetExistsIff | src/policy/scope-engine.mjs:173-214 | The intersection is refused exactly when no sound contract is below all inputs |
| ScopeLaws.MeetOfTheSet | src/policy/scope-engine.mjs:173-214 | The intersection, or the reason of its refusal, depends on the set of its inputs alone, spelling of timestamps and labels included |
| ScopeLaws.MeetOfGroups | src/policy/scope-engine.mjs:173-214 | Intersecting some inputs first and the rest with the result gives the same contract, or the same refusal with the same reason |
| ScopeLaws.RefusalStays | src/policy/scope-engine.mjs:173-214 | What some inputs refuse, more inputs do not allow |
| ScopeLaws.BelowTransitive | src/policy/scope-engine.mjs:173-214 | Being below is transitive |
| ScopeLaws.BelowAntisymmetric | src/policy/scope-engine.mjs:173-214 | Contracts below each other agree on every restrictive dimension |
| ScopeLaws.LabelsAreStrictest | src/policy/scope-engine.mjs:207-210 | Labels take the strictest value of all inputs, and the versions are all of theirs |
| ScopeLaws.DecisionOfTheSet | src/policy/scope-engine.mjs:173-214 | The decision depends on the set of raw inputs alone, but for ALLOW or NARROW by their number and for which of several faulty inputs is reported |
| ScopeLaws.DecisionOfGroups | src/policy/scope-engine.mjs:173-214 | Handing in the effective contract of some raw inputs in their place gives the same decision, digest and refusals included, but for ALLOW or NARROW by number |
| ScopeLaws.OneMeetsItself | src/policy/scope-engine.mjs:173-214 | A sound contract alone is its own intersection |
| ScopeLaws.AllowedAgainIff | src/policy/scope-engine.mjs:118-125 | An accepted contract alone is allowed; handed in again as normalisation returned it, it is allowed if and only if no bound was named `__proto__`, and otherwise refused |
| ScopeRequests.AllowIff | src/policy/scope-engine.mjs:238-259 | A request is allowed exactly when the decision is valid, has a contract, and the contract permits the request on every dimension |
| ScopeAnswers.AllowedIff | src/policy/scope-engine.mjs:238-259 | The same with the five names and the path written out: role, tool, memory kind, capability and target each in the contract's own list, the normalised path included and not excluded |
| ScopeAnswers.ViolationsAre | src/policy/scope-engine.mjs:238-259 | Each violation is listed exactly when its own test fails, and nothing else is |
| ScopeAnswers.ObjectionIs | src/policy/scope-engine.mjs:243-248 | What is wrong first with a request is what is reported |
| ScopeAnswers.DecisionObjectionIs | src/policy/scope-engine.mjs:156-171 | What is held against a decision: reasons, then verdict, then contract, then digest |
| ScopeAnswers.MeetRefusedIs | src/policy/scope-engine.mjs:173-206 | Each reason of a refused intersection exactly when its test is the first to fail: one project, a common item on each list, bounds that meet, an open window; with the dimensions it names |
| ScopeAnswers.MeetIs | src/policy/scope-engine.mjs:183-210 | The intersection dimension by dimension: items on every list, excludes and versions of any, greatest minimum and least maximum, least budgets and occurrences, latest start and earliest end, strictest labels |
| ScopeAnswers.IntersectIs | src/policy/scope-engine.mjs:173-214 | The decision: put off without contracts, refused for the first fault or by the meet, else allowed, or narrowed when there are several |
| ScopeRequests.AllowedByAll | src/policy/scope-engine.mjs:173-259 | What the intersection allows, every single input permits |
| ScopeRequests.ExcludedByAny | src/policy/scope-engine.mjs:192-252 | A literal subtree excluded by any input stays out, however the request spells its path |
| ScopeRequests.NarrowerPermitsLess | src/policy/scope-engine.mjs:238-259 | A narrower contract permits nothing more |
| ScopeRequests.IntersectionValidIff | src/policy/scope-engine.mjs:156-214 | A decision of `intersectScopes` passes the runtime check if and only if it does not refuse an input for an unknown field that is empty, has a line break or ends in white space |
| ScopeRequests.BadFieldFails | src/policy/scope-engine.mjs:173-180 | The empty field name and a name that ends in a line break are such inputs |
| ScopeRequests.EvaluationValidIff | src/policy/scope-engine.mjs:238-259 | What an evaluation returns passes the runtime check if and only if it does not refuse a request for such an unknown field |
| ScopeRequests.ValidDecisionIff | src/policy/scope-engine.mjs:156-171 | A decision passes exactly when its reasons are trimmed single lines, the verdict fits, and the digest is that of its contract, which is sound with plain bounds |
| ScopeRequests.EarlierRequestsLeaveNoTrace | src/policy/scope-engine.mjs:238-259 | Evaluating a decision that another request left behind gives the same outcome as evaluating the decision itself |
| ScopeRequests.DigestBindsContract | src/policy/scope-engine.mjs:165-170 | A decision whose contract was exchanged under its digest is refused |
| ScopeText.ScopeDigestsAgreeIff | src/policy/scope-engine.mjs:154-154 | Digests of the canonical JSON texts of two contracts agree if and only if the contracts are the same, however numbers are printed, as long as no two of theirs are printed alike |
| ScopeText.SomePrinter | src/policy/scope-engine.mjs:154-154 | Any numbers can be printed so |
| ScopeText.ExchangedIsValidIff | src/policy/scope-engine.mjs:156-171 | Exchange the contract of a valid decision under its digest: the decision stays valid if and only if the other contract is sound with plain bounds and its canonical text has that digest |
| ScopeEngine.NormalizeScopeContract | src/policy/scope-engine.mjs:105-152 | The field-by-field checks and loops compute the normalised contract, or the first fault in their order |
| ScopeEngine.NormalizeBounds | src/policy/scope-engine.mjs:118-125 | The loop over the sorted names computes the bounds and what becomes of their prototype, or stops at the first faulty name |
| ScopeEngine.IntersectScopes | src/policy/scope-engine.mjs:173-214 | `intersectScopes` computes the model's decision, with its reason |
| ScopeEngine.IntersectSets | src/policy/scope-engine.mjs:183-189 | The loop over the set fields computes what is left of each and which are empty |
| ScopeEngine.IntersectBounds | src/policy/scope-engine.mjs:194-202 | The loop over the sorted parameter names computes the common bounds, or stops at the first that is missing or empty and names it |
| ScopeEngine.IntersectContracts | src/policy/scope-engine.mjs:180-214 | The dimensions in order, with their refusals |

## Left out

- Executors.Executor.ReconcileUnknown: the refusals are told apart by kind; message texts are not modelled, here and wherever `ScopeMessages` does not spell them out.
- ScopeMessages.SaysLine: only messages that quote an unknown field are spelled out; of the others, fixed words around names and values, just the quoted parts are kept.
- ScopeNormal.Raw: a value of the wrong type is told apart from a wrong value of the right type only where the messages differ; holes in lists, accessors and symbols as keys do not occur.
- FactoryRuns.FactoryRevokesIff: a closure with a foreign record and one with a record without proper versions are refused with one error.
- EffectGates.EffectGate.Evaluate: membership of the forbidden class in the published list is not checked, as both branches deny.
- MemoryTheorems.AuthorityNeverGrows: excludes the crashes inside a revocation that do harm, for which it is false: those that leave a record made by derivation, with authority other than none and not voided, below a record voided so far (`CutSoundIff`, `InterruptedRevocationBreaksCap`); `RetryCompletes` says what restores it.
- Registry.StaysReadableIff: values that JSON gives back as others, such as NaN or a function, are not modelled; they would make the state unreadable until the next restart only.
- Sorted lists free of duplicates are sets: contract lists, versions, visibility, uses, conflicts. `ScopeNormal.Listed` and `ScopeText.JsonOf` write them out in order.
- Numbers in JSON are the numerals the platform prints; bounds and budgets of contracts are reals, so rounding and negative zero do not appear.
- Strings are sequences of Unicode characters compared by UTF-16 code units; lone surrogates do not occur.
- The ranking in src/memory/retrieval.mjs is a parameter that picks among the records left by the filters: order, scores and the limit are not modelled.
- Qualifiers that `fetch` adds to a record (superseded, unresolved conflicts) are computed from the store and change nothing.
- Timestamps and free-text fields that nothing reads back (created_at, consumed_at, provenance references, packet copies of work-order fields) are dropped, as is the event checksum event_sha256.
- Aliasing between stored events or records, live objects and those of callers: values are copied. A lease set to released in memory is removed in the same call.
- The registry keeps one project; several projects are several instances of it.
- A lease manager without a store, several processes or several stores on one directory: the code assumes one writer and a store.
- File system calls and the rename of a rewritten log are single steps.
- The range error of `toISOString` for instants beyond the platform's range (8.64e15 milliseconds from 1970), which the conditions above exclude; it would end an operation where the instant is written, in `execute` at src/policy/executor.mjs:133.
- Values that are not JSON data inside records and events: `MemoryAgreement.AgreementIff` takes steps, and `Registry.StaysReadableIff` the fields of a project, to be undefined or what a JSON text can say. `EventLog.RefusedKeepsShape` covers the events that cannot be written at all.
- A lease holder that is NaN, which does not equal itself; two other holders that are no strings are told apart by a tag.
- Events that other programs write into the executor's log under its idempotency keys.
- src/policy/permissions.mjs, the field validators of src/schemas/schemas.mjs and src/workers/contracts.mjs, the evidence ledger, routing, provider waits, preflight and skills lock: tables, checks and small lookups that would only add easy members.
- Projection building, installer, bootstrap, schema export, command line, demo and hooks: input, output and configuration.

# Verification of operaia-lab

A Dafny model of the parts of operaia-lab that keep state or promise something over an unbounded input, and the
properties proved of it. `dafny verify dfyconfig.toml` checks everything.

- **Texts** (`texts`, `text_meaning`, `folding`, `patterns`). Trimming, joining, sorting, lower-casing and matching, each with
  what it means for the units of a text.
- **Domain signals** (`json`, `json_paths`, `stringify`, `printed_form`, `json_lexing`, `redact`, `redacted_places`,
  `signal_hash`, `signal_ledger`, `signal_service`, `ingest_terms`, `signal_runs`, `ingest_gate`, `ingest_protocol`,
  `split_insert`). `stableStringify` is paired with a parser, so that its
  text is a canonical form of a JSON value. Redaction and the text that is hashed for similarity are characterised by an
  equivalence of payloads. The service is a class over an in-memory store; each call is also a function on the store, any
  sequence of calls a run of these, and the lifecycle and isolation claims are about all such runs. Concurrent `ingest`
  calls are a step machine over arbitrary schedules, once with an atomic insert and once with the insert split in two.
- **Orchestration loop** (`orchestration_spec`, `orchestration`, `orchestration_properties`, `clock`). The runtime and the
  execution engine may answer or throw anything, the abort flag only rises, the clock never goes back. The imperative loop
  with its retry loop is proved against a function from the answers of the environment to the saved states, events, calls
  and sleeps of a run; the properties are about that function, for every environment.
- **Plan execution and the composed stack** (`plan_executor`, `workspace_adapters`, `workspace_sessions`). The plan executor
  against its policy and registry; the adapters that put the agent and the plan executor behind the ports of the loop; and
  sessions over that loop.
- **Evidence** (`evidence_text`, `text_shapes`, `evidence_sanitizer`, `sanitized_places`, `frontmatter`, `frontmatter_terms`,
  `finance_inspection`, `finance_validation`, `finance_agreement`, `finance_overview`, `finance_building`, `finance_terms`). Regular expressions with greedy, backtracking matching and
  global replacement; the redactors; the recursive sanitizers; the frontmatter parser; the finance inspection as the producer
  and the delivery validator as the independent consumer, agreeing exactly under a condition on what the tools answer.
- **Action requests** (`action_ledger`, `action_executor`, `action_protocol`, `action_answers`). A ledger of rows assigned in place, the
  executor over it, and any number of requests interleaved.
- **Delegation** (`specializations`, `delegation_engine`, `delegation_outcomes`, `strategic_plan`). Files grouped into specialists by nested
  loops, ordering, validation, truncation and dependencies.
- **Gemini adapter** (`gemini_adapter`). The merging loop against a grouping into runs of one role.

Conventions: a text is a sequence of UTF-16 code units; a JSON object is a sequence of fields with distinct keys in
insertion order, so independence of key order is a theorem and not built in; a finite number is the lexeme it prints as.
Generated identifiers are counters, the hash is a one-to-one function of the text that is hashed, and times are integers.

Where code and documentation disagree the code is followed:

- A fatal error is not final for the exponential retry policy, which never looks at the error: it is retried like any other
  (`FatalIsRetried`), although the documentation of the engine has fatal errors stop the loop at once.
- After a wait between retries the status stays WAITING until the next cycle starts.
- The lifecycle table allows EVALUATED to DETECTED; no call ever takes it (`SignalOverCalls`).
- The dedupe key of a delivery leaves the workspace out, so a duplicate can be answered with a signal of another workspace
  (`DuplicateAcrossWorkspaces` is such an event at the gate; the gate's contract says exactly when the workspaces agree).
- The separator of the text that is hashed is not escaped: any parts that hold a bar share their text with other parts
  (`BarsCollide`), and only those do (`PartsDeterminedIff`). `stableStringify` does not tell a lone undefined item from none
  nor NaN from null (`UndefinedAndNaNCollide`); `CanonicalPrinter` and the converse half of `PreHashIff` are for values
  without these, `PrintsAlikeIff` and `PreHashUnchanged` for all.
- With a deny list that covers the key `value`, wrapping makes redaction lose data on a second pass
  (`RedactPayloadIdempotentIff`).
- In memory, the insert of a signal awaits between its check and its write. A delivery is then stored twice exactly when two
  of its calls were both past the check before either wrote (`UniqueIff`, with the schedule in `LockstepStoresTwice`);
  without such an overlap the run is one with an atomic insert (`WithoutOverlapAtomic`), as the store port means it.
- `maxDelegations` of zero or less still keeps one recommendation in `validate`, because the limit is tested after the push.
- The word boundaries of the overview test are matched on a text stripped of everything but word characters, so
  `runway`, `burn` and `revenue` count only when they are the whole text.
- Redaction looks at texts only: a card number written as plain digits in a frontmatter, in quotes or not, is read as a
  number and passes (`NumbersPassIff`), except as the runway, where the summary prints it and blocks the file
  (`FileBuiltIff`).
- A blank risk level counts as an indicator when it is longer than the cut, because the sanitizer ends it with an ellipsis
  (`RecordTellsIff`).
- A scope that throws leaves its action row REQUESTED for good; every other request closes its row.

## Model

| member | source | states |
|---|---|---|
| StableStringify.EscapeRoundTrip | packages/domain-signals/src/signal-hash.ts:31-39 | string escaping of RFC 8259 section 7 is undone by the parser whatever follows, lone surrogates included |
| StableStringify.RoundTrip | packages/domain-signals/src/signal-hash.ts:29-41 | parsing the printed text of a canonical value gives back the value and whatever followed it; only what follows a number must not prolong it |
| StableStringify.PrintsAlikeIff | packages/domain-signals/src/signal-hash.ts:29-41 | for every value, two print alike exactly when their canonical forms agree |
| StableStringify.CanonicalPrinter | packages/domain-signals/src/signal-hash.ts:29-41 | on JSON values, equal texts exactly when equal values with objects taken as maps (sorted keys as in RFC 8785 section 3.2.3) |
| PrintedForm.UnitPrinted | packages/domain-signals/src/signal-hash.ts:29-32 | how JSON.stringify writes one unit: seven with a letter behind a backslash, other controls and lone surrogates with four lower-case hexadecimal digits, every other as it stands |
| PrintedForm.EscapedApart | packages/domain-signals/src/signal-hash.ts:29-32 | a string is written piece by piece wherever no surrogate pair is cut |
| PrintedForm.ArrayPrinted | packages/domain-signals/src/signal-hash.ts:33-35 | an array prints its items between brackets with commas between them, an undefined one as nothing |
| PrintedForm.ObjectPrinted | packages/domain-signals/src/signal-hash.ts:36-40 | an object prints quoted key, colon and value of each field between braces with commas, every field once and the keys in strictly ascending order of their units |
| StableStringify.UndefinedAndNaNCollide | packages/domain-signals/src/signal-hash.ts:30-34 | off JSON the printer is not injective: the colliding inputs |
| PayloadRedaction.Redact | packages/domain-signals/src/redact.ts:37-59 | the loop computes the recursive redaction: values under denied keys replaced, everything else kept in place |
| RedactedPlaces.DeniedIsSecret | packages/domain-signals/src/redact.ts:1-14 | a key is denied exactly when it is one of the twelve words, letter by letter in either case |
| RedactedPlaces.RedactedAt | packages/domain-signals/src/redact.ts:37-59 | at every place of a payload: behind open keys every leaf is kept, and directly behind a key that is one of the twelve words in any case stands the tag |
| RedactedPlaces.StoredPayload | packages/domain-signals/src/redact.ts:21-35 | the same of what is stored, wrapped in one field when the payload is no object |
| Folding.LowerSpells | packages/domain-signals/src/redact.ts:52 | lower-casing a text gives a word exactly when the text spells it letter by letter in either case |
| PayloadRedaction.RedactPayloadIdempotentIff | packages/domain-signals/src/redact.ts:21-35 | a second redaction changes nothing exactly when the payload is an object, or the wrapping key is not denied, or the payload is the tag itself |
| PayloadRedaction.ThreeRedactionsAreOne | packages/domain-signals/src/github-source-bridge.ts:270-289 | the redactions in the event, in the bridge and in the service equal one |
| SignalHash.PickRelevant | packages/domain-signals/src/domain-signal-service.ts:273-284 | the loop picks exactly the relevant top-level keys that are present, in their fixed order |
| PrintedForm.HashedKeys | packages/domain-signals/src/domain-signal-service.ts:276 | the keys that are hashed are exactly these seven |
| PrintedForm.HashedText | packages/domain-signals/src/signal-hash.ts:15-27 | the hashed text is workspace, type, source and reference, absent ones empty, and the printed relevant fields, in this order with bars between them |
| SignalHash.AlikeIffRedactedSame | packages/domain-signals/src/redact.ts:37-59 | two values redact to the same value exactly when they are alike once values under denied keys are forgotten |
| SignalHash.PreHashUnchanged | packages/domain-signals/src/signal-hash.ts:15-27 | for all parts and all payloads: key order, keys outside the seven and values under denied keys never change the hashed text |
| SignalHash.PreHashIff | packages/domain-signals/src/signal-hash.ts:15-27 | on JSON payloads, against any other signal: with bar-free parts the hashed texts agree exactly when workspace, type, source, reference and every relevant key agree |
| SignalHash.BarsCollide | packages/domain-signals/src/signal-hash.ts:19-25 | whichever part holds a bar, some other parts have the same text with the same payload |
| SignalHash.PartsDeterminedIff | packages/domain-signals/src/signal-hash.ts:19-25 | the text determines the parts, whatever the payloads, exactly when none of the parts holds a bar |
| JsonLexing.NoObjectAfterBar | packages/domain-signals/src/signal-hash.ts:29-41 | what follows a bar inside a printed value is never a whole printed object of relevant keys, so the payload's own bars are harmless |
| SignalLedger.FindByDelivery | packages/domain-signals/src/in-memory-domain-signal-store.ts:150-161 | the signal of a delivery if there is one, and none only if there is none |
| SignalLedger.SimilarSignals | packages/domain-signals/src/in-memory-domain-signal-store.ts:218-234 | at most the limit, all of the workspace and hash, never the excluded one, latest first, and nothing later left out |
| IngestTerms.TiesKeepOrder | packages/domain-signals/src/in-memory-domain-signal-store.ts:218-234 | signals received at one time keep the order in which they were stored |
| SignalRuns.SignalOverCalls | packages/domain-signals/src/lifecycle.ts:7-42 | over any sequence of service calls a signal keeps its origin, follows the table, never returns to DETECTED, stays once IGNORED, RESOLVED or EXPIRED, keeps its mission, and its status tells its decision, mission and conversion time |
| IngestTerms.TransitionIff | packages/domain-signals/src/lifecycle.ts:7-27 | the lifecycle table, move by move |
| SignalRuns.MissionByConversion | packages/domain-signals/src/domain-signal-service.ts:218-245 | in any sequence of calls a mission changes only by the conversion of that signal, from EVALUATED, to the mission of that call |
| SignalRuns.SignalByIngest | packages/domain-signals/src/domain-signal-service.ts:63-142 | a call adds at most one signal, and only an ingest of a delivery not stored, as the fresh row of its input |
| SignalRuns.IsolationOverCalls | packages/domain-signals/src/in-memory-domain-signal-store.ts:20-64 | after any sequence of calls: one binding per workspace, source and reference, one signal per delivery, bindings and audits of the signal's own workspace |
| SignalRuns.CallsRun | packages/domain-signals/src/domain-signal-service.ts:63-262 | every sequence of calls from a valid store keeps it valid, step by step |
| SignalRuns.Perform | packages/domain-signals/src/domain-signal-service.ts:29-262 | each service call leaves the store that the function of the call says |
| SignalRuns.PerformAll | packages/domain-signals/src/domain-signal-service.ts:29-262 | so any sequence of calls on the service leaves the last store of its run |
| SignalService.InMemoryDomainSignalStore.UpsertBinding | packages/domain-signals/src/in-memory-domain-signal-store.ts:20-64 | at most one binding per workspace, source and reference: the second upsert updates the first, keeping what is not given |
| SignalService.InMemoryDomainSignalStore.CreateSignal | packages/domain-signals/src/in-memory-domain-signal-store.ts:109-148 | refuses a stored delivery, otherwise adds one DETECTED signal with a fresh id |
| SignalService.InMemoryDomainSignalStore.UpdateSignal | packages/domain-signals/src/in-memory-domain-signal-store.ts:167-216 | replaces exactly the given fields of one signal |
| SignalService.AppendKeepsValid | packages/domain-signals/src/in-memory-domain-signal-store.ts:109-148 | adding a signal keeps unique ids and deliveries, status coherence, workspace isolation and audits |
| SignalService.UpdateKeepsValid | packages/domain-signals/src/in-memory-domain-signal-store.ts:167-216 | replacing a signal by a coherent successor keeps the same |
| SignalService.DomainSignalService.Ingest | packages/domain-signals/src/domain-signal-service.ts:63-142 | argument checks, then duplicates, then the binding, each with its own outcome; a rejected or duplicate call changes no signal; otherwise one DETECTED signal with redacted payload and fresh id is added |
| IngestTerms.ArgumentRefused | packages/domain-signals/src/domain-signal-service.ts:64-75 | a call is refused for a missing argument exactly when one of the four texts has nothing but white space, and names the first |
| IngestTerms.BindingRefused | packages/domain-signals/src/domain-signal-service.ts:85-98 | a named binding is refused as not found, of another workspace or disabled exactly when the store says so; an empty name names none |
| IngestTerms.AcceptedIff | packages/domain-signals/src/domain-signal-service.ts:63-127 | the store changes exactly when no text is missing, the delivery is not stored, and no binding is named or the named one is of the workspace and enabled; then by one row at the end |
| IngestTerms.KeyStored | packages/domain-signals/src/domain-signal-service.ts:101-109 | the stored key is the given hash, trimmed, unless it is missing or blank; then the hash of exactly workspace, type, source, reference and relevant fields |
| IngestTerms.CorrelationStored | packages/domain-signals/src/domain-signal-service.ts:110-111 | the stored correlation id is the given one, trimmed, unless it is missing or blank; then one of its own |
| SignalService.DomainSignalService.Insert | packages/domain-signals/src/domain-signal-service.ts:100-127 | a new delivery is stored as one row: redacted payload, key, correlation id given or generated |
| SignalService.DomainSignalService.Prepare | packages/domain-signals/src/domain-signal-service.ts:100-109 | the stored payload is the redacted one and the key is the given hash or the hash over the relevant keys |
| SignalService.InsertKeepsValid | packages/domain-signals/src/domain-signal-service.ts:85-127 | inserting a delivery that passed the checks keeps the store valid, under a fresh id |
| SignalService.DomainSignalService.Evaluate | packages/domain-signals/src/domain-signal-service.ts:144-191 | succeeds exactly from DETECTED or EVALUATED with policy and reason; audits at most ten similar ids; nothing else changes |
| SignalService.DomainSignalService.MarkConverted | packages/domain-signals/src/domain-signal-service.ts:217-245 | succeeds exactly on EVALUATED signals with a mission id; sets mission and conversion time together |
| SignalService.DomainSignalService.MarkResolved | packages/domain-signals/src/domain-signal-service.ts:246-253 | succeeds exactly from CONVERTED or RESOLVED |
| SignalService.DomainSignalService.MarkExpired | packages/domain-signals/src/domain-signal-service.ts:255-262 | succeeds exactly from DETECTED, EVALUATED or EXPIRED |
| SignalService.SimilarIds | packages/domain-signals/src/domain-signal-service.ts:155-164 | the audited ids are at most ten, never the signal's own, and of its workspace and hash |
| IngestGate.DomainSignalIngestService.Ingest | packages/domain-signals/src/domain-signal-ingest-service.ts:56-162 | only an enabled binding of the event's workspace lets a delivery in, as the row of the event's own fields with that binding; a rejection leaves the store unchanged and is observed once; a duplicate's signal is of the workspace exactly when it was first delivered there |
| IngestGate.DuplicateAcrossWorkspaces | packages/domain-signals/src/domain-signal-ingest-service.ts:56-132 | for any event whose source two workspaces bind: after the other's delivery the store is valid, the gate admits the event with a binding of its own workspace, and the lookup answers the other's signal |
| IngestProtocol.RunKeepsInvariant | packages/domain-signals/src/domain-signal-service.ts:63-142 | every interleaving of ingest calls keeps the store valid and every call's place consistent with it |
| IngestProtocol.OneSignalPerDelivery | packages/domain-signals/src/domain-signal-service.ts:77-141 | under any schedule a delivery has one signal, at most one call says it created it, all answers for it agree, every new signal was created by a call, and the duplicate error is never rethrown |
| IngestProtocol.ExactlyOneCreated | packages/domain-signals/src/domain-signal-service.ts:77-141 | when a delivery was not stored before and some call of it is answered, exactly one call created its signal, and that is the answer |
| IngestProtocol.EveryCallCompletes | packages/domain-signals/src/domain-signal-service.ts:63-142 | in any schedule a call that gets four turns completes |
| IngestProtocol.AloneIsSequential | packages/domain-signals/src/domain-signal-service.ts:63-142 | a call that runs alone does what the sequential service promises |
| SplitInsert.UniqueIff | packages/domain-signals/src/in-memory-domain-signal-store.ts:109-148 | with check and write of the insert as two steps, under any schedule: deliveries stay unique exactly when no two calls of one delivery were both past the check before either wrote and have both written |
| SplitInsert.LockstepStoresTwice | packages/domain-signals/src/in-memory-domain-signal-store.ts:109-148 | the schedule that stores any new delivery twice: two calls in lockstep, both answered as created |
| SplitInsert.WithoutOverlapAtomic | packages/domain-signals/src/in-memory-domain-signal-store.ts:109-148 | without such an overlap the run is one of the protocol with an atomic insert |
| Orchestration.OrchestrationLoop.Run | packages/orchestration-engine/src/engine/orchestration-loop.ts:53-82 | the loop's states, saves, events, calls and sleeps are those of a valid run over the environment's answers, which the policy or the abort flag ends; the run ends aborted exactly when the flag is up, and does nothing when it is up from the start |
| Orchestration.OrchestrationLoop.Cycle | packages/orchestration-engine/src/engine/orchestration-loop.ts:65-75 | one pass: start, calls, record, stop policy, each seeing the state the one before left |
| Orchestration.OrchestrationLoop.StartCycle | packages/orchestration-engine/src/engine/orchestration-loop.ts:84-96 | the cycle number, the replanning status and the two events |
| Orchestration.OrchestrationLoop.RunCycle | packages/orchestration-engine/src/engine/orchestration-loop.ts:98-143 | any throw of either port ends the cycle as failed; lastExecution is set only by a successful execution |
| Orchestration.OrchestrationLoop.RecordCycle | packages/orchestration-engine/src/engine/orchestration-loop.ts:145-162 | one record is appended, starting where the previous ended, and saved |
| Orchestration.OrchestrationLoop.WithRetry | packages/orchestration-engine/src/engine/orchestration-loop.ts:164-189 | attempts go on exactly while the port throws, nobody aborted and the policy allows one more, with a save as WAITING and a sleep before each that has a positive delay |
| Orchestration.OrchestrationLoop.Finalize | packages/orchestration-engine/src/engine/orchestration-loop.ts:191-198 | status and end are set and saved, nothing else |
| Orchestration.OrchestrationEngine.Run | packages/orchestration-engine/src/engine/orchestration-engine.ts:69-113 | the result and everything asked of the ports are those of a valid run between LOOP_STARTED and LOOP_FINISHED |
| OrchestrationProperties.EventTrace | packages/orchestration-engine/src/engine/orchestration-loop.ts:53-143 | every run emits LOOP_STARTED, per cycle CYCLE_STARTED, REPLANNING from the second on if asked for, then either EXECUTION_COMPLETED and perhaps OBJECTIVE_COMPLETED or CYCLE_FAILED, then LOOP_FINISHED; cycles count 1..n, n is the length of the history, and the objective is reached only in the last |
| OrchestrationProperties.FailuresCounted | packages/orchestration-engine/src/policies/stop-policy.ts:49-51 | the failures the stop policy counts are the records that hold an error |
| OrchestrationProperties.StopsAtFirst | packages/orchestration-engine/src/policies/stop-policy.ts:36-61 | the run goes on only from cycles with no abort, no objective reached, no fatal failure and none of the three limits reached |
| OrchestrationProperties.CyclesBounded | packages/orchestration-engine/src/policies/stop-policy.ts:36-61 | cycles are at most max(1, maxCycles) and records that hold an error at most max(1, maxFailures) |
| OrchestrationProperties.AttemptsBounded | packages/orchestration-engine/src/engine/orchestration-loop.ts:164-189 | a call takes at most max(1, maxRetries + 1) attempts, and exactly as many when it only throws and nobody aborts |
| OrchestrationProperties.CallsBounded | packages/orchestration-engine/src/engine/orchestration-loop.ts:102-117 | calls to each port are at most the cycles times the attempts of one call |
| OrchestrationProperties.SleepsOfCall | packages/orchestration-engine/src/engine/orchestration-loop.ts:181-186 | a call sleeps exactly the positive delays of its retries |
| OrchestrationProperties.DelaysGeometric | packages/orchestration-engine/src/policies/retry-policy.ts:34-36 | the delays of k retries satisfy (factor-1)*sum = base*(factor^k-1) |
| OrchestrationProperties.EveryDelaySlept | packages/orchestration-engine/src/engine/orchestration-loop.ts:181-186 | with base and factor not negative all of that is slept |
| OrchestrationProperties.DurationsTelescope | packages/orchestration-engine/src/engine/orchestration-loop.ts:145-162 | records abut in time, durations are not negative and sum to the last end minus the start |
| OrchestrationProperties.LastExecutionIsLatest | packages/orchestration-engine/src/engine/orchestration-loop.ts:115-118 | lastExecution is the execution of the latest record that has one |
| OrchestrationProperties.CycleAsks | packages/orchestration-engine/src/engine/orchestration-loop.ts:103-117 | every attempt asks the runtime with the objective, the cycle number and the latest execution before the cycle, and the engine with the plan just returned |
| OrchestrationProperties.FinalStatusIff | packages/orchestration-engine/src/policies/stop-policy.ts:36-80 | every run ends COMPLETED, FAILED or CANCELLED; COMPLETED exactly when the last record reached the objective and nobody had aborted; CANCELLED exactly when somebody had |
| OrchestrationProperties.FailedIff | packages/orchestration-engine/src/policies/stop-policy.ts:36-61 | FAILED exactly when, with no abort and the objective not reached, the last call of the last cycle gave up on a fatal throw, or the records that hold an error, the time since the loop started or the cycles reached their limit |
| OrchestrationProperties.CutMeansCancelled | packages/orchestration-engine/src/engine/orchestration-loop.ts:173-180 | retries cut short by an abort are in the last cycle of a cancelled run |
| OrchestrationProperties.FatalIsLast | packages/orchestration-engine/src/policies/stop-policy.ts:43-45 | after a cycle that failed fatally there is no other |
| OrchestrationProperties.FatalIsRetried | packages/orchestration-engine/src/policies/retry-policy.ts:30-32 | within its cycle a fatal throw is retried like any other |
| PlanExecutor.ValidatePlan | packages/execution-engine/src/execution/execution-engine.ts:232-249 | accepts exactly lists of actions with ids and types, all ids different |
| PlanExecutor.Resolve | packages/execution-engine/src/executors/registry.ts:17-19 | the first registered executor that supports the action |
| PlanExecutor.DecideIff | packages/execution-engine/src/execution/execution-engine.ts:119-160 | an action is skipped exactly when the policy or its validation refuses it, and runs exactly when of the others some registered executor supports it: then on the first that does |
| PlanExecutor.ExecutionEngine.Execute | packages/execution-engine/src/execution/execution-engine.ts:56-117 | results in order for the whole plan or, stopping on error, the prefix that ends at the first failure; executors called exactly for allowed, valid and resolved actions, each failed exactly when its executor threw |
| PlanExecutor.ExecutionEngine.RunActions | packages/execution-engine/src/execution/execution-engine.ts:81-88 | the loop's results, logs and calls |
| PlanExecutor.ExecutionEngine.ExecuteAction | packages/execution-engine/src/execution/execution-engine.ts:119-185 | policy, validation, registry, then the executor: an action that ran failed exactly when its executor threw |
| PlanExecutor.Conservation | packages/execution-engine/src/execution/execution-engine.ts:90-91 | successes, failures and skips add up to the results |
| PlanExecutor.StatusByCount | packages/execution-engine/src/execution/execution-engine.ts:252-270 | SUCCESS is all of them or none to do, FAILED none of them, PARTIAL some |
| PlanExecutor.LogsPair | packages/execution-engine/src/execution/execution-engine.ts:143-185 | every ACTION_START is closed at once by one FINISH or ERROR of the same action and executor, and every FINISH was opened |
| PlanExecutor.ResultsOfPlan | packages/execution-engine/src/execution/execution-engine.ts:81-100 | results have distinct ids, and executor calls are the results less the skipped and the unresolved |
| Patterns.MatchDenotes | packages/employees/specialist-kit/src/ux-evidence.ts:32-35 | what the greedy matcher takes is denoted by the pattern |
| Patterns.DenotedMatches | packages/employees/specialist-kit/src/ux-evidence.ts:32-35 | the matcher misses no match |
| Patterns.TestSomewhere | packages/employees/specialist-kit/src/finance-evidence.ts:84-89 | a test succeeds exactly when some stretch of the text is denoted |
| Patterns.ReplaceFirst | packages/employees/specialist-kit/src/finance-evidence.ts:77-82 | replacement keeps the text up to the first match, replaces the match, and goes on after it |
| Patterns.ReplaceNothing | packages/employees/specialist-kit/src/finance-evidence.ts:77-82 | a text without a match is kept |
| EvidenceText.CpfDenotes | packages/employees/specialist-kit/src/finance-evidence.ts:51 | the CPF pattern denotes exactly ddd.ddd.ddd-dd |
| EvidenceText.CnpjDenotes | packages/employees/specialist-kit/src/finance-evidence.ts:52 | the CNPJ pattern denotes exactly dd.ddd.ddd/dddd-dd |
| EvidenceText.CardDenotes | packages/employees/specialist-kit/src/finance-evidence.ts:53 | the card pattern denotes exactly four groups of four digits with at most one gap before each next one |
| EvidenceText.BearerDenotes | packages/employees/specialist-kit/src/ux-evidence.ts:35 | the bearer pattern denotes exactly the word in either case, white space and a token of at least so many units |
| TextShapes.NumberHeldIff | packages/employees/specialist-kit/src/finance-evidence.ts:84-89 | a text holds a number to redact exactly when some stretch of it has one of the three shapes, unit by unit |
| TextShapes.BearerHeldIff | packages/employees/specialist-kit/src/ux-evidence.ts:35 | and a bearer token exactly when some stretch has that shape |
| TextShapes.UxSecretHeldIff | packages/employees/specialist-kit/src/ux-evidence.ts:62-83 | the UX scan objects to a text exactly for a number, a bearer token of at least eight units, or one of three markers in any case |
| EvidenceText.FinanceRedactionComplete | packages/employees/specialist-kit/src/finance-evidence.ts:77-89 | no CPF, CNPJ or card number survives or is put together by the three passes |
| EvidenceText.FinanceRedactionIdentityIff | packages/employees/specialist-kit/src/finance-evidence.ts:77-89 | a text is kept exactly when it holds none of the three |
| EvidenceText.UxRedactionComplete | packages/employees/specialist-kit/src/ux-evidence.ts:53-59 | nor does any of the four, bearer tokens included, on every text |
| EvidenceText.UxRedactionIdentityIff | packages/employees/specialist-kit/src/ux-evidence.ts:53-59 | a text is kept exactly when it holds none of the four |
| EvidenceText.LongTokenIsToken | packages/employees/specialist-kit/src/ux-evidence.ts:72-74 | what the residual test calls a token the redactor does too |
| EvidenceSanitizer.SanitizeJson | packages/employees/specialist-kit/src/finance-evidence.ts:354-385 | the loop computes the recursive sanitizer: forbidden keys dropped, denied ones tagged, texts cleaned, order kept |
| SanitizedPlaces.DeniedIff | packages/employees/specialist-kit/src/finance-evidence.ts:66-75 | a key is denied exactly when some stretch of it spells a fragment in any case, units other than letters and digits strewn in |
| SanitizedPlaces.FragmentInKey | packages/employees/specialist-kit/src/ux-evidence.ts:42-51 | whatever stands before and after it, a fragment in any case makes a key a denied one |
| SanitizedPlaces.SanitizedAt | packages/employees/specialist-kit/src/finance-evidence.ts:354-385 | at every place of a value: behind open keys a text is cleaned and any other leaf kept; directly behind a denied key stands the tag, and behind a content key nothing |
| SanitizedPlaces.ScanRefusesIff | packages/employees/specialist-kit/src/finance-delivery-validation.ts:60-83 | the scan refuses a value exactly when at some place stands a text with something left, a content key, or a denied key with anything but the tag |
| EvidenceSanitizer.WholeTextNeverReplaced | packages/employees/specialist-kit/src/finance-evidence.ts:359-361 | the branch for residual numbers after redaction is never taken |
| EvidenceSanitizer.FinanceTextFixedIff | packages/employees/specialist-kit/src/finance-evidence.ts:357-366 | a text is kept exactly when it holds no number and is within the cut or cut already |
| EvidenceSanitizer.SettledIsFixed | packages/employees/specialist-kit/src/ux-evidence.ts:85-117 | exactly the settled values are left as they are |
| EvidenceSanitizer.SanitizeIdempotent | packages/employees/specialist-kit/src/ux-evidence.ts:85-117 | both sanitizers are idempotent on every JSON value, with the finance cut and ellipsis |
| EvidenceSanitizer.FinanceFixedIffSafe | packages/employees/specialist-kit/src/finance-delivery-validation.ts:60-83 | the sanitizer leaves a value alone exactly when the validator's scan accepts it and its texts are short |
| EvidenceSanitizer.FinanceSanitizedPassesScan | packages/employees/specialist-kit/src/finance-delivery-validation.ts:60-83 | sanitized values always pass the validator's scan |
| EvidenceSanitizer.UxSanitizedFailsIff | packages/employees/specialist-kit/src/ux-evidence.ts:119-142 | sanitized values fail the UX scan exactly when some text holds one of the three markers |
| Frontmatter.ParseFinanceFrontmatter | packages/employees/specialist-kit/src/finance-evidence.ts:119-155 | the loop over the lines between the fences computes the fields they yield, or nothing |
| FrontmatterTerms.BlockIff | packages/employees/specialist-kit/src/finance-evidence.ts:122-126 | a content has a block exactly when it opens with dashes and a line end and a line end and dashes follow |
| FrontmatterTerms.TheBlock | packages/employees/specialist-kit/src/finance-evidence.ts:122-126 | the block ends at the first closing mark, and the body follows it without one line end |
| FrontmatterTerms.LinesAre | packages/employees/specialist-kit/src/finance-evidence.ts:128 | the lines hold no line feed and joined by line feeds are the block |
| FrontmatterTerms.LineYields | packages/employees/specialist-kit/src/finance-evidence.ts:129-150 | a line that says a key and a value around its first colon yields that value, decimal or redacted text, exactly for the eight keys |
| FrontmatterTerms.YieldIsSaid | packages/employees/specialist-kit/src/finance-evidence.ts:129-150 | and a line that yields anything says it so |
| FrontmatterTerms.DecimalIff | packages/employees/specialist-kit/src/finance-evidence.ts:146 | a decimal is an optional minus, digits, and perhaps a point and digits |
| FrontmatterTerms.LastSaid | packages/employees/specialist-kit/src/finance-evidence.ts:128-153 | the last line of a block that says a key gives it its value |
| FrontmatterTerms.RecordIff | packages/employees/specialist-kit/src/finance-evidence.ts:128-154 | a block yields a record exactly when some line says one of the eight keys |
| Frontmatter.StructuredClean | packages/employees/specialist-kit/src/finance-evidence.ts:119-155 | whatever a file holds, its structured fields are distinct known keys with numbers or redacted texts |
| Frontmatter.LastLineDecides | packages/employees/specialist-kit/src/finance-evidence.ts:128-153 | among any lines the last one that yields a field for a key decides its value, and without one the key is absent |
| Frontmatter.NumbersPassIff | packages/employees/specialist-kit/src/finance-evidence.ts:106-150 | a value passes unredacted, as a number, exactly when it is a decimal; then sanitizer and scan leave it alone |
| FinanceInspection.Inspection.InspectFinanceArtifacts | packages/employees/specialist-kit/src/specialist-brain.ts:367-596 | seven probes in order; executions, evidence and success are the fold of what each leaves |
| FinanceInspection.Inspection.Invoke | packages/employees/specialist-kit/src/specialist-brain.ts:450-572 | a probe leaves evidence, a failure, or, for an optional file that is not there, nothing |
| FinanceInspection.Inspection.RecordSuccess | packages/employees/specialist-kit/src/specialist-brain.ts:376-425 | a file's content is read, and what was read recorded |
| FinanceInspection.Inspection.RecordRead | packages/employees/specialist-kit/src/specialist-brain.ts:387-425 | built evidence is sanitized and recorded; evidence that cannot be built is a failed execution, with error evidence only when mandatory |
| FinanceInspection.Inspection.RecordFailure | packages/employees/specialist-kit/src/specialist-brain.ts:427-448 | a failure is recorded in both lists and counts against the inspection only when mandatory |
| FinanceInspection.BuiltWellFormed | packages/employees/specialist-kit/src/finance-evidence.ts:249-328 | built evidence is a well-formed object |
| FinanceValidation.ValidateFinanceToolExecutions | packages/employees/specialist-kit/src/finance-delivery-validation.ts:193-247 | the two counters decide: a failure is forgiven exactly when it is NOT_FOUND and, for listings and reads, not the first of its tool |
| FinanceTerms.ErrorCodeIff | packages/employees/specialist-kit/src/finance-delivery-validation.ts:134-147 | the code of an outcome is what stands before its first colon, trimmed, or none when that is blank |
| FinanceTerms.ValidItemIff | packages/employees/specialist-kit/src/finance-delivery-validation.ts:111-132 | an item counts exactly when it has no error, a finance tool, a path at or below finance or billing, the finance domain, and nothing the scan refuses |
| FinanceTerms.IgnorableIff | packages/employees/specialist-kit/src/finance-delivery-validation.ts:159-191 | an item that does not count is let pass exactly when it is a NOT_FOUND of a search, of a listing once finance was listed, or of a read of one of the three optional files |
| FinanceTerms.ValidEvidenceIff | packages/employees/specialist-kit/src/finance-delivery-validation.ts:268-321 | evidence is valid exactly when the finance directory was listed, the overview read with an indicator, two items count and every item is let pass |
| FinanceValidation.IsValidFinancialAnalysisDelivery | packages/employees/specialist-kit/src/finance-delivery-validation.ts:249-321 | accepts exactly the deliveries whose header, executions and evidence are valid |
| FinanceAgreement.FailureAcceptedIff | packages/employees/specialist-kit/src/finance-delivery-validation.ts:159-186 | error evidence is ignored exactly when it is NOT_FOUND of a search, or of a listing once finance was listed |
| FinanceAgreement.BuiltItem | packages/employees/specialist-kit/src/finance-delivery-validation.ts:111-132 | evidence built by any probe and sanitized is a valid item with the probe's own path |
| FinanceAgreement.AcceptedIff | packages/employees/specialist-kit/src/finance-delivery-validation.ts:249-321 | the validator accepts an inspection's delivery and log exactly when the mandatory probes built evidence, every optional one did or answered NOT_FOUND, and the overview carries an indicator |
| FinanceAgreement.StructuredOverviewIndicates | packages/employees/specialist-kit/src/finance-delivery-validation.ts:85-109 | a frontmatter with runway, burn, revenue or risk level survives building and sanitizing as an indicator |
| FinanceAgreement.StructuredInspectionAccepted | packages/employees/specialist-kit/src/specialist-brain.ts:367-633 | in terms of what the tools answer: good probes and an overview file with such a frontmatter are accepted |
| FinanceOverview.InspectionAcceptedIff | packages/employees/specialist-kit/src/specialist-brain.ts:367-633 | in terms of what the tools answer, exactly: accepted iff every probe is good and the overview file has a runway, burn, revenue or shown risk level in its frontmatter or, without frontmatter, names a risk level in its excerpt |
| FinanceTerms.AcceptedInTerms | packages/employees/specialist-kit/src/specialist-brain.ts:367-633 | the same said of the seven tools by name and path and of the overview file line by line: accepted exactly when the finance directory and the overview are found, each other place is found or answers NOT_FOUND, and the file tells something |
| FinanceTerms.FileTellsIff | packages/employees/specialist-kit/src/finance-delivery-validation.ts:85-109 | what a file must say: a line for runway, burn or revenue, or a last line for the risk level that shows; or, where no line sets a key, a risk level named in the excerpt of what follows the block |
| FinanceTerms.RiskNamedIff | packages/employees/specialist-kit/src/finance-delivery-validation.ts:104-108 | a text names a risk level exactly when some stretch of it spells one of two words in any case, units other than letters, digits and underscores strewn in |
| FinanceTerms.IndicatorIff | packages/employees/specialist-kit/src/finance-delivery-validation.ts:85-109 | the indicator on data of any origin: something under one of three keys, a risk level that prints more than white space, or a summary and excerpt that squash to one of three words or name a risk level |
| FinanceOverview.OverviewIndicatesIff | packages/employees/specialist-kit/src/finance-delivery-validation.ts:85-109 | the indicator of a built overview as a condition on the file's content, both ways |
| FinanceOverview.RecordTellsIff | packages/employees/specialist-kit/src/finance-delivery-validation.ts:89-103 | the sanitized frontmatter indicates exactly when the parsed one has a runway, burn, revenue or a risk level that is a number, not blank, or longer than the cut |
| FinanceBuilding.BuiltIff | packages/employees/specialist-kit/src/finance-evidence.ts:249-352 | evidence is built exactly when workspace and repository are named and none of its fields holds a number to redact; every field is kept |
| FinanceBuilding.HeldSomewhereIff | packages/employees/specialist-kit/src/finance-evidence.ts:91-104 | a value holds a number to redact exactly when one of its texts, at whatever place, does |
| FinanceBuilding.RefusedFor | packages/employees/specialist-kit/src/finance-evidence.ts:249-352 | why evidence is not built, in this order: no workspace, no repository, a number to redact |
| FinanceBuilding.FileBuiltIff | packages/employees/specialist-kit/src/finance-evidence.ts:249-352 | a file's evidence is built exactly when both names are there and clean and its runway prints no number to redact: nothing else in a file can block it |
| FinanceBuilding.EvidenceSays | packages/employees/specialist-kit/src/finance-evidence.ts:249-328 | built evidence says the finance domain, its workspace and the repository the tool answered, both cleaned, and its own place |
| FinanceBuilding.SearchSays | packages/employees/specialist-kit/src/finance-evidence.ts:249-328 | the evidence of a search says what was searched for, cleaned, and the number of hits in decimal |
| FinanceBuilding.RunwayOfDigitsBlocks | packages/employees/specialist-kit/src/finance-evidence.ts:193-217 | a runway of sixteen digits or more always blocks the file |
| FinanceBuilding.SomeInspectionAccepted | packages/employees/specialist-kit/src/specialist-brain.ts:367-633 | a witness that the conditions of the agreement can be met: a listing and an overview with a burn, everything optional missing |
| ActionLedger.Policy.AllowedActions | packages/action-runtime/src/action-policy.ts:91-100 | the nested loops give the union of the groups' actions, each once |
| ActionLedger.Policy.IsAllowed | packages/action-runtime/src/action-policy.ts:102-107 | a known action of some group of the employee |
| ActionLedger.Policy.Decide | packages/action-runtime/src/action-policy.ts:112-136 | allows exactly a named workspace, a known action and an employee whose groups list it |
| ActionLedger.DecideIff | packages/action-runtime/src/action-executor.ts:49-53 | a request is allowed exactly when its workspace is named, its action is one of the five, and some group of the employee who asks lists it |
| ActionExecutors.Row.Assign | packages/action-runtime/src/ledgers/execution-ledger.ts:124-147 | exactly the given fields of a row are assigned |
| ActionExecutors.InMemoryExecutionLedger.CreateExecution | packages/action-runtime/src/ledgers/execution-ledger.ts:96-114 | one new REQUESTED row under a fresh id; every other row is as it was |
| ActionExecutors.InMemoryExecutionLedger.UpdateExecutionStatus | packages/action-runtime/src/ledgers/execution-ledger.ts:124-147 | one row moves by one status; an unknown id is an error and changes nothing |
| ActionExecutors.InMemoryExecutionLedger.CompleteExecution | packages/action-runtime/src/ledgers/execution-ledger.ts:149-158 | a row is closed with its end, result and error |
| ActionExecutors.ActionExecutor.Execute | packages/action-runtime/src/action-executor.ts:40-171 | one row per request, ending as the verdict says; the scope is asked exactly for permitted requests, an adapter called at most once and only for a request that is permitted by its own fields and in scope, and the row is denied exactly when it is not |
| ActionExecutors.ActionExecutor.RunApproved | packages/action-runtime/src/action-executor.ts:112-170 | APPROVED, RUNNING, then SUCCESS or FAILED as the adapter replies or throws |
| ActionProtocol.RunKeepsInvariant | packages/action-runtime/src/action-executor.ts:40-171 | every interleaving keeps each row consistent with its request's place |
| ActionProtocol.OneRowPerRequest | packages/action-runtime/src/action-executor.ts:40-171 | under any schedule each request owns one row with the statuses of its verdict, startedAt exactly when it ran, denied exactly when it is not permitted or out of scope; the answer gives the final status, and no adapter is called twice or for a request that is not permitted |
| ActionAnswers.OwnTurnsDecide | packages/action-runtime/src/action-executor.ts:40-171 | under any schedule the row of a finished request is what the scope and the adapter answered in its own turns, and an adapter has been called only for a permitted request that the scope granted then |
| ActionProtocol.EveryRequestCompletes | packages/action-runtime/src/action-executor.ts:40-171 | in any schedule a request that gets seven turns completes |
| Specializations.SortSorts | packages/agents/src/operaia-ceo/delegation-engine.ts:322-330 | sorting by rank is ascending and keeps every item |
| Specializations.SortStable | packages/agents/src/operaia-ceo/delegation-engine.ts:322-330 | items of one rank keep their order |
| Specializations.InferDefaultEdges | packages/agents/src/operaia-ceo/ceo-strategic-plan.ts:109-130 | the links whose two ends are present, in order |
| Specializations.EdgesFromIff | packages/agents/src/operaia-ceo/ceo-strategic-plan.ts:109-130 | a dependency is inferred exactly when it is a default one and both ends are present |
| Specializations.InferredIff | packages/agents/src/operaia-ceo/ceo-strategic-plan.ts:109-130 | the six pairs: engineering before design, automation and operations; design, product management and legal before marketing |
| Specializations.AscendingIsTopological | packages/agents/src/operaia-ceo/ceo-strategic-plan.ts:105-130 | both rank orders are topological orders of the dependencies |
| Specializations.CutKeepsPrerequisites | packages/agents/src/operaia-ceo/ceo-strategic-plan.ts:77-89 | cutting such an order keeps what a kept member depends on |
| Delegation.GroupFiles | packages/agents/src/operaia-ceo/delegation-engine.ts:165-190 | the three nested loops group the visits of files, rules and specialists |
| Delegation.GroupNames | packages/agents/src/operaia-ceo/delegation-engine.ts:165-190 | a group names, each once, exactly the files that need its specialist and the rules that send them |
| Delegation.Recommend | packages/agents/src/operaia-ceo/delegation-engine.ts:61-105 | files, then the reason, then the changed fields decide the outcome; which it is, the next five rows say |
| DelegationOutcomes.WithoutFilesIff | packages/agents/src/operaia-ceo/delegation-engine.ts:75-105 | without files something is recommended exactly for one of three reasons or one of three changed fields: then engineering alone, no files, no dependencies, under the rule of the reason before that of the fields |
| DelegationOutcomes.DocumentationIff | packages/agents/src/operaia-ceo/delegation-engine.ts:64-73 | a list of files is ignored, as documentation only, exactly when each file matches an ignore rule and no rule that names a specialist |
| DelegationOutcomes.RecommendedIff | packages/agents/src/operaia-ceo/delegation-engine.ts:161-229 | otherwise a specialist is recommended exactly when a pattern of a rule that names it matches some file, or it is engineering and that holds of nobody |
| DelegationOutcomes.RecommendationsName | packages/agents/src/operaia-ceo/delegation-engine.ts:165-229 | a recommendation names, each once, exactly the files and rules that ask for its specialist; the fallback names every file that is not documentation only |
| DelegationOutcomes.DefaultAsks | packages/agents/src/operaia-ceo/delegation-matrix.ts:17-85 | for each specialist the patterns under which the default matrix asks for it |
| Delegation.RecommendedSpecs | packages/agents/src/operaia-ceo/delegation-engine.ts:161-229 | recommended are exactly the specialists some file needs, or engineering when none is needed, each once in a topological order |
| Delegation.SetOfFilesDecides | packages/agents/src/operaia-ceo/delegation-engine.ts:61-229 | the specialists and dependencies depend only on the set of files |
| Delegation.DocumentationIsIrrelevant | packages/agents/src/operaia-ceo/delegation-engine.ts:65-73 | adding a documentation-only file anywhere to an actionable list changes nothing |
| Delegation.Validate | packages/agents/src/operaia-ceo/delegation-engine.ts:110-159 | the loop with its early exit computes the start of what passes |
| Delegation.ValidationKeeps | packages/agents/src/operaia-ceo/delegation-engine.ts:110-159 | what is kept: no management, nobody saturated, nobody twice, as many as asked for, eight unless said, but at least one |
| Delegation.ValidateIdempotent | packages/agents/src/operaia-ceo/delegation-engine.ts:110-159 | validating twice equals validating once |
| Delegation.ValidationKeepsPrerequisites | packages/agents/src/operaia-ceo/delegation-engine.ts:110-159 | the order stays topological, and what a kept specialist depends on is kept or saturated |
| Delegation.DefaultMatrixIsRanked | packages/agents/src/operaia-ceo/delegation-matrix.ts:17-85 | the default matrix names ranked specialists only |
| StrategicPlans.MatchAllSpecializations | packages/agents/src/operaia-ceo/ceo-specialization-resolver.ts:112-124 | exactly the specialists whose rule matches the trimmed text |
| StrategicPlans.ResolveAllRequiredSpecializations | packages/agents/src/operaia-ceo/ceo-specialization-resolver.ts:80-106 | the launch list for a launch, otherwise exactly those the objective or the pending titles call for, in order |
| StrategicPlans.ResolutionIsUnique | packages/agents/src/operaia-ceo/ceo-specialization-resolver.ts:132-141 | what is wanted determines the list |
| StrategicPlans.BuildStrategicPlan | packages/agents/src/operaia-ceo/ceo-strategic-plan.ts:56-103 | the resolved list without the saturated, unless that leaves none, cut to size |
| StrategicPlans.PlannedIff | packages/agents/src/operaia-ceo/ceo-strategic-plan.ts:65-89 | planned are, of those resolved, the ones with capacity, or all when none has any, in the same order, up to the number asked for, eight unless said |
| StrategicPlans.PlanKeepsPrerequisites | packages/agents/src/operaia-ceo/ceo-strategic-plan.ts:77-89 | a plan has no repeats, is topological, and cutting it drops no prerequisite of a kept member |
| StrategicPlans.PlanAvoidsSaturated | packages/agents/src/operaia-ceo/ceo-strategic-plan.ts:65-75 | a saturated specialist is planned only when all that are wanted are saturated |
| GeminiAdapter.ToGeminiRequestParts | packages/ai-core/src/providers/gemini-message-adapter.ts:18-58 | the in-place merge equals grouping into runs |
| GeminiAdapter.InstructionTells | packages/ai-core/src/providers/gemini-message-adapter.ts:21-25 | there is a system instruction exactly when some system message is more than white space: the system messages with blank lines between, trimmed at both ends |
| GeminiAdapter.TurnsOfMore | packages/ai-core/src/providers/gemini-message-adapter.ts:30-44 | grouping one message more is overwriting the last turn or adding one |
| GeminiAdapter.TurnsCover | packages/ai-core/src/providers/gemini-message-adapter.ts:30-44 | the turns are the messages, in order, cut into runs of one role |
| GeminiAdapter.SentAlternates | packages/ai-core/src/providers/gemini-message-adapter.ts:46-57 | what is sent is never empty, starts with the user, strictly alternates, and gains the opening turn exactly when the model speaks first |
| WorkspaceAdapters.RuntimeAdapter.Run | packages/workspace-runtime/src/adapters/runtime-adapter.ts:33-53 | asks the agent once and answers with its plan, the plan's action count, and the objective as reached exactly when it has no actions, or with the agent's throw |
| WorkspaceAdapters.ExecutionAdapter.Execute | packages/workspace-runtime/src/adapters/execution-adapter.ts:23-50 | answers exactly for valid plans, with the numbers of results done and failed, and a status that says whether all, none or some of the results were done |
| WorkspaceAdapters.SummaryTells | packages/workspace-runtime/src/adapters/execution-adapter.ts:43-63 | the summary of any results: its two counts are those of the places with success and with failure, its status SUCCESS iff all succeeded, FAILED iff there are some and none did |
| Orchestration.Ports.Call | packages/workspace-runtime/src/composition/runtime-composer.ts:42-69 | the loop's ports, when composed, answer through these two adapters |
| WorkspaceSessions.ExecutedWithinPlan | packages/workspace-runtime/src/adapters/execution-adapter.ts:43-50 | a run whose replies come from the adapters, as the composed loop ensures, reports in no record more done and failed than its plan had actions |
| WorkspaceSessions.NothingProposedCompletes | packages/workspace-runtime/src/adapters/runtime-adapter.ts:33-53 | such a run whose agent proposes no actions ends after exactly one cycle, COMPLETED unless aborted |
| WorkspaceSessions.WorkspaceManager.StartSession | packages/workspace-runtime/src/workspace/workspace-manager.ts:49-96 | run through the adapters: saved as created, running and ended; cancelled exactly when the abort flag was found up, completed exactly when the last record reached the objective without that, failed otherwise; as many cycles as records; no record beyond its plan; an agent that proposes nothing completes it in one cycle unless aborted; no other session changes |
| WorkspaceSessions.WorkspaceManager.GetSession | packages/workspace-runtime/src/workspace/workspace-manager.ts:98-107 | a session is found only through its own workspace |

## Left out

- SHA-256, HMAC and UUIDs: the hashed text stands for its hash, generated ids are fresh counters.
- Number formatting: a finite number is the lexeme it prints as; dates, big integers, `toJSON` and `__proto__` keys are not values of the model.
- Lower case beyond ASCII, except the two units whose lower case meets ASCII.
- Event timestamps and event data, metadata, and log messages.
- A state store, event publisher, ledger, clock or execution policy that throws.
- Lost updates between concurrent `evaluate` and `markConverted` calls: the lifecycle claims are for calls one after the other.
- SignalService.DomainSignalService.Ingest: its catch of a duplicate raised by the store is not reachable when calls are sequential; it is a step of IngestProtocol.
- Case-insensitive lookups of bindings by reference, listings, and the evaluation context beyond its similar ids.
- What the language makes of the decimals of a frontmatter: any number that prints as a lexeme or is not finite, and which non-finite one it is.
- A caller's own test of whether the objective is reached, and how the agent's answer is mapped to a plan: the agent of the composed stack may answer with any plan.
- The tool log's texts for successes, and findings, risks and next steps of a delivery: the validator reads none of them.
- `normalizeRelativePath` and the tool adapters: the constant finance paths normalise to themselves.
- Legal, marketing, product and UX inspections, which repeat the sanitizer and the scan modelled here; `isValidFinancialResultJson`.
- `matchDelegationPattern`, the specialization rules and the launch pattern: uninterpreted predicates.
- Saturated specialists are given as a set of specializations, not as names to be upper-cased; the objective is not parsed for files, reasons or fields; plan tasks and rationales.
- Employee ids that are names of inherited object properties.
- Delegation with a custom matrix that names more than one specialization without a rank, whose order is that of first touch.
- The stores of the action ledger beyond create, update and complete; HTTP routes, Prisma adapters, the web application, prompts and LLM calls.

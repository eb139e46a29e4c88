# Revenue Sentinel: a verified model

Revenue Sentinel watches a sales pipeline, opens incidents, has agents propose interventions, and performs the ones
policy and people allow. This project models the parts where being wrong costs something and proves what they promise.

- **Effects.** `Actions`, `Executor`, `ExecutionPhase`: one authorised effect is claimed by inserting a row under a
  unique key, performed with bounded retry, recorded, and reconciled by a person if its fate is unknown.
  `EffectProtocol` is the same protocol as a transition system of any number of workers with crashes, decisions,
  sweeps and reconciliations interleaved, each reading its row in one step and writing it in a later one, and a history
  of claims, calls and ok answers per key; `EffectSafety`,
  `EffectProvenance`, `EffectFinality`, `EffectRepeats` and `EffectRuns` prove what holds over its whole runs, and
  `Resumes` what a later pass over the same rows does.
- **Authority.** `Policy`, `Approvals`, `Authorization`, `Dispatch`: tiers, the decision table, approvals and their
  expiry, the only source of grants, the write gate and the tool dispatcher.
- **Money.** `Rounding`, `Pricing`, `Ledger`, `CostCentre`; and `BudgetProtocol`, `BudgetSafety`, `BudgetRuns`, where many
  runs share budgets, each in its own transaction, admitting against figures that may be stale.
- **Figures.** `RiskBands`, `Impact`, `Ranking`, `Outranking`, `Governance`: the at-risk figure through two tables and four
  roundings, the ranking, and the rows it is stored in.
- **Ingestion.** `Mirror`, `Ingestion`, `IngestionLaws`, `IngestionOutcomes`, `EventStore`: raw events, normalized events,
  signals, incidents.
- **Lifecycle.** `Incidents`, `Runs`: two state machines kept in step and an audit trail that replays; `Sessions` and
  `SessionLaws`, the same with invocations overlapping.
- **Encoders.** `Prompts`, `Evidence`, `EvidenceContents`, `Digest`: escaping with a decoder, what a rendered block says, and
  a length-prefixed encoding with its decoder.
- `Vocabulary` and `Sorting` are shared.

Where the code changes rows in place the model is a class whose methods are proved equal to a function of the old state,
and the theorems are lemmas about that function. Time, adapters, model output, detectors and schema validation are
parameters, arbitrary in every theorem. `dafny verify dfyconfig.toml` checks everything.

## Where the code and its documentation differ

The model follows the code. Each difference is a proved counterexample or an exact condition.

- The executor's text says the claim is committed before the tool is called
  (`src/revenue_sentinel/execution/executor.py:7-8`). `_claim` only flushes, and the caller's scope commits.
  `EffectProtocol` keeps both readings: `ClaimCommits` is the named assumption behind `AtMostOnePerformPerKey`; under
  `ClaimFlushes` a crash can repeat an effect (`FlushedClaimCanPerformTwice`), and it can be repeated exactly until the
  pass that inserted its row commits (`RepeatsExactlyUntilCommitted`). INDETERMINATE never arises
  (`FlushedClaimsAreNeverUnknown`), and what is committed is final (`CommittedRecordsAreFrozen`).
- With a durable claim, a settled row can be overwritten by a pass that read the claim as open or is still performing, and
  by a reconciliation that read the record before it was settled (`SettledStatusMovesIff`). Its status stands for good
  exactly when neither is left to say otherwise (`SettledStatusEverMovesIff`).
- An attestation is "never overwritten" (`src/revenue_sentinel/execution/reconciliation.py:165`, ADR-0025 decision 7) by a
  reconciliation that begins after it. One that read the record before can overwrite it (`AttestationCanBeOverwritten`),
  and nothing else can (`AttestationIsOverwrittenIff`).
- A FAILED record is never retried, reconciled or not.
- A decided request can be decided again at any later time (`LateApprovalIffAlreadyDecided`), and approval is read when the
  grant is given, not when the row is inserted (`WithdrawnApprovalCanStillBeClaimed`). `ClaimedUnderApprovalIff` says
  exactly when it still reads APPROVED there. A late sweep can expire a decided request
  (`LateSweepExpiresADecision`); nothing in the repository runs the sweep yet.
- A CRM task's key contains a date taken from the pass, so "the same key forever" holds on one day only, and resuming is
  "safe to call any number of times" exactly under the condition of `ResumePerformsNothingIff`: a task performed on one
  day is performed again on the next (`TaskIsPerformedOnTwoDays`).
- A CRM field update is never granted.
- A rejected or expired request still counts as awaiting approval, so its run does not complete and its incident stays
  AWAITING_APPROVAL unless the request is decided again (`CompleteExactlyWhenNobodyIsAwaited`, `NoIncidentIsEverRejected`).
- The reservation ignores cache writes (`CoveredIff`, `CacheWritesEscapeTheReservationIff`), and the overshoot bound holds
  exactly when no call costs more than was reserved (`StatedBoundHoldsIff`). Recording stores zero cache tokens, so no
  recorded cost shows it.
- A run's uncommitted charges are invisible to the others, so an admission can miss more than one reservation of another
  run. Within reservations the stated bound holds all the same, because a charge keeps the global row until its run commits
  (`OvershootIsBounded`).
- An incident budget is checked and never charged.
- The tier-3 risk score does not keep every prohibited action below every permitted one (`ProhibitedOutscoresIff`).
- The stall-risk cap of 0.85 never binds.
- Evidence keys are not escaped (`BundleIsDelimitedIff`).
- Two investigations of one incident can both succeed (`OverlapLeavesTwoRuns`): a run stays in step with its incident
  exactly as long as no investigation writes over one that has moved since it was read (`SessionsStayInStepIff`).
- A stored event is never refreshed when its mirror row changes (`FirstReceivedStands`).
- From the thousandth on, an incident gets a reference of four digits and can never be investigated, since a stored
  incident is validated against three (`InvestigationSucceedsIff`).

## Model

| member | source | states |
|---|---|---|
| `Executor.ActionStore.Claim` | src/revenue_sentinel/execution/executor.py:124-166 | A claim succeeds exactly when no row has the key, inserts the one EXECUTING row, and otherwise changes nothing |
| `Executor.ActionStore.ResolveExisting` | src/revenue_sentinel/execution/executor.py:169-200 | A found row is reported as it stands, except that an open claim is first marked INDETERMINATE; a FAILED row is never performed again |
| `Executor.ActionStore.Perform` | src/revenue_sentinel/execution/executor.py:203-249 | The retry loop leaves the row, the call log and the result that the answers determine, one call an attempt, stopping where `Settle` stops |
| `Executor.ActionStore.ExecuteGrant` | src/revenue_sentinel/execution/executor.py:84-121 | A whole pass over one grant equals the specification `Execute`; an unroutable action is an error that touches nothing |
| `Executor.ActionStore.ReconcileRecord` | src/revenue_sentinel/execution/reconciliation.py:139-229 | A finding settles the record and appends one audit event, or is refused in the order of the checks and changes nothing; every attestation keeps its event |
| `Executor.SecondExecutionIsANoOp` | src/revenue_sentinel/execution/executor.py:84-200 | Executing a key again, from any records and with any answers, calls nothing and changes nothing |
| `Actions.SettleStopsAtFirstDecisiveAnswer` | src/revenue_sentinel/execution/executor.py:203-262 | The loop goes round again exactly after an answer that is not ok and whose error code is RATE_LIMITED or ADAPTER_ERROR, and never after the third; the record is SUCCEEDED exactly when the last answer was ok |
| `Actions.ExecuteExactly` | src/revenue_sentinel/execution/executor.py:84-249 | Field by field: a free key gets one record of the grant settled by the last of at most three answers, stamped with the instant only if it succeeded; a taken key gets no call and its record is reported, an open claim as INDETERMINATE |
| `Actions.ArgumentsAreThePersistedValues` | src/revenue_sentinel/execution/arguments.py:48-81 | Which tool argument holds which persisted value, word for word, beside two constants and a due date two days after the pass |
| `Actions.SameEffectIff` | src/revenue_sentinel/execution/arguments.py:48-81 | Two proposals have one idempotency key exactly when they agree in every value the tool is given; run, rank and the rest tell no effects apart |
| `Actions.ReconcileExactly` | src/revenue_sentinel/execution/reconciliation.py:139-229 | Reconciliation succeeds on exactly the unattested INDETERMINATE records with a non-blank actor and basis, settles the status as the finding says, records the stripped actor, the instant and the stripped basis, changes nothing else, and cannot be repeated |
| `Actions.StripEmptiesExactlyBlanks` | src/revenue_sentinel/execution/reconciliation.py:139-192 | Stripping empties exactly the blank strings, so a blank attestation is always refused and a kept one is never blank |
| `Actions.StripIsTheMiddle` | src/revenue_sentinel/execution/reconciliation.py:176-192 | Stripping takes white space off both ends and nothing else |
| `Actions.KeyIsStableIff` | src/revenue_sentinel/execution/arguments.py:39-81 | An intervention keeps its idempotency key from one instant to another exactly when it is not a CRM task or the day is the same |
| `EffectProtocol.IdentitiesNeverChange` | src/revenue_sentinel/execution/executor.py:124-249 | No step of any worker changes a record's identity or authorisation; rows appear only by a claim of an absent key and vanish only by a rollback of what was never committed |
| `EffectSafety.AtMostOnePerformPerKey` | src/revenue_sentinel/execution/executor.py:84-249 | With durable claims, over every interleaving of workers, crashes, resumes and reconciliations: one claim, at most three calls and at most one ok per key, and never two workers performing it |
| `EffectSafety.ClaimsAreConserved` | src/revenue_sentinel/execution/executor.py:124-166 | Under either reading of the claim, rows inserted equal rollbacks plus the standing row, with three calls and one ok at most for each life of the row |
| `EffectProvenance.EveryRecordWasAuthorised` | src/revenue_sentinel/execution/authorization.py:113-182 | Every record in every reachable state was claimed under agreeing, non-denying decisions and, where required, an APPROVED request decided by somebody else and first decided before it expired |
| `EffectProvenance.OnlyAReversalWithdraws` | src/revenue_sentinel/governance/approvals.py:121-168 | An APPROVED request stops reading APPROVED in exactly two ways: a decision against it by someone other than its requester lands, or a sweep that read it as pending before it was decided lands late |
| `EffectProvenance.RequestMoves` | src/revenue_sentinel/governance/approvals.py:121-168 | A request's status is what the last write to it says, a decision naming the column only if it changes what it read; no other step of anybody touches it |
| `EffectProvenance.ClaimedUnderApprovalIff` | src/revenue_sentinel/execution/authorization.py:142-182 | In every run, at the step that inserts a record resting on an approval, the request reads APPROVED exactly when nothing was written to it since the grant or the last write approved |
| `EffectFinality.SettledRecordsAreFrozen` | src/revenue_sentinel/execution/executor.py:169-200 | In every run in which neither passes nor reconciliations of a key overlap, a SUCCEEDED or FAILED record is never written again |
| `EffectFinality.SettledStepIsFaithful` | src/revenue_sentinel/execution/reconciliation.py:139-229 | In such a run an INDETERMINATE record is left only by the write of a reconciliation, which records its finding, actor, time and basis, and its row never goes away |
| `EffectFinality.SettledStatusMovesIff` | src/revenue_sentinel/execution/executor.py:169-249 | A settled status can move in the next step exactly when some live pass read the claim as open or is still performing an effect since resolved, or some open reconciliation of it found otherwise |
| `EffectFinality.SettledStatusEverMovesIff` | src/revenue_sentinel/execution/executor.py:169-249 | With durable claims, a settled record can ever come to say something else, in any continuation, exactly when some live pass on its key read the claim as open or is still performing without an answer that says what the row says, or some reconciliation of it is still open with another finding |
| `EffectFinality.AttestationIsOverwrittenIff` | src/revenue_sentinel/execution/reconciliation.py:159-192 | With durable claims, the actor, instant and basis of an attested record can ever be overwritten exactly when another reconciliation of its key, which read it before it was attested, is still open and says something else |
| `EffectFinality.FlushedClaimsAreNeverUnknown` | src/revenue_sentinel/execution/executor.py:124-158 | With the claim only flushed, no reachable record is INDETERMINATE, no pass finds an open claim, every reconciliation is refused and none is ever open |
| `EffectRepeats.RepeatsExactlyUntilCommitted` | src/revenue_sentinel/execution/executor.py:124-166 | As the code runs it: from every reachable state, an effect whose key was claimed can be called again, and answered ok again, exactly when its row is absent or the pass that inserted it has not committed; nothing new need be proposed where an intervention asking for it is on file, with no lapsed request if it needs one |
| `EffectRepeats.AnsweredWasClaimed` | src/revenue_sentinel/execution/executor.py:84-121 | Every key whose tool was called or answered ok was claimed, so that condition covers every such effect |
| `EffectRepeats.CommittedRecordsAreFrozen` | src/revenue_sentinel/execution/executor.py:169-249 | As the code runs it, with no assumption on overlap: a committed record is SUCCEEDED or FAILED, is never written again, and its tool is never called again |
| `EffectRuns.UninterruptedWorkerIsTheExecutor` | src/revenue_sentinel/execution/executor.py:84-249 | An uninterrupted worker of the interleaved protocol leaves the records and makes the calls the sequential executor specifies |
| `EffectRuns.TransactionsExactly` | src/revenue_sentinel/execution/executor.py:124-166 | What a worker's transaction shows to others: a claim inserts exactly when the key is free and waits exactly on another worker's uncommitted row; a commit hands over the worker's rows and changes nothing else |
| `EffectRuns.EffectCanBeCommitted` | src/revenue_sentinel/db/session.py:45-56 | A run of the code's own transactions in which an effect is performed once, recorded and committed |
| `EffectRuns.FlushedClaimCanPerformTwice` | src/revenue_sentinel/db/session.py:45-56 | Counterexample: with the claim only flushed, a crash after an ok answer lets the next pass perform the same key again |
| `EffectRuns.OverlapCanRecordASuccessAsFailed` | src/revenue_sentinel/execution/executor.py:169-200 | Counterexample: overlapping passes can leave FAILED on an effect whose one call was answered ok |
| `EffectRuns.AttestationCanBeOverwritten` | src/revenue_sentinel/execution/reconciliation.py:159-192 | Counterexample: with durable claims and one pass at a time, two reconciliations that both read the unknown record both succeed, and FAILED by the second stands over SUCCEEDED by the first |
| `EffectRuns.WithdrawnApprovalCanStillBeClaimed` | src/revenue_sentinel/execution/authorization.py:167-182 | Counterexample: an approval withdrawn between grant and claim is too late |
| `EffectRuns.LateSweepExpiresADecision` | src/revenue_sentinel/governance/approvals.py:153-168 | Counterexample: a sweep that read the request as lapsed writes EXPIRED over a decision made in time |
| `Authorization.GrantedExactly` | src/revenue_sentinel/execution/authorization.py:113-182 | Exactly what can ever be granted: a task or notification recorded as allowed, or an email draft recorded as needing approval whose request is APPROVED |
| `Authorization.RefusedExactly` | src/revenue_sentinel/execution/authorization.py:113-182 | Which refusal is given when, in the order of the checks, with the drifted decisions or the status the request reads |
| `Authorization.FieldUpdatesNeverRun` | src/revenue_sentinel/execution/authorization.py:132-139 | A CRM field update always ends in drift or denial at execution, because the fresh evaluation sees no changed fields |
| `Authorization.EveryGrantPassesTheGate` | src/revenue_sentinel/execution/service.py:145-197 | Every grant has a registered write tool and arguments for it, its engine lets exactly that tool through, and every other tool is answered as if nothing was approved |
| `Policy.ClassifyFieldUpdate` | src/revenue_sentinel/governance/tiers.py:112-143 | The loop over changed fields yields the highest tier and the rules without repetition, in order |
| `Policy.FieldUpdateDecision` | src/revenue_sentinel/governance/tiers.py:112-143 | A field update is denied exactly when it names no field or an unclassified one, and allowed exactly when it names only non-material ones |
| `Policy.EvaluateExactly` | src/revenue_sentinel/governance/tiers.py:61-143 | For every action name and any fields: the decision, the tier and exactly which rules matched; an unknown name is denied |
| `Policy.ApprovalLiftsExactlyOneAnswer` | src/revenue_sentinel/execution/policy_binding.py:49-70 | For all tools, tiers and arguments the approved engine changes one answer only: approval-required for the granted tool becomes allow; no denial is lifted |
| `Policy.RegistryTierNeverLoosens` | src/revenue_sentinel/governance/policy_engine.py:97-124 | The engine is never laxer than the registry tier or the action and fields ask, and denies exactly when one of them does |
| `Policy.FieldUpdatesAlwaysNeedAPerson` | src/revenue_sentinel/mcp/gate.py:51-82 | At the gate the field-update tool is refused without an approval, and with one it passes exactly for the classified fields |
| `Dispatch.ToolServer.Dispatch` | src/revenue_sentinel/mcp/dispatcher.py:58-158 | Every call ends in the envelope and the status that validation, the gate and the handler determine, with one ledger row under the next ordinal; the handler runs exactly when the arguments are valid and, for a write, the gate allows it |
| `Dispatch.RegistryExactly` | src/revenue_sentinel/mcp/registry.py:62-200 | The registry by name: eleven tools that read or compute, two tier 1 writes and two tier 2 writes |
| `Approvals.ApprovalRequest.DecideRequest` | src/revenue_sentinel/governance/approvals.py:121-150 | A decision updates the row in place as the specification `Decide` says, including the expired status written before the refusal |
| `Approvals.ExpireLapsed` | src/revenue_sentinel/governance/approvals.py:153-168 | The sweep marks every lapsed pending request, touches no other, and counts them |
| `Approvals.DecidedInTimeBySomeoneElse` | src/revenue_sentinel/governance/approvals.py:109-150 | Over any sequence of decisions and sweeps, a decided request was first decided while pending, before its expiry, by someone other than its requester |
| `Approvals.LateApprovalIffAlreadyDecided` | src/revenue_sentinel/governance/approvals.py:136-150 | After its expiry a request can still become APPROVED exactly when somebody had already decided it |
| `ExecutionPhase.RunExecutionPhase` | src/revenue_sentinel/execution/service.py:83-111 | The loop over a run's interventions in rank order equals the specification `RunPhase` |
| `ExecutionPhase.RankedIsFrom` | src/revenue_sentinel/execution/service.py:83-171 | A pass goes over the interventions of its run, each as often as it is stored and no other, the best ranked first |
| `ExecutionPhase.EachLandsOnce` | src/revenue_sentinel/execution/service.py:61-164 | Every intervention lands in exactly one of executed and refused, in rank order, and each executed result reports the record that now stands under its key |
| `ExecutionPhase.SecondPassIsANoOp` | src/revenue_sentinel/execution/service.py:83-171 | A second pass at the same instant with no new decision performs nothing, changes no record and gives the same refusals, even if the first began from claims left by a crash |
| `Resumes.ResumePerformsNothingIff` | src/revenue_sentinel/execution/service.py:83-171 | A resume at any later instant over the same tables makes no call and changes no record exactly when it is the same day or every granted CRM task already has a settled or unknown record under its key for the new day; its completeness is that of the first pass |
| `Resumes.TaskIsPerformedOnTwoDays` | src/revenue_sentinel/execution/arguments.py:48-57 | Counterexample: a task performed by one pass is performed again by a resume on the next day, under another key |
| `ExecutionPhase.CompleteExactlyWhenNobodyIsAwaited` | src/revenue_sentinel/execution/service.py:127-131 | A pass completes exactly when no email draft recorded as needing approval lacks an APPROVED request; a rejected or lapsed one keeps the run waiting |
| `Ledger.AffordableExactly` | src/revenue_sentinel/cost/governor.py:74-94 | A call is refused exactly when some hard budget of its own run, of its own incident or of all cannot take the amount, and the refusal names the first such |
| `Ledger.OthersBudgetsNeverMatter` | src/revenue_sentinel/cost/governor.py:134-156 | A budget of another run or incident, or a soft one, never changes the answer, wherever it stands |
| `Ledger.CostLedger.Write` | src/revenue_sentinel/cost/ledger.py:78-101 | Each entry is appended and every budget stays its opening figure plus the entries charged to it |
| `Ledger.CostLedger.Consume` | src/revenue_sentinel/cost/ledger.py:104-128 | An amount is added to the run's and the global budgets and to no other; zero writes nothing |
| `Ledger.CostLedger.RecordModelCost` | src/revenue_sentinel/cost/ledger.py:33-60 | A call is charged what its token counts price to, with one entry, or nothing when it cannot be priced |
| `Ledger.CostLedger.RecordToolCost` | src/revenue_sentinel/cost/ledger.py:63-75 | A tool call leaves a zero entry and moves no budget |
| `Ledger.CostLedger.MeterModelCall` | src/revenue_sentinel/orchestration/graph.py:110-126 | A model call is recorded with exactly one entry of its cost, or neither is when it cannot be priced |
| `Ledger.CostLedger.MeterToolCall` | src/revenue_sentinel/mcp/dispatcher.py:134-155 | A tool call is recorded with exactly one zero entry |
| `Ledger.ChargesAreTotals` | src/revenue_sentinel/cost/ledger.py:104-138 | What a budget is charged is what its scope's entries add up to: a run's total, the grand total, or nothing for an incident |
| `BudgetProtocol.BudgetsAreConserved` | src/revenue_sentinel/cost/ledger.py:78-128 | In every reachable state each committed budget is its opening figure plus exactly the committed entries charged to it; rollbacks take both away |
| `BudgetProtocol.IncidentBudgetsNeverMove` | src/revenue_sentinel/cost/ledger.py:115-127 | An incident's budget is checked before every call and charged after none |
| `BudgetSafety.OvershootIsBounded` | src/revenue_sentinel/cost/governor.py:96-117 | Over every interleaving of admissions, charges, commits and crashes, committed, uncommitted and in-flight spend against a hard global budget is within limit + (N-1)R + NE, where E is the most a call costs beyond its reservation; with E zero that is the stated bound, and the limit itself when N is 1 |
| `BudgetSafety.RunBudgetHolds` | src/revenue_sentinel/cost/governor.py:119-157 | A hard run budget is exceeded by at most E, so never when no call costs more than was reserved, however many other runs are live |
| `BudgetRuns.StatedBoundHoldsIff` | src/revenue_sentinel/cost/governor.py:96-117 | The governor's bound holds over every run exactly when no call may cost more than its reservation |
| `BudgetRuns.OvershootIsReached` | src/revenue_sentinel/cost/governor.py:96-117 | For every N, R, E and limit at least R there is a run that commits exactly limit + (N-1)R + NE, so the bound cannot be lowered |
| `BudgetRuns.CallsNeverPassTheCeiling` | src/revenue_sentinel/cost/client.py:50-80 | No run is charged for more than twelve model calls, the one in flight included, in any interleaving |
| `BudgetRuns.AdmittedExactly` | src/revenue_sentinel/cost/governor.py:66-178 | Admission end to end: fewer than twelve model calls and thirty tool calls, and the reservation fits every hard budget that concerns the run, with its own uncommitted charges counted |
| `BudgetRuns.EndsExactly` | src/revenue_sentinel/db/session.py:45-56 | How a call and a run can end: a crash is always possible and takes back exactly what was not committed, a failed call costs nothing, and a charge waits for whoever holds the global row |
| `Rounding.HalfEvenIsNearest` | src/revenue_sentinel/cost/pricing.py:97-105 | Half-even rounding gives a nearest multiple and, of two, the even one |
| `Pricing.CostMonotone` | src/revenue_sentinel/cost/pricing.py:74-105 | The rounded cost never falls when any token count grows |
| `Pricing.PricesArePublished` | src/revenue_sentinel/cost/pricing.py:37-50 | The three priced models, and how output and cache prices follow from the input price |
| `Pricing.ReservationCovers` | src/revenue_sentinel/cost/pricing.py:108-117 | A call with no cache writes whose input and cache reads fit the estimate and whose output fits the cap never costs more than its reservation |
| `Pricing.CoveredIff` | src/revenue_sentinel/cost/pricing.py:74-117 | For every call, whatever its counts, the reservation covers its cost exactly when the unrounded price stays below the reservation and a half microdollar, or meets it on an even reservation |
| `Pricing.CacheWritesEscapeTheReservationIff` | src/revenue_sentinel/cost/pricing.py:74-117 | For a call that fills its estimate and cap, the reservation covers it exactly when it writes no cache, or one or (even reservations) two tokens on the cheapest model |
| `Pricing.SplittingShiftsLittle` | src/revenue_sentinel/cost/pricing.py:97-105 | Pricing n calls one by one and their tokens together differ by at most (n+1)/2 microdollars |
| `Pricing.SplittingUncachedIsExact` | src/revenue_sentinel/cost/pricing.py:97-105 | With no cache tokens the two are equal |
| `CostCentre.ByIncident` | src/revenue_sentinel/api/centres.py:103-150 | The bucket loop and the sort give the specified views |
| `CostCentre.IncidentsAddUp` | src/revenue_sentinel/api/centres.py:59-150 | Each incident appears once, the dearest first and then by reference; its costs and its counts of calls are those of its own entries, and over all incidents they add up to the totals |
| `CostCentre.CallCountsAgree` | src/revenue_sentinel/api/centres.py:69-72 | With one entry for each recorded call, the centre's counts of call rows are what its incidents' counts add up to |
| `CostCentre.TypesAddUp` | src/revenue_sentinel/api/centres.py:59-63 | The totals by cost type add up to the ledger's total, and their counts to its entries |
| `CostCentre.MixAgreesWithLedger` | src/revenue_sentinel/api/centres.py:153-186 | With no cache tokens the mix's figure for a model is exactly the sum of its calls' entries |
| `RiskBands.StallRiskFactor` | src/revenue_sentinel/analytics/risk_bands.py:84-102 | The band loop finds the last band reached; negative days and closed stages are errors, in that order |
| `RiskBands.UsageOffset` | src/revenue_sentinel/analytics/risk_bands.py:105-117 | The band loop finds the last growth band reached, the first one below them all |
| `RiskBands.FactorByStage` | src/revenue_sentinel/analytics/risk_bands.py:43-102 | The factor of each stage at each length of silence: the band itself for a proposal, four fifths of it for discovery, six fifths for negotiation |
| `RiskBands.CapNeverBinds` | src/revenue_sentinel/analytics/risk_bands.py:43-62 | The cap of 0.85 never binds: the largest factor is 0.78, and it is zero exactly below fourteen days |
| `Impact.FiguresAreOrdered` | src/revenue_sentinel/analytics/pipeline_impact.py:73-105 | There is a figure exactly for valid inputs, and 0 <= at risk <= gross <= weighted <= pipeline after stepwise rounding |
| `Impact.EachFigureIsRoundedHalfUp` | src/revenue_sentinel/analytics/pipeline_impact.py:73-105 | The four figures are one chain, each the last one's part rounded half up to the cent |
| `Impact.AtRiskMonotone` | src/revenue_sentinel/analytics/pipeline_impact.py:93-105 | The at-risk figure never falls when amount, probability or days grow and usage growth falls, through both tables and all four roundings |
| `Impact.RoundingCostsLittle` | src/revenue_sentinel/analytics/pipeline_impact.py:45-105 | The at-risk figure is within 1.78 cents of the unrounded product |
| `Ranking.KeptAreTheBest` | src/revenue_sentinel/agents/strategist.py:81-110 | The kept rows fall in composite, then in value, then rise in the action's spelling and the title; each is scored from its own draft, and no draft left out has a higher composite, or an equal one and comes before; an error exactly when there is nothing to score against |
| `Ranking.ScoreIsTheFormula` | src/revenue_sentinel/analytics/intervention_scoring.py:54-162 | What a draft scores in plain numbers: its share of the value at risk to the nearest cent, and that as a percentage of the weighted value over effort and risk and one, to the nearest hundredth |
| `Ranking.RankingIgnoresDraftOrder` | src/revenue_sentinel/analytics/intervention_scoring.py:169-187 | With distinct titles the ranking is the same for every permutation of the drafts |
| `Outranking.ProhibitedOutscoresIff` | src/revenue_sentinel/analytics/intervention_scoring.py:77-84 | A prohibited action can out-score a permitted one exactly when its recovery band is better and, for high against medium, the permitted one is tier 2 of high effort |
| `Outranking.CompositeIgnoresDealSize` | src/revenue_sentinel/analytics/intervention_scoring.py:116-134 | The composite is the same when the value and the weighted value are scaled together |
| `Governance.GovernanceStore.PersistGovernance` | src/revenue_sentinel/orchestration/persistence.py:204-270 | The loop writes the rows `Persisted` specifies and counts them |
| `Governance.GovernanceRowsAreRight` | src/revenue_sentinel/orchestration/persistence.py:221-270 | Rows at ranks 1..n carry the score and the policy outcome of their own draft, with one approval request for each REQUIRE_APPROVAL row and no other |
| `Sorting.SortIgnoresInputOrder` | src/revenue_sentinel/analytics/intervention_scoring.py:169-187 | Sorting by an order that separates the elements forgets the order they came in |
| `EventStore.Store.IngestSourceEvents` | src/revenue_sentinel/events/ingest.py:41-78 | Each event whose source key is new is stored, the rest are skipped, and the insertions are counted |
| `EventStore.Store.NormalizePending` | src/revenue_sentinel/events/normalize.py:100-138 | Every raw event without a normalized row is normalized in key order, or the first that cannot be typed is the error |
| `EventStore.Store.PersistCandidate` | src/revenue_sentinel/events/dispatcher.py:92-121 | A candidate is inserted unless a signal with its key exists; a dangling reference is an error |
| `EventStore.Store.RunDetectors` | src/revenue_sentinel/events/dispatcher.py:124-157 | The nested loops persist exactly the offered candidates, in order, and count contexts, candidates and new signals |
| `EventStore.Store.OpenIncidentForSignal` | src/revenue_sentinel/incidents/service.py:103-175 | A new signal opens one triaged incident with its two audit rows, or is refused for the reason the code gives |
| `EventStore.Store.RunIngestionCycle` | src/revenue_sentinel/events/pipeline.py:55-95 | The four stages in sequence equal the specification `Cycle`, and the summary counts what changed |
| `EventStore.Store.InTransaction` | src/revenue_sentinel/db/session.py:45-56 | A failed cycle leaves every table as it was and only draws references |
| `IngestionLaws.SecondCycleAddsNothing` | src/revenue_sentinel/events/pipeline.py:55-95 | For any mirror, any pure detectors and any starting tables, a second cycle at the same instant changes no table and draws no reference |
| `IngestionLaws.CyclesKeepEverythingMatched` | src/revenue_sentinel/events/pipeline.py:55-95 | After any sequence of cycles over any mirrors, raw and normalized events match one to one, each the envelope of its own raw event, and signals and incidents match one to one, with the same account, opportunity and severity |
| `IngestionLaws.NormalizedIsComplete` | src/revenue_sentinel/events/normalize.py:100-138 | Selecting by absence recovers: whatever was normalized before, afterwards nothing is missing |
| `IngestionLaws.IngestedAreOffered` | src/revenue_sentinel/events/ingest.py:41-78 | Every row a pass adds is one of the offered events, unaltered, with the cycle's instant |
| `IngestionLaws.EnvelopeExactly` | src/revenue_sentinel/events/normalize.py:40-97 | Which raw events can be typed, over their event type, data and references, and that the envelope carries their fields and exactly the references they give: none invented, none lost |
| `Mirror.SpellingsParse` | src/revenue_sentinel/events/normalize.py:66-76 | Every event type is read back from its own spelling and from no other string |
| `IngestionLaws.ContextIsExact` | src/revenue_sentinel/events/dispatcher.py:50-89 | A detector is shown the latest email, call or meeting about the opportunity, the account's usage by period, and every normalized event about the account or the opportunity as often as it was stored, no other, in order of occurrence, exactly when the account exists |
| `IngestionLaws.OfferedExactly` | src/revenue_sentinel/events/dispatcher.py:124-157 | A candidate is offered exactly when some detector finds it in the context of some opportunity |
| `IngestionLaws.NothingIsLost` | src/revenue_sentinel/events/pipeline.py:55-95 | After a cycle every event of the mirror is stored under its source key and every candidate found is signalled under its own, and every row added was offered |
| `IngestionOutcomes.CycleSucceedsIff` | src/revenue_sentinel/events/pipeline.py:55-95 | From tables any cycles have left, a cycle succeeds exactly when every raw event not yet normalized can be typed and every new candidate is about an account and an opportunity that are there |
| `IngestionOutcomes.CreatedExactly` | src/revenue_sentinel/events/dispatcher.py:92-121 | The signals a cycle stores are the candidates whose key no signal has, the first offered under each key, and no others |
| `IngestionOutcomes.OpeningSays` | src/revenue_sentinel/incidents/service.py:103-175 | Field by field, the incident and the two audit rows a new signal leaves |
| `IngestionLaws.FirstReceivedStands` | src/revenue_sentinel/events/ingest.py:41-78 | A source event whose key is stored is never stored again, even if the mirror row has changed since |
| `Incidents.IncidentStore.TransitionIncident` | src/revenue_sentinel/incidents/service.py:178-214 | A legal edge moves the incident and appends one audit row; anything else changes nothing and says why; every incident keeps replaying from its audit rows |
| `Incidents.IncidentStore.Open` | src/revenue_sentinel/incidents/service.py:103-175 | An incident is created DETECTED and moved to TRIAGED through the state machine, with both audit rows and a new reference |
| `Incidents.IncidentStore.RecordAudit` | src/revenue_sentinel/incidents/service.py:73-93 | An audit row about anything else is appended and disturbs no replay |
| `Incidents.TransitionsAreBounded` | src/revenue_sentinel/incidents/lifecycle.py:38-61 | An audit trail that replays records at most seven transitions less the rank of where it ends |
| `Incidents.EdgesByTarget` | src/revenue_sentinel/incidents/lifecycle.py:38-61 | The fourteen legal edges by where they lead; a state is terminal exactly when none leaves it |
| `Incidents.LifecycleIsBounded` | src/revenue_sentinel/incidents/lifecycle.py:38-78 | In a valid store no incident is moved more than seven times, and one with a closing instant never again |
| `Incidents.SevenIsReached` | src/revenue_sentinel/incidents/lifecycle.py:38-61 | The path through approval makes seven transitions, so the bound cannot be lowered |
| `Runs.Runner.RunInvestigation` | src/revenue_sentinel/orchestration/runner.py:140-270 | An investigation ends completed or paused as its phase reports, with one audit row for each hop by whoever makes it, or fails and leaves incident, audit trail and runs as they were |
| `Runs.Runner.RecordExecutionOutcome` | src/revenue_sentinel/orchestration/runner.py:301-359 | The run and its incident are walked to the same end, one legal edge at a time |
| `Runs.Runner.ResumeInvestigation` | src/revenue_sentinel/orchestration/runner.py:362-438 | A resume finishes a paused run when its phase is complete, with its two audit rows, is a no-op when it is not or the run is done, and otherwise changes nothing |
| `Runs.InvestigationSucceedsIff` | src/revenue_sentinel/orchestration/runner.py:140-270 | Exactly when an investigation succeeds; in particular never for a reference of four digits |
| `Runs.RunsStayInStep` | src/revenue_sentinel/orchestration/runner.py:301-438 | Over any sequence of openings, investigations and resumes a run is INTERRUPTED exactly when its incident is AWAITING_APPROVAL and COMPLETED exactly when it is COMPLETED, with one run an incident |
| `Runs.ResumeIsNeverIllegal` | src/revenue_sentinel/orchestration/runner.py:362-402 | In every such state a resume attempts no illegal transition, refuses an incident never investigated, and leaves a completed one alone |
| `Runs.NoIncidentIsEverRejected` | src/revenue_sentinel/incidents/lifecycle.py:38-61 | An incident at rest is TRIAGED, AWAITING_APPROVAL or COMPLETED: nothing takes the edges to the other terminal states |
| `SessionLaws.SessionsStayInStepIff` | src/revenue_sentinel/orchestration/runner.py:140-270 | Over every interleaving of investigations and resumes, each reading first and writing by id later: no incident has two runs, and every run is in step with its incident, exactly as long as every investigation that succeeds finds its incident still TRIAGED when it writes |
| `SessionLaws.TrailsReplayIff` | src/revenue_sentinel/incidents/service.py:178-214 | Over every such interleaving each incident's audit rows replay to its status exactly as long as every session that succeeds finds the incident where it read it |
| `SessionLaws.FreshSessionsAreSequential` | src/revenue_sentinel/orchestration/runner.py:140-438 | Sessions that each find what they read leave what the same invocations leave one at a time, in the order they finished |
| `SessionLaws.LandsIffAlone` | src/revenue_sentinel/orchestration/runner.py:140-438 | A session that finds what it read succeeds exactly when the same invocation on its own would, at that moment |
| `SessionLaws.OverlapLeavesTwoRuns` | src/revenue_sentinel/orchestration/runner.py:151-182 | Counterexample: two investigations of one incident both succeed, leaving two runs and a trail that does not replay |
| `Prompts.SequentialIsOnePass` | src/revenue_sentinel/intelligence/prompts.py:100-117 | The chains of replacements equal one-pass character maps |
| `Prompts.DecodeUndoesEscaping` | src/revenue_sentinel/intelligence/prompts.py:100-117 | A decoder gives back every string from its escaped form, in content and in attributes |
| `Prompts.EscapedHoldsNoMarkup` | src/revenue_sentinel/intelligence/prompts.py:100-117 | Escaped content holds no angle bracket, an escaped attribute no quote either |
| `Evidence.BundleIsDelimitedIff` | src/revenue_sentinel/intelligence/prompts.py:120-157 | A bundle of n items holds n opening and n closing tags, alternating and nothing else, exactly when no key at any depth holds an opening bracket; each such bracket adds one piece of markup |
| `Evidence.KeysCanForgeADelimiter` | src/revenue_sentinel/intelligence/prompts.py:120-136 | Counterexample: one item whose key is a closing tag has three pieces of markup |
| `Evidence.InsertionOrderNeverShows` | src/revenue_sentinel/intelligence/prompts.py:120-124 | Rendering does not depend on the order keys were inserted in |
| `EvidenceContents.ScalarSays` | src/revenue_sentinel/intelligence/prompts.py:127-136 | Text and numbers read back from their rendering, which holds no markup; null and the booleans have their spellings |
| `EvidenceContents.ObjectSays` | src/revenue_sentinel/intelligence/prompts.py:127-136 | A nested object is all its members in key order, each under its own key |
| `EvidenceContents.ListSays` | src/revenue_sentinel/intelligence/prompts.py:127-136 | A list is the renderings of all its items, in order |
| `EvidenceContents.ContentSays` | src/revenue_sentinel/intelligence/prompts.py:120-124 | The content has one line for each entry in key order: its own key, a colon, its own value |
| `EvidenceContents.BlockSays` | src/revenue_sentinel/intelligence/prompts.py:139-147 | A block is its tags around its content; its two attribute values decode to the item's reference and source |
| `EvidenceContents.BundleSays` | src/revenue_sentinel/intelligence/prompts.py:150-157 | A bundle is its items' blocks, one a line break apart, in the order given |
| `Digest.PromptDigest` | src/revenue_sentinel/intelligence/digest.py:29-48 | The loop hashes exactly the length-prefixed encoding of model, effort, system prompt, user content and schema, in that order |
| `Digest.PartsReadBack` | src/revenue_sentinel/intelligence/digest.py:40-48 | Any list of parts can be decoded back from its bytes |
| `Digest.OnlyEncodingsDecode` | src/revenue_sentinel/intelligence/digest.py:40-48 | Only encodings decode, so encoding and decoding are inverse |
| `Digest.RequestsNeverCollide` | src/revenue_sentinel/intelligence/digest.py:29-48 | Two requests are hashed over the same bytes exactly when they agree in every part |

## Left out

- EffectSafety.AtMostOnePerformPerKey: assumes what `_claim` wrote is durable when it returns, which the code's own transactions do not give; `EffectRepeats.RepeatsExactlyUntilCommitted` states exactly what holds without it.
- EffectFinality.SettledRecordsAreFrozen: needs passes and reconciliations of a key not to overlap; `EffectFinality.SettledStatusEverMovesIff` and `EffectFinality.AttestationIsOverwrittenIff` state exactly when a settled status or an attestation can ever move, and `EffectRepeats.CommittedRecordsAreFrozen` needs no such thing of the code's own transactions.
- BudgetSafety.OvershootIsBounded: admission reads the figure committed at that moment, as READ COMMITTED does, and runs live at once have different ids.
- BudgetRuns.CallsNeverPassTheCeiling: says nothing of tool calls, whose ceiling is only looked at before a model call.
- Impact.RoundingCostsLittle: amounts and probabilities are exact reals; NaN, infinity and the 28-digit context of decimals are not modelled.
- Ranking.KeptAreTheBest: the composite is one exact fraction rounded once; the intermediate 28-digit divisions are not modelled.
- EffectRepeats.RepeatsExactlyUntilCommitted: a proposal is visible at once, while a first investigation writes its interventions in the transaction that executes them; a crash there takes them too, and the same intervention has to be proposed again, which a continuation may do.
- EffectProvenance.EveryRecordWasAuthorised: under `ClaimFlushes` too a proposal is visible at once, so a record may rest on one whose own transaction is still open.
- Approvals.DecidedInTimeBySomeoneElse: decisions and sweeps of a request one after another; `EffectProvenance.RequestMoves` and `EffectProvenance.EveryRecordWasAuthorised` let them overlap.
- Approvals.LateApprovalIffAlreadyDecided: likewise one after another; a decision in time that is still open at the expiry lands all the same.
- Runs.RunsStayInStep: one invocation at a time; `SessionLaws.SessionsStayInStepIff` states exactly when it survives overlap. The graph between two transitions is one outcome, the phase it reports or an exception.
- Digest.RequestsNeverCollide: parts are byte strings; UTF-8 and the JSON text of the schema come before them, SHA-256 after them and is taken as injective.
- IngestionLaws.EnvelopeExactly: a raw row's source system is one the column's own type admits, and its timestamp, which ingestion itself wrote, is the instant it spells.
- Pricing.CacheWritesEscapeTheReservationIff: speaks of calls that fill their estimate and cap; `Pricing.CoveredIff` covers every call.
- ExecutionPhase.SecondPassIsANoOp: fixes the instant; `Resumes.ResumePerformsNothingIff` states what a later one does.
- EventStore.Store.OpenIncidentForSignal: the title is not modelled, and references are their numbers.
- Idempotency keys are the hashed values themselves, row identifiers are row numbers or the unique key they stand for, and an intervention names its one evaluation and its one approval request.
- PostgreSQL, SQLAlchemy sessions and migrations are tables, unique keys and insert-if-absent; isolation beyond what the protocols state is not modelled.
- The live and fixture model clients, LangGraph, the MCP transport and the simulated adapters are arbitrary answers.
- The stalled-opportunity detector and the window arithmetic are any pure function of the context.
- Hypotheses, citations, transitions between graph nodes and trace identifiers: rows written once and read by nobody modelled here.
- Backoff delays, log lines, reasons and messages: no outcome depends on them.
- The dashboard, CLI, HTTP routes, seeding and the evaluation rubric: presentation and plumbing.

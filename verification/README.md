# ProcessGuard incident pipeline: model and proofs

ProcessGuard watches the sensors of chemical-treatment plants, turns correlated anomalies into incidents, and
takes each incident through diagnosis, risk assessment, recommendation, a human decision where the risk demands
one, execution on the maintenance system (CMMS), and learning from the outcome. Several agents, the HTTP
endpoints and a resolution poller share one incident store and exchange bus messages. This project models that
pipeline, the arithmetic that feeds it and the deterministic checkers that guard it, and proves properties of
them with Dafny. `dafny verify dfyconfig.toml` checks everything.

## How it is organised

- **The protocol.** `Incidents` gives every transaction of the store as a function on one incident's rows;
  `Store` is the store itself, a class whose methods are proved against those functions. `Protocol` is the
  transition system: one event for each awaited database or CMMS call of each agent, call and poller, with
  messages that may be late, repeated, reordered or lost, passes that may end at any await, and crashes that
  drop everything in memory. `Invariant` states what every reachable incident satisfies; `PipelineSteps`,
  `DecisionSteps`, `ExecutionSteps` (with `OrderSteps`), `RepeatSteps`, `ClosingSteps`, `SourceSteps` (in the
  file of `Approval`) and `AssessmentSteps` show that every event keeps it; `Runs` lifts it to all incidents and
  all runs; `Safety`, `Decisions`, `Approval`, `Repetition`, `Learning` and `Equipment` state the results;
  `Examples` holds the concrete runs that break tempting promises. `Entitlement` says who may decide in the terms
  of the stored row. Mutual exclusion of passes is not assumed: it is proved from the in-memory guards.
- **The handlers.** `Agents` and `RootCause` hold the agents' handlers and the decision endpoint as methods that
  update the store, each run without interruption; `ActionRuns`, `StageRuns` and `DiagnosisRuns` show that the
  handlers of the Action Agent, the Orchestrator and the Root-Cause Agent are runs of the protocol.
- **Detection.** `Scoring` (bands, rolling baselines, severity), `Correlation` (grouping, sorting, greedy
  linking), `Detection` (the pruned buffer and the agent), `Risk` (severity and HITL level), `TepReplay` (the
  replay engine that feeds recorded process data).
- **Checkers and selectors.** `Citation`, `Recommendation`, `Mapping`, `Retrieval`, `Corpus`, with `Text`,
  `Lines` and `Numbers` for the operations they rely on. `CitedText`, `ReorderText`, `RecommendationText` and
  `MappingText` state what the parsers do in the characters of the text that they read.

Messages are delivered one at a time by the bus listener, so that the program has fewer interleavings than the
model; everything proved for all runs of the model holds for those. A diagnosis is any accepted verdict or the
withheld one, a recommendation any list of actions, and a CMMS reply any outcome.

## What the code does not promise, although it reads as if it did

- The Action Agent's description says that a crash and restart, or a duplicate event, can never create a second
  work order for one approval (agent-service/app/agents/action/agent.py:26-28). It can, in two ways: the reply to
  an accepted order is lost and the client retries, with one pass and one delivery (`RetryRepeatsOrder`), or the
  pass ends between the CMMS call and the `succeeded` row and the approval message is delivered once more
  (`CrashRepeatsOrder`). The exact condition, for all runs: an accepted attempt places a second order for its
  operation if and only if an order for it was lost before, to an earlier attempt of the same call or to an
  earlier pass (`SecondOrderIff`); no operation is ordered twice for one approval if and only if none was ordered
  again after a loss (`OrderedOnceIff`), which holds whenever nothing was lost (`NothingLostNothingRepeated`). The
  idempotency guard misses an existing order exactly when orders were lost (`GuardMissesOnlyLosses`). How many
  orders there are: `OneOrderPerSuccess` says when they are just the succeeded rows, `OrdersBounded` bounds them
  in any case.
- `resolved` has no outgoing transition in the table (agent-service/app/agents/orchestrator/agent.py:48-61), but
  stage writes do not look at the status: a running assessment takes a resolved incident back into the pipeline,
  and then two incidents of one equipment are active (`ResolvedIsReopened`, `OneActiveStep`).
- An approval does not stay granted until it is acted upon. No automated step grants one (`OnlyPeopleApprove`),
  but any stage pass that is still running withdraws one with its save, be it an assessment, a recommendation or
  the gate (`LateGateWithdrawsApproval` is such a run). These saves, and the results, rejections and resolutions
  that conclude an approval, are exactly what ends it (`ApprovalEndsIff`, `ApprovalStaysIff`); a gate pass that
  reads an approved incident always goes on to such a save (`GateReadWithdraws`, `GateSaves`).
- The Root-Cause Agent's description says that an honest answer of insufficient evidence is recorded as needing
  human review (agent-service/app/agents/root_cause/agent.py:19-20). The very answer that its prompt prescribes for
  that case (:83-84) is stored with confidence 0 and without any citation, as investigating, and announced to the
  next stage (`PrescribedAnswerGoesOn`; `InsufficiencyGoesOn` for every such answer). Human review follows if and
  only if both answers are malformed or have an unsupported bullet without declaring insufficiency
  (`ReviewedIff`).
- With a gap setting of zero or less the pruned buffer loses reports (`PruningIsSafe`); with a negative
  correlation window the freshest cluster is not the component of the newest observation when two observations
  tie for newest (`ClusterIsComponent`).

## Model

| member | source | states |
|---|---|---|
| Safety.ExternalWriteWasApproved | agent-service/app/agents/action/agent.py:195-203 | in every run, each order the CMMS accepted has an older Approvals row "approved" whose decider is of the incident's site, has a role level of at least the row's level, and had read the incident as awaiting approval |
| Safety.ApprovalPrecedesWrite | agent-service/app/agents/action/agent.py:294-318 | the step that places an order starts in a state that already holds an approval row |
| Safety.OnlyPeopleApprove | agent-service/app/api/incidents.py:220-246 | in every run, only a decision call writes an approval row or turns an incident approved; no automated step does |
| Decisions.DecisionWasLetIn | agent-service/app/api/incidents.py:214-246 | in every run, each decision row goes back to a request of the person it names, let in at an earlier state that awaited approval, whose site is the incident's, whose role the policy lists with at least the level stored at that state, and the row carries exactly that level |
| Decisions.OrderWasCleared | agent-service/app/agents/action/agent.py:195-203 | in every run, behind each order the CMMS accepted is an older approval that was let in that way |
| Decisions.RejectionNeedsReason | agent-service/app/api/incidents.py:240-242 | in every run, a rejection let in while the stored level is 3 or more has a reason with a character that is no white space |
| Entitlement.MayDecideIff | agent-service/app/api/incidents.py:226-242 | a caller is let in if and only if the incident awaits approval, the sites agree up to case, the role covers the stored level (the required one, then 2, when absent or zero), and a rejection from level 3 up has a reason |
| Entitlement.MayResolveIff | agent-service/app/api/incidents.py:306-332 | a manual resolution is let in if and only if the role may resolve, the sites agree and the incident is not resolved |
| Approval.ApprovalEndsIff | agent-service/app/agents/orchestrator/agent.py:133-158 | in every run, a step from an approved incident ends the approval if and only if it is the save of a running assessment, recommendation or gate, which takes it back to risk_assessed, awaiting_approval or auto_informed with the approval row kept, or a result, rejection or resolution |
| Approval.ApprovalStaysIff | agent-service/app/core/db.py:555-637 | between any two states of a run an incident stays approved throughout if and only if none of those events happens to it |
| Approval.GateReadWithdraws | agent-service/app/agents/orchestrator/agent.py:136-147 | a gate pass that reads an approved incident goes on to a save, of awaiting_approval or auto_informed |
| Approval.GateSaves | agent-service/app/agents/orchestrator/agent.py:152-157 | such a pass then saves that status whatever has happened meanwhile, or is dropped |
| Approval.DiagnosisIsOver | agent-service/app/agents/root_cause/agent.py:150-168 | no diagnosis pass writes to an approved incident |
| SourceSteps.SourcedKept | agent-service/app/agents/orchestrator/agent.py:88-131 | every event keeps that no stage runs or has stored anything before the diagnosis is announced, and that afterwards no diagnosis pass gets past its first read |
| Safety.StagesComplete | agent-service/app/core/db.py:555-637 | an incident that was ever past its recommendation has a hypothesis, a risk assessment with its levels and a recommendation, and its diagnosis was not withheld |
| Safety.MessagesImplyStages | agent-service/app/agents/orchestrator/agent.py:88-131 | messages in flight never run ahead of the store: each stage message implies the stored stage, an approval message an approval row |
| Safety.GateHolds | agent-service/app/agents/orchestrator/agent.py:133-158 | in every state of every run the level columns agree, `auto_informed` means level 1 and `awaiting_approval` level 2 or more |
| Safety.LevelFollowsRisk | agent-service/app/agents/risk/agent.py:75-94 | in every state of every run both level columns of an assessed incident hold the greatest level that the rules demand for its stored severity and confidence |
| Safety.DiagnosisNeverChanges | agent-service/app/agents/root_cause/agent.py:133-168 | hypothesis and confidence are written once: redelivery, retries and crashes never change them |
| Safety.WithheldStopsPipeline | agent-service/app/agents/root_cause/agent.py:250-269 | after a withheld diagnosis the incident never gets a risk assessment, recommendation, approval or CMMS order |
| Safety.OneSuccessfulPass | agent-service/app/agents/action/agent.py:205-217 | all `succeeded` rows of an incident come from one pass, and every outcome row follows the pending row of its operation |
| Safety.EndedPassLedger | agent-service/app/agents/action/agent.py:243-283 | a pass that ran to its end wrote one pending and one outcome row for each operation and landed on `action_taken` exactly when none failed |
| Safety.OneOrderPerSuccess | agent-service/app/core/db.py:890-942 | the CMMS holds exactly one order for each succeeded row, in the same order, if and only if no accepted order lost its reply |
| Repetition.SecondOrderIff | agent-service/app/agents/action/agent.py:26-28 | in every run, an attempt that the CMMS accepts places a second order for its operation if and only if an order for it was lost before, to an earlier attempt of the same call or to an earlier pass |
| Repetition.OrderedOnceIff | agent-service/app/agents/action/agent.py:26-28 | in every state of every run, no operation has two orders, be it for one approval or at all, if and only if no lost order was followed by another for its operation |
| Repetition.NothingLostNothingRepeated | agent-service/app/agents/action/agent.py:205-217 | as long as no order was lost, no position of a recommendation has two orders, whatever is redelivered, retried or restarted |
| Repetition.GuardMissesOnlyLosses | agent-service/app/agents/action/agent.py:205-217 | when the idempotency guard finds no succeeded row, every existing order was lost: there are orders if and only if there was a loss |
| Safety.OrdersFromOnePass | agent-service/app/agents/action/agent.py:169-182 | when no reply was lost, all orders of an incident come from a single pass |
| Safety.OrdersBounded | agent-service/app/core/cmms_client.py:146-190 | however many retries, crashes and passes, at most the configured attempts, and at least one, for each pending row |
| Safety.LogsTellTheSame | agent-service/app/core/db.py:671-748 | the status is that of the last history row, and history, approvals and audit log tell the same decisions by the same people in the same order |
| Safety.LearnedOnce | agent-service/app/core/db.py:1124-1200 | learned rows equal loop_closed audit rows, are at most one, and exist only after an approval, an order, and a succeeded work order with a reference |
| Learning.LearnedIsTheDiagnosis | agent-service/app/agents/action/agent.py:133-157 | in every run, what is learned of an incident is the hypothesis it stores then and ever after, or "unrecorded" when that is empty |
| Runs.RunKeeps | agent-service/app/agents/orchestrator/agent.py:88-158 | the whole invariant holds of every incident in every state of every run |
| Runs.EventKeeps | agent-service/app/core/db.py:503-531 | every event of every agent, call, poller and crash keeps the invariant and only extends the logs |
| ExclusiveSteps.ExclusiveKept | agent-service/app/agents/orchestrator/agent.py:94-109 | the guards of the three agents allow at most one pass for an incident at a time, through crashes and duplicate messages |
| PipelineSteps.PipelineKept | agent-service/app/core/db.py:555-637 | every event keeps the dependency of each stage, status and message on what must be stored before it |
| AssessmentSteps.AssessedKept | agent-service/app/agents/risk/agent.py:126-160 | every event keeps the stored and the pending level equal to the level of severity and confidence |
| DecisionSteps.DecidedKept | agent-service/app/core/db.py:671-748 | every event keeps the three decision logs in agreement and every decision entitled |
| ExecutionSteps.ExecutionsKept | agent-service/app/agents/action/agent.py:287-318 | every event keeps the attempt rows of each pass in the order pending, outcome, and all successes in one pass |
| OrderSteps.OrderedKept | agent-service/app/agents/action/agent.py:294-315 | every event keeps the count of accepted orders: recorded, in hand, or lost |
| RepeatSteps.RepeatsKept | agent-service/app/agents/action/agent.py:287-318 | every event keeps each order traceable: recorded as succeeded, just answered in its pass, or lost; and each repetition behind a loss |
| ClosingSteps.ClosingKept | agent-service/app/agents/action/agent.py:101-131 | every event keeps learned rows and loop_closed rows equal and at most one |
| GrowthSteps.EveryEventGrows | agent-service/app/core/db.py:503-531 | no event rewrites a log row or a stored diagnosis |
| Equipment.OneActiveStep | agent-service/app/agents/detection/agent.py:274-315 | a step keeps at most one active incident for each equipment if and only if it is not a stage write on a resolved incident whose equipment already has an active one |
| Equipment.OneActiveThroughout | agent-service/app/agents/detection/agent.py:274-315 | in every run without such a write each equipment has at most one active incident in every state |
| Equipment.EventStatus | agent-service/app/core/db.py:562-572 | exactly the stage, result and decision writes leave an incident in a status other than its own or resolved |
| Examples.CrashRepeatsOrder | agent-service/app/agents/action/agent.py:297-315 | a run in which one approval leads to two external orders of the same operation, by two passes, after a crash and a second delivery of the approval message |
| Examples.RetryRepeatsOrder | agent-service/app/core/cmms_client.py:167-190 | a run in which one approval and one delivery of its message lead to two orders of the same operation by one pass: the first reply is lost and the client retries |
| Examples.LateGateWithdrawsApproval | agent-service/app/agents/orchestrator/agent.py:139-157 | a run in which a late gate message takes an approved incident back to awaiting approval, its approval row kept |
| Examples.ResolvedIsReopened | agent-service/app/core/db.py:566-572 | a run in which a resolved incident is reopened while a second one of its equipment is active |
| Store.IncidentStore.UpsertIncident | agent-service/app/agents/detection/agent.py:269-315 | folds into an active incident of the equipment or opens one, and keeps at most one active for each equipment |
| Store.IncidentStore.SaveRootCause | agent-service/app/core/db.py:423-462 | one transaction: hypothesis, confidence, status and one history row, on this incident only; nothing when it is unknown |
| Store.IncidentStore.TransitionIncident | agent-service/app/core/db.py:503-531 | the status changes together with its history row, on this incident only |
| Store.IncidentStore.SaveRiskAssessment | agent-service/app/core/db.py:555-586 | severity and both levels are stored as given, with the status and its history row, on this incident only |
| Store.IncidentStore.SaveRecommendation | agent-service/app/core/db.py:589-637 | the actions, two history rows and the landing status in one transaction |
| Store.IncidentStore.RecordApproval | agent-service/app/core/db.py:671-748 | status, history, approval and audit row of one decision together |
| Store.IncidentStore.GetExecutedActionKinds | agent-service/app/core/db.py:890-906 | the idempotency query finds exactly the kinds of this incident's succeeded operations: some if and only if one succeeded |
| Store.IncidentStore.RecordActionExecution | agent-service/app/core/db.py:909-942 | appends one attempt row to this incident and changes nothing else |
| Store.IncidentStore.SaveActionResult | agent-service/app/core/db.py:945-1002 | the result status with its history row, and an audit row only for executed actions |
| Store.IncidentStore.ResolveIncidentManually | agent-service/app/core/db.py:1005-1038 | status, history and audit row of a manual resolution |
| Store.IncidentStore.CountLoopClosed | agent-service/app/core/db.py:1124-1200 | counts this incident's loop_closed audit rows among all rows |
| Store.IncidentStore.CloseIncidentLoop | agent-service/app/core/db.py:1124-1200 | closes once: a no-op when the loop is closed already, else resolution, audit and learned row together |
| Agents.RecordDecision | agent-service/app/api/incidents.py:214-289 | succeeds exactly for a caller who covers the level of an incident awaiting approval, returns exactly the stored level (the required one, then 2, when absent or zero), records exactly that decision and announces exactly the approvals; every refusal names the first failing check and changes nothing |
| Agents.RefusedIff | agent-service/app/api/incidents.py:222-242 | which of the ordered checks of site, status, level and justification refuses, in terms of the stored row and the caller's token |
| Agents.ResolveIncident | agent-service/app/api/incidents.py:306-332 | resolves exactly when the role may resolve, the sites agree and the incident is not resolved |
| Agents.OrchestratorAgent.ApplyHitlGate | agent-service/app/agents/orchestrator/agent.py:133-158 | afterwards the status is the one that the required level routes to; a matching gate writes nothing |
| Agents.OrchestratorAgent.TriggerRisk | agent-service/app/agents/risk/agent.py:126-160 | stores the severity of the flagged sensors and, in both columns, the greatest level demanded at the stored confidence |
| Agents.OrchestratorAgent.TriggerRecommendation | agent-service/app/agents/recommendation/agent.py:210-263 | refuses without a risk assessment, else stores the actions and the landing of the stored level |
| Agents.OrchestratorAgent.OnStageCompleted | agent-service/app/agents/orchestrator/agent.py:88-109 | has exactly the effect of the announced stage and publishes its follow-up messages; ignores an incident whose pass is running, and always releases its guard |
| Agents.ActionAgent.ExecuteOne | agent-service/app/agents/action/agent.py:287-318 | pending row, request, outcome row of one operation, on this incident only; the result and the orders are those of the client's replies |
| Agents.ActionAgent.ExecuteAll | agent-service/app/agents/action/agent.py:240-258 | one pair of rows for each operation in order, with the results and the orders of serving them in turn; failures stop nothing |
| Agents.ActionAgent.HandleApproved | agent-service/app/agents/action/agent.py:205-283 | reconciles, lands without operations or executes: rows, landing status, orders and the published completion or failure |
| Agents.ActionAgent.Handle | agent-service/app/agents/action/agent.py:184-283 | an incident that is unknown or not approved is left alone and nothing is sent or published; otherwise exactly the rows, landing status, orders and announcement of its outcomes |
| Agents.ActionAgent.OnIncidentApproved | agent-service/app/agents/action/agent.py:169-182 | a duplicate delivery during a pass, or one for an unknown or unapproved incident, writes, sends and publishes nothing; the guard is released |
| ActionRuns.HandlerIsARun | agent-service/app/agents/action/agent.py:184-283 | for all replies of the CMMS, lost ones and retries included, the protocol has a pass that ends in the very slice the handler leaves and places the very orders its client placed |
| StageRuns.HandlerIsARun | agent-service/app/agents/orchestrator/agent.py:88-158 | for every stage, incident, set of sensors and list of actions, the protocol has a pass to the very slice the Orchestrator's handler leaves, which publishes the very messages in order |
| DiagnosisRuns.HandlerIsARun | agent-service/app/agents/root_cause/agent.py:150-269 | for every two answers, the protocol has a pass to the very slice the Root-Cause Agent leaves, which announces the diagnosis if and only if the agent does |
| Cmms.CmmsClient.Request | agent-service/app/core/cmms_client.py:146-190 | result and number of attempts of the retry loop, and the orders the CMMS took meanwhile |
| Cmms.RequestSucceedsIff | agent-service/app/core/cmms_client.py:167-190 | a request succeeds exactly when the first reply that is not unavailability comes within the bound and accepts; a client error is final |
| Cmms.OneOrderIff | agent-service/app/core/cmms_client.py:167-190 | a successful request placed exactly one order if and only if no accepted attempt before it went unanswered |
| Cmms.SuccessesWereOrdered | agent-service/app/core/cmms_client.py:146-190 | a sequence of requests placed at least as many orders as it has successes |
| Cmms.OrdersCount | agent-service/app/core/cmms_client.py:146-190 | the orders of a stretch of attempts are as many as its attempts that the CMMS accepted, answered or not |
| RootCause.DiagnosedSound | agent-service/app/agents/root_cause/agent.py:200-261 | whatever the model answers twice, the stored text is a cause with real citations, the first line of a declared insufficiency with confidence 0, or the fixed note |
| RootCause.DiagnosedStates | agent-service/app/agents/root_cause/agent.py:200-261 | what is stored is what the first answer states, or, only if that is refused, what the second states, or, only if both are, the fixed note |
| RootCause.ReviewedIff | agent-service/app/agents/root_cause/agent.py:200-261 | the incident goes to human review if and only if neither answer declares insufficiency and each is malformed or has an unsupported bullet |
| RootCause.InsufficiencyGoesOn | agent-service/app/agents/root_cause/agent.py:311-315 | a declared insufficiency is stored as its first line with confidence 0 and status investigating |
| RootCause.PrescribedAnswerGoesOn | agent-service/app/agents/root_cause/agent.py:83-84 | the answer that the prompt prescribes is stored, uncited, as investigating |
| RootCause.RootCauseAgent.Handle | agent-service/app/agents/root_cause/agent.py:150-269 | diagnoses an incident at most once and announces exactly the diagnoses that are not withheld |
| RootCause.RootCauseAgent.HandleEvent | agent-service/app/agents/root_cause/agent.py:133-146 | a trigger during a running diagnosis changes nothing; the guard is released |
| Scoring.ScoreReading | agent-service/app/agents/detection/scoring.py:73-122 | the reading is anomalous exactly when it lies outside the band, or on either side of the mean, by more than the threshold in units of the band or of sigma; the drift score times sigma is its distance from the mean |
| Scoring.DriftBeyond | agent-service/app/agents/detection/scoring.py:101-105 | the drift score is the distance from the mean, to either side, in units of sigma |
| Scoring.StaticBeyond | agent-service/app/agents/detection/scoring.py:82-99 | the static margin is the distance from the band in units of its width, or of the largest of 1 and its limits when it has none |
| Scoring.Samuelson | agent-service/app/agents/detection/scoring.py:62-70 | no value of a window lies further than sqrt(n-1) population deviations from its mean |
| Scoring.DriftScoreBounded | agent-service/app/agents/detection/scoring.py:101-105 | the squared drift score of a reading in its own window of n readings is at most n-1 |
| Scoring.SpikeAttainsBound | agent-service/app/agents/detection/scoring.py:55-70 | a single spike attains the bound for every n: it cannot be improved |
| Scoring.DipAttainsBound | agent-service/app/agents/detection/scoring.py:101-105 | a single dip attains it as well: falling readings drift as much as rising ones |
| Scoring.BaselineIs | agent-service/app/agents/detection/scoring.py:55-70 | the mean is the sum over the count, and sigma the deviation unless that lies below a thousandth of one or of the mean |
| Scoring.DriftNeedsReadings | agent-service/app/agents/detection/agent.py:206-215 | a drift anomaly at any threshold needs more than its square plus one readings in the window |
| Scoring.DriftNeedsElevenReadings | agent-service/app/agents/detection/agent.py:206-215 | at the shipped threshold of 3, never with fewer than 11 readings |
| Scoring.DriftAloneIsNeverHigh | agent-service/app/agents/detection/scoring.py:199-217 | with windows of up to 100 readings drift alone never gives severity high, for any sensors and readings |
| Scoring.LongerWindowCanBeHigh | agent-service/app/agents/detection/scoring.py:199-217 | with 101 readings it can |
| Scoring.SeverityFromScore | agent-service/app/agents/detection/scoring.py:199-217 | the label of the greatest ratio of a margin to 0.5 or a drift to 10 |
| Scoring.SeverityIsOfGreatest | agent-service/app/agents/detection/scoring.py:199-217 | that ratio is at least zero, at least every ratio of a sensor, and one of them unless it is zero |
| Scoring.SeverityGrades | agent-service/app/agents/detection/scoring.py:199-217 | high exactly from a margin of 0.5 or a drift of 10 on, low exactly below a margin of 0.15 and a drift of 3 |
| Correlation.CorrelateAnomalies | agent-service/app/agents/detection/scoring.py:159-196 | one entry for each equipment in order of first appearance whose freshest cluster is fresh, with exactly that cluster |
| Correlation.ClusterIsComponent | agent-service/app/agents/detection/scoring.py:182-192 | the greedy cluster is the set of observations linked to a newest one by chains of gaps within the window, if and only if the window is nonnegative or one observation is newest |
| Correlation.CorrelationReports | agent-service/app/agents/detection/scoring.py:192-196 | an equipment is reported at most once, exactly when one of its anomalies is no older than the gap, with its whole cluster, in the order of first appearance |
| Correlation.SortStable | agent-service/app/agents/detection/scoring.py:182-184 | sorting by time keeps the order of the observations of each time |
| Correlation.ArrivalOrderIrrelevant | agent-service/app/agents/detection/scoring.py:176-196 | reordering the observations changes neither what is reported nor what is in it |
| Correlation.FreshestCluster | agent-service/app/agents/detection/scoring.py:184-192 | the last of the clusters built by linking is the suffix after the last gap over the window |
| Detection.DetectionAgent.Remember | agent-service/app/agents/detection/agent.py:231-245 | after every registration the buffer is the whole log cut at the latest cutoff: exactly the observations newer than three gaps ago |
| Detection.DetectionAgent.RegisterAnomaly | agent-service/app/agents/detection/agent.py:219-245 | with a positive gap, the anomaly's equipment is persisted exactly when the full log has a fresh anomaly for it, with the part of its full cluster newer than the cutoff |
| Detection.DetectionAgent.UpdateBaseline | agent-service/app/agents/detection/agent.py:206-215 | the stored list is always the newest readings of the sensor up to the window size, so pushing and trimming loses nothing the baseline needs |
| Pruning.ClusterNewer | agent-service/app/agents/detection/agent.py:241-245 | the cluster of the pruned log is the cluster of the full log restricted to newer observations |
| Pruning.PruningIsSafe | agent-service/app/agents/detection/agent.py:241-245 | pruning at three gaps loses no report for any log if and only if the gap is positive |
| Detection.FreshestPerSensor | agent-service/app/agents/detection/agent.py:247-254 | one entry for each distinct sensor in order of first appearance: its latest observation, the first among ties |
| Detection.Summarise | agent-service/app/agents/detection/agent.py:247-259 | summary and severity depend only on the latest entry of each sensor; high and low by the margins and drifts of those entries |
| Risk.HitlLevelFor | agent-service/app/agents/risk/agent.py:75-94 | the greatest level demanded by severity and confidence, an absent confidence counting as the configured one |
| Risk.LevelIsGreatestDemanded | agent-service/app/agents/risk/agent.py:75-94 | the level is the greatest of 1, the base of the severity, and the minimum levels of the confidence rules and the high-severity rule that apply |
| Risk.SeverityFrom | agent-service/app/agents/risk/agent.py:162-178 | high exactly when a sensor reaches its threshold, else medium exactly when one reaches the medium fraction of it, else low |
| Risk.GatingMonotone | agent-service/app/agents/risk/agent.py:162-178 | sensors that are no better and a confidence that is no higher never lower the level, for every configuration with nondecreasing bases and positive thresholds |
| Risk.RaisingNeverLowers | agent-service/app/agents/risk/agent.py:162-178 | raising a margin or drift of one sensor, or adding a missing one, never lowers the level |
| Risk.AddingNeverLowers | agent-service/app/agents/risk/agent.py:162-178 | one more flagged sensor never lowers the level |
| Risk.DoubtNeverLowers | agent-service/app/agents/risk/agent.py:75-94 | a lower confidence never lowers the level |
| Risk.SensorOrderIrrelevant | agent-service/app/agents/risk/agent.py:162-178 | severity and level do not depend on the order of the sensors |
| TepReplay.FaultCursorAdvances | agent-service/app/simulator/tep_replay.py:319-330 | between triggers the fault cursor never goes back, and ticks in fault mode move it on by at least the step up to the last row |
| TepReplay.FaultCursorSettles | agent-service/app/simulator/tep_replay.py:319-330 | it rests on the last row once ticks times step cover the rest of the run |
| TepReplay.TransientOnlyLast | agent-service/app/simulator/tep_replay.py:295-305 | in every run of triggers, resets and ticks, rows are in range and a row of sample 161 or 162 is emitted only if it is the last row |
| TepReplay.NormalTickMoves | agent-service/app/simulator/tep_replay.py:309-318 | a tick in normal mode emits the row under the fault-free cursor and moves exactly that cursor by the stride, around the end |
| TepReplay.FaultTickMoves | agent-service/app/simulator/tep_replay.py:319-330 | a tick in fault mode emits the first row from the fault cursor on that is not of sample 161 or 162, or the last row, and moves exactly that cursor on from there by the step, up to the last row |
| TepReplay.StartIsFirst | agent-service/app/simulator/tep_replay.py:200-215 | the fault window starts at the first row of sample 141 or later, or at that share of 960 samples when there is none, and on a row in any case |
| TepReplay.StepRange | agent-service/app/simulator/tep_replay.py:217-222 | for a skipped fraction of 0 to 0.95 the step is the nearest integer to the reciprocal of the rest, the even one of two; 1 below and 20 above |
| TepReplay.FlowAnomalousIff | agent-service/app/simulator/tep_replay.py:371-388 | a mapped and clamped flow reading is statically anomalous at 5% exactly when its source value lies more than 5.5 times 0.539 from 41.12 |
| TepReplay.FlowIs | agent-service/app/simulator/tep_replay.py:371-388 | the value is the centre of the band plus a tenth of its width for each source deviation, kept between 0.3 widths below the band and 0.45 above it |
| TepReplay.TepReplayEngine.FaultStartIndex | agent-service/app/simulator/tep_replay.py:200-215 | the loop finds that start, or the fallback fraction of the run |
| TepReplay.TepReplayEngine.SelectFaultRow | agent-service/app/simulator/tep_replay.py:295-305 | the cursor stops at the first row from it that is no transient, or at the last row |
| TepReplay.TepReplayEngine.Advance | agent-service/app/simulator/tep_replay.py:307-330 | emits the row under the cursor and moves exactly that cursor; nothing happens without rows |
| TepReplay.TepReplayEngine.TriggerFault | agent-service/app/simulator/tep_replay.py:236-254 | enters fault mode at the start of the fault window |
| TepReplay.TepReplayEngine.ResetReplay | agent-service/app/simulator/tep_replay.py:256-262 | back to normal mode on the chosen row, the fault cursor untouched |
| Retrieval.BestSections | agent-service/app/rag/retrieval.py:76-102 | for every score vector and every descending order: best positive sections of distinct documents with their own scores, best first, and nothing better left out |
| Retrieval.ExactlyTopK | agent-service/app/rag/retrieval.py:81-102 | exactly top_k documents, or all that have a positive section |
| Retrieval.ScoresAreDetermined | agent-service/app/rag/retrieval.py:78-102 | however ties are broken, the returned scores are the same |
| Retrieval.SearchIsDetermined | agent-service/app/rag/retrieval.py:78-102 | two searches with different rankings of the same scores return equally many chunks with the same scores |
| Retrieval.RetrievalIndex.Index | agent-service/app/rag/retrieval.py:52-66 | refuses an empty corpus; a failed fit has replaced the documents but not the matrix |
| Retrieval.RetrievalIndex.Search | agent-service/app/rag/retrieval.py:68-102 | error without index, nothing for a blank query, else a top-k list of this corpus |
| Corpus.SplitMarkdown | agent-service/app/rag/corpus.py:89-110 | title and headings of the outline of the lines; each body, split at its newlines, gives the lines of its section |
| Corpus.NothingLost | agent-service/app/rag/corpus.py:99-110 | on any input every line that is no heading lands in exactly one section, in order; each second-level heading opens one; the last first-level heading is the title |
| Corpus.TextsAre | agent-service/app/rag/corpus.py:99-109 | the lines kept are exactly those that do not start with "# " or "## ", in order |
| Corpus.HeadingsAre | agent-service/app/rag/corpus.py:103-107 | the headings are exactly the trimmed rests of the lines that start with "## ", in order |
| Corpus.TitleIs | agent-service/app/rag/corpus.py:100-102 | the title is the trimmed rest of the last line that starts with "# ", or the default |
| Corpus.SplitUndoesRender | agent-service/app/rag/corpus.py:89-110 | splitting undoes rendering if and only if names are trimmed, bodies hold no heading lines and an overview comes first |
| Corpus.FileRoundTrip | agent-service/app/rag/corpus.py:89-110 | the same from the text of a whole file |
| Lines.LinesRoundTripIff | agent-service/app/rag/corpus.py:99-99 | written lines are split into themselves if and only if none contains a line break |
| Lines.LinesAre | agent-service/app/rag/corpus.py:99-99 | a text is its lines with a break after each, a carriage return and a line feed together being one, and no line contains a break |
| Citation.ParseAndValidate | agent-service/app/agents/root_cause/agent.py:305-350 | the verdict of the whole answer, with the order of the rejections |
| CitedText.BulletIff | agent-service/app/agents/root_cause/agent.py:302-302 | an evidence line is one that has white space, one of the three markers, white space and one more character; its point is the trimmed text after the marker |
| CitedText.AcceptedInText | agent-service/app/agents/root_cause/agent.py:311-350 | an answer is accepted if and only if it does not declare insufficiency (the phrase in any case, no dash before the first newline), its first line with a cause states a confidence, and it has evidence lines, each naming something of the evidence that its tag allows |
| CitedText.AcceptedCites | agent-service/app/agents/root_cause/agent.py:329-350 | an accepted answer has one citation for each evidence line, in order: its trimmed text, and an entry of the evidence whose own key stands in it at some place, for a sensor also with spaces for underscores; cause and confidence, at most 100, are those of the first line with a cause |
| CitedText.SupportedIff | agent-service/app/agents/root_cause/agent.py:353-387 | a point is valid if and only if an entry of a kind that its first tag allows has its own key in it, character by character |
| CitedText.RefusalReasons | agent-service/app/agents/root_cause/agent.py:327-348 | which reason refuses the lines of an answer: no cause, no backed line, exactly the lines that are not backed, or no confidence |
| Citation.PointValidIffSupported | agent-service/app/agents/root_cause/agent.py:353-387 | a point is valid if and only if it names something real of a kind that its tag allows, and then with such a reference |
| Citation.CitesIffReal | agent-service/app/agents/root_cause/agent.py:355-362 | a lookup hit means a sensor type, document or past incident of the evidence whose own key occurs in the point, despite overwritten keys |
| Citation.AcceptedIff | agent-service/app/agents/root_cause/agent.py:311-350 | an answer is accepted if and only if it does not declare insufficiency, is well formed, and every bullet is supported (each of these in characters: CitedText.AcceptedInText) |
| RootCause.RefusedIff | agent-service/app/agents/root_cause/agent.py:311-350 | an answer is refused if and only if it declares no insufficiency and lacks a stated cause with a confidence, or evidence lines, or has one that is not backed |
| Citation.AcceptedContract | agent-service/app/agents/root_cause/agent.py:329-350 | an accepted answer cites exactly its bullets in order, each with a real reference, with a confidence of 0 to 100 (in characters: CitedText.AcceptedCites) |
| Citation.AcceptedGrows | agent-service/app/agents/root_cause/agent.py:353-387 | more sensors or evidence never turn an accepted answer into a rejected one |
| Citation.AcceptedStates | agent-service/app/agents/root_cause/agent.py:317-325 | cause and confidence of an accepted answer are those of its first cause line, whatever the evidence |
| Citation.NothingWithoutEvidence | agent-service/app/agents/root_cause/agent.py:342-346 | without evidence no answer is accepted |
| Recommendation.ParseRecommendation | agent-service/app/agents/recommendation/agent.py:284-334 | actions and rationale of the text, or the failure of its quantity |
| RecommendationText.PrescribedAsks | agent-service/app/agents/recommendation/agent.py:337-352 | the round trip: a line in the prescribed format, for every product, every number and every trimmed reason or none, asks for exactly that quantity of that product for that reason |
| RecommendationText.PrescribedAsksParts | agent-service/app/agents/recommendation/agent.py:337-352 | the same for a number with any count of decimals |
| ReorderText.PartsIff | agent-service/app/agents/recommendation/agent.py:340-352 | a text asks for a product, number and reason if and only if it consists of the key, "qty", an equals sign, the number and nothing or "because" and the reason, in any case and with the white space between that is needed or allowed |
| ReorderText.WrittenParts | agent-service/app/agents/recommendation/agent.py:350-350 | digits by division and remainder, a point and k more digits denote the number and that many parts of ten to the k |
| ReorderText.NoNumberIff | agent-service/app/agents/recommendation/agent.py:350-350 | digits and points denote no number exactly when they are a lone point or have two |
| RecommendationText.OrdersWhatIsAsked | agent-service/app/agents/recommendation/agent.py:320-333 | when the last reorder line asks for a quantity of a product, the last action and the last external operation order exactly that quantity of it |
| RecommendationText.NothingOrdered | agent-service/app/agents/recommendation/agent.py:297-299 | otherwise no action names a product |
| RecommendationText.AnswerIsWritten | agent-service/app/agents/recommendation/agent.py:290-334 | the work actions are the trimmed texts of the "n.", "-" and "*" lines outside the rationale, numbered in order, and the rationale is made of exactly the lines from its heading to the next note that are no reorders |
| RecommendationText.ProseIs | agent-service/app/agents/recommendation/agent.py:334-334 | its parts that are not empty, with one space between them |
| RecommendationText.RefusedIff | agent-service/app/agents/recommendation/agent.py:337-352 | an answer fails to parse if and only if some reorder line of the right form has a number that is none |
| RecommendationText.FallbackIs | agent-service/app/agents/recommendation/agent.py:331-333 | with nothing listed and nothing ordered, the first 400 characters of the trimmed answer are the one manual action |
| Recommendation.WorkIsListed | agent-service/app/agents/recommendation/agent.py:295-319 | the work orders are exactly the numbered and bulleted lines outside the rationale, in order |
| Recommendation.ReorderIsLast | agent-service/app/agents/recommendation/agent.py:297-299 | the last reorder line decides, also when it does not parse |
| Recommendation.ActionTextKept | agent-service/app/agents/recommendation/agent.py:310-313 | every listed action has a trimmed, nonempty text |
| Recommendation.PrioritiesCount | agent-service/app/agents/recommendation/agent.py:312-333 | there is always an action, and priorities are 1 to n |
| Recommendation.ParsedMapping | agent-service/app/agents/action/mapping.py:77-127 | parsed text maps to one work order for each listed line and at most one reorder of one of the three products; only the fallback stays unmapped |
| Recommendation.NothingExternalIff | agent-service/app/agents/action/mapping.py:77-127 | text leads to no external operation if and only if it lists no action and ends without a usable reorder |
| Recommendation.PlannerLoop | agent-service/app/agents/recommendation/agent.py:154-203 | at most one answer more than the round bound; the first answer without tool calls wins, and every call before it is logged in order |
| Mapping.MapRecommendationToCmms | agent-service/app/agents/action/mapping.py:90-127 | operations and unmapped items of any stored recommendation |
| Mapping.MappingPartitions | agent-service/app/agents/action/mapping.py:98-127 | operations and unmapped items split the actions in two, by executability, with neither part reordered |
| MappingText.OperationsComeFrom | agent-service/app/agents/action/mapping.py:90-127 | each executable action has one operation with its own wording, priority, product and quantity, and each other one is left over with its reason, both in order |
| MappingText.ClassifyIs | agent-service/app/agents/action/mapping.py:77-87 | a declared type, trimmed and in any case, decides; else the words of the action do, those of a work order first |

## Left out

- React frontend, load and browser tests, deployment files and scripts: no behaviour the properties depend on.
- .NET middleware: a passthrough that repeats the site and level checks modelled here.
- Token validation, OIDC and password hashing: a principal is an already validated site, role and name.
- Prompts, providers and tool results: a model answer is arbitrary text, tool calls an arbitrary list per round.
- SQL, Redis and HTTP: a transaction is one atomic step, the bus a set of messages, a reply an arbitrary outcome.
- Bus dispatch (eventbus/base.py): one message at a time with isolated handlers, which only removes interleavings.
- Free text and times of log rows: reasons, details, notes, previous status of most history rows, timestamps; rows are in commit order.
- Evidence and anomaly summaries in the incident row: they are arbitrary inputs of the diagnosis and the risk stage.
- A crash is modelled for one incident at a time, and so is the poller; a crash of the process is one for each incident.
- Detection: the retry loop of its incident write and the dead letters are not modelled.
- Floating point: values are reals, so rounding of scores, means, quantities and formatted values is not modelled.
- Letter case is that of ASCII, and digits are 0 to 9.
- Store.IncidentStore.UpsertIncident: folds into any active incident of the equipment, not the latest, and does not model the update of summary and severity, because neither detection times nor summaries are in the row.
- Store.IncidentStore.SaveRootCause: the stored citations are left out; what they say is proved of the verdict (Citation.AcceptedContract).
- Store.IncidentStore.SaveRiskAssessment: the consequences column is left out.
- Store.IncidentStore.SaveRecommendation: rationale and tool log are left out.
- Store.IncidentStore.RecordApproval: the decision chain inside the audit row is left out; it repeats stored columns.
- Store.IncidentStore.CloseIncidentLoop: symptoms, action and resolution text of the learned row are left out.
- Agents.OrchestratorAgent.TriggerRisk: the consequences are left out.
- Agents.OrchestratorAgent.TriggerRecommendation: planner text and rationale are left out; the actions are arbitrary.
- RootCause.RootCauseAgent.Handle: stored citations, cost accounting and the waits for evidence are left out; the evidence is arbitrary.
- Detection.DetectionAgent.UpdateBaseline: the expiry of the stored list is left out.
- Detection.Summarise: value, unit, band and reason of the payload are left out; only what summary and severity depend on is stated.
- TepReplay.TepReplayEngine.Advance: the telemetry record is left out, and the IndexError of an empty recording is the result None.
- Recommendation.PlannerLoop: the messages sent to the model and the last call without tools are left out; an answer is arbitrary in every round.
- Examples.CrashRepeatsOrder: needs a second delivery of the approval message, which Redis publish/subscribe does not make by itself; Examples.RetryRepeatsOrder needs none.
- Citation.ParseAndValidate: the pattern of the cause line is a parameter, any function from a line to a cause and optional digits; all results hold for each.
- Recommendation.ParseRecommendation: the wording of a reorder action shows the quantity as written, not reformatted.
- Retrieval.RetrievalIndex.Search: the similarity scores are arbitrary, and results keep them unrounded.
- TepReplay.FlowAnomalousIff: for bands of positive width, and before formatting to four decimals.
- TepReplay.StartIsFirst: a sample number is an integer or unreadable; infinities in the recording are not modelled.
- Detection.DetectionAgent.RegisterAnomaly: the clock is nondecreasing.
- Risk consequences (select_consequences), metrics, tracing, cost accounting, health and telemetry endpoints.
- The random synthetic simulator and the timing of all loops.

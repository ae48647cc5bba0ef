# Verified model of the continuous-authentication runtime

A Dafny model of the parts of the runtime whose behaviour depends on order, state or
arithmetic: risk decisions, enforcement, ingestion, windowing, context statistics, and the
bookkeeping of corpus, profiles and audit log. `dafny verify dfyconfig.toml` checks it all.

How it is built. A class, a loop or a transaction of the source is a class or a method here,
with the same fields, branches and error cases. Each such method is proved equal to a
function on values (`ProcessWindow` to `Process`, `FeedChunk` to `Feed`, ...), and the
properties are lemmas about these functions and about whole runs of them, told by logs that
the functions do not see. The main results are:

- **Risk decisions** (`RiskTypes`, `RiskCore`, `Levels`, `RiskEngines`, `FailingOpen`, `Policy`,
  `Ladders`, `UserStates`, `UserHistories`, `Latency`, `EngineRuns`, `Escalations`, `Alarms`,
  `AlarmLimits`, `Replay`, `ReplayExactness`). Over whole runs: the level and the user state are
  read off the history alone; the action of a window is read off its level, its scores and the
  log of earlier actions, both ways; every window is handled by what its request holds, and no
  user is degraded in silence; detection and recovery latency with the exact bound; cooldown and
  sliding budget; sustained risk ends in an enforced TERMINATE within one cooldown; the level
  rises no more often than raw scores breach; the offline replay refines the engine.
- **Enforcement** (`Postures`, `PostureHistories`, `LadderPostures`, `PostureLocks`,
  `PostureDelivery`, `Challenges`, `ChallengeLedger`, `ChallengeAnswers`, `Enforcement`,
  `EnforcementRecords`, `RuntimeRuns`, `Lockouts`, `Recoveries`, `RecoveryLimits`,
  `RecoveryTurns`). The posture ladder, the challenge registry and the API calls, separately
  and composed with the engine over any number of sessions: which posture each level brings,
  who may answer a challenge and what the answer is worth, what is recorded of it, how a lockout
  may begin and end, that sustained risk does lock out, and how a blocked participant gets back.
- **Ingestion** (`Framing`, `FrameGrammar`, `Ordering`, `Sessions`, `Pipeline`, `PipelineCounts`,
  `SessionMemory`).
  Chunking is invisible, every byte of any stream is explained, decoder and encoder are inverse,
  bounded duplicate detection, well-bracketed lifecycle logs, and what every counter counts,
  without any assumption on the input.
- **Windowing and context** (`Timelines`, `FocusSums`, `Sorting`, `Sums`, `Windows`,
  `WindowContents`, `WindowLabels`, `LiveBatch`, `LiveScreens`, `AcceptedOrder`, `Moments`,
  `ContextLayer`, `Confidences`, `Normalising`). Focus shares are exact occupancies, windows are
  labelled and timed by the events they hold, live windowing equals batch windowing with two
  exact exceptions, running moments equal batch moments and recombine over applications, and a
  window's confidence is read off the genuine scores learned from.
- **Bookkeeping** (`Apportionment`, `Freeze`, `FreezeGates`, `Leakage`, `FreezeFiles`,
  `FreezeChecks`, `Profiles`, `ProfileRows`, `Calibration`, `FalseRejection`, `Audit`,
  `AuditChains`, `Retention`). Fair day splits without leakage, when a manifest is built and what verifying it
  means, profile rotation and rollback, the false rejection rate on two scales, an append-only
  audit history and exact retention.

`Wrappers`, `Texts`, `Deques` and `RealBounds` hold shared helpers.

Conventions. Scores are exact reals, times and byte counts are integers. Clock readings,
generated ids, directory listings, query results whose order the database leaves open, and
the answers of adapters are parameters: a theorem holds for all of them unless its own
premises order the clock, which "Left out" lists. Hashes, answer verification, eligibility and
payload validation are uninterpreted functions; injectivity is assumed only where a lemma says
so.

Where the code and what is written about it differ, the model follows the code:

- The replay is documented as the engine's state machine over fused score and confidence.
  That is proved for damping; with per-context normalisation it can be false
  (`NormalizationEscapesTheReplay`). `DocumentedReplayIsExact` says when the replay reports
  the engine's smoothed scores: exactly when every window taken has an adjusted score equal
  to fused score times confidence. Given the adjusted score itself the replay is always right
  (`ReplayRefinesEngine`).
- A comment in the orchestrator says that no decision is made while enrolling. One is made,
  by the window that ends an outage begun while enrolling (`EnrollingDecisions`, which says
  exactly when).
- The posture's rank check and its move are two critical sections. With calls taken as atomic
  a decision never lowers the posture and a stale soft answer never unwinds an escalation, as
  documented. At lock granularity both can happen (`StaleCheckLowersPosture`,
  `StaleAnswerUnwindsLockout`), exactly when the last transition since the check went above
  (`LoweringIsExact`, `UnwindingIsExact`), and a failed response can leave the session
  unblocked (`FailuresBlockExactly` says when). The transitions made always chain
  (`TransitionsChain`).
- The sink is called after the lock is released, so the alerts it stores need not tell the
  transitions in their order (`LockoutIsToldFirst`). `DeliveryIsExact` says when they do.
- The way back is documented as the challenge that clears an enforcement posture. When
  the newest challenge outstanding is a soft one, that is handed out instead, and its correct
  answer is accepted without clearing anything (`AcceptedButStillBlocked`). `RecoveryRestoresAccess`
  says exactly when the posture is cleared, and `AlwaysAWayBack` bounds the rounds it takes.
- Chunk invariance ends at an oversized header, whose reset drops the rest of its chunk;
  `CutIsHarmless` says exactly when a cut matters.
- The measured false rejection rate is documented as an upper bound on the rate at which the
  live system escalates. It does bound how often the level leaves LOW on damped windows
  (`RateBoundsAlarms`), but not the windows spent at MEDIUM (`OneBreachHoldsTwoWindows`), and
  nothing under per-context normalisation (`NormalizationEscapesTheRate`).
- Normalisation is documented as removing a context's offset. The context's location is summed
  over its empirical applications only and not divided by what they cover, so the offset is
  removed exactly at full coverage (`RecentringIsExact`, `PartialCoverageOffsets`).
- Live and batch windows hold the same events and report the same focus and screen, with two
  exceptions that `LiveEqualsBatch` states exactly: a window of no duration whose instant gets
  another focus from a change recorded after it was closed (`SimultaneousFocusDiffers`), and
  a window with mouse features closed under another screen than the one the batch is given
  for the whole segment (`LateScreenDiffers`).
- An event without capture time erases the tracker's memory of the last one; a falling time
  is let through exactly after such an event (`FallsSlipThrough`).
- Rotation overwrites a compressed day that is already there; this cannot happen under a
  clock that never goes back (`RotationKeepsSurvivors`, `RewoundClockLosesRecords`).
- Two rollbacks restore the original profile only when timestamps differ
  (`TwoRollbacksRestore` gives the exact condition).

## Model

| member | source | states |
|---|---|---|
| `RiskTypes.ContextAssessment.Adjust` | backend/app/risk/types.py:59-75 | an adjusted score of a fused score in [0, 1] stays in [0, 1] in both adjustment modes |
| `RiskTypes.AdjustIsMonotone` | backend/app/risk/types.py:59-75 | within one context, adjustment never reorders two fused scores |
| `RiskTypes.RecentringKeepsDeviations` | backend/app/risk/types.py:59-75 | normalisation sends a score k deviations off the context's location to k deviations off the profile's, as far as [0, 1] reaches |
| `UserStates.UserStateMachine.ObserveProgress` | backend/app/risk/state.py:36-57 | refuses negative counts; otherwise moves exactly one stage, and only on sufficient evidence |
| `UserStates.UserStateMachine.Degrade` | backend/app/risk/state.py:59-63 | a failure is absorbed while already degraded or suspended, otherwise it remembers the state it left |
| `UserStates.UserStateMachine.Recover` | backend/app/risk/state.py:65-70 | raises unless degraded; returns to the remembered state and forgets it |
| `UserStates.UserStateMachine.Suspend` | backend/app/risk/state.py:72-76 | suspension forgets a remembered state and is idempotent |
| `UserStates.UserStateMachine.RestartEnrollment` | backend/app/risk/state.py:78-81 | raises unless suspended; otherwise the user starts enrolling again |
| `UserStates.RecoveryRestoresTheStateLeft` | backend/app/risk/state.py:59-70 | whatever failures and progress reports arrive during an outage, the first recovery lands in the state that was left |
| `UserStates.ActiveIsEarned` | backend/app/risk/state.py:36-81 | over every run of a new user, ACTIVE stands on a sufficient calibration report after a sufficient enrollment report with no suspension since |
| `UserStates.RunsStayEnrolled` | backend/app/risk/state.py:36-81 | without a suspension no run takes a user who began calibrating back to enrolling |
| `UserHistories.StateIsItsHistory` | backend/app/risk/state.py:36-81 | over every run of a new user, SUSPENDED, DEGRADED, CALIBRATING and ACTIVE are each equivalent to a property of the events alone: suspended and not re-enrolled since; an outage begun outside suspension and not ended; a sufficient enrollment report heard outside outages with no suspension since; and a later sufficient calibration report heard so |
| `Policy.DecisionPolicy.DecideAction` | backend/app/decisions/policy.py:41-70 | the pruning loop, the cooldown, the budget and both memories, for every call |
| `Policy.PruneDropsExactlyTheExpired` | backend/app/decisions/policy.py:52-54 | in an ordered deque the pruning loop drops exactly the times that have left the window |
| `Policy.PrunedDequeIsTheWindow` | backend/app/decisions/policy.py:52-54 | after pruning at t the deque is exactly the part of the whole applied log inside (t - cooldown, t] |
| `Policy.DecideKeepsDigest` | backend/app/decisions/policy.py:41-70 | each call, whatever it decides, keeps the memory a digest of the log, the log spaced and the log within budget |
| `Policy.SlidingBudget` | backend/app/decisions/policy.py:41-70 | over any run with non-decreasing times: equal actions a cooldown apart, and at most min(budget, 3) applied actions in every window of one cooldown |
| `Ladders.ActionsAreExact` | backend/app/decisions/policy.py:30-70 | over every run of the engine: CONTINUE is asked for iff the level is LOW, SOFT_CHALLENGE iff MEDIUM, TERMINATE iff HIGH with the last breach_n scores of the run all high, REAUTH iff HIGH otherwise; what is asked for is applied iff the user is ACTIVE out of shadow mode, the same action was not applied within the last cooldown and the log leaves room in the budget; the reason and the budget alert say which of these failed |
| `LadderPostures.LevelsReachThePosture` | backend/app/decisions/session.py:170-202 | in every run of the runtime an enforced window takes the session to CHALLENGED at MEDIUM, REAUTH_REQUIRED at HIGH and LOCKED_OUT at HIGH with the last breach_n scores all high, never below where it was, and any other window leaves the session alone |
| `RiskCore.FusionIsAMean` | backend/app/risk/engine.py:97-112 | fusion raises exactly when no modality is available; otherwise it lies within the bounds the available scores share and its shares sum to one |
| `RiskCore.SharesFollowTheWeights` | backend/app/risk/engine.py:97-112 | the fused score is mixed by the shares reported with it, which are in proportion to the configured weights; a modality has a share iff it is available |
| `RiskCore.LevelMovesOnEvidence` | backend/app/risk/engine.py:114-136 | what the breach counts must be for a scored window to raise the level or to lower it |
| `RiskCore.AdvanceAgrees` | backend/app/risk/engine.py:229-236 | one advance from any state leaves the level in agreement with the history: enough breaches force it up, a full quiet history forces it down |
| `Levels.LevelIsItsScores` | backend/app/risk/engine.py:114-136 | over every run the level is HIGH iff some breach of the high threshold has been followed by no calm below it, and MEDIUM or HIGH iff some breach of the medium threshold has been followed by nothing that clears it |
| `RiskEngines.RiskEngine.ProcessWindow` | backend/app/risk/engine.py:174-318 | the imperative engine does exactly what the step function says, on its own state, the user state machine and the policy |
| `RiskEngines.RiskEngine.FailureOutcome` | backend/app/risk/engine.py:138-172 | a failure degrades the user, raises an alert and emits a non-enforcing decision; nothing else moves |
| `RiskEngines.RiskEngine.AdvanceLevel` | backend/app/risk/engine.py:229-236 | smoothing, history and level are updated in place and stay valid |
| `RiskEngines.RiskEngine.LoseHeartbeat` | backend/app/risk/engine.py:320-330 | a lost heartbeat degrades the user and touches nothing else |
| `RiskEngines.RiskEngine.FailComponent` | backend/app/risk/engine.py:332-350 | refuses blank fields; otherwise a failed component degrades the user and touches nothing else |
| `RiskEngines.RiskEngine.RecoverComponent` | backend/app/risk/engine.py:352-364 | recovery acts only on a degraded user |
| `RiskEngines.ProcessCases` | backend/app/risk/engine.py:174-227 | a call raises exactly for another user or a falling time, changing nothing; otherwise its window is scored or leaves level, budget and cooldowns alone; no decision exactly while enrolling or suspended |
| `RiskEngines.EnrollingDecisions` | backend/app/risk/engine.py:225-227 | a decision names an enrolling user exactly when an outage begun while enrolling ends with this window |
| `RiskEngines.EnforcedMeans` | backend/app/risk/engine.py:238-276 | an enforced decision proves the user ACTIVE, shadow mode off, and for TERMINATE a full history of high scores |
| `FailingOpen.WindowsAreHandled` | backend/app/risk/engine.py:174-318 | after every run a window is handled by what its request holds: refused, unheard while enrolling or suspended, held back on insufficient data with nothing moved, failed loudly with the user and the decision DEGRADED and exactly one alert when a required modality is missing or unscored, and scored otherwise; every decision carries its request's identity |
| `FailingOpen.OutagesAreCaused` | backend/app/risk/engine.py:138-172 | over every run a DEGRADED user was degraded by a lost heartbeat, a failed component or a window that says so in its alert and its decision, and has been so ever since |
| `EngineRuns.RunFacts` | protocol/generated/python/contracts.py:413-435 | in every run each emitted decision meets the decision contract and every state stays valid |
| `EngineRuns.OnlyScoredWindowsMoveTheLevel` | backend/app/risk/engine.py:174-236 | after any run with failures, holds, outages and mode changes interleaved, the level state is what the adjusted scores alone produce |
| `EngineRuns.HistoryIsTheLastScores` | backend/app/risk/engine.py:229-236 | the breach history is exactly the last breach_n smoothed scores of the whole run |
| `EngineRuns.HighIsAnnounced` | backend/app/risk/engine.py:245-256 | whenever a run stands at HIGH the alert was raised, and every window scored since has been HIGH |
| `EngineRuns.EngineDetects` | backend/app/risk/engine.py:114-136 | sustained adjusted scores of at least c bring HIGH within m + k - 1 scored windows and a TERMINATE request within m + n - 1, through any interleaving |
| `EngineRuns.EngineRecovers` | backend/app/risk/engine.py:114-136 | sustained adjusted scores of at most c bring LOW within m + n - 1 scored windows, from any state |
| `EngineRuns.EnforcementNeedsEvidence` | backend/app/risk/engine.py:238-276 | over whole runs, nothing is enforced unless ACTIVE and out of shadow mode, and TERMINATE stands on the last breach_n smoothed scores of the run |
| `EngineRuns.EngineRespectsBudget` | backend/app/risk/engine.py:177-179 | the engine's own time check suffices for the cooldown and the sliding budget, over any run |
| `Escalations.SustainedRiskTerminates` | backend/app/decisions/policy.py:41-70 | after any history, scores held at c through m + n - 1 scored windows of an ACTIVE user out of shadow mode bring an enforced TERMINATE no later than the first scored window one cooldown on, whatever failures, holds and earlier actions lie between |
| `Escalations.EveryExcessTerminates` | backend/app/risk/engine.py:206-288 | for every score above the high threshold there is one number of windows that is enough for every user, history and stretch of events |
| `Alarms.AlarmsAreBounded` | backend/app/risk/engine.py:114-136 | over every list of adjusted scores the level rises to MEDIUM no more often than the scores reach the medium threshold, and to HIGH no more often than they reach the high one |
| `Alarms.EngineAlarmsAreBounded` | backend/app/risk/engine.py:206-260 | the same over every run of the engine; with damping, no more often than the fused scores do |
| `Latency.Detection` | backend/app/risk/engine.py:114-136 | the detection bound for the level arithmetic alone, from any valid state |
| `Latency.Recovery` | backend/app/risk/engine.py:114-136 | the recovery bound for the level arithmetic alone, from any valid state |
| `Latency.DetectionIsExact` | backend/app/risk/engine.py:114-136 | the detection bound cannot be improved: a constant reading reaches HIGH in window m + k - 1 and in no earlier one |
| `Latency.MemoryOutlasted` | backend/app/risk/engine.py:229-232 | the number of smoothing steps that outlasts a given memory, in closed form |
| `Latency.LatencyIsFinite` | backend/app/risk/engine.py:229-232 | such a number exists for every sustained excess and every sustained calm |
| `Replay.ReplayRiskLevels` | tools/evaluation/replay_state_machine.py:91-151 | the offline loop computes the replay function of its readings |
| `Replay.NextIsAdvance` | tools/evaluation/replay_state_machine.py:103-150 | one replayed reading and one scored window take the same step from the same state |
| `Replay.ReplayRefinesEngine` | tools/evaluation/replay_state_machine.py:91-151 | for every run without suspension that starts calibrating or active, replay over the abstracted readings gives exactly the recorded risk levels |
| `Replay.DocumentedReadingsSuffice` | tools/evaluation/replay_state_machine.py:64-84 | with damping, fused score and confidence are all the replay needs |
| `Replay.NormalizationEscapesTheReplay` | tools/evaluation/replay_state_machine.py:64-84 | a concrete run with per-context normalisation where the replay of fused score and confidence reports LOW and the engine HIGH |
| `ReplayExactness.DocumentedReplayIsExact` | tools/evaluation/replay_state_machine.py:64-84 | over every run, in either adjustment mode, the replay of fused score and confidence reports the engine's smoothed scores if and only if every window taken has an adjusted score equal to fused score times confidence, a condition on each request alone |
| `ReplayExactness.DampingIsDocumented` | backend/app/risk/types.py:59-75 | a context without normalisation always meets that condition |
| `Framing.UnpackInvertsPack` | backend/app/ingestion/framing.py:48-52 | reading back the four-byte big-endian header gives the length that was written |
| `Framing.PackInvertsUnpack` | backend/app/ingestion/framing.py:48-52 | every four bytes are the header of the length they are read as |
| `Framing.IncrementalFrameDecoder.FeedChunk` | backend/app/ingestion/framing.py:40-77 | the decoding loop over the byte buffer, chunk by chunk, with its issues in order |
| `Framing.IncrementalFrameDecoder.FinishStream` | backend/app/ingestion/framing.py:79-89 | end of stream reports a truncated frame for any bytes or length still pending and resets |
| `Framing.DrainLeavesWaiting` | backend/app/ingestion/framing.py:47-75 | between two calls the decoder holds less than one header or less than one bounded frame |
| `Framing.CutIsHarmless` | backend/app/ingestion/framing.py:40-77 | cutting a chunk in two changes the outcome exactly when a non-empty rest follows an oversized header |
| `Framing.ChunkingIsInvisible` | backend/app/ingestion/framing.py:40-77 | without an oversized header every chunking gives the same payloads, issues and final state as one feed |
| `Framing.RoundTrip` | tools/synthetic/framing.py:47-54 | the frames of any payload list, in any chunks, decode to that list with nothing left to report |
| `Framing.EncodeOfDecode` | backend/app/ingestion/framing.py:40-77 | an issue-free stream is the encoding of its payloads followed by the bytes still pending |
| `Framing.CleanStreamsAreEncodings` | tools/synthetic/framing.py:47-54 | a fresh decoder consumes a stream cleanly exactly when the stream is an encoding |
| `FrameGrammar.EveryByteIsExplained` | backend/app/ingestion/framing.py:40-76 | for any decoder and chunk, the bytes held and fed are the frames delivered, the zero and oversized headers reported, in their order, and what is held afterwards; only behind an oversized header is anything dropped |
| `FrameGrammar.EveryEndIsExplained` | backend/app/ingestion/framing.py:79-89 | at the end of a stream a truncated frame is reported iff bytes are held, with the number waiting behind the header and the length the header declares, if it is whole |
| `Ordering.SequenceTracker.Observe` | backend/app/ingestion/ordering.py:45-68 | one observation, with the deque, its set, the expected number and the last capture time |
| `Ordering.SequenceTracker.Remember` | backend/app/ingestion/ordering.py:38-43 | removal from the set never fails, and set and deque keep the same increasing elements |
| `Ordering.TrackerRemembersRecords` | backend/app/ingestion/ordering.py:38-68 | after any run the deque is the last capacity admitted numbers, and the range expected - first is admitted plus missing |
| `Ordering.StatusMeans` | backend/app/ingestion/ordering.py:45-68 | DUPLICATE exactly for the last capacity admitted numbers; admitted exactly when above all earlier ones; missing counts the gap |
| `Ordering.AcceptanceIsExact` | backend/app/ingestion/ordering.py:45-68 | an event is accepted iff its number exceeds all earlier ones and its time does not fall behind that of the event accepted last, where both are present; GAP_ACCEPTED iff numbers are missing before it |
| `Ordering.AcceptedIsOrdered` | backend/app/ingestion/ordering.py:45-68 | accepted numbers strictly increase, and neighbouring accepted capture times never fall when both are present |
| `Ordering.TimedRunsAreMonotone` | backend/app/ingestion/ordering.py:60-68 | when every observation is timed, accepted capture times never fall at all |
| `Ordering.FallsSlipThrough` | backend/app/ingestion/ordering.py:60-68 | an event whose time falls behind an earlier accepted one is let through exactly when the event accepted just before it carried no time |
| `Ordering.MissingTimestampForgets` | backend/app/ingestion/ordering.py:60-68 | a concrete run where an event without capture time lets accepted times fall |
| `Sessions.SessionManager.Start` | backend/app/ingestion/sessions.py:49-85 | session start, its refusals, and the fields it sets |
| `Sessions.SessionManager.Attribute` | backend/app/ingestion/sessions.py:87-137 | attribution of one event, with the idle split and the segment it opens |
| `Sessions.SessionManager.End` | backend/app/ingestion/sessions.py:139-166 | closes the open segment before the session |
| `Sessions.LifecycleIsWellBracketed` | backend/app/ingestion/sessions.py:49-166 | every run's log is accepted by a monitor: bracketed sessions and segments of one user, events only in the open segment, no idle gap inside one and one between any two of a session, ends at the last event, and with ordered times segments that do not overlap |
| `Sessions.StartIsExact` | backend/app/ingestion/sessions.py:49-85 | when a session starts, is rejected or is refused, and with which error |
| `Sessions.IdentifiersAreFresh` | backend/app/ingestion/sessions.py:49-137 | over every run no identifier minted for a session or segment is minted again |
| `Pipeline.IngestionPipeline.ConsumeDecoded` | backend/app/ingestion/pipeline.py:107-154 | the loop over decoded payloads, with counters, ring, tracker and sessions |
| `Pipeline.IngestionPipeline.FeedChunk` | backend/app/ingestion/pipeline.py:156-158 | one chunk through decoder and pipeline |
| `Pipeline.IngestionPipeline.FinishTransport` | backend/app/ingestion/pipeline.py:160-161 | the end of a transport through decoder and pipeline |
| `Pipeline.IngestionPipeline.StartSession` | backend/app/ingestion/pipeline.py:76-82 | a started session clears the ring and resets the tracker |
| `Pipeline.IngestionPipeline.EndSession` | backend/app/ingestion/pipeline.py:84-89 | an ended session clears the ring and resets the tracker |
| `Pipeline.IngestionPipeline.ReportInfrastructureFailure` | backend/app/ingestion/pipeline.py:163-168 | refuses blank fields; otherwise an infrastructure failure counts as one availability event and nothing else |
| `Pipeline.IngestionIsConserved` | backend/app/ingestion/pipeline.py:69-154 | in every reachable state frames and availability events balance with their sources, the ring is the last capacity accepted events of the session, and the lifecycle log satisfies the timed monitor without any assumption on the input |
| `Pipeline.StepIsTheCall` | backend/app/ingestion/pipeline.py:76-168 | each operation of the histories above leaves the state that the call of the same name leaves |
| `SessionMemory.FatesAreOfTheSession` | backend/app/ingestion/pipeline.py:76-127 | after any history a valid event is repeated iff its number is one of the last ring-capacity records among the events offered since the session changed, and admitted iff it exceeds them all and is not earlier than the one accepted last; then it is taken or homeless as a session is active or not; the gap counts from their last record |
| `PipelineCounts.EveryCounterIsExact` | backend/app/ingestion/pipeline.py:91-154 | after any sequence of calls every counter is the number of payloads of its fate, or of issues of its kind, in the whole history, and the missing count is the sum of the gaps reported |
| `PipelineCounts.CallsReportExactly` | backend/app/ingestion/pipeline.py:91-154 | a call reports the codes of its issues, then those of its payloads' fates, and as many events as were accepted |
| `Timelines.ContextTimeline.constructor` | ml/features/windowing.py:74-78 | the three parallel lists hold the focus changes in order of time and sequence, however they were supplied |
| `Timelines.ContextTimeline.Add` | ml/features/windowing.py:126-132 | a live change is inserted behind all changes of its time, in all three lists |
| `Timelines.ContextTimeline.FocusShares` | ml/features/windowing.py:80-124 | the sweep's result is the exact occupancy: every focus and category with its share of the instants, and the changes strictly inside |
| `Timelines.ContextTimeline.Sweep` | ml/features/windowing.py:100-117 | the totals are the numbers of instants each focus and category holds the foreground |
| `Timelines.MixtureIsUnique` | ml/features/windowing.py:80-124 | the occupancy requirements determine the mixture |
| `FocusSums.MixtureIsAPartition` | ml/features/windowing.py:80-124 | application shares sum to one, and grouped by category they give the category's share |
| `FocusSums.SwitchesAreInside` | ml/features/windowing.py:80-124 | the switches reported are the number of focus changes strictly inside the interval |
| `FocusSums.CategoriesAreAPartition` | ml/features/windowing.py:80-124 | category shares sum to one |
| `Sorting.SortIsAscendingPermutation` | ml/features/windowing.py:293 | the builders' sort by (time, sequence) yields an ascending permutation |
| `Sorting.SortRecovers` | ml/features/windowing.py:293 | however a strictly ordered stream is supplied, sorting recovers it |
| `Windows.WindowBuilder.Close` | ml/features/windowing.py:226-283 | bounds, events, counts, quality and index of the closed window, the focus mixture it reports, the screen its mouse features are scaled from if it has any, and the builder after it |
| `Windows.WindowBuilder.PushEvents` | ml/features/windowing.py:285-311 | the windows closed by a call are those of the pushing function, each with the exact mixture of its interval |
| `Windows.WindowBuilder.SetDeviceResolution` | ml/features/windowing.py:316-319 | refuses a screen without area and keeps the old one; otherwise the screen is the new one |
| `Windows.WindowBuilder.Flush` | ml/features/windowing.py:321-329 | the trailing window ends at its last event; nothing is closed when nothing is pending |
| `WindowContents.WindowsHoldTheStream` | ml/features/windowing.py:285-311 | no input is lost, duplicated or reordered between the windows and what still waits |
| `WindowContents.WindowsCloseWhenDue` | ml/features/windowing.py:285-311 | every closed window has reached its keystrokes or its duration, the waiting one neither, with the counts that quality is judged by |
| `WindowContents.WindowsFollowEachOther` | ml/features/windowing.py:285-311 | on a stream in time order windows follow each other without overlap |
| `WindowLabels.EveryWindowIsLabelled` | ml/features/windowing.py:174-184 | every window of every stream, trailing or not, is FULL or KBD_ONLY iff it holds enough keystrokes and FULL or MOUSE_ONLY iff it holds enough mouse samples, and the windows are numbered one after the other |
| `WindowLabels.EveryWindowIsSpanned` | ml/features/windowing.py:285-329 | on a stream in time order every window starts with the earliest event it holds and ends with the latest |
| `WindowLabels.ScreensGoWithTheMouse` | ml/features/windowing.py:245-263 | a closed window names a screen iff it holds enough mouse samples: the one known then, or the reference |
| `LiveBatch.OnEvent` | backend/app/runtime/orchestrator.py:466-489 | one runtime event: a focus change extends the timeline, a device event sets the screen, an input is pushed alone, any other event leaves the builder as it was |
| `LiveBatch.WindowLive` | backend/app/runtime/orchestrator.py:466-489 | the live event loop over one segment, with its flush |
| `LiveBatch.ExtractWindows` | ml/features/extractor.py:35-64 | the batch extraction over the same segment |
| `LiveBatch.MixtureIgnoresTheFuture` | ml/features/windowing.py:80-132 | for an interval of positive length, changes from its end on do not alter the mixture |
| `LiveBatch.InstantWindowsDiffer` | ml/features/windowing.py:115-120 | for an instant window the two mixtures differ exactly when a later change of the same time names another focus |
| `LiveBatch.BatchSortsBack` | ml/features/extractor.py:50-64 | sorting the keyboard and mouse lists together restores the stream |
| `AcceptedOrder.SessionsAreInOrder` | backend/app/ingestion/pipeline.py:107-154 | in every reachable state of the pipeline the events accepted since the session changed, and so the windowing events of any segment, are in strict sequence order with times that never fall |
| `LiveBatch.LiveEqualsBatch` | ml/features/extractor.py:35-64 | on a stream the tracker accepts, live windowing gives the batch windows, and a window reports the same mixture and screen if and only if it has positive length or no change recorded after it was closed gives its instant another focus, and the screen known when it was closed scales its mouse features as the batch's does |
| `LiveBatch.SimultaneousFocusDiffers` | ml/features/windowing.py:115-120 | the exception occurs: a key press closes a window at once and a focus change of the same instant follows it |
| `LiveScreens.SightingsKnowTheirPast` | backend/app/runtime/orchestrator.py:466-489 | every window closed on the way was closed by an input of the stream, at its time, knowing exactly the focus changes and the last screen reported before that input |
| `LiveScreens.SteadyScreensAgree` | backend/app/runtime/orchestrator.py:477-481 | when no device event of the segment changes the screen and the batch is given that screen, only the focus of an instant can differ |
| `LiveScreens.LateScreenDiffers` | backend/app/runtime/orchestrator.py:477-481 | the other exception occurs: a window with mouse features is closed before the first device event, and the batch is given the screen that event reports |
| `LiveBatch.PushingIsIncremental` | ml/features/windowing.py:285-311 | pushing two ordered pieces one after the other is pushing them together |
| `Moments.UpdateAdds` | backend/app/risk/context.py:65-71 | one update adds exactly one observation to the total weight, the weighted sum and the raw second moment |
| `Moments.RunningIsBatch` | backend/app/risk/context.py:65-71 | running moments are the batch moments: total weight, weighted mean, weighted squared deviations |
| `Moments.OrderDoesNotMatter` | backend/app/risk/context.py:65-71 | the record depends on the observations as a bag only |
| `Moments.VarianceIsBounded` | backend/app/risk/context.py:57-63 | for scores in [0, 1] the variance is at most mean * (1 - mean), hence at most 1/4 |
| `Moments.RunningIsPlausible` | backend/app/risk/context.py:65-71 | every record of scores in [0, 1] satisfies that bound's premises |
| `ContextLayer.ContextConfidenceLayer.ObserveGenuine` | backend/app/risk/context.py:132-163 | one genuine window updates the record of every application it covers and the user's baseline; nothing while suspended, refusals for a blank user or a bad score |
| `ContextLayer.ContextConfidenceLayer.SuspendLearning` | backend/app/risk/context.py:112-130 | suspending learning changes nothing that was learned |
| `ContextLayer.ContextConfidenceLayer.Assess` | backend/app/risk/context.py:182-284 | the accumulating loop yields the share-weighted mixture of the applications' confidences, within [floor, 1], so the source's clamps never bind; coverage, evidence, source and the adjustment parameters built from the mixture |
| `ContextLayer.ContextConfidenceLayer.BuildAssessment` | backend/app/risk/context.py:250-284 | normalisation parameters exactly when the mode, the coverage and the baseline allow, with positive scales |
| `Normalising.RecentringIsExact` | backend/app/risk/context.py:204-221 | where a window's empirical applications share the genuine mean m, normalisation takes a score of m to the profile's mean if and only if they cover the whole window or m is zero |
| `Normalising.FullCoverageRecentres` | backend/app/risk/types.py:24-28 | with full coverage a score at the context's mean is adjusted to the profile's mean |
| `Normalising.PartialCoverageOffsets` | backend/app/risk/context.py:204-221 | partial coverage does occur under normalisation and moves the context's genuine mean off the profile's |
| `ContextLayer.AppConfidenceBounds` | backend/app/risk/context.py:168-180 | an application's confidence lies between the floor and one |
| `ContextLayer.BlendIsBetween` | backend/app/risk/context.py:212-225 | a mixture lies between the bounds of what it mixes |
| `ContextLayer.RecordsRecombine` | backend/app/risk/context.py:132-163 | for every user the application records hold exactly the weight and weighted sum of the baseline, when window shares sum to one |
| `Confidences.RecordsAreTheirObservations` | backend/app/risk/context.py:132-166 | whatever was learned from, an application's record is the running record of the scores observed while it had focus |
| `Confidences.AssessmentIsExact` | backend/app/risk/context.py:168-248 | after any list of genuine windows, confidence, coverage, mean and variance of a window are focus-weighted means over its applications: an application with enough weight contributes one minus its scaled batch variance, at least the floor, whatever its bootstrap; one with less contributes its bootstrap, whatever was observed; the evidence is the weight observed |
| `Confidences.ConfidenceFallsWithVariance` | backend/app/risk/context.py:168-180 | between two applications known well enough, the one with the larger batch variance is trusted no more |
| `Confidences.ParametersAreExact` | backend/app/risk/context.py:250-284 | normalisation is on iff the mode asks for it, half of the window is covered and enough windows of the user were learned from; then it carries the batch mean and deviation of all the user's scores |
| `Postures.EnforcementSessionState.Move` | backend/app/decisions/session.py:147-168 | posture, cause, start and failed responses after a move, and the transition reported |
| `Postures.EnforcementSessionState.ObserveDecision` | backend/app/decisions/session.py:170-202 | one decision as an atomic call |
| `Postures.EnforcementSessionState.ObserveChallengeOutcome` | backend/app/decisions/session.py:204-263 | one challenge outcome as an atomic call |
| `Postures.ObserveKeepsConsistent` | backend/app/decisions/session.py:147-263 | NORMAL exactly without start and cause; a failed response always leaves the session blocked |
| `Postures.LadderRules` | backend/app/decisions/session.py:170-263 | decisions never lower the posture; a lockout begins only with an applied TERMINATE or a failed REAUTH and ends only with an accepted REAUTH |
| `Postures.LadderIsEnforced` | backend/app/decisions/session.py:170-263 | conversely these always lock, block and restore |
| `PostureHistories.SessionTellsItsHistory` | backend/app/decisions/session.py:147-256 | after any history of decisions and answers the posture, cause and start are those of the last transition, every transition is the one its observation leads to under its reason code, and the failed responses are those since NORMAL |
| `PostureLocks.TransitionsChain` | backend/app/decisions/session.py:147-263 | under every interleaving of critical sections the transitions made chain up to the current posture, and NORMAL holds exactly when there is no start time |
| `PostureDelivery.NothingIsLost` | backend/app/decisions/session.py:147-168 | under every interleaving the transitions made are, with multiplicity, those the sink has received and those on their way, one for each thread about to call it |
| `PostureDelivery.DeliveryIsExact` | backend/app/decisions/session.py:147-168 | for every schedule the sink has received the transitions in the order they were made if and only if every call of it was by the thread holding the oldest one on its way |
| `PostureDelivery.QuietDeliveryChains` | backend/app/decisions/session.py:147-168 | when no other move falls between a move and its delivery, what the sink receives is in order and chains, at most one transition behind |
| `PostureDelivery.LockoutIsToldFirst` | backend/app/runtime/orchestrator.py:837-856 | a concrete run in which the sink receives a lockout before the soft challenge that preceded it: what was made chains, what was received does not |
| `PostureLocks.UninterruptedCallIsAtomic` | backend/app/decisions/session.py:170-263 | the sections of a call that is not interrupted, delivery included, are the atomic call |
| `PostureLocks.StaleCheckLowersPosture` | backend/app/decisions/session.py:189-202 | such a run does occur: between the check and the move of a soft challenge the second of two outstanding reauthentications fails and locks the session out, and the move lowers the posture |
| `PostureLocks.LoweringIsExact` | backend/app/decisions/session.py:147-263 | from any state, with any sections of other threads between the check and the move of a decision or a failed soft challenge, the move lowers the posture if and only if some transition was made since the check and the last one ended above the call's rung |
| `PostureLocks.QuietGapNeverLowers` | backend/app/decisions/session.py:147-263 | hence from any history neither lowers the posture when no other move falls between its check and its move |
| `PostureLocks.UnwindingIsExact` | backend/app/decisions/session.py:235-253 | the move of a correct soft answer unblocks the session if and only if some transition was made since its check and the last one ended in a blocking posture |
| `PostureLocks.StaleAnswerUnwindsLockout` | backend/app/decisions/session.py:235-253 | such a run does occur: a TERMINATE between the check and the move of a correct soft answer, which leads from the lockout back to NORMAL |
| `PostureLocks.FailuresBlockExactly` | backend/app/decisions/session.py:147-263 | for every schedule with no blocking step still to come, a failed response leaves the session blocked if and only if the last transition did not lead from a blocking posture down to CHALLENGED |
| `Challenges.ChallengeService.Open` | backend/app/decisions/challenge.py:274-299 | a challenge is registered under its id, or refused when none is configured |
| `Challenges.PutKeepsPlaces` | backend/app/decisions/challenge.py:274-299 | a challenge opened under an outstanding id takes that one's place in the registry, any other goes to the end, and nothing else moves |
| `Challenges.ChallengeService.OpenScheduled` | backend/app/decisions/challenge.py:301-340 | a scheduled prompt carries the reserved prefix and is a soft challenge |
| `Challenges.ChallengeService.OpenReauthentication` | backend/app/decisions/challenge.py:342-388 | returns the newest outstanding enforcing challenge, or opens a recovery one when there is none |
| `Challenges.ChallengeService.ExpireOverdue` | backend/app/decisions/challenge.py:390-407 | popping the overdue one by one leaves exactly the unexpired, in order |
| `Challenges.ChallengeService.ActiveChallenge` | backend/app/decisions/challenge.py:414-429 | the first of the highest-ranked outstanding challenges, scheduled ones last |
| `Challenges.ChallengeService.Respond` | backend/app/decisions/challenge.py:433-471 | one answer: unknown, expired, rejected or accepted, and removed unless unknown |
| `Challenges.ChallengeService.Discard` | backend/app/decisions/challenge.py:473-475 | a withdrawn challenge leaves the registry, an absent one changes nothing |
| `Challenges.ActiveIsEnforcingFirst` | backend/app/decisions/challenge.py:414-431 | the active challenge is a scheduled prompt only when nothing else is outstanding, and no other of its kind was opened later |
| `ChallengeAnswers.RespondIsExact` | backend/app/decisions/challenge.py:433-471 | an answer settles the outstanding challenge of its id that admits its token, for what it is worth, and removes it alone; any other answer is to an unknown challenge and changes nothing |
| `ChallengeLedger.EveryChallengeIsResolvedOnce` | backend/app/decisions/challenge.py:274-475 | over every run with fresh ids and a monotone clock: opened = pending + responded + expired + discarded as bags, each id once, at most one live recovery challenge, nothing accepted late |
| `ChallengeLedger.NumbersBalance` | backend/app/decisions/challenge.py:274-475 | the same in numbers |
| `ChallengeLedger.ResolvedAtMostOnce` | backend/app/decisions/challenge.py:390-475 | no challenge is resolved twice, or both resolved and pending |
| `ChallengeAnswers.EveryAnswerIsAccountable` | backend/app/decisions/challenge.py:274-471 | over every such run each challenge was opened by an operation as it asked and for the whole timeout, and each one settled by an answer was presented with its own token or with none and has the outcome that the answer was worth at that time |
| `ChallengeAnswers.ForeignAnswersChangeNothing` | backend/app/decisions/challenge.py:433-471 | in every such run an answer under another token, or to an id not outstanding, changes nothing |
| `Enforcement.EnforcementBackend.Store` | backend/app/decisions/adapters.py:171-176 | one outcome is stored, with its anchor when it carries one |
| `Enforcement.EnforcementBackend.Execute` | backend/app/decisions/adapters.py:200-257 | gating, posture before the adapter, fail-open on a missing or raising adapter, and the outcome stored |
| `Enforcement.EnforcementBackend.Resolve` | backend/app/decisions/adapters.py:320-362 | the posture moves unless the prompt was scheduled; an outcome is stored only for an engine decision |
| `Enforcement.EnforcementBackend.SweepExpiredChallenges` | backend/app/api/backend.py:442-477 | the sweep resolves every overdue challenge in order |
| `Enforcement.EnforcementBackend.RespondToChallenge` | backend/app/api/backend.py:346-440 | sweep first, then the answer, then its consequences; a late answer to a swept challenge is EXPIRED |
| `Enforcement.ScheduledPromptsExpireSilently` | backend/app/api/backend.py:457-466 | a sweep moves posture and records exactly as if the scheduled prompts were not there |
| `Enforcement.ScheduledAnswersNeverMove` | backend/app/api/backend.py:375-436 | answering a scheduled prompt moves the posture no more than the sweep before it, and leaves at most an A3 anchor |
| `Enforcement.LateAnswersAreExpired` | backend/app/api/backend.py:359-372 | an answer the sweep's clock has overtaken is EXPIRED whatever it says, and only the sweep happens |
| `Enforcement.SweepRules` | backend/app/api/backend.py:442-477 | a sweep never lowers the posture, and leaves it locked out exactly when it was or an enforcing REAUTH expired |
| `Enforcement.ResolveRules` | backend/app/api/backend.py:375-389 | what one resolved challenge may do to a lockout, in both directions |
| `EnforcementRecords.EveryDecisionIsRecorded` | backend/app/decisions/adapters.py:200-257 | in every reachable runtime each decision is recorded once, as acted on or gated, with what its adapter answered; its challenge is registered iff it is acted on, asks for one and is configured, and withdrawn only when its prompt does not start |
| `EnforcementRecords.EveryAnswerIsRecorded` | backend/app/decisions/adapters.py:320-362 | in every reachable runtime an answer under another token or to an unknown id is not found and does nothing beyond the sweep, one to a challenge just expired is EXPIRED, and any other settles its challenge with one outcome for a challenge of the engine, SUCCEEDED iff accepted, and the anchor it amounts to |
| `EnforcementRecords.SweepIsExact` | backend/app/api/backend.py:442-477 | a sweep removes exactly the overdue challenges and records one cancelled outcome for each of the engine |
| `EnforcementRecords.ExecutionIsExact` | backend/app/decisions/adapters.py:200-257 | for every reply of an adapter: one outcome, a notice iff it is missing or raises, an anchor iff a reauthentication succeeded on evidence |
| `EnforcementRecords.RequestsAreExact` | backend/app/api/backend.py:479-503 | a recovery is opened iff the session is blocked with no enforcing challenge outstanding; a scheduled prompt is a soft one; neither touches anything else |
| `EnforcementRecords.RequestsNeedAnAnchor` | backend/app/runtime/orchestrator.py:560-645 | in every reachable runtime such a request reaches the registry iff a session and a segment are open to anchor it to, and otherwise changes nothing |
| `RuntimeRuns.EngineIsIndependent` | backend/app/runtime/orchestrator.py:196-283 | in every run and every session of it the engine's part is the engine started cold in the stored state and run on that session's monitoring events alone |
| `RuntimeRuns.EveryRuntimeIsSound` | backend/app/runtime/orchestrator.py:750-791 | in every reachable state, across any number of sessions, the ladder is consistent and each outstanding enforcing challenge comes from an enforced decision for an ACTIVE user, or from a recovery |
| `RuntimeRuns.EnforcedRules` | backend/app/decisions/native.py:131-153 | executing a decision never lowers the posture, and locks out exactly for an enforced TERMINATE, whatever the adapter does |
| `RuntimeRuns.LockoutIsJustified` | backend/app/decisions/adapters.py:200-224 | over every run and across sessions a lockout begins only with a TERMINATE on the session's last breach_n smoothed scores, or with a justified REAUTH that expired or was answered wrongly |
| `RuntimeRuns.LockoutEndsByReauth` | backend/app/api/backend.py:375-389 | over every run a lockout ends only with a correct answer in time to a justified REAUTH, and then nothing is remembered; ending or starting a session does not end it |
| `Lockouts.SustainedRiskLocksOut` | backend/app/runtime/orchestrator.py:747-791 | from any reachable runtime with enforcement enabled, scores held at c lock the session out no later than the first scored window one cooldown after m + n - 1 of them, whatever is answered, swept, prompted or asked for in between |
| `Recoveries.NewestIsTheFirstMax` | backend/app/decisions/challenge.py:367-374 | the challenge that the registry hands out is exactly the one opened last, the earlier entry on a tie |
| `Recoveries.RecoveryRestoresAccess` | backend/app/decisions/challenge.py:342-388 | a blocked participant who asks for the way back and answers what is handed out correctly in time is always told ACCEPTED, and the session is NORMAL again if and only if the challenge handed out asks for a REAUTH |
| `Recoveries.RoundIsTwoEvents` | backend/app/runtime/orchestrator.py:624-645 | asking and answering are two events of the whole runtime, while a session has an open segment |
| `Recoveries.AlwaysAWayBack` | backend/app/api/backend.py:479-503 | from every reachable blocked state, one more round of asking and answering correctly than there are enforcing challenges outstanding brings the session back to NORMAL with nothing remembered |
| `RecoveryTurns.BlockedGoesToNormal` | backend/app/decisions/session.py:147-263 | no event of the runtime takes a blocked session anywhere but to another blocking posture or to NORMAL with nothing remembered |
| `RecoveryTurns.AWayBackMeanwhile` | backend/app/api/backend.py:479-503 | the same while monitoring, sweeps, wrong answers and session changes go on between the rounds, as long as they open no further enforcing challenge |
| `RecoveryLimits.AcceptedButStillBlocked` | backend/app/decisions/session.py:235-258 | a concrete run of the whole runtime: a soft challenge outstanding since before the block is handed out, its correct answer is accepted, and the session stays blocked |
| `Apportionment.PartitionDays` | tools/collection/freeze.py:35-69 | the two refusals, the hand-out loop and the dictionary of days |
| `Apportionment.LargestRemaindersFirst` | tools/collection/freeze.py:55-60 | the leftover days go to the partitions with the largest remainders, among equal ones to the larger fractions, and where these are equal too to the earlier partition |
| `Apportionment.SplitIsFair` | tools/collection/freeze.py:48-62 | for any n >= 3 days and positive fractions summing to one: three non-empty partitions that add up to n, each within one day of 1 + (n - 3) * fraction |
| `Apportionment.SplitIsContiguous` | tools/collection/freeze.py:61-69 | the partitions follow each other in date order and cover exactly the days |
| `Freeze.ManifestDocument` | tools/collection/freeze.py:72-130 | version, eligibility, emptiness and split errors in order; otherwise assignments and full records per participant |
| `FreezeGates.BuildingIsExact` | tools/collection/freeze.py:72-130 | a manifest is built iff the version is well named, every window is eligible, there is one, and every participant has enough distinct days; each refusal names the first of these that fails |
| `Freeze.ManifestCountsWindows` | tools/collection/freeze.py:104-121 | the manifest has exactly as many records as windows were supplied |
| `Freeze.EveryWindowIsRecorded` | tools/collection/freeze.py:104-121 | every window has a record with its id, participant, day and digest |
| `Freeze.EveryRecordHasItsWindow` | tools/collection/freeze.py:104-121 | every record describes a supplied window |
| `Leakage.StagesNeverMix` | tools/collection/freeze.py:35-116 | no record of a participant is in an earlier stage than one of an earlier day, a day is in one partition only, and each record carries the partition that the manifest assigns to its day |
| `FreezeFiles.VerifyFreeze` | tools/collection/freeze.py:168-191 | any file: unreadable, not an object, altered, without records, with entries lacking a key or naming another partition, then the dictionary checks in order and the counts per partition |
| `FreezeChecks.VerificationIsExact` | tools/collection/freeze.py:168-191 | every way verification can end: unreadable, altered, without records, a lookup failure, a missing window, a changed one, partitions other than the three, or the three counts, in this order |
| `FreezeFiles.WrittenManifestsVerifyAlike` | tools/collection/freeze.py:168-191 | a written manifest read back whole verifies exactly as the manifest itself |
| `Freeze.VerifiesExactlySupersets` | tools/collection/freeze.py:176-187 | with unique ids and injective digests a built manifest verifies against a corpus exactly when every frozen window is in it unchanged |
| `Freeze.AlteredManifestsFail` | tools/collection/freeze.py:173-175 | a manifest altered under its old checksum never verifies |
| `Profiles.UpdateRepository.ActivateProfile` | backend/app/updates/repository.py:142-195 | retire, insert, delete beyond the retained count; a refused insertion undoes the retirement |
| `Profiles.UpdateRepository.Rollback` | backend/app/updates/repository.py:198-245 | the active and the newest retained version trade places, or an error |
| `Profiles.ActivationIsSound` | backend/app/updates/repository.py:142-195 | activation keeps the table sound, never deletes a newer version than it keeps, and touches no other user |
| `ProfileRows.ActivationIsExact` | backend/app/updates/repository.py:142-199 | refused exactly for a known version or a profile without artifacts; otherwise the new row, the retired one and every other row are exactly as written, and as many retained versions stay as the limit allows |
| `Profiles.RollbackIsSound` | backend/app/updates/repository.py:198-245 | rollback keeps the table sound and fails exactly without an active or a retained version |
| `Profiles.EveryTableIsSound` | backend/app/updates/repository.py:142-245 | in every reachable table, even with a clock that goes back: at most one ACTIVE and at most R RETAINED versions a user, every RETAINED one dated, for any order of equal timestamps |
| `Profiles.RollbackUndoesActivation` | backend/app/updates/repository.py:142-245 | a rollback after an activation later than every retirement before it restores the version it replaced |
| `Profiles.TwoRollbacksRestore` | backend/app/updates/repository.py:198-245 | two rollbacks restore the original for every order of equal timestamps exactly when the first is later than every other retirement |
| `Profiles.RunsRestoreAfterTwoRollbacks` | backend/app/updates/repository.py:198-245 | in every reachable table two later rollbacks restore the original ACTIVE version |
| `Calibration.PercentileCalibrator.Fit` | ml/calibration/percentile.py:30-34 | fitting refuses no scores and keeps the sorted ones |
| `Calibration.PercentileCalibrator.Transform` | ml/calibration/percentile.py:36-44 | the binary search's rank is the number of reference scores at or below the score |
| `Calibration.CalibrationIsARank` | ml/calibration/percentile.py:30-44 | a calibrated percentile lies in [0, 100], grows with the score, and is the share of enrollment scores at or below it in whatever order these came |
| `FalseRejection.FusedWindowPercentiles` | tools/enrollment/activate.py:224-253 | the loop refuses a mismatched artifact and skips windows that cannot be scored |
| `FalseRejection.MapsAreInverse` | backend/app/models/service.py:70-97 | percentile and risk maps are inverse, and the inclusive comparison flips sides |
| `FalseRejection.FusionCommutes` | ml/evaluation/fusion.py:19-40 | for every mix of modalities the engine's fused risk is the risk of the fused percentile |
| `FalseRejection.RateIsTheEnginesRate` | tools/enrollment/activate.py:412-440 | the measured false rejection rate is the fraction of scorable windows whose engine-fused risk reaches the medium threshold |
| `Alarms.RateBoundsAlarms` | tools/enrollment/activate.py:323-328 | on the windows it was measured on, damped, the fraction of scored windows at which the engine leaves LOW is at most the measured rate |
| `AlarmLimits.OneBreachHoldsTwoWindows` | tools/enrollment/activate.py:323-328 | a concrete damped run in which one breaching window holds the level at MEDIUM for two further windows |
| `AlarmLimits.NormalizationEscapesTheRate` | tools/enrollment/activate.py:323-328 | a concrete run with per-context normalisation in which the engine leaves LOW although no fused score breaches |
| `FalseRejection.EvidenceIsEngineRisk` | backend/app/risk/engine.py:85-112 | where the live engine scores the window, that risk is what reaches its smoother, and exactly when it does |
| `Audit.VerifyFile` | backend/app/storage/audit.py:76-90 | the record loop accepts exactly an unbroken chain of fresh non-empty ids |
| `Audit.AuditLog.VerifyAll` | backend/app/storage/audit.py:92-101 | succeeds exactly when every file verifies and no id is in two files, and then remembers exactly the recorded ids |
| `Audit.AuditLog.Append` | backend/app/storage/audit.py:103-151 | idempotent for a known id; otherwise today's file is verified and extended |
| `Audit.AuditLog.RotateAndRetain` | backend/app/storage/audit.py:153-198 | deletes, compresses, then verifies everything; stops at the first file that does not verify |
| `Audit.AppendKeepsSettled` | backend/app/storage/audit.py:103-151 | under a monotone clock append never fails, leaves the directory verified and extends one day by exactly one record |
| `Audit.RotationKeepsSurvivors` | backend/app/storage/audit.py:166-196 | rotation deletes exactly the expired days, and leaves a surviving day's records unchanged exactly when no non-empty compressed file is overwritten |
| `Retention.RetentionIsExact` | backend/app/storage/audit.py:153-198 | rotation deletes exactly the files of past days of at least the deletion age, compresses exactly the other plain files of at least the compression age, leaves the rest as it was, and counts both |
| `Audit.EveryLogIsSettled` | backend/app/storage/audit.py:92-198 | over every run of appends and rotations under a monotone clock the directory stays verified and ids stay globally unique |
| `Audit.HistoryIsAppendOnly` | backend/app/storage/audit.py:103-198 | what the log holds for a day at any point is the beginning of what it holds at the end, unless the day expired |
| `Audit.VerifiedIds` | backend/app/storage/audit.py:76-90 | a verified file's ids are those of its records, each once |
| `AuditChains.ChainsAreExact` | backend/app/storage/audit.py:76-90 | a file verifies iff every line is readable, named, unaltered and linked to the line before it, the first to the genesis hash, and no two have one id; verifying yields the last hash and exactly the ids |
| `AuditChains.AppendIsExact` | backend/app/storage/audit.py:103-151 | an id given is kept unless it is empty; a known id changes nothing; otherwise appending fails iff the file of today is a broken chain, changing nothing, and else adds exactly one linked record to it and nothing elsewhere |
| `Audit.TailDeterminesFile` | backend/app/storage/audit.py:76-90 | with a collision-free digest two verified files with the same final hash are equal |
| `Audit.RewoundClockLosesRecords` | backend/app/storage/audit.py:178-191 | a concrete run with a clock that goes back in which rotation overwrites a day's records |

## Left out

- RiskTypes.ContextAssessment.Adjust: floating-point rounding is not modelled; all arithmetic is exact.
- RiskEngines.RiskEngine.ProcessWindow: decision ids are parameters; the sinks that receive decisions, alerts and state changes, and the prose of alert details, are not modelled.
- Replay.ReplayRefinesEngine: runs with a suspension are excluded, because the replay has no user state.
- Policy.SlidingBudget: assumes calls in time order; the engine refuses any other order itself, and `EngineRuns.EngineRespectsBudget` does not assume it.
- UserStates.RunsStayEnrolled: stated for runs without suspension; a suspended user does enroll again.
- Ordering.TimedRunsAreMonotone: needs a capture time on every event, because the property fails without; `FallsSlipThrough` says exactly when.
- Framing.ChunkingIsInvisible: stated without oversized headers, because the property fails with them (`CutIsHarmless`).
- Framing.RoundTrip: payloads are bytes; the JSON inside a frame is not modelled.
- LiveBatch.LiveEqualsBatch: stated for streams in the order the tracker accepts, and for what a window carries in the model: events, bounds, counts, quality, index, focus mixture and screen.
- LiveBatch.OnEvent: what a registry entry, a heartbeat or a closed window does outside the builder of its segment is not modelled here.
- Windows.WindowBuilder.Close: the formulas that turn the events and the screen into features, device class, dominant category, switch rate and the window id string are not modelled.
- ContextLayer.ContextConfidenceLayer.Assess: the square root is a parameter, of which nothing is assumed.
- WindowLabels.EveryWindowIsSpanned: needs a stream in time order, which the sort in `PushEvents` provides.
- ContextLayer.RecordsRecombine: needs windows whose shares sum to one, which `FocusSums.MixtureIsAPartition` proves of every window the builder closes.
- Postures.LadderRules: takes each call as one atomic step; `PostureLocks` drops that assumption.
- ChallengeLedger.EveryChallengeIsResolvedOnce: assumes fresh ids and a clock that never goes back.
- ChallengeAnswers.EveryAnswerIsAccountable: the same assumptions; `EnforcementRecords.EveryAnswerIsRecorded` does without them.
- Challenges.ChallengeService.Respond: the answer check (normalisation, key derivation, constant-time comparison) is an uninterpreted predicate; registering a security question and storing the credential are left out.
- Enforcement.EnforcementBackend.Execute: the outcome store always succeeds, and the digest of an evidence reference is not modelled.
- RuntimeRuns.LockoutIsJustified: the configured credential is fixed during a run, and calls of several threads are atomic steps.
- RuntimeRuns.EngineIsIndependent: the state stored for a user is a parameter of each session start; shutdown ends a run and is not an event.
- Enforcement.EnforcementBackend.RespondToChallenge: both verification sinks always record; the orchestrator drops a scheduled verification when no session is active.
- Recoveries.AlwaysAWayBack: each round is answered correctly before the deadline of the challenge handed out, while a session has an open segment; the rounds follow each other directly.
- RecoveryTurns.AWayBackMeanwhile: the events in between open no further enforcing challenge.
- PostureDelivery.DeliveryIsExact: a call of the sink is one step, and the sink does not fail.
- Escalations.SustainedRiskTerminates: stated for stretches without suspension and without shadow mode, in which nothing is enforced by design.
- Pipeline.IngestionPipeline.FeedChunk: the callbacks that receive events are not modelled; `recover_transport` and `shutdown`, compositions of modelled calls, are left out.
- Sessions.SessionManager.Start: generated ids are a counter.
- Apportionment.SplitIsFair: fractions sum to exactly one; the configuration allows a slack of 1e-9.
- Freeze.ManifestDocument: ids and days are integers, compared by order only; writing the file is left out.
- Freeze.VerifiesExactlySupersets: window ids are unique and digests injective.
- Profiles.EveryTableIsSound: a transaction is one step, and its audit row is left out; rows are never REJECTED because neither operation creates one.
- Profiles.RunsRestoreAfterTwoRollbacks: assumes a clock that never goes back, as two rollbacks otherwise need not restore (`TwoRollbacksRestore` is exact).
- Profiles.UpdateRepository.ActivateProfile: the retained count is not negative.
- Calibration.PercentileCalibrator.Transform: one score at a time, not an array.
- Alarms.RateBoundsAlarms: counts rises of the level; smoothing and hysteresis can keep it risen over several windows.
- AcceptedOrder.SessionsAreInOrder: decoding a payload into a windowing event is a function that keeps its sequence number and capture time.
- Audit.AuditLog.Append: a record is its id, its link and one opaque content; partial writes and file permissions are left out.
- Retention.RetentionIsExact: stated for directories whose files all verify; the first that does not stops a rotation.
- Audit.EveryLogIsSettled: assumes a clock that never goes back across appends and rotations.
- Storage service, update manager and event broker are not part of this model.
- Named pipes, hooks, native prompts and the workstation lock, HTTP routes, dashboard, collector loop, model training, numpy statistics, configuration loading and synthetic generators would only add easy members.

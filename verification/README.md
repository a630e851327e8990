# A verified model of the watch, review and evidence protocols

This project models, in Dafny, the parts of the market-impact agent that hold state which
many workers, crashes and replays can touch, together with the algorithms whose results
those parts store. It proves what each step keeps, what every run satisfies, and what the
stored records determine. `dafny verify dfyconfig.toml` checks all of it.

## What is modelled

* **Attention Watch** (`WatchStore`, `WatchRuns`, `WatchAccounting`, `WatchLineage`,
  `WatchAllowance`, `WatchLeases`, `WatchOutcomes`, `WatchAuthority`, `WatchService`). A
  watch is a leased row with poll, byte and wake budgets, a set of seen versions, an
  outbox of wakes, a cooldown, cancellation, and a one-time rebaseline that retires it
  and creates a successor with what is left of its allowance. Every transaction, and
  every fenced single UPDATE, is one function from the tables to the tables;
  `AttentionWatchService` performs the same steps in place. Workers carry what they read
  at their claim, may crash at any point, and may race a takeover, a cancel or a
  rebaseline. Tokens are fresh. `Db.polls` is a history of applied polls that the program
  does not store: it is what the counters are checked against.
* **Admission and dispatch** (`Admission`, `AdmissionLimits`, `AdmissionService`,
  `Dispatch`, `EndToEnd`, `CallbackSets`, `DispatchProgress`, `LineageOwners`,
  `WakeDelivery`, `DispatchService`). Sticky decisions, branch limits, sharing of
  equivalent watches, activation after a crash between acceptance and creation, callback
  sets frozen at first lookup, and run creation under a claim before a wake is marked
  delivered. `Dispatch.Net` composes these with the concurrent watch machine.
* **Continuous review** (`Coordinator`, `CoordinatorRuns`, `ReviewSchedule`,
  `DecisionCodec`). The review loop over its append-only journal, stopped anywhere,
  always starting again at session zero.
* **Accrual ledger** (`Accrual`, `AccrualRuns`, `AccrualEligibility`, `AccrualService`).
  The append path, the independent reader with its replay, and the cohort of accrued
  events.
* **Run journal** (`RunJournal`, `RunJournalService`). Hash-chained appends of many runs
  into one table, retries, and the end of a run.
* **Algorithms.** The skill graph (`SkillGraph`), token pricing and the two folds over a
  run's journal (`Metrics`), the calibration gate (`Calibration`, `CalibrationGate`,
  `CalibrationMeaning`, `CalibrationVerdict`, `CalibrationService`, `CalibrationSample`),
  canonical decimal text (`Decimals`, `DecimalText`), and the backtest codecs (`Codecs`,
  `CodecRoundTrips`, `CodecTheorems`).

## Conventions

Times are integers, compared as the program compares its uniformly formatted text.
Identifiers that are content hashes are natural numbers where only equality matters. Where
a hash must determine its content (the accrual ledger and the run journal), a digest is a
value built from that content, so two digests are equal exactly when their contents are.
Snapshots, matched versions, review offsets, decisions and account results are arbitrary
inputs. No lemma rests on automatic induction. In the classes, `modifies` and `old` state
the whole new state as the step function of the old one; the theorems are about those
functions.

## Results about the code that a reader may not expect

* A rebaselined lineage can become impossible to follow. Every step along it repeats the
  owner query, which demands exactly one owner row, and an acceptance may own the root a
  second time once the first owner cannot be shared, for instance because the rebaseline
  retired its watch. From then on its wakes are not dispatched and its grants not replayed.
  `LineageOwners.RefusedIsNeverDispatched` says so, `LineageOwners.SecondOwnerBreaksTheLineage` is
  such a run, `LineageOwners.BindingConfirmedIffOwnedOnce` the exact condition.
* Ending a run and marking a wake delivered read first and then update without a guard, so
  two callers that both read the old state both write. `RunJournal.CompletedThenFailed` and
  `WakeDelivery.TwoDispatchersBothMark` show it; `RunJournal.ResultIsFinalIff` and
  `WakeDelivery.DeliveryIsFinalIff` say exactly when a result or a delivery time is final.
* A review revision may lengthen the running cycle. The class comment at
  `continuous_decision.py:127` says it never silently does; the code at lines 227 and 293
  only bounds the horizon by the observation window. `CoordinatorRuns.RevisionMayExtend`
  gives an instance, `CoordinatorRuns.RevisionLengthensIff` the exact condition, and the
  model follows the code.
* The accrual reader accepts a revision that became available at the same time as the
  observation it revises; the append path refuses to write it.
  `AccrualRuns.ReachableIffAcceptedAndAdvancing` shows that this is the only difference.
* An empty optional reference of a continuous decision is not written, so a traversal that
  replays the review hands on a decision without it: `DecisionCodec.EmptyReferenceIsForgotten`
  gives the instance, `DecisionCodec.ReplayedDecisionIsTheSame` the exact condition.
* A backtest request whose signal id, event id, or one of whose references is empty can be
  constructed and written but not read, and a decimal of more than 28 significant digits
  comes back as another number. `CodecTheorems.RequestRoundTripsExactly` and
  `DecimalText.RoundTripIffFits` give the exact conditions.
* Two different rows for one variant of one event, or an event in two partitions, make the
  calibration report, though not its verdict, depend on their order:
  `CalibrationGate.DuplicatesRevealOrder`, `CalibrationGate.CrossingRevealsOrder`.

## Model

| member | source | states |
|---|---|---|
| WatchRuns.StepStaysFenced | src/market_impact_agent/attention_watch.py:1545-1635 | every action of any worker, crash or outside step keeps this: while a row carries a worker's token, nothing the worker read has changed since its claim |
| WatchRuns.CommitIsAtomic | src/market_impact_agent/attention_watch.py:1637-1758 | a commit that still holds its lease does exactly what a poll reading everything at that moment would do |
| WatchRuns.ConcurrentRunIsSequential | src/market_impact_agent/attention_watch.py:966-1268 | every concurrent run leaves the tables of a sequential run in which each applied poll happens at its commit |
| WatchRuns.LostLeaseIsInertForever | src/market_impact_agent/attention_watch.py:1691-1700 | a worker whose token was replaced or cleared changes no row, seen set or outbox entry, however much later it finishes |
| WatchLeases.ClaimGrantedIff | src/market_impact_agent/attention_watch.py:1545-1635 | in every reachable state a claim is granted exactly on a live, due, unexpired watch with budget left that carries no lease or one that has ended |
| WatchLeases.LeaseDecides | src/market_impact_agent/attention_watch.py:1607-1623 | while a row carries a worker's token, whatever became of the worker, the next claim is granted exactly from the end of that lease to the expiry: a live lease is never taken, and a crash delays a watch by no more than the timeout |
| WatchLeases.LeaseExclusion | src/market_impact_agent/attention_watch.py:1545-1635 | between two granted claims of one watch the first poll was applied, an outside step released the lease, or a claim was granted after its end |
| WatchLeases.PollsArePaced | src/market_impact_agent/attention_watch.py:1637-1670 | after an applied poll no claim is granted before the watch has rested for its interval, twice that after a failed poll |
| WatchLeases.UndisturbedPoll | src/market_impact_agent/attention_watch.py:966-1004 | a granted claim that nobody interferes with ends in the poll of its response, as if everything had been read at that moment |
| WatchOutcomes.PollCounts | src/market_impact_agent/attention_watch.py:1637-1670 | an applied poll counts once, adds the bytes of its response, and gives up the lease |
| WatchOutcomes.PollStatus | src/market_impact_agent/attention_watch.py:1006-1160 | which state and which kind of failure a poll leaves, as conditions on its response |
| WatchOutcomes.PollSees | src/market_impact_agent/attention_watch.py:1165-1268 | the seen set grows by the whole snapshot or not at all: versions that the cooldown suppresses stay unseen |
| WatchOutcomes.PollWakes | src/market_impact_agent/attention_watch.py:1198-1251 | a wake is enqueued exactly when a usable response brings unseen versions after the cooldown, with those versions and the snapshot before |
| WatchOutcomes.WhyRetired | src/market_impact_agent/attention_watch.py:1270-1298 | a live watch is retired by one step only as expired, cancelled or rebaselined, each exactly under its conditions |
| WatchOutcomes.WhyCreated | src/market_impact_agent/attention_watch.py:550-633 | a watch comes into being only from an unexpired policy that is no successor's with a baseline in the past, or as the successor of a rebaseline, always unused |
| WatchOutcomes.SecondCreation | src/market_impact_agent/attention_watch.py:550-633 | whatever has run since a watch was created, creating it again, unless as a successor, changes nothing and is answered as present exactly when the policy is the one it was created with, and as a conflict otherwise |
| WatchOutcomes.MarkedIff | src/market_impact_agent/attention_watch.py:1336-1356 | marking a wake is answered by its own row, as pending, delivered or too early, and writes that row alone |
| WatchOutcomes.RebaselinedIff | src/market_impact_agent/attention_watch.py:716-749 | a rebaseline is granted exactly on a scoped watch stopped at an incomplete snapshot, with allowance left, an owner and unused identities, inside its interval |
| WatchAccounting.UnseenVersionsAreNew | src/market_impact_agent/attention_watch.py:1710-1731 | a wake made of unseen versions never meets a trigger key already in the outbox |
| WatchAccounting.PollStaysExact | src/market_impact_agent/attention_watch.py:1165-1268 | every poll keeps rows, seen sets, outbox and poll history in exact agreement, and never ends as deduplicated |
| WatchAccounting.EveryRunIsExact | src/market_impact_agent/attention_watch.py:1672-1758 | that agreement holds after every interleaving of workers, crashes, takeovers, cancels and rebaselines |
| WatchAllowance.VersionsAccountedFor | src/market_impact_agent/attention_watch.py:1198-1251 | a seen set is the baseline plus the pairwise disjoint versions of the watch's wakes, and the three counters equal the rows they count |
| WatchAllowance.LineageSpendsItsAllowance | src/market_impact_agent/attention_watch.py:734-772 | polls, wakes and bytes of all members plus the newest member's remainder are the root's maxima, and before each poll of the lineage its bytes were below the maximum, so only the last response can pass it |
| WatchAllowance.OneLiveMember | src/market_impact_agent/attention_watch.py:773-815 | at most one member of a rebaseline lineage is not terminal |
| WatchAllowance.BindingEqualitiesHold | src/market_impact_agent/attention_watch.py:1486-1533 | every equality between a grant, the row it retired and the policy it created that following the grant re-checks holds in every reachable state; the owner query of the same re-check is the subject of `LineageOwners` |
| LineageOwners.BindingConfirmedIffOneOwner | src/market_impact_agent/attention_watch.py:1443-1460 | in every reachable state of the composed system the re-check of a grant succeeds, and its owner query finds the grant's owner, exactly when the root of the lineage has one admitted owner row |
| LineageOwners.BindingConfirmedIffOwnedOnce | src/market_impact_agent/agent_watch_admission.py:1575-1593 | a grant passes its re-check exactly in the runs in which one acceptance alone owned the root of its lineage |
| LineageOwners.LineageResolvesIffOneOwner | src/market_impact_agent/attention_watch.py:868-882 | the walk from a watch to its root passes every re-check exactly when the watch is no successor or its root has one owner row |
| LineageOwners.ReplayedIffOneOwner | src/market_impact_agent/attention_watch.py:689-715 | requesting an existing grant again returns it exactly while the root has one owner row, and is refused otherwise |
| LineageOwners.AnotherGrantIff | src/market_impact_agent/attention_watch.py:679-698 | a watch is rebaselined once: in every reachable state another request for it gets no grant, and is refused as another grant exactly when reason, snapshot or time differ from the first |
| LineageOwners.OneMoreOwnerIff | src/market_impact_agent/agent_watch_admission.py:1466-1593 | a root gets another owner row by one kind of step only: an acceptance that owns, instead of sharing, the watch it was offered |
| LineageOwners.OwnedAgainOnlyIfNotShareable | src/market_impact_agent/agent_watch_admission.py:1489-1515 | owning a watch that is owned already takes an owner of another scope or profile, one that ends earlier, or a retired watch |
| LineageOwners.RefusedForever | src/market_impact_agent/attention_watch.py:1458-1459 | a lineage that is refused once is refused after whatever happens later |
| LineageOwners.OnlyConfirmedAreTakenUp | src/market_impact_agent/agent_watch_admission.py:1198-1204 | in every run, whatever wake is resolved, frozen or dispatched had its lineage confirmed at some step |
| LineageOwners.RefusedIsNeverDispatched | src/market_impact_agent/agent_watch_wake_dispatch.py:152-167 | a wake whose lineage is refused before anybody took it up is never dispatched and never marked |
| LineageOwners.SecondOwnerBreaksTheLineage | src/market_impact_agent/attention_watch.py:1458-1459 | a run of seven steps after which a live successor can no longer be followed to its root |
| WatchAllowance.WakesAreSpacedAndChained | src/market_impact_agent/attention_watch.py:1198-1251 | wakes anywhere in a lineage are at least the cooldown apart, lie in their watch's interval, and carry as prior the snapshot their watch froze last |
| WatchAllowance.TerminalIsForever | src/market_impact_agent/attention_watch.py:1270-1298 | an expired, cancelled or rebaselined watch never changes again, nor do its seen set and its wakes' versions |
| WatchAllowance.EveryRunIsSound | src/market_impact_agent/attention_watch.py:443-461 | accounting, lineage and allowance invariants hold together after every concurrent run |
| WatchLineage.EveryRunIsLinked | src/market_impact_agent/attention_watch.py:635-842 | grants stay one per original and one per successor, in creation order, with their bindings, conserved allowances and spaced wakes |
| WatchLineage.RootOfRoot | src/market_impact_agent/attention_watch.py:868-882 | the root of a lineage is its own root and nobody's successor |
| WatchLineage.OneTip | src/market_impact_agent/attention_watch.py:528-533 | two watches that no grant has retired and that share a root are the same watch |
| WatchService.NeverVisitedTwice | src/market_impact_agent/attention_watch.py:868-882 | walking towards the root over ordered grants never meets a watch twice, so the cycle errors cannot occur |
| WatchService.LineageIsWhole | src/market_impact_agent/attention_watch.py:1404-1441 | on linked tables every successor finds its grant, its predecessor and the policy the grant names |
| WatchService.AttentionWatchService.CallbackAuthorityLineage | src/market_impact_agent/attention_watch.py:868-882 | the loop ends at the lineage's unique root with the grants on the way, newest first, exactly when every grant on the way passes its re-check, and is refused otherwise |
| WatchService.AttentionWatchService.AssertRebaselineBinding | src/market_impact_agent/attention_watch.py:1486-1533 | the re-check of one grant: rows, policies, and the owner the query finds now |
| WatchService.AttentionWatchService.TriageOwnerBinding | src/market_impact_agent/attention_watch.py:1391-1484 | the owner lookup: along the policies to the root, then the one owner row that must speak for it |
| WatchService.AttentionWatchService.FollowGrant | src/market_impact_agent/attention_watch.py:1404-1439 | one step of the owner lookup fails only on tables whose lineages are broken |
| WatchService.AttentionWatchService.OwningRoot | src/market_impact_agent/attention_watch.py:1398-1441 | the walk of the owner lookup along the policies finds the same root and grants |
| WatchService.AttentionWatchService.Create | src/market_impact_agent/attention_watch.py:550-633 | creation with its refusals, as the creation step on the tables |
| WatchService.AttentionWatchService.Claim | src/market_impact_agent/attention_watch.py:1545-1635 | the due claim: expiry, exhausted budget, live lease, not due, or a new token, as the claim step |
| WatchService.AttentionWatchService.Record | src/market_impact_agent/attention_watch.py:1637-1670 | the fenced record of a poll changes the row exactly when it carries the token |
| WatchService.AttentionWatchService.FindTrigger | src/market_impact_agent/attention_watch.py:1710-1731 | the search for a trigger key answers whether the outbox has a wake of that watch with those versions |
| WatchService.AttentionWatchService.Commit | src/market_impact_agent/attention_watch.py:1672-1758 | the fenced success commit: seen versions, at most one wake, counters, cooldown and lease in one step |
| WatchService.AttentionWatchService.Finish | src/market_impact_agent/attention_watch.py:1006-1268 | the branches after collection, in the program's order, as the planned effect applied under the lease |
| WatchService.AttentionWatchService.Cancel | src/market_impact_agent/attention_watch.py:1270-1298 | cancellation of a live watch, and nothing on a terminal one |
| WatchService.AttentionWatchService.MarkWakeDelivered | src/market_impact_agent/attention_watch.py:1336-1356 | with nothing between its read and its UPDATE, a pending wake is marked, not before it was created, and a delivered one is left alone |
| WakeDelivery.DeliveryTimeChangesIff | src/market_impact_agent/attention_watch.py:1349-1356 | in the composed system a delivery time changes exactly when a dispatcher that had read the wake as pending writes another time |
| WakeDelivery.DeliveryIsFinalIff | src/market_impact_agent/attention_watch.py:1347-1356 | a delivery time is final exactly when no dispatcher that read the wake as pending has still to write another one |
| WakeDelivery.TwoDispatchersBothMark | src/market_impact_agent/attention_watch.py:1338-1356 | two dispatchers that both read a wake as pending both mark it, and the second overwrites the first |
| WatchService.AttentionWatchService.Rebaseline | src/market_impact_agent/attention_watch.py:635-842 | rebaseline with its refusals, the replay of the same grant under its re-check, and the retirement with its successor, for the owner that the lookup finds |
| Admission.DecisionIsSane | src/market_impact_agent/agent_watch_admission.py:1435-1593 | a decision is well formed, shares only what an earlier owner of the same scope and profile holds long enough, and is accepted only below the branch limit |
| Admission.AcceptanceStaysSound | src/market_impact_agent/agent_watch_admission.py:1435-1593 | every acceptance keeps one sticky decision per request and parent, an owner for every share, and the k-th acceptance under a parent within its profile's limit |
| Admission.ReuseIsSound | src/market_impact_agent/agent_watch_admission.py:1466-1522 | sharing binds a live or still pending watch of the same scope and profile, not exhausted, whose owner ends no earlier |
| AdmissionLimits.BranchLimitIff | src/market_impact_agent/agent_watch_admission.py:1472-1494 | refused at the branch limit exactly when the parent has that many accepted rows |
| AdmissionLimits.SharedIff | src/market_impact_agent/agent_watch_admission.py:1495-1551 | below it, a candidate that some owner can share shares the first such owner's watch, or is refused exactly when that watch has used up what the profile allows |
| AdmissionLimits.OwnedIff | src/market_impact_agent/agent_watch_admission.py:1552-1593 | with nothing to share, a candidate owns its watch exactly when every set of live or pending watches of admitted rows is smaller than the profile's limit, and is refused by that limit otherwise |
| AdmissionLimits.OwnedRow | src/market_impact_agent/agent_watch_admission.py:1575-1593 | what an accepted candidate that owns its watch leaves in the table: one row more, with the candidate's own key, policy, watch, profile and times |
| AdmissionLimits.FirstDecisionSticks | src/market_impact_agent/agent_watch_admission.py:1450-1471 | a key that has a decision is answered with it, whatever is offered later |
| Admission.OwnerIsThere | src/market_impact_agent/agent_watch_admission.py:1687-1726 | an accepted admission's watch has an admitted owner row with a stored policy |
| Admission.ActivationFindsItsOwner | src/market_impact_agent/agent_watch_admission.py:1687-1726 | activation after a crash never lacks its policy, and leaves the watch in the table unless its baseline lies in the future |
| AdmissionService.AgentWatchAdmissionService.Admit | src/market_impact_agent/agent_watch_admission.py:1035-1196 | a known request gets its stored answer; a new one is refused or decided in one transaction, by the decision of `AdmissionLimits`, and then activated; an activation that raises leaves the admission durable |
| AdmissionService.RaisesIffBaselineInFuture | src/market_impact_agent/agent_watch_admission.py:1687-1726 | on a sound table the activation of a stored admission raises exactly when its baseline lies in the future |
| AdmissionService.AgentWatchAdmissionService.EnsureWatchActivated | src/market_impact_agent/agent_watch_admission.py:1687-1726 | activation creates the watch from the owner's stored policy, as the activation step |
| AdmissionService.AgentWatchAdmissionService.ReconcilePendingWatchActivations | src/market_impact_agent/agent_watch_admission.py:1728-1773 | recovery activates the pending owners of the reopenable parents in table order, up to the first that raises |
| AdmissionService.RecoveryIsComplete | src/market_impact_agent/agent_watch_admission.py:1728-1773 | recovery leaves every admitted owner of a reopenable parent with its watch and removes none, or stops, exactly when a pending owner's baseline ends after its admission |
| EndToEnd.LookupIsSound | src/market_impact_agent/agent_watch_admission.py:1221-1233 | the lookup returns accepted admissions of the root only, each once |
| EndToEnd.ReopenNeverFails | src/market_impact_agent/agent_watch_admission.py:1254-1262 | a frozen callback set is always found again among the accepted admissions |
| EndToEnd.NetStepStaysSound | src/market_impact_agent/agent_watch_wake_dispatch.py:152-288 | every step of watches, admissions, dispatchers, judgments and crashes keeps the composed invariant |
| EndToEnd.FrozenStaysFrozen | src/market_impact_agent/agent_watch_admission.py:1234-1255 | whatever happens later, a frozen callback set, a run, its configuration and its first event never change |
| EndToEnd.DeliveredMeansDispatched | src/market_impact_agent/agent_watch_wake_dispatch.py:152-167 | a delivered wake has exactly one durable run with its binding event per admission of its frozen set, and no other run |
| CallbackSets.FreezeHoldsAllAccepted | src/market_impact_agent/agent_watch_admission.py:1221-1255 | whichever step freezes the set of a wake, the set holds exactly the admissions accepted on the root of its watch at that moment, in the order of admission |
| CallbackSets.DeliveryReachesEveryAccepted | src/market_impact_agent/agent_watch_wake_dispatch.py:161-167 | a delivered wake has its run for every admission that was accepted on the root when its set was frozen |
| DispatchProgress.DispatchDeliversIff | src/market_impact_agent/agent_watch_wake_dispatch.py:152-254 | a dispatch that nobody steps into delivers its wake, with every run of the set durable, exactly when the wake is due and known, its lineage is confirmed, somebody is to be called, and no claim of somebody else stands before a run that is not durable yet; otherwise the wake is left as it was |
| DispatchProgress.ReachableDispatchDeliversIff | src/market_impact_agent/agent_watch_wake_dispatch.py:152-254 | the same in every reachable state of the composed system |
| DispatchProgress.DispatchIsARun | src/market_impact_agent/agent_watch_wake_dispatch.py:152-254 | whatever a dispatch does is a sequence of steps of the composed system |
| EndToEnd.VersionReachesEachCallbackOnce | src/market_impact_agent/agent_watch_wake_dispatch.py:212-361 | a version seen since the baseline is in exactly one wake of its watch, every run it causes belongs to that wake's frozen set, and delivery means each member has its run |
| EndToEnd.RunsNeverConflict | src/market_impact_agent/agent_watch_wake_dispatch.py:228-241 | a dispatcher never finds its run under another configuration |
| DispatchService.RetryCreatesNothing | src/market_impact_agent/agent_watch_wake_dispatch.py:228-254 | dispatching a fully dispatched wake again creates and appends nothing |
| DispatchService.AgentWatchWakeDispatcher.CallbackBindings | src/market_impact_agent/agent_watch_admission.py:1198-1282 | the walk to the root, which fails without any change when a grant is no longer confirmed; then the first lookup freezes the set, later ones reopen it |
| DispatchService.AgentWatchWakeDispatcher.DispatchCallback | src/market_impact_agent/agent_watch_wake_dispatch.py:212-254 | one callback: claim, run and binding event, or one look at the run of whoever has the claim |
| DispatchService.AgentWatchWakeDispatcher.LookAtRun | src/market_impact_agent/agent_watch_wake_dispatch.py:256-288 | one look at a run another dispatcher is creating, as the waiting step |
| DispatchService.AgentWatchWakeDispatcher.DispatchWake | src/market_impact_agent/agent_watch_wake_dispatch.py:152-167 | the whole dispatch, which on a sound system delivers the wake exactly under the conditions of `DispatchProgress.DispatchDeliversIff` |
| Coordinator.ContinuousReviewCoordinator.ReviewSession | src/market_impact_agent/continuous_decision.py:222-269 | a due review reuses its durable completion, the shared initial decision, or one new decision made durable before use |
| Coordinator.ContinuousReviewCoordinator.AdvanceAccount | src/market_impact_agent/continuous_decision.py:270-280 | the account is appended once and compared with the frozen result afterwards |
| Coordinator.ContinuousReviewCoordinator.RunSession | src/market_impact_agent/continuous_decision.py:214-298 | one session, with the live state moved on only after its account is durable |
| Coordinator.ContinuousReviewCoordinator.RunClaimed | src/market_impact_agent/continuous_decision.py:208-303 | the loop with its five live variables is the traversal function, wherever it is interrupted |
| CoordinatorRuns.AttemptsStayRepresented | src/market_impact_agent/continuous_decision.py:187-206 | after any stops, crashes and pending answers the journal is the log of well-formed session records |
| CoordinatorRuns.JournalDeterminesRecords | src/market_impact_agent/continuous_decision.py:222-269 | those records are what the journal's own events say, so one journal has one reading |
| CoordinatorRuns.RecordsAreUnique | src/market_impact_agent/continuous_decision.py:222-280 | two well-formed readings of one journal are the same |
| CoordinatorRuns.LiveStateIsInTheJournal | src/market_impact_agent/continuous_decision.py:208-303 | every live state with which a traversal comes to a session is a function of the frames and its journal |
| CoordinatorRuns.ReachedAccountsAgree | src/market_impact_agent/continuous_decision.py:270-280 | a traversal comes past a session only if its account replays to the frozen result |
| CoordinatorRuns.InterruptedRunsArePrefixes | src/market_impact_agent/continuous_decision.py:208-303 | the journal of any interrupted attempts is a prefix of the log of one uninterrupted run given the same answers |
| CoordinatorRuns.CompletedRunsAreUninterrupted | src/market_impact_agent/continuous_decision.py:208-303 | when an attempt completes, the journal equals that log |
| CoordinatorRuns.NeverDecidedTwice | src/market_impact_agent/continuous_decision.py:226-258 | no session with a durable completion is decided again, and after its first call a session is only ever resumed |
| CoordinatorRuns.AccountsFollowReviews | src/market_impact_agent/continuous_decision.py:270-280 | each account event follows the durable completion of its session's review, where one was due |
| CoordinatorRuns.CyclesCoverTheWindow | src/market_impact_agent/continuous_decision.py:209-294 | after every settled session the cycle still covers it and ends inside the window |
| CoordinatorRuns.CompletedEpisodeEndsAtTheEndpoint | src/market_impact_agent/continuous_decision.py:226-228 | a completed episode's last cycle expires exactly at the end of the window |
| CoordinatorRuns.ExpiryCyclesTile | src/market_impact_agent/continuous_decision.py:215-219 | with expiry reviews only, the chosen horizons sum to the current expiry, and to the window when complete |
| CoordinatorRuns.AtMostThreeEventReviews | src/market_impact_agent/continuous_decision.py:216-294 | a cycle has at most three reviews before its expiry, each using and consuming a fact never consumed before |
| CoordinatorRuns.ConsumedForever | src/market_impact_agent/continuous_decision.py:291-292 | a consumed fact stays consumed |
| ReviewSchedule.StateMeans | src/market_impact_agent/continuous_decision.py:281-298 | the live state is the last review, its horizon, its registered offsets, the facts of all reviews and the revisions of the running cycle |
| ReviewSchedule.ReviewedIff | src/market_impact_agent/continuous_decision.py:215-222 | a session of a recorded run is a review exactly when there was none before, the running cycle has ended, it brings an unused fact under fewer than three revisions, or its offset after the last review is registered |
| CoordinatorRuns.RevisionMayExtend | src/market_impact_agent/continuous_decision.py:282-294 | an instance: an event revision moves the running expiry from 3 to 6 |
| CoordinatorRuns.RevisionLengthensIff | src/market_impact_agent/continuous_decision.py:216-294 | before its expiry a recorded run can go on with a session that lengthens the cycle exactly when a review is due there and an acceptable decision has a horizon that reaches beyond the expiry |
| CoordinatorRuns.ReachIsAHorizon | src/market_impact_agent/continuous_decision.py:227-227 | where every decision is acceptable, that is exactly when some registered horizon ends after the expiry and inside the window |
| CoordinatorRuns.LengthenedIff | src/market_impact_agent/continuous_decision.py:282-294 | a recorded session lengthened its cycle exactly when its review was not due by expiry and its horizon ends after the expiry |
| CoordinatorRuns.NeverLengthenedIff | src/market_impact_agent/continuous_decision.py:282-294 | no recorded run of an episode ever lengthens a cycle exactly when none comes to a session with a review due and a longer reach |
| CoordinatorRuns.ExpiryReviewsNeverLengthen | src/market_impact_agent/continuous_decision.py:215-219 | with expiry reviews only, no cycle is ever lengthened |
| DecisionCodec.ReplayedDecisionIsTheSame | src/market_impact_agent/continuous_decision.py:77-106 | a valid decision is always readable from its stored document, and comes back unchanged exactly when no optional reference is present but empty |
| DecisionCodec.ReadableIff | src/market_impact_agent/continuous_decision.py:69-106 | a document is readable exactly when it has the five fields, the references not empty, a registered horizon and a known action |
| DecisionCodec.SameDocumentIff | src/market_impact_agent/continuous_decision.py:77-94 | two decisions have one document exactly when they agree up to empty optional references |
| DecisionCodec.ReplayKeepsTheDocument | src/market_impact_agent/continuous_decision.py:230-270 | a decision read back from its document is written as that same document |
| DecisionCodec.RewrittenDocumentIsTheSame | src/market_impact_agent/continuous_decision.py:96-106 | a readable document is the writer's exactly when it has no foreign key and no empty optional reference |
| Accrual.JudgementIsExact | src/market_impact_agent/accrual.py:876-946 | a reason is listed in a judgement exactly when its rule applies |
| AccrualRuns.RecordKeepsAccepted | src/market_impact_agent/accrual.py:453-560 | whatever the append path writes after an accepted ledger, the reader accepts |
| AccrualRuns.EveryRunIsAccepted | src/market_impact_agent/accrual.py:680-696 | every ledger reached by any sequence of appends passes the reader |
| AccrualRuns.ObservationsAreDistinct | src/market_impact_agent/accrual.py:398-402 | an accepted ledger never repeats an observation, because the revision chains of their hashes have different depths |
| AccrualRuns.WritesIffReadsAndAdvances | src/market_impact_agent/accrual.py:613-642 | the append path writes a decision exactly when the reader accepts it and it became available after what it revises |
| AccrualRuns.ReachableIffAcceptedAndAdvancing | src/market_impact_agent/accrual.py:949-1014 | the ledgers reachable by appends are exactly the accepted ones whose revisions advance |
| AccrualRuns.AppendsNeverMeetACorruptLedger | src/market_impact_agent/accrual.py:474-487 | on reachable ledgers the reader never objects and no identity meets other content |
| AccrualRuns.RetryReturnsTheDecision | src/market_impact_agent/accrual.py:475-487 | recording an observation again returns its decision, whatever was recorded since |
| AccrualRuns.InputsDetermineTheLedger | src/market_impact_agent/accrual.py:972-1010 | an accepted history is determined by its observations, receipts and recording times |
| AccrualRuns.TailHashDeterminesTheLedger | src/market_impact_agent/accrual.py:683-690 | two accepted ledgers with the same last hash are the same ledger |
| AccrualRuns.CohortIsSafe | src/market_impact_agent/accrual.py:876-946 | accrued events fit the target, lie in the window, are distinct, and the j-th occurred at least j minus i separations after the i-th |
| AccrualEligibility.AccruedIff | src/market_impact_agent/accrual.py:876-946 | a row of an accepted ledger accrues exactly when it is a qualifying loss of oil or gas above its unit's threshold and 24 hours, from a qualifying source with full coverage, in the window, with room, its event open, and separated from the last accrued event |
| AccrualEligibility.LossReasonsSay | src/market_impact_agent/accrual.py:903-931 | what each listed reason about the loss says of its row, in both directions |
| AccrualEligibility.KindReasonsSay | src/market_impact_agent/accrual.py:893-919 | the same for nature, source, window and room |
| AccrualEligibility.HistoryReasonsSay | src/market_impact_agent/accrual.py:887-902 | the same for coverage, an event that accrued before, and separation |
| AccrualEligibility.RowsAreGenuine | src/market_impact_agent/accrual.py:680-696 | every accepted row carries observation and receipt under their own hashes, retrieved from a registered provider as the receipt records, in a receipt of distinct providers |
| AccrualEligibility.RowsAreChained | src/market_impact_agent/accrual.py:960-1010 | every accepted row has its place in the chain and its times in order, and has reasons or an identity by whether it accrued |
| AccrualEligibility.AccruedIdentity | src/market_impact_agent/accrual.py:499-512 | an accrued row's visibility, cutoff and identity follow from when it became available |
| AccrualEligibility.WhyNotSearched | src/market_impact_agent/accrual.py:450-474 | on every ledger, when the append path refuses before it searches: a time before retrieval, an observation its receipt does not bind, a ledger the reader refuses |
| AccrualEligibility.StoredIsAnswered | src/market_impact_agent/accrual.py:474-487 | on every accepted ledger a stored observation is answered with its row, and refused exactly when a row has its identity and another content |
| AccrualRuns.LatestOccurrenceIsKnown | src/market_impact_agent/accrual.py:932-936 | the asserted occurrence time of the latest accrued event is never missing |
| AccrualRuns.CoverageRejectionIsPermanent | src/market_impact_agent/accrual.py:887-892 | an event rejected for incomplete coverage alone never accrues by any later revision |
| AccrualRuns.IdentitiesAreUnique | src/market_impact_agent/accrual.py:396-414 | sequence, decision hash and accrued identity of two decisions never collide, so no insert violates a unique column |
| AccrualService.EvaluateObservation | src/market_impact_agent/accrual.py:876-946 | filling the reason set rule by rule gives the judgement, on ledgers whose accrued occurrences are known |
| AccrualService.AcceptedPointwise | src/market_impact_agent/accrual.py:680-696 | acceptance is every row verified in sequence plus the replay |
| AccrualService.AccrualLedger.ReadNext | src/market_impact_agent/accrual.py:960-1005 | one step of the replay over its running variables accepts exactly a decision that follows the replayed ones |
| AccrualService.AccrualLedger.ValidateRecordedHistory | src/market_impact_agent/accrual.py:949-1014 | the replay loop accepts exactly the histories each of whose decisions follows the ones before it |
| AccrualService.AccrualLedger.Decisions | src/market_impact_agent/accrual.py:680-696 | the reader returns the rows exactly when the ledger is accepted |
| AccrualService.AccrualLedger.ValidateAppendOrder | src/market_impact_agent/accrual.py:613-642 | the order checks refuse with the first reason that applies |
| AccrualService.AccrualLedger.Record | src/market_impact_agent/accrual.py:453-560 | the append transaction is the append function and keeps the ledger accepted |
| RunJournal.EveryJournalIsSound | src/market_impact_agent/agent_engine.py:661-769 | under any interleaving of appends to many runs, each run's events form one chain of their own and identities are unique |
| RunJournal.RetryIsANoOp | src/market_impact_agent/agent_engine.py:688-703 | appending a known event changes nothing; on a running run it returns that event, or refuses other content |
| RunJournal.WrittenIff | src/market_impact_agent/agent_engine.py:661-703 | an event is written exactly when its run is running, its writer may write it, and its identity is new |
| RunJournal.WrittenRow | src/market_impact_agent/agent_engine.py:704-745 | what is written is what was asked for, chained to the last event of the same run |
| RunJournal.BegunIff | src/market_impact_agent/runtime_store.py:381-432 | a run begins once, under a plan only with an authority, and is resumed exactly under its own binding |
| RunJournal.FinishReadMeans | src/market_impact_agent/runtime_store.py:605-629 | what ending a run reads decides whether it proceeds, is content, or refuses |
| RunJournal.HistoriesOnlyGrow | src/market_impact_agent/runtime_store.py:548-638 | no event is lost or rewritten, and a run that has ended stays ended and gets no further event |
| RunJournal.ResultChangesIff | src/market_impact_agent/runtime_store.py:617-637 | the status or artifact of an ended run changes exactly when a finisher that had read the run as running writes another result |
| RunJournal.ResultIsFinalIff | src/market_impact_agent/runtime_store.py:617-637 | the result of an ended run is final exactly when no finisher that read it as running has still to write another one |
| RunJournal.TwoFinishersBothEnd | src/market_impact_agent/runtime_store.py:617-637 | two finishers that both read a run as running both end it, and the second overwrites the first |
| RunJournal.CompletedThenFailed | src/market_impact_agent/runtime_store.py:605-638 | a history in which a completed run with an artifact becomes a failed one without |
| RunJournal.ClaimedResultsAreFinal | src/market_impact_agent/runtime_store.py:353-379 | when every finisher holds the claim of its run from its read to its write, a result is final as soon as it is there |
| RunJournal.EqualTailsEqualHistories | src/market_impact_agent/runtime_store.py:548-572 | two runs whose last event hashes agree are the same run with the same history |
| RunJournalService.JournalStore.StartRun | src/market_impact_agent/runtime_store.py:381-432 | a run is begun once and resumed only under its own configuration, authority and plan, and a plan needs an authority |
| RunJournalService.JournalStore.AppendEvent | src/market_impact_agent/agent_engine.py:661-769 | the append transaction of either writer is the append step |
| RunJournalService.JournalStore.FinishRun | src/market_impact_agent/runtime_store.py:605-638 | with nothing between its read and its UPDATE, a run ends once; the same result again is accepted, another refused |
| RunJournalService.JournalStore.Events | src/market_impact_agent/runtime_store.py:548-572 | the chain check passes on every reachable journal and returns the run's events |
| SkillGraph.DependencyReachesLess | src/market_impact_agent/agent_runtime.py:726-741 | on an acyclic graph a dependency reaches strictly fewer skills than its dependant, so the unmarked closure walk ends |
| SkillGraph.OrderedMeansAcyclic | src/market_impact_agent/agent_runtime.py:709-723 | a complete order in which dependencies come first leaves no directed cycle |
| SkillGraph.DependencyVisit.Visit | src/market_impact_agent/agent_runtime.py:712-721 | the depth-first visit finishes its name with all dependencies before it, or returns a name that lies on a cycle |
| SkillGraph.ValidateSkillDependencies | src/market_impact_agent/agent_runtime.py:701-723 | missing dependencies are reported first; with none, a cycle is reported exactly when there is one |
| SkillGraph.ClosureWalk.Add | src/market_impact_agent/agent_runtime.py:732-741 | adding a name adds exactly the skills it reaches, without repetition, each after its dependencies |
| SkillGraph.SkillClosure | src/market_impact_agent/agent_runtime.py:726-744 | the closure is exactly the skills reachable from the request, or fails exactly on an unknown name |
| SkillGraph.SkillRegistry.Discover | src/market_impact_agent/agent_runtime.py:616-628 | only a validated graph of uniquely named skills replaces the registry |
| SkillGraph.SkillRegistry.Load | src/market_impact_agent/agent_runtime.py:630-656 | a first load discovers; a load returns the closure only if no member lacks a capability, conflicts with another member, or has changed instructions |
| Metrics.AffordableIffItFits | src/market_impact_agent/agent_runtime.py:74-90 | a positive number of priced output tokens is affordable exactly when the input length is not negative and the estimate fits the budget |
| Metrics.FreeOutputIsAllOrNothing | src/market_impact_agent/agent_runtime.py:88-89 | with free output the answer is zero or unlimited, unlimited exactly when a known input length leaves budget |
| Metrics.RoundingPerTurn | src/market_impact_agent/agent_runtime.py:67-72 | cost summed per turn is at least the rounded total cost and exceeds it by at most turns minus one |
| Metrics.ReconstructRunMetrics | src/market_impact_agent/agent_engine.py:451-556 | the reader's fold accepts exactly the readable, balanced journals and returns their totals with stored costs |
| Metrics.MetricsFromJournal | src/market_impact_agent/agent_engine.py:1810-1841 | the engine's fold succeeds exactly when every usage and size can be priced and returns the totals with computed costs |
| Metrics.FoldsAgree | src/market_impact_agent/agent_engine.py:1297-1333 | on an accepted journal whose turns the engine stored, both folds give the same metrics |
| Metrics.ReportedCostIsTight | src/market_impact_agent/agent_engine.py:1324-1324 | a run's reported cost lies between the cost of its reported tokens and that plus one micro-dollar per further turn |
| Metrics.EachEventCounts | src/market_impact_agent/agent_engine.py:451-556 | what one more event of each kind adds to the metrics |
| Metrics.AttemptsMean | src/market_impact_agent/agent_engine.py:530-556 | attempts are the physical dispatches once there are any, and what the turns report otherwise |
| Metrics.ReadableIff | src/market_impact_agent/agent_engine.py:451-530 | a journal is readable exactly when each turn has the next ordinal, the run's identity and some usage, each tool result follows a turn with the stored size, and no event is unsupported |
| CalibrationGate.ReportIgnoresOrder | src/market_impact_agent/calibration.py:168-320 | without conflicting rows the whole report, hashes included, is the same in every order; identical repetitions do not matter |
| CalibrationGate.AcceptanceIgnoresOrder | src/market_impact_agent/calibration.py:168-320 | reordering any evidence never changes whether it is accepted |
| CalibrationGate.DuplicatesRevealOrder | src/market_impact_agent/calibration.py:413-434 | in any evidence, exchanging two different rows of one variant gives another report, both refused |
| CalibrationGate.CrossingRevealsOrder | src/market_impact_agent/calibration.py:184-186 | any evidence with a cluster in two partitions has an order with another report, because the first row decides the partition |
| CalibrationGate.ReportIgnoresOrderIff | src/market_impact_agent/calibration.py:168-320 | where each cluster has one visibility and equal hash rows are equal evidence, the report is the same in every order exactly when no variant has two different rows and no cluster crosses partitions |
| CalibrationGate.InconsistentIsReported | src/market_impact_agent/calibration.py:177-190 | evidence with duplicate or conflicting rows always leaves a reason |
| CalibrationVerdict.AcceptedIff | src/market_impact_agent/calibration.py:168-320 | the gate accepts exactly the evidence that clears every demand, each stated on the rows: consistency, completed and registered runs with returns, enough events, walk-forward order, one strategy per variant, full comparison, a positive and baseline-beating total on the test rows, and no dominant event |
| CalibrationVerdict.FiguresAreOfTheRows | src/market_impact_agent/calibration.py:264-281 | on consistent, fully compared evidence the reported mean is that of the candidate's test rows, and the beaten baselines are those whose test rows earned less |
| CalibrationVerdict.EventsAreOfTheRows | src/market_impact_agent/calibration.py:214-227 | the reported events are those of the rows, by partition, each once and in order |
| CalibrationGate.ReportsAlwaysConstruct | src/market_impact_agent/calibration.py:77-127 | every report the gate computes passes the result constructor |
| CalibrationGate.AcceptedIsWalkForward | src/market_impact_agent/calibration.py:233-237 | accepted evidence has every training event strictly before every test event |
| CalibrationGate.AcceptedIsComparable | src/market_impact_agent/calibration.py:249-262 | accepted evidence has all five variants of every event over one comparison window |
| CalibrationGate.AcceptedIsNotDominated | src/market_impact_agent/calibration.py:282-297 | no accepted test event contributes more than half of the total |
| CalibrationGate.AcceptedIsReproducible | src/market_impact_agent/calibration.py:341-357 | every accepted row was completed twice, at different times in different runs, with one result |
| CalibrationSample.SamplesAreAccepted | src/market_impact_agent/calibration.py:168-320 | the gate can accept: evidence of two training and three test clusters that it does accept |
| CalibrationService.CollectTables | src/market_impact_agent/calibration.py:171-213 | the first loop's dictionaries and reason set are the tables of the evidence, and the returns those of its first rows |
| CalibrationService.WalkForwardFails | src/market_impact_agent/calibration.py:233-237 | comparing the latest training with the earliest test event decides whether any pair is out of order |
| CalibrationService.AssessPhase2Calibration | src/market_impact_agent/calibration.py:168-320 | the loops compute the report |
| DecimalText.SameIffReduced | src/market_impact_agent/backtests.py:1373-1377 | two decimals are the same number exactly when stripping zeros makes them equal |
| DecimalText.EqualValuesPrintAlike | src/market_impact_agent/backtests.py:1373-1377 | the canonical text depends on the number alone, rounding included |
| DecimalText.KeptIffFits | src/market_impact_agent/backtests.py:1373-1377 | normalising keeps the number exactly when it has at most 28 significant digits |
| DecimalText.PrintedTextIsAccepted | src/market_impact_agent/backtests.py:1478-1486 | every printed text is accepted and reads back as the normalised number |
| DecimalText.RoundTripIffFits | src/market_impact_agent/backtests.py:1478-1486 | printing then parsing gives the number back exactly when it has at most 28 significant digits |
| DecimalText.EqualTextsIffEqualValues | src/market_impact_agent/backtests.py:1373-1377 | among numbers that fit, texts are equal exactly when the numbers are |
| DecimalText.AcceptsExactlyCanonicalText | src/market_impact_agent/backtests.py:1478-1486 | the parser accepts the canonical texts and nothing else |
| CodecTheorems.RequestRoundTripsExactly | src/market_impact_agent/backtests.py:815-942 | a valid request survives writing and reading exactly when its signal and event have names, no reference is empty, and its cash fits |
| CodecTheorems.ResultRoundTripsExactly | src/market_impact_agent/backtests.py:945-1045 | a valid result survives exactly when its request does and every metric fits |
| CodecTheorems.AcceptedDocumentsAreCanonical | src/market_impact_agent/backtests.py:852-1045 | whatever a reader accepts is exactly what the writer makes of the record it returns |
| CodecTheorems.NamelessSignalIsLost | src/market_impact_agent/backtests.py:898-907 | a constructible request without a signal id is written but not read |
| CodecTheorems.LongCashIsRounded | src/market_impact_agent/backtests.py:846-846 | cash of 29 significant digits comes back as another amount |
| CodecRoundTrips.RequestReadingIsExact | src/market_impact_agent/backtests.py:852-942 | a request that is read is valid, survives, and writes back to the same document |
| CodecRoundTrips.ResultReadingIsExact | src/market_impact_agent/backtests.py:976-1045 | a result that is read is valid, survives, and writes back to the same document |

## Left out

- SQLite, files, file locks, HMAC signatures and artifact storage: transactions are atomic steps, a lock is released by a crash, and a stored artifact is its content. Retention of raw source bytes by the accrual ledger is left out with them.
- Collection, freezing, matching and retrieval planning: their results are arbitrary inputs, and their code (`collect`, snapshot freezing, `scheduled_review_offsets`) is not part of this model.
- Attention Watch v1 duplicates: a snapshot's matched versions are a set, so repeated version ids within one snapshot are not represented.
- Policy fields fixed by an identifier: the baseline set and the poll interval are fields of the modelled policy; that a snapshot id determines its contents is not modelled.
- Global limit on live watches: not claimed, since a rebaselined successor is not counted by the active-watch query, which joins on the admitted watch.
- AdmissionService.AgentWatchAdmissionService.Admit: the request checks before the transaction are one input that says which of them failed first, and the parent's delegation context is not reopened.
- WatchService.AttentionWatchService.Create: for a successor policy, the re-check of its grant before the table is read is not repeated; the tables are the same either way. The read and the insertion are one step, which the primary key makes them in effect; the same holds for starting a run.
- AdmissionService.AgentWatchAdmissionService.EnsureWatchActivated: its reads and the creation are one step; a watch identity is a hash of its policy, so owners of one watch that arrive in between store the same policy.
- CalibrationGate.ReportIgnoresOrderIff: does not decide evidence in which rows of one cluster disagree about its visibility, where the order shows only if it changes a verdict.
- DispatchService.AgentWatchWakeDispatcher.LookAtRun: one look instead of polling until a deadline; the interleavings of waiting with other dispatchers are in `Dispatch.NetStep`.
- Judgment after dispatch: `_finish_dispatch` in `agent_watch_wake_judgment.py` is not modelled and no crash recovery is claimed for it; the composed system only lets a judgment append to, and finish, a reopenable run.
- Coordinator.ContinuousReviewCoordinator.RunClaimed: the asynchronous generator and its episode claim are left out; an interruption is a budget of actions, and a decision is an answer to a session and whether it is resumed.
- Stored decision documents in the loop: in `Coordinator` a journal completion carries the decision's horizon and an identity instead of its document.
- AccrualService.EvaluateObservation: decimals are exact reals, and source registration details that no rule reads are one opaque field.
- RunJournal.EqualTailsEqualHistories: says nothing about event sequence numbers, which the event hash does not cover.
- Metrics.RoundingPerTurn: uses the exact ceiling; the program divides as floating point first, which can differ for numerators beyond 53 bits. Latencies are exact reals.
- Metrics.ReconstructRunMetrics: payload type errors, and the artifacts a turn refers to, are not represented.
- CalibrationService.AssessPhase2Calibration: decimals are exact reals, clusters are ordered identifiers, reasons are a set instead of sorted text, and the remaining fields of the comparison key are one opaque field.
- DecimalText.AcceptsExactlyCanonicalText: literals with surrounding whitespace, digit separators or non-ASCII digits, NaN and infinities are read as invalid; the program reads or parses some of them but never accepts them as canonical. The exponent limits of the decimal context are left out.
- CodecTheorems.ResultRoundTripsExactly: a timestamp is a leaf that stands for its canonical text, and object keys are an enumeration, so calendar arithmetic and JSON text are not modelled.
- Model execution, prompt building, redaction, tool calls, data acquisition, ensembles, account state and archive authority: sound but small, or library and provider work.

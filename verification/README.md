# PodPool controller: verified model

A PodPool splits `spec.replicas` over an ordered list of groups, keeps one child workload
per group, and keeps asking the scheduler whether one more replica of an opportunistic
group would fit. This project models the parts of the controller whose promises span
functions, passes and other actors, and proves them:

- **Distribution.** `ComputeGroupTargets` as four passes over one array of targets, in
  int32, against a reference in which every phase offers each group something in list
  order out of one shared remainder (`waterfill.dfy`, `allocator.dfy`,
  `allocator_laws.dfy`), the same split read off min, max, target and capacities alone
  (`split_numbers.dfy`), and its agreement with the admission checks (`webhook.dfy`).
- **Probing.** The reconciler's probe map and its operations (`probes.dfy`), what any
  sequence of decisions obeys (`probe_trace.dfy`), whole passes and runs
  (`probe_runs.dfy`, with three runs worked out in `probe_overlap.dfy`), and convergence
  against a scheduler with fixed rooms, of one group (`convergence.dfy`) and of all the
  groups of a pool at once (`pool_convergence.dfy`).
- **Status over runs.** Progress stamps, stalls and requeues (`progress.dfy`,
  `progress_runs.dfy`); conditions, generations and pause events (`conditions.dfy`,
  `condition_runs.dfy`).
- **Ownership.** Applies and the orphan sweep, with stale lists and other actors moving
  before every call (`sweep.dfy`, `sweep_laws.dfy`).
- **Rendering.** JSON objects as nested mutable maps (`json.dfy`), overrides merged into the
  template (`merge.dfy`), what the child built from it is (`render.dfy`), building it by
  in-place edits of a deep copy (`render_in_place.dfy`), and its owner read back by the
  ownership test (`ownership.dfy`).

The distribution's four loops are one function in the source and one method each here;
`ComputeGroupTargets` runs them in the source's order with both of its early exits.

## What the proofs show about the code

- A version-only edit of the template (same group and kind) makes the sweep delete the
  children it has just applied: `staleWorkloadGVKs` compares the version as well, while the
  API server keeps one object per group, kind and name. `CurrentChildSafeExactly` gives the
  exact condition. The comment that the current kind's children are kept holds otherwise.
- The sweep has one chance at the child left under an old kind: rows take the new kind even
  when that pass's sweep failed. The child can be removed on a pass exactly when its group
  reconciles and some group's latest success before the pass was under the old kind
  (`OldChildSweptExactly`); afterwards no pass removes it (`MissedChildIsNeverSwept`), and
  one failed list is enough to miss it (`FailedListMissesChild`,
  `OneFailedListLeaksTheChild`).
- While each group reads back what it was written, or nothing new, with no open question's
  replica ready and none but such a replica refused, no share moves, whatever is asked,
  refused or withdrawn, in any number of groups (`ProbeIsNeverFundedByOthers`). Two states of
  that kind are exceptions. A question given up after two minutes whose replica is still read
  back counts as capacity and is funded by the next group (`UnwithdrawnReplicaCounts`,
  `WithdrawnProbeIsFunded`); a child that was unreadable while its question was open, and comes
  back still starting, is taken for one replica less (`UnreadQuestionCosts`).
- On such runs the capacity map may move all the same. A group's entry is what it was until the group reads
  back something new, and its share from then on; so the map stands still exactly when every
  group that moved held all its capacity (`CapacityIsOldOrShare`, `MapStandsExactly`). It
  moves under an older question (`OlderQuestionOutlivesItsShare`) and when a neighbour that
  was cut reads its new share back (`SqueezedNeighbourFollowsItsShare`).
- An opportunistic group that was never sized is raised to the remainder, not by it; with a
  floor grant some of the remainder passes it by, where the comment speaks of everything
  left (`ColdStartRaisesToRemaining`, `ColdStartLeavesFloorBehind`).
- A group whose first full pass failed, and whose every success since left it at that target
  with nothing ready and no new generation, is short without a progress stamp and never
  reported stalled; no other group is (`NilStampMeansWhole`, `FirstFailureLeavesNoClock`).
- `MergeMaps` equals the merge of RFC 7386, and is idempotent, exactly when no object of
  the patch that lands on a non-object holds a null (`MergeIsStandardExactly`,
  `MergeIsIdempotentExactly`, `NullSurvivesOnNothing`).
- A merged `metadata` that is present and not an object loses the child's name, namespace,
  labels and owner silently (`ChildIdentityExactly`, `NullMetadataLosesIdentity`).
- A pool scaled to zero replicas still writes one replica to each idle opportunistic group,
  on exactly the passes its heartbeat allows (`ZeroPoolStillProbes`).
- A pass that cannot read its template publishes that targets are satisfied, which it did not
  look at, and a pool scaled to zero is then Ready (`InvalidTemplateSays`).
- A limit further below zero than int32 can express as a distance would be read as room to
  grow; the schema's bounds exclude it (`GapIsExactWithinBound`).

## Assumptions about what the controller cannot see

- Time is a non-decreasing integer clock; "never failed" is its own case. Status writes
  land where a statement speaks of runs. A child read back shows what was written only
  where a statement says so.
- A probe-map operation is atomic, as its mutex makes it. Group names are distinct, as the
  list-map schema makes them; pool names and namespaces hold no slash. Requeue jitter adds
  at most a tenth.
- The API server stores one object per group, kind and name; every served version is a
  view of it. The unstructured setters for name, namespace, labels and owners write through
  `metadata` only if it is absent or an object and report nothing otherwise.
  SetStatusCondition replaces the entry of the same type or appends one.
- A decoded JSON document reaches no object twice and shares none with another document.

## Model

| member | source | states |
|---|---|---|
| Scaling.PercentOf | internal/workload/algorithm.go:353-356 | the rounded-down share of a total fits int32 and never exceeds the total |
| Scaling.CeilPercentOf | internal/workload/algorithm.go:358-361 | the rounded-up share of a total fits int32 and never exceeds the total |
| Scaling.SharesBracket | internal/workload/algorithm.go:63-82 | the two roundings bracket the exact share and differ by one exactly when it is not whole |
| Allocator.ComputeGroupTargets | internal/workload/algorithm.go:108-234 | the in-place passes with both early exits, all int32, return exactly the reference split, its unplaced rest and its degraded flag; SplitNumbers says what that split is |
| SplitNumbers.SplitByTheNumbers | internal/workload/algorithm.go:108-234 | group by group, each phase raises a count to its min; to its share of the total, rounded down without a max and up and cut at the max with one; to its capacity or all that is left; and to its max, its share or all that is left -- each as far as what is left at its turn allows; of nothing it gives nothing |
| SplitNumbers.NumbersDetermineTheSplit | internal/workload/algorithm.go:108-234 | counts that go by these rules are the split's and no others |
| SplitNumbers.DegradedByTheNumbers | internal/workload/algorithm.go:305-351 | a target is missed exactly if some readable percentage is overshot by more than half a point without a max or undershot by more than that with one, in integers |
| Allocator.SatisfyFloors | internal/workload/algorithm.go:126-134 | the first pass leaves the array and the remainder of the floor phase |
| Allocator.ChaseTargets | internal/workload/algorithm.go:143-162 | the second pass, including its break, leaves the array and the remainder of the target phase |
| Allocator.FillCapacity | internal/workload/algorithm.go:164-194 | the third pass leaves the array and the remainder of the capacity phase, raising a never-sized group to what is left |
| Allocator.PlaceOverflow | internal/workload/algorithm.go:196-227 | the fourth pass leaves the array and the remainder of the overflow phase |
| Allocator.CheckTargetDegraded | internal/workload/algorithm.go:314-351 | true exactly when some readable target is missed beyond the tolerance in the direction its bound allows |
| Allocator.FloorsTakeAll | internal/workload/algorithm.go:136-141 | leaving after the floors is the same as running the idle later phases |
| Allocator.GapIsExactWithinBound | internal/workload/algorithm.go:150-154 | the int32 distance to a limit is exact if and only if the limit is not too far below zero; beyond that it reads as room |
| AllocatorLaws.DistributionConserves | internal/workload/algorithm.go:84-100 | targets and unplaced are never negative and sum to the total |
| AllocatorLaws.FloorsComeFirst | internal/workload/algorithm.go:126-141 | each group gets its floor as far as earlier floors leave room; a group short of its floor leaves every later group at zero |
| AllocatorLaws.StaticCeilingHolds | internal/workload/algorithm.go:281-303 | a bounded non-opportunistic group never exceeds the larger of floor and ceiling |
| AllocatorLaws.ObservedCapacityHolds | internal/workload/algorithm.go:181-193 | a sized opportunistic group never exceeds the larger of its floor grant and its observed capacity |
| AllocatorLaws.OpportunisticIsClamped | internal/workload/algorithm.go:164-194 | any sized opportunistic group holds its observed capacity, clamped between its floor grant and that plus what the groups before it leave |
| AllocatorLaws.SoleOpportunisticIsClamped | internal/workload/algorithm.go:164-194 | the only opportunistic group holds its observed capacity, clamped between its floor grant and what the first two phases leave |
| AllocatorLaws.ColdStartRaisesToRemaining | internal/workload/algorithm.go:178-193 | a never-sized group is raised to what is left, so everything left is offered exactly when it holds no floor grant or nothing is left |
| AllocatorLaws.ColdStartLeavesFloorBehind | internal/workload/algorithm.go:178-193 | of ten replicas a never-sized group with a floor of three ends at seven and three pass it by |
| AllocatorLaws.SharesAbsorbThemselves | internal/workload/algorithm.go:164-194 | replacing opportunistic groups' entries by the very shares they got moves no share, at any total |
| AllocatorLaws.TargetsBeforeCapacity | internal/workload/algorithm.go:92-95 | if the last two phases give anything to anyone, or leave anything, every readable target is already met |
| AllocatorLaws.CapacityBeforeOverflow | internal/workload/algorithm.go:196-227 | overflow reaches a group only if every sized opportunistic group is at its capacity and every earlier other group is bounded and at its ceiling |
| AllocatorLaws.DisplacementIsMonotone | internal/workload/algorithm.go:169-227 | lowering one observed capacity never raises that group, never lowers any other or the unplaced rest, and what it loses is exactly what they gain |
| AllocatorLaws.ViolatesExactly | internal/workload/algorithm.go:305-347 | the half-point tolerance restated in integers, both directions |
| AllocatorLaws.DegradedIsExplained | internal/workload/algorithm.go:314-351 | a degraded target always has a group whose min, max or the exhausted total accounts for it |
| Webhook.ValidateOverflowSink | internal/webhook/v1alpha1/podpool_webhook.go:189-211 | reports exactly the unbounded groups after the first, naming the first; silent if and only if there is at most one |
| Webhook.ValidateOpportunistic | internal/webhook/v1alpha1/podpool_webhook.go:131-178 | reports exactly a last opportunistic group and every unbounded group listed before an opportunistic one |
| Webhook.WarnOnFullyCappedPool | internal/webhook/v1alpha1/podpool_webhook.go:325-341 | warns exactly for a nonempty pool without an unbounded group |
| Webhook.UnboundedExactly | internal/workload/algorithm.go:255-267 | an unbounded group is one with no max, no target and no capacity discovery |
| Webhook.UnplacedMeansAllFull | internal/workload/algorithm.go:200-233 | replicas stay unplaced only if every group is bounded and at its ceiling or capacity |
| Webhook.SilentWarningMeansPlaced | internal/webhook/v1alpha1/podpool_webhook.go:310-341 | a pool with an unbounded group, on which the warning is silent, never leaves a replica unplaced for any total or observation |
| Webhook.SecondSinkIsDeadWeight | internal/webhook/v1alpha1/podpool_webhook.go:180-188 | a rejected second unbounded group gets exactly its floor grant at every total |
| Webhook.DisplacedReplicasMoveOn | internal/webhook/v1alpha1/podpool_webhook.go:144-167 | on an admitted pool with a sink, lowering one opportunistic capacity leaves nothing unplaced before or after, what the group loses is what the others gain, the sink comes after it, and no bounded group passes its bound |
| Probes.ObserveOpportunistic | internal/controller/opportunistic.go:110-149 | one failed deciding read abandons the observation; otherwise exactly the opportunistic groups are observed, each as its deciding read says: absent, another owner's, or ours with its clamped counts and the refused ones among the first 256 Pending pods, or the first as many as it is short of |
| Probes.CapacityByTheReads | internal/controller/opportunistic.go:206-247 | from the reads: no entry without a child, zero under another owner, and for ours what was asked less refusals and an open question's replica |
| Probes.RefusedCounts | internal/controller/opportunistic.go:178-191 | the count is the number of refused pods on the page |
| Probes.CountUnschedulable | internal/controller/opportunistic.go:158-193 | the loop counts the refused pods of one page; a failed list gives no count |
| Probes.PageMissesOnlyBeyond | internal/controller/opportunistic.go:41-44 | a page counts no more refusals than there are and misses at most the pods beyond it |
| Probes.AllRefusedFillThePage | internal/controller/opportunistic.go:41-44 | when every Pending pod was refused the count is the smaller of the refusals and the page |
| Probes.ClampCount | internal/workload/render.go:233-251 | a count is never negative and is altered only when it does not fit int32 |
| Probes.Capacity | internal/controller/opportunistic.go:211-243 | absent exactly for a group without a child; for a child of ours capacity, refusals and an open question's replica add up to what was asked |
| Probes.Reconciler.CapacityFrom | internal/controller/opportunistic.go:206-247 | the loop over the observations yields the capacity map, in whatever order they come |
| Probes.Reconciler.DecideProbe | internal/controller/opportunistic.go:253-325 | updates exactly its own record and returns the decision of the specification |
| Probes.Reconciler.ApplyProbes | internal/controller/podpool_controller.go:1352-1385 | decides every opportunistic group once, in list order, leaves the others' targets alone, and is pending exactly if some group awaits a verdict |
| Probes.Reconciler.ForgetProbes | internal/controller/opportunistic.go:336-359 | the two loops delete exactly the keys under the prefix; for slash-free names a pool's records are gone exactly if it is the forgotten pool, and unchanged otherwise |
| Probes.Reconciler.SizeGroups | internal/controller/podpool_controller.go:311-324 | capacity, distribution and probes composed as one pass runs them; pending exactly if some group awaits a verdict, degraded exactly if the split misses a target |
| ProbeTrace.TraceDiscipline | internal/controller/opportunistic.go:269-324 | over any call sequence questions and verdicts alternate, the last is a question exactly while one is outstanding, and nothing is issued within a heartbeat of a failure |
| ProbeTrace.CallByTheNumbers | internal/controller/opportunistic.go:253-325 | one call's new record and decision, field by field, from the record, the counts and the clock |
| ProbeTrace.IssuedExactly | internal/controller/opportunistic.go:309-320 | a question is put exactly to a child read with its share asked and all of it ready, unless a failure is less than a heartbeat old |
| ProbeTrace.AbandonedExactly | internal/controller/opportunistic.go:286-297 | a question is given up exactly when it has no answer and is two minutes old |
| ProbeTrace.OutstandingIsYoung | internal/controller/opportunistic.go:286-297 | no call leaves a question open that is two minutes old |
| ProbeTrace.UnreadDecidesNothing | internal/controller/opportunistic.go:271-276 | an observation never read neither issues nor accepts nor changes the target |
| ProbeTrace.ExtraReplicaIsTheQuestion | internal/controller/opportunistic.go:93-106 | the target is raised by one exactly while a question is open on a read child; abandoned is reported exactly on a timeout |
| Probes.PrefixIsOwnKeys | internal/controller/opportunistic.go:336-363 | a pool's prefix matches exactly its own keys |
| ProbeRuns.ColdStartNeedsTwoMisses | internal/controller/opportunistic.go:377-424 | a group is a cold start exactly when the cache and the API server both miss its child |
| ProbeRuns.PassDecidesOwn | internal/controller/podpool_controller.go:1363-1382 | what a pass does to one group depends on that group's own record only |
| ProbeRuns.OthersAreWrittenTheirShare | internal/controller/podpool_controller.go:1363-1382 | a group that is not opportunistic is written exactly its share |
| ProbeRuns.OtherRecordsStand | internal/controller/opportunistic.go:260-325 | a pass touches no record but those of its own pool's opportunistic groups |
| ProbeRuns.ProbesRideOutsideTheTotal | internal/controller/podpool_controller.go:321-324 | what a pass writes plus the unplaced rest is the total plus one per group awaiting a verdict |
| ProbeRuns.IssueIsAtCapacity | internal/controller/opportunistic.go:309-319 | a probe is issued only to a group whose share equals its concluded capacity |
| ProbeRuns.OpenQuestionAtCapacityExactly | internal/controller/opportunistic.go:223-233 | an open question stands at its group's capacity if and only if it is new or its replica is the one above the present share |
| ProbeRuns.UnprovenMovesNobody | internal/controller/opportunistic.go:201-233 | between two passes on which each group reads back what it was written, or nothing new, with no open question's replica ready and none but such a replica refused, every group keeps its share; not covered are a given-up replica still read back and an open question on a child that was not read |
| ProbeRuns.UnreadQuestionCosts | internal/controller/opportunistic.go:299-306 | a child unread while its question is open, read back as written and still starting, is concluded one below its share, for every state |
| ProbeRuns.UnwithdrawnReplicaCounts | internal/controller/opportunistic.go:286-297 | a question given up whose replica is still read back raises the concluded capacity by one, for every state |
| ProbeRuns.ProbeIsNeverFundedByOthers | internal/controller/opportunistic.go:249-252 | over any run of such passes, with any questions opened, left open, refused or withdrawn in any groups, every share stays that of the first pass |
| ProbeRuns.CapacityIsOldOrShare | internal/controller/opportunistic.go:201-233 | on such a run a group's concluded capacity is the first pass's until the group moves and its share from then on |
| ProbeRuns.MapStandsExactly | internal/controller/opportunistic.go:206-247 | on such a run the capacity map equals the first pass's if and only if every group that moved was at its capacity there |
| ProbeRuns.ZeroPoolStillProbes | internal/controller/opportunistic.go:313-320 | with zero replicas every idle opportunistic group is written one if and only if its heartbeat is over |
| ProbeOverlap.OlderQuestionOutlivesItsShare | internal/controller/opportunistic.go:223-229 | two overlapping questions, reached from no records: with nothing proven one group's capacity falls from six to five |
| ProbeOverlap.SqueezedNeighbourFollowsItsShare | internal/controller/opportunistic.go:211-233 | with one new question open, at capacity, a neighbour cut by a proven step reads its new share back and its capacity falls from six to five |
| ProbeOverlap.WithdrawnProbeIsFunded | internal/controller/opportunistic.go:286-297 | a question given up and read back once more cuts the neighbour's share from six to five with nothing proven |
| ProbeRuns.GrowsOnlyOnProof | internal/controller/opportunistic.go:230-237 | once writes land and the child stays found, a sized group's written count rises by at most one per pass, and only on a pass that read all asked replicas ready |
| ProbeRuns.GrowthIsPaidForInProofs | internal/controller/opportunistic.go:276-324 | over any stretch of such a run the growth is at most the number of passes that proved everything asked |
| Convergence.SeenIsObserved | internal/controller/opportunistic.go:110-193 | a child whose scheduler keeps room of its replicas ready and has refused the rest is observed with those counts and one page of refusals |
| Convergence.AdvanceMoves | internal/controller/opportunistic.go:206-325 | one pass of a group with bounded share against a fixed room goes down by the gap or a page of 256, or up by one once the heartbeat is over |
| Convergence.ShareAtRest | internal/controller/opportunistic.go:223-233 | at the resting place or one above it the share is the resting place, open question or not |
| Convergence.StaysBesideRoom | internal/controller/opportunistic.go:299-324 | once at the room or one beyond it, always there |
| Convergence.Descends | internal/controller/opportunistic.go:41-44 | from above the asked count falls by at least the gap or 256 each pass and never below the room |
| Convergence.Climbs | internal/controller/opportunistic.go:82-85 | from below it rises by one each pass once the heartbeat is over, since a success does not restart it |
| Convergence.Converges | internal/controller/opportunistic.go:249-325 | for every room the asked count reaches it, as far as the share can follow, within the stated number of passes and stays within one of it |
| Convergence.HoldsUntilHeartbeat | internal/controller/opportunistic.go:309-325 | before the heartbeat is over a sized group below its room is left alone |
| PoolConvergence.SightIsObserved | internal/controller/opportunistic.go:110-149 | whatever observing such a world yields for the whole pool is the sight the runs are stated over |
| PoolConvergence.StepIsAdvance | internal/controller/podpool_controller.go:307-324 | a pass of the whole pool moves a group as a pass of that group alone while the opportunistic groups before it are at rest |
| PoolConvergence.GroupConverges | internal/controller/opportunistic.go:249-325 | such a group reaches its part of the best split within the bounds for one group, whatever the groups after it do |
| PoolConvergence.EveryGroupConverges | internal/controller/opportunistic.go:249-325 | for any number of opportunistic groups with fixed rooms, each is at its part of the best split or one above it after a heartbeat and one pass per replica for each group up to it, and stays |
| PoolConvergence.PoolFindsItsRooms | internal/controller/podpool_controller.go:307-324 | from then on every group's share and the unplaced rest are those of a controller that knows the rooms |
| Progress.StampGroupProgress | internal/controller/podpool_controller.go:601-646 | the in-place switch writes exactly the specified stamp and touches no other row |
| Progress.StampAllProgress | internal/controller/podpool_controller.go:542-563 | freshly reconciled rows are stamped, failed groups keep theirs |
| Progress.PublishRows | internal/controller/podpool_controller.go:346-405 | one row per group: reconciled counts with a stamp, or the carried row, or a bare failing row |
| Progress.EvaluateStalled | internal/controller/opportunistic.go:481-526 | names exactly the rows short and stamped whose stamp is the pool's deadline old, ten minutes by default, and nobody at the largest int32 |
| Progress.StalledInOrder | internal/controller/opportunistic.go:503-526 | one more row adds its name at the end exactly if it is overdue |
| Progress.DeadlineAwareRequeue | internal/controller/opportunistic.go:528-553 | exactly the soonest of the jittered base and every unexpired deadline, raised to a second, never over a tenth beyond the base |
| Progress.RequeueByTheNumbers | internal/controller/opportunistic.go:443-479 | the base is an opportunistic pool's own heartbeat, five minutes if it names none, and ten minutes for any other pool |
| ProgressRuns.StampIsLatestProgress | internal/controller/podpool_controller.go:601-646 | along every run the stamp is the time of the latest success where shortfall appeared or shrank, target rose or generation was new |
| ProgressRuns.NilStampMeansWhole | internal/controller/podpool_controller.go:371-383 | nil stamp and nothing short agree, except exactly for a group whose first full pass failed at a positive target and whose every success since had that target, nothing ready and no new generation |
| ProgressRuns.FirstFailureLeavesNoClock | internal/controller/podpool_controller.go:377-384 | a concrete run whose first row is a failure stays short, unstamped and never stalled |
| ProgressRuns.StalledIsDeadlineSinceProgress | internal/controller/opportunistic.go:503-526 | a group is named exactly when short with the deadline past since its latest progress |
| ProgressRuns.PublishedRowIsFound | internal/controller/podpool_controller.go:722-730 | with distinct names the next pass finds each group's own row |
| ProgressRuns.DeadlineIsNotOvershot | internal/controller/opportunistic.go:528-553 | no requeued pass steps over a deadline by a second or more |
| ProgressRuns.StallIsNamedOnTime | internal/controller/opportunistic.go:528-553 | every short stamped group is named after finitely many passes and less than a second late, for any jitter |
| Conditions.ReadySummarisesTheDetails | internal/controller/conditions.go:324-368 | Ready is true exactly for a pool scaled to zero or one whose detail conditions all agree |
| Conditions.UnplacedIsReportedTogether | internal/controller/conditions.go:196-244 | unplaced replicas show in both detail conditions, and in the summary unless a failed group or zero replicas come first |
| ConditionRuns.DetailsExactly | internal/controller/conditions.go:176-290 | from the inputs, exactly when each detail condition is True or False and with which reason after a completed pass |
| ConditionRuns.SummaryExactly | internal/controller/conditions.go:324-368 | from the inputs, exactly when Ready is True, and which obstacle it names otherwise |
| ConditionRuns.TextsAreTheirOwn | internal/controller/conditions.go:284-290 | each of the five conditions carries its own text |
| ConditionRuns.InvalidTemplateSays | internal/controller/podpool_controller.go:257-273 | what a pass that cannot read its template publishes: Ready at zero replicas, and targets satisfied though never looked at |
| Conditions.PoolStatus.SetConditions | internal/controller/conditions.go:174-293 | stamps the generation and writes all five conditions |
| Conditions.PoolStatus.HaltedConditions | internal/controller/conditions.go:107-126 | writes Progressing and Ready with the generation last acted on |
| Conditions.PoolStatus.Reconcile | internal/controller/podpool_controller.go:239-310 | every exit's status and announcements |
| ConditionRuns.PassWrites | internal/controller/conditions.go:133-174 | foreign conditions are never touched; a completed pass stamps all own conditions, a halted pass only two and no new generation |
| ConditionRuns.GenerationsAgree | internal/controller/conditions.go:128-132 | on every run each own condition carries observedGeneration, which is that of the latest pass not halted |
| ConditionRuns.PauseAndResumeAlternate | internal/controller/podpool_controller.go:1130-1142 | Paused and Resumed events strictly alternate across every mix of passes |
| PodPools.ChildNameInjective | internal/workload/render.go:40-45 | within a pool a child's name determines its group |
| Sweep.ReconcileWorkload | internal/controller/podpool_controller.go:809-870 | applies exactly over an owned object or an absence confirmed live; refuses exactly what another owner holds |
| Sweep.StaleWorkloadGVKs | internal/controller/podpool_controller.go:1066-1094 | the distinct recorded kinds other than the current one |
| Sweep.StaleKinds | internal/controller/podpool_controller.go:1066-1094 | contains a kind exactly if a row records it and it is not the current one, without repeats |
| Sweep.ApiServer.ConfirmOrphan | internal/controller/podpool_controller.go:1041-1064 | one live read after others moved, and the UID it licenses |
| Sweep.ApiServer.SweepOrphans | internal/controller/podpool_controller.go:938-1026 | the sweep of one kind, stopping at its first error |
| Sweep.ApiServer.SweepAllOrphans | internal/controller/podpool_controller.go:890-928 | the current kind and then every stale kind, each regardless of errors in the others, with one error per failed sweep |
| SweepLaws.DeletesAreSafe | internal/controller/podpool_controller.go:930-1026 | under any lists and any interleaving each deleted UID is one a live read in the same pass found controlled by the pool under a name the keep test rejects |
| SweepLaws.QuietPassIsExact | internal/controller/podpool_controller.go:890-928 | with nobody else moving a whole pass removes exactly the listed objects still controlled by the pool that are of the current kind under no group's name, or of a recorded other kind under no name of an unreconciled group |
| SweepLaws.CandidateExactly | internal/controller/podpool_controller.go:967-1023 | a candidate is passed over without a call exactly if the list shows it as not the pool's or under a name to keep, and otherwise read and deleted as licensed |
| SweepLaws.ConfirmIsARead | internal/controller/podpool_controller.go:1041-1064 | the live read changes nothing and licenses exactly the UID of an object that is there, the pool's, and not to be kept |
| SweepLaws.DeleteIsBoundToUid | internal/controller/podpool_controller.go:1000-1020 | a delete takes out the confirmed object only: whatever else moved in under its name stays |
| SweepLaws.FailedCallEndsTheKind | internal/controller/podpool_controller.go:967-1023 | a failed call ends the sweep of that kind |
| SweepLaws.QuietSweepIsExact | internal/controller/podpool_controller.go:967-1023 | with nobody else moving a sweep succeeds and removes exactly the listed orphans that are still controlled |
| SweepLaws.CurrentChildrenSurvive | internal/controller/podpool_controller.go:879-889 | a current-kind child of a group in the spec is never deleted, unless the version alone changed and the group reconciled |
| SweepLaws.VersionBumpDeletesLiveChild | internal/controller/podpool_controller.go:1079-1087 | after a version-only change the child just applied is deleted with nobody interfering |
| SweepLaws.CurrentChildSafeExactly | internal/controller/podpool_controller.go:918-925 | such a child can be deleted in some world if and only if the version alone changed and the group reconciled |
| SweepLaws.OldKindOutlivesFailure | internal/controller/podpool_controller.go:915-925 | the old-kind child of a group in the spec is deleted only on a pass where the group reconciled under the new kind |
| SweepLaws.RowNamesLatestKind | internal/controller/podpool_controller.go:366-376 | through failing and halted passes the row names the kind the group last reconciled under |
| SweepLaws.LatestKindExactly | internal/controller/podpool_controller.go:366-405 | that kind is the kind of the one success with none after it |
| SweepLaws.StaleKindsAreLatest | internal/controller/podpool_controller.go:1069-1094 | a pass visits an old kind if and only if some group's latest success was under it |
| SweepLaws.OldChildSweptExactly | internal/controller/podpool_controller.go:915-925 | a pass can remove the child left under another kind in some world if and only if its group reconciled and some group's latest success was under that kind |
| SweepLaws.MissedChildIsNeverSwept | internal/controller/podpool_controller.go:366-405 | once every group has reconciled under another kind no later pass removes the old child in any world, unless some group goes back |
| SweepLaws.FailedListMissesChild | internal/controller/podpool_controller.go:918-925 | one failed list of the old kind on that pass leaves the store as it was, with one error reported |
| SweepLaws.OneFailedListLeaksTheChild | internal/controller/podpool_controller.go:366-405 | a run of two passes after which the old child is live and its kind is on no row |
| SweepLaws.QuietErrorsAreFailedLists | internal/controller/podpool_controller.go:906-927 | with nobody else moving a pass reports exactly one error per kind it could not list |
| SweepLaws.FailingGroupKeepsOldKindOnRecord | internal/controller/podpool_controller.go:1069-1094 | while a group fails under a new kind, its old kind stays among those swept |
| JsonTrees.DeepCopy | internal/workload/render.go:83 | a copy of equal value that shares no object with the original |
| JsonTrees.Write | internal/workload/render.go:136-142 | setting or deleting one key at the end of a path in place replaces that object in the tree and nothing else |
| Merge.MergeMaps | internal/workload/render.go:253-282 | the loop over the patch, in any order, yields the specified merge in a new object, writing neither the base nor the patch nor anything below them |
| Merge.MergedKeyByKey | internal/workload/render.go:253-282 | what the patch does not name stays, a null removes, an object on an object merges, anything else replaces |
| Merge.LandingOnNothing | internal/workload/render.go:271-278 | a patch placed whole is what RFC 7386 would place exactly if it holds no null at any object depth |
| Merge.MergeIsStandardExactly | internal/workload/render.go:253-282 | the merge equals MergePatch of section 2 of RFC 7386 exactly when every object landing on a non-object is null-free |
| Merge.MergeIsIdempotentExactly | internal/workload/render.go:253-282 | merging the same overrides twice equals once under exactly that condition |
| Merge.NullSurvivesOnNothing | internal/workload/render.go:271-278 | a null under a key the template lacks stays in the merge and goes on the second one |
| Render.ChildRunsTheMergedTemplate | internal/workload/render.go:77-165 | a rendered child has exactly the merged template's pod spec, and the controller's replicas, selector and pod labels, for any overrides |
| Render.ChildSelectsItsOwnPods | internal/workload/render.go:110-138 | the selector asks for exactly the pool's and the group's name, and the pods carry both and no other group's |
| Render.ChildKeepsTheRestOfSpec | internal/workload/render.go:94-142 | every other field of the merged object, its spec, selector, pod template and pod metadata comes through |
| Render.ChildKeepsTheRest | internal/workload/render.go:144-196 | every other field of the merged metadata, every other annotation and every other readable label comes through |
| Render.BuiltExactly | internal/workload/render.go:85-138 | exactly when a child is built and which error is returned otherwise |
| Render.ChildIdentityExactly | internal/workload/render.go:144-162 | name, namespace, owner and labels are the controller's if and only if the merged metadata is absent or an object |
| Ownership.RenderedChildIsOursExactly | internal/controller/errors.go:72-80 | the ownership test accepts what the controller renders if and only if the merged metadata is absent or an object |
| Render.NullMetadataLosesIdentity | internal/workload/render.go:144-162 | a template with null metadata renders a child that keeps the null and carries no name |
| Render.PastedMetadataIsGone | internal/workload/render.go:167-196 | no field a template copies from a live object survives, even through overrides, nor the last-applied annotation, nor an annotations object it leaves empty; owner references are the controller's own |
| RenderInPlace.StripInPlace | internal/workload/render.go:171-196 | the deletes, one key after the other, leave the stripped object |
| RenderInPlace.LabelInPlace | internal/workload/render.go:110-130 | the pod template gets the controller's labels, with metadata and labels made where they are missing or no object |
| RenderInPlace.IdentifyInPlace | internal/workload/render.go:144-162 | the setters leave name, namespace, labels and owner as specified |
| RenderInPlace.BuildChild | internal/workload/render.go:77-165 | every in-place edit together yields the specified child or error; the shared template keeps its value, and the child shares no object with it |

## Left out

- The Kubernetes client, informers, leader election, flags and server-side apply's field ownership: only their outcomes enter, as inputs of a pass or moves of the environment.
- Event texts, condition messages, metrics and log lines: messages are arbitrary strings, events are trace markers.
- Parsing of JSON, of kinds and of percent strings: a target is absent, unreadable or a percentage, JSON is a tree.
- Floating point in the tolerance test: the half point is taken in exact arithmetic; `shareOfTotal` is not modelled.
- Truncation of stored times to seconds and saturation of clock differences.
- The summary counts, readiness diagnostics, group reasons and group events of a pass.
- The retired condition types: the list is empty in the source.
- Sweep.ApiServer.SweepAllOrphans: a list is an arbitrary snapshot, so label selection is not modelled; the statements hold for every list.
- SweepLaws.MissedChildIsNeverSwept: the history holds the same groups throughout; a group added later names no old kind and a removed one only takes its row away, neither is modelled.
- PoolConvergence.EveryGroupConverges: the scheduler answers within the pass and its rooms stay fixed; delays and changes are covered by the run statements of `probe_runs.dfy`.

# A verified model of the rollops rollout protocol

rollops deploys targets from Git. One target at a time it runs a crash-tolerant rollout: a row
per rollout, a phase lifecycle, a canary that is advanced by ticks, and a reconcile loop that
drives all of it. This project models that protocol in Dafny and proves what it keeps over every
run, together with the parts around it that carry a hard promise: the dependency order of a tick,
the streak counters of the watcher, the JWKS cache, image automation, metric analysis, the capped
log writer and the DSSE encoding.

`dafny verify dfyconfig.toml` checks the whole project.

## How the engine is modelled

An operation is given by the rows it saves, in order (`StepOps`, `Engine`). A completed call makes
all its saves; a process that dies inside a call has made a prefix of them, so every theorem about
runs covers a crash after any save of any call. Everything outside the engine (clock, target,
router, database commands, lease, gates, plan, approvals, secrets) is an argument of the call, and
the theorems hold for all of its answers. `EngineImpl.Engine` is the engine as it runs: a class
whose methods change the store row by row, with the loops of the source, each proved to do exactly
what the transition system says. `Perform` ties the two together for every operation.

| file | what it holds |
|---|---|
| `Rollout`, `Progressive`, `Gates` | the row and its lifecycle, plans and the step machine, the post-deploy gates |
| `StepOps`, `Engine`, `EngineImpl` | what each operation writes; the store; the engine as a class |
| `Evolution`, `Runs` | what every save keeps of a row; invariants over every run |
| `Canary`, `Refinement` | no wedge, bake time, and the canary as a refinement of the straight-line executor |
| `Outcomes`, `Moves` | what each operation leaves behind, exactly; who may move a row from one phase to another, over every run |
| `Listing` | what the scans of the listing find, and what a save does to them |
| `Baseline`, `UpdateOrder`, `HandGate` | what an automatic rollback restores, how the listing order matters, and what a gate run by hand does |
| `Samples` | rows, configs and answers for the concrete runs |
| `Promotion`, `Convergence`, `Schedule` | gated promotion, convergence of reconcile, scheduled deploys |
| `DepGraph`, `Watch`, `TickLoop`, `RepoConvergence` | layers and reach, the order of a tick, the loop that waits for dependencies, and how a whole repository settles |
| `FailStreak`, `Reaper` | streaks of failures, absences and drift against whole histories |
| `Jwks` | the key cache as a protocol of any number of callers |
| `Decimal`, `Semver`, `ImageAuto` | numerals, version tags, image references and their updates |
| `CappedWriter`, `MetricAnalysis`, `Dsse` | the capped line writer, the metric run, the signed encoding |

Assumptions: row ids are fresh; the clock does not go back within a run; the statechart library
follows the transition tables in the code. Where a theorem needs more (pauses that are not
negative, rows listed by creation) it says so in its `requires`.

## Where the code does not do what it says

- The baseline of an automatic rollback is chosen from a listing said to be newest first
  (internal/engine/engine.go:1907). The SQLite store lists by last update
  (internal/store/sqlite/sqlite.go:287-290), and then a write of some other, older rollout changes
  what is restored. For every run `UpdateOrder.UpdateOrderRestoresLastWritten` says exactly when the
  baseline is kept, and `UpdateOrder.UpdateOrderLosesBaseline` is a run in which a rejected rollout
  is restored. `ByUpdate` idealises that order: the store sorts the text of the times
  (internal/store/sqlite/sqlite.go:64), which drops trailing zeros, so that `.1Z` sorts after `.12Z`.
- The gate that `rollops --wait` runs on a row by its id (internal/cli/cli.go:72-78) restores the
  first other manifest listed, also for a row that is no longer its target's newest: it then deploys
  a newer rollout as a "rollback", and takes the baseline away from that newer rollout
  (`HandGate.HandGateLosesBaseline`). It also falls back on the row's own manifest when the store
  cannot be read, which internal/reconcile/reconcile.go:123-134 refuses to do.
  `Baseline.VerifyRestoresBaselineIff` is the exact condition for the baseline.
- When live matches Git and nothing is in flight, reconcile does nothing for a target that has no
  rollout or whose first listed one is neither promoted nor verifying for that checksum
  (internal/reconcile/reconcile.go:72-94, 170-187); its dependents wait for ever.
  `Convergence.ReconcileConverges` proves, for both listing orders, that every other target converges
  and that these do not; `RepoConvergence.RepositoryConverges` lifts this to a whole repository.
  Two ways there: roll back and revert Git to what is live
  (`Convergence.RollbackThenRevertIsOverlooked`); or an Apply that died before deploying, Git
  reverted, and a gate that fails as the row is recovered (`Convergence.FailedRecoveryIsOverlooked`).
- A step with a negative pause, which configuration does not refuse, is never left
  (`Canary.NegativePauseWedges`). This rests on the statechart library arming no timer for a
  negative delay.
- "verify passing means promote passes" (internal/engine/engine.go:1566-1567) holds exactly for a
  row that is verifying and whose post-promote migration, if it has one, succeeds
  (`Promotion.VerifyPredictsPromote`).
- Reconcile gates a rollout by the config that Git has now (internal/reconcile/reconcile.go:58-66),
  not by the gates captured with the rollout. When Git drops a gate while the rollout is in flight,
  the row is promoted without it (`Promotion.DroppedGatesPromote`); `Promotion.OwnGatesPassIff` says
  exactly when the row's own gates are implied.
- A scheduled deploy does not look for a rollout in flight (internal/engine/engine.go:2058-2116).
  `Schedule.ScheduledFlightIff` says exactly when that leaves two in flight.
- The JWKS rate limit is void while fetches fail (internal/api/jwks.go:101, 125-129), because a
  failed fetch does not move the expiry: `Jwks.FailuresAreNotThrottled`, and the exact condition in
  `Jwks.LimitHoldsIff`.
- In digest mode an empty digest would replace a pinned reference by an unpinned one
  (internal/reconcile/imageauto.go:315-328). It is the only way: `ImageAuto.PinSurvivesIff`. The
  registry client refuses an empty digest (internal/imageupdate/scan.go:223-225).
- Clearing the streaks of repository `a` also clears those of repository `a/b`
  (internal/reconcile/fail.go:149-159), and the reaper's keys of two such repositories can coincide:
  `FailStreak.KeysSharedIff` says for which names.
- Output can be cut without the truncation notice: the notice is given only when a later piece
  begins past the limit (internal/pluginhost/launch.go:238-266). `CappedWriter.NoticedIff` is the
  exact condition, `CappedWriter.CutWithoutNotice` the case without it.
- With two configs of one ref the ordering keeps one of them; the watcher removes duplicates
  before it orders (internal/reconcile/watch.go:279-299).

## Model

| member | source | states |
|---|---|---|
| `Rollout.Lifecycle.Send` | internal/rollout/lifecycle.go:53-140 | the phase follows the guarded table; a rejected event is reported and changes nothing |
| `Rollout.StartedByRight` | internal/rollout/lifecycle.go:53-78 | over any events: what needs approval is started only after an approval, and nothing without a plan |
| `Rollout.PromotedByRight` | internal/rollout/lifecycle.go:88-94 | a row is promoted only by VERIFY_OK, leaves that phase only by a rollback, and never leaves rolled-back |
| `Rollout.RollbackIsUniform` | internal/rollout/lifecycle.go:72-97 | a rollback is accepted in exactly the phases from awaiting approval to promoted, and always ends the row |
| `Rollout.PauseIsUndone` | internal/rollout/lifecycle.go:76-87 | only a deploying row is paused, a resume undoes it, and either may be promoted early |
| `Progressive.EnsureFull` | internal/progressive/progressive.go:58-63 | a full step with no pause is added exactly when the last step is not full, and nothing else changes |
| `Progressive.PlanFor` | internal/progressive/progressive.go:32-46 | every plan has a step and ends at full traffic; configured steps are kept |
| `Progressive.DefaultPlansClimb` | internal/progressive/progressive.go:32-46 | the plans nobody configured climb strictly to full traffic, in three, one and four steps without pauses |
| `Progressive.StraightInStep` | internal/progressive/progressive.go:85-109 | the reports are of the plan's steps in order, each with its own weight, and of all of them when the run succeeds |
| `Progressive.Stepper.Next` | internal/progressive/machine.go:82-99 | leaving a step enters the next with its gate, or completes; a failed step is not left |
| `Progressive.Run` | internal/progressive/progressive.go:85-109 | with every deploy accepted the loop reports what `Straight` says; always, each report has its own number, the plan's length and its own step's weight; a run that succeeds reported every step and settled for the whole bake time |
| `Gates.RunGates` | internal/engine/engine.go:1174-1197 | the gates run in order, stop at the first failure, and report the rest as not run |
| `Gates.NoFailureMeansAllPass` | internal/engine/engine.go:1174-1321 | there is no failure if and only if the target could be asked and is not unhealthy, the smoke test exited as expected and the analysis passed, each where it is enabled |
| `Gates.ReportIsExact` | internal/engine/engine.go:1174-1197 | what each line of the report says, in terms of the answers: passed, failed, skipped, or not run after a failure |
| `EngineImpl.Engine.SaveRollout` | internal/store/sqlite/sqlite.go:287-290 | a save puts one row, and its place in the listing follows the listing order |
| `EngineImpl.Engine.InFlight` | internal/engine/stepper.go:157-168 | the newest deploying or paused row of a target |
| `EngineImpl.Engine.PriorManifest` | internal/engine/engine.go:1898-1920 | the first listed manifest with another checksum |
| `EngineImpl.Engine.ApplyRollback` | internal/engine/engine.go:1711-1765 | refused rollbacks write nothing; a rollback saves the row settled with the restored manifest |
| `EngineImpl.Engine.FailProgressive` | internal/engine/stepper.go:320-344 | a failing step settles the row, restoring the earlier manifest only when allowed |
| `EngineImpl.Engine.AdvanceDue` | internal/engine/stepper.go:251-290 | the loop advances exactly the steps that are due |
| `EngineImpl.Engine.DriveStepper` | internal/engine/stepper.go:208-315 | record, advance, then settle, complete or persist |
| `EngineImpl.Engine.StartStepper` | internal/engine/stepper.go:195-206 | a fresh canary starts on its first step |
| `EngineImpl.Engine.RecoverInterrupted` | internal/engine/stepper.go:137-154 | an interrupted row is handed to the gate with rollback blocked |
| `EngineImpl.Engine.Tick` | internal/engine/stepper.go:29-113 | a tick is the transition system's tick, errors and no-ops included |
| `EngineImpl.Engine.Pause` | internal/engine/stepper.go:348-371 | holds a deploying canary on its step |
| `EngineImpl.Engine.Resume` | internal/engine/stepper.go:375-398 | releases it and restarts the step's bake |
| `EngineImpl.Engine.Abort` | internal/engine/stepper.go:404-472 | settles an in-flight row, restoring the earlier manifest unless blocked |
| `EngineImpl.Engine.Approve` | internal/engine/engine.go:1371-1456 | deploys an approved row and saves its outcome |
| `EngineImpl.Engine.Reject` | internal/engine/engine.go:1458-1481 | settles an awaiting row; refused elsewhere |
| `EngineImpl.Engine.Promote` | internal/engine/engine.go:1568-1598 | promotes a verifying row whose gates pass, or by force |
| `EngineImpl.Engine.PromoteWithNote` | internal/engine/engine.go:1638-1669 | a failing post-promote migration leaves the row promoted and is reported |
| `EngineImpl.Engine.RollbackLast` | internal/engine/engine.go:1984-2012 | rolls the newest row back to the distinct earlier manifest |
| `EngineImpl.Engine.VerifyByHand` | internal/cli/cli.go:72-78 | the gate run on any row by its id, with the earlier manifest found, or else the row's own |
| `EngineImpl.Engine.VerifyOrRollback` | internal/engine/engine.go:1055-1100 | promotes, or restores when allowed, or reports |
| `EngineImpl.Engine.Apply` | internal/engine/engine.go:824-1040 | creates the row, decides the baseline, deploys and starts the canary |
| `EngineImpl.Engine.Finalize` | internal/reconcile/reconcile.go:111-151 | the gate runs only once the row has left deploying |
| `EngineImpl.Engine.Reconcile` | internal/reconcile/reconcile.go:38-107 | steps what is in flight, else applies, else gates a stuck row again |
| `EngineImpl.Engine.Perform` | internal/engine/engine.go:824-2012 | every operation is the transition system's step, keeps the invariant and only evolves rows |
| `Listing.OwnSaveKeepsPrior` | internal/engine/engine.go:1906-1920 | saving a row does not change what it would be rolled back to |
| `Listing.NewestIsFirst` | internal/reconcile/reconcile.go:172-200 | the newest row of a target is the first one listed of it, and missing only when it has none |
| `Listing.PriorIsFirst` | internal/engine/engine.go:1906-1920 | the last known good manifest is the first listed one of the target with another non-empty checksum, and missing only when there is none |
| `Evolution.DriveLoopShape` | internal/engine/stepper.go:251-290 | driving changes only the recorded step, and never stops on a failed one |
| `Evolution.DriveLoopEarns` | internal/engine/stepper.go:251-290 | the time of the last step entered covers every pause left behind |
| `Runs.NextKeeps` | internal/engine/engine.go:888-901 | one call, cut short anywhere, keeps one row in flight per target and only evolves rows |
| `Runs.RunKeeps` | internal/engine/engine.go:888-901 | the same over every run with crashes |
| `Runs.RolledBackIsFinal` | internal/rollout/lifecycle.go:92-94 | a rolled-back row is never changed again by any run |
| `Canary.DueTickAdvances` | internal/engine/stepper.go:59-112 | every due tick advances, completes or settles; a row without a usable snapshot leaves deploying at once |
| `Canary.DeployingIsBounded` | internal/engine/stepper.go:244-315 | over every run a row is found due, by ticks and by reconciles together, at most as often as it has steps left |
| `Canary.DueTickShrinks` | internal/reconcile/reconcile.go:55-67 | a due tick, alone or inside a reconcile, leaves fewer steps, also when the process dies after it |
| `Canary.NegativePauseWedges` | internal/engine/stepper.go:257-289 | with a negative pause a tick only writes the same row again |
| `Canary.BakeIsNeverShortened` | internal/engine/stepper.go:244-280 | a rollout, created by an Apply or by a reconcile, completes no earlier than the sum of its pauses after its first step, in every run |
| `Canary.ResumeRestartsBake` | internal/engine/stepper.go:373-398 | over every run after a resume, with crashes, whatever the canary reaches it reaches no earlier than all the pauses left behind, the current one in full, after the resume |
| `Canary.ResumedTickHolds` | internal/engine/stepper.go:98-112 | until that pause has elapsed a tick writes nothing or settles the row |
| `Refinement.TickedCanaryIsStraight` | internal/engine/stepper.go:208-315 | from the Apply that starts it, with pauses that are not negative and answers fixed per step, for any ticks, pauses and resumes: the reported steps are a prefix of the executor's, each with its own weight, the row shows the last of them, the outcome at the end is the executor's, and a canary that reaches verifying has sent every step and ended at full weight |
| `Runs.FirstSaveCreates` | internal/engine/engine.go:956-1020 | every row a call creates, by an Apply or by a reconcile, starts as Apply makes it |
| `Outcomes.ApplyWritesIff` | internal/engine/engine.go:880-905 | Apply writes exactly when it is admitted, gets the lease, can list and build, and the target is idle |
| `Outcomes.GatedApplyHalts` | internal/engine/engine.go:1027-1030 | an Apply that needs approval saves one waiting row, and deploys, marks and re-applies nothing |
| `Outcomes.UngatedApplyDeploys` | internal/engine/engine.go:1032-1040 | any other Apply that writes deploys the config's manifest once, and settles the row when that fails |
| `Outcomes.BlockedIff` | internal/engine/engine.go:1934-1965 | a new row may be rolled back exactly when its baseline could be read and compared, and did not differ, or there is nothing to compare |
| `Outcomes.SettingsStay` | internal/engine/engine.go:971-984 | a row keeps over every run what its config said of its database commands |
| `Outcomes.ReconcileAppliesIff` | internal/engine/engine.go:622-634 | a reconcile of an idle target creates a row if and only if the live stamp differs from Git or a full verification found drift, and Apply may write |
| `Outcomes.GatedReconcileHalts` | internal/reconcile/reconcile.go:96-121 | a reconcile that needs approval leaves one waiting row and an untouched target |
| `Outcomes.ReconcileGatesAgain` | internal/reconcile/reconcile.go:72-94 | with live as Git says, an idle target is gated again exactly when its newest row verifies that checksum; what is written then, case by case |
| `Outcomes.ReconcileNeeds` | internal/reconcile/reconcile.go:38-71 | without a listing nothing is written, and without a plan an idle target is left alone |
| `Outcomes.TickLeavesAlone` | internal/engine/stepper.go:29-57 | a tick writes nothing for a row that is not deploying, a config of another target or a busy target, and fails only for the last two |
| `Outcomes.TickRecovers` | internal/engine/stepper.go:137-154 | a row whose progress is unknown goes to the gate with rollback blocked, changed in nothing else, and keeps an earlier reason |
| `Outcomes.TickWhileBaking` | internal/engine/stepper.go:92-112 | while a step bakes a tick writes nothing if the target is healthy, and settles the row if not |
| `Outcomes.FailedTickSettles` | internal/engine/stepper.go:320-344 | a tick that writes and fails has settled the row, on the earlier manifest exactly when automatic rollback is on, nothing blocks it, there is one and the target accepts it |
| `Outcomes.FailedApplySettles` | internal/engine/engine.go:1036-1039 | so has an Apply |
| `Outcomes.GateOutcome` | internal/engine/engine.go:1055-1100 | the gate promotes a verifying row that passes; else it restores exactly when allowed, accepted and on, whatever was migrated; and when it reports success |
| `Outcomes.AbortOutcome` | internal/engine/stepper.go:404-472 | an abort leaves a row in flight rolled back without a snapshot, re-applies the earlier manifest exactly when there is one and nothing blocks it, and writes nothing when the target refuses it |
| `Outcomes.AbortReapplies` | internal/engine/stepper.go:423-445 | on the store: what is re-applied is the recorded earlier manifest, and nothing when it could not be read |
| `Outcomes.RollbackOutcome` | internal/engine/engine.go:1711-1765 | a rollback by hand is refused and writes nothing without the lease, on a target that refuses, from an ended row, and unless forced on a blocked row or an incompatible migration without a reverse command; else it restores |
| `Outcomes.RollbackLastOutcome` | internal/engine/engine.go:1984-2012 | it is done to the first listed row with the first distinct manifest recorded, and refused when either is missing or unreadable |
| `Outcomes.ApproveOutcome` | internal/engine/engine.go:1371-1445 | an approved row is verifying if and only if its deploy succeeded, and rolled back otherwise; elsewhere an approval is refused |
| `Outcomes.HoldOutcome` | internal/engine/stepper.go:348-398 | pause and resume change the phase and the hold, never the step, and only resume restarts the bake |
| `Outcomes.LeaseGuards` | internal/engine/stepper.go:474-489 | without the lease no apply, tick, pause, resume, abort, approval or rollback writes anything |
| `Moves.CallMoves` | internal/engine/engine.go:824-2012 | every save of every call moves its row only as the table `MayMove` lets that call |
| `Moves.PhaseIsLeftByRight` | internal/engine/engine.go:824-2012 | over every run with crashes, a row that left a phase was taken out of it by a call that may |
| `Moves.GatedRowWaits` | internal/engine/engine.go:1027-1030 | a row created by a call that needs approval, Apply or reconcile, is never deploying or paused, by any run, and stops waiting only by an approval, a rejection, a gate run by hand or a rollback |
| `Moves.PausedRowWaits` | internal/reconcile/reconcile.go:111-121 | a paused row stays paused until it is resumed, aborted, gated by hand or rolled back |
| `Baseline.AutomaticCallRestores` | internal/reconcile/reconcile.go:123-137 | an automatic call restores the earlier manifest it found, or else the row's own, and only when allowed to |
| `Baseline.ApplyRestoresBaseline` | internal/engine/engine.go:1016-1039 | Apply restores nothing but the baseline |
| `Baseline.CreatingCallRestoresBaseline` | internal/reconcile/reconcile.go:96-151 | neither does a reconcile that creates the rollout and gates it in the same call, however the store lists |
| `Baseline.RestoresBaselineIff` | internal/engine/engine.go:1906-1965 | after any run and for any listing order, an automatic rollback restores the baseline exactly when the manifest it finds is the one recorded at the creation |
| `Baseline.RecordedByCreation` | internal/engine/engine.go:1906-1920 | listed by creation, what is recorded after any run is the first distinct manifest created after the rollout, or else before it |
| `Baseline.RecordedIsFromApply` | internal/engine/engine.go:1906-1920 | with hand-run gates only on newest rows, what is recorded for a rollout stays that of its creation unless a newer one has another manifest |
| `Baseline.VerifyRestoresBaselineIff` | internal/cli/cli.go:72-78 | a gate run by hand restores the baseline exactly when the store could be read (or nothing was recorded) and the newest distinct manifest among newer rollouts, if any, is the baseline |
| `Baseline.AutomaticRollbackRestoresBaseline` | internal/engine/engine.go:1934-1965 | whatever ran in between, a tick, a reconcile or a hand-run gate of the newest row restores the manifest that did not differ from live when an Apply or a reconcile created the rollout |
| `Baseline.BlockedIsNeverRolledBack` | internal/engine/stepper.go:137-154 | no call on a blocked or recovered row re-applies anything, over every run and however the store lists: no tick, reconcile, gate or abort, and no rollback but a forced one |
| `Baseline.BlockedAbortSettles` | internal/engine/stepper.go:423-445 | after any run, an abort of a blocked row in flight settles it and leaves the target as it is |
| `HandGate.NewestIsRestored` | internal/cli/cli.go:72-78 | a failing gate run by hand restores the newest rollout's manifest whenever that is another one |
| `HandGate.HandGateLosesBaseline` | internal/cli/cli.go:72-78 | a run in which an older row is "rolled back" to a newer manifest, and the newer rollout loses its baseline |
| `UpdateOrder.RecordedByUpdate` | internal/store/sqlite/sqlite.go:287-290 | listed by update, what is recorded after any run is the manifest of the distinct rollout written last, or the first listed before when the run wrote none |
| `UpdateOrder.UpdateOrderRestoresLastWritten` | internal/store/sqlite/sqlite.go:287-290 | listed by update, for any run: the baseline is restored exactly when the last write to a rollout that is now distinct left it with that manifest, or without one when the rows before still give it |
| `UpdateOrder.UpdateOrderKeepsBaselineIff` | internal/store/sqlite/sqlite.go:287-290 | when manifests stay, exactly when no distinct rollout was written or the last one has that manifest |
| `UpdateOrder.UpdateOrderLosesBaseline` | internal/store/sqlite/sqlite.go:287-290 | a run in which a manifest that was never live is restored |
| `UpdateOrder.CreationOrderKeepsBaseline` | internal/engine/engine.go:1906-1920 | the same calls restore what was live when rows are listed by creation |
| `Promotion.VerifyPredictsPromote` | internal/engine/engine.go:1531-1598 | verify agrees with the gates; promote writes exactly for a verifying row that passes them, and succeeds exactly when its post-promote migration does too |
| `Promotion.VerifyPassesWherePromoteRefuses` | internal/engine/engine.go:1566-1567 | verify passes for a promoted row that promote refuses |
| `Promotion.VerifyPassesWherePromoteFails` | internal/engine/engine.go:1652-1659 | verify passes and promote reports a failed migration, with the row promoted |
| `Promotion.PromotionIsGated` | internal/engine/engine.go:1130-1197 | a call that writes a promoted row is a forced promote, a promote whose row's gates pass, or a reconcile or hand-run gate whose config's gates pass |
| `Promotion.PromotedWasGated` | internal/engine/engine.go:1130-1197 | over every run, a row that became promoted was promoted by some such call on it |
| `Promotion.OwnGatesPassIff` | internal/engine/engine.go:1133-1168 | passing the config's gates implies that the row's own pass, whatever they answer, if and only if the config's gates include them |
| `Promotion.DroppedGatesPromote` | internal/reconcile/reconcile.go:58-66 | a config without gates promotes an interrupted row whatever its own gates say |
| `Promotion.ManualGatesContainAutomatic` | internal/engine/engine.go:1001-1012 | a row made by Apply carries every gate its config runs automatically, with the same answers |
| `Convergence.ReconcileConverges` | internal/reconcile/reconcile.go:38-151 | for both listing orders and from every store, with every check passing and nothing held: after `Calls` due reconciles a target is in sync, without drift and with its newest row promoted, if and only if it was not overlooked; drift is cleared by the apply it causes |
| `Convergence.CreatedLastFlies` | internal/engine/engine.go:897-901 | listed by creation, every run keeps the row in flight the newest of its target |
| `Convergence.RestStays` | internal/reconcile/reconcile.go:72-94 | a target at rest, or overlooked, is not changed by a reconcile |
| `Convergence.OverlookedStays` | internal/reconcile/reconcile.go:72-94 | an overlooked target is never at rest, whatever the number of reconciles |
| `Convergence.CallsBound` | internal/reconcile/reconcile.go:38-151 | for a rollout of the current config, for an interrupted one and when nothing is in flight, `Calls` is at most the plan's length plus two |
| `Convergence.FewerCallsDoNotDo` | internal/reconcile/reconcile.go:38-151 | with a pause on every step and calls that take no time, fewer than `Calls` reconciles do not end at rest |
| `Convergence.RollbackThenRevertIsOverlooked` | internal/reconcile/reconcile.go:170-187 | a rollback by hand and Git reverted to what is live leave the target overlooked |
| `Convergence.FailedRecoveryIsOverlooked` | internal/reconcile/reconcile.go:170-187 | so does an interrupted Apply whose gate fails on recovery after Git was reverted |
| `Schedule.ScheduledFlightIff` | internal/engine/engine.go:2058-2116 | a scheduled deploy keeps one row in flight except exactly after a crash between its saves with another row in flight |
| `DepGraph.Graph.constructor` | internal/depgraph/depgraph.go:27-43 | the nodes are all that is named, the edges exactly the dependencies |
| `DepGraph.Graph.AddNode` | internal/depgraph/depgraph.go:45-52 | adding a node adds no edge |
| `DepGraph.Graph.Layers` | internal/depgraph/depgraph.go:58-87 | fails exactly on a cycle; otherwise the layers partition the nodes, edges go to later layers, and each node has a prerequisite in the layer just before |
| `DepGraph.LayeringUnique` | internal/depgraph/depgraph.go:54-87 | there is only one such layering, so the result does not depend on map order |
| `DepGraph.StuckMeansCycle` | internal/depgraph/depgraph.go:74-76 | when no node is ready, the ones left contain a cycle |
| `DepGraph.LayeringMeansAcyclic` | internal/depgraph/depgraph.go:54-87 | a graph with a layering has no cycle |
| `DepGraph.Graph.HasCycle` | internal/depgraph/depgraph.go:90-93 | says whether some node reaches itself |
| `DepGraph.Graph.Walk` | internal/depgraph/depgraph.go:99-108 | the walk sees all that is reached and nothing else, on every graph |
| `DepGraph.Graph.BlastRadius` | internal/depgraph/depgraph.go:97-111 | counts the nodes reached by one or more edges, the start only when it lies on a cycle |
| `Watch.OrderByDependsOn` | internal/reconcile/watch.go:506-546 | file order without dependencies or on a cycle; else dependencies first; a permutation when refs are unique |
| `TickLoop.Watcher.WaitingOn` | internal/reconcile/reconcile.go:157-168 | the first dependency whose newest row is not promoted |
| `TickLoop.Watcher.Tick` | internal/reconcile/watch.go:447-479 | the loop makes exactly the turns of `Stores`, and keeps the engine's invariant |
| `TickLoop.OthersKept` | internal/engine/engine.go:1906-1918 | saving rows of one target leaves the newest row of every other target |
| `TickLoop.NeverAheadOfDependencies` | internal/reconcile/watch.go:449-459 | no config is reconciled while a dependency's newest row is not promoted |
| `TickLoop.GoesIff` | internal/reconcile/watch.go:447-479 | a config has its turn exactly when the store could be read, the first listed row of every dependency is promoted, and a held failure gives way to a row in flight |
| `TickLoop.OneTickReachesAll` | internal/reconcile/watch.go:447-479 | if every reconcile promotes and outside dependencies are promoted, one tick reconciles every config |
| `RepoConvergence.RepositoryConverges` | internal/reconcile/watch.go:447-546 | with dependencies first, what is needed outside promoted and every reconcile good and due: after as many ticks as the repository has calls left, every config is in sync and promoted if and only if none was overlooked |
| `RepoConvergence.TickAdvances` | internal/reconcile/watch.go:447-479 | every tick leaves the repository less to do, until there is nothing |
| `RepoConvergence.TickedIsTick` | internal/reconcile/watch.go:447-479 | these are the ticks the watcher makes on its store |
| `RepoConvergence.TurnSparesOthers` | internal/reconcile/watch.go:466-467 | a turn changes nothing that another target sees of itself |
| `TickLoop.TickRepo` | internal/reconcile/watch.go:447-546 | a whole tick, ordered and run: acyclic, unhindered and promoting, it reconciles every config |
| `FailStreak.FailStreak.Note` | internal/reconcile/fail.go:87-120 | the verdict is decided by the length of the run of one text that the note ends |
| `FailStreak.FailStreak.Held` | internal/reconcile/fail.go:125-133 | held exactly while the last note is a permanent failure no more than thirty minutes old |
| `FailStreak.FailStreak.Clear` | internal/reconcile/fail.go:135-144 | drops one key's streak and no other |
| `FailStreak.FailStreak.ClearRepo` | internal/reconcile/fail.go:149-159 | drops the streak of every key under the repository's name and of no other key |
| `FailStreak.RecordIsHistory` | internal/reconcile/fail.go:95-119 | counting agrees with the history, counters and verdict |
| `FailStreak.OneEscalationPerRun` | internal/reconcile/fail.go:87-120 | after an escalation the same run is only quiet |
| `FailStreak.RunVerdicts` | internal/reconcile/fail.go:87-120 | every verdict of a run: a permanent failure escalates at once, another on the note that reaches the threshold and never before the second, and then quiet |
| `FailStreak.WordIsPermanent` | internal/reconcile/fail.go:73-83 | "forbidden" or "unauthorized" makes a failure permanent in whatever case and wherever it stands |
| `FailStreak.PermanentHasWord` | internal/reconcile/fail.go:73-83 | and nothing else does |
| `FailStreak.PermanentIsEscalated` | internal/reconcile/fail.go:99-108 | a permanent failure is stored as escalated, with its own time |
| `FailStreak.KeysSharedIff` | internal/reconcile/fail.go:146-159 | two repositories share a key exactly when one is named like a path under the other |
| `Reaper.Reaper.Observe` | internal/reconcile/reap.go:77-117 | a key that one repository names is reported exactly when its history says so, once, with its count |
| `Reaper.Reaper.Forget` | internal/reconcile/reap.go:121-125 | a forgotten key is untracked |
| `Reaper.EntersIsHistory` | internal/reconcile/reap.go:77-117 | the counters of a key are what its history says, and so is the verdict |
| `Reaper.OneVerdictPerAbsence` | internal/reconcile/reap.go:91-106 | two verdicts are separated by a declaration or by being forgotten |
| `Reaper.StepAgrees` | internal/reconcile/reap.go:77-125 | a call of one repository leaves the keys of the others in agreement with their histories |
| `Reaper.SeparateNames` | internal/reconcile/reap.go:85-88 | repositories whose names are not nested never name each other's keys |
| `Reaper.DriftStreak.Observe` | internal/reconcile/reap.go:366-378 | reports the streak on the one tick that crosses the threshold |
| `Jwks.Shared.Decide` | internal/api/jwks.go:92-120 | the first critical section: answer, wait, or claim the fetch |
| `Jwks.Shared.Publish` | internal/api/jwks.go:122-139 | the second: publish, and name the channel to close |
| `Jwks.RunKeeps` | internal/api/jwks.go:92-139 | over every interleaving: one fetch, each channel closed once, every waiter's channel closed or owned by the running fetch |
| `Jwks.StepKeeps` | internal/api/jwks.go:122-131 | the channel closed is the closer's own and was not closed before |
| `Jwks.WaiterGoesOn` | internal/api/jwks.go:104-112 | a waiter can always go on after at most one action of another caller |
| `Jwks.RunSourced` | internal/api/jwks.go:92-139 | every answered key was delivered under its own id by some fetch |
| `Jwks.CacheIsLastDelivery` | internal/api/jwks.go:122-129 | after every interleaving the cache holds what the last successful fetch brought, and expires ttl after it |
| `Jwks.RefreshIsLastFinish` | internal/api/jwks.go:124-125 | the refresh interval counts from the last fetch that finished, failed or not |
| `Jwks.EnterAnswers` | internal/api/jwks.go:92-116 | after every interleaving a caller is answered with a key exactly when the last delivery has its id and is not over, and refused exactly when it is not over, lacks it and the last fetch is too recent; else it waits for the running fetch or starts one |
| `Jwks.FinishAnswers` | internal/api/jwks.go:122-139 | a delivery answers the caller that fetched; a failure leaves it what was delivered before, over or not |
| `Jwks.WaiterIsServed` | internal/api/jwks.go:104-112 | a waiter whose fetch delivered its id and that is let in in time gets the key, whoever acts in between |
| `Jwks.FetchesAreSpaced` | internal/api/jwks.go:99-103 | k successful fetches span at least k - 1 refresh intervals |
| `Jwks.LimitHoldsIff` | internal/api/jwks.go:99-103 | between fetches the limit holds exactly when the expiry covers it or it is over |
| `Jwks.FailuresAreNotThrottled` | internal/api/jwks.go:122-129 | with an expired cache any number of failing fetches start at one instant |
| `Semver.ParseOfText` | internal/imageupdate/select.go:17-37 | every version that fits is read back, with or without its "v" and whatever its suffix |
| `Semver.ParsedIsVersion` | internal/imageupdate/select.go:17-37 | nothing else is a version: what is read is three numerals with dots, an optional "v" and a suffix that decides about a pre-release |
| `Semver.ParseRefusesHuge` | internal/imageupdate/select.go:24-33 | a number that does not fit makes the tag no version, wherever it stands |
| `Semver.GreaterIsOrder` | internal/imageupdate/select.go:58-67 | versions compare by major, minor and patch number, strictly, transitively and totally |
| `Semver.SelectTag` | internal/imageupdate/select.go:79-113 | the first of the highest release tags above the current one within the mode's bound, or none |
| `Semver.SelectedIsTop` | internal/imageupdate/select.go:69-113 | a selected version passes the pattern, is strictly greater and within the mode's bound; every version above it is a pre-release, filtered out or out of bound; and selecting again finds nothing |
| `Semver.SemverTagsDesc` | internal/imageupdate/select.go:125-151 | the release tags that pass the pattern, as a permutation, highest first |
| `ImageAuto.SplitUndoesJoin` | internal/reconcile/imageauto.go:461-477 | splitting undoes joining, with and without a digest |
| `ImageAuto.SplitIsPlain` | internal/reconcile/imageauto.go:461-477 | whatever is split can be joined again without ambiguity |
| `ImageAuto.UntaggedIsLatest` | internal/reconcile/imageauto.go:461-477 | a colon before the last slash is a port: without one after it the tag is "latest" |
| `ImageAuto.SemverForDigest` | internal/reconcile/imageauto.go:447-458 | the highest release tag with the pinned digest, or none has it |
| `ImageAuto.PolicyFor` | internal/reconcile/imageauto.go:364-367 | "any" is bounded as "major" is, and the empty tag is no version |
| `ImageAuto.Resolve` | internal/reconcile/imageauto.go:307-427 | every answer is one that `Resolves` allows, failures included |
| `ImageAuto.PinSurvivesIff` | internal/reconcile/imageauto.go:315-427 | a pinned reference stays pinned except exactly on an empty digest, whatever tags the registry offers |
| `ImageAuto.PinIsNeverDropped` | internal/reconcile/imageauto.go:307-427 | over any cycles with changing registries and policies, whatever tags they offer, a pin is never dropped |
| `ImageAuto.RepositoryStays` | internal/reconcile/imageauto.go:307-427 | as long as the offered tags are plain names, neither does the repository change |
| `ImageAuto.BumpsIncrease` | internal/reconcile/imageauto.go:359-383 | a version is replaced only by a strictly greater one within the mode's bound |
| `ImageAuto.ReplacementIsAllowed` | internal/reconcile/imageauto.go:307-427 | a replacement is made only for an allowed image and only to a permitted tag |
| `ImageAuto.DigestIsFollowed` | internal/reconcile/imageauto.go:315-328 | in digest mode an image fails, stays or moves exactly as the digest of its tag is unknown, the same or another |
| `ImageAuto.ReleaseMovesIff` | internal/reconcile/imageauto.go:359-427 | with all digests known and all tags permitted, a release stays exactly when none within the mode's bound is above it |
| `ImageAuto.TwoBumpsAtMost` | internal/reconcile/imageauto.go:307-427 | against a fixed registry there are at most two replacements |
| `CappedWriter.CappedWriter.Write` | internal/pluginhost/launch.go:238-266 | a write is reported whole, and what is sent depends only on all the input so far |
| `CappedWriter.WriteAll` | internal/pluginhost/launch.go:228-266 | however the stream is cut, the sink has the rendering of its first cap bytes and at most one notice after it |
| `CappedWriter.RenderConcat` | internal/pluginhost/launch.go:247-258 | prefixing lines piece by piece is prefixing the whole |
| `CappedWriter.NoticedIff` | internal/pluginhost/launch.go:240-246 | the notice is given exactly when some write begins a piece at or past the limit |
| `CappedWriter.NoticeMeansCut` | internal/pluginhost/launch.go:240-246 | a notice means that something was dropped |
| `CappedWriter.CutWithoutNotice` | internal/pluginhost/launch.go:250-262 | one long piece is cut without notice |
| `MetricAnalysis.Run` | internal/analysis/analysis.go:188-225 | stops at the first streak that is too long; passes exactly when none is and the last measurement has no error |
| `MetricAnalysis.PassesIff` | internal/analysis/analysis.go:188-225 | the measurements pass exactly when the last could be taken and no more than the limit fail in a row |
| `MetricAnalysis.AcceptedIffAllFailingFails` | internal/analysis/analysis.go:128-140 | the limits check accepts exactly the templates that no all-failing run can pass |
| `Dsse.DecodeOfPae` | internal/security/sourcegate.go:251-254 | decoding undoes the encoding |
| `Dsse.PaeIsProtocol` | internal/security/sourcegate.go:251-254 | the encoding is the one the DSSE protocol writes out, with plain decimal lengths |
| `Dsse.PaeOfDecode` | internal/security/sourcegate.go:251-254 | nothing but an encoding decodes |
| `Dsse.PaeIsInjective` | internal/security/sourcegate.go:251-254 | equal encodings have equal types and equal payloads |

## Left out

- Interleavings finer than one engine call: Tick and the operator calls read the row before they take the target lease, Promote and Reject take none; a call is one step here.
- The lease: obtaining it is an answer of the outside, and nothing is claimed about mutual exclusion after it expires.
- A failing save: the store accepts what it is given, or the process is taken to have died there.
- Notes, audit entries, notifications and update times of a row; they decide nothing that is modelled, except the listing order of `UpdateOrder`.
- Guardrails, governance, four-eyes approval, provenance and secret resolution: each is one answer (`admits`, `gated`, `ready`).
- Resetting traffic and feature flags on a rollback, which is best effort.
- `Engine.Rollback` with a manifest chosen by the caller, preflight, the drift report and risk scoring.
- The insides of the statechart library: the state and the cursor of the step machine are one value, which every entry action makes true.
- A step that is recorded but whose snapshot is not yet saved may be driven again after a crash; the refinement of the executor is therefore stated for completed calls.
- That a restored manifest was once live as such: the choice filters on the checksum only, so what is proved is the comparison with live at Apply.
- Convergence.CallsBound: does not bound a rollout of an older config that is still in flight by the plan's length plus two, because that is false: it first finishes its own steps. `Calls` is the bound for it, and FewerCallsDoNotDo shows that it is reached.
- Expiry of the permanent-failure hold inside the watch loop, where the held message is noted again; the hold is stated for the streak alone.
- The order of equal versions in SemverTagsDesc, which the source leaves open too; Resolve allows each of them.
- ImageAuto.BumpsIncrease, TwoBumpsAtMost, ReplacementIsAllowed and RepositoryStays take the registry's tags to be plain names without colon, slash or at sign, as the OCI distribution specification requires.
- Regular expressions, JSON, CEL and metric queries, as predicates or answers.
- HTTP, gRPC, MCP, CLI and UI surfaces, git and kubectl subprocesses, plugin launch, TLS and the registry client.

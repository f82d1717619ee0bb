# Verified model of the kcore controller's decision logic

The kcore controller decides, tick by tick, what happens to a cluster: which
node an update touches next, where VMs restart after a host is lost, which
routes an ingress gateway serves, which Ceph member may leave. This project
models those decisions in Dafny and proves what holds over every input, every
run and every crash point. Replies of node agents, clocks and verdicts are
arbitrary inputs.

`dafny verify dfyconfig.toml` checks everything.

## Layout

| files | subject |
|---|---|
| `Canary`, `CanaryRules`, `Rollout`, `RolloutReconciler`, `RolloutSteps`, `RolloutOrder`, `RolloutFront`, `RolloutCanary`, `RolloutBypass`, `RolloutCrashes`, `RolloutProgress`, `RolloutDuties` | cluster update rollout |
| `RestartOrder`, `Admission`, `AdmissionReport`, `AdmissionSurvival`, `Lease`, `LeaseRuns`, `Fence` | VM high availability |
| `IngressSpec`, `IngressKubernetes`, `IngressPlan`, `IngressPlanner`, `IngressRender`, `IngressRenderer`, `IngressDials`, `IngressRouting`, `IngressTheorems`, `IngressBackends`, `IngressMirrors`, `IngressErrors`, `IngressSpoilers`, `IngressChecks`, `IngressConflicts`, `IngressCauses` | ingress planning and rendering |
| `WafEvents` | WAF event windows |
| `CephRemoval`, `CephDuties`, `CephSafety`, `CephRuns`, `CephInterleaved`, `CephApplies`, `CephLosses`, `CephRaces` | retiring Ceph members |
| `LastWriter`, `Trace` | last-writer-wins folds and the replication trace check |
| `Prelude`, `TextOrder` | options, string order, small sequence facts |

## How runs and crashes are modelled

A tick of the rollout, a pass of the Ceph reconciler and the apply of a Ceph
spec are each a function from the stored state and the outside world to the
list of calls and writes it makes. A crash, or an error that ends the
operation, leaves any prefix of that list. A run is any sequence of such
operations, each cut anywhere. The classes `RolloutReconciler.UpdateReconciler`
and `CephRemoval.Reconciler` perform the same operations step by step on mutable
state and are proved to perform exactly those lists.

In the rollout theorems every row starts `pending`, order and canary are fixed
and there are no operator commands. Nothing is assumed of the nodes: in any step
a node may lack an address, not report `nixos-generation`, be drained or not
answer. `RolloutOrder.Skipped` collects the nodes that a step passed over for such
a reason while it called a later node for the first time;
`RolloutFront.OneAtATimeIff` says exactly when there are none. The canary theorems
assume only that the canary itself can be worked on until its release
(`RolloutCanary.AlwaysReady`); `OthersCalledIff` is the exact converse for one
tick.

A Ceph pass reads the spec when it starts and the list of retired members later;
an apply reads the spec, then the list, and writes by what it has read. `CephRuns`
takes applies and passes one after the other. In `CephInterleaved`, `CephApplies`,
`CephLosses` and `CephRaces` one pass and any number of applies are under way at
once, and their reads, the events of the pass and the writes of each apply happen
in any order.

## Where the code does less than one would expect

- `confirming` is meant to end within its limit, but learning a new closure
  rewrites the row and restarts the limit: `ConfirmingCanOutlastItsLimit`, with
  the exact condition in `ConfirmingWaitsIff`.
- An activation can be repeated, with or without a crash: after a crash when it
  could not be confirmed or the node was drained
  (`DrainedNodeIsActivatedTwice`), and without one when the node did not report
  its generation (`UnreportingNodeIsActivatedTwice`). `NeverAgainIff` gives the
  exact condition.
- A canary that has no address, or was activated and has not reported its
  generation, is passed over: `UnaddressedCanaryIsBypassed`,
  `BootstrappingCanaryIsBypassed`, with `OthersCalledIff`. Missing generation
  reports alone can put two nodes in hand at once: `TwoNodesInHand`, with
  `OvertakenIff` for one tick and `OneAtATimeIff` for whole runs.
- Each heartbeat narrows the stored fence list, so a VM that was assigned to the
  host in any one heartbeat never has to be masked: `AssignedOnceIsEnough`, with
  `FirstReleaseIff` for what the heartbeat handler does and
  `ReleaseOfFixedHoldIff` for a list that is not narrowed.
- "sufficient" does not cover the loss of every choice of hosts, in memory
  (`SufficientCanMissALoss`) or in CPU (`SufficientCanMissTheCpu`):
  `SurvivesEveryIff` gives the exact condition and `SufficientIsExact` the
  clusters on which the verdict is right.
- Two controllers that have not heard each other both take a term:
  `SplitControllersShareATerm`, with `ExclusiveIffInformed`.
- The restart order can depend on the input order when two or more VMs reach a
  cycle: `OrderIndependentIff`.
- Mirrored Kubernetes routes are meant never to fail a gateway, but a kept one
  can: `WildcardMirrorFailsGateway`, with `MirrorsLeaveErrorsIff`.
- Prefixes are sorted by written length but matched without trailing slashes, so
  a shorter prefix can win: `SlashedPrefixShadows`, with `LongestPrefixWinsIff`.
- A Ceph apply cut short can drop a member's pending retirement without putting
  the member back: `CutApplyForgets`, with `CephRuns.NothingForgottenIff`; also
  after its teardown failed: `FailedTeardownIsForgotten`. A member dropped between
  the two reads of a pass is taken off the list (`DropDuringPassIsLost`), and one
  that was added while another apply was under way is dropped unlisted
  (`StoredOverUnseen`). `ClearLosesRemovalIff` and `CephLosses.NothingForgottenIff`
  are the exact conditions.
- A member put back while a pass is draining it is still torn down:
  `PutBackDuringPassIsTornDown`, with `TeardownHitsMemberIff`.
- Two applies that read the same list can both add to it: `TwoMembersListed`, with
  `OneRemovalAtATimeIff`.

## Model

| member | source | states |
|---|---|---|
| `RolloutOrder.EveryRunStaysInOrder` | crates/controller/src/cluster_update_reconciler.rs:100-728 | in every reachable state, crashes included, some node of the work order is the front: every node before it succeeded, or was passed over for want of an address or a generation report by a step that called a later node for the first time; every node after it was never called and is untouched, or cancelled because a node failed |
| `RolloutOrder.UnskippedRunsAreStrict` | crates/controller/src/cluster_update_reconciler.rs:100-728 | in a run that skipped nobody the order is succeeded nodes, then at most one node in hand or failed, then pending nodes, cancelled only behind a failed one |
| `RolloutFront.OvertakenIff` | crates/controller/src/cluster_update_reconciler.rs:146-157 | with nobody failed and the order kept so far, a complete tick calls a node behind the first unfinished one exactly when that one has no address or is bootstrapping and a later node has an address |
| `RolloutFront.StepLedIff` | crates/controller/src/cluster_update_reconciler.rs:82-157 | a step cut anywhere keeps the order exactly when it does not overtake: nobody failed, the front passed over, a later node addressed, and the step running past its opening and the front's own work |
| `RolloutFront.OneAtATimeIff` | crates/controller/src/cluster_update_reconciler.rs:82-730 | in every run each state has one node at the front, all before it succeeded and all behind it untouched, exactly when no step overtakes |
| `RolloutFront.SkippedNobodyIff` | crates/controller/src/cluster_update_reconciler.rs:82-730 | a run skips nobody exactly when no step overtakes |
| `RolloutFront.EquippedRunsAreInOrder` | crates/controller/src/cluster_update_reconciler.rs:146-157 | a run in which every node has an address and reports its generation in every step works on one node at a time and skips nobody |
| `RolloutOrder.FinishedUpdatesAreHonest` | crates/controller/src/cluster_update_reconciler.rs:100-129 | an update ends "succeeded" only with all nodes succeeded; it ends "failed" with every node settled, one failed, and all nodes behind the front cancelled, the front itself failed when nobody was skipped; it never ends "cancelled" on its own |
| `RolloutOrder.RunKeepsInv` | crates/controller/src/cluster_update_reconciler.rs:82-730 | every run of cut steps keeps the invariant: each row is untouched, cancelled after a failure or called; a called node has only finished or skipped nodes before it; the update's phase agrees with the rows |
| `RolloutSteps.TickStory` | crates/controller/src/cluster_update_reconciler.rs:82-157 | what a complete tick does to one node is its cancellation when a failure is on record and it has not started, its work when the walk reaches it, and nothing otherwise |
| `RolloutSteps.StepStory` | crates/controller/src/cluster_update_reconciler.rs:82-730 | a step cut anywhere adds to each node's history a prefix of what the complete tick would, and leaves the last row written |
| `RolloutSteps.ReachedIff` | crates/controller/src/cluster_update_reconciler.rs:146-157 | the walk reaches a node exactly when it has an address and every node before it is passed over |
| `RolloutSteps.WorkFollows` | crates/controller/src/cluster_update_reconciler.rs:157-725 | the work on one node writes only the phases the phase table allows next |
| `RolloutCanary.CanaryIsReleasedFirst` | crates/controller/src/cluster_update_reconciler.rs:850-917 | in a canary rollout of two or more nodes in which the canary has an address and is not waiting for its generation report until its release or failure, no other node is called before the canary was promoted by a pass verdict given a full soak after it was put to soak |
| `RolloutCanary.OthersCalledIff` | crates/controller/src/cluster_update_reconciler.rs:146-157 | while the canary leads, a complete tick calls another node exactly when the canary has no address or is bootstrapping, and some other node has an address |
| `RolloutCanary.EquippedCanaryIsReady` | crates/controller/src/cluster_update_reconciler.rs:467-485 | a canary with an address and a generation report in every step never waits for its report |
| `RolloutCanary.HeldCanaryHoldsTheRollout` | crates/controller/src/cluster_update_reconciler.rs:800-917 | a held or failed canary stays held or failed in every run in which it has an address while held, and no other node is ever called |
| `RolloutBypass.UnaddressedCanaryIsBypassed` | crates/controller/src/cluster_update_reconciler.rs:152-155 | from the start, a tick in which the canary has no address prepares another node before any release |
| `RolloutBypass.BootstrappingCanaryIsBypassed` | crates/controller/src/cluster_update_reconciler.rs:467-485 | from the start and without a crash, a canary activated without a generation report is passed over by the next tick |
| `RolloutBypass.TwoNodesInHand` | crates/controller/src/cluster_update_reconciler.rs:467-485 | from the start, without a crash and with every node addressed, five complete ticks leave the first two nodes prepared at once |
| `RolloutCrashes.ActivatedAtMostOnce` | crates/controller/src/cluster_update_reconciler.rs:309-397 | over any run with crashes, a node whose activations are all protected (straight from a prepared row with something to confirm, generation reported) gets at most one Activate call |
| `RolloutCrashes.NeverAgainIff` | crates/controller/src/cluster_update_reconciler.rs:1107-1109 | in any state and tick that activates a node, no cut of that tick and no continuation activates it again exactly when the row is prepared and may be confirmed and the node does not go to bootstrapping |
| `RolloutCrashes.UnrecordedCallIsRepeated` | crates/controller/src/cluster_update_reconciler.rs:309-435 | an activation with no confirming row before it is repeated by a crash right after the call and further ticks |
| `RolloutCrashes.BootstrappedNodeIsActivatedAgain` | crates/controller/src/cluster_update_reconciler.rs:467-485 | a node that goes to bootstrapping is prepared and activated again by complete ticks alone |
| `RolloutCrashes.UnreportingNodeIsActivatedTwice` | crates/controller/src/cluster_update_reconciler.rs:467-485 | from the start, without a crash, a node that reports its generation late is activated twice |
| `RolloutCrashes.DrainedNodeIsActivatedTwice` | crates/controller/src/cluster_update_reconciler.rs:399-435 | from the start, a drained node is activated twice by one crash right after the call |
| `RolloutProgress.StepMakesProgress` | crates/controller/src/cluster_update_reconciler.rs:82-730 | every step, cut anywhere, leaves all phases alone or strictly lowers a measure over the phases, unless a node starts over, which raises it by at most six |
| `RolloutProgress.RolloutsAreLinear` | crates/controller/src/cluster_update_reconciler.rs:82-730 | in any run at most 6n + 2 steps change anything, plus seven for each time a node starts over |
| `RolloutProgress.RebootingEnds` | crates/controller/src/cluster_update_reconciler.rs:942-964 | a complete tick settles a rebooting node that is past its limit |
| `RolloutProgress.ConfirmingWaitsIff` | crates/controller/src/cluster_update_reconciler.rs:486-553 | exactly when a complete tick leaves a confirming node waiting |
| `RolloutProgress.ConfirmEnds` | crates/controller/src/cluster_update_reconciler.rs:1114-1136 | confirming work settles the node when the agent failed or confirmation decided, and otherwise leaves it confirming |
| `RolloutProgress.RebootEnds` | crates/controller/src/cluster_update_reconciler.rs:554-666 | reboot work settles the node, leaves it, or has just requested the reboot, and settles it when overdue |
| `RolloutProgress.ConfirmingCanOutlastItsLimit` | crates/controller/src/cluster_update_reconciler.rs:1074-1102 | from the start and by complete ticks, for any number of limits there are replies under which a node stays confirming that long |
| `Rollout.WorkOrderIsPermutation` | crates/controller/src/cluster_update_reconciler.rs:133-142 | moving the canary to the front keeps every node exactly once |
| `RolloutDuties.FailedNodesWereRolledBack` | crates/controller/src/cluster_update_reconciler.rs:968-1057 | in every step, cut anywhere, of every run, a failed row written for a node that was confirming, awaiting or doing its reboot, soaking or awaiting promotion, and whose agent did not itself report failure, comes after the rollback call to that node, and after a reboot call behind it exactly when the previous generation has to be booted |
| `RolloutDuties.PrepareEnd` | crates/controller/src/cluster_update_reconciler.rs:158-256 | a pending node is called, and ends prepared with the closure and reboot flag of the reply, or failed exactly when preparing failed |
| `RolloutDuties.ActivateEnd` | crates/controller/src/cluster_update_reconciler.rs:257-398 | exactly when a prepared node is called, and exactly when it ends drained, failed, confirming, waiting for a reboot, bootstrapping or finished, and with which closure |
| `RolloutDuties.DrainedEnd` | crates/controller/src/cluster_update_reconciler.rs:399-435 | a drained node is called and waits to be ready exactly when its activation succeeded; otherwise it failed |
| `RolloutDuties.ReadyEnd` | crates/controller/src/cluster_update_reconciler.rs:436-466 | a node waiting to be ready is finished exactly when it is ready and uncordoned |
| `RolloutDuties.BootstrapEnd` | crates/controller/src/cluster_update_reconciler.rs:467-485 | a bootstrapping node goes back to pending exactly when it reports its generation |
| `RolloutDuties.ConfirmEnd` | crates/controller/src/cluster_update_reconciler.rs:486-553 | a confirming node is finished exactly when it answers, has switched and runs or booted the closure that is meant; it is failed exactly when its agent says so, or 1200 seconds passed unconfirmed and no new closure was learnt |
| `RolloutDuties.RebootEnd` | crates/controller/src/cluster_update_reconciler.rs:554-666 | a node at its reboot is finished exactly when it booted and activated the closure, failed exactly when its agent says so, 1800 seconds passed or the reboot could not be ordered, and a reboot is ordered exactly when it is needed, allowed and not yet done |
| `RolloutDuties.SoakEnd` | crates/controller/src/cluster_update_reconciler.rs:800-917 | a soaking canary is undone exactly on a failing verdict after 300 seconds or the soak if shorter, promoted exactly on a passing verdict after the full soak (3600 seconds by default), held exactly on an undecided one then; a held canary is only ever undone |
| `RolloutDuties.UndoEnd` | crates/controller/src/cluster_update_reconciler.rs:671-725 | a node being rolled back is failed, with no call, exactly when its schema is stuck; otherwise it is rolled back, rebooted when asked, and cancelled |
| `RolloutDuties.WritesAreStamped` | crates/controller/src/cluster_update_reconciler.rs:157-725 | every row written carries the time of its tick, so each limit counts from the write that began the phase |
| `RolloutDuties.UnstartedCancelledIff` | crates/controller/src/cluster_update_reconciler.rs:100-109 | a complete tick cancels a node that has not started, and then calls nobody there, exactly when a node failed and the update is not rolling back |
| `RolloutDuties.TickOpensAndEnds` | crates/controller/src/cluster_update_reconciler.rs:82-131 | a complete tick opens a ready update first, and ends it exactly when every node is settled or cancelled by this tick, as failed exactly when a node failed |
| `RolloutReconciler.UpdateReconciler.ReconcileUpdate` | crates/controller/src/cluster_update_reconciler.rs:82-730 | the imperative tick leaves the database and call log that the tick's event list describes |
| `RolloutReconciler.UpdateReconciler.WorkInOrder` | crates/controller/src/cluster_update_reconciler.rs:146-157 | the loop over nodes performs the walk's events: skip without an address, stop at the first arm that returns |
| `RolloutReconciler.UpdateReconciler.CancelAfterFailure` | crates/controller/src/cluster_update_reconciler.rs:100-109 | the cancelling loop writes exactly the unstarted rows as cancelled, in row order |
| `RolloutReconciler.UpdateReconciler.PrepareNode` | crates/controller/src/cluster_update_reconciler.rs:158-256 | prepare call, then the prepared or failed row |
| `RolloutReconciler.UpdateReconciler.ActivatePrepared` | crates/controller/src/cluster_update_reconciler.rs:257-398 | confirming is written before the activate call exactly when it can be confirmed later |
| `RolloutReconciler.UpdateReconciler.ActivateDrained` | crates/controller/src/cluster_update_reconciler.rs:399-435 | activate call on a drained node, then waiting-ready or failed |
| `RolloutReconciler.UpdateReconciler.ConfirmNode` | crates/controller/src/cluster_update_reconciler.rs:486-553 | refreshes the recorded closure, then finishes, reverts or waits |
| `RolloutReconciler.UpdateReconciler.RebootNode` | crates/controller/src/cluster_update_reconciler.rs:554-666 | finishes, reverts, waits or requests the reboot |
| `RolloutReconciler.UpdateReconciler.RebootStaged` | crates/controller/src/grpc/controller.rs:6378-6446 | the row says rebooting before the reboot call; a rejected reboot reverts, with the phase restored first unless that write is refused |
| `RolloutReconciler.UpdateReconciler.SoakNode` | crates/controller/src/cluster_update_reconciler.rs:800-892 | judges, then reverts, promotes, holds or waits |
| `RolloutReconciler.UpdateReconciler.FailAndRevert` | crates/controller/src/cluster_update_reconciler.rs:968-1057 | rollback call, reboot when asked, then the failed row |
| `RolloutReconciler.UpdateReconciler.UndoNode` | crates/controller/src/cluster_update_reconciler.rs:671-725 | undoing a node on rollback: stuck schema fails it, otherwise rollback, optional reboot, cancelled row |
| `Canary.PickIsSound` | crates/controller/src/canary.rs:63-120 | a canary is picked exactly for canary rollouts of two or more nodes; it is a controller only when all are; a named canary is picked exactly when the check accepts it; otherwise, also after a rejected name, a labelled one whenever a candidate is labelled |
| `CanaryRules.PickIs` | crates/controller/src/canary.rs:63-120 | the canary is the named node if it may lead, else the first labelled node of the order that may, else the first that may; a node may lead when it runs no controller or every node does |
| `CanaryRules.VerdictIff` | crates/controller/src/canary.rs:222-287 | the exact condition of every verdict and reason over the raw counts: off target; silent while a peer is live; down guests, or at least five faulted calls, more than ten points above the live peers' totals; OSDs slower than twice the peers' and by more than 20 ms over at least five samples; unknown exactly when on target and no peer is live; pass exactly otherwise |
| `Canary.VerdictIgnoresOrderAndDeadPeers` | crates/controller/src/canary.rs:222-287 | the verdict depends on the live peers only, in any order |
| `Canary.WorseCanaryStillFails` | crates/controller/src/canary.rs:222-287 | a failing canary fails with more guests down, more faulted calls or slower OSDs |
| `Canary.GoodPeerDoesNotRescue` | crates/controller/src/canary.rs:222-287 | adding a live peer no worse than the pooled shares never turns a failure into a pass |
| `RestartOrder.SortForRestart` | crates/controller/src/ha.rs:187-222 | the in-place sort leaves in the array the order the picking rule defines, which `IndependentVmsGoInOrder`, `ReadyVmsGoInOrder` and `RestartFollowsDependencies` describe by the VMs' fields |
| `RestartOrder.PickNext` | crates/controller/src/ha.rs:194-218 | the loop picks the best ready VM, or the first pending one when none is ready |
| `RestartOrder.OrderIsPermutation` | crates/controller/src/ha.rs:187-222 | the restart order is a permutation of its input |
| `RestartOrder.RestartFollowsDependencies` | crates/controller/src/ha.rs:187-222 | a VM whose chain reaches no cycle comes after every VM it names; with no cycle at all that holds for every VM |
| `RestartOrder.SoundIffNoCycle` | crates/controller/src/ha.rs:187-222 | a VM's chains all end exactly when it reaches no cycle of named VMs |
| `RestartOrder.ForcedOnlyAmongCycles` | crates/controller/src/ha.rs:206-218 | a VM is picked without being ready only when every VM left reaches a cycle, and then the first one left is taken |
| `RestartOrder.ReadyVmsGoByPriority` | crates/controller/src/ha.rs:176-222 | a VM that waits for none of the VMs from a position on is never better, by priority, memory and id, than the VM restarted at that position |
| `RestartOrder.NoDependenciesMeansSorted` | crates/controller/src/ha.rs:176-222 | without dependencies the order is sorted by priority rank, memory descending, id |
| `RestartOrder.ReadyVmsGoInOrder` | crates/controller/src/ha.rs:176-222 | the same by the VMs' own fields: a VM restarted before one that waits for nobody from there on is of no lower priority, of equal priority no smaller, of equal size with no greater id |
| `RestartOrder.IndependentVmsGoInOrder` | crates/controller/src/ha.rs:176-222 | without dependencies high goes before medium before low, then more memory, then the smaller id |
| `RestartOrder.OrderIndependentIff` | crates/controller/src/ha.rs:187-222 | with distinct ids the order is the same for every permutation of the input exactly when at most one VM reaches a cycle |
| `Admission.Assess` | crates/controller/src/ha.rs:339-434 | the report the loops build is the one the specification defines, in all cases |
| `AdmissionReport.ReportIs` | crates/controller/src/ha.rs:339-434 | exactly when the report is disabled, not applicable, sufficient or insufficient, with its figures and the failures it says are tolerated |
| `Admission.Reserve` | crates/controller/src/ha.rs:363-369 | the accumulating loop gives each host the sum of its protected VMs and ignores VMs on no listed host |
| `AdmissionReport.GuestCountsOnce` | crates/controller/src/ha.rs:363-369 | each guest adds its CPU and memory to its own host exactly once and only when protected, wherever it stands in the list |
| `Admission.GroupsPartition` | crates/controller/src/ha.rs:371-390 | the groups partition the eligible hosts: each in one group, together exactly when they share a domain |
| `AdmissionReport.GroupsAre` | crates/controller/src/ha.rs:371-390 | a host is grouped exactly when it can fail or survive, and two grouped hosts share a group exactly when they name the same failure domain |
| `Admission.DomainsFailWhole` | crates/controller/src/ha.rs:371-400 | hosts of one failure domain are lost or kept together |
| `Admission.LostGroupsAreHeaviest` | crates/controller/src/ha.rs:391-400 | with non-negative VM sizes no choice of at most `tolerate` groups reserves more memory than the lost groups |
| `AdmissionReport.LostGoFirst` | crates/controller/src/ha.rs:391-400 | when some group is kept, exactly `tolerate` are lost, and each lost group reserves more memory than each kept one, or equal memory and more CPU, or equal both and has the lower first host |
| `Admission.LostListedOnce` | crates/controller/src/ha.rs:400-402 | the flattened lost hosts are listed once each |
| `Admission.HeadroomIsRoomMinusCost` | crates/controller/src/ha.rs:404-413 | headroom after a loss is the headroom with nothing lost minus the cost of the lost hosts |
| `Admission.UniformReportIsExact` | crates/controller/src/ha.rs:363-413 | on equal survivors in no domain and not overcommitted, the reported headroom is that of losing any `tolerate` hosts |
| `AdmissionSurvival.SurvivesEveryIff` | crates/controller/src/ha.rs:391-434 | with non-negative VM sizes the cluster has the memory and the CPU after losing any choice of at most `tolerate` groups exactly when it has the memory after losing the groups that cost the most memory and the CPU after losing those that cost the most CPU |
| `AdmissionSurvival.SurvivorsAreSufficient` | crates/controller/src/ha.rs:391-434 | a cluster that survives every choice is reported sufficient |
| `AdmissionSurvival.SufficientIsExact` | crates/controller/src/ha.rs:391-434 | where a group that reserves more memory costs at least as much memory and CPU, the verdict is sufficient exactly when the cluster survives every choice |
| `AdmissionSurvival.UniformIsRankedByCost` | crates/controller/src/ha.rs:391-400 | equal survivors in no domain and not overcommitted meet that condition |
| `AdmissionSurvival.ChoiceCost` | crates/controller/src/ha.rs:391-413 | losing a choice of groups costs the sum of what each group costs |
| `AdmissionSurvival.SufficientCanMissTheCpu` | crates/controller/src/ha.rs:391-434 | a cluster reported sufficient that any one host can leave for memory but not for CPU |
| `Admission.SufficientCanMissALoss` | crates/controller/src/ha.rs:391-434 | a cluster reported sufficient for one failure that another single failure would overload |
| `Lease.HoldersNeverOverlap` | crates/controller/src/ha.rs:489-525 | on one shared row with peers and a forward clock, a lease of another holder begins only after the earlier one expired and has a higher term |
| `Lease.ActsIff` | crates/controller/src/ha.rs:489-525 | a controller waits exactly when it has peers and has not heard the nodes, lags, or another's lease runs; acting it keeps the term of its own running lease, takes the next one otherwise, and its lease runs for three renewals |
| `Lease.WrittenIff` | crates/controller/src/grpc/controller.rs:6893-6941 | with peers a lease, the controller's own, is written exactly when it hears the nodes, is up to date, nobody else's runs, and it renews a running one or may claim; with which term |
| `Lease.ReplicasConverge` | crates/controller/src/ha.rs:530-544 | replicas that folded the same leases, in any order and with repeats, hold the same greatest lease |
| `Lease.WritesMoveForward` | crates/controller/src/grpc/controller.rs:6893-6941 | every lease an acting controller writes is its previous row or newer than it |
| `Lease.ControllersAgree` | crates/controller/src/replication.rs:180-220 | in every run of renewing and exchanging controllers, two that have seen the same leases hold the same row, the newest of them |
| `Lease.NetRunKeepsInv` | crates/controller/src/grpc/controller.rs:6893-6941 | every replica holds the newest lease it has seen, in every run of writes and deliveries |
| `LeaseRuns.ChainIffInformed` | crates/controller/src/grpc/controller.rs:6893-6941 | in every run of controllers with a shared forward clock and fewer than 2^63 writes, the leases written form one chain (a live lease is only renewed by its holder, an expired one is taken once at the next term) exactly when every writer knows the newest lease, or that lease has expired and the writer knows one of its term |
| `LeaseRuns.ExclusiveIffInformed` | crates/controller/src/ha.rs:489-544 | in the same runs, leases of different controllers never overlap and a later one has a higher term, exactly when every writer was so informed |
| `LeaseRuns.DeliveredControllersExclude` | crates/controller/src/ha.rs:489-544 | when every lease sent reaches a controller before it next decides, leases of different controllers are never in force together and never share a term |
| `LeaseRuns.SplitControllersShareATerm` | crates/controller/src/ha.rs:489-544 | any two controllers that have not heard each other both hold a running lease of term 1; exchange settles it for the greater id |
| `LastWriter.FoldIsGreatest` | scripts/check-replication-trace.py:17-32 | folding a last-writer rule over a total order keeps a greatest element |
| `LastWriter.FoldsAgree` | scripts/check-replication-trace.py:17-32 | two folds over lists with the same keys end on the same key |
| `Trace.CheckTrace` | scripts/check-replication-trace.py:46-107 | the loop leaves the head of every resource and exactly the listed errors |
| `Trace.HeadIsGreatest` | scripts/check-replication-trace.py:17-32 | the head of a resource is one of its events and none of them beats it |
| `Trace.HeadIsUnbeaten` | scripts/check-replication-trace.py:17-32 | the head of a resource is one of its events, and no event of it has a greater rank, or equal rank and later time, and so on by controller and op |
| `Trace.ErrorsIff` | scripts/check-replication-trace.py:46-107 | an error is listed exactly when the event it names is wrong in that way: a key missing, a state outside its allowed set, a compensation that does not fit, or an expected winner that is not the head so far |
| `Trace.CheckEvent` | scripts/check-replication-trace.py:60-105 | one turn of the loop: the head of the event's resource is updated and the event's errors are appended |
| `Trace.WinnersAgree` | scripts/check-replication-trace.py:98-101 | traces with the same events for a resource, in any order and with repeats, name the same winning op |
| `Fence.MergePlacementReports` | crates/controller/src/ha.rs:52-60 | the merging loop keeps the current reports and appends prior ones not yet listed |
| `Fence.MergeMembers` | crates/controller/src/ha.rs:52-60 | merged reports start with the current ones and hold exactly what either list held |
| `Fence.NothingRemainsIff` | crates/controller/src/ha.rs:62-88 | nothing keeps a fence up exactly when every held VM is masked or assigned |
| `Fence.FirstReleaseIff` | crates/controller/src/grpc/controller.rs:8594-8648 | over heartbeats with the stored list narrowed as the handler does, the fence is first lifted exactly when the settled report was seen and every held VM was cleared in some heartbeat; otherwise the hold lists exactly the missing ones |
| `Fence.HeldIffNeverCleared` | crates/controller/src/grpc/controller.rs:8594-8648 | while the fence stays up the stored list is exactly the held VMs never cleared |
| `Fence.BeatIs` | crates/controller/src/grpc/controller.rs:8594-8648 | one heartbeat ends the hold exactly when settled was reported, every held VM is assigned or masked, and Ceph accepted; otherwise the VMs not yet seen stay held and no report is lost |
| `Fence.ReleaseOfFixedHoldIff` | crates/controller/src/ha.rs:52-88 | with the full list the decision lifts the fence exactly when settled was reported and every held VM was masked in some heartbeat or is assigned now |
| `Fence.ReleaseIsRetried` | crates/controller/src/grpc/controller.rs:8594-8648 | a release that could not be carried out is decided again at the next heartbeat with the same assignments |
| `Fence.AssignedOnceIsEnough` | crates/controller/src/grpc/controller.rs:8594-8648 | a VM assigned in one heartbeat and in no later one is released unmasked |
| `WafEvents.EveryEventIsAccountedFor` | crates/controller/src/ingress_events.rs:46-105 | over any records and drains every event of a slot is in exactly one sent or open window; counts add up; tracked keys are counted exactly, at most 1024 of them; windows are sent only when due |
| `WafEvents.SentAfterAMinute` | crates/controller/src/ingress_events.rs:76-105 | a drain sends all open events of a slot exactly when the first of them is at least 60 seconds old, and otherwise changes nothing |
| `WafEvents.ReportsAre` | crates/controller/src/ingress_events.rs:76-116 | the summaries of a drain are for exactly the windows at least 60 seconds old, by route and blocked before detected, each with its five largest counts, larger first and then smaller keys, and nothing larger left out |
| `WafEvents.Top` | crates/controller/src/ingress_events.rs:108-116 | the summary lists the five largest counts, ties by key, in order |
| `WafEvents.SummarizeAll` | crates/controller/src/ingress_events.rs:84-103 | one summary for each due window with its count, age and top lists |
| `WafEvents.WafAggregator.RecordHit` | crates/controller/src/ingress_events.rs:49-73 | the mutable windows stay those of the recorded history with this event added |
| `WafEvents.WafAggregator.DrainDue` | crates/controller/src/ingress_events.rs:76-105 | exactly the due windows are removed and reported; the others stay |
| `IngressSpec.ValidateRoute` | crates/controller/src/ingress_spec.rs:634-735 | the validating loops accept exactly the valid routes: distinct hosts ignoring case and the rules of the route's kind |
| `IngressSpec.ValidateHttpRoute` | crates/controller/src/ingress_spec.rs:651-671 | hosts, no TCP fields, at least one path, plain distinct prefixes, each with a backend |
| `IngressSpec.CheckHostConflicts` | crates/controller/src/ingress_spec.rs:970-1002 | the owner map and port map find the first conflict in iteration order |
| `IngressSpec.NoConflictIffCompatible` | crates/controller/src/ingress_spec.rs:968-1002 | no conflict is found exactly when HTTP hosts are claimed once and every TCP port has distinct SNI names and no catch-all beside another route |
| `IngressChecks.ValidRouteIff` | crates/controller/src/ingress_spec.rs:634-735 | a route is valid exactly when its fields fit: hosts apart ignoring ASCII case, and the path rules of HTTP or the port and backend rules of TCP, character by character |
| `IngressChecks.CompatibleIff` | crates/controller/src/ingress_spec.rs:968-1002 | routes are compatible exactly when no two HTTP routes have a host in common and two TCP routes on a port both list names, none in common |
| `IngressConflicts.ConflictIsReal` | crates/controller/src/ingress_spec.rs:970-1002 | a reported conflict is so: the host is listed twice, by the two routes named, or a TCP route without names shares its port, or a name is listed twice on a port |
| `IngressPlanner.PlanGateway` | crates/controller/src/ingress_reconciler.rs:142-358 | the passes over nodes, routes, policies and backends and the two renderings give the plan the specification defines |
| `IngressChecks.ErrorFreeIff` | crates/controller/src/ingress_reconciler.rs:142-333 | a plan has no errors exactly when nothing stored is unreadable, the gateway has one or two different registered nodes and its default policy is good, every kept route fits, has its certificates, policy, listener and backend addresses, and no host is served twice |
| `IngressCauses.ErrorsAreCaused` | crates/controller/src/ingress_reconciler.rs:142-333 | for a valid gateway each error is in the plan exactly when its cause is there, by the rows and the fields of the kept routes |
| `IngressCauses.StandbyIsTheSame` | crates/controller/src/ingress_reconciler.rs:334-358 | the standby has the entries and TCP servers of the active node and obtains no certificate |
| `IngressBackends.VmResolvesIff` | crates/controller/src/ingress_reconciler.rs:468-536 | a VM backend resolves, to its address and the port asked for, exactly when the first VM of that name has an address and its network is an overlay every gateway node joined, a bridge, or else the VM is on a gateway node |
| `IngressBackends.ResolvesToOffered` | crates/controller/src/ingress_reconciler.rs:468-536 | VM, container and Kubernetes backends resolve to exactly the addresses the stored rows and cluster answers offer |
| `IngressBackends.ErrorFreePlansAreUsable` | crates/controller/src/ingress_reconciler.rs:304-333 | every backend of a kept route of an error-free plan has an address |
| `IngressBackends.UnusableBackendIsAnError` | crates/controller/src/ingress_reconciler.rs:304-333 | a backend of a kept route without an address is reported, with its route |
| `IngressBackends.RequestsReachTheirBackends` | crates/controller/src/ingress_reconciler.rs:142-358 | in an error-free plan whose nested prefixes sort inner first, every request is dialled at exactly the addresses offered by the backends of the longest covering prefix of the route that owns its host, on the active and the standby node; without such a prefix nothing matches |
| `IngressPlanner.DropTroubled` | crates/controller/src/ingress_reconciler.rs:170-219 | removing mirrored routes while looping keeps the routes the filter defines |
| `IngressPlanner.HasProblem` | crates/controller/src/ingress_reconciler.rs:184-213 | a mirrored route has a problem exactly when it is invalid, a backend does not resolve, its policy is missing, or an operator route or a smaller mirrored one has one of its hosts |
| `IngressPlanner.ResolveBackends` | crates/controller/src/ingress_reconciler.rs:304-333 | the map given to the renderer holds each resolving backend's addresses, and each other backend is an error |
| `IngressPlanner.CheckPolicies` | crates/controller/src/ingress_reconciler.rs:261-272 | every used policy that is missing or invalid is an error, in name order, and the existing ones reach the renderer |
| `IngressRenderer.RenderCaddy` | crates/controller/src/ingress_render.rs:66-169 | the rendering loops give the entries, TCP servers, certificate hosts and first error the specification defines |
| `IngressRenderer.RenderTcp` | crates/controller/src/ingress_render.rs:174-228 | TCP routes grouped by port, ascending, named routes before the catch-all, or the first error |
| `IngressRenderer.RenderRoute` | crates/controller/src/ingress_render.rs:305-368 | patterns, WAF policy and dial addresses of one path, or the first error |
| `IngressDials.DialsAre` | crates/controller/src/ingress_render.rs:404-491 | backends render exactly when each has an address, and to all their addresses and no other |
| `IngressDials.RenderedPathIs` | crates/controller/src/ingress_render.rs:305-404 | the entry of a path has its route's hosts, the route's own policy or else the gateway's unless inspection is off, and exactly the addresses of the path's backends |
| `IngressDials.TcpServersAre` | crates/controller/src/ingress_render.rs:174-228 | the server of a port has an entry for exactly the TCP routes on it, those with names first, each dialling exactly its backends |
| `IngressDials.TcpPortsAreServed` | crates/controller/src/ingress_render.rs:174-228 | every TCP route that renders has a port and a server on it |
| `IngressDials.CertificatesIff` | crates/controller/src/ingress_render.rs:66-169 | a host gets a certificate exactly on an issuing node and when an HTTP route lists it |
| `IngressMirrors.MirrorKeptIff` | crates/controller/src/ingress_reconciler.rs:176-219 | a mirrored route is kept exactly when it has no problem of its own and shares no host with a kept operator route or a kept smaller mirrored route |
| `IngressChecks.MirrorKeptByFields` | crates/controller/src/ingress_reconciler.rs:176-219 | the same by fields: its fields fit, its backends have addresses, its policy exists, and no kept operator route and no kept mirrored one of a smaller name has one of its hosts |
| `IngressMirrors.SurvivorsAreKept` | crates/controller/src/ingress_reconciler.rs:176-219 | the filter keeps a mirrored route exactly when it has no problem of its own and shares no host with an operator route or with a mirrored route of a smaller name that is itself kept, in terms of the routes given |
| `IngressMirrors.FilterKeepsOperators` | crates/controller/src/ingress_reconciler.rs:176-219 | operator routes all stay, in order |
| `IngressMirrors.FilterIsTidy` | crates/controller/src/ingress_reconciler.rs:176-219 | kept mirrored routes are valid, resolve, and share no host with any other kept route |
| `IngressErrors.ConflictsSame` | crates/controller/src/ingress_spec.rs:970-1002 | with mirrored routes apart, the host check returns for all routes what it returns for the operator's |
| `IngressSpoilers.HostCheckSame` | crates/controller/src/ingress_reconciler.rs:176-227 | after the filter the host check says of all routes exactly what it says of the operator's |
| `IngressSpoilers.MirrorsLeaveErrorsIff` | crates/controller/src/ingress_reconciler.rs:176-358 | for a valid gateway the plan's errors equal those with operator routes only, exactly when no mirrored route that survives the filter has a wildcard host without dns01 or an invalid policy nothing else uses |
| `IngressSpoilers.HarmlessMirrors` | crates/controller/src/ingress_reconciler.rs:176-358 | with dns01 or no wildcard mirrors, and valid stored policies, mirrored routes leave the plan's errors as they are |
| `IngressSpoilers.WildcardMirrorFailsGateway` | crates/controller/src/ingress_reconciler.rs:228-236 | on a valid gateway with registered nodes and no dns01, one mirrored wildcard route to a Kubernetes service that resolves is the only error, and nothing is rendered; without it there is no error |
| `IngressTheorems.ErrorFreePlansRender` | crates/controller/src/ingress_reconciler.rs:334-358 | a plan is rendered exactly when it has no errors, and its standby too where the gateway is replicated |
| `IngressTheorems.CheckedRoutesRender` | crates/controller/src/ingress_render.rs:66-204 | routes that pass the checks render, for issuing and standby nodes alike |
| `IngressKubernetes.DialsWhatIsOffered` | crates/controller/src/ingress_kubernetes.rs:184-290 | a Kubernetes backend resolves to exactly the addresses the cluster offers on the wanted port (load balancer, ready workers, endpoints not marked unready), and fails when there is none |
| `IngressKubernetes.PodDials` | crates/controller/src/ingress_kubernetes.rs:250-279 | the nested loops collect the addresses of endpoints not marked unready on the port of their slice |
| `IngressKubernetes.ResolveOne` | crates/controller/src/ingress_kubernetes.rs:717-743 | the mode's dial function with every error path; never an empty list |
| `IngressRouting.LongestPrefixWinsIff` | crates/controller/src/ingress_render.rs:90-111 | for accepted routes every request gets the entry of the longest segment-wise prefix of the one route that owns its host, with that route's policy and exactly the addresses of that path's backends, and nothing exactly when no prefix covers it, if and only if nested prefixes sort inner first |
| `IngressRouting.TidyPrefixesAreNested` | crates/controller/src/ingress_render.rs:100-108 | prefixes without trailing slashes, and "/", always sort inner first |
| `IngressRouting.SlashedPrefixShadows` | crates/controller/src/ingress_render.rs:312-317 | a route with prefixes "/a///" and "/a/b" serves the request for "/a/b" from the entry of "/a///" |
| `IngressRouting.FirstOfGateway` | crates/controller/src/ingress_render.rs:87-111 | the first matching entry is some owning route's foremost covering path, and there is none exactly when no owning route covers the path |
| `IngressRouting.PatternsCover` | crates/controller/src/ingress_render.rs:312-317 | the rendered path patterns match exactly the paths the prefix covers segment by segment |
| `CephRemoval.PlanMemberRemoval` | crates/controller/src/ceph_cluster_spec.rs:158-250 | each issue is listed exactly when its condition holds, and none exactly when at most one member leaves a healthy cluster with `size` hosts left and no other removal open |
| `CephDuties.ApplyIff` | crates/controller/src/grpc/controller.rs:16838-16899 | a new spec is stored exactly when it is well formed, differs, passes the host checks, keeps the encryption, and leaves out nobody or exactly one member of a healthy cluster that has `size` hosts without it and retires nobody else |
| `CephDuties.MemberWorkIs` | crates/controller/src/ceph_cluster_reconciler.rs:280-387 | exactly when the pass asks a member to tear down, removes its monitor, takes it off the list and goes on to the next |
| `CephDuties.PassStopsAtTheFirst` | crates/controller/src/ceph_cluster_reconciler.rs:271-325 | a pass takes every member before the first it is not done with off the list and does nothing about the members behind that one |
| `CephRemoval.Reconciler.RetireRemovedMembers` | crates/controller/src/ceph_cluster_reconciler.rs:271-325 | the loop over retired members makes exactly the calls and writes of the specified pass, stopping at the first failure |
| `CephRemoval.Reconciler.Retire` | crates/controller/src/ceph_cluster_reconciler.rs:280-323 | a member back in the spec is only cleared; another is drained, then torn down |
| `CephRemoval.Reconciler.Drain` | crates/controller/src/ceph_cluster_reconciler.rs:333-387 | asks the first survivor and goes on only after a clean report |
| `CephRemoval.Reconciler.Tear` | crates/controller/src/ceph_cluster_reconciler.rs:287-322 | teardown, monitor removal through the survivor, and only then the list entry cleared |
| `CephRuns.EveryEventIsSafe` | crates/controller/src/ceph_cluster_reconciler.rs:271-387 | at every moment of every run with crashes at most one member waits to be retired, and only allowed events happen |
| `CephRuns.TeardownFollowsCleanDrain` | crates/controller/src/ceph_cluster_reconciler.rs:286-296 | a host is torn down only right after a member of the stored spec reported its drain clean, and never while it is a member |
| `CephRuns.StoredChangesLeaveEnoughHosts` | crates/controller/src/grpc/controller.rs:16838-16899 | a stored spec that drops members drops exactly the one listed for retirement and leaves at least `size` hosts |
| `CephRuns.NothingForgottenIff` | crates/controller/src/grpc/controller.rs:16857-16899 | after every step each dropped member not yet torn down is still listed, exactly when no apply is cut after clearing such a member and before storing the spec |
| `CephRuns.CutApplyForgets` | crates/controller/src/grpc/controller.rs:16857-16899 | a run of three applies, the last cut, that loses a pending retirement |
| `CephInterleaved.TeardownHitsMemberIff` | crates/controller/src/ceph_cluster_reconciler.rs:36-325 | with any number of applies under way, a host is torn down only right after a member of the spec the pass read reported its drain clean, and never a member of that spec; it is a member of the stored spec exactly when a spec was stored since the pass read and the last one lists it |
| `CephInterleaved.RunKeepsInv` | crates/controller/src/ceph_cluster_reconciler.rs:36-325 | the store holds the last spec stored since the running pass read, or the one it read, and what the pass still has to do is in order by the spec it read |
| `CephApplies.OneRemovalAtATimeIff` | crates/controller/src/grpc/controller.rs:5190-5225 | in every such run at most one member waits to be retired at any moment, exactly when no apply lists a member while another is listed |
| `CephApplies.CurrentListsNeverCollide` | crates/controller/src/grpc/controller.rs:5213-5224 | that never happens when nobody was listed between an apply's read of the list and its writes |
| `CephApplies.StoredChangeIsSafe` | crates/controller/src/grpc/controller.rs:16838-16899 | an apply that stores its spec over members it has seen drops at most one, which is listed, and leaves `size` hosts |
| `CephLosses.ClearLosesRemovalIff` | crates/controller/src/ceph_cluster_reconciler.rs:277-323 | a pass clears a member of the spec it read or one whose teardown it has just finished; a removal is lost by it exactly when the last spec stored since the read does not list the member although the read one, the one stored at the teardown or one stored since did |
| `CephLosses.WritesLoseIff` | crates/controller/src/grpc/controller.rs:16857-16899 | an apply loses a removal exactly when it is cut after clearing a member dropped and not torn down, or stores its spec over a member it has not seen and that is not listed |
| `CephLosses.NothingForgottenIff` | crates/controller/src/ceph_cluster_reconciler.rs:36-325 | in every such run dropped members stay listed until a teardown of them has finished, exactly when no apply and no pass loses one so |
| `CephLosses.RunKeepsOwing` | crates/controller/src/ceph_cluster_reconciler.rs:36-325 | in every such run the members dropped and not torn down since are accounted for by the spec the pass read, the specs stored since and its last finished teardown |
| `CephRaces.PutBackDuringPassIsTornDown` | crates/controller/src/ceph_cluster_reconciler.rs:285-296 | from the empty store: an apply after the clean drain report puts the member back and the pass tears it down as a member |
| `CephRaces.DropDuringPassIsLost` | crates/controller/src/ceph_cluster_reconciler.rs:277-284 | from the empty store: an apply after the pass read the spec drops a member, and the pass takes it off the list again |
| `CephRaces.FailedTeardownIsForgotten` | crates/controller/src/ceph_cluster_reconciler.rs:287-300 | from the empty store: a member whose teardown failed is put back by an apply cut before the spec is stored, and is in no spec and on no list |
| `CephRaces.TwoMembersListed` | crates/controller/src/grpc/controller.rs:16857-16899 | from the empty store: two applies that read the same list put two members on it |
| `CephRaces.StoredOverUnseen` | crates/controller/src/grpc/controller.rs:16857-16899 | from the empty store: an apply stores its spec over a member added since it read, which is then in no spec and on no list |

## Left out

- Dashboard, authentication, configuration, certificate rotation, object store and host volume specs: finite tables and validation that would add only easy members.
- gRPC transport, the database, timers, webhooks and logging: replies are arbitrary inputs and rows are state.
- Operator commands on updates (create, cancel, promote, roll back): only the arm that undoes a node is modelled, and no theorem runs through it.
- Computing the rollout order: the order is an arbitrary fixed one that lists every node once.
- Kubernetes and Slurm drains during an update: their outcome is an arbitrary input of the tick.
- JSON, Nix and WAF directive text, hashes, PEM: entries keep what decides matching, policy and addresses.
- Single-setting checks of routes, paths and gateways (host name syntax, listeners, durations, TLS bundles, headers): one flag per document.
- Warnings of a plan, dial lists per route and the choice of the node that may issue certificates.
- Interleaving inside the writes of one Ceph apply: its edits of the list and the stored spec, possibly cut, are one step.
- Parsing of Kubernetes replies, the order of pod addresses and their repeats: what a service, its workers and its slices say is given.
- Texts of error messages: errors keep their kind and the names they mention.
- Judge: exact rational arithmetic instead of floating point.
- Admission and WAF counters: unbounded integers, no 64-bit overflow.
- SurvivesEveryIff: takes VM sizes as non-negative, as sizes of VMs are; so do SufficientIsExact and LostGroupsAreHeaviest.
- ChainIffInformed: is for fewer than 2^63 leases, below the value at which terms stop growing; so are ExclusiveIffInformed and DeliveredControllersExclude.
- LongestPrefixWinsIff: hosts match by equality ignoring case and paths match as written, so wildcard hosts match no request and the proxy's own case folding of paths is not modelled; lengths are counted in characters.
- MirrorsLeaveErrorsIff: takes mirrored routes to be HTTP routes, the only kind the mirror builds (crates/controller/src/ingress_kubernetes.rs:441-457).
- WrittenIff: is for terms below the 64-bit limit, at which terms stop growing; ActsIff states the saturated values it covers.
- RequestsReachTheirBackends: takes the prefixes to be nested in order, the exact condition of LongestPrefixWinsIff.
- Label parsing and trimming of text: names, domains and addresses are taken as already trimmed.

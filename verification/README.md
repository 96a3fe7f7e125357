# lok8s reconciliation core, verified

lok8s is a single-host, Kubernetes-like control plane: deployments and ReplicaSets are reconciled on timers, pods
are native processes with host ports and projected volumes, services are local proxies. This project models its
decision-making core in Dafny and proves what that core keeps over whole runs. `dafny verify dfyconfig.toml` checks
everything.

The program's mutable objects are classes whose methods are proved against specification functions or relations on
values; the properties are then lemmas about those, over every input, run or reachable state. What the small
predicates in them mean is proved too, of the operations and in phases, policies, namespaces and counts. Sockets,
processes, the disk and the clock are outcomes handed to each operation.

| part | files |
|---|---|
| shared objects, sums over maps, int64 wrap-around | `ApiTypes`, `ControllerStore`, `Totals`, `Int64` |
| one deployment reconcile, one ReplicaSet reconcile | `DeploymentController`, `DeploymentEffect`, `ReplicaSetController`, `ReplicaSetEffect` |
| the two controllers together, over runs | `Rollout`, `Surge`, `Availability`, `Convergence`, `RoundExistence`, `EditAvailability`, `RolloutInCounts` |
| log buffer, tail, line prefixes | `LogLines`, `RingBuffer`, `PrefixWriter` |
| ports, volumes, pod lifecycle, services, recovery, cascading delete | `PortPool`, `Volumes`, `Lifecycle`, `ServiceProxy`, `PortConservation`, `ApiServer`, `CascadeDelete`, `Recovery`, `RestartAfterRun`, `RecoveryConservation` |
| probes, restarts, process table | `Probe`, `Backoff`, `RestartMonitor`, `NativeEngine` |
| selectors | `Strings`, `Selector` |

## What was found

* From every well-formed state the two controllers can do any number of rounds (`RoundExistence.RoundsExist`), and they
  bring a rollout to its end if and only if no old ReplicaSet exists or the new one does not have to shrink
  (`RoundExistence.CanConvergeIff`). Old ReplicaSets are never deleted by the controllers and the new one only grows
  next to them (controller/deployment.go:118-129), so lowering the desired count of any converged deployment that has
  an old ReplicaSet has no effect (`RoundExistence.LoweredHasNoEffect`), and two rollouts from nothing lead to such a
  deployment (`RoundExistence.ReachesConvergedWithOld`).
* While the template stays and no pod fails, a rollout that starts with the desired number of ready pods keeps them
  through every interleaving of the controllers (`Availability.RolloutKeepsAvailable`). An edit or rollback in the
  middle of it keeps them, through everything that can follow, if and only if the ReplicaSet that was the new one has
  ready what it asks for and the one that becomes it has no more pods than it asks for and reports no more than it has
  ready, or that one asks for the desired count already (`EditAvailability.EditKeepsAvailableIff`). An edit right after
  the first reconcile of a rollout is one that can cost availability (`EditAvailability.EditTooSoon`).
* A ReplicaSet reconcile indexes below zero, after deleting every active pod, if and only if the replica count is
  negative, unless a deletion is refused first (`ReplicaSetController.Controller.Reconcile`;
  controller/replicaset.go:149-150).
* A port reservation for a holder that has another port loses the old port for ever; the pool's two maps stay
  inverse over a run if and only if no such reservation happens (`Ports.RunMutual`, `Ports.OrphanForever`).
* Pods and services share one space of pool keys. Ports are conserved over every run if and only if no pod and service
  have the same namespace and name (`PortConservation.ConservedIffDisjoint`).
* Recovery gives every relaunched pod its recorded port back, over every restart with given records, if and only if no
  two keys have the same port recorded and below each recorded port of the range there are unrecorded ports enough for
  all pods that want a port and have none recorded (`Recovery.RestoresIff`). Only services and running or pending pods
  count; the port that a failed pod is still stored with does not. After any run of launches, deletions and services
  in which no service binds a port of the pool's range by itself, the records are like that, and a restart gives every
  relaunched pod the port it had (`RestartAfterRun.RestartRestoresPorts`). Otherwise records can collide: a service
  binds the port it asks for beside the pool, which may give it to a pod as well; both record it, and after a restart
  the pod is on another port (`Recovery.BoundPortIsShared`).
* A recovered service that can bind the port it asks for listens there, whatever port it has recorded
  (`RecoveryConservation.ServiceListensIff`; service/proxy.go:204-209). The recorded one was reserved before and stays
  so. With distinct records, ports are conserved after a restart if and only if that happens to no service, and no
  recovered pod has a port recorded without asking for one (`RecoveryConservation.ConservedAfterRestartIff`).
* The restart backoff is what it is meant to be for the first 30 restarts. At the 31st the int64 product is negative,
  and from the 55th on it is 0 (`Backoff.ZeroFromThe55th`); in general it is right if and only if one bit of 5^10 is
  clear (`Backoff.AsIntendedIff`).
* The ring buffer returns nothing once its int64 byte counter has come round to 0, although it is full
  (`RingBuffer.RingBuffer.ReadAll`).
* The process table is faithful all through a run if and only if no start stores over an entry that says Running by
  then (`NativeEngine.FaithfulIffNeverOverruns`). The code checks this only before it starts the process: two starts
  of one name that are both checked before either is stored leave two processes, and the end of one is shown as the end
  of the other (`NativeEngine.RacingStarts`).
* Deleting a deployment is complete and precise, whichever deployment it is, if and only if every managed pod is stored
  with its own owner as far as ReplicaSets own them (`CascadeDelete.CompleteIff`). A launch under the key of a managed
  pod with another owner fails, but replaces what is stored (api/handler.go:59-64, api/server.go:228-258); the managed
  pod then outlives its deployment (`CascadeDelete.OutlivesItsDeployment`).

## Model

| member | source | states |
|---|---|---|
| DeploymentController.Controller.Reconcile | controller/deployment.go:61-197 | The new store is the specified transform of some listing of the old one, and the stored status holds the sums over the ReplicaSets owned afterwards |
| DeploymentController.Controller.MoveReplicas | controller/deployment.go:71-166 | New ReplicaSet created or grown by one, old ones capped, or set to the desired count when alone; deployments untouched |
| DeploymentController.Controller.Classify | controller/deployment.go:68-80 | The last owned ReplicaSet with the hash is the new one, the owned ones without it are the old ones |
| DeploymentController.Controller.CreateAndGrow | controller/deployment.go:82-129 | One more replica per reconcile up to the desired count while old ReplicaSets exist, the desired count otherwise |
| DeploymentController.Controller.ScaleDown | controller/deployment.go:131-156 | The loop stores each old ReplicaSet with its share of what remains |
| DeploymentController.Controller.RefreshStatus | controller/deployment.go:168-192 | The status sums are the sums over exactly the owned ReplicaSets |
| DeploymentController.FindNewIs | controller/deployment.go:72-80 | A new ReplicaSet is found exactly when an owned one carries the hash |
| DeploymentController.OldsAre | controller/deployment.go:72-80 | The old ones are exactly the owned ones without the hash |
| DeploymentController.ListingShowsOwned | controller/deployment.go:170-183 | A listing in any order shows exactly the owned ReplicaSets |
| DeploymentEffect.SharesTotal | controller/deployment.go:138-156 | The greedy loop hands out exactly the smaller of the allowance and the old total, for any number of old ReplicaSets |
| DeploymentEffect.OldTotalCapped | controller/deployment.go:131-156 | After a reconcile the old specs total min(old total, max(0, desired - reported ready)), in any listing order |
| DeploymentEffect.ReconciledAt | controller/deployment.go:61-166 | Key by key: the new ReplicaSet moves by the rule, old ones are never raised, all others stay as they were |
| DeploymentEffect.ReconcileMoves | controller/deployment.go:61-166 | A reconcile is described without the order in which it read the store |
| DeploymentEffect.FirstReconcile | controller/deployment.go:62-129 | A deployment that owns nothing gets one ReplicaSet, with the count it asks for, or 1 if it does not say |
| DeploymentEffect.LaterReconcile | controller/deployment.go:82-129 | The new ReplicaSet is set to that count when alone; beside old ones it is created with 1 or raised by one up to that count; an unset count of its own is 0 |
| DeploymentEffect.OldReconciled | controller/deployment.go:131-156 | One old ReplicaSet keeps what the reported ready replicas leave of that count |
| DeploymentEffect.NothingReported | controller/deployment.go:168-192 | A deployment that owns nothing reports all it asks for as unavailable |
| DeploymentEffect.OneMoreReported | controller/deployment.go:173-192 | Each owned ReplicaSet adds its replicas and ready replicas; available is ready, and unavailable what is missing of the count |
| ReplicaSetController.Controller.Reconcile | controller/replicaset.go:70-165 | Pods and store change as specified for each of success, failed launch, failed delete and index panic; the panic happens exactly for a negative replica count, unless a delete is refused first |
| ReplicaSetController.Controller.AdjustPods | controller/replicaset.go:70-161 | The pods change as specified and the status is the recounted or the wanted one |
| ReplicaSetController.Controller.CountActive | controller/replicaset.go:73-85 | The loop counts exactly the owned pods that have not ended, and the ready ones among them |
| ReplicaSetController.Controller.LaunchMissing | controller/replicaset.go:94-130 | Exactly the missing number of pods is added with the template's spec, labels and port annotation, a UID and the owner, or fewer with the last one failed |
| ReplicaSetController.Controller.DeleteSurplus | controller/replicaset.go:146-154 | Exactly the surplus is deleted, or fewer on a refused delete, or all of them before the index panic |
| ReplicaSetEffect.CompletedIsExact | controller/replicaset.go:92-162 | Success leaves exactly the wanted number of active pods and reports it |
| ReplicaSetEffect.CompletedInPhases | controller/replicaset.go:72-162 | After success the owned pods that neither succeeded nor failed are exactly as many as asked for, 1 if unset |
| ReplicaSetEffect.EndedAreReplaced | controller/replicaset.go:73-130 | When all owned pods have succeeded or failed, exactly as many new ones are added, and nothing is deleted |
| ReplicaSetEffect.ReportedReadyPods | controller/replicaset.go:73-160 | The reported ready count is that of owned pods, not ended, whose first container is ready, after launching or from before deleting |
| ReplicaSetEffect.FailedLaunchIsStored | controller/replicaset.go:124-129 | A launch error leaves a new owned pod in phase Failed and every old pod as it was |
| ReplicaSetEffect.NeverTooMany | controller/replicaset.go:94-155 | No outcome leaves more active pods than were there or were wanted; a failed launch leaves fewer than wanted |
| ReplicaSetEffect.TouchesOwnPodsOnly | controller/replicaset.go:76-154 | Other owners' pods are out of reach and surviving pods are not rewritten |
| ReplicaSetEffect.SecondReconcileIsIdle | controller/replicaset.go:70-165 | A second reconcile launches and deletes nothing and reports the recounted state |
| Rollout.DeploymentTickWellFormed | controller/deployment.go:61-197 | A deployment reconcile keeps names, owners and hashes consistent |
| Rollout.ReplicaSetTickWellFormed | controller/replicaset.go:70-165 | So does a ReplicaSet reconcile, whatever its outcome |
| Rollout.StepWellFormed | controller/deployment.go:61-197 | So does every step of the combined system |
| Surge.StepBounded | controller/deployment.go:82-166 | Each owned spec stays within the desired count and their total within twice it, under every step |
| Surge.SurgeBound | controller/deployment.go:82-166 | The same in every state of every run from nothing, with any template edits, rollbacks and pod failures |
| Availability.StepServing | controller/deployment.go:118-156 | Old specs plus ready pods of the new ReplicaSet stay at least the desired count |
| Availability.OldServed | controller/replicaset.go:146-162 | A ReplicaSet with ready surplus keeps what it asks for ready through any reconcile |
| Availability.NewServed | controller/replicaset.go:94-162 | A ReplicaSet without surplus loses no ready pod and reports no more than it has |
| Availability.ServingIsAvailable | controller/deployment.go:131-136 | That invariant puts at least the desired number of owned pods in a ready state |
| Availability.StartServes | controller/deployment.go:118-156 | A rollout from ready old ReplicaSets starts with that invariant |
| Availability.RolloutKeepsAvailable | controller/deployment.go:118-156 | From any state with that invariant, every interleaving of reconciles and improving pods keeps at least the desired number of pods ready |
| Availability.EditServing | controller/deployment.go:71-80 | A template edit or rollback made while the new ReplicaSet has its pods ready, to one without surplus, keeps the invariant |
| Availability.RepeatedRolloutsKeepAvailable | controller/deployment.go:61-166 | Availability over rollout after rollout, rollbacks included |
| RolloutInCounts.RolloutServes | controller/deployment.go:118-156 | Availability in phases, ready containers and the count asked for, 1 if unset |
| RolloutInCounts.FirstRolloutServes | controller/deployment.go:61-166 | A first rollout has exactly that many serving pods after every round |
| RolloutInCounts.RolloutEnds | controller/deployment.go:131-166 | A converged rollout has exactly that many, all of them owned by the new ReplicaSet |
| EditAvailability.EditKeepsAvailableIff | controller/deployment.go:61-166 | After an edit or rollback at any moment of a rollout, everything that can follow keeps the desired number ready exactly when the ReplicaSet left behind is served and the target has no surplus and no inflated report, or the target suffices |
| EditAvailability.EditTooSoon | controller/deployment.go:82-156 | From any rollout just started, an edit right after the first reconcile can be followed by fewer ready pods than desired |
| EditAvailability.Unserved | controller/deployment.go:138-156 | A full old ReplicaSet with a pod that is not ready can be counted for more than it has, while the others are drained |
| EditAvailability.OverReported | controller/deployment.go:131-136 | A new ReplicaSet that reports more ready than it has takes too much from the old ones |
| EditAvailability.OverStaffed | controller/replicaset.go:146-162 | Deleting a surplus reports the ready pods from before, so a rollback to a ReplicaSet with surplus can cost availability |
| EditAvailability.StepSuffices | controller/deployment.go:118-129 | A new ReplicaSet that asks for the desired count and has it ready stays so under every step |
| Convergence.SweepSettles | controller/replicaset.go:61-68 | Reconciling all ReplicaSets in any order leaves each owned one with exactly its pods, all ready |
| Convergence.RoundAdvances | controller/deployment.go:82-166 | One round of both controllers, in numbers |
| Convergence.RoundShortensDistance | controller/deployment.go:118-156 | (desired - new spec) + old specs strictly decreases to 0 |
| Convergence.AfterRounds | controller/deployment.go:118-166 | The exact new spec after any number of rounds, and when the old ones are at 0 |
| Convergence.ConvergesIff | controller/deployment.go:118-166 | Every sequence of rounds converges within the stated number exactly when it need not shrink the new ReplicaSet beside old ones |
| RoundExistence.RoundExists | controller/deployment.go:52-59 | From every well-formed state there is another round of both controllers |
| RoundExistence.RoundsExist | controller/deployment.go:52-59 | There are sequences of rounds of any length |
| RoundExistence.CanConvergeIff | controller/deployment.go:118-166 | Some sequence of rounds converges exactly when the new ReplicaSet need not shrink beside old ones |
| RoundExistence.ScaleDownHasNoEffect | controller/deployment.go:118-129 | For any deployment, a scale-down beside an old ReplicaSet stays one replica too big, and ready, through any number of rounds |
| RoundExistence.LoweredHasNoEffect | controller/deployment.go:118-166 | The same from any converged state with an old ReplicaSet, for any lower desired count |
| RoundExistence.ReachesConvergedWithOld | controller/deployment.go:61-166 | Such states are reached from nothing by two rollouts with an edit between |
| Convergence.ConvergedExactly | controller/deployment.go:131-166 | A converged deployment has exactly the desired number of ready pods, all of the new ReplicaSet |
| Convergence.ConvergedIsStable | controller/deployment.go:118-166 | Further reconciles change no replica count |
| Convergence.SettledCount | controller/replicaset.go:92-162 | In a settled state ready pods are exactly the sum of the specs |
| Convergence.RoundBoundsPods | controller/deployment.go:82-166 | Within the surge bound at most twice the desired number of pods are active after any round, all of them ready |
| LogLines.FlattenLines | logs/ringbuffer.go:102-125 | Splitting a stream into lines loses nothing |
| LogLines.LinesAreLines | logs/ringbuffer.go:111-122 | A newline ends a line and occurs nowhere else in it |
| LogLines.LastLinesCount | logs/ringbuffer.go:108-124 | The last n lines are a suffix with exactly min(n, all) lines |
| LogLines.LastLinesOfWindow | logs/ringbuffer.go:102-125 | The last lines of a window are those of the whole stream, or the whole window if they do not fit |
| RingBuffer.RingBuffer.constructor | logs/ringbuffer.go:23-32 | An empty buffer; a capacity that is not positive becomes the default |
| RingBuffer.RingBuffer.Write | logs/ringbuffer.go:34-80 | The buffer stays a faithful image of the stream extended by the input, for any input length |
| RingBuffer.RingBuffer.ReadAll | logs/ringbuffer.go:82-100 | The last min(total, capacity) bytes of everything ever written, or nothing when the int64 counter is 0 |
| RingBuffer.RingBuffer.TailLines | logs/ringbuffer.go:102-125 | The last n lines of what ReadAll returns; all of it for n that is not positive |
| RingBuffer.ScanLines | logs/ringbuffer.go:108-124 | The backward scan finds exactly the start of the last n lines |
| RingBuffer.WroteThrough | logs/ringbuffer.go:48-55 | A write up to the end of the storage keeps the image, including the exact fit |
| RingBuffer.WroteAround | logs/ringbuffer.go:56-61 | So does one that wraps |
| RingBuffer.SuffixIsLastLines | logs/ringbuffer.go:115-122 | A suffix that begins a line and has n lines is the last n lines |
| RingBuffer.TailOfStream | logs/ringbuffer.go:102-125 | A tail is the shorter of the retained window and the last n lines of the full stream |
| PrefixWriter.PrefixWriter.Write | logs/writer.go:22-45 | The destination gets the prefixed chunk, or part of it on an error; the line state advances either way |
| PrefixWriter.PrefixWriter.Fill | logs/writer.go:27-38 | The buffer is filled with the input, each line begun in it prefixed |
| PrefixWriter.ChunksDoNotMatter | logs/writer.go:22-45 | The output depends only on the concatenated input |
| PrefixWriter.EveryLineOnce | logs/writer.go:29-38 | The output is the input's lines, each with the prefix once in front, blank ones included |
| PrefixWriter.StripUndoes | logs/writer.go:29-38 | Dropping prefix-length bytes at each line start gives the input back, for any prefix |
| Ports.PortPool.Allocate | network/portpool.go:25-43 | The port held, or else the least free one, or none |
| Ports.PortPool.Release | network/portpool.go:45-53 | Both entries go; nothing changes for an unknown holder |
| Ports.PortPool.Lookup | network/portpool.go:55-63 | The port held, if any |
| Ports.PortPool.Reserve | network/portpool.go:65-79 | Refused exactly for another holder's port; otherwise bound |
| Ports.AllocateIsLeast | network/portpool.go:34-42 | A new holder gets the least free port in range and is refused exactly when all are used |
| Ports.ReserveRefusedIff | network/portpool.go:65-79 | With inverse maps a reservation is refused exactly when another holder has the port, and otherwise gives it |
| Ports.HoldersDiffer | network/portpool.go:25-79 | No two holders share a port |
| Ports.ApplyMutual | network/portpool.go:25-79 | An operation keeps the maps inverse exactly when it does not reserve over a held port |
| Ports.OrphanForever | network/portpool.go:65-79 | A port lost by such a reservation stays used over every later run |
| Ports.ApplyKeepsOrphan | network/portpool.go:25-79 | No operation frees or hands out a lost port |
| Ports.RunFaithful | network/portpool.go:25-79 | Over every run each holder's port names it as its user |
| Ports.RunMutual | network/portpool.go:25-79 | Over every run the maps are inverse exactly when no reservation went over a held port |
| Ports.RefusedIffFull | network/portpool.go:34-42 | With inverse maps a new holder is refused exactly when as many are outstanding as there are ports |
| Ports.RefusedWithoutReserve | network/portpool.go:25-53 | The same after any run of allocations and releases |
| Volumes.FileSystem.ProjectVolumes | volume/projection.go:12-58 | All volumes are placed exactly when nothing fails; otherwise the UID's root is gone |
| Volumes.FileSystem.ProjectVolume | volume/projection.go:19-54 | One volume is placed exactly when its source exists and all its files can be written |
| Volumes.FileSystem.WriteAll | volume/projection.go:32-50 | The files of one volume, in any order, until a write fails |
| Volumes.FileSystem.CleanupVolumes | volume/projection.go:60-66 | Everything below the UID's root and nothing else is removed; nothing for an empty UID |
| Volumes.CleanedPlaced | volume/projection.go:12-66 | Cleaning undoes any projection and touches no other UID |
| Volumes.PlacedContent | volume/projection.go:26-54 | Each projected file has the content its config map or secret gives it, the last volume winning |
| Volumes.PlacedElsewhere | volume/projection.go:19-54 | Every other file is as it was |
| Volumes.MountsAre | volume/projection.go:17-55 | Each volume is mounted from the directory of its name below the UID |
| Volumes.CleanedHas | volume/projection.go:60-66 | Cleaning removes every file below the UID and no other, and nothing for an empty UID |
| Lifecycle.LifecycleManager.Launch | engine/lifecycle.go:117-255 | Result, pool, volumes and table as specified for each stage that can fail |
| Lifecycle.LifecycleManager.RunStages | engine/lifecycle.go:144-236 | The stages after the port allocation |
| Lifecycle.LifecycleManager.Enter | engine/lifecycle.go:174-236 | The table entry is complete on success and gone with port and volumes on failure |
| Lifecycle.LifecycleManager.Terminate | engine/lifecycle.go:257-309 | Table entry, port and volumes go; an unknown pod changes nothing |
| Lifecycle.LifecycleManager.Status | engine/lifecycle.go:311-355 | Phase, readiness and host port of a managed pod; a container is ready only while its phase is Running |
| Lifecycle.LifecycleManager.Shutdown | engine/lifecycle.go:567-578 | Every managed pod is terminated |
| Lifecycle.FailedLaunch | engine/lifecycle.go:117-220 | A failed launch is all-or-nothing in the table, the pool and the volumes |
| Lifecycle.LaunchEntersIff | engine/lifecycle.go:117-220 | A pod is entered exactly when it can have its port, its annotation parses, it has a UID and good volumes, its init containers succeed, and its engine is registered and starts it |
| Lifecycle.OutcomeNamesFirstFailure | engine/lifecycle.go:120-220 | The first of these that fails decides the outcome |
| Lifecycle.LaunchedShows | engine/lifecycle.go:311-355 | A launched pod has its held or the least free port, shows it, and shows ready exactly while running |
| Lifecycle.LaunchedIsProxiedIff | engine/lifecycle.go:222-235 | It is proxied exactly when its annotation names a positive port other than its own and the proxy starts |
| Lifecycle.LaunchedVolumes | engine/lifecycle.go:157-163 | A launched pod's volumes are mounted and have the files of their config maps and secrets |
| Lifecycle.LaunchThenTerminate | engine/lifecycle.go:117-309 | Terminating gives back exactly what the launch took |
| ServiceProxy.ProxyManager.StartProxy | service/proxy.go:191-227 | The running proxy's port, the requested port, or one of the pool, which is released when it cannot be bound |
| ServiceProxy.ProxyManager.StopProxy | service/proxy.go:229-239 | The proxy goes and its key is released, also when it held no pool port |
| ServiceProxy.ProxyManager.Shutdown | service/proxy.go:241-250 | Every proxy is stopped |
| ServiceProxy.StartThenStop | service/proxy.go:191-239 | A failed start, and a start and stop, leave the pool without the key and other proxies alone |
| PortConservation.RunSafe | engine/lifecycle.go:124-132 | Over every run with apart keys: pods hold their ports, held ports belong to pods or proxies |
| PortConservation.NoSharedPort | engine/lifecycle.go:124-132 | No two managed pods share a host port |
| PortConservation.SharedKeyLosesPort | service/proxy.go:229-239 | A service with a pod's key gives the pod's port away when it stops |
| PortConservation.ConservedIffDisjoint | service/proxy.go:191-250 | Ports are conserved over every run exactly when pod and service keys are disjoint |
| PortConservation.ShutDownEmptiesPool | engine/lifecycle.go:567-578 | After any run, shutting everything down in any order empties table, proxies and pool |
| ApiServer.Server.LaunchPod | api/server.go:228-258 | The pod is stored as running or failed with the port it was given, and the node changes as the launch says |
| ApiServer.Server.DeletePod | api/server.go:208-212 | The pod is terminated and no longer stored |
| ApiServer.Server.AllPods | api/server.go:132-141 | Every stored pod of the namespace once, in any order |
| ApiServer.Server.ListPods | api/server.go:218-226 | Every stored pod of the namespace once, managed ones with their live status |
| ApiServer.LaunchShows | api/server.go:228-258 | Seen through its pods, a launch of a new pod stores it with a status, failed if it fails, and touches no other pod |
| ApiServer.ListedStatus | api/server.go:218-226 | A managed pod is listed with its engine's phase, its port and its readiness, or as failed without its engine |
| ApiServer.LaunchedAsAsked | api/server.go:228-258 | A pod is managed with the engine, target and reset status it is launched with, and stored as running with its port, or as failed |
| ApiServer.Server.RecoverState | api/server.go:160-200 | Services with node ports, then running and pending pods, are reserved and started one after the other |
| ApiServer.Server.CascadeDeleteReplicaSet | api/deployment_handler.go:299-308 | Exactly the pods the ReplicaSet owns are terminated and deleted, then the ReplicaSet |
| ApiServer.Server.HandleDeleteDeployment | api/deployment_handler.go:132-150 | Exactly the deployment, its ReplicaSets and their pods are deleted; nothing if it does not exist |
| Recovery.ServicesAgree | api/server.go:163-182 | Recovering services keeps the pool in agreement with the records |
| Recovery.LeastIsUnrecorded | network/portpool.go:34-42 | With room below, the least free port is nobody's record |
| Recovery.PodsRestore | api/server.go:184-199 | Every relaunched pod with a record has that port and is recorded with it again |
| Recovery.RelaunchedExactly | api/server.go:184-199 | The pods relaunched are exactly the running and pending ones with an engine, an annotation that parses, a UID, good volumes, succeeding init containers and a good start |
| Recovery.RecoveryRestoresPorts | api/server.go:160-200 | Both, for any order of services and pods and any failures |
| Recovery.RestoresIff | api/server.go:160-200 | Over all restarts with given records, ports are always restored exactly when records are distinct and there is room below them for pods without one |
| Recovery.SharedRecord | api/server.go:184-199 | Of two pods with the same record one misses it |
| Recovery.NoRoom | api/server.go:184-199 | When the ports below a record run out, a pod without a record takes it |
| Recovery.LaunchRecordsPort | api/server.go:149-157 | A running pod with container ports is stored with the port it holds |
| Recovery.BoundPortIsShared | service/proxy.go:204-209 | A service's own port can be given to a pod too; after a restart that pod is on another |
| Recovery.UnrecordedPodTakesPort | api/server.go:185-193 | The least restart in which a pod stored without a record takes another's record |
| RestartAfterRun.RunGood | api/server.go:208-258 | Over any permitted run stored pods and services are recorded with the ports they have, and live proxies are on different ports |
| RestartAfterRun.RecordsDistinct | api/server.go:149-157 | No two of the ports that recovery would read are the same |
| RestartAfterRun.RestartRestoresPorts | api/server.go:160-200 | After any permitted run from the first start, a restart relaunches exactly the pods that nothing but a port could stop, with the ports they had |
| RestartAfterRun.LaunchedComesBack | api/server.go:160-258 | A pod launched before a restart is there after it with its port, if nothing but a port could stop it |
| RestartAfterRun.DeletedStaysAway | api/server.go:184-212 | A pod deleted before a restart is not there after it |
| RestartAfterRun.CreatedListensAgainIff | api/handler.go:312-325 | When a created service listens after a restart on the port it had |
| RestartAfterRun.DeletedServiceIsGone | api/handler.go:388-400 | A deleted service is not stored, its proxy is gone and its port released, and others stay |
| RecoveryConservation.ServiceListensIff | service/proxy.go:204-227 | A recovered service listens on its recorded port exactly when it asks for it, or cannot have the one it asks for and nobody else has the recorded one |
| RecoveryConservation.ServicesFineIff | api/server.go:163-182 | Recovering services keeps ports conserved exactly when none of them strays from its record |
| RecoveryConservation.PodsFineIff | api/server.go:184-199 | Recovering pods does exactly when none has a recorded port it does not ask for |
| RecoveryConservation.ConservedAfterRestartIff | api/server.go:160-200 | Ports are conserved after a restart exactly when no service and no pod strays |
| CascadeDelete.DeletedIsGone | api/server.go:208-212 | A deleted pod is not stored, not managed and holds no port it had |
| CascadeDelete.OthersAreKept | api/deployment_handler.go:299-308 | Any other pod is stored, managed and holding as before |
| CascadeDelete.DeletedKeys | api/deployment_handler.go:299-308 | The pods deleted are those of the deployment's namespace whose owner is a ReplicaSet there that it owns |
| CascadeDelete.OtherNamespacesAreKept | api/deployment_handler.go:299-308 | A pod of another namespace or owner is stored and managed, and holds its port, as before |
| CascadeDelete.DeletedReplicaSets | api/deployment_handler.go:132-150 | The ReplicaSets deleted are those of the namespace that the deployment owns |
| CascadeDelete.EndsOwnPods | api/deployment_handler.go:132-150 | Where every managed pod is seen in the store, exactly the deployment's own pods stop being managed |
| CascadeDelete.OtherVolumesAreKept | volume/projection.go:60-66 | Volumes of other UIDs are as before |
| CascadeDelete.TrackedIffOwnersKept | api/server.go:208-258 | Over a run of launches and deletions managed pods stay stored with their owner exactly when no launch takes a key |
| CascadeDelete.DeleteAfterRun | api/deployment_handler.go:132-150 | A condition on the run that is enough: no launch takes a key; the exact one is in CompleteAfterRunIff |
| CascadeDelete.LaunchTracked | api/server.go:228-258 | Managed pods stay stored with their owner exactly when no launch reuses a managed pod's key for another owner |
| CascadeDelete.DeletesTracked | api/server.go:208-212 | Deletions keep managed pods stored with their owner |
| CascadeDelete.SeenIsCompleteAndPrecise | api/deployment_handler.go:132-150 | After a deployment's deletion none of its pods is stored, managed or holds its port, and every other pod and pool entry is as it was |
| CascadeDelete.CompleteIff | api/deployment_handler.go:132-150 | Whatever deployment is deleted, that is so exactly when every managed pod is seen in the store with its ReplicaSet owner |
| CascadeDelete.CompleteAfterRunIff | api/deployment_handler.go:132-150 | The same after any run of launches and deletions from an empty server |
| CascadeDelete.OutlivesItsDeployment | api/handler.go:59-64 | A pod launched for a ReplicaSet, and a launch for nobody under its key: the deployment's deletion leaves the pod managed |
| Probe.ProbeRunner.constructor | engine/health.go:44-61 | Thresholds that are not positive become 3 and 1 |
| Probe.ProbeRunner.Tick | engine/health.go:70-93 | Counters, state and callbacks follow the history of outcomes |
| Probe.FiresExactly | engine/health.go:74-92 | A callback is made exactly when the count of its kind reaches its threshold in the other state |
| Probe.EventsAlternate | engine/health.go:59-93 | Callbacks alternate, a failure first |
| Probe.FailedIff | engine/health.go:59-93 | The state is failed exactly when enough failures in a row were never followed by enough successes |
| Probe.FailsFrom | engine/health.go:44-93 | A probe that only fails counts as failed from its failure threshold on, the third outcome if that is not positive |
| Probe.RecoversFrom | engine/health.go:44-93 | A failed probe that only succeeds then recovers at its success threshold, the first outcome if that is not positive |
| Backoff.AsIntendedIff | engine/lifecycle.go:527-533 | The pause is min(10 * 2^(n-1), 300) seconds exactly when n is at most 54 and a bit of 5^10 is clear |
| Backoff.ThirtyFirst | engine/lifecycle.go:527-533 | It is right for n up to 30 and negative for 31 |
| Backoff.FirstPauses | engine/lifecycle.go:527-533 | 10, 20, 40, 80, 160 seconds, and 300 from the sixth restart to the thirtieth |
| Backoff.ZeroFromThe55th | engine/lifecycle.go:527-533 | From the 55th restart on the pause is 0, for every n |
| RestartMonitor.Monitor.Poll | engine/lifecycle.go:416-435 | An ended process is restarted later, or not at all, by the policy |
| RestartMonitor.Monitor.RestartAfterBackoff | engine/lifecycle.go:447-457 | A restart that fails ends the monitor |
| RestartMonitor.RunConsistent | engine/lifecycle.go:400-464 | Over every run state and history agree |
| RestartMonitor.RestartsCounted | engine/lifecycle.go:429-433 | The restart count is the number of restarts, or one more while one is due |
| RestartMonitor.RestartsPermitted | engine/lifecycle.go:509-525 | Over every run a restart follows a failure under "", Always or OnFailure, or a success under "" or Always; none follows a denied exit, a failed restart or a termination |
| RestartMonitor.PollDecides | engine/lifecycle.go:416-435 | A poll after a success or failure leads to a restart by the policy's name, and otherwise ends the monitor |
| RestartMonitor.PollWaits | engine/lifecycle.go:416-420 | A poll of a process that has not ended does nothing |
| RestartMonitor.ExitRecorded | engine/lifecycle.go:416-420 | A process that ends well is reported succeeded, any other failed |
| RestartMonitor.WakeRestarts | engine/lifecycle.go:447-462 | After the pause the pod runs and is ready again, or the monitor has ended |
| RestartMonitor.TerminationEnds | engine/lifecycle.go:411-446 | A termination ends the monitor at any time |
| RestartMonitor.EndedForGood | engine/lifecycle.go:425-452 | Once ended it starts nothing, over every further run |
| RestartMonitor.ProbeDecides | engine/lifecycle.go:484-502 | A launched pod is ready until a probe says otherwise, at once |
| RestartMonitor.ReadyWhileAlive | engine/lifecycle.go:345-350 | A container shows ready only while its process runs, never during the pause |
| NativeEngine.NativeEngine.Start | engine/native.go:34-114 | Refused while the entry says Running; otherwise a new process and entry |
| NativeEngine.NativeEngine.Waited | engine/native.go:96-111 | The end is written onto the entry the name has then |
| NativeEngine.NativeEngine.Stop | engine/native.go:116-127 | The process of the entry is told to stop |
| NativeEngine.StopReaches | engine/native.go:116-127 | A stop reaches the process that runs under the name |
| NativeEngine.RacingStopReaches | engine/native.go:116-127 | So does one among split starts, while the table is faithful |
| NativeEngine.OneProcessPerName | engine/native.go:34-137 | Over every run one process per name, running exactly while the entry says so; other entries tell how their own process ended |
| NativeEngine.ExitWritesOwnEntry | engine/native.go:102-110 | An end is written onto its own process's entry, never a successor's |
| NativeEngine.FaithfulIffNeverOverruns | engine/native.go:40-92 | With check and store as separate steps, the table is faithful all through a run exactly when no store comes over a Running entry |
| NativeEngine.AtomicStart | engine/native.go:40-92 | A check followed at once by its store is the atomic start |
| NativeEngine.RacingStarts | engine/native.go:40-92 | A run of those steps in which the end of one process is shown as the end of another |
| Strings.JoinSplit | discovery/selector.go:23-23 | Splitting and joining gives the string back |
| Strings.SplitAppend | discovery/selector.go:23-23 | A one-character separator splits its two sides independently |
| Strings.TrimIs | discovery/selector.go:25-25 | Trimming takes white space off both ends and nothing else |
| Selector.MatchLabels | discovery/selector.go:19-66 | The early-exit loop decides whether every part matches |
| Selector.MatchFields | discovery/selector.go:68-121 | The same for fields, which MatchMetadataFields shares with fewer of them |
| Selector.CommaIsAnd | discovery/selector.go:23-65 | A comma is a conjunction for all strings on either side |
| Selector.PrintThenMatch | discovery/selector.go:19-66 | Printing clean requirements and matching the text is evaluating them, an absent label as the empty string |
| Selector.SpaceAfterComma | discovery/selector.go:23-28 | White space after a comma does not count |
| Selector.SpacesAroundOperator | discovery/selector.go:29-58 | Nor does a blank around an operator |
| Selector.LabelSelects | discovery/selector.go:29-63 | What each kind of requirement asks of a label |
| Selector.FieldSelects | discovery/selector.go:100-118 | Pods are selected by name and namespace; metadata alone matches any phase |
| Selector.PhaseSelects | discovery/selector.go:105-106 | Pods are selected by the name of their phase |
| Selector.FewerFieldsMatchMore | discovery/selector.go:144-193 | Knowing fewer fields can only match more |
| Selector.PodFieldsAreStricter | discovery/selector.go:68-193 | A pod selected by its fields is selected by its metadata |

## Left out

- Interleavings inside one reconcile or one launch: each is one atomic step that reads the current state, while the
  program writes back objects it read earlier.
- Availability.RolloutKeepsAvailable: assumes a fixed template and size and pods that stay ready, since the program
  promises nothing about failing pods.
- Rollout.StepWellFormed: assumes a selector without the hash label, which would overwrite it, names of the form
  deployment-hash used by the deployment only, and namespaces that are not empty.
- EditAvailability.EditKeepsAvailableIff: assumes that nobody owns pods in the name of a ReplicaSet that does not exist.
- ReplicaSetController.Controller.Reconcile: assumes that the random name suffixes of the pods it launches are fresh.
- Convergence.ConvergesIff: counts rounds in which launched pods become ready, not time.
- Lifecycle.FailedLaunch: assumes a pool of positive ports, as the server sets up; a port that is not positive is never
  given back (engine/lifecycle.go:149,159,191).
- Lifecycle.LifecycleManager.Terminate: does not state that the engine is told to stop, that the pod's proxy is closed
  and that native mount paths are removed; the engine's side of a stop is in NativeEngine.
- Lifecycle.LifecycleManager.Status: does not state restart count, address, start time and message.
- PortConservation.RunSafe: the ports services ask for themselves are not checked against the pool, as in the program.
- Recovery.RestoresIff: the services and pods given are the persisted ones, reading them back is not modelled; the
  range of the pool is positive.
- Recovery.UnrecordedPodTakesPort: the stored pod is given, since the program itself records the port of every running
  pod with container ports.
- RestartAfterRun.RestartRestoresPorts: pods and services have different keys, no service binds a port of the pool's
  range by itself, and a port that a proxy listens on cannot be bound again.
- RecoveryConservation.ConservedAfterRestartIff: every pod that wants a port has one recorded, as after any run of
  RestartAfterRun.
- CascadeDelete.DeleteAfterRun: a sufficient condition that can be seen while the run goes on; the exact condition, on
  the state it ends in, is in CascadeDelete.CompleteAfterRunIff.
- NativeEngine.OneProcessPerName: a start is one step here; starts in two steps are in
  NativeEngine.FaithfulIffNeverOverruns.  Pod names are unique per engine, although the manager's keys have a namespace.
- Template hash: an arbitrary function of the pod specification; nothing is assumed about collisions except where a
  name is said to belong to a ReplicaSet with that hash.
- Replica counts are unbounded integers, not int32; a sum of statuses cannot wrap around.
- Owner and port annotations are structured values, keys are pairs; names and namespaces contain no slash.
- Environment variables, template annotations other than the port, timestamps, messages and resource versions of pods.
- The database copy of each store, and Follow and Watch, whose sends may be dropped.
- Errors of RemoveAll, which the program ignores: cleaning always succeeds here.
- Native mount paths and symbolic links, the wasm engine, and running init containers one by one.
- Connections, backends and round-robin of the service proxies.
- Initial delay, period and the actions of probes.
- HTTP handlers, JSON and YAML, the command line, API discovery and tables.

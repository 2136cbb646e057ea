# Kuberpult's deployment state machine, verified

A Dafny model of the parts of kuberpult that hold state: the manifest repository and the transformers that change
it, the worker that commits and pushes them, the file system over the git object store, the mapping of environments
to groups, the streams of the rollout service and of the overview, and the policy lookup. `dafny verify dfyconfig.toml`
checks all of it.

## Structure

| file | models |
|---|---|
| `Deployment.dfy` | the repository as a value, and each transformer as a function on it: the specification |
| `Transformers.dfy` | the transformers in place, on the fields of a class, with the loops of the program; each proved equal to its specification |
| `Invariants.dfy`, `Cleanup.dfy`, `Releasing.dfy`, `Locking.dfy`, `BlockedQueues.dfy`, `LockPairs.dfy`, `Trains.dfy`, `GroupTrains.dfy`, `Undeploying.dfy`, `BrokenConfigs.dfy` | what the transformers guarantee |
| `Places.dfy`, `LockEffects.dfy`, `DeployEffects.dfy`, `ReleaseEffects.dfy`, `ReleaseOutcomes.dfy` | the outcome of each transformer, told from the fields of the repository: exactly when it succeeds, and what every place has then |
| `Worker.dfy`, `Repository.dfy` | one turn of the worker, as a function on a local and a remote branch, and in place |
| `Delivery.dfy`, `Pushes.dfy`, `WorkerRuns.dfy`, `Leftovers.dfy` | what one turn, and any number of turns, guarantee, and what becomes of commits answered with an error |
| `Trees.dfy`, `Paths.dfy` | trees, object ids and path walks as values |
| `TreeFs.dfy`, `NodeChanges.dfy`, `WriteBack.dfy`, `FileSystem.dfy` | the lazily loaded nodes with parent pointers, what changing and writing them means, and the operations |
| `PathNames.dfy`, `Layout.dfy`, `OnDisk.dfy` | the repository in the file system: joined paths, where releases, links and locks lie, and the steps that queue and deploy a version |
| `Distance.dfy`, `Mapper.dfy` | upstream distances, groups and priorities |
| `Broadcast.dfy`, `Versions.dfy`, `Overviews.dfy` | the event streams |
| `Rbac.dfy` | policy lines and their lookup |
| `Config.dfy`, `Strings.dfy`, `Sorting.dfy`, `Finite.dfy` | shared notions |

## Assumptions

- A repository maps applications to releases, and environments to applications with a version link, a queue link and
  lock ids. Names are single path components. A release is its undeploy flag and the environments it has manifests for.
- Go maps are iterated in an arbitrary order: loops over them list the keys in no particular order, and what depends on
  the order takes it as a parameter.
- The network is a script of events: before each fetch or push attempt other writers may have pushed any commits, and the
  operation then works, fails, is refused or diverges. A push attempt changes the remote completely or not at all, and
  other writers never rewrite history.
- Git object ids are represented by the objects they name, as hashes that do not collide.
- A request is canceled or not when its turn reaches it; a caller that is still there reads one reply, and a caller that has
  left reads none.
- Whether the process sends metrics is a constant that is left open.
- "Sound" means that no version link dangles and every configuration file is readable.

## What turned out not to hold

- A first request that is canceled when its turn begins is answered twice, on a channel that holds one reply. If its caller
  has left, which is what a caller does when its context ends, the second send blocks and no request is answered any more:
  `WorkerRuns.TurnBlocksIff` and `WorkerRuns.AllServedIff` give the exact condition, `WorkerRuns.CanceledCallerStopsWorker` the inputs.
- A second push that is refused is answered as a success (`WorkerRuns.RefusedAnswersNil`; `Delivery.NilIsCommittedOnce` gives the exact condition).
- A request answered with an error can still reach the remote (`WorkerRuns.ErrorMayArrive`; `Leftovers.ErrorArrivesIff` gives the exact condition).
- Cleanup can remove a queued release; the lock in front of it can then not be removed, and nothing can be deployed there
  (`Locking.CleanupMayBlockUnlocking`, with exact conditions in `Locking.UnlockSucceedsIff` and `Locking.DeploySucceedsIff`).
- Removing an application looks at links that the overview does not show (`Undeploying.UndeploySucceedsIff`), and goes on
  without its checks if a configuration is broken (`Undeploying.UndeploySoundIff`).
- Creating a release with a free number and a valid name can fail, for a version in some queue that is not there any more, or
  never was (`ReleaseOutcomes.QueueStopsRelease`; `ReleaseOutcomes.CreateVersionOutcome` gives the exact condition).
- A train that finds an upstream environment missing ends with success without looking at the environments after it
  (`GroupTrains.TrainReaches`; it treats all of them exactly under the condition of `GroupTrains.AllReachedIff`).
- A broken configuration makes the worker fetch and apply again only where the error keeps its cause: the group locks, the
  release train and the rendering hide it behind another one, the metrics do not (`BrokenConfigs.InvalidJsonIff` and
  `BrokenConfigs.RequestInvalidIff` give the exact conditions).
- Writing a file does not always leave what was written: a loaded file is appended to, and one that is not loaded cannot be
  emptied (`FileSystem.TreeBuilderFS.WriteFile`, with the exact condition in `FileSystem.TreeBuilderFS.WriteReplacesIff`).
- The distance of a group in the overview depends on the order in which a map is iterated (`Mapper.TwoOrders`), exactly if
  environments of one group have different distances (`Mapper.MappingUniqueIff`).

## Model

| member | source | states |
|---|---|---|
| Invariants.RunsAreSafe | services/cd-service/pkg/repository/transformer.go:200-1339 | after any sequence of requests, from a sound repository, every `version` link names an existing release and every configuration is readable; failed requests and half-failed trains included |
| Invariants.TransformIsSafe | services/cd-service/pkg/repository/transformer.go:200-1339 | each of the 15 transformers keeps that invariant when it succeeds |
| Invariants.BatchIsSafe | services/cd-service/pkg/repository/repository.go:662-679 | so does a request of several transformers |
| Invariants.DeployKeepsLinks | services/cd-service/pkg/repository/transformer.go:1017-1138 | a deployment leaves no dangling version even if it fails half-way |
| Cleanup.CleanupKeeps | services/cd-service/pkg/repository/transformer.go:570-633 | cleanup removes nothing from the oldest deployed version on, keeps exactly min(19, available) releases below it and these are the newest, leaves at least 20 releases if it removes any, and never removes the newest |
| Cleanup.CleanupIdempotent | services/cd-service/pkg/repository/transformer.go:570-633 | after a cleanup nothing is old, and a second cleanup changes nothing |
| Cleanup.OldIsBelowTop | services/cd-service/pkg/repository/transformer.go:597-606 | the releases to remove are those below the oldest deployed one without the 19 newest of these |
| Cleanup.CleanupKeepsOldest | services/cd-service/pkg/repository/transformer.go:570-633 | cleanup changes neither the newest release nor the oldest deployed version |
| Releasing.CreatedReleaseStays | services/cd-service/pkg/repository/transformer.go:200-350 | a successful creation adds a new release with exactly the given manifests, above all others if no number was asked for; it survives the nested deployments and an immediate cleanup |
| Releasing.RemovedVersionIsTooOld | services/cd-service/pkg/repository/transformer.go:243-255 | a version that cleanup has just removed cannot be created again: the error is that the release is too old |
| Releasing.UndeployVersionIsLast | services/cd-service/pkg/repository/transformer.go:357-437 | an undeploy version becomes the newest release, with a manifest for each environment of the loop, and survives its own deployments |
| Releasing.WriteManifestsOfLast | services/cd-service/pkg/repository/transformer.go:258-314 | through all nested deployments and cleanups the newest release stays and gets all its manifests |
| ReleaseEffects.CreateVersionEffect | services/cd-service/pkg/repository/transformer.go:200-314 | a new newest release is deployed in every given environment that takes what is latest and has no lock, with an empty queue; behind a lock it is only queued; every other place, and every place if it is not the newest, is unchanged, and so are locks, teams and other releases |
| ReleaseEffects.CreateUndeployEffect | services/cd-service/pkg/repository/transformer.go:357-437 | the same for an undeploy version, which always is the newest |
| ReleaseOutcomes.CreateVersionOutcome | services/cd-service/pkg/repository/transformer.go:200-314 | each error of creating a release, and exactly when it succeeds: a number that is free, a valid name, an old release not too old, and for the newest one no queue that names a release gone by the time it is deployed there |
| ReleaseOutcomes.CreateUndeployOutcome | services/cd-service/pkg/repository/transformer.go:357-437 | the same for an undeploy version |
| ReleaseOutcomes.QueueStopsRelease | services/cd-service/pkg/repository/transformer.go:258-314 | the failing family: one environment that takes what is latest, with a version in its queue that is not there, and any later release |
| ReleaseOutcomes.WritesSucceedIff | services/cd-service/pkg/repository/transformer.go:258-314 | the loop with its nested deployments and cleanups succeeds if and only if these queues hold, told from the repository before it |
| ReleaseOutcomes.NothingQueuedHolds | services/cd-service/pkg/repository/transformer.go:258-314 | in particular nothing stops a release where nothing is queued |
| ReleaseOutcomes.OldOfRest | services/cd-service/pkg/repository/transformer.go:597-606 | cleaning up once more for a later oldest version is cleaning up for that version alone |
| DeployEffects.DeployOutcome | services/cd-service/pkg/repository/transformer.go:1017-1138 | each outcome of a deployment to a sound repository, with the whole place, all others, and what the cleanup may have removed, in terms of manifests, locks and queue |
| DeployEffects.CleanupEffect | services/cd-service/pkg/repository/transformer.go:570-633 | a cleanup removes only releases below everything deployed and below 19 others that are left there |
| DeployEffects.QueueEffect | services/cd-service/pkg/repository/transformer.go:988-1012 | the queue link names the version whatever it was before, locked or not; nothing else changes |
| DeployEffects.DeleteEnvEffect | services/cd-service/pkg/repository/transformer.go:515-564 | takes away this place and nothing else; both names are needed |
| DeployEffects.NewEnvironmentEffect | services/cd-service/pkg/repository/transformer.go:952-980 | the environment has its configuration, locks and applications stay, and every other environment too |
| DeployEffects.BatchInOrder | services/cd-service/pkg/repository/repository.go:662-679 | a batch is its transformers one after the other, up to the first that fails |
| DeployEffects.BatchOfOne | services/cd-service/pkg/repository/repository.go:662-679 | and one transformer is what it is alone |
| DeployEffects.RequestSucceedsIff | services/cd-service/pkg/repository/repository.go:740-802 | a request succeeds exactly if its batch does and leaves only configurations that can be read |
| Locking.LocksHold | services/cd-service/pkg/repository/transformer.go:1038-1070 | a successful batch without Ignore deployments, lock removals and application removals keeps the `version` of everything locked at its start, and the locks |
| BlockedQueues.BlockedVersionIsQueued | services/cd-service/pkg/repository/transformer.go:1038-1070 | after such a batch the queue link of each place locked at its start names the version last deployed or queued there, within new releases and trains too; if there was none, it is as before |
| BlockedQueues.WriteManifestsQueues | services/cd-service/pkg/repository/transformer.go:257-314 | the part of that for the deployments nested in creating a release: one for each environment that takes what is latest, in the order of the loop |
| BlockedQueues.TrainQueues | services/cd-service/pkg/repository/transformer.go:1224-1339 | the part of that for a train: one for each application whose version differs and that has a manifest, where the train gets to |
| Locking.DeploySucceedsIff | services/cd-service/pkg/repository/transformer.go:1017-1138 | in a sound repository a deployment succeeds if and only if the release has a manifest for the environment and it is only to be queued, or nothing blocks it and the queue link does not dangle |
| Locking.DeployEffect | services/cd-service/pkg/repository/transformer.go:1071-1138 | a deployment that goes through links the version, clears the queue, touches no other link and no lock, and leaves nothing to clean up |
| Locking.QueueDanglesIff | services/cd-service/pkg/repository/transformer.go:588-598 | cleanup makes exactly those queue links dangle that name an old release |
| Locking.UnlockSucceedsIff | services/cd-service/pkg/repository/transformer.go:923-946 | in a sound repository an application lock can be removed if and only if the queue link does not dangle |
| Locking.UnlockEnvironmentSucceedsIff | services/cd-service/pkg/repository/transformer.go:774-806 | an environment lock can be removed if and only if no queue link of its applications dangles |
| Locking.CleanupMayBlockUnlocking | services/cd-service/pkg/repository/transformer.go:588-598 | the failing family: 21 or more releases, the first one queued behind a lock; after a cleanup the lock cannot be removed and nothing can be deployed there |
| LockEffects.LockApplicationEffect | services/cd-service/pkg/repository/transformer.go:887-916 | an application can be locked in every environment: it has this lock besides the others, its links stay, and nothing else changes |
| LockEffects.LockEnvironmentEffect | services/cd-service/pkg/repository/transformer.go:705-727 | the same for an environment, which locks all its applications |
| LockEffects.LockGroupEffect | services/cd-service/pkg/repository/transformer.go:815-843 | the same for exactly the environments whose configuration has the group, if there is one |
| LockEffects.BrokenGroups | services/cd-service/pkg/repository/transformer.go:815-878 | with a broken configuration neither succeeds, and the error does not tell why |
| LockEffects.UnlockApplicationEffect | services/cd-service/pkg/repository/transformer.go:923-946 | unlocking fails exactly if a link cannot be read; it takes this lock, and the queue entry if and only if that names the deployed version; the version and everything else stay |
| LockEffects.UnlockEnvironmentEffect | services/cd-service/pkg/repository/transformer.go:774-806 | the same for an environment and all its applications |
| LockEffects.UnlockGroupEffect | services/cd-service/pkg/repository/transformer.go:850-878 | the same for all environments of a group |
| LockPairs.LockThenUnlock | services/cd-service/pkg/repository/transformer.go:705-806 | taking back a new environment lock leaves exactly what processing the queues leaves |
| LockPairs.LockThenUnlockApplication | services/cd-service/pkg/repository/transformer.go:887-946 | the same for an application lock, except that a directory made for it stays |
| LockPairs.GroupLockEffect | services/cd-service/pkg/repository/transformer.go:815-843 | a group is locked if and only if it has an environment; then exactly its environments have the new lock, and nothing else changes |
| LockPairs.GroupUnlockEffect | services/cd-service/pkg/repository/transformer.go:850-878 | it is unlocked if and only if it has an environment and the queues of all its environments can be read; then exactly these lose the lock and their outdated queue entries |
| Trains.TrainDelivers | services/cd-service/pkg/repository/transformer.go:1192-1339 | a train to one unlocked environment succeeds and brings every application that passes the team filter, has an upstream version, a manifest and no lock there, to the upstream version |
| Trains.TrainStaysInTarget | services/cd-service/pkg/repository/transformer.go:1192-1339 | it changes no version, queue or lock of any other environment, no lock at all, and no newest release |
| Trains.TrainIdempotent | services/cd-service/pkg/repository/transformer.go:1192-1339 | an immediate second train gives the same repository |
| Trains.TrainAppsEffect | services/cd-service/pkg/repository/transformer.go:1254-1327 | a train over applications in any order succeeds in a sound repository and leaves nothing to do for each of them |
| GroupTrains.StopsAtCut | services/cd-service/pkg/repository/transformer.go:1241-1246 | a train over any environments is the train over those before the first one whose upstream environment is missing |
| GroupTrains.TrainReaches | services/cd-service/pkg/repository/transformer.go:1192-1339 | with readable configurations a train with targets is the train over its targets, in name order, before that one |
| GroupTrains.AllReachedIff | services/cd-service/pkg/repository/transformer.go:1241-1246 | it treats all its targets if and only if none of them names a missing upstream environment |
| Trains.TargetsAre | services/cd-service/pkg/repository/transformer.go:1146-1162 | a target names the environments whose configuration has this group, and only if there is none the environment of this name |
| GroupTrains.TrainFinds | services/cd-service/pkg/repository/transformer.go:1192-1206 | a train fails exactly if a configuration is broken, or there is neither such a group nor such an environment; each with its error |
| GroupTrains.ReachedInOrder | services/cd-service/pkg/repository/transformer.go:1203-1246 | the environments treated are in name order exactly the targets before which, and for which, no missing upstream environment is named |
| GroupTrains.GroupTrainStaysInTargets | services/cd-service/pkg/repository/transformer.go:1192-1339 | in a sound repository a train that has a target changes links only in the environments it reaches, and no lock and no newest release anywhere |
| GroupTrains.GroupTrainEffect | services/cd-service/pkg/repository/transformer.go:1192-1339 | for each place of each environment reached, what it has after the train: unchanged if the environment is locked or follows nothing; else what was offered, of the right team and with a manifest is deployed, or only queued behind a lock of the application; and nothing else changes |
| GroupTrains.GroupTrainDelivers | services/cd-service/pkg/repository/transformer.go:1192-1339 | so a version that fits and meets no lock is deployed |
| GroupTrains.UntouchedUpstream | services/cd-service/pkg/repository/transformer.go:1254-1327 | what fits when the train comes by is what fits at the start, if the upstream is the newest release or an environment not treated before |
| Trains.DeployErrors | services/cd-service/pkg/repository/transformer.go:1309-1327 | under Record a deployment in a sound repository fails only because something does not exist |
| Undeploying.UndeploySucceedsIff | services/cd-service/pkg/repository/transformer.go:439-507 | an application can be removed if and only if it has a newest release, this is an undeploy version, the overview sums it up as undeployed, and the overview hides no version link of it |
| Undeploying.UndeployLeavesNothing | services/cd-service/pkg/repository/transformer.go:439-507 | afterwards no release, version, queue or lock of the application is left, and every other application is unchanged |
| Undeploying.DanglingLinkStopsUndeploy | services/cd-service/pkg/repository/transformer.go:474-487 | a dangling version link is not shown by the overview but makes the removal fail |
| Undeploying.LinkedIsShown | services/cd-service/pkg/service/overview.go:125-155 | links that do not dangle and do not name release 0 are never hidden |
| Undeploying.UndeploySoundIff | services/cd-service/pkg/repository/transformer.go:456-458 | the error of reading the configurations is dropped: the removal then is sound if and only if the configurations are readable or the application has no version link |
| Undeploying.UnsoundUndeployIsNotCommitted | services/cd-service/pkg/repository/repository.go:740-748 | such a removal alone is never committed, since rendering reads the configurations again |
| Undeploying.DeriveUndeploySummary | services/cd-service/pkg/service/overview.go:309-337 | the summary is Undeploy if and only if everything deployed is an undeploy version, else Normal if and only if nothing is |
| BrokenConfigs.InvalidJsonIff | services/cd-service/pkg/repository/transformer.go:213-216 | a transformer fails with the error that makes the worker reset if and only if a configuration is broken and it is a cleanup, a new release with a free number and a valid name, an undeploy version of an application with releases, or a deployment that gets as far as its cleanup |
| BrokenConfigs.BatchInvalidIff | services/cd-service/pkg/repository/repository.go:662-679 | a batch does if and only if its first failing transformer is such a one, in the repository it finds |
| BrokenConfigs.RequestInvalidIff | services/cd-service/pkg/repository/repository.go:740-802 | a request does if and only if its batch does, or metrics are sent and the batch succeeds and leaves a broken configuration |
| Transformers.State.FindOldVersions | services/cd-service/pkg/repository/transformer.go:570-607 | with the loop over the environments and the binary search, exactly the old versions, in ascending order, or the first error |
| Transformers.Search | services/cd-service/pkg/repository/transformer.go:598-600 | binary search: the positions before the result are those below the limit |
| Transformers.OldPrefix | services/cd-service/pkg/repository/transformer.go:598-606 | cutting the sorted list 19 positions below the oldest deployed version leaves exactly the old versions |
| Transformers.State.GetLastRelease | services/cd-service/pkg/repository/transformer.go:176-198 | the newest release, or 0; the directory of an unknown application is made, and nothing else changes |
| Transformers.State.ReadEnvironmentConfigs | services/cd-service/pkg/repository/repository.go:1339-1375 | every environment directory counts, with an empty configuration if it has no file; one undecodable file is an error |
| Transformers.State.Cleanup | services/cd-service/pkg/repository/transformer.go:609-633 | removing the old releases one by one leaves the state of the specification, or its error |
| Transformers.State.Queue | services/cd-service/pkg/repository/transformer.go:988-1012 | directory, removal and link give the queue link of the specification and nothing else |
| Transformers.State.Deploy | services/cd-service/pkg/repository/transformer.go:1017-1138 | the steps in place leave exactly what the specification says, also when they stop half-way |
| Transformers.State.CreateVersion | services/cd-service/pkg/repository/transformer.go:200-314 | the same for creating a release with its checks and the loop over the manifests |
| Transformers.State.CreateUndeploy | services/cd-service/pkg/repository/transformer.go:357-437 | the same for an undeploy version, with a loop over all configured environments in some order |
| Transformers.State.IsNewest | services/cd-service/pkg/repository/transformer.go:339-350 | true if and only if no release has a higher number |
| Transformers.State.Undeploy | services/cd-service/pkg/repository/transformer.go:439-507 | the same for removing an application, whose checks already remove its locks on their way |
| Transformers.State.DeleteEnv | services/cd-service/pkg/repository/transformer.go:515-564 | removes the application from the environment; it is no error if it is not there |
| Transformers.State.LockEnvironment | services/cd-service/pkg/repository/transformer.go:705-727 | adds the lock, or fails if there is no such environment |
| Transformers.State.UnlockEnvironment | services/cd-service/pkg/repository/transformer.go:774-806 | removes the lock and clears the outdated queue entries of all applications, in any order |
| Transformers.State.LockGroup | services/cd-service/pkg/repository/transformer.go:815-843 | locks the environments of a group in the order of their names |
| Transformers.State.UnlockGroup | services/cd-service/pkg/repository/transformer.go:850-878 | unlocks them in that order |
| Transformers.State.LockApplication | services/cd-service/pkg/repository/transformer.go:887-916 | adds the lock, also before the application is deployed there |
| Transformers.State.UnlockApplication | services/cd-service/pkg/repository/transformer.go:923-946 | removes the lock and clears an outdated queue entry |
| Transformers.State.ProcessOne | services/cd-service/pkg/repository/repository.go:1571-1597 | a queue entry is deleted if and only if it names the deployed version; links that cannot be followed are errors |
| Transformers.State.NewEnvironment | services/cd-service/pkg/repository/transformer.go:952-980 | creates the environment and writes its configuration, unless one is there that is only appended to |
| Transformers.State.Train | services/cd-service/pkg/repository/transformer.go:1192-1339 | the two loops over sorted environments and applications, with all reasons to skip, agree with the specification |
| Transformers.State.PerformAll | services/cd-service/pkg/repository/repository.go:740-750 | a request agrees with the specification, and if the state was sound and it succeeds, the state is sound |
| Delivery.AnsweredOnce | services/cd-service/pkg/repository/repository.go:395-471 | whatever the network does, each element a turn works on gets exactly one reply, and nobody else gets any |
| Delivery.DrainAccounts | services/cd-service/pkg/repository/repository.go:352-370 | every element in the queue is either answered as canceled or kept, once |
| Delivery.ApplyFolds | services/cd-service/pkg/repository/repository.go:303-328 | without a broken configuration, applying is a filter and fold: the survivors' commits in order on the head, one error reply for each of the others |
| Delivery.ApplyResets | services/cd-service/pkg/repository/repository.go:309-316 | with a broken configuration it resets once and applies everything left to what was fetched, or stops with all of it left |
| Delivery.SurvivorsReplay | services/cd-service/pkg/repository/repository.go:303-328 | failing elements leave no trace: the survivors alone give the same history |
| Delivery.ApplyBuilds | services/cd-service/pkg/repository/repository.go:303-328 | the survivors' commits lie on the old or the fetched head, each made by its transformers on the tree before it |
| Delivery.LeftInOrder | services/cd-service/pkg/repository/repository.go:303-328 | what is answered together at the end is a subsequence of the batch |
| Delivery.NilIsAccepted | services/cd-service/pkg/repository/repository.go:395-471 | answered without an error where the second push is not refused: the remote history ends with one commit for each of these elements, in order, each made by its transformers on the tree before it |
| Delivery.RefusedIsNotAccepted | services/cd-service/pkg/repository/repository.go:449-451 | after a refused second push the remote has nothing of the batch |
| Delivery.NilIsCommittedOnce | services/cd-service/pkg/repository/repository.go:395-471 | a new request answered without an error lies in the remote history once, or not at all: the latter exactly if the second push is refused, told from the repositories and the batch alone |
| Pushes.PushDecided | services/cd-service/pkg/repository/repository.go:876-897 | the last attempt of a push alone decides it: its result, both branches and what is left of the network |
| Pushes.PushedIff | services/cd-service/pkg/repository/repository.go:69-72 | a push is accepted if and only if one of the first seven attempts works on a remote that has not diverged, and all before it were lost in a way that is retried |
| Pushes.LostPushIsTriedAgain | services/cd-service/pkg/repository/repository.go:876-897 | up to six lost attempts do no harm |
| Pushes.SevenLostAttempts | services/cd-service/pkg/repository/repository.go:69-72 | a seventh one ends the push |
| Pushes.TurnAnswer | services/cd-service/pkg/repository/repository.go:430-464 | the answer of a turn for each result of its first push |
| Pushes.DrainedAre | services/cd-service/pkg/repository/repository.go:352-370 | draining the queue keeps exactly what is not canceled, and tells exactly the others |
| Delivery.PushEffect | services/cd-service/pkg/repository/repository.go:876-897 | retried pushes move no local commit, and change the remote only by other writers or, on success, to the local head |
| WorkerRuns.TurnBlocksIff | services/cd-service/pkg/repository/repository.go:395-408 | a send of a turn blocks if and only if its first request is canceled and its caller no longer reads; otherwise every reply is sent |
| WorkerRuns.RunAnswers | services/cd-service/pkg/repository/repository.go:286-301 | over any run in which that never happens every request gets exactly one reply, except those canceled when their turn begins: two |
| WorkerRuns.RunHangs | services/cd-service/pkg/repository/repository.go:395-408 | a run is over with the first turn where it happens: the canceled request has its reply, and nothing is answered or committed any more |
| WorkerRuns.AllServedIff | services/cd-service/pkg/repository/repository.go:286-301 | so all replies of a run are sent if and only if it never happens |
| WorkerRuns.CanceledCallerStopsWorker | services/cd-service/pkg/repository/repository.go:862-868 | the failing family: one canceled request whose caller has left, whatever comes after it |
| WorkerRuns.RunCounts | services/cd-service/pkg/repository/repository.go:395-471 | over any run no request is committed more often than it was worked on, locally or remotely, and the remote only grows |
| WorkerRuns.RunKeeps | services/cd-service/pkg/repository/repository.go:395-471 | over any run without a refused second push, everybody with a reply without an error has a commit on the remote |
| WorkerRuns.ExactlyOneCommit | services/cd-service/pkg/repository/repository.go:395-471 | so a new request that came once has exactly one |
| WorkerRuns.ProcessNil | services/cd-service/pkg/repository/repository.go:400-402 | replies without an error go exactly to what is left at the end, if that is the final answer |
| WorkerRuns.ProcessCounts | services/cd-service/pkg/repository/repository.go:395-471 | a turn forgets nothing on the remote and commits nothing that it answered with a rejection |
| WorkerRuns.RunIsSafe | services/cd-service/pkg/repository/repository.go:395-471 | end to end: if the other writers push sound trees, no commit on either branch ever has a dangling version |
| WorkerRuns.RefusedAnswersNil | services/cd-service/pkg/repository/repository.go:449-451 | the failing family: the second push is refused, the answer has no error, the remote has no commit |
| WorkerRuns.ErrorMayArrive | services/cd-service/pkg/repository/repository.go:452-457 | a request answered with an error after a refused push reaches the remote with the next one |
| Leftovers.LocalAfterTurn | services/cd-service/pkg/repository/repository.go:395-471 | after its turn a new request that is answered at the end has its commit on the local branch if and only if no failing fetch has moved the branch away and it was applied; a rejected one never has |
| Leftovers.FailedPushStays | services/cd-service/pkg/repository/repository.go:452-464 | after a push that is refused, lost or timed out it always has |
| Leftovers.LaterTurn | services/cd-service/pkg/repository/repository.go:395-471 | a later turn takes it to the remote exactly if its first push succeeds without a reset before it, and gives it up exactly if a fetch moves the branch |
| Leftovers.ArrivesIff | services/cd-service/pkg/repository/repository.go:286-301 | over any later run it reaches the remote if and only if some turn pushes before any turn resets |
| Leftovers.ErrorArrivesIff | services/cd-service/pkg/repository/repository.go:395-471 | together: a request answered with an error is on the remote after a later run if and only if it stayed and arrives |
| Repository.Repository.ProcessQueueOnce | services/cd-service/pkg/repository/repository.go:395-471 | one turn in place leaves the branches, the queue and the replies of the specification, never sends into a full channel unless it hangs for exactly the stated reason, and keeps all trees sound |
| Repository.Repository.AnswerOrHang | services/cd-service/pkg/repository/queue.go:42-49 | a send into the channel of capacity one: it blocks if a value is in it and its reader has left |
| Repository.Repository.Serve | services/cd-service/pkg/repository/repository.go:293-301 | one iteration of the endless loop: the oldest request of the queue begins a turn |
| Repository.Repository.ApplyElements | services/cd-service/pkg/repository/repository.go:303-328 | deleting from the list by index, with the recursive call after a reset, computes the specification; it terminates |
| Repository.Repository.ApplyOne | services/cd-service/pkg/repository/repository.go:740-802 | a request gets one commit on the head with the tree of its transformers, or leaves the head alone |
| Repository.Repository.DrainQueue | services/cd-service/pkg/repository/repository.go:352-370 | empties the queue, keeps the elements that are not canceled in order, and answers the others |
| Repository.Repository.Reset | services/cd-service/pkg/repository/repository.go:804-855 | moves the local branch to the fetched one, or fails with or without having done so |
| Repository.Repository.PushWithRetries | services/cd-service/pkg/repository/repository.go:876-897 | at most seven attempts, ending with success, divergence or the last failure |
| Repository.Repository.Add | services/cd-service/pkg/repository/queue.go:42-56 | the element is queued, or its context ends and it is answered |
| Trees.ContentOfId | services/cd-service/pkg/fs/fs.go:229-300 | reading back the id a tree is written under gives the tree |
| Trees.IdOfContent | services/cd-service/pkg/fs/fs.go:229-300 | writing what was read gives the same id |
| FileSystem.TreeBuilderFS.Insert | services/cd-service/pkg/fs/fs.go:100-112 | the id written for a node is that of the tree it stands for, loaded or not; the store only grows and stays complete; it fails if and only if there is a new link with an empty target |
| FileSystem.TreeBuilderFS.InsertEntries | services/cd-service/pkg/fs/fs.go:271-300 | the loop over the entries, in any order, builds the tree object of the directory |
| FileSystem.TreeBuilderFS.Reopen | services/cd-service/pkg/fs/fs.go:540-548 | opening the id that was written shows the same tree |
| WriteBack.WritableTree | services/cd-service/pkg/fs/fs.go:198-212 | trees without empty links can always be written |
| WriteBack.UnloadedId | services/cd-service/pkg/fs/fs.go:271-274 | what was never loaded keeps its id |
| WriteBack.UnchangedId | services/cd-service/pkg/fs/fs.go:271-300 | what was loaded but stands for the same content keeps its id |
| NodeChanges.LoadingIsNotSeen | services/cd-service/pkg/fs/fs.go:229-269 | loading a directory changes neither its tree nor that of the root |
| TreeFs.AbsUpdate | services/cd-service/pkg/fs/fs.go:221-227 | a changed directory is seen from the root at the path its parent pointers give, and nowhere else |
| TreeFs.AttachedPath | services/cd-service/pkg/fs/fs.go:221-227 | following the parent pointers gives the path under which the root shows the directory |
| FileSystem.TreeBuilderFS.Load | services/cd-service/pkg/fs/fs.go:229-269 | loads a directory in place, keeping all invariants, all paths and the tree |
| FileSystem.TreeBuilderFS.LoadLink | services/cd-service/pkg/fs/fs.go:184-196 | loads the target of a link without changing the tree |
| FileSystem.TreeBuilderFS.Traverse | services/cd-service/pkg/fs/fs.go:403-451 | the loop with parents, links put in front and created directories does what the recursive walk does, and terminates when the walk follows finitely many links |
| Paths.WalkEnds | services/cd-service/pkg/fs/fs.go:403-451 | if links resolve through plain directories only, every walk ends |
| Paths.PlainWalkEnds | services/cd-service/pkg/fs/fs.go:439-445 | it follows at most one link for each component of the path |
| Paths.WalkGrows | services/cd-service/pkg/fs/fs.go:424-435 | a walk adds directories only, and without creation nothing; it ends in a directory of the tree it leaves |
| Paths.WalkAgain | services/cd-service/pkg/fs/fs.go:481-484 | with the missing directories created, the same walk finds the same place and adds nothing |
| Paths.GrownAt | services/cd-service/pkg/fs/fs.go:424-435 | nothing that was there is lost, and files and links stay what they were |
| Paths.NewIsDir | services/cd-service/pkg/fs/fs.go:424-435 | what is new is a directory |
| Paths.NewIsPassed | services/cd-service/pkg/fs/fs.go:403-451 | everything a walk adds lies on its way: the same walk passes through it in the tree it leaves |
| Paths.PassedBeginnings | services/cd-service/pkg/fs/fs.go:403-451 | over plain names that are the beginnings of the path |
| FileSystem.TreeBuilderFS.MkdirAll | services/cd-service/pkg/fs/fs.go:481-484 | makes the directories of a path; everything new lies on that path |
| FileSystem.TreeBuilderFS.OpenFile | services/cd-service/pkg/fs/fs.go:319-358 | opens a file that is not open, at its beginning, creates an empty one, or tells why not |
| FileSystem.TreeBuilderFS.Write | services/cd-service/pkg/fs/fs.go:129-136 | puts the data behind the loaded content from the position on, seen from the root at the path of the file and nowhere else; a file that is not loaded is replaced, but not by nothing |
| FileSystem.TreeBuilderFS.WriteFile | services/cd-service/pkg/repository/transformer.go:277-284 | opening, writing once and closing: a new file has the data, a loaded one the data behind its content, one that is not loaded the data unless they are empty |
| FileSystem.TreeBuilderFS.WriteReplacesIff | services/cd-service/pkg/repository/transformer.go:1090-1096 | a file has what was written exactly if it was empty, or was not loaded and something was written |
| FileSystem.TreeBuilderFS.ReadFile | services/cd-service/pkg/repository/repository.go:1559-1569 | gives the content without changing the tree, and leaves the file loaded |
| NodeChanges.WrittenAtPath | services/cd-service/pkg/fs/fs.go:129-136 | a file written in place changes the tree of the root at its path only, since no node is an entry of two directories |
| FileSystem.TreeBuilderFS.Stat | services/cd-service/pkg/fs/fs.go:360-373 | the name of what is at the path, without following it |
| FileSystem.TreeBuilderFS.Symlink | services/cd-service/pkg/fs/fs.go:513-528 | puts a link at the path |
| FileSystem.TreeBuilderFS.Remove | services/cd-service/pkg/fs/fs.go:379-389 | removes what is at the path; it is no error if nothing is |
| FileSystem.TreeBuilderFS.Readlink | services/cd-service/pkg/fs/fs.go:490-511 | the target of the link at the path, without following it |
| FileSystem.TreeBuilderFS.ReadDir | services/cd-service/pkg/fs/fs.go:462-479 | the names in a directory; a missing one reads as empty; afterwards its files are loaded |
| OnDisk.ReadSymlink | services/cd-service/pkg/repository/repository.go:1280-1298 | reading a link, joining its text with the path of its directory and looking for the release gives exactly what the repository as a value says, dangling links included |
| OnDisk.QueueVersion | services/cd-service/pkg/repository/transformer.go:988-1012 | making the directory, removing the old link and putting the new one leave a tree that shows the new repository |
| OnDisk.DeleteQueuedVersionIfExists | services/cd-service/pkg/repository/repository.go:1264-1273 | the queue link is gone if it could be read, and an error if its release is gone |
| OnDisk.IsBlocked | services/cd-service/pkg/repository/transformer.go:1038-1050 | listing both directories of locks tells whether there is a lock |
| OnDisk.DeployVersion | services/cd-service/pkg/repository/transformer.go:1017-1138 | the steps of a deployment in the file system succeed and fail as the deployment of the value, and leave a tree that shows what it leaves, up to the cleanup |
| OnDisk.RemoveVersions | services/cd-service/pkg/repository/transformer.go:616-632 | removing the directories of releases removes exactly these releases |
| Layout.LinkIsRelative | services/cd-service/pkg/fs/fs.go:439-445 | the names in a link are taken from the directory it lies in |
| Layout.RootedLinkIsRelative | services/cd-service/pkg/fs/fs.go:413-415 | even if it begins with a slash |
| Layout.LinkLeadsToRelease | services/cd-service/pkg/fs/fs.go:439-445 | a path through a link of an application leads into the release that the link names |
| Layout.WalkDown | services/cd-service/pkg/fs/fs.go:403-451 | over plain names a walk finds what is there, or makes exactly the missing directories |
| Layout.LinkChanged | services/cd-service/pkg/repository/transformer.go:1071-1084 | changing the tree at the path of a link is changing the link of the repository, and nothing else |
| PathNames.DownAgain | services/cd-service/pkg/repository/repository.go:1289-1290 | joining the directory of a link with its text gives the path of the release |
| PathNames.JoinedComponents | services/cd-service/pkg/fs/fs.go:403-404 | splitting a joined path of plain names gives the names back |
| PathNames.ParseDecimal | services/cd-service/pkg/repository/repository.go:1294-1295 | the name of a release directory is read back as its number |
| Distance.Distances | services/cd-service/pkg/mapper/environments_config.go:59-115 | the worklist terminates and gives every environment whose chain ends the recursive distance, and each of the k others a value from 667 to 666+k |
| Distance.DistEquations | services/cd-service/pkg/mapper/environments_config.go:62-103 | the recursive distance: 0 for latest, 100 without an upstream, 667 for a missing one, else one more than the upstream |
| Distance.DistanceOfConfig | services/cd-service/pkg/mapper/environments_config.go:62-103 | the same, told from the configuration files; latest wins over an environment name |
| Distance.UngroundedIffReachesCycle | services/cd-service/pkg/mapper/environments_config.go:104-112 | a chain does not end if and only if it runs into a cycle |
| Distance.BreakCycle | services/cd-service/pkg/mapper/environments_config.go:104-112 | the upstreams of everything left get 666 |
| Mapper.MapEnvironmentsToGroups | services/cd-service/pkg/mapper/environments_config.go:29-144 | for any iteration order: every environment is grouped by its group name, groups and environments are sorted, priorities follow from the distances, and each group has the distance of the environment of it that came first |
| Mapper.MappingUnique | services/cd-service/pkg/mapper/environments_config.go:117-143 | without cycles groups, their order, environments and priorities do not depend on the iteration order |
| Mapper.MappingUniqueIff | services/cd-service/pkg/mapper/environments_config.go:117-143 | without cycles the whole result, with the distances of the groups, does not depend on it if and only if the environments of each group have the same distance |
| Mapper.OtherOrder | services/cd-service/pkg/mapper/environments_config.go:117-131 | where they have not, some other order gives a different result |
| Mapper.TwoOrders | services/cd-service/pkg/mapper/environments_config.go:117-131 | two orders of one configuration with different results |
| Mapper.ExactlyOneGroup | services/cd-service/pkg/mapper/environments_config.go:146-152 | each environment lies in exactly one group, the one its configuration names |
| Mapper.SomeProd | services/cd-service/pkg/mapper/environments_config.go:154-173 | some environment has priority PROD, and these are exactly the farthest |
| Mapper.PriorityMeans | services/cd-service/pkg/mapper/environments_config.go:154-173 | each priority in terms of the greatest distance: the wrap-around does not show |
| Mapper.PriorityMonotone | services/cd-service/pkg/mapper/environments_config.go:154-173 | priority is monotone in the distance, with the 32-bit wrap-around for distance 0 |
| Mapper.CalculatePriorities | services/cd-service/pkg/mapper/environments_config.go:154-173 | the two loops give each environment the priority of its distance |
| Strings.LessIff | services/cd-service/pkg/mapper/environments_config.go:184-198 | the order of names: a beginning comes first, else the first difference decides |
| Mapper.GroupOrder | services/cd-service/pkg/mapper/environments_config.go:202-216 | the order of groups is a strict total order on them |
| Mapper.EnvironmentOrder | services/cd-service/pkg/mapper/environments_config.go:184-198 | so is the order of environments |
| Broadcast.Broadcast.LiveListenerKnowsAll | services/rollout-service/pkg/service/broadcast.go:189-203 | the last event of each key among the snapshot and everything sent is what the state says of the key, and there are no other keys |
| Broadcast.RebuildIsLast | services/rollout-service/pkg/service/broadcast.go:189-203 | keeping the last event of each key is well defined by the order of the events alone |
| Broadcast.Broadcast.Publish | services/rollout-service/pkg/service/broadcast.go:108-119 | every listener is sent the event or, with a full channel, closed and dropped; a dropped one has seen a prefix of the history; nothing is sent to or closed twice |
| Broadcast.Broadcast.ProcessArgoEvent | services/rollout-service/pkg/service/broadcast.go:44-52 | afterwards the application has the version and status that Argo reports, what Kuberpult said stays, and no other key changes; if version or status is new, every listener that stays is sent exactly one event that tells it, else nothing happens |
| Broadcast.Broadcast.ProcessKuberpultEvent | services/rollout-service/pkg/service/broadcast.go:54-61 | the same for the version that ought to run, and its group |
| Versions.LastEventsCount | services/rollout-service/pkg/service/broadcast.go:44-61 | after any events, what is known of an application is what the last event of each kind has said |
| Broadcast.Broadcast.Start | services/rollout-service/pkg/service/broadcast.go:189-203 | the snapshot shows the whole state, and the new listener starts where it was taken |
| Broadcast.Broadcast.DisconnectAll | services/rollout-service/pkg/service/broadcast.go:150-158 | closes every listener once |
| Broadcast.Channel.Receive | services/rollout-service/pkg/service/broadcast.go:166-175 | the reader gets the events in the order they were sent, and after the last one of a closed channel learns that there is no more |
| Broadcast.StatusOf | services/rollout-service/pkg/service/broadcast.go:222-243 | success needs a healthy application in sync whose last operation did not fail; the conditions for error and unknown |
| Broadcast.GetEvent | services/rollout-service/pkg/service/broadcast.go:63-78 | tells what is known, and progress while the two versions differ, so that success is never reported then |
| Broadcast.ToldMore | services/rollout-service/pkg/service/broadcast.go:94-148 | one more event keeps snapshot and history consistent with the state |
| Versions.Reader.Consume | services/rollout-service/pkg/versions/versions.go:127-190 | after each overview the version held for every application in every environment is the one shown, and 0 for everything absent |
| Versions.Reader.ProcessDeleted | services/rollout-service/pkg/versions/versions.go:178-190 | events of version 0 leave nothing held that is not in the overview; repeated ones do no harm |
| Versions.ArgoDoesNotMatter | services/rollout-service/pkg/versions/versions.go:127-190 | events from Argo in between do not change the versions held |
| Versions.KuberpultEventHeld | services/rollout-service/pkg/service/broadcast.go:54-61 | an event sets the version held for its key, and no other |
| Overviews.QuiescentStreamsAreUpToDate | services/cd-service/pkg/service/overview.go:363-421 | in every interleaving of commits, updater and streams: at rest every open stream has sent the stored overview, which is at least as new as the repository at the last notification |
| Overviews.RunKeepsInv | services/cd-service/pkg/service/overview.go:363-421 | in every reachable state a stream that is behind has a token, is about to load, or is still to be told |
| Overviews.ComesToRest | services/cd-service/pkg/service/overview.go:363-421 | without new commits, notifications or subscribers every schedule comes to rest after boundedly many steps |
| Overviews.Notify.NotifyAll | services/cd-service/pkg/notify/notify.go:46-55 | afterwards every listener has a notification |
| Overviews.Notify.Subscribe | services/cd-service/pkg/notify/notify.go:28-44 | a new channel already holds one |
| Rbac.LookupIsScan | pkg/auth/rbac.go:205-221 | for all strings, the eight lookups of formatted lines allow exactly what scanning the parsed lines allows |
| Rbac.CheckUserPermissions | pkg/auth/rbac.go:205-229 | the three nested loops allow if and only if one of the lines is in the policy |
| Rbac.GrantsIsFormat | pkg/auth/rbac.go:86-174 | a valid line grants exactly the arguments it would be formatted from |
| Rbac.FormatIsInjective | pkg/auth/rbac.go:205-221 | with five fields, formatting loses nothing, whatever the arguments contain |
| Rbac.NamesIff | services/cd-service/pkg/valid/validations.go:24-43 | names of environments have up to 20 characters of that kind, those of applications up to 39 |
| Rbac.MatchesNameIff | services/cd-service/pkg/valid/validations.go:24-29 | the pattern for names, split at dashes, accepts exactly letters and digits with single dashes between them |
| Rbac.ParseThenFormat | pkg/auth/rbac.go:141-174 | a valid line is its permission written out again |
| Rbac.FormatThenParse | pkg/auth/rbac.go:86-174 | a line written for valid arguments is accepted and read back as these, unless the action needs the wildcard environment |
| Rbac.ReadRbacPolicy | pkg/auth/rbac.go:176-203 | the policy has exactly the trimmed lines, or the error of the first invalid one |

## Left out

- Bootstrap mode: environment configurations are read from the repository only.
- RBAC inside the transformers: they run with Dex switched off; the lookup itself is in `Rbac.dfy`.
- Timestamps, commit messages, authors, lock messages, display versions, source repository URLs and manifest contents: inert data.
- Transformers.State.NewEnvironment: writing to an existing configuration file appends or overwrites, depending on what was loaded (`FileSystem.TreeBuilderFS.WriteFile`); the parameter `overwrite` stands for the outcome.
- Transformers.State.CreateVersion: writing to a team file that is already loaded appends (`FileSystem.TreeBuilderFS.WriteFile`); the parameter `team` stands for what the file holds afterwards.
- 64-bit wrap-around of release numbers: release numbers are unbounded.
- The rendering for Argo CD and the metrics after the transformers: only that they read every configuration, and with which error they fail.
- Panics inside transformers, and a missing user in the context.
- Repository.Repository.TryPush: an attempt that fails after the remote has accepted it is not modelled; it could be committed a second time after a reset.
- The endless loop around `Repository.Repository.Serve` is the sequence of turns of `WorkerRuns.Run`; shutting it down is left out.
- The webhook to Argo CD and the garbage collection of the repository.
- FileSystem.TreeBuilderFS.Write: a position behind the end of the content, which only several writes to one open file can reach, is a panic; it is excluded by precondition.
- OnDisk.DeployVersion: the copies of manifests and the notes about who deployed; which releases are old is found by `Transformers.State.FindOldVersions`.
- Object modes other than trees, files and links, and failing object reads: the store is complete.
- Nodes are entries of a list and refer to each other by index; entries that are overwritten or removed stay in the list, unreachable.
- FileSystem.TreeBuilderFS.Traverse: a walk through cyclic links does not end in the program; it is excluded by precondition.
- Broadcast: events from Argo always carry a version; one lock guards all operations, so they are taken as atomic.
- Versions: reconnecting the stream and the cache of overviews.
- Overviews: shutdown, and errors of sending; the overview of a repository state is represented by the number of that state.
- The React user interface, HTTP and gRPC handlers, PGP signatures, logins, and git transport.

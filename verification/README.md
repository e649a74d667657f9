# Verification models for Noctaxris

Dafny 4.11 models of the hardest logic of Noctaxris, a local AWS lab, with proofs of what that logic promises.
`dafny verify dfyconfig.toml` checks the whole project. Each module follows one component:

| file | component |
|---|---|
| `AppSync.dfy`, `AppSyncErrors.dfy`, `AppSyncShape.dfy`, `AppSyncTrace.dfy` | the GraphQL selection executor: selection trees over JSON, Lambda resolvers as an arbitrary oracle, the default field resolver, lists, errors with paths (the idea of section 6.4, Executing Fields, and section 7.1.2, Errors, of the GraphQL specification, October 2021) |
| `EcsTask.dfy`, `EcsOutcome.dfy` | `RunECSTask` and `StopECSTask` with the credential sidecar, one step per Docker call, each call answered by an oracle; the methods of the client are tied to the steps; with which answers a run or a stop succeeds |
| `EcsProtocol.dfy` | any number of runs and stops interleaved at that granularity, with containers exiting and the sidecar being replaced or lost |
| `EcsAccess.dfy` | who may read a task's credentials in those interleavings |
| `BatchJob.dfy` | the submit handler of a Batch job and its reaper, interleaved, and the statuses they write |
| `Invoke.dfy`, `InvokeOutcome.dfy` | one-shot invokes over one code directory, with scratch directories and deferred cleanup, alone and interleaved; with which answers one succeeds |
| `Layers.dfy` | layer merging on a model filesystem |
| `BindsHash.dfy`, `DataPlane.dfy` | the bind fingerprint, the idempotent ensure of a named data container, the health wait |
| `Duck.dfy` | the DuckDB view printer and a reader with the lexical rules of SQL-92 (subclauses 5.2 and 5.3) |
| `UserData.dfy` | the user-data decoder and base64 (sections 4 and 5 of RFC 4648) |
| `Credentials.dfy` | credential ids in environment variables and request paths (UUID text form, section 3 of RFC 4122) |
| `Paths.dfy`, `InvokePaths.dfy` | REST path parameters with the route matcher; the invoke path parsers and the CloudFront edge rewrite |
| `LabRegistry.dfy` | the image allow check and the lab registry rewriting |
| `Form.dfy` | indexed lists in AWS Query parameters |
| `GoStrings.dfy`, `Wrappers.dfy` | the parts of Go's `strings` package that are used; `Option` |

## How the models are built

Code that changes state step by step appears twice: as a step function, in which every call to Docker, the
filesystem or the store is one step with an arbitrary answer, and as class methods written as the source writes
them. Each method's postcondition says that it does what the steps do (`RunAlone`, `StopAlone`, `Alone`,
`HandlerAlone`, `ReaperAlone`); the theorems are about the steps, alone or interleaved. Loops that fill a value
are methods proved against a recursive function, about which the theorems are stated.

A container id, a UUID and a scratch name are numbers that a counter hands out, so fresh ones never collide.

## What turned out false, and the exact condition

- A stop after a run does not always restore the engine. Without role keys a caller's own credential URI stays
  in the container's environment, and `StopECSTask` then unregisters that id, whoever owns it.
  `EcsTask.StopUndoesRun` proves that the stop undoes the run exactly when this does not happen;
  `EcsTask.ForeignFilesLost` shows it happening.
- `RunECSTask` is not all or nothing, in two ways, and with answered cleanup calls an error leaves containers and
  files as they were exactly when neither happens (`EcsTask.ErrorLeavesNothingIff`). First, the registration's exec
  may report an error after it has written the credential file (a cancelled context, or a non-zero exit after the
  redirect): `attachECSIMDSEnv` and `RunECSTask` return without an unregister, and the file stays, readable by every
  task as it has no peer file (`BrokenLeavesFile`, `BrokenRegistrationLeaks`). Second, the run's own sidecar check
  may find the sidecar unusable, an inspect error being enough: it removes it by force and with it the files of
  every task, before the run fails or succeeds (`CheckKeepsIff`, `SuccessAddsOneIff`, `CheckEmptiesOthers`).
- Error paths can repeat or lead to data instead of a null when siblings share a name. They are sound for every
  resolver and schema exactly when root names are distinct and, below the root, no field with a nested selection
  comes before a sibling of its name (`AppSyncErrors.ErrorsSoundIff`).
- Re-running a projection over its own output can report an error, though it never changes the output: it
  reports nothing exactly when every nested selection meets, under its name, a nested selection that covers it
  (`AppSyncShape.ProjectionIdempotent`); distinct sibling names are enough.
- Bind lists with newlines can share a fingerprint. `BindsHash.CollidesIff` says for which lists there is another
  one, `BindsHash.CollidesWithPlainIff` for which there is one without newlines; among lists without newlines
  fingerprints agree exactly for equal multisets.
- Unpadded URL-safe base64 is decoded exactly when its length needs no padding or it has neither special digit
  (`UserData.UnpaddedUrlSafe`, with `UnpaddedUrlSafeFails`); otherwise the text is returned as it is.
- An edge request reaches "/" + key exactly when the key has no slash at either end
  (`InvokePaths.EdgeInvokesKey`, with `LeadingSlashLost`).
- Path parameters rebuild a request exactly when the template fits it and no name is asked for two values
  (`Paths.ParametersRebuild`, with `RepeatedNameLost`), a separate parameter called `proxy` included.
- Without a listen address, resolving turns an allowed lab host reference into a refused one, and resolving
  again then withdraws the credentials (`LabRegistry.ResolvedStaysAllowed`, `LabRegistry.ResolvedTwice`, with
  `BlankListenRefuses`).

## Model

| member | source | states |
|---|---|---|
| `AppSync.ExecuteSelection` | `internal/server/appsync_handlers.go:946-973` | the field resolver computes the recursive specification: resolver, fallback to the parent object, nesting |
| `AppSync.ExecuteNested` | `internal/server/appsync_handlers.go:975-1028` | objects, lists item by item, nulls and scalars under a nested selection, errors appended in order |
| `AppSync.ExecuteChildren` | `internal/server/appsync_handlers.go:1030-1049` | one map entry for each child, later siblings overwriting earlier ones, errors in order |
| `AppSync.ExecuteQuery` | `internal/server/appsync_handlers.go:924-937` | the root loop, one data entry and one path of one name for each root field, equals resolving the fields as children of nothing |
| `AppSyncErrors.SelectionErrors` | `internal/server/appsync_handlers.go:946-973` | for every resolver, error paths of a field whose nested selection is unshadowed lead to a null in its value and none is a prefix of another |
| `AppSyncErrors.NestedErrors` | `internal/server/appsync_handlers.go:975-1028` | the same for a nested selection over any value |
| `AppSyncErrors.ItemsErrors` | `internal/server/appsync_handlers.go:997-1022` | the same for a list, every error below the index of its item |
| `AppSyncErrors.ChildrenErrors` | `internal/server/appsync_handlers.go:1030-1049` | the same for an object, every error below the name of its child |
| `AppSyncErrors.QueryErrors` | `internal/server/appsync_handlers.go:924-937` | over all root fields of an unshadowed query, every reported path leads through the returned data to a null and no path is a prefix of another |
| `AppSyncErrors.ErrorsSoundIff` | `internal/server/appsync_handlers.go:924-1049` | the errors are sound for every resolver and schema exactly when root names are distinct and, below, a field with a nested selection has no later sibling of its name |
| `AppSyncErrors.ShadowedSibling` | `internal/server/appsync_handlers.go:1030-1049` | a field with a nested selection before a sibling of its name: some resolver makes the answer unsound |
| `AppSyncErrors.ShadowedBelow` | `internal/server/appsync_handlers.go:946-1049` | the same for such a field at any depth |
| `AppSyncShape.SelectionShape` | `internal/server/appsync_handlers.go:946-973` | every value fits its selection, at every depth; of siblings with one name the last decides |
| `AppSyncShape.NestedShape` | `internal/server/appsync_handlers.go:975-1028` | objects get exactly the selected keys, lists keep their length, objects and only objects become objects, the rest null |
| `AppSyncShape.ItemsShape` | `internal/server/appsync_handlers.go:997-1022` | item by item, objects conform and all else is null |
| `AppSyncShape.ChildrenShape` | `internal/server/appsync_handlers.go:1030-1049` | the object built has exactly the selected keys, each fitting the last selection of its name |
| `AppSyncShape.LastValue` | `internal/server/appsync_handlers.go:1030-1049` | under each name stands the value of the last sibling of that name |
| `AppSyncShape.ReplaySelection` | `internal/server/appsync_handlers.go:946-973` | without child resolvers, selecting again from an object that shows the value gives that value |
| `AppSyncShape.ReplayChildren` | `internal/server/appsync_handlers.go:1030-1058` | without child resolvers, selecting again from the output of any selection gives that output |
| `AppSyncShape.QuietChildren` | `internal/server/appsync_handlers.go:1030-1058` | and reports nothing when every nested selection meets one that covers it |
| `AppSyncShape.NotQuiet` | `internal/server/appsync_handlers.go:975-1028` | when one does not, some object makes the second selection report an error |
| `AppSyncShape.ProjectionIdempotent` | `internal/server/appsync_handlers.go:1030-1058` | re-running a selection over its own output never changes it, and reports nothing for every object and schema exactly when the selection covers itself |
| `AppSyncShape.DistinctIsQuiet` | `internal/server/appsync_handlers.go:1030-1049` | a selection with distinct sibling names covers itself |
| `AppSyncShape.ItemsVerbatim` | `internal/server/appsync_handlers.go:997-1022` | a leaf below one list item is copied whatever the other items report |
| `AppSyncShape.ChildrenVerbatim` | `internal/server/appsync_handlers.go:975-1058` | without child resolvers, every selected leaf holds what the source object holds at that path, unless an error is reported at a prefix of the path |
| `AppSyncTrace.ChildrenTraced` | `internal/server/appsync_handlers.go:946-1058` | for every resolver and schema, each selected leaf holds what the types, the resolvers and the parent objects along its own path give, or null and the very error met there |
| `AppSyncTrace.ChildrenErrorTraced` | `internal/server/appsync_handlers.go:946-1049` | every error that an object reports is met on the way to some selected leaf |
| `AppSyncTrace.TypesDecide` | `internal/server/appsync_handlers.go:975-1049` | resolvers matter only where they are asked for the type that the schema, folded over the response path from Query on, gives the object there |
| `AppSyncTrace.ErrorsInOrder` | `internal/server/appsync_handlers.go:1030-1049` | the first fields' errors are the first errors |
| `AppSyncTrace.ItemErrorsInOrder` | `internal/server/appsync_handlers.go:997-1022` | the first items' errors are the first errors |
| `EcsTask.UnregisterAlone` | `internal/compute/imds.go:522-556` | an unregister that gives nothing up removes exactly the two files of its id |
| `EcsTask.CleanupAlone` | `internal/compute/ecs.go:94-99` | a working rollback removes exactly the container and the files of the id |
| `EcsTask.BindAlone` | `internal/compute/imds.go:467-520` | from the bind on, the peer file with the container's address is written or container and files are gone |
| `EcsTask.StartAlone` | `internal/compute/ecs.go:172-183` | from the start on, the task runs and is bound or is rolled back |
| `EcsTask.CreatedAlone` | `internal/compute/ecs.go:154-183` | from a created container on, through the workspace copy, the same |
| `EcsTask.CreateAlone` | `internal/compute/ecs.go:145-183` | from the create on, one more task or none |
| `EcsTask.RegisterAlone` | `internal/compute/imds.go:427-465` | from the registration on, with a fresh id, one more task, or none as far as nothing is given up |
| `EcsTask.RunAllOrNothing` | `internal/compute/ecs.go:65-183` | on the engine that the run's own sidecar check leaves: a success adds one running container with its credential file and a peer file of its own address, and nothing else; an error changes nothing, as far as no id and no container is given up |
| `EcsTask.CheckKeepsIff` | `internal/compute/imds.go:141-200` | the sidecar check keeps every container, and keeps all tasks' files exactly unless it replaces or removes a sidecar that holds some; then all are gone |
| `EcsTask.SuccessAddsOneIff` | `internal/compute/ecs.go:65-183` | a success adds one container; some task that had files loses one exactly when the sidecar check emptied the sidecar, and then every task has lost both |
| `EcsTask.ErrorLeavesNothingIff` | `internal/compute/ecs.go:65-183` | when every cleanup call is answered, an error leaves all containers and all files as they were exactly when the registration has not reported an error after writing the file and the sidecar check has not emptied a sidecar with files |
| `EcsTask.AnsweredLeavesNothing` | `internal/compute/ecs.go:94-99` | answered cleanup and an unbroken registration give up no id and no container |
| `EcsTask.BrokenLeavesFile` | `internal/compute/imds.go:135-137` | a broken registration returns an error without an unregister: no new container, and a credential file of the new id without a peer file |
| `EcsTask.CheckEmptiesOthers` | `internal/compute/imds.go:148-151` | an instance of the other way: the sidecar is replaced, the registration refused, and another task's files are gone |
| `EcsTask.BrokenRegistrationLeaks` | `internal/compute/imds.go:135-137` | an instance of it |
| `EcsTask.AnsweredStopRemoves` | `internal/compute/ecs.go:186-200` | a stop without an error whose unregister calls are answered has removed exactly the container and its files |
| `EcsTask.StopRemovesOneTask` | `internal/compute/ecs.go:186-200` | whatever it answers, other containers and other ids' files are untouched; on success exactly the container and its files are gone |
| `EcsTask.StopUndoesRun` | `internal/compute/ecs.go:65-200` | a stop without an error whose unregister calls are answered restores what a run found exactly when the run did not lend its container another task's id |
| `EcsTask.UnregisterInRun` | `internal/compute/ecs.go:94-99` | the unregister of a rollback, in closed form, ends the run |
| `EcsTask.UnregisterInStop` | `internal/compute/imds.go:558-583` | the unregister of a stop, in closed form, goes on to the halt |
| `EcsTask.Client.Register` | `internal/compute/imds.go:427-465` | the method makes the register steps, error branches included |
| `EcsTask.Client.BindPeer` | `internal/compute/imds.go:467-520` | the method makes the bind steps |
| `EcsTask.Client.Unregister` | `internal/compute/imds.go:522-556` | the method leaves what the closed form says |
| `EcsTask.Client.Fail` | `internal/compute/ecs.go:94-99` | forced removal when there is a container, then the unregister when there is an id |
| `EcsTask.Client.Attach` | `internal/compute/imds.go:113-139` | sidecar check, a fresh id, registration |
| `EcsTask.Client.RunECSTask` | `internal/compute/ecs.go:65-183` | the method ends where the steps end, for every oracle |
| `EcsTask.Client.Launch` | `internal/compute/ecs.go:145-183` | the part from the container create on |
| `EcsTask.Client.CopyAndStart` | `internal/compute/ecs.go:154-183` | the part from a created container on |
| `EcsTask.Client.Start` | `internal/compute/ecs.go:172-183` | the part from the container start on |
| `EcsTask.Client.StopECSTask` | `internal/compute/ecs.go:186-200` | the method ends where the stop steps end, for every oracle |
| `EcsOutcome.RunSucceedsIff` | `internal/compute/ecs.go:65-183` | a run succeeds exactly when the copy options are good and the three calls of its straight path, nine with role keys, one more for a workspace copy, are answered without an error; it then makes no other call |
| `EcsOutcome.StopSucceedsIff` | `internal/compute/ecs.go:186-200` | a stop succeeds exactly when the container exists and its stop and removal are answered without an error, whatever the unregister answers |
| `EcsProtocol.OwnerUnique` | `internal/compute/imds.go:427-583` | under the invariant no two owners share a credential id |
| `EcsProtocol.RunStepEffect` | `internal/compute/ecs.go:65-183` | one call of a run changes only its own files and container and hands its id on or gives it up accountably |
| `EcsProtocol.StopStepEffect` | `internal/compute/ecs.go:186-200` | one call of a stop takes away at most its target and the target's files |
| `EcsProtocol.EnvironmentKeepsInv` | `internal/compute/imds.go:141-200` | containers exiting, new callers and a replaced or lost sidecar keep the invariant |
| `EcsProtocol.RunKeepsUnshared` | `internal/compute/ecs.go:65-183` | a run's call keeps ids and containers unshared |
| `EcsProtocol.RunKeepsAccounted` | `internal/compute/ecs.go:65-183` | a run's call leaves no file without an owner |
| `EcsProtocol.StopKeepsAccounted` | `internal/compute/imds.go:558-583` | a stop's call leaves no file without an owner |
| `EcsProtocol.StepKeepsInv` | `internal/compute/ecs.go:65-200` | every enabled event keeps the invariant |
| `EcsProtocol.RunsKeepInv` | `internal/compute/ecs.go:65-200` | the invariant holds after every interleaving |
| `EcsProtocol.FilesHaveOneOwner` | `internal/compute/ecs.go:65-200` | in every interleaving every id with a file, unless a failed cleanup call or a broken registration gave it up, has exactly one owner, a run in flight or an existing container, and no owner has two ids |
| `EcsProtocol.NothingAbandoned` | `internal/compute/imds.go:522-556` | an answered cleanup call gives nothing up, also when the sidecar has been replaced under it |
| `EcsProtocol.AnsweredCleanupLeavesNoOrphan` | `internal/compute/imds.go:522-583` | with answered cleanup calls no file is ever without an owner |
| `EcsAccess.RunAccess` | `internal/compute/ecs.go:65-183` | one call of a run leaves other ids' credential and peer files together and lets a container go only with its peer file written |
| `EcsAccess.StopStepAccess` | `internal/compute/ecs.go:186-200` | one call of a stop takes both files of an id away together |
| `EcsAccess.RunsKeepGuarded` | `internal/compute/imds.go:427-583` | in every interleaving the credentials of a container that no run holds are restricted by a peer file |
| `EcsAccess.OpenIdsAreInFlight` | `internal/compute/imds.go:232-270` | in every interleaving an id whose file anyone may read, unless a failed cleanup call or a broken registration gave it up, belongs to a run in flight and to no container let go |
| `EcsAccess.OnlyTheTaskReads` | `internal/compute/imds.go:245-258` | in every interleaving a returned container with an address is the only address that may read its credentials |
| `EcsAccess.LiveFilesStay` | `internal/compute/ecs.go:65-200` | in every interleaving both files of an owned id stay as they are through every event that keeps the sidecar and is no call of its owner or of a stop of its owner |
| `EcsTask.ForeignFilesLost` | `internal/compute/ecs.go:65-200` | an instance of the failing branch: run and stop of a task that names a foreign id delete that id's file |
| `BatchJob.RunsKeepInv` | `internal/server/batch_handlers.go:379-510` | what handler and reaper know, after every interleaving |
| `BatchJob.StatusHistory` | `internal/server/batch_handlers.go:379-510` | the statuses written are a prefix of RUNNING then SUCCEEDED or FAILED, or FAILED alone; a second status follows the stop; SUCCEEDED needs exit code 0 without a wait error |
| `BatchJob.SuccessHandsOver` | `internal/server/batch_handlers.go:489-494` | after a successful submit a reaper exists and only appends |
| `BatchJob.ReapStatusIff` | `internal/server/batch_handlers.go:497-511` | SUCCEEDED exactly for a wait that ends with code 0 and neither an error nor a message |
| `BatchJob.Server.SubmitOutcome` | `internal/server/batch_handlers.go:379-390` | a submit alone reports success exactly when row, container start and RUNNING write are answered without an error; a failed start writes FAILED and no RUNNING, a failed RUNNING write stops the task and writes FAILED; only a success spawns the reaper |
| `BatchJob.Server.ReapOutcome` | `internal/server/batch_handlers.go:497-511` | a reaper alone that has a client stops the task and then appends exactly SUCCEEDED for a clean exit and FAILED for every other end of the wait |
| `BatchJob.Server.StartBatchJobContainer` | `internal/server/batch_handlers.go:476-495` | the start, the RUNNING row, the stop when that write fails, the spawn |
| `BatchJob.Server.SubmitJob` | `internal/server/batch_handlers.go:379-390` | a failed start is followed by the FAILED row |
| `BatchJob.Server.ReapBatchJob` | `internal/server/batch_handlers.go:497-511` | wait, stop, then the terminal status |
| `Invoke.StepEffect` | `internal/compute/invoke.go:101-221` | one call makes, changes or gives up the directory and container of its own invoke only |
| `Invoke.CallKeepsInv` | `internal/compute/invoke.go:101-221` | every call of any invoke keeps the invariant |
| `Invoke.RunsKeepInv` | `internal/compute/invoke.go:101-221` | the invariant holds after every interleaving of any number of invokes |
| `Invoke.EveryContainerFindsItsEvent` | `internal/compute/invoke.go:112-190` | every container belongs to one invoke in flight, whose own directory holds its event and layers; the container finds that event unless the caller overrode the path |
| `Invoke.ReturnLeavesNothing` | `internal/compute/invoke.go:112-190` | a returned invoke leaves neither directory nor container unless the call removing it failed |
| `Invoke.AnsweredReturnLeavesNothing` | `internal/compute/invoke.go:106-190` | in every interleaving whose chmods of a directory and removals are answered without an error, a returned invoke leaves neither directory nor container, and all that exist belong to invokes in flight |
| `Invoke.NoScratchRemovedUnderContainer` | `internal/compute/invoke.go:112-190` | no call removes or changes the scratch directory of an existing container |
| `Invoke.Client.RunInvoke` | `internal/compute/invoke.go:76-221` | the method ends where the steps end, for every oracle |
| `Invoke.Client.InCodeDir` | `internal/compute/invoke.go:101-221` | the part from the scratch directory on |
| `Invoke.Client.InScratchDir` | `internal/compute/invoke.go:109-221` | the part from the directory's mode on; before the deferral nothing is removed |
| `Invoke.Client.WithScratch` | `internal/compute/invoke.go:112-221` | the part under the directory's deferred removal |
| `Invoke.Client.WriteEvent` | `internal/compute/invoke.go:114-128` | event file, its mode, the merged layers |
| `Invoke.Client.InFreshContainer` | `internal/compute/invoke.go:178-221` | the part under the container's deferred removal |
| `Invoke.Client.AwaitExit` | `internal/compute/invoke.go:199-220` | the three ways a wait ends |
| `InvokeOutcome.InvokeSucceedsIff` | `internal/compute/invoke.go:76-221` | an invoke succeeds exactly when every call before the wait is answered without an error, the wait ends with code 0 and no message, and the logs can be read, whatever the removals answer |
| `InvokeOutcome.WaitDecides` | `internal/compute/invoke.go:199-220` | from the wait on: success exactly for code 0 without a message and readable logs |
| `Layers.Destination.CopyEntry` | `internal/compute/layers.go:55-80` | one entry is put in place, or it fails exactly when a file and a directory meet |
| `Layers.Destination.CopyTree` | `internal/compute/layers.go:39-81` | the tree is laid over the destination exactly when the two are compatible |
| `Layers.Destination.MergeLayerDirs` | `internal/compute/layers.go:14-37` | for a non-empty list the destination becomes the overlay, whatever it held; it succeeds exactly when all layers are directories and pairwise compatible; an empty list changes nothing |
| `Layers.Destination.MergeLayer` | `internal/compute/layers.go:27-35` | one round: blank paths change nothing, a layer is laid over the merge so far exactly when it is a directory and compatible with it |
| `Layers.OverlayAt` | `internal/compute/layers.go:27-35` | a path shows what the last layer that has it holds, and nothing else is there |
| `Layers.MergedAt` | `internal/compute/layers.go:14-37` | in terms of the list of paths: the merge has an entry exactly where some directory of the list has one, and shows what the last of those holds |
| `Layers.OverlayConcat` | `internal/compute/layers.go:14-37` | merging a concatenation is overlaying the second merge on the first |
| `Layers.OverlayWellFormed` | `internal/compute/layers.go:14-37` | the result is closed under parents |
| `Layers.AccumulatedCompatible` | `internal/compute/layers.go:67-80` | checking each layer against the merge so far is checking all pairs |
| `Layers.VisitEntry` | `internal/compute/layers.go:55-80` | visiting entries parents first, each step fails exactly on a clash |
| `BindsHash.SortSorted` | `internal/compute/dataplane.go:529-530` | sorting sorts |
| `BindsHash.SortedUnique` | `internal/compute/dataplane.go:529-530` | a multiset has one sorted listing, so any correct sort gives the same text |
| `BindsHash.FingerprintIff` | `internal/compute/dataplane.go:525-533` | bind lists without newlines share a fingerprint exactly when they are equal as multisets |
| `BindsHash.CollidesWithPlainIff` | `internal/compute/dataplane.go:525-533` | a list shares its fingerprint with a different newline-free list exactly when it has a newline and the lines of its joined form are sorted |
| `BindsHash.CollidesIff` | `internal/compute/dataplane.go:525-533` | a list shares its fingerprint with some different list exactly when it has two binds or more, or one bind that a newline cuts into two parts in order |
| `BindsHash.NewlineCollides` | `internal/compute/dataplane.go:531-531` | an instance: one bind of two lines and two binds |
| `DataPlane.Client.StartDataPlane` | `internal/compute/dataplane.go:374-466` | one container of the name with the client's own labels, or nothing running; succeeds exactly for valid options, a free name and three answered calls |
| `DataPlane.Client.CreateAndStart` | `internal/compute/dataplane.go:412-466` | the create, the start and the forced removal; succeeds exactly for a free name and two answered calls |
| `DataPlane.Client.StopDataPlane` | `internal/compute/dataplane.go:536-557` | the container is gone exactly when it answers without an error, which is when it was missing or both calls are answered |
| `DataPlane.Client.EnsureDataPlaneByName` | `internal/compute/dataplane.go:471-523` | succeeds exactly when the calls that its branch needs are answered, valid options given where a container is created; then one container bears the name, runs and carries the fingerprint, the old one exactly when that had it; recreated only when outdated; other names untouched |
| `DataPlane.Client.EnsureFound` | `internal/compute/dataplane.go:486-522` | the branches for a container that bears the name, with the exact answers that each needs |
| `DataPlane.Client.Recreate` | `internal/compute/dataplane.go:491-496` | the branch for changed binds; succeeds exactly for valid options and five answered calls |
| `DataPlane.Client.StartAnew` | `internal/compute/dataplane.go:491-496` | its second half, the start in place of the removed container |
| `DataPlane.Client.Reuse` | `internal/compute/dataplane.go:497-517` | the branch for unchanged binds; succeeds exactly when the container runs or its start is answered |
| `DataPlane.Client.EnsureAgain` | `internal/compute/dataplane.go:471-523` | containers stop, then one ensure: on success, certain when all calls are answered, the history of ensures grows by it and its recreation is counted |
| `DataPlane.Client.EnsureEach` | `internal/compute/dataplane.go:468-523` | a list of ensures of one name, containers stopping in between: if all succeed, as they do when all calls are answered, the client has recreated as often as adjacent binds differ as multisets, and one running container bears the name with the last fingerprint |
| `DataPlane.LabelsHash` | `internal/compute/dataplane.go:401-411` | no user label replaces the fingerprint |
| `DataPlane.RecreatedPerBindChange` | `internal/compute/dataplane.go:468-523` | over every history of successful ensures, with stops in between, recreations count the adjacent calls whose bind multisets differ |
| `DataPlane.OutdatedIff` | `internal/compute/dataplane.go:487-491` | a found container is outdated exactly when the call before asked for other binds |
| `DataPlane.HistoryEndsEnsured` | `internal/compute/dataplane.go:468-523` | then exactly one container bears the name, running, with the last fingerprint |
| `DataPlane.WaitDataPlaneHealthy` | `internal/compute/dataplane.go:593-637` | success at the first poll whose unbroken running stretch spans two seconds, no earlier poll having failed; otherwise the failure at the first failing poll |
| `DataPlane.StableIffSomeStretch` | `internal/compute/dataplane.go:614-622` | with a monotone clock the loop's test at a poll holds exactly when some running stretch ending there spans two seconds |
| `Duck.DuckSetupSQL` | `internal/compute/duckdb.go:139-153` | the builder loop computes the specification |
| `Duck.TableLine` | `internal/compute/duckdb.go:141-150` | which tables are kept and what is written for one |
| `Duck.ReadDoubled` | `internal/compute/duckdb.go:155-162` | quoted text of any content is read back, with the rest untouched |
| `Duck.ReadsStatement` | `internal/compute/duckdb.go:120-137` | a statement reads as exactly its tokens before anything that follows |
| `Duck.RenderedReadsBack` | `internal/compute/duckdb.go:120-153` | any list of views is read back from its text |
| `Duck.SetupRenders` | `internal/compute/duckdb.go:139-153` | the setup text is the rendering of the kept tables' views |
| `Duck.SetupRoundTrip` | `internal/compute/duckdb.go:106-162` | the reader gets back exactly the kept tables in order: trimmed name, read function, and the location, a prefix as the glob over it |
| `Duck.ViewsOfKept` | `internal/compute/duckdb.go:139-153` | one view for each kept table, in order |
| `Duck.ViewOfSays` | `internal/compute/duckdb.go:106-153` | a table is kept exactly when it has a name and an s3 location; its view has the trimmed name, parquet before JSON before CSV as the two format fields mention them, and the globbed location |
| `Duck.ReadFunctionIff` | `internal/compute/duckdb.go:107-117` | the joined format text mentions a word exactly when one of the two fields does |
| `Duck.GlobOf` | `internal/compute/duckdb.go:127-133` | a location stays itself exactly when it is a data file without a final slash; all else becomes the glob over one prefix with one added slash at most |
| `UserData.DecodeEncode` | `internal/compute/userdata.go:27-38` | each decoder inverts its own encoder |
| `UserData.UnpaddedByPadded` | `internal/compute/userdata.go:27-38` | the padded decoder takes exactly the unpadded texts that need no padding |
| `UserData.DecodesBack` | `internal/compute/userdata.go:12-45` | padded and unpadded standard and padded URL-safe encodings of non-empty UTF-8 decode back under any surrounding white space |
| `UserData.UnpaddedUrlSafe` | `internal/compute/userdata.go:22-45` | unpadded URL-safe text decodes exactly when it needs no padding or has neither special digit |
| `UserData.UnpaddedUrlSafeFails` | `internal/compute/userdata.go:22-45` | an instance: unpadded URL-safe text that is not decoded |
| `UserData.ScriptUnchanged` | `internal/compute/userdata.go:12-26` | a shebang script, also after blanks, is returned unchanged |
| `UserData.BlankIsEmpty` | `internal/compute/userdata.go:12-20` | blank user data is empty |
| `UserData.BinaryUnchanged` | `internal/compute/userdata.go:12-45` | an encoding of bytes that are not text is returned unchanged |
| `Credentials.SidecarAgrees` | `internal/compute/imds.go:232-270` | the sidecar serves a path, the nil UUID aside, exactly when the matcher accepts it and its tail is hyphenated text, and both read one lower-case id |
| `Credentials.CredIDFromEnvList` | `internal/compute/imds.go:385-414` | the loop keeps the last value of each variable; relative first, then the full URI |
| `Credentials.PathOfCanonical` | `internal/compute/imds.go:348-383` | a canonical non-nil id is what its own path is matched to |
| `Credentials.MatchIsCanonical` | `internal/compute/imds.go:348-383` | whatever path is matched, the id is canonical and not nil |
| `Credentials.OtherForms` | `internal/compute/imds.go:348-358` | an id is also read in braces, as a URN and without hyphens, always to the same canonical text |
| `Credentials.EnvOfCanonical` | `internal/compute/imds.go:85-96` | the two variables set for an id |
| `Credentials.CredIDRoundTrip` | `internal/compute/imds.go:385-425` | from a list whose last entries for those variables carry an id, in any place, that id is recovered, also by the full URI alone |
| `Credentials.RelativeDecides` | `internal/compute/imds.go:399-414` | the relative URI decides when it is a credential path, else the full one; nothing else gives an id |
| `Paths.MatchScore` | `internal/store/apigateway_rest.go:761-803` | the matcher's loop accepts exactly the requests that fit segment by segment and scores them |
| `Paths.ScoreCounts` | `internal/store/apigateway_rest.go:761-803` | a matched template scores ten for each literal segment and one for each placeholder, a final proxy one more |
| `Paths.NormalizeKeepsParts` | `internal/store/apigateway_rest.go:749-758` | normalizing a path without surrounding white space changes no segment |
| `Paths.RestPathParameters` | `internal/server/apigateway_rest_invoke.go:324-346` | the loop computes the assignments in order, nil for none |
| `Paths.PlaceholderIff` | `internal/server/apigateway_rest_invoke.go:336-339` | a segment is a placeholder exactly when it is a name in braces |
| `Paths.NameInBraces` | `internal/server/apigateway_rest_invoke.go:336-339` | and that name is what its parameter is called |
| `Paths.PathPartsAreSegments` | `internal/server/apigateway_rest_invoke.go:348-354` | the segments rebuild the trimmed path and the last is not empty |
| `Paths.SubstituteAgrees` | `internal/server/apigateway_rest_invoke.go:324-346` | a map put into a template gives the request exactly when it agrees with every assignment |
| `Paths.ParametersRebuild` | `internal/server/apigateway_rest_invoke.go:324-354` | for every template and request the parameters rebuild the request exactly when the template fits and no name is asked for two values |
| `Paths.DistinctNamesRebuild` | `internal/server/apigateway_rest_invoke.go:324-354` | with distinct names they rebuild a request the matcher accepts, empty inner segments included, exactly when the template fits the untrimmed segments, as it does for trimmed paths |
| `Paths.SubstituteMatches` | `internal/server/apigateway_rest_invoke.go:324-346` | only a request that the template fits is ever rebuilt |
| `Paths.RepeatedNameLost` | `internal/server/apigateway_rest_invoke.go:336-339` | an instance: a repeated name loses a value |
| `InvokePaths.ParseHTTPIff` | `internal/server/apigateway_invoke.go:15-39` | the parser reads exactly the paths that spell an API, a stage and a route; the predicate holds exactly when it succeeds |
| `InvokePaths.ParseRestIff` | `internal/server/apigateway_rest_invoke.go:16-40` | the same for REST APIs |
| `InvokePaths.EdgeKey` | `internal/server/cloudfront_edge.go:27-38` | the object key of an edge path is the text after the distribution less one final slash |
| `InvokePaths.RewrittenRoute` | `internal/server/cloudfront_edge.go:266-271` | a rewritten route is read back less one final slash |
| `InvokePaths.EdgeInvokesKey` | `internal/server/cloudfront_edge.go:251-272` | edge parse, rewrite and HTTP API parse give the API, the default stage and "/" + key exactly for keys without a slash at either end |
| `InvokePaths.LeadingSlashLost` | `internal/server/cloudfront_edge.go:261-265` | the failing keys exist: a leading slash is lost |
| `LabRegistry.AllowImagePull` | `internal/compute/image_allow.go:20-43` | the checks in order; the first fitting prefix of the allowlist decides |
| `LabRegistry.AllowedIff` | `internal/compute/image_allow.go:20-43` | allowed exactly when built in or the first fitting prefix of the allowlist needs no digest or the reference has one; refused for want of a digest exactly when that prefix needs it |
| `LabRegistry.NeedsDigestIff` | `internal/compute/image_allow.go:149-156` | a prefix needs a digest exactly when a dot or a colon stands in it before any slash or at sign |
| `LabRegistry.ECRPathForm` | `internal/compute/image_allow.go:62-95` | a lab path is twelve digits, a plain name and an optional tag or digest, without ".." |
| `LabRegistry.DinDHostIff` | `internal/compute/lab_registry.go:14-24` | the engine reaches the lab under the port of the listen address, or under that of the lab registry when the address has none |
| `LabRegistry.LabPort` | `internal/compute/lab_registry.go:18-19` | that port is 4566 |
| `LabRegistry.PortOfAddress` | `internal/compute/lab_registry.go:17-17` | the port of host:port, and of [host]:port for a host with colons |
| `LabRegistry.CredentialsIff` | `internal/compute/lab_registry.go:47-61` | on every input credentials go with lab-prefixed and lab registry references, and among allowed ones with exactly the latter |
| `LabRegistry.ResolvedStaysAllowed` | `internal/compute/lab_registry.go:28-61` | a built-in allowed reference stays allowed, except a lab host one without a listen address |
| `LabRegistry.ResolvedTwice` | `internal/compute/lab_registry.go:47-61` | resolving twice is resolving once, except for a lab host reference with a bad path or no listen address |
| `LabRegistry.BlankListenAddress` | `internal/compute/lab_registry.go:28-61` | without a listen address every allowed lab host reference is resolved into a refused one |
| `LabRegistry.BlankListenRefuses` | `internal/compute/lab_registry.go:28-61` | an instance of it |
| `LabRegistry.PinnedIsPublic` | `internal/compute/image_allow.go:97-147` | no pinned image starts like a registry host of the lab |
| `Form.AtoiItoa` | `internal/awsprotocol/form.go:44-47` | decimal printing can be read back, so indices have distinct keys |
| `Form.KeyNamesOneIndex` | `internal/awsprotocol/form.go:44-47` | no key in either shape names two indices |
| `Form.MemberList` | `internal/awsprotocol/form.go:41-54` | the unbounded loop ends on every parameter map and returns the values up to the first blank index |
| `Form.MemberListUnique` | `internal/awsprotocol/form.go:41-54` | the parameters determine that list |
| `Form.MemberListDecodes` | `internal/awsprotocol/form.go:39-54` | laid over any other parameters, the indexed encoding of trimmed non-blank values, key shapes mixed, is read back exactly when those say nothing else under the member keys that win over it and are blank at the next index |

## Left out

- EcsTask.Client.Register: a mutating call that reports an error after it has taken effect is modelled for the exec calls that write files and for the ensure of the sidecar only; a create, start, stop or remove that fails has no effect.
- EcsProtocol.FilesHaveOneOwner: speaks of files that neither a failed cleanup call nor a broken registration has given up; such ids are collected in `abandoned`, and `AnsweredCleanupLeavesNoOrphan` shows when that set is empty. Callers without role keys are assumed not to set the credential URI variables, as the counterexample family of `StopUndoesRun` shows they must not.
- EcsProtocol.EnvironmentKeepsInv: task containers exit, but only runs and stops remove them; one removed from outside would leave its files without an owner.
- EcsAccess.OnlyTheTaskReads: says nothing about a container that has exited, whose address another container may be given later.
- EcsTask.RunAllOrNothing: validation, network and image pull are one step with one answer; the replacement of the sidecar container is one step that empties its files, so two callers creating it at once are not modelled.
- Invoke.EveryContainerFindsItsEvent: the event path is a datatype, not text; image, network and command choice before the scratch directory are one step; a failing layer merge leaves no partial merge in the model.
- Layers.Destination.MergeLayerDirs: symbolic links, file modes, sources below the destination and I/O failures other than a file and a directory meeting at one path are not modelled; a walk may visit entries in any order that has parents first, where the source walks in lexical order.
- BindsHash.FingerprintIff: the digest is assumed collision-free on the joined texts; SHA-256 itself is not modelled.
- DataPlane.Client.EnsureDataPlaneByName: images, ports, networks and endpoints are left out; a container create that is refused leaves nothing behind; two callers ensuring one name at once are not modelled.
- DataPlane.WaitDataPlaneHealthy: the ticker and the context appear as the finite list of polls made before the wait ends.
- UserData.DecodesBack: which byte strings are valid UTF-8 is a parameter.
- Credentials.CredIDRoundTrip: `url.Parse` is a parameter that is assumed to return the path of the sidecar's own URI.
- BatchJob.StatusHistory: the minting of role keys, the pull token and the environment merge before `RunECSTask` are part of the start step.
- AppSyncErrors.QueryErrors: the resolver is a pure function of type, field, parent object and response path, so siblings that share a name are answered alike; authorization, query parsing and schema parsing are inputs.
- `FormParams` and URL query parsing: library calls and one overwrite.
- The Auto Scaling reconciler, the WebSocket route, authorization, SigV4, JWT, WAF, audit writing and the control-plane handlers: tables, store rows and flat guard chains that would only add easy members.
- The configured image allowlist's reading from the environment: `AllowImagePull` takes the list as a parameter.

# devopsellence deployment model

Dafny models of the eight pieces at the heart of the devopsellence
deployment toolkit, and proofs of what they promise.

| piece | source | modules |
|---|---|---|
| Keys, desired state and its validation | `agent/internal/desiredstate/runtime.go`, `validate.go` | `ScopedKeys`, `DesiredStates` |
| Reconciler | `agent/internal/reconcile/reconcile.go` | `Hosts`, `EndpointTables`, `WebEndpoints`, `Reconcilers` |
| Tick and task gate | `agent/internal/agent/agent.go`, `agent/internal/lifecycle/store.go` | `Agents` |
| Disk care | `agent/internal/diskcare/diskcare.go` | `StringLists`, `ReleaseLogs`, `ReleaseContents`, `Retention`, `Pruning`, `DiskCare` |
| Assignment state | `agent/internal/auth/manager.go` | `Auth` |
| Ingress routing and endpoints | `agent/internal/envoy/xds_snapshot.go`, `manager.go` | `Routing`, `Traffic`, `Envoy`, `EnvoyContainer` |
| Single-flight token refresh | `cli/internal/workflow/app.go` (`authSession`) | `AuthSessions` |
| Solo state | `cli/internal/solo/state.go` | `RecordMaps`, `SoloStates`, `SoloRecords`, `SoloOperations`, `SoloReleases` |

`Text` and `Sorting` hold what the pieces share: white-space trimming, the byte
order of strings, and a stable sort tied to the rank of an element.

Code that updates state is modelled as classes and loops, each proved against a
function or relation on its inputs and old state; what the code is for is then
proved about these, and what the basic definitions are is stated in the fields of the
records themselves. Calls into the container engine, Envoy, files and the network
may fail at any point, as an arbitrary choice in the body of the method that
stands for them; maps are iterated in any order. `sanitize`, hashing, container
specifications, path canonicalisation, time parsing and lower-casing are
parameters, so that every result holds for any of them; where a property needs
something of them it is a stated hypothesis (`SoloStates.WorldOk`: a canonical path
is not blank, and lower-casing leaves two lower-case words alone).

Two kinds of whole-run statements occur. In `Reconcilers`, `Agents` and `DiskCare`
a ghost trace records what was asked of the outside, and properties are about the
trace of a whole call or of several. In `Auth`, `Envoy` and `AuthSessions` a
`Drive` method runs an arbitrary sequence of entry points, or of atomic regions,
and keeps the invariant.

## Where the code does less than one might think

Each point names the theorem that says exactly when it happens and, where that takes
several steps, a lemma with an input.

- The endpoint of a web service may be left leading to a container that is gone: when
  the update or the route check fails, traffic has already been moved and the new
  container is torn down (`WebEndpoints.DanglingRun`). That is the only way: every run
  of the web path keeps the entries it moved on a container that is there if and only
  if it has no such failure followed by the removal (`WebEndpoints.EndpointOutcome`, in
  the contracts of `AdoptWeb`, `ReplaceWeb` and `ReconcileService`), and after a pass
  that succeeds every cluster of a web service leads to a running container of one
  (`AllAlive` in the contract of `Reconcile`).
- Two services can share a cluster: its name joins environment, service and port by the
  dash that occurs in names, so that `a`/`b-web` and `a-b`/`web` have one endpoint
  (`DesiredStates.DashedNamesShareCluster`, exactly when in
  `DesiredStates.ClusterNamesCoincide`).  A request may then be answered by the other
  service (`Traffic.RequestIsAnswered`).
- Disk care need not settle: a second run for the same desired state removes, besides
  images that came free, exactly those of past releases that lose their place because
  the current release of their environment, which was not ahead of them, is when seen
  again (`Pruning.SecondRunCandidates`, `Pruning.LosesPlaceExactly`,
  `DiskCare.Manager.RunAgain`). That takes a clock that was set back; when it moves on
  nobody loses its place (`Pruning.NobodyLosesPlace`, `Pruning.DiskCareConverges`).
  `Pruning.ClockSetBack` is such a run.
- The sequence floor can drop inside one `Sync`, although no single update lowers it: a
  refresh target clears the environment, so the fetch that follows starts the floor
  again (`Auth.HopFloor`). A pass that ends in the identity it began with never lowers
  the floor of a managed-bundle node, and that of an assigned one exactly when it left
  for another target and came back with a lower sequence (`Auth.SyncFloor`); the floor
  of an unassigned node is whatever the control plane answers. `Auth.FloorDrops` is such
  a pass.
- A Google token can be held by a node that is no longer eligible: exactly when the
  access on the way to the token took its eligibility (`Auth.SyncHolder`), which a
  response without a target does to a managed node and to no other, and one with a
  target does by its mode (`Auth.AppliedEligible`). `Auth.IneligibleHolder` is such a
  pass; the next successful one drops the token (`Auth.SyncHolder`).
- A snapshot match ignores the identity version (`Auth.LateRecord`), so a late record
  can raise a floor that has started again (`Auth.LateRecordRaises`).
- Task names are not validated for uniqueness, and two tasks of one environment with
  one name share a lifecycle record (`Agents.SharedRecord`). The at-most-once theorem
  asks that such tasks have one hash; where they do not, at least two of them run again
  in every tick that gets to swap the workloads (`Agents.Agent.TickAgain`).
- Normalising the solo state is not idempotent for every path: a record without a root
  is respelled when its canonical path begins or ends with white space, and a current
  entry moves when its key cannot be taken apart again. `SoloStates.NormalizedIsNormal`
  gives the exact condition on the paths in the result, `SoloStates.ScopeTwice` and
  `SoloStates.RereadExactly` the one on a single path, `SoloStates.PaddedPathMoves` an
  input; attaching a node and saving a release have their own
  (`SoloOperations.AttachKeepsNormal`, `SoloReleases.SaveKeepsNormal`).
- Detaching a node does not restore an attachment that had no nodes
  (`SoloOperations.DetachUndoesAttach`).
- Saving a release checks nothing about its identifier, so it can leave a state that the
  next write refuses: `SoloReleases.SavedCanBeWritten` says exactly when, and
  `SoloReleases.SaveOverRefused` that saving over another environment's release does.

## Model

| member | source | states |
|---|---|---|
| ScopedKeys.ScopedKey | agent/internal/desiredstate/runtime.go:154-161 | the key built part by part decodes back to the list of trimmed parts |
| ScopedKeys.DecodeInvertsScopedKey | agent/internal/desiredstate/runtime.go:154-161 | a decoder recovers the trimmed parts from any concatenated length-prefixed encoding, lengths in UTF-8 bytes |
| ScopedKeys.Utf8LenIs | agent/internal/desiredstate/runtime.go:154-161 | the length written is the number of bytes of the UTF-8 encoding (section 3 of RFC 3629), from which every code point can be read back |
| ScopedKeys.ScopedKeyInjective | agent/internal/desiredstate/runtime.go:154-161 | two part lists have one key exactly when their trimmed parts agree |
| ScopedKeys.ServiceKeyInjective | agent/internal/reconcile/reconcile.go:460-470 | reconciler keys coincide exactly when service and defaulted environment do |
| ScopedKeys.TaskStoreNameInjective | agent/internal/agent/agent.go:344-351 | lifecycle record names of tasks with an environment coincide exactly when environment and task name do, and so do those of two tasks without one |
| ScopedKeys.BlankEnvironmentCollides | agent/internal/agent/agent.go:344-351 | without an environment the bare task name is used, and it can equal another task's scoped name |
| DesiredStates.RuntimeServices | agent/internal/desiredstate/runtime.go:33-64 | the loops produce exactly the services of all environments, in order, with trimmed names and inherited revisions |
| DesiredStates.ServiceMembers | agent/internal/desiredstate/runtime.go:33-64 | in the state's own fields: the runtime services are exactly the services there are in its environments, with trimmed names, the environment's revision or failing that the state's, and the kind given or told by the name |
| DesiredStates.RuntimeTasks | agent/internal/desiredstate/runtime.go:66-95 | the same for release tasks |
| DesiredStates.TaskMembers | agent/internal/desiredstate/runtime.go:66-95 | the same for the release tasks |
| DesiredStates.ServiceHTTPPort | agent/internal/desiredstate/runtime.go:115-133 | the first usable port named http, else the first usable port, else the fallback; truncated to 16 bits |
| DesiredStates.HTTPPortIs | agent/internal/desiredstate/runtime.go:115-133 | in the ports' own fields: the number, modulo 65536, of the first port that has one and is named http; without such a port, of the first that has one; without any, the fallback |
| DesiredStates.ClusterNameTells | agent/internal/desiredstate/runtime.go:135-148 | as far as the sanitiser tells names apart, each of environment, service and port counts: two cluster names that agree in two of them are the same only if they agree in the third |
| DesiredStates.ClusterNamesCoincide | agent/internal/desiredstate/runtime.go:146-148 | two services share a cluster name for a port exactly when environment and service joined by a dash do |
| DesiredStates.DashedNamesShareCluster | agent/internal/desiredstate/runtime.go:146-148 | an input: service b-web of environment a and service web of environment a-b share a cluster |
| DesiredStates.ValidateUniquePortNames | agent/internal/desiredstate/validate.go:352-374 | accepts exactly port lists whose sanitised names are distinct and not blank and whose ports are valid |
| DesiredStates.PortNamesAre | agent/internal/desiredstate/validate.go:352-374 | in the ports' own fields: the names that have to be distinct are those of the ports there are, trimmed and sanitised, and they are exactly if no two ports have the same |
| DesiredStates.ValidateSecrets | agent/internal/desiredstate/validate.go:108-123 | accepts exactly environments without a blank name and references with name and value that no variable shadows |
| DesiredStates.ValidateMounts | agent/internal/desiredstate/validate.go:124-134 | accepts exactly mounts with a source and an absolute target |
| DesiredStates.ValidateTask | agent/internal/desiredstate/validate.go:282-323 | accepts exactly a missing task, or one with a name, an image, something to run, and acceptable secrets and mounts |
| DesiredStates.ValidateService | agent/internal/desiredstate/validate.go:87-168 | accepts exactly the services that meet every rule, in both directions |
| DesiredStates.ValidateServices | agent/internal/desiredstate/validate.go:58-77 | accepts exactly lists of valid services with distinct sanitised names |
| DesiredStates.ValidateEnvironments | agent/internal/desiredstate/validate.go:35-85 | accepts exactly environments with distinct sanitised names, valid services and valid tasks |
| DesiredStates.ValidateIngressRoutes | agent/internal/desiredstate/validate.go:196-256 | accepts exactly routes to listed hosts and existing service ports, with distinct host and prefix pairs |
| DesiredStates.ValidateRoute | agent/internal/desiredstate/validate.go:207-248 | accepts one route exactly when host, prefix and target are acceptable, looking the target up in the key index |
| DesiredStates.TargetLookup | agent/internal/desiredstate/validate.go:202-248 | finding the target by its encoded key is the same as some runtime service matching it by name |
| DesiredStates.RouteAccepted | agent/internal/desiredstate/validate.go:207-248 | in the route's own fields: acceptable exactly if it matches a listed host by an absolute prefix, or none, and some service of its target's environment and name has a usable port of the target's name |
| DesiredStates.IngressHostsAre | agent/internal/desiredstate/validate.go:338-350 | the hosts of an ingress are exactly its trimmed ones that are not blank |
| DesiredStates.HasPort | agent/internal/desiredstate/validate.go:258-271 | true exactly if some port has this trimmed name and a number |
| DesiredStates.FindWebService | agent/internal/desiredstate/validate.go:273-280 | true exactly if some runtime service is a web service |
| DesiredStates.ValidateIngress | agent/internal/desiredstate/validate.go:170-194 | accepts exactly the ingresses that meet every rule |
| DesiredStates.Validate | agent/internal/desiredstate/validate.go:12-33 | accepts exactly the states that meet every rule |
| DesiredStates.ValidatedServices | agent/internal/desiredstate/validate.go:35-85 | a validated state gives every runtime service names and a key of its own, whatever the sanitiser |
| DesiredStates.AcceptedRoutesDistinct | agent/internal/desiredstate/validate.go:196-256 | accepted routes differ pairwise in trimmed host or in prefix, no prefix being that of every path |
| DesiredStates.RoutesAccepted | agent/internal/desiredstate/validate.go:196-256 | in the routes' own fields: as long as no host has a NUL, routes are accepted exactly if each is acceptable and no two match the same host by the same prefix |
| DesiredStates.NulJoinsRoutes | agent/internal/desiredstate/validate.go:248-252 | an input with NUL: two routes that match differently have one key |
| Reconcilers.Reconciler.StaleContainers | agent/internal/reconcile/reconcile.go:449-458 | exactly the listed containers other than the current one, in order |
| Reconcilers.Reconciler.StopAndRemove | agent/internal/reconcile/reconcile.go:618-628 | asks for at most a stop and a removal of this container, and on success it alone is gone |
| Reconcilers.Reconciler.DrainAll | agent/internal/reconcile/reconcile.go:417-422 | drains only the given containers, on success all of them, and counts them |
| Reconcilers.Reconciler.WaitHealthy | agent/internal/reconcile/reconcile.go:654-728 | succeeds only with an address the engine reported and a probe of it that just passed |
| Reconcilers.Reconciler.WebContainerIP | agent/internal/reconcile/reconcile.go:630-652 | an address of this very container, after a passed probe when one is due; traffic is not moved yet |
| Reconcilers.Reconciler.CutoverWeb | agent/internal/reconcile/reconcile.go:433-447 | success means: address inspected (and probed if due), Envoy told to send traffic there, route check passed, in this order; whatever happens the endpoint table is untouched or is the one after an update to this container, cut down to the clusters the last ingress references, and a failure after the update is the last or last but one event |
| Reconcilers.Reconciler.TearDown | agent/internal/reconcile/reconcile.go:585-611 | one stop and one removal attempt for the failed container, nothing else touched; the trace says whether it is gone |
| Reconcilers.Reconciler.AdoptWeb | agent/internal/reconcile/reconcile.go:335-379 | web path with a matching container: no old container is drained before the cutover; end state and counters; the entries moved lead to this container, which is there if and only if the run does not dangle |
| Reconcilers.Reconciler.ReplaceWeb | agent/internal/reconcile/reconcile.go:381-431 | web path with a new container: the same; a failure before the cutover leaves every old container unchanged and tries to tear the new one down, and the moved entries lead to a container that is still there if and only if no update or route check failed before that took it away |
| Reconcilers.Reconciler.AdoptWorker | agent/internal/reconcile/reconcile.go:269-293 | plain path with a matching container: one running container of the service is left and is counted once |
| Reconcilers.Reconciler.ReplaceWorker | agent/internal/reconcile/reconcile.go:294-312 | plain path with a new container: old ones are removed first, then the new one is created |
| Reconcilers.Reconciler.BringUp | agent/internal/reconcile/reconcile.go:349-362 | a running container is cut over without a probe, a stopped one is started, probed and cut over; counted as unchanged or updated; the endpoint table as for the cutover |
| WebEndpoints.DanglingRun | agent/internal/reconcile/reconcile.go:381-447 | the failing run: update refused or route check failed after the new container was pointed at, container taken away; every call does what it may do, and the default cluster leads to a container that is not there |
| WebEndpoints.TornDownDangles | agent/internal/reconcile/reconcile.go:400-411 | a failed cutover that had pointed traffic at the container dangles exactly when the tear-down got rid of it |
| WebEndpoints.StandingOutcome | agent/internal/reconcile/reconcile.go:335-379 | a run that does not remove its container moves at most the service's own and the default entry, and both lead to a container that is there |
| WebEndpoints.FailedOutcome | agent/internal/reconcile/reconcile.go:381-431 | a run that tears its container down leaves the moved entries alive if and only if it does not dangle, and every other entry as it was or forgotten |
| WebEndpoints.SettledTable | agent/internal/envoy/manager.go:287-368 | after an update that went through, the snapshot of the route check changes nothing in the table |
| Reconcilers.Reconciler.EnsureStarted | agent/internal/reconcile/reconcile.go:277-285 | a stopped container is started and counted as updated, a running one is left and counted as unchanged |
| Reconcilers.Reconciler.IndexDesired | agent/internal/reconcile/reconcile.go:121-124 | the map from key to service |
| Reconcilers.Reconciler.ReconcileService | agent/internal/reconcile/reconcile.go:228-313 | handling one service leaves the containers of all other keys alone (frame), serves this one on success, counts it once, does nothing to an undisturbed one, and for a web service moves the endpoints exactly as its run of the web path says; it goes on without a certificate only if that is not fatal |
| Reconcilers.Reconciler.GroupByService | agent/internal/reconcile/reconcile.go:131-137 | the grouped map holds, for every key, exactly the listed containers of that key in order |
| Reconcilers.Reconciler.HandleServices | agent/internal/reconcile/reconcile.go:139-150 | for every iteration order of the desired map and every pattern of failures: safety of the trace so far, services handled so far are served, the rest is framed |
| Reconcilers.Reconciler.Prune | agent/internal/reconcile/reconcile.go:157-168 | drains only listed containers of undesired keys, never Envoy; on success all of them, and counts them; what is left is then of a desired service, without a name, or Envoy's by its label and name |
| Reconcilers.Reconciler.SparedIs | agent/internal/reconcile/reconcile.go:157-168 | spared is exactly what has no name, or the label envoy and a protected name, or Envoy's usual one where none is protected |
| Reconcilers.AutomaticTLSIs | agent/internal/reconcile/reconcile.go:878-891 | a certificate failure is not fatal exactly for a public ingress, as one is unless it says otherwise, whose TLS is automatic, as it is unless it says otherwise |
| Reconcilers.Reconciler.ReconcileScope | agent/internal/reconcile/reconcile.go:108-171 | one pass, with or without pruning: trace safety on every path; end state, counters and conservation on success, and what may be left after pruning |
| Reconcilers.Reconciler.Reconcile | agent/internal/reconcile/reconcile.go:95-171 | from any listing with unique names: on success exactly one container per service of the desired state, which runs and has the expected hash, and any other container that is left has no name or is Envoy's, which means that it has Envoy's label and a protected name, and such a one is as it was; it succeeds without a certificate only for automatic TLS of a public ingress; the endpoint of every cluster of a web service leads to a running container of a web service with that cluster, the default one to one of any; zero-gap cutover on every path; created + updated + unchanged equals the services, containers before plus created equals after plus removed; nothing happens in a settled node |
| Reconcilers.Reconciler.LedIsAlive | agent/internal/reconcile/reconcile.go:139-170 | endpoints that lead to the planned container of a web service with their cluster, all services being served, lead to a running container of such a service |
| Reconcilers.Reconciler.ConvergedUnique | agent/internal/reconcile/reconcile.go:139-170 | the containers left by a successful pass are determined by the listing and the desired state: any two runs agree, whatever the order |
| Reconcilers.Reconciler.ConvergedSweeps | agent/internal/reconcile/reconcile.go:157-168 | of what a successful pass leaves, everything that is not of a desired service has no name or is Envoy's, and all such are as they were |
| Reconcilers.Reconciler.ConvergedIsSettled | agent/internal/reconcile/reconcile.go:139-170 | what a successful pass leaves needs no further work |
| Reconcilers.Reconciler.ReconcileSupportServices | agent/internal/reconcile/reconcile.go:99-106 | on success exactly one running container with the expected hash per accessory of the one environment; whatever happens, every container that is of no such accessory is as it was; no pruning |
| Reconcilers.Reconciler.ReconcileAgain | agent/internal/reconcile/reconcile.go:95-171 | after a successful pass a second one creates, starts, stops and removes nothing, even if it fails, and counts every service unchanged if it does not |
| Agents.Store.Satisfied | agent/internal/lifecycle/store.go:28-35 | true only for a record of this sequence and hash in the file, and never without a path; false despite one only if reading failed |
| Agents.Store.MarkSatisfied | agent/internal/lifecycle/store.go:37-44 | on success exactly this task's record is added; on failure the file is unchanged |
| Agents.SharedRecord | agent/internal/agent/agent.go:344-351 | tasks with environments share a lifecycle record exactly when environment and name agree |
| Agents.Agent.EnsureTaskSatisfied | agent/internal/agent/agent.go:265-342 | a release task runs only after its support services are up and only if not on record; a success is paid for by a new record or a store fault; without a fault a task that is satisfied is on record with its hash at this sequence, and it has not run exactly if it was before; other records are kept |
| Agents.Agent.Tick | agent/internal/agent/agent.go:108-221 | workloads are swapped at most once, last, and only if the state is valid and every task was on record or exited zero after its support services were up; the report has what all reconciles of the tick created, updated and removed, and what the swap left unchanged; with a working store a tick that gets to swap them completes exactly the tasks that find another record than their own; reading the status for the report may fail after the swap |
| Agents.Agent.Run | agent/internal/agent/agent.go:80-106 | when tasks that share a record have one hash: over any number of ticks of one fetched state each task completes at most once plus once per store fault, and never if it was on record and there is no fault |
| Agents.Agent.TickAgain | agent/internal/agent/agent.go:108-221 | two ticks in a row that both get to swap the workloads, with a working store: the second runs no task of a record whose tasks have one hash, and at least two of a record whose tasks do not, so the condition for running at most once is exact |
| Agents.Agent.SharedRecordRuns | agent/internal/agent/agent.go:265-342 | the same for the order in which tasks sharing a record overwrite it |
| StringLists.MergeStrings | agent/internal/diskcare/diskcare.go:561-577 | the loop computes the merged list |
| StringLists.MergeSpec | agent/internal/diskcare/diskcare.go:561-577 | merging is the sorted, duplicate-free union of the trimmed non-blank values |
| ReleaseLogs.Log.Normalize | agent/internal/diskcare/diskcare.go:336-366 | the in-place compaction equals the normal form of the log |
| ReleaseLogs.NormalizedSpec | agent/internal/diskcare/diskcare.go:336-366 | one clean record per release, with the union of the images and the latest time of its surviving records; blank records vanish |
| ReleaseLogs.NormalizedFixes | agent/internal/diskcare/diskcare.go:336-366 | a normal log is left as it is, so normalising is idempotent |
| ReleaseLogs.Log.Upsert | agent/internal/diskcare/diskcare.go:368-384 | updating through the index equals refreshing the known releases, once for every current release with their key, and appending the new ones, for any current list |
| ReleaseLogs.UpsertedSpec | agent/internal/diskcare/diskcare.go:368-384 | the log stays normal; current releases have at least their images and the current time, others are untouched, none is lost |
| ReleaseLogs.Log.DropRemovedImages | agent/internal/diskcare/diskcare.go:386-409 | the in-place compaction equals dropping record by record |
| ReleaseLogs.DroppedSpec | agent/internal/diskcare/diskcare.go:386-409 | order is kept, retained records are untouched, others lose exactly the removed images, a record vanishes only when no image is left |
| ReleaseLogs.DroppedNormal | agent/internal/diskcare/diskcare.go:386-409 | dropping keeps keys unique and image lists sorted |
| ReleaseContents.NormalizedLists | agent/internal/diskcare/diskcare.go:336-366 | image by image: the normal form lists an image for a release exactly if some record with that trimmed environment and revision has it, trimmed; blanks do not count |
| ReleaseContents.UpsertedLists | agent/internal/diskcare/diskcare.go:368-384 | after recording, exactly what the log or a current release lists for a release is listed |
| ReleaseContents.DroppedLists | agent/internal/diskcare/diskcare.go:386-409 | dropping forgets exactly the removed images of releases that are not retained |
| ReleaseContents.NormalizedTimes | agent/internal/diskcare/diskcare.go:336-366 | a record has the latest time of the records that say something of its release |
| ReleaseContents.TimesOf | agent/internal/diskcare/diskcare.go:368-409 | after recording and dropping, a current release has the time of its current record and any other the one it had |
| Sorting.SortedPositionIsRank | agent/internal/diskcare/diskcare.go:430-432 | a stable sort of a list without repetitions puts every element at its rank: the number of elements before it or tied and earlier |
| Sorting.SortedAtRank | agent/internal/diskcare/diskcare.go:430-432 | the same for lists with repetitions: place by place, the sorted list has the element of that rank |
| Retention.RetainedReleaseKeys | agent/internal/diskcare/diskcare.go:411-442 | for every log, with or without repeated keys, and every iteration order: retained are the current releases and those with a record that has fewer than keep records of its environment ahead of it |
| Retention.PositionIsAhead | agent/internal/diskcare/diskcare.go:424-440 | in the newest-first list of its environment every record, of any log, stands behind exactly as many as are ahead of it in the log |
| Retention.RetentionWindow | agent/internal/diskcare/diskcare.go:411-442 | every environment, current or not, keeps its newest min(keep, n); it keeps exactly that many if and only if its current releases are among them |
| Retention.NewestGoesFirst | agent/internal/diskcare/diskcare.go:411-442 | a strictly newest release has nothing ahead of it, so it never widens the window |
| DiskCare.ReleasesFromDesired | agent/internal/diskcare/diskcare.go:302-334 | one record per release that services and tasks need, with exactly the images that a service or a release task of an environment of the state names for that release, for every iteration order |
| DiskCare.NeedsAreNamed | agent/internal/diskcare/diskcare.go:302-316 | an image is needed for a release exactly if a service or a release task of an environment of the state names it, and the environment has that name and that revision |
| DiskCare.AddReleaseImage | agent/internal/diskcare/diskcare.go:318-334 | one need more: blank parts are skipped, the image joins the record of its release, once |
| DiskCare.StringSet | agent/internal/diskcare/diskcare.go:549-559 | exactly the trimmed non-blank values |
| DiskCare.Manager.constructor | agent/internal/diskcare/diskcare.go:50-55 | a negative retention means ten previous releases |
| DiskCare.Manager.LoadStore | agent/internal/diskcare/diskcare.go:234-258 | the normalised file; empty without a path, a file or readable contents, the last with a warning; an error only when reading fails |
| DiskCare.Manager.SaveStore | agent/internal/diskcare/diskcare.go:260-277 | the file is replaced or left alone; nothing is written without a path |
| DiskCare.Manager.Plan | agent/internal/diskcare/diskcare.go:97-112 | the retained keys and exactly the images that may go, none of them in use |
| DiskCare.RetainedImageRefs | agent/internal/diskcare/diskcare.go:444-466 | exactly the protected, used and current images and those of retained releases |
| DiskCare.PruneCandidates | agent/internal/diskcare/diskcare.go:468-490 | exactly the images that only unretained releases list and nothing holds, strictly sorted |
| DiskCare.ImageSizeIndex | agent/internal/diskcare/diskcare.go:492-525 | every reference of a listed image, with the size of the last image that has it |
| DiskCare.ReclaimedBytesForRemoval | agent/internal/diskcare/diskcare.go:168-175 | the size if the answer deleted anything, else zero |
| DiskCare.UsedContainerImages | agent/internal/diskcare/diskcare.go:537-547 | exactly the trimmed non-blank images of all containers |
| DiskCare.Manager.RemoveOne | agent/internal/diskcare/diskcare.go:113-127 | an unlisted image is looked for first; one that is not there counts as gone unasked; else one removal is asked for, and it is gone unless there is a fault |
| DiskCare.Manager.RemoveImages | agent/internal/diskcare/diskcare.go:107-138 | asks in order and at most once per candidate; what counts as removed is gone; artifacts and bytes are those of the successful removals; the first fault is reported |
| DiskCare.DoomedIsUnneeded | agent/internal/diskcare/diskcare.go:103-112 | an image that may be asked for is used by no container, not protected, not in the desired state and in no retained release |
| DiskCare.NamedIsSafe | agent/internal/diskcare/diskcare.go:302-334 | an image that the desired state names is neither asked for nor removed by a run that keeps to unneeded ones |
| DiskCare.RunKeeps | agent/internal/diskcare/diskcare.go:59-159 | the log after a run, from the file before it and the desired state: it lists exactly the images that either names for a release, except for the removed ones of releases that are not retained; what the desired state names is of the time of the run, anything else of its latest time in the file |
| DiskCare.Manager.Run | agent/internal/diskcare/diskcare.go:59-159 | for every store, listing and pattern of failures: asks only for unneeded images; no image of a service or a release task of the desired state, with a named environment and revision, is asked for or removed; reclaimed bytes are the sum over the artifacts; without error every candidate is gone, and the file lists for every release exactly the images that the file before or the desired state names, except for the removed ones of releases that are not retained, with the time of the run for what the desired state names and the latest one in the file before for the rest; the reported error is the first fault |
| Pruning.AheadLater | agent/internal/diskcare/diskcare.go:411-442 | ahead of a past release in the next run are exactly those that would have been ahead of it had the current releases been seen then, whatever was dropped in between |
| Pruning.SecondRunCandidates | agent/internal/diskcare/diskcare.go:81-143 | the next run for the same desired state has exactly these candidates: the images of past releases that lose their place and those the first run left over, as far as nothing holds them now, with no assumption on the clock, the containers or the removals; if the first run removed every candidate, what is left over and free had come free |
| Pruning.LosesPlaceExactly | agent/internal/diskcare/diskcare.go:411-442 | a past release of an environment with at most one current release loses its place exactly when keep - 1 past releases are ahead of it and the current one was not and is when seen again |
| Pruning.DisplacedIsSuperseded | agent/internal/diskcare/diskcare.go:411-442 | with at most one current release per environment, the images of releases that lose their place are those of past releases with keep - 1 past ones ahead that the current one overtakes |
| DiskCare.ValidatedOneCurrent | agent/internal/desiredstate/validate.go:35-85 | a valid desired state gives every environment of the log at most one current release, unless a name has a NUL |
| DiskCare.NulMakesTwoCurrent | agent/internal/diskcare/diskcare.go:302-334 | an input with NUL: two releases of different environments have one key, and an environment of the log two current releases |
| Pruning.NobodyLosesPlace | agent/internal/diskcare/diskcare.go:411-442 | nobody loses its place if every past release is older than the first run or newer than the second |
| Pruning.DiskCareConverges | agent/internal/diskcare/diskcare.go:81-143 | when every recorded release that the desired state does not speak of was last seen before the first run or after the second, the second run has no candidate |
| Pruning.ClockSetBack | agent/internal/diskcare/diskcare.go:81-143 | a run that does not converge: two releases of one environment, a window of one; the second run removes what the first kept exactly when the clock had been set back to or before the recorded time and then passes it |
| DiskCare.Manager.RunAgain | agent/internal/diskcare/diskcare.go:59-159 | two whole runs, any clock, any containers in between: after an error-free first one the second asks only for images of past releases that lose their place and for images that came free, and if it reports no error each of the former and each left over is gone or held; it asks for nothing when the clock moves on and nothing comes free; for a valid state without NUL losing one's place is being superseded by the one current release |
| Auth.Manager.ApplyDesiredStateTarget | agent/internal/auth/manager.go:810-864 | the field updates equal the specified next state; the invariant is kept; becoming eligible is notified once |
| Auth.Manager.FetchAssignment | agent/internal/auth/manager.go:602-679 | the field updates equal the specified next state; a refused response changes nothing; a node that turns from no mode or unassigned to assigned is told so once |
| Auth.AppliedKeepsFloor | agent/internal/auth/manager.go:844-852 | a target that leaves the identity alone never lowers the floor |
| Auth.AnswerIsFollowed | agent/internal/auth/manager.go:602-679 | in the answer's own fields: mode, URI, inline state, bundle, environment and identity version are those of the last target or assignment answered, trimmed; the floor is at least its sequence; an assignment is taken exactly if it is unassigned, or assigned with a URI |
| Auth.NoTargetIsFollowed | agent/internal/auth/manager.go:810-822 | an answer without a target takes from a managed-bundle node what it follows and its token, and from any other nothing |
| Auth.WhatOutlivesTarget | agent/internal/auth/manager.go:824-864 | with a target the floor is the sequence answered, or the higher one of before if mode, URI and bundle stay the same; the Google token is kept exactly if these and the floor do |
| Auth.WhatOutlivesAssignment | agent/internal/auth/manager.go:602-679 | with an assignment the floor is the sequence answered, or the higher one of before if the node stays assigned to the same environment, identity version and bundle; the Google token is kept exactly if nothing of the assignment changes |
| Auth.AnsweredAccount | agent/internal/auth/manager.go:533-600 | identifier, tokens and expiry are those of the last bootstrap or refresh answered, whatever its target; a blank refresh token is not taken |
| Auth.FetchedKeepsFloor | agent/internal/auth/manager.go:629-634 | a fetch that leaves the identity of an assigned node alone never lowers the floor |
| Auth.HopFloor | agent/internal/auth/manager.go:426-444 | what a refresh target followed by a fetch makes of the floor of an assigned node that ends in its old identity: the fetched sequence, so it drops exactly when that is lower, unless the fetch goes on from the target |
| Auth.SyncFloor | agent/internal/auth/manager.go:223-260 | a pass of the loop that ends in the identity it began with, whether it succeeds or gives up, never lowers the floor of a managed-bundle node (or of any that is neither assigned nor unassigned), and that of an assigned one exactly when it left for another target and came back by a fetch with a lower sequence |
| Auth.FloorDrops | agent/internal/auth/manager.go:223-260 | a pass in which the floor of an assigned node drops from 10 to 3 and its identity is the same |
| Auth.LateRecord | agent/internal/auth/manager.go:311-325 | a snapshot taken before a fetch still matches exactly when all but the identity version is unchanged; if that changed, the floor has started again |
| Auth.LateRecordRaises | agent/internal/auth/manager.go:379-391 | an input: the fetch changes the identity version alone, the floor starts again at 3, and a record for the earlier snapshot raises it |
| Auth.AppliedEligible | agent/internal/auth/manager.go:810-864 | whether a response leaves a node eligible: without a target exactly an eligible node that is not managed, with one exactly by the mode of the target |
| Auth.ResponseEligible | agent/internal/auth/manager.go:533-600 | the same for a whole bootstrap or refresh response, whatever else it carries |
| Auth.SyncHolder | agent/internal/auth/manager.go:223-260 | after a successful pass an ineligible node holds a Google token exactly when the access on the way to it took its eligibility; a pass begun by an ineligible node ends without one |
| Auth.SyncKeeps | agent/internal/auth/manager.go:250-258 | a pass in which the Google request, if any, succeeds ends with a token exactly at a node whose mode is assigned or managed_bundle once its assignment has been followed, and that had one by then |
| Auth.SyncDirects | agent/internal/auth/manager.go:223-260 | a successful pass leaves a node with a URI or an inline desired state, unless it lost its eligibility on the way to a Google token |
| Auth.IneligibleHolder | agent/internal/auth/manager.go:446-488 | a pass that ends with a Google token in the hands of an ineligible node: a managed-bundle node whose refresh answers without a target |
| Auth.Manager.Bootstrap | agent/internal/auth/manager.go:533-552 | on success the account of the response and its target, on failure nothing |
| Auth.Manager.Refresh | agent/internal/auth/manager.go:584-600 | the same for a refresh; a blank refresh token is not taken |
| Auth.Manager.NotifyAssignmentEligible | agent/internal/auth/manager.go:866-874 | notifies exactly when the node turns from ineligible to eligible |
| Auth.Manager.SaveState | agent/internal/auth/manager.go:885-906 | the file holds the state or is left alone |
| Auth.Manager.LoadState | agent/internal/auth/manager.go:758-773 | the state of the file, if it can be read |
| Auth.Manager.FollowAssignment | agent/internal/auth/manager.go:235-249 | a managed node drops its inline state, any other fetches its assignment, and without an answer it carries on exactly if it has a URI or an inline state to go by |
| Auth.Manager.EnsureControlPlaneAccess | agent/internal/auth/manager.go:426-444 | the token at hand, or one bootstrap, or one refresh; the control plane is asked exactly if the token at hand is blank or does not outlive the margin; a failure changes nothing; keeps the invariant and, while the identity is unchanged, the floor |
| Auth.Manager.EnsureGoogleAccess | agent/internal/auth/manager.go:446-488 | success means a non-blank token obtained for the present target; a node whose mode is neither assigned nor managed_bundle gets none, one in either is refused only when something fails, and somebody is asked exactly if such a node has no token that outlives the margin; a node that gets one is eligible exactly if the access on the way to it left it so |
| Auth.Manager.DropOrRenew | agent/internal/auth/manager.go:250-258 | the end of a pass: an ineligible node drops its token, an eligible one that has one renews it, any other is left alone |
| Auth.Manager.Sync | agent/internal/auth/manager.go:223-260 | the saved state is that of getting access, following the assignment, then dropping or renewing the token, in this order; it fails only when a call fails, and when none does it ends with a Google token exactly at a node that its assignment left in mode assigned or managed_bundle with one; the floor is kept on every outcome except as stated for the pass; after a success an ineligible node holds a Google token exactly when it lost its eligibility on the way to it, and one that was ineligible at the start holds none |
| Auth.Manager.Initialize | agent/internal/auth/manager.go:152-204 | from the loaded state: bootstrap without a refresh token, get access, follow the assignment, save; a node that has started has a URI or an inline desired state; keeps the invariant from any state file a manager wrote |
| Auth.Manager.GoogleAccess | agent/internal/auth/manager.go:393-404 | answers only a non-blank token that is saved; never in a mode other than assigned or managed_bundle, and in these always unless something fails |
| Auth.Manager.ControlPlaneAccess | agent/internal/auth/manager.go:406-417 | answers only a token that is saved, and one unless something fails |
| Auth.Manager.InvalidateGoogleAccess | agent/internal/auth/manager.go:419-424 | drops the token and nothing else |
| Auth.Manager.RecordDesiredStateSequenceFloor | agent/internal/auth/manager.go:368-377 | raises the floor to the sequence, never lowers it, changes nothing else |
| Auth.Manager.RecordDesiredStateSequenceFloorForSnapshot | agent/internal/auth/manager.go:379-391 | a record for a snapshot that no longer matches changes nothing; a rise comes from this very target |
| Auth.Manager.Drive | agent/internal/auth/manager.go:152-260 | over any sequence of calls and restarts, each of which starts from a blank state: the floor came from the present mode and bundle tokens, a cached token from the present mode, URI and bundle tokens, and between two moments without a change of identity the floor of a node that is not unassigned has not gone down |
| Routing.BuildVirtualHosts | agent/internal/envoy/xds_snapshot.go:322-393 | the loops produce one table per host, in order of first appearance, each sorted |
| Routing.HostNamesSpell | agent/internal/envoy/xds_snapshot.go:518-532 | a virtual host is named by its host place by place, with an underscore for anything but letters, digits, underscores and dashes |
| Routing.TableRefines | agent/internal/envoy/xds_snapshot.go:366-386 | first match over the sorted table is longest matching prefix, ties to the earlier route, for any routes; prefixes are compared by bytes |
| Routing.OneWinner | agent/internal/envoy/xds_snapshot.go:366-386 | the winning route is unique |
| Routing.LookupByHost | agent/internal/envoy/xds_snapshot.go:340-392 | a request goes by the table of its own host, else by the catch-all host, else nowhere |
| Routing.RoutesByLongestPrefix | agent/internal/envoy/xds_snapshot.go:322-393 | for every request to a named host: challenge cluster for HTTP-01 paths when on, else the target of the longest matching route, else nothing |
| Routing.ChallengeFirst | agent/internal/envoy/xds_snapshot.go:461-472 | with challenges on, HTTP-01 paths (section 8.3 of RFC 8555) go to the challenge cluster and all others are routed as without |
| Routing.NoRoutesGoToDefault | agent/internal/envoy/xds_snapshot.go:322-338 | without routes every path of a served domain goes to the default cluster, HTTP-01 paths apart, and a request to any other domain nowhere; no domains stand for all |
| Routing.ValidatedMatches | agent/internal/desiredstate/validate.go:196-256 | validated routes have pairwise different matches and a host each |
| Routing.OrderIsIrrelevant | agent/internal/envoy/xds_snapshot.go:340-392 | reordering routes with different matches never changes where a request goes |
| Traffic.RequestGoes | agent/internal/envoy/xds_snapshot.go:322-393 | in the routes' own fields: a request to a host that a route names, HTTP-01 paths apart, goes to the cluster of the target of the route with that host and the longest prefix that begins its path, the first such; nowhere if there is none |
| Traffic.TargetTells | agent/internal/envoy/xds_snapshot.go:509-516 | routes to one target have one cluster, and as far as the sanitiser tells names apart, routes to targets that differ in one of environment, service and port alone have different ones; no port is the port http |
| Traffic.SameCluster | agent/internal/envoy/xds_snapshot.go:509-516 | a route to the http port of a service, named or left out, has the cluster whose endpoint the reconciler sets for that service |
| Traffic.RequestIsAnswered | agent/internal/reconcile/reconcile.go:433-447 | from request to container: after a successful pass, a request whose first taking route is for the http port of a desired web service goes to a cluster whose endpoint leads to a running container of a web service with that cluster |
| Envoy.SnapshotClusterNames | agent/internal/envoy/xds_snapshot.go:81-101 | exactly the default and the routes' clusters that are not blank, each once, the default first |
| Envoy.BuildListeners | agent/internal/envoy/xds_snapshot.go:103-129 | the listeners of the specification: the local one, and with a public ingress HTTP and HTTPS ones with their tables, by redirect and TLS |
| Envoy.BuildSnapshot | agent/internal/envoy/xds_snapshot.go:43-79 | carries exactly those listeners; no listener names a non-blank cluster that is not defined; one load assignment per discovered cluster, with the endpoint of the table; the challenge cluster is there exactly when challenges are on |
| Envoy.HostsByLongestPrefix | agent/internal/envoy/xds_snapshot.go:322-393 | the tables of a listener send every request to a host that a route names to the target of its longest matching route, HTTP-01 paths apart |
| Envoy.ListenersServe | agent/internal/envoy/xds_snapshot.go:103-129 | the local listener sends all to the default cluster; the public ones go by the longest matching route, or redirect all of the hosts to HTTPS except HTTP-01 paths |
| Envoy.Manager.PublicIngressListenerConfig | agent/internal/envoy/manager.go:529-599 | none unless the ingress is public, as it is unless it says otherwise; exactly the distinct trimmed hosts and its routes; challenges exactly under automatic TLS; TLS only with certificates, and never when it is off; missing files are an error except under automatic TLS; redirect exactly when the ingress asks for it and TLS is on |
| Envoy.ModesAre | agent/internal/envoy/manager.go:693-714 | public and automatic are what an ingress is that says so or says nothing |
| Envoy.Manager.SnapshotEndpoints | agent/internal/envoy/manager.go:340-368 | keeps exactly the default cluster and the clusters that the last ingress references |
| Envoy.Manager.ApplySnapshot | agent/internal/envoy/manager.go:323-338 | each snapshot gets the next version, shows the table as it is then and routes as its ingress asks |
| Envoy.Manager.UpdateClusterEDS | agent/internal/envoy/manager.go:287-306 | the cluster and the default cluster point to the endpoint; a blank name is the default cluster; clusters that are not referenced are dropped |
| Envoy.AgreesAfterUpdate | agent/internal/envoy/manager.go:287-306 | an update keeps the table equal to its history |
| Envoy.AgreesAfterPush | agent/internal/envoy/manager.go:340-368 | a snapshot keeps the table equal to its history |
| Envoy.Manager.Ensure | agent/internal/envoy/manager.go:117-219 | snapshots against the previous ingress, and adopts the new one only on success |
| Envoy.Manager.Restart | agent/internal/envoy/manager.go:476-499 | snapshots against the last ingress, which it keeps |
| Envoy.Manager.UniqueHosts | agent/internal/envoy/manager.go:716-730 | exactly the trimmed non-blank hosts, each once |
| Envoy.Manager.Drive | agent/internal/envoy/manager.go:287-368 | after any calls the default cluster holds the latest update of any cluster, another cluster its own latest update exactly if every snapshot since referenced it; versions strictly increase; every snapshot is closed and routes by longest prefix for the ingress it was made for, and redirects exactly when that asks for it and TLS is on |
| EnvoyContainer.SamePublishedPorts | agent/internal/envoy/manager.go:638-659 | true exactly when both lists have the same bindings equally often, in any order |
| EnvoyContainer.PortKeyInjective | agent/internal/envoy/manager.go:661-667 | the binding key tells host port, container port and protocol apart |
| EnvoyContainer.SyncWorkloadNetworks | agent/internal/envoy/manager.go:236-276 | on success Envoy is attached to exactly the wanted networks, its own and those that are not the agent's; no wanted network is ever detached |
| AuthSessions.AuthSession.Read | cli/internal/workflow/app.go:2376-2380 | a call uses the token of that moment |
| AuthSessions.AuthSession.Enter | cli/internal/workflow/app.go:2396-2412 | waits while somebody signs in; with nobody signing in it signs in exactly if the token is its stale one or blank, and takes the token otherwise |
| AuthSessions.AuthSession.Decide | cli/internal/workflow/app.go:2406-2412 | nobody else signing in: takes the token at hand exactly if it is not blank and not the stale one, or else raises the flag |
| AuthSessions.AuthSession.Wake | cli/internal/workflow/app.go:2398-2412 | after a wait, returns with the token at hand exactly if it is not blank and not the stale one; else waits on or signs in |
| AuthSessions.AuthSession.Finish | cli/internal/workflow/app.go:2414-2428 | publishes the new token, lowers the flag and wakes every sleeper, on success and on failure |
| AuthSessions.SingleFlight | cli/internal/workflow/app.go:2396-2428 | at most one sign-in is in flight, for any number of calls |
| AuthSessions.AuthSession.Drive | cli/internal/workflow/app.go:2382-2428 | over any interleaving: the flag is up exactly while one call signs in, nobody sleeps without it, every sign-in began because the token was stale or blank, every success replaced that token, and every call that has come back has the token of its own sign-in or one that is not blank and not its stale one |
| AuthSessions.RefreshedOnce | cli/internal/workflow/app.go:2382-2428 | if tokens are never reused, each stale token is refreshed successfully at most once |
| AuthSessions.NoLateStart | cli/internal/workflow/app.go:2382-2428 | once a token has been replaced nobody signs in on its account |
| AuthSessions.ReplacedIsFresh | cli/internal/workflow/app.go:2400-2404 | a waiter whose token has been replaced finds another one at hand and returns without signing in |
| RecordMaps.NormalizeMap | cli/internal/solo/state.go:389-595 | the sorted-key loop equals the fold of the record normaliser over the keys |
| RecordMaps.FoldedSucceeds | cli/internal/solo/state.go:389-595 | it succeeds exactly when no record is refused and those that meet can be joined |
| RecordMaps.FoldsToUpholds | cli/internal/solo/state.go:389-595 | what holds of every normalised record and survives joining holds of every record of the result |
| SoloStates.NormalizeState | cli/internal/solo/state.go:389-595 | answers the normalised state or an error exactly when there is none; a normal state comes back unchanged; what comes back is normal exactly when its canonical paths allow it |
| SoloRecords.ScopeIsLocated | cli/internal/solo/state.go:668-683 | in the record's own fields: key and environment of the place are exactly what the canonical path of the first of root, key and found key that is not blank, and the first environment that is not blank, or production, make them |
| SoloRecords.NodeRecord | cli/internal/solo/state.go:1012-1029 | a node is accepted exactly with a name, host, user and a port of 16 bits; what its defaults are; its labels are the distinct trimmed ones, or web |
| SoloRecords.AttachmentRecord | cli/internal/solo/state.go:597-609 | an attachment is refused exactly if it has no place; it is filed there with its node names sorted, trimmed, without blanks or repetitions |
| SoloRecords.SnapshotRecord | cli/internal/solo/state.go:611-621 | the same for a snapshot, whose contents are kept |
| SoloRecords.IngressCheckRecord | cli/internal/solo/state.go:653-666 | the same for an ingress check, with its addresses tidied |
| SoloRecords.ReleaseRecord | cli/internal/solo/state.go:442-478 | a release is accepted exactly with an identifier, environment, revision, readable time and place; its environment and revision are those of its snapshot |
| SoloRecords.CurrentRecord | cli/internal/solo/state.go:480-513 | a current entry is dropped exactly if blank and kept exactly if it names a release of the environment that its key spells |
| SoloRecords.DeploymentRecord | cli/internal/solo/state.go:515-562 | a deployment is accepted exactly with an identifier, a release of its own environment, one of three kinds, one of four statuses and a positive number, all of which it keeps |
| SoloRecords.SecretRecord | cli/internal/solo/state.go:623-651 | a secret is accepted exactly with a place, service and name, and as plain text with a value or as one of three names of 1Password with a reference and no value |
| SoloRecords.SecretIsFiled | cli/internal/solo/state.go:643-651 | the key of a secret is its place, environment, service and name, one per line |
| SoloStates.NormalizedIsNormal | cli/internal/solo/state.go:389-595 | normalising again changes nothing exactly when every canonical path that serves as a root is trimmed and spelled as itself and every current key can be worked out again |
| SoloStates.NormalStays | cli/internal/solo/state.go:389-595 | a normal state is a fixed point |
| SoloStates.AttachmentStays | cli/internal/solo/state.go:597-609 | normalising an attachment again, or one that was united, changes nothing exactly when its root allows it |
| SoloStates.NodesStay | cli/internal/solo/state.go:1012-1029 | a normalised node is left alone, with its default port, directory and labels |
| SoloStates.SnapshotStays | cli/internal/solo/state.go:611-621 | the same exact condition for snapshots |
| SoloStates.IngressCheckStays | cli/internal/solo/state.go:653-666 | the same exact condition for ingress checks |
| SoloStates.DeploymentsStay | cli/internal/solo/state.go:515-562 | a normalised deployment is left alone |
| SoloStates.ReleaseStays | cli/internal/solo/state.go:442-478 | the same exact condition for releases |
| SoloStates.CurrentStays | cli/internal/solo/state.go:480-513 | a current entry, which only its key identifies, is left alone exactly when the key can be worked out again |
| SoloStates.SecretStays | cli/internal/solo/state.go:623-651 | the same exact condition for secrets |
| SoloStates.ScopeTwice | cli/internal/solo/state.go:668-683 | from the record's side: normalising its workspace identity twice changes nothing exactly when it names its root or the canonical path found is trimmed and spelled as itself |
| SoloStates.PaddedPathMoves | cli/internal/solo/state.go:194-203 | an input where it fails: a directory whose name ends in a blank, reached through a link by a record without a root, is taken for another one when read again |
| SoloStates.RereadExactly | cli/internal/solo/state.go:205-215 | which canonical paths give a key that can be worked out again: one line spelled as itself, or several whose first line is |
| SoloStates.OrdinaryPathsOk | cli/internal/solo/state.go:194-203 | one-line canonical paths spelled as themselves, in this state alone, are enough |
| SoloOperations.NormalIsConsistent | cli/internal/solo/state.go:442-562 | keys are the records' identities; every current entry and deployment names an existing release of its own environment |
| SoloOperations.NormalizedIsConsistent | cli/internal/solo/state.go:389-595 | the same for whatever normalisation gives, whatever its canonical paths are |
| SoloOperations.NothingIsLost | cli/internal/solo/state.go:389-595 | no node, release or deployment is lost and only blank current entries are dropped |
| SoloOperations.AttachmentsUnite | cli/internal/solo/state.go:406-425 | a normalised attachment has exactly the node names of the attachments that meet under its key |
| SoloOperations.AcceptedExactly | cli/internal/solo/state.go:389-595 | accepted are exactly the states whose records are acceptable, identifiers unique and references valid |
| SoloOperations.StateStore.Read | cli/internal/solo/state.go:76-101 | answers the normalised file, which is consistent, the file itself if it is normal, the empty state without a file |
| SoloOperations.StateStore.Write | cli/internal/solo/state.go:103-128 | stores the normalised state, which is then settled exactly when its paths allow it, or leaves the file alone |
| SoloOperations.StateStore.WriteReadWrite | cli/internal/solo/state.go:76-128 | what is read back is a normalisation of what was written and consistent; if the paths in what was written allow it, it is the same, and writing it again changes nothing |
| SoloOperations.Solo.AttachNode | cli/internal/solo/state.go:882-905 | fails exactly for an unknown node or workspace; else files the environment's record with the node added |
| SoloOperations.Solo.DetachNode | cli/internal/solo/state.go:907-932 | removes the node, and the record with its last node; reports whether it was listed |
| SoloOperations.Solo.AttachmentKeysForNode | cli/internal/solo/state.go:934-948 | exactly the keys whose record lists the node, strictly sorted |
| SoloOperations.AttachKeepsNormal | cli/internal/solo/state.go:882-905 | attaching keeps the state normal exactly when the key spells the workspace and environment recorded under it and the recorded root is of that workspace; the nodes are the previous ones and the new one |
| SoloOperations.FilesOrdinarily | cli/internal/solo/state.go:882-905 | what that asks of a one-line canonical path: trimmed, the record there of the same workspace, spelled as itself if it has to serve as the root; with several lines a named environment is never filed right |
| SoloOperations.DetachKeepsNormal | cli/internal/solo/state.go:907-932 | detaching keeps every normal state normal; the nodes are the previous ones without the one |
| SoloOperations.DetachUndoesAttach | cli/internal/solo/state.go:882-932 | detaching undoes attaching exactly when there was no record, or one with nodes but not this one that attaching filed right |
| SoloReleases.SaveRelease | cli/internal/solo/state.go:802-828 | files the release, makes it current and saves its snapshot under the environment's key, or changes nothing |
| SoloReleases.SaveKeepsNormal | cli/internal/solo/state.go:802-828 | saving a release keeps the state normal exactly when the release is tidy, its canonical path is one line spelled as itself, and no other environment refers to its identifier |
| SoloReleases.SavedCanBeWritten | cli/internal/solo/state.go:802-828 | after a release was saved over a normal state the next write accepts exactly if its time can be read, its key worked out again, its trimmed identifier belongs to no other record and no other environment refers to it |
| SoloReleases.SaveOverRefused | cli/internal/solo/state.go:480-562 | saving over a release that another environment has as its current one, or deployed, makes the next write refuse, whatever the paths are |
| SoloReleases.ReleaseHistory | cli/internal/solo/state.go:844-871 | all releases of the environment and no others, as often as they are filed; if they are filed under their own identifiers, newest first, and of two made at one instant the one with the greater identifier; fails exactly for an unknown workspace or an unreadable time |

## Left out

- Docker, HTTP, SSH, TLS, ACME and file formats: a call that may fail, with only the effect the code relies on; saving and loading a file is the identity.
- Network setup and Envoy's attachments inside a reconciler pass: one call that may fail (`Host.Attempt`); the attachments themselves are modelled in `EnvoyContainer`.
- Waiting, delays, timeouts and retries: a wait is a sequence of probes that ends in some way; retries of the Google token exchange are one request.
- Container specifications, hashes and names: parameters; a create fails when the name is taken.
- Metrics, logs, report formatting and fingerprints, the throttling of disk care by the agent, and the size of container logs.
- Envoy's own matching beyond exact domains, the catch-all domain and path prefixes: wildcard domains and ports in hosts are not part of this model.
- In-place reuse of slice storage in the release log: the fields are sequences that the methods reassign, so aliasing of backing arrays is not captured.
- Integers are unbounded, except that a service port is truncated to 16 bits as in the source.
- The other commands of `cli/internal/workflow`, the API client, discovery, the user interface, the installation scripts and the control plane.
- Building deploy snapshots and redacting secrets in `cli/internal/solo/state.go`: the releases and snapshots of `deployment-core` are plain records with opaque contents.
- Error texts: a failure is a value without its message, except for the faults of disk care, where the first one is what is reported.
- RecordMaps.NormalizeMap: the eight loops of the solo normalisation share one loop with the record normaliser and the treatment of meeting keys as parameters, because they differ in nothing else.
- DiskCare.ValidatedOneCurrent: says nothing about names with a NUL, the character that separates the parts of a release key; `DiskCare.NulMakesTwoCurrent` shows that it then fails.
- DesiredStates.RoutesAccepted: says nothing about hosts with a NUL, the character that separates the parts of a route key; `DesiredStates.NulJoinsRoutes` shows why.
- SoloReleases.ReleaseHistory: the order is stated for releases filed under their own identifiers, which reading the state guarantees; otherwise the code sorts by the time of another record with the same identifier.
- Auth.Manager.constructor: takes a configuration that `NewManager` accepts; its refusals of blank settings and a negative skew are not modelled, because nothing exists after them.
- Auth.Manager.Initialize: assumes that a state file was written by a manager, since nothing in the code checks one that was not.
- DiskCare.Manager.Run: what the engine lists is taken to be consistent for the length of one run; containers that start while it runs are not seen, as in the code.

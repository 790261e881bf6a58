# Workspace spawner: model and proofs

nogoo9 runs user workspaces as Kubernetes pods. MCP tool handlers spawn, list, upgrade and
stop them; background workers and reconcilers clean up after upgrades; an HTTP proxy and a
WebSocket proxy send requests to them; every replica of the server signs and verifies session
cookies. These parties share pods, Secrets and cookies without a lock. This project models what
they do to that shared state and proves what holds of it.

Run `dafny verify dfyconfig.toml`.

## Layout

| files | what they model |
|---|---|
| `Sorting`, `Text`, `Pods` | stable sorting in place, string handling, pods and the pod a request is routed to |
| `Reconcile`, `Convergence`, `StartupScan` | the reconcile on demand, its repetition, the scan at start-up |
| `UpgradeProtocol`, `UpgradeWorker`, `UpgradeSettles` | any number of side-by-side upgrades and reconciles, one API call a step; the body of one worker; what a run comes to |
| `PodSpec`, `SpawnerAnnotations`, `Labels`, `UpgradeSpec` | the pod spec an upgrade creates |
| `Lifecycle`, `Quota`, `QuotaSharpness`, `Ownership`, `Handlers` | spawn, upgrade and stop with calls in flight; the quota; who owns a workspace; the handlers whose calls are the steps |
| `TemplateVersion`, `UpgradeAll` | template versions and the upgrade of all outdated workspaces |
| `SecretRace`, `PeerDiscovery`, `SessionKey`, `KeyCascade` | how replicas agree on a session key; the body of one replica; Secret and peers together |
| `JsonPath`, `SessionCookie`, `JsonStore`, `SharedRoles` | dotted paths, session cookies, the same writes on objects in place, and the rebuilt payload with its shared role list |
| `ApiRouting`, `Access`, `Singleflight` | longest-prefix routing, scopes, roles and visibility, shared token refreshes |

## Conventions

A protocol is a `State`, a `Step`, a predicate `Enabled`, a function `Do` and a predicate `IsRun`
over sequences of states and steps; one step is at most one call to the Kubernetes API. Loops and objects
that change in place are methods and classes (`Cluster`, `Draft`, `Namespace`, `Refreshes`,
`JsObject`, `Server`), each proved equal to a function about which the lemmas speak. What such a
function comes to is stated once over its inputs, with the program's constants written out: these
lemmas are named `...Meaning`, or after the thing they describe.

A missing label, annotation or option reads like the empty string, because the program tests both
with the same truthiness. Clocks, time stamps, generated names and keys, configuration and refused
API calls are parameters. `localeCompare` is an arbitrary total order; base64url JSON and the HMAC
are arbitrary functions, of which the former is injective and free of dots (section 5 of RFC 4648).

## Where the code and its promises part

Each of these is a lemma with an input or a run. The condition under which the promise does hold is
a lemma as well, in both directions; what such a lemma assumes is in its contract, and what that
leaves out is listed at the end.

- The failure branches of an upgrade check and delete in separate calls, so two parties can delete
  both pods of a workspace (`UncheckedFailureEmptiesWorkspace`; exactly when: `AliveExactlyWhenHarmless`).
- The comment at src/mcp/spawner/upgrade.ts:192 says custom mounts are kept, but mounts are matched
  by volume name, so a second mount of a volume is lost (`SecondMountOfVolumeIsDropped`; exactly
  when: `MountsKept`).
- A variable by reference is lost if the template defines its name as a plain value twice; one such
  definition does no harm (`ReferenceCanBeShadowed`; exactly when: `EnvKeptExactly`).
- The display name requested for a spawn from a template is overwritten before it is used
  (`DisplayNameIsDropped`; exactly when it survives: `DisplayNameKeptExactly`).
- In a spawn from an inline spec the originals of labels and annotations are written over the copies
  with the placeholders filled in, so the pod shows the originals (`InlinePlaceholdersStay`; exactly
  when: `InlineFilledExactly`). The copies are read once, by the template access check, and make no
  other difference (`FillingDecidesAccessOnly`).
- A pod that is deleted between the listing of a stop and the stop's own deletion ends the stop, and
  the workspace's other pod goes on running (`StopCanMissAPod`; exactly when the workspace is empty
  at the end: `OwnerStopEmptiesExactly`).
- An upgrade whose worker creates its pod late can exceed the quota (`UpgradeEvadesQuota`; exactly
  when: `QuotaKeptExactly` for active workspaces and admitted spawns, `ActiveKeptExactly` for active
  workspaces alone, with `ExcessIsUnchecked`) or add a pod to somebody else's workspace (`LateUpgradeMixesOwners`;
  exactly when: `OwnersAgreeExactly`).
- An upgrade of all workspaces reports those as upgraded whose worker fails later
  (`UpgradedCanStayOutdated`; exactly which are outdated at the end, for any templates and any timing
  of the workers: `UpgradeAllExactly`).
- The lookups of a template's version can disagree (`VersionsCanDisagree`), and then an upgraded
  workspace stays outdated (exactly when: `UpgradedRelapsesExactly`, and `UpgradedIsCurrent` with
  `TemplateVersion.Settled` for specs that do not set the version).
- Followers that give up go on with keys of their own (`GivingUpSplitsKeys`; exactly when all agree:
  `AgreementExactly`), a Secret that is deleted leaves its key behind (`DeletedSecretSplitsReplicas`;
  exactly when: `CachedKeysStoredExactly`), and one failed read can send a replica past the Secret that
  others use (`TransientFailureSplits`; exactly when all agree: `CascadeAgreesExactly`,
  `CascadeKeysAgreeExactly`, and over a run `RunsAgreeExactly`).
- A token without scopes passes checks that a token with an unrelated scope fails
  (`FirstScopeCanDeny`, `FirstRoleCanDeny`; exactly when: `ScopeKeptExactly`, `RoleKeptExactly`). With
  unusual scope names or unset roles the actions are not ordered (exactly when: `AdminIsEnough`,
  `RolesNest`, `ScopesNest`).
- Session paths of which one is, or lies below, the other lose the subject or the roles, and paths
  to an element of the standard role list spoil the list; a subject in a named property of that list
  is kept (`HarmfulLoses`; exactly when every identity comes back: `SharedRoles.IdentityKeptExactly`).

## Model

| member | source | states |
|---|---|---|
| Pods.SelectRoutingPod | src/server/auth.ts:546-557 | sorting the listed pods in place and taking the first ready one yields the routing pod |
| Pods.RoutingPodIsNewestReady | src/server/ws-proxy.ts:122-133 | requests go to the newest pod that is running with an address, or to the newest of all while none is |
| Sorting.SortInPlace | src/mcp/spawner/helpers.ts:117-121 | the in-place sort leaves the stable sort of what the array held |
| Sorting.SortFilter | src/mcp/spawner/helpers.ts:117-121 | taking an element out before or after the sort gives the same list, ties included |
| Reconcile.ReconcileUpgradeTransition | src/mcp/spawner/helpers.ts:107-231 | for every listing the newest pod is active if it is ready, else the second newest; in transition exactly while the newest is not ready and at most ten minutes old, and then nothing changes; note and deletion follow the decision, whichever requests are refused |
| Reconcile.DecisionMeaning | src/mcp/spawner/helpers.ts:107-231 | active pod, transition, note and deletion in terms of the newest and the second newest pod, ties resolved by the order of the listing |
| Reconcile.TwoNewestSorted | src/mcp/spawner/helpers.ts:116-124 | every listing of at least two pods has such a newest and second newest, and the sort puts them first |
| Reconcile.FewPodsStay | src/mcp/spawner/helpers.ts:112-114 | one pod or none: never in transition, nothing deleted |
| Reconcile.DecideSparesOne | src/mcp/spawner/helpers.ts:107-231 | a reconcile removes at most one pod, only beside another one, and never the pod it reports as active |
| Reconcile.ReconcileKeepsRoutingPod | src/mcp/spawner/helpers.ts:116-227 | as long as some pod is ready, a reconcile does not change the pod the proxies choose |
| Convergence.ReconciliationConverges | src/mcp/spawner/helpers.ts:107-231 | once all unready pods are overdue, n - 1 rounds leave exactly one pod: the newest ready one, else the oldest |
| StartupScan.GroupByWorkspace | src/mcp/spawner/upgrade-reconciler.ts:23-32 | the loop puts every labelled pod into the group of its workspace, in listing order |
| StartupScan.GroupsPartition | src/mcp/spawner/handlers/index.ts:59-69 | the groups together hold every labelled pod exactly once |
| StartupScan.ReconcileUpgradingWorkspaces | src/mcp/spawner/upgrade-reconciler.ts:15-142 | the scan carries out one decision for each group, one after the other |
| StartupScan.ScanEqualsOnDemand | src/mcp/spawner/upgrade-reconciler.ts:34-142 | the scan leaves each workspace as an on-demand reconcile of that workspace alone would |
| StartupScan.ScanSparesEveryWorkspace | src/mcp/spawner/upgrade-reconciler.ts:34-142 | one scan takes at most one pod of a workspace and never its last |
| UpgradeProtocol.StepKeepsInv | src/mcp/spawner/upgrade.ts:289-424 | every step, decisions on old listings included, keeps the invariant that a worker's old pod is older than its new one and that a superseded pod has a newer one that was ready |
| UpgradeProtocol.StepKeepsAlive | src/mcp/spawner/upgrade.ts:331-420 | a step keeps the newest pod that was ever ready (else the original) if and only if it is not a failure branch deleting the serving pod; success branches need no atomicity |
| UpgradeProtocol.AliveExactlyWhenHarmless | src/mcp/spawner/helpers.ts:150-227 | over a whole run the essential pod is there in every state if and only if no failure branch hits the serving pod |
| UpgradeProtocol.NeverEmptied | src/mcp/spawner/upgrade.ts:289-424 | if failure branches delete only pods that are not ready then, no run of any number of upgrades and reconciles empties the workspace |
| UpgradeProtocol.RequestsStayServed | src/server/auth.ts:546-557 | in such runs, once a pod was ready every later request is routed to a ready pod, never an older one than before |
| UpgradeProtocol.UncheckedFailureEmptiesWorkspace | src/mcp/spawner/helpers.ts:155-227 | without that condition a run of two reconciles and one upgrade ends with no pod |
| UpgradeProtocol.WorkersProgress | src/mcp/spawner/upgrade.ts:289-424 | a worker that is not done is never blocked, its own steps bring it closer to its end, and nobody else's touch it |
| UpgradeProtocol.WorkersEnd | src/mcp/spawner/upgrade.ts:299-424 | in any run a worker takes at most 122 steps |
| UpgradeSettles.HarmlessRunsSettle | src/mcp/spawner/helpers.ts:107-231 | after any harmless run, once unready pods are overdue, n - 1 reconciles leave exactly the newest pod that was ever ready, else the original |
| UpgradeWorker.PollForReadiness | src/mcp/spawner/upgrade.ts:299-329 | ready if and only if one of 120 readings is; otherwise the details are those of the last reading that had any; the outcome is that of the protocol's polling steps |
| UpgradeWorker.DetailsMeaning | src/mcp/spawner/upgrade.ts:299-329 | the details are the reason that was given last, if any was given |
| UpgradeWorker.RunSideBySide | src/mcp/spawner/upgrade.ts:299-420 | the old pod goes on success, the new pod goes and the old one is annotated on failure, whichever requests are refused |
| UpgradeWorker.ConcludedMeaning | src/mcp/spawner/upgrade.ts:331-420 | exactly which pods there are afterwards: all but the old one after a success, all but the new one after a failure, the old one with its note |
| UpgradeWorker.SuccessIsAStep | src/mcp/spawner/upgrade.ts:403-420 | a worker that saw its pod ready ends with the protocol's deletion of the old pod |
| UpgradeWorker.FailureIsTwoSteps | src/mcp/spawner/upgrade.ts:331-397 | one that timed out ends with the protocol's update of the old pod, if it is there, and deletion of the new one |
| UpgradeWorker.UpgradeIsAllOrNothing | src/mcp/spawner/upgrade.ts:331-420 | undisturbed, exactly one of old and new pod is left and no other pod is affected |
| PodSpec.MergeByName | src/mcp/spawner/upgrade.ts:178-188 | the in-place loop computes the merge that overwrites the first entry of a name or appends |
| PodSpec.MergeLast | src/mcp/spawner/upgrade.ts:211-223 | what a last-wins reader finds after a merge, duplicates on either side included |
| PodSpec.MergeIsOverride | src/mcp/spawner/upgrade.ts:177-190 | with distinct names a merge holds every new entry, every old one of another name, nothing else, and stays distinct |
| PodSpec.MergeMounts | src/mcp/spawner/upgrade.ts:200-209 | the loop over mounts computes the merge that adds a mount if no mount of that volume is there |
| PodSpec.MountsKept | src/mcp/spawner/upgrade.ts:200-209 | exactly which mounts survive: all of the base, and the first of a volume the base does not mount |
| PodSpec.SecondMountOfVolumeIsDropped | src/mcp/spawner/upgrade.ts:192-209 | two mounts of one volume do not both survive |
| SpawnerAnnotations.ApplySpawnerAnnotations | src/k8s/annotations.ts:92-126 | the injections on the working copy give the specified containers, init containers and grace period, or a refusal |
| SpawnerAnnotations.Draft.InjectInitContainer | src/k8s/annotations.ts:27-49 | an init container with the context and, unless disabled, the main container's mounts is appended; nothing else changes |
| SpawnerAnnotations.Draft.InjectPreStopHook | src/k8s/annotations.ts:54-87 | a sidecar is appended or the main container's hook is set, and the grace period with it; nothing without a command |
| SpawnerAnnotations.RefusedExactlyWhenContextMissing | src/k8s/annotations.ts:7-22 | a spec is refused if and only if a required key is not in the context |
| SpawnerAnnotations.MissingMeaning | src/k8s/annotations.ts:7-22 | the keys reported as missing are the trimmed items of the required list for which no variable is given |
| SpawnerAnnotations.OwnContainersKept | src/k8s/annotations.ts:92-126 | the spec's containers stay in place; the first gets the context and, unless there is a sidecar, the hook; no other changes |
| SpawnerAnnotations.SidecarMeaning | src/k8s/annotations.ts:54-87 | when a sidecar is added, what it runs and mounts, and the grace period; volumes, account, labels and annotations stay |
| SpawnerAnnotations.InitMeaning | src/k8s/annotations.ts:27-49 | when an init container is added behind the spec's own, and its image, command, variables and mounts |
| SpawnerAnnotations.InjectionsResolve | src/k8s/annotations.ts:27-87 | injected containers mount nothing that the spec's containers did not |
| SpawnerAnnotations.AppliedEnv | src/k8s/annotations.ts:112-123 | the main container's variables are its own followed by the context |
| UpgradeSpec.CollectContext | src/mcp/spawner/upgrade.ts:143-154 | the loop collects each named variable with a value once, the last value winning |
| UpgradeSpec.ContextMeaning | src/mcp/spawner/upgrade.ts:143-154 | the context has exactly the last value given to each usable name, each name once |
| UpgradeSpec.EnvKeptExactly | src/mcp/spawner/upgrade.ts:143-223 | for any variables at all, a name ends up with its old definition, else the template's, if and only if a check on the inputs succeeds |
| UpgradeSpec.ReferenceCanBeShadowed | src/mcp/spawner/upgrade.ts:211-223 | the check can fail: a reference that the template defines twice is lost |
| UpgradeSpec.UpgradeKeepsEnvironment | src/mcp/spawner/upgrade.ts:143-223 | with plain variables the effective environment is the template's overridden by the old pod's |
| UpgradeSpec.EnvironmentOverUpgrades | src/mcp/spawner/upgrade.ts:143-223 | after any number of upgrades from any templates, the workspace's own variables still hold, earlier templates over later ones |
| UpgradeSpec.SecondUpgradeSameEnvironment | src/mcp/spawner/upgrade.ts:143-223 | a second upgrade from the same template changes no variable |
| UpgradeSpec.UpgradeWorkspaceInner | src/mcp/spawner/upgrade.ts:19-263 | the statements of the upgrade produce the plan for the first pod the caller may see, the new pod's name and the strategy, or the error of the step that fails |
| UpgradeSpec.FirstVisible | src/mcp/spawner/upgrade.ts:26-39 | the pod that is read is the first listed one with the labels of workspace and, unless the caller is an administrator, owner; none if there is no such pod |
| UpgradeSpec.PlanMeaning | src/mcp/spawner/upgrade.ts:39-246 | which error an upgrade ends with, the missing context keys included, or that it is planned, and that it recreates the pod exactly if an old volume has a claim |
| UpgradeSpec.PlannedMainContainer | src/mcp/spawner/upgrade.ts:192-209 | the planned main container has the template's name, image and command; it mounts exactly what the template's does, and of the old mounts the first of each volume that the template's does not mount |
| UpgradeSpec.PlannedContainers | src/mcp/spawner/upgrade.ts:165-223 | the other containers are the template's, and the injected ones come behind them |
| UpgradeSpec.PlannedMetadata | src/mcp/spawner/upgrade.ts:49-242 | key by key, where labels and annotations of the new pod come from, whose it is, and its service account |
| UpgradeSpec.NewPodNameOwner | src/mcp/spawner/upgrade.ts:248-251 | ten characters of the owner's name appear in it, inadmissible ones not counted |
| UpgradeSpec.NewPodNames | src/mcp/spawner/upgrade.ts:248-251 | names of new pods are made of owner, id and random suffix, cut to 63 characters in front of the suffix, and differ where the suffixes do |
| UpgradeSpec.PlannedMainEnv | src/mcp/spawner/upgrade.ts:143-223 | the planned main container has exactly the variables of which the environment lemmas speak |
| UpgradeSpec.UpgradeKeepsVolumes | src/mcp/spawner/upgrade.ts:177-190 | every old volume survives as it was, every template-only one is kept, there are no others |
| UpgradeSpec.UpgradeKeepsReferences | src/mcp/spawner/upgrade.ts:177-209 | if all mounts resolved in template and old pod, every mount of every container of the new pod names one of its volumes |
| UpgradeSpec.UpgradeKeepsIdentity | src/mcp/spawner/upgrade.ts:226-242 | whoever upgrades, the new pod keeps workspace id, owner and service account |
| Labels.IdentityCannotBeOverridden | src/mcp/spawner/handlers/index.ts:296-315 | no label from a caller, template, spec or old pod changes the identity labels of a spawned or upgraded pod |
| Labels.UpgradeKeepsOtherLabels | src/mcp/spawner/upgrade.ts:229-237 | other labels of the old pod survive unless the spec sets them |
| Labels.DisplayNameIsDropped | src/mcp/spawner/handlers/index.ts:202-218 | a spawn from a template has no name annotation when neither template, caller nor spec sets one, whatever name was requested |
| Handlers.DisplayNameKeptExactly | src/mcp/spawner/handlers/index.ts:202-315 | for every kind of spawn: the pod carries the requested name if and only if the strongest source that names it says the same |
| Handlers.SpawnWorkspace | src/mcp/spawner/handlers/index.ts:146-325 | the checks in their order, from target to service account and required context, decide between an error without a pod and one new pod, with the request's labels, annotations and spec |
| Handlers.AttemptMeaning | src/mcp/spawner/handlers/index.ts:152-290 | which error a spawn ends with, in the order of the checks and over request, setting and listed pods, or that it ends with a pod of that name |
| Handlers.SpawnedSpec | src/mcp/spawner/handlers/index.ts:265-325 | the spec that is created: the source's with overrides and account, after the injections |
| Handlers.SpawnedMetadata | src/mcp/spawner/handlers/index.ts:291-315 | key by key, where labels and annotations of the spawned pod come from |
| Handlers.SourceAnnotation | src/mcp/spawner/handlers/index.ts:198-251 | which annotations the template restrictions are read from |
| Handlers.AdmissionIsTwoSteps | src/mcp/spawner/handlers/index.ts:164-195 | undisturbed, the handler's uniqueness and quota checks give what two steps of the protocol give |
| Handlers.CreationIsOneStep | src/mcp/spawner/handlers/index.ts:291-325 | the handler's pod is one the protocol lets it create, and both leave the same pods |
| Handlers.PlanIsOneStep | src/mcp/spawner/upgrade.ts:30-242 | the pod an upgrade plans is one the protocol lets it capture, whoever asks |
| Handlers.InlinePlaceholdersStay | src/mcp/spawner/handlers/index.ts:235-307 | in a spawn from an inline spec, the caller's labels and annotations appear with their placeholders |
| Handlers.InlineFilledExactly | src/mcp/spawner/handlers/index.ts:235-307 | a label or annotation comes out filled in if and only if filling it in changes nothing |
| Handlers.FillingDecidesAccessOnly | src/mcp/spawner/handlers/index.ts:235-263 | apart from the verdict of the access check, the placeholder values make no difference to outcome and pod |
| Lifecycle.StepKeepsClean | src/mcp/spawner/handlers/index.ts:164-325 | every step leaves each pod of the cluster labelled as a workspace of one id and one owner |
| Lifecycle.ActiveWorkspaceIds | src/mcp/spawner/handlers/index.ts:180-189 | the loop collects exactly the ids of pods that have neither succeeded nor failed |
| Lifecycle.StopWorkspace | src/mcp/spawner/handlers/index.ts:389-417 | the listed pods are deleted in order up to the first refusal, which is reported; nothing to stop exactly if no pod has the id and, unless the listing is unfiltered, the caller for an owner; all other workspaces and owners keep their pods |
| Lifecycle.StopMeaning | src/mcp/spawner/handlers/index.ts:392-403 | the same over the labels of the pods: whom a stop finds and whom it spares, however far it gets |
| Lifecycle.StopListsStoppable | src/mcp/spawner/handlers/index.ts:392-397 | the handler lists what the step of the protocol lists |
| Lifecycle.StopIsSteps | src/mcp/spawner/handlers/index.ts:392-417 | undisturbed, its deletions are the protocol's: the same pods are left and the call is over |
| Lifecycle.StopIsComplete | src/mcp/spawner/handlers/index.ts:389-417 | a stop takes every selected pod if and only if no deletion of one is refused |
| Lifecycle.StopTouchesNoOther | src/mcp/spawner/handlers/index.ts:389-417 | complete or not, a stop leaves every pod it did not select |
| Quota.StepKeepsQuota | src/mcp/spawner/handlers/index.ts:173-195 | active workspaces plus admitted spawns stay within limit + k - 1 over a step if and only if it is no unchecked creation beyond the bound |
| Quota.QuotaKeptExactly | src/mcp/spawner/upgrade.ts:289-297 | over a whole run they stay within it if and only if no upgrade and no administrator overdraws |
| Quota.ActiveKeptExactly | src/mcp/spawner/handlers/index.ts:173-325 | active workspaces alone stay within it if and only if no creation adds one where there are that many |
| Quota.ExcessIsUnchecked | src/mcp/spawner/upgrade.ts:289-297 | wherever a creation does, that one or an earlier one bypassed the check |
| Quota.QuotaBound | src/mcp/spawner/handlers/index.ts:173-195 | with at most k spawns in flight and nobody overdrawing, a user never has more than limit + k - 1 active workspaces |
| QuotaSharpness.QuotaBoundIsReached | src/mcp/spawner/handlers/index.ts:173-325 | for every limit and every k a run reaches that bound |
| QuotaSharpness.UpgradeEvadesQuota | src/mcp/spawner/upgrade.ts:289-297 | an upgrade captured before a stop brings a user above a limit of one with a single spawn in flight |
| Ownership.StepKeepsOwners | src/mcp/spawner/handlers/index.ts:164-325 | a step keeps one owner per workspace id if and only if it does not add a pod to somebody else's workspace |
| Ownership.OwnersAgreeExactly | src/mcp/spawner/handlers/index.ts:164-325 | over a run, owners agree in every state if and only if they do at the start and no step intrudes |
| Ownership.AtomicRunsKeepOwners | src/mcp/spawner/upgrade.ts:30-52 | with each check and its creation in one step, all pods of an id have one owner in every state |
| Ownership.OwnerStays | src/mcp/spawner/upgrade.ts:49-52 | while a workspace has a pod its owner stays, whatever chain of upgrades it goes through |
| Ownership.OnlyTheOwnerStops | src/mcp/spawner/handlers/index.ts:392-403 | a stop filtered by owner lists every pod of the id and no other if the caller is the owner; otherwise it lists none and is over |
| Ownership.OwnerStopEmpties | src/mcp/spawner/handlers/index.ts:392-417 | a stop that finds every pod it listed and is refused no deletion leaves none, whatever else happens except creations of that id |
| Ownership.OwnerStopEmptiesExactly | src/mcp/spawner/handlers/index.ts:392-417 | with pods deleted by others and deletions refused: when the owner's stop ends, the workspace is empty if and only if its last deletion succeeded or nothing was left; only creations of that id are excluded |
| Ownership.StopCanMissAPod | src/mcp/spawner/handlers/index.ts:405-417 | a listed pod that a worker deletes first ends the stop, and the second pod of the workspace stays |
| Ownership.RacingSpawnsMixOwners | src/mcp/spawner/handlers/index.ts:164-171 | two users who spawn one id at once both succeed |
| Ownership.LateUpgradeMixesOwners | src/mcp/spawner/upgrade.ts:289-297 | an upgrade captured before a stop adds a pod to the workspace of the next owner of the id |
| TemplateVersion.FillPlaceholders | src/mcp/spawner/helpers.ts:345-363 | the loop fills in every entry but those of two reserved keys |
| TemplateVersion.ResolveTemplateSpec | src/mcp/spawner/helpers.ts:314-400 | ConfigMap with a spec, else template file, else not found, each with its version |
| TemplateVersion.ResolveMeaning | src/mcp/spawner/helpers.ts:314-400 | whose spec, version, labels and annotations a template has, filled in entry by entry |
| TemplateVersion.OutdatedMeaning | src/mcp/spawner/helpers.ts:19-48 | a workspace is outdated if and only if its version, or 1.0.0, is not the ConfigMap's, else the file's, else 1.0.0 |
| TemplateVersion.VersionsAgree | src/mcp/spawner/helpers.ts:19-48 | the version a spawn or an upgrade uses is the latest version if and only if the template is settled |
| TemplateVersion.VersionsCanDisagree | src/mcp/spawner/helpers.ts:19-48 | a ConfigMap without a version beside a file with one: spawned at 1.0.0, latest 2.0.0 |
| TemplateVersion.SpawnedIsCurrent | src/mcp/spawner/handlers/index.ts:206-220 | a spawned workspace is reported outdated if and only if its template is not settled |
| TemplateVersion.UpgradedIsCurrent | src/mcp/spawner/upgrade.ts:82-163 | so is an upgraded one, whatever version the old pod carried |
| TemplateVersion.UpgradedRelapsesExactly | src/mcp/spawner/upgrade.ts:82-242 | whatever the template's spec says about reference and version: an upgraded workspace is outdated if and only if a check of the template fails |
| TemplateVersion.PinnedVersionStays | src/mcp/spawner/upgrade.ts:238-242 | a version in the spec's own annotations decides instead, at every upgrade |
| UpgradeAll.CollectOutdated | src/mcp/spawner/handlers/index.ts:693-708 | the loop lists the ids of outdated pods in listing order |
| UpgradeAll.OutdatedInOrder | src/mcp/spawner/handlers/index.ts:693-708 | once for each outdated pod, in the order of the listing |
| UpgradeAll.Namespace.UpgradeAllWorkspaces | src/mcp/spawner/handlers/index.ts:689-732 | every outdated workspace is reported as upgraded or failed, and a failure does not stop the rest; workers end at any time, before later plans or after the handler |
| UpgradeAll.ReportedExactly | src/mcp/spawner/handlers/index.ts:713-732 | an outdated workspace is reported as upgraded if and only if the caller may see its pod and there is a plan for it, else as failed; nothing else is reported |
| UpgradeAll.PodsInTheEnd | src/mcp/spawner/handlers/index.ts:689-732 | the pods that were there, with those of upgraded workspaces whose workers came through replaced by the planned ones |
| UpgradeAll.UpgradeAllExactly | src/mcp/spawner/handlers/index.ts:689-732 | for any templates and any timing of workers: a workspace is outdated in the end if and only if its upgrade failed, or its worker did not come through, or its template makes it relapse; none is lost |
| UpgradeAll.UpgradeAllSettles | src/mcp/spawner/handlers/index.ts:689-732 | where the lookups agree on all templates nothing relapses |
| UpgradeAll.UpgradedCanStayOutdated | src/mcp/spawner/handlers/index.ts:718-731 | a workspace that the handler reports as upgraded, with no failure, is still outdated |
| SecretRace.CachedKeysAreStored | src/k8s/session.ts:61-122 | as long as nobody deletes the Secret, in every interleaving and whatever calls fail, each cached key is the one stored |
| SecretRace.CachedKeysStoredExactly | src/k8s/session.ts:61-122 | over a run every cached key is the stored one if and only if the Secret is not deleted once somebody has its key |
| SecretRace.SecretRaceAgrees | src/k8s/session.ts:61-122 | without other failures all replicas that are done hold the same, stored key |
| SecretRace.DeletedSecretSplitsReplicas | src/k8s/session.ts:61-122 | deleting the Secret between two replicas leaves them with different keys |
| PeerDiscovery.ElectionIsDeterministic | src/k8s/session.ts:179-217 | whatever order pods are listed in, a replica leads if and only if it is the oldest, and others ask only strictly older pods |
| PeerDiscovery.KeysComeFromElders | src/k8s/session.ts:139-271 | every key held was generated by a pod no younger than its holder, with any failures |
| PeerDiscovery.ResolvedKeysAgree | src/k8s/session.ts:139-271 | if no follower gave up, every resolved key is the oldest pod's, even where its own listing failed |
| PeerDiscovery.AgreementExactly | src/k8s/session.ts:139-271 | in every state of every run, all resolved keys are the oldest pod's if and only if no other pod gave up |
| PeerDiscovery.KeysAgreeExactly | src/k8s/session.ts:139-271 | the same for the values of the keys, should two pods generate the same one |
| PeerDiscovery.ResolvedKeysNeverChange | src/k8s/session.ts:51-51 | a resolved key stays for the rest of the run |
| PeerDiscovery.GivingUpSplitsKeys | src/k8s/session.ts:173-271 | replicas that give up end with different keys |
| SessionKey.Server.ResolveSessionSecret | src/k8s/session.ts:46-271 | a cached key is returned; else the first of configuration, Secret, peers and own key that there is, as ResolvedMeaning spells out, which is then cached |
| SessionKey.ResolvedMeaning | src/k8s/session.ts:51-271 | the key for every combination of replies: configured, found in the Secret, put there by this replica or by a faster one, given by the oldest elder who answers, or its own |
| SessionKey.AskPeers | src/k8s/session.ts:171-257 | the loops over attempts and peers find the first answer, or none |
| SessionKey.ResolvesAsInRace | src/k8s/session.ts:61-122 | whatever others do between its calls, a replica ends as the steps of the race say |
| SessionKey.AsksExactlyElders | src/k8s/session.ts:179-217 | a follower asks exactly the active, reachable pods older than itself; a leader has none |
| SessionKey.AbsentAsksAll | src/k8s/session.ts:208-217 | a pod that is not listed asks all active, reachable ones |
| SessionKey.AdoptsExactlyWhenAnswered | src/k8s/session.ts:171-257 | a replica adopts a key if and only if an elder answers before a listing fails, and then it is that of the oldest one answering at the first attempt that is answered |
| KeyCascade.CascadeAgreesExactly | src/k8s/session.ts:61-271 | with Secret and peers together and any calls failing, all keys have one source if and only if nobody made a key, or one did and nobody has the Secret's |
| KeyCascade.CascadeKeysAgreeExactly | src/k8s/session.ts:61-271 | for the values of the keys: all hold one key if and only if the makers made the same one, and it is the Secret's if somebody has that |
| KeyCascade.RunsAgreeExactly | src/k8s/session.ts:61-271 | in terms of a run: no step made a key, or one did and no step served the Secret's |
| KeyCascade.MakersGrowExactly | src/k8s/session.ts:201-271 | a step makes a key exactly if a replica elects itself, its listing fails, or its last attempt ends without an answer |
| KeyCascade.ServedRunsAgreeExactly | src/k8s/session.ts:61-271 | while somebody has the Secret's key, all agree if and only if every replica that got past the Secret took its key from a peer |
| KeyCascade.TransientFailureSplits | src/k8s/session.ts:112-121 | one failed read and one failed listing leave two replicas with different keys |
| JsonPath.Walk | src/k8s/session.ts:389-404 | the loop reads what the path names |
| JsonPath.PartsMeaning | src/k8s/session.ts:394-397 | a path, with or without `$` and a dot in front, is its keys joined by dots |
| JsonPath.IndexMeaning | src/k8s/session.ts:398-403 | arrays are read at numbers below 2^32 - 1 as they are written |
| JsonPath.ReadElsewhere | src/k8s/session.ts:409-430 | a write, through objects and arrays, leaves every path unchanged that is no prefix, no extension and not the length of an array it lengthens |
| JsonPath.PathsAreLenses | src/k8s/session.ts:389-430 | on nested objects and arrays: written values are read back, the last write wins, incomparable paths keep their values |
| JsonPath.ReadBelow | src/k8s/session.ts:389-430 | below a written path one reads what is inside the written value |
| JsonPath.WriteRead | src/k8s/session.ts:389-430 | writing back what was read changes nothing |
| JsonStore.JsObject.SetJsonPathValue | src/k8s/session.ts:409-430 | the walk over references in place, through objects and arrays and with any value, has exactly the effect of the write on values, and no other cell changes |
| JsonStore.PutWrites | src/k8s/session.ts:409-430 | the cells it leaves hold the written value without sharing, and no cell outside the value it starts from is touched |
| JsonStore.RebuildPayload | src/k8s/session.ts:436-452 | the payload built property by property is the reconstructed one |
| SessionCookie.StandardPlacesHold | src/k8s/session.ts:436-452 | subject and roles are at their standard places too unless a configured path overwrites them, and nothing is anywhere else |
| SessionCookie.AcceptedExactlyWhenSigned | src/k8s/session.ts:321-353 | a cookie is accepted if and only if its first part is signed with this key and holds claims not yet expired; claims without a number for an expiry do not expire |
| SessionCookie.CookieRoundTrip | src/k8s/session.ts:283-353 | a minted cookie gives its claims back on any replica exactly while the signatures agree and now < exp |
| SessionCookie.MintedClaims | src/k8s/session.ts:283-315 | a cookie claims what the token holds at the configured places, or the defaults, and its own lifetime |
| SharedRoles.PutMeans | src/k8s/session.ts:409-430 | a write into the payload goes into the role list if the path leads through its standard place, else into the objects around it |
| SharedRoles.HarmlessKeeps | src/k8s/session.ts:436-452 | for all harmless pairs of paths, those inside the role list included, subject and roles are read back |
| SharedRoles.HarmfulLoses | src/k8s/session.ts:436-452 | for all others one and the same identity is lost |
| SharedRoles.IdentityKeptExactly | src/k8s/session.ts:436-452 | every identity comes back if and only if the paths pass a check on their parts |
| SharedRoles.OutsideIsUnshared | src/k8s/session.ts:436-452 | for paths outside the list the payload is the one that holds copies of it |
| SharedRoles.IdentitySurvives | src/k8s/session.ts:283-452 | token to cookie to payload on another replica: same subject, same roles |
| ApiRouting.ParseWorkspaceApis | src/k8s/pods.ts:207-271 | the loops over annotations and the table give one API for each name with a port |
| ApiRouting.ParseKeyMeaning | src/k8s/pods.ts:214-221 | which annotations describe an API: prefix, a name without dots, one of six fields |
| ApiRouting.NamesInOrder | src/k8s/pods.ts:211-241 | APIs are listed in the order in which they are first annotated |
| ApiRouting.DefaultVisibilityMeaning | src/k8s/pods.ts:245-257 | three names in any case are for administrators by default, all others private |
| ApiRouting.ParsedApisAreAnnotated | src/k8s/pods.ts:207-271 | an API is listed if and only if its name has a port annotation, with the last value of each field and the default visibility |
| ApiRouting.MatchHttp | src/server/auth.ts:616-651 | the loop with break finds the route, its port and the rewritten rest |
| ApiRouting.MatchWebSocket | src/server/ws-proxy.ts:164-183 | the same for the WebSocket proxy |
| ApiRouting.HitsMeaning | src/server/auth.ts:620-646 | a path leads to an API if it is the API's own without its last slash or continues it with a slash, and what continues it is the rest |
| ApiRouting.AllowsMeaning | src/server/auth.ts:626-634 | every method if none is listed, else the listed ones in any case and with blanks around, or all with a star |
| ApiRouting.RouteIsLongestPrefix | src/server/auth.ts:616-651 | sorting by raw length picks the longest trimmed prefix among all APIs that take the request, and fails only if none does |
| ApiRouting.RestCompletesPath | src/server/auth.ts:640-646 | the rest starts with a slash, and prefix plus rest is the path unless the path was the prefix |
| ApiRouting.ProxiesAgree | src/server/ws-proxy.ts:164-183 | both proxies choose alike if and only if the method test does not rule out the WebSocket's choice; always if every API allows the method |
| Access.VerifyAccess | src/k8s/auth.ts:622-707 | passes if and only if the action is allowed; otherwise names the missing scope or role; for claims that are strings, what their words say decides |
| Access.AllowedMeaning | src/k8s/auth.ts:622-707 | for each action, the scope and the roles of which one is needed, unless the user is listed |
| Access.ScopeClaimMeaning | src/k8s/auth.ts:442-463 | where scopes are looked for |
| Access.RoleClaimMeaning | src/k8s/auth.ts:548-573 | where roles are looked for |
| Access.ScopeString | src/k8s/auth.ts:465-494 | a string of scopes passes if a part between white space is the required scope or one as good, or if it is blank and the check is not strict |
| Access.ScopeList | src/k8s/auth.ts:465-494 | likewise an array, by its elements |
| Access.RoleString | src/k8s/auth.ts:575-594 | a string of roles passes if a part between white space and commas is the role, or it is the administrators' role, or it is blank and the role is the default one |
| Access.RoleMeaning | src/k8s/auth.ts:532-603 | a role check of any token |
| Access.TemplateMeaning | src/k8s/auth.ts:736-786 | a template is open to administrators and to those who have one of its listed roles and one of its listed scopes, as far as it lists any |
| Access.VisibleMeaning | src/server/auth.ts:679-731 | who gets through to a port, for each kind of visibility |
| Access.ScopeMeaning | src/k8s/auth.ts:428-503 | a scope check passes if and only if some scope covers the required one, or there are none and it is not strict |
| Access.AdminImpliesWriteExactly | src/k8s/auth.ts:622-707 | "admin" includes "write" for all tokens if and only if the configuration passes a check |
| Access.WriteImpliesWorkspaceWriteExactly | src/k8s/auth.ts:622-707 | likewise "write" and "workspace:write" |
| Access.WorkspaceWriteImpliesReadExactly | src/k8s/auth.ts:622-707 | likewise "workspace:write" and "read" |
| Access.ActionsAreOrdered | src/k8s/auth.ts:622-707 | with default scope names and roles set, each action includes the next |
| Access.MoreClaimsMoreAccess | src/k8s/auth.ts:622-707 | adding scopes or roles to non-empty lists never takes an action away |
| Access.MoreClaimsMoreTemplates | src/k8s/auth.ts:736-786 | nor a template |
| Access.MoreClaimsMorePorts | src/server/auth.ts:679-731 | nor a port of any visibility |
| Access.ScopeKeptExactly | src/k8s/auth.ts:465-472 | when lists may have been empty: a scope check stays passed if and only if it was not passed for lack of scopes, or still is, or a new scope covers it |
| Access.RoleKeptExactly | src/k8s/auth.ts:575-585 | the same for roles and the default role |
| Access.FirstScopeCanDeny | src/k8s/auth.ts:465-472 | a first, unrelated scope can deny what was allowed |
| Access.FirstRoleCanDeny | src/k8s/auth.ts:575-585 | a first, unrelated role can deny what the default role allowed |
| Singleflight.Refreshes.DeduplicateRefreshCall | src/server/auth-singleflight.ts:26-42 | joins the execution under way for the token or starts one |
| Singleflight.Refreshes.Finally | src/server/auth-singleflight.ts:36-38 | a settlement removes the token's entry |
| Singleflight.StepKeepsExact | src/server/auth-singleflight.ts:17-42 | the map holds the unsettled executions and nothing else |
| Singleflight.OneFlightPerToken | src/server/auth-singleflight.ts:17-42 | a token never has two executions under way |
| Singleflight.SettlementIsOwn | src/server/auth-singleflight.ts:36-38 | a settlement removes its own entry and no other |
| Singleflight.SharedExactly | src/server/auth-singleflight.ts:26-42 | two calls share a result if and only if they are for the same token and the first's execution is still under way at the second |
| Singleflight.RoundTripsBounded | src/server/auth-singleflight.ts:26-42 | round trips for a token are its settled executions plus at most one |

## Left out

- UpgradeProtocol.NeverEmptied: assumes strictly increasing creation times, names that are not reused and readiness that lasts, because the cluster and not the program would have to provide them.
- Ownership.AtomicRunsKeepOwners: assumes that no step comes between a check and its creation, which the program does not ensure; OwnersAgreeExactly has the exact condition.
- PeerDiscovery.ResolvedKeysAgree: assumes a fixed set of active replicas, because a change of the oldest one changes who leads.
- Ownership.OwnerStopEmptiesExactly: assumes that nobody adds a pod to the workspace while it is being stopped.
- KeyCascade.CascadeAgreesExactly: assumes that nobody deletes the Secret, which CachedKeysStoredExactly is about.
- UpgradeAll.UpgradeAllExactly: starts from namespaces without an upgrade in transition, because a workspace with two pods may be planned from either.
- UpgradeAll.ReportedExactly: starts from such namespaces too.
- UpgradeAll.PodsInTheEnd: the same.
- UpgradeAll.UpgradeAllSettles: assumes templates on which the lookups agree and whose specs do not set the version; UpgradeAllExactly assumes neither.
- Quota.ActiveKeptExactly: is about runs with at most k spawns in flight from at most as many active workspaces as the limit, as QuotaKeptExactly is.
- SessionKey.ResolvedMeaning: says which elder gives the key only for a fixed set of active replicas, as AdoptsExactlyWhenAnswered does.
- UpgradeWorker.RunSideBySide: describes the worker while nobody else acts; interleavings are the subject of UpgradeProtocol.
- Handlers.SpawnWorkspace: takes the caller's overrides of the spec as a function and does not model calls of other parties between its own; Lifecycle does.
- UpgradeSpec.UpgradeWorkspaceInner: takes the parsed and filled-in template, or the fact that it does not parse, as given.
- JsonPath.PathsAreLenses: excludes paths that write the length of an array, which truncates it or throws.
- JsonPath.ReadElsewhere: excludes paths that write the length of an array, and other paths that read the length of one it lengthens.
- JsonPath.WriteRead: excludes paths that name the length of an array.
- JsonStore.JsObject.SetJsonPathValue: requires that the written value is not already part of the object and that the walk does not enter an array that is shared, because a write would then show at several paths.
- JsonStore.PutWrites: requires the same.
- JsonStore.RebuildPayload: takes a subject that is a string, number or boolean and paths not below `$.realm_access.roles`; SharedRoles is about those that are.
- SessionCookie.StandardPlacesHold: the same.
- SharedRoles.IdentityKeptExactly: excludes paths that name the length of the role list, which the program would truncate or throw at, and takes subject and roles that are strings, numbers or booleans.
- SharedRoles.IdentitySurvives: the same.
- Access.ActionsAreOrdered: treats the result of a path lookup in the token as given, so malformed JSONPath expressions are not covered.
- The recreate branch for volumes with claims (src/mcp/spawner/upgrade.ts:259-286) is planned but its deletion is not a step of the protocol: it does not wait for readiness.
- `create_pod` and `patch_pod` may set arbitrary labels and are no steps of the ownership and quota runs.
- Whether the Kubernetes client fills the field from which the status of a failed call is read; the status of every call is taken as given.
- How a request URL is split into workspace, subpath and query before an API is matched.
- Filling in placeholders and parsing YAML or JSON specs.
- Properties inherited from prototypes, and the order in which integer-like keys of an object are enumerated.
- White space beyond blank, tab, line feed and carriage return; `parseInt` of the grace period.
- Lists shared between a template's containers and those injected, and the snapshot of a pod whose annotations a reconcile edits before it reports it.
- Authentication before the visibility verdict, error pages, sockets, logging, the MCP tool registration and the user interface.
- The role that a provisioned service account is mapped to, and permission reports.

# Polykube operator: a verified model

The Polykube operator turns `Workload`, `DatastoreBinding`, `ServiceEndpoint` and `Federation`
resources into Deployments, Services and status. Its reconcilers write the same objects without
talking to each other: an annotation, owner references and finalizers are all they share. This project
models that behaviour in Dafny and proves what the reconcilers guarantee together.

`dafny verify dfyconfig.toml` checks everything.

## How it is laid out

| file | what it holds |
|---|---|
| `EnvList`, `EnvNames`, `ManagedAnnotation` | the env list algorithms, the generated variable names, the annotation codec |
| `Deployments` | the Deployment object and the three closures that edit it |
| `EnvProtocol` | Workload and binding passes over one Deployment: confluence, no write war, exact undo |
| `Conditions`, `Streaks`, `WorkloadStatus`, `BindingStatus`, `EndpointStatus`, `FederationStatus` | conditions on slices that share a backing array, the status writers, their write tests, transition times |
| `Membership`, `Placement` | the three membership deciders; whether and what a Workload pass writes |
| `ServiceRouting`, `Finalizers`, `Cluster`, `Preflight` | routing annotations, the finalizer protocol, one cluster as a state machine over its object store, and the checks its binding and endpoint passes make |
| `ClusterSafety`, `Ownership` | what every step of a cluster keeps, and so what holds over every run |
| `Passes` | what each reconciler's passes bring about, from the first read to the last write |
| `FailingRuns` | runs from an empty cluster that end in orphans once a finalizer is removed by force |
| `Adoption` | what the atomicity of check and write hides, for all three reconcilers |
| `Routing` | many clusters that receive versions at their own pace |
| `PassReports`, `EndpointRuns`, `BindingRuns` | what the passes of a run report, and the stored status of endpoints and bindings over a run |
| `Unenforced`, `UnenforcedStatus`, `UnenforcedRuns` | two-run properties of the fields that are accepted but not acted on |
| `Repeats` | repeating a pass writes nothing |
| `Types`, `Api` | shared vocabulary and the specs of the custom resources |

Code that edits objects in place is a class or works on an array, and its methods are proved equal to
functions on values. The theorems are about those functions, so they are about the methods too.
A cluster is a relation between states: every step is one API write, or the read that begins a pass;
passes of different keys interleave freely with each other and with users, and any pass may end
between two of its writes.

## Assumptions

- Reads return the latest stored object; the cached client of the operator is weaker.
- Each create-or-update, with the ownership check that guards it, is one atomic step.
  Module `Adoption` says what can happen in the window between the two.
- One pass per key runs at a time. Writes to a custom resource itself carry its version and fail when
  it has changed; for status that is modelled for bindings and endpoints.
- The API server gives new objects new UIDs.
- On existing objects, controller references, the managed-names annotation, the routing annotations
  and status are set by the operator only. Users may remove routing annotations and, by force,
  finalizers, and may edit everything else. Objects they create may carry any annotations and any
  controller reference whose UID is not that of a Workload of this cluster, its name and kind
  included.
- Binding names are DNS subdomains in lower case: letters, digits, '-' and '.' (section 2.1 of
  RFC 1123).
- `workloadRef` is not edited once a binding or endpoint exists. Editing it does leave variables or
  annotations behind on the old Workload's objects.
- At most one ServiceEndpoint references a Workload's Service, for the claims about what a settled
  fleet shares; the safety claims do not need it.
- One pass reads the clock once. The ServiceEndpoint's transition times also need readings of different
  passes to differ.
- `SetStatusCondition` edits a matching entry in place and otherwise appends; `RemoveStatusCondition`
  copies a non-empty list; `Semantic.DeepEqual` compares contents and takes nil for empty.
- Condition types are numbered, and message texts are values that say which text it is and which
  objects it names. `BindingStatus.TextDeterminesReason` justifies this for the one controller that
  compares messages.

## Where code and documentation differ

`docs/security.md` says that a binding writes the connection URL as a literal value. The code writes a
`SecretKeyRef` (operator/internal/controller/datastorebinding_controller.go:163-188), and so does the
model.

## What turned out false, and when exactly

- All schedules converge only if the "app" container comes first, or the first container already has
  what the bindings inject: bindings look for the container by name, the Workload pass preserves from
  the first one (`EnvProtocol.Confluence`; failing schedule: `EnvProtocol.BadStartDiverges`).
- Two bindings of one name in different namespaces overwrite each other. The order of their passes
  shows exactly when they inject different values (`EnvProtocol.SameNameBindingsRace`).
- A recorded variable need not occur in the app container after a user's edit
  (`Ownership.EditLosesVariable`). Every recorded name is in a leading app container throughout a run
  if and only if every edit of an owned Deployment leaves it so (`Ownership.RecordedNamesOccur`).
- A finalizer removed by force can orphan variables or routing annotations, at once or by the next write
  of a pass that goes on regardless (`FailingRuns.RemovedAfterPass`, `FailingRuns.RemovedDuringPass`).
  There are no orphans throughout a run if and only if no removal hits an object that alone answers
  for something, and no such pass writes what nobody answers for (`ClusterSafety.NoOrphansEver`).
- An object is adopted exactly when it appears between the ownership check and the write, without a
  controller or with one that names a Workload of the same name with another UID
  (`Adoption.AdoptedExactlyInWindow`).
- `ServiceEndpoint.reconcileDegraded` loses an update exactly when only the message changed
  (`EndpointStatus.LostExactlyOnMessageChange`); two texts of `PrimaryMemberNotInFederation` show it
  (`EndpointStatus.StaleMessageSticks`).
- The membership deciders disagree on a name exactly when it is listed explicitly and either its
  ClusterMember does not exist or the Federation's selector is invalid (`Membership.DecidersAgree`).

## Model

| member | source | states |
|---|---|---|
| EnvList.MergeEnvVars | operator/internal/controller/datastorebinding_controller.go:385-399 | the indexed loop computes: entries overwritten at the last occurrence of their name, then the injected entries under new names, in order |
| EnvList.MergeLookup | operator/internal/controller/datastorebinding_controller.go:385-399 | seen last-wins, the result is the existing list overridden by the injected one, for any duplicates on either side |
| EnvList.MergeKeepsPositions | operator/internal/controller/datastorebinding_controller.go:390-396 | names at existing positions never move, and the list grows by exactly the injected entries with new names |
| EnvList.MergeIdempotent | operator/internal/controller/datastorebinding_controller.go:385-399 | merging a list twice equals merging it once |
| EnvList.WithoutMerge | operator/internal/controller/datastorebinding_controller.go:385-410 | removing names distributes over merging: remove from both sides first or from the result afterwards |
| EnvList.RemoveEnvVars | operator/internal/controller/datastorebinding_controller.go:402-410 | compaction inside the caller's array leaves, in order, exactly the entries under other names |
| EnvList.PreserveDatastoreManagedEnvVars | operator/internal/controller/workload_controller.go:586-597 | the desired list merged with the existing entries whose names are managed |
| EnvNames.NamesNeverCollide | operator/internal/controller/datastorebinding_controller.go:326-336 | distinct DNS names give disjoint sets of variable names |
| EnvNames.FormsNeverMeet | operator/internal/controller/datastorebinding_controller.go:326-336 | a URL name is never a mode name, and DATABASE_URL is neither, whatever the bindings |
| EnvNames.GeneratedNamesClean | operator/internal/controller/datastorebinding_controller.go:326-336 | generated names are non-empty and hold neither commas nor white space |
| EnvNames.UpperInjective | operator/internal/controller/datastorebinding_controller.go:159 | upper-casing with '-' to '_' loses nothing on DNS names |
| EnvNames.UpperIs | operator/internal/controller/datastorebinding_controller.go:159 | character by character, and the fixed parts of the names |
| ManagedAnnotation.DecodeManaged | operator/internal/controller/datastorebinding_controller.go:370-382 | the loop over the split value collects exactly the trimmed non-empty fields |
| ManagedAnnotation.DecodeIs | operator/internal/controller/datastorebinding_controller.go:370-382 | the decoded names are the non-empty comma-separated fields without the white space around them, said by positions |
| ManagedAnnotation.LexLessIs | operator/internal/controller/datastorebinding_controller.go:366 | the order of the stored names is the byte order, said by the first difference |
| ManagedAnnotation.EncodeManaged | operator/internal/controller/datastorebinding_controller.go:362-367 | whatever the iteration order of the map, the value is the join of the one ascending enumeration of the set |
| ManagedAnnotation.EnumerationUnique | operator/internal/controller/datastorebinding_controller.go:362-367 | a set has one ascending enumeration, so the stored text is canonical |
| ManagedAnnotation.CodecRoundTrip | operator/internal/controller/datastorebinding_controller.go:346-382 | decoding an encoded set of comma-free, trimmed, non-empty names gives the set back |
| ManagedAnnotation.UpdateDecodes | operator/internal/controller/datastorebinding_controller.go:346-368 | after an update the annotation decodes to (old minus removed) plus added, is absent exactly when that is empty, and other annotations are untouched |
| Deployments.Deployment.UpdateDatastoreManagedEnvVars | operator/internal/controller/datastorebinding_controller.go:346-368 | the two loops and the branch compute that update |
| Deployments.Deployment.InjectEnvVars | operator/internal/controller/datastorebinding_controller.go:157-203 | the injection closure merges into the container called app, records the names, and touches nothing else |
| Deployments.Deployment.WithdrawEnvVars | operator/internal/controller/datastorebinding_controller.go:219-238 | after the deletion closure none of the binding's names is in the app container or on record, every other variable has its value, and nothing else is touched |
| Deployments.WithdrawnEnvironment | operator/internal/controller/datastorebinding_controller.go:219-238 | per name: what is left in the environment and on record after a deletion |
| Deployments.Deployment.RebuildFor | operator/internal/controller/workload_controller.go:379-404 | the rebuilt Deployment is the Workload's: one container called app with the image, ports and envFrom of spec, replicas, pull secrets and service account of spec, pods its selector picks, and every variable from spec.env or, if managed, from the first container; annotations stay |
| Deployments.LookupRebuilt | operator/internal/controller/workload_controller.go:391-394 | per name: a managed name keeps the value of the first container, every other has that of the last entry of spec.env |
| Deployments.RebuiltIs | operator/internal/controller/workload_controller.go:379-404 | what a rebuild makes of any Deployment at all, said field by field |
| Deployments.DeploymentAvailable | operator/internal/controller/workload_controller.go:525-532 | the loop finds a condition Available with status True iff there is one |
| Deployments.InjectionNames | operator/internal/controller/datastorebinding_controller.go:159-188 | what is injected is exactly what is recorded as managed |
| EnvProtocol.InjectedEnvironment | operator/internal/controller/datastorebinding_controller.go:157-203 | after a binding pass the app container has the URL by Secret reference, the declared mode, DATABASE_URL for primary only, and every other variable as before |
| EnvProtocol.SettledIffFixpoint | operator/internal/controller/workload_controller.go:391-402 | which env lists a Workload pass leaves alone, said without running one; in both directions |
| EnvProtocol.NoWriteWar | operator/internal/controller/workload_controller.go:391-402 | after a Workload pass, any injections and Workload passes later a Workload pass still changes nothing, order and duplicates included |
| EnvProtocol.Confluence | operator/internal/controller/workload_controller.go:379-404 | all complete schedules end in spec.env overridden by every binding if and only if app is the first container or the first container needs no injection |
| EnvProtocol.Quiescence | operator/internal/controller/datastorebinding_controller.go:157-203 | after a complete schedule, from every start that converges, no pass of either reconciler changes the Deployment in any field |
| EnvProtocol.SameNameBindingsRace | operator/internal/controller/datastorebinding_controller.go:159-176 | two bindings with one name give the same environment in both orders if and only if they inject the same values |
| EnvProtocol.BadStartDiverges | operator/internal/controller/workload_controller.go:391-394 | for every start that fails the condition, a complete schedule that misses the expected environment |
| EnvProtocol.DeletedBindingLeavesNoTrace | operator/internal/controller/datastorebinding_controller.go:220-234 | any schedule, then deleting a binding and a Workload pass, gives the same Deployment as the schedule without that binding, from every start on which none of its names is managed, whatever the containers and even when spec.env uses its names |
| EnvProtocol.ExactUndo | operator/internal/controller/datastorebinding_controller.go:190-234 | on a settled Deployment, inject, delete and a Workload pass give back the identical env list and managed set |
| EnvProtocol.RepeatInjectIsNoop | operator/internal/controller/datastorebinding_controller.go:190-199 | a repeated injection changes nothing, on any Deployment |
| EnvProtocol.RepeatWithdrawIsNoop | operator/internal/controller/datastorebinding_controller.go:220-234 | a repeated withdrawal changes nothing, on any Deployment |
| Conditions.SetStatusCondition | operator/internal/controller/datastorebinding_controller.go:250-263 | the library's edit on a window of a backing array: in place when the type is present, visible through every other window; else appended |
| Conditions.RemoveStatusCondition | operator/internal/controller/workload_controller.go:220-224 | the library's removal: a new array for every non-empty list |
| Conditions.SetFieldsNotEnforcedCondition | operator/internal/controller/fields_not_enforced.go:20-36 | sets or removes the informational condition, and what becomes of the shared array |
| Conditions.SetBothAndCompare | operator/internal/controller/serviceendpoint_controller.go:261-278 | after two edits through a copied window the comparison reports equality exactly when no entry was added or removed |
| Conditions.SetThenRemoveAndCompare | operator/internal/controller/federation_controller.go:126-164 | the same for an edit followed by a removal, which copies |
| WorkloadStatus.StatusInMemory.ReconcileDegradedStatus | operator/internal/controller/workload_controller.go:202-238 | writes exactly when the computed status differs from the stored one, which the edits leave intact |
| WorkloadStatus.StatusInMemory.ReconcilePendingStatus | operator/internal/controller/workload_controller.go:328-364 | the same for the pending writer |
| WorkloadStatus.StatusInMemory.ReconcileStatus | operator/internal/controller/workload_controller.go:441-471 | the same for the writer after applying |
| WorkloadStatus.StatusMachine | operator/internal/controller/workload_controller.go:202-238 | from any status: one target, exactly one of Degraded, Pending and RuntimeObjectsApplied, Available with the latter only and True just when the target is available, types unique, other conditions unchanged |
| WorkloadStatus.StatusTells | operator/internal/controller/workload_controller.go:202-238 | the whole computed status for each outcome: every condition with status, reason, message and generation, the target with runtimeRef and message, observedGeneration and activeImage |
| WorkloadStatus.TransitionTimeIsStreakStart | operator/internal/controller/workload_controller.go:488-502 | over any history the target's time is the clock reading of the pass that began the current streak of its state |
| WorkloadStatus.ConditionTimeIsStreakStart | operator/internal/controller/workload_controller.go:220-231 | over any history the time of the condition that tells the outcome is that of the pass that began the current streak of its type, whatever happened to reason, message and availability |
| BindingStatus.StatusInMemory.SetDegradedStatus | operator/internal/controller/datastorebinding_controller.go:245-272 | what the writer's comparison can see under the shared array, and what it then stores |
| BindingStatus.StatusInMemory.SetReadyStatus | operator/internal/controller/datastorebinding_controller.go:281-302 | writes exactly when the computed status differs |
| BindingStatus.DegradedWriteExact | operator/internal/controller/datastorebinding_controller.go:245-272 | from every operator-written status a completed degraded pass leaves the computed status stored, because Message is compared separately |
| BindingStatus.ReadyStaysOperatorWritten | operator/internal/controller/datastorebinding_controller.go:281-302 | a ready pass shows Ready, drops Degraded, and leaves an operator-written status |
| BindingStatus.StatusTells | operator/internal/controller/datastorebinding_controller.go:245-302 | from every operator-written status a completed pass leaves both conditions, Message and generation telling its outcome |
| BindingStatus.TextDeterminesReason | operator/internal/controller/datastorebinding_controller.go:59-95 | equal rendered messages have equal reasons, for quoted object names of any length |
| EndpointStatus.StatusInMemory.ServiceEndpointTransitionTime | operator/internal/controller/serviceendpoint_controller.go:287-294 | keeps the stored time iff there is one and the first Ready condition has this status and reason |
| EndpointStatus.StatusInMemory.ReconcileDegraded | operator/internal/controller/serviceendpoint_controller.go:254-285 | what the comparison can see under the shared array, and what it then stores; active member and hostnames end up empty in any case |
| EndpointStatus.StatusInMemory.ReconcileStatus | operator/internal/controller/serviceendpoint_controller.go:223-252 | writes exactly when the computed status differs; the stored one names the primary for ActivePassive and nobody for ActiveActive, with the hostnames and generation of spec |
| EndpointStatus.DegradedWriteExactIff | operator/internal/controller/serviceendpoint_controller.go:278-283 | from any status, the computed status is stored if and only if the comparison sees a difference or all conditions already show it |
| EndpointStatus.LostExactlyOnMessageChange | operator/internal/controller/serviceendpoint_controller.go:254-285 | on operator-written statuses an update is lost exactly when reason and generation stay and the message changes |
| EndpointStatus.StaleMessageSticks | operator/internal/controller/serviceendpoint_controller.go:143-169 | the second text of PrimaryMemberNotInFederation never replaces the first, however often the pass repeats |
| EndpointStatus.StaysOperatorWritten | operator/internal/controller/serviceendpoint_controller.go:223-285 | both writers leave operator-written statuses, lost updates included |
| EndpointStatus.StatusTells | operator/internal/controller/serviceendpoint_controller.go:223-285 | a completed pass leaves a status that tells its outcome, unless only the message changed, and then all but the message |
| EndpointStatus.TransitionTimeIsStreakStart | operator/internal/controller/serviceendpoint_controller.go:287-294 | over any history, lost updates included, the stored time is that of the pass that began the streak of (Ready status, reason) |
| FederationStatus.StatusInMemory.ReconcileStatus | operator/internal/controller/federation_controller.go:107-169 | what the writer's comparison can see in each of its three branches, and what it then stores |
| FederationStatus.StatusInMemory.Count | operator/internal/controller/federation_controller.go:111-122 | the loop lists every member's readiness in order and counts the ready ones in 32 bits |
| FederationStatus.ReadyCounts | operator/internal/controller/federation_controller.go:111-118 | the count is the number of positions whose member is ready |
| FederationStatus.AllReadyExact | operator/internal/controller/federation_controller.go:126 | the readiness test is right for any number of members unless a positive multiple of 2^32 of them is unready |
| FederationStatus.FederationReadiness | operator/internal/controller/federation_controller.go:107-160 | below 2^31 members ReadyMembers is the number of ready entries, Members lists each with its readiness, Ready is True iff the list is non-empty and all are ready, Degraded is present iff non-empty and some are not, each with its reason |
| FederationStatus.WriteExact | operator/internal/controller/federation_controller.go:162-168 | from every operator-written status a completed pass stores the computed status, because Members and generation determine the conditions |
| Membership.ResolveMembers | operator/internal/controller/federation_controller.go:68-105 | no name twice, only stored members, and exactly the selector matches plus the explicit references that exist, in the order of List and then of the references; fails exactly on a selector that is invalid, malformed keys and values included |
| Membership.WithExplicitOrder | operator/internal/controller/federation_controller.go:88-102 | explicit references are appended behind the selector's matches, in their own order |
| Membership.IsFederationMember | operator/internal/controller/workload_controller.go:240-287 | an iff for each answer, said without the order of the checks |
| Membership.ValidatePrimaryMember | operator/internal/controller/serviceendpoint_controller.go:134-170 | an iff for each of the five answers, said without the order of the checks; a Workload without a Federation has no members |
| Membership.SelectorIs | operator/internal/controller/federation_controller.go:73 | a selector is accepted iff all its parts are well formed, and then picks exactly the labels that carry its pairs and meet its expressions, said on the operators as text |
| Membership.DecidersAgree | operator/internal/controller/serviceendpoint_controller.go:155-168 | the three deciders compared on every name: the point deciders agree on every existing member; the list and the Workload check disagree iff the name is explicit and the selector invalid or the ClusterMember missing; the point deciders disagree iff it is explicit and missing |
| Placement.Cluster.Reconcile | operator/internal/controller/workload_controller.go:47-112 | the whole pass over the object maps: verdict and written objects |
| Placement.Cluster.DependencyPreflight | operator/internal/controller/workload_controller.go:128-162 | an iff for each answer of the nested loops: pull secrets first, then source by source the ConfigMap before the Secret |
| Placement.Cluster.IsTargetPolicyMatch | operator/internal/controller/workload_controller.go:289-326 | explicit names win over the selector; an invalid selector degrades before the member is read |
| Placement.Cluster.OwnershipPreflight | operator/internal/controller/workload_controller.go:171-193 | lets the pass through iff its writes would change nothing the Workload does not control, and otherwise names the first object they would take |
| Placement.Cluster.ReconcileDeployment | operator/internal/controller/workload_controller.go:374-406 | one Deployment is created or rebuilt and is then the one spec describes; every other stays |
| Placement.Cluster.ReconcileService | operator/internal/controller/workload_controller.go:408-439 | with ports, the Service is the Workload's, serves its ports with TCP for none given, and keeps its annotations; without, it is gone unless it is somebody else's, which stays as it was; no other Service changes |
| Placement.GateExact | operator/internal/controller/workload_controller.go:47-112 | objects are written iff placement, dependencies and ownership all hold, said without the order of the checks, and are then the Deployment and Service that spec describes; otherwise nothing changes |
| Placement.ReasonIsFirstFailing | operator/internal/controller/workload_controller.go:47-112 | for each of the ten reasons exactly when it is reported, said on specs and stored objects |
| Cluster.UninterruptedPass | operator/internal/controller/workload_controller.go:84-105 | the machine's three steps of a Workload pass, run without interruption, write what the whole reconciliation writes |
| ServiceRouting.Service.ApplyAnnotations | operator/internal/controller/serviceendpoint_controller.go:172-193 | both annotations are set, shared is true iff ActiveActive or this cluster is the primary, other annotations stay |
| ServiceRouting.Service.RemoveAnnotations | operator/internal/controller/serviceendpoint_controller.go:209-216 | exactly the two routing annotations go |
| Preflight.IsAccepted | operator/internal/controller/datastorebinding_controller.go:304-311 | the loop accepts exactly the three listed engines |
| Preflight.BindingPreflight | operator/internal/controller/datastorebinding_controller.go:58-95 | a binding pass injects iff engine, Workload, Secret, Deployment and controller are all right, and otherwise reports the first that is not, in that order; an iff for each text, references resolved |
| Preflight.EndpointPreflight | operator/internal/controller/serviceendpoint_controller.go:57-87 | an endpoint pass annotates iff Workload, primary, Service and controller are all right, and otherwise reports the first that is not, in that order; an iff for each text, references resolved |
| Preflight.PrimaryPreflight | operator/internal/controller/serviceendpoint_controller.go:134-170 | an iff for each text on the primary, the two of PrimaryMemberNotInFederation included |
| PassReports.PlacementReported | operator/internal/controller/workload_controller.go:58-82 | for each reason why placement fails: exactly when it is reported, and the objects its text names |
| PassReports.DependencyReported | operator/internal/controller/workload_controller.go:128-169 | the text names the first missing dependency, and its kind decides the reason |
| PassReports.WritesReported | operator/internal/controller/workload_controller.go:171-200 | with everything there: the ownership conflict reported, or the image, Deployment and availability of the pass that applied |
| Finalizers.PerformKeeps | operator/internal/controller/datastorebinding_controller.go:48-56 | no step on a referring object, user edits and failed writes included, makes it stop answering for what it wrote before its clean-up, forced removals of the finalizer aside |
| Finalizers.StripSilences | operator/internal/controller/datastorebinding_controller.go:205-208 | a forced removal keeps the protocol's invariant and silences its object and no other |
| Finalizers.PassBegins | operator/internal/controller/datastorebinding_controller.go:48-56 | which phase a pass begins with, for each stored object, and that it works on the object as stored |
| Finalizers.FinalizerWritten | operator/internal/controller/datastorebinding_controller.go:52-56 | the finalizer is written iff the version is the one that was read, and then the pass goes on to its writes |
| Finalizers.FinalizerReleased | operator/internal/controller/datastorebinding_controller.go:241-242 | releasing removes the finalizer iff the version is the one that was read, and the object with it unless somebody else holds it |
| Finalizers.UserStepsReachStore | operator/internal/controller/datastorebinding_controller.go:205-208 | what edits, deletions and forced removals do to the stored object, and that they touch no pass |
| Passes.InjectionReferences | operator/internal/controller/datastorebinding_controller.go:157-203 | in every state in which an injection goes through: the URL references the connection Secret under url iff it has that key and else under DATABASE_URL, the mode is the declared one, and nothing else changes |
| Passes.BindingPassInjects | operator/internal/controller/datastorebinding_controller.go:37-108 | a binding pass run through on a cluster that has what it asks for: finalizer held, those variables injected |
| Passes.BindingDeletionCompletes | operator/internal/controller/datastorebinding_controller.go:205-243 | a deletion run through: the binding is gone, or waits for other people's finalizers only, and its variables are off the Deployment and its record, other variables kept |
| Passes.DeletionGetsThrough | operator/internal/controller/datastorebinding_controller.go:205-243 | the same for the binding itself with any steps of others in between |
| Passes.EndpointPassRoutes | operator/internal/controller/serviceendpoint_controller.go:36-99 | an endpoint pass run through: finalizer held, both annotations on the Service with the right values, other annotations kept, the primary reported for ActivePassive and nobody for ActiveActive |
| Passes.EndpointDeletionCompletes | operator/internal/controller/serviceendpoint_controller.go:195-221 | a deletion run through: endpoint and report gone, both annotations off the Service, the rest kept |
| Passes.EndpointDeletionGetsThrough | operator/internal/controller/serviceendpoint_controller.go:195-221 | the same for the endpoint itself with any steps of others in between |
| Passes.WorkloadPassBuilds | operator/internal/controller/workload_controller.go:47-112 | a Workload pass run through on a cluster meant to run it: the Deployment and Service that spec describes, nothing else |
| Passes.WorkloadEditsReachStore | operator/internal/controller/workload_controller.go:47-56 | users' edits of Workloads take effect, UIDs kept and never reused |
| Passes.DeploymentEditsReachStore | operator/internal/controller/datastorebinding_controller.go:190-199 | users may bring a Deployment into any state that leaves controller and recorded names alone |
| Passes.ServiceEditsReachStore | operator/internal/controller/serviceendpoint_controller.go:172-193 | and a Service into any state that leaves the controller alone and sets no routing annotation anew |
| ClusterSafety.StepKeepsIff | operator/internal/controller/datastorebinding_controller.go:205-243 | from a sound cluster without orphans a step leaves none iff it is clean: it neither disowns what alone answers for something, nor writes what nobody answers for |
| ClusterSafety.NoOrphansEver | operator/internal/controller/datastorebinding_controller.go:205-243 | every run from an empty cluster is free of orphaned names and routing annotations at every point iff all its steps are clean |
| ClusterSafety.NoOrphansUnlessForced | operator/internal/controller/datastorebinding_controller.go:48-56 | so is every run in which nobody removes a finalizer by force, cut-off passes, user edits, deletions and re-creations included |
| ClusterSafety.StripOrphansVariable | operator/internal/controller/datastorebinding_controller.go:205-208 | failing input: without its finalizer the only provider of a recorded variable leaves it orphaned |
| ClusterSafety.StripOrphansInjection | operator/internal/controller/datastorebinding_controller.go:98-100 | failing input: a finalizer removed during a pass does no harm until the injection, whose variables are orphaned |
| FailingRuns.RemovedAfterPass | operator/internal/controller/datastorebinding_controller.go:205-208 | a run from an empty cluster, of any Workload without dependencies and any binding, that reaches the first failing input |
| FailingRuns.RemovedDuringPass | operator/internal/controller/datastorebinding_controller.go:52-100 | and one that reaches the second |
| Ownership.DeploymentsChangeForOwnersOnly | operator/internal/controller/workload_controller.go:171-193 | no pass creates, changes or deletes a Deployment unless it is absent or controlled by the UID of the Workload the pass works for |
| Ownership.ServicesChangeForOwnersOnly | operator/internal/controller/serviceendpoint_controller.go:84-91 | the same for Services |
| Ownership.ForeignObjectsUntouched | operator/internal/controller/datastorebinding_controller.go:92-100 | nothing is ever adopted while check and write are one step: an object its namesake Workload does not control stays identical over every run |
| Adoption.AdoptedExactlyInWindow | operator/internal/controller/workload_controller.go:171-193 | with other steps between check and write, the write adopts an object iff one appeared in between that has no controller, or one of the same kind and name with another UID, and is still there |
| Adoption.NoWindowNoAdoption | operator/internal/controller/workload_controller.go:378-381 | without a window the write's own test never adopts, and writes what the cluster model writes |
| Adoption.InjectionLandsElsewhere | operator/internal/controller/datastorebinding_controller.go:92-100 | with other steps between check and write, an injection edits a Deployment the checked Workload does not control iff such a one appeared in between and is still there, and records its names on it |
| Adoption.PatchedIs | operator/internal/controller/serviceendpoint_controller.go:172-193 | the merge patch gives the computed annotations without a window, and in general changes what it finds iff that disagrees with it |
| Adoption.PatchLandsElsewhere | operator/internal/controller/serviceendpoint_controller.go:84-91 | with other steps between check and patch, the patch changes a Service the checked Workload does not control iff such a one appeared in between, is still there, and disagrees with it |
| Ownership.OccurStepIff | operator/internal/controller/workload_controller.go:391-402 | a step leaves every recorded name in a leading app container iff it is no user edit that takes one away |
| Ownership.RecordedNamesOccur | operator/internal/controller/datastorebinding_controller.go:98-100 | over every run, cut-off passes included, every recorded name is in a leading app container throughout iff every edit by a user is of that kind |
| Ownership.EditLosesVariable | operator/internal/controller/datastorebinding_controller.go:190-199 | failing input: an edit that deletes a variable from the app container leaves its name recorded |
| Ownership.RecordedNamesOccurAndBelong | operator/internal/controller/datastorebinding_controller.go:98-100 | both conditions together: each recorded name occurs in the app container and belongs to a binding that exists, holds the finalizer and references the Workload |
| Ownership.GoneBindingRecordsNothing | operator/internal/controller/datastorebinding_controller.go:214-242 | once no binding of a name answers for a Workload, none of its variables is recorded there, in every run of clean steps |
| Ownership.NoStrayVariables | operator/internal/controller/workload_controller.go:391-402 | every variable a Workload pass leaves in the container, changed or not, is in spec.env or provided by a binding that answers for the Workload |
| Ownership.ControllersPersist | operator/internal/controller/workload_controller.go:171-193 | no step changes the controller of an object that lives on, and a controller with a Workload's UID has its kind and name |
| Routing.SharedOnlyIfNamed | operator/internal/controller/serviceendpoint_controller.go:172-193 | over every run a cluster shares only if the version it last applied names it |
| Routing.OnlyPrimariesShare | operator/internal/controller/serviceendpoint_controller.go:66-93 | from any point of the history on, once the versions in play name primaries of a set and as long as new ones do, only clusters of that set share, whatever the lag |
| Routing.NothingInPlayAtFirst | operator/internal/controller/serviceendpoint_controller.go:66-93 | an empty cluster has no versions in play, so this covers whole histories too |
| Routing.ReportAlways | operator/internal/controller/serviceendpoint_controller.go:223-263 | the reported active member is that of the last completed version, and empty after a degraded pass |
| Routing.CompletedPassSettles | operator/internal/controller/serviceendpoint_controller.go:84-98 | a pass that gets through leaves its cluster settled on that version |
| Routing.SettledFleetAgrees | operator/internal/controller/serviceendpoint_controller.go:223-232 | once all clusters settled on one version exactly the primary shares, if present, and all report it |
| EndpointRuns.StoredStatusFollows | operator/internal/controller/serviceendpoint_controller.go:223-285 | over every run from an empty cluster the activeMemberRef the status writers leave stored is the member the cluster reports, and active member, hostnames, Ready and Degraded are those of the version whose pass completed last, lost updates and failed writes included |
| EndpointRuns.StatusOfReports | operator/internal/controller/serviceendpoint_controller.go:223-285 | while an endpoint is not deleted its stored status is that of the series of passes the run reports |
| EndpointRuns.SettledFleetShows | operator/internal/controller/serviceendpoint_controller.go:223-232 | once the fleet settled, every stored status names the primary and is Ready |
| BindingRuns.StoredStatusFollows | operator/internal/controller/datastorebinding_controller.go:245-302 | over every run, deletions and failed writes included, the stored status of a binding is Ready iff the pass that completed last injected, and otherwise tells the problem that pass found |
| BindingRuns.BindingPassReports | operator/internal/controller/datastorebinding_controller.go:58-108 | an uninterrupted binding pass reports once: ready iff what it asks for is there |
| BindingRuns.WorkloadPassReports | operator/internal/controller/workload_controller.go:47-112 | an uninterrupted Workload pass reports once: what the whole reconciliation comes to |
| Unenforced.WorkloadFields | operator/internal/controller/fields_not_enforced.go:38-47 | each field is listed iff it is set, and none iff the spec equals itself without them |
| Unenforced.EndpointFields | operator/internal/controller/fields_not_enforced.go:49-58 | the same for ServiceEndpoints |
| Unenforced.BindingFields | operator/internal/controller/fields_not_enforced.go:60-65 | conflictPolicy is listed iff it is set, and nothing iff the spec equals itself without it |
| Unenforced.FederationFields | operator/internal/controller/fields_not_enforced.go:67-72 | defaultTargetPolicy is listed iff it is set, and nothing iff the spec equals itself without it |
| Unenforced.RunsAgree | operator/internal/controller/fields_not_enforced.go:15-18 | two runs that differ in unenforced fields only, a target policy with nothing but a strategy against none included, agree at every point in all Deployments, Services and reported members |
| UnenforcedStatus.OutcomesAgree | operator/internal/controller/workload_controller.go:289-326 | a pass over such specs writes the same objects, has the same verdict and requeue, and reports the same outcome |
| UnenforcedStatus.WorkloadStatusesAgree | operator/internal/controller/fields_not_enforced.go:15-36 | over a series of passes Workload statuses stay equal apart from FieldsNotEnforced |
| UnenforcedStatus.BindingOutcomesAgree | operator/internal/controller/datastorebinding_controller.go:58-95 | a binding pass over alike clusters finds the same problem, or none, with the same text and requeue |
| UnenforcedStatus.BindingStatusesAgree | operator/internal/controller/datastorebinding_controller.go:245-302 | over a series of binding passes the stored statuses stay equal apart from FieldsNotEnforced |
| UnenforcedStatus.EndpointOutcomesAgree | operator/internal/controller/serviceendpoint_controller.go:57-96 | an endpoint pass over alike clusters has the same outcome, with the same text and requeue |
| UnenforcedStatus.EndpointStatusesAgree | operator/internal/controller/serviceendpoint_controller.go:223-285 | over a series of endpoint passes the stored statuses stay equal apart from FieldsNotEnforced; lost updates are lost in both runs or in neither |
| UnenforcedStatus.FederationOutcomesAgree | operator/internal/controller/federation_controller.go:68-105 | resolution gives the same list, or fails alike, whatever defaultTargetPolicy says |
| UnenforcedStatus.FederationStatusesAgree | operator/internal/controller/federation_controller.go:107-169 | over a series of Federation passes the stored statuses stay equal apart from FieldsNotEnforced |
| UnenforcedRuns.WorkloadRunsAgree | operator/internal/controller/workload_controller.go:47-126 | in two such runs the passes of each Workload report the same and requeue alike, one by one, and its stored status is the same apart from FieldsNotEnforced |
| UnenforcedRuns.BindingRunsAgree | operator/internal/controller/datastorebinding_controller.go:37-108 | the same for the passes of each binding |
| UnenforcedRuns.EndpointRunsAgree | operator/internal/controller/serviceendpoint_controller.go:36-99 | the same for the passes of each endpoint |
| Repeats.WorkloadPassRepeats | operator/internal/controller/workload_controller.go:47-112 | a repeated Workload pass has the same verdict and changes no Deployment and no Service |
| Repeats.AnnotationsRepeat | operator/internal/controller/serviceendpoint_controller.go:172-216 | repeated annotation and clean-up change nothing, and clean-up undoes annotation |
| Repeats.WorkloadStatusRepeats | operator/internal/controller/workload_controller.go:202-238 | a later pass with the same outcome computes the stored status, transition times included |
| Repeats.BindingStatusRepeats | operator/internal/controller/datastorebinding_controller.go:245-302 | the same for bindings |
| Repeats.EndpointStatusRepeats | operator/internal/controller/serviceendpoint_controller.go:223-285 | the same for endpoints, also after a lost update |
| Repeats.FederationStatusRepeats | operator/internal/controller/federation_controller.go:107-169 | the same for Federations |

## Left out

- API client, caching, watches, logging, leader election, manager set-up: no algorithm of their own.
- `ClusterMemberReconciler`: three emptiness checks; a member's readiness is an input.
- `polykube-status`, manifests, scripts, generated code.
- API-server defaulting, container fields beyond image, ports, env and envFrom, and `$(VAR)` expansion.
- Serialisation of times to seconds.
- Secret contents: injected values are opaque, except for which key holds the URL. Whether the fallback
  key exists is not checked by the code either.
- That Ready=True keeps implying injected variables: a Deployment deleted and rebuilt has none until the
  binding runs again.
- That excluded members are cleaned up: retained objects are intended.
- That at most one cluster shares during a switch: delivery lag permits two.
- Error texts of an invalid label selector, beyond the objects they name.

# Emitter reconciler of hello-operator, in Dafny

hello-operator is a Kubernetes operator. For each `Emitter` custom resource it keeps a
paired `Deployment`, named `"emitter-" + PairName` and annotated
`generated=hello-operator`. Its `EmitterReconciler` runs once per request key
(namespace, name). It reads the Emitter and the paired Deployment, then takes one
corrective action:

- record the derived Deployment name in its in-memory table `CurrentEmitterDeployments`;
- skip when the pair name is empty;
- create the Deployment from the manifest template;
- delete a Deployment it tracked for an Emitter whose lookup failed, whether the
  Emitter was deleted or the lookup hit any other error;
- or do nothing.

Every error it returns first goes through `client.IgnoreNotFound`.

The project models that reconciler.

- `emitter_types.dfy` (module `EmitterTypes`): the Emitter's spec (`createPair`,
  `pairName`), object keys, Deployments with their annotations, the client error
  (`Nil | NotFound | Other(reason)`), `IgnoreNotFound`, and the manifest outcome:
  the read fails, the decode fails with an error, or a template is decoded.
- `cluster_store.dfy` (module `ClusterStore`): the API server as maps keyed by
  namespace and name. `Get`, `Create` and `Delete` are functions on those maps, and each
  can be given an injected error. Create on a taken key answers `AlreadyExists`.
  Delete of a missing key answers 404.
- `reconciliation.dfy` (module `Reconciliation`): one reconcile as a function of the
  state (tracking table, Deployment store, Emitter store). The case-by-case lemmas
  cover Emitter present or absent and Deployment present or absent. There is
  idempotence of two reconciles, and inductive lemmas over runs of reconciles mixed
  with users applying and removing Emitters and Deployments. It also proves three scenarios of
  as-written behaviour:
  - a change of pair name leaves the old Deployment in place;
  - the table is keyed by Emitter name only, so same-named Emitters in different
    namespaces overwrite each other's entry;
  - any error from the Emitter lookup, a transient one included, takes the clean-up
    branch and deletes the paired Deployment of an Emitter that still exists.
- `emitter_controller.dfy` (module `EmitterController`): class `EmitterReconciler`.
  Its fields are `tracking`, `deployments` and `emitters`. The constructor starts with
  an empty table, and `Reconcile` is written step by step as the controller does it.
  Both keep the store-consistency and derived-name invariant. `Reconcile` is proved to
  end in the state and error of `Reconciliation.Reconcile`.

The manifest, the file read, the YAML decoder and every client failure are parameters
of `Reconcile`: `manifest: Manifest` and `faults: Faults`, where `Nil` means the call
acts on the store normally.

At lines 82 and 95 the lookup's `err` is reassigned. So a failed decode or a failed
create returns that error, with NotFound suppressed, and not the lookup's 404.

## Model

| member | source | states |
|---|---|---|
| EmitterTypes.IgnoreNotFound | controllers/emitter_controller.go:121 | a 404 becomes success and every other error passes unchanged; the result is never NotFound |
| ClusterStore.Get | controllers/emitter_controller.go:66-72 | a lookup succeeds exactly when no error is injected and the key is stored, and then returns the stored object; otherwise it fails with the injected error or with a 404 |
| ClusterStore.Create | controllers/emitter_controller.go:95-99 | a create succeeds exactly when no error is injected and the key is free; it then adds exactly that key with that object; no existing entry ever changes; on failure the store is unchanged, and a taken key gives AlreadyExists |
| ClusterStore.Delete | controllers/emitter_controller.go:116-118 | a delete succeeds exactly when no error is injected and the key is stored; it then removes exactly that key; on failure the store is unchanged, and a missing key gives a 404 |
| Reconciliation.DeploymentName | controllers/emitter_controller.go:55 | the derived name is "emitter-" followed by the pair name, with the matching length |
| Reconciliation.DeploymentNameInjective | controllers/emitter_controller.go:55 | different pair names give different Deployment names |
| Reconciliation.Paired | controllers/emitter_controller.go:89-93 | the object to create sits at the request namespace and derived name; its annotations are exactly generated=hello-operator, whatever the template had; the rest of the template is kept |
| Reconciliation.Reconcile | controllers/emitter_controller.go:47-124 | one reconcile never returns NotFound; it never changes an Emitter; it never changes an existing Deployment in place |
| Reconciliation.Initial | controllers/emitter_controller.go:128 | the reconciler starts with an empty table and the cluster's two stores as given, and that state satisfies the invariant |
| Reconciliation.TrackingRecordsDerivedName | controllers/emitter_controller.go:53-56 | when the Emitter is read, the table maps its name to "emitter-"+PairName, overwriting any earlier entry, even when PairName is empty; otherwise the table is unchanged |
| Reconciliation.EmptyPairNameSkips | controllers/emitter_controller.go:57-60 | an Emitter with an empty pair name leaves the Deployment store unchanged and returns no error |
| Reconciliation.ExistingPairConverged | controllers/emitter_controller.go:63-69 | when the derived Deployment already exists, nothing is created or deleted and no error is returned |
| Reconciliation.CreatesPairedDeployment | controllers/emitter_controller.go:72-102 | on a 404 with a decoded manifest and a successful create, exactly one Deployment is added, at (request namespace, derived name); its annotations are exactly generated=hello-operator; every other entry is unchanged; no error |
| Reconciliation.ManifestFailureLeavesStore | controllers/emitter_controller.go:75-87 | when the manifest cannot be read or decoded, no Deployment is created, and for a found Emitter the store is unchanged |
| Reconciliation.ManifestFailureError | controllers/emitter_controller.go:75-87 | a read failure returns the suppressed 404, i.e. no error; a decode failure returns the decode error with NotFound suppressed |
| Reconciliation.CreateFailureError | controllers/emitter_controller.go:95-98 | when the create of the paired Deployment fails, the store is unchanged and the create's error is returned with NotFound suppressed, not the lookup's 404 |
| Reconciliation.OtherLookupErrorSkipsCreation | controllers/emitter_controller.go:70-102 | a non-404 lookup error skips creation, leaves the store unchanged and is returned as it is |
| Reconciliation.DeletesTrackedDeployment | controllers/emitter_controller.go:105-119 | when the Emitter lookup fails (the Emitter is gone, or any other error) and its tracked Deployment is in the request namespace, exactly that Deployment is removed; the table is kept; the Emitter lookup error comes back with NotFound suppressed |
| Reconciliation.DeleteFailureError | controllers/emitter_controller.go:116-117 | when the delete of the tracked Deployment fails, the whole state is unchanged and the delete's error is returned with NotFound suppressed |
| Reconciliation.NoCleanupWithoutTrackedDeployment | controllers/emitter_controller.go:105-121 | when the Emitter lookup fails and there is no tracked name, or the tracked Deployment is already gone, the whole state is unchanged and the Emitter lookup error comes back with NotFound suppressed |
| Reconciliation.SingleCorrectiveAction | controllers/emitter_controller.go:47-124 | a reconcile changes the store at one key at most; an added key is the paired Deployment of a found Emitter, with the ownership annotation, from a decoded manifest; a removed key is the tracked Deployment of an Emitter that was not found |
| Reconciliation.ReconcilePreservesValid | controllers/emitter_controller.go:53-56 | objects stay stored under their own key, and every tracked name stays a derived (hence non-empty) name |
| Reconciliation.ReconcileIdempotent | controllers/emitter_controller.go:63-119 | without injected errors, a second reconcile of the same key leaves the state and the error exactly as the first one did, on the create path and on the delete path alike |
| Reconciliation.CleanupAfterPairing | controllers/emitter_controller.go:53-121 | for any Emitter with a non-empty pair name, a fault-free reconcile leaves its paired Deployment in the store; after the Emitter is removed, the next reconcile deletes that Deployment; both return no error |
| Reconciliation.RunPreservesValid | controllers/emitter_controller.go:53-56 | any run of reconciles and user edits keeps the invariant |
| Reconciliation.MalformedManifestNeverCreates | controllers/emitter_controller.go:75-87 | if the manifest never decodes, the reconciler creates or changes no Deployment in any run: every entry at the end was there at the start, unchanged, or sits under a key a user wrote |
| Reconciliation.RunCreatesOnlyOwned | controllers/emitter_controller.go:89-95 | after any run, every Deployment was there at the start, unchanged, or sits under a key a user wrote, or has a derived name and the exact ownership annotation |
| Reconciliation.PairLifecycle | controllers/emitter_controller.go:53-121 | scenario default/e1 with pair "foo": the first reconcile creates only default/emitter-foo, annotated; the second changes nothing; after e1 is deleted the next reconcile removes it; all three return no error |
| Reconciliation.PairRenameKeepsOldDeployment | controllers/emitter_controller.go:53-102 | after a change of pair name, the Deployment of the old name stays and the one of the new name is created |
| Reconciliation.TrackingSharedAcrossNamespaces | controllers/emitter_controller.go:53-119 | same-named Emitters in two namespaces share one table entry: for any two distinct pair names and any earlier table, reconciling the second overwrites it, and the first one's Deployment then survives that Emitter's deletion |
| Reconciliation.TransientEmitterErrorDeletesLivePair | controllers/emitter_controller.go:53-121 | any failed Emitter lookup, a transient error included, deletes the tracked paired Deployment of an Emitter that is still stored; the Emitter stays and the lookup error comes back with NotFound suppressed |
| EmitterController.EmitterReconciler.constructor | controllers/emitter_controller.go:126-128 | the table starts empty, the stores are the cluster's, and the invariant holds |
| EmitterController.EmitterReconciler.Reconcile | controllers/emitter_controller.go:47-124 | run in place, it leaves the table and both stores as Reconciliation.Reconcile says; it returns that error, never NotFound; the Emitters are unchanged and the invariant is kept |
| EmitterController.PairLifecycleOnObject | controllers/emitter_controller.go:53-121 | run on a reconciler object: the first reconcile creates emitter-foo, and the one after the Emitter's deletion removes it; all three return no error |

## Left out

- Reading `manifests/emitter-deployment.yaml` and the YAML decoder (file I/O and a
  foreign decoder). Both are the `Manifest` parameter: a read failure, a decode error,
  or a decoded template.
- The network calls of `client.Client`. Get, Create and Delete act on in-memory maps,
  and every failure (transient, stale cache, missing namespace) is an injected `Err`.
  Get cannot return an object that is not in the store.
- The unchecked type assertion `err.(*errors.StatusError)` at line 71 panics when the
  lookup error is not an API status error. The model has no such error: `Other`
  stands for a status error with a code other than 404.
- `ctrl.Result`, which is always empty, and so requeueing.
- Logging, the kubebuilder RBAC markers, and the controller wiring in
  `SetupWithManager`, except the empty table at line 128.
- Concurrent reconcile workers. The model runs one reconcile at a time.
- `api/v1/emitter_types.go` holds only type declarations and the scheme
  registration; the model takes only the `EmitterSpec` shape from it.
  `CreatePair` is carried but, as in the controller, never read.
  Status, type metadata and object metadata other than namespace, name and
  annotations are not modelled. The rest of a Deployment is one opaque `body` field.

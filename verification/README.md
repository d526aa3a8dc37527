# Vedro, verified

Vedro is a Kubernetes operator: five controllers keep cloud buckets, principals, access grants and
credentials in step with custom resources. This project models the protocol those controllers run over
the API server, the cloud and Kubernetes Secrets, and proves what holds of every run.

`dafny verify dfyconfig.toml` checks everything.

## The parts

- **Finalizers and deletion** (`FinalizerProtocol`, `FinalizerInvariant`, `FinalizerHistory`,
  `FinalizerTheorems`, `ControllerLoop`, `Cascade`, `CascadeRefinement`). Every API call and cloud call of
  the Bucket, CloudPrincipal, BucketAccess and CloudPrincipalAuth controllers is one step of a state
  machine, and the steps interleave freely with each other, with user edits and deletes and with foreign
  finalizers. One inductive invariant carries the safety theorems. `ControllerLoop.Cluster` holds the `Reconcile`
  methods as the controllers write them, with an arbitrary adversary acting between any two calls and
  any API call free to fail, and shows that what they do is always a run of that state machine, in which
  each of their calls is the one its guards ask for.
  `Cascade` asks the liveness question at the grain of whole reconciles, which may fail or be refused, and
  `CascadeRefinement` shows that its schedules are runs of the same state machine.
- **Static credentials** (`StaticCredentials`, `CredentialReconciler`, `CredentialOutcomes`,
  `CredentialTheorems`, `CredentialRecovery`). One reconcile with every failure branch, as specification
  functions; a class that runs it in place; how it ends and what it leaves behind; and what its runs
  guarantee.
- **Bucket convergence** (`Buckets`, `GcsCodec`, `GcsEnsure`, `GcsStored`, `GcsProvider`, `YcCodec`,
  `YcEnsure`, `YcStored`, `YcProvider`). For each cloud: the codecs, `EnsureBucket` as a function of the
  cloud state with its exact fixpoint condition, what it stores and reports of the spec and when it fails,
  and the loops and field-by-field patches that compute it.
- **Bucket deletion** (`DeletePool`, `YcAccessKey`, `YcDeletion`). The worker pool under every
  schedule, and the temporary access key of Yandex Cloud, sequentially and under the same concurrency.
- **Grants** (`IamBindings`, `IamService`, `BucketGrants`, `BucketAccessProvider`, `GrantRuns`). The
  in-place policy loops, the revoke-then-grant call of both clouds, and the conservation of grants
  over runs of any number of accesses.
- **Policy, names, readiness, watches** (`UsagePolicy`, `NameRuns`, `ProviderGate`, `Readiness`,
  `Mappers`).

A recurring shape: a specification function says what one call does to the state it touches, a method
of a class does it the way the source does and is proved equal to the function, and lemmas say what
the function means over runs.

## Assumptions about the environment

- Reads and writes of the API server are linearizable; a status patch applies to the object as it is
  at that moment; `Update` succeeds only at the version that was read. Informer caches that lag
  behind are not modelled.
- At most one reconcile per key is in flight. Users do not remove the operator's finalizers.
- A spec edit bumps the generation. The protocol lets a deletion leave the generation alone, which
  only makes readiness easier to keep.
- A cloud or API call that fails has no effect. The operator does not crash between a cloud call and
  the status patch that follows it; in `GrantRuns`, `NameRuns` and `StaticCredentials` a failing patch
  covers the visible part of that.
- Regular expressions are known by what compiles and what matches. The API server's own validation
  (enumerations, mandatory names, immutability rules) is taken for granted.

## What turned out not to hold

Each of these is a lemma with the input or the run, next to the condition under which things go well.

- `bucketRef` is immutable, `principalRef` of a BucketAccess is not. After it was edited, the principal
  of an in-flight grant can be deleted under it (`FinalizerTheorems.PrincipalCanVanishUnderAccess`);
  without such an edit it cannot (`PrincipalOutlivesUntilRedirected`).
- A deletion policy switched to Retain while a finalization runs comes too late for the cloud
  (`FinalizerTheorems.RetainComesTooLate`); the cloud is asked against the stored policy exactly when the
  last change of the policy since the object was read took Delete away (`CloudDeleteIsStaleExactly`).
- The deletion of a CloudPrincipal hangs for good on a live BucketAccess whose bucket does not exist:
  the access stops at the missing bucket and never sees its principal (`Cascade.StuckForever`). Such a
  state is reached for any bucket, principal and access (`CascadeRefinement.StuckIsReached`), and
  otherwise the cascade completes (`Cascade.CascadeExactly`).
- A key is lost when a status patch, the compensating deletion and the second patch all fail, or when
  setting the owner of the Secret and the patch fail (`CredentialTheorems.OrphansExactly`,
  `CredentialTheorems.KeyCanBeLost`). Along a run in which nobody else revokes keys, one is orphaned
  exactly when some reconcile both makes a key and loses it (`CredentialTheorems.RunOrphansExactly`).
- Once configured, any Secret of the right name passes for the operator's own
  (`CredentialTheorems.ForeignSecretPasses`). Ready is backed by the recorded key exactly when the
  reconcile made the key or the Secret was last given that key's data, or nothing by anybody else
  (`CredentialTheorems.RunReadyIsBackedExactly`).
- `EnsureBucket` writes on every reconcile for a GCS lifecycle with an enabled rule without a positive
  age, and for a Yandex Cloud spec without versioning on a bucket that was once versioned or with a
  lifecycle Yandex Cloud cannot express (`GcsEnsure.NeverSettles`, `YcEnsure.NeverSettles`; the inputs are
  in `GcsEnsure.AgelessRuleNeverSettles` and `YcEnsure.UnsetVersioningNeverSettles`).
- Yandex Cloud creates a bucket whose spec names another region, and every later call fails
  (`YcEnsure.CreationFixpointExactly`, `YcEnsure.ForeignRegionAlwaysFails`).
- `DeleteBucket` fails when the cloud bucket is already gone, because the listing fails first, so a
  deletion whose finalizer update failed cannot be repeated (`DeletePool.MissingBucketIsAnError`). It
  can succeed exactly when the bucket is there at the start (`DeletePool.CanSucceedExactly`); the
  tolerance for a missing bucket helps only if it vanishes after the listing.
- A grant whose status patch fails stays behind if the spec is edited before the next success
  (`GrantRuns.UnrecordedGrantStays`, `GrantRuns.UnrecordedGrantLeaksExactly`).
- The status of a BucketAccess goes on recording a grant that is gone when an ensure withdraws it and then
  fails to make the next one (`GrantRuns.RecordOutlivesItsGrant`). Along every run in which an access
  neither loses a patch nor is retained, the grants due to it are exactly the recorded one unless, since
  its last success, an ensure or a finalization withdrew the recorded grant or its bucket vanished
  (`GrantRuns.GrantsAreAppliedExactly`).
- A bucket whose status patch fails is forgotten when it is renamed before the next success, and the
  deletion then targets the new name (`NameRuns.UnrecordedNameIsForgotten`). A created name is the only
  one the cloud hears of exactly when no call works on an object that was read without a recorded name
  and renamed since (`NameRuns.CreatedNameIsStableExactly`).
- A terminating ProviderConfig passes the readiness gate whatever its spec, so a pattern that does not
  compile can still panic (`ProviderGate.GatePanicsExactly`). A Bucket or CloudPrincipal that passes the
  gate between the two steps of its finalization loses it (`ProviderGate.ConfigCanVanish`).
- A second set-up of the Yandex Cloud key while the first is still held, after a failed clean-up, loses
  the first (`YcAccessKey.FirstKeyIsLost`, `YcAccessKey.ClosedCleanExactly`). A deletion reconcile never does that
  (`YcDeletion.OneKeyAtMost`).

## Model

| member | source | states |
|---|---|---|
| FinalizerTheorems.BucketOutlivesAccess | internal/controller/bucket_access_controller.go:84-192 | under every interleaving, while a BucketAccess records a grant or may still make one, the Bucket it names is stored in the very incarnation that was read, its external deletion was not requested, and its controller is not past its search for accesses |
| FinalizerTheorems.PrincipalOutlivesAuth | internal/controller/cloudprincipal_controller.go:255-363 | the same for a CloudPrincipal and every applied or in-flight CloudPrincipalAuth |
| FinalizerTheorems.ImmutableRefOutlives | internal/resolvers/bucket.go:49-65 | the same for the first, immutable, reference of any referrer |
| FinalizerTheorems.PrincipalOutlivesUneditedAccess | internal/controller/bucket_access_controller.go:137-192 | a BucketAccess protects its CloudPrincipal across all edits of its spec that leave the references alone |
| FinalizerTheorems.PrincipalOutlivesUntilRedirected | internal/controller/bucket_access_controller.go:137-192 | along every run, the principal a BucketAccess uses is alive unless a step of the run redirected the reference after the principal was read |
| FinalizerHistory.RedirectOrigin | api/v1alpha1/bucketaccess_types.go:65-68 | every edit of the references counted on an object is a step of the run |
| FinalizerTheorems.PrincipalCanVanishUnderAccess | api/v1alpha1/bucketaccess_types.go:65-68 | a run in which a BucketAccess records a grant for a principal already deleted here and in the cloud, after its mutable reference was edited |
| FinalizerTheorems.FinalizerSafety | internal/controller/bucket_controller.go:268-362 | a finalizer goes only from a terminating object whose stored policy is not Delete, or that recorded nothing, or whose external resource this reconcile deleted |
| FinalizerTheorems.VanishesExactly | internal/controller/bucket_controller.go:244-250 | along every run, an object vanishes with the step after which it is terminating and neither the operator's finalizer nor anybody else's holds it, and with no other |
| FinalizerTheorems.RetainNeverDeletes | internal/controller/cloudprincipal_controller.go:267-360 | an external deletion is requested only for an incarnation whose policy was Delete at its creation or at some edit of the run |
| FinalizerTheorems.CloudDeleteIsStaleExactly | internal/controller/bucket_access_controller.go:379-459 | at a request to delete, the stored policy is not Delete iff the last change of the policy since this reconcile read the object took Delete away |
| FinalizerHistory.PolicySince | internal/controller/cloudprincipal_controller.go:267-284 | the stored policy is the one the reconcile in flight read, or that of the last change since |
| FinalizerHistory.ReconcileHasAGet | internal/controller/bucket_controller.go:59-75 | every reconcile in flight has a last Get in the run |
| FinalizerTheorems.RetainComesTooLate | internal/controller/cloudprincipal_controller.go:281-330 | a run in which the cloud resource is deleted although the stored policy is Retain |
| FinalizerTheorems.NoEnsureAfterDelete | internal/controller/bucket_controller.go:228-254 | no reconcile ensures or records an external resource whose deletion was requested |
| FinalizerInvariant.StepKeepsInv | internal/controller/bucket_access_controller.go:343-365 | every step of every controller and user keeps the invariant: finalizer before read, list before delete, refusal of terminating dependencies |
| FinalizerInvariant.RunKeepsInv | internal/controller/bucket_access_controller.go:343-462 | hence every run does |
| FinalizerInvariant.HeldStaysProtected | internal/controller/bucket_controller.go:276-285 | a dependency in use stays stored and outside the deletion path across any step |
| FinalizerInvariant.AcquiredIsProtected | internal/controller/bucket_setup.go:27-65 | a dependency that was just read as live is protected from then on |
| ControllerLoop.Cluster.Reconcile | internal/controller/bucket_access_controller.go:59-193 | one reconcile of any of the four kinds, with anybody acting between any two calls and any API call free to fail, is a run of the protocol in which every call is the one the controller makes there; the cloud is asked to ensure or to delete only with provider and policy agreeing; the last call is over the outcome it stands for, unless the first Get failed or found nothing |
| ControllerLoop.Cluster.ReconcileLive | internal/controller/bucket_access_controller.go:84-192 | the live path: finalizer, dependencies, cloud, status patch |
| ControllerLoop.Cluster.ReadDependencies | internal/controller/bucket_access_controller.go:88-162 | dependencies are read one after the other; a missing one is reported, a terminating one makes the object delete itself, a failing read ends the reconcile |
| ControllerLoop.Cluster.DeleteObject | internal/controller/bucket_controller.go:256-285 | the deletion path does nothing without the operator's finalizer, waits when one of its lists shows a referrer, finalizes only without a need for the cloud or with provider, policy and cloud agreeing, and fails only when provider, cloud or an API call fail or somebody changed the object |
| ControllerLoop.Cluster.ListReferrers | internal/resolvers/cloud_principal.go:50-78 | all lists are fetched before the decision; the reconcile goes on only without a referrer, and a failing list ends it |
| ControllerLoop.Cluster.Conclude | internal/controller/bucket_controller.go:99-226 | with its dependencies read, an object is reported ready iff they were ready and provider, policy and cloud agreed; the report fails only when the object is gone or an API call fails |
| ControllerLoop.Cluster.Release | internal/controller/bucket_controller.go:287-360 | without referrers the object is finalized only when its policy or its record ask for no cloud deletion, or provider, policy and cloud agreed, or policy forbids it and nothing is recorded; it is refused only when policy forbids a recorded deletion, and failed only when provider, cloud or an API call fail or somebody changed the object |
| ControllerLoop.Cluster.DeleteFromCloud | internal/controller/bucket_controller.go:322-338 | a failed cloud deletion keeps the finalizer; a successful one drops it unless somebody changed the object or an API call fails |
| ControllerLoop.Cluster.DropFinalizer | internal/controller/bucket_controller.go:359-362 | the finalizer goes unless the object is no longer the one that was read or the update fails |
| ControllerLoop.OthersKeepPc | internal/controller/bucket_controller.go:59-80 | whatever others do between two calls, the reconcile in flight stays where it was |
| Cascade.CascadeCompletes | internal/controller/bucket_access_controller.go:90-135 | after each referrer was reconciled successfully in two rounds and the dependency once more, in any order, with anything in between and with any number of failed or refused reconciles, a terminating dependency is finalized if no live referrer is stuck |
| Cascade.StuckForever | internal/controller/bucket_access_controller.go:99-115 | a live access on a missing bucket keeps its terminating principal for every schedule |
| CascadeRefinement.StuckIsReached | internal/controller/bucket_access_controller.go:99-115 | for any bucket, principal and access, a run of the protocol that ends at rest with the access on the missing bucket and the principal terminating |
| Cascade.CascadeExactly | internal/controller/cloudprincipal_controller.go:271-279 | such a schedule finalizes the dependency iff no live referrer is stuck |
| Cascade.BucketCascade | internal/controller/bucket_controller.go:272-285 | the cascade of a Bucket always completes |
| CascadeRefinement.ReconcileIsARun | internal/controller/bucket_access_controller.go:59-193 | an undisturbed reconcile whose calls succeed is a run of the protocol that leaves the store the cascade says, up to versions |
| CascadeRefinement.AttemptIsARun | internal/controller/bucket_access_controller.go:59-193 | so is one that fails at any of its calls, or that provider, policy or cloud refuse |
| CascadeRefinement.ScheduleIsARun | internal/controller/bucket_controller.go:59-226 | so is every schedule of them, failing or not |
| CascadeRefinement.CascadeInTheProtocol | internal/controller/cloudprincipal_controller.go:255-363 | from every reachable state at rest, such a schedule can be carried out in the protocol and finalizes a terminating dependency iff no live referrer is stuck |
| CredentialReconciler.Reconciler.Reconcile | internal/controller/cloudprincipal_auth_controller.go:477-609 | a reconcile in place keeps the conditions in step with what is applied, never panics, reports Ready iff it ends well or could not patch, and orphans a key iff it loses the one it made or replaces one that lived, for every combination of failing calls |
| CredentialReconciler.Reconciler.Finalize | internal/controller/cloudprincipal_auth_controller.go:719-884 | the deletion path in place: under Delete no key survives the finalizer, and while the finalizer stays no key is orphaned |
| CredentialOutcomes.OutcomeExactly | internal/controller/cloudprincipal_auth_controller.go:488-694 | a reconcile ends well iff it wrote and recorded a new key or found the recorded one and its Secret, asks for another iff it deleted a key it could not record or whose Secret is missing, and is an error otherwise |
| CredentialOutcomes.ReadyMeansDone | internal/controller/cloudprincipal_auth_controller.go:271-286 | Ready is set by a reconcile that ends well and by no other; an error whose patches go through takes it away, a requeue leaves it |
| CredentialOutcomes.LeavesExactly | internal/controller/cloudprincipal_auth_controller.go:488-694 | the record, the live keys and the Secrets after a reconcile, for every combination of failing calls |
| CredentialOutcomes.FinalizeLeavesExactly | internal/controller/cloudprincipal_auth_controller.go:733-881 | the recorded key is deleted iff the policy is Delete and provider, usage policy and cloud agree; a refusal or failure is reported |
| CredentialOutcomes.FinalizedSecretsExactly | internal/controller/cloudprincipal_auth_controller.go:733-757 | owned Secrets go with the object, except the recorded one under Retain, which is disowned and keeps its data |
| CredentialOutcomes.MissingKeyIsReplacedExactly | internal/cloud/gcp/principal_auth.go:59-85 | a key the cloud does not show is replaced at once on Yandex Cloud, and on GCP iff it is at least 60 seconds old |
| CredentialOutcomes.AuthFailsExactly | internal/cloud/yc/principal_auth.go:17-64 | an authentication fails iff the recorded key cannot be asked for, or a key is needed and cannot be made |
| CredentialTheorems.KeyIsReplacedExactly | internal/cloud/gcp/principal_auth.go:20-92 | a key is made iff none is recorded or the cloud does not show the recorded one outside its grace period; it is a fresh one, a replaced one is dead, and otherwise the recorded key is used and none is made |
| CredentialReconciler.Reconciler.ReconcileSecret | internal/controller/cloudprincipal_auth_controller.go:611-694 | on success the Secret is owned, holds the data and is recorded with the key; on a requeue the key is dead and the status as before; a live key goes unrecorded only when the calls lose it; no other Secret and no foreign one is touched |
| CredentialTheorems.CompensationExactly | internal/controller/cloudprincipal_auth_controller.go:509-527 | after the compensating deletion the key lives iff it lived and the deletion failed, and is then recorded unless the second patch failed too |
| CredentialTheorems.KeptKeyNeedsItsSecret | internal/controller/cloudprincipal_auth_controller.go:561-609 | with succeeding calls a kept key is reported ready iff its recorded Secret has data, and is deleted otherwise |
| CredentialTheorems.ReconcileKeepsStatusOk | internal/controller/cloudprincipal_auth_controller.go:527-607 | the configured condition is present iff something is applied, and True iff the Secret is recorded: kept by every reconcile |
| CredentialTheorems.NeverPanics | internal/controller/cloudprincipal_auth_controller.go:561-575 | the dereference of `Applied` is safe |
| CredentialTheorems.OrphansExactly | internal/controller/cloudprincipal_auth_controller.go:488-560 | a reconcile orphans a credential iff it loses the key it created or replaces a recorded key that still lived |
| CredentialTheorems.CreatesOrKeeps | internal/controller/cloudprincipal_auth_controller.go:534-560 | a reconcile writes the Secret only together with a key it created |
| CredentialTheorems.ReconcileKeepsSecretOk | internal/cloud/gcp/principal_auth.go:59-91 | a recorded Secret with the data of another key, unless somebody else put it there, means that the recorded key is dead and known to be |
| CredentialTheorems.ReadyIsBackedExactly | internal/controller/cloudprincipal_auth_controller.go:577-607 | a reconcile that ends well reports Ready with a True condition over a Secret with data, which are the recorded key's iff the reconcile created the key or found the Secret with them |
| CredentialTheorems.RunKeepsOk | internal/controller/cloudprincipal_auth_controller.go:477-694 | these invariants hold along every run with truthful answers, tampering with the Secret and revoked keys included |
| CredentialTheorems.RunOrphansNothing | internal/controller/cloudprincipal_auth_controller.go:488-560 | along every run in which no reconcile makes a key and loses it, whatever else fails and whoever revokes keys, every live key is the recorded one |
| CredentialTheorems.RunOrphansExactly | internal/controller/cloudprincipal_auth_controller.go:488-560 | when nobody else revokes keys, only along such runs |
| CredentialTheorems.RunReadyIsBackedExactly | internal/controller/cloudprincipal_auth_controller.go:577-607 | along every run, replaced Secrets included, a Ready is backed iff the reconcile created the key or nobody else's other data is what the Secret was last given |
| CredentialTheorems.RunReadyIsBacked | internal/controller/cloudprincipal_auth_controller.go:577-607 | Ready is backed along every run in which nobody else puts data into the Secret |
| CredentialTheorems.KeyCanBeLost | internal/controller/cloudprincipal_auth_controller.go:519-527 | three failures in a row lose a key |
| CredentialTheorems.ForeignSecretPasses | internal/controller/cloudprincipal_auth_controller.go:577-607 | a run in which a replaced Secret passes for Ready |
| CredentialTheorems.FinalizeSettles | internal/controller/cloudprincipal_auth_controller.go:733-881 | under Delete neither key nor owned Secret survives; under Retain both do |
| CredentialTheorems.FinalizesExactly | internal/controller/cloudprincipal_auth_controller.go:733-881 | the finalizer goes iff its update succeeds and nothing is recorded, or the retained Secret was disowned, or the provider was ready, policy allowed and the cloud deleted the key; otherwise the record stays |
| CredentialRecovery.RecoversInTime | internal/cloud/gcp/principal_auth.go:59-91 | from any broken state, reconciles at least one second apart reach Ready within the seconds left of the grace period plus two, whatever the cloud denies meanwhile |
| GcsCodec.LifecycleRoundTrip | internal/cloud/gcp/bucket_api.go:115-173 | a normalized lifecycle survives encoding and decoding iff every rule has a positive age |
| GcsCodec.DecodedRulesAreAged | internal/cloud/gcp/bucket_api.go:158-173 | decoding yields positive ages only |
| GcsCodec.EnabledRulesAged | internal/cloud/gcp/normalization.go:50-71 | normalization neither hides nor invents a missing age |
| GcsEnsure.EnsureReaches | internal/cloud/gcp/bucket.go:137-237 | a successful call, creating or updating, brings the bucket to the normalized spec |
| GcsEnsure.HeldIsStable | internal/cloud/gcp/bucket.go:170-237 | from there the next call succeeds, stays there, and writes iff the spec does not converge |
| GcsEnsure.FixpointExactly | internal/cloud/gcp/bucket.go:137-237 | after one successful call from any cloud state, the next writes nothing iff, for a validated spec, every enabled rule has a positive age; the decoded state is then the normalized spec |
| GcsEnsure.NeverSettles | internal/cloud/gcp/bucket.go:170-237 | a spec that does not converge is written again by every later call |
| GcsEnsure.AgelessRuleNeverSettles | internal/cloud/gcp/bucket.go:170-237 | for instance for one enabled rule without an age, on a new bucket |
| GcsEnsure.ReportsTheDesiredState | internal/cloud/gcp/normalization.go:11-31 | every field of the reported attributes against the normalized spec: an update reports lifecycle and soft delete as they read back, and a call that changes nothing leaves the cloud-specific part out |
| GcsStored.StoresTheSpec | internal/cloud/gcp/normalization.go:33-83 | after a success GCS has versioning and enforced public access prevention iff the spec asks for them, its storage class by its own name, its labels, its retention or a week, and a deletion at each positive age of an enabled rule, in order |
| GcsStored.ReportsTheSpec | internal/cloud/gcp/bucket.go:137-237 | the reported attributes against the spec itself, absent settings being those GCS keeps instead |
| GcsStored.FailsExactly | internal/cloud/gcp/bucket.go:137-237 | a call fails iff the bucket cannot be read, is in another location, or an enabled rule asks for more than a deletion; a failure changes nothing |
| GcsStored.WritesExactly | internal/cloud/gcp/bucket.go:170-237 | a call writes iff the bucket is missing or does not read as the normalized spec |
| GcsStored.UpperExactly | internal/cloud/gcp/bucket.go:137-142 | the location is stored and compared in upper case |
| GcsProvider.NormalizedLifecycle | internal/cloud/gcp/normalization.go:50-71 | the append loop keeps the enabled rules in order |
| GcsProvider.ToGcsLifecycle | internal/cloud/gcp/bucket_api.go:115-156 | the encoding loop, with its error on an unknown action |
| GcsProvider.FromGcsLifecycle | internal/cloud/gcp/bucket_api.go:158-173 | the decoding loop |
| GcsProvider.SetLabels | internal/cloud/gcp/bucket_api.go:91-113 | labels are set and deleted one by one so that exactly the desired ones result |
| GcsProvider.BucketApi.CreateBucket | internal/cloud/gcp/bucket_api.go:241-274 | creation stores the encoded bucket, or nothing when the rules do not encode |
| GcsProvider.BucketApi.UpdateBucket | internal/cloud/gcp/bucket_api.go:276-320 | an update touches the patched fields only |
| GcsProvider.BucketApi.EnsureBucket | internal/cloud/gcp/bucket.go:137-237 | the patch filled field by field computes the specified state and report, whose fields `GcsStored` gives in terms of the spec, and writes exactly when it says so |
| YcCodec.StorageClassRoundTrip | internal/cloud/yc/bucket_api.go:30-42 | supported storage classes survive the round trip |
| YcCodec.VersioningRoundTrip | internal/cloud/yc/bucket_api.go:72-98 | versioning survives the round trip, in a creation and in an update, except for the absent value |
| YcCodec.LifecycleRoundTrip | internal/cloud/yc/bucket_api.go:100-159 | a lifecycle survives iff it is absent, or not empty with an age and the Delete action in every rule |
| YcCodec.DecodedIsExpressible | internal/cloud/yc/bucket_api.go:100-128 | whatever the cloud holds reads as such a lifecycle |
| YcCodec.SortedIsUnique | internal/cloud/yc/bucket_api.go:170-189 | a set of keys has one sorted enumeration |
| YcCodec.TagsAreUnique | internal/cloud/yc/bucket_api.go:170-189 | so the tags do not depend on the order in which the map is walked |
| YcCodec.TagsReadBack | internal/cloud/yc/bucket_api.go:161-189 | tags decode to the labels they were made of |
| YcEnsure.EnsureReaches | internal/cloud/yc/bucket.go:57-142 | a successful call brings the bucket to the spec and does not change whether the spec converges on it |
| YcEnsure.HeldIsStable | internal/cloud/yc/bucket.go:80-142 | from there the next call succeeds and writes iff the spec does not converge |
| YcEnsure.FixpointExactly | internal/cloud/yc/bucket.go:57-142 | on an existing bucket, the call after a success issues no update iff versioning is set or was never touched, and the lifecycle is expressible |
| YcEnsure.CreationFixpointExactly | internal/cloud/yc/bucket_api.go:191-235 | after a creation the next call succeeds iff the spec names the provider's region, and then updates iff the lifecycle is not expressible |
| YcEnsure.NeverSettles | internal/cloud/yc/bucket.go:80-142 | a spec that does not converge is written again by every later call |
| YcEnsure.UnsetVersioningNeverSettles | internal/cloud/yc/bucket.go:80-142 | for instance for a spec without versioning on a bucket that has it |
| YcEnsure.ForeignRegionAlwaysFails | internal/cloud/yc/bucket.go:57-142 | a bucket created for a spec of another region stays as it was created, and every later call fails |
| YcStored.StoresTheSpec | internal/cloud/yc/bucket.go:57-142 | after a success the bucket keeps its name and identifier and holds a name of the storage class, the labels and the rules Yandex Cloud can express; what fitted before is left as it was |
| YcStored.RulesAreStored | internal/cloud/yc/bucket_api.go:127-160 | each of these rules is stored with its own name, state and age, in order |
| YcStored.StoresVersioning | internal/cloud/yc/bucket_api.go:72-99 | versioning follows the spec; where the spec is silent a new bucket has none, an old one keeps what was never set, and anything else is suspended |
| YcStored.ReportsTheSpec | internal/cloud/yc/bucket.go:97-142 | a success reports the identifier of the bucket it leaves behind, the provider's region and the spec, its lifecycle iff that can be expressed, and versioning as stored where the spec is silent |
| YcStored.FailsExactly | internal/cloud/yc/bucket.go:57-142 | a call fails iff the spec asks for the warm class, the bucket cannot be read or the provider works in another region; a failure changes nothing |
| YcStored.WritesExactly | internal/cloud/yc/bucket.go:109-142 | a call writes iff the bucket is missing or does not read as the spec |
| YcProvider.ToYcLifecycle | internal/cloud/yc/bucket_api.go:130-159 | the encoding loop drops rules without an age or with another action |
| YcProvider.FromYcLifecycle | internal/cloud/yc/bucket_api.go:100-128 | the decoding loop reads no rule as no lifecycle |
| YcProvider.FromYcTags | internal/cloud/yc/bucket_api.go:161-168 | the map is built tag by tag, the last of a key winning |
| YcProvider.ToYcTags | internal/cloud/yc/bucket_api.go:170-189 | keys are collected in any order and sorted, and the result is the one sorted tag list |
| YcProvider.BucketApi.GetBucket | internal/cloud/yc/bucket_api.go:191-213 | a bucket is read, with the provider's region as its location |
| YcProvider.BucketApi.CreateBucket | internal/cloud/yc/bucket_api.go:215-235 | creation stores the encoded bucket, or fails on an unsupported storage class |
| YcProvider.BucketApi.UpdateBucket | internal/cloud/yc/bucket_api.go:237-275 | an update touches the masked fields only and suspends versioning instead of disabling it |
| YcProvider.BucketApi.EnsureBucket | internal/cloud/yc/bucket.go:57-142 | the patch filled field by field computes the specified state and report, whose fields `YcStored` gives in terms of the spec, and writes exactly when it says so |
| DeletePool.OutstandingIsBounded | internal/cloud/gcp/bucket.go:248-282 | at any time of any schedule at most 2000 tasks hold a slot and at most 32 are at work |
| DeletePool.BarrierExactly | internal/cloud/gcp/bucket.go:255-300 | past the barrier every delivered version was attempted once and has finished, and the bucket deletion is requested iff listing ended well and every version was removed or missing |
| DeletePool.AtMostOneAttempt | internal/cloud/gcp/bucket.go:255-282 | no version is attempted twice |
| DeletePool.FirstErrorStays | internal/cloud/gcp/bucket.go:263-278 | the first error recorded under the mutex is never replaced |
| DeletePool.StepDecreases | internal/cloud/gcp/bucket.go:255-300 | every step decreases a measure |
| DeletePool.AlwaysEnds | internal/cloud/yc/bucket.go:144-205 | until the outcome is known some step is enabled, and no schedule takes more than 8n + 4 steps |
| DeletePool.MissingBucketIsAnError | internal/cloud/aws/bucket_api.go:51-90 | on a missing bucket every schedule attempts nothing, never asks for the bucket's deletion and can only end in an error of the listing |
| DeletePool.CanSucceedExactly | internal/cloud/gcp/bucket.go:239-300 | for any number of versions, some schedule succeeds iff the bucket is there at the start |
| DeletePool.SuccessMeansGone | internal/cloud/gcp/bucket.go:290-300 | a call that succeeds leaves no bucket behind, and has removed or missed every version |
| YcAccessKey.AccessKeyHolder.NewAWSAPI | internal/cloud/yc/bucket_api.go:338-362 | the keys in the cloud stay the foreign, the held and the lost ones; a failed set-up leaves nothing behind when its clean-up works, and what was held before a new key is lost |
| YcAccessKey.AccessKeyHolder.ProcessObjects | internal/cloud/yc/bucket_api.go:364-403 | a use succeeds iff there is a client afterwards, makes nothing when there was one, and loses a key iff one was held without a client and another made |
| YcAccessKey.AccessKeyHolder.CloseKey | internal/cloud/yc/bucket_api.go:541-547 | a successful close leaves the foreign and the lost keys only, a failed one everything |
| YcAccessKey.LiveKeys | internal/cloud/yc/bucket_api.go:338-403 | along any sequence of uses, a key is live and neither foreign nor held iff some set-up was entered while a key was held |
| YcAccessKey.ClosedCleanExactly | internal/cloud/yc/bucket_api.go:541-547 | after a successful close only foreign keys remain iff that never happened |
| YcAccessKey.FirstKeyIsLost | internal/cloud/yc/bucket_api.go:338-362 | two uses, the first with a failing client and a failing clean-up, after which a successful close leaves the first key in the cloud |
| YcDeletion.OneKeyAtMost | internal/cloud/yc/bucket.go:163-186 | with any number of tasks and any schedule at most one key is created and no task ever lacks the client |
| YcDeletion.NoKeyRemainsExactly | internal/cloud/yc/bucket_api.go:338-362 | when the reconcile is over the keys are those of before iff the close succeeded, also after a failed client and a failed clean-up |
| YcDeletion.ClosesLast | internal/cloud/yc/bucket.go:163-205 | the key is deleted only after every submitted task has finished |
| YcDeletion.SetUpIsNewClient | internal/cloud/yc/bucket_api.go:338-362 | the steps of an undisturbed set-up come to the set-up of the sequential model, and the listing goes on iff it has a client |
| YcDeletion.TaskSetUpIsNewClient | internal/cloud/yc/bucket_api.go:364-403 | so do those of a task |
| YcDeletion.TasksMoveOn | internal/cloud/yc/bucket.go:163-205 | tasks are submitted while objects are listed, and each goes through its set-up and its deletion once |
| IamBindings.GrantAdds | internal/cloud/gcp/helpers.go:117-195 | granting adds exactly the pair to the relation, however often a role is repeated |
| IamBindings.RevokeRemoves | internal/cloud/gcp/helpers.go:197-274 | revoking removes exactly the pair from every binding of the role |
| IamBindings.RevokedRemoves | internal/cloud/gcp/helpers.go:255-274 | the same of what is stored, where nothing is written when nothing changed |
| IamBindings.RevokeAbsent | internal/cloud/gcp/helpers.go:232-253 | revoking an absent pair changes the sequence iff a binding of the role is empty |
| IamBindings.RevokeUndoesGrantExactly | internal/cloud/gcp/helpers.go:117-274 | revoke after grant restores the stored sequence iff the pair was absent and no binding of the role was empty |
| IamService.Service.HasBinding | internal/cloud/gcp/helpers.go:78-115 | the search answers iff the policy could be read, and agrees with the relation |
| IamService.Service.GrantBinding | internal/cloud/gcp/helpers.go:117-195 | the loop over fresh binding objects stores the granted policy, writes iff it differs, and on a failing call or a missing account changes nothing and fails |
| IamService.Service.RevokeBinding | internal/cloud/gcp/helpers.go:197-274 | the loop stores the revoked policy and writes iff the pair was there; a missing account counts as revoked, a failing call changes nothing and fails |
| IamService.RemoveFromAll | internal/cloud/gcp/helpers.go:227-256 | bindings are changed in place and emptied ones dropped, wherever the role is repeated |
| BucketGrants.LevelsHaveOwnRoles | internal/cloud/gcp/bucket_api.go:24-30 | the map from levels to roles is injective in both clouds |
| BucketGrants.SameMemberExactly | internal/helpers/helpers.go:27-43 | two member strings parse alike iff they are equal or differ by a leading colon |
| BucketGrants.SameKeyExactly | internal/cloud/yc/bucket_api.go:471-525 | two accesses are one grant iff they agree on level, on the bucket as the cloud addresses it and on the member |
| BucketGrants.KeyOfExactly | internal/cloud/yc/bucket_api.go:471-525 | a grant addresses the bucket by name on GCP and by identifier on Yandex Cloud, and its member is the whole identity or its kind and name |
| BucketGrants.RolesOfLevels | internal/cloud/gcp/bucket_api.go:24-30 | the roles of the four levels in both clouds |
| BucketGrants.AnswersExactly | internal/cloud/gcp/bucket_api.go:434-530 | the answers to has, grant and revoke: an error, a missing bucket, or whether the grant is there and took effect |
| BucketGrants.EnsureEffect | internal/cloud/gcp/bucket_access.go:16-64 | a call touches the recorded and the wanted grant only; on success the wanted one is there and a different recorded one gone; on failure nothing was added |
| BucketGrants.EnsureSucceedsExactly | internal/cloud/gcp/bucket_access.go:36-64 | an ensure call succeeds iff its calls do as far as they are made, a found recorded grant is withdrawn before its bucket vanishes, and the wanted bucket is there when the wanted grant is looked for and, unless found, made |
| BucketGrants.CalmEnsureSucceedsExactly | internal/cloud/yc/bucket_access.go:36-64 | when nothing fails or vanishes it succeeds iff the wanted bucket exists, whether the grant is there already or not |
| BucketGrants.DeleteEffect | internal/cloud/yc/bucket_access.go:66-90 | a deletion that succeeds leaves the recorded grant absent and all others alone, and fails only when a cloud call does |
| BucketGrants.DeleteSucceedsExactly | internal/cloud/yc/bucket_access.go:66-90 | a delete call succeeds iff its calls do as far as they are made |
| BucketAccessProvider.BucketApi.EnsureBucketAccess | internal/cloud/yc/bucket_access.go:16-64 | has, revoke, has, grant in this order change the cloud as specified, in four calls at most, and when nothing fails or vanishes succeed iff the wanted bucket exists |
| BucketAccessProvider.BucketApi.DeleteBucketAccess | internal/cloud/gcp/bucket_access.go:66-90 | has and revoke change the cloud as specified, a missing bucket being no error |
| GrantRuns.RunAccounts | internal/controller/bucket_access_controller.go:304-339 | along every run of any number of accesses, each managed grant is recorded or was left behind by a lost patch or by Retain, and foreign grants change only with their bucket |
| GrantRuns.RecordedExactly | internal/controller/bucket_access_controller.go:304-462 | an access records what its last patched success wanted, until a finalization lets it go |
| GrantRuns.GrantsAreAppliedExactly | internal/controller/bucket_access_controller.go:304-339 | along every run in which this access loses no patch and is not retained, whatever the others do, the grants due to it are the recorded one or none, and exactly the recorded one iff neither it nor its bucket was taken away since the last success; foreign grants stay |
| GrantRuns.RecordOutlivesItsGrant | internal/cloud/gcp/bucket_access.go:36-58 | a run in which the recorded grant is withdrawn, the next one fails, and the status goes on recording the first |
| GrantRuns.SuccessIsExact | internal/cloud/gcp/bucket_access.go:16-64 | after a recorded success the grants due to the access are exactly the recorded one, whatever the others do |
| GrantRuns.FinalizedHoldsNothing | internal/controller/bucket_access_controller.go:383-462 | after its finalization under Delete there are none, whatever the others do |
| GrantRuns.UnrecordedGrantLeaksExactly | internal/controller/bucket_access_controller.go:304-339 | after a lost patch, an edit and a success, the grants due are exactly the wanted one iff the unrecorded grant was the wanted or the recorded one |
| GrantRuns.UnrecordedGrantStays | internal/controller/bucket_access_controller.go:304-339 | a run of a lost patch, an edit and a recorded success that leaves the first grant in the cloud |
| UsagePolicy.NameIsValidExactly | internal/validation/common.go:40-60 | the immutability check accepts exactly the recorded name of what the operator creates, and any name of what it only refers to |
| UsagePolicy.NameFromCRExactly | internal/helpers/helpers.go:17-61 | the name a spec stands for: a Bucket's own unless it gives another, and for a principal that of its managed or of its referenced part |
| UsagePolicy.CheckedNameExactly | internal/helpers/helpers.go:63-80 | a terminating object is checked, and deleted, by its recorded name as far as it has one |
| UsagePolicy.IsNameAllowed | internal/usagepolicy/policy.go:45-55 | the loop compiles and matches pattern by pattern |
| UsagePolicy.NameAllowedAt | internal/usagepolicy/policy.go:45-55 | the search ends at the first pattern that does not compile, with a panic, or that matches, with leave |
| UsagePolicy.AllowedExactly | internal/usagepolicy/policy.go:57-147 | a decision is Allowed iff the namespace is, and the kind, the management mode and the first match of the name, as far as each is asked for |
| UsagePolicy.ValidateUsagePolicy | internal/validation/providerconfig.go:10-35 | the loops accept exactly the valid policies |
| UsagePolicy.ValidExactly | internal/validation/providerconfig.go:10-35 | a policy is valid iff it names no namespaces besides all of them, knows its kinds, and every pattern of its three lists compiles |
| UsagePolicy.ValidNeverPanics | internal/usagepolicy/policy.go:57-147 | no decision on any Bucket or CloudPrincipal panics under a validated policy |
| NameRuns.RecordedNameIsStable | internal/helpers/helpers.go:63-71 | once a name is recorded every later ensure, delete and record of the run carries it, whatever is edited meanwhile |
| NameRuns.CheckedNameIsSent | internal/usagepolicy/policy.go:57-78 | the name every cloud call carries is the one its usage policy allowed |
| NameRuns.CreatedNameIsStableExactly | internal/controller/bucket_controller.go:181-216 | along every run, a name once created is the only one the cloud and the status hear of iff no call worked on an object that was read without a recorded name and renamed since |
| NameRuns.UnrecordedNameIsForgotten | internal/helpers/helpers.go:17-25 | after a lost patch and any allowed edit, the deletion targets what was created iff the edit keeps the name |
| ProviderGate.PassingNeverPanics | internal/controller/provider_setup.go:70-84 | along every run of edits and reconciles, a config that passes the gate and is not terminating was validated at its own generation, so no policy decision panics |
| ProviderGate.TerminatingPassesAnyPolicy | internal/controller/provider_setup.go:70-84 | a terminating config passes the gate with any policy |
| UsagePolicy.PanicsInTheSearch | internal/usagepolicy/policy.go:57-147 | a decision on a Bucket or CloudPrincipal panics iff it gets to a pattern search and that panics |
| ProviderGate.GatePanicsExactly | internal/usagepolicy/policy.go:45-51 | behind the gate the check of a Bucket or CloudPrincipal can panic iff the config is terminating and, in the list it searches, a pattern that does not compile precedes the first match |
| ProviderGate.GoesExactly | internal/controller/provider_config_controller.go:163-191 | a config is finalized only while terminating and in the very state in which no reference to it was found, and is otherwise neither removed nor replaced |
| ProviderGate.JudgesLiveOnly | internal/controller/provider_config_controller.go:59-161 | a config is judged only on a reading before its deletion was requested |
| ProviderGate.EditsExactly | internal/controller/provider_setup.go:70-84 | the generation that the gate compares grows with every change of the policy, and otherwise only when the deletion is requested |
| ProviderGate.ConfigOutlivesDependents | internal/controller/provider_config_controller.go:163-191 | a config outlives every Bucket and CloudPrincipal that passed its gate, unless the gate was passed between the search for references and the removal of the finalizer |
| ProviderGate.AtomicNeverRaces | internal/controller/provider_config_controller.go:163-191 | which cannot be when these two are one step |
| ProviderGate.ConfigCanVanish | internal/controller/provider_setup.go:70-84 | a run in which a dependent passes the gate in between and the config vanishes under it |
| Readiness.IsReady | internal/resolvers/common.go:22-46 | the search answers yes iff there are conditions and all are True at the given generation, and explains a no by the first obstacle |
| Readiness.Reconciler.ReconcileBucket | internal/controller/bucket_controller.go:106-226 | the live path sets the conditions of its outcome and calls the cloud once or not at all |
| Readiness.Reconciler.ReconcileBucketAccess | internal/controller/bucket_access_controller.go:84-339 | the conditions, cloud calls and self-deletion of a BucketAccess, for every combination of dependencies |
| Readiness.Reconciler.PrepareDependency | internal/controller/bucket_setup.go:27-65 | the four-way status of a dependency and the condition state taken over from it |
| Readiness.PrepareExactly | internal/controller/bucket_setup.go:27-65 | a dependency is ok iff it exists, is not terminating and is ready at its own generation; the other three ways tell which of these fails |
| Readiness.ShownAt | internal/resolvers/common.go:22-46 | an unready dependency shows the status of its first condition in the way, a stale one counting as false |
| Readiness.SetAllHas | internal/controller/bucket_controller.go:211-214 | a patch replaces the conditions of its types and keeps all others |
| Readiness.PatchedIsReadyExactly | internal/controller/bucket_controller.go:106-226 | whatever the conditions were, a report makes the object ready iff it was a success, and for its own generation only |
| Readiness.ReadyIsLastSuccess | internal/controller/bucket_access_controller.go:195-339 | along every run an object is ready at a generation iff the last report that reached its status was a success there |
| Readiness.EnsuresExactly | internal/controller/bucket_access_controller.go:164-192 | the cloud is asked for access iff both dependencies were ready at their own generation, live and under one provider, and provider, policy and capabilities agreed |
| Readiness.OwnerExactly | internal/controller/bucket_controller.go:106-226 | a Bucket or CloudPrincipal is ensured iff provider, policy, capabilities and validation agree, is reported ready iff the cloud then did, and reports its provider when that failed or all is well |
| Readiness.AccessReportsExactly | internal/controller/bucket_access_controller.go:84-339 | which conditions an access that does not withdraw reports, and their statuses |
| Readiness.WithdrawsExactly | internal/controller/bucket_access_controller.go:88-143 | an access deletes itself iff its bucket is terminating, or its bucket exists and its principal is terminating |
| Mappers.FindBucketAccessOfBucket | internal/controller/bucket_access_controller.go:490-522 | the loop asks for exactly the accesses of the bucket |
| Mappers.FindBucketAccessOfPrincipal | internal/controller/bucket_access_controller.go:524-556 | the loop asks for exactly the accesses of the principal |
| Mappers.FindBucketAccessOfProviderConfig | internal/controller/bucket_access_controller.go:558-585 | the loop over buckets asks for exactly the accesses to a bucket of the provider |
| Mappers.FindBucketsOfProviderConfig | internal/controller/bucket_controller.go:394-425 | the loop asks for exactly the buckets of the provider |
| Mappers.FindCloudPrincipalsOfProviderConfig | internal/controller/cloudprincipal_controller.go:391-422 | the loop asks for exactly the principals of the provider |
| Mappers.FindCloudPrincipalAuthsOfCloudPrincipal | internal/controller/cloudprincipal_auth_controller.go:912-944 | the loop asks for exactly the auths of the principal |
| Mappers.FindCloudPrincipalAuthsOfProviderConfig | internal/controller/cloudprincipal_auth_controller.go:982-1008 | the loop over principals asks for exactly the auths of a principal of the provider |
| Mappers.BucketIsReferenced | internal/resolvers/bucket.go:49-65 | a bucket is referenced iff some access uses it, that is iff its mapper has someone to wake |
| Mappers.PrincipalIsReferenced | internal/resolvers/cloud_principal.go:50-78 | a principal is referenced iff some access or auth uses it, that is iff one of its two mappers has someone to wake |
| Mappers.ProviderIsReferenced | internal/resolvers/provider_config.go:46-72 | a provider is referenced iff it has a bucket or a principal, that is iff one of their mappers has someone to wake |
| Mappers.HitsExactly | internal/controller/bucket_access_controller.go:490-522 | a mapper asks for exactly the objects whose reference hits |
| Mappers.HitsOnce | internal/controller/bucket_controller.go:394-425 | and for none twice |
| Mappers.HitsThroughSound | internal/controller/bucket_access_controller.go:558-585 | a provider mapper asks only for objects that hit something under the provider |
| Mappers.HitsThroughComplete | internal/controller/bucket_access_controller.go:558-585 | and for all of them |
| Mappers.ProviderMappersOnce | internal/controller/cloudprincipal_auth_controller.go:982-1008 | and for none twice, since a reference has one target |
| Mappers.WokenIsHeld | internal/resolvers/provider_config.go:46-72 | what a provider mapper wakes through a bucket keeps provider and bucket referenced |

## Left out

- The ProviderConfig as a fifth kind of the finalizer protocol: its gate, its validation and its finalization are modelled on their own (`ProviderGate`), as a state machine over values rather than as a class, since each step is one API call.
- Cascade.CascadeCompletes: its reconciles may fail but follow one another, and nobody creates, edits or deletes objects meanwhile; a new or redirected referrer can always hold a dependency a little longer.
- FinalizerTheorems.FinalizerSafety: what a record names is abstract; names, grants and credentials are treated in their own modules.
- BucketGrants.LevelsHaveOwnRoles: levels are the four of the API's enumeration, so the error for a level without a role cannot occur.
- The workload-identity path of CloudPrincipalAuth (`ensureWorkloadIdentity`, `reconcileServiceAccount`) and with it the caller of the IAM binding loops.
- Validation of locations, name patterns and capability tables: character classes and one-branch checks.
- Cloud SDK calls, paging, HTTP, client construction and the deadlines of calls; a cloud stores what it is sent, or the call fails.
- `findProviderConfigsOfSecret` and `findCloudPrincipalAuthsOfServiceAccount`, which delegate the search to a field index of the API client.
- Message texts, events, logs, requeue delays other than the one second after a compensating deletion.
- cmd/main.go, charts, manifests, generated code.

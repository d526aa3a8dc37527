/** The credential life cycle of a static CloudPrincipalAuth: a key in the cloud, a Kubernetes
    Secret, and the persisted status, with every failure branch of one reconcile. */
module StaticCredentials {
  import opened Common

  /** GCP reads its own keys with a delay; Yandex Cloud does not. */
  datatype Provider = Gcp | Yc

  const KEY_PROPAGATION_GRACE := 60

  /** `status.applied`. */
  datatype Applied = Applied(credential: nat, secretRef: Option<string>, createdAt: int)

  /** `configured` is the StaticCredentialsConfigured condition, `ready` the Ready condition. */
  datatype Status = Status(applied: Option<Applied>, configured: Option<bool>, ready: bool)

  /** A Secret, whether this CloudPrincipalAuth owns it, and the credential whose data it holds. */
  datatype Secret = Secret(owned: bool, data: Option<nat>)

  /** `live` are the cloud keys made for this CloudPrincipalAuth. */
  datatype World = World(status: Status, live: set<nat>, nextKey: nat, secrets: map<string, Secret>)

  datatype Answer = Found | NotFound | Failed

  /** How the API and cloud calls of one reconcile turn out. */
  datatype Calls = Calls(
    getKey: Answer,
    createKeyFails: bool,
    setOwnerFails: bool,
    writeSecretFails: bool,
    readSecretFails: bool,
    patchFails: bool,
    deleteKeyFails: bool,
    secondPatchFails: bool)

  datatype Outcome = Done | Error | RequeueAfterOneSecond | Panic

  datatype AuthResult = Auth(credential: nat, created: bool) | AuthError

  predicate WithinGrace(p: Provider, applied: Applied, now: int) {
    p.Gcp? && now - applied.createdAt < KEY_PROPAGATION_GRACE
  }

  // ----- what one reconcile does -----

  function CreateKey(w: World, c: Calls): (World, AuthResult) {
    if c.createKeyFails then (w, AuthError)
    else (w.(live := w.live + {w.nextKey}, nextKey := w.nextKey + 1), Auth(w.nextKey, true))
  }

  function EnsureAuthentication(w: World, p: Provider, now: int, c: Calls): (World, AuthResult) {
    match w.status.applied
    case None => CreateKey(w, c)
    case Some(applied) =>
      match c.getKey
      case Found => (w, Auth(applied.credential, false))
      case NotFound =>
        if WithinGrace(p, applied, now) then (w, Auth(applied.credential, false)) else CreateKey(w, c)
      case Failed => (w, AuthError)
  }

  function PatchStatus(w: World, fails: bool, status: Status): World {
    if fails then w else w.(status := status)
  }

  /** The compensating deletion of the key that `applied`, the status in memory, names. */
  function DeleteCredentials(w: World, c: Calls, applied: Applied, configured: bool): (World, Outcome) {
    if c.deleteKeyFails then
      (PatchStatus(w, c.secondPatchFails, Status(Some(applied), Some(configured), false)), Error)
    else
      (w.(live := w.live - {applied.credential}), RequeueAfterOneSecond)
  }

  predicate SecretWritable(w: World, name: string, c: Calls) {
    !c.writeSecretFails && (name in w.secrets ==> w.secrets[name].owned)
  }

  function ReconcileSecret(w: World, name: string, c: Calls, applied: Applied, data: Option<nat>): (World, Outcome) {
    var failed := Status(Some(applied), Some(false), false);
    if c.setOwnerFails then (PatchStatus(w, c.patchFails, failed), Error)
    else if !SecretWritable(w, name, c) then
      if c.patchFails then DeleteCredentials(w, c, applied, false) else (w.(status := failed), Error)
    else
      var w' := w.(secrets := w.secrets[name := Secret(true, data)]);
      var written := applied.(secretRef := Some(name));
      if c.patchFails then DeleteCredentials(w', c, written, true)
      else (w'.(status := Status(Some(written), Some(true), true)), Done)
  }

  function EnsureStaticCredentials(w: World, name: string, now: int, c: Calls, auth: AuthResult): (World, Outcome)
    requires auth.Auth?
  {
    var st := w.status;
    if st.configured.None? || auth.created then
      var data := if auth.created then Some(auth.credential) else None;
      ReconcileSecret(w, name, c, Applied(auth.credential, None, now), data)
    else if st.applied.None? then (w, Panic)      // `Applied` is dereferenced
    else
      var applied := st.applied.value;
      var configured := st.configured.value;
      if applied.secretRef.None? then DeleteCredentials(w, c, applied, configured)
      else if c.readSecretFails then
        (PatchStatus(w, c.patchFails, Status(st.applied, st.configured, false)), Error)
      else
        var ref := applied.secretRef.value;
        if ref !in w.secrets || w.secrets[ref].data.None? then DeleteCredentials(w, c, applied, configured)
        else if c.patchFails then (w, Error)
        else (w.(status := st.(ready := true)), Done)
  }

  function Reconcile(w: World, p: Provider, name: string, now: int, c: Calls): (World, Outcome) {
    var (w', auth) := EnsureAuthentication(w, p, now, c);
    if auth.AuthError? then (PatchStatus(w', c.patchFails, w'.status.(ready := false)), Error)
    else EnsureStaticCredentials(w', name, now, c, auth)
  }

  // ----- finalization -----

  datatype Policy = Delete | Retain

  /** What a finalization meets besides its own calls: whether the provider can be prepared, whether
      the usage policy allows the deletion, and whether the update that drops the finalizer fails. */
  datatype Setting = Setting(policy: Policy, prepared: bool, allowed: bool, updateFails: bool)

  /** The deletion path, with the garbage collection of owned Secrets once the object is gone. The
      result says whether the finalizer was removed. */
  function Finalize(w: World, f: Setting, c: Calls): (World, bool) {
    match (f.policy, w.status.applied)
    case (_, None) => Release(w, f)
    case (Retain, Some(applied)) =>
      if applied.secretRef.None? then Release(w, f)
      else if c.writeSecretFails then (w, false)
      else Release(DisownSecret(w, applied.secretRef.value), f)
    case (Delete, Some(applied)) =>
      if !f.prepared then (w, false)
      else if !f.allowed || c.deleteKeyFails then (PatchStatus(w, c.patchFails, w.status.(ready := false)), false)
      else Release(w.(live := w.live - {applied.credential}), f)
  }

  function Release(w: World, f: Setting): (World, bool) {
    if f.updateFails then (w, false) else (CollectSecrets(w), true)
  }

  function DisownSecret(w: World, name: string): World {
    if name !in w.secrets then w
    else w.(secrets := w.secrets[name := w.secrets[name].(owned := false)])
  }

  function CollectSecrets(w: World): World {
    w.(secrets := map n | n in w.secrets && !w.secrets[n].owned :: w.secrets[n])
  }
}

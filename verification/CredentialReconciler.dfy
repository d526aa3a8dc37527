/** The CloudPrincipalAuth controller as it runs: each call changes the cloud, the Secrets or the
    persisted status in place, and the status read at the start is edited in memory meanwhile. */
module CredentialReconciler {
  import opened Common
  import S = StaticCredentials
  import T = CredentialTheorems
  import O = CredentialOutcomes

  class Reconciler {
    var status: S.Status
    var live: set<nat>
    var nextKey: nat
    var secrets: map<string, S.Secret>
    const provider: S.Provider
    const secretName: string

    constructor (provider: S.Provider, secretName: string)
      ensures World() == S.World(S.Status(None, None, false), {}, 0, map[])
      ensures this.provider == provider && this.secretName == secretName && Valid()
    {
      this.provider, this.secretName := provider, secretName;
      status, live, nextKey, secrets := S.Status(None, None, false), {}, 0, map[];
    }

    function World(): S.World
      reads this
    {
      S.World(status, live, nextKey, secrets)
    }

    /** The conditions agree with what is applied, and keys are numbered as they come. */
    ghost predicate Valid()
      reads this
    {
      T.StatusOk(status, secretName) && T.KeysOk(World())
    }

    method CreateKey(c: S.Calls) returns (auth: S.AuthResult)
      modifies this`live, this`nextKey
      ensures (World(), auth) == S.CreateKey(old(World()), c)
    {
      if c.createKeyFails {
        return S.AuthError;
      }
      auth := S.Auth(nextKey, true);
      live, nextKey := live + {nextKey}, nextKey + 1;
    }

    method EnsureAuthentication(now: int, c: S.Calls) returns (auth: S.AuthResult)
      modifies this`live, this`nextKey
      ensures (World(), auth) == S.EnsureAuthentication(old(World()), provider, now, c)
    {
      if status.applied.None? {
        auth := CreateKey(c);
        return;
      }
      var applied := status.applied.value;
      if c.getKey == S.NotFound {
        if S.WithinGrace(provider, applied, now) {
          return S.Auth(applied.credential, false);
        }
        auth := CreateKey(c);
      } else if c.getKey == S.Failed {
        auth := S.AuthError;
      } else {
        auth := S.Auth(applied.credential, false);
      }
    }

    method PatchStatus(fails: bool, desired: S.Status) returns (ok: bool)
      modifies this`status
      ensures ok == !fails && World() == S.PatchStatus(old(World()), fails, desired)
    {
      ok := !fails;
      if ok {
        status := desired;
      }
    }

    method DeleteCredentials(c: S.Calls, applied: S.Applied, configured: bool) returns (outcome: S.Outcome)
      modifies this`live, this`status
      ensures (World(), outcome) == S.DeleteCredentials(old(World()), c, applied, configured)
    {
      if c.deleteKeyFails {
        var _ := PatchStatus(c.secondPatchFails, S.Status(Some(applied), Some(configured), false));
        return S.Error;
      }
      live := live - {applied.credential};
      outcome := S.RequeueAfterOneSecond;
    }

    method ReconcileSecret(c: S.Calls, applied: S.Applied, data: Option<nat>) returns (outcome: S.Outcome)
      modifies this`live, this`status, this`secrets
      ensures (World(), outcome) == S.ReconcileSecret(old(World()), secretName, c, applied, data)
      ensures outcome == S.Done ==>
        && secretName in secrets && secrets[secretName] == S.Secret(true, data)
        && status == S.Status(Some(applied.(secretRef := Some(secretName))), Some(true), true)
        && live == old(live)
      ensures outcome == S.RequeueAfterOneSecond ==> status == old(status) && live == old(live) - {applied.credential}
      ensures applied.credential in live && applied.credential !in T.Recorded(status) ==> T.Loses(c)
      ensures forall n :: n in old(secrets) && (n != secretName || !old(secrets)[n].owned) ==>
        n in secrets && secrets[n] == old(secrets)[n]
    {
      if c.setOwnerFails {
        var _ := PatchStatus(c.patchFails, S.Status(Some(applied), Some(false), false));
        return S.Error;
      }
      if c.writeSecretFails || (secretName in secrets && !secrets[secretName].owned) {
        var patched := PatchStatus(c.patchFails, S.Status(Some(applied), Some(false), false));
        if !patched {
          outcome := DeleteCredentials(c, applied, false);
          return;
        }
        return S.Error;
      }
      secrets := secrets[secretName := S.Secret(true, data)];
      var written := applied.(secretRef := Some(secretName));
      var patched := PatchStatus(c.patchFails, S.Status(Some(written), Some(true), true));
      if !patched {
        outcome := DeleteCredentials(c, written, true);
        return;
      }
      outcome := S.Done;
    }

    /** One reconcile never dereferences what is not there, and orphans a key iff it loses the one it
        made or replaces one that still lived. */
    method Reconcile(now: int, c: S.Calls) returns (outcome: S.Outcome)
      requires Valid()
      modifies this
      ensures (World(), outcome) == S.Reconcile(old(World()), provider, secretName, now, c)
      ensures Valid() && outcome != S.Panic
      ensures outcome == S.Done ==> status.ready
      ensures status.ready ==> outcome == S.Done || status == old(status)
      ensures old(T.NoOrphan(World())) ==>
        (T.NoOrphan(World())
         <==> !(T.Creates(old(World()), provider, now, c) && (T.Loses(c) || (T.Records(c) && old(live) != {}))))
    {
      T.ReconcileKeepsStatusOk(World(), provider, secretName, now, c);
      T.ReconcileKeepsKeysOk(World(), provider, secretName, now, c);
      O.ReadyMeansDone(World(), provider, secretName, now, c);
      T.NeverPanics(World(), provider, secretName, now, c);
      if T.NoOrphan(World()) {
        T.OrphansExactly(World(), provider, secretName, now, c);
      }
      outcome := ReconcileAuth(now, c);
    }

    method ReconcileAuth(now: int, c: S.Calls) returns (outcome: S.Outcome)
      modifies this
      ensures (World(), outcome) == S.Reconcile(old(World()), provider, secretName, now, c)
    {
      var auth := EnsureAuthentication(now, c);
      if auth.AuthError? {
        var _ := PatchStatus(c.patchFails, status.(ready := false));
        return S.Error;
      }
      if status.configured.None? || auth.created {
        var applied := S.Applied(auth.credential, None, now);
        outcome := ReconcileSecret(c, applied, if auth.created then Some(auth.credential) else None);
        return;
      }
      if status.applied.None? {
        return S.Panic;
      }
      outcome := KeepCredentials(c, status.applied.value, status.configured.value);
    }

    method KeepCredentials(c: S.Calls, applied: S.Applied, configured: bool) returns (outcome: S.Outcome)
      requires status.applied == Some(applied) && status.configured == Some(configured)
      modifies this`live, this`status
      ensures (World(), outcome)
           == S.EnsureStaticCredentials(old(World()), secretName, 0, c, S.Auth(applied.credential, false))
    {
      if applied.secretRef.None? {
        outcome := DeleteCredentials(c, applied, configured);
        return;
      }
      if c.readSecretFails {
        var _ := PatchStatus(c.patchFails, status.(ready := false));
        return S.Error;
      }
      var ref := applied.secretRef.value;
      if ref !in secrets || secrets[ref].data.None? {
        outcome := DeleteCredentials(c, applied, configured);
        return;
      }
      var patched := PatchStatus(c.patchFails, status.(ready := true));
      outcome := if patched then S.Done else S.Error;
    }

    /** The deletion path: the finalizer goes only with everything that has to go before it. */
    method Finalize(f: S.Setting, c: S.Calls) returns (removed: bool)
      requires Valid()
      modifies this
      ensures (World(), removed) == S.Finalize(old(World()), f, c)
      ensures removed && f.policy == S.Delete && old(T.NoOrphan(World())) ==> live == {}
      ensures !removed && old(T.NoOrphan(World())) ==> T.NoOrphan(World())
      ensures f.policy == S.Retain ==> live == old(live)
    {
      T.FinalizesExactly(World(), f, c);
      if status.applied.Some? && f.policy == S.Retain {
        var ref := status.applied.value.secretRef;
        if ref.Some? {
          if c.writeSecretFails {
            return false;
          }
          if ref.value in secrets {
            secrets := secrets[ref.value := secrets[ref.value].(owned := false)];
          }
        }
      }
      if status.applied.Some? && f.policy == S.Delete {
        if !f.prepared {
          return false;
        }
        if !f.allowed || c.deleteKeyFails {
          var _ := PatchStatus(c.patchFails, status.(ready := false));
          return false;
        }
        live := live - {status.applied.value.credential};
      }
      if f.updateFails {
        return false;
      }
      secrets := map n | n in secrets && !secrets[n].owned :: secrets[n];
      removed := true;
    }
  }
}

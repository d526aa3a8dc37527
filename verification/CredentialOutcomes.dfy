/** What a reconcile or a finalization of a static CloudPrincipalAuth leaves behind, and how it ends, for every
    combination of failing calls. */
module CredentialOutcomes {
  import opened Common
  import opened StaticCredentials
  import opened CredentialTheorems

  /** The recorded key is used again. */
  predicate Keeps(w: World, p: Provider, now: int, c: Calls) {
    w.status.applied.Some?
    && (c.getKey == Found || (c.getKey == NotFound && WithinGrace(p, w.status.applied.value, now)))
  }

  /** The recorded Secret is there and holds something. */
  predicate SecretGood(w: World, name: string) {
    w.status.configured == Some(true) && name in w.secrets && w.secrets[name].data.Some?
  }

  /** A key that the cloud does not show is replaced at once on Yandex Cloud, and on GCP iff it was made at
      least a minute ago. */
  lemma MissingKeyIsReplacedExactly(w: World, p: Provider, now: int, c: Calls)
    requires w.status.applied.Some? && c.getKey == NotFound && !c.createKeyFails
    ensures var auth := EnsureAuthentication(w, p, now, c).1;
      auth.Auth? && (auth.created <==> p.Yc? || now - w.status.applied.value.createdAt >= 60)
  {
  }

  /** An authentication fails only when the cloud could not be asked for the recorded key, or a key that is
      needed could not be made. */
  lemma AuthFailsExactly(w: World, p: Provider, now: int, c: Calls)
    ensures EnsureAuthentication(w, p, now, c).1.AuthError?
       <==> !Keeps(w, p, now, c) && ((w.status.applied.Some? && c.getKey == Failed) || c.createKeyFails)
  {
  }

  /** A reconcile ends well iff it wrote and recorded a new key, or found the recorded one and its Secret and
      could say so; it asks for another one at once iff it deleted a key it could not record, or one
      whose Secret is missing. Everything else is an error. */
  lemma OutcomeExactly(w: World, p: Provider, name: string, now: int, c: Calls)
    requires StatusOk(w.status, name)
    ensures var outcome := Reconcile(w, p, name, now, c).1;
      && outcome != Panic
      && (outcome == Done <==>
            !c.patchFails && (WritesSecret(w, p, name, now, c)
                              || (Keeps(w, p, now, c) && SecretGood(w, name) && !c.readSecretFails)))
      && (outcome == RequeueAfterOneSecond <==>
            !c.deleteKeyFails
            && ((Creates(w, p, now, c) && !c.setOwnerFails && c.patchFails)
                || (Keeps(w, p, now, c) && !SecretGood(w, name)
                    && (w.status.configured == Some(false) || !c.readSecretFails))))
  {
    NeverPanics(w, p, name, now, c);
  }

  /** Ready is reported by a reconcile that ends well and by no other: an error takes it away if the status
      can be patched, and a requeue leaves the status as it was. */
  lemma ReadyMeansDone(w: World, p: Provider, name: string, now: int, c: Calls)
    requires StatusOk(w.status, name)
    ensures var (w', outcome) := Reconcile(w, p, name, now, c);
      && (w'.status.ready ==> outcome == Done || w'.status == w.status)
      && (outcome == Done ==> w'.status.ready)
      && (outcome == Error && !c.patchFails && !c.secondPatchFails ==> !w'.status.ready)
      && (outcome == RequeueAfterOneSecond ==> w'.status == w.status)
  {
  }

  lemma WritingLeavesExactly(w: World, p: Provider, name: string, now: int, c: Calls)
    requires Creates(w, p, now, c) && w.nextKey !in w.live
    ensures var (w', outcome) :=
        ReconcileSecret(Made(w), name, c, Applied(w.nextKey, None, now), Some(w.nextKey));
      var written := if WritesSecret(w, p, name, now, c) then Some(name) else None;
      && w'.status.applied == (if Records(c) then Some(Applied(w.nextKey, written, now)) else w.status.applied)
      && w'.live == (w.live + if outcome == RequeueAfterOneSecond then {} else {w.nextKey})
      && w'.nextKey == w.nextKey + 1
      && w'.secrets == if written.Some? then w.secrets[name := Secret(true, Some(w.nextKey))] else w.secrets
  {
  }

  lemma KeepingLeavesExactly(w: World, p: Provider, name: string, now: int, c: Calls)
    requires StatusOk(w.status, name) && !Creates(w, p, now, c)
    ensures var (w', outcome) := Reconcile(w, p, name, now, c);
      && w'.live == (w.live - if outcome == RequeueAfterOneSecond then Recorded(w.status) else {})
      && w'.nextKey == w.nextKey
  {
  }

  /** The record, the keys and the Secrets after a reconcile. */
  lemma LeavesExactly(w: World, p: Provider, name: string, now: int, c: Calls)
    requires StatusOk(w.status, name) && KeysOk(w)
    ensures var (w', outcome) := Reconcile(w, p, name, now, c);
      var requeued := outcome == RequeueAfterOneSecond;
      var written := if WritesSecret(w, p, name, now, c) then Some(name) else None;
      && w'.status.applied == (if Creates(w, p, now, c) && Records(c) then Some(Applied(w.nextKey, written, now))
                               else w.status.applied)
      && w'.live == (if Creates(w, p, now, c) then w.live + if requeued then {} else {w.nextKey}
                     else w.live - if requeued then Recorded(w.status) else {})
      && w'.nextKey == w.nextKey + (if Creates(w, p, now, c) then 1 else 0)
      && w'.secrets == if written.Some? then w.secrets[name := Secret(true, Some(w.nextKey))] else w.secrets
  {
    CreatesOrKeeps(w, p, name, now, c);
    if Creates(w, p, now, c) {
      WritingLeavesExactly(w, p, name, now, c);
    } else {
      KeepingLeavesExactly(w, p, name, now, c);
    }
  }

  /** The recorded key is deleted iff the policy is Delete and the provider, the policy and the cloud agree;
      a refusal or a failure is reported, if the status can be patched. */
  lemma FinalizeLeavesExactly(w: World, f: Setting, c: Calls)
    ensures var (w', removed) := Finalize(w, f, c);
      var asked := f.policy == Delete && w.status.applied.Some? && f.prepared;
      var deleted := asked && f.allowed && !c.deleteKeyFails;
      && w'.live == (if deleted then w.live - Recorded(w.status) else w.live)
      && w'.status == (if asked && !deleted && !c.patchFails then w.status.(ready := false) else w.status)
      && w'.nextKey == w.nextKey
  {
  }

  /** The Secret recorded by an object. */
  predicate IsRecorded(st: Status, n: string) {
    st.applied.Some? && st.applied.value.secretRef == Some(n)
  }

  /** An owned Secret goes with the object, except the recorded one under Retain, which is disowned first. */
  lemma FinalizedSecretsExactly(w: World, f: Setting, c: Calls, n: string)
    ensures var (w', removed) := Finalize(w, f, c);
      var disowned := f.policy == Retain && IsRecorded(w.status, n) && !c.writeSecretFails;
      && (n in w'.secrets <==> n in w.secrets && (removed && w.secrets[n].owned ==> disowned))
      && (n in w'.secrets ==>
            w'.secrets[n].data == w.secrets[n].data
            && (w'.secrets[n].owned <==> w.secrets[n].owned && !disowned))
  {
  }
}

/** What holds over every run of a static CloudPrincipalAuth. */
module CredentialTheorems {
  import opened Common
  import opened StaticCredentials

  /** The condition is present iff something is applied, and True iff the Secret is recorded. */
  predicate StatusOk(st: Status, name: string) {
    && (st.configured.Some? <==> st.applied.Some?)
    && (st.configured == Some(true) <==> st.applied.Some? && st.applied.value.secretRef.Some?)
    && (st.applied.Some? && st.applied.value.secretRef.Some? ==> st.applied.value.secretRef == Some(name))
  }

  /** The credentials the persisted status remembers. */
  function Recorded(st: Status): set<nat> {
    if st.applied.Some? then {st.applied.value.credential} else {}
  }

  predicate NoOrphan(w: World) {
    w.live <= Recorded(w.status)
  }

  /** Keys are numbered in the order of their creation. */
  ghost predicate KeysOk(w: World) {
    && (forall k :: k in w.live ==> k < w.nextKey)
    && (w.status.applied.Some? ==> w.status.applied.value.credential < w.nextKey)
  }

  /** A recorded Secret whose data is neither that of the recorded key nor foreign, put there by somebody
      else, means that the recorded key is dead, and known to be. */
  ghost predicate SecretOk(w: World, p: Provider, now: int, foreign: Option<nat>) {
    var st := w.status;
    st.applied.Some? && st.applied.value.secretRef.Some? ==>
      var applied := st.applied.value;
      var ref := applied.secretRef.value;
      ref in w.secrets && w.secrets[ref].data.Some?
      && w.secrets[ref].data != Some(applied.credential) && w.secrets[ref].data != foreign ==>
        applied.credential !in w.live && !WithinGrace(p, applied, now)
  }

  /** Foreign data stays what the Secret holds until the operator writes it. */
  predicate ForeignOk(w: World, name: string, foreign: Option<nat>) {
    foreign.Some? && name in w.secrets && w.secrets[name].data.Some? ==> w.secrets[name].data == foreign
  }

  /** The cloud's answers about a key: found only if it lives, and outside the propagation grace
      period not found only if it does not. */
  predicate Truthful(w: World, p: Provider, now: int, c: Calls) {
    w.status.applied.Some? ==>
      var applied := w.status.applied.value;
      && (c.getKey == Found ==> applied.credential in w.live)
      && (c.getKey == NotFound && !WithinGrace(p, applied, now) ==> applied.credential !in w.live)
  }

  /** A key is created: for the first time, or because the recorded one was reported missing. */
  predicate Creates(w: World, p: Provider, now: int, c: Calls) {
    !c.createKeyFails &&
    match w.status.applied
    case None => true
    case Some(applied) => c.getKey == NotFound && !WithinGrace(p, applied, now)
  }

  /** The reconcile writes the Secret, with the data of the key it created. */
  predicate WritesSecret(w: World, p: Provider, name: string, now: int, c: Calls) {
    Creates(w, p, now, c) && !c.setOwnerFails && !c.writeSecretFails && (name in w.secrets ==> w.secrets[name].owned)
  }

  /** Neither recorded nor deleted again: the status patch failed, and there was no compensation,
      or the compensating deletion and its own status patch failed as well. */
  predicate Loses(c: Calls) {
    c.patchFails && (c.setOwnerFails || (c.deleteKeyFails && c.secondPatchFails))
  }

  /** The new key takes the place of the recorded one in the status. */
  predicate Records(c: Calls) {
    !c.patchFails || (!c.setOwnerFails && c.deleteKeyFails && !c.secondPatchFails)
  }

  // ----- one reconcile -----

  lemma SecretKeepsStatusOk(w: World, name: string, c: Calls, applied: Applied, data: Option<nat>)
    requires StatusOk(w.status, name) && applied.secretRef.None?
    ensures StatusOk(ReconcileSecret(w, name, c, applied, data).0.status, name)
  {
  }

  lemma ReconcileKeepsStatusOk(w: World, p: Provider, name: string, now: int, c: Calls)
    requires StatusOk(w.status, name)
    ensures StatusOk(Reconcile(w, p, name, now, c).0.status, name)
  {
    var (w', auth) := EnsureAuthentication(w, p, now, c);
    if auth.Auth? {
      var data := if auth.created then Some(auth.credential) else None;
      SecretKeepsStatusOk(w', name, c, Applied(auth.credential, None, now), data);
    }
  }

  /** The dereference of `status.applied` is always safe. */
  lemma NeverPanics(w: World, p: Provider, name: string, now: int, c: Calls)
    requires StatusOk(w.status, name)
    ensures Reconcile(w, p, name, now, c).1 != Panic
  {
  }

  /** A key is made for the first time, or in place of one that the cloud does not show and, on GCP, that
      is older than its grace period; by a truthful answer that one is dead. Otherwise the recorded key
      is used again and no key is made. */
  lemma KeyIsReplacedExactly(w: World, p: Provider, now: int, c: Calls)
    requires KeysOk(w) && EnsureAuthentication(w, p, now, c).1.Auth?
    ensures var (w', auth) := EnsureAuthentication(w, p, now, c);
      && (auth.created <==> Creates(w, p, now, c))
      && (auth.created ==> auth.credential !in w.live + Recorded(w.status) && w'.live == w.live + {auth.credential})
      && (!auth.created ==> w' == w && {auth.credential} == Recorded(w.status))
      && (auth.created && w.status.applied.Some? ==>
            && (Truthful(w, p, now, c) ==> w.status.applied.value.credential !in w.live)
            && (p.Gcp? ==> now - w.status.applied.value.createdAt >= KEY_PROPAGATION_GRACE))
  {
  }

  /** After the compensating deletion the key is dead, or it lives because the deletion failed and is then
      recorded unless the second status patch failed too; a dead key asks for another reconcile. */
  lemma CompensationExactly(w: World, c: Calls, applied: Applied, configured: bool)
    ensures var (w', outcome) := DeleteCredentials(w, c, applied, configured);
      && (applied.credential in w'.live <==> applied.credential in w.live && c.deleteKeyFails)
      && (applied.credential in w'.live && !c.secondPatchFails ==> applied.credential in Recorded(w'.status))
      && (outcome == RequeueAfterOneSecond <==> !c.deleteKeyFails)
      && w'.live + {applied.credential} == w.live + {applied.credential}
  {
  }

  /** A kept key is good only together with the data of its recorded Secret: without them it does not
      survive a reconcile whose calls succeed, and Ready is not reported. */
  lemma KeptKeyNeedsItsSecret(w: World, p: Provider, name: string, now: int, c: Calls)
    requires StatusOk(w.status, name) && w.status.applied.Some? && !Creates(w, p, now, c)
    requires !(c.getKey == Failed || (c.getKey == NotFound && !WithinGrace(p, w.status.applied.value, now)))
    requires !c.readSecretFails && !c.patchFails && !c.deleteKeyFails
    ensures var (w', outcome) := Reconcile(w, p, name, now, c);
      var good := w.status.configured == Some(true) && name in w.secrets && w.secrets[name].data.Some?;
      && (outcome == Done <==> good) && (outcome == RequeueAfterOneSecond <==> !good)
      && (good ==> w' == w.(status := w.status.(ready := true)))
      && (!good ==> w' == w.(live := w.live - Recorded(w.status)))
  {
  }

  /** A reconcile orphans a credential exactly when it loses the key it created, or replaces a
      recorded key that was still alive. */
  lemma OrphansExactly(w: World, p: Provider, name: string, now: int, c: Calls)
    requires StatusOk(w.status, name) && KeysOk(w) && NoOrphan(w)
    ensures NoOrphan(Reconcile(w, p, name, now, c).0)
       <==> !(Creates(w, p, now, c) && (Loses(c) || (Records(c) && w.live != {})))
  {
    if Creates(w, p, now, c) {
      assert w.nextKey !in w.live && w.nextKey !in Recorded(w.status);
    }
  }

  lemma SecretKeepsKeysOk(w: World, name: string, c: Calls, applied: Applied, data: Option<nat>)
    requires KeysOk(w) && applied.credential < w.nextKey
    ensures KeysOk(ReconcileSecret(w, name, c, applied, data).0)
  {
  }

  lemma ReconcileKeepsKeysOk(w: World, p: Provider, name: string, now: int, c: Calls)
    requires KeysOk(w)
    ensures KeysOk(Reconcile(w, p, name, now, c).0)
  {
    var (w', auth) := EnsureAuthentication(w, p, now, c);
    if auth.Auth? {
      var data := if auth.created then Some(auth.credential) else None;
      SecretKeepsKeysOk(w', name, c, Applied(auth.credential, None, now), data);
    }
  }

  function Made(w: World): World {
    w.(live := w.live + {w.nextKey}, nextKey := w.nextKey + 1)
  }

  /** A reconcile that creates a key goes on to write the Secret, and no other one touches it. */
  lemma CreatesOrKeeps(w: World, p: Provider, name: string, now: int, c: Calls)
    requires StatusOk(w.status, name)
    ensures Creates(w, p, now, c) ==>
      Reconcile(w, p, name, now, c) == ReconcileSecret(Made(w), name, c, Applied(w.nextKey, None, now), Some(w.nextKey))
    ensures !Creates(w, p, now, c) ==>
      var w' := Reconcile(w, p, name, now, c).0;
      && w'.secrets == w.secrets && w'.status.applied == w.status.applied
      && w.live - Recorded(w.status) <= w'.live <= w.live
  {
  }

  lemma WritingKeepsSecretOk(w: World, p: Provider, name: string, now: int, c: Calls, foreign: Option<nat>)
    requires StatusOk(w.status, name) && KeysOk(w) && ForeignOk(w, name, foreign)
    requires Creates(w, p, now, c) && Truthful(w, p, now, c) && SecretOk(w, p, now, foreign)
    ensures var w' := ReconcileSecret(Made(w), name, c, Applied(w.nextKey, None, now), Some(w.nextKey)).0;
      var left := if WritesSecret(w, p, name, now, c) then None else foreign;
      SecretOk(w', p, now, left) && ForeignOk(w', name, left)
  {
  }

  lemma ReconcileKeepsSecretOk(w: World, p: Provider, name: string, now: int, c: Calls, foreign: Option<nat>)
    requires StatusOk(w.status, name) && KeysOk(w) && SecretOk(w, p, now, foreign) && ForeignOk(w, name, foreign)
    requires Truthful(w, p, now, c)
    ensures var w' := Reconcile(w, p, name, now, c).0;
      var left := if WritesSecret(w, p, name, now, c) then None else foreign;
      SecretOk(w', p, now, left) && ForeignOk(w', name, left)
  {
    CreatesOrKeeps(w, p, name, now, c);
    if Creates(w, p, now, c) {
      WritingKeepsSecretOk(w, p, name, now, c, foreign);
    }
  }

  /** A reconcile that ends well reports Ready with a True condition over a Secret with some data. That
      data is the recorded key's iff this reconcile created the key or found the Secret with it. */
  lemma ReadyIsBackedExactly(w: World, p: Provider, name: string, now: int, c: Calls)
    requires StatusOk(w.status, name) && KeysOk(w) && Reconcile(w, p, name, now, c).1 == Done
    ensures var w' := Reconcile(w, p, name, now, c).0;
      && w'.status.ready && w'.status.configured == Some(true) && w'.status.applied.Some?
      && name in w'.secrets && w'.secrets[name].data.Some?
      && (w'.secrets[name].data == Some(w'.status.applied.value.credential)
          <==> Creates(w, p, now, c)
               || (name in w.secrets && w.secrets[name].data == Some(w.status.applied.value.credential)))
  {
  }

  // ----- runs -----

  /** What happens to a CloudPrincipalAuth: a reconcile, or somebody tampering with its Secret or
      revoking a key. */
  datatype Event =
    | Reconciled(now: int, calls: Calls)
    | SecretLost(name: string)
    | SecretEmptied(name: string)
    | SecretReplaced(name: string, owned: bool, data: Option<nat>)
    | KeyRevoked(key: nat)

  function Apply(w: World, p: Provider, name: string, e: Event): World {
    match e
    case Reconciled(now, c) => Reconcile(w, p, name, now, c).0
    case SecretLost(n) => w.(secrets := map m | m in w.secrets && m != n :: w.secrets[m])
    case SecretEmptied(n) => if n in w.secrets then w.(secrets := w.secrets[n := w.secrets[n].(data := None)]) else w
    case SecretReplaced(n, owned, data) => w.(secrets := w.secrets[n := Secret(owned, data)])
    case KeyRevoked(k) => w.(live := w.live - {k})
  }

  const FirstSight := World(Status(None, None, false), {}, 0, map[])

  function After(p: Provider, name: string, events: seq<Event>): World {
    if events == [] then FirstSight else Apply(After(p, name, events[..|events| - 1]), p, name, events[|events| - 1])
  }

  /** The clock shown by the last reconcile. */
  function Clock(events: seq<Event>, start: int): int {
    if events == [] then start
    else if events[|events| - 1].Reconciled? then events[|events| - 1].now
    else Clock(events[..|events| - 1], start)
  }

  /** Time does not run backwards, and the cloud answers truthfully. */
  predicate Plausible(p: Provider, name: string, events: seq<Event>, start: int) {
    events == [] ||
    var init, e := events[..|events| - 1], events[|events| - 1];
    && Plausible(p, name, init, start)
    && (e.Reconciled? ==> Clock(init, start) <= e.now && Truthful(After(p, name, init), p, e.now, e.calls))
  }

  /** Event `i` is a reconcile that makes a key and loses it. */
  predicate LosesItsKey(p: Provider, name: string, events: seq<Event>, i: nat)
    requires i < |events|
  {
    events[i].Reconciled?
    && Creates(After(p, name, events[..i]), p, events[i].now, events[i].calls) && Loses(events[i].calls)
  }

  ghost predicate Careful(p: Provider, name: string, events: seq<Event>) {
    forall i :: 0 <= i < |events| ==> !LosesItsKey(p, name, events, i)
  }

  /** What somebody else last put into the Secret, unless the operator wrote it since. */
  function ForeignData(p: Provider, name: string, events: seq<Event>): Option<nat> {
    if events == [] then None
    else
      var init, e := events[..|events| - 1], events[|events| - 1];
      if e.SecretReplaced? && e.name == name then e.data
      else if e.Reconciled? && WritesSecret(After(p, name, init), p, name, e.now, e.calls) then None
      else ForeignData(p, name, init)
  }

  ghost predicate RunOk(w: World, p: Provider, name: string, now: int, foreign: Option<nat>) {
    StatusOk(w.status, name) && KeysOk(w) && SecretOk(w, p, now, foreign) && ForeignOk(w, name, foreign)
  }

  lemma {:induction false} RunKeepsOk(p: Provider, name: string, events: seq<Event>, start: int)
    requires Plausible(p, name, events, start)
    ensures RunOk(After(p, name, events), p, name, Clock(events, start), ForeignData(p, name, events))
  {
    if events != [] {
      var init, e := events[..|events| - 1], events[|events| - 1];
      var w := After(p, name, init);
      RunKeepsOk(p, name, init, start);
      if e.Reconciled? {
        var foreign := ForeignData(p, name, init);
        assert SecretOk(w, p, e.now, foreign);
        ReconcileKeepsStatusOk(w, p, name, e.now, e.calls);
        ReconcileKeepsKeysOk(w, p, name, e.now, e.calls);
        ReconcileKeepsSecretOk(w, p, name, e.now, e.calls, foreign);
      }
    }
  }

  lemma CarefulSnoc(p: Provider, name: string, events: seq<Event>)
    requires events != []
    ensures var n := |events| - 1;
      Careful(p, name, events) <==> Careful(p, name, events[..n]) && !LosesItsKey(p, name, events, n)
  {
    var init := events[..|events| - 1];
    forall i | 0 <= i < |init| ensures LosesItsKey(p, name, init, i) <==> LosesItsKey(p, name, events, i) {
      assert init[..i] == events[..i];
    }
  }

  /** A reconcile after which nothing is orphaned, if nothing was: it did not lose the key it made. */
  lemma OrphansIffLost(w: World, p: Provider, name: string, now: int, c: Calls)
    requires StatusOk(w.status, name) && KeysOk(w) && NoOrphan(w) && Truthful(w, p, now, c)
    ensures NoOrphan(Reconcile(w, p, name, now, c).0) <==> !(Creates(w, p, now, c) && Loses(c))
  {
    OrphansExactly(w, p, name, now, c);
  }

  /** What is lost stays lost: no later reconcile records or deletes an orphaned key. */
  lemma OrphanStays(w: World, p: Provider, name: string, now: int, c: Calls)
    requires StatusOk(w.status, name) && KeysOk(w) && !NoOrphan(w)
    ensures !NoOrphan(Reconcile(w, p, name, now, c).0)
  {
    var lost :| lost in w.live && lost !in Recorded(w.status);
    CreatesOrKeeps(w, p, name, now, c);
    if Creates(w, p, now, c) {
      WritingKeepsOthers(Made(w), name, c, Applied(w.nextKey, None, now), Some(w.nextKey), lost);
    }
    assert lost in Reconcile(w, p, name, now, c).0.live;
  }

  lemma WritingKeepsOthers(w: World, name: string, c: Calls, applied: Applied, data: Option<nat>, other: nat)
    requires other != applied.credential && other !in Recorded(w.status)
    ensures var w' := ReconcileSecret(w, name, c, applied, data).0;
      (other in w'.live <==> other in w.live) && other !in Recorded(w'.status)
  {
  }

  /** No credential is orphaned: the live keys are among the recorded one, after every run in which no
      reconcile makes a key and loses it, whatever else fails. */
  lemma {:induction false} RunOrphansNothing(p: Provider, name: string, events: seq<Event>, start: int)
    requires Plausible(p, name, events, start) && Careful(p, name, events)
    ensures NoOrphan(After(p, name, events))
  {
    if events != [] {
      var init, e := events[..|events| - 1], events[|events| - 1];
      RunKeepsOk(p, name, init, start);
      CarefulSnoc(p, name, events);
      RunOrphansNothing(p, name, init, start);
      if e.Reconciled? {
        OrphansIffLost(After(p, name, init), p, name, e.now, e.calls);
      }
    }
  }

  /** And only so, as long as nobody revokes the orphan. */
  lemma {:induction false} RunOrphansExactly(p: Provider, name: string, events: seq<Event>, start: int)
    requires Plausible(p, name, events, start) && forall i :: 0 <= i < |events| ==> !events[i].KeyRevoked?
    ensures NoOrphan(After(p, name, events)) <==> Careful(p, name, events)
  {
    if events != [] {
      var init, e := events[..|events| - 1], events[|events| - 1];
      var w := After(p, name, init);
      RunKeepsOk(p, name, init, start);
      CarefulSnoc(p, name, events);
      RunOrphansExactly(p, name, init, start);
      if e.Reconciled? {
        if NoOrphan(w) {
          OrphansIffLost(w, p, name, e.now, e.calls);
        } else {
          OrphanStays(w, p, name, e.now, e.calls);
        }
      }
    }
  }

  /** Whenever a reconcile of any run ends well, the Secret holds the recorded key's data iff this
      reconcile created the key or nobody else's other data is what the Secret was last given. */
  lemma RunReadyIsBackedExactly(p: Provider, name: string, events: seq<Event>, start: int, now: int, c: Calls)
    requires Plausible(p, name, events + [Reconciled(now, c)], start)
    ensures var w := After(p, name, events); var (w', outcome) := Reconcile(w, p, name, now, c);
      && outcome != Panic
      && (outcome == Done ==>
            && w'.status.ready && w'.status.configured == Some(true) && w'.status.applied.Some?
            && name in w'.secrets && w'.secrets[name].data.Some?
            && var key := w'.status.applied.value.credential; var foreign := ForeignData(p, name, events);
               (w'.secrets[name].data == Some(key) <==> Creates(w, p, now, c) || foreign.None? || foreign == Some(key)))
  {
    var all := events + [Reconciled(now, c)];
    assert all[..|all| - 1] == events;
    RunKeepsOk(p, name, events, start);
    var w := After(p, name, events);
    NeverPanics(w, p, name, now, c);
    if Reconcile(w, p, name, now, c).1 == Done {
      ReadyIsBackedExactly(w, p, name, now, c);
    }
  }

  /** Along runs in which nobody else puts data into the Secret, Ready is always backed. */
  lemma RunReadyIsBacked(p: Provider, name: string, events: seq<Event>, start: int, now: int, c: Calls)
    requires Plausible(p, name, events + [Reconciled(now, c)], start)
    requires forall i :: 0 <= i < |events| ==> !(events[i].SecretReplaced? && events[i].name == name)
    requires Reconcile(After(p, name, events), p, name, now, c).1 == Done
    ensures var w := After(p, name, events + [Reconciled(now, c)]);
      && w.status.ready && w.status.configured == Some(true) && w.status.applied.Some?
      && name in w.secrets && w.secrets[name].data == Some(w.status.applied.value.credential)
  {
    var all := events + [Reconciled(now, c)];
    assert all[..|all| - 1] == events;
    NothingForeign(p, name, events);
    RunReadyIsBackedExactly(p, name, events, start, now, c);
  }

  lemma {:induction false} NothingForeign(p: Provider, name: string, events: seq<Event>)
    requires forall i :: 0 <= i < |events| ==> !(events[i].SecretReplaced? && events[i].name == name)
    ensures ForeignData(p, name, events) == None
  {
    if events != [] {
      NothingForeign(p, name, events[..|events| - 1]);
    }
  }

  /** The way to lose a key: the first status patch, the compensating deletion and the second status
      patch all fail. */
  lemma KeyCanBeLost(p: Provider, name: string, now: int)
    ensures var c := Calls(NotFound, false, false, false, false, true, true, true);
      !NoOrphan(After(p, name, [Reconciled(now, c)]))
  {
    var c := Calls(NotFound, false, false, false, false, true, true, true);
    assert After(p, name, []) == FirstSight;
    assert [Reconciled(now, c)][..0] == [];
    OrphansExactly(FirstSight, p, name, now, c);
  }

  /** The controller trusts the Secret's name: after a first reconcile somebody replaces the Secret, and
      the second reconcile reports Ready over the foreign data. */
  lemma ForeignSecretPasses(p: Provider, name: string, now: int, foreign: nat)
    requires foreign != 0
    ensures var kept := Calls(Found, false, false, false, false, false, false, false);
      var replaced := SecretReplaced(name, false, Some(foreign));
      var w := After(p, name, [Reconciled(now, kept), replaced, Reconciled(now, kept)]);
      && w.status.ready && w.status.applied == Some(Applied(0, Some(name), now)) && 0 in w.live
      && name in w.secrets && w.secrets[name].data == Some(foreign)
  {
    var kept := Calls(Found, false, false, false, false, false, false, false);
    var e1, e2 := Reconciled(now, kept), SecretReplaced(name, false, Some(foreign));
    assert [e1, e2, e1][..2] == [e1, e2] && [e1, e2][..1] == [e1] && [e1][..0] == [];
    assert After(p, name, []) == FirstSight;
    var w1 := After(p, name, [e1]);
    var status := Status(Some(Applied(0, Some(name), now)), Some(true), true);
    assert w1 == World(status, {0}, 1, map[name := Secret(true, Some(0))]);
    assert After(p, name, [e1, e2]) == w1.(secrets := map[name := Secret(false, Some(foreign))]);
  }

  // ----- finalization -----

  /** Under Delete nothing survives the object; under Retain the key and the Secret do. */
  lemma FinalizeSettles(w: World, f: Setting, c: Calls, name: string)
    requires NoOrphan(w) && StatusOk(w.status, name) && Finalize(w, f, c).1
    ensures var w' := Finalize(w, f, c).0;
      && (f.policy == Delete ==> w'.live == {})
      && (f.policy == Delete ==> forall n :: n in w'.secrets ==> n in w.secrets && !w.secrets[n].owned)
      && (f.policy == Retain ==> w'.live == w.live)
      && (f.policy == Retain && w.status.configured == Some(true) && name in w.secrets ==>
            name in w'.secrets && w'.secrets[name].data == w.secrets[name].data)
  {
  }

  /** The finalizer goes exactly when its update succeeds and nothing is recorded, or the retained Secret
      could be disowned, or the provider was ready, the policy allowed it and the cloud deleted the
      recorded key. Otherwise the record stays, and no key is orphaned. */
  lemma FinalizesExactly(w: World, f: Setting, c: Calls)
    ensures Finalize(w, f, c).1 <==>
      !f.updateFails
      && (w.status.applied.None?
          || (f.policy == Retain && (w.status.applied.value.secretRef.None? || !c.writeSecretFails))
          || (f.policy == Delete && f.prepared && f.allowed && !c.deleteKeyFails))
    ensures f.policy == Retain ==> Finalize(w, f, c).0.live == w.live
    ensures !Finalize(w, f, c).1 ==>
      Recorded(Finalize(w, f, c).0.status) == Recorded(w.status) && (NoOrphan(w) ==> NoOrphan(Finalize(w, f, c).0))
  {
  }
}

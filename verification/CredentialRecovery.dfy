/** A CloudPrincipalAuth whose Secret is missing or empty recovers, and how soon. */
module CredentialRecovery {
  import opened Common
  import opened StaticCredentials
  import opened CredentialTheorems

  /** Nothing is recorded yet, or the recorded Secret is missing, empty, or was never written. */
  predicate Broken(w: World) {
    match w.status.applied
    case None => true
    case Some(applied) =>
      applied.secretRef.None?
      || applied.secretRef.value !in w.secrets
      || w.secrets[applied.secretRef.value].data.None?
  }

  predicate NameFree(w: World, name: string) {
    name in w.secrets ==> w.secrets[name].owned
  }

  /** Calls that succeed, with the cloud's truthful answer; `lag` lets it deny a fresh key. */
  function Healthy(w: World, p: Provider, now: int, lag: bool): Calls {
    var answer :=
      match w.status.applied
      case None => NotFound
      case Some(applied) =>
        if applied.credential !in w.live || (lag && WithinGrace(p, applied, now)) then NotFound else Found;
    Calls(answer, false, false, false, false, false, false, false)
  }

  /** The seconds until the recorded key leaves its grace period. */
  function Remaining(w: World, p: Provider, now: int): nat {
    match w.status.applied
    case None => 0
    case Some(applied) =>
      if WithinGrace(p, applied, now) then applied.createdAt + KEY_PROPAGATION_GRACE - now else 0
  }

  /** Each reconcile at `times[i]` either recovers or asks to be run again. */
  predicate Recovers(w: World, p: Provider, name: string, times: seq<int>, lags: seq<bool>)
    requires |times| == |lags|
    decreases |times|
  {
    times != [] &&
    var (w', outcome) := Reconcile(w, p, name, times[0], Healthy(w, p, times[0], lags[0]));
    || (outcome == Done && w'.status.ready && w'.status.configured == Some(true) && !Broken(w'))
    || (outcome == RequeueAfterOneSecond && Recovers(w', p, name, times[1..], lags[1..]))
  }

  predicate Spaced(times: seq<int>) {
    forall i :: 0 <= i < |times| - 1 ==> times[i] + 1 <= times[i + 1]
  }

  function Alive(w: World): nat {
    if w.status.applied.Some? && w.status.applied.value.credential in w.live then 1 else 0
  }

  /** From any broken state the auth is ready after at most two reconciles more than the seconds left
      of the grace period, whatever the cloud denies meanwhile. */
  lemma {:induction false} RecoversInTime(w: World, p: Provider, name: string, times: seq<int>, lags: seq<bool>)
    requires StatusOk(w.status, name) && Broken(w) && NameFree(w, name)
    requires |times| == |lags| && Spaced(times)
    requires |times| > 0 && |times| >= Remaining(w, p, times[0]) + Alive(w) + 1
    ensures Recovers(w, p, name, times, lags)
    decreases |times|
  {
    var c := Healthy(w, p, times[0], lags[0]);
    var (w', outcome) := Reconcile(w, p, name, times[0], c);
    if outcome == RequeueAfterOneSecond {
      assert w'.status == w.status && w'.secrets == w.secrets && Alive(w') == 0;
      if |times| > 1 {
        assert times[1..][0] == times[1];
        RecoversInTime(w', p, name, times[1..], lags[1..]);
      }
    }
  }
}

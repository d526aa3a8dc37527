/** What the steps of a run tell about its last state. */
module FinalizerHistory {
  import opened FinalizerProtocol
  import opened FinalizerInvariant

  /** Step `j` edits the spec of the object under `k`. */
  ghost predicate Edits(steps: seq<Step>, j: nat, k: Key) {
    j < |steps| && IsRun(steps[..j]) && steps[j].EditSpec? && steps[j].k == k && k in After(steps[..j]).objects
  }

  /** Step `j` points incarnation `uid` of `k` elsewhere, after `r` such edits. */
  ghost predicate Redirects(steps: seq<Step>, j: nat, k: Key, uid: nat, r: nat) {
    Edits(steps, j, k)
    && var o := After(steps[..j]).objects[k]; o.uid == uid && o.redirects == r && steps[j].refs != o.refs
  }

  ghost predicate ChangesPolicy(steps: seq<Step>, j: nat, k: Key) {
    Edits(steps, j, k) && steps[j].policy != After(steps[..j]).objects[k].policy
  }

  /** Step `g` is where the last reconcile of `k` read its object. */
  ghost predicate LastGet(steps: seq<Step>, g: nat, k: Key) {
    g < |steps| && steps[g] == Get(k) && forall i :: g < i < |steps| ==> steps[i] != Get(k)
  }

  ghost predicate LastChange(steps: seq<Step>, g: nat, j: nat, k: Key) {
    g < j < |steps| && ChangesPolicy(steps, j, k) && forall i :: j < i < |steps| ==> !ChangesPolicy(steps, i, k)
  }

  // ----- redirections -----

  ghost predicate IsRedirect(s: State, step: Step, k: Key) {
    step.EditSpec? && step.k == k && k in s.objects && step.refs != s.objects[k].refs
  }

  lemma StepRedirects(s: State, step: Step, k: Key)
    requires Enabled(s, step) && k in Apply(s, step).objects && Apply(s, step).objects[k].redirects > 0
    ensures var t := Apply(s, step);
      && k in s.objects && s.objects[k].uid == t.objects[k].uid
      && t.objects[k].redirects == s.objects[k].redirects + if IsRedirect(s, step, k) then 1 else 0
  {
  }

  /** The object under `k` after a run, seen from before its last step. */
  lemma LastRedirect(init: seq<Step>, step: Step, k: Key)
    requires IsRun(init) && Enabled(After(init), step)
    requires k in Apply(After(init), step).objects && Apply(After(init), step).objects[k].redirects > 0
    ensures var s, t := After(init), Apply(After(init), step);
      && k in s.objects && s.objects[k].uid == t.objects[k].uid
      && (t.objects[k].redirects == s.objects[k].redirects
          || (t.objects[k].redirects == s.objects[k].redirects + 1
              && Redirects(init + [step], |init|, k, t.objects[k].uid, s.objects[k].redirects)))
  {
    StepRedirects(After(init), step, k);
    assert (init + [step])[..|init|] == init;
  }

  /** The edits of the references are all in the run, one after the other. */
  lemma {:induction false} RedirectOrigin(steps: seq<Step>, k: Key, r: nat)
    requires IsRun(steps) && k in After(steps).objects && After(steps).objects[k].redirects > r
    ensures exists j: nat :: Redirects(steps, j, k, After(steps).objects[k].uid, r)
    decreases |steps|
  {
    if steps != [] {
      var n: nat := |steps| - 1;
      var init, uid := steps[..n], After(steps).objects[k].uid;
      assert steps == init + [steps[n]];
      LastRedirect(init, steps[n], k);
      if After(init).objects[k].redirects > r {
        RedirectOrigin(init, k, r);
        var j: nat :| Redirects(init, j, k, uid, r);
        assert init[..j] == steps[..j];
        assert Redirects(steps, j, k, uid, r);
      } else {
        assert Redirects(steps, n, k, uid, r);
      }
    }
  }

  // ----- policies -----

  /** The reconcile of `k` goes on across a step: it works on the same incarnation and policy, and the
      stored policy changes only by an edit. */
  ghost predicate GoesOn(s: State, t: State, step: Step, k: Key) {
    !PcOf(s, k).Idle? && !PcOf(t, k).Idle?
    && PcOf(t, k).o.uid == PcOf(s, k).o.uid && PcOf(t, k).o.policy == PcOf(s, k).o.policy
    && Exists(s, k, PcOf(s, k).o) && Exists(t, k, PcOf(t, k).o)
    && t.objects[k].policy == if step.EditSpec? && step.k == k then step.policy else s.objects[k].policy
  }

  lemma StepGoesOn(s: State, step: Step, k: Key)
    requires PcOk(s, k) && Enabled(s, step) && step != Get(k)
    requires !PcOf(Apply(s, step), k).Idle? && Exists(Apply(s, step), k, PcOf(Apply(s, step), k).o)
    ensures GoesOn(s, Apply(s, step), step, k)
  {
    SnapshotStays(s, step, k);
  }

  lemma RunGoesOn(init: seq<Step>, step: Step, k: Key)
    requires IsRun(init) && IsRun(init + [step]) && step != Get(k)
    requires var t := After(init + [step]); !PcOf(t, k).Idle? && Exists(t, k, PcOf(t, k).o)
    ensures GoesOn(After(init), After(init + [step]), step, k)
  {
    assert (init + [step])[..|init|] == init;
    RunKeepsInv(init);
    assert PcOk(After(init), k);
    StepGoesOn(After(init), step, k);
  }

  lemma ChangesHere(init: seq<Step>, step: Step, k: Key)
    requires IsRun(init) && k in After(init).objects
    ensures ChangesPolicy(init + [step], |init|, k)
       <==> step.EditSpec? && step.k == k && step.policy != After(init).objects[k].policy
  {
    assert (init + [step])[..|init|] == init;
  }

  /** Only a Get starts a reconcile, and nothing else changes the uid and the policy it read. */
  lemma SnapshotStays(s: State, step: Step, k: Key)
    requires PcOk(s, k) && Enabled(s, step) && step != Get(k) && !PcOf(Apply(s, step), k).Idle?
    ensures !PcOf(s, k).Idle?
    ensures PcOf(Apply(s, step), k).o.uid == PcOf(s, k).o.uid
    ensures PcOf(Apply(s, step), k).o.policy == PcOf(s, k).o.policy
  {
  }

  /** What `PolicySince` says of a run. */
  ghost predicate PolicyIsOf(steps: seq<Step>, k: Key, g: nat, read: DeletionPolicy, stored: DeletionPolicy) {
    ((forall j: nat :: g < j < |steps| ==> !ChangesPolicy(steps, j, k)) ==> stored == read)
    && (forall j: nat :: LastChange(steps, g, j, k) ==> stored == steps[j].policy)
  }

  /** One step more, which changes the policy or does not. */
  lemma OneMore(steps: seq<Step>, step: Step, k: Key, g: nat,
                read: DeletionPolicy, before: DeletionPolicy, after: DeletionPolicy)
    requires g < |steps| && PolicyIsOf(steps, k, g, read, before)
    requires ChangesPolicy(steps + [step], |steps|, k) <==> before != after
    requires before != after ==> step.EditSpec? && step.policy == after
    ensures PolicyIsOf(steps + [step], k, g, read, after)
  {
    var all := steps + [step];
    forall j: nat | j < |steps| ensures ChangesPolicy(all, j, k) <==> ChangesPolicy(steps, j, k) {
      assert all[..j] == steps[..j];
    }
    forall j: nat | LastChange(all, g, j, k) ensures after == all[j].policy {
      if j < |steps| {
        assert LastChange(steps, g, j, k);
      }
    }
  }

  /** The stored policy is the one the reconcile in flight read, or the one of the last change since. */
  lemma {:induction false} PolicySince(steps: seq<Step>, k: Key, g: nat)
    requires IsRun(steps) && LastGet(steps, g, k) && !PcOf(After(steps), k).Idle?
    requires Exists(After(steps), k, PcOf(After(steps), k).o)
    ensures PolicyIsOf(steps, k, g, PcOf(After(steps), k).o.policy, After(steps).objects[k].policy)
    decreases |steps|
  {
    var n: nat := |steps| - 1;
    if g < n {
      var init, step := steps[..n], steps[n];
      assert steps == init + [step];
      var s, t := After(init), After(steps);
      RunGoesOn(init, step, k);
      PolicySince(init, k, g);
      ChangesHere(init, step, k);
      OneMore(init, step, k, g, PcOf(s, k).o.policy, s.objects[k].policy, t.objects[k].policy);
    }
  }

  lemma LatestChange(steps: seq<Step>, g: nat, end: nat, k: Key) returns (j: nat)
    requires end <= |steps| && exists i: nat :: g < i < end && ChangesPolicy(steps, i, k)
    requires forall i: nat :: end <= i < |steps| ==> !ChangesPolicy(steps, i, k)
    ensures LastChange(steps, g, j, k)
  {
    if ChangesPolicy(steps, end - 1, k) {
      j := end - 1;
    } else {
      j := LatestChange(steps, g, end - 1, k);
    }
  }

  lemma OnlyGetStarts(s: State, step: Step, k: Key)
    requires Enabled(s, step) && step != Get(k) && !PcOf(Apply(s, step), k).Idle?
    ensures !PcOf(s, k).Idle?
  {
  }

  /** The reconcile in flight started with some Get. */
  lemma {:induction false} ReconcileHasAGet(steps: seq<Step>, k: Key) returns (g: nat)
    requires IsRun(steps) && !PcOf(After(steps), k).Idle?
    ensures LastGet(steps, g, k)
    decreases |steps|
  {
    var n := |steps| - 1;
    if steps[n] == Get(k) {
      g := n;
    } else {
      OnlyGetStarts(After(steps[..n]), steps[n], k);
      g := ReconcileHasAGet(steps[..n], k);
    }
  }
}

/** What every run of the finalizer protocol guarantees, and two things it does not. */
module FinalizerTheorems {
  import opened Common
  import opened FinalizerProtocol
  import opened FinalizerInvariant
  import opened FinalizerHistory

  /** The status of `k` names an external resource, or a reconcile of `k` may still create one. */
  ghost predicate UsesRef(s: State, k: Key, i: nat, u: nat) {
    var pc := PcOf(s, k);
    k in s.objects &&
    (  (s.objects[k].record.Some? && i < |s.objects[k].record.value.deps| && s.objects[k].record.value.deps[i] == u)
    || (((pc.Reading? && pc.ready) || pc.Ensured?) && i < |pc.seen| && pc.seen[i] == u))
  }

  /** The object is stored, and its controller has neither requested the external deletion nor got
      past its search for references of kind `kind`. */
  ghost predicate Alive(s: State, d: Key, u: nat, kind: Kind) {
    d in s.objects && s.objects[d].uid == u && u !in s.issued && !Cleared(PcOf(s, d), kind)
  }

  /** A Bucket outlives every applied or in-flight BucketAccess, under every interleaving. */
  lemma BucketOutlivesAccess(steps: seq<Step>, a: Key, u: nat)
    requires IsRun(steps) && a.kind == BucketAccess && UsesRef(After(steps), a, 0, u)
    ensures var refs := After(steps).objects[a].refs; |refs| > 0 && Alive(After(steps), refs[0], u, BucketAccess)
  {
    ImmutableRefOutlives(steps, a, u);
  }

  /** A CloudPrincipal outlives every applied or in-flight CloudPrincipalAuth. */
  lemma PrincipalOutlivesAuth(steps: seq<Step>, a: Key, u: nat)
    requires IsRun(steps) && a.kind == CloudPrincipalAuth && UsesRef(After(steps), a, 0, u)
    ensures var refs := After(steps).objects[a].refs; |refs| > 0 && Alive(After(steps), refs[0], u, CloudPrincipalAuth)
  {
    ImmutableRefOutlives(steps, a, u);
  }

  lemma ImmutableRefOutlives(steps: seq<Step>, a: Key, u: nat)
    requires IsRun(steps) && UsesRef(After(steps), a, 0, u)
    ensures |After(steps).objects[a].refs| > 0
    ensures Alive(After(steps), After(steps).objects[a].refs[0], u, a.kind)
  {
    var s := After(steps);
    RunKeepsInv(steps);
    assert PcOk(s, a);
    assert Holds(s, a, 0, u);
  }

  /** The CloudPrincipal of a BucketAccess, whose reference is mutable, is safe until the reference is
      edited. */
  lemma PrincipalOutlivesUneditedAccess(steps: seq<Step>, a: Key, u: nat)
    requires IsRun(steps) && a.kind == BucketAccess && Holds(After(steps), a, 1, u)
    ensures Alive(After(steps), After(steps).objects[a].refs[1], u, BucketAccess)
  {
    RunKeepsInv(steps);
  }

  /** As `UsesRef`, with the number of edits of the references there had been when `u` was read. */
  ghost predicate UsesRefSince(s: State, k: Key, i: nat, u: nat, redirects: nat) {
    var pc := PcOf(s, k);
    k in s.objects &&
    (  (s.objects[k].record.Some? && s.objects[k].record.value.redirects == redirects
        && i < |s.objects[k].record.value.deps| && s.objects[k].record.value.deps[i] == u)
    || (((pc.Reading? && pc.ready) || pc.Ensured?) && pc.o.redirects == redirects
        && i < |pc.seen| && pc.seen[i] == u))
  }

  lemma UsesRefHasASince(s: State, k: Key, i: nat, u: nat)
    ensures UsesRef(s, k, i, u) <==> exists r: nat :: UsesRefSince(s, k, i, u, r)
  {
    if UsesRef(s, k, i, u) {
      var pc := PcOf(s, k);
      var o := s.objects[k];
      if o.record.Some? && i < |o.record.value.deps| && o.record.value.deps[i] == u {
        assert UsesRefSince(s, k, i, u, o.record.value.redirects);
      } else {
        assert UsesRefSince(s, k, i, u, pc.o.redirects);
      }
    }
  }

  lemma PrincipalOutlivesSince(steps: seq<Step>, a: Key, u: nat, r: nat)
    requires IsRun(steps) && a.kind == BucketAccess && UsesRefSince(After(steps), a, 1, u, r)
    ensures var s := After(steps);
      && |s.objects[a].refs| == 2
      && (Alive(s, s.objects[a].refs[1], u, BucketAccess)
          || exists j: nat :: Redirects(steps, j, a, s.objects[a].uid, r))
  {
    var s := After(steps);
    RunKeepsInv(steps);
    assert PcOk(s, a);
    if s.objects[a].redirects == r {
      assert Holds(s, a, 1, u);
    } else {
      RedirectOrigin(steps, a, r);
    }
  }

  /** Whatever else happens to an access, edits of its spec included, the principal it uses is alive,
      unless a step of the run redirected the reference after the principal was read. */
  lemma PrincipalOutlivesUntilRedirected(steps: seq<Step>, a: Key, u: nat)
    requires IsRun(steps) && a.kind == BucketAccess && UsesRef(After(steps), a, 1, u)
    ensures var s := After(steps);
      && |s.objects[a].refs| == 2
      && (Alive(s, s.objects[a].refs[1], u, BucketAccess)
          || exists r: nat, j: nat :: UsesRefSince(s, a, 1, u, r) && Redirects(steps, j, a, s.objects[a].uid, r))
  {
    UsesRefHasASince(After(steps), a, 1, u);
    var r: nat :| UsesRefSince(After(steps), a, 1, u, r);
    PrincipalOutlivesSince(steps, a, u, r);
  }

  /** A finalizer goes only with a terminating object whose current policy is not Delete, or that
      recorded nothing, or whose recorded resource this very reconcile deleted from the cloud. */
  lemma FinalizerSafety(steps: seq<Step>, k: Key)
    requires IsRun(steps) && Enabled(After(steps), RemoveFinalizer(k))
    ensures var s := After(steps); var o := s.objects[k];
      && o == PcOf(s, k).o && o.terminating && o.finalizer
      && (o.policy == Delete && o.record.Some? ==> PcOf(s, k).deleted && o.uid in s.deleted)
      && (PcOf(s, k).deleted ==> o.policy == Delete)
  {
    RunKeepsInv(steps);
    assert PcOk(After(steps), k);
  }

  /** What is stored is alive or held by some finalizer. */
  lemma {:induction false} NothingGoneIsStored(steps: seq<Step>, k: Key)
    requires IsRun(steps) && k in After(steps).objects
    ensures !Gone(After(steps).objects[k])
  {
    if steps != [] {
      var init, last := steps[..|steps| - 1], steps[|steps| - 1];
      if k in After(init).objects {
        NothingGoneIsStored(init, k);
      }
      StepFrame(After(init), last);
    }
  }

  predicate Deletes(step: Step, k: Key) {
    step == UserDelete(k) || step == DeleteSelf(k)
  }

  /** After this step the object is terminating and nobody holds it. */
  predicate LetsGo(o: Object, step: Step, k: Key) {
    && (o.terminating || Deletes(step, k))
    && (!o.finalizer || step == RemoveFinalizer(k))
    && (!o.foreign || step == SetForeign(k, false)) && step != SetForeign(k, true)
  }

  lemma OtherStepLetsGo(s: State, step: Step, k: Key)
    requires Enabled(s, step) && step.k != k && k in s.objects && !Gone(s.objects[k])
    ensures k !in Apply(s, step).objects <==> LetsGo(s.objects[k], step, k)
  {
    StepFrame(s, step);
  }

  /** The finalizer is put on what is live: the update succeeds only at the version that was read. */
  lemma HeldIsLive(steps: seq<Step>, step: Step)
    requires IsRun(steps) && Enabled(After(steps), step)
    ensures var s := After(steps);
      step.AddFinalizer? && !PcOf(s, step.k).o.finalizer ==> !s.objects[step.k].terminating
  {
    RunKeepsInv(steps);
    assert PcOk(After(steps), step.k);
  }

  lemma UserStepLetsGo(s: State, step: Step)
    requires Enabled(s, step) && IsUserStep(step) && step.k in s.objects && !Gone(s.objects[step.k])
    ensures step.k !in Apply(s, step).objects <==> LetsGo(s.objects[step.k], step, step.k)
  {
  }

  lemma ReconcileStepLetsGo(s: State, step: Step)
    requires Enabled(s, step) && !IsUserStep(step) && step.k in s.objects && !Gone(s.objects[step.k])
    requires step.AddFinalizer? && !PcOf(s, step.k).o.finalizer ==> !s.objects[step.k].terminating
    ensures step.k !in Apply(s, step).objects <==> LetsGo(s.objects[step.k], step, step.k)
  {
  }

  /** An object vanishes with the step after which it is terminating and neither the operator nor anybody else
      holds it, and with no other. */
  lemma VanishesExactly(steps: seq<Step>, step: Step, k: Key)
    requires IsRun(steps) && Enabled(After(steps), step) && k in After(steps).objects
    ensures k !in Apply(After(steps), step).objects <==> LetsGo(After(steps).objects[k], step, k)
  {
    NothingGoneIsStored(steps, k);
    if step.k != k {
      OtherStepLetsGo(After(steps), step, k);
    } else if IsUserStep(step) {
      UserStepLetsGo(After(steps), step);
    } else {
      HeldIsLive(steps, step);
      ReconcileStepLetsGo(After(steps), step);
    }
  }

  /** Nothing is ever deleted from the cloud whose policy was never Delete. */
  lemma RetainNeverDeletes(steps: seq<Step>, u: nat)
    requires IsRun(steps) && u in After(steps).issued
    ensures exists j :: 0 <= j < |steps| && IsRun(steps[..j]) && SetsDeletePolicy(After(steps[..j]), steps[j], u)
  {
    RunKeepsInv(steps);
    DeletePolicyHasAnOrigin(steps, u);
  }

  ghost predicate SetsDeletePolicy(s: State, step: Step, u: nat) {
    || (step.Create? && step.policy == Delete && u == s.nextUid)
    || (step.EditSpec? && step.policy == Delete && step.k in s.objects && u == s.objects[step.k].uid)
  }

  lemma StepSetsPolicy(s: State, step: Step, u: nat)
    requires Enabled(s, step) && u in Apply(s, step).everDelete && u !in s.everDelete
    ensures SetsDeletePolicy(s, step, u)
  {
  }

  lemma {:induction false} DeletePolicyHasAnOrigin(steps: seq<Step>, u: nat)
    requires IsRun(steps) && u in After(steps).everDelete
    ensures exists j :: 0 <= j < |steps| && IsRun(steps[..j]) && SetsDeletePolicy(After(steps[..j]), steps[j], u)
    decreases |steps|
  {
    var n := |steps| - 1;
    if n >= 0 {
      var init := steps[..n];
      if u in After(init).everDelete {
        DeletePolicyHasAnOrigin(init, u);
        var j :| 0 <= j < n && IsRun(init[..j]) && SetsDeletePolicy(After(init[..j]), init[j], u);
        assert init[..j] == steps[..j];
      } else {
        StepSetsPolicy(After(init), steps[n], u);
      }
    }
  }

  /** At a request to delete the external resource the stored policy is another one iff the last edit
      that changed it, since this reconcile read the object, took Delete away. */
  lemma CloudDeleteIsStaleExactly(steps: seq<Step>, k: Key, ok: bool, g: nat)
    requires IsRun(steps) && Enabled(After(steps), CloudDelete(k, ok)) && LastGet(steps, g, k)
    ensures k in After(steps).objects && After(steps).objects[k].terminating
    ensures After(steps).objects[k].policy != Delete
       <==> exists j: nat :: LastChange(steps, g, j, k) && steps[j].policy != Delete
  {
    RunKeepsInv(steps);
    assert PcOk(After(steps), k);
    PolicySince(steps, k, g);
    if exists j: nat :: g < j < |steps| && ChangesPolicy(steps, j, k) {
      var last := LatestChange(steps, g, |steps|, k);
    }
  }

  lemma LiveIsNotIssued(s: State, k: Key)
    requires Inv(s) && (Enabled(s, CloudEnsure(k)) || Enabled(s, PatchReady(k)))
    ensures Exists(s, k, PcOf(s, k).o) && s.objects[k].uid !in s.issued
  {
    assert PcOk(s, k);
  }

  /** No controller re-creates an external resource whose deletion was requested. */
  lemma NoEnsureAfterDelete(steps: seq<Step>, k: Key)
    requires IsRun(steps) && (Enabled(After(steps), CloudEnsure(k)) || Enabled(After(steps), PatchReady(k)))
    ensures Exists(After(steps), k, PcOf(After(steps), k).o)
    ensures After(steps).objects[k].uid !in After(steps).issued
  {
    RunKeepsInv(steps);
    LiveIsNotIssued(After(steps), k);
  }

  // ----- what fails -----

  ghost predicate At(s: State, k: Key, o: Option<Object>, pc: Pc) {
    PcOf(s, k) == pc && (k in s.objects <==> o.Some?) && (k in s.objects ==> s.objects[k] == o.value)
  }

  /** Extends a run by one step, whose effect on its own key the caller spells out. */
  lemma Do(steps: seq<Step>, step: Step, o: Option<Object>, pc: Pc) returns (run: seq<Step>)
    requires IsRun(steps) && Enabled(After(steps), step) && At(Apply(After(steps), step), step.k, o, pc)
    ensures IsRun(run) && Frame(After(steps), After(run), step.k) && At(After(run), step.k, o, pc)
  {
    run := steps + [step];
    assert run[..|run| - 1] == steps;
    StepFrame(After(steps), step);
  }

  /** An object is created and its reconcile attaches the finalizer. */
  lemma CreateLive(steps: seq<Step>, k: Key, refs: seq<Key>) returns (run: seq<Step>, o: Object)
    requires IsRun(steps) && At(After(steps), k, None, Idle) && WellFormedRefs(k.kind, refs)
    ensures IsRun(run) && Frame(After(steps), After(run), k) && At(After(run), k, Some(o), Reading(o, [], true))
    ensures o == Object(After(steps).nextUid, 1, 1, 0, false, true, false, Delete, refs, None, None)
  {
    o := Object(After(steps).nextUid, 0, 1, 0, false, false, false, Delete, refs, None, None);
    run := Do(steps, Create(k, Delete, refs, false), Some(o), Idle);
    run := Do(run, Get(k), Some(o), Fetched(o));
    o := o.(finalizer := true, version := 1);
    run := Do(run, AddFinalizer(k), Some(o), Reading(o, [], true));
  }

  /** A resource without references is reconciled until it is ready. */
  lemma Provision(steps: seq<Step>, k: Key) returns (run: seq<Step>, o: Object)
    requires IsRun(steps) && At(After(steps), k, None, Idle) && RefKinds(k.kind) == []
    ensures IsRun(run) && Frame(After(steps), After(run), k) && At(After(run), k, Some(o), Idle)
    ensures o == Object(After(steps).nextUid, 2, 1, 0, false, true, false, Delete, [], Some(1), Some(Record([], 1, 0)))
  {
    run, o := CreateLive(steps, k, []);
    run := Do(run, CloudEnsure(k), Some(o), Ensured(o, []));
    o := o.(readyAt := Some(1), record := Some(Record([], 1, 0)), version := 2);
    run := Do(run, PatchReady(k), Some(o), Idle);
  }

  ghost predicate Free(s: State, k: Key) {
    forall j :: j in s.objects ==> k !in s.objects[j].refs
  }

  lemma FrameKeepsFree(s: State, s': State, k: Key)
    requires Free(s, k) && Frame(s, s', k) && (k in s'.objects ==> s'.objects[k].refs == [])
    ensures Free(s', k)
  {
  }

  /** One list of a deletion that finds no reference. */
  lemma ListFree(steps: seq<Step>, k: Key, o: Object, pending: seq<Kind>) returns (run: seq<Step>)
    requires IsRun(steps) && pending != [] && Free(After(steps), k) && o.refs == []
    requires At(After(steps), k, Some(o), Listing(o, pending, false))
    ensures IsRun(run) && Frame(After(steps), After(run), k) && Free(After(run), k)
    ensures At(After(run), k, Some(o), if |pending| > 1 then Listing(o, pending[1..], false) else Unreferenced(o))
  {
    assert !Referenced(After(steps).objects, k, pending[0]);
    run := Do(steps, List(k), Some(o), if |pending| > 1 then Listing(o, pending[1..], false) else Unreferenced(o));
    FrameKeepsFree(After(steps), After(run), k);
  }

  lemma BeginSearch(steps: seq<Step>, k: Key, o: Object) returns (run: seq<Step>)
    requires IsRun(steps) && k.kind == CloudPrincipal && At(After(steps), k, Some(o), Idle)
    requires o.finalizer && o.terminating
    ensures IsRun(run) && Frame(After(steps), After(run), k)
    ensures At(After(run), k, Some(o), Listing(o, [BucketAccess, CloudPrincipalAuth], false))
  {
    run := Do(steps, Get(k), Some(o), Fetched(o));
    run := Do(run, StartDeletion(k), Some(o), Listing(o, [BucketAccess, CloudPrincipalAuth], false));
  }

  /** A deletion that finds no reference reaches the point where the cloud may be asked. */
  lemma Search(steps: seq<Step>, k: Key, o: Object) returns (run: seq<Step>)
    requires IsRun(steps) && k.kind == CloudPrincipal && At(After(steps), k, Some(o), Idle) && Free(After(steps), k)
    requires o.finalizer && o.terminating && o.refs == []
    ensures IsRun(run) && Frame(After(steps), After(run), k) && At(After(run), k, Some(o), Unreferenced(o))
  {
    run := BeginSearch(steps, k, o);
    FrameKeepsFree(After(steps), After(run), k);
    run := ListFree(run, k, o, [BucketAccess, CloudPrincipalAuth]);
    run := ListFree(run, k, o, [CloudPrincipalAuth]);
  }

  /** An unreferenced principal is deleted, in the cloud and from the API server. */
  lemma Remove(steps: seq<Step>, k: Key, c: Object) returns (run: seq<Step>)
    requires IsRun(steps) && k.kind == CloudPrincipal && At(After(steps), k, Some(c), Idle) && Free(After(steps), k)
    requires c.finalizer && !c.foreign && !c.terminating && c.policy == Delete && c.refs == []
    ensures IsRun(run) && Frame(After(steps), After(run), k) && At(After(run), k, None, Idle)
    ensures c.uid in After(run).deleted
  {
    var o := c.(terminating := true, version := c.version + 1);
    run := Do(steps, UserDelete(k), Some(o), Idle);
    FrameKeepsFree(After(steps), After(run), k);
    run := Search(run, k, o);
    run := Drop(run, k, o);
  }

  lemma Drop(steps: seq<Step>, k: Key, o: Object) returns (run: seq<Step>)
    requires IsRun(steps) && k.kind == CloudPrincipal && At(After(steps), k, Some(o), Unreferenced(o))
    requires o.finalizer && !o.foreign && o.terminating && o.policy == Delete
    ensures IsRun(run) && Frame(After(steps), After(run), k) && At(After(run), k, None, Idle)
    ensures o.uid in After(run).deleted
  {
    run := Do(steps, CloudDelete(k, true), Some(o), Finalizing(o, true));
    RunKeepsInv(run);
    assert PcOk(After(run), k);
    run := Do(run, RemoveFinalizer(k), None, Idle);
  }

  lemma ReadReady(steps: seq<Step>, a: Key, o: Object, seen: seq<nat>, d: Key, od: Object) returns (run: seq<Step>)
    requires IsRun(steps) && At(After(steps), a, Some(o), Reading(o, seen, true))
    requires |seen| < |o.refs| && o.refs[|seen|] == d != a
    requires d in After(steps).objects && After(steps).objects[d] == od && IsReady(od) && !od.terminating
    ensures IsRun(run) && Frame(After(steps), After(run), a)
    ensures At(After(run), a, Some(o), Reading(o, seen + [od.uid], true))
  {
    run := Do(steps, ReadRef(a), Some(o), Reading(o, seen + [od.uid], true));
  }

  /** A BucketAccess reads its bucket and its principal as ready. */
  lemma ReadBoth(steps: seq<Step>, a: Key, o: Object, ob: Object, op: Object) returns (run: seq<Step>)
    requires IsRun(steps) && |o.refs| == 2 && o.refs[0] != a && o.refs[1] != a
    requires At(After(steps), a, Some(o), Reading(o, [], true))
    requires At(After(steps), o.refs[0], Some(ob), Idle) && At(After(steps), o.refs[1], Some(op), Idle)
    requires IsReady(ob) && !ob.terminating && IsReady(op) && !op.terminating
    ensures IsRun(run) && Frame(After(steps), After(run), a)
    ensures At(After(run), a, Some(o), Reading(o, [ob.uid, op.uid], true))
  {
    run := ReadReady(steps, a, o, [], o.refs[0], ob);
    run := ReadReady(run, a, o, [ob.uid], o.refs[1], op);
    assert [ob.uid] + [op.uid] == [ob.uid, op.uid];
  }

  ghost predicate Only(s: State, keys: set<Key>) {
    forall k :: k !in keys ==> k !in s.objects && PcOf(s, k).Idle?
  }

  lemma FrameKeepsOnly(s: State, s': State, k: Key, keys: set<Key>)
    requires Only(s, keys) && Frame(s, s', k)
    ensures Only(s', keys + {k})
  {
  }

  lemma ProvisionTwo(b: Key, p: Key) returns (steps: seq<Step>, ob: Object, op: Object)
    requires b.kind == Bucket && p.kind == CloudPrincipal
    ensures IsRun(steps) && Only(After(steps), {b, p})
    ensures At(After(steps), b, Some(ob), Idle) && At(After(steps), p, Some(op), Idle)
    ensures IsReady(ob) && !ob.terminating && ob.refs == []
    ensures IsReady(op) && op.finalizer && !op.terminating && !op.foreign && op.policy == Delete && op.refs == []
  {
    assert b != p;
    steps, ob := Provision([], b);
    FrameKeepsOnly(EmptyStore, After(steps), b, {});
    var first := steps;
    steps, op := Provision(steps, p);
    FrameKeepsOnly(After(first), After(steps), p, {} + {b});
    assert {} + {b} + {p} == {b, p};
  }

  /** A fresh access `a` has read `b` and `p` as ready. */
  lemma AccessReads(steps: seq<Step>, b: Key, p: Key, a: Key, ob: Object, op: Object)
    returns (run: seq<Step>, o: Object)
    requires IsRun(steps) && Only(After(steps), {b, p})
    requires b.kind == Bucket && p.kind == CloudPrincipal && a.kind == BucketAccess
    requires At(After(steps), b, Some(ob), Idle) && IsReady(ob) && !ob.terminating
    requires At(After(steps), p, Some(op), Idle) && IsReady(op) && !op.terminating
    ensures IsRun(run) && Frame(After(steps), After(run), a)
    ensures o.refs == [b, p] && o.finalizer && o.generation == 1 && o.redirects == 0 && o.version == 1
    ensures At(After(run), a, Some(o), Reading(o, [ob.uid, op.uid], true))
  {
    assert a != b && a != p && b != p;
    run, o := CreateLive(steps, a, [b, p]);
    run := ReadBoth(run, a, o, ob, op);
  }

  /** `a` has read `b` and `p` as ready; then a user points it at principal `q`. */
  lemma EditUnderReconcile(b: Key, p: Key, q: Key, a: Key)
    returns (steps: seq<Step>, ob: Object, op: Object, o: Object, edited: Object)
    requires b.kind == Bucket && a.kind == BucketAccess
    requires p.kind == CloudPrincipal && q.kind == CloudPrincipal && p != q
    ensures IsRun(steps) && Only(After(steps), {b, p, a})
    ensures At(After(steps), b, Some(ob), Idle) && At(After(steps), p, Some(op), Idle) && ob.refs == []
    ensures op.finalizer && !op.terminating && !op.foreign && op.policy == Delete && op.refs == []
    ensures |o.refs| == 2 && edited.refs == [b, q] && edited.finalizer
    ensures At(After(steps), a, Some(edited), Reading(o, [ob.uid, op.uid], true))
  {
    steps, ob, op := ProvisionTwo(b, p);
    var two := steps;
    steps, o := AccessReads(steps, b, p, a, ob, op);
    FrameKeepsOnly(After(two), After(steps), a, {b, p});
    assert {b, p} + {a} == {b, p, a} == {b, p, a} + {a};
    var live := steps;
    steps, edited := RedirectPrincipal(steps, a, o, q, [ob.uid, op.uid]);
    FrameKeepsOnly(After(live), After(steps), a, {b, p, a});
  }

  lemma RedirectPrincipal(steps: seq<Step>, a: Key, o: Object, q: Key, seen: seq<nat>)
    returns (run: seq<Step>, edited: Object)
    requires IsRun(steps) && a.kind == BucketAccess && q.kind == CloudPrincipal && WellFormedRefs(a.kind, o.refs)
    requires At(After(steps), a, Some(o), Reading(o, seen, true)) && o.finalizer && o.refs[1] != q
    ensures edited == o.(refs := [o.refs[0], q],
                         generation := o.generation + 1, redirects := o.redirects + 1, version := o.version + 1)
    ensures IsRun(run) && Frame(After(steps), After(run), a) && At(After(run), a, Some(edited), Reading(o, seen, true))
  {
    edited := o.(refs := [o.refs[0], q],
                 generation := o.generation + 1, redirects := o.redirects + 1, version := o.version + 1);
    run := Do(steps, EditSpec(a, o.policy, edited.refs), Some(edited), Reading(o, seen, true));
  }

  lemma GrantAndRecord(steps: seq<Step>, a: Key, c: Object, o: Object, seen: seq<nat>) returns (run: seq<Step>)
    requires IsRun(steps) && At(After(steps), a, Some(c), Reading(o, seen, true)) && |seen| == |o.refs| == 2 == |c.refs|
    requires c.finalizer
    ensures IsRun(run) && Frame(After(steps), After(run), a) && UsesRef(After(run), a, 1, seen[1])
  {
    run := Do(steps, CloudEnsure(a), Some(c), Ensured(o, seen));
    var record := Record(seen, o.generation, o.redirects);
    var applied := c.(readyAt := Some(o.generation), record := Some(record), version := c.version + 1);
    run := Do(run, PatchReady(a), Some(applied), Idle);
  }

  /** The principal of a BucketAccess is not protected once the reference is edited: in this run the
      access records a grant for a principal that was deleted, here and in the cloud, while its
      reconcile was in flight. */
  lemma PrincipalCanVanishUnderAccess(b: Key, p: Key, q: Key, a: Key) returns (steps: seq<Step>, u: nat)
    requires b.kind == Bucket && a.kind == BucketAccess
    requires p.kind == CloudPrincipal && q.kind == CloudPrincipal && p != q
    ensures IsRun(steps) && UsesRef(After(steps), a, 1, u)
    ensures p !in After(steps).objects && u in After(steps).deleted
  {
    var ob, op, o, edited;
    steps, ob, op, o, edited := EditUnderReconcile(b, p, q, a);
    u := op.uid;
    assert a != p && p != b;
    assert Free(After(steps), p);
    steps := Remove(steps, p, op);
    steps := GrantAndRecord(steps, a, edited, o, [ob.uid, u]);
  }

  /** A policy switched to Retain does not stop a deletion already decided: in this run the cloud
      deletes the principal although the stored policy is Retain. The finalizer stays for now. */
  lemma RetainComesTooLate(p: Key) returns (steps: seq<Step>, o: Object)
    requires p.kind == CloudPrincipal
    ensures IsRun(steps) && At(After(steps), p, Some(o), Idle)
    ensures o.policy == Retain && o.finalizer && o.uid in After(steps).deleted
  {
    var read: Object;
    steps, read := Provision([], p);
    read := read.(terminating := true, version := 3);
    steps := Do(steps, UserDelete(p), Some(read), Idle);
    assert Free(After(steps), p);
    steps := Search(steps, p, read);
    steps, o := SwitchToRetain(steps, p, read);
  }

  lemma SwitchToRetain(steps: seq<Step>, p: Key, read: Object) returns (run: seq<Step>, o: Object)
    requires IsRun(steps) && p.kind == CloudPrincipal && At(After(steps), p, Some(read), Unreferenced(read))
    requires read.finalizer && read.terminating && read.policy == Delete && read.refs == []
    ensures IsRun(run) && At(After(run), p, Some(o), Idle)
    ensures o.policy == Retain && o.finalizer && o.uid in After(run).deleted
  {
    o := read.(policy := Retain, generation := read.generation + 1, version := read.version + 1);
    run := Do(steps, EditSpec(p, Retain, []), Some(o), Unreferenced(read));
    run := Do(run, CloudDelete(p, true), Some(o), Finalizing(read, true));
    run := GiveUpDeleted(run, p, o, read);
  }

  lemma GiveUpDeleted(steps: seq<Step>, p: Key, o: Object, read: Object) returns (run: seq<Step>)
    requires IsRun(steps) && At(After(steps), p, Some(o), Finalizing(read, true))
    ensures IsRun(run) && At(After(run), p, Some(o), Idle) && read.uid in After(run).deleted
  {
    RunKeepsInv(steps);
    assert PcOk(After(steps), p);
    run := Do(steps, Abort(p), Some(o), Idle);
  }
}

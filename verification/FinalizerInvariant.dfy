/** The inductive invariant of the finalizer protocol. */
module FinalizerInvariant {
  import opened Common
  import opened FinalizerProtocol

  /** Incarnations are never reused, and every object has the references its kind asks for. */
  ghost predicate ObjectsOk(s: State) {
    && (forall k :: k in s.objects ==>
          s.objects[k].uid < s.nextUid && WellFormedRefs(k.kind, s.objects[k].refs) && RecordOk(s.objects[k]))
    && (forall k, k' :: k in s.objects && k' in s.objects && s.objects[k].uid == s.objects[k'].uid ==> k == k')
  }

  /** A record is of the past. */
  ghost predicate RecordOk(o: Object) {
    o.record.Some? ==> o.record.value.redirects <= o.redirects && |o.record.value.deps| == |o.refs|
  }

  /** A reconcile past its finalizer check works on an object that cannot vanish under it. */
  ghost predicate Anchored(pc: Pc) {
    !pc.Idle? && !pc.Fetched?
  }

  ghost predicate Deleting(pc: Pc) {
    pc.Listing? || pc.Unreferenced? || pc.Finalizing?
  }

  /** The stored object `c` is a later state of the snapshot `o`. */
  ghost predicate Later(kind: Kind, o: Object, c: Object) {
    && o.version <= c.version
    && o.generation <= c.generation
    && (o.version == c.version ==> o == c)
    && o.redirects <= c.redirects
    && (o.redirects == c.redirects ==> o.refs == c.refs)
    && (o.terminating ==> c.terminating)
    && |o.refs| == |c.refs|
    && (forall i :: 0 <= i < |o.refs| && Immutable(kind, i) ==> o.refs[i] == c.refs[i])
  }

  ghost predicate PcOk(s: State, k: Key) {
    var pc := PcOf(s, k);
    !pc.Idle? ==>
      && pc.o.uid < s.nextUid
      && WellFormedRefs(k.kind, pc.o.refs)
      && (Exists(s, k, pc.o) ==> Later(k.kind, pc.o, s.objects[k]))
      && (Anchored(pc) || pc.o.finalizer ==> Exists(s, k, pc.o) && s.objects[k].finalizer)
      && (Deleting(pc) ==> pc.o.terminating)
      && (pc.Reading? ==> |pc.seen| <= |pc.o.refs|)
      && (pc.Ensured? ==> |pc.seen| == |pc.o.refs|)
      && (pc.Reading? || pc.Ensured? ==> !pc.o.terminating)
      && (Exists(s, k, pc.o) && !pc.o.terminating ==> pc.o.uid !in s.issued)
      && (pc.Finalizing? && pc.deleted ==> pc.o.policy == Delete && pc.o.uid in s.deleted)
      && (pc.Finalizing? && !pc.deleted ==> pc.o.policy != Delete || pc.o.record.None?)
      && (pc.o.policy == Delete ==> pc.o.uid in s.everDelete)
  }

  /** Only objects that carry the finalizer are ever reported ready. */
  ghost predicate ReadyOk(s: State) {
    forall k :: k in s.objects && !s.objects[k].terminating && s.objects[k].readyAt.Some? ==>
      s.objects[k].finalizer
  }

  /** External deletions concern terminating objects, whose policy was Delete at some time. */
  ghost predicate IssuedOk(s: State) {
    && s.deleted <= s.issued <= s.everDelete
    && (forall u :: u in s.everDelete ==> u < s.nextUid)
    && (forall k :: k in s.objects && s.objects[k].uid in s.issued ==> s.objects[k].terminating)
    && (forall k :: k in s.objects && s.objects[k].policy == Delete ==> s.objects[k].uid in s.everDelete)
  }

  /** Reference `i` of `k` has not been edited since `redirects` edits had been made. */
  ghost predicate Pinned(k: Key, i: nat, c: Object, redirects: nat) {
    Immutable(k.kind, i) || c.redirects == redirects
  }

  /** A reconcile of `k` read incarnation `u` of reference `i` as live and ready, and has not
      patched its status yet. */
  ghost predicate HoldsInFlight(s: State, k: Key, i: nat, u: nat) {
    var pc := PcOf(s, k);
    && k in s.objects
    && ((pc.Reading? && pc.ready) || pc.Ensured?)
    && i < |pc.seen| && i < |s.objects[k].refs|
    && pc.seen[i] == u
    && Pinned(k, i, s.objects[k], pc.o.redirects)
  }

  /** The status of `k` records an external resource built from incarnation `u` of reference `i`. */
  ghost predicate HoldsRecorded(s: State, k: Key, i: nat, u: nat) {
    && k in s.objects
    && s.objects[k].record.Some?
    && i < |s.objects[k].record.value.deps| && i < |s.objects[k].refs|
    && s.objects[k].record.value.deps[i] == u
    && Pinned(k, i, s.objects[k], s.objects[k].record.value.redirects)
  }

  ghost predicate Holds(s: State, k: Key, i: nat, u: nat) {
    HoldsInFlight(s, k, i, u) || HoldsRecorded(s, k, i, u)
  }

  /** The deletion path of this reconcile has already listed `kind` and found no reference. */
  ghost predicate Cleared(pc: Pc, kind: Kind) {
    pc.Unreferenced? || pc.Finalizing? || (pc.Listing? && !pc.found && kind !in pc.pending)
  }

  /** What a held dependency is safe from. */
  ghost predicate Protected(s: State, d: Key, u: nat, holder: Kind) {
    && d in s.objects && s.objects[d].uid == u && s.objects[d].finalizer
    && u !in s.issued
    && !Cleared(PcOf(s, d), holder)
  }

  ghost predicate HoldersOk(s: State) {
    forall k: Key, i: nat, u: nat :: Holds(s, k, i, u) ==> Protected(s, s.objects[k].refs[i], u, k.kind)
  }

  ghost predicate Inv(s: State) {
    && ObjectsOk(s)
    && (forall k :: PcOk(s, k))
    && ReadyOk(s)
    && IssuedOk(s)
    && HoldersOk(s)
  }

  /** A step of `k` touches only the object and the reconcile of `k`. */
  ghost predicate Frame(s: State, s': State, k: Key) {
    && s.nextUid <= s'.nextUid && s.issued <= s'.issued && s.deleted <= s'.deleted && s.everDelete <= s'.everDelete
    && (forall k' :: k' != k ==> PcOf(s', k') == PcOf(s, k'))
    && (forall k' :: k' != k ==> (k' in s'.objects <==> k' in s.objects))
    && (forall k' :: k' != k && k' in s.objects ==> s'.objects[k'] == s.objects[k'])
  }

  /** What one step may do to the object under `k`: create it, change it in place, or drop it. */
  ghost predicate ObjectStep(s: State, s': State, k: Key) {
    && (k in s.objects && k in s'.objects ==>
          s'.objects[k] == s.objects[k] || Changed(k.kind, s.objects[k], s'.objects[k]))
    && (k !in s.objects && k in s'.objects ==>
          s'.objects[k].uid == s.nextUid < s'.nextUid && WellFormedRefs(k.kind, s'.objects[k].refs)
          && RecordOk(s'.objects[k]))
  }

  ghost predicate Changed(kind: Kind, c: Object, c': Object) {
    c'.uid == c.uid && c.version < c'.version && Later(kind, c, c') && WellFormedRefs(kind, c'.refs) && RecordOk(c')
  }

  lemma StepFrame(s: State, step: Step)
    requires Enabled(s, step)
    ensures Frame(s, Apply(s, step), step.k)
  {
  }

  lemma FrameKeepsObjects(s: State, s': State, k: Key)
    requires ObjectsOk(s) && Frame(s, s', k) && ObjectStep(s, s', k)
    ensures ObjectsOk(s')
  {
  }

  lemma FrameKeepsPc(s: State, s': State, k: Key, k': Key)
    requires ObjectsOk(s) && PcOk(s, k') && Frame(s, s', k) && k' != k
    requires s'.issued == s.issued || (k in s.objects && s'.issued == s.issued + {s.objects[k].uid})
    ensures PcOk(s', k')
  {
  }

  predicate IsUserStep(step: Step) {
    step.Create? || step.EditSpec? || step.UserDelete? || step.SetForeign?
  }

  predicate IsDeletionStep(step: Step) {
    step.StartDeletion? || step.List? || step.CloudDelete? || step.SkipCloudDelete?
    || step.RefuseFinalization? || step.RemoveFinalizer?
  }

  lemma UserStepObject(s: State, step: Step)
    requires ObjectsOk(s) && Enabled(s, step) && IsUserStep(step)
    ensures ObjectStep(s, Apply(s, step), step.k)
  {
  }

  lemma ReconcileStepObject(s: State, step: Step)
    requires ObjectsOk(s) && PcOk(s, step.k) && Enabled(s, step) && !IsUserStep(step)
    ensures ObjectStep(s, Apply(s, step), step.k)
  {
  }

  lemma StepObject(s: State, step: Step)
    requires ObjectsOk(s) && PcOk(s, step.k) && Enabled(s, step)
    ensures ObjectStep(s, Apply(s, step), step.k)
  {
    if IsUserStep(step) {
      UserStepObject(s, step);
    } else {
      ReconcileStepObject(s, step);
    }
  }

  lemma UserStepKeepsOwnPc(s: State, step: Step)
    requires ObjectsOk(s) && PcOk(s, step.k) && IsUserStep(step) && Enabled(s, step)
    ensures PcOk(Apply(s, step), step.k)
  {
    assert Idle.Idle?;
  }

  lemma DeletionStepKeepsOwnPc(s: State, step: Step)
    requires PcOk(s, step.k) && IsDeletionStep(step) && Enabled(s, step)
    ensures PcOk(Apply(s, step), step.k)
  {
  }

  lemma LiveStepKeepsOwnPc(s: State, step: Step)
    requires ObjectsOk(s) && IssuedOk(s) && PcOk(s, step.k) && Enabled(s, step)
    requires !IsDeletionStep(step) && !IsUserStep(step)
    ensures PcOk(Apply(s, step), step.k)
  {
  }

  lemma StepKeepsReady(s: State, step: Step)
    requires PcOk(s, step.k) && ReadyOk(s) && Enabled(s, step)
    ensures ReadyOk(Apply(s, step))
  {
  }

  /** The object a step of `k` leaves under `k` keeps its deletion and its Delete policy on record. */
  ghost predicate IssuedOkAt(s: State, k: Key) {
    k in s.objects ==>
      && (s.objects[k].uid in s.issued ==> s.objects[k].terminating)
      && (s.objects[k].policy == Delete ==> s.objects[k].uid in s.everDelete)
  }

  lemma UserStepKeepsOwnIssued(s: State, step: Step)
    requires ObjectsOk(s) && IssuedOk(s) && Enabled(s, step) && IsUserStep(step)
    ensures IssuedOkAt(Apply(s, step), step.k)
  {
  }

  lemma ReconcileKeepsOwnIssued(s: State, step: Step)
    requires IssuedOkAt(s, step.k) && PcOk(s, step.k) && Enabled(s, step) && !IsUserStep(step)
    ensures IssuedOkAt(Apply(s, step), step.k)
  {
  }

  /** Only the controller of a terminating object requests an external deletion, and only of that object. */
  lemma StepIssues(s: State, step: Step)
    requires PcOk(s, step.k) && Enabled(s, step)
    ensures var s' := Apply(s, step);
      || s'.issued == s.issued
      || (step.k in s.objects && s'.issued == s.issued + {s.objects[step.k].uid}
          && s.objects[step.k].uid in s.everDelete)
  {
  }

  lemma StepKeepsIssuedSets(s: State, step: Step)
    requires ObjectsOk(s) && PcOk(s, step.k) && IssuedOk(s) && Enabled(s, step)
    ensures var s' := Apply(s, step);
      && s'.deleted <= s'.issued <= s'.everDelete
      && (forall u :: u in s'.everDelete ==> u < s'.nextUid)
      && (s'.issued == s.issued || (step.k in s.objects && s'.issued == s.issued + {s.objects[step.k].uid}))
  {
    StepIssues(s, step);
  }

  lemma StepKeepsIssued(s: State, step: Step)
    requires Inv(s) && Enabled(s, step)
    ensures IssuedOk(Apply(s, step))
  {
    var s' := Apply(s, step);
    StepFrame(s, step);
    assert PcOk(s, step.k) && IssuedOkAt(s, step.k);
    if IsUserStep(step) {
      UserStepKeepsOwnIssued(s, step);
    } else {
      ReconcileKeepsOwnIssued(s, step);
    }
    StepKeepsIssuedSets(s, step);
    forall k | k in s'.objects ensures IssuedOkAt(s', k) {
      if k != step.k {
        assert IssuedOkAt(s, k);
      }
    }
    forall k | k in s'.objects && s'.objects[k].uid in s'.issued ensures s'.objects[k].terminating {
      assert IssuedOkAt(s', k);
    }
    forall k | k in s'.objects && s'.objects[k].policy == Delete ensures s'.objects[k].uid in s'.everDelete {
      assert IssuedOkAt(s', k);
    }
  }

  /** `step` makes `k` a holder: it reads the next reference, which is live and ready. */
  ghost predicate Acquires(s: State, step: Step, i: nat, u: nat) {
    var pc := PcOf(s, step.k);
    && step.ReadRef? && Enabled(s, step)
    && i == |pc.seen|
    && pc.o.refs[i] in s.objects
    && var d := s.objects[pc.o.refs[i]]; !d.terminating && IsReady(d) && d.uid == u
  }

  lemma FrameKeepsHolds(s: State, s': State, j: Key, k: Key, i: nat, u: nat)
    requires Frame(s, s', j) && k != j
    ensures Holds(s', k, i, u) <==> Holds(s, k, i, u)
  {
  }

  /** A hold of `k` after a step of `k` was there before it, on the same reference, or was acquired by the step. */
  lemma HoldOrigin(s: State, step: Step, i: nat, u: nat)
    requires ObjectsOk(s) && PcOk(s, step.k) && Enabled(s, step)
    requires Holds(Apply(s, step), step.k, i, u)
    ensures step.k in s.objects && i < |s.objects[step.k].refs|
    ensures Apply(s, step).objects[step.k].refs[i] == s.objects[step.k].refs[i]
    ensures Holds(s, step.k, i, u)
         || (Acquires(s, step, i, u) && s.objects[step.k].refs[i] == PcOf(s, step.k).o.refs[i])
  {
    StepObject(s, step);
    if IsUserStep(step) {
      UserHoldOrigin(s, step, i, u);
    } else {
      ReconcileHoldOrigin(s, step, i, u);
    }
  }

  lemma UserHoldOrigin(s: State, step: Step, i: nat, u: nat)
    requires ObjectsOk(s) && PcOk(s, step.k) && Enabled(s, step) && IsUserStep(step)
    requires Holds(Apply(s, step), step.k, i, u)
    ensures step.k in s.objects && i < |s.objects[step.k].refs|
    ensures Apply(s, step).objects[step.k].refs[i] == s.objects[step.k].refs[i]
    ensures Holds(s, step.k, i, u)
  {
  }

  lemma ReconcileHoldOrigin(s: State, step: Step, i: nat, u: nat)
    requires PcOk(s, step.k) && Enabled(s, step) && !IsUserStep(step)
    requires Holds(Apply(s, step), step.k, i, u)
    ensures step.k in s.objects && i < |s.objects[step.k].refs|
    ensures Apply(s, step).objects[step.k].refs[i] == s.objects[step.k].refs[i]
    ensures Holds(s, step.k, i, u)
         || (Acquires(s, step, i, u) && s.objects[step.k].refs[i] == PcOf(s, step.k).o.refs[i])
  {
    if step.ReadRef? {
      ReadHoldOrigin(s, step, i, u);
    } else {
      WriteHoldOrigin(s, step, i, u);
    }
  }

  lemma ReadHoldOrigin(s: State, step: Step, i: nat, u: nat)
    requires PcOk(s, step.k) && Enabled(s, step) && step.ReadRef?
    requires Holds(Apply(s, step), step.k, i, u)
    ensures step.k in s.objects && i < |s.objects[step.k].refs|
    ensures Apply(s, step).objects == s.objects
    ensures Holds(s, step.k, i, u)
         || (Acquires(s, step, i, u) && s.objects[step.k].refs[i] == PcOf(s, step.k).o.refs[i])
  {
  }

  lemma WriteHoldOrigin(s: State, step: Step, i: nat, u: nat)
    requires PcOk(s, step.k) && Enabled(s, step) && !IsUserStep(step) && !step.ReadRef?
    requires Holds(Apply(s, step), step.k, i, u)
    ensures step.k in s.objects && i < |s.objects[step.k].refs|
    ensures Apply(s, step).objects[step.k].refs[i] == s.objects[step.k].refs[i]
    ensures Holds(s, step.k, i, u)
  {
  }

  /** The controller and the users of a referenced dependency cannot take it away from a holder. */
  lemma OwnStepKeepsProtected(s: State, step: Step, u: nat, kind: Kind)
    requires PcOk(s, step.k) && Enabled(s, step)
    requires Protected(s, step.k, u, kind) && Referenced(s.objects, step.k, kind)
    requires kind in ListedKinds(step.k.kind)
    ensures Protected(Apply(s, step), step.k, u, kind)
  {
  }

  lemma OtherStepKeepsProtected(s: State, s': State, j: Key, d: Key, u: nat, kind: Kind)
    requires ObjectsOk(s) && Frame(s, s', j) && d != j && Protected(s, d, u, kind)
    requires s'.issued == s.issued || (j in s.objects && s'.issued == s.issued + {s.objects[j].uid})
    ensures Protected(s', d, u, kind)
  {
  }

  /** Nobody can take a dependency away from a holder. */
  lemma HeldStaysProtected(s: State, step: Step, k: Key, i: nat, u: nat)
    requires Inv(s) && Enabled(s, step) && Holds(s, k, i, u)
    ensures Protected(Apply(s, step), s.objects[k].refs[i], u, k.kind)
  {
    var d := s.objects[k].refs[i];
    assert Protected(s, d, u, k.kind);
    assert PcOk(s, step.k);
    if step.k == d {
      assert Referenced(s.objects, d, k.kind);
      OwnStepKeepsProtected(s, step, u, k.kind);
    } else {
      StepFrame(s, step);
      StepKeepsIssuedSets(s, step);
      OtherStepKeepsProtected(s, Apply(s, step), step.k, d, u, k.kind);
    }
  }

  /** A dependency read as live and ready is one whose deletion has not begun. */
  lemma AcquiredIsProtected(s: State, step: Step, i: nat, u: nat)
    requires Inv(s) && Acquires(s, step, i, u)
    ensures Protected(Apply(s, step), PcOf(s, step.k).o.refs[i], u, step.k.kind)
  {
    var d := PcOf(s, step.k).o.refs[i];
    assert PcOk(s, d) && PcOk(s, step.k);
  }

  lemma StepKeepsHolders(s: State, step: Step)
    requires Inv(s) && Enabled(s, step)
    ensures HoldersOk(Apply(s, step))
  {
    var s' := Apply(s, step);
    forall k: Key, i: nat, u: nat | Holds(s', k, i, u) ensures Protected(s', s'.objects[k].refs[i], u, k.kind) {
      StepFrame(s, step);
      if k != step.k {
        FrameKeepsHolds(s, s', step.k, k, i, u);
      } else {
        assert PcOk(s, k);
        HoldOrigin(s, step, i, u);
      }
      if Holds(s, k, i, u) {
        HeldStaysProtected(s, step, k, i, u);
      } else {
        AcquiredIsProtected(s, step, i, u);
      }
    }
  }

  lemma StepKeepsInv(s: State, step: Step)
    requires Inv(s) && Enabled(s, step)
    ensures Inv(Apply(s, step))
  {
    var s' := Apply(s, step);
    StepFrame(s, step);
    assert PcOk(s, step.k);
    StepObject(s, step);
    FrameKeepsObjects(s, s', step.k);
    StepKeepsIssuedSets(s, step);
    forall k ensures PcOk(s', k) {
      assert PcOk(s, k);
      if k != step.k {
        FrameKeepsPc(s, s', step.k, k);
      } else if IsUserStep(step) {
        UserStepKeepsOwnPc(s, step);
      } else if IsDeletionStep(step) {
        DeletionStepKeepsOwnPc(s, step);
      } else {
        LiveStepKeepsOwnPc(s, step);
      }
    }
    StepKeepsReady(s, step);
    StepKeepsIssued(s, step);
    StepKeepsHolders(s, step);
  }

  lemma {:induction false} RunKeepsInv(steps: seq<Step>)
    requires IsRun(steps)
    ensures Inv(After(steps))
    decreases |steps|
  {
    if |steps| > 0 {
      RunKeepsInv(steps[..|steps| - 1]);
      StepKeepsInv(After(steps[..|steps| - 1]), steps[|steps| - 1]);
    }
  }
}

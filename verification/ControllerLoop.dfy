/** The `Reconcile` methods as the controllers write them, driven against the cluster one API call at
    a time. Whatever other controllers and users do between two calls, what a reconcile does is a run
    of the protocol, so everything proved of runs holds of it. */
module ControllerLoop {
  import opened Common
  import opened FinalizerProtocol
  import FinalizerInvariant

  /** Steps that are not calls of the reconcile of `k`: at most one of those is in flight. */
  predicate Foreign(step: Step, k: Key) {
    step.k == k ==> step.Create? || step.EditSpec? || step.UserDelete? || step.SetForeign?
  }

  /** Everybody else, as a strategy: what happens next after a given run. */
  type Others = seq<Step> -> seq<Step>

  ghost predicate PlaysBeside(others: Others, k: Key) {
    forall run :: IsRun(run) ==>
      IsRun(run + others(run)) && forall i :: 0 <= i < |others(run)| ==> Foreign(others(run)[i], k)
  }

  lemma Snoc(run: seq<Step>, step: Step)
    requires IsRun(run) && Enabled(After(run), step)
    ensures IsRun(run + [step]) && After(run + [step]) == Apply(After(run), step)
  {
    assert (run + [step])[..|run|] == run;
  }

  /** Nobody else moves the reconcile of `k`. */
  lemma {:induction false} OthersKeepPc(run: seq<Step>, more: seq<Step>, k: Key)
    requires IsRun(run) && IsRun(run + more)
    requires forall i :: 0 <= i < |more| ==> Foreign(more[i], k)
    ensures PcOf(After(run + more), k) == PcOf(After(run), k)
  {
    if more == [] {
      assert run + more == run;
    } else {
      var init := more[..|more| - 1];
      assert (run + more)[..|run + more| - 1] == run + init;
      OthersKeepPc(run, init, k);
      ForeignKeepsPc(After(run + init), more[|more| - 1], k);
    }
  }

  lemma ForeignKeepsPc(s: State, step: Step, k: Key)
    requires Enabled(s, step) && Foreign(step, k)
    ensures PcOf(Apply(s, step), k) == PcOf(s, k)
  {
  }

  /** What is read as live stays so: an update goes through only at the version that was read. */
  lemma ReadingIsLive(run: seq<Step>, k: Key)
    requires IsRun(run) && PcOf(After(run), k).Reading?
    ensures !PcOf(After(run), k).o.terminating
  {
    FinalizerInvariant.RunKeepsInv(run);
    assert FinalizerInvariant.PcOk(After(run), k);
  }

  predicate EndsWith(run: seq<Step>, step: Step) {
    run != [] && run[|run| - 1] == step
  }

  /** Where a call of the reconcile leaves it. */
  function NextPc(s: State, step: Step): Pc
    requires Enabled(s, step) && !Foreign(step, step.k)
  {
    var pc := PcOf(s, step.k);
    match step
    case Get(k) => Fetched(s.objects[k])
    case AddFinalizer(k) =>
      if pc.o.finalizer then Reading(pc.o, [], true)
      else Reading(s.objects[k].(finalizer := true, version := pc.o.version + 1), [], true)
    case ReadRef(_) =>
      var d := pc.o.refs[|pc.seen|];
      if d !in s.objects then Reporting(pc.o)
      else if s.objects[d].terminating then Withdrawing(pc.o)
      else Reading(pc.o, pc.seen + [s.objects[d].uid], pc.ready && IsReady(s.objects[d]))
    case CloudEnsure(_) => Ensured(pc.o, pc.seen)
    case GiveUp(_) => Reporting(pc.o)
    case StartDeletion(k) =>
      if !pc.o.finalizer then Idle
      else if IsReferrer(k.kind) then Unreferenced(pc.o)
      else Listing(pc.o, ListedKinds(k.kind), false)
    case List(k) =>
      var found := pc.found || Referenced(s.objects, k, pc.pending[0]);
      if |pc.pending| > 1 then Listing(pc.o, pc.pending[1..], found)
      else if found then Idle else Unreferenced(pc.o)
    case CloudDelete(_, ok) => if ok then Finalizing(pc.o, true) else Reporting(pc.o)
    case SkipCloudDelete(_) => Finalizing(pc.o, false)
    case RefuseFinalization(_) => Reporting(pc.o)
    case _ => Idle
  }

  lemma NextPcIsNext(s: State, step: Step)
    requires Enabled(s, step) && !Foreign(step, step.k)
    ensures PcOf(Apply(s, step), step.k) == NextPc(s, step)
  {
  }

  /** How a reconcile ended. */
  datatype Result =
    | Vanished            // nothing to reconcile, or not the operator's to finalize
    | Failed              // an API or cloud call failed; it will be retried
    | Reconciled
    | NotReady
    | Withdrawn           // a dependency is terminating: the object deletes itself
    | StillReferenced
    | Refused             // recorded, and the usage policy forbids the deletion
    | Finalized

  /** What the calls into clouds, policies and validation answer during one reconcile, and after which
      runs the next call to the API server returns an error. */
  datatype Answers = Answers(passes: bool, allowed: bool, cloudOk: bool, fails: seq<Step> -> bool)

  /** The reconcile ended in an API error. */
  predicate CallFailed(a: Answers, run: seq<Step>) {
    run != [] && run[|run| - 1].Abort? && a.fails(run[..|run| - 1])
  }

  /** What the reconcile learns before it calls a step, whatever others did meanwhile: which guards of the
      controllers let this call, and no other, come next. */
  ghost predicate Chosen(run: seq<Step>, step: Step, a: Answers)
    requires IsRun(run) && Enabled(After(run), step)
  {
    var s := After(run);
    var pc := PcOf(s, step.k);
    match step
    case AddFinalizer(_) => pc.o.finalizer || !a.fails(run)
    case CloudEnsure(_) => a.passes && a.allowed && a.cloudOk
    case GiveUp(_) => !(pc.ready && a.passes && a.allowed && a.cloudOk)
    case StartDeletion(_) => true
    case CloudDelete(k, ok) => !SkipsTheCloud(k, pc.o) && a.passes && a.allowed && ok == a.cloudOk
    case SkipCloudDelete(k) => SkipsTheCloud(k, pc.o) || (a.passes && !a.allowed && pc.o.record.None?)
    case RefuseFinalization(k) => !SkipsTheCloud(k, pc.o) && a.passes && !a.allowed && pc.o.record.Some?
    case Abort(k) => Stops(run, pc, k, a)
    case _ => !a.fails(run)
  }

  /** Deletions that do not ask the provider. */
  predicate SkipsTheCloud(k: Key, o: Object) {
    o.policy != Delete || (IsReferrer(k.kind) && o.record.None?)
  }

  /** A reconcile is given up only when its next API call fails, its object was changed before an update or
      is gone before a patch, or its provider cannot be prepared for a deletion. */
  ghost predicate Stops(run: seq<Step>, pc: Pc, k: Key, a: Answers)
    requires IsRun(run)
  {
    var s := After(run);
    match pc
    case Fetched(o) => !o.terminating && !o.finalizer && (!Current(s, k, o) || a.fails(run))
    case Reading(o, seen, _) => |seen| < |o.refs| && a.fails(run)
    case Ensured(_, _) => k !in s.objects || a.fails(run)
    case Reporting(_) => k !in s.objects || a.fails(run)
    case Unreferenced(o) => !SkipsTheCloud(k, o) && !a.passes
    case Finalizing(o, _) => !Current(s, k, o) || a.fails(run)
    case _ => a.fails(run)
  }

  /** Every call of the reconcile of `k` since then is the one its controller makes. */
  ghost predicate Follows(run: seq<Step>, since: nat, k: Key, a: Answers)
    requires IsRun(run) && since <= |run|
  {
    |run| == since ||
    var init, last := run[..|run| - 1], run[|run| - 1];
    Follows(init, since, k, a) && (Foreign(last, k) || Chosen(init, last, a))
  }

  /** The outcome that the last call stands for. */
  function ResultOf(s: State, last: Step, a: Answers): Result
    requires Enabled(s, last)
  {
    match last
    case PatchReady(_) => Reconciled
    case PatchNotReady(k) =>
      if !PcOf(s, k).o.terminating then NotReady else if a.allowed then Failed else Refused
    case DeleteSelf(_) => Withdrawn
    case StartDeletion(_) => Vanished
    case List(_) => StillReferenced
    case RemoveFinalizer(_) => Finalized
    case _ => Failed
  }

  /** The reconcile is over with its last call. */
  ghost predicate Ended(run: seq<Step>, k: Key, a: Answers, r: Result)
    requires IsRun(run)
  {
    run != [] && !Foreign(run[|run| - 1], k) && r == ResultOf(After(run[..|run| - 1]), run[|run| - 1], a)
  }

  lemma {:induction false} FollowsAll(run: seq<Step>, since: nat, k: Key, a: Answers)
    requires IsRun(run) && since <= |run| && Follows(run, since, k, a)
    ensures forall i :: since <= i < |run| && run[i].k == k && run[i].CloudDelete? ==>
      a.passes && a.allowed && run[i].ok == a.cloudOk
    ensures forall i :: since <= i < |run| && run[i] == CloudEnsure(k) ==> a.passes && a.allowed && a.cloudOk
  {
    if |run| > since {
      FollowsAll(run[..|run| - 1], since, k, a);
    }
  }

  lemma {:induction false} OthersFollow(run: seq<Step>, more: seq<Step>, since: nat, k: Key, a: Answers)
    requires IsRun(run) && IsRun(run + more) && since <= |run| && Follows(run, since, k, a)
    requires forall i :: 0 <= i < |more| ==> Foreign(more[i], k)
    ensures Follows(run + more, since, k, a)
  {
    if more == [] {
      assert run + more == run;
    } else {
      var init := more[..|more| - 1];
      assert (run + more)[..|run + more| - 1] == run + init;
      OthersFollow(run, init, since, k, a);
    }
  }

  class Cluster {
    var run: seq<Step>
    var now: State
    const others: Others
    ghost var since: nat      // where the reconcile in flight started

    ghost predicate Valid()
      reads this
    {
      IsRun(run) && now == After(run)
    }

    constructor (others: Others)
      ensures Valid() && this.others == others && run == []
    {
      this.others, run, now := others, [], EmptyStore;
    }

    /** The reconcile of `k` is at work, and has done so far what its controller does. */
    ghost predicate Working(k: Key, a: Answers)
      reads this
    {
      Valid() && PlaysBeside(others, k) && since <= |run| && Follows(run, since, k, a)
    }

    /** Between two calls of the reconcile of `k`. */
    method Meanwhile(k: Key, ghost a: Answers)
      requires Working(k, a)
      modifies this`run, this`now
      ensures Working(k, a) && old(run) <= run && PcOf(now, k) == old(PcOf(now, k))
      ensures forall i :: |old(run)| <= i < |run| ==> Foreign(run[i], k)
    {
      var more := others(run);
      OthersKeepPc(run, more, k);
      OthersFollow(run, more, since, k, a);
      run := run + more;
      now := After(run);
    }

    method Take(step: Step, ghost a: Answers)
      requires Working(step.k, a) && Enabled(now, step) && !Foreign(step, step.k) && Chosen(run, step, a)
      modifies this`run, this`now
      ensures Working(step.k, a) && old(run) <= run && EndsWith(run, step)
      ensures Ended(run, step.k, a, ResultOf(old(now), step, a))
      ensures PcOf(now, step.k) == NextPc(old(now), step)
      ensures step.Abort? ==> now.objects == old(now.objects)
      ensures run[..|run| - 1] == old(run)
    {
      Snoc(run, step);
      NextPcIsNext(now, step);
      now := Apply(now, step);
      run := run + [step];
    }

    /** One reconcile of `k`: whatever happens between its calls, each is the one its controller makes, and
        it is over with a call that stands for its outcome, unless the first Get failed or found nothing. */
    method Reconcile(k: Key, a: Answers) returns (r: Result)
      requires Valid() && PlaysBeside(others, k) && PcOf(now, k).Idle?
      modifies this
      ensures Valid() && old(run) <= run && PcOf(now, k).Idle?
      ensures Follows(run, |old(run)|, k, a)
      ensures Ended(run, k, a, r)
           || ((if a.fails(run) then r.Failed? else r.Vanished? && k !in now.objects)
               && forall i :: |old(run)| <= i < |run| ==> Foreign(run[i], k))
      ensures forall i :: |old(run)| <= i < |run| && run[i].k == k && run[i].CloudDelete? ==>
        a.passes && a.allowed && run[i].ok == a.cloudOk
      ensures forall i :: |old(run)| <= i < |run| && run[i] == CloudEnsure(k) ==> a.passes && a.allowed && a.cloudOk
      ensures r.Finalized? ==> EndsWith(run, RemoveFinalizer(k))
      ensures r.Reconciled? ==> EndsWith(run, PatchReady(k))
      ensures r.Withdrawn? ==> EndsWith(run, DeleteSelf(k))
      ensures r.NotReady? || r.Refused? ==> EndsWith(run, PatchNotReady(k))
      ensures r.StillReferenced? ==> EndsWith(run, List(k))
      ensures r.Reconciled? ==> a.passes && a.allowed && a.cloudOk
      ensures r.Refused? ==> a.passes && !a.allowed
    {
      since := |run|;
      r := ReconcileOne(k, a);
      FollowsAll(run, since, k, a);
    }

    method ReconcileOne(k: Key, a: Answers) returns (r: Result)
      requires Working(k, a) && PcOf(now, k).Idle?
      modifies this`run, this`now
      ensures Working(k, a) && old(run) <= run && PcOf(now, k).Idle?
      ensures Ended(run, k, a, r)
           || ((if a.fails(run) then r.Failed? else r.Vanished? && k !in now.objects)
               && forall i :: |old(run)| <= i < |run| ==> Foreign(run[i], k))
      ensures r.Reconciled? ==> a.passes && a.allowed && a.cloudOk
      ensures r.Refused? ==> a.passes && !a.allowed
    {
      Meanwhile(k, a);
      if a.fails(run) {
        return Failed;
      }
      if k !in now.objects {
        return Vanished;
      }
      Take(Get(k), a);
      var o := PcOf(now, k).o;
      Meanwhile(k, a);
      if o.terminating {
        r := DeleteObject(k, a);
      } else {
        r := ReconcileLive(k, a);
      }
    }

    /** Any failing call ends the reconcile. */
    method GiveUpOn(k: Key, ghost a: Answers) returns (r: Result)
      requires Working(k, a) && !PcOf(now, k).Idle? && Stops(run, PcOf(now, k), k, a)
      modifies this`run, this`now
      ensures Working(k, a) && old(run) <= run && PcOf(now, k).Idle? && Ended(run, k, a, r) && r.Failed?
      ensures now.objects == old(now.objects)
      ensures EndsWith(run, Abort(k)) && run[..|run| - 1] == old(run)
    {
      Take(Abort(k), a);
      r := Failed;
    }

    method PatchNotReadyStatus(k: Key, a: Answers, done: Result) returns (r: Result)
      requires Working(k, a) && PcOf(now, k).Reporting?
      requires done == if !PcOf(now, k).o.terminating then NotReady else if a.allowed then Failed else Refused
      modifies this`run, this`now
      ensures Working(k, a) && old(run) <= run && PcOf(now, k).Idle? && Ended(run, k, a, r)
      ensures r == Failed || (r == done && EndsWith(run, PatchNotReady(k)))
      ensures r == Failed && done != Failed ==> k !in now.objects || CallFailed(a, run)
    {
      Meanwhile(k, a);
      if k !in now.objects || a.fails(run) {
        r := GiveUpOn(k, a);
        return;
      }
      Take(PatchNotReady(k), a);
      r := done;
    }

    method ReconcileLive(k: Key, a: Answers) returns (r: Result)
      requires Working(k, a)
      requires PcOf(now, k).Fetched? && !PcOf(now, k).o.terminating
      modifies this`run, this`now
      ensures Working(k, a) && old(run) <= run && PcOf(now, k).Idle? && Ended(run, k, a, r)
      ensures r.Reconciled? ==> EndsWith(run, PatchReady(k))
      ensures r.Withdrawn? ==> EndsWith(run, DeleteSelf(k))
      ensures r.NotReady? ==> EndsWith(run, PatchNotReady(k))
      ensures !r.Finalized? && !r.Refused? && !r.StillReferenced?
      ensures r.Reconciled? ==> a.passes && a.allowed && a.cloudOk
    {
      var o := PcOf(now, k).o;
      if !o.finalizer && (!Current(now, k, o) || a.fails(run)) {
        r := GiveUpOn(k, a);
        return;
      }
      Take(AddFinalizer(k), a);
      ReadingIsLive(run, k);
      r := ReadDependencies(k, a);
      if !r.Reconciled? {
        return;
      }
      r := Conclude(k, a);
    }

    /** Dependencies, provider, policy and cloud decide what is reported. */
    method Conclude(k: Key, a: Answers) returns (r: Result)
      requires Working(k, a)
      requires PcOf(now, k).Reading? && !PcOf(now, k).o.terminating && |PcOf(now, k).seen| == |PcOf(now, k).o.refs|
      modifies this`run, this`now
      ensures Working(k, a) && old(run) <= run && PcOf(now, k).Idle? && Ended(run, k, a, r)
      ensures r.Failed? || r.Reconciled? || r.NotReady?
      ensures r.Reconciled? ==> EndsWith(run, PatchReady(k))
      ensures r.Reconciled? ==> old(PcOf(now, k)).ready && a.passes && a.allowed && a.cloudOk
      ensures r.NotReady? ==> EndsWith(run, PatchNotReady(k))
      ensures r.NotReady? ==> !(old(PcOf(now, k)).ready && a.passes && a.allowed && a.cloudOk)
      ensures r.Failed? ==> k !in now.objects || CallFailed(a, run)
    {
      if !PcOf(now, k).ready || !a.passes || !a.allowed || !a.cloudOk {
        Take(GiveUp(k), a);
        r := PatchNotReadyStatus(k, a, NotReady);
        return;
      }
      r := EnsureAndReport(k, a);
    }

    method EnsureAndReport(k: Key, a: Answers) returns (r: Result)
      requires Working(k, a)
      requires PcOf(now, k).Reading? && PcOf(now, k).ready && |PcOf(now, k).seen| == |PcOf(now, k).o.refs|
      requires a.passes && a.allowed && a.cloudOk
      modifies this`run, this`now
      ensures Working(k, a) && old(run) <= run && PcOf(now, k).Idle? && Ended(run, k, a, r)
      ensures (r == Failed && (k !in now.objects || CallFailed(a, run)))
           || (r == Reconciled && EndsWith(run, PatchReady(k)))
    {
      Meanwhile(k, a);
      Take(CloudEnsure(k), a);
      r := PatchReadyStatus(k, a);
    }

    method PatchReadyStatus(k: Key, a: Answers) returns (r: Result)
      requires Working(k, a) && PcOf(now, k).Ensured?
      modifies this`run, this`now
      ensures Working(k, a) && old(run) <= run && PcOf(now, k).Idle? && Ended(run, k, a, r)
      ensures (r == Failed && (k !in now.objects || CallFailed(a, run)))
           || (r == Reconciled && EndsWith(run, PatchReady(k)))
    {
      Meanwhile(k, a);
      if k !in now.objects || a.fails(run) {
        r := GiveUpOn(k, a);
        return;
      }
      Take(PatchReady(k), a);
      r := Reconciled;
    }

    /** The dependencies are read one after the other; `Reconciled` when all exist and none is
        terminating. */
    method ReadDependencies(k: Key, a: Answers) returns (r: Result)
      requires Working(k, a)
      requires PcOf(now, k).Reading? && !PcOf(now, k).o.terminating && |PcOf(now, k).seen| <= |PcOf(now, k).o.refs|
      modifies this`run, this`now
      ensures Working(k, a) && old(run) <= run
      ensures if r.Reconciled?
              then PcOf(now, k).Reading? && !PcOf(now, k).o.terminating && |PcOf(now, k).seen| == |PcOf(now, k).o.refs|
              else PcOf(now, k).Idle? && Ended(run, k, a, r)
      ensures r.Reconciled? || r.Failed? || (r.Withdrawn? && EndsWith(run, DeleteSelf(k)))
           || (r.NotReady? && EndsWith(run, PatchNotReady(k)))
    {
      var refs := PcOf(now, k).o.refs;
      r := Reconciled;
      while r.Reconciled? && |PcOf(now, k).seen| < |refs|
        invariant Working(k, a) && old(run) <= run
        invariant r.Reconciled? ==>
          PcOf(now, k).Reading? && !PcOf(now, k).o.terminating
          && PcOf(now, k).o.refs == refs && |PcOf(now, k).seen| <= |refs|
        invariant !r.Reconciled? ==> PcOf(now, k).Idle? && Ended(run, k, a, r)
        invariant r.Reconciled? || r.Failed? || (r.Withdrawn? && EndsWith(run, DeleteSelf(k)))
               || (r.NotReady? && EndsWith(run, PatchNotReady(k)))
        decreases r.Reconciled?, if PcOf(now, k).Reading? then |refs| - |PcOf(now, k).seen| else 0
      {
        r := ReadNext(k, a);
      }
    }

    /** The next dependency; `Reconciled` when it exists and is not terminating. */
    method ReadNext(k: Key, a: Answers) returns (r: Result)
      requires Working(k, a)
      requires PcOf(now, k).Reading? && !PcOf(now, k).o.terminating && |PcOf(now, k).seen| < |PcOf(now, k).o.refs|
      modifies this`run, this`now
      ensures Working(k, a) && old(run) <= run
      ensures if !r.Reconciled? then PcOf(now, k).Idle? && Ended(run, k, a, r) else
                PcOf(now, k).Reading? && PcOf(now, k).o == old(PcOf(now, k).o)
                && |PcOf(now, k).seen| == |old(PcOf(now, k).seen)| + 1
      ensures r.Reconciled? || r.Failed? || (r.Withdrawn? && EndsWith(run, DeleteSelf(k)))
           || (r.NotReady? && EndsWith(run, PatchNotReady(k)))
    {
      Meanwhile(k, a);
      if a.fails(run) {
        r := GiveUpOn(k, a);
        return;
      }
      Take(ReadRef(k), a);
      if PcOf(now, k).Reading? {
        return Reconciled;
      }
      r := StopAtDependency(k, a);
    }

    /** A missing dependency is reported; for a terminating one the object deletes itself. */
    method StopAtDependency(k: Key, a: Answers) returns (r: Result)
      requires Working(k, a) && (PcOf(now, k).Reporting? || PcOf(now, k).Withdrawing?)
      requires !PcOf(now, k).o.terminating
      modifies this`run, this`now
      ensures Working(k, a) && old(run) <= run && PcOf(now, k).Idle? && Ended(run, k, a, r)
      ensures r.Failed? || (r.Withdrawn? && EndsWith(run, DeleteSelf(k)))
           || (r.NotReady? && EndsWith(run, PatchNotReady(k)))
    {
      if PcOf(now, k).Reporting? {
        r := PatchNotReadyStatus(k, a, NotReady);
      } else {
        r := Withdraw(k, a);
      }
    }

    method Withdraw(k: Key, a: Answers) returns (r: Result)
      requires Working(k, a) && PcOf(now, k).Withdrawing?
      modifies this`run, this`now
      ensures Working(k, a) && old(run) <= run && PcOf(now, k).Idle? && Ended(run, k, a, r)
      ensures (r.Failed? && CallFailed(a, run)) || (r.Withdrawn? && EndsWith(run, DeleteSelf(k)))
    {
      Meanwhile(k, a);
      if a.fails(run) {
        r := GiveUpOn(k, a);
        return;
      }
      Take(DeleteSelf(k), a);
      r := Withdrawn;
    }

    /** The deletion path: wait for referrers, delete from the cloud as policy says, release. */
    method DeleteObject(k: Key, a: Answers) returns (r: Result)
      requires Working(k, a)
      requires PcOf(now, k).Fetched? && PcOf(now, k).o.terminating
      modifies this`run, this`now
      ensures Working(k, a) && old(run) <= run && PcOf(now, k).Idle? && Ended(run, k, a, r)
      ensures r.Finalized? ==> EndsWith(run, RemoveFinalizer(k))
      ensures r.Refused? ==> EndsWith(run, PatchNotReady(k)) && a.passes && !a.allowed
      ensures r.StillReferenced? ==> EndsWith(run, List(k))
      ensures !r.Reconciled? && !r.Withdrawn? && !r.NotReady?
      ensures r.Finalized? ==> SkipsTheCloud(k, old(PcOf(now, k).o))
                               || (a.passes && if a.allowed then a.cloudOk else old(PcOf(now, k).o).record.None?)
      ensures r.Failed? ==> !a.passes || !a.cloudOk || !Current(now, k, old(PcOf(now, k).o)) || CallFailed(a, run)
      ensures r.Vanished? <==> !old(PcOf(now, k).o).finalizer
    {
      var o := PcOf(now, k).o;
      Take(StartDeletion(k), a);
      if !o.finalizer {
        return Vanished;
      }
      if PcOf(now, k).Listing? {
        r := ListReferrers(k, a);
        if !PcOf(now, k).Unreferenced? {
          return;
        }
      }
      r := Release(k, a);
    }

    /** All lists are fetched before the decision; the reconcile goes on only without any referrer. */
    method ListReferrers(k: Key, a: Answers) returns (r: Result)
      requires Working(k, a) && PcOf(now, k).Listing? && PcOf(now, k).pending != []
      requires PcOf(now, k).o.terminating
      modifies this`run, this`now
      ensures Working(k, a) && old(run) <= run
      ensures PcOf(now, k) == Unreferenced(old(PcOf(now, k).o))
           || (PcOf(now, k).Idle? && r.StillReferenced? && EndsWith(run, List(k)) && Ended(run, k, a, r))
           || (PcOf(now, k).Idle? && r.Failed? && CallFailed(a, run) && Ended(run, k, a, r))
    {
      var o := PcOf(now, k).o;
      while PcOf(now, k).Listing?
        invariant Working(k, a) && old(run) <= run
        invariant PcOf(now, k) == Unreferenced(o)
               || (PcOf(now, k).Idle? && EndsWith(run, List(k)) && Ended(run, k, a, StillReferenced))
               || (PcOf(now, k).Listing? && PcOf(now, k).pending != [] && PcOf(now, k).o == o)
        decreases if PcOf(now, k).Listing? then |PcOf(now, k).pending| else 0
      {
        Meanwhile(k, a);
        if a.fails(run) {
          r := GiveUpOn(k, a);
          return;
        }
        Take(List(k), a);
      }
      r := StillReferenced;
    }

    method Release(k: Key, a: Answers) returns (r: Result)
      requires Working(k, a) && PcOf(now, k).Unreferenced? && PcOf(now, k).o.terminating
      modifies this`run, this`now
      ensures Working(k, a) && old(run) <= run && PcOf(now, k).Idle? && Ended(run, k, a, r)
      ensures r.Finalized? ==> EndsWith(run, RemoveFinalizer(k))
      ensures r.Refused? ==> EndsWith(run, PatchNotReady(k)) && a.passes && !a.allowed
      ensures r.Finalized? || r.Refused? || r.Failed?
      ensures r.Finalized? ==> SkipsTheCloud(k, old(PcOf(now, k).o))
                               || (a.passes && if a.allowed then a.cloudOk else old(PcOf(now, k).o).record.None?)
      ensures r.Failed? ==> !a.passes || !a.cloudOk || !Current(now, k, old(PcOf(now, k).o)) || CallFailed(a, run)
    {
      var o := PcOf(now, k).o;
      Meanwhile(k, a);
      if SkipsTheCloud(k, o) {
        r := SkipTheCloud(k, a);
      } else if !a.passes {
        r := GiveUpOn(k, a);
      } else if a.allowed {
        r := DeleteFromCloud(k, a);
      } else if o.record.Some? {
        r := RefuseToFinalize(k, a);
      } else {
        r := SkipTheCloud(k, a);
      }
    }

    method RefuseToFinalize(k: Key, a: Answers) returns (r: Result)
      requires Working(k, a)
      requires PcOf(now, k).Unreferenced? && PcOf(now, k).o.terminating && Enabled(now, RefuseFinalization(k))
      requires !SkipsTheCloud(k, PcOf(now, k).o) && PcOf(now, k).o.record.Some? && a.passes && !a.allowed
      modifies this`run, this`now
      ensures Working(k, a) && old(run) <= run && PcOf(now, k).Idle? && Ended(run, k, a, r)
      ensures r.Failed? || (r.Refused? && EndsWith(run, PatchNotReady(k)))
      ensures r.Failed? ==> k !in now.objects || CallFailed(a, run)
    {
      Take(RefuseFinalization(k), a);
      r := PatchNotReadyStatus(k, a, Refused);
    }

    method SkipTheCloud(k: Key, a: Answers) returns (r: Result)
      requires Working(k, a)
      requires PcOf(now, k).Unreferenced? && Enabled(now, SkipCloudDelete(k))
      requires SkipsTheCloud(k, PcOf(now, k).o) || (a.passes && !a.allowed && PcOf(now, k).o.record.None?)
      modifies this`run, this`now
      ensures Working(k, a) && old(run) <= run && PcOf(now, k).Idle? && Ended(run, k, a, r)
      ensures r.Failed? || (r.Finalized? && EndsWith(run, RemoveFinalizer(k)))
      ensures r.Failed? ==> !Current(now, k, old(PcOf(now, k).o)) || CallFailed(a, run)
    {
      Take(SkipCloudDelete(k), a);
      r := DropFinalizer(k, a);
    }

    method DeleteFromCloud(k: Key, a: Answers) returns (r: Result)
      requires Working(k, a)
      requires PcOf(now, k).Unreferenced? && PcOf(now, k).o.terminating && Enabled(now, CloudDelete(k, a.cloudOk))
      requires !SkipsTheCloud(k, PcOf(now, k).o) && a.passes && a.allowed
      modifies this`run, this`now
      ensures Working(k, a) && old(run) <= run && PcOf(now, k).Idle? && Ended(run, k, a, r)
      ensures if a.cloudOk then r.Failed? || (r.Finalized? && EndsWith(run, RemoveFinalizer(k))) else r.Failed?
      ensures r.Failed? ==> !a.cloudOk || !Current(now, k, old(PcOf(now, k).o)) || CallFailed(a, run)
    {
      Take(CloudDelete(k, a.cloudOk), a);
      if !a.cloudOk {
        r := PatchNotReadyStatus(k, a, Failed);
        return;
      }
      r := DropFinalizer(k, a);
    }

    method DropFinalizer(k: Key, a: Answers) returns (r: Result)
      requires Working(k, a) && PcOf(now, k).Finalizing?
      modifies this`run, this`now
      ensures Working(k, a) && old(run) <= run && PcOf(now, k).Idle? && Ended(run, k, a, r)
      ensures (r == Failed && (!Current(now, k, old(PcOf(now, k).o)) || CallFailed(a, run)))
           || (r == Finalized && EndsWith(run, RemoveFinalizer(k)))
    {
      var o := PcOf(now, k).o;
      Meanwhile(k, a);
      if !Current(now, k, o) || a.fails(run) {
        r := GiveUpOn(k, a);
        return;
      }
      Take(RemoveFinalizer(k), a);
      r := Finalized;
    }
  }
}

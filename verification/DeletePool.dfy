/** The worker pool of `DeleteBucket`: a listing that feeds it, a semaphore that bounds what is
    outstanding, workers that delete object versions, a mutex around the first error, and a barrier
    before the bucket itself is deleted. Every schedule is a sequence of steps. */
module DeletePool {
  import opened Common

  const SLOTS := 2000
  const WORKERS := 32

  datatype Outcome = Removed | Missing | Failed

  /** The life of one listed object version. */
  datatype Task =
    | Unlisted
    | Waiting                   // the listing waits for a slot
    | Slotted                   // slot taken, not yet submitted
    | Queued
    | Deleting
    | Locking(o: Outcome)       // wants the error mutex
    | Critical(o: Outcome)      // holds it
    | Releasing(o: Outcome)     // about to give the slot back
    | Finished(o: Outcome)

  datatype Listing = Running | Ended | Broken

  datatype Result = BucketDeleted | BucketFailed | ListingFailed | ObjectFailed(i: nat)

  datatype Phase = Working | DeletingBucket | Over(result: Result)

  datatype State = State(
    tasks: seq<Task>,           // one per object version of the bucket
    next: nat,                  // versions handed over by the listing so far
    listing: Listing,
    slots: nat,                 // semaphore
    busy: nat,                  // workers at work
    mutex: Option<nat>,
    firstError: Option<nat>,
    attempts: seq<nat>,         // deletion requests per version
    phase: Phase,
    present: bool)              // the bucket exists in the cloud

  datatype Step =
    | Deliver | Acquire | Submit | EndListing | BreakListing
    | Take(i: nat) | Finish(i: nat, o: Outcome) | Lock(i: nat) | Unlock(i: nat) | Release(i: nat)
    | Join
    | DeleteBucket(ok: bool)    // ok: deleted, or not found
    | Vanish                    // somebody else deletes the bucket

  function Init(n: nat, present: bool): State {
    State(seq(n, i => Unlisted), 0, Running, 0, 0, None, None, seq(n, i => 0), Working, present)
  }

  predicate Is(s: State, i: nat, t: Task) {
    i < |s.tasks| && s.tasks[i] == t
  }

  predicate AllFinished(s: State)
    requires s.next <= |s.tasks|
  {
    forall i :: 0 <= i < s.next ==> s.tasks[i].Finished?
  }

  predicate Enabled(s: State, step: Step) {
    && s.next <= |s.tasks| == |s.attempts|
    && match step
       case Deliver => s.phase.Working? && s.listing.Running? && s.present && Is(s, s.next, Unlisted)
       case Acquire => Is(s, s.next, Waiting) && s.slots < SLOTS
       case Submit => Is(s, s.next, Slotted)
       case EndListing => s.phase.Working? && s.listing.Running? && s.present && s.next == |s.tasks|
       case BreakListing => s.phase.Working? && s.listing.Running? && (s.next == |s.tasks| || Is(s, s.next, Unlisted))
       case Take(i) => Is(s, i, Queued) && s.busy < WORKERS
       case Finish(i, _) => Is(s, i, Deleting)
       case Lock(i) => i < |s.tasks| && s.tasks[i].Locking? && s.mutex.None?
       case Unlock(i) => i < |s.tasks| && s.tasks[i].Critical?
       case Release(i) => i < |s.tasks| && s.tasks[i].Releasing? && s.slots > 0 && s.busy > 0
       case Join => s.phase.Working? && !s.listing.Running? && AllFinished(s)
       case DeleteBucket(_) => s.phase.DeletingBucket?
       case Vanish => s.present
  }

  function Set(s: State, i: nat, t: Task): State
    requires i < |s.tasks|
  {
    s.(tasks := s.tasks[i := t])
  }

  function Apply(s: State, step: Step): State
    requires Enabled(s, step)
  {
    match step
    case Deliver => Set(s, s.next, Waiting)
    case Acquire => Set(s, s.next, Slotted).(slots := s.slots + 1)
    case Submit => Set(s, s.next, Queued).(next := s.next + 1)
    case EndListing => s.(listing := Ended)
    case BreakListing => s.(listing := Broken)
    case Take(i) => Set(s, i, Deleting).(busy := s.busy + 1)
    case Finish(i, o) =>
      Set(s, i, if o.Removed? then Releasing(o) else Locking(o)).(attempts := s.attempts[i := s.attempts[i] + 1])
    case Lock(i) => Set(s, i, Critical(s.tasks[i].o)).(mutex := Some(i))
    case Unlock(i) =>
      var o := s.tasks[i].o;
      Set(s, i, Releasing(o)).(
        mutex := None,
        firstError := if o.Failed? && s.firstError.None? then Some(i) else s.firstError)
    case Release(i) => Set(s, i, Finished(s.tasks[i].o)).(slots := s.slots - 1, busy := s.busy - 1)
    case Join =>
      s.(phase :=
        if s.listing.Broken? then Over(ListingFailed)
        else if s.firstError.Some? then Over(ObjectFailed(s.firstError.value))
        else DeletingBucket)
    case DeleteBucket(ok) =>
      if ok then s.(phase := Over(BucketDeleted), present := false) else s.(phase := Over(BucketFailed))
    case Vanish => s.(present := false)
  }

  // ----- counting tasks -----

  function Sum(tasks: seq<Task>, f: Task -> nat): nat {
    if tasks == [] then 0 else f(tasks[0]) + Sum(tasks[1..], f)
  }

  lemma {:induction false} SumUpdate(tasks: seq<Task>, f: Task -> nat, i: nat, t: Task)
    requires i < |tasks|
    ensures Sum(tasks[i := t], f) == Sum(tasks, f) - f(tasks[i]) + f(t)
  {
    if i == 0 {
      assert tasks[0 := t][1..] == tasks[1..];
    } else {
      assert tasks[i := t][1..] == tasks[1..][i - 1 := t];
      SumUpdate(tasks[1..], f, i - 1, t);
    }
  }

  lemma {:induction false} SumPositive(tasks: seq<Task>, f: Task -> nat)
    requires Sum(tasks, f) > 0
    ensures exists i :: 0 <= i < |tasks| && f(tasks[i]) > 0
  {
    if f(tasks[0]) == 0 {
      SumPositive(tasks[1..], f);
      var i :| 0 <= i < |tasks[1..]| && f(tasks[1..][i]) > 0;
      assert tasks[i + 1] == tasks[1..][i];
    }
  }

  lemma {:induction false} SumZero(tasks: seq<Task>, f: Task -> nat)
    requires forall i :: 0 <= i < |tasks| ==> f(tasks[i]) == 0
    ensures Sum(tasks, f) == 0
  {
    if tasks != [] {
      assert forall i :: 0 <= i < |tasks[1..]| ==> tasks[1..][i] == tasks[i + 1];
      SumZero(tasks[1..], f);
    }
  }

  /** Tasks that hold a slot. */
  function Slot(t: Task): nat {
    if t.Unlisted? || t.Waiting? || t.Finished? then 0 else 1
  }

  /** Tasks that occupy a worker. */
  function Worker(t: Task): nat {
    if t.Deleting? || t.Locking? || t.Critical? || t.Releasing? then 1 else 0
  }

  /** The steps a task has still to take. */
  function Weight(t: Task): nat {
    match t
    case Unlisted => 8
    case Waiting => 7
    case Slotted => 6
    case Queued => 5
    case Deleting => 4
    case Locking(_) => 3
    case Critical(_) => 2
    case Releasing(_) => 1
    case Finished(_) => 0
  }

  function Measure(s: State): nat {
    Sum(s.tasks, Weight) + (if s.listing.Running? then 1 else 0)
    + (if s.phase.Working? then 2 else if s.phase.DeletingBucket? then 1 else 0)
    + (if s.present then 1 else 0)
  }

  // ----- the invariant -----

  predicate Tried(t: Task) {
    t.Locking? || t.Critical? || t.Releasing? || t.Finished?
  }

  predicate Settled(t: Task) {
    t.Releasing? || t.Finished?
  }

  ghost predicate Shape(s: State) {
    s.next <= |s.tasks| == |s.attempts|
  }

  ghost predicate CountsOk(s: State) {
    s.slots == Sum(s.tasks, Slot) <= SLOTS && s.busy == Sum(s.tasks, Worker) <= WORKERS
  }

  ghost predicate TasksOk(s: State)
    requires Shape(s)
  {
    forall i :: 0 <= i < |s.tasks| ==> TaskOk(s, i)
  }

  ghost predicate ErrorOk(s: State) {
    && (s.mutex.Some? ==> s.mutex.value < |s.tasks| && s.tasks[s.mutex.value].Critical?)
    && (s.firstError.Some? ==> s.firstError.value < |s.tasks| && Settled(s.tasks[s.firstError.value])
                               && s.tasks[s.firstError.value].o.Failed?)
  }

  ghost predicate ControlOk(s: State)
    requires Shape(s)
  {
    && (!s.listing.Running? ==> s.next == |s.tasks| || s.tasks[s.next].Unlisted?)
    && (s.listing.Ended? ==> s.next == |s.tasks|)
    && (!s.phase.Working? ==> !s.listing.Running? && AllFinished(s))
    && PhaseOk(s)
  }

  ghost predicate Inv(s: State) {
    Shape(s) && CountsOk(s) && TasksOk(s) && ErrorOk(s) && ControlOk(s)
  }

  ghost predicate PhaseOk(s: State) {
    match s.phase
    case Working => true
    case DeletingBucket => s.listing.Ended? && s.firstError.None?
    case Over(BucketDeleted) => s.listing.Ended? && s.firstError.None? && !s.present
    case Over(BucketFailed) => s.listing.Ended? && s.firstError.None?
    case Over(ListingFailed) => s.listing.Broken?
    case Over(ObjectFailed(i)) => s.listing.Ended? && s.firstError == Some(i)
  }

  ghost predicate TaskOk(s: State, i: nat)
    requires i < |s.tasks| == |s.attempts|
  {
    var t := s.tasks[i];
    && s.attempts[i] == (if Tried(t) then 1 else 0)
    && (i < s.next ==> !t.Unlisted? && !t.Waiting? && !t.Slotted?)
    && (i == s.next ==> t.Unlisted? || t.Waiting? || t.Slotted?)
    && (i > s.next ==> t.Unlisted?)
    && (t.Critical? ==> s.mutex == Some(i))
    && (t.Locking? || t.Critical? ==> !t.o.Removed?)
    && (Settled(t) && t.o.Failed? ==> s.firstError.Some?)
  }

  lemma InitInv(n: nat, present: bool)
    ensures Inv(Init(n, present))
  {
    SumZero(Init(n, present).tasks, Slot);
    SumZero(Init(n, present).tasks, Worker);
  }

  /** The task a step moves. */
  function Moved(s: State, step: Step): nat {
    match step
    case Take(i) => i
    case Finish(i, _) => i
    case Lock(i) => i
    case Unlock(i) => i
    case Release(i) => i
    case _ => s.next
  }

  predicate MovesTask(step: Step) {
    !step.EndListing? && !step.BreakListing? && !step.Join? && !step.DeleteBucket? && !step.Vanish?
  }

  lemma StepSums(s: State, step: Step, f: Task -> nat)
    requires Enabled(s, step)
    ensures var s' := Apply(s, step); var i := Moved(s, step);
      if MovesTask(step)
      then i < |s.tasks| == |s'.tasks| && Sum(s'.tasks, f) == Sum(s.tasks, f) - f(s.tasks[i]) + f(s'.tasks[i])
      else s'.tasks == s.tasks
  {
    if MovesTask(step) {
      var i := Moved(s, step);
      SumUpdate(s.tasks, f, i, Apply(s, step).tasks[i]);
    }
  }

  lemma StepKeepsCounts(s: State, step: Step)
    requires CountsOk(s) && Enabled(s, step)
    ensures CountsOk(Apply(s, step))
  {
    StepSums(s, step, Slot);
    StepSums(s, step, Worker);
  }

  lemma StepKeepsTasks(s: State, step: Step)
    requires Shape(s) && TasksOk(s) && Enabled(s, step)
    ensures TasksOk(Apply(s, step))
  {
    var s' := Apply(s, step);
    if MovesTask(step) {
      assert Moved(s, step) < |s.tasks| && TaskOk(s, Moved(s, step));
    }
    forall i | 0 <= i < |s'.tasks| ensures TaskOk(s', i) {
      assert TaskOk(s, i);
    }
  }

  lemma StepKeepsError(s: State, step: Step)
    requires Shape(s) && TasksOk(s) && ErrorOk(s) && Enabled(s, step)
    ensures ErrorOk(Apply(s, step))
  {
    if MovesTask(step) {
      assert Moved(s, step) < |s.tasks| && TaskOk(s, Moved(s, step));
    }
  }

  lemma StepKeepsControl(s: State, step: Step)
    requires Shape(s) && TasksOk(s) && ControlOk(s) && Enabled(s, step)
    ensures ControlOk(Apply(s, step))
  {
    if MovesTask(step) {
      assert Moved(s, step) < |s.tasks| && TaskOk(s, Moved(s, step));
    }
  }

  lemma StepKeepsInv(s: State, step: Step)
    requires Inv(s) && Enabled(s, step)
    ensures Inv(Apply(s, step))
  {
    StepKeepsCounts(s, step);
    StepKeepsTasks(s, step);
    StepKeepsError(s, step);
    StepKeepsControl(s, step);
  }

  lemma TaskGetsLighter(s: State, step: Step)
    requires Shape(s) && Enabled(s, step) && MovesTask(step)
    ensures var i := Moved(s, step);
      i < |s.tasks| == |Apply(s, step).tasks| && Weight(Apply(s, step).tasks[i]) < Weight(s.tasks[i])
  {
  }

  lemma TasksStay(s: State, step: Step)
    requires Enabled(s, step)
    ensures var s' := Apply(s, step);
      if MovesTask(step) then s'.listing == s.listing && s'.phase == s.phase && s'.present == s.present
      else s'.tasks == s.tasks
  {
  }

  /** Every step brings the end nearer. */
  lemma StepDecreases(s: State, step: Step)
    requires Inv(s) && Enabled(s, step)
    ensures Measure(Apply(s, step)) < Measure(s)
  {
    TasksStay(s, step);
    if MovesTask(step) {
      StepSums(s, step, Weight);
      TaskGetsLighter(s, step);
    }
  }

  // ----- every schedule -----

  predicate IsRun(n: nat, present: bool, steps: seq<Step>)
    decreases |steps|, 0
  {
    |steps| > 0 ==>
      IsRun(n, present, steps[..|steps| - 1]) && Enabled(After(n, present, steps[..|steps| - 1]), steps[|steps| - 1])
  }

  function After(n: nat, present: bool, steps: seq<Step>): State
    requires IsRun(n, present, steps)
    decreases |steps|, 1
  {
    if |steps| == 0 then Init(n, present) else Apply(After(n, present, steps[..|steps| - 1]), steps[|steps| - 1])
  }

  lemma {:induction false} RunKeepsInv(n: nat, present: bool, steps: seq<Step>)
    requires IsRun(n, present, steps)
    ensures Inv(After(n, present, steps)) && |After(n, present, steps).tasks| == n
    ensures Measure(After(n, present, steps)) + |steps| <= 8 * n + 4
    decreases |steps|
  {
    if |steps| == 0 {
      InitInv(n, present);
      InitWeight(n, Init(n, present).tasks);
    } else {
      var init, step := steps[..|steps| - 1], steps[|steps| - 1];
      RunKeepsInv(n, present, init);
      StepKeepsInv(After(n, present, init), step);
      StepDecreases(After(n, present, init), step);
    }
  }

  lemma {:induction false} InitWeight(n: nat, tasks: seq<Task>)
    requires |tasks| == n && forall i :: 0 <= i < n ==> tasks[i] == Unlisted
    ensures Sum(tasks, Weight) == 8 * n
  {
    if n > 0 {
      InitWeight(n - 1, tasks[1..]);
    }
  }

  /** At most 2000 tasks are outstanding and at most 32 are at work, at any time of any schedule. */
  lemma OutstandingIsBounded(n: nat, present: bool, steps: seq<Step>)
    requires IsRun(n, present, steps)
    ensures Sum(After(n, present, steps).tasks, Slot) <= 2000 && Sum(After(n, present, steps).tasks, Worker) <= 32
  {
    RunKeepsInv(n, present, steps);
  }

  /** The deletion of the bucket itself has been requested. */
  predicate Requested(s: State) {
    s.phase.DeletingBucket? || s.phase == Over(BucketDeleted) || s.phase == Over(BucketFailed)
  }

  predicate AllRemoved(s: State) {
    s.listing.Ended? && s.next == |s.tasks|
    && forall i :: 0 <= i < |s.tasks| ==> s.tasks[i] == Finished(Removed) || s.tasks[i] == Finished(Missing)
  }

  lemma PastBarrier(s: State)
    requires Inv(s) && !s.phase.Working?
    ensures Requested(s) <==> AllRemoved(s)
  {
    if Requested(s) {
      forall i | 0 <= i < |s.tasks| ensures s.tasks[i].Finished? && !s.tasks[i].o.Failed? {
        assert TaskOk(s, i);
      }
    }
  }

  /** Past the barrier every delivered version was attempted exactly once and has finished, no other
      was touched, and the bucket deletion is requested iff the listing ended well and every version
      was removed or missing. A reported object error is one of a failed version. */
  lemma BarrierExactly(n: nat, present: bool, steps: seq<Step>)
    requires IsRun(n, present, steps) && !After(n, present, steps).phase.Working?
    ensures var s := After(n, present, steps);
      && |s.tasks| == |s.attempts| == n && s.next <= n
      && (forall i :: 0 <= i < n ==> s.attempts[i] == if i < s.next then 1 else 0)
      && (forall i :: 0 <= i < s.next ==> s.tasks[i].Finished?)
      && (Requested(s) <==> AllRemoved(s))
      && (s.phase.Over? && s.phase.result.ObjectFailed? ==> Is(s, s.phase.result.i, Finished(Failed)))
  {
    RunKeepsInv(n, present, steps);
    var s := After(n, present, steps);
    PastBarrier(s);
    forall i | 0 <= i < n ensures s.attempts[i] == if i < s.next then 1 else 0 {
      assert TaskOk(s, i);
    }
    if s.phase.Over? && s.phase.result.ObjectFailed? {
      assert TaskOk(s, s.phase.result.i);
    }
  }

  /** The first error recorded under the mutex is the one reported: later ones never replace it. */
  lemma {:induction false} FirstErrorStays(n: nat, present: bool, steps: seq<Step>, more: seq<Step>)
    requires IsRun(n, present, steps) && IsRun(n, present, steps + more) && After(n, present, steps).firstError.Some?
    ensures After(n, present, steps + more).firstError == After(n, present, steps).firstError
    decreases |more|
  {
    if more == [] {
      assert steps + more == steps;
    } else {
      var all := steps + more;
      assert all[..|all| - 1] == steps + more[..|more| - 1];
      FirstErrorStays(n, present, steps, more[..|more| - 1]);
    }
  }

  /** Before the barrier no version is attempted twice. */
  lemma AtMostOneAttempt(n: nat, present: bool, steps: seq<Step>, i: nat)
    requires IsRun(n, present, steps) && i < n
    ensures |After(n, present, steps).attempts| == n && After(n, present, steps).attempts[i] <= 1
    ensures After(n, present, steps).attempts[i] == 1 ==> i < After(n, present, steps).next
  {
    RunKeepsInv(n, present, steps);
    assert TaskOk(After(n, present, steps), i);
  }

  /** A working task can go on: the mutex, if taken, is held by a task that will let go of it. */
  lemma WorkerProceeds(s: State, i: nat) returns (step: Step)
    requires Inv(s) && i < |s.tasks| && Worker(s.tasks[i]) == 1
    ensures Enabled(s, step)
  {
    var t := s.tasks[i];
    assert TaskOk(s, i);
    if t.Deleting? {
      step := Finish(i, Removed);
    } else if t.Releasing? {
      StepSumsPositive(s, i);
      step := Release(i);
    } else if s.mutex.Some? {
      step := Unlock(s.mutex.value);
    } else {
      step := Lock(i);
    }
  }

  lemma {:induction false} SumAtLeast(tasks: seq<Task>, f: Task -> nat, i: nat)
    requires i < |tasks|
    ensures Sum(tasks, f) >= f(tasks[i])
  {
    if i > 0 {
      SumAtLeast(tasks[1..], f, i - 1);
    }
  }

  lemma StepSumsPositive(s: State, i: nat)
    requires Inv(s) && i < |s.tasks| && Worker(s.tasks[i]) == 1
    ensures s.slots > 0 && s.busy > 0
  {
    SumAtLeast(s.tasks, Slot, i);
    SumAtLeast(s.tasks, Worker, i);
  }

  /** A task that was handed over and has not finished can go on, or one that keeps it waiting can. */
  lemma TaskProceeds(s: State, i: nat) returns (step: Step)
    requires Inv(s) && i < s.next && !s.tasks[i].Finished?
    ensures Enabled(s, step)
  {
    assert TaskOk(s, i);
    if !s.tasks[i].Queued? {
      step := WorkerProceeds(s, i);
    } else if s.busy < WORKERS {
      step := Take(i);
    } else {
      SumPositive(s.tasks, Worker);
      var j :| 0 <= j < |s.tasks| && Worker(s.tasks[j]) > 0;
      step := WorkerProceeds(s, j);
    }
  }

  /** The listing, when it waits for a slot, waits for a task that can go on. */
  lemma ListingProceeds(s: State) returns (step: Step)
    requires Inv(s) && s.phase.Working? && s.listing.Running?
    ensures Enabled(s, step)
  {
    if s.next == |s.tasks| {
      step := if s.present then EndListing else BreakListing;
      return;
    }
    assert TaskOk(s, s.next);
    if s.tasks[s.next].Unlisted? {
      step := if s.present then Deliver else BreakListing;
    } else if s.tasks[s.next].Slotted? {
      step := Submit;
    } else if s.slots < SLOTS {
      step := Acquire;
    } else {
      SumPositive(s.tasks, Slot);
      var j :| 0 <= j < |s.tasks| && Slot(s.tasks[j]) > 0;
      assert TaskOk(s, j);
      step := TaskProceeds(s, j);
    }
  }

  /** No schedule deadlocks, and every schedule ends: until the outcome is known some step is enabled,
      and no schedule takes more than 8n + 4 steps. */
  lemma AlwaysEnds(n: nat, present: bool, steps: seq<Step>) returns (step: Step)
    requires IsRun(n, present, steps)
    ensures |steps| <= 8 * n + 4
    ensures !After(n, present, steps).phase.Over? ==> Enabled(After(n, present, steps), step)
  {
    RunKeepsInv(n, present, steps);
    var s := After(n, present, steps);
    step := Deliver;
    if s.phase.DeletingBucket? {
      step := DeleteBucket(true);
    } else if s.phase.Working? {
      if s.listing.Running? {
        step := ListingProceeds(s);
      } else if AllFinished(s) {
        step := Join;
      } else {
        var i :| 0 <= i < s.next && !s.tasks[i].Finished?;
        step := TaskProceeds(s, i);
      }
    }
  }

  // ----- a bucket that is already gone -----

  /** Nothing of a missing bucket is ever delivered, and its listing cannot end well. */
  ghost predicate Untouched(n: nat, s: State) {
    !s.present && s.next == 0 && !s.listing.Ended?
    && s.tasks == Init(n, false).tasks && s.attempts == Init(n, false).attempts
    && (s.phase.Working? || s.phase == Over(ListingFailed))
  }

  lemma {:induction false} MissingStaysUntouched(n: nat, steps: seq<Step>)
    requires IsRun(n, false, steps)
    ensures Untouched(n, After(n, false, steps))
  {
    if steps != [] {
      MissingStaysUntouched(n, steps[..|steps| - 1]);
      RunKeepsInv(n, false, steps);
    }
  }

  /** On a bucket that is already gone every schedule, whatever it does, attempts nothing, never asks for
      the deletion of the bucket, and ends, as it must, in an error of the listing. */
  lemma MissingBucketIsAnError(n: nat, steps: seq<Step>)
    requires IsRun(n, false, steps)
    ensures var s := After(n, false, steps);
      && !Requested(s) && s.attempts == seq(n, i => 0)
      && (s.phase.Working? || s.phase == Over(ListingFailed))
  {
    MissingStaysUntouched(n, steps);
  }

  /** The state after the first `i` of `n` versions were removed, one by one. */
  function Emptied(n: nat, i: nat): State {
    State(seq(n, j => if j < i then Finished(Removed) else Unlisted), i, Running, 0, 0, None, None,
      seq(n, j => if j < i then 1 else 0), Working, true)
  }

  lemma Then(n: nat, present: bool, steps: seq<Step>, step: Step) returns (run: seq<Step>)
    requires IsRun(n, present, steps) && Enabled(After(n, present, steps), step)
    ensures IsRun(n, present, run) && After(n, present, run) == Apply(After(n, present, steps), step)
  {
    run := steps + [step];
    assert run[..|run| - 1] == steps;
  }

  /** The same with version `i` on its way. */
  function Midway(n: nat, i: nat, t: Task): State
    requires i < n
  {
    Emptied(n, i).(
      tasks := Emptied(n, i).tasks[i := t],
      next := if Slot(t) == 0 || t.Slotted? then i else i + 1,
      slots := Slot(t), busy := Worker(t),
      attempts := if Tried(t) then Emptied(n, i + 1).attempts else Emptied(n, i).attempts)
  }

  lemma HandOverSteps(n: nat, i: nat)
    requires i < n
    ensures Enabled(Emptied(n, i), Deliver) && Apply(Emptied(n, i), Deliver) == Midway(n, i, Waiting)
    ensures Enabled(Midway(n, i, Waiting), Acquire) && Apply(Midway(n, i, Waiting), Acquire) == Midway(n, i, Slotted)
    ensures Enabled(Midway(n, i, Slotted), Submit) && Apply(Midway(n, i, Slotted), Submit) == Midway(n, i, Queued)
  {
  }

  lemma WorkOffSteps(n: nat, i: nat)
    requires i < n
    ensures Enabled(Midway(n, i, Queued), Take(i)) && Apply(Midway(n, i, Queued), Take(i)) == Midway(n, i, Deleting)
    ensures Enabled(Midway(n, i, Deleting), Finish(i, Removed))
    ensures Apply(Midway(n, i, Deleting), Finish(i, Removed)) == Midway(n, i, Releasing(Removed))
    ensures Enabled(Midway(n, i, Releasing(Removed)), Release(i))
    ensures Apply(Midway(n, i, Releasing(Removed)), Release(i)) == Emptied(n, i + 1)
  {
    assert Emptied(n, i).attempts[i := 1] == Emptied(n, i + 1).attempts;
    assert Emptied(n, i).tasks[i := Finished(Removed)] == Emptied(n, i + 1).tasks;
  }

  lemma HandOver(n: nat, i: nat, steps: seq<Step>) returns (run: seq<Step>)
    requires i < n && IsRun(n, true, steps) && After(n, true, steps) == Emptied(n, i)
    ensures IsRun(n, true, run) && After(n, true, run) == Midway(n, i, Queued)
  {
    HandOverSteps(n, i);
    run := Then(n, true, steps, Deliver);
    run := Then(n, true, run, Acquire);
    run := Then(n, true, run, Submit);
  }

  lemma WorkOff(n: nat, i: nat, steps: seq<Step>) returns (run: seq<Step>)
    requires i < n && IsRun(n, true, steps) && After(n, true, steps) == Midway(n, i, Queued)
    ensures IsRun(n, true, run) && After(n, true, run) == Emptied(n, i + 1)
  {
    WorkOffSteps(n, i);
    run := Then(n, true, steps, Take(i));
    run := Then(n, true, run, Finish(i, Removed));
    run := Then(n, true, run, Release(i));
  }

  lemma {:induction false} RemoveAll(n: nat, i: nat) returns (run: seq<Step>)
    requires i <= n
    ensures IsRun(n, true, run) && After(n, true, run) == Emptied(n, i)
    decreases i
  {
    if i == 0 {
      run := [];
      assert Init(n, true).tasks == Emptied(n, 0).tasks && Init(n, true).attempts == Emptied(n, 0).attempts;
    } else {
      run := RemoveAll(n, i - 1);
      run := HandOver(n, i - 1, run);
      run := WorkOff(n, i - 1, run);
    }
  }

  /** The call can succeed iff the bucket is there when it starts: a repeated deletion never does. */
  lemma CanSucceedExactly(n: nat, present: bool)
    ensures present
       <==> exists steps :: IsRun(n, present, steps) && After(n, present, steps).phase == Over(BucketDeleted)
  {
    if present {
      var run := RemoveAll(n, n);
      run := Then(n, true, run, EndListing);
      run := Then(n, true, run, Join);
      run := Then(n, true, run, DeleteBucket(true));
      assert After(n, present, run).phase == Over(BucketDeleted);
    } else {
      forall steps | IsRun(n, present, steps) ensures After(n, present, steps).phase != Over(BucketDeleted) {
        MissingBucketIsAnError(n, steps);
      }
    }
  }

  /** A call that succeeds leaves no bucket behind. */
  lemma SuccessMeansGone(n: nat, present: bool, steps: seq<Step>)
    requires IsRun(n, present, steps) && After(n, present, steps).phase == Over(BucketDeleted)
    ensures !After(n, present, steps).present && AllRemoved(After(n, present, steps))
  {
    RunKeepsInv(n, present, steps);
    PastBarrier(After(n, present, steps));
  }
}

/** One deletion reconcile against Yandex Cloud: the listing thread sets up the temporary key, the
    workers share the same API object, and the key is deleted when everything is over. Every access to
    the shared fields is a step of its own. */
module YcDeletion {
  import opened Common
  import opened YcAccessKey

  datatype Main =
    | Start
    | Made(key: Key)         // the key exists, the client does not
    | CleaningUp(key: Key)
    | Listing
    | Waiting                // for every submitted task
    | Closing
    | Closed(ok: bool)

  /** A worker's call on one object; the first two after `Queued` are its own set-up of the client. */
  datatype Task = Queued | SettingUp | MadeKey(key: Key) | CleaningKey(key: Key) | Deleting | Finished

  datatype State = State(api: Api, created: seq<Key>, main: Main, tasks: seq<Task>)

  datatype Step =
    | CreateKey(key: Option<Key>)
    | MakeClient(ok: bool)
    | Cleanup(ok: bool)
    | Submit
    | EndListing
    | StopWait
    | CloseKey(ok: bool)
    | StartTask(i: nat)
    | TaskCreateKey(i: nat, key: Option<Key>)
    | TaskMakeClient(i: nat, ok: bool)
    | TaskCleanup(i: nat, ok: bool)
    | FinishTask(i: nat)

  predicate Enabled(s: State, step: Step) {
    match step
    case CreateKey(key) => s.main.Start? && (key.Some? ==> key.value !in s.api.live && key.value !in s.created)
    case MakeClient(_) => s.main.Made?
    case Cleanup(_) => s.main.CleaningUp?
    case Submit => s.main.Listing?
    case EndListing => s.main.Listing?
    case StopWait => s.main.Waiting? && forall i :: 0 <= i < |s.tasks| ==> s.tasks[i].Finished?
    case CloseKey(_) => s.main.Closing?
    case StartTask(i) => i < |s.tasks| && s.tasks[i].Queued?
    case TaskCreateKey(i, key) =>
      i < |s.tasks| && s.tasks[i].SettingUp? && (key.Some? ==> key.value !in s.api.live && key.value !in s.created)
    case TaskMakeClient(i, _) => i < |s.tasks| && s.tasks[i].MadeKey?
    case TaskCleanup(i, _) => i < |s.tasks| && s.tasks[i].CleaningKey?
    case FinishTask(i) => i < |s.tasks| && s.tasks[i].Deleting?
  }

  function Apply(s: State, step: Step): State
    requires Enabled(s, step)
  {
    match step
    case CreateKey(key) =>
      if key.None? then s.(main := Waiting)
      else s.(api := WithKey(s.api, key.value), created := s.created + [key.value], main := Made(key.value))
    case MakeClient(ok) =>
      if ok then s.(api := s.api.(client := true), main := Listing) else s.(main := CleaningUp(s.main.key))
    case Cleanup(ok) =>
      if ok then s.(api := s.api.(accessKey := None, live := s.api.live - {s.main.key}), main := Waiting)
      else s.(main := Waiting)
    case Submit => s.(tasks := s.tasks + [Queued])
    case EndListing => s.(main := Waiting)
    case StopWait => s.(main := Closing)
    case CloseKey(ok) =>
      var (api, closed) := Close(s.api, ok);
      s.(api := api, main := Closed(closed))
    case StartTask(i) => s.(tasks := s.tasks[i := if s.api.client then Deleting else SettingUp])
    case TaskCreateKey(i, key) =>
      if key.None? then s.(tasks := s.tasks[i := Finished])
      else
        s.(api := WithKey(s.api, key.value), created := s.created + [key.value],
           tasks := s.tasks[i := MadeKey(key.value)])
    case TaskMakeClient(i, ok) =>
      if ok then s.(api := s.api.(client := true), tasks := s.tasks[i := Deleting])
      else s.(tasks := s.tasks[i := CleaningKey(s.tasks[i].key)])
    case TaskCleanup(i, ok) =>
      if ok then
        s.(api := s.api.(accessKey := None, live := s.api.live - {s.tasks[i].key}), tasks := s.tasks[i := Finished])
      else s.(tasks := s.tasks[i := Finished])
    case FinishTask(i) => s.(tasks := s.tasks[i := Finished])
  }

  predicate IsRun(s: State, steps: seq<Step>)
    decreases |steps|
  {
    steps == [] || (Enabled(s, steps[0]) && IsRun(Apply(s, steps[0]), steps[1..]))
  }

  function After(s: State, steps: seq<Step>): State
    requires IsRun(s, steps)
    decreases |steps|
  {
    if steps == [] then s else After(Apply(s, steps[0]), steps[1..])
  }

  function Begin(foreign: set<Key>): State {
    State(Opened(foreign), [], Start, [])
  }

  /** The client exists from the moment objects are listed, so a task never sets one up; a created key
      is the held one for as long as it lives. */
  predicate Inv(foreign: set<Key>, s: State) {
    (s.tasks != [] || s.main.Listing? ==> s.api.client)
    && (forall i :: 0 <= i < |s.tasks| ==> s.tasks[i].Queued? || s.tasks[i].Deleting? || s.tasks[i].Finished?)
    && |s.created| <= 1
    && (s.main.Start? ==> s.created == [] && s.tasks == [])
    && (s.main.Made? ==> s.api.accessKey == Some(s.main.key))
    && (s.main.CleaningUp? ==> s.api.accessKey == Some(s.main.key))
    && (s.main == Closed(false) ==> s.api.accessKey.Some?)
    && (s.main.Closing? || s.main.Closed? ==> forall i :: 0 <= i < |s.tasks| ==> s.tasks[i].Finished?)
    && (s.api.accessKey.Some? ==> s.created == [s.api.accessKey.value] && s.api.accessKey.value !in foreign)
    && s.api.live == foreign + (if s.api.accessKey.None? || s.main == Closed(true) then {} else {s.api.accessKey.value})
  }

  lemma StepKeepsInv(foreign: set<Key>, s: State, step: Step)
    requires Inv(foreign, s) && Enabled(s, step)
    ensures Inv(foreign, Apply(s, step))
  {
  }

  lemma {:induction false} RunKeepsInv(foreign: set<Key>, s: State, steps: seq<Step>)
    requires Inv(foreign, s) && IsRun(s, steps)
    ensures Inv(foreign, After(s, steps))
    decreases |steps|
  {
    if steps != [] {
      StepKeepsInv(foreign, s, steps[0]);
      RunKeepsInv(foreign, Apply(s, steps[0]), steps[1..]);
    }
  }

  /** With any number of tasks and any schedule: one key at most is ever created, and no task finds
      itself without a client. */
  lemma OneKeyAtMost(foreign: set<Key>, steps: seq<Step>)
    requires IsRun(Begin(foreign), steps)
    ensures var s := After(Begin(foreign), steps);
      |s.created| <= 1 && forall i :: 0 <= i < |s.tasks| ==> !s.tasks[i].SettingUp? && !s.tasks[i].MadeKey?
  {
    RunKeepsInv(foreign, Begin(foreign), steps);
  }

  /** The key is deleted only after every submitted task has finished, and its deletion is what `Close` does. */
  lemma ClosesLast(foreign: set<Key>, steps: seq<Step>, ok: bool)
    requires IsRun(Begin(foreign), steps) && Enabled(After(Begin(foreign), steps), CloseKey(ok))
    ensures var s := After(Begin(foreign), steps); var s' := Apply(s, CloseKey(ok));
      && (forall i :: 0 <= i < |s.tasks| ==> s.tasks[i].Finished?)
      && (s'.api, s'.main) == (Close(s.api, ok).0, Closed(Close(s.api, ok).1))
  {
    RunKeepsInv(foreign, Begin(foreign), steps);
  }

  /** The set-up of the client by the listing thread, step by step. */
  function SetUp(s: State, t: Attempt): State
    requires s.main.Start? && Enabled(s, CreateKey(t.key))
  {
    var made := Apply(s, CreateKey(t.key));
    if t.key.None? then made
    else
      var client := Apply(made, MakeClient(t.clientOk));
      if t.clientOk then client else Apply(client, Cleanup(t.cleanupOk))
  }

  /** The set-up of a client by task `i`. */
  function TaskSetUp(s: State, i: nat, t: Attempt): State
    requires Enabled(s, TaskCreateKey(i, t.key))
  {
    var made := Apply(s, TaskCreateKey(i, t.key));
    if t.key.None? then made
    else
      var client := Apply(made, TaskMakeClient(i, t.clientOk));
      if t.clientOk then client else Apply(client, TaskCleanup(i, t.cleanupOk))
  }

  function KeysMade(t: Attempt): seq<Key> {
    if t.key.Some? then [t.key.value] else []
  }

  /** Step by step, a set-up that is not disturbed does what the whole of it does to the shared object; the
      thread goes on iff it has a client, and else is done. */
  lemma SetUpIsNewClient(s: State, t: Attempt)
    requires s.main.Start? && Enabled(s, CreateKey(t.key))
    ensures var (api, ok) := NewClient(s.api, t); var s' := SetUp(s, t);
      s'.api == api && s'.created == s.created + KeysMade(t) && s'.tasks == s.tasks
      && s'.main == if ok then Listing else Waiting
  {
  }

  lemma TaskSetUpIsNewClient(s: State, i: nat, t: Attempt)
    requires Enabled(s, TaskCreateKey(i, t.key))
    ensures var (api, ok) := NewClient(s.api, t); var s' := TaskSetUp(s, i, t);
      s'.api == api && s'.created == s.created + KeysMade(t) && s'.main == s.main
      && s'.tasks == s.tasks[i := if ok then Deleting else Finished]
  {
  }

  /** What a task may do next. */
  predicate Follows(before: Task, after: Task) {
    match before
    case Queued => after.SettingUp? || after.Deleting?
    case SettingUp => after.MadeKey? || after.Finished?
    case MadeKey(key) => after.Deleting? || after == CleaningKey(key)
    case CleaningKey(_) => after.Finished?
    case Deleting => after.Finished?
    case Finished => false
  }

  /** A step submits one task, while objects are listed, or moves one task on, or leaves the tasks alone. */
  lemma TasksMoveOn(s: State, step: Step)
    requires Enabled(s, step)
    ensures var tasks := Apply(s, step).tasks;
      || tasks == s.tasks
      || (s.main.Listing? && tasks == s.tasks + [Queued])
      || exists i :: 0 <= i < |s.tasks| && Follows(s.tasks[i], tasks[i]) && tasks == s.tasks[i := tasks[i]]
  {
    var tasks := Apply(s, step).tasks;
    if step.StartTask? || step.TaskCreateKey? || step.TaskMakeClient? || step.TaskCleanup? || step.FinishTask? {
      assert Follows(s.tasks[step.i], tasks[step.i]) && tasks == s.tasks[step.i := tasks[step.i]];
    }
  }

  /** When the reconcile is over, the keys are those of before iff the close succeeded, also when the
      client could not be made and the first clean-up failed. */
  lemma NoKeyRemainsExactly(foreign: set<Key>, steps: seq<Step>)
    requires IsRun(Begin(foreign), steps) && After(Begin(foreign), steps).main.Closed?
    ensures var s := After(Begin(foreign), steps);
      s.api.live == foreign <==> s.main.ok
  {
    RunKeepsInv(foreign, Begin(foreign), steps);
  }
}

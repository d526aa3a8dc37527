/** Runs of one Bucket, or of one CloudPrincipal the operator manages: which name every cloud call
    targets, under any interleaving of spec edits with the steps of its reconciles. */
module NameRuns {
  import opened Common
  import opened UsagePolicy

  /** Where the reconcile in flight stands, with the object and the policy as it read them. */
  datatype Pc =
    | Idle
    | Read(o: Object)
    | Checked(o: Object, p: Policy)
    | Ensured(o: Object, p: Policy)

  /** What the cloud was asked to do, and what the status came to record. */
  datatype Event =
    | Ensure(name: string, on: Object, p: Policy, ok: bool)
    | Delete(name: string, on: Object, p: Policy)
    | Record(name: string)

  datatype State = State(o: Object, pc: Pc, log: seq<Event>)

  datatype Step =
    | Edit(spec: Spec)                // by a user, at any time
    | Terminate
    | Get                             // a reconcile starts
    | CheckPolicy(p: Policy)          // provider prepared and usage policy consulted
    | EnsureCloud(ok: bool)
    | PatchStatus
    | DeleteCloud
    | End                             // any failure or the end of the reconcile

  /** An edit keeps what the API server declares immutable and the name of the object. */
  predicate AllowedEdit(before: Spec, after: Spec) {
    before.BucketSpec? == after.BucketSpec?
    && (before.BucketSpec? ==> after.objectName == before.objectName)
    && (before.PrincipalSpec? ==> after.managed == before.managed)
    && Creates(after)
  }

  /** What the operator itself creates in the cloud; a managed name is mandatory. */
  predicate Creates(spec: Spec) {
    match spec
    case BucketSpec(objectName, _) => objectName != ""
    case PrincipalSpec(managed, kind, name, _) => managed && kind != "AllUsers" && name.Some? && name.value != ""
  }

  predicate Enabled(r: Regexps, s: State, step: Step) {
    match step
    case Edit(spec) => AllowedEdit(s.o.spec, spec)
    case Terminate => true
    case Get => s.pc.Idle?
    case CheckPolicy(p) => s.pc.Read? && Check(r, p, s.pc.o) == Allowed
    case EnsureCloud(_) => s.pc.Checked? && !s.pc.o.terminating && NameIsValid(s.pc.o)
    case PatchStatus => s.pc.Ensured?
    case DeleteCloud => s.pc.Checked? && s.pc.o.terminating
    case End => true
  }

  function Apply(s: State, step: Step): State
    requires step.CheckPolicy? ==> s.pc.Read?
    requires step.EnsureCloud? || step.DeleteCloud? ==> s.pc.Checked?
    requires step.PatchStatus? ==> s.pc.Ensured?
  {
    match step
    case Edit(spec) => s.(o := s.o.(spec := spec))
    case Terminate => s.(o := s.o.(terminating := true))
    case Get => s.(pc := Read(s.o))
    case CheckPolicy(p) => s.(pc := Checked(s.pc.o, p))
    case EnsureCloud(ok) =>
      s.(pc := if ok then Ensured(s.pc.o, s.pc.p) else Idle,
         log := s.log + [Ensure(NameFromCR(s.pc.o), s.pc.o, s.pc.p, ok)])
    case PatchStatus =>
      // the status of the object as it is now; its spec may have changed since
      var name := NameFromCR(s.pc.o);
      var kind := if s.pc.o.spec.PrincipalSpec? then s.pc.o.spec.kind else "";
      s.(pc := Idle, o := s.o.(external := name, recordedKind := kind), log := s.log + [Record(name)])
    case DeleteCloud =>
      s.(pc := Idle, log := s.log + [Delete(NameForDelete(s.pc.o), s.pc.o, s.pc.p)])
    case End => s.(pc := Idle)
  }

  predicate IsRun(r: Regexps, s: State, steps: seq<Step>)
    decreases |steps|
  {
    steps == [] || (
      Enabled(r, s, steps[0]) && IsRun(r, Apply(s, steps[0]), steps[1..]))
  }

  function After(r: Regexps, s: State, steps: seq<Step>): State
    requires IsRun(r, s, steps)
    decreases |steps|
  {
    if steps == [] then s else After(r, Apply(s, steps[0]), steps[1..])
  }

  predicate Fresh(s: State) {
    s.pc.Idle? && s.log == [] && s.o.external == "" && Creates(s.o.spec) && !s.o.terminating
  }

  // ----- the invariant -----

  /** The name the log has recorded last, empty when none. */
  function Recorded(log: seq<Event>): string {
    if log == [] then ""
    else if log[|log| - 1].Record? then log[|log| - 1].name
    else Recorded(log[..|log| - 1])
  }

  /** Once a name is recorded, nothing but that name follows. */
  predicate OneName(log: seq<Event>) {
    forall i, j :: 0 <= i < j < |log| && log[i].Record? && log[i].name != "" ==> log[j].name == log[i].name
  }

  /** Every cloud call was preceded by a policy decision on the very name it carries. */
  predicate AllChecked(r: Regexps, log: seq<Event>) {
    forall i :: 0 <= i < |log| && !log[i].Record? ==>
      log[i].name == CheckedName(log[i].on) && Check(r, log[i].p, log[i].on) == Allowed
      && (log[i].Delete? <==> log[i].on.terminating)
  }

  predicate Inv(r: Regexps, s: State) {
    Creates(s.o.spec)
    && s.o.external == Recorded(s.log)
    && (!s.pc.Idle? ==> s.pc.o.external == s.o.external && Creates(s.pc.o.spec))
    && (s.pc.Checked? || s.pc.Ensured? ==> Check(r, s.pc.p, s.pc.o) == Allowed)
    && (s.pc.Ensured? ==> NameIsValid(s.pc.o))
    && OneName(s.log) && AllChecked(r, s.log)
  }

  /** `Recorded` is the name of some entry, and after it every entry carries it. */
  lemma {:induction false} RecordedIsLogged(log: seq<Event>)
    requires OneName(log)
    ensures Recorded(log) == "" ==> forall i :: 0 <= i < |log| && log[i].Record? ==> log[i].name == ""
    ensures forall i :: 0 <= i < |log| && log[i].Record? && log[i].name != "" ==> log[i].name == Recorded(log)
  {
    if log != [] {
      var init := log[..|log| - 1];
      assert forall i :: 0 <= i < |init| ==> init[i] == log[i];
      RecordedIsLogged(init);
    }
  }

  lemma Append(r: Regexps, log: seq<Event>, e: Event)
    requires OneName(log) && AllChecked(r, log)
    requires Recorded(log) == "" || e.name == Recorded(log)
    requires !e.Record? ==> e.name == CheckedName(e.on) && Check(r, e.p, e.on) == Allowed
    requires !e.Record? ==> (e.Delete? <==> e.on.terminating)
    ensures OneName(log + [e]) && AllChecked(r, log + [e])
    ensures Recorded(log + [e]) == if e.Record? then e.name else Recorded(log)
  {
    RecordedIsLogged(log);
    assert (log + [e])[..|log|] == log;
  }

  lemma StepKeepsInv(r: Regexps, s: State, step: Step)
    requires Inv(r, s) && Enabled(r, s, step)
    ensures Inv(r, Apply(s, step))
  {
    if !s.pc.Idle? {
      NameIsValidExactly(s.pc.o);
    }
    match step {
      case EnsureCloud(ok) => Append(r, s.log, Ensure(NameFromCR(s.pc.o), s.pc.o, s.pc.p, ok));
      case DeleteCloud => Append(r, s.log, Delete(NameForDelete(s.pc.o), s.pc.o, s.pc.p));
      case PatchStatus => Append(r, s.log, Record(NameFromCR(s.pc.o)));
      case _ =>
    }
  }

  lemma {:induction false} RunKeepsInv(r: Regexps, s: State, steps: seq<Step>)
    requires Inv(r, s) && IsRun(r, s, steps)
    ensures Inv(r, After(r, s, steps))
    decreases |steps|
  {
    if steps != [] {
      StepKeepsInv(r, s, steps[0]);
      RunKeepsInv(r, Apply(s, steps[0]), steps[1..]);
    }
  }

  // ----- the theorems -----

  /** Once an external name is recorded, every later ensure, delete and record in the run carries it,
      and it is the recorded name of the status. */
  lemma RecordedNameIsStable(r: Regexps, s: State, steps: seq<Step>, i: nat, j: nat)
    requires Fresh(s) && IsRun(r, s, steps)
    requires var log := After(r, s, steps).log; i <= j < |log| && log[i].Record? && log[i].name != ""
    ensures var end := After(r, s, steps);
      end.log[j].name == end.log[i].name == end.o.external
  {
    RunKeepsInv(r, s, steps);
    RecordedIsLogged(After(r, s, steps).log);
  }

  /** The name a cloud call carries is the name its usage policy allowed, and no call follows a panic
      or a restriction. */
  lemma CheckedNameIsSent(r: Regexps, s: State, steps: seq<Step>, i: nat)
    requires Fresh(s) && IsRun(r, s, steps)
    requires var log := After(r, s, steps).log; i < |log| && !log[i].Record?
    ensures var e := After(r, s, steps).log[i];
      && e.name == CheckedName(e.on) && Check(r, e.p, e.on) == Allowed
      && (e.Delete? <==> e.on.terminating)
  {
    RunKeepsInv(r, s, steps);
  }

  // ----- when a created name is the only one -----

  /** A successful ensure fixes the name of everything after it. */
  predicate OneTarget(log: seq<Event>) {
    forall i, j :: 0 <= i < j < |log| && log[i].Ensure? && log[i].ok ==> log[j].name == log[i].name
  }

  /** No cloud call worked on an object that was read without a recorded name and whose spec names
      something else than what a successful ensure had created. */
  predicate NeverRenamed(log: seq<Event>) {
    forall i, j :: 0 <= i < j < |log| && log[i].Ensure? && log[i].ok && !log[j].Record? && log[j].on.external == "" ==>
      NameFromCR(log[j].on) == log[i].name
  }

  /** How events follow each other: a record follows its ensure, and a call reads what is recorded. */
  predicate Follows(log: seq<Event>, j: nat)
    requires j < |log|
  {
    if log[j].Record? then j > 0 && log[j - 1].Ensure? && log[j - 1].ok && log[j - 1].name == log[j].name
    else log[j].on.external == Recorded(log[..j])
  }

  predicate Traced(s: State) {
    (forall j :: 0 <= j < |s.log| ==> Follows(s.log, j))
    && (s.pc.Ensured? ==>
          s.log != [] && s.log[|s.log| - 1].Ensure? && s.log[|s.log| - 1].ok
          && s.log[|s.log| - 1].name == NameFromCR(s.pc.o))
  }

  lemma FollowsAppend(log: seq<Event>, e: Event)
    requires forall j :: 0 <= j < |log| ==> Follows(log, j)
    requires Follows(log + [e], |log|)
    ensures forall j :: 0 <= j < |log + [e]| ==> Follows(log + [e], j)
  {
    var all := log + [e];
    forall j | 0 <= j < |log| ensures Follows(all, j) {
      assert Follows(log, j) && all[..j] == log[..j] && all[j] == log[j];
      if j > 0 {
        assert all[j - 1] == log[j - 1];
      }
    }
  }

  lemma StepKeepsTraced(r: Regexps, s: State, step: Step)
    requires Inv(r, s) && Traced(s) && Enabled(r, s, step)
    ensures Traced(Apply(s, step))
  {
    var log := Apply(s, step).log;
    if log != s.log {
      assert log == s.log + [log[|s.log|]] && log[..|s.log|] == s.log;
      FollowsAppend(s.log, log[|s.log|]);
    }
  }

  lemma {:induction false} RunKeepsTraced(r: Regexps, s: State, steps: seq<Step>)
    requires Inv(r, s) && Traced(s) && IsRun(r, s, steps)
    ensures Traced(After(r, s, steps))
    decreases |steps|
  {
    if steps != [] {
      StepKeepsInv(r, s, steps[0]);
      StepKeepsTraced(r, s, steps[0]);
      RunKeepsTraced(r, Apply(s, steps[0]), steps[1..]);
    }
  }

  lemma {:induction false} RecordedComesFrom(log: seq<Event>) returns (k: nat)
    requires Recorded(log) != ""
    ensures k < |log| && log[k].Record? && log[k].name == Recorded(log)
  {
    if log[|log| - 1].Record? {
      k := |log| - 1;
    } else {
      k := RecordedComesFrom(log[..|log| - 1]);
    }
  }

  /** What the invariants say of the log. */
  ghost predicate Linked(r: Regexps, log: seq<Event>) {
    OneName(log) && AllChecked(r, log) && forall j :: 0 <= j < |log| ==> Follows(log, j)
  }

  /** The last event carries the name of every successful ensure before it. */
  lemma LastKeepsTarget(r: Regexps, log: seq<Event>, i: nat)
    requires Linked(r, log) && NeverRenamed(log)
    requires log != [] && OneTarget(log[..|log| - 1])
    requires i < |log| - 1 && log[i].Ensure? && log[i].ok
    ensures log[|log| - 1].name == log[i].name
  {
    var n := |log| - 1;
    var init := log[..n];
    assert Follows(log, n);
    assert forall j :: 0 <= j < n ==> init[j] == log[j];
    if !log[n].Record? && log[n].on.external != "" {
      var k := RecordedComesFrom(init);
      assert log[k] == init[k] && log[n].name == log[k].name;
    }
  }

  lemma PrefixToo(r: Regexps, log: seq<Event>)
    requires log != [] && Linked(r, log) && NeverRenamed(log)
    ensures Linked(r, log[..|log| - 1]) && NeverRenamed(log[..|log| - 1])
  {
    var init := log[..|log| - 1];
    forall j | 0 <= j < |init| ensures Follows(init, j) {
      assert Follows(log, j) && init[..j] == log[..j];
    }
  }

  lemma {:induction false} OneTargetHolds(r: Regexps, log: seq<Event>)
    requires Linked(r, log) && NeverRenamed(log)
    ensures OneTarget(log)
  {
    if log != [] {
      var n := |log| - 1;
      PrefixToo(r, log);
      OneTargetHolds(r, log[..n]);
      forall i: nat, j: nat | i < j <= n && log[i].Ensure? && log[i].ok ensures log[j].name == log[i].name {
        if j == n {
          LastKeepsTarget(r, log, i);
        } else {
          assert log[..n][i] == log[i] && log[..n][j] == log[j];
        }
      }
    }
  }

  /** Along every run, lost patches and renames included, a name once created is the only one the cloud
      and the status ever hear of iff no call worked on an object read without a recorded name and
      renamed since. */
  lemma CreatedNameIsStableExactly(r: Regexps, s: State, steps: seq<Step>)
    requires Fresh(s) && IsRun(r, s, steps)
    ensures OneTarget(After(r, s, steps).log) <==> NeverRenamed(After(r, s, steps).log)
  {
    RunKeepsInv(r, s, steps);
    RunKeepsTraced(r, s, steps);
    if NeverRenamed(After(r, s, steps).log) {
      OneTargetHolds(r, After(r, s, steps).log);
    }
  }

  // ----- a name that is forgotten -----

  lemma First(r: Regexps, s: State, step: Step, rest: seq<Step>) returns (steps: seq<Step>)
    requires Enabled(r, s, step) && IsRun(r, Apply(s, step), rest)
    ensures IsRun(r, s, steps) && After(r, s, steps) == After(r, Apply(s, step), rest)
  {
    steps := [step] + rest;
    assert steps[1..] == rest;
  }

  /** A status patch that fails, and an edit before the object is deleted: the deletion targets what was
      created iff the edit keeps the name; otherwise that is forgotten. */
  lemma UnrecordedNameIsForgotten(r: Regexps, p: Policy, o: Object, spec: Spec) returns (steps: seq<Step>)
    requires Fresh(State(o, Idle, [])) && AllowedEdit(o.spec, spec)
    requires Check(r, p, o) == Allowed && Check(r, p, o.(spec := spec, terminating := true)) == Allowed
    ensures IsRun(r, State(o, Idle, []), steps)
    ensures var log := After(r, State(o, Idle, []), steps).log;
      && |log| == 2 && log[0].Ensure? && log[0].ok && log[0].name == NameFromCR(o) && log[1].Delete?
      && (log[1].name == log[0].name <==> NameFromCR(o.(spec := spec)) == NameFromCR(o))
  {
    var s0 := State(o, Idle, []);
    var s1 := Apply(s0, Get);
    var s2 := Apply(s1, CheckPolicy(p));
    var s3 := Apply(s2, EnsureCloud(true));
    var s4 := Apply(s3, End);
    var s5 := Apply(s4, Edit(spec));
    var s6 := Apply(s5, Terminate);
    var s7 := Apply(s6, Get);
    var s8 := Apply(s7, CheckPolicy(p));
    assert s8.pc.o == o.(spec := spec, terminating := true);
    steps := First(r, s8, DeleteCloud, []);
    steps := First(r, s7, CheckPolicy(p), steps);
    steps := First(r, s6, Get, steps);
    steps := First(r, s5, Terminate, steps);
    steps := First(r, s4, Edit(spec), steps);
    steps := First(r, s3, End, steps);
    steps := First(r, s2, EnsureCloud(true), steps);
    steps := First(r, s1, CheckPolicy(p), steps);
    steps := First(r, s0, Get, steps);
  }
}

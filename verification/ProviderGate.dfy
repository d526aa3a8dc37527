/** Edits of a ProviderConfig interleave with the reconciles that validate it and with the other
    controllers that pass its readiness gate. */
module ProviderGate {
  import opened Common
  import opened UsagePolicy

  /** `readyAt` is the generation of the ready condition, when its status is True. */
  datatype Config = Config(
    uid: nat,
    generation: nat,
    policy: Policy,
    terminating: bool,
    finalizer: bool,
    readyAt: Option<nat>)

  datatype Pc =
    | Idle
    | Fetched(c: Config)          // read, not terminating
    | Guarded(c: Config)          // its finalizer is in place
    | Judged(c: Config, valid: bool)
    | Unreferenced(c: Config)     // terminating, nothing refers to it

  /** The object under the one name the gate resolves, its reconcile in flight, and the Buckets and
      CloudPrincipals that refer to that name, each with the incarnation its gate last passed with. */
  datatype State = State(config: Option<Config>, pc: Pc, dependents: map<string, Option<nat>>, nextUid: nat)

  datatype Step =
    | Create(policy: Policy)
    | Edit(policy: Policy)
    | UserDelete
    | Get
    | AddFinalizer
    | Validate(accept: bool)      // the provider's other checks
    | PatchStatus
    | FindUnreferenced
    | RemoveFinalizer
    | Finalize                    // both in one step
    | CreateDependent(name: string)
    | DeleteDependent(name: string)
    | PassGate(name: string)
    | End

  predicate Ready(c: Config) {
    c.readyAt == Some(c.generation)
  }

  /** The gate every other controller passes before it consults the usage policy. */
  predicate Passes(c: Config) {
    Ready(c) || c.terminating
  }

  /** A deletion bumps the generation; an object without finalizers vanishes at once. */
  function Terminated(c: Config): Option<Config> {
    if c.terminating then Some(c)
    else if c.finalizer then Some(c.(terminating := true, generation := c.generation + 1))
    else None
  }

  predicate Releasable(s: State) {
    s.config.Some? && s.config.value.terminating && s.config.value.finalizer && s.dependents == map[]
  }

  predicate Enabled(s: State, step: Step) {
    match step
    case Create(_) => s.config.None?
    case Edit(_) => s.config.Some?
    case UserDelete => s.config.Some?
    case Get => s.pc.Idle? && s.config.Some? && !s.config.value.terminating
    case AddFinalizer =>
      // no update when it is there; an update succeeds only on what was read
      s.pc.Fetched? && (s.pc.c.finalizer || s.config == Some(s.pc.c))
    case Validate(_) => s.pc.Guarded?
    case PatchStatus => s.pc.Judged? && s.config.Some?
    case FindUnreferenced => s.pc.Idle? && Releasable(s)
    case RemoveFinalizer => s.pc.Unreferenced? && s.config == Some(s.pc.c)
    case Finalize => s.pc.Idle? && Releasable(s)
    case CreateDependent(name) => name !in s.dependents
    case DeleteDependent(name) => name in s.dependents
    case PassGate(name) => name in s.dependents && s.config.Some? && Passes(s.config.value)
    case End => true
  }

  function Apply(r: Regexps, s: State, step: Step): State
    requires Enabled(s, step)
  {
    match step
    case Create(policy) => 
      s.(config := Some(Config(s.nextUid, 1, policy, false, false, None)), nextUid := s.nextUid + 1)
    case Edit(policy) =>
      var c := s.config.value;
      s.(config := Some(if policy == c.policy then c else c.(policy := policy, generation := c.generation + 1)))
    case UserDelete => s.(config := Terminated(s.config.value))
    case Get => s.(pc := Fetched(s.config.value))
    case AddFinalizer =>
      if s.pc.c.finalizer then s.(pc := Guarded(s.pc.c))
      else
        var c := s.config.value.(finalizer := true);
        s.(config := Some(c), pc := Guarded(c))
    case Validate(accept) => s.(pc := Judged(s.pc.c, accept && Valid(r, s.pc.c.policy)))
    case PatchStatus =>
      // on the object as it is now, with the generation that was judged
      var ready := if s.pc.valid then Some(s.pc.c.generation) else None;
      s.(config := Some(s.config.value.(readyAt := ready)), pc := Idle)
    case FindUnreferenced => s.(pc := Unreferenced(s.config.value))
    case RemoveFinalizer => s.(config := None, pc := Idle)
    case Finalize => s.(config := None)
    case CreateDependent(name) => s.(dependents := s.dependents[name := None])
    case DeleteDependent(name) => s.(dependents := s.dependents - {name})
    case PassGate(name) => s.(dependents := s.dependents[name := Some(s.config.value.uid)])
    case End => s.(pc := Idle)
  }

  predicate IsRun(r: Regexps, s: State, steps: seq<Step>)
    decreases |steps|
  {
    steps == [] || (Enabled(s, steps[0]) && IsRun(r, Apply(r, s, steps[0]), steps[1..]))
  }

  function After(r: Regexps, s: State, steps: seq<Step>): State
    requires IsRun(r, s, steps)
    decreases |steps|
  {
    if steps == [] then s else After(r, Apply(r, s, steps[0]), steps[1..])
  }

  const Start := State(None, Idle, map[], 0)

  /** A snapshot of the object: an earlier generation, or the very spec it has now. */
  predicate IsSnapshot(c: Config, now: Config) {
    c.generation <= now.generation && (c.generation == now.generation ==> c.policy == now.policy)
  }

  /** While a reconcile has yet to patch, the object it read is still the one that will be patched:
      the finalizer holds it. What is marked ready was valid at the generation marked. */
  predicate Inv(r: Regexps, s: State) {
    (s.pc.Guarded? || s.pc.Judged? || (s.pc.Fetched? && s.pc.c.finalizer) ==>
       s.config.Some? && s.config.value.finalizer && IsSnapshot(s.pc.c, s.config.value))
    && (s.pc.Judged? && s.pc.valid ==> Valid(r, s.pc.c.policy))
    && (s.pc.Fetched? || s.pc.Guarded? || s.pc.Judged? ==> !s.pc.c.terminating)
    && (s.pc.Unreferenced? ==> s.pc.c.terminating && s.pc.c.finalizer)
    && (s.config.Some? && (s.config.value.readyAt.Some? || s.config.value.terminating) ==> s.config.value.finalizer)
    && (s.config.Some? && s.config.value.readyAt.Some? ==>
          s.config.value.readyAt.value <= s.config.value.generation
          && (Ready(s.config.value) ==> Valid(r, s.config.value.policy)))
  }

  lemma StepKeepsInv(r: Regexps, s: State, step: Step)
    requires Inv(r, s) && Enabled(s, step)
    ensures Inv(r, Apply(r, s, step))
  {
  }

  lemma {:induction false} RunKeepsInv(r: Regexps, s: State, steps: seq<Step>)
    requires Inv(r, s) && IsRun(r, s, steps)
    ensures Inv(r, After(r, s, steps))
    decreases |steps|
  {
    if steps != [] {
      StepKeepsInv(r, s, steps[0]);
      RunKeepsInv(r, Apply(r, s, steps[0]), steps[1..]);
    }
  }

  /** A config that passes the gate and is not terminating was validated at its own generation, so no
      decision taken from it panics. */
  lemma PassingNeverPanics(r: Regexps, steps: seq<Step>, o: Object)
    requires IsRun(r, Start, steps)
    requires var s := After(r, Start, steps);
      s.config.Some? && Passes(s.config.value) && !s.config.value.terminating
    ensures var c := After(r, Start, steps).config.value;
      Valid(r, c.policy) && Check(r, c.policy, o) != Panic
  {
    RunKeepsInv(r, Start, steps);
    ValidNeverPanics(r, After(r, Start, steps).config.value.policy, o);
  }

  lemma First(r: Regexps, s: State, step: Step, rest: seq<Step>) returns (steps: seq<Step>)
    requires Enabled(s, step) && IsRun(r, Apply(r, s, step), rest)
    ensures IsRun(r, s, steps) && After(r, s, steps) == After(r, Apply(r, s, step), rest)
  {
    steps := [step] + rest;
    assert steps[1..] == rest;
  }

  /** A terminating config passes whatever its spec: every policy can be reached behind the gate,
      the ones that panic among them. */
  lemma TerminatingPassesAnyPolicy(r: Regexps, policy: Policy) returns (steps: seq<Step>)
    ensures IsRun(r, Start, steps)
    ensures var s := After(r, Start, steps);
      s.config.Some? && Passes(s.config.value) && s.config.value.terminating && s.config.value.policy == policy
  {
    var s1 := Apply(r, Start, Create(policy));
    var s2 := Apply(r, s1, Get);
    var s3 := Apply(r, s2, AddFinalizer);
    steps := First(r, s3, UserDelete, []);
    steps := First(r, s2, AddFinalizer, steps);
    steps := First(r, s1, Get, steps);
    steps := First(r, Start, Create(policy), steps);
  }

  /** Some config of this policy that passes the gate makes the check of a Bucket or CloudPrincipal panic
      iff the config is terminating and, in the list the check searches, a pattern that does not compile
      comes before the first match. */
  lemma GatePanicsExactly(r: Regexps, policy: Policy, o: Object, terminating: bool)
    ensures (exists steps :: IsRun(r, Start, steps) && Leads(r, steps, policy, terminating)
                             && Check(r, policy, o) == Panic)
       <==> terminating && Consulted(policy, o).Some?
            && exists i :: StopsBadly(r, CheckedName(o), Consulted(policy, o).value, i)
  {
    PanicsInTheSearch(r, policy, o);
    if Consulted(policy, o).Some? {
      PanicsExactly(r, CheckedName(o), Consulted(policy, o).value);
    }
    if terminating {
      var steps := TerminatingPassesAnyPolicy(r, policy);
      assert Leads(r, steps, policy, true);
    } else {
      forall steps | IsRun(r, Start, steps) && Leads(r, steps, policy, false)
        ensures Check(r, policy, o) != Panic
      {
        PassingNeverPanics(r, steps, o);
      }
    }
  }

  predicate Leads(r: Regexps, steps: seq<Step>, policy: Policy, terminating: bool)
    requires IsRun(r, Start, steps)
  {
    var s := After(r, Start, steps);
    s.config.Some? && Passes(s.config.value)
    && s.config.value.policy == policy && s.config.value.terminating == terminating
  }

  predicate StopsBadly(r: Regexps, name: string, patterns: seq<string>, i: nat) {
    i < |patterns| && !r.compiles(patterns[i]) && NoMatch(r, name, patterns[..i])
  }

  lemma {:induction false} PanicsExactly(r: Regexps, name: string, patterns: seq<string>)
    ensures NameAllowed(r, name, patterns) == Panic <==> exists i :: StopsBadly(r, name, patterns, i)
  {
    if NameAllowed(r, name, patterns) == Panic {
      var i := StoppingPlace(r, name, patterns);
      assert StopsBadly(r, name, patterns, i);
    }
    forall i: nat | StopsBadly(r, name, patterns, i)
      ensures NameAllowed(r, name, patterns) == Panic
    {
      NameAllowedAt(r, name, patterns, i);
    }
  }

  lemma {:induction false} StoppingPlace(r: Regexps, name: string, patterns: seq<string>) returns (i: nat)
    requires NameAllowed(r, name, patterns) == Panic
    ensures StopsBadly(r, name, patterns, i)
  {
    if !r.compiles(patterns[0]) {
      i := 0;
    } else {
      i := StoppingPlace(r, name, patterns[1..]);
      assert patterns[..i + 1] == [patterns[0]] + patterns[1..][..i];
      i := i + 1;
    }
  }

  // ----- how a config goes -----

  /** Only a terminating config is finalized, in the very state in which its controller found no reference to
      it, or, without a finalizer, the user's deletion removes it at once; nothing else replaces or removes it. */
  lemma GoesExactly(r: Regexps, steps: seq<Step>, step: Step)
    requires IsRun(r, Start, steps) && Enabled(After(r, Start, steps), step)
    requires After(r, Start, steps).config.Some?
    ensures var s := After(r, Start, steps); var s' := Apply(r, s, step); var c := s.config.value;
      var found := step.RemoveFinalizer? && s.pc == Unreferenced(c);
      && (s'.config.Some? ==> s'.config.value.uid == c.uid)
      && (s'.config.None? <==> (step.UserDelete? && !c.finalizer) || found || (step.Finalize? && s.dependents == map[]))
      && (found || step.Finalize? ==> c.terminating && c.finalizer && s'.pc == Idle)
      && (step.FindUnreferenced? ==> s.dependents == map[] && s'.pc == Unreferenced(c))
  {
    RunKeepsInv(r, Start, steps);
  }

  /** An edit that changes the policy counts as a new generation; no other step touches the policy. */
  lemma EditsExactly(r: Regexps, s: State, step: Step)
    requires Enabled(s, step) && s.config.Some? && Apply(r, s, step).config.Some?
    ensures var before, after := s.config.value, Apply(r, s, step).config.value;
      && after.policy == (if step.Edit? then step.policy else before.policy)
      && (after.policy != before.policy ==> after.generation == before.generation + 1)
      && (after.generation != before.generation ==>
            after.policy != before.policy || (after.terminating && !before.terminating))
  {
  }

  /** A reconcile that judges a config read it before its deletion was requested. */
  lemma JudgesLiveOnly(r: Regexps, steps: seq<Step>)
    requires IsRun(r, Start, steps)
    ensures var pc := After(r, Start, steps).pc;
      pc.Fetched? || pc.Guarded? || pc.Judged? ==> !pc.c.terminating
  {
    RunKeepsInv(r, Start, steps);
  }

  // ----- how long a config lasts -----

  /** Nobody passes the gate between the search for references and the removal of the finalizer. */
  predicate NeverRaced(r: Regexps, s: State, steps: seq<Step>)
    requires IsRun(r, s, steps)
    decreases |steps|
  {
    steps == [] || (!(steps[0].PassGate? && s.pc.Unreferenced?) && NeverRaced(r, Apply(r, s, steps[0]), steps[1..]))
  }

  ghost predicate Outlives(s: State) {
    (s.pc.Unreferenced? ==> forall name :: name in s.dependents ==> s.dependents[name].None?)
    && forall name :: name in s.dependents && s.dependents[name].Some? ==>
         s.config.Some? && s.config.value.uid == s.dependents[name].value && s.config.value.finalizer
  }

  lemma {:induction false} RunKeepsOutlives(r: Regexps, s: State, steps: seq<Step>)
    requires Inv(r, s) && Outlives(s) && IsRun(r, s, steps) && NeverRaced(r, s, steps)
    ensures Outlives(After(r, s, steps))
    decreases |steps|
  {
    if steps != [] {
      StepKeepsInv(r, s, steps[0]);
      RunKeepsOutlives(r, Apply(r, s, steps[0]), steps[1..]);
    }
  }

  /** A config outlives every Bucket and CloudPrincipal that passed its gate, in the very incarnation it
      passed with, unless the gate was passed between the two steps of a finalization. */
  lemma ConfigOutlivesDependents(r: Regexps, steps: seq<Step>, name: string)
    requires IsRun(r, Start, steps) && NeverRaced(r, Start, steps)
    requires var s := After(r, Start, steps); name in s.dependents && s.dependents[name].Some?
    ensures var s := After(r, Start, steps);
      s.config.Some? && s.config.value.uid == s.dependents[name].value
  {
    RunKeepsOutlives(r, Start, steps);
  }

  /** One whose finalization is a single step always does. */
  lemma {:induction false} AtomicNeverRaces(r: Regexps, s: State, steps: seq<Step>)
    requires IsRun(r, s, steps) && !s.pc.Unreferenced?
    requires forall i :: 0 <= i < |steps| ==> !steps[i].FindUnreferenced?
    ensures NeverRaced(r, s, steps)
    decreases |steps|
  {
    if steps != [] {
      AtomicNeverRaces(r, Apply(r, s, steps[0]), steps[1..]);
    }
  }

  /** In the two steps it takes, a dependent can appear and pass the gate of the terminating config, which
      then vanishes under it. */
  lemma ConfigCanVanish(r: Regexps, policy: Policy, name: string) returns (steps: seq<Step>)
    ensures IsRun(r, Start, steps)
    ensures var s := After(r, Start, steps);
      s.config.None? && s.dependents == map[name := Some(0)]
  {
    var s4 := Terminating(policy);
    var s5 := s4.(pc := Unreferenced(s4.config.value));
    var s6 := s5.(dependents := map[name := None]);
    var s7 := s5.(dependents := map[name := Some(0)]);
    assert s5 == Apply(r, s4, FindUnreferenced) && s6 == Apply(r, s5, CreateDependent(name));
    assert s7 == Apply(r, s6, PassGate(name));
    steps := First(r, s7, RemoveFinalizer, []);
    steps := First(r, s6, PassGate(name), steps);
    steps := First(r, s5, CreateDependent(name), steps);
    steps := First(r, s4, FindUnreferenced, steps);
    steps := FromStart(r, policy, steps);
  }

  function Terminating(policy: Policy): State {
    State(Some(Config(0, 2, policy, true, true, None)), Idle, map[], 1)
  }

  lemma FromStart(r: Regexps, policy: Policy, rest: seq<Step>) returns (steps: seq<Step>)
    requires IsRun(r, Terminating(policy), rest)
    ensures IsRun(r, Start, steps) && After(r, Start, steps) == After(r, Terminating(policy), rest)
  {
    var c := Config(0, 1, policy, false, false, None);
    var s1 := State(Some(c), Idle, map[], 1);
    var s2 := s1.(pc := Fetched(c));
    var held := c.(finalizer := true);
    var s3 := s1.(config := Some(held), pc := Guarded(held));
    var s4 := s1.(config := Some(held));
    assert s4 == Apply(r, s3, End) && Terminating(policy) == Apply(r, s4, UserDelete);
    steps := First(r, s4, UserDelete, rest);
    steps := First(r, s3, End, steps);
    assert s3 == Apply(r, s2, AddFinalizer);
    steps := First(r, s2, AddFinalizer, steps);
    steps := First(r, s1, Get, steps);
    assert s1 == Apply(r, Start, Create(policy));
    steps := First(r, Start, Create(policy), steps);
  }
}

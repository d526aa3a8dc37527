/** Conditions: how a controller's reconcile writes them and how its dependents read them. */
module Readiness {
  import opened Common

  datatype Status = True | False | Unknown

  datatype Type = Ready | ProviderConfigReady | BucketReady | CloudPrincipalReady

  datatype Condition = Condition(kind: Type, status: Status, generation: nat)

  /** An update keyed by type: in place when the type is there, at the end when it is not. */
  function SetCondition(cs: seq<Condition>, c: Condition): seq<Condition> {
    if cs == [] then [c]
    else if cs[0].kind == c.kind then [c] + cs[1..]
    else [cs[0]] + SetCondition(cs[1..], c)
  }

  function SetAll(cs: seq<Condition>, patch: seq<Condition>): seq<Condition>
    decreases |patch|
  {
    if patch == [] then cs else SetAll(SetCondition(cs, patch[0]), patch[1..])
  }

  // ----- the reader -----

  /** Every condition is true, at the generation of the object, and there is one. */
  predicate AllReady(generation: nat, cs: seq<Condition>) {
    cs != [] && forall i :: 0 <= i < |cs| ==> cs[i].status.True? && cs[i].generation == generation
  }

  /** The first condition that stands in the way. */
  function Obstacle(generation: nat, cs: seq<Condition>): Option<Condition> {
    if cs == [] then None
    else if !cs[0].status.True? then Some(cs[0])
    else if cs[0].generation != generation then Some(Condition(cs[0].kind, False, 0))
    else Obstacle(generation, cs[1..])
  }

  lemma {:induction false} NoObstacleExactly(generation: nat, cs: seq<Condition>)
    ensures Obstacle(generation, cs).None? <==> cs == [] || AllReady(generation, cs)
    ensures Obstacle(generation, cs).Some? ==> !Obstacle(generation, cs).value.status.True?
  {
    if cs != [] {
      NoObstacleExactly(generation, cs[1..]);
      assert forall i :: 0 < i < |cs| ==> cs[i] == cs[1..][i - 1];
      assert forall i :: 0 <= i < |cs[1..]| ==> cs[1..][i] == cs[i + 1];
    }
  }

  const NoConditions := Condition(Ready, False, 0)

  method IsReady(generation: nat, cs: seq<Condition>) returns (why: Option<Condition>, ready: bool)
    ensures ready <==> AllReady(generation, cs)
    ensures why == if cs == [] then Some(NoConditions) else Obstacle(generation, cs)
    ensures ready <==> why.None?
    ensures !ready ==> !why.value.status.True?
  {
    NoObstacleExactly(generation, cs);
    if |cs| == 0 {
      return Some(NoConditions), false;
    }
    for i := 0 to |cs|
      invariant Obstacle(generation, cs) == Obstacle(generation, cs[i..])
    {
      assert cs[i..][0] == cs[i] && cs[i..][1..] == cs[i + 1..];
      if !cs[i].status.True? {
        return Some(cs[i]), false;
      }
      if generation != cs[i].generation {
        return Some(Condition(cs[i].kind, False, 0)), false;
      }
    }
    why, ready := None, true;
  }

  // ----- dependencies as one reconcile reads them -----

  datatype Dependency = Dependency(terminating: bool, generation: nat, conditions: seq<Condition>, provider: string)

  datatype Fetch = Found(d: Dependency) | NotFound | GetFailed

  datatype Setup = Ok | BeingDeleted | NotOk | NotReady

  function Prepare(f: Fetch): Setup {
    match f
    case Found(d) =>
      if d.terminating then BeingDeleted else if AllReady(d.generation, d.conditions) then Ok else NotReady
    case _ => NotOk
  }

  /** The status a dependency's condition takes over from it. */
  function Shown(f: Fetch): Status {
    if !f.Found? || f.d.terminating || f.d.conditions == [] then False
    else
      var why := Obstacle(f.d.generation, f.d.conditions);
      if why.None? then True else why.value.status
  }

  /** A dependency that could be used: it exists, is not terminating and is ready at its own generation. */
  predicate Usable(f: Fetch) {
    f.Found? && !f.d.terminating && AllReady(f.d.generation, f.d.conditions)
  }

  // ----- what a reconcile does with its own conditions -----

  /** `patch` is what one status patch sets, in order; empty when the reconcile patches nothing. */
  datatype Outcome = Outcome(patch: seq<Condition>, ensured: bool, deletesSelf: bool, success: bool)

  /** Buckets and CloudPrincipals: everything their reconcile learns before it reports. */
  datatype OwnerInput = OwnerInput(
    generation: nat, provider: bool, allowed: bool, supported: bool, valid: bool, ensureOk: bool)

  function ReconcileOwner(x: OwnerInput): Outcome {
    var g := x.generation;
    if !x.provider then
      Outcome([Condition(Ready, False, g), Condition(ProviderConfigReady, False, g)], false, false, false)
    else if !x.allowed || !x.supported || !x.valid then Outcome([Condition(Ready, False, g)], false, false, false)
    else if !x.ensureOk then Outcome([Condition(Ready, False, g)], true, false, false)
    else Outcome([Condition(ProviderConfigReady, True, g), Condition(Ready, True, g)], true, false, true)
  }

  datatype AccessInput = AccessInput(
    generation: nat, bucket: Fetch, principal: Fetch, provider: bool, allowed: bool, supported: bool, ensureOk: bool)

  function NotReadyOutcome(g: nat, bucket: Status, principal: Status): Outcome {
    Outcome(
      [Condition(Ready, False, g), Condition(CloudPrincipalReady, principal, g), Condition(BucketReady, bucket, g)],
      false, false, false)
  }

  function ReconcileAccess(x: AccessInput): Outcome {
    var g := x.generation;
    var b, p := Prepare(x.bucket), Prepare(x.principal);
    var bs, ps := Shown(x.bucket), Shown(x.principal);
    if b.BeingDeleted? then Outcome([], false, true, false)
    else if b.NotOk? then Outcome([Condition(Ready, False, g), Condition(BucketReady, False, g)], false, false, false)
    else if p.BeingDeleted? then Outcome([], false, true, false)
    else if p.NotOk? || b.NotReady? || p.NotReady? || x.principal.d.provider != x.bucket.d.provider then
      NotReadyOutcome(g, bs, ps)
    else
      var ensured := x.provider && x.allowed && x.supported;
      if ensured && x.ensureOk then
        Outcome(
          [Condition(Ready, True, g), Condition(CloudPrincipalReady, ps, g),
           Condition(BucketReady, bs, g), Condition(ProviderConfigReady, True, g)],
          true, false, true)
      else
        Outcome(
          [Condition(BucketReady, bs, g), Condition(ProviderConfigReady, if x.provider then True else False, g),
           Condition(Ready, False, g), Condition(CloudPrincipalReady, ps, g)],
          ensured, false, false)
  }

  /** The reconciles with the conditions they fill in on their way. */
  class Reconciler {
    var conditions: seq<Condition>
    var ensureCalls: nat
    var deleted: bool

    constructor ()
      ensures conditions == [] && ensureCalls == 0 && !deleted
    {
      conditions, ensureCalls, deleted := [], 0, false;
    }

    method PatchStatus(patch: seq<Condition>)
      modifies this`conditions
      ensures conditions == SetAll(old(conditions), patch)
    {
      ghost var before := conditions;
      for i := 0 to |patch|
        invariant SetAll(conditions, patch[i..]) == SetAll(before, patch)
      {
        assert patch[i..][0] == patch[i] && patch[i..][1..] == patch[i + 1..];
        conditions := SetCondition(conditions, patch[i]);
      }
    }

    method PrepareDependency(f: Fetch) returns (setup: Setup, status: Status)
      ensures setup == Prepare(f) && status == Shown(f)
      ensures setup.Ok? <==> status.True?
    {
      if !f.Found? {
        return NotOk, False;
      }
      if f.d.terminating {
        return BeingDeleted, False;
      }
      var why, ready := IsReady(f.d.generation, f.d.conditions);
      if !ready {
        return NotReady, why.value.status;
      }
      return Ok, True;
    }

    /** The live path of a Bucket; that of a CloudPrincipal differs in the messages. */
    method ReconcileBucket(x: OwnerInput)
      modifies this
      ensures var outcome := ReconcileOwner(x);
        && conditions == SetAll(old(conditions), outcome.patch)
        && ensureCalls == old(ensureCalls) + (if outcome.ensured then 1 else 0)
        && deleted == old(deleted)
    {
      var bucket := Condition(Ready, False, x.generation);
      var provider := Condition(ProviderConfigReady, if x.provider then True else False, x.generation);
      if !x.provider {
        PatchStatus([bucket, provider]);
        return;
      }
      if !x.allowed {
        PatchStatus([bucket]);
        return;
      }
      if !x.supported {
        PatchStatus([bucket]);
        return;
      }
      if !x.valid {
        PatchStatus([bucket]);
        return;
      }
      ensureCalls := ensureCalls + 1;
      if !x.ensureOk {
        PatchStatus([bucket]);
        return;
      }
      bucket := bucket.(status := True);
      PatchStatus([provider, bucket]);
    }

    method ReconcileBucketAccess(x: AccessInput)
      modifies this
      ensures var outcome := ReconcileAccess(x);
        && conditions == SetAll(old(conditions), outcome.patch)
        && ensureCalls == old(ensureCalls) + (if outcome.ensured then 1 else 0)
        && (deleted <==> old(deleted) || outcome.deletesSelf)
    {
      var g := x.generation;
      var ready := Condition(Ready, False, g);
      var b, bs := PrepareDependency(x.bucket);
      var bucket := Condition(BucketReady, bs, g);
      if b.BeingDeleted? {
        deleted := true;
        return;
      }
      if b.NotOk? {
        PatchStatus([ready, bucket]);
        return;
      }
      var p, ps := PrepareDependency(x.principal);
      var principal := Condition(CloudPrincipalReady, ps, g);
      if p.BeingDeleted? {
        deleted := true;
        return;
      }
      if p.NotOk? || !ps.True? || !bs.True? {
        PatchStatus([ready, principal, bucket]);
        return;
      }
      if x.principal.d.provider != x.bucket.d.provider {
        PatchStatus([ready, principal, bucket]);
        return;
      }
      var provider := Condition(ProviderConfigReady, if x.provider then True else False, g);
      if x.provider && x.allowed && x.supported {
        ensureCalls := ensureCalls + 1;
        if x.ensureOk {
          ready := ready.(status := True);
          PatchStatus([ready, principal, bucket, provider]);
          return;
        }
      }
      PatchStatus([bucket, provider, ready, principal]);
    }
  }

  // ----- what patches do to a list -----

  predicate Distinct(cs: seq<Condition>) {
    forall i, j :: 0 <= i < j < |cs| ==> cs[i].kind != cs[j].kind
  }

  predicate Within(cs: seq<Condition>, kinds: set<Type>) {
    forall i :: 0 <= i < |cs| ==> cs[i].kind in kinds
  }

  predicate Has(cs: seq<Condition>, c: Condition) {
    exists i :: 0 <= i < |cs| && cs[i] == c
  }

  lemma {:induction false} SetConditionHas(cs: seq<Condition>, c: Condition, d: Condition)
    requires Distinct(cs)
    ensures Distinct(SetCondition(cs, c))
    ensures Has(SetCondition(cs, c), d) <==> d == c || (d.kind != c.kind && Has(cs, d))
  {
    var after := SetCondition(cs, c);
    if cs == [] {
      assert after[0] == c;
    } else {
      var rest := cs[1..];
      HasCons(cs, d);
      HasCons(after, d);
      if cs[0].kind == c.kind {
        assert after[1..] == rest;
        assert forall i :: 0 <= i < |rest| ==> rest[i] == cs[i + 1];
      } else {
        SetConditionHas(rest, c, d);
        assert after[1..] == SetCondition(rest, c);
        forall j | 0 <= j < |after[1..]|
          ensures after[1..][j].kind != cs[0].kind
        {
          SetConditionHas(rest, c, after[1..][j]);
          assert Has(after[1..], after[1..][j]);
          if after[1..][j] != c {
            var i :| 0 <= i < |rest| && rest[i] == after[1..][j];
            assert cs[i + 1] == rest[i];
          }
        }
        assert forall j :: 0 < j < |after| ==> after[j] == after[1..][j - 1];
      }
    }
  }

  lemma HasCons(cs: seq<Condition>, d: Condition)
    requires cs != []
    ensures Has(cs, d) <==> cs[0] == d || Has(cs[1..], d)
  {
    if Has(cs[1..], d) {
      var i :| 0 <= i < |cs[1..]| && cs[1..][i] == d;
      assert cs[i + 1] == d;
    }
    if Has(cs, d) && cs[0] != d {
      var i :| 0 <= i < |cs| && cs[i] == d;
      assert cs[1..][i - 1] == d;
    }
  }

  predicate Sets(patch: seq<Condition>, kind: Type) {
    exists i :: 0 <= i < |patch| && patch[i].kind == kind
  }

  /** A patch replaces the conditions of its types and keeps the others. */
  lemma {:induction false} SetAllHas(cs: seq<Condition>, patch: seq<Condition>, d: Condition)
    requires Distinct(cs) && Distinct(patch)
    ensures Distinct(SetAll(cs, patch))
    ensures Has(SetAll(cs, patch), d) <==> Has(patch, d) || (!Sets(patch, d.kind) && Has(cs, d))
    decreases |patch|
  {
    if patch != [] {
      var rest := patch[1..];
      SetConditionHas(cs, patch[0], d);
      SetAllHas(SetCondition(cs, patch[0]), rest, d);
      HasCons(patch, d);
      assert forall i :: 0 <= i < |rest| ==> rest[i] == patch[i + 1];
      assert Sets(patch, d.kind) <==> patch[0].kind == d.kind || Sets(rest, d.kind) by {
        if Sets(patch, d.kind) && patch[0].kind != d.kind {
          var i :| 0 <= i < |patch| && patch[i].kind == d.kind;
          assert rest[i - 1].kind == d.kind;
        }
      }
    }
  }

  // ----- readiness tells the last report -----

  datatype Controller = Owner | Access

  datatype Report =
    | FromOwner(owner: OwnerInput)
    | FromAccess(access: AccessInput)
    | DeletionFailed(failedAt: nat)   // a failed or refused deletion marks the object not ready

  predicate Fits(c: Controller, r: Report) {
    (r.FromOwner? ==> c.Owner?) && (r.FromAccess? ==> c.Access?)
  }

  function GenerationOf(r: Report): nat {
    match r
    case FromOwner(x) => x.generation
    case FromAccess(x) => x.generation
    case DeletionFailed(g) => g
  }

  function OutcomeOf(r: Report): Outcome {
    match r
    case FromOwner(x) => ReconcileOwner(x)
    case FromAccess(x) => ReconcileAccess(x)
    case DeletionFailed(g) => Outcome([Condition(Ready, False, g)], false, false, false)
  }

  function Types(c: Controller): set<Type> {
    if c.Owner? then {Ready, ProviderConfigReady} else {Ready, ProviderConfigReady, BucketReady, CloudPrincipalReady}
  }

  /** The lists a controller can meet: one condition per type, of the types it writes. */
  predicate Reachable(c: Controller, cs: seq<Condition>) {
    Distinct(cs) && Within(cs, Types(c))
  }

  /** A success sets every type to true at its generation; anything else sets `Ready` to false. */
  lemma PatchShape(c: Controller, r: Report)
    requires Fits(c, r) && OutcomeOf(r).patch != []
    ensures var o := OutcomeOf(r);
      && Distinct(o.patch) && Within(o.patch, Types(c))
      && (o.success ==> forall i :: 0 <= i < |o.patch| ==>
            o.patch[i].status.True? && o.patch[i].generation == GenerationOf(r))
      && (o.success ==> forall t :: t in Types(c) ==> Sets(o.patch, t))
      && (!o.success ==> Has(o.patch, Condition(Ready, False, GenerationOf(r))))
  {
    var o := OutcomeOf(r);
    if o.success {
      if c.Owner? {
        assert o.patch[0].kind == ProviderConfigReady && o.patch[1].kind == Ready;
      } else {
        assert o.patch[0].kind == Ready && o.patch[1].kind == CloudPrincipalReady;
        assert o.patch[2].kind == BucketReady && o.patch[3].kind == ProviderConfigReady;
        ShownExactly(r.access.bucket);
        ShownExactly(r.access.principal);
      }
    } else if r.FromAccess? && |o.patch| == 4 {
      assert o.patch[2] == Condition(Ready, False, GenerationOf(r));
    } else {
      assert o.patch[0] == Condition(Ready, False, GenerationOf(r));
    }
  }

  lemma ShownExactly(f: Fetch)
    ensures Shown(f).True? <==> Usable(f)
    ensures Usable(f) <==> Prepare(f).Ok?
  {
    if f.Found? {
      NoObstacleExactly(f.d.generation, f.d.conditions);
    }
  }

  /** After a status patch the object reads as ready, for whatever generation, iff the report was a
      success of that generation: a success makes it ready and every other report makes it unready,
      whatever the conditions were before. */
  lemma PatchedIsReadyExactly(c: Controller, cs: seq<Condition>, r: Report, g: nat)
    requires Reachable(c, cs) && Fits(c, r) && OutcomeOf(r).patch != []
    ensures Reachable(c, SetAll(cs, OutcomeOf(r).patch))
    ensures AllReady(g, SetAll(cs, OutcomeOf(r).patch)) <==> OutcomeOf(r).success && g == GenerationOf(r)
  {
    var patch := OutcomeOf(r).patch;
    var after := SetAll(cs, patch);
    PatchShape(c, r);
    forall i | 0 <= i < |after|
      ensures Has(patch, after[i]) || (!Sets(patch, after[i].kind) && Has(cs, after[i]))
    {
      assert Has(after, after[i]);
      SetAllHas(cs, patch, after[i]);
    }
    var shown := if OutcomeOf(r).success then patch[0] else Condition(Ready, False, GenerationOf(r));
    SetAllHas(cs, patch, shown);
    assert Has(patch, patch[0]);
    assert Has(after, shown);
  }

  /** One status patch attempt: `patched` tells whether it went through. */
  datatype Attempt = Attempt(report: Report, patched: bool)

  function ConditionsAfter(attempts: seq<Attempt>): seq<Condition> {
    if attempts == [] then []
    else
      var before := ConditionsAfter(attempts[..|attempts| - 1]);
      var last := attempts[|attempts| - 1];
      if last.patched then SetAll(before, OutcomeOf(last.report).patch) else before
  }

  /** The last report whose patch went through. */
  function LastReport(attempts: seq<Attempt>): Option<Report> {
    if attempts == [] then None
    else
      var last := attempts[|attempts| - 1];
      if last.patched && OutcomeOf(last.report).patch != [] then Some(last.report)
      else LastReport(attempts[..|attempts| - 1])
  }

  /** Along every run, an object reads as ready at a generation iff the last report that reached its
      status was a success at that generation. */
  lemma {:induction false} ReadyIsLastSuccess(c: Controller, attempts: seq<Attempt>, g: nat)
    requires forall i :: 0 <= i < |attempts| ==> Fits(c, attempts[i].report)
    ensures Reachable(c, ConditionsAfter(attempts))
    ensures AllReady(g, ConditionsAfter(attempts))
       <==> (LastReport(attempts).Some? && OutcomeOf(LastReport(attempts).value).success
             && GenerationOf(LastReport(attempts).value) == g)
  {
    if attempts != [] {
      var init, last := attempts[..|attempts| - 1], attempts[|attempts| - 1];
      ReadyIsLastSuccess(c, init, g);
      if last.patched && OutcomeOf(last.report).patch != [] {
        PatchedIsReadyExactly(c, ConditionsAfter(init), last.report, g);
      }
    }
  }

  /** The cloud is asked for access iff both dependencies were read ready at their own generation and
      not terminating, under one provider that passed, and policy and capabilities allow it. */
  lemma EnsuresExactly(x: AccessInput)
    ensures ReconcileAccess(x).ensured
       <==> (Usable(x.bucket) && Usable(x.principal) && x.principal.d.provider == x.bucket.d.provider
             && x.provider && x.allowed && x.supported)
  {
    ShownExactly(x.bucket);
    ShownExactly(x.principal);
  }

  /** A Bucket or CloudPrincipal is ensured iff its provider is ready, policy and capabilities allow it and its
      spec is valid, and is reported with its generation: not ready together with the provider that is not, or
      alone, or ready together with the provider. */
  lemma OwnerExactly(x: OwnerInput)
    ensures var o := ReconcileOwner(x); var g := x.generation;
      && (o.ensured <==> x.provider && x.allowed && x.supported && x.valid)
      && (o.success <==> o.ensured && x.ensureOk) && !o.deletesSelf
      && Has(o.patch, Condition(Ready, if o.success then True else False, g))
      && (Sets(o.patch, ProviderConfigReady) <==> !x.provider || o.success)
      && (Sets(o.patch, ProviderConfigReady) ==>
            Has(o.patch, Condition(ProviderConfigReady, if x.provider then True else False, g)))
      && Distinct(o.patch)
  {
    PatchShape(Owner, FromOwner(x));
    var patch := ReconcileOwner(x).patch;
    assert patch[0] in patch && (|patch| > 1 ==> patch[1] in patch);
  }

  /** The four ways a dependency can be found. */
  lemma PrepareExactly(f: Fetch)
    ensures Prepare(f).NotOk? <==> !f.Found?
    ensures Prepare(f).BeingDeleted? <==> f.Found? && f.d.terminating
    ensures Prepare(f).Ok? <==> Usable(f)
  {
    ShownExactly(f);
  }

  /** The condition in the way is the first that is not true, or that is of another generation, which counts
      as false. */
  lemma {:induction false} ObstacleAt(generation: nat, cs: seq<Condition>, i: nat)
    requires i < |cs| && (forall j :: 0 <= j < i ==> cs[j].status.True? && cs[j].generation == generation)
    requires !cs[i].status.True? || cs[i].generation != generation
    ensures Obstacle(generation, cs) == Some(if cs[i].status.True? then Condition(cs[i].kind, False, 0) else cs[i])
  {
    if i > 0 {
      assert cs[1..][i - 1] == cs[i];
      ObstacleAt(generation, cs[1..], i - 1);
    }
  }

  /** A dependency's condition takes over the status of its first condition in the way, and is false without
      any conditions and for one that is missing or terminating. */
  lemma ShownAt(f: Fetch, i: nat)
    requires f.Found? && !f.d.terminating && i < |f.d.conditions|
    requires forall j :: 0 <= j < i ==>
      f.d.conditions[j].status.True? && f.d.conditions[j].generation == f.d.generation
    requires !f.d.conditions[i].status.True? || f.d.conditions[i].generation != f.d.generation
    ensures Shown(f) == if f.d.conditions[i].status.True? then False else f.d.conditions[i].status
  {
    ObstacleAt(f.d.generation, f.d.conditions, i);
  }

  predicate SettledFetches(x: AccessInput) {
    Usable(x.bucket) && Usable(x.principal) && x.principal.d.provider == x.bucket.d.provider
  }

  /** What an access that does not withdraw reports: its bucket always, its principal once the bucket was
      found, its provider once both are usable and agree on it, and itself ready iff the cloud then did what it
      was asked. */
  lemma AccessReportsExactly(x: AccessInput)
    requires !ReconcileAccess(x).deletesSelf
    ensures var o := ReconcileAccess(x); var g := x.generation;
      && (o.success <==> o.ensured && x.ensureOk)
      && Has(o.patch, Condition(Ready, if o.success then True else False, g))
      && Has(o.patch, Condition(BucketReady, Shown(x.bucket), g))
      && (if x.bucket.Found? then Has(o.patch, Condition(CloudPrincipalReady, Shown(x.principal), g))
          else !Sets(o.patch, CloudPrincipalReady))
      && (if SettledFetches(x) then Has(o.patch, Condition(ProviderConfigReady, if x.provider then True else False, g))
          else !Sets(o.patch, ProviderConfigReady))
      && Distinct(o.patch)
  {
    EnsuresExactly(x);
    ShownExactly(x.bucket);
    ShownExactly(x.principal);
    WithdrawsExactly(x);
    PatchShape(Access, FromAccess(x));
    var patch := ReconcileAccess(x).patch;
    assert patch[0] in patch && patch[1] in patch && (|patch| > 2 ==> patch[2] in patch)
      && (|patch| > 3 ==> patch[3] in patch);
  }

  /** A BucketAccess withdraws itself iff its bucket is terminating, or its bucket was found and its
      principal is terminating. */
  lemma WithdrawsExactly(x: AccessInput)
    ensures ReconcileAccess(x).deletesSelf
       <==> x.bucket.Found? && (x.bucket.d.terminating || (x.principal.Found? && x.principal.d.terminating))
    ensures ReconcileAccess(x).patch == [] <==> ReconcileAccess(x).deletesSelf
    ensures ReconcileAccess(x).deletesSelf ==> !ReconcileAccess(x).ensured && !ReconcileAccess(x).success
  {
  }
}

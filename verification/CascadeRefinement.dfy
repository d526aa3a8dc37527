/** The single-step reconciles of the cascade are runs of the protocol: an undisturbed reconcile leaves the
    store that `Cascade.Reconcile` says, up to versions, whether its calls succeed or not. */
module CascadeRefinement {
  import opened Common
  import opened FinalizerProtocol
  import opened FinalizerInvariant
  import opened FinalizerTheorems
  import opened Cascade

  /** Equal but for the resource version. */
  predicate SameObject(a: Object, b: Object) {
    a.(version := 0) == b.(version := 0)
  }

  predicate SameStore(a: Store, b: Store) {
    a.Keys == b.Keys && forall k :: k in a ==> SameObject(a[k], b[k])
  }

  /** `more` continues `run` by calls of the reconcile of `k` that do not fail, and by nothing else. */
  ghost predicate ByReconcile(run: seq<Step>, more: seq<Step>, k: Key) {
    run <= more && forall i :: |run| <= i < |more| ==> more[i].k == k && !IsUserStep(more[i]) && !more[i].Abort?
  }

  /** What an undisturbed reconcile leaves behind. */
  ghost predicate Leaves(run: seq<Step>, more: seq<Step>, k: Key, o: Option<Object>, pc: Pc) {
    IsRun(run) && IsRun(more) && ByReconcile(run, more, k)
    && Frame(After(run), After(more), k) && At(After(more), k, o, pc)
  }

  lemma Call(run: seq<Step>, sofar: seq<Step>, step: Step, k: Key, before: Option<Object>, at: Pc,
             o: Option<Object>, pc: Pc)
    returns (more: seq<Step>)
    requires Leaves(run, sofar, k, before, at)
    requires step.k == k && !IsUserStep(step) && !step.Abort?
    requires Enabled(After(sofar), step) && At(Apply(After(sofar), step), k, o, pc)
    ensures Leaves(run, more, k, o, pc) && more == sofar + [step]
  {
    more := sofar + [step];
    assert more[..|more| - 1] == sofar;
    StepFrame(After(sofar), step);
  }

  lemma SameObjects(run: seq<Step>, more: seq<Step>, k: Key, o: Object, pc: Pc)
    requires Leaves(run, more, k, Some(o), pc) && k in After(run).objects && After(run).objects[k] == o
    ensures After(more).objects == After(run).objects
  {
  }

  // ----- the deletion path -----

  /** All lists are fetched; the store stays as it is. */
  lemma {:induction false} Lists(run: seq<Step>, sofar: seq<Step>, k: Key, o: Object, pending: seq<Kind>, found: bool)
    returns (more: seq<Step>)
    requires Leaves(run, sofar, k, Some(o), Listing(o, pending, found))
    requires k in After(run).objects && After(run).objects[k] == o && pending != []
    ensures var referenced := found || exists kind :: kind in pending && Referenced(After(run).objects, k, kind);
      Leaves(run, more, k, Some(o), if referenced then Idle else Unreferenced(o))
    decreases |pending|
  {
    SameObjects(run, sofar, k, o, Listing(o, pending, found));
    var now := found || Referenced(After(sofar).objects, k, pending[0]);
    var next := if |pending| > 1 then Listing(o, pending[1..], now) else if now then Idle else Unreferenced(o);
    more := Call(run, sofar, List(k), k, Some(o), Listing(o, pending, found), Some(o), next);
    assert forall kind :: kind in pending <==> kind == pending[0] || kind in pending[1..];
    if |pending| > 1 {
      more := Lists(run, more, k, o, pending[1..], now);
    }
  }

  lemma Frees(run: seq<Step>, sofar: seq<Step>, k: Key, o: Object) returns (more: seq<Step>)
    requires Leaves(run, sofar, k, Some(o), Unreferenced(o))
    requires o.terminating && o.finalizer && !o.foreign
    ensures Leaves(run, more, k, None, Idle)
  {
    if o.policy == Delete && (IsReferrer(k.kind) ==> o.record.Some?) {
      more := Call(run, sofar, CloudDelete(k, true), k, Some(o), Unreferenced(o), Some(o), Finalizing(o, true));
      more := Call(run, more, RemoveFinalizer(k), k, Some(o), Finalizing(o, true), None, Idle);
    } else {
      more := Call(run, sofar, SkipCloudDelete(k), k, Some(o), Unreferenced(o), Some(o), Finalizing(o, false));
      more := Call(run, more, RemoveFinalizer(k), k, Some(o), Finalizing(o, false), None, Idle);
    }
  }

  lemma Deletion(run: seq<Step>, k: Key, o: Object) returns (more: seq<Step>)
    requires IsRun(run) && At(After(run), k, Some(o), Idle)
    requires o.terminating && o.finalizer && !o.foreign
    ensures Leaves(run, more, k, if HasReferrers(After(run).objects, k) then Some(o) else None, Idle)
  {
    var free: bool;
    more, free := Searches(run, k, o);
    if free {
      more := Frees(run, more, k, o);
    }
  }

  lemma Searches(run: seq<Step>, k: Key, o: Object) returns (more: seq<Step>, free: bool)
    requires IsRun(run) && At(After(run), k, Some(o), Idle) && o.terminating && o.finalizer
    ensures free <==> !HasReferrers(After(run).objects, k)
    ensures Leaves(run, more, k, Some(o), if free then Unreferenced(o) else Idle)
  {
    more := Call(run, run, Get(k), k, Some(o), Idle, Some(o), Fetched(o));
    free := !HasReferrers(After(run).objects, k);
    if IsReferrer(k.kind) {
      more := Call(run, more, StartDeletion(k), k, Some(o), Fetched(o), Some(o), Unreferenced(o));
    } else {
      more := ListsAll(run, more, k, o);
    }
  }

  lemma ListsAll(run: seq<Step>, sofar: seq<Step>, k: Key, o: Object) returns (more: seq<Step>)
    requires !IsReferrer(k.kind) && o.terminating && o.finalizer
    requires Leaves(run, sofar, k, Some(o), Fetched(o)) && k in After(run).objects && After(run).objects[k] == o
    ensures Leaves(run, more, k, Some(o), if HasReferrers(After(run).objects, k) then Idle else Unreferenced(o))
  {
    var pending := ListedKinds(k.kind);
    more := Call(run, sofar, StartDeletion(k), k, Some(o), Fetched(o), Some(o), Listing(o, pending, false));
    more := Lists(run, more, k, o, pending, false);
  }

  // ----- the live path -----

  /** Where reading `d` leaves the reconcile. */
  function AfterReading(objects: Store, o: Object, d: Key, seen: seq<nat>, ready: bool): Pc {
    if d !in objects then Reporting(o)
    else if objects[d].terminating then Withdrawing(o)
    else Reading(o, seen + [objects[d].uid], ready && IsReady(objects[d]))
  }

  lemma ReadOne(run: seq<Step>, sofar: seq<Step>, k: Key, o: Object, seen: seq<nat>, ready: bool)
    returns (more: seq<Step>)
    requires Leaves(run, sofar, k, Some(o), Reading(o, seen, ready))
    requires |seen| < |o.refs| && o.refs[|seen|] != k
    ensures Leaves(run, more, k, Some(o), AfterReading(After(run).objects, o, o.refs[|seen|], seen, ready))
  {
    var pc := AfterReading(After(run).objects, o, o.refs[|seen|], seen, ready);
    more := Call(run, sofar, ReadRef(k), k, Some(o), Reading(o, seen, ready), Some(o), pc);
  }

  /** Where reading the rest of the references leaves it. */
  ghost predicate Read(objects: Store, o: Object, rest: seq<Key>, seen: seq<nat>, ready: bool, pc: Pc) {
    match ReadRefs(objects, rest)
    case Missing => pc == Reporting(o)
    case Terminating => pc == Withdrawing(o)
    case Present => (forall i :: 0 <= i < |rest| ==> rest[i] in objects)
                    && pc == Reading(o, seen + Uids(objects, rest), ready && AllReady(objects, rest))
  }

  lemma ReadCons(objects: Store, o: Object, rest: seq<Key>, seen: seq<nat>, ready: bool, pc: Pc)
    requires rest != []
    requires var first := AfterReading(objects, o, rest[0], seen, ready);
      if first.Reading? then Read(objects, o, rest[1..], first.seen, first.ready, pc) else pc == first
    ensures Read(objects, o, rest, seen, ready, pc)
  {
    AllReadyCons(objects, rest);
    if ReadRefs(objects, rest) == Present {
      assert forall i :: 0 < i < |rest| ==> rest[i] == rest[1..][i - 1];
      var u := objects[rest[0]].uid;
      assert (seen + [u]) + Uids(objects, rest[1..]) == seen + ([u] + Uids(objects, rest[1..]));
    }
  }

  /** The references are read until one is missing or terminating; `rest` are those still to read. */
  lemma {:induction false} Reads(run: seq<Step>, sofar: seq<Step>, k: Key, o: Object, objects: Store,
                                 seen: seq<nat>, ready: bool, rest: seq<Key>)
    returns (more: seq<Step>, pc: Pc)
    requires Leaves(run, sofar, k, Some(o), Reading(o, seen, ready)) && objects == After(run).objects
    requires |seen| <= |o.refs| && rest == o.refs[|seen|..] && k !in o.refs
    ensures Leaves(run, more, k, Some(o), pc) && Read(objects, o, rest, seen, ready, pc)
    decreases |rest|
  {
    if rest == [] {
      more, pc := sofar, Reading(o, seen, ready);
      assert seen + [] == seen;
    } else {
      var d := rest[0];
      assert d == o.refs[|seen|];
      more := ReadOne(run, sofar, k, o, seen, ready);
      var first := AfterReading(objects, o, d, seen, ready);
      pc := first;
      if first.Reading? {
        more, pc := Reads(run, more, k, o, objects, first.seen, first.ready, rest[1..]);
      }
      ReadCons(objects, o, rest, seen, ready, pc);
    }
  }

  lemma AllReadyCons(objects: Store, refs: seq<Key>)
    requires refs != []
    ensures AllReady(objects, refs) <==> refs[0] in objects && IsReady(objects[refs[0]]) && AllReady(objects, refs[1..])
  {
    assert forall i :: 0 < i < |refs| ==> refs[i] == refs[1..][i - 1];
    assert forall i :: 0 <= i < |refs[1..]| ==> refs[1..][i] == refs[i + 1];
  }

  lemma Starts(run: seq<Step>, k: Key, o: Object) returns (more: seq<Step>, held: Object)
    requires IsRun(run) && At(After(run), k, Some(o), Idle) && !o.terminating
    ensures held == if o.finalizer then o else o.(finalizer := true, version := o.version + 1)
    ensures Leaves(run, more, k, Some(held), Reading(held, [], true))
  {
    more := Call(run, run, Get(k), k, Some(o), Idle, Some(o), Fetched(o));
    held := if o.finalizer then o else o.(finalizer := true, version := o.version + 1);
    more := Call(run, more, AddFinalizer(k), k, Some(o), Fetched(o), Some(held), Reading(held, [], true));
  }

  lemma StartsAndReads(run: seq<Step>, k: Key, o: Object) returns (more: seq<Step>, held: Object, pc: Pc)
    requires IsRun(run) && At(After(run), k, Some(o), Idle) && !o.terminating && k !in o.refs
    ensures held.finalizer && SameObject(held, o.(finalizer := true))
    ensures Leaves(run, more, k, Some(held), pc) && Read(After(run).objects, held, held.refs, [], true, pc)
  {
    more, held := Starts(run, k, o);
    more, pc := Reads(run, more, k, held, After(run).objects, [], true, held.refs);
  }

  lemma Live(run: seq<Step>, k: Key, o: Object) returns (more: seq<Step>, end: Object)
    requires IsRun(run) && At(After(run), k, Some(o), Idle) && !o.terminating && WellFormedRefs(k.kind, o.refs)
    ensures Leaves(run, more, k, Some(end), Idle) && SameObject(end, Next(After(run).objects, k))
  {
    var held, pc;
    more, held, pc := StartsAndReads(run, k, o);
    more, end := Reports(run, more, k, held, pc);
    NextReported(After(run).objects, k, held, pc, end);
  }

  ghost function Reported(o: Object, pc: Pc): Object {
    if pc.Withdrawing? then o.(terminating := true)
    else if pc.Reading? && pc.ready then
      o.(readyAt := Some(o.generation), record := Some(Record(pc.seen, o.generation, o.redirects)))
    else o.(readyAt := None)
  }

  lemma NextReported(objects: Store, k: Key, held: Object, pc: Pc, end: Object)
    requires k in objects && !objects[k].terminating && SameObject(held, objects[k].(finalizer := true))
    requires Read(objects, held, held.refs, [], true, pc) && SameObject(end, Reported(held, pc))
    ensures SameObject(end, Next(objects, k))
  {
    if pc.Reading? {
      assert [] + Uids(objects, held.refs) == Uids(objects, held.refs);
    }
  }

  /** What was read decides what is reported. */
  lemma Reports(run: seq<Step>, sofar: seq<Step>, k: Key, o: Object, pc: Pc) returns (more: seq<Step>, end: Object)
    requires Leaves(run, sofar, k, Some(o), pc) && o.finalizer && !o.terminating
    requires pc == Reporting(o) || pc == Withdrawing(o) || (pc.Reading? && pc.o == o && |pc.seen| == |o.refs|)
    ensures Leaves(run, more, k, Some(end), Idle)
    ensures SameObject(end, Reported(o, pc))
  {
    if pc.Reading? && pc.ready {
      more, end := ReportsReady(run, sofar, k, o, pc);
    } else if pc.Withdrawing? {
      end := o.(terminating := true, version := o.version + 1);
      more := Call(run, sofar, DeleteSelf(k), k, Some(o), pc, Some(end), Idle);
    } else {
      more, end := ReportsNotReady(run, sofar, k, o, pc);
    }
  }

  lemma ReportsReady(run: seq<Step>, sofar: seq<Step>, k: Key, o: Object, pc: Pc) returns (more: seq<Step>, end: Object)
    requires Leaves(run, sofar, k, Some(o), pc) && o.finalizer
    requires pc.Reading? && pc.ready && pc.o == o && |pc.seen| == |o.refs|
    ensures Leaves(run, more, k, Some(end), Idle) && SameObject(end, Reported(o, pc))
  {
    more := Call(run, sofar, CloudEnsure(k), k, Some(o), pc, Some(o), Ensured(o, pc.seen));
    end := Reported(o, pc).(version := o.version + 1);
    more := Call(run, more, PatchReady(k), k, Some(o), Ensured(o, pc.seen), Some(end), Idle);
  }

  lemma ReportsNotReady(run: seq<Step>, sofar: seq<Step>, k: Key, o: Object, pc: Pc)
    returns (more: seq<Step>, end: Object)
    requires Leaves(run, sofar, k, Some(o), pc) && o.finalizer
    requires pc == Reporting(o) || (pc.Reading? && pc.o == o && |pc.seen| == |o.refs|)
    ensures Leaves(run, more, k, Some(end), Idle) && SameObject(end, o.(readyAt := None))
  {
    more := sofar;
    if pc.Reading? {
      more := Call(run, sofar, GiveUp(k), k, Some(o), pc, Some(o), Reporting(o));
    }
    end := o.(readyAt := None, version := o.version + 1);
    more := Call(run, more, PatchNotReady(k), k, Some(o), Reporting(o), Some(end), Idle);
  }

  // ----- one reconcile, and any schedule of them -----

  /** Between reconciles no reconcile is in flight. */
  ghost predicate AtRest(s: State) {
    forall k :: PcOf(s, k).Idle?
  }

  /** One changed object: what the cascade stores and what is left are the same up to versions. */
  lemma SamePut(objects: Store, s: Store, a: Attempt, end: Object)
    requires a.k in objects && SameObject(end, Left(objects, a)) && !Gone(Left(objects, a))
    requires s == objects[a.k := end]
    ensures SameStore(s, Reconcile(objects, a))
  {
  }

  /** `more` continues `run` by calls of the reconcile of `k` and by nothing else, and ends that reconcile
      with `o` in the store. */
  ghost predicate Ends(run: seq<Step>, more: seq<Step>, k: Key, o: Option<Object>) {
    IsRun(run) && IsRun(more) && run <= more && Frame(After(run), After(more), k) && At(After(more), k, o, Idle)
    && forall i :: |run| <= i < |more| ==> more[i].k == k && !IsUserStep(more[i])
  }

  lemma FramedStore(run: seq<Step>, more: seq<Step>, k: Key, o: Option<Object>)
    requires Ends(run, more, k, o) && AtRest(After(run))
    ensures AtRest(After(more))
    ensures o.Some? ==> After(more).objects == After(run).objects[k := o.value]
    ensures o.None? ==> After(more).objects == map j | j in After(run).objects && j != k :: After(run).objects[j]
  {
  }

  lemma DeletionIsARun(run: seq<Step>, k: Key) returns (more: seq<Step>)
    requires IsRun(run) && AtRest(After(run)) && Valid(After(run).objects)
    requires k in After(run).objects && After(run).objects[k].terminating
    ensures IsRun(more) && AtRest(After(more)) && ByReconcile(run, more, k)
    ensures SameStore(After(more).objects, Reconcile(After(run).objects, Attempt(k, Succeeds)))
  {
    var objects := After(run).objects;
    more := Deletion(run, k, objects[k]);
    FramedStore(run, more, k, if HasReferrers(objects, k) then Some(objects[k]) else None);
  }

  /** An undisturbed reconcile whose calls succeed is a run of the protocol, with the outcome the cascade
      assumes. */
  lemma ReconcileIsARun(run: seq<Step>, k: Key) returns (more: seq<Step>)
    requires IsRun(run) && AtRest(After(run)) && Valid(After(run).objects)
    ensures IsRun(more) && AtRest(After(more)) && ByReconcile(run, more, k)
    ensures SameStore(After(more).objects, Reconcile(After(run).objects, Attempt(k, Succeeds)))
  {
    var objects, a := After(run).objects, Attempt(k, Succeeds);
    if k !in objects {
      more := run;
    } else if objects[k].terminating {
      more := DeletionIsARun(run, k);
    } else {
      var end;
      more, end := Live(run, k, objects[k]);
      FramedStore(run, more, k, Some(end));
      LeftKeeps(objects, a);
      SamePut(objects, After(more).objects, a, end);
    }
  }

  // ----- reconciles that fail -----

  /** The next API call fails. */
  lemma Aborts(run: seq<Step>, sofar: seq<Step>, k: Key, o: Object, pc: Pc) returns (more: seq<Step>)
    requires Leaves(run, sofar, k, Some(o), pc) && !pc.Idle?
    ensures Ends(run, more, k, Some(o))
  {
    more := sofar + [Abort(k)];
    assert more[..|more| - 1] == sofar;
    StepFrame(After(sofar), Abort(k));
  }

  lemma FailsEarly(run: seq<Step>, k: Key, o: Object) returns (more: seq<Step>)
    requires IsRun(run) && At(After(run), k, Some(o), Idle)
    ensures Ends(run, more, k, Some(o))
  {
    more := Call(run, run, Get(k), k, Some(o), Idle, Some(o), Fetched(o));
    more := Aborts(run, more, k, o, Fetched(o));
  }

  lemma FailsWithFinalizer(run: seq<Step>, k: Key, o: Object) returns (more: seq<Step>, end: Object)
    requires IsRun(run) && At(After(run), k, Some(o), Idle) && !o.terminating
    ensures Ends(run, more, k, Some(end)) && SameObject(end, o.(finalizer := true))
  {
    more, end := Starts(run, k, o);
    more := Aborts(run, more, k, end, Reading(end, [], true));
  }

  lemma LiveRefused(run: seq<Step>, k: Key, o: Object) returns (more: seq<Step>, end: Object)
    requires IsRun(run) && At(After(run), k, Some(o), Idle) && !o.terminating && WellFormedRefs(k.kind, o.refs)
    ensures Ends(run, more, k, Some(end)) && SameObject(end, Failed(After(run).objects, k, Refused))
  {
    var held, pc;
    more, held, pc := StartsAndReads(run, k, o);
    if pc.Withdrawing? {
      end := held;
      more := Aborts(run, more, k, held, pc);
    } else {
      more, end := ReportsNotReady(run, more, k, held, pc);
    }
  }

  lemma CloudRefuses(run: seq<Step>, sofar: seq<Step>, k: Key, o: Object) returns (more: seq<Step>, end: Object)
    requires Leaves(run, sofar, k, Some(o), Unreferenced(o)) && o.terminating && o.finalizer
    requires o.policy == Delete && (IsReferrer(k.kind) ==> o.record.Some?)
    ensures Leaves(run, more, k, Some(end), Idle) && SameObject(end, o.(readyAt := None))
  {
    more := Call(run, sofar, CloudDelete(k, false), k, Some(o), Unreferenced(o), Some(o), Reporting(o));
    end := o.(readyAt := None, version := o.version + 1);
    more := Call(run, more, PatchNotReady(k), k, Some(o), Reporting(o), Some(end), Idle);
  }

  lemma DeletionRefused(run: seq<Step>, k: Key, o: Object) returns (more: seq<Step>, end: Object)
    requires IsRun(run) && At(After(run), k, Some(o), Idle) && o.terminating && o.finalizer
    ensures Ends(run, more, k, Some(end)) && SameObject(end, Failed(After(run).objects, k, Refused))
  {
    var free;
    more, free := Searches(run, k, o);
    end := o;
    if free {
      if AsksTheCloud(After(run).objects, k) {
        more, end := CloudRefuses(run, more, k, o);
      } else {
        more := Aborts(run, more, k, o, Unreferenced(o));
      }
    }
  }

  lemma Fails(run: seq<Step>, k: Key, o: Object, outcome: Outcome) returns (more: seq<Step>, end: Object)
    requires IsRun(run) && At(After(run), k, Some(o), Idle) && WellFormedRefs(k.kind, o.refs)
    requires !Gone(o) && !o.foreign && !outcome.Succeeds?
    ensures Ends(run, more, k, Some(end)) && SameObject(end, Failed(After(run).objects, k, outcome))
  {
    if outcome.Refused? {
      if o.terminating {
        more, end := DeletionRefused(run, k, o);
      } else {
        more, end := LiveRefused(run, k, o);
      }
    } else if outcome.FailsHeld? && !o.terminating {
      more, end := FailsWithFinalizer(run, k, o);
    } else {
      end := o;
      more := FailsEarly(run, k, o);
    }
  }

  /** So is an undisturbed reconcile that fails or is refused. */
  lemma AttemptIsARun(run: seq<Step>, a: Attempt) returns (more: seq<Step>)
    requires IsRun(run) && AtRest(After(run)) && Valid(After(run).objects)
    ensures IsRun(more) && AtRest(After(more)) && run <= more
    ensures forall i :: |run| <= i < |more| ==> more[i].k == a.k && !IsUserStep(more[i])
    ensures SameStore(After(more).objects, Reconcile(After(run).objects, a))
  {
    var objects := After(run).objects;
    if a.outcome.Succeeds? {
      more := ReconcileIsARun(run, a.k);
    } else if a.k !in objects {
      more := run;
    } else {
      var end;
      more, end := Fails(run, a.k, objects[a.k], a.outcome);
      FramedStore(run, more, a.k, Some(end));
      LeftKeeps(objects, a);
      SamePut(objects, After(more).objects, a, end);
    }
  }

  lemma {:induction false} SameReads(a: Store, b: Store, refs: seq<Key>)
    requires SameStore(a, b)
    ensures ReadRefs(a, refs) == ReadRefs(b, refs) && (AllReady(a, refs) <==> AllReady(b, refs))
    ensures (forall i :: 0 <= i < |refs| ==> refs[i] in a) ==> Uids(a, refs) == Uids(b, refs)
  {
    if refs != [] {
      SameReads(a, b, refs[1..]);
      AllReadyCons(a, refs);
      AllReadyCons(b, refs);
      assert forall i :: 0 <= i < |refs[1..]| ==> refs[1..][i] == refs[i + 1];
    }
  }

  lemma SameReferrers(a: Store, b: Store, k: Key)
    requires SameStore(a, b)
    ensures HasReferrers(a, k) <==> HasReferrers(b, k)
  {
    assert forall r :: r in a ==> a[r].refs == b[r].refs;
    assert forall kind :: Referenced(a, k, kind) <==> Referenced(b, k, kind);
  }

  lemma SameNext(a: Store, b: Store, k: Key)
    requires SameStore(a, b) && k in a
    ensures SameObject(Next(a, k), Next(b, k))
  {
    SameReferrers(a, b, k);
    SameReads(a, b, a[k].refs);
  }

  lemma SameFailed(a: Store, b: Store, k: Key, outcome: Outcome)
    requires SameStore(a, b) && k in a
    ensures SameObject(Failed(a, k, outcome), Failed(b, k, outcome))
  {
    SameReferrers(a, b, k);
    SameReads(a, b, a[k].refs);
  }

  lemma SameLeft(s: Store, t: Store, a: Attempt)
    requires SameStore(s, t) && a.k in s
    ensures SameObject(Left(s, a), Left(t, a))
  {
    SameNext(s, t, a.k);
    SameFailed(s, t, a.k, a.outcome);
  }

  lemma SameStored(s: Store, t: Store, k: Key, o: Object, p: Object)
    requires SameStore(s, t) && SameObject(o, p) && k in s
    requires o.version == s[k].version && p.version == t[k].version
    ensures SameStore(if o == s[k] then s else Put(s, k, o), if p == t[k] then t else Put(t, k, p))
  {
  }

  /** A reconcile does not depend on versions. */
  lemma ReconcileIgnoresVersions(s: Store, t: Store, a: Attempt)
    requires SameStore(s, t)
    ensures SameStore(Reconcile(s, a), Reconcile(t, a))
  {
    if a.k in s {
      SameLeft(s, t, a);
      LeftKeeps(s, a);
      LeftKeeps(t, a);
      SameStored(s, t, a.k, Left(s, a), Left(t, a));
    }
  }

  lemma {:induction false} RunIgnoresVersions(a: Store, b: Store, schedule: seq<Attempt>)
    requires SameStore(a, b)
    ensures SameStore(Run(a, schedule), Run(b, schedule))
  {
    if schedule != [] {
      ReconcileIgnoresVersions(a, b, schedule[0]);
      RunIgnoresVersions(Reconcile(a, schedule[0]), Reconcile(b, schedule[0]), schedule[1..]);
    }
  }

  lemma SameValid(a: Store, b: Store)
    requires SameStore(a, b) && Valid(b)
    ensures Valid(a)
  {
    forall k | k in a ensures WellFormedRefs(k.kind, a[k].refs) && !a[k].foreign && !Gone(a[k]) {
      assert SameObject(a[k], b[k]);
    }
  }

  /** Every schedule of undisturbed reconciles, failing or not, is a run of the protocol. */
  lemma {:induction false} ScheduleIsARun(run: seq<Step>, schedule: seq<Attempt>) returns (more: seq<Step>)
    requires IsRun(run) && AtRest(After(run)) && Valid(After(run).objects)
    ensures IsRun(more) && AtRest(After(more)) && run <= more
    ensures SameStore(After(more).objects, Run(After(run).objects, schedule))
    decreases |schedule|
  {
    if schedule == [] {
      more := run;
    } else {
      var objects := After(run).objects;
      more := AttemptIsARun(run, schedule[0]);
      ReconcileIsMonotone(objects, schedule[0]);
      SameValid(After(more).objects, Reconcile(objects, schedule[0]));
      RunIgnoresVersions(After(more).objects, Reconcile(objects, schedule[0]), schedule[1..]);
      var middle := After(more).objects;
      more := ScheduleIsARun(more, schedule[1..]);
      SameIsTransitive(After(more).objects, Run(middle, schedule[1..]), Run(objects, schedule));
    }
  }

  lemma SameIsTransitive(a: Store, b: Store, c: Store)
    requires SameStore(a, b) && SameStore(b, c)
    ensures SameStore(a, c)
  {
    forall k | k in a ensures SameObject(a[k], c[k]) {
      assert SameObject(a[k], b[k]) && SameObject(b[k], c[k]);
    }
  }

  /** The cascade happens in the protocol: from every state at rest that a run reaches, with a
      terminating dependency, the schedule of `CascadeExactly` can be carried out, and it finalizes the
      dependency iff no live referrer is stuck. */
  lemma CascadeInTheProtocol(run: seq<Step>, first: seq<Attempt>, second: seq<Attempt>, third: seq<Attempt>,
                             d: Key)
    returns (more: seq<Step>)
    requires IsRun(run) && AtRest(After(run)) && Valid(After(run).objects)
    requires d in After(run).objects && After(run).objects[d].terminating
    requires Covers(After(run).objects, first, d) && Covers(After(run).objects, second, d)
    requires Attempt(d, Succeeds) in third
    ensures IsRun(more) && AtRest(After(more)) && run <= more
    ensures d !in After(more).objects <==> forall r :: !Stuck(After(run).objects, r, d)
  {
    more := ScheduleIsARun(run, first + second + third);
    CascadeExactly(After(run).objects, first, second, third, d);
  }

  /** An access that refers to `p` and to a bucket that does not exist. */
  lemma DanglingAccess(b: Key, p: Key, a: Key) returns (run: seq<Step>, op: Object, oa: Object)
    requires b.kind == Bucket && p.kind == CloudPrincipal && a.kind == BucketAccess
    ensures IsRun(run) && Only(After(run), {p, a})
    ensures At(After(run), p, Some(op), Idle) && op.finalizer && !op.terminating && !op.foreign && op.refs == []
    ensures At(After(run), a, Some(oa), Idle) && oa.refs == [b, p] && !oa.terminating && !oa.foreign
  {
    assert a != p;
    run, op := Provision([], p);
    FrameKeepsOnly(After([]), After(run), p, {});
    oa := Object(After(run).nextUid, 0, 1, 0, false, false, false, Delete, [b, p], None, None);
    var one := run;
    run := Do(run, Create(a, Delete, [b, p], false), Some(oa), Idle);
    FrameKeepsOnly(After(one), After(run), a, {} + {p});
    assert {} + {p} + {a} == {p, a};
  }

  /** A stuck store is reached: a principal is created, an access refers to it and to a bucket that does
      not exist, and the principal is deleted. */
  lemma StuckIsReached(b: Key, p: Key, a: Key) returns (run: seq<Step>)
    requires b.kind == Bucket && p.kind == CloudPrincipal && a.kind == BucketAccess
    ensures IsRun(run) && AtRest(After(run)) && Valid(After(run).objects)
    ensures var objects := After(run).objects;
      Stuck(objects, a, p) && p in objects && objects[p].terminating
  {
    var op, oa;
    run, op, oa := DanglingAccess(b, p, a);
    var before, dying := run, op.(terminating := true, version := op.version + 1);
    run := Do(run, UserDelete(p), Some(dying), Idle);
    FrameKeepsOnly(After(before), After(run), p, {p, a});
    StuckHere(After(run), b, p, a, dying, oa);
  }

  lemma StuckHere(s: State, b: Key, p: Key, a: Key, op: Object, oa: Object)
    requires b.kind == Bucket && p.kind == CloudPrincipal && a.kind == BucketAccess
    requires Only(s, {p, a} + {p})
    requires At(s, p, Some(op), Idle) && op.finalizer && op.terminating && !op.foreign && op.refs == []
    requires At(s, a, Some(oa), Idle) && oa.refs == [b, p] && !oa.terminating && !oa.foreign
    ensures AtRest(s) && Valid(s.objects) && Stuck(s.objects, a, p)
  {
    assert b !in {p, a} + {p} && oa.refs[0] == b && oa.refs[1] == p;
  }
}

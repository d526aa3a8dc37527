/** How the deletion of a Bucket or a CloudPrincipal cascades to its referrers.

    Here one reconcile is one step. It may fail at any of its calls, or be refused by provider, policy or
    cloud, but reconciles follow one another and nobody creates or edits objects meanwhile. */
module Cascade {
  import opened Common
  import opened FinalizerProtocol

  type Store = map<Key, Object>

  /** How the references of a live referrer read, in order: the first that is missing or
      terminating decides. */
  datatype Verdict = Missing | Terminating | Present

  function ReadRefs(objects: Store, refs: seq<Key>): Verdict {
    if refs == [] then Present
    else if refs[0] !in objects then Missing
    else if objects[refs[0]].terminating then Terminating
    else ReadRefs(objects, refs[1..])
  }

  predicate AllReady(objects: Store, refs: seq<Key>) {
    forall i :: 0 <= i < |refs| ==> refs[i] in objects && IsReady(objects[refs[i]])
  }

  /** How a reconcile ends: all its calls succeed; an API call fails, before or after the operator's
      finalizer is on; or provider, policy or cloud refuse, and that is reported. */
  datatype Outcome = Succeeds | FailsAtOnce | FailsHeld | Refused

  datatype Attempt = Attempt(k: Key, outcome: Outcome)

  /** The object under `k` as a reconcile leaves it whose calls all succeed. */
  ghost function Next(objects: Store, k: Key): Object
    requires k in objects
  {
    if objects[k].terminating then
      if HasReferrers(objects, k) then objects[k] else objects[k].(finalizer := false)
    else
      var o := objects[k].(finalizer := true);
      match ReadRefs(objects, o.refs)
      case Missing => o.(readyAt := None)
      case Terminating => o.(terminating := true)
      case Present =>
        if AllReady(objects, o.refs) then
          o.(readyAt := Some(o.generation), record := Some(Record(Uids(objects, o.refs), o.generation, o.redirects)))
        else o.(readyAt := None)
  }

  ghost predicate HasReferrers(objects: Store, d: Key) {
    exists kind :: kind in ListedKinds(d.kind) && Referenced(objects, d, kind)
  }

  /** The deletion path asks provider, policy and cloud once no referrer is left. */
  ghost predicate AsksTheCloud(objects: Store, k: Key)
    requires k in objects
  {
    var o := objects[k];
    o.terminating && !HasReferrers(objects, k) && o.policy == Delete && (IsReferrer(k.kind) ==> o.record.Some?)
  }

  /** And as any other reconcile leaves it. */
  ghost function Failed(objects: Store, k: Key, outcome: Outcome): Object
    requires k in objects
  {
    var o := objects[k];
    if outcome.FailsAtOnce? then o
    else if o.terminating then
      if outcome.Refused? && AsksTheCloud(objects, k) then o.(readyAt := None) else o
    else
      var held := o.(finalizer := true);
      if outcome.Refused? && !ReadRefs(objects, o.refs).Terminating? then held.(readyAt := None) else held
  }

  ghost function Left(objects: Store, a: Attempt): Object
    requires a.k in objects
  {
    if a.outcome.Succeeds? then Next(objects, a.k) else Failed(objects, a.k, a.outcome)
  }

  ghost function Reconcile(objects: Store, a: Attempt): Store {
    if a.k !in objects || Left(objects, a) == objects[a.k] then objects else Put(objects, a.k, Left(objects, a))
  }

  function Uids(objects: Store, refs: seq<Key>): (uids: seq<nat>)
    requires forall i :: 0 <= i < |refs| ==> refs[i] in objects
    ensures |uids| == |refs|
  {
    if refs == [] then [] else [objects[refs[0]].uid] + Uids(objects, refs[1..])
  }

  ghost function Run(objects: Store, schedule: seq<Attempt>): Store {
    if schedule == [] then objects else Run(Reconcile(objects, schedule[0]), schedule[1..])
  }

  /** Stores the API server can hold, with the operator's finalizers only. */
  ghost predicate Valid(objects: Store) {
    forall k :: k in objects ==>
      WellFormedRefs(k.kind, objects[k].refs) && !objects[k].foreign && !Gone(objects[k])
  }

  /** Reads a reference before `d`, and it does not exist: the reconcile stops there. */
  ghost predicate Stuck(objects: Store, r: Key, d: Key) {
    && r in objects && !objects[r].terminating && d in objects[r].refs
    && ReadRefs(objects, objects[r].refs) == Missing
  }

  ghost predicate Refers(objects: Store, r: Key, d: Key) {
    r in objects && d in objects[r].refs
  }

  lemma LeftKeeps(objects: Store, a: Attempt)
    requires a.k in objects
    ensures var o := objects[a.k]; var o' := Left(objects, a);
      && o'.refs == o.refs && o'.foreign == o.foreign && o'.version == o.version && (o.terminating ==> o'.terminating)
      && (!o.terminating ==> o'.finalizer || o' == o)
  {
  }

  /** Nobody gains a reference, no deletion is taken back, and missing objects stay missing. */
  lemma ReconcileIsMonotone(objects: Store, a: Attempt)
    requires Valid(objects)
    ensures var s := Reconcile(objects, a);
      && Valid(s)
      && (forall r :: r in s ==>
            r in objects && s[r].refs == objects[r].refs && (objects[r].terminating ==> s[r].terminating))
  {
    if a.k in objects {
      LeftKeeps(objects, a);
    }
  }

  /** What a reconcile leaves alone. */
  lemma ReconcileFrame(objects: Store, a: Attempt, r: Key)
    requires r != a.k
    ensures r in Reconcile(objects, a) <==> r in objects
    ensures r in objects ==> Reconcile(objects, a)[r] == objects[r]
  {
  }

  /** A referenced dependency stays in the store. */
  lemma ReferencedStays(objects: Store, a: Attempt, r: Key, d: Key)
    requires Valid(objects) && Refers(objects, r, d) && d in objects
    ensures d in Reconcile(objects, a)
  {
    if a.k != d {
      ReconcileFrame(objects, a, d);
    } else if objects[d].terminating {
      assert WellFormedRefs(r.kind, objects[r].refs);
      assert Referenced(objects, d, r.kind) && r.kind in ListedKinds(d.kind);
    } else {
      LeftKeeps(objects, a);
    }
  }

  /** A live referrer of a terminating dependency deletes itself, unless it is stuck. */
  lemma LiveReferrerWithdraws(objects: Store, r: Key, d: Key)
    requires Valid(objects) && Refers(objects, r, d) && d in objects && objects[d].terminating
    requires !objects[r].terminating && !Stuck(objects, r, d)
    ensures var s := Reconcile(objects, Attempt(r, Succeeds)); r in s && s[r].terminating
  {
    TerminatingShows(objects, objects[r].refs, d);
  }

  lemma {:induction false} TerminatingShows(objects: Store, refs: seq<Key>, d: Key)
    requires d in refs && d in objects && objects[d].terminating
    ensures ReadRefs(objects, refs) != Present
  {
    if refs[0] != d {
      TerminatingShows(objects, refs[1..], d);
    }
  }

  /** A terminating referrer is finalized. */
  lemma TerminatingReferrerGoes(objects: Store, r: Key, d: Key)
    requires Valid(objects) && Refers(objects, r, d) && objects[r].terminating
    ensures r !in Reconcile(objects, Attempt(r, Succeeds))
  {
    assert IsReferrer(r.kind);
  }

  /** A terminating dependency without referrers is finalized. */
  lemma UnreferencedGoes(objects: Store, d: Key)
    requires Valid(objects) && d in objects && objects[d].terminating && (forall r :: !Refers(objects, r, d))
    ensures d !in Reconcile(objects, Attempt(d, Succeeds))
  {
    forall kind ensures !Referenced(objects, d, kind) {
      if Referenced(objects, d, kind) {
        var r :| r in objects && r.kind == kind && d in objects[r].refs;
        assert Refers(objects, r, d);
      }
    }
  }

  // ----- runs -----

  /** `s` is a later store: nothing was created or taken back, and what is referenced is still there. */
  ghost predicate Later(objects: Store, s: Store) {
    && Valid(s)
    && (forall r :: r in s ==>
          r in objects && s[r].refs == objects[r].refs && (objects[r].terminating ==> s[r].terminating))
    && (forall r, d :: Refers(s, r, d) && d in objects ==> d in s)
  }

  lemma ReconcileIsLater(objects: Store, a: Attempt)
    requires Valid(objects)
    ensures Later(objects, Reconcile(objects, a))
  {
    var s := Reconcile(objects, a);
    ReconcileIsMonotone(objects, a);
    forall r, d | Refers(s, r, d) && d in objects ensures d in s {
      assert Refers(objects, r, d);
      ReferencedStays(objects, a, r, d);
    }
  }

  lemma LaterIsTransitive(a: Store, b: Store, c: Store)
    requires Later(a, b) && Later(b, c)
    ensures Later(a, c)
  {
    forall r, d | Refers(c, r, d) && d in a ensures d in c {
      assert Refers(b, r, d);
    }
  }

  lemma {:induction false} RunIsLater(objects: Store, schedule: seq<Attempt>)
    requires Valid(objects)
    ensures Later(objects, Run(objects, schedule))
  {
    if schedule != [] {
      ReconcileIsLater(objects, schedule[0]);
      RunIsLater(Reconcile(objects, schedule[0]), schedule[1..]);
      LaterIsTransitive(objects, Reconcile(objects, schedule[0]), Run(objects, schedule));
    }
  }

  lemma {:induction false} RunAppend(objects: Store, a: seq<Attempt>, b: seq<Attempt>)
    ensures Run(objects, a + b) == Run(Run(objects, a), b)
  {
    if a == [] {
      assert a + b == b;
    } else {
      assert (a + b)[0] == a[0] && (a + b)[1..] == a[1..] + b;
      RunAppend(Reconcile(objects, a[0]), a[1..], b);
    }
  }

  lemma {:induction false} NotMissingStays(objects: Store, s: Store, refs: seq<Key>)
    requires ReadRefs(objects, refs) != Missing
    requires forall d :: d in refs && d in objects ==> d in s && (objects[d].terminating ==> s[d].terminating)
    ensures ReadRefs(s, refs) != Missing
  {
    if refs != [] && !objects[refs[0]].terminating {
      NotMissingStays(objects, s, refs[1..]);
    }
  }

  lemma LaterKeepsUnstuck(objects: Store, s: Store, r: Key, d: Key)
    requires Later(objects, s) && !Stuck(objects, r, d) && r in objects && !objects[r].terminating
    ensures !Stuck(s, r, d)
  {
    if Stuck(s, r, d) {
      var refs := s[r].refs;
      forall e | e in refs && e in objects ensures e in s && (objects[e].terminating ==> s[e].terminating) {
        assert Refers(s, r, e);
      }
      NotMissingStays(objects, s, refs);
    }
  }

  /** A referrer that is reconciled successfully at least once is no longer live. */
  lemma {:induction false} Withdrawn(objects: Store, schedule: seq<Attempt>, r: Key, d: Key)
    requires Valid(objects) && d in objects && objects[d].terminating && Attempt(r, Succeeds) in schedule
    requires r in objects ==> Refers(objects, r, d) && (objects[r].terminating || !Stuck(objects, r, d))
    ensures var s := Run(objects, schedule); r in s ==> s[r].terminating
  {
    var s := Reconcile(objects, schedule[0]);
    ReconcileIsLater(objects, schedule[0]);
    RunIsLater(s, schedule[1..]);
    if r in s && !s[r].terminating {
      assert Refers(s, r, d);
      if schedule[0] == Attempt(r, Succeeds) {
        LiveReferrerWithdraws(objects, r, d);
      } else {
        LaterKeepsUnstuck(objects, s, r, d);
        Withdrawn(s, schedule[1..], r, d);
      }
    }
  }

  /** A terminating referrer that is reconciled successfully at least once is gone. */
  lemma {:induction false} Departed(objects: Store, schedule: seq<Attempt>, r: Key, d: Key)
    requires Valid(objects) && Attempt(r, Succeeds) in schedule
    requires r in objects ==> Refers(objects, r, d) && objects[r].terminating
    ensures r !in Run(objects, schedule)
  {
    var s := Reconcile(objects, schedule[0]);
    ReconcileIsLater(objects, schedule[0]);
    RunIsLater(s, schedule[1..]);
    if r in s {
      if schedule[0] == Attempt(r, Succeeds) {
        TerminatingReferrerGoes(objects, r, d);
      } else {
        Departed(s, schedule[1..], r, d);
      }
    }
  }

  /** A terminating dependency without referrers that is reconciled successfully at least once is gone. */
  lemma {:induction false} Released(objects: Store, schedule: seq<Attempt>, d: Key)
    requires Valid(objects) && Attempt(d, Succeeds) in schedule && (d in objects ==> objects[d].terminating)
    requires forall r :: !Refers(objects, r, d)
    ensures d !in Run(objects, schedule)
  {
    var s := Reconcile(objects, schedule[0]);
    ReconcileIsLater(objects, schedule[0]);
    RunIsLater(s, schedule[1..]);
    if d in s {
      forall r ensures !Refers(s, r, d) {
        assert !Refers(objects, r, d);
      }
      if schedule[0] == Attempt(d, Succeeds) {
        UnreferencedGoes(objects, d);
      } else {
        Released(s, schedule[1..], d);
      }
    }
  }

  /** Every referrer of `d` is reconciled successfully at least once. */
  ghost predicate Covers(objects: Store, schedule: seq<Attempt>, d: Key) {
    forall r :: Refers(objects, r, d) ==> Attempt(r, Succeeds) in schedule
  }

  /** Twice around the referrers and once to the dependency: whatever else the schedule does, in
      whatever order and however often it fails, the dependency is then finalized. */
  lemma CascadeCompletes(objects: Store, first: seq<Attempt>, second: seq<Attempt>, third: seq<Attempt>, d: Key)
    requires Valid(objects) && d in objects && objects[d].terminating
    requires Covers(objects, first, d) && Covers(objects, second, d) && Attempt(d, Succeeds) in third
    requires forall r :: !Stuck(objects, r, d)
    ensures d !in Run(objects, first + second + third)
  {
    var s1 := Run(objects, first);
    var s2 := Run(s1, second);
    RunAppend(objects, first + second, third);
    RunAppend(objects, first, second);
    RunIsLater(objects, first);
    RunIsLater(s1, second);
    forall r ensures !Refers(s2, r, d) {
      if Refers(s2, r, d) {
        assert Refers(s1, r, d) && Refers(objects, r, d);
        Withdrawn(objects, first, r, d);
        Departed(s1, second, r, d);
      }
    }
    Released(s2, third, d);
  }

  /** A live access whose bucket does not exist never gets as far as its terminating principal. */
  lemma {:induction false} StuckForever(objects: Store, schedule: seq<Attempt>, r: Key, d: Key)
    requires Valid(objects) && Stuck(objects, r, d) && d in objects && objects[d].terminating
    ensures d in Run(objects, schedule) && Stuck(Run(objects, schedule), r, d)
  {
    if schedule != [] {
      StuckStays(objects, schedule[0], r, d);
      StuckForever(Reconcile(objects, schedule[0]), schedule[1..], r, d);
    }
  }

  lemma StuckStays(objects: Store, a: Attempt, r: Key, d: Key)
    requires Valid(objects) && Stuck(objects, r, d) && d in objects && objects[d].terminating
    ensures var s := Reconcile(objects, a);
      Valid(s) && Stuck(s, r, d) && d in s && s[d].terminating
  {
    var refs := objects[r].refs;
    assert WellFormedRefs(r.kind, refs) && Refers(objects, r, d);
    ReconcileIsLater(objects, a);
    MissingIsTheFirst(objects, refs, d);
    assert ReadRefs(objects, refs) == Missing && refs[0] !in objects;
    if a.k == r {
      LeftKeeps(objects, a);
    } else {
      ReconcileFrame(objects, a, r);
    }
    assert Refers(Reconcile(objects, a), r, d);
  }

  lemma MissingIsTheFirst(objects: Store, refs: seq<Key>, d: Key)
    requires 0 < |refs| <= 2 && d in refs && d in objects && objects[d].terminating
    requires ReadRefs(objects, refs) == Missing
    ensures refs[0] !in objects
  {
    if |refs| == 2 {
      assert refs[1..] == [refs[1]] && refs == [refs[0], refs[1]];
    }
  }

  /** A terminating dependency is finalized by every fair schedule exactly when no live referrer is
      stuck on a missing bucket. */
  lemma CascadeExactly(objects: Store, first: seq<Attempt>, second: seq<Attempt>, third: seq<Attempt>, d: Key)
    requires Valid(objects) && d in objects && objects[d].terminating
    requires Covers(objects, first, d) && Covers(objects, second, d) && Attempt(d, Succeeds) in third
    ensures d !in Run(objects, first + second + third) <==> (forall r :: !Stuck(objects, r, d))
  {
    if r :| Stuck(objects, r, d) {
      StuckForever(objects, first + second + third, r, d);
    } else {
      CascadeCompletes(objects, first, second, third, d);
    }
  }

  /** Deleting a Bucket always completes: its accesses read it before anything else. */
  lemma BucketCascade(objects: Store, first: seq<Attempt>, second: seq<Attempt>, third: seq<Attempt>, d: Key)
    requires Valid(objects) && d in objects && objects[d].terminating && d.kind == Bucket
    requires Covers(objects, first, d) && Covers(objects, second, d) && Attempt(d, Succeeds) in third
    ensures d !in Run(objects, first + second + third)
  {
    forall r ensures !Stuck(objects, r, d) {
      if Stuck(objects, r, d) {
        assert WellFormedRefs(r.kind, objects[r].refs);
        MissingIsTheFirst(objects, objects[r].refs, d);
      }
    }
    CascadeCompletes(objects, first, second, third, d);
  }
}

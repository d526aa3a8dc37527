/** Runs of BucketAccess reconciles and finalizations over one cloud. */
module GrantRuns {
  import opened Common
  import opened BucketGrants

  type Id = string

  /** `applied` is what each BucketAccess records; `left` collects the grants the operator stopped
      accounting for: an ensure whose status patch failed, or a finalization under Retain. */
  datatype System = System(cloud: Cloud, applied: map<Id, Access>, left: set<Grant>, lost: set<string>)

  datatype Step =
    | Reconcile(id: Id, want: Access, turns: EnsureTurns, patched: bool)
    | Finalize(id: Id, retain: bool, deleteTurns: DeleteTurns, removed: bool)
    | Vanish(names: set<string>)
    | Appear(name: string)

  function Recorded(s: System, id: Id): Option<Access> {
    if id in s.applied then Some(s.applied[id]) else None
  }

  function Apply(v: Vendor, s: System, step: Step): System {
    match step
    case Reconcile(id, want, turns, patched) =>
      var (cloud, ok) := Ensure(v, s.cloud, Recorded(s, id), want, turns);
      var s' := s.(cloud := cloud, lost := s.lost + (s.cloud.buckets - cloud.buckets));
      if !ok then s'
      else if !patched then s'.(left := s.left + {KeyOf(v, want)})
      else s'.(applied := s.applied[id := want], left := s.left - {KeyOf(v, want)})
    case Finalize(id, retain, turns, removed) =>
      if retain then
        if removed then s.(applied := s.applied - {id}, left := s.left + Keys(v, Recorded(s, id))) else s
      else
        var (cloud, ok) := Delete(v, s.cloud, Recorded(s, id), turns);
        var s' := s.(cloud := cloud, lost := s.lost + (s.cloud.buckets - cloud.buckets));
        if ok && removed then s'.(applied := s.applied - {id}) else s'
    case Vanish(names) =>
      s.(cloud := Meet(s.cloud, Turn(names, false)), lost := s.lost + (s.cloud.buckets * names))
    case Appear(name) => s.(cloud := s.cloud.(buckets := s.cloud.buckets + {name}))
  }

  function After(v: Vendor, s: System, steps: seq<Step>): System {
    if steps == [] then s else Apply(v, After(v, s, steps[..|steps| - 1]), steps[|steps| - 1])
  }

  /** `owner` tells whose a grant is: one BucketAccess, or nobody the operator manages. */
  type Owner = Grant -> Option<Id>

  predicate Own(v: Vendor, owner: Owner, step: Step) {
    step.Reconcile? ==> owner(KeyOf(v, step.want)) == Some(step.id)
  }

  predicate AllOwn(v: Vendor, owner: Owner, steps: seq<Step>) {
    forall i :: 0 <= i < |steps| ==> Own(v, owner, steps[i])
  }

  ghost predicate Fresh(owner: Owner, s: System) {
    s.cloud.Valid() && s.applied == map[] && s.left == {} && s.lost == {}
    && forall g :: g in s.cloud.grants ==> owner(g).None?
  }

  /** Every managed grant is recorded by its BucketAccess or was left behind. */
  ghost predicate OwnedAccounted(v: Vendor, owner: Owner, s: System) {
    (forall id :: id in s.applied ==> owner(KeyOf(v, s.applied[id])) == Some(id))
    && (forall g :: g in s.cloud.grants && owner(g).Some? ==> g in Keys(v, Recorded(s, owner(g).value)) || g in s.left)
  }

  /** The grants of nobody are those of the start on buckets that never vanished. */
  ghost predicate ForeignUntouched(owner: Owner, start: set<Grant>, s: System) {
    (forall g :: owner(g).None? ==> (g in s.cloud.grants <==> g in start && g.bucket !in s.lost))
    && (forall g :: g in start && owner(g).None? && g.bucket !in s.lost ==> g.bucket in s.cloud.buckets)
  }

  ghost predicate Accounted(v: Vendor, owner: Owner, start: set<Grant>, s: System) {
    s.cloud.Valid() && OwnedAccounted(v, owner, s) && ForeignUntouched(owner, start, s)
  }

  /** A step that touches owned grants alone, and notes which buckets vanished. */
  lemma ForeignStaysUntouched(owner: Owner, start: set<Grant>, s: System, t: System, touched: set<Grant>)
    requires s.cloud.Valid() && ForeignUntouched(owner, start, s)
    requires OnlyTouches(s.cloud, t.cloud, touched) && forall g :: g in touched ==> owner(g).Some?
    requires t.lost == s.lost + (s.cloud.buckets - t.cloud.buckets)
    ensures ForeignUntouched(owner, start, t)
  {
  }

  lemma ReconcileAccounts(v: Vendor, owner: Owner, start: set<Grant>, s: System, step: Step)
    requires step.Reconcile? && Accounted(v, owner, start, s) && Own(v, owner, step)
    ensures Accounted(v, owner, start, Apply(v, s, step))
  {
    var got := Recorded(s, step.id);
    EnsureEffect(v, s.cloud, got, step.want, step.turns);
    ForeignStaysUntouched(owner, start, s, Apply(v, s, step), Keys(v, got) + {KeyOf(v, step.want)});
    ReconcileAccountsOwned(v, owner, s, step);
  }

  lemma ReconcileAccountsOwned(v: Vendor, owner: Owner, s: System, step: Step)
    requires step.Reconcile? && s.cloud.Valid() && OwnedAccounted(v, owner, s) && Own(v, owner, step)
    ensures OwnedAccounted(v, owner, Apply(v, s, step))
  {
    var t := Apply(v, s, step);
    EnsureEffect(v, s.cloud, Recorded(s, step.id), step.want, step.turns);
    forall g | g in t.cloud.grants && owner(g).Some?
      ensures g in Keys(v, Recorded(t, owner(g).value)) || g in t.left
    {
      var id := owner(g).value;
      assert g == KeyOf(v, step.want) || g in s.cloud.grants;
      assert id != step.id ==> Recorded(t, id) == Recorded(s, id);
    }
  }

  lemma FinalizeAccounts(v: Vendor, owner: Owner, start: set<Grant>, s: System, step: Step)
    requires step.Finalize? && Accounted(v, owner, start, s)
    ensures Accounted(v, owner, start, Apply(v, s, step))
  {
    var t := Apply(v, s, step);
    var got := Recorded(s, step.id);
    DeleteEffect(v, s.cloud, got, step.deleteTurns);
    assert OnlyTouches(s.cloud, t.cloud, Keys(v, got));
    ForeignStaysUntouched(owner, start, s, t, Keys(v, got));
    forall g | g in t.cloud.grants && owner(g).Some?
      ensures g in Keys(v, Recorded(t, owner(g).value)) || g in t.left
    {
      var id := owner(g).value;
      assert g in s.cloud.grants;
      assert id != step.id ==> Recorded(t, id) == Recorded(s, id);
    }
  }

  lemma {:induction false} RunAccounts(v: Vendor, owner: Owner, s: System, steps: seq<Step>)
    requires Fresh(owner, s) && AllOwn(v, owner, steps)
    ensures Accounted(v, owner, s.cloud.grants, After(v, s, steps))
  {
    if steps != [] {
      var init, last := steps[..|steps| - 1], steps[|steps| - 1];
      RunAccounts(v, owner, s, init);
      var before := After(v, s, init);
      match last {
        case Reconcile(_, _, _, _) => ReconcileAccounts(v, owner, s.cloud.grants, before, last);
        case Finalize(_, _, _, _) => FinalizeAccounts(v, owner, s.cloud.grants, before, last);
        case _ =>
      }
    }
  }

  /** What a BucketAccess records after a step: a success that is patched records what it wanted, a
      finalization that lets the object go nothing, and every other step leaves the record alone. */
  lemma RecordedExactly(v: Vendor, s: System, step: Step, id: Id)
    ensures Recorded(Apply(v, s, step), id) ==
      if step.Reconcile? && step.id == id && step.patched
         && Ensure(v, s.cloud, Recorded(s, id), step.want, step.turns).1
      then Some(step.want)
      else if step.Finalize? && step.id == id && step.removed
              && (step.retain || Delete(v, s.cloud, Recorded(s, id), step.deleteTurns).1)
      then None
      else Recorded(s, id)
  {
  }

  // ----- the grants due to one BucketAccess -----

  predicate Succeeds(v: Vendor, s: System, step: Step, id: Id) {
    step.Reconcile? && step.id == id && Ensure(v, s.cloud, Recorded(s, id), step.want, step.turns).1
  }

  /** The operator stops accounting for a grant of `id`: a success is not recorded, or a finalization
      retains what is recorded. */
  predicate Forgets(v: Vendor, s: System, step: Step, id: Id) {
    (Succeeds(v, s, step, id) && !step.patched)
    || (step.Finalize? && step.id == id && step.retain && step.removed && id in s.applied)
  }

  /** No step of `id` forgets a grant; the others may do what they like. */
  predicate Remembers(v: Vendor, s: System, steps: seq<Step>, id: Id) {
    steps == [] ||
    var init := steps[..|steps| - 1];
    Remembers(v, s, init, id) && !Forgets(v, After(v, s, init), steps[|steps| - 1], id)
  }

  /** A step of `id` gets as far as withdrawing the recorded grant. */
  predicate Revokes(s: System, step: Step, id: Id) {
    (step.Reconcile? && step.id == id && Recorded(s, id) != Some(step.want)
     && !step.turns.hasGot.fails && !step.turns.revoke.fails)
    || (step.Finalize? && step.id == id && !step.retain
        && !step.deleteTurns.has.fails && !step.deleteTurns.revoke.fails)
  }

  predicate LosesBucket(v: Vendor, s: System, t: System, id: Id) {
    id in s.applied && KeyOf(v, s.applied[id]).bucket in s.cloud.buckets - t.cloud.buckets
  }

  /** What `id` records was withdrawn, by an ensure or a finalization that then failed, or went with its
      bucket, and `id` has not succeeded since. */
  predicate Broken(v: Vendor, s: System, steps: seq<Step>, id: Id) {
    steps != [] &&
    var init, last := steps[..|steps| - 1], steps[|steps| - 1];
    var before, end := After(v, s, init), After(v, s, steps);
    && id in end.applied && !Succeeds(v, before, last, id)
    && (Broken(v, s, init, id) || Revokes(before, last, id) || LosesBucket(v, before, end, id))
  }

  function GrantsOf(owner: Owner, s: System, id: Id): set<Grant> {
    set g | g in s.cloud.grants && owner(g) == Some(id)
  }

  lemma {:induction false} NothingIsLeft(v: Vendor, owner: Owner, s: System, steps: seq<Step>, id: Id)
    requires Fresh(owner, s) && AllOwn(v, owner, steps) && Remembers(v, s, steps, id)
    ensures forall g :: g in After(v, s, steps).left ==> owner(g) != Some(id)
  {
    if steps != [] {
      var init := steps[..|steps| - 1];
      NothingIsLeft(v, owner, s, init, id);
      RunAccounts(v, owner, s, init);
    }
  }

  /** A failed ensure leaves the recorded grant as it was, unless it withdrew it or the bucket went. */
  lemma FailedEnsureKeeps(v: Vendor, c: Cloud, got: Access, want: Access, t: EnsureTurns)
    requires c.Valid() && !Ensure(v, c, Some(got), want, t).1
    ensures var after := Ensure(v, c, Some(got), want, t).0; var key := KeyOf(v, got);
      key in after.grants
      <==> key in c.grants && key.bucket in after.buckets && (got == want || t.hasGot.fails || t.revoke.fails)
  {
    WithdrawEffect(v, c, Some(got), want, t);
    ProvideEffect(v, Withdraw(v, c, Some(got), want, t).0, want, t);
  }

  /** And so does a finalization that keeps the object. */
  lemma DeleteKeeps(v: Vendor, c: Cloud, got: Access, t: DeleteTurns)
    requires c.Valid()
    ensures var after := Delete(v, c, Some(got), t).0; var key := KeyOf(v, got);
      key in after.grants <==> key in c.grants && key.bucket in after.buckets && (t.has.fails || t.revoke.fails)
  {
  }

  /** The record stays, and its grant is there after the step iff it was before and nothing took it. */
  predicate KeepsRecorded(v: Vendor, s: System, step: Step, id: Id) {
    var t := Apply(v, s, step);
    id in s.applied && id in t.applied && t.applied[id] == s.applied[id]
    && (KeyOf(v, s.applied[id]) in t.cloud.grants
        <==> KeyOf(v, s.applied[id]) in s.cloud.grants && !Revokes(s, step, id) && !LosesBucket(v, s, t, id))
  }

  /** What one step does to the recorded grant of `id`, if `id` stays recorded. */
  lemma StepOnRecorded(v: Vendor, owner: Owner, start: set<Grant>, s: System, step: Step, id: Id)
    requires Accounted(v, owner, start, s) && Own(v, owner, step) && !Forgets(v, s, step, id)
    requires id in Apply(v, s, step).applied
    ensures var t := Apply(v, s, step);
      if Succeeds(v, s, step, id) then KeyOf(v, t.applied[id]) in t.cloud.grants else KeepsRecorded(v, s, step, id)
  {
    match step {
      case Reconcile(_, _, _, _) => ReconcileOnRecorded(v, owner, start, s, step, id);
      case Finalize(_, _, _, _) => FinalizeOnRecorded(v, owner, start, s, step, id);
      case _ =>
    }
  }

  lemma ReconcileOnRecorded(v: Vendor, owner: Owner, start: set<Grant>, s: System, step: Step, id: Id)
    requires Accounted(v, owner, start, s) && Own(v, owner, step) && !Forgets(v, s, step, id)
    requires step.Reconcile? && id in Apply(v, s, step).applied
    ensures var t := Apply(v, s, step);
      if Succeeds(v, s, step, id) then KeyOf(v, t.applied[id]) in t.cloud.grants else KeepsRecorded(v, s, step, id)
  {
    EnsureEffect(v, s.cloud, Recorded(s, step.id), step.want, step.turns);
    if step.id == id && !Succeeds(v, s, step, id) {
      FailedEnsureKeeps(v, s.cloud, s.applied[id], step.want, step.turns);
    }
  }

  lemma FinalizeOnRecorded(v: Vendor, owner: Owner, start: set<Grant>, s: System, step: Step, id: Id)
    requires Accounted(v, owner, start, s) && !Forgets(v, s, step, id)
    requires step.Finalize? && id in Apply(v, s, step).applied
    ensures KeepsRecorded(v, s, step, id)
  {
    DeleteEffect(v, s.cloud, Recorded(s, step.id), step.deleteTurns);
    if step.id == id {
      DeleteKeeps(v, s.cloud, s.applied[id], step.deleteTurns);
    }
  }

  lemma {:induction false} RecordedIsThereExactly(v: Vendor, owner: Owner, s: System, steps: seq<Step>, id: Id)
    requires Fresh(owner, s) && AllOwn(v, owner, steps) && Remembers(v, s, steps, id)
    requires id in After(v, s, steps).applied
    ensures KeyOf(v, After(v, s, steps).applied[id]) in After(v, s, steps).cloud.grants <==> !Broken(v, s, steps, id)
  {
    if steps != [] {
      var init, last := steps[..|steps| - 1], steps[|steps| - 1];
      var before := After(v, s, init);
      RunAccounts(v, owner, s, init);
      StepOnRecorded(v, owner, s.cloud.grants, before, last, id);
      if id in before.applied {
        RecordedIsThereExactly(v, owner, s, init, id);
      }
    }
  }

  /** Along every run in which `id` forgets nothing, whatever the other accesses do, the grants due to it
      are the recorded one or none, and they are exactly the recorded one iff its record is not broken.
      The grants of nobody are untouched. */
  lemma GrantsAreAppliedExactly(v: Vendor, owner: Owner, s: System, steps: seq<Step>, id: Id)
    requires Fresh(owner, s) && AllOwn(v, owner, steps) && Remembers(v, s, steps, id)
    ensures var end := After(v, s, steps);
      && GrantsOf(owner, end, id) <= Keys(v, Recorded(end, id))
      && (GrantsOf(owner, end, id) == Keys(v, Recorded(end, id)) <==> !Broken(v, s, steps, id))
      && (forall g :: owner(g).None? ==> (g in end.cloud.grants <==> g in s.cloud.grants && g.bucket !in end.lost))
  {
    RunAccounts(v, owner, s, steps);
    NothingIsLeft(v, owner, s, steps, id);
    var end := After(v, s, steps);
    if id in end.applied {
      RecordedIsThereExactly(v, owner, s, steps, id);
      var key := KeyOf(v, end.applied[id]);
      assert key in GrantsOf(owner, end, id) <==> key in end.cloud.grants;
    }
  }

  lemma LastStep(v: Vendor, s: System, steps: seq<Step>, last: Step)
    ensures After(v, s, steps + [last]) == Apply(v, After(v, s, steps), last)
  {
    assert (steps + [last])[..|steps|] == steps;
  }

  /** After a reconcile that succeeded, the grants due are exactly the recorded one. */
  lemma SuccessIsExact(v: Vendor, owner: Owner, s: System, steps: seq<Step>, last: Step, id: Id)
    requires Fresh(owner, s) && AllOwn(v, owner, steps + [last]) && Remembers(v, s, steps + [last], id)
    requires Succeeds(v, After(v, s, steps), last, id)
    ensures var end := After(v, s, steps + [last]);
      Recorded(end, id) == Some(last.want) && GrantsOf(owner, end, id) == {KeyOf(v, last.want)}
  {
    var all := steps + [last];
    assert all[..|all| - 1] == steps && all[|all| - 1] == last;
    LastStep(v, s, steps, last);
    GrantsAreAppliedExactly(v, owner, s, all, id);
  }

  /** After a finalization under Delete that let the object go, no grant is due. */
  lemma FinalizedHoldsNothing(v: Vendor, owner: Owner, s: System, steps: seq<Step>, last: Step, id: Id)
    requires Fresh(owner, s) && AllOwn(v, owner, steps + [last]) && Remembers(v, s, steps + [last], id)
    requires last.Finalize? && last.id == id && id !in After(v, s, steps + [last]).applied
    ensures GrantsOf(owner, After(v, s, steps + [last]), id) == {}
  {
    GrantsAreAppliedExactly(v, owner, s, steps + [last], id);
  }

  // ----- a record without its grant -----

  const Calm := Turn({}, false)

  /** A success, then an edit whose grant call fails: the recorded grant is withdrawn, the wanted one is
      not there, and the status goes on recording the first. */
  lemma RecordOutlivesItsGrant(v: Vendor, owner: Owner, bucket: string, id: Id, first: Access, second: Access)
    returns (start: System, steps: seq<Step>)
    requires owner(KeyOf(v, first)) == owner(KeyOf(v, second)) == Some(id)
    requires KeyOf(v, first) != KeyOf(v, second) && KeyOf(v, first).bucket == KeyOf(v, second).bucket == bucket
    ensures Fresh(owner, start) && AllOwn(v, owner, steps) && Remembers(v, start, steps, id)
    ensures var end := After(v, start, steps);
      Recorded(end, id) == Some(first) && GrantsOf(owner, end, id) == {} && Broken(v, start, steps, id)
  {
    var calm := EnsureTurns(Calm, Calm, Calm, Calm);
    var failing := calm.(grant := Turn({}, true));
    var one, two := Reconcile(id, first, calm, true), Reconcile(id, second, failing, true);
    start := System(Cloud({bucket}, {}), map[], {}, {});
    steps := [one, two];
    var granted := start.(cloud := Cloud({bucket}, {KeyOf(v, first)}), applied := map[id := first]);
    OneCall(v, start, one, granted);
    assert After(v, start, []) == start && [one][..0] == [];
    assert After(v, start, [one]) == granted;
    var ended := granted.(cloud := Cloud({bucket}, {}));
    OneCall(v, granted, two, ended);
    assert steps[..1] == [one] && After(v, start, steps) == ended;
    PatchedRemembers(v, start, steps, id);
    GrantsAreAppliedExactly(v, owner, start, steps, id);
  }

  lemma {:induction false} PatchedRemembers(v: Vendor, s: System, steps: seq<Step>, id: Id)
    requires forall i :: 0 <= i < |steps| ==> steps[i].Reconcile? && steps[i].patched
    ensures Remembers(v, s, steps, id)
  {
    if steps != [] {
      PatchedRemembers(v, s, steps[..|steps| - 1], id);
    }
  }

  lemma OneCall(v: Vendor, s: System, step: Step, t: System)
    requires step.Reconcile? && step.patched && Quiet(step.turns)
    requires var (cloud, ok) := Ensure(v, s.cloud, Recorded(s, step.id), step.want, step.turns);
      && t.cloud == cloud && t.lost == s.lost
      && (if ok then t.applied == s.applied[step.id := step.want] && t.left == s.left - {KeyOf(v, step.want)}
          else t.applied == s.applied && t.left == s.left)
    ensures Apply(v, s, step) == t
  {
    QuietKeepsBuckets(v, s.cloud, Recorded(s, step.id), step.want, step.turns);
  }

  // ----- what an unrecorded success costs -----

  predicate Quiet(t: EnsureTurns) {
    t.hasGot.vanished == t.revoke.vanished == t.hasWant.vanished == t.grant.vanished == {}
  }

  /** An ensure of `first` succeeds but its status patch fails; the spec is edited and an ensure of
      `second` succeeds. The grants due are then exactly the wanted one iff the unrecorded grant is
      the wanted one or the recorded one; otherwise it stays behind in the cloud. */
  lemma UnrecordedGrantLeaksExactly(v: Vendor, c: Cloud, got: Option<Access>, first: Access, second: Access,
                                    t: EnsureTurns, u: EnsureTurns)
    requires c.Valid() && Quiet(t) && Quiet(u)
    requires KeyOf(v, first) !in c.grants - Keys(v, got) && KeyOf(v, second) !in c.grants - Keys(v, got)
    requires Ensure(v, c, got, first, t).1 && Ensure(v, Ensure(v, c, got, first, t).0, got, second, u).1
    ensures var end := Ensure(v, Ensure(v, c, got, first, t).0, got, second, u).0;
      end.grants == c.grants - Keys(v, got) + {KeyOf(v, second)}
      <==> KeyOf(v, first) in Keys(v, got) + {KeyOf(v, second)}
  {
    var middle := Ensure(v, c, got, first, t).0;
    EnsureEffect(v, c, got, first, t);
    EnsureEffect(v, middle, got, second, u);
    QuietKeepsBuckets(v, c, got, first, t);
    QuietKeepsBuckets(v, middle, got, second, u);
  }

  /** A first ensure whose status patch is lost, an edit, and a recorded success: the first grant stays. */
  lemma UnrecordedGrantStays(v: Vendor, owner: Owner, bucket: string, id: Id, first: Access, second: Access)
    returns (start: System, steps: seq<Step>)
    requires owner(KeyOf(v, first)) == owner(KeyOf(v, second)) == Some(id)
    requires KeyOf(v, first) != KeyOf(v, second) && KeyOf(v, first).bucket == KeyOf(v, second).bucket == bucket
    ensures Fresh(owner, start) && AllOwn(v, owner, steps)
    ensures var end := After(v, start, steps);
      Recorded(end, id) == Some(second) && KeyOf(v, first) in GrantsOf(owner, end, id)
  {
    var calm := EnsureTurns(Calm, Calm, Calm, Calm);
    start := System(Cloud({bucket}, {}), map[], {}, {});
    var one, two := Reconcile(id, first, calm, false), Reconcile(id, second, calm, true);
    steps := [one, two];
    assert After(v, start, []) == start && [one][..0] == [] && steps[..1] == [one];
    var middle := After(v, start, [one]);
    QuietKeepsBuckets(v, start.cloud, None, first, calm);
    assert middle.applied == map[] && KeyOf(v, first) in middle.cloud.grants && bucket in middle.cloud.buckets;
    EnsureEffect(v, start.cloud, None, first, calm);
    EnsureEffect(v, middle.cloud, None, second, calm);
    QuietKeepsBuckets(v, middle.cloud, None, second, calm);
  }

  lemma QuietKeepsBuckets(v: Vendor, c: Cloud, got: Option<Access>, want: Access, t: EnsureTurns)
    requires Quiet(t)
    ensures Ensure(v, c, got, want, t).0.buckets == c.buckets
  {
    assert c.buckets - {} == c.buckets;
  }
}

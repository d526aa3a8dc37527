/** The finalizer and deletion protocol that the Bucket, CloudPrincipal, BucketAccess and
    CloudPrincipalAuth controllers run against one API server and one cloud.

    Every API call and every cloud call is a step of its own, and the steps of all controllers,
    of users and of foreign controllers interleave freely. The API server is linearizable, at most
    one reconcile per key is in flight, `Update` succeeds only at the version that was read, a spec
    edit bumps the generation, and an object vanishes exactly when it is terminating and carries no
    finalizer. */
module FinalizerProtocol {
  import opened Common

  datatype Kind = Bucket | CloudPrincipal | BucketAccess | CloudPrincipalAuth

  datatype Key = Key(kind: Kind, namespace: string, name: string)

  /** `Unset` is a CloudPrincipal without `spec.managed`. */
  datatype DeletionPolicy = Delete | Retain | Unset

  /** What a successful reconcile stores in `status`: the recorded external resource, here the
      incarnations of the dependencies it was built from, the observed generation, and how often the
      references had been edited by then. */
  datatype Record = Record(deps: seq<nat>, generation: nat, redirects: nat)

  datatype Object = Object(
    uid: nat,                 // incarnation
    version: nat,             // resourceVersion
    generation: nat,          // metadata.generation
    redirects: nat,           // history: edits that changed a reference
    terminating: bool,        // deletionTimestamp is set
    finalizer: bool,          // the operator's own finalizer
    foreign: bool,            // somebody else's finalizer
    policy: DeletionPolicy,
    refs: seq<Key>,           // bucketRef and principalRef
    readyAt: Option<nat>,     // the generation at which all conditions are True
    record: Option<Record>)

  /** Where the reconcile of one key stands, with the object as this reconcile read it. */
  datatype Pc =
    | Idle
    | Fetched(o: Object)
    | Reading(o: Object, seen: seq<nat>, ready: bool)   // refs[..|seen|] were read
    | Ensured(o: Object, seen: seq<nat>)                // the cloud holds the desired state
    | Reporting(o: Object)                              // about to patch Ready=False
    | Withdrawing(o: Object)                            // about to delete its own object
    | Listing(o: Object, pending: seq<Kind>, found: bool)
    | Unreferenced(o: Object)
    | Finalizing(o: Object, deleted: bool)

  datatype State = State(
    objects: map<Key, Object>,
    pcs: map<Key, Pc>,
    nextUid: nat,
    issued: set<nat>,         // incarnations whose external deletion was requested
    deleted: set<nat>,        // incarnations whose external deletion succeeded
    everDelete: set<nat>)     // incarnations whose policy has ever been Delete

  datatype Step =
    // users and other controllers
    | Create(k: Key, policy: DeletionPolicy, refs: seq<Key>, foreign: bool)
    | EditSpec(k: Key, policy: DeletionPolicy, refs: seq<Key>)
    | UserDelete(k: Key)
    | SetForeign(k: Key, on: bool)
    // the live path of one reconcile
    | Get(k: Key)
    | AddFinalizer(k: Key)
    | ReadRef(k: Key)
    | CloudEnsure(k: Key)
    | PatchReady(k: Key)
    | GiveUp(k: Key)          // policy, capability, validation or cloud failure
    | PatchNotReady(k: Key)
    | DeleteSelf(k: Key)
    // the deletion path of one reconcile
    | StartDeletion(k: Key)
    | List(k: Key)
    | CloudDelete(k: Key, ok: bool)
    | SkipCloudDelete(k: Key)
    | RefuseFinalization(k: Key)
    | RemoveFinalizer(k: Key)
    // any API error ends the reconcile
    | Abort(k: Key)

  predicate IsReferrer(kind: Kind) {
    kind.BucketAccess? || kind.CloudPrincipalAuth?
  }

  /** The kinds of the references a resource of this kind holds, in the order its controller reads them. */
  function RefKinds(kind: Kind): seq<Kind> {
    match kind
    case Bucket => []
    case CloudPrincipal => []
    case BucketAccess => [Bucket, CloudPrincipal]
    case CloudPrincipalAuth => [CloudPrincipal]
  }

  predicate WellFormedRefs(kind: Kind, refs: seq<Key>) {
    |refs| == |RefKinds(kind)| && forall i :: 0 <= i < |refs| ==> refs[i].kind == RefKinds(kind)[i]
  }

  /** The API server rejects edits of `bucketRef` and of a CloudPrincipalAuth's `principalRef`;
      a BucketAccess may be pointed at another principal. */
  predicate Immutable(kind: Kind, i: nat) {
    i == 0
  }

  predicate AllowedEdit(kind: Kind, before: seq<Key>, after: seq<Key>) {
    WellFormedRefs(kind, after) && |before| == |after|
    && forall i :: 0 <= i < |before| && Immutable(kind, i) ==> after[i] == before[i]
  }

  /** The lists a controller fetches before it decides whether its object is referenced. */
  function ListedKinds(kind: Kind): seq<Kind> {
    match kind
    case Bucket => [BucketAccess]
    case CloudPrincipal => [BucketAccess, CloudPrincipalAuth]
    case BucketAccess => []
    case CloudPrincipalAuth => []
  }

  function PcOf(s: State, k: Key): Pc {
    if k in s.pcs then s.pcs[k] else Idle
  }

  predicate IsReady(o: Object) {
    o.readyAt == Some(o.generation)
  }

  predicate Gone(o: Object) {
    o.terminating && !o.finalizer && !o.foreign
  }

  /** Stores `o`, which vanishes if nothing holds it any more. */
  function Put(objects: map<Key, Object>, k: Key, o: Object): map<Key, Object> {
    if Gone(o) then map k' | k' in objects && k' != k :: objects[k']
    else objects[k := o.(version := o.version + 1)]
  }

  function MarkDeleted(objects: map<Key, Object>, k: Key): map<Key, Object> {
    if k in objects then Put(objects, k, objects[k].(terminating := true)) else objects
  }

  predicate Referenced(objects: map<Key, Object>, d: Key, kind: Kind) {
    exists k :: k in objects && k.kind == kind && d in objects[k].refs
  }

  /** The object a reconcile read is still the stored one. */
  predicate Current(s: State, k: Key, o: Object) {
    k in s.objects && s.objects[k].uid == o.uid && s.objects[k].version == o.version
  }

  predicate Exists(s: State, k: Key, o: Object) {
    k in s.objects && s.objects[k].uid == o.uid
  }

  predicate Enabled(s: State, step: Step) {
    var pc := PcOf(s, step.k);
    match step
    case Create(k, _, refs, _) => k !in s.objects && WellFormedRefs(k.kind, refs)
    case EditSpec(k, _, refs) => k in s.objects && AllowedEdit(k.kind, s.objects[k].refs, refs)
    case UserDelete(k) => k in s.objects
    case SetForeign(k, on) => k in s.objects && (on ==> !s.objects[k].terminating)
    case Get(k) => pc.Idle? && k in s.objects
    case AddFinalizer(k) => pc.Fetched? && !pc.o.terminating && (pc.o.finalizer || Current(s, k, pc.o))
    case ReadRef(k) => pc.Reading? && |pc.seen| < |pc.o.refs|
    case CloudEnsure(k) => pc.Reading? && pc.ready && |pc.seen| == |pc.o.refs|
    case PatchReady(k) => pc.Ensured? && k in s.objects
    case GiveUp(k) => pc.Reading? && |pc.seen| == |pc.o.refs|
    case PatchNotReady(k) => pc.Reporting? && k in s.objects
    case DeleteSelf(k) => pc.Withdrawing?
    case StartDeletion(k) => pc.Fetched? && pc.o.terminating
    case List(k) => pc.Listing? && pc.pending != []
    case CloudDelete(k, _) => pc.Unreferenced? && pc.o.policy == Delete && (IsReferrer(k.kind) ==> pc.o.record.Some?)
    case SkipCloudDelete(k) => pc.Unreferenced? && (pc.o.policy != Delete || pc.o.record.None?)
    case RefuseFinalization(k) => pc.Unreferenced? && pc.o.policy == Delete && pc.o.record.Some?
    case RemoveFinalizer(k) => pc.Finalizing? && Current(s, k, pc.o)
    case Abort(k) => !pc.Idle?
  }

  function Apply(s: State, step: Step): State
    requires Enabled(s, step)
  {
    var k := step.k;
    var pc := PcOf(s, k);
    match step
    case Create(_, policy, refs, foreign) =>
      var o := Object(s.nextUid, 0, 1, 0, false, false, foreign, policy, refs, None, None);
      s.(objects := s.objects[k := o], nextUid := s.nextUid + 1,
         everDelete := s.everDelete + (if policy == Delete then {o.uid} else {}))
    case EditSpec(_, policy, refs) =>
      var o := s.objects[k];
      var redirects := if refs == o.refs then o.redirects else o.redirects + 1;
      var edited := o.(policy := policy, refs := refs, generation := o.generation + 1, redirects := redirects);
      s.(objects := Put(s.objects, k, edited),
         everDelete := s.everDelete + (if policy == Delete then {o.uid} else {}))
    case UserDelete(_) => s.(objects := MarkDeleted(s.objects, k))
    case SetForeign(_, on) => s.(objects := Put(s.objects, k, s.objects[k].(foreign := on)))
    case Get(_) => s.(pcs := s.pcs[k := Fetched(s.objects[k])])
    case AddFinalizer(_) =>
      if pc.o.finalizer then s.(pcs := s.pcs[k := Reading(pc.o, [], true)])
      else
        var o := s.objects[k].(finalizer := true, version := pc.o.version + 1);
        s.(objects := s.objects[k := o], pcs := s.pcs[k := Reading(o, [], true)])
    case ReadRef(_) =>
      var d := pc.o.refs[|pc.seen|];
      var next :=
        if d !in s.objects then Reporting(pc.o)
        else if s.objects[d].terminating then Withdrawing(pc.o)
        else Reading(pc.o, pc.seen + [s.objects[d].uid], pc.ready && IsReady(s.objects[d]));
      s.(pcs := s.pcs[k := next])
    case CloudEnsure(_) => s.(pcs := s.pcs[k := Ensured(pc.o, pc.seen)])
    case PatchReady(_) =>
      var record := Record(pc.seen, pc.o.generation, pc.o.redirects);
      var o := s.objects[k].(readyAt := Some(pc.o.generation), record := Some(record));
      s.(objects := Put(s.objects, k, o), pcs := s.pcs[k := Idle])
    case GiveUp(_) => s.(pcs := s.pcs[k := Reporting(pc.o)])
    case PatchNotReady(_) =>
      s.(objects := Put(s.objects, k, s.objects[k].(readyAt := None)), pcs := s.pcs[k := Idle])
    case DeleteSelf(_) => s.(objects := MarkDeleted(s.objects, k), pcs := s.pcs[k := Idle])
    case StartDeletion(_) =>
      var next :=
        if !pc.o.finalizer then Idle
        else if IsReferrer(k.kind) then Unreferenced(pc.o)
        else Listing(pc.o, ListedKinds(k.kind), false);
      s.(pcs := s.pcs[k := next])
    case List(_) =>
      var found := pc.found || Referenced(s.objects, k, pc.pending[0]);
      var next :=
        if |pc.pending| > 1 then Listing(pc.o, pc.pending[1..], found)
        else if found then Idle else Unreferenced(pc.o);
      s.(pcs := s.pcs[k := next])
    case CloudDelete(_, ok) =>
      s.(issued := s.issued + {pc.o.uid},
         deleted := if ok then s.deleted + {pc.o.uid} else s.deleted,
         pcs := s.pcs[k := if ok then Finalizing(pc.o, true) else Reporting(pc.o)])
    case SkipCloudDelete(_) => s.(pcs := s.pcs[k := Finalizing(pc.o, false)])
    case RefuseFinalization(_) => s.(pcs := s.pcs[k := Reporting(pc.o)])
    case RemoveFinalizer(_) =>
      s.(objects := Put(s.objects, k, s.objects[k].(finalizer := false)), pcs := s.pcs[k := Idle])
    case Abort(_) => s.(pcs := s.pcs[k := Idle])
  }

  const EmptyStore := State(map[], map[], 0, {}, {}, {})

  /** The state after a run of steps from the empty store, if every step was enabled when taken. */
  predicate IsRun(steps: seq<Step>)
    decreases |steps|, 0
  {
    |steps| > 0 ==>
      IsRun(steps[..|steps| - 1]) && Enabled(After(steps[..|steps| - 1]), steps[|steps| - 1])
  }

  function After(steps: seq<Step>): State
    requires IsRun(steps)
    decreases |steps|, 1
  {
    if |steps| == 0 then EmptyStore else Apply(After(steps[..|steps| - 1]), steps[|steps| - 1])
  }
}

/** Google Cloud Storage's own form of a bucket, and the way there and back. */
module GcsCodec {
  import opened Common
  import opened Buckets

  const DEFAULT_SOFT_DELETE := 7 * 24 * 3600

  datatype PublicAccess = Inherited | Enforced | Unknown | OtherAccess(name: string)

  datatype GcsRule = GcsRule(ageInDays: int, action: string)

  datatype GcsBucket = GcsBucket(
    name: string,
    location: string,
    publicAccess: PublicAccess,
    storageClass: string,
    versioning: bool,
    labels: Labels,
    lifecycle: seq<GcsRule>,
    softDelete: Option<int>)

  /** The fields an update touches; labels are set and deleted one by one. */
  datatype GcsUpdate = GcsUpdate(
    storageClass: Change<string>,
    versioning: Change<bool>,
    publicAccess: Change<PublicAccess>,
    lifecycle: Change<seq<GcsRule>>,
    setLabels: Labels,
    deleteLabels: set<string>,
    softDelete: Change<int>)

  // ----- normalization -----

  function NormalVersioning(v: Option<bool>): Option<bool> {
    if v.None? then Some(false) else v
  }

  function NormalPublicAccess(v: Option<bool>): Option<bool> {
    if v.None? then Some(false) else v
  }

  function EnabledRules(rules: seq<Rule>): seq<Rule> {
    if rules == [] then []
    else (if rules[0].enabled then [rules[0].(name := None)] else []) + EnabledRules(rules[1..])
  }

  function NormalLifecycle(v: Option<seq<Rule>>): Option<seq<Rule>> {
    Some(if v.None? then [] else EnabledRules(v.value))
  }

  function NormalCloudSpecific(v: Option<CloudSpecific>): Option<CloudSpecific> {
    if v.None? || v.value.gcp.None? || v.value.gcp.value.softDelete.None?
    then Some(CloudSpecific(Some(GcpConfig(Some(DEFAULT_SOFT_DELETE))), false))
    else v
  }

  /** The state a spec asks GCS for. */
  function Normal(p: Properties): Properties {
    Properties(NormalPublicAccess(p.publicAccessPrevention), NormalVersioning(p.versioning),
               NormalLifecycle(p.lifecycle), p.storageClass, p.labels, NormalCloudSpecific(p.cloudSpecific))
  }

  // ----- encoding -----

  function ToStorageClass(c: StorageClass): string {
    match c
    case Standard => "STANDARD"
    case Warm => "NEARLINE"
    case Cold => "COLDLINE"
    case Ice => "ARCHIVE"
  }

  function ToPublicAccess(v: Option<bool>): PublicAccess {
    if v == Some(true) then Enforced else Inherited
  }

  function ToVersioning(v: Option<bool>): bool {
    v == Some(true)
  }

  function ToSoftDelete(v: Option<CloudSpecific>): int {
    if v.None? || v.value.gcp.None? || v.value.gcp.value.softDelete.None? then DEFAULT_SOFT_DELETE
    else v.value.gcp.value.softDelete.value
  }

  /** Enabled rules with an age; an enabled rule with an unknown action is an error. */
  function ToRules(rules: seq<Rule>): Option<seq<GcsRule>> {
    if rules == [] then Some([])
    else if rules[0].enabled && rules[0].action != DeleteAction then None
    else
      var rest := ToRules(rules[1..]);
      if rest.None? then None
      else if rules[0].enabled && rules[0].ageDays.Some? && rules[0].ageDays.value > 0
      then Some([GcsRule(rules[0].ageDays.value, "Delete")] + rest.value)
      else rest
  }

  function ToLifecycle(v: Option<seq<Rule>>): Option<seq<GcsRule>> {
    if v.None? then Some([]) else ToRules(v.value)
  }

  function ToBucket(name: string, location: string, p: Properties): Option<GcsBucket> {
    var lifecycle := ToLifecycle(p.lifecycle);
    if lifecycle.None? then None
    else Some(GcsBucket(name, location, ToPublicAccess(p.publicAccessPrevention), ToStorageClass(p.storageClass),
                        ToVersioning(p.versioning), p.labels, lifecycle.value, Some(ToSoftDelete(p.cloudSpecific))))
  }

  function ToUpdate(patch: Patch, actual: Labels): Option<GcsUpdate> {
    var lifecycle := if patch.lifecycle.Set? then ToLifecycle(patch.lifecycle.value) else Some([]);
    if lifecycle.None? then None
    else
      var desired := if patch.labels.Set? then patch.labels.value else actual;
      Some(GcsUpdate(
        match patch.storageClass case Keep => Keep case Set(c) => Set(ToStorageClass(c)),
        match patch.versioning case Keep => Keep case Set(v) => Set(ToVersioning(v)),
        match patch.publicAccessPrevention case Keep => Keep case Set(v) => Set(ToPublicAccess(v)),
        if patch.lifecycle.Set? then Set(lifecycle.value) else Keep,
        if desired == actual then map[] else desired,
        if desired == actual then {} else actual.Keys - desired.Keys,
        match patch.cloudSpecific case Keep => Keep case Set(v) => Set(ToSoftDelete(v))))
  }

  // ----- decoding -----

  function FromStorageClass(c: string): Option<StorageClass> {
    if c == "STANDARD" then Some(Standard)
    else if c == "NEARLINE" then Some(Warm)
    else if c == "COLDLINE" then Some(Cold)
    else if c == "ARCHIVE" then Some(Ice)
    else None
  }

  /** Unknown reads as unset; any other value cannot be read. */
  function FromPublicAccess(v: PublicAccess): Option<Option<bool>> {
    match v
    case Inherited => Some(Some(false))
    case Enforced => Some(Some(true))
    case Unknown => Some(None)
    case OtherAccess(_) => None
  }

  function FromRules(rules: seq<GcsRule>): seq<Rule> {
    if rules == [] then []
    else
      (if rules[0].ageInDays > 0 && rules[0].action == "Delete"
       then [Rule(None, true, Some(rules[0].ageInDays), DeleteAction)] else [])
      + FromRules(rules[1..])
  }

  function FromSoftDelete(v: Option<int>): Option<CloudSpecific> {
    Some(CloudSpecific(Some(GcpConfig(Some(if v.None? then DEFAULT_SOFT_DELETE else v.value))), false))
  }

  function FromBucket(b: GcsBucket): Option<Attrs> {
    var pap := FromPublicAccess(b.publicAccess);
    var storage := FromStorageClass(b.storageClass);
    if pap.None? || storage.None? then None
    else Some(Attrs(b.name, b.name, b.location,
      Properties(pap.value, Some(b.versioning), Some(FromRules(b.lifecycle)), storage.value, b.labels,
                 FromSoftDelete(b.softDelete))))
  }

  // ----- the cloud -----

  function ApplyUpdate(b: GcsBucket, u: GcsUpdate): GcsBucket {
    b.(storageClass := Update(b.storageClass, u.storageClass),
       versioning := Update(b.versioning, u.versioning),
       publicAccess := Update(b.publicAccess, u.publicAccess),
       lifecycle := Update(b.lifecycle, u.lifecycle),
       labels := (b.labels - u.deleteLabels) + u.setLabels,
       softDelete := if u.softDelete.Set? then Some(u.softDelete.value) else b.softDelete)
  }

  // ----- how the two directions fit together -----

  /** Every enabled rule has a positive age. */
  predicate AgedRules(rules: seq<Rule>) {
    forall i :: 0 <= i < |rules| && rules[i].enabled ==> rules[i].ageDays.Some? && rules[i].ageDays.value >= 1
  }

  predicate AgedLifecycle(v: Option<seq<Rule>>) {
    v.Some? ==> AgedRules(v.value)
  }

  /** Decoding yields positive ages only. */
  lemma {:induction false} DecodedRulesAreAged(rules: seq<GcsRule>)
    ensures forall i :: 0 <= i < |FromRules(rules)| ==>
      var r := FromRules(rules)[i]; r.enabled && r.ageDays.Some? && r.ageDays.value >= 1
  {
    if rules != [] {
      DecodedRulesAreAged(rules[1..]);
    }
  }

  /** Normalizing keeps exactly the enabled rules, so it neither hides nor invents a missing age. */
  lemma {:induction false} EnabledRulesAged(rules: seq<Rule>)
    ensures AgedRules(EnabledRules(rules)) <==> AgedRules(rules)
    ensures forall i :: 0 <= i < |EnabledRules(rules)| ==>
      EnabledRules(rules)[i].enabled && EnabledRules(rules)[i].name == None
  {
    if rules != [] {
      EnabledRulesAged(rules[1..]);
      var rest := rules[1..];
      if AgedRules(EnabledRules(rules)) {
        if rules[0].enabled {
          assert EnabledRules(rules)[0].ageDays == rules[0].ageDays;
          assert EnabledRules(rules)[1..] == EnabledRules(rest);
        } else {
          assert EnabledRules(rules) == EnabledRules(rest);
        }
        assert forall i :: 0 <= i < |rest| ==> rules[i + 1] == rest[i];
        forall i | 0 <= i < |rules| && rules[i].enabled ensures rules[i].ageDays.Some? && rules[i].ageDays.value >= 1 {
          if i > 0 {
            assert rules[i] == rest[i - 1];
          }
        }
      }
    }
  }

  /** A normalized lifecycle survives the round trip through GCS iff every rule has a positive age. */
  lemma {:induction false} LifecycleRoundTrip(rules: seq<Rule>)
    requires forall i :: 0 <= i < |rules| ==> rules[i].enabled && rules[i].name == None
    requires ToRules(rules).Some?
    ensures FromRules(ToRules(rules).value) == rules <==> AgedRules(rules)
  {
    if AgedRules(rules) {
      AgedRoundTrip(rules);
    } else {
      DecodedRulesAreAged(ToRules(rules).value);
    }
  }

  lemma {:induction false} AgedRoundTrip(rules: seq<Rule>)
    requires AgedRules(rules) && ToRules(rules).Some?
    requires forall i :: 0 <= i < |rules| ==> rules[i].enabled && rules[i].name == None
    ensures FromRules(ToRules(rules).value) == rules
  {
    if rules != [] {
      AgedRoundTrip(rules[1..]);
      var encoded := ToRules(rules).value;
      assert encoded[1..] == ToRules(rules[1..]).value;
      assert rules == [rules[0]] + rules[1..];
    }
  }
}

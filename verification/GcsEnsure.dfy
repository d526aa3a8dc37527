/** `EnsureBucket` for GCS as a function of the cloud state, and exactly when it converges. */
module GcsEnsure {
  import opened Common
  import opened Buckets
  import opened GcsCodec

  function UpperChar(c: char): char {
    if 'a' <= c <= 'z' then c - 'a' + 'A' else c
  }

  function Upper(s: string): string {
    seq(|s|, i requires 0 <= i < |s| => UpperChar(s[i]))
  }

  function PatchFor(actual: Properties, desired: Properties): Patch {
    Patch(
      Diff(actual.storageClass, desired.storageClass),
      Diff(actual.labels, desired.labels),
      Diff(actual.versioning, desired.versioning),
      Diff(actual.publicAccessPrevention, desired.publicAccessPrevention),
      Diff(actual.lifecycle, desired.lifecycle),
      Diff(actual.cloudSpecific, desired.cloudSpecific))
  }

  /** What is reported when nothing had to change; it leaves the cloud-specific part out. */
  function AppliedState(name: string, id: string, location: string, desired: Properties): Attrs {
    Attrs(name, id, location, desired.(cloudSpecific := None))
  }

  /** Creates the bucket, which GCS stores under an upper-case location. */
  function Create(name: string, spec: Spec): (Option<GcsBucket>, Ensured) {
    var desired := Normal(spec.properties);
    var bucket := ToBucket(name, Upper(spec.location), desired);
    if bucket.None? then (None, Failed)
    else (bucket, Ensured(Attrs(name, name, spec.location, desired), true))
  }

  function UpdateBucket(b: GcsBucket, patch: Patch): (GcsBucket, Ensured) {
    var update := ToUpdate(patch, b.labels);
    if update.None? then (b, Failed)
    else
      var b' := ApplyUpdate(b, update.value);
      var attrs := FromBucket(b');
      (b', if attrs.None? then Failed else Ensured(attrs.value, true))
  }

  function Ensure(cloud: Option<GcsBucket>, name: string, spec: Spec): (Option<GcsBucket>, Ensured) {
    if cloud.None? then Create(name, spec)
    else
      var b := cloud.value;
      var attrs := FromBucket(b);
      var desired := Normal(spec.properties);
      if attrs.None? || b.location != Upper(spec.location) then (cloud, Failed)
      else
        var patch := PatchFor(attrs.value.properties, desired);
        if patch.HasChanges() then
          var (b', result) := UpdateBucket(b, patch);
          (Some(b'), result)
        else (cloud, Ensured(AppliedState(name, b.name, b.location, desired), false))
  }

  /** Every enabled rule has a positive age, and a soft-delete setting comes without settings for
      another cloud. */
  predicate Converges(spec: Spec) {
    AgedLifecycle(spec.properties.lifecycle) && SoftDeleteReads(spec.properties.cloudSpecific)
  }

  predicate SoftDeleteReads(cs: Option<CloudSpecific>) {
    cs.Some? && cs.value.yc ==> cs.value.gcp.None? || cs.value.gcp.value.softDelete.None?
  }

  /** Validation lets no settings for another cloud pass. */
  predicate Validated(spec: Spec) {
    spec.properties.cloudSpecific.Some? ==> !spec.properties.cloudSpecific.value.yc
  }

  /** What GCS holds once it was brought to the desired state. */
  ghost predicate Holds(b: GcsBucket, p: Properties) {
    && b.labels == p.labels
    && FromStorageClass(b.storageClass) == Some(p.storageClass)
    && Some(b.versioning) == p.versioning
    && FromPublicAccess(b.publicAccess) == Some(p.publicAccessPrevention)
    && (FromSoftDelete(b.softDelete) == p.cloudSpecific || b.softDelete == Some(ToSoftDelete(p.cloudSpecific)))
    && (Some(FromRules(b.lifecycle)) == p.lifecycle || Some(b.lifecycle) == ToLifecycle(p.lifecycle))
    && ToLifecycle(p.lifecycle).Some?
  }

  /** Rules that GCS could hold encode without error. */
  lemma {:induction false} DecodedRulesEncode(rules: seq<GcsRule>)
    ensures ToRules(FromRules(rules)).Some?
  {
    if rules != [] {
      DecodedRulesEncode(rules[1..]);
      if rules[0].ageInDays > 0 && rules[0].action == "Delete" {
        assert FromRules(rules)[1..] == FromRules(rules[1..]);
      } else {
        assert FromRules(rules) == FromRules(rules[1..]);
      }
    }
  }

  lemma FlagIsTrueOrFalse(v: bool)
    ensures Some(v) == Some(true) || Some(v) == Some(false)
  {
    assert v == true || v == false;
  }

  lemma ScalarsRoundTrip(p: Properties)
    ensures var n := Normal(p);
      && Some(ToVersioning(n.versioning)) == n.versioning
      && FromPublicAccess(ToPublicAccess(n.publicAccessPrevention)) == Some(n.publicAccessPrevention)
      && FromStorageClass(ToStorageClass(n.storageClass)) == Some(n.storageClass)
  {
    FlagIsTrueOrFalse(NormalVersioning(p.versioning).value);
    FlagIsTrueOrFalse(NormalPublicAccess(p.publicAccessPrevention).value);
  }

  /** A successful call brings the bucket to the desired state. */
  lemma EnsureReaches(cloud: Option<GcsBucket>, name: string, spec: Spec)
    requires Ensure(cloud, name, spec).1.Ensured?
    ensures var b := Ensure(cloud, name, spec).0;
      b.Some? && Holds(b.value, Normal(spec.properties)) && b.value.location == Upper(spec.location)
  {
    var desired := Normal(spec.properties);
    ScalarsRoundTrip(spec.properties);
    if cloud.Some? {
      var b := cloud.value;
      var b' := Ensure(cloud, name, spec).0.value;
      assert b'.labels == desired.labels;
      if Some(FromRules(b.lifecycle)) == desired.lifecycle {
        DecodedRulesEncode(b.lifecycle);
      }
    }
  }

  /** From the desired state the next call succeeds, writes nothing that is not there already, and
      writes at all iff the spec does not converge. */
  lemma HeldIsStable(b: GcsBucket, name: string, spec: Spec)
    requires Holds(b, Normal(spec.properties)) && b.location == Upper(spec.location)
    ensures Ensure(Some(b), name, spec).1.Ensured?
    ensures Ensure(Some(b), name, spec).1.wrote <==> !Converges(spec)
    ensures Holds(Ensure(Some(b), name, spec).0.value, Normal(spec.properties))
    ensures Converges(spec) ==> FromBucket(b).value.properties == Normal(spec.properties)
  {
    var desired := Normal(spec.properties);
    var rules := desired.lifecycle.value;
    LifecycleShows(b, spec);
    EnsureSucceedsWhenHeld(b, name, spec);
    EnsureReaches(Some(b), name, spec);
  }

  /** The decoded lifecycle is the desired one iff every enabled rule of the spec has an age. */
  lemma LifecycleShows(b: GcsBucket, spec: Spec)
    requires Holds(b, Normal(spec.properties))
    ensures Some(FromRules(b.lifecycle)) == Normal(spec.properties).lifecycle
       <==> AgedLifecycle(spec.properties.lifecycle)
  {
    var rules := Normal(spec.properties).lifecycle.value;
    if spec.properties.lifecycle.Some? {
      EnabledRulesAged(spec.properties.lifecycle.value);
    }
    LifecycleRoundTrip(rules);
    DecodedRulesAreAged(b.lifecycle);
  }

  lemma EnsureSucceedsWhenHeld(b: GcsBucket, name: string, spec: Spec)
    requires Holds(b, Normal(spec.properties)) && b.location == Upper(spec.location)
    ensures Ensure(Some(b), name, spec).1.Ensured?
  {
  }

  /** One successful call, whether it creates, updates or changes nothing, reaches a fixpoint: the
      next call issues no write iff every enabled rule has a positive age (for a validated spec). */
  lemma FixpointExactly(cloud: Option<GcsBucket>, name: string, spec: Spec)
    requires Ensure(cloud, name, spec).1.Ensured?
    ensures var (b, _) := Ensure(cloud, name, spec); var (b', second) := Ensure(b, name, spec);
      && second.Ensured? && (second.wrote <==> !Converges(spec))
      && (Validated(spec) ==> (second.wrote <==> !AgedLifecycle(spec.properties.lifecycle)))
      && (Converges(spec) ==> b' == b && FromBucket(b.value).value.properties == Normal(spec.properties))
  {
    EnsureReaches(cloud, name, spec);
    HeldIsStable(Ensure(cloud, name, spec).0.value, name, spec);
  }

  function EnsureTimes(cloud: Option<GcsBucket>, name: string, spec: Spec, n: nat): Option<GcsBucket> {
    if n == 0 then cloud else Ensure(EnsureTimes(cloud, name, spec, n - 1), name, spec).0
  }

  /** A spec that does not converge is written again by every later call. */
  lemma {:induction false} NeverSettles(cloud: Option<GcsBucket>, name: string, spec: Spec, n: nat)
    requires Ensure(cloud, name, spec).1.Ensured? && n > 0
    ensures var b := EnsureTimes(cloud, name, spec, n);
      && b.Some? && Ensure(b, name, spec).1.Ensured?
      && (Ensure(b, name, spec).1.wrote <==> !Converges(spec))
      && Holds(b.value, Normal(spec.properties)) && b.value.location == Upper(spec.location)
  {
    if n == 1 {
      assert EnsureTimes(cloud, name, spec, 0) == cloud;
      EnsureReaches(cloud, name, spec);
    } else {
      NeverSettles(cloud, name, spec, n - 1);
      EnsureReaches(EnsureTimes(cloud, name, spec, n - 1), name, spec);
    }
    HeldIsStable(EnsureTimes(cloud, name, spec, n).value, name, spec);
  }

  /** The attributes a successful call reports are those of the normalized spec, except that an update
      reports a lifecycle and a soft-delete setting as GCS reads them back, and that a call that changes
      nothing leaves the cloud-specific part out. */
  lemma ReportsTheDesiredState(cloud: Option<GcsBucket>, name: string, spec: Spec)
    requires Ensure(cloud, name, spec).1.Ensured?
    requires cloud.Some? ==> cloud.value.name == name
    ensures var (attrs, wrote) := (Ensure(cloud, name, spec).1.attrs, Ensure(cloud, name, spec).1.wrote);
      var reported, desired := attrs.properties, Normal(spec.properties);
      && attrs.name == name && attrs.id == name && Upper(attrs.location) == Upper(spec.location)
      && reported.(lifecycle := None, cloudSpecific := None) == desired.(lifecycle := None, cloudSpecific := None)
      && (reported.lifecycle == desired.lifecycle <==> cloud.None? || AgedLifecycle(spec.properties.lifecycle))
      && (wrote ==> (reported.cloudSpecific == desired.cloudSpecific
                     <==> cloud.None? || SoftDeleteReads(spec.properties.cloudSpecific)))
      && (!wrote ==> reported.cloudSpecific.None?)
  {
    EnsureReaches(cloud, name, spec);
    var b := Ensure(cloud, name, spec).0.value;
    LifecycleShows(b, spec);
  }

  /** One enabled rule without an age, on any fresh bucket: every call writes. */
  lemma AgelessRuleNeverSettles(name: string, location: string, n: nat)
    requires n > 0
    ensures var rules := [Rule(None, true, None, DeleteAction)];
      var spec := Spec(location, Properties(None, None, Some(rules), Standard, map[], None));
      var b := EnsureTimes(None, name, spec, n);
      Validated(spec) && Ensure(b, name, spec).1.Ensured? && Ensure(b, name, spec).1.wrote
  {
    var rules := [Rule(None, true, None, DeleteAction)];
    var spec := Spec(location, Properties(None, None, Some(rules), Standard, map[], None));
    assert !AgedRules(rules) by { assert rules[0].enabled; }
    assert rules[1..] == [] && EnabledRules(rules) == [rules[0]] + EnabledRules([]);
    assert Normal(spec.properties).lifecycle.value == rules;
    assert ToRules(rules).Some?;
    NeverSettles(None, name, spec, n);
  }
}

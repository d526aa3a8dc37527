/** `EnsureBucket` for Yandex Cloud as a function of the cloud state, and exactly when it converges. */
module YcEnsure {
  import opened Common
  import opened Buckets
  import opened YcCodec

  function Read(b: YcBucket, region: string): Option<Attrs> {
    var storage := FromStorageClass(b.storageClass);
    if storage.None? then None
    else Some(Attrs(b.name, b.resourceId, region,
      Properties(None, FromVersioning(b.versioning), FromLifecycle(b.lifecycle), storage.value,
                 FromTags(b.tags), None)))
  }

  ghost function Create(name: string, id: string, region: string, spec: Spec): (Option<YcBucket>, Ensured) {
    var p := spec.properties;
    var storage := ToStorageClass(p.storageClass);
    if storage.None? then (None, Failed)
    else
      var b := YcBucket(name, id, storage.value,
        ToVersioning(p.versioning), ToLifecycle(p.lifecycle), ToTags(p.labels));
      (Some(b), Ensured(Read(b, region).value, true))
  }

  function PatchFor(actual: Properties, desired: Properties): Patch {
    Patch(
      Diff(actual.storageClass, desired.storageClass),
      Diff(actual.labels, desired.labels),
      Diff(actual.versioning, desired.versioning),
      Keep,
      Diff(actual.lifecycle, desired.lifecycle),
      Keep)
  }

  ghost function ToUpdate(patch: Patch): Option<YcUpdate> {
    if patch.storageClass.Set? && ToStorageClass(patch.storageClass.value).None? then None
    else Some(YcUpdate(
      if patch.storageClass.Set? then Set(ToStorageClass(patch.storageClass.value).value) else Keep,
      if patch.labels.Set? then Set(ToTags(patch.labels.value)) else Keep,
      if patch.versioning.Set? then Set(ToVersioningUpdate(patch.versioning.value)) else Keep,
      if patch.lifecycle.Set? then Set(ToLifecycle(patch.lifecycle.value)) else Keep))
  }

  function ApplyUpdate(b: YcBucket, u: YcUpdate): YcBucket {
    b.(storageClass := Update(b.storageClass, u.storageClass),
       tags := Update(b.tags, u.tags),
       versioning := Update(b.versioning, u.versioning),
       lifecycle := Update(b.lifecycle, u.lifecycle))
  }

  ghost function UpdateBucket(b: YcBucket, region: string, patch: Patch): (YcBucket, Ensured) {
    var update := ToUpdate(patch);
    if update.None? then (b, Failed)
    else
      var b' := ApplyUpdate(b, update.value);
      var attrs := Read(b', region);
      (b', if attrs.None? then Failed else Ensured(attrs.value, true))
  }

  /** `region` is where the provider works; `id` is the identifier the cloud gives a new bucket. */
  ghost function Ensure(cloud: Option<YcBucket>, name: string, id: string, region: string, spec: Spec)
    : (Option<YcBucket>, Ensured)
  {
    if cloud.None? then Create(name, id, region, spec)
    else
      var attrs := Read(cloud.value, region);
      var p := spec.properties;
      if attrs.None? || attrs.value.location != spec.location then (cloud, Failed)
      else
        var patch := PatchFor(attrs.value.properties, p);
        if patch.HasChanges() then
          var (b', result) := UpdateBucket(cloud.value, region, patch);
          (Some(b'), result)
        else
          (cloud, Ensured(Attrs(name, cloud.value.resourceId, spec.location,
            Properties(None, p.versioning, p.lifecycle, p.storageClass, p.labels, None)), false))
  }

  /** The spec asks for something `b`, once it was brought there, can read back as. */
  predicate Converges(b: YcBucket, spec: Spec) {
    && (spec.properties.versioning.Some? || FromVersioning(b.versioning).None?)
    && LifecycleExpressible(spec.properties.lifecycle)
  }

  /** What Yandex Cloud holds once it was brought to the desired state. */
  ghost predicate Holds(b: YcBucket, p: Properties) {
    && FromStorageClass(b.storageClass) == Some(p.storageClass)
    && FromTags(b.tags) == p.labels
    && (FromVersioning(b.versioning) == p.versioning || (p.versioning.None? && b.versioning == Suspended))
    && (FromLifecycle(b.lifecycle) == p.lifecycle || b.lifecycle == ToLifecycle(p.lifecycle))
  }

  /** A successful call brings the bucket to the desired state, and never switches versioning off. */
  lemma EnsureReaches(cloud: Option<YcBucket>, name: string, id: string, region: string, spec: Spec)
    requires Ensure(cloud, name, id, region, spec).1.Ensured?
    ensures var b := Ensure(cloud, name, id, region, spec).0;
      && b.Some? && Holds(b.value, spec.properties)
      && (cloud.Some? ==> (Converges(b.value, spec) <==> Converges(cloud.value, spec)))
      && (cloud.None? ==> (Converges(b.value, spec) <==> LifecycleExpressible(spec.properties.lifecycle)))
  {
    var p := spec.properties;
    VersioningRoundTrip(p.versioning);
    if ToStorageClass(p.storageClass).Some? {
      StorageClassRoundTrip(p.storageClass);
    }
  }

  /** From the desired state the next call writes iff the spec does not converge. */
  lemma HeldIsStable(b: YcBucket, name: string, id: string, region: string, spec: Spec)
    requires Holds(b, spec.properties) && region == spec.location
    ensures var (b', second) := Ensure(Some(b), name, id, region, spec);
      && second.Ensured? && (second.wrote <==> !Converges(b, spec)) && (Converges(b, spec) ==> b' == Some(b))
    ensures Converges(b, spec) ==>
      Read(b, region).value.properties == spec.properties.(publicAccessPrevention := None, cloudSpecific := None)
  {
    LifecycleRoundTrip(spec.properties.lifecycle);
    DecodedIsExpressible(b.lifecycle);
  }

  /** On an existing bucket: after one successful call, whatever it wrote, the next issues no update
      iff versioning is set in the spec or was never touched in the cloud, and the lifecycle is absent
      or not empty with an age and the Delete action in every rule. */
  lemma FixpointExactly(b: YcBucket, name: string, id: string, region: string, spec: Spec)
    requires Ensure(Some(b), name, id, region, spec).1.Ensured?
    ensures var (b', _) := Ensure(Some(b), name, id, region, spec);
      var (b'', second) := Ensure(b', name, id, region, spec);
      && second.Ensured? && (second.wrote <==> !Converges(b, spec)) && (Converges(b, spec) ==> b'' == b')
  {
    EnsureReaches(Some(b), name, id, region, spec);
    HeldIsStable(Ensure(Some(b), name, id, region, spec).0.value, name, id, region, spec);
  }

  /** On a missing bucket: the call after the creation succeeds iff the spec names the provider's
      region, and then issues no update iff the lifecycle is expressible. */
  lemma CreationFixpointExactly(name: string, id: string, region: string, spec: Spec)
    requires Ensure(None, name, id, region, spec).1.Ensured?
    ensures var (b, _) := Ensure(None, name, id, region, spec);
      var second := Ensure(b, name, id, region, spec).1;
      && (second.Ensured? <==> region == spec.location)
      && (second.Ensured? ==> (second.wrote <==> !LifecycleExpressible(spec.properties.lifecycle)))
  {
    EnsureReaches(None, name, id, region, spec);
    var b := Ensure(None, name, id, region, spec).0.value;
    if region == spec.location {
      HeldIsStable(b, name, id, region, spec);
    }
  }

  ghost function EnsureTimes(cloud: Option<YcBucket>, name: string, id: string, region: string, spec: Spec, n: nat)
    : Option<YcBucket>
  {
    if n == 0 then cloud
    else Ensure(EnsureTimes(cloud, name, id, region, spec, n - 1), name, id, region, spec).0
  }

  /** A spec that does not converge is written again by every later call. */
  lemma {:induction false} NeverSettles(b: YcBucket, name: string, id: string, region: string, spec: Spec, n: nat)
    requires Ensure(Some(b), name, id, region, spec).1.Ensured? && n > 0
    ensures var c := EnsureTimes(Some(b), name, id, region, spec, n);
      && c.Some? && Holds(c.value, spec.properties) && (Converges(c.value, spec) <==> Converges(b, spec))
      && Ensure(c, name, id, region, spec).1.Ensured?
      && (Ensure(c, name, id, region, spec).1.wrote <==> !Converges(b, spec))
  {
    var before := EnsureTimes(Some(b), name, id, region, spec, n - 1);
    if n > 1 {
      NeverSettles(b, name, id, region, spec, n - 1);
    }
    EnsureReaches(before, name, id, region, spec);
    HeldIsStable(EnsureTimes(Some(b), name, id, region, spec, n).value, name, id, region, spec);
  }

  /** A spec without versioning, on a bucket that has it: every call writes. */
  lemma UnsetVersioningNeverSettles(b: YcBucket, name: string, id: string, region: string, spec: Spec, n: nat)
    requires b.versioning.Enabled? && FromStorageClass(b.storageClass).Some? && n > 0
    requires spec.location == region && spec.properties.versioning.None?
    requires ToStorageClass(spec.properties.storageClass).Some?
    ensures var c := EnsureTimes(Some(b), name, id, region, spec, n);
      Ensure(c, name, id, region, spec).1.Ensured? && Ensure(c, name, id, region, spec).1.wrote
  {
    StorageClassRoundTrip(spec.properties.storageClass);
    NeverSettles(b, name, id, region, spec, n);
  }

  /** A bucket created for a spec that names another region: every later call fails and changes nothing. */
  lemma {:induction false} ForeignRegionAlwaysFails(name: string, id: string, region: string, spec: Spec, n: nat)
    requires Ensure(None, name, id, region, spec).1.Ensured? && region != spec.location && n > 0
    ensures var b := EnsureTimes(None, name, id, region, spec, n);
      && b == Ensure(None, name, id, region, spec).0 && b.Some?
      && Ensure(b, name, id, region, spec) == (b, Failed)
  {
    if n == 1 {
      assert EnsureTimes(None, name, id, region, spec, 0) == None;
      CreationFixpointExactly(name, id, region, spec);
    } else {
      ForeignRegionAlwaysFails(name, id, region, spec, n - 1);
    }
  }
}

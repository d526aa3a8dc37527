/** The GCS provider as it runs: loops that append to lifecycle lists and fill label updates, and an
    `EnsureBucket` that fills its patch field by field. */
module GcsProvider {
  import opened Common
  import opened Buckets
  import opened GcsCodec
  import GcsEnsure

  method NormalizedLifecycle(lifecycle: Option<seq<Rule>>) returns (normalized: Option<seq<Rule>>)
    ensures normalized == NormalLifecycle(lifecycle)
  {
    var out: seq<Rule> := [];
    if lifecycle.Some? {
      var rules := lifecycle.value;
      for i := 0 to |rules|
        invariant out + EnabledRules(rules[i..]) == EnabledRules(rules)
      {
        assert rules[i..][0] == rules[i] && rules[i..][1..] == rules[i + 1..];
        if rules[i].enabled {
          out := out + [rules[i].(name := None)];
        }
      }
      assert out == EnabledRules(rules);
    }
    normalized := Some(out);
  }

  /** `out` is what a loop has produced of `whole` when `rest` is still to come. */
  ghost predicate Continues(out: seq<GcsRule>, rest: Option<seq<GcsRule>>, whole: Option<seq<GcsRule>>) {
    (rest.None? <==> whole.None?) && (rest.Some? ==> whole.value == out + rest.value)
  }

  method ToGcsLifecycle(lifecycle: Option<seq<Rule>>) returns (encoded: Option<seq<GcsRule>>)
    ensures encoded == ToLifecycle(lifecycle)
  {
    if lifecycle.None? {
      return Some([]);
    }
    var rules: seq<Rule>, out: seq<GcsRule> := lifecycle.value, [];
    assert rules[0..] == rules;
    for i := 0 to |rules|
      invariant Continues(out, ToRules(rules[i..]), ToRules(rules))
    {
      assert rules[i..][0] == rules[i] && rules[i..][1..] == rules[i + 1..];
      if !rules[i].enabled {
        continue;
      }
      if rules[i].action != DeleteAction {
        return None;
      }
      if rules[i].ageDays.Some? && rules[i].ageDays.value > 0 {
        out := out + [GcsRule(rules[i].ageDays.value, "Delete")];
      }
    }
    assert Some(out) == ToRules(rules) by { assert out == ToRules(rules).value; }
    encoded := Some(out);
  }

  method FromGcsLifecycle(rules: seq<GcsRule>) returns (decoded: seq<Rule>)
    ensures decoded == FromRules(rules)
  {
    decoded := [];
    for i := 0 to |rules|
      invariant decoded + FromRules(rules[i..]) == FromRules(rules)
    {
      assert rules[i..][0] == rules[i] && rules[i..][1..] == rules[i + 1..];
      if rules[i].ageInDays > 0 && rules[i].action == "Delete" {
        decoded := decoded + [Rule(None, true, Some(rules[i].ageInDays), DeleteAction)];
      }
    }
  }

  /** Sets every desired label and deletes every other; touches nothing when they already agree. */
  method SetLabels(desired: Labels, actual: Labels) returns (setLabels: Labels, deleteLabels: set<string>)
    ensures (actual - deleteLabels) + setLabels == desired
    ensures desired == actual ==> setLabels == map[] && deleteLabels == {}
    ensures desired != actual ==> setLabels == desired && deleteLabels == actual.Keys - desired.Keys
  {
    setLabels, deleteLabels := map[], {};
    if desired == actual {
      return;
    }
    var keys := desired.Keys;
    while keys != {}
      invariant keys <= desired.Keys
      invariant setLabels == map k | k in desired && k !in keys :: desired[k]
    {
      var k :| k in keys;
      setLabels := setLabels[k := desired[k]];
      keys := keys - {k};
    }
    keys := actual.Keys;
    while keys != {}
      invariant keys <= actual.Keys
      invariant deleteLabels == (actual.Keys - keys) - desired.Keys
    {
      var k :| k in keys;
      if k !in desired {
        deleteLabels := deleteLabels + {k};
      }
      keys := keys - {k};
    }
  }

  /** The bucket handle: at most one bucket of the given name. */
  class BucketApi {
    var bucket: Option<GcsBucket>
    var writes: nat
    const name: string

    constructor (name: string, bucket: Option<GcsBucket>)
      ensures this.name == name && this.bucket == bucket && writes == 0
    {
      this.name, this.bucket, writes := name, bucket, 0;
    }

    method CreateBucket(location: string, properties: Properties) returns (attrs: Option<Attrs>)
      modifies this
      ensures var encoded := ToBucket(name, GcsEnsure.Upper(location), properties);
        if encoded.None? then attrs == None && bucket == old(bucket) && writes == old(writes)
        else attrs == Some(Attrs(name, name, location, properties)) && bucket == encoded && writes == old(writes) + 1
    {
      var lifecycle := ToGcsLifecycle(properties.lifecycle);
      if lifecycle.None? {
        return None;
      }
      bucket := Some(GcsBucket(name, GcsEnsure.Upper(location), ToPublicAccess(properties.publicAccessPrevention),
                               ToStorageClass(properties.storageClass), ToVersioning(properties.versioning),
                               properties.labels, lifecycle.value, Some(ToSoftDelete(properties.cloudSpecific))));
      writes := writes + 1;
      attrs := Some(Attrs(name, name, location, properties));
    }

    method UpdateBucket(patch: Patch) returns (attrs: Option<Attrs>)
      requires bucket.Some?
      modifies this
      ensures bucket.Some?
      ensures var (b', result) := GcsEnsure.UpdateBucket(old(bucket.value), patch);
        bucket == Some(b') && attrs == if result.Ensured? then Some(result.attrs) else None
      ensures writes == old(writes) + if ToUpdate(patch, old(bucket.value.labels)).Some? then 1 else 0
    {
      var b := bucket.value;
      var update := GcsUpdate(Keep, Keep, Keep, Keep, map[], {}, Keep);
      if patch.storageClass.Set? {
        update := update.(storageClass := Set(ToStorageClass(patch.storageClass.value)));
      }
      if patch.versioning.Set? {
        update := update.(versioning := Set(ToVersioning(patch.versioning.value)));
      }
      if patch.publicAccessPrevention.Set? {
        update := update.(publicAccess := Set(ToPublicAccess(patch.publicAccessPrevention.value)));
      }
      if patch.lifecycle.Set? {
        var lifecycle := ToGcsLifecycle(patch.lifecycle.value);
        if lifecycle.None? {
          return None;
        }
        update := update.(lifecycle := Set(lifecycle.value));
      }
      if patch.labels.Set? {
        var added, removed := SetLabels(patch.labels.value, b.labels);
        update := update.(setLabels := added, deleteLabels := removed);
      }
      if patch.cloudSpecific.Set? {
        update := update.(softDelete := Set(ToSoftDelete(patch.cloudSpecific.value)));
      }
      assert ToUpdate(patch, b.labels) == Some(update);
      bucket := Some(ApplyUpdate(b, update));
      writes := writes + 1;
      attrs := FromBucket(bucket.value);
    }

    /** Writes exactly when it says so, and leaves what the specification says. */
    method EnsureBucket(spec: Spec) returns (result: Ensured)
      modifies this
      ensures (bucket, result) == GcsEnsure.Ensure(old(bucket), name, spec)
      ensures result.Ensured? ==> writes == old(writes) + if result.wrote then 1 else 0
    {
      var lifecycle := NormalizedLifecycle(spec.properties.lifecycle);
      var desired := Normal(spec.properties);
      if bucket.None? {
        var created := CreateBucket(spec.location, desired.(lifecycle := lifecycle));
        return if created.None? then Failed else Ensured(created.value, true);
      }
      var attrs := FromBucket(bucket.value);
      if attrs.None? || attrs.value.location != GcsEnsure.Upper(spec.location) {
        return Failed;
      }
      var actual, patch := attrs.value.properties, NoChange;
      if actual.labels != desired.labels {
        patch := patch.(labels := Set(desired.labels));
      }
      if actual.storageClass != desired.storageClass {
        patch := patch.(storageClass := Set(desired.storageClass));
      }
      if actual.versioning != desired.versioning {
        patch := patch.(versioning := Set(desired.versioning));
      }
      if actual.publicAccessPrevention != desired.publicAccessPrevention {
        patch := patch.(publicAccessPrevention := Set(desired.publicAccessPrevention));
      }
      if actual.lifecycle != lifecycle {
        patch := patch.(lifecycle := Set(lifecycle));
      }
      if actual.cloudSpecific != desired.cloudSpecific {
        patch := patch.(cloudSpecific := Set(desired.cloudSpecific));
      }
      assert patch == GcsEnsure.PatchFor(actual, desired);
      if patch.HasChanges() {
        var updated := UpdateBucket(patch);
        return if updated.None? then Failed else Ensured(updated.value, true);
      }
      result := Ensured(GcsEnsure.AppliedState(name, bucket.value.name, bucket.value.location, desired), false);
    }
  }
}

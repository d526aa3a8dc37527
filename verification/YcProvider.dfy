/** The Yandex Cloud provider as it runs: loops that build rule and tag lists, and an `EnsureBucket`
    that fills its patch field by field. */
module YcProvider {
  import opened Common
  import opened Buckets
  import opened YcCodec
  import YcEnsure

  method ToYcLifecycle(lifecycle: Option<seq<Rule>>) returns (rules: seq<Option<YcRule>>)
    ensures rules == ToLifecycle(lifecycle)
  {
    rules := [];
    if lifecycle.None? {
      return;
    }
    var from := lifecycle.value;
    for i := 0 to |from|
      invariant rules + ToRules(from[i..]) == ToRules(from)
    {
      assert from[i..][0] == from[i] && from[i..][1..] == from[i + 1..];
      if from[i].ageDays.Some? {
        if from[i].action == DeleteAction {
          rules := rules + [Some(YcRule(from[i].name, from[i].enabled, Some(from[i].ageDays)))];
        }
      }
    }
  }

  method FromYcLifecycle(from: seq<Option<YcRule>>) returns (lifecycle: Option<seq<Rule>>)
    ensures lifecycle == FromLifecycle(from)
  {
    var rules := [];
    for i := 0 to |from|
      invariant rules + FromRules(from[i..]) == FromRules(from)
    {
      assert from[i..][0] == from[i] && from[i..][1..] == from[i + 1..];
      if from[i].None? {
        continue;
      }
      var rule := from[i].value;
      if rule.expiration.Some? && rule.expiration.value.Some? {
        rules := rules + [Rule(rule.id, rule.enabled, rule.expiration.value, DeleteAction)];
      }
    }
    assert rules == FromRules(from);
    lifecycle := if |rules| == 0 then None else Some(rules);
  }

  method FromYcTags(tags: seq<Tag>) returns (labels: Labels)
    ensures labels == FromTags(tags)
  {
    labels := map[];
    for i := 0 to |tags|
      invariant labels == FromTags(tags[..i])
    {
      assert tags[..i + 1][..i] == tags[..i];
      labels := labels[tags[i].key := tags[i].value];
    }
    assert tags[..|tags|] == tags;
  }

  /** The tags come in the order of their keys, whatever order the map is walked in. */
  method ToYcTags(labels: Labels) returns (tags: seq<Tag>)
    ensures tags == ToTags(labels)
  {
    var keys: seq<string>, rest := [], labels.Keys;
    while rest != {}
      invariant rest <= labels.Keys && Sorted(keys)
      invariant forall k :: k in keys <==> k in labels && k !in rest
    {
      var k :| k in rest;
      InsertSorts(keys, k);
      keys := Insert(keys, k);
      rest := rest - {k};
    }
    tags := [];
    for i := 0 to |keys|
      invariant tags == TagsOf(keys[..i], labels)
    {
      assert keys[..i + 1] == keys[..i] + [keys[i]];
      TagsOfSnoc(keys[..i], keys[i], labels);
      tags := tags + [Tag(keys[i], labels[keys[i]])];
    }
    assert keys[..|keys|] == keys;
    assert AreTagsOf(tags, labels);
    TagsAreUnique(tags, ToTags(labels), labels);
  }

  class BucketApi {
    var bucket: Option<YcBucket>
    var writes: nat
    const name: string
    const newId: string      // the identifier the cloud assigns on creation
    const region: string

    constructor (name: string, newId: string, region: string, bucket: Option<YcBucket>)
      ensures this.name == name && this.newId == newId && this.region == region && this.bucket == bucket && writes == 0
    {
      this.name, this.newId, this.region, this.bucket, writes := name, newId, region, bucket, 0;
    }

    method GetBucket() returns (attrs: Option<Attrs>)
      requires bucket.Some?
      ensures attrs == YcEnsure.Read(bucket.value, region)
    {
      var b := bucket.value;
      var storage := FromStorageClass(b.storageClass);
      if storage.None? {
        return None;
      }
      var lifecycle := FromYcLifecycle(b.lifecycle);
      var labels := FromYcTags(b.tags);
      attrs := Some(Attrs(b.name, b.resourceId, region,
        Properties(None, FromVersioning(b.versioning), lifecycle, storage.value, labels, None)));
    }

    method CreateBucket(spec: Spec) returns (result: Ensured)
      requires bucket.None?
      modifies this
      ensures (bucket, result) == YcEnsure.Create(name, newId, region, spec)
      ensures writes == old(writes) + if result.Ensured? then 1 else 0
    {
      var p := spec.properties;
      var storage := ToStorageClass(p.storageClass);
      if storage.None? {
        return Failed;
      }
      var tags := ToYcTags(p.labels);
      var rules := ToYcLifecycle(p.lifecycle);
      bucket := Some(YcBucket(name, newId, storage.value, ToVersioning(p.versioning), rules, tags));
      writes := writes + 1;
      StorageClassRoundTrip(p.storageClass);
      var attrs := GetBucket();
      result := Ensured(attrs.value, true);
    }

    method UpdateBucket(patch: Patch) returns (result: Ensured)
      requires bucket.Some?
      modifies this
      ensures bucket.Some? && (bucket.value, result) == YcEnsure.UpdateBucket(old(bucket.value), region, patch)
      ensures result.Ensured? ==> writes == old(writes) + 1
    {
      var update := YcUpdate(Keep, Keep, Keep, Keep);
      if patch.storageClass.Set? {
        var storage := ToStorageClass(patch.storageClass.value);
        if storage.None? {
          return Failed;
        }
        update := update.(storageClass := Set(storage.value));
      }
      if patch.labels.Set? {
        var tags := ToYcTags(patch.labels.value);
        update := update.(tags := Set(tags));
      }
      if patch.versioning.Set? {
        var versioning := ToVersioning(patch.versioning.value);
        if versioning == Disabled {
          versioning := Suspended;
        }
        update := update.(versioning := Set(versioning));
      }
      if patch.lifecycle.Set? {
        var rules := ToYcLifecycle(patch.lifecycle.value);
        update := update.(lifecycle := Set(rules));
      }
      assert YcEnsure.ToUpdate(patch) == Some(update);
      bucket := Some(YcEnsure.ApplyUpdate(bucket.value, update));
      writes := writes + 1;
      var attrs := GetBucket();
      result := if attrs.None? then Failed else Ensured(attrs.value, true);
    }

    /** Writes exactly when it says so, and leaves what the specification says. */
    method EnsureBucket(spec: Spec) returns (result: Ensured)
      modifies this
      ensures (bucket, result) == YcEnsure.Ensure(old(bucket), name, newId, region, spec)
      ensures result.Ensured? ==> writes == old(writes) + if result.wrote then 1 else 0
    {
      if bucket.None? {
        result := CreateBucket(spec);
        return;
      }
      var attrs := GetBucket();
      if attrs.None? || attrs.value.location != spec.location {
        return Failed;
      }
      var actual, desired, patch := attrs.value.properties, spec.properties, NoChange;
      if actual.labels != desired.labels {
        patch := patch.(labels := Set(desired.labels));
      }
      if actual.storageClass != desired.storageClass {
        patch := patch.(storageClass := Set(desired.storageClass));
      }
      if actual.versioning != desired.versioning {
        patch := patch.(versioning := Set(desired.versioning));
      }
      if actual.lifecycle != desired.lifecycle {
        patch := patch.(lifecycle := Set(desired.lifecycle));
      }
      assert patch == YcEnsure.PatchFor(actual, desired);
      if patch.HasChanges() {
        result := UpdateBucket(patch);
        return;
      }
      result := Ensured(Attrs(name, bucket.value.resourceId, spec.location,
        Properties(None, desired.versioning, desired.lifecycle, desired.storageClass, desired.labels, None)), false);
    }
  }
}

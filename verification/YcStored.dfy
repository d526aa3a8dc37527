/** What a Bucket's spec comes to in Yandex Cloud, field by field: what is stored, what is reported, and when
    an ensure call fails or writes. */
module YcStored {
  import opened Common
  import opened Buckets
  import opened YcCodec
  import opened YcEnsure

  function Rules(p: Properties): seq<Rule> {
    if p.lifecycle.Some? then p.lifecycle.value else []
  }

  /** The rules Yandex Cloud can express. */
  function Kept(rules: seq<Rule>): seq<Rule> {
    if rules == [] then []
    else (if rules[0].ageDays.Some? && rules[0].action.DeleteAction? then [rules[0]] else []) + Kept(rules[1..])
  }

  predicate StoredAs(stored: Option<YcRule>, r: Rule) {
    stored == Some(YcRule(r.name, r.enabled, Some(r.ageDays)))
  }

  lemma {:induction false} RulesAreStored(rules: seq<Rule>)
    ensures |ToRules(rules)| == |Kept(rules)|
    ensures forall i :: 0 <= i < |Kept(rules)| ==> StoredAs(ToRules(rules)[i], Kept(rules)[i])
  {
    if rules != [] {
      RulesAreStored(rules[1..]);
      if KeepsRule(rules[0]) {
        assert Kept(rules)[1..] == Kept(rules[1..]) && ToRules(rules)[1..] == ToRules(rules[1..]);
        assert forall i :: 0 < i < |Kept(rules)| ==> Kept(rules)[i] == Kept(rules[1..])[i - 1];
      } else {
        assert Kept(rules) == Kept(rules[1..]) && ToRules(rules) == ToRules(rules[1..]);
      }
    }
  }

  lemma {:induction false} KeptReadsBack(rules: seq<Rule>)
    ensures FromRules(ToRules(rules)) == Kept(rules)
  {
    if rules != [] {
      KeptReadsBack(rules[1..]);
      if KeepsRule(rules[0]) {
        assert ToRules(rules)[1..] == ToRules(rules[1..]);
      } else {
        assert ToRules(rules) == ToRules(rules[1..]);
      }
    }
  }

  lemma {:induction false} ReadIsKept(stored: seq<Option<YcRule>>)
    ensures Kept(FromRules(stored)) == FromRules(stored)
  {
    if stored != [] {
      ReadIsKept(stored[1..]);
      if ReadsRule(stored[0]) {
        assert FromRules(stored)[1..] == FromRules(stored[1..]);
      } else {
        assert FromRules(stored) == FromRules(stored[1..]);
      }
    }
  }

  predicate ClassFits(stored: string, c: StorageClass) {
    match c
    case Standard => stored == "STANDARD"
    case Cold => stored in {"COLD", "NEARLINE", "STANDARD_IA"}
    case Ice => stored in {"ICE", "GLACIER"}
    case Warm => false
  }

  function StoredClass(c: StorageClass): string {
    match c
    case Standard => "STANDARD"
    case Cold => "COLD"
    case Ice => "ICE"
    case Warm => ""
  }

  /** A bucket keeps its name and identifier, and holds one of the names of the storage class, the labels, and
      the rules that Yandex Cloud can express. What fitted before stays as it was. */
  lemma StoresTheSpec(cloud: Option<YcBucket>, name: string, id: string, region: string, spec: Spec)
    requires Ensure(cloud, name, id, region, spec).1.Ensured?
    ensures var b := Ensure(cloud, name, id, region, spec).0.value; var p := spec.properties;
      && (if cloud.Some? then b.name == cloud.value.name && b.resourceId == cloud.value.resourceId
          else b.name == name && b.resourceId == id)
      && ClassFits(b.storageClass, p.storageClass)
      && (if cloud.Some? && ClassFits(cloud.value.storageClass, p.storageClass)
          then b.storageClass == cloud.value.storageClass else b.storageClass == StoredClass(p.storageClass))
      && FromTags(b.tags) == p.labels
      && (cloud.None? || FromTags(cloud.value.tags) != p.labels ==> AreTagsOf(b.tags, p.labels))
      && FromRules(b.lifecycle) == Kept(Rules(p))
  {
    var p := spec.properties;
    EnsureReaches(cloud, name, id, region, spec);
    KeptReadsBack(Rules(p));
    ReadIsKept(Ensure(cloud, name, id, region, spec).0.value.lifecycle);
    if cloud.Some? {
      var b := cloud.value;
      assert FromStorageClass(b.storageClass) == Some(p.storageClass) <==> ClassFits(b.storageClass, p.storageClass);
    }
  }

  /** Versioning follows the spec where it says something. Where it does not, a new bucket has none, an old one
      keeps what was never set, and anything else is suspended. */
  lemma StoresVersioning(cloud: Option<YcBucket>, name: string, id: string, region: string, spec: Spec)
    requires Ensure(cloud, name, id, region, spec).1.Ensured?
    ensures var stored := Ensure(cloud, name, id, region, spec).0.value.versioning;
      match spec.properties.versioning
      case Some(on) => stored == if on then Enabled else Suspended
      case None =>
        if cloud.None? then stored == Disabled
        else if cloud.value.versioning == Unspecified || cloud.value.versioning == Disabled
        then stored == cloud.value.versioning
        else stored == Suspended
  {
    var v := spec.properties.versioning;
    if v.Some? && v.value {
    }
  }

  /** What a success reports is the identifier of the bucket it leaves behind, the provider's region, and the
      spec as Yandex Cloud keeps it: exactly the spec's lifecycle iff that can be expressed, and versioning as
      it is stored where the spec does not say. */
  lemma ReportsTheSpec(cloud: Option<YcBucket>, name: string, id: string, region: string, spec: Spec)
    requires Ensure(cloud, name, id, region, spec).1.Ensured?
    requires cloud.Some? ==> cloud.value.name == name
    ensures var (b, result) := Ensure(cloud, name, id, region, spec);
      var attrs, p := result.attrs, spec.properties;
      && attrs.id == b.value.resourceId && attrs.name == name && attrs.location == region
      && attrs.properties.storageClass == p.storageClass && attrs.properties.labels == p.labels
      && attrs.properties.versioning == (if p.versioning.Some? then p.versioning
                                         else if b.value.versioning == Suspended then Some(false) else None)
      && (attrs.properties.lifecycle == p.lifecycle <==> LifecycleExpressible(p.lifecycle))
      && attrs.properties.publicAccessPrevention.None? && attrs.properties.cloudSpecific.None?
  {
    EnsureReaches(cloud, name, id, region, spec);
    LifecycleRoundTrip(spec.properties.lifecycle);
    if cloud.Some? {
      DecodedIsExpressible(cloud.value.lifecycle);
    }
  }

  predicate Readable(b: YcBucket) {
    b.storageClass in {"STANDARD", "NEARLINE", "COLD", "STANDARD_IA", "ICE", "GLACIER"}
  }

  /** A call fails iff the spec asks for the warm class, which Yandex Cloud does not have, or the bucket cannot
      be read or the provider works in another region; a failure changes nothing. */
  lemma FailsExactly(cloud: Option<YcBucket>, name: string, id: string, region: string, spec: Spec)
    ensures Ensure(cloud, name, id, region, spec).1.Failed? <==>
      spec.properties.storageClass == Warm
      || (cloud.Some? && (!Readable(cloud.value) || region != spec.location))
    ensures Ensure(cloud, name, id, region, spec).1.Failed? ==> Ensure(cloud, name, id, region, spec).0 == cloud
  {
    if spec.properties.storageClass != Warm {
      StorageClassRoundTrip(spec.properties.storageClass);
    }
  }

  /** A call writes iff the bucket is missing or does not read as the spec, and otherwise leaves it. */
  lemma WritesExactly(cloud: Option<YcBucket>, name: string, id: string, region: string, spec: Spec)
    requires Ensure(cloud, name, id, region, spec).1.Ensured?
    ensures var (after, result) := Ensure(cloud, name, id, region, spec);
      && (result.wrote <==> cloud.None? || Read(cloud.value, region).value.properties
                                           != spec.properties.(publicAccessPrevention := None, cloudSpecific := None))
      && (!result.wrote ==> after == cloud)
  {
  }
}

/** What a Bucket's spec comes to in GCS, field by field: what is stored, what is reported, and when an
    ensure call fails or writes. */
module GcsStored {
  import opened Common
  import opened Buckets
  import opened GcsCodec
  import opened GcsEnsure

  const A_WEEK := 604800   // seconds

  /** The retention a spec asks for. */
  function Retention(p: Properties): int {
    match p.cloudSpecific
    case Some(CloudSpecific(Some(GcpConfig(Some(seconds))), _)) => seconds
    case _ => A_WEEK
  }

  function StoredRetention(b: GcsBucket): int {
    if b.softDelete.Some? then b.softDelete.value else A_WEEK
  }

  function StoredClass(c: StorageClass): string {
    match c
    case Standard => "STANDARD"
    case Warm => "NEARLINE"
    case Cold => "COLDLINE"
    case Ice => "ARCHIVE"
  }

  /** The ages after which a spec asks for deletion. */
  function Ages(rules: seq<Rule>): seq<int> {
    if rules == [] then []
    else
      var aged := rules[0].enabled && rules[0].ageDays.Some? && rules[0].ageDays.value > 0;
      (if aged then [rules[0].ageDays.value] else []) + Ages(rules[1..])
  }

  /** The ages at which GCS deletes. */
  function StoredAges(rules: seq<GcsRule>): seq<int> {
    if rules == [] then []
    else
      (if rules[0].ageInDays > 0 && rules[0].action == "Delete" then [rules[0].ageInDays] else [])
      + StoredAges(rules[1..])
  }

  lemma {:induction false} ReadingKeepsAges(rules: seq<GcsRule>)
    ensures Ages(FromRules(rules)) == StoredAges(rules)
  {
    if rules != [] {
      ReadingKeepsAges(rules[1..]);
      var rest := FromRules(rules[1..]);
      if rules[0].ageInDays > 0 && rules[0].action == "Delete" {
        assert FromRules(rules)[1..] == rest;
      } else {
        assert FromRules(rules) == rest;
      }
    }
  }

  lemma {:induction false} NormalizingKeepsAges(rules: seq<Rule>)
    ensures Ages(EnabledRules(rules)) == Ages(rules)
  {
    if rules != [] {
      NormalizingKeepsAges(rules[1..]);
      if rules[0].enabled {
        assert EnabledRules(rules)[1..] == EnabledRules(rules[1..]);
      } else {
        assert EnabledRules(rules) == EnabledRules(rules[1..]);
      }
    }
  }

  lemma {:induction false} WritingKeepsAges(rules: seq<Rule>)
    requires ToRules(rules).Some?
    ensures StoredAges(ToRules(rules).value) == Ages(rules)
  {
    if rules != [] {
      WritingKeepsAges(rules[1..]);
      var encoded, rest := ToRules(rules).value, ToRules(rules[1..]).value;
      if rules[0].enabled && rules[0].ageDays.Some? && rules[0].ageDays.value > 0 {
        assert encoded[1..] == rest;
      } else {
        assert encoded == rest;
      }
    }
  }

  function Rules(p: Properties): seq<Rule> {
    if p.lifecycle.Some? then p.lifecycle.value else []
  }

  lemma HeldAges(b: GcsBucket, p: Properties)
    requires Holds(b, Normal(p))
    ensures StoredAges(b.lifecycle) == Ages(Rules(p))
  {
    var wanted := Normal(p).lifecycle.value;
    ReadingKeepsAges(b.lifecycle);
    NormalizingKeepsAges(Rules(p));
    WritingKeepsAges(wanted);
  }

  /** After a success GCS stores the spec: versioning iff it is asked for, public access prevention enforced
      iff it is asked for, the storage class by GCS's own name, the labels, the retention asked for or a
      week, and a deletion at each positive age of an enabled rule, in order. */
  lemma StoresTheSpec(cloud: Option<GcsBucket>, name: string, spec: Spec)
    requires Ensure(cloud, name, spec).1.Ensured?
    ensures var b := Ensure(cloud, name, spec).0.value; var p := spec.properties;
      && b.name == (if cloud.Some? then cloud.value.name else name) && b.location == Upper(spec.location)
      && (b.versioning <==> p.versioning == Some(true))
      && b.publicAccess == (if p.publicAccessPrevention == Some(true) then Enforced else Inherited)
      && b.storageClass == StoredClass(p.storageClass)
      && b.labels == p.labels
      && StoredRetention(b) == Retention(p)
      && StoredAges(b.lifecycle) == Ages(Rules(p))
  {
    EnsureReaches(cloud, name, spec);
    HeldAges(Ensure(cloud, name, spec).0.value, spec.properties);
    FlagIsTrueOrFalse(Ensure(cloud, name, spec).0.value.versioning);
  }

  /** And it reports the spec, with absent settings as those GCS keeps instead. */
  lemma ReportsTheSpec(cloud: Option<GcsBucket>, name: string, spec: Spec)
    requires Ensure(cloud, name, spec).1.Ensured?
    requires cloud.Some? ==> cloud.value.name == name
    ensures Ensure(cloud, name, spec).1.attrs.location == if cloud.None? then spec.location else Upper(spec.location)
    ensures var reported, p := Ensure(cloud, name, spec).1.attrs.properties, spec.properties;
      && reported.versioning == Some(p.versioning == Some(true))
      && reported.publicAccessPrevention == Some(p.publicAccessPrevention == Some(true))
      && reported.storageClass == p.storageClass && reported.labels == p.labels
      && reported.lifecycle.Some? && Ages(reported.lifecycle.value) == Ages(Rules(p))
      && (reported.cloudSpecific.Some? ==> Retention(reported) == Retention(p))
  {
    ReportsTheDesiredState(cloud, name, spec);
    NormalizingKeepsAges(Rules(spec.properties));
    var b := Ensure(cloud, name, spec).0.value;
    EnsureReaches(cloud, name, spec);
    HeldAges(b, spec.properties);
    ReadingKeepsAges(b.lifecycle);
    if spec.properties.versioning.Some? {
      FlagIsTrueOrFalse(spec.properties.versioning.value);
    }
    if spec.properties.publicAccessPrevention.Some? {
      FlagIsTrueOrFalse(spec.properties.publicAccessPrevention.value);
    }
  }

  // ----- failures and writes -----

  /** An enabled rule asks for something else than a deletion. */
  predicate AsksForMore(rules: seq<Rule>) {
    exists i :: 0 <= i < |rules| && rules[i].enabled && rules[i].action != DeleteAction
  }

  predicate Readable(b: GcsBucket) {
    !b.publicAccess.OtherAccess?
    && b.storageClass in {"STANDARD", "NEARLINE", "COLDLINE", "ARCHIVE"}
  }

  lemma {:induction false} EncodesExactly(rules: seq<Rule>)
    ensures ToRules(EnabledRules(rules)).None? <==> AsksForMore(rules)
  {
    if rules != [] {
      var rest := rules[1..];
      EncodesExactly(rest);
      assert forall i :: 0 <= i < |rest| ==> rest[i] == rules[i + 1];
      assert AsksForMore(rules) <==> (rules[0].enabled && rules[0].action != DeleteAction) || AsksForMore(rest) by {
        if i :| 0 < i < |rules| && rules[i].enabled && rules[i].action != DeleteAction {
          assert rest[i - 1] == rules[i];
        }
      }
      if rules[0].enabled {
        assert EnabledRules(rules)[1..] == EnabledRules(rest);
      } else {
        assert EnabledRules(rules) == EnabledRules(rest);
      }
    }
  }

  lemma ReadsExactly(b: GcsBucket)
    ensures FromBucket(b).Some? <==> Readable(b)
  {
  }

  /** An update of a bucket that can be read fails iff the new lifecycle cannot be encoded. */
  lemma UpdateFailsExactly(b: GcsBucket, patch: Patch)
    requires FromBucket(b).Some?
    requires patch.publicAccessPrevention.Set? ==> patch.publicAccessPrevention.value.Some?
    ensures var (b', result) := UpdateBucket(b, patch);
      && (result.Failed? <==> patch.lifecycle.Set? && ToLifecycle(patch.lifecycle.value).None?)
      && (result.Failed? ==> b' == b)
  {
  }

  /** A call fails iff the bucket cannot be read, is somewhere else, or an enabled rule asks for more than a
      deletion; a failure changes nothing. */
  lemma FailsExactly(cloud: Option<GcsBucket>, name: string, spec: Spec)
    ensures Ensure(cloud, name, spec).1.Failed? <==>
      AsksForMore(Rules(spec.properties))
      || (cloud.Some? && (!Readable(cloud.value) || cloud.value.location != Upper(spec.location)))
    ensures Ensure(cloud, name, spec).1.Failed? ==> Ensure(cloud, name, spec).0 == cloud
  {
    EncodesExactly(Rules(spec.properties));
    if cloud.Some? {
      ReadsExactly(cloud.value);
      DecodedRulesEncode(cloud.value.lifecycle);
      if Readable(cloud.value) {
        var actual := FromBucket(cloud.value).value.properties;
        UpdateFailsExactly(cloud.value, PatchFor(actual, Normal(spec.properties)));
      }
    }
  }

  /** A call writes iff the bucket is missing or does not read as the spec asks, and otherwise leaves it. */
  lemma WritesExactly(cloud: Option<GcsBucket>, name: string, spec: Spec)
    requires Ensure(cloud, name, spec).1.Ensured?
    ensures var (after, result) := Ensure(cloud, name, spec);
      && (result.wrote <==> cloud.None? || FromBucket(cloud.value).value.properties != Normal(spec.properties))
      && (!result.wrote ==> after == cloud)
  {
  }

  /** Locations are stored in upper case. */
  lemma UpperExactly(s: string, i: nat)
    requires i < |s|
    ensures |Upper(s)| == |s| && !('a' <= Upper(s)[i] <= 'z')
    ensures Upper(s)[i] == s[i] || ('a' <= s[i] <= 'z' && s[i] as int - Upper(s)[i] as int == 32)
  {
  }
}

/** Yandex Object Storage's own form of a bucket, and the way there and back. */
module YcCodec {
  import opened Common
  import opened Buckets

  datatype YcVersioning = Unspecified | Disabled | Enabled | Suspended

  /** `expiration` is absent, or present with or without a number of days. */
  datatype YcRule = YcRule(id: Option<string>, enabled: bool, expiration: Option<Option<int>>)

  datatype Tag = Tag(key: string, value: string)

  datatype YcBucket = YcBucket(
    name: string,
    resourceId: string,
    storageClass: string,
    versioning: YcVersioning,
    lifecycle: seq<Option<YcRule>>,     // the API may deliver nil entries
    tags: seq<Tag>)

  /** The request with its field mask. */
  datatype YcUpdate = YcUpdate(
    storageClass: Change<string>,
    tags: Change<seq<Tag>>,
    versioning: Change<YcVersioning>,
    lifecycle: Change<seq<Option<YcRule>>>)

  // ----- scalars -----

  function FromVersioning(v: YcVersioning): Option<bool> {
    match v
    case Enabled => Some(true)
    case Suspended => Some(false)
    case Unspecified => None
    case Disabled => None
  }

  function ToVersioning(v: Option<bool>): YcVersioning {
    match v
    case None => Disabled
    case Some(on) => if on then Enabled else Suspended
  }

  /** Versioning cannot be switched back to disabled, only suspended. */
  function ToVersioningUpdate(v: Option<bool>): YcVersioning {
    if ToVersioning(v) == Disabled then Suspended else ToVersioning(v)
  }

  function FromStorageClass(c: string): Option<StorageClass> {
    if c == "STANDARD" then Some(Standard)
    else if c == "NEARLINE" || c == "COLD" || c == "STANDARD_IA" then Some(Cold)
    else if c == "ICE" || c == "GLACIER" then Some(Ice)
    else None
  }

  function ToStorageClass(c: StorageClass): Option<string> {
    match c
    case Standard => Some("STANDARD")
    case Cold => Some("COLD")
    case Ice => Some("ICE")
    case Warm => None
  }

  lemma StorageClassRoundTrip(c: StorageClass)
    requires ToStorageClass(c).Some?
    ensures FromStorageClass(ToStorageClass(c).value) == Some(c)
  {
  }

  lemma VersioningRoundTrip(v: Option<bool>)
    ensures FromVersioning(ToVersioning(v)) == v
    ensures FromVersioning(ToVersioningUpdate(v)) == if v.None? then Some(false) else v
  {
    if v.Some? && v.value {
    } else {
    }
  }

  // ----- lifecycle -----

  function KeepsRule(r: Rule): bool {
    r.ageDays.Some? && r.action == DeleteAction
  }

  function ToRules(rules: seq<Rule>): seq<Option<YcRule>> {
    if rules == [] then []
    else
      (if KeepsRule(rules[0]) then [Some(YcRule(rules[0].name, rules[0].enabled, Some(rules[0].ageDays)))] else [])
      + ToRules(rules[1..])
  }

  function ToLifecycle(v: Option<seq<Rule>>): seq<Option<YcRule>> {
    if v.None? then [] else ToRules(v.value)
  }

  function ReadsRule(r: Option<YcRule>): bool {
    r.Some? && r.value.expiration.Some? && r.value.expiration.value.Some?
  }

  function FromRules(rules: seq<Option<YcRule>>): seq<Rule> {
    if rules == [] then []
    else
      (if ReadsRule(rules[0])
       then [Rule(rules[0].value.id, rules[0].value.enabled, rules[0].value.expiration.value, DeleteAction)] else [])
      + FromRules(rules[1..])
  }

  /** No readable rule reads as no lifecycle at all. */
  function FromLifecycle(rules: seq<Option<YcRule>>): Option<seq<Rule>> {
    if FromRules(rules) == [] then None else Some(FromRules(rules))
  }

  /** Absent, or not empty and made of rules that Yandex Cloud can express. */
  predicate LifecycleExpressible(v: Option<seq<Rule>>) {
    v.Some? ==> v.value != [] && forall i :: 0 <= i < |v.value| ==> KeepsRule(v.value[i])
  }

  lemma {:induction false} RulesRoundTrip(rules: seq<Rule>)
    ensures |FromRules(ToRules(rules))| <= |rules|
    ensures (forall i :: 0 <= i < |rules| ==> KeepsRule(rules[i])) ==> FromRules(ToRules(rules)) == rules
    ensures (exists i :: 0 <= i < |rules| && !KeepsRule(rules[i])) ==> |FromRules(ToRules(rules))| < |rules|
  {
    if rules != [] {
      var rest := rules[1..];
      RulesRoundTrip(rest);
      if KeepsRule(rules[0]) {
        assert ToRules(rules)[1..] == ToRules(rest);
        assert rules == [rules[0]] + rest;
      } else {
        assert ToRules(rules) == ToRules(rest);
      }
      if i :| 0 <= i < |rules| && !KeepsRule(rules[i]) {
        if i > 0 {
          assert rest[i - 1] == rules[i];
        }
      }
    }
  }

  /** A lifecycle survives the round trip iff Yandex Cloud can express it. */
  lemma LifecycleRoundTrip(v: Option<seq<Rule>>)
    ensures FromLifecycle(ToLifecycle(v)) == v <==> LifecycleExpressible(v)
  {
    if v.Some? {
      RulesRoundTrip(v.value);
    }
  }

  lemma {:induction false} DecodedRulesAreKept(rules: seq<Option<YcRule>>)
    ensures forall i :: 0 <= i < |FromRules(rules)| ==> KeepsRule(FromRules(rules)[i])
  {
    if rules != [] {
      DecodedRulesAreKept(rules[1..]);
    }
  }

  /** Whatever Yandex Cloud holds reads as an expressible lifecycle. */
  lemma DecodedIsExpressible(rules: seq<Option<YcRule>>)
    ensures LifecycleExpressible(FromLifecycle(rules))
  {
    DecodedRulesAreKept(rules);
  }

  // ----- tags -----

  predicate StringLeq(a: string, b: string) {
    a == [] || (b != [] && (a[0] < b[0] || (a[0] == b[0] && StringLeq(a[1..], b[1..]))))
  }

  lemma {:induction false} StringOrder(a: string, b: string)
    ensures StringLeq(a, b) || StringLeq(b, a)
    ensures StringLeq(a, b) && StringLeq(b, a) ==> a == b
  {
    if a != [] && b != [] && a[0] == b[0] {
      StringOrder(a[1..], b[1..]);
      assert a == [a[0]] + a[1..] && b == [b[0]] + b[1..];
    }
  }

  lemma {:induction false} StringLeqTransitive(a: string, b: string, c: string)
    requires StringLeq(a, b) && StringLeq(b, c)
    ensures StringLeq(a, c)
  {
    if a != [] && a[0] == b[0] && b[0] == c[0] {
      StringLeqTransitive(a[1..], b[1..], c[1..]);
    }
  }

  ghost predicate Sorted(keys: seq<string>) {
    forall i, j :: 0 <= i < j < |keys| ==> StringLeq(keys[i], keys[j]) && keys[i] != keys[j]
  }

  /** The one sorted enumeration of a set of keys. */
  lemma {:induction false} SortedIsUnique(a: seq<string>, b: seq<string>)
    requires Sorted(a) && Sorted(b) && (forall k :: k in a <==> k in b)
    ensures a == b
  {
    assert (a != [] ==> a[0] in b) && (b != [] ==> b[0] in a);
    if a != [] {
      var i :| 0 <= i < |b| && b[i] == a[0];
      var j :| 0 <= j < |a| && a[j] == b[0];
      StringOrder(a[0], b[0]);
      assert a[0] == b[0];
      forall k ensures k in a[1..] <==> k in b[1..] {
        assert k in a[1..] <==> k in a && k != a[0] by { SplitHead(a, k); }
        assert k in b[1..] <==> k in b && k != b[0] by { SplitHead(b, k); }
      }
      SortedIsUnique(a[1..], b[1..]);
      assert a == [a[0]] + a[1..] && b == [b[0]] + b[1..];
    }
  }

  lemma SplitHead(a: seq<string>, k: string)
    requires a != [] && Sorted(a)
    ensures k in a[1..] <==> k in a && k != a[0]
  {
    assert forall i :: 0 <= i < |a[1..]| ==> a[1..][i] == a[i + 1];
    if k in a && k != a[0] {
      var i :| 0 <= i < |a| && a[i] == k;
      assert a[1..][i - 1] == k;
    }
  }

  function TagsOf(keys: seq<string>, labels: Labels): seq<Tag>
    requires forall k :: k in keys ==> k in labels
  {
    if keys == [] then [] else [Tag(keys[0], labels[keys[0]])] + TagsOf(keys[1..], labels)
  }

  /** The tags of `labels`, in the order of their keys. */
  ghost predicate AreTagsOf(tags: seq<Tag>, labels: Labels) {
    exists keys: seq<string> :: Sorted(keys) && (forall k :: k in keys <==> k in labels) && tags == TagsOf(keys, labels)
  }

  function FromTags(tags: seq<Tag>): Labels {
    if tags == [] then map[] else FromTags(tags[..|tags| - 1])[tags[|tags| - 1].key := tags[|tags| - 1].value]
  }

  lemma TagsAreUnique(a: seq<Tag>, b: seq<Tag>, labels: Labels)
    requires AreTagsOf(a, labels) && AreTagsOf(b, labels)
    ensures a == b
  {
    var k1 :| Sorted(k1) && (forall k :: k in k1 <==> k in labels) && a == TagsOf(k1, labels);
    var k2 :| Sorted(k2) && (forall k :: k in k2 <==> k in labels) && b == TagsOf(k2, labels);
    SortedIsUnique(k1, k2);
  }

  lemma {:induction false} TagsOfSnoc(keys: seq<string>, k: string, labels: Labels)
    requires (forall j :: j in keys ==> j in labels) && k in labels
    ensures TagsOf(keys + [k], labels) == TagsOf(keys, labels) + [Tag(k, labels[k])]
  {
    if keys == [] {
      assert [] + [k] == [k];
    } else {
      assert (keys + [k])[1..] == keys[1..] + [k];
      TagsOfSnoc(keys[1..], k, labels);
    }
  }

  /** Reading back the tags of any keys gives the labels restricted to them. */
  lemma {:induction false} TagsRoundTrip(keys: seq<string>, labels: Labels)
    requires forall k :: k in keys ==> k in labels
    ensures FromTags(TagsOf(keys, labels)) == map k | k in keys :: labels[k]
  {
    if keys != [] {
      var init, last := keys[..|keys| - 1], keys[|keys| - 1];
      assert keys == init + [last];
      TagsRoundTrip(init, labels);
      TagsOfSnoc(init, last, labels);
      var tags := TagsOf(keys, labels);
      assert tags[..|tags| - 1] == TagsOf(init, labels);
    }
  }

  lemma TagsReadBack(tags: seq<Tag>, labels: Labels)
    requires AreTagsOf(tags, labels)
    ensures FromTags(tags) == labels
  {
    var keys :| Sorted(keys) && (forall k :: k in keys <==> k in labels) && tags == TagsOf(keys, labels);
    TagsRoundTrip(keys, labels);
  }

  /** Insertion into a sorted enumeration. */
  function Insert(keys: seq<string>, k: string): seq<string> {
    if keys == [] then [k]
    else if StringLeq(k, keys[0]) then [k] + keys
    else [keys[0]] + Insert(keys[1..], k)
  }

  lemma {:induction false} InsertHas(keys: seq<string>, k: string, j: string)
    ensures j in Insert(keys, k) <==> j in keys || j == k
  {
    if keys != [] && !StringLeq(k, keys[0]) {
      InsertHas(keys[1..], k, j);
      assert keys == [keys[0]] + keys[1..];
    }
  }

  lemma SortedCons(k: string, keys: seq<string>)
    requires Sorted(keys) && forall j :: j in keys ==> StringLeq(k, j) && k != j
    ensures Sorted([k] + keys)
  {
    var all := [k] + keys;
    forall i, j | 0 <= i < j < |all| ensures StringLeq(all[i], all[j]) && all[i] != all[j] {
      assert all[j] == keys[j - 1] && keys[j - 1] in keys;
      if i > 0 {
        assert all[i] == keys[i - 1];
      }
    }
  }

  lemma SortedHead(keys: seq<string>, j: string)
    requires Sorted(keys) && keys != [] && j in keys[1..]
    ensures StringLeq(keys[0], j) && keys[0] != j
  {
    var i :| 0 <= i < |keys[1..]| && keys[1..][i] == j;
    assert keys[i + 1] == j;
  }

  lemma SortedTail(keys: seq<string>)
    requires Sorted(keys) && keys != []
    ensures Sorted(keys[1..])
  {
    assert forall i :: 0 <= i < |keys[1..]| ==> keys[1..][i] == keys[i + 1];
  }

  lemma {:induction false} InsertSorts(keys: seq<string>, k: string)
    requires Sorted(keys) && k !in keys
    ensures Sorted(Insert(keys, k))
    ensures forall j :: j in Insert(keys, k) <==> j in keys || j == k
  {
    forall j ensures j in Insert(keys, k) <==> j in keys || j == k {
      InsertHas(keys, k, j);
    }
    if keys != [] {
      var first, rest := keys[0], keys[1..];
      assert keys == [first] + rest;
      StringOrder(k, first);
      if StringLeq(k, first) {
        forall j | j in keys ensures StringLeq(k, j) && k != j {
          if j in rest {
            SortedHead(keys, j);
            StringLeqTransitive(k, first, j);
          }
        }
        SortedCons(k, keys);
      } else {
        SortedTail(keys);
        InsertSorts(rest, k);
        forall j | j in Insert(rest, k) ensures StringLeq(first, j) && first != j {
          if j in rest {
            SortedHead(keys, j);
          }
        }
        SortedCons(first, Insert(rest, k));
      }
    }
  }

  lemma {:induction false} SortedKeysExist(keys: set<string>) returns (sorted: seq<string>)
    ensures Sorted(sorted) && forall k :: k in sorted <==> k in keys
  {
    if keys == {} {
      sorted := [];
    } else {
      var k :| k in keys;
      sorted := SortedKeysExist(keys - {k});
      InsertSorts(sorted, k);
      sorted := Insert(sorted, k);
    }
  }

  lemma TagsExist(labels: Labels)
    ensures exists tags :: AreTagsOf(tags, labels)
  {
    var keys := SortedKeysExist(labels.Keys);
    assert AreTagsOf(TagsOf(keys, labels), labels);
  }

  ghost function ToTags(labels: Labels): (tags: seq<Tag>)
    ensures AreTagsOf(tags, labels) && FromTags(tags) == labels
  {
    TagsExist(labels);
    var tags :| AreTagsOf(tags, labels);
    TagsReadBack(tags, labels);
    tags
  }
}

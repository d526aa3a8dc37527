/** The watch mappers, which turn a changed object into reconcile requests, and the reference searches
    that hold back a deletion, over one state of the API server. */
module Mappers {
  datatype Name = Name(namespace: string, name: string)

  datatype Bucket = Bucket(key: Name, provider: string)

  datatype Principal = Principal(key: Name, provider: string)

  datatype Access = Access(key: Name, bucket: Name, principal: Name)

  datatype Auth = Auth(key: Name, principal: Name)

  datatype Store = Store(buckets: seq<Bucket>, principals: seq<Principal>, accesses: seq<Access>, auths: seq<Auth>)

  // ----- requests as functions of a list: `key` names an object, `hit` says whether it is asked for -----

  function Hits<T>(items: seq<T>, key: T -> Name, hit: T -> bool): seq<Name> {
    if items == [] then []
    else
      var n := |items| - 1;
      Hits(items[..n], key, hit) + if hit(items[n]) then [key(items[n])] else []
  }

  /** The hits of every middle object that is itself a hit, one after the other. */
  function HitsThrough<M, T>(middles: seq<M>, pass: M -> bool, items: seq<T>, key: T -> Name,
                             hit: M -> T -> bool): seq<Name>
  {
    if middles == [] then []
    else
      var n := |middles| - 1;
      HitsThrough(middles[..n], pass, items, key, hit)
      + if pass(middles[n]) then Hits(items, key, hit(middles[n])) else []
  }

  const BucketKey: Bucket -> Name := (b: Bucket) => b.key
  const PrincipalKey: Principal -> Name := (p: Principal) => p.key
  const AccessKey: Access -> Name := (a: Access) => a.key
  const AuthKey: Auth -> Name := (a: Auth) => a.key

  function BucketUnder(provider: string): Bucket -> bool { (b: Bucket) => b.provider == provider }
  function PrincipalUnder(provider: string): Principal -> bool { (p: Principal) => p.provider == provider }
  function AccessTo(bucket: Name): Access -> bool { (a: Access) => a.bucket == bucket }
  function AccessBy(principal: Name): Access -> bool { (a: Access) => a.principal == principal }
  function AuthOf(principal: Name): Auth -> bool { (a: Auth) => a.principal == principal }

  const AccessToIt: Bucket -> Access -> bool := (b: Bucket) => AccessTo(b.key)
  const AuthOfIt: Principal -> Auth -> bool := (p: Principal) => AuthOf(p.key)

  // ----- who refers to what -----

  /** Access `n` refers to this bucket. */
  predicate UsesBucket(s: Store, bucket: Name, n: Name) {
    exists i :: 0 <= i < |s.accesses| && s.accesses[i].key == n && s.accesses[i].bucket == bucket
  }

  predicate UsesPrincipal(s: Store, principal: Name, n: Name) {
    exists i :: 0 <= i < |s.accesses| && s.accesses[i].key == n && s.accesses[i].principal == principal
  }

  predicate IsOfPrincipal(s: Store, principal: Name, n: Name) {
    exists i :: 0 <= i < |s.auths| && s.auths[i].key == n && s.auths[i].principal == principal
  }

  predicate IsBucketOf(s: Store, provider: string, n: Name) {
    exists i :: 0 <= i < |s.buckets| && s.buckets[i].key == n && s.buckets[i].provider == provider
  }

  predicate IsPrincipalOf(s: Store, provider: string, n: Name) {
    exists i :: 0 <= i < |s.principals| && s.principals[i].key == n && s.principals[i].provider == provider
  }

  /** Access `n` refers to a bucket of this provider. */
  predicate UsesProvider(s: Store, provider: string, n: Name) {
    exists i, m :: 0 <= i < |s.accesses| && 0 <= m < |s.buckets| && s.buckets[m].provider == provider
      && s.accesses[i].bucket == s.buckets[m].key && s.accesses[i].key == n
  }

  predicate AuthUsesProvider(s: Store, provider: string, n: Name) {
    exists i, m :: 0 <= i < |s.auths| && 0 <= m < |s.principals| && s.principals[m].provider == provider
      && s.auths[i].principal == s.principals[m].key && s.auths[i].key == n
  }

  lemma AccessRequests(s: Store, target: Name, n: Name)
    ensures n in Hits(s.accesses, AccessKey, AccessTo(target)) <==> UsesBucket(s, target, n)
    ensures n in Hits(s.accesses, AccessKey, AccessBy(target)) <==> UsesPrincipal(s, target, n)
  {
    HitsExactly(s.accesses, AccessKey, AccessTo(target), n);
    HitsExactly(s.accesses, AccessKey, AccessBy(target), n);
    if UsesBucket(s, target, n) {
      var i :| 0 <= i < |s.accesses| && s.accesses[i].key == n && s.accesses[i].bucket == target;
      assert Asked(s.accesses, i, AccessKey, AccessTo(target), n);
    }
    if UsesPrincipal(s, target, n) {
      var i :| 0 <= i < |s.accesses| && s.accesses[i].key == n && s.accesses[i].principal == target;
      assert Asked(s.accesses, i, AccessKey, AccessBy(target), n);
    }
  }

  lemma AuthRequests(s: Store, principal: Name, n: Name)
    ensures n in Hits(s.auths, AuthKey, AuthOf(principal)) <==> IsOfPrincipal(s, principal, n)
  {
    HitsExactly(s.auths, AuthKey, AuthOf(principal), n);
    if IsOfPrincipal(s, principal, n) {
      var i :| 0 <= i < |s.auths| && s.auths[i].key == n && s.auths[i].principal == principal;
      assert Asked(s.auths, i, AuthKey, AuthOf(principal), n);
    }
  }

  lemma OwnerRequests(s: Store, provider: string, n: Name)
    ensures n in Hits(s.buckets, BucketKey, BucketUnder(provider)) <==> IsBucketOf(s, provider, n)
    ensures n in Hits(s.principals, PrincipalKey, PrincipalUnder(provider)) <==> IsPrincipalOf(s, provider, n)
  {
    HitsExactly(s.buckets, BucketKey, BucketUnder(provider), n);
    HitsExactly(s.principals, PrincipalKey, PrincipalUnder(provider), n);
    if IsBucketOf(s, provider, n) {
      var i :| 0 <= i < |s.buckets| && s.buckets[i].key == n && s.buckets[i].provider == provider;
      assert Asked(s.buckets, i, BucketKey, BucketUnder(provider), n);
    }
    if IsPrincipalOf(s, provider, n) {
      var i :| 0 <= i < |s.principals| && s.principals[i].key == n && s.principals[i].provider == provider;
      assert Asked(s.principals, i, PrincipalKey, PrincipalUnder(provider), n);
    }
  }

  lemma AccessRequestsThrough(s: Store, provider: string, n: Name)
    ensures n in HitsThrough(s.buckets, BucketUnder(provider), s.accesses, AccessKey, AccessToIt)
       <==> UsesProvider(s, provider, n)
  {
    if n in HitsThrough(s.buckets, BucketUnder(provider), s.accesses, AccessKey, AccessToIt) {
      var m, i := HitsThroughSound(s.buckets, BucketUnder(provider), s.accesses, AccessKey, AccessToIt, n);
      assert s.accesses[i].bucket == s.buckets[m].key && s.buckets[m].provider == provider;
    }
    if UsesProvider(s, provider, n) {
      var i, m :| 0 <= i < |s.accesses| && 0 <= m < |s.buckets| && s.buckets[m].provider == provider
        && s.accesses[i].bucket == s.buckets[m].key && s.accesses[i].key == n;
      HitsThroughComplete(s.buckets, m, BucketUnder(provider), s.accesses, i, AccessKey, AccessToIt, n);
    }
  }

  lemma AuthRequestsThrough(s: Store, provider: string, n: Name)
    ensures n in HitsThrough(s.principals, PrincipalUnder(provider), s.auths, AuthKey, AuthOfIt)
       <==> AuthUsesProvider(s, provider, n)
  {
    if n in HitsThrough(s.principals, PrincipalUnder(provider), s.auths, AuthKey, AuthOfIt) {
      var m, i := HitsThroughSound(s.principals, PrincipalUnder(provider), s.auths, AuthKey, AuthOfIt, n);
      assert s.auths[i].principal == s.principals[m].key && s.principals[m].provider == provider;
    }
    if AuthUsesProvider(s, provider, n) {
      var i, m :| 0 <= i < |s.auths| && 0 <= m < |s.principals| && s.principals[m].provider == provider
        && s.auths[i].principal == s.principals[m].key && s.auths[i].key == n;
      HitsThroughComplete(s.principals, m, PrincipalUnder(provider), s.auths, i, AuthKey, AuthOfIt, n);
    }
  }

  // ----- the mappers -----

  method FindBucketAccessOfBucket(s: Store, bucket: Name) returns (requests: seq<Name>)
    ensures requests == Hits(s.accesses, AccessKey, AccessTo(bucket))
    ensures forall n :: n in requests <==> UsesBucket(s, bucket, n)
  {
    requests := [];
    for i := 0 to |s.accesses|
      invariant requests == Hits(s.accesses[..i], AccessKey, AccessTo(bucket))
    {
      assert s.accesses[..i + 1][..i] == s.accesses[..i];
      var to := s.accesses[i].bucket;
      if to.namespace != bucket.namespace || to.name != bucket.name {
        continue;
      }
      requests := requests + [s.accesses[i].key];
    }
    assert s.accesses[..|s.accesses|] == s.accesses;
    forall n ensures n in requests <==> UsesBucket(s, bucket, n) {
      AccessRequests(s, bucket, n);
    }
  }

  method FindBucketAccessOfPrincipal(s: Store, principal: Name) returns (requests: seq<Name>)
    ensures requests == Hits(s.accesses, AccessKey, AccessBy(principal))
    ensures forall n :: n in requests <==> UsesPrincipal(s, principal, n)
  {
    requests := [];
    for i := 0 to |s.accesses|
      invariant requests == Hits(s.accesses[..i], AccessKey, AccessBy(principal))
    {
      assert s.accesses[..i + 1][..i] == s.accesses[..i];
      var grantee := s.accesses[i].principal;
      if grantee.namespace != principal.namespace || grantee.name != principal.name {
        continue;
      }
      requests := requests + [s.accesses[i].key];
    }
    assert s.accesses[..|s.accesses|] == s.accesses;
    forall n ensures n in requests <==> UsesPrincipal(s, principal, n) {
      AccessRequests(s, principal, n);
    }
  }

  /** Through the bucket: an access does not name its provider. */
  method FindBucketAccessOfProviderConfig(s: Store, provider: string) returns (requests: seq<Name>)
    ensures requests == HitsThrough(s.buckets, BucketUnder(provider), s.accesses, AccessKey, AccessToIt)
    ensures forall n :: n in requests <==> UsesProvider(s, provider, n)
  {
    requests := [];
    for i := 0 to |s.buckets|
      invariant requests == HitsThrough(s.buckets[..i], BucketUnder(provider), s.accesses, AccessKey, AccessToIt)
    {
      assert s.buckets[..i + 1][..i] == s.buckets[..i];
      if s.buckets[i].provider != provider {
        continue;
      }
      var more := FindBucketAccessOfBucket(s, s.buckets[i].key);
      requests := requests + more;
    }
    assert s.buckets[..|s.buckets|] == s.buckets;
    forall n ensures n in requests <==> UsesProvider(s, provider, n) {
      AccessRequestsThrough(s, provider, n);
    }
  }

  method FindBucketsOfProviderConfig(s: Store, provider: string) returns (requests: seq<Name>)
    ensures requests == Hits(s.buckets, BucketKey, BucketUnder(provider))
    ensures forall n :: n in requests <==> IsBucketOf(s, provider, n)
  {
    requests := [];
    for i := 0 to |s.buckets|
      invariant requests == Hits(s.buckets[..i], BucketKey, BucketUnder(provider))
    {
      assert s.buckets[..i + 1][..i] == s.buckets[..i];
      if s.buckets[i].provider != provider {
        continue;
      }
      requests := requests + [s.buckets[i].key];
    }
    assert s.buckets[..|s.buckets|] == s.buckets;
    forall n ensures n in requests <==> IsBucketOf(s, provider, n) {
      OwnerRequests(s, provider, n);
    }
  }

  method FindCloudPrincipalsOfProviderConfig(s: Store, provider: string) returns (requests: seq<Name>)
    ensures requests == Hits(s.principals, PrincipalKey, PrincipalUnder(provider))
    ensures forall n :: n in requests <==> IsPrincipalOf(s, provider, n)
  {
    requests := [];
    for i := 0 to |s.principals|
      invariant requests == Hits(s.principals[..i], PrincipalKey, PrincipalUnder(provider))
    {
      assert s.principals[..i + 1][..i] == s.principals[..i];
      if s.principals[i].provider != provider {
        continue;
      }
      requests := requests + [s.principals[i].key];
    }
    assert s.principals[..|s.principals|] == s.principals;
    forall n ensures n in requests <==> IsPrincipalOf(s, provider, n) {
      OwnerRequests(s, provider, n);
    }
  }

  method FindCloudPrincipalAuthsOfCloudPrincipal(s: Store, principal: Name) returns (requests: seq<Name>)
    ensures requests == Hits(s.auths, AuthKey, AuthOf(principal))
    ensures forall n :: n in requests <==> IsOfPrincipal(s, principal, n)
  {
    requests := [];
    for i := 0 to |s.auths|
      invariant requests == Hits(s.auths[..i], AuthKey, AuthOf(principal))
    {
      assert s.auths[..i + 1][..i] == s.auths[..i];
      var of := s.auths[i].principal;
      if of.name != principal.name || of.namespace != principal.namespace {
        continue;
      }
      requests := requests + [s.auths[i].key];
    }
    assert s.auths[..|s.auths|] == s.auths;
    forall n ensures n in requests <==> IsOfPrincipal(s, principal, n) {
      AuthRequests(s, principal, n);
    }
  }

  method FindCloudPrincipalAuthsOfProviderConfig(s: Store, provider: string) returns (requests: seq<Name>)
    ensures requests == HitsThrough(s.principals, PrincipalUnder(provider), s.auths, AuthKey, AuthOfIt)
    ensures forall n :: n in requests <==> AuthUsesProvider(s, provider, n)
  {
    requests := [];
    for i := 0 to |s.principals|
      invariant requests == HitsThrough(s.principals[..i], PrincipalUnder(provider), s.auths, AuthKey, AuthOfIt)
    {
      assert s.principals[..i + 1][..i] == s.principals[..i];
      if s.principals[i].provider != provider {
        continue;
      }
      var more := FindCloudPrincipalAuthsOfCloudPrincipal(s, s.principals[i].key);
      requests := requests + more;
    }
    assert s.principals[..|s.principals|] == s.principals;
    forall n ensures n in requests <==> AuthUsesProvider(s, provider, n) {
      AuthRequestsThrough(s, provider, n);
    }
  }

  // ----- the reference searches -----

  /** A bucket is referenced iff its mapper has someone to wake. */
  method BucketIsReferenced(s: Store, bucket: Name) returns (referenced: bool)
    ensures referenced <==> Hits(s.accesses, AccessKey, AccessTo(bucket)) != []
    ensures referenced <==> exists n :: UsesBucket(s, bucket, n)
  {
    for i := 0 to |s.accesses|
      invariant Hits(s.accesses[..i], AccessKey, AccessTo(bucket)) == []
    {
      assert s.accesses[..i + 1][..i] == s.accesses[..i];
      var to := s.accesses[i].bucket;
      if to.name == bucket.name && to.namespace == bucket.namespace {
        assert Asked(s.accesses, i, AccessKey, AccessTo(bucket), s.accesses[i].key);
        HitsExactly(s.accesses, AccessKey, AccessTo(bucket), s.accesses[i].key);
        assert UsesBucket(s, bucket, s.accesses[i].key);
        return true;
      }
    }
    assert s.accesses[..|s.accesses|] == s.accesses;
    forall n ensures !UsesBucket(s, bucket, n) {
      AccessRequests(s, bucket, n);
    }
    referenced := false;
  }

  /** A principal is referenced iff its mapper of accesses or its mapper of auths has someone to wake. */
  method PrincipalIsReferenced(s: Store, principal: Name) returns (referenced: bool)
    ensures referenced <==>
      Hits(s.accesses, AccessKey, AccessBy(principal)) != [] || Hits(s.auths, AuthKey, AuthOf(principal)) != []
    ensures referenced <==> exists n :: UsesPrincipal(s, principal, n) || IsOfPrincipal(s, principal, n)
  {
    for i := 0 to |s.accesses|
      invariant Hits(s.accesses[..i], AccessKey, AccessBy(principal)) == []
    {
      assert s.accesses[..i + 1][..i] == s.accesses[..i];
      var grantee := s.accesses[i].principal;
      if grantee.name == principal.name && grantee.namespace == principal.namespace {
        assert Asked(s.accesses, i, AccessKey, AccessBy(principal), s.accesses[i].key);
        HitsExactly(s.accesses, AccessKey, AccessBy(principal), s.accesses[i].key);
        assert UsesPrincipal(s, principal, s.accesses[i].key);
        return true;
      }
    }
    assert s.accesses[..|s.accesses|] == s.accesses;
    for i := 0 to |s.auths|
      invariant Hits(s.auths[..i], AuthKey, AuthOf(principal)) == []
    {
      assert s.auths[..i + 1][..i] == s.auths[..i];
      var of := s.auths[i].principal;
      if of.name == principal.name && of.namespace == principal.namespace {
        assert Asked(s.auths, i, AuthKey, AuthOf(principal), s.auths[i].key);
        HitsExactly(s.auths, AuthKey, AuthOf(principal), s.auths[i].key);
        assert IsOfPrincipal(s, principal, s.auths[i].key);
        return true;
      }
    }
    assert s.auths[..|s.auths|] == s.auths;
    forall n ensures !UsesPrincipal(s, principal, n) && !IsOfPrincipal(s, principal, n) {
      AccessRequests(s, principal, n);
      AuthRequests(s, principal, n);
    }
    referenced := false;
  }

  /** A provider is referenced iff its mapper of buckets or its mapper of principals has someone to wake. */
  method ProviderIsReferenced(s: Store, provider: string) returns (referenced: bool)
    ensures referenced <==>
      Hits(s.buckets, BucketKey, BucketUnder(provider)) != []
      || Hits(s.principals, PrincipalKey, PrincipalUnder(provider)) != []
    ensures referenced <==> exists n :: IsBucketOf(s, provider, n) || IsPrincipalOf(s, provider, n)
  {
    for i := 0 to |s.buckets|
      invariant Hits(s.buckets[..i], BucketKey, BucketUnder(provider)) == []
    {
      assert s.buckets[..i + 1][..i] == s.buckets[..i];
      if s.buckets[i].provider == provider {
        assert Asked(s.buckets, i, BucketKey, BucketUnder(provider), s.buckets[i].key);
        HitsExactly(s.buckets, BucketKey, BucketUnder(provider), s.buckets[i].key);
        assert IsBucketOf(s, provider, s.buckets[i].key);
        return true;
      }
    }
    assert s.buckets[..|s.buckets|] == s.buckets;
    for i := 0 to |s.principals|
      invariant Hits(s.principals[..i], PrincipalKey, PrincipalUnder(provider)) == []
    {
      assert s.principals[..i + 1][..i] == s.principals[..i];
      if s.principals[i].provider == provider {
        assert Asked(s.principals, i, PrincipalKey, PrincipalUnder(provider), s.principals[i].key);
        HitsExactly(s.principals, PrincipalKey, PrincipalUnder(provider), s.principals[i].key);
        assert IsPrincipalOf(s, provider, s.principals[i].key);
        return true;
      }
    }
    assert s.principals[..|s.principals|] == s.principals;
    forall n ensures !IsBucketOf(s, provider, n) && !IsPrincipalOf(s, provider, n) {
      OwnerRequests(s, provider, n);
    }
    referenced := false;
  }

  // ----- what the requests are -----

  predicate NoDuplicates(names: seq<Name>) {
    forall i, j :: 0 <= i < j < |names| ==> names[i] != names[j]
  }

  /** The API server holds one object per kind and key. */
  predicate OnePerKey<T>(items: seq<T>, key: T -> Name) {
    forall i, j :: 0 <= i < j < |items| ==> key(items[i]) != key(items[j])
  }

  predicate Asked<T>(items: seq<T>, i: int, key: T -> Name, hit: T -> bool, name: Name) {
    0 <= i < |items| && hit(items[i]) && key(items[i]) == name
  }

  /** A mapper asks for exactly the objects that are hits. */
  lemma {:induction false} HitsExactly<T>(items: seq<T>, key: T -> Name, hit: T -> bool, name: Name)
    ensures name in Hits(items, key, hit) <==> exists i :: Asked(items, i, key, hit, name)
  {
    if items != [] {
      var n := |items| - 1;
      HitsExactly(items[..n], key, hit, name);
      if i :| Asked(items[..n], i, key, hit, name) {
        assert Asked(items, i, key, hit, name);
      }
      if i :| Asked(items, i, key, hit, name) && i < n {
        assert Asked(items[..n], i, key, hit, name);
      }
      if hit(items[n]) && key(items[n]) == name {
        assert Asked(items, n, key, hit, name);
      }
    }
  }

  /** And asks for none of them twice. */
  lemma {:induction false} HitsOnce<T>(items: seq<T>, key: T -> Name, hit: T -> bool)
    requires OnePerKey(items, key)
    ensures NoDuplicates(Hits(items, key, hit))
  {
    if items != [] {
      var n := |items| - 1;
      HitsOnce(items[..n], key, hit);
      HitsExactly(items[..n], key, hit, key(items[n]));
      var others := Hits(items[..n], key, hit);
      assert forall j :: 0 <= j < |others| ==> others[j] in others;
    }
  }

  predicate AskedThrough<M, T>(middles: seq<M>, m: int, pass: M -> bool, items: seq<T>, i: int, key: T -> Name,
                               hit: M -> T -> bool, name: Name) {
    0 <= m < |middles| && pass(middles[m]) && Asked(items, i, key, hit(middles[m]), name)
  }

  /** A mapper through a middle object asks for an object iff that object hits one that passes. */
  lemma {:induction false} HitsThroughSound<M, T>(middles: seq<M>, pass: M -> bool, items: seq<T>, key: T -> Name,
                                                  hit: M -> T -> bool, name: Name)
    returns (m: int, i: int)
    requires name in HitsThrough(middles, pass, items, key, hit)
    ensures AskedThrough(middles, m, pass, items, i, key, hit, name)
  {
    var n := |middles| - 1;
    if name in HitsThrough(middles[..n], pass, items, key, hit) {
      m, i := HitsThroughSound(middles[..n], pass, items, key, hit, name);
    } else {
      HitsExactly(items, key, hit(middles[n]), name);
      m := n;
      i :| Asked(items, i, key, hit(middles[n]), name);
    }
  }

  lemma {:induction false} HitsThroughComplete<M, T>(middles: seq<M>, m: int, pass: M -> bool, items: seq<T>, i: int,
                                                     key: T -> Name, hit: M -> T -> bool, name: Name)
    requires AskedThrough(middles, m, pass, items, i, key, hit, name)
    ensures name in HitsThrough(middles, pass, items, key, hit)
  {
    var n := |middles| - 1;
    if m < n {
      HitsThroughComplete(middles[..n], m, pass, items, i, key, hit, name);
    } else {
      HitsExactly(items, key, hit(middles[n]), name);
    }
  }

  /** No object hits two middle objects. */
  predicate Functional<M, T>(middles: seq<M>, items: seq<T>, hit: M -> T -> bool) {
    forall m, n, i :: 0 <= m < n < |middles| && 0 <= i < |items| ==>
      !(hit(middles[m])(items[i]) && hit(middles[n])(items[i]))
  }

  lemma {:induction false} HitsThroughOnce<M, T>(middles: seq<M>, pass: M -> bool, items: seq<T>, key: T -> Name,
                                                 hit: M -> T -> bool)
    requires OnePerKey(items, key) && Functional(middles, items, hit)
    ensures NoDuplicates(HitsThrough(middles, pass, items, key, hit))
  {
    if middles != [] {
      var n := |middles| - 1;
      var others, last := HitsThrough(middles[..n], pass, items, key, hit), Hits(items, key, hit(middles[n]));
      HitsThroughOnce(middles[..n], pass, items, key, hit);
      HitsOnce(items, key, hit(middles[n]));
      forall k, l | 0 <= k < |others| && 0 <= l < |last|
        ensures others[k] != last[l]
      {
        assert others[k] in others && last[l] in last;
        HitsExactly(items, key, hit(middles[n]), last[l]);
        var i :| Asked(items, i, key, hit(middles[n]), last[l]);
        var m, j := HitsThroughSound(middles[..n], pass, items, key, hit, others[k]);
        assert i != j;
      }
    }
  }

  /** An access has one bucket and an auth one principal: the mappers of a provider ask for nothing
      twice. */
  lemma ProviderMappersOnce(s: Store, provider: string)
    requires OnePerKey(s.buckets, BucketKey) && OnePerKey(s.principals, PrincipalKey)
    requires OnePerKey(s.accesses, AccessKey) && OnePerKey(s.auths, AuthKey)
    ensures NoDuplicates(HitsThrough(s.buckets, BucketUnder(provider), s.accesses, AccessKey, AccessToIt))
    ensures NoDuplicates(HitsThrough(s.principals, PrincipalUnder(provider), s.auths, AuthKey, AuthOfIt))
  {
    assert forall m, n :: 0 <= m < n < |s.buckets| ==> BucketKey(s.buckets[m]) != BucketKey(s.buckets[n]);
    assert forall m, n :: 0 <= m < n < |s.principals| ==>
      PrincipalKey(s.principals[m]) != PrincipalKey(s.principals[n]);
    HitsThroughOnce(s.buckets, BucketUnder(provider), s.accesses, AccessKey, AccessToIt);
    HitsThroughOnce(s.principals, PrincipalUnder(provider), s.auths, AuthKey, AuthOfIt);
  }

  /** Whoever a provider mapper would wake through a bucket keeps the provider and that bucket
      referenced. */
  lemma WokenIsHeld(s: Store, provider: string, m: int, i: int, name: Name)
    requires AskedThrough(s.buckets, m, BucketUnder(provider), s.accesses, i, AccessKey, AccessToIt, name)
    ensures name in HitsThrough(s.buckets, BucketUnder(provider), s.accesses, AccessKey, AccessToIt)
    ensures Hits(s.buckets, BucketKey, BucketUnder(provider)) != []
    ensures Hits(s.accesses, AccessKey, AccessTo(s.buckets[m].key)) != []
  {
    HitsThroughComplete(s.buckets, m, BucketUnder(provider), s.accesses, i, AccessKey, AccessToIt, name);
    assert Asked(s.buckets, m, BucketKey, BucketUnder(provider), s.buckets[m].key);
    HitsExactly(s.buckets, BucketKey, BucketUnder(provider), s.buckets[m].key);
    HitsExactly(s.accesses, AccessKey, AccessTo(s.buckets[m].key), name);
  }
}

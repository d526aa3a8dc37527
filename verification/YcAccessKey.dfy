/** The temporary access key through which a Yandex Cloud provider lists and deletes objects: created
    on first use, deleted when the provider is closed. */
module YcAccessKey {
  import opened Common

  type Key = string

  /** The fields of the API object and the keys that exist in the cloud. */
  datatype Api = Api(accessKey: Option<Key>, client: bool, live: set<Key>)

  /** How one set-up goes: the key the cloud makes, whether the S3 client is made, and whether the
      clean-up after a failed client works. */
  datatype Attempt = Attempt(key: Option<Key>, clientOk: bool, cleanupOk: bool)

  function Opened(foreign: set<Key>): Api { Api(None, false, foreign) }

  function WithKey(a: Api, key: Key): Api {
    a.(accessKey := Some(key), live := a.live + {key})
  }

  function NewClient(a: Api, t: Attempt): (Api, bool) {
    if t.key.None? then (a, false)
    else
      var made := WithKey(a, t.key.value);
      if t.clientOk then (made.(client := true), true)
      else if t.cleanupOk then (Api(None, a.client, made.live - {t.key.value}), false)
      else (made, false)
  }

  /** Listing and deleting objects both start like this. */
  function Use(a: Api, t: Attempt): (Api, bool) {
    if a.client then (a, true) else NewClient(a, t)
  }

  function Close(a: Api, ok: bool): (Api, bool) {
    if a.accessKey.None? then (a, true)
    else if ok then (a.(live := a.live - {a.accessKey.value}), true)
    else (a, false)
  }

  // ----- the object itself -----

  /** Ghost fields remember which keys are others', and which of its own the object lost sight of. */
  class AccessKeyHolder {
    var accessKey: Option<Key>
    var client: bool
    var live: set<Key>
    ghost var foreign: set<Key>
    ghost var lost: set<Key>

    function Now(): Api
      reads this
    {
      Api(accessKey, client, live)
    }

    function Held(): set<Key>
      reads this
    {
      if accessKey.Some? then {accessKey.value} else {}
    }

    /** The keys in the cloud are the foreign ones, the held one and the lost ones; a client has a key. */
    ghost predicate Valid()
      reads this
    {
      live == foreign + Held() + lost && foreign !! Held() !! lost && (client ==> accessKey.Some?)
    }

    /** The cloud never hands out a key that exists. */
    predicate Fresh(t: Attempt)
      reads this
    {
      t.key.Some? ==> t.key.value !in live
    }

    constructor (foreign: set<Key>)
      ensures Now() == Opened(foreign)
      ensures Valid() && this.foreign == foreign && lost == {}
    {
      accessKey, client, live := None, false, foreign;
      this.foreign, lost := foreign, {};
    }

    /** A failed set-up leaves no key behind unless its clean-up failed, and then holds on to it. What
        was held before is lost. */
    method NewAWSAPI(t: Attempt) returns (ok: bool)
      requires Valid() && Fresh(t) && !client
      modifies this
      ensures (Now(), ok) == NewClient(old(Now()), t)
      ensures Valid() && foreign == old(foreign)
      ensures lost == old(lost) + if t.key.Some? then old(Held()) else {}
      ensures ok <==> client
      ensures !ok && t.cleanupOk && old(Held()) == {} ==> live == old(live)
    {
      if t.key.None? {
        return false;
      }
      lost := lost + Held();
      live := live + {t.key.value};
      accessKey := t.key;
      if !t.clientOk {
        if !t.cleanupOk {
          return false;
        }
        live := live - {accessKey.value};
        accessKey := None;
        return false;
      }
      client := true;
      ok := true;
    }

    /** With a client nothing is made; a key is lost iff one was held without a client and another made. */
    method ProcessObjects(t: Attempt) returns (ok: bool)
      requires Valid() && Fresh(t)
      modifies this
      ensures (Now(), ok) == Use(old(Now()), t)
      ensures Valid() && foreign == old(foreign) && (ok <==> client)
      ensures old(client) ==> ok && Now() == old(Now())
      ensures lost == old(lost) + if !old(client) && t.key.Some? then old(Held()) else {}
    {
      ok := true;
      if !client {
        ok := NewAWSAPI(t);
      }
    }

    /** A successful close leaves the keys of others and the lost ones, a failed one everything. */
    method CloseKey(works: bool) returns (ok: bool)
      requires Valid()
      modifies this
      ensures (Now(), ok) == Close(old(Now()), works)
      ensures foreign == old(foreign) && lost == old(lost)
      ensures ok ==> live == foreign + lost
      ensures !ok ==> live == old(live) && Held() != {}
    {
      if accessKey.Some? {
        if works {
          live := live - {accessKey.value};
        }
        return works;
      }
      ok := true;
    }
  }

  // ----- any sequence of uses of one object -----

  function Uses(a: Api, ts: seq<Attempt>): Api {
    if ts == [] then a else Use(Uses(a, ts[..|ts| - 1]), ts[|ts| - 1]).0
  }

  /** The cloud never hands out a key twice. */
  predicate FreshKeys(foreign: set<Key>, ts: seq<Attempt>) {
    (forall i :: 0 <= i < |ts| && ts[i].key.Some? ==> ts[i].key.value !in foreign)
    && forall i, j :: 0 <= i < j < |ts| && ts[i].key.Some? && ts[j].key.Some? ==> ts[i].key != ts[j].key
  }

  /** A second key is made while the first, whose clean-up failed, is still held. */
  predicate Reenters(a: Api, t: Attempt) {
    !a.client && a.accessKey.Some? && t.key.Some?
  }

  predicate SomeReentry(a: Api, ts: seq<Attempt>) {
    exists i :: 0 <= i < |ts| && Reenters(Uses(a, ts[..i]), ts[i])
  }

  lemma SomeReentryLast(a: Api, ts: seq<Attempt>)
    requires ts != []
    ensures var n := |ts| - 1;
      SomeReentry(a, ts) <==> SomeReentry(a, ts[..n]) || Reenters(Uses(a, ts[..n]), ts[n])
  {
    var n := |ts| - 1;
    assert forall i :: 0 <= i < n ==> ts[..n][..i] == ts[..i] && ts[..n][i] == ts[i];
    if SomeReentry(a, ts) && !Reenters(Uses(a, ts[..n]), ts[n]) {
      var i :| 0 <= i < |ts| && Reenters(Uses(a, ts[..i]), ts[i]);
      assert Reenters(Uses(a, ts[..n][..i]), ts[..n][i]);
    }
    if SomeReentry(a, ts[..n]) {
      var i :| 0 <= i < n && Reenters(Uses(a, ts[..n][..i]), ts[..n][i]);
      assert Reenters(Uses(a, ts[..i]), ts[i]);
    }
  }

  /** What is live and neither foreign nor held was lost by a re-entry, and only so. */
  lemma {:induction false} LiveKeys(foreign: set<Key>, ts: seq<Attempt>)
    requires FreshKeys(foreign, ts)
    ensures var a := Uses(Opened(foreign), ts);
      && foreign <= a.live
      && (forall k :: k in a.live ==> k in foreign || exists i :: 0 <= i < |ts| && ts[i].key == Some(k))
      && (a.accessKey.Some? ==> a.accessKey.value in a.live - foreign)
      && (a.client ==> a.accessKey.Some?)
      && (SomeReentry(Opened(foreign), ts) <==> exists k :: k in a.live && k !in foreign && a.accessKey != Some(k))
  {
    if ts != [] {
      var n := |ts| - 1;
      var before := Uses(Opened(foreign), ts[..n]);
      LiveKeys(foreign, ts[..n]);
      SomeReentryLast(Opened(foreign), ts);
      if ts[n].key.Some? {
        forall k | k in before.live
          ensures k != ts[n].key.value
        {
          if k !in foreign {
            var i :| 0 <= i < n && ts[..n][i].key == Some(k);
            assert ts[i].key == Some(k);
          }
        }
      }
      forall k | k in Uses(Opened(foreign), ts).live && k !in foreign
        ensures exists i :: 0 <= i < |ts| && ts[i].key == Some(k)
      {
        if k in before.live {
          var i :| 0 <= i < n && ts[..n][i].key == Some(k);
          assert ts[i].key == Some(k);
        } else {
          assert ts[n].key == Some(k);
        }
      }
    }
  }

  /** After a successful close no key of this object remains iff no set-up was entered with a key
      still held; keys of others are never touched. */
  lemma ClosedCleanExactly(foreign: set<Key>, ts: seq<Attempt>)
    requires FreshKeys(foreign, ts)
    ensures foreign <= Close(Uses(Opened(foreign), ts), true).0.live
    ensures Close(Uses(Opened(foreign), ts), true).0.live == foreign <==> !SomeReentry(Opened(foreign), ts)
  {
    LiveKeys(foreign, ts);
  }

  /** A client that cannot be made, a clean-up that fails, and one more use: the first key survives a
      successful close. */
  lemma FirstKeyIsLost(foreign: set<Key>, first: Key, second: Key)
    requires first !in foreign && second !in foreign && first != second
    ensures var ts := [Attempt(Some(first), false, false), Attempt(Some(second), true, true)];
      && FreshKeys(foreign, ts) && SomeReentry(Opened(foreign), ts)
      && Close(Uses(Opened(foreign), ts), true) == (Api(Some(second), true, foreign + {first}), true)
  {
    var one, two := Attempt(Some(first), false, false), Attempt(Some(second), true, true);
    var ts := [one, two];
    assert ts[..1] == [one] && [one][..0] == [];
    assert Uses(Opened(foreign), []) == Opened(foreign);
    assert Uses(Opened(foreign), [one]) == Api(Some(first), false, foreign + {first});
    assert Uses(Opened(foreign), ts) == Api(Some(second), true, foreign + {first} + {second});
    assert Reenters(Uses(Opened(foreign), ts[..1]), ts[1]);
  }
}

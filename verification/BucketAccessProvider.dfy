/** The access provider of both clouds as it runs: has, revoke, has, grant, in that order. */
module BucketAccessProvider {
  import opened Common
  import opened BucketGrants

  class BucketApi {
    var cloud: Cloud
    var calls: nat
    const vendor: Vendor

    constructor (vendor: Vendor, cloud: Cloud)
      ensures this.vendor == vendor && this.cloud == cloud && calls == 0
    {
      this.vendor, this.cloud, calls := vendor, cloud, 0;
    }

    method HasAccess(access: Access, t: Turn) returns (answer: Answer)
      modifies this
      ensures cloud == Meet(old(cloud), t) && answer == Has(old(cloud), KeyOf(vendor, access), t)
      ensures calls == old(calls) + 1
    {
      var key := KeyOf(vendor, access);
      cloud, calls := Meet(cloud, t), calls + 1;
      if t.fails {
        return Error;
      }
      if key.bucket !in cloud.buckets {
        return NotFound;
      }
      answer := if key in cloud.grants then Yes else No;
    }

    method GrantAccess(access: Access, t: Turn) returns (answer: Answer)
      modifies this
      ensures (cloud, answer) == Change(old(cloud), KeyOf(vendor, access), true, t)
      ensures calls == old(calls) + 1
    {
      cloud, answer := ChangeAccess(access, true, t);
      calls := calls + 1;
    }

    method RevokeAccess(access: Access, t: Turn) returns (answer: Answer)
      modifies this
      ensures (cloud, answer) == Change(old(cloud), KeyOf(vendor, access), false, t)
      ensures calls == old(calls) + 1
    {
      cloud, answer := ChangeAccess(access, false, t);
      calls := calls + 1;
    }

    method ChangeAccess(access: Access, add: bool, t: Turn) returns (after: Cloud, answer: Answer)
      ensures (after, answer) == Change(cloud, KeyOf(vendor, access), add, t)
    {
      var key := KeyOf(vendor, access);
      after := Meet(cloud, t);
      if t.fails {
        return after, Error;
      }
      if key.bucket !in after.buckets {
        return after, NotFound;
      }
      var grants := if add then after.grants + {key} else after.grants - {key};
      return Cloud(after.buckets, grants), Yes;
    }

    /** At most four calls; nothing to report on failure. */
    method EnsureBucketAccess(got: Option<Access>, want: Access, t: EnsureTurns) returns (result: Option<Access>)
      modifies this
      ensures (cloud, result.Some?) == Ensure(vendor, old(cloud), got, want, t)
      ensures result.Some? ==> result.value == want
      ensures old(cloud).Valid() && AllCalm(t) ==> (result.Some? <==> KeyOf(vendor, want).bucket in old(cloud).buckets)
      ensures calls <= old(calls) + 4
    {
      if cloud.Valid() && AllCalm(t) {
        CalmEnsureSucceedsExactly(vendor, cloud, got, want, t);
      }
      if got.Some? && got.value != want {
        var answer := HasAccess(got.value, t.hasGot);
        if answer.Error? {
          return None;
        }
        if answer.Yes? {
          var revoked := RevokeAccess(got.value, t.revoke);
          if !revoked.Yes? {
            return None;
          }
        }
      }
      var answer := HasAccess(want, t.hasWant);
      if answer.Error? || answer.NotFound? {
        return None;
      }
      if answer.No? {
        var granted := GrantAccess(want, t.grant);
        if !granted.Yes? {
          return None;
        }
      }
      result := Some(want);
    }

    method DeleteBucketAccess(applied: Option<Access>, t: DeleteTurns) returns (ok: bool)
      modifies this
      ensures (cloud, ok) == Delete(vendor, old(cloud), applied, t)
    {
      if applied.None? {
        return true;
      }
      var answer := HasAccess(applied.value, t.has);
      if answer.Error? {
        return false;
      }
      if answer.Yes? {
        var revoked := RevokeAccess(applied.value, t.revoke);
        if revoked.Error? {
          return false;
        }
      }
      ok := true;
    }
  }
}

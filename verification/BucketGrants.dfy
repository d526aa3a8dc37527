/** The grants a BucketAccess makes in the cloud: what one ensure or delete call does to the grant
    set, and what a run of edits, failures and deletions leaves behind. */
module BucketGrants {
  import opened Common

  datatype Vendor = Gcp | Yc

  datatype Level = ObjectReader | ObjectWriter | ObjectAdmin | BucketAdmin

  /** What a BucketAccess wants, and what its status records as applied. */
  datatype Access = Access(bucketName: string, bucketId: string, principalId: string, level: Level)

  /** A grant as the cloud keys it. */
  datatype Grant = Grant(bucket: string, kind: string, subject: string, role: string)

  function Role(vendor: Vendor, level: Level): string {
    match vendor
    case Gcp => (
      match level
      case ObjectReader => "roles/storage.objectViewer"
      case ObjectWriter => "roles/storage.objectCreator"
      case ObjectAdmin => "roles/storage.objectAdmin"
      case BucketAdmin => "roles/storage.admin")
    case Yc => (
      match level
      case ObjectReader => "storage.viewer"
      case ObjectWriter => "storage.uploader"
      case ObjectAdmin => "storage.editor"
      case BucketAdmin => "storage.admin")
  }

  /** Splits at the first colon; without one everything is the name. */
  function ParseMember(input: string): (parts: (string, string)) {
    var i := FirstColon(input);
    if i == |input| then ("", input) else (input[..i], input[i + 1..])
  }

  function FirstColon(input: string): (i: nat)
    ensures i <= |input| && ':' !in input[..i] && (i < |input| ==> input[i] == ':')
  {
    if input == "" || input[0] == ':' then 0
    else
      var rest := FirstColon(input[1..]);
      assert input[..rest + 1] == [input[0]] + input[1..][..rest];
      rest + 1
  }

  function KeyOf(vendor: Vendor, a: Access): Grant {
    match vendor
    case Gcp => Grant(a.bucketName, "", a.principalId, Role(vendor, a.level))
    case Yc =>
      var (kind, subject) := ParseMember(a.principalId);
      Grant(a.bucketId, kind, subject, Role(vendor, a.level))
  }

  // ----- one call -----

  datatype Cloud = Cloud(buckets: set<string>, grants: set<Grant>) {
    /** A grant exists only on a bucket that does. */
    ghost predicate Valid() {
      forall g :: g in grants ==> g.bucket in buckets
    }
  }

  /** What happens around one cloud call: buckets that vanish just before it, and whether it fails. */
  datatype Turn = Turn(vanished: set<string>, fails: bool)

  datatype Answer = Yes | No | NotFound | Error

  function Meet(c: Cloud, t: Turn): Cloud {
    Cloud(c.buckets - t.vanished, set g | g in c.grants && g.bucket !in t.vanished)
  }

  function Has(c: Cloud, key: Grant, t: Turn): Answer {
    if t.fails then Error
    else if key.bucket !in Meet(c, t).buckets then NotFound
    else if key in Meet(c, t).grants then Yes
    else No
  }

  /** A grant or a revocation: `Yes` when it took effect. */
  function Change(c: Cloud, key: Grant, add: bool, t: Turn): (Cloud, Answer) {
    var now := Meet(c, t);
    if t.fails then (now, Error)
    else if key.bucket !in now.buckets then (now, NotFound)
    else (now.(grants := if add then now.grants + {key} else now.grants - {key}), Yes)
  }

  datatype EnsureTurns = EnsureTurns(hasGot: Turn, revoke: Turn, hasWant: Turn, grant: Turn)

  /** The recorded access is withdrawn when it is not the wanted one; a missing bucket holds nothing. */
  function Withdraw(v: Vendor, c: Cloud, got: Option<Access>, want: Access, t: EnsureTurns): (Cloud, bool) {
    if got.None? || got.value == want then (c, true)
    else
      var key := KeyOf(v, got.value);
      match Has(c, key, t.hasGot)
      case Error => (Meet(c, t.hasGot), false)
      case Yes =>
        var (after, answer) := Change(Meet(c, t.hasGot), key, false, t.revoke);
        (after, answer.Yes?)
      case _ => (Meet(c, t.hasGot), true)
  }

  function Provide(v: Vendor, c: Cloud, want: Access, t: EnsureTurns): (Cloud, bool) {
    var key := KeyOf(v, want);
    match Has(c, key, t.hasWant)
    case Yes => (Meet(c, t.hasWant), true)
    case No =>
      var (after, answer) := Change(Meet(c, t.hasWant), key, true, t.grant);
      (after, answer.Yes?)
    case _ => (Meet(c, t.hasWant), false)
  }

  function Ensure(v: Vendor, c: Cloud, got: Option<Access>, want: Access, t: EnsureTurns): (Cloud, bool) {
    var (withdrawn, ok) := Withdraw(v, c, got, want, t);
    if ok then Provide(v, withdrawn, want, t) else (withdrawn, false)
  }

  datatype DeleteTurns = DeleteTurns(has: Turn, revoke: Turn)

  function Delete(v: Vendor, c: Cloud, applied: Option<Access>, t: DeleteTurns): (Cloud, bool) {
    if applied.None? then (c, true)
    else
      var key := KeyOf(v, applied.value);
      match Has(c, key, t.has)
      case Error => (Meet(c, t.has), false)
      case Yes =>
        var (after, answer) := Change(Meet(c, t.has), key, false, t.revoke);
        (after, !answer.Error?)
      case _ => (Meet(c, t.has), true)
  }

  // ----- the keys -----

  lemma LevelsHaveOwnRoles(v: Vendor, a: Level, b: Level)
    ensures Role(v, a) == Role(v, b) <==> a == b
  {
  }

  /** A member string is recovered from its parts, except that a leading colon is lost. */
  lemma SameMemberExactly(a: string, b: string)
    ensures ParseMember(a) == ParseMember(b)
       <==> a == b || (':' !in a && b == ":" + a) || (':' !in b && a == ":" + b)
  {
    ParseBack(a);
    ParseBack(b);
    if ':' !in a && b == ":" + a {
      assert FirstColon(b) == 0 && b[..0] == "" && b[1..] == a;
    }
    if ':' !in b && a == ":" + b {
      assert FirstColon(a) == 0 && a[..0] == "" && a[1..] == b;
    }
  }

  lemma ParseBack(a: string)
    ensures var (kind, name) := ParseMember(a);
      && (':' in a ==> a == kind + ":" + name)
      && (':' !in a ==> kind == "" && name == a)
  {
    var i := FirstColon(a);
    if i < |a| {
      assert a[i] in a;
      assert a == a[..i] + ":" + a[i + 1..];
    } else {
      assert a[..i] == a;
    }
  }

  predicate SameBucket(v: Vendor, a: Access, b: Access) {
    if v.Gcp? then a.bucketName == b.bucketName else a.bucketId == b.bucketId
  }

  predicate SameMember(v: Vendor, a: string, b: string) {
    a == b || (v.Yc? && ((':' !in a && b == ":" + a) || (':' !in b && a == ":" + b)))
  }

  /** Two accesses stand for the same grant iff they agree on the bucket as the cloud addresses it,
      on the level and on the principal. */
  lemma SameKeyExactly(v: Vendor, a: Access, b: Access)
    ensures KeyOf(v, a) == KeyOf(v, b)
       <==> a.level == b.level && SameBucket(v, a, b) && SameMember(v, a.principalId, b.principalId)
  {
    LevelsHaveOwnRoles(v, a.level, b.level);
    SameMemberExactly(a.principalId, b.principalId);
  }

  /** The grant of an access, part by part: GCP addresses the bucket by name and the member as a whole, Yandex
      Cloud the bucket by identifier and the member by its kind and name. */
  lemma KeyOfExactly(v: Vendor, a: Access)
    ensures var key := KeyOf(v, a);
      && key.bucket == (if v.Gcp? then a.bucketName else a.bucketId)
      && key.role == Role(v, a.level)
      && (if v.Yc? && ':' in a.principalId then a.principalId == key.kind + ":" + key.subject && ':' !in key.kind
          else key.kind == "" && key.subject == a.principalId)
  {
    ParseBack(a.principalId);
  }

  /** The roles of the four levels, least first. */
  lemma RolesOfLevels()
    ensures [Role(Gcp, ObjectReader), Role(Gcp, ObjectWriter), Role(Gcp, ObjectAdmin), Role(Gcp, BucketAdmin)]
         == ["roles/storage.objectViewer", "roles/storage.objectCreator", "roles/storage.objectAdmin",
             "roles/storage.admin"]
    ensures [Role(Yc, ObjectReader), Role(Yc, ObjectWriter), Role(Yc, ObjectAdmin), Role(Yc, BucketAdmin)]
         == ["storage.viewer", "storage.uploader", "storage.editor", "storage.admin"]
  {
  }

  // ----- what one call means -----

  /** What the cloud answers, at the moment of the call, when the call does not fail: whether the bucket is
      there, and the grant. A failing call changes nothing but what vanishes. */
  lemma AnswersExactly(c: Cloud, key: Grant, add: bool, t: Turn)
    requires c.Valid()
    ensures var has := Has(c, key, t); var (after, answer) := Change(c, key, add, t);
      && has.Error? == answer.Error? == t.fails
      && (!t.fails ==> (has.NotFound? <==> key.bucket !in c.buckets - t.vanished))
      && (!t.fails ==> (has.Yes? <==> key in c.grants && key.bucket !in t.vanished))
      && (!t.fails ==> (answer.NotFound? <==> key.bucket !in c.buckets - t.vanished) && !answer.No?)
      && (answer.Yes? ==> (key in after.grants <==> add))
      && (!answer.Yes? ==> after == Meet(c, t)) && after.buckets == c.buckets - t.vanished
  {
  }

  /** Every grant but those named is as before, up to buckets that vanished. */
  ghost predicate OnlyTouches(c: Cloud, after: Cloud, touched: set<Grant>) {
    after.Valid() && after.buckets <= c.buckets
    && forall g :: g !in touched ==> (g in after.grants <==> g in c.grants && g.bucket in after.buckets)
  }

  function Keys(v: Vendor, a: Option<Access>): set<Grant> {
    if a.Some? then {KeyOf(v, a.value)} else {}
  }

  lemma WithdrawEffect(v: Vendor, c: Cloud, got: Option<Access>, want: Access, t: EnsureTurns)
    requires c.Valid()
    ensures var (after, ok) := Withdraw(v, c, got, want, t);
      && OnlyTouches(c, after, Keys(v, got)) && after.grants <= c.grants
      && (ok && got != Some(want) ==> Keys(v, got) !! after.grants)
  {
  }

  lemma ProvideEffect(v: Vendor, c: Cloud, want: Access, t: EnsureTurns)
    requires c.Valid()
    ensures var (after, ok) := Provide(v, c, want, t);
      && OnlyTouches(c, after, {KeyOf(v, want)})
      && (if ok then KeyOf(v, want) in after.grants else after.grants <= c.grants)
  {
  }

  /** An ensure call touches two grants at most: on success the wanted one is there and the recorded
      one, when it is another grant, is gone; on failure nothing was added. */
  lemma EnsureEffect(v: Vendor, c: Cloud, got: Option<Access>, want: Access, t: EnsureTurns)
    requires c.Valid()
    ensures var (after, ok) := Ensure(v, c, got, want, t);
      && OnlyTouches(c, after, Keys(v, got) + {KeyOf(v, want)})
      && (ok ==> KeyOf(v, want) in after.grants && Keys(v, got) * after.grants <= {KeyOf(v, want)})
      && (!ok ==> after.grants <= c.grants)
  {
    WithdrawEffect(v, c, got, want, t);
    var (withdrawn, ok) := Withdraw(v, c, got, want, t);
    if ok {
      ProvideEffect(v, withdrawn, want, t);
    }
  }

  // ----- when one call succeeds -----

  /** The recorded access is another one, and its grant is found. */
  predicate FindsOther(v: Vendor, c: Cloud, got: Option<Access>, want: Access, t: EnsureTurns) {
    got.Some? && got.value != want
    && KeyOf(v, got.value) in c.grants && KeyOf(v, got.value).bucket !in t.hasGot.vanished
  }

  /** The buckets that vanish before the wanted grant is looked for. */
  function GoneByThen(v: Vendor, c: Cloud, got: Option<Access>, want: Access, t: EnsureTurns): set<string> {
    (if got.Some? && got.value != want then t.hasGot.vanished else {})
    + (if FindsOther(v, c, got, want, t) then t.revoke.vanished else {}) + t.hasWant.vanished
  }

  lemma WithdrawSucceedsExactly(v: Vendor, c: Cloud, got: Option<Access>, want: Access, t: EnsureTurns)
    requires c.Valid() && !t.hasGot.fails
    ensures Withdraw(v, c, got, want, t).1 <==>
      (FindsOther(v, c, got, want, t) ==> !t.revoke.fails && KeyOf(v, got.value).bucket !in t.revoke.vanished)
  {
  }

  /** An ensure call succeeds iff its calls do as far as they are made, a recorded grant that is found is
      withdrawn before its bucket vanishes, and the wanted bucket is still there when the wanted grant is looked
      for and, unless that is found, when it is made. A grant that is there already needs nothing more. */
  lemma EnsureSucceedsExactly(v: Vendor, c: Cloud, got: Option<Access>, want: Access, t: EnsureTurns)
    requires c.Valid()
    ensures var key := KeyOf(v, want); var finds := FindsOther(v, c, got, want, t);
      Ensure(v, c, got, want, t).1 <==>
        && (got.Some? && got.value != want ==> !t.hasGot.fails)
        && (finds ==> !t.revoke.fails && KeyOf(v, got.value).bucket !in t.revoke.vanished)
        && !t.hasWant.fails && key.bucket in c.buckets - GoneByThen(v, c, got, want, t)
        && ((key in c.grants && !(finds && key == KeyOf(v, got.value)))
            || (!t.grant.fails && key.bucket !in t.grant.vanished))
  {
    if got.Some? && got.value != want && !t.hasGot.fails {
      WithdrawSucceedsExactly(v, c, got, want, t);
    }
  }

  /** Nothing fails or vanishes. */
  predicate AllCalm(t: EnsureTurns) {
    t.hasGot == t.revoke == t.hasWant == t.grant == Turn({}, false)
  }

  /** Then an ensure call succeeds iff the wanted bucket exists. */
  lemma CalmEnsureSucceedsExactly(v: Vendor, c: Cloud, got: Option<Access>, want: Access, t: EnsureTurns)
    requires c.Valid() && AllCalm(t)
    ensures Ensure(v, c, got, want, t).1 <==> KeyOf(v, want).bucket in c.buckets
  {
    EnsureSucceedsExactly(v, c, got, want, t);
  }

  /** A delete call succeeds iff its calls do as far as they are made; a bucket that is gone is no failure. */
  lemma DeleteSucceedsExactly(v: Vendor, c: Cloud, applied: Option<Access>, t: DeleteTurns)
    requires c.Valid()
    ensures Delete(v, c, applied, t).1 <==>
      (applied.Some? ==>
         !t.has.fails
         && (KeyOf(v, applied.value) in c.grants && KeyOf(v, applied.value).bucket !in t.has.vanished ==>
               !t.revoke.fails))
  {
  }

  /** A delete call that succeeds leaves the recorded grant absent and every other grant alone; it
      fails only when a cloud call does. */
  lemma DeleteEffect(v: Vendor, c: Cloud, applied: Option<Access>, t: DeleteTurns)
    requires c.Valid()
    ensures var (after, ok) := Delete(v, c, applied, t);
      && OnlyTouches(c, after, Keys(v, applied)) && after.grants <= c.grants
      && (ok ==> Keys(v, applied) !! after.grants)
      && (!ok ==> t.has.fails || t.revoke.fails)
  {
  }
}

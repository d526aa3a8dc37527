/** The IAM helpers as they run: a policy is fetched as fresh binding objects, these are changed in
    place, and the policy is written back. */
module IamService {
  import opened Common
  import opened IamBindings

  class Binding {
    var role: string
    var members: seq<string>

    constructor (role: string, members: seq<string>)
      ensures this.role == role && this.members == members
    {
      this.role, this.members := role, members;
    }
  }

  ghost predicate Distinct(bindings: seq<Binding>) {
    forall i, j :: 0 <= i < j < |bindings| ==> bindings[i] != bindings[j]
  }

  predicate Shows(b: Binding, e: Entry)
    reads b
  {
    b.role == e.role && b.members == e.members
  }

  predicate Show(bindings: seq<Binding>, entries: seq<Entry>)
    reads bindings
  {
    |bindings| == |entries| && forall i :: 0 <= i < |bindings| ==> Shows(bindings[i], entries[i])
  }

  lemma ShowSnoc(bindings: seq<Binding>, entries: seq<Entry>, b: Binding, e: Entry)
    requires Show(bindings, entries) && Shows(b, e)
    ensures Show(bindings + [b], entries + [e])
  {
  }

  /** The entries a list of bindings stands for. */
  function Entries(bindings: seq<Binding>): (entries: seq<Entry>)
    reads bindings
    ensures Show(bindings, entries)
  {
    if bindings == [] then []
    else [Entry(bindings[0].role, bindings[0].members)] + Entries(bindings[1..])
  }

  /** `Grant` changes the first binding of the role and no other. */
  lemma {:induction false} GrantAt(policy: seq<Entry>, role: string, member: string, i: nat)
    requires i < |policy| && policy[i].role == role && forall j :: 0 <= j < i ==> policy[j].role != role
    ensures Grant(policy, role, member)
         == if member in policy[i].members then policy
            else policy[i := policy[i].(members := policy[i].members + [member])]
  {
    if i > 0 {
      GrantAt(policy[1..], role, member, i - 1);
      assert policy == [policy[0]] + policy[1..];
    }
  }

  lemma {:induction false} GrantNew(policy: seq<Entry>, role: string, member: string)
    requires forall j :: 0 <= j < |policy| ==> policy[j].role != role
    ensures Grant(policy, role, member) == policy + [Entry(role, [member])]
  {
    if policy != [] {
      GrantNew(policy[1..], role, member);
      assert policy == [policy[0]] + policy[1..];
    }
  }

  /** Whether the call that reads the policy and the one that writes it fail, other than for a missing
      account. A failing call has no effect. */
  datatype Calls = Calls(getFails: bool, setFails: bool)

  class Service {
    var present: bool
    var stored: seq<Entry>
    var writes: nat

    constructor (present: bool, stored: seq<Entry>)
      ensures this.present == present && this.stored == stored && writes == 0
    {
      this.present, this.stored, writes := present, stored, 0;
    }

    method GetIamPolicy() returns (bindings: seq<Binding>)
      requires present
      ensures fresh(bindings) && Distinct(bindings) && Show(bindings, stored)
    {
      bindings := [];
      for i := 0 to |stored|
        invariant fresh(bindings) && Distinct(bindings)
        invariant Show(bindings, stored[..i])
      {
        var b := new Binding(stored[i].role, stored[i].members);
        bindings := bindings + [b];
      }
    }

    method SetIamPolicy(bindings: seq<Binding>, ghost policy: seq<Entry>)
      requires Show(bindings, policy)
      modifies this
      ensures stored == policy && writes == old(writes) + 1 && present == old(present)
    {
      stored, writes := Entries(bindings), writes + 1;
    }

    /** Fails for a missing account as for any failing read. */
    method HasBinding(role: string, member: string, c: Calls) returns (has: Option<bool>)
      ensures has.Some? <==> present && !c.getFails
      ensures has.Some? ==> (has.value <==> Granted(stored, role, member))
    {
      if !present || c.getFails {
        return None;
      }
      var bindings := GetIamPolicy();
      for i := 0 to |bindings|
        invariant forall j :: 0 <= j < i ==> !(stored[j].role == role && member in stored[j].members)
      {
        if bindings[i].role != role {
          continue;
        }
        for k := 0 to |bindings[i].members|
          invariant forall l :: 0 <= l < k ==> bindings[i].members[l] != member
        {
          if bindings[i].members[k] == member {
            assert member in stored[i].members;
            return Some(true);
          }
        }
      }
      has := Some(false);
    }

    /** Writes iff the policy changes; a failure leaves it as it was. */
    method GrantBinding(role: string, member: string, c: Calls) returns (ok: bool)
      modifies this
      ensures ok <==> present && !c.getFails && (!c.setFails || Grant(old(stored), role, member) == old(stored))
      ensures stored == if ok then Grant(old(stored), role, member) else old(stored)
      ensures writes == old(writes) + (if stored == old(stored) then 0 else 1) && present == old(present)
    {
      if !present || c.getFails {
        return false;
      }
      var bindings := GetIamPolicy();
      for i := 0 to |bindings|
        invariant Show(bindings, stored) && stored == old(stored) && writes == old(writes) && present
        invariant forall j :: 0 <= j < i ==> stored[j].role != role
      {
        if bindings[i].role != role {
          continue;
        }
        GrantAt(stored, role, member, i);
        if member in bindings[i].members {
          return true;
        }
        AppendMember(bindings, i, member, stored);
        ok := !c.setFails;
        if ok {
          SetIamPolicy(bindings, Grant(stored, role, member));
        }
        return;
      }
      GrantNew(stored, role, member);
      var b := new Binding(role, [member]);
      ShowSnoc(bindings, stored, b, Entry(role, [member]));
      ok := !c.setFails;
      if ok {
        SetIamPolicy(bindings + [b], Grant(stored, role, member));
      }
    }

    /** Writes iff the pair was there; a missing account holds nothing. */
    method RevokeBinding(role: string, member: string, c: Calls) returns (ok: bool)
      modifies this
      ensures ok <==> !c.getFails && (!present || !c.setFails || !Granted(old(stored), role, member))
      ensures stored == if ok && present then Revoked(old(stored), role, member) else old(stored)
      ensures writes == old(writes) + (if ok && present && Granted(old(stored), role, member) then 1 else 0)
      ensures present == old(present)
    {
      if c.getFails {
        return false;
      }
      if !present {
        return true;
      }
      var bindings := GetIamPolicy();
      var kept, hasChanges := RemoveFromAll(bindings, stored, role, member);
      ok := !hasChanges || !c.setFails;
      if hasChanges && !c.setFails {
        SetIamPolicy(kept, Revoke(stored, role, member));
      }
    }
  }

  /** One binding changed in place, in the policy it belongs to. */
  method AppendMember(bindings: seq<Binding>, i: nat, member: string, ghost policy: seq<Entry>)
    requires Distinct(bindings) && i < |bindings| && Show(bindings, policy)
    modifies bindings[i]
    ensures Show(bindings, policy[i := policy[i].(members := policy[i].members + [member])])
  {
    bindings[i].members := bindings[i].members + [member];
  }

  /** What is left of one entry when the member leaves the role: nothing when no member remains. */
  function Remainder(e: Entry, role: string, member: string): seq<Entry> {
    if e.role != role then [e]
    else if Without(e.members, member) == [] then []
    else [Entry(role, Without(e.members, member))]
  }

  /** One binding, changed in place. */
  method RemoveFrom(b: Binding, ghost e: Entry, role: string, member: string) returns (keep: bool, changed: bool)
    requires Shows(b, e)
    modifies b
    ensures keep <==> Remainder(e, role, member) != []
    ensures keep ==> Remainder(e, role, member) == [Entry(b.role, b.members)]
    ensures changed <==> e.role == role && member in e.members
  {
    if b.role != role {
      return true, false;
    }
    changed := member in b.members;
    var members := RemoveMember(b.members, member);
    keep := |members| > 0;
    if keep {
      b.members := members;
    }
  }

  method RemoveFromAll(bindings: seq<Binding>, ghost policy: seq<Entry>, role: string, member: string)
    returns (kept: seq<Binding>, hasChanges: bool)
    requires Distinct(bindings) && Show(bindings, policy)
    modifies bindings
    ensures Show(kept, Revoke(policy, role, member)) && (hasChanges <==> Granted(policy, role, member))
  {
    hasChanges, kept := false, [];
    for i := 0 to |bindings|
      invariant forall j :: i <= j < |bindings| ==> Shows(bindings[j], policy[j])
      invariant forall j, k :: 0 <= j < |kept| && i <= k < |bindings| ==> kept[j] != bindings[k]
      invariant Show(kept, Revoke(policy[..i], role, member))
      invariant hasChanges <==> Granted(policy[..i], role, member)
    {
      RevokeSnoc(policy, i, role, member);
      GrantedSnoc(policy[..i], policy[i], role, member);
      assert policy[..i + 1] == policy[..i] + [policy[i]];
      ghost var entries := Revoke(policy[..i], role, member);
      var keep, changed := RemoveFrom(bindings[i], policy[i], role, member);
      assert Show(kept, entries);
      hasChanges := hasChanges || changed;
      if keep {
        ShowSnoc(kept, entries, bindings[i], Remainder(policy[i], role, member)[0]);
        kept := kept + [bindings[i]];
      }
    }
    assert policy[..|policy|] == policy;
  }

  lemma {:induction false} RevokeConcat(a: seq<Entry>, b: seq<Entry>, role: string, member: string)
    ensures Revoke(a + b, role, member) == Revoke(a, role, member) + Revoke(b, role, member)
  {
    if a == [] {
      assert a + b == b;
    } else {
      assert (a + b)[0] == a[0] && (a + b)[1..] == a[1..] + b;
      RevokeConcat(a[1..], b, role, member);
    }
  }

  /** One turn of the revocation loop, on the policy. */
  lemma RevokeSnoc(policy: seq<Entry>, i: nat, role: string, member: string)
    requires i < |policy|
    ensures Revoke(policy[..i + 1], role, member)
         == Revoke(policy[..i], role, member) + Remainder(policy[i], role, member)
  {
    assert policy[..i + 1] == policy[..i] + [policy[i]];
    RevokeConcat(policy[..i], [policy[i]], role, member);
  }

  lemma GrantedSnoc(policy: seq<Entry>, last: Entry, role: string, member: string)
    ensures Granted(policy + [last], role, member)
       <==> Granted(policy, role, member) || (last.role == role && member in last.members)
  {
    var all := policy + [last];
    if Granted(policy, role, member) {
      var i :| 0 <= i < |policy| && policy[i].role == role && member in policy[i].members;
      assert all[i] == policy[i];
    }
    assert all[|policy|] == last;
  }

  method RemoveMember(members: seq<string>, member: string) returns (rest: seq<string>)
    ensures rest == Without(members, member)
  {
    rest := [];
    for i := 0 to |members|
      invariant rest + Without(members[i..], member) == Without(members, member)
    {
      assert members[i..][0] == members[i] && members[i..][1..] == members[i + 1..];
      if members[i] == member {
        continue;
      }
      rest := rest + [members[i]];
    }
  }
}

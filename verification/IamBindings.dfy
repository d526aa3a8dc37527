/** The read-modify-write loops over the IAM policy of a GCP service account. */
module IamBindings {
  /** A policy read from the API: its bindings, in order; a role may occur more than once. */
  datatype Entry = Entry(role: string, members: seq<string>)

  predicate Granted(policy: seq<Entry>, role: string, member: string) {
    exists i :: 0 <= i < |policy| && policy[i].role == role && member in policy[i].members
  }

  function Without(members: seq<string>, member: string): seq<string> {
    if members == [] then []
    else (if members[0] == member then [] else [members[0]]) + Without(members[1..], member)
  }

  /** The member joins the first binding of the role, unless it is there; a new binding otherwise. */
  function Grant(policy: seq<Entry>, role: string, member: string): seq<Entry> {
    if policy == [] then [Entry(role, [member])]
    else if policy[0].role != role then [policy[0]] + Grant(policy[1..], role, member)
    else if member in policy[0].members then policy
    else [policy[0].(members := policy[0].members + [member])] + policy[1..]
  }

  /** The member leaves every binding of the role; a binding of the role left empty is dropped. */
  function Revoke(policy: seq<Entry>, role: string, member: string): seq<Entry> {
    if policy == [] then []
    else
      var rest := Revoke(policy[1..], role, member);
      if policy[0].role != role then [policy[0]] + rest
      else
        var members := Without(policy[0].members, member);
        if members == [] then rest else [Entry(role, members)] + rest
  }

  /** What the API stores after a revocation: nothing is written when nothing changed. */
  function Revoked(policy: seq<Entry>, role: string, member: string): seq<Entry> {
    if Granted(policy, role, member) then Revoke(policy, role, member) else policy
  }

  // ----- what the loops mean for the relation of roles and members -----

  lemma {:induction false} WithoutMembers(members: seq<string>, member: string, m: string)
    ensures m in Without(members, member) <==> m in members && m != member
    ensures member !in members ==> Without(members, member) == members
  {
    if members != [] {
      WithoutMembers(members[1..], member, m);
    }
  }

  lemma GrantedCons(policy: seq<Entry>, role: string, member: string)
    requires policy != []
    ensures Granted(policy, role, member) <==>
      (policy[0].role == role && member in policy[0].members) || Granted(policy[1..], role, member)
  {
    assert forall i :: 0 <= i < |policy[1..]| ==> policy[1..][i] == policy[i + 1];
    if Granted(policy, role, member) {
      var i :| 0 <= i < |policy| && policy[i].role == role && member in policy[i].members;
      if i > 0 {
        assert policy[1..][i - 1] == policy[i];
      }
    }
  }

  /** Granting adds exactly the one pair. */
  lemma {:induction false} GrantAdds(policy: seq<Entry>, role: string, member: string, r: string, m: string)
    ensures Granted(Grant(policy, role, member), r, m) <==> Granted(policy, r, m) || (r == role && m == member)
  {
    var after := Grant(policy, role, member);
    GrantedCons(after, r, m);
    if policy != [] {
      GrantedCons(policy, r, m);
      if policy[0].role != role {
        GrantAdds(policy[1..], role, member, r, m);
      }
    }
  }

  /** Revoking removes exactly the one pair. */
  lemma {:induction false} RevokeRemoves(policy: seq<Entry>, role: string, member: string, r: string, m: string)
    ensures Granted(Revoke(policy, role, member), r, m) <==> Granted(policy, r, m) && !(r == role && m == member)
  {
    if policy != [] {
      GrantedCons(policy, r, m);
      RevokeRemoves(policy[1..], role, member, r, m);
      WithoutMembers(policy[0].members, member, m);
      if Revoke(policy, role, member) != [] {
        GrantedCons(Revoke(policy, role, member), r, m);
      }
    }
  }

  lemma RevokedRemoves(policy: seq<Entry>, role: string, member: string, r: string, m: string)
    ensures Granted(Revoked(policy, role, member), r, m) <==> Granted(policy, r, m) && !(r == role && m == member)
  {
    RevokeRemoves(policy, role, member, r, m);
  }

  // ----- undoing a grant -----

  predicate NoEmptyBinding(policy: seq<Entry>, role: string) {
    forall i :: 0 <= i < |policy| && policy[i].role == role ==> policy[i].members != []
  }

  lemma NoEmptyBindingCons(policy: seq<Entry>, role: string)
    requires policy != []
    ensures NoEmptyBinding(policy, role) <==>
      (policy[0].role == role ==> policy[0].members != []) && NoEmptyBinding(policy[1..], role)
  {
    assert forall i :: 0 <= i < |policy[1..]| ==> policy[1..][i] == policy[i + 1];
    assert forall i :: 0 < i < |policy| ==> policy[i] == policy[1..][i - 1];
  }

  /** Revoking what is not there drops the empty bindings of the role and nothing else. */
  lemma {:induction false} RevokeAbsent(policy: seq<Entry>, role: string, member: string)
    requires !Granted(policy, role, member)
    ensures |Revoke(policy, role, member)| <= |policy|
    ensures Revoke(policy, role, member) == policy <==> NoEmptyBinding(policy, role)
    ensures !NoEmptyBinding(policy, role) ==> |Revoke(policy, role, member)| < |policy|
  {
    if policy != [] {
      GrantedCons(policy, role, member);
      NoEmptyBindingCons(policy, role);
      RevokeAbsent(policy[1..], role, member);
      WithoutMembers(policy[0].members, member, member);
      assert policy == [policy[0]] + policy[1..];
    }
  }

  lemma {:induction false} WithoutAppended(members: seq<string>, member: string)
    requires member !in members
    ensures Without(members + [member], member) == members
  {
    if members == [] {
      assert [] + [member] == [member];
    } else {
      assert (members + [member])[1..] == members[1..] + [member];
      WithoutAppended(members[1..], member);
    }
  }

  /** A grant of an absent pair and its revocation drop the empty bindings of the role, no more. */
  lemma {:induction false} UndoGrant(policy: seq<Entry>, role: string, member: string)
    requires !Granted(policy, role, member)
    ensures Revoke(Grant(policy, role, member), role, member) == Revoke(policy, role, member)
  {
    var after := Grant(policy, role, member);
    if policy == [] {
      WithoutAppended([], member);
      assert [] + [member] == [member];
    } else {
      GrantedCons(policy, role, member);
      if policy[0].role != role {
        UndoGrant(policy[1..], role, member);
        assert after[1..] == Grant(policy[1..], role, member);
      } else {
        WithoutAppended(policy[0].members, member);
        WithoutMembers(policy[0].members, member, member);
        assert after[1..] == policy[1..];
      }
    }
  }

  /** Revoke after grant restores the stored policy exactly iff the pair was absent and no binding of
      the role was empty. */
  lemma RevokeUndoesGrantExactly(policy: seq<Entry>, role: string, member: string)
    ensures Revoked(Grant(policy, role, member), role, member) == policy
       <==> !Granted(policy, role, member) && NoEmptyBinding(policy, role)
  {
    var after := Grant(policy, role, member);
    GrantAdds(policy, role, member, role, member);
    RevokeRemoves(after, role, member, role, member);
    if !Granted(policy, role, member) {
      UndoGrant(policy, role, member);
      RevokeAbsent(policy, role, member);
    }
  }
}

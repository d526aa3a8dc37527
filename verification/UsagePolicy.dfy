/** The usage policy of a ProviderConfig: its validation, and the decisions taken from it. A regular
    expression is known only by whether it compiles and what it matches. */
module UsagePolicy {
  import opened Common

  datatype Regexps = Regexps(compiles: string -> bool, matches: (string, string) -> bool)

  datatype Policy = Policy(
    allNamespaces: bool,
    namespaces: seq<string>,
    bucketPatterns: seq<string>,
    kinds: seq<string>,
    allowManaged: bool,
    allowReferences: bool,
    principalPatterns: seq<string>,
    referencePatterns: seq<string>)

  /** `Panic` is a pattern that does not compile. */
  datatype Decision = Allowed | Restricted | Panic

  // ----- names -----

  datatype Spec =
    | BucketSpec(objectName: string, name: string)
    | PrincipalSpec(managed: bool, kind: string, managedName: Option<string>, referenceName: Option<string>)

  /** An object as one reconcile read it; `external` is the recorded name, empty when none is. */
  datatype Object = Object(
    namespace: string,
    spec: Spec,
    terminating: bool,
    external: string,
    recordedKind: string)

  function NameFromCR(o: Object): string {
    match o.spec
    case BucketSpec(objectName, name) => if name != "" then name else objectName
    case PrincipalSpec(managed, _, managedName, referenceName) =>
      var name := if managed then managedName else referenceName;
      if name.Some? then name.value else ""
  }

  function NameForDelete(o: Object): string {
    if o.external == "" then NameFromCR(o) else o.external
  }

  function ValidateNameImmutability(specName: string, externalName: string, objectName: string): bool {
    if specName != "" && externalName != "" && externalName != specName then false
    else if specName == "" && externalName != "" && externalName != objectName then false
    else true
  }

  function NameIsValid(o: Object): bool {
    match o.spec
    case BucketSpec(objectName, name) => ValidateNameImmutability(name, o.external, objectName)
    case PrincipalSpec(managed, kind, _, _) =>
      if kind == "AllUsers" || !managed then true
      else ValidateNameImmutability(NameFromCR(o), o.external, NameFromCR(o))
  }

  /** The name of what a spec stands for: a Bucket's own name unless it gives another, and for a principal the
      name of its managed or its referenced part, as its management policy says. */
  lemma NameFromCRExactly(o: Object)
    ensures o.spec.BucketSpec? ==>
      NameFromCR(o) == if o.spec.name == "" then o.spec.objectName else o.spec.name
    ensures o.spec.PrincipalSpec? && o.spec.managed ==>
      (o.spec.managedName == Some(NameFromCR(o))) || (o.spec.managedName.None? && NameFromCR(o) == "")
    ensures o.spec.PrincipalSpec? && !o.spec.managed ==>
      (o.spec.referenceName == Some(NameFromCR(o))) || (o.spec.referenceName.None? && NameFromCR(o) == "")
  {
  }

  /** The policy is asked about what a live object names, and for a terminating one about what is recorded, as
      far as anything is; a deletion targets the same. */
  lemma CheckedNameExactly(o: Object)
    ensures CheckedName(o) == if o.terminating && o.external != "" then o.external else NameFromCR(o)
    ensures NameForDelete(o) == CheckedName(o.(terminating := true))
  {
  }

  /** For everything the operator creates, the check accepts exactly the recorded name; what it only refers
      to may be renamed. */
  lemma NameIsValidExactly(o: Object)
    ensures o.spec.BucketSpec? || (o.spec.managed && o.spec.kind != "AllUsers") ==>
      (NameIsValid(o) <==> o.external == "" || NameFromCR(o) == o.external)
    ensures o.spec.PrincipalSpec? && (!o.spec.managed || o.spec.kind == "AllUsers") ==> NameIsValid(o)
  {
  }

  // ----- decisions -----

  function NamespaceAllowed(namespace: string, p: Policy): Decision {
    if p.allNamespaces || namespace in p.namespaces then Allowed else Restricted
  }

  /** The patterns are compiled one at a time, and the first match ends the search. */
  function NameAllowed(r: Regexps, name: string, patterns: seq<string>): Decision {
    if patterns == [] then Restricted
    else if !r.compiles(patterns[0]) then Panic
    else if r.matches(patterns[0], name) then Allowed
    else NameAllowed(r, name, patterns[1..])
  }

  method IsNameAllowed(r: Regexps, name: string, patterns: seq<string>) returns (d: Decision)
    ensures d == NameAllowed(r, name, patterns)
  {
    for i := 0 to |patterns|
      invariant NameAllowed(r, name, patterns) == NameAllowed(r, name, patterns[i..])
    {
      assert patterns[i..][0] == patterns[i] && patterns[i..][1..] == patterns[i + 1..];
      if !r.compiles(patterns[i]) {
        return Panic;
      }
      if r.matches(patterns[i], name) {
        return Allowed;
      }
    }
    d := Restricted;
  }

  predicate NoMatch(r: Regexps, name: string, patterns: seq<string>) {
    forall i :: 0 <= i < |patterns| ==> r.compiles(patterns[i]) && !r.matches(patterns[i], name)
  }

  /** The search ends at the first pattern that does not compile or that matches; `i` is that place,
      or the end. */
  lemma {:induction false} NameAllowedAt(r: Regexps, name: string, patterns: seq<string>, i: nat)
    requires i <= |patterns| && NoMatch(r, name, patterns[..i])
    requires i < |patterns| ==> !r.compiles(patterns[i]) || r.matches(patterns[i], name)
    ensures NameAllowed(r, name, patterns)
         == if i == |patterns| then Restricted else if !r.compiles(patterns[i]) then Panic else Allowed
  {
    if i > 0 {
      assert patterns[..i][0] == patterns[0];
      assert patterns[..i] == [patterns[0]] + patterns[1..][..i - 1];
      NameAllowedAt(r, name, patterns[1..], i - 1);
    }
  }

  /** The name the policy is asked about. */
  function CheckedName(o: Object): string {
    if o.terminating then NameForDelete(o) else NameFromCR(o)
  }

  function CheckedKind(o: Object): string
    requires o.spec.PrincipalSpec?
  {
    if o.terminating then o.recordedKind else o.spec.kind
  }

  function CheckBucket(r: Regexps, p: Policy, o: Object): Decision {
    if NamespaceAllowed(o.namespace, p) != Allowed then Restricted
    else NameAllowed(r, CheckedName(o), p.bucketPatterns)
  }

  function CheckPrincipal(r: Regexps, p: Policy, o: Object): Decision
    requires o.spec.PrincipalSpec?
  {
    if NamespaceAllowed(o.namespace, p) != Allowed || CheckedKind(o) !in p.kinds then Restricted
    else if o.spec.managed then
      if !p.allowManaged then Restricted else NameAllowed(r, CheckedName(o), p.principalPatterns)
    else if !p.allowReferences then Restricted
    else if CheckedKind(o) == "AllUsers" then Allowed
    else NameAllowed(r, CheckedName(o), p.referencePatterns)
  }

  function Check(r: Regexps, p: Policy, o: Object): Decision {
    if o.spec.BucketSpec? then CheckBucket(r, p, o) else CheckPrincipal(r, p, o)
  }

  /** The patterns a decision about `o` searches, if it gets as far as that. */
  function Consulted(p: Policy, o: Object): Option<seq<string>> {
    if NamespaceAllowed(o.namespace, p) != Allowed then None
    else if o.spec.BucketSpec? then Some(p.bucketPatterns)
    else if CheckedKind(o) !in p.kinds then None
    else if o.spec.managed then if p.allowManaged then Some(p.principalPatterns) else None
    else if p.allowReferences && CheckedKind(o) != "AllUsers" then Some(p.referencePatterns)
    else None
  }

  /** Only the search panics. */
  lemma PanicsInTheSearch(r: Regexps, p: Policy, o: Object)
    ensures Check(r, p, o) == Panic
       <==> Consulted(p, o).Some? && NameAllowed(r, CheckedName(o), Consulted(p, o).value) == Panic
  {
  }

  /** Some pattern matches, and all before it compile and do not. */
  predicate FirstMatch(r: Regexps, name: string, patterns: seq<string>, i: nat) {
    i < |patterns| && NoMatch(r, name, patterns[..i]) && r.compiles(patterns[i]) && r.matches(patterns[i], name)
  }

  ghost predicate Matched(r: Regexps, name: string, patterns: seq<string>) {
    exists i :: FirstMatch(r, name, patterns, i)
  }

  lemma {:induction false} NameAllowedExactly(r: Regexps, name: string, patterns: seq<string>)
    ensures NameAllowed(r, name, patterns) == Allowed <==> Matched(r, name, patterns)
  {
    if i: nat :| FirstMatch(r, name, patterns, i) {
      NameAllowedAt(r, name, patterns, i);
    }
    if NameAllowed(r, name, patterns) == Allowed {
      if r.matches(patterns[0], name) {
        assert FirstMatch(r, name, patterns, 0);
      } else {
        NameAllowedExactly(r, name, patterns[1..]);
        var i: nat :| FirstMatch(r, name, patterns[1..], i);
        assert patterns[..i + 1] == [patterns[0]] + patterns[1..][..i];
        assert FirstMatch(r, name, patterns, i + 1);
      }
    }
  }

  /** What a policy allows: a Bucket in an allowed namespace whose name matches; a managed principal of an
      allowed kind, where managed ones are allowed, whose name matches; a referenced one, where references
      are allowed, whose name matches or that stands for all users. */
  lemma AllowedExactly(r: Regexps, p: Policy, o: Object)
    ensures Check(r, p, o) == Allowed <==>
      (p.allNamespaces || o.namespace in p.namespaces)
      && match o.spec
         case BucketSpec(_, _) => Matched(r, CheckedName(o), p.bucketPatterns)
         case PrincipalSpec(managed, kind, _, _) =>
           var current := if o.terminating then o.recordedKind else kind;
           && current in p.kinds
           && (managed ==> p.allowManaged && Matched(r, CheckedName(o), p.principalPatterns))
           && (!managed ==> p.allowReferences
                            && (current == "AllUsers" || Matched(r, CheckedName(o), p.referencePatterns)))
  {
    NameAllowedExactly(r, CheckedName(o), p.bucketPatterns);
    NameAllowedExactly(r, CheckedName(o), p.principalPatterns);
    NameAllowedExactly(r, CheckedName(o), p.referencePatterns);
  }

  // ----- validation -----

  const Kinds := ["ServiceAccount", "Role", "User", "Group", "AllUsers"]

  predicate Valid(r: Regexps, p: Policy) {
    !(p.allNamespaces && p.namespaces != [])
    && (forall k :: k in p.kinds ==> k in Kinds)
    && forall x :: x in p.bucketPatterns + p.principalPatterns + p.referencePatterns ==> r.compiles(x)
  }

  /** A policy is valid iff it names no namespaces besides all of them, knows its kinds, and every pattern of
      its three lists compiles. */
  lemma ValidExactly(r: Regexps, p: Policy)
    ensures Valid(r, p) <==>
      && (p.allNamespaces ==> p.namespaces == [])
      && (forall k :: k in p.kinds ==> k in {"ServiceAccount", "Role", "User", "Group", "AllUsers"})
      && (forall x :: x in p.bucketPatterns ==> r.compiles(x))
      && (forall x :: x in p.principalPatterns ==> r.compiles(x))
      && (forall x :: x in p.referencePatterns ==> r.compiles(x))
  {
    var all := p.bucketPatterns + p.principalPatterns + p.referencePatterns;
    assert forall x :: x in p.bucketPatterns || x in p.principalPatterns || x in p.referencePatterns <==> x in all;
  }

  method ValidateUsagePolicy(r: Regexps, p: Policy) returns (valid: bool)
    ensures valid <==> Valid(r, p)
  {
    if p.allNamespaces && |p.namespaces| > 0 {
      return false;
    }
    for i := 0 to |p.kinds|
      invariant forall j :: 0 <= j < i ==> p.kinds[j] in Kinds
    {
      if p.kinds[i] !in Kinds {
        return false;
      }
    }
    var patterns := p.bucketPatterns + p.principalPatterns + p.referencePatterns;
    for i := 0 to |patterns|
      invariant forall j :: 0 <= j < i ==> r.compiles(patterns[j])
    {
      if !r.compiles(patterns[i]) {
        assert patterns[i] in patterns;
        return false;
      }
    }
    valid := true;
  }

  lemma {:induction false} CompilingNeverPanics(r: Regexps, name: string, patterns: seq<string>)
    requires forall x :: x in patterns ==> r.compiles(x)
    ensures NameAllowed(r, name, patterns) != Panic
  {
    if patterns != [] {
      CompilingNeverPanics(r, name, patterns[1..]);
    }
  }

  /** A validated policy never panics, on any object. */
  lemma ValidNeverPanics(r: Regexps, p: Policy, o: Object)
    requires Valid(r, p)
    ensures Check(r, p, o) != Panic
  {
    var all := p.bucketPatterns + p.principalPatterns + p.referencePatterns;
    assert forall x :: x in p.bucketPatterns || x in p.principalPatterns || x in p.referencePatterns ==> x in all;
    CompilingNeverPanics(r, CheckedName(o), p.bucketPatterns);
    CompilingNeverPanics(r, CheckedName(o), p.principalPatterns);
    CompilingNeverPanics(r, CheckedName(o), p.referencePatterns);
  }
}

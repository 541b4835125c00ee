/** The access list of a private workspace directory (Workspace.cs, lines 98-136). */
module AccessList {
  import opened Common

  datatype Rights = FullControl | OtherRights(mask: nat)

  datatype Inheritance = Inheritance(containers: bool, objects: bool)

  datatype Propagation = Plain | NoPropagate | InheritOnly

  datatype Rule = Rule(inherited: bool, allow: bool, rights: Rights, inheritance: Inheritance,
                       propagation: Propagation, identity: string)

  /** `guarded` is `AreAccessRulesProtected`. */
  datatype Security = Security(guarded: bool, owner: string, rules: seq<Rule>)

  const LOCAL_SYSTEM := "S-1-5-18"
  const ADMINISTRATORS := "S-1-5-32-544"

  datatype Refusal =
    | WorkspaceId | LocalPath | LocalNtfs | PersistentAcls | NamespaceLock | HandleInfo | ReparseOrType | FinalPath
    | DescriptorInvalid | CreateNewFailed | NotEmpty
    | NotProtected | WrongOwner | AclCount | Acl
    | Unforeseen

  /** Full control, explicit, inherited by everything below. */
  function Grant(identity: string): Rule {
    Rule(false, true, FullControl, Inheritance(true, true), Plain, identity)
  }

  predicate IsGrant(rule: Rule) { rule == Grant(rule.identity) }

  /** `AssertPrivateDirectory`. The two well-known identities are parameters here; the source's are the constants. */
  method AssertPrivateDirectory(security: Security, user: string, system: string, administrators: string)
    returns (refusal: Option<Refusal>)
    requires system != administrators
    ensures refusal.None? <==> Private(security, user, system, administrators)
  {
    if !security.guarded {
      return Some(NotProtected);
    }
    if security.owner != user {
      return Some(WrongOwner);
    }
    if |security.rules| != 3 {
      NotThree(security, user, system, administrators);
      return Some(AclCount);
    }
    var matched := MatchRules(security.rules, {user, system, administrators});
    RemovedAll(security.rules, user, system, administrators);
    refusal := if matched then None else Some(Acl);
  }

  /** The loop over the rules: each must be an exact grant to an identity not seen before, and none may be missing. */
  method MatchRules(rules: seq<Rule>, identities: set<string>) returns (matched: bool)
    ensures matched <==> Removes(rules, identities)
  {
    var expected := identities;
    for index := 0 to |rules|
      invariant Removes(rules, identities) <==> Removes(rules[index..], expected)
    {
      var rule := rules[index];
      if !IsGrant(rule) || rule.identity !in expected {
        return false;
      }
      assert rules[index..][1..] == rules[index + 1..];
      expected := expected - {rule.identity};
    }
    matched := expected == {};
  }

  /** What the loop accepts, one rule at a time. */
  predicate Removes(rules: seq<Rule>, expected: set<string>) {
    if rules == [] then expected == {}
    else IsGrant(rules[0]) && rules[0].identity in expected && Removes(rules[1..], expected - {rules[0].identity})
  }

  /** What the directory should be: protected, owned by the user, and granting exactly the three. */
  ghost predicate Private(security: Security, user: string, system: string, administrators: string) {
    && security.guarded && security.owner == user
    && user != system && user != administrators
    && multiset(security.rules) == multiset{Grant(user), Grant(system), Grant(administrators)}
  }

  lemma NotThree(security: Security, user: string, system: string, administrators: string)
    ensures Private(security, user, system, administrators) ==> |security.rules| == 3
  {
    assert |multiset(security.rules)| == |security.rules|;
  }

  ghost function Grants(identities: set<string>): (m: multiset<Rule>)
    ensures forall rule: Rule :: m[rule] == if IsGrant(rule) && rule.identity in identities then 1 else 0
  {
    multiset(set identity | identity in identities :: Grant(identity))
  }

  /** The loop accepts exactly the permutations of the grants to the expected identities. */
  lemma {:induction false} RemovesIsPermutation(rules: seq<Rule>, expected: set<string>)
    ensures Removes(rules, expected) <==> multiset(rules) == Grants(expected)
  {
    if rules == [] {
      if expected != {} {
        var identity :| identity in expected;
        assert Grants(expected)[Grant(identity)] == 1;
      }
    } else {
      RemovesIsPermutation(rules[1..], expected - {rules[0].identity});
      OneGrantMore(rules, expected);
    }
  }

  lemma OneGrantMore(rules: seq<Rule>, expected: set<string>)
    requires rules != []
    ensures multiset(rules) == Grants(expected) <==>
              && IsGrant(rules[0]) && rules[0].identity in expected
              && multiset(rules[1..]) == Grants(expected - {rules[0].identity})
  {
    var rule, rest := rules[0], rules[1..];
    assert rules == [rule] + rest;
    assert multiset(rules) == multiset{rule} + multiset(rest);
    assert multiset(rules)[rule] >= 1;
    if IsGrant(rule) && rule.identity in expected {
      assert Grants(expected) == multiset{rule} + Grants(expected - {rule.identity});
      assert multiset(rest) == multiset(rules) - multiset{rule};
    }
  }

  lemma RemovedAll(rules: seq<Rule>, user: string, system: string, administrators: string)
    requires |rules| == 3 && system != administrators
    ensures Removes(rules, {user, system, administrators}) <==>
              user != system && user != administrators
              && multiset(rules) == multiset{Grant(user), Grant(system), Grant(administrators)}
  {
    RemovesIsPermutation(rules, {user, system, administrators});
    var all := multiset{Grant(user), Grant(system), Grant(administrators)};
    if user != system && user != administrators {
      assert Grants({user, system, administrators}) == all;
    } else {
      assert {user, system, administrators} == {system, administrators};
      assert Grants({system, administrators}) == multiset{Grant(system), Grant(administrators)};
      assert |multiset(rules)| == 3;
    }
  }

  /** What `CreateNewPrivate` puts on the directory it creates: "O:<user>D:P" and three "(A;OICI;FA;;;...)". */
  function Descriptor(user: string): Security {
    Security(true, user, [Grant(user), Grant(LOCAL_SYSTEM), Grant(ADMINISTRATORS)])
  }

  /** The directory passes its own check exactly when the user is neither of the other two principals. */
  lemma CreatedIsPrivate(user: string)
    ensures Private(Descriptor(user), user, LOCAL_SYSTEM, ADMINISTRATORS) <==>
              user != LOCAL_SYSTEM && user != ADMINISTRATORS
    ensures Removes(Descriptor(user).rules, {user, LOCAL_SYSTEM, ADMINISTRATORS}) <==>
              user != LOCAL_SYSTEM && user != ADMINISTRATORS
  {
    RemovedAll(Descriptor(user).rules, user, LOCAL_SYSTEM, ADMINISTRATORS);
  }
}

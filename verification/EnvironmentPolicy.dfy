/** The five names the worker allows are different and on none of its deny lists. */
module EnvironmentPolicy {
  import opened Common
  import opened EnvironmentWorker

  /** Each fragment of the lists holds one of five letters, or one of two pairs of letters... */
  predicate Foreign(fragment: string) {
    || '_' in fragment || 'K' in fragment || 'C' in fragment || 'L' in fragment || 'V' in fragment
    || ('S' in fragment && 'A' in fragment)
    || ('Y' in fragment && 'H' in fragment)
  }

  predicate AllForeign(list: seq<string>) {
    forall i | 0 <= i < |list| :: Foreign(list[i])
  }

  lemma ShortListsAreForeign()
    ensures AllForeign(POLICY.proxy) && AllForeign(POLICY.toolchainPrefixes) && AllForeign(POLICY.credentialFragments)
    ensures Foreign(POLICY.compatibility)
  {}

  lemma MostToolchainIsForeign()
    ensures AllForeign(POLICY.toolchain[..9])
  {}

  lemma RestOfToolchainIsForeign()
    ensures AllForeign(POLICY.toolchain[9..])
  {}

  lemma ListsAreForeign(p: Policy)
    requires p == POLICY
    ensures AllForeign(p.proxy) && AllForeign(p.toolchainPrefixes) && AllForeign(p.credentialFragments)
    ensures AllForeign(p.toolchain) && Foreign(p.compatibility)
  {
    ShortListsAreForeign();
    MostToolchainIsForeign();
    RestOfToolchainIsForeign();
    Joined(p.toolchain, 9);
  }

  lemma Joined(list: seq<string>, at: nat)
    requires at <= |list| && AllForeign(list[..at]) && AllForeign(list[at..])
    ensures AllForeign(list)
  {
    forall i | 0 <= i < |list| ensures Foreign(list[i]) {
      assert if i < at then list[i] == list[..at][i] else list[i] == list[at..][i - at];
    }
  }

  lemma LongNames()
    ensures !Foreign("SYSTEMROOT") && !Foreign("WINDIR")
  {}

  lemma ShortNames()
    ensures !Foreign("TEMP") && !Foreign("TMP") && !Foreign("PATH")
  {}

  lemma AllowedAreDistinct()
    ensures Distinct(POLICY.Allowed())
  {}

  lemma AllowedAreNotForeign(p: Policy)
    requires p == POLICY
    ensures forall key | key in p.Allowed() :: !Foreign(key)
    ensures Distinct(p.Allowed())
  {
    LongNames();
    ShortNames();
    AllowedAreDistinct();
  }

  /** ... which no allowed name does, so nothing on a list is part of an allowed name. */
  lemma ForeignIsNowhere(key: string, fragment: string)
    requires !Foreign(key) && Foreign(fragment)
    ensures !Occurs(key, fragment) && !(fragment <= key) && key != fragment
  {
    var c :| c in fragment && c !in key;
    NeedsCharacter(key, fragment, c);
  }

  lemma NotForeignIsHarmless(key: string, p: Policy)
    requires !Foreign(key)
    requires AllForeign(p.proxy) && AllForeign(p.toolchainPrefixes) && AllForeign(p.credentialFragments)
    requires AllForeign(p.toolchain) && Foreign(p.compatibility)
    ensures !p.IsProxy(key) && !p.IsToolchain(key) && !p.IsCredential(key) && key != p.compatibility
  {
    forall fragment | Foreign(fragment)
      ensures !Occurs(key, fragment) && !(fragment <= key) && key != fragment
    {
      ForeignIsNowhere(key, fragment);
    }
  }

  lemma PolicyIsHarmless(p: Policy)
    requires p == POLICY
    ensures Harmless(p)
  {
    ListsAreForeign(p);
    AllowedAreNotForeign(p);
    forall key | key in p.Allowed()
      ensures !p.IsProxy(key) && !p.IsToolchain(key) && !p.IsCredential(key) && key != p.compatibility
    {
      NotForeignIsHarmless(key, p);
    }
  }

  // ----- what the lists say of a name as it was written -----

  predicate Folded(s: string) { forall c | c in s :: !('a' <= c <= 'z') }

  lemma FoldedIsUpper(s: string)
    requires Folded(s)
    ensures Upper(s) == s
  {
    assert forall i | 0 <= i < |s| :: s[i] in s;
  }

  predicate AllFolded(list: seq<string>) { forall i | 0 <= i < |list| :: Folded(list[i]) }

  /** Nothing in the policy has a small letter, as it is compared with folded names. */
  predicate FoldedPolicy(p: Policy) {
    && AllFolded(p.Allowed()) && AllFolded(p.proxy) && AllFolded(p.toolchain) && AllFolded(p.toolchainPrefixes)
    && AllFolded(p.credentialFragments) && Folded(p.compatibility)
  }

  lemma AllowedAreFolded()
    ensures AllFolded(POLICY.Allowed())
  {}

  lemma FirstProxiesAreFolded()
    ensures AllFolded(POLICY.proxy[..2])
  {}

  lemma LastProxiesAreFolded()
    ensures AllFolded(POLICY.proxy[2..])
  {}

  lemma CompatibilityIsFolded()
    ensures Folded(POLICY.compatibility)
  {}

  lemma FirstToolsAreFolded()
    ensures AllFolded(POLICY.toolchain[..5])
  {}

  lemma NextToolsAreFolded()
    ensures AllFolded(POLICY.toolchain[5..9])
  {}

  lemma LastToolsAreFolded()
    ensures AllFolded(POLICY.toolchain[9..])
  {}

  lemma PrefixesAreFolded()
    ensures AllFolded(POLICY.toolchainPrefixes)
  {}

  lemma FragmentsAreFolded()
    ensures AllFolded(POLICY.credentialFragments)
  {}

  lemma FoldedTogether(list: seq<string>, at: nat)
    requires at <= |list| && AllFolded(list[..at]) && AllFolded(list[at..])
    ensures AllFolded(list)
  {
    forall i | 0 <= i < |list| ensures Folded(list[i]) {
      assert if i < at then list[i] == list[..at][i] else list[i] == list[at..][i - at];
    }
  }

  lemma ToolsAreFolded(p: Policy)
    requires p == POLICY
    ensures AllFolded(p.toolchain)
  {
    hide Folded;
    FirstToolsAreFolded();
    NextToolsAreFolded();
    LastToolsAreFolded();
    assert p.toolchain[..9][..5] == p.toolchain[..5] && p.toolchain[..9][5..] == p.toolchain[5..9];
    FoldedTogether(p.toolchain[..9], 5);
    FoldedTogether(p.toolchain, 9);
  }

  lemma PolicyIsFolded(p: Policy)
    requires p == POLICY
    ensures FoldedPolicy(p)
  {
    hide AllFolded, Folded;
    AllowedAreFolded();
    FirstProxiesAreFolded();
    LastProxiesAreFolded();
    FoldedTogether(p.proxy, 2);
    CompatibilityIsFolded();
    ToolsAreFolded(p);
    PrefixesAreFolded();
    FragmentsAreFolded();
  }

  /** The name is on the list, whatever the case of its letters. */
  predicate OnList(key: string, list: seq<string>) {
    exists i | 0 <= i < |list| :: SameLetters(key, list[i])
  }

  predicate Begins(key: string, prefix: string) {
    |prefix| <= |key| && SameLetters(key[..|prefix|], prefix)
  }

  predicate HasAt(key: string, fragment: string, at: nat) {
    at + |fragment| <= |key| && SameLetters(key[at..at + |fragment|], fragment)
  }

  predicate Has(key: string, fragment: string) { exists at: nat | at <= |key| :: HasAt(key, fragment, at) }

  lemma ListedExact(key: string, list: seq<string>)
    requires AllFolded(list)
    ensures Upper(key) in list <==> OnList(key, list)
  {
    forall i | 0 <= i < |list| ensures Upper(key) == list[i] <==> SameLetters(key, list[i]) {
      FoldedIsUpper(list[i]);
      SameIgnoringCaseExact(key, list[i]);
    }
  }

  lemma PartExact(key: string, at: nat, part: string)
    requires Folded(part) && at + |part| <= |key|
    ensures Upper(key)[at..at + |part|] == part <==> SameLetters(key[at..at + |part|], part)
  {
    FoldedIsUpper(part);
    assert Upper(key)[at..at + |part|] == Upper(key[at..at + |part|]);
    SameIgnoringCaseExact(key[at..at + |part|], part);
  }

  lemma BeginsExact(key: string, prefix: string)
    requires Folded(prefix)
    ensures prefix <= Upper(key) <==> Begins(key, prefix)
  {
    if |prefix| <= |key| {
      PartExact(key, 0, prefix);
      assert Upper(key)[0..|prefix|] == Upper(key)[..|prefix|] && key[0..|prefix|] == key[..|prefix|];
    }
  }

  lemma HasExact(key: string, fragment: string)
    requires Folded(fragment)
    ensures Occurs(Upper(key), fragment) <==> Has(key, fragment)
  {
    forall at: nat | at <= |key| ensures OccursAt(Upper(key), fragment, at) <==> HasAt(key, fragment, at) {
      if at + |fragment| <= |key| {
        PartExact(key, at, fragment);
      }
    }
  }

  /** What the worker's tests of a folded name mean for the name as it was written. */
  lemma ListsExact(key: string, p: Policy)
    requires FoldedPolicy(p)
    ensures Upper(key) in p.Allowed() <==> OnList(key, p.Allowed())
    ensures p.IsProxy(Upper(key)) <==> OnList(key, p.proxy)
    ensures p.IsToolchain(Upper(key)) <==>
              || OnList(key, p.toolchain)
              || exists i | 0 <= i < |p.toolchainPrefixes| :: Begins(key, p.toolchainPrefixes[i])
    ensures p.IsCredential(Upper(key)) <==>
              exists i | 0 <= i < |p.credentialFragments| :: Has(key, p.credentialFragments[i])
    ensures Upper(key) == p.compatibility <==> SameLetters(key, p.compatibility)
  {
    ListedExact(key, p.Allowed());
    ListedExact(key, p.proxy);
    ListedExact(key, p.toolchain);
    forall i | 0 <= i < |p.toolchainPrefixes|
      ensures p.toolchainPrefixes[i] <= Upper(key) <==> Begins(key, p.toolchainPrefixes[i])
    {
      BeginsExact(key, p.toolchainPrefixes[i]);
    }
    forall i | 0 <= i < |p.credentialFragments|
      ensures Occurs(Upper(key), p.credentialFragments[i]) <==> Has(key, p.credentialFragments[i])
    {
      HasExact(key, p.credentialFragments[i]);
    }
    FoldedIsUpper(p.compatibility);
    SameIgnoringCaseExact(key, p.compatibility);
  }
}

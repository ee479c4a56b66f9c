/**
  Which account settings internal/plugin/account_runtime.go accepts, and how they go with the
  credential replacements of internal/billing/credential_migration.go.
 */
module PoolMeaning {
  import opened Text
  import opened AccountAliases
  import opened AccountRuntimes
  import opened RuleMeaning
  import C = CredentialMigration

  /** The account pools name credentials by the very fingerprints that rules do, in lower case. */
  lemma RefMeans(ref: string)
    ensures IsRef(ref) <==> IsLowerFingerprint(ref)
  {
    if IsRef(ref) {
      var hex := ref[7..];
      forall i | 0 <= i < |hex|
        ensures hex[i] in LOWER_HEX
      {
        LowerHexMeans(ref[7 + i]);
      }
      assert ref == Fingerprint(hex);
    }
    if hex :| ref == Fingerprint(hex) && Hex(hex, LOWER_HEX) {
      forall i | 7 <= i < |ref|
        ensures '0' <= ref[i] <= '9' || 'a' <= ref[i] <= 'f'
      {
        assert ref[i] == hex[i - 7];
        LowerHexMeans(hex[i - 7]);
      }
    }
  }

  lemma LowerHexMeans(c: char)
    ensures '0' <= c <= '9' || 'a' <= c <= 'f' <==> c in LOWER_HEX
  {
    HexMeans(c);
  }

  /**
    Settings are accepted exactly when they name at most 20000 accounts and aliases, all by
    fingerprints, with limits up to 1000, and no chain of aliases comes back to where it began.
   */
  lemma SettingsMean(s: Settings)
    ensures ValidSettings(s) <==>
            && |s.accounts| <= 20000 && |s.aliases| <= 20000
            && (forall ref :: ref in s.accounts ==> IsLowerFingerprint(ref) && 0 <= s.accounts[ref] <= 1000)
            && (forall ref :: ref in s.aliases ==> IsLowerFingerprint(ref) && IsLowerFingerprint(s.aliases[ref]))
            && Acyclic(s.aliases)
  {
    hide IsRef, IsLowerFingerprint, Acyclic;
    forall ref
      ensures IsRef(ref) <==> IsLowerFingerprint(ref)
    {
      RefMeans(ref);
    }
  }

  /** A replacement that the rules accept is one the pools accept: links that do not chain cannot close a cycle. */
  lemma PoolsAcceptToo(mapping: Aliases)
    requires C.Acceptable(mapping)
    ensures GoodAliases(Proper(mapping)) && Proper(mapping) == mapping
  {
    hide IsRef, IsLowerFingerprint, Rooted;
    AcceptableMeans(mapping);
    forall ref | ref in mapping
      ensures IsRef(ref) && IsRef(mapping[ref]) && mapping[ref] != ref
    {
      RefMeans(ref);
      RefMeans(mapping[ref]);
    }
    assert Proper(mapping) == mapping;
    forall ref
      ensures Rooted(mapping, ref)
    {
      RootedInOne(mapping, ref);
    }
  }

  lemma RootedInOne(mapping: Aliases, ref: string)
    requires ref in mapping ==> mapping[ref] !in mapping
    ensures Rooted(mapping, ref)
  {
    if ref in mapping {
      RootOfRoot(mapping, mapping[ref]);
      RootStep(mapping, ref);
    } else {
      RootOfRoot(mapping, ref);
    }
  }
}

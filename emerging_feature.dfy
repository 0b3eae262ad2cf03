/** Feature flags for functionality under development (EmergingFeature): a
    flag is on when configured so, unless it is security relevant and the
    build runs on the protected release branch. */
module EmergingFeature {
  import opened Wrappers

  datatype EmergingFeature = EmergingFeature(flagName: string, isSecurityRelevant: bool)

  /** The configuration the flags consult: the boolean setting per flag name
      (absent when unset), the fused branch name (absent when null) and the
      build branch name. */
  datatype Settings = Settings(flags: map<string, bool>, fusedBranchName: Option<string>, buildBranchName: string)

  /** runningOnReleaseBranch(): buildBranchName.equals(fusedBranchName), which
      is false for a null fused branch name. */
  predicate RunningOnReleaseBranch(s: Settings) {
    Some(s.buildBranchName) == s.fusedBranchName
  }

  /** enabled(): the configured value (false when unset), and either the flag
      is not security relevant or the build is not on the release branch. */
  function Enabled(f: EmergingFeature, s: Settings): bool {
    Get(s.flags, f.flagName).GetOr(false) && (!f.isSecurityRelevant || !RunningOnReleaseBranch(s))
  }

  /** A flag is enabled exactly when it is configured true and the release
      fuse does not apply to it. */
  lemma EnabledMeans(f: EmergingFeature, s: Settings)
    ensures Enabled(f, s) <==>
      f.flagName in s.flags && s.flags[f.flagName] &&
      !(f.isSecurityRelevant && s.fusedBranchName == Some(s.buildBranchName))
  {
  }

  /** An unset flag is disabled. */
  lemma UnsetIsDisabled(f: EmergingFeature, s: Settings)
    requires f.flagName !in s.flags
    ensures !Enabled(f, s)
  {
  }

  /** A flag that is not security relevant follows its configuration. */
  lemma NotSecurityRelevantFollowsConfig(f: EmergingFeature, s: Settings)
    requires !f.isSecurityRelevant
    ensures Enabled(f, s) <==> Get(s.flags, f.flagName) == Some(true)
  {
  }

  /** On the release branch a security-relevant flag is disabled, whatever its configuration. */
  lemma ReleaseBranchBlocksSecurityRelevant(f: EmergingFeature, s: Settings)
    requires f.isSecurityRelevant && RunningOnReleaseBranch(s)
    ensures !Enabled(f, s)
  {
  }

  /** With no fused branch name the build is never on the release branch, so
      every flag, security relevant or not, follows its configuration. */
  lemma UnsetFuseFollowsConfig(f: EmergingFeature, s: Settings)
    requires s.fusedBranchName.None?
    ensures !RunningOnReleaseBranch(s)
    ensures Enabled(f, s) <==> Get(s.flags, f.flagName) == Some(true)
  {
  }

  /** Off the release branch every flag follows its configuration. */
  lemma OffReleaseBranchFollowsConfig(f: EmergingFeature, s: Settings)
    requires !RunningOnReleaseBranch(s)
    ensures Enabled(f, s) <==> Get(s.flags, f.flagName) == Some(true)
  {
  }

  /** The three configured scenarios, with the flag set on: both branches
      "example" (release), "master" against "BOOM", and "barbecue" against "foobar". */
  lemma ScenarioOutcomes(name: string)
    ensures Enabled(EmergingFeature(name, false), Settings(map[name := true], Some("example"), "example"))
    ensures !Enabled(EmergingFeature(name, true), Settings(map[name := true], Some("example"), "example"))
    ensures Enabled(EmergingFeature(name, false), Settings(map[name := true], Some("BOOM"), "master"))
    ensures Enabled(EmergingFeature(name, true), Settings(map[name := true], Some("BOOM"), "master"))
    ensures Enabled(EmergingFeature(name, false), Settings(map[name := true], Some("foobar"), "barbecue"))
    ensures Enabled(EmergingFeature(name, true), Settings(map[name := true], Some("foobar"), "barbecue"))
  {
  }
}

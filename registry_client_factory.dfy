/**
 * Completion of a declared registry configuration with the configuration the
 * registry publishes in its own descriptor. Every setting the declared side
 * sets is kept; every setting it leaves unset is filled from the remote side;
 * nothing else is set. The `extra` metadata is the declared side's, verbatim.
 */
module MavenRegistryClientFactory {
  import opened Wrappers
  import opened RegistryConfigs

  /** The declared id unless it is unset (empty), otherwise the remote id. */
  function CompleteId(declared: string, remote: string): (id: string)
    ensures id == "" <==> declared == "" && remote == ""
    ensures declared != "" ==> id == declared
  {
    if declared != "" then declared else remote
  }

  /** Merges two platforms configurations setting by setting. */
  function CompletePlatformsConfig(declared: RegistryPlatformsConfig, remote: RegistryPlatformsConfig)
    : (platforms: RegistryPlatformsConfig)
    ensures platforms.artifact == declared.artifact
    ensures declared.extensionCatalogsIncluded.Some? ==>
      platforms.extensionCatalogsIncluded == declared.extensionCatalogsIncluded
    ensures declared.extensionCatalogsIncluded.None? ==>
      platforms.extensionCatalogsIncluded == remote.extensionCatalogsIncluded
  {
    RegistryPlatformsConfig(
      declared.artifact,
      declared.extensionCatalogsIncluded.OrElse(remote.extensionCatalogsIncluded))
  }

  /** Merges two Quarkus-versions configurations setting by setting. */
  function CompleteQuarkusVersionsConfig(declared: RegistryQuarkusVersionsConfig, remote: RegistryQuarkusVersionsConfig)
    : (versions: RegistryQuarkusVersionsConfig)
    ensures declared.recognizedVersionsExpression.Some? ==>
      versions.recognizedVersionsExpression == declared.recognizedVersionsExpression
    ensures declared.recognizedVersionsExpression.None? ==>
      versions.recognizedVersionsExpression == remote.recognizedVersionsExpression
    ensures declared.recognizedGroupIds.Some? ==> versions.recognizedGroupIds == declared.recognizedGroupIds
    ensures declared.recognizedGroupIds.None? ==> versions.recognizedGroupIds == remote.recognizedGroupIds
    ensures declared.exclusiveProvider.Some? ==> versions.exclusiveProvider == declared.exclusiveProvider
    ensures declared.exclusiveProvider.None? ==> versions.exclusiveProvider == remote.exclusiveProvider
  {
    RegistryQuarkusVersionsConfig(
      declared.recognizedVersionsExpression.OrElse(remote.recognizedVersionsExpression),
      declared.recognizedGroupIds.OrElse(remote.recognizedGroupIds),
      declared.exclusiveProvider.OrElse(remote.exclusiveProvider))
  }

  /** The declared platforms merged with the remote ones when both exist, otherwise whichever exists. */
  function CompletePlatforms(declared: Option<RegistryPlatformsConfig>, remote: Option<RegistryPlatformsConfig>)
    : (platforms: Option<RegistryPlatformsConfig>)
    ensures platforms.Some? <==> declared.Some? || remote.Some?
    ensures declared.None? ==> platforms == remote
    ensures remote.None? ==> platforms == declared
    ensures declared.Some? && remote.Some? ==>
      && platforms.value.artifact == declared.value.artifact
      && platforms.value.extensionCatalogsIncluded
         == declared.value.extensionCatalogsIncluded.OrElse(remote.value.extensionCatalogsIncluded)
  {
    match (declared, remote)
    case (Some(d), Some(r)) => Some(CompletePlatformsConfig(d, r))
    case (Some(_), None) => declared
    case (None, _) => remote
  }

  /** The declared Quarkus-versions settings merged with the remote ones when both exist, otherwise whichever exists. */
  function CompleteQuarkusVersions(
    declared: Option<RegistryQuarkusVersionsConfig>,
    remote: Option<RegistryQuarkusVersionsConfig>)
    : (versions: Option<RegistryQuarkusVersionsConfig>)
    ensures versions.Some? <==> declared.Some? || remote.Some?
    ensures declared.None? ==> versions == remote
    ensures remote.None? ==> versions == declared
    ensures declared.Some? && remote.Some? ==>
      && versions.value.recognizedVersionsExpression
         == declared.value.recognizedVersionsExpression.OrElse(remote.value.recognizedVersionsExpression)
      && versions.value.recognizedGroupIds
         == declared.value.recognizedGroupIds.OrElse(remote.value.recognizedGroupIds)
      && versions.value.exclusiveProvider
         == declared.value.exclusiveProvider.OrElse(remote.value.exclusiveProvider)
  {
    match (declared, remote)
    case (Some(d), Some(r)) => Some(CompleteQuarkusVersionsConfig(d, r))
    case (Some(_), None) => declared
    case (None, _) => remote
  }

  /**
   * `completeRegistryConfig`: the declared configuration completed with the
   * remote one. It never fails and changes neither input.
   */
  function CompleteRegistryConfig(declared: RegistryConfig, remote: RegistryConfig): (complete: RegistryConfig)
    ensures complete.extra == declared.extra
    ensures complete.descriptor.Some? <==> declared.descriptor.Some? || remote.descriptor.Some?
    ensures complete.platforms.Some? <==> declared.platforms.Some? || remote.platforms.Some?
    ensures complete.quarkusVersions.Some? <==> declared.quarkusVersions.Some? || remote.quarkusVersions.Some?
    ensures complete.id == "" <==> declared.id == "" && remote.id == ""
  {
    RegistryConfig(
      CompleteId(declared.id, remote.id),
      declared.descriptor.OrElse(remote.descriptor),
      CompletePlatforms(declared.platforms, remote.platforms),
      CompleteQuarkusVersions(declared.quarkusVersions, remote.quarkusVersions),
      declared.extra)
  }

  /** Every setting of the completed configuration is the declared value if set, otherwise the remote value. */
  lemma CompletionTakesDeclaredElseRemote(declared: RegistryConfig, remote: RegistryConfig, setting: Setting)
    ensures Lookup(CompleteRegistryConfig(declared, remote), setting)
         == Lookup(declared, setting).OrElse(Lookup(remote, setting))
  {
  }

  /** Two configurations that agree on every setting, on having Quarkus-versions settings, and on `extra` are equal. */
  lemma SettingsDetermineConfig(a: RegistryConfig, b: RegistryConfig)
    requires forall setting :: Lookup(a, setting) == Lookup(b, setting)
    requires a.quarkusVersions.Some? <==> b.quarkusVersions.Some?
    requires a.extra == b.extra
    ensures a == b
  {
    assert Lookup(a, Id) == Lookup(b, Id);
    assert a.id == b.id;
    assert Lookup(a, DescriptorArtifact) == Lookup(b, DescriptorArtifact);
    assert a.descriptor == b.descriptor;
    assert Lookup(a, PlatformsArtifact) == Lookup(b, PlatformsArtifact);
    assert Lookup(a, ExtensionCatalogsIncluded) == Lookup(b, ExtensionCatalogsIncluded);
    assert a.platforms == b.platforms;
    assert Lookup(a, RecognizedVersionsExpression) == Lookup(b, RecognizedVersionsExpression);
    assert Lookup(a, RecognizedGroupIds) == Lookup(b, RecognizedGroupIds);
    assert Lookup(a, ExclusiveProvider) == Lookup(b, ExclusiveProvider);
    assert a.quarkusVersions == b.quarkusVersions;
  }

  /**
   * The completed configuration is exactly the configuration in which every
   * setting is the declared value if set and otherwise the remote value, which
   * holds Quarkus-versions settings when either side does, and whose `extra`
   * is the declared one.
   */
  lemma CompletionCharacterized(declared: RegistryConfig, remote: RegistryConfig, c: RegistryConfig)
    ensures c == CompleteRegistryConfig(declared, remote) <==>
      && (forall setting :: Lookup(c, setting) == Lookup(declared, setting).OrElse(Lookup(remote, setting)))
      && (c.quarkusVersions.Some? <==> declared.quarkusVersions.Some? || remote.quarkusVersions.Some?)
      && c.extra == declared.extra
  {
    var complete := CompleteRegistryConfig(declared, remote);
    forall setting
      ensures Lookup(complete, setting) == Lookup(declared, setting).OrElse(Lookup(remote, setting))
    {
      CompletionTakesDeclaredElseRemote(declared, remote, setting);
    }
    if && (forall setting :: Lookup(c, setting) == Lookup(declared, setting).OrElse(Lookup(remote, setting)))
       && (c.quarkusVersions.Some? <==> declared.quarkusVersions.Some? || remote.quarkusVersions.Some?)
       && c.extra == declared.extra
    {
      SettingsDetermineConfig(c, complete);
    }
  }

  /** A setting the declared side sets survives completion unchanged, whatever the remote side says. */
  lemma DeclaredSettingWins(declared: RegistryConfig, remote: RegistryConfig, setting: Setting)
    requires Lookup(declared, setting).Some?
    ensures Lookup(CompleteRegistryConfig(declared, remote), setting) == Lookup(declared, setting)
  {
  }

  /** A setting the declared side leaves unset is taken from the remote side, unset if the remote leaves it unset too. */
  lemma RemoteFillsUnsetSetting(declared: RegistryConfig, remote: RegistryConfig, setting: Setting)
    requires Lookup(declared, setting).None?
    ensures Lookup(CompleteRegistryConfig(declared, remote), setting) == Lookup(remote, setting)
  {
  }

  /** A declared descriptor is kept as a whole. */
  lemma DeclaredDescriptorWins(declared: RegistryConfig, remote: RegistryConfig)
    requires declared.descriptor.Some?
    ensures CompleteRegistryConfig(declared, remote).descriptor == declared.descriptor
  {
  }

  /**
   * When both sides declare platforms, the completed platforms keep the declared
   * artifact and fill only the unset catalog flag from the remote side.
   */
  lemma PlatformsMergedPerSetting(declared: RegistryConfig, remote: RegistryConfig)
    requires declared.platforms.Some? && remote.platforms.Some?
    ensures var platforms := CompleteRegistryConfig(declared, remote).platforms;
      && platforms.Some?
      && platforms.value.artifact == declared.platforms.value.artifact
      && platforms.value.extensionCatalogsIncluded
         == (if declared.platforms.value.extensionCatalogsIncluded.Some?
             then declared.platforms.value.extensionCatalogsIncluded
             else remote.platforms.value.extensionCatalogsIncluded)
  {
  }

  /** Completing a configuration with itself changes nothing: a consequence of the "declared, else remote" rule. */
  lemma CompletionWithSelfIsIdentity(config: RegistryConfig)
    ensures CompleteRegistryConfig(config, config) == config
  {
  }

  /**
   * Completing an already completed configuration again with the same
   * descriptor changes nothing. This is a consequence of the "declared, else
   * remote" rule chosen here, not a promise of the factory's callers.
   */
  lemma CompletionIsIdempotent(declared: RegistryConfig, remote: RegistryConfig)
    ensures var complete := CompleteRegistryConfig(declared, remote);
      CompleteRegistryConfig(complete, remote) == complete
  {
  }
}

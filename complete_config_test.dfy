/**
 * The two completion scenarios of the registry client's tests, stated as
 * lemmas over the completion function: the declared side of each scenario is
 * what a user configured, the remote side what the registry descriptor says.
 */
module MavenRegistryClientCompleteConfigTest {
  import opened Wrappers
  import opened RegistryConfigs
  import opened MavenRegistryClientFactory

  const RegistryId := "acme-registry"

  /** org.acme.registry:acme-registry-descriptor::json:1.0-SNAPSHOT */
  const AcmeDescriptorArtifact := ArtifactCoords("org.acme.registry", "acme-registry-descriptor", "", "json", "1.0-SNAPSHOT")

  /** org.acme.registry:acme-platforms::json:1.0-SNAPSHOT */
  const AcmePlatformsArtifact := ArtifactCoords("org.acme.registry", "acme-platforms", "", "json", "1.0-SNAPSHOT")

  const Descriptor := RegistryDescriptorConfig(AcmeDescriptorArtifact)

  const Offerings: map<string, ExtraValue> := map["offerings" := Values([Text("quarkus"), Text("camel-quarkus")])]

  /** The user declares the platforms artifact only; the descriptor adds that extension catalogs are included. */
  lemma CompletePlatformsConfigScenario()
    ensures var declared := RegistryConfig(
        RegistryId, Some(Descriptor), Some(RegistryPlatformsConfig(AcmePlatformsArtifact, None)), None, Offerings);
      var remote := RegistryConfig(
        RegistryId, Some(Descriptor), Some(RegistryPlatformsConfig(AcmePlatformsArtifact, Some(true))), None, map[]);
      var complete := CompleteRegistryConfig(declared, remote);
      && complete.id == RegistryId
      && complete.descriptor.Some? && complete.descriptor.value.artifact == AcmeDescriptorArtifact
      && complete.extra == Offerings
      && complete.platforms.Some?
      && complete.platforms.value.artifact == AcmePlatformsArtifact
      && complete.platforms.value.extensionCatalogsIncluded == Some(true)
  {
  }

  /**
   * The user's recognized-versions expression and exclusive-provider flag win
   * over the descriptor's, and the descriptor supplies the recognized group ids.
   */
  lemma RecognizedVersionOverrideScenario()
    ensures var declared := RegistryConfig(
        RegistryId, Some(Descriptor), Some(RegistryPlatformsConfig(AcmePlatformsArtifact, None)),
        Some(RegistryQuarkusVersionsConfig(Some("*acme-acme*"), None, Some(true))), map[]);
      var remote := RegistryConfig(
        RegistryId, Some(Descriptor), Some(RegistryPlatformsConfig(AcmePlatformsArtifact, None)),
        Some(RegistryQuarkusVersionsConfig(Some("*acme*"), Some(["org.acme"]), None)), map[]);
      var complete := CompleteRegistryConfig(declared, remote);
      && complete.id == RegistryId
      && complete.descriptor.Some? && complete.descriptor.value.artifact == AcmeDescriptorArtifact
      && complete.platforms.Some?
      && complete.platforms.value.artifact == AcmePlatformsArtifact
      && complete.quarkusVersions == Some(RegistryQuarkusVersionsConfig(Some("*acme-acme*"), Some(["org.acme"]), Some(true)))
  {
  }
}

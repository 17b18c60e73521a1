/**
 * The registry configuration value types: a registry's identity, where its
 * descriptor lives, which platforms it offers and which Quarkus versions it
 * recognises. Every optional setting is an `Option`, so "unset" stays distinct
 * from an explicit `false` or an empty list.
 */
module RegistryConfigs {
  import opened Wrappers

  /** Maven artifact coordinates, compared by value. */
  datatype ArtifactCoords = ArtifactCoords(
    groupId: string,
    artifactId: string,
    classifier: string,
    artifactType: string,
    version: string)

  /** Where the registry's own descriptor document lives. */
  datatype RegistryDescriptorConfig = RegistryDescriptorConfig(artifact: ArtifactCoords)

  /** The artifact that lists the registry's platforms, and whether extension catalogs come with them. */
  datatype RegistryPlatformsConfig = RegistryPlatformsConfig(
    artifact: ArtifactCoords,
    extensionCatalogsIncluded: Option<bool>)

  /** Which Quarkus versions the registry recognises and whether it is their exclusive provider. */
  datatype RegistryQuarkusVersionsConfig = RegistryQuarkusVersionsConfig(
    recognizedVersionsExpression: Option<string>,
    recognizedGroupIds: Option<seq<string>>,
    exclusiveProvider: Option<bool>)

  /** A value of the free-form `extra` metadata: a string or a list of values. */
  datatype ExtraValue = Text(text: string) | Values(items: seq<ExtraValue>)

  /** A registry configuration; the empty id stands for an id that was never set. */
  datatype RegistryConfig = RegistryConfig(
    id: string,
    descriptor: Option<RegistryDescriptorConfig>,
    platforms: Option<RegistryPlatformsConfig>,
    quarkusVersions: Option<RegistryQuarkusVersionsConfig>,
    extra: map<string, ExtraValue>)

  /** The individual settings a registry configuration can carry, besides `extra`. */
  datatype Setting =
    | Id
    | DescriptorArtifact
    | PlatformsArtifact
    | ExtensionCatalogsIncluded
    | RecognizedVersionsExpression
    | RecognizedGroupIds
    | ExclusiveProvider

  /** The value of one setting. */
  datatype SettingValue =
    | Name(name: string)
    | Coords(coords: ArtifactCoords)
    | Flag(flag: bool)
    | Names(names: seq<string>)

  /**
   * The value `config` gives `setting`, or `None` when the setting is unset,
   * either itself or because the object holding it is absent.
   */
  function Lookup(config: RegistryConfig, setting: Setting): Option<SettingValue>
  {
    match setting
    case Id =>
      if config.id == "" then None else Some(Name(config.id))
    case DescriptorArtifact =>
      if config.descriptor.None? then None else Some(Coords(config.descriptor.value.artifact))
    case PlatformsArtifact =>
      if config.platforms.None? then None else Some(Coords(config.platforms.value.artifact))
    case ExtensionCatalogsIncluded =>
      if config.platforms.None? || config.platforms.value.extensionCatalogsIncluded.None? then None
      else Some(Flag(config.platforms.value.extensionCatalogsIncluded.value))
    case RecognizedVersionsExpression =>
      if config.quarkusVersions.None? || config.quarkusVersions.value.recognizedVersionsExpression.None? then None
      else Some(Name(config.quarkusVersions.value.recognizedVersionsExpression.value))
    case RecognizedGroupIds =>
      if config.quarkusVersions.None? || config.quarkusVersions.value.recognizedGroupIds.None? then None
      else Some(Names(config.quarkusVersions.value.recognizedGroupIds.value))
    case ExclusiveProvider =>
      if config.quarkusVersions.None? || config.quarkusVersions.value.exclusiveProvider.None? then None
      else Some(Flag(config.quarkusVersions.value.exclusiveProvider.value))
  }
}

# Registry-config completion and `@AccessToken` collection, modelled in Dafny

Two small pieces of Quarkus are modelled as pure functions over value datatypes, with the
properties they promise proved as contracts and lemmas.

1. **Registry configuration completion** (`MavenRegistryClientFactory.completeRegistryConfig`).
   A registry configuration a user declared is completed with the configuration the registry
   publishes in its own descriptor. Every optional setting is three-state (`Option`), so an
   unset flag stays distinct from `false`. The factory's code is not part of this model. The
   completion follows the registry design's merge table: a setting the declared side sets wins,
   a setting it leaves unset is filled from the descriptor, and `extra` is the declared side's.
   This rule is consistent with `MavenRegistryClientCompleteConfigTest`, which pins down fewer
   cases: declared-over-remote precedence only for the recognized-versions expression, and
   remote fill-in for the catalog flag and the recognized group ids. Files: `registry_config.dfy` (the value types and a per-setting view
   `Lookup`), `registry_client_factory.dfy` (the completion and its properties),
   `complete_config_test.dfy` (the two test scenarios as lemmas).
2. **`@AccessToken` instance collection** (`OidcTokenPropagationCommonProcessor.collectAccessTokenInstances`).
   Each annotation instance becomes a build item (client name, exchange-token flag, target,
   method). Before that, the builders are grouped by target class, and the build step fails
   when a class has more than one instance and one of them is class-level. File:
   `oidc_token_propagation_processor.dfy`; the grouping is modelled as the `groupingBy`
   accumulation, and its check is proved equal to a positional rule (`ClassLevelShared`).

`wrappers.dfy` holds `Option` (with `OrElse`, "this value if set, else the fallback") and `Result`.

Chosen definitions where the tests say nothing: conflicting values set on both sides (differing
ids, descriptors, platforms artifacts or flags) resolve to the declared value; an empty id counts
as unset and falls back to the remote id; a missing declared descriptor, platforms or
Quarkus-versions object is replaced by the remote one as a whole; `extra` is the declared map
even when it is empty or the remote side has one.

## Model

| member | source | states |
|---|---|---|
| MavenRegistryClientFactory.CompleteId | independent-projects/tools/registry-client/src/test/java/io/quarkus/registry/client/maven/MavenRegistryClientCompleteConfigTest.java:42-44 | the completed id is the declared id when set and is unset only when both sides leave it unset (the chosen rule; the test's ids agree, so it shows only that the shared id is kept) |
| MavenRegistryClientFactory.CompletePlatformsConfig | independent-projects/tools/registry-client/src/test/java/io/quarkus/registry/client/maven/MavenRegistryClientCompleteConfigTest.java:48-52 | merging two platforms configurations keeps the declared platforms artifact, and the catalog flag is the declared one if set, otherwise the remote one |
| MavenRegistryClientFactory.CompletePlatforms | independent-projects/tools/registry-client/src/test/java/io/quarkus/registry/client/maven/MavenRegistryClientCompleteConfigTest.java:48-52 | the completed platforms are present whenever either side has platforms; a side without platforms yields the other side's; with both, the declared artifact and the catalog flag declared-else-remote |
| MavenRegistryClientFactory.CompleteQuarkusVersionsConfig | independent-projects/tools/registry-client/src/test/java/io/quarkus/registry/client/maven/MavenRegistryClientCompleteConfigTest.java:91-95 | each of expression, group ids and exclusive-provider flag is the declared value if set, otherwise the remote value |
| MavenRegistryClientFactory.CompleteQuarkusVersions | independent-projects/tools/registry-client/src/test/java/io/quarkus/registry/client/maven/MavenRegistryClientCompleteConfigTest.java:91-95 | the completed Quarkus-versions settings are present whenever either side has them; a side without them yields the other side's; with both, each of expression, group ids and flag is declared-else-remote |
| MavenRegistryClientFactory.CompleteRegistryConfig | independent-projects/tools/registry-client/src/test/java/io/quarkus/registry/client/maven/MavenRegistryClientCompleteConfigTest.java:42-52 | completion keeps the declared `extra`, has a descriptor, platforms and Quarkus-versions settings whenever either side does, and has an id unless both lack one |
| MavenRegistryClientFactory.CompletionTakesDeclaredElseRemote | independent-projects/tools/registry-client/src/test/java/io/quarkus/registry/client/maven/MavenRegistryClientCompleteConfigTest.java:82-95 | for every setting, the completed value is the declared one if set, otherwise the remote one |
| MavenRegistryClientFactory.CompletionCharacterized | independent-projects/tools/registry-client/src/test/java/io/quarkus/registry/client/maven/MavenRegistryClientCompleteConfigTest.java:42-95 | a configuration equals the completion if and only if every setting is "declared, else remote", it has Quarkus-versions settings exactly when a side does, and its `extra` is the declared one: nothing else is set |
| MavenRegistryClientFactory.DeclaredSettingWins | independent-projects/tools/registry-client/src/test/java/io/quarkus/registry/client/maven/MavenRegistryClientCompleteConfigTest.java:69-70 | any setting the declared side sets (such as the versions expression and exclusive-provider flag) survives completion unchanged |
| MavenRegistryClientFactory.RemoteFillsUnsetSetting | independent-projects/tools/registry-client/src/test/java/io/quarkus/registry/client/maven/MavenRegistryClientCompleteConfigTest.java:79 | any setting the declared side leaves unset (such as the recognized group ids) takes the remote value, or stays unset |
| MavenRegistryClientFactory.DeclaredDescriptorWins | independent-projects/tools/registry-client/src/test/java/io/quarkus/registry/client/maven/MavenRegistryClientCompleteConfigTest.java:45-46 | a declared descriptor is kept whole, whatever the remote one is (the design's rule; the test's descriptors agree) |
| MavenRegistryClientFactory.PlatformsMergedPerSetting | independent-projects/tools/registry-client/src/test/java/io/quarkus/registry/client/maven/MavenRegistryClientCompleteConfigTest.java:37-52 | with platforms on both sides, the result keeps the declared artifact and fills only an unset catalog flag from the remote side |
| MavenRegistryClientFactory.CompletionWithSelfIsIdentity | independent-projects/tools/registry-client/src/test/java/io/quarkus/registry/client/maven/MavenRegistryClientCompleteConfigTest.java:42-43 | completing a configuration with itself returns it unchanged: a property of the chosen rule, not exercised by the test, whose call passes two different configurations |
| MavenRegistryClientFactory.CompletionIsIdempotent | independent-projects/tools/registry-client/src/test/java/io/quarkus/registry/client/maven/MavenRegistryClientCompleteConfigTest.java:82-83 | completing the completed configuration again with the same descriptor changes nothing: a property of the chosen rule; the test makes a single call |
| MavenRegistryClientCompleteConfigTest.CompletePlatformsConfigScenario | independent-projects/tools/registry-client/src/test/java/io/quarkus/registry/client/maven/MavenRegistryClientCompleteConfigTest.java:19-53 | first test: id "acme-registry", the declared descriptor artifact, the declared offerings as `extra`, the platforms artifact, and extension catalogs included (true) taken from the descriptor |
| MavenRegistryClientCompleteConfigTest.RecognizedVersionOverrideScenario | independent-projects/tools/registry-client/src/test/java/io/quarkus/registry/client/maven/MavenRegistryClientCompleteConfigTest.java:56-96 | second test: the Quarkus-versions settings are exactly expression "*acme-acme*", group ids ["org.acme"], exclusive provider true |
| OidcTokenPropagationCommonProcessor.ItemBuilder.ToClientName | extensions/oidc-token-propagation-common/deployment/src/main/java/io/quarkus/oidc/token/propagation/common/deployment/OidcTokenPropagationCommonProcessor.java:25-28 | the client name is empty when `exchangeTokenClient` is absent or "Default", otherwise that value verbatim |
| OidcTokenPropagationCommonProcessor.ItemBuilder.ToExchangeToken | extensions/oidc-token-propagation-common/deployment/src/main/java/io/quarkus/oidc/token/propagation/common/deployment/OidcTokenPropagationCommonProcessor.java:30-32 | tokens are exchanged if and only if `exchangeTokenClient` is given |
| OidcTokenPropagationCommonProcessor.ItemBuilder.TargetMethod | extensions/oidc-token-propagation-common/deployment/src/main/java/io/quarkus/oidc/token/propagation/common/deployment/OidcTokenPropagationCommonProcessor.java:34-39 | the method is present if and only if the annotation is on a method, and is then that method |
| OidcTokenPropagationCommonProcessor.ItemBuilder.TargetClassName | extensions/oidc-token-propagation-common/deployment/src/main/java/io/quarkus/oidc/token/propagation/common/deployment/OidcTokenPropagationCommonProcessor.java:41-46 | the target class is the method's declaring class for a method, the class itself otherwise |
| OidcTokenPropagationCommonProcessor.ItemBuilder.Build | extensions/oidc-token-propagation-common/deployment/src/main/java/io/quarkus/oidc/token/propagation/common/deployment/OidcTokenPropagationCommonProcessor.java:48-50 | the build item carries the client name, exchange flag, target and method of its instance |
| OidcTokenPropagationCommonProcessor.ClientNameNeedsExchange | extensions/oidc-token-propagation-common/deployment/src/main/java/io/quarkus/oidc/token/propagation/common/deployment/OidcTokenPropagationCommonProcessor.java:25-32 | a non-empty client name implies token exchange; an explicit "Default" gives exchange with an empty name |
| OidcTokenPropagationCommonProcessor.GroupByTargetClass | extensions/oidc-token-propagation-common/deployment/src/main/java/io/quarkus/oidc/token/propagation/common/deployment/OidcTokenPropagationCommonProcessor.java:55 | every group is non-empty and holds only builders of the input whose target class is the group's key |
| OidcTokenPropagationCommonProcessor.BuildItemKeepsTargetClass | extensions/oidc-token-propagation-common/deployment/src/main/java/io/quarkus/oidc/token/propagation/common/deployment/OidcTokenPropagationCommonProcessor.java:34-50 | a build item's method (or, without one, its class target) names the instance's target class |
| OidcTokenPropagationCommonProcessor.ItemBuilders | extensions/oidc-token-propagation-common/deployment/src/main/java/io/quarkus/oidc/token/propagation/common/deployment/OidcTokenPropagationCommonProcessor.java:53 | one builder per annotation instance, in order |
| OidcTokenPropagationCommonProcessor.CollectAccessTokenInstances | extensions/oidc-token-propagation-common/deployment/src/main/java/io/quarkus/oidc/token/propagation/common/deployment/OidcTokenPropagationCommonProcessor.java:52-63 | on success, exactly one build item per annotation instance, in input order |
| OidcTokenPropagationCommonProcessor.GroupIsForClass | extensions/oidc-token-propagation-common/deployment/src/main/java/io/quarkus/oidc/token/propagation/common/deployment/OidcTokenPropagationCommonProcessor.java:55 | the group of a class exists exactly when some builder targets it, and holds those builders in encounter order |
| OidcTokenPropagationCommonProcessor.GroupCheckIsPositional | extensions/oidc-token-propagation-common/deployment/src/main/java/io/quarkus/oidc/token/propagation/common/deployment/OidcTokenPropagationCommonProcessor.java:54-61 | the :57 check (`MixesClassLevel`): some group has more than one builder with a class-level one if and only if two distinct instances share a target class and one of them is class-level |
| OidcTokenPropagationCommonProcessor.CollectFailsIffClassLevelShared | extensions/oidc-token-propagation-common/deployment/src/main/java/io/quarkus/oidc/token/propagation/common/deployment/OidcTokenPropagationCommonProcessor.java:54-63 | the step fails if and only if some class has more than one instance and one of them is class-level |
| OidcTokenPropagationCommonProcessor.NoAnnotationsNoItems | extensions/oidc-token-propagation-common/deployment/src/main/java/io/quarkus/oidc/token/propagation/common/deployment/OidcTokenPropagationCommonProcessor.java:54-63 | no annotation instances give no build items and no failure |
| OidcTokenPropagationCommonProcessor.AcceptedShapes | extensions/oidc-token-propagation-common/deployment/src/main/java/io/quarkus/oidc/token/propagation/common/deployment/OidcTokenPropagationCommonProcessor.java:57 | classes with a single instance, or with method-level instances only, are accepted |

## Left out

- `ArtifactCoords.fromString`: parsing coordinates is not part of this model; coordinates are five-field values compared by equality, and the tests' strings are written out field by field.
- `MavenRegistryClientFactory` itself is not part of this model: completion is defined by the rule its test fixes, and cases the test never exercises (conflicting values set on both sides, such as differing ids, descriptors, platforms artifacts or flags; an empty id; a missing declared descriptor, platforms or Quarkus-versions object; an empty declared `extra`) follow the chosen definitions stated above rather than code.
- Registry settings other than id, descriptor, platforms, Quarkus versions and `extra` (enablement, update policy, Maven repository settings, non-platform extensions) are not modelled: the tests show none of them.
- The mutable builder and frozen forms of the configuration types are one value type here; `setX` chains only build inputs.
- `extra` values are strings or lists of values; other Java objects that may appear in it are not modelled.
- The Jandex index lookup for `@AccessToken` is a parameter: the step receives the annotation instances as a sequence.
- `AnnotationTarget` and `MethodInfo` are reduced to a class name, or a method's declaring class and name.
- OidcTokenPropagationCommonProcessor.CollectAccessTokenInstances: the failure carries no class name, because which class the exception message names depends on hash-map iteration order.

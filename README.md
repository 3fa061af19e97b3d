# Package Search plugin core, modelled in Dafny

This project models the core of the Package Search plugin for IntelliJ-based IDEs and
proves properties of the model. It covers these parts:

- **Packages list** (`package_list_builder.dfy`, module `PackageList`). `PackageListBuilder`
  appends headers and package rows to a list. Each section honours the collapse state the
  user chose. Rows appear only under open headers. At most 25 search results are considered.
- **Package groups** (`package_group.dfy`, `PackageGroups`). `PackageGroupsBuilder` computes
  the declared groups from the selected modules and the search query. It computes the remote
  groups from the search results. It also models the group comparator, the `plus` operators
  and `findCommonStrings`.
- **Modules tree** (`module_tree.dfy`, `ModuleTree`). `asTree` groups modules by build system
  and sorts each group by path. It nests Gradle-style paths under the root module.
- **Package row helpers** (`package_item_row.dfy`, `PackageItemRow`). These are
  `evaluateUpgrade` and `getLatestVersion`.
- **List utilities** (`package_list_utils.dfy`, `PackageListUtils`). This is the
  "primary, first, +n" variants summary, the compatible variants, and the grouping of
  variants by package types.
- **Kotlin Multiplatform utilities** (`kmp_utils.dfy`, `KmpUtils`). These are the attribute
  names of compilations, the breadth-first `flatten`, `contains`, `filterNotNullValues` and
  the default scope of a multiplatform module.
- **Multiplatform build-script editor** (`mpp_modifier.dfy`, `MppModifier`).
  `MppDependencyModifier` adds, removes and updates Maven dependencies in the source sets of
  a Kotlin DSL model. It writes through to build-script variables where a property is one
  whole variable.
- **JPS module edits** (`jps_actions.dfy`, `JpsEdits`). `JpsActions` queues removals,
  additions and modifications of libraries.
- **Gradle tooling snapshot** (`gradle_tooling.dfy`, `gradle_tooling_legacy.dfy`). These are
  both `PackageSearchGradleModelBuilder`s: they copy configurations, dependencies,
  repositories, plugin flags and paths out of a Gradle project.
- **Gradle module provider and helpers** (`gradle_module_provider.dfy`, `gradle_utils.dfy`).
  These turn a snapshot into a module: scopes, default scope, package types, known
  repositories and the `buildSrc` path. They also cover `generateAvailableScope` and
  `mavenId`.
- **Usage-statistics repositories** (`fus_group_ids.dfy`, `FusGroupIds`). These are
  `IndexedRepositories.forId` and `validateUrl`.
- **Registry patch** (`registry_patch.dfy`, `RegistryPatch`). This is the build script's
  `patchTextRegistryFile`, on the file's lines.
- **Logger** (`intellij_logger.dfy`, `IntelliJLogger`). This is `buildMessageFrom` and the
  warn-once behaviour of `IntelliJLogger`.

The files `wrappers.dfy`, `text.dfy`, `sorting.dfy`, `collections.dfy` and `core_data.dfy`
hold shared pieces:

- `Option`;
- ASCII case folding and `contains`;
- a stable insertion sort with its correctness proofs;
- `distinct`, the `-` and `retainAll` operations of lists;
- the module, variant, declared-package and version data of the plugin's core.

The model follows the source's form:

- An object whose fields change is a `class`. Each of its methods states the new state,
  either as a function of the old state or by an append to a list field.
- Loops in the source are Dafny loops (`for` or `while`) with invariants:
  - the appends of the list builder;
  - the breadth-first `flatten`;
  - `findCommonStrings`;
  - `findDependency`;
  - the Gradle snapshot loops;
  - the MPP batches.
- Expression code is made of functions and lemmas.

## Model

| member | source | states |
|---|---|---|
| FusGroupIds.FindById | plugin/src/main/kotlin/com/jetbrains/packagesearch/plugin/fus/FUSGroupIds.kt:86 | finds an entry whose ids contain the id; none exactly when no entry lists it |
| FusGroupIds.ForId | plugin/src/main/kotlin/com/jetbrains/packagesearch/plugin/fus/FUSGroupIds.kt:84-87 | `NONE` exactly for a null or blank id; otherwise the entry listing the id, or `OTHER` when no entry lists it |
| FusGroupIds.ForIdRoundTrip | plugin/src/main/kotlin/com/jetbrains/packagesearch/plugin/fus/FUSGroupIds.kt:53-87 | every id listed by an entry leads back to that entry, so the id sets of the entries are disjoint |
| FusGroupIds.FlatUrls | plugin/src/main/kotlin/com/jetbrains/packagesearch/plugin/fus/FUSGroupIds.kt:96-97 | a URL is in the flattened list iff some entry lists it |
| FusGroupIds.ValidateUrl | plugin/src/main/kotlin/com/jetbrains/packagesearch/plugin/fus/FUSGroupIds.kt:89-92 | the URL comes back unchanged iff it is present, not blank and one of the indexed URLs; otherwise null |
| FusGroupIds.ValidateUrlAcceptsExactlyListed | plugin/src/main/kotlin/com/jetbrains/packagesearch/plugin/fus/FUSGroupIds.kt:89-97 | for a present URL the blank test is redundant: it is accepted iff it is indexed |
| FusGroupIds.FlatUrlsNotBlank | plugin/src/main/kotlin/com/jetbrains/packagesearch/plugin/fus/FUSGroupIds.kt:53-80 | no indexed URL is blank |
| FusGroupIds.UrlsStartWithScheme | plugin/src/main/kotlin/com/jetbrains/packagesearch/plugin/fus/FUSGroupIds.kt:53-80 | every indexed URL is non-empty and starts with the `https` scheme letter |
| GradleModuleProvider.FixBuildSrc | plugin/gradle/base/src/main/kotlin/com/jetbrains/packagesearch/plugin/gradle/GradleModuleProvider.kt:72-75 | the project named `buildSrc` at the root path ":" gets ":buildSrc"; every other path is returned unchanged |
| GradleModuleProvider.FixBuildSrcIdempotent | plugin/gradle/base/src/main/kotlin/com/jetbrains/packagesearch/plugin/gradle/GradleModuleProvider.kt:72-75 | fixing a fixed path changes nothing |
| GradleModuleProvider.ConfigurationNamesExact | plugin/gradle/base/src/main/kotlin/com/jetbrains/packagesearch/plugin/gradle/GradleModuleProvider.kt:33-35 | a scope is offered iff some configuration that can be declared carries that name |
| GradleModuleProvider.ConfigurationNamesAppend | plugin/gradle/base/src/main/kotlin/com/jetbrains/packagesearch/plugin/gradle/GradleModuleProvider.kt:33-35 | the offered scopes keep the configurations' order |
| GradleModuleProvider.DefaultScope | plugin/gradle/base/src/main/kotlin/com/jetbrains/packagesearch/plugin/gradle/GradleModuleProvider.kt:51 | no default exactly when no scope is offered; a default is always one of the offered scopes |
| GradleModuleProvider.DefaultScopePreference | plugin/gradle/base/src/main/kotlin/com/jetbrains/packagesearch/plugin/gradle/GradleModuleProvider.kt:51 | "implementation" is the default whenever offered, otherwise the first offered scope |
| GradleModuleProvider.PackageTypes | plugin/gradle/base/src/main/kotlin/com/jetbrains/packagesearch/plugin/gradle/GradleModuleProvider.kt:53-62 | Maven packages first, then Android packages when Kotlin Android is applied, else jar packages when Java is applied, else root Gradle publications |
| GradleModuleProvider.AvailableKnownRepositories | plugin/gradle/base/src/main/kotlin/com/jetbrains/packagesearch/plugin/gradle/GradleModuleProvider.kt:26-31 | a known repository is kept iff it is a Maven repository one of whose alternate URLs the project declares; kept values are unchanged |
| GradleModuleProvider.Transform | plugin/gradle/base/src/main/kotlin/com/jetbrains/packagesearch/plugin/gradle/GradleModuleProvider.kt:21-67 | no module is emitted exactly when the multiplatform support is enabled and the project applies the multiplatform plugin |
| GradleModuleProvider.TransformProperties | plugin/gradle/base/src/main/kotlin/com/jetbrains/packagesearch/plugin/gradle/GradleModuleProvider.kt:21-67 | an emitted module offers exactly the declarable configurations, its default scope is one of them (none iff there are none), it has no dependencies without a build file, and its identity group is "gradle" |
| GradleTooling.KeptDependenciesSound | plugin/gradle/tooling/src/main/java/com/jetbrains/packagesearch/plugin/gradle/tooling/PackageSearchGradleModelBuilder.java:38-45 | every kept dependency comes from a Gradle dependency with that group, name and version |
| GradleTooling.KeptDependenciesComplete | plugin/gradle/tooling/src/main/java/com/jetbrains/packagesearch/plugin/gradle/tooling/PackageSearchGradleModelBuilder.java:38-45 | every Gradle dependency with a group and a version is kept |
| GradleTooling.KeptDependenciesAppend | plugin/gradle/tooling/src/main/java/com/jetbrains/packagesearch/plugin/gradle/tooling/PackageSearchGradleModelBuilder.java:38-45 | dependencies keep Gradle's iteration order |
| GradleTooling.KeptDependenciesLength | plugin/gradle/tooling/src/main/java/com/jetbrains/packagesearch/plugin/gradle/tooling/PackageSearchGradleModelBuilder.java:38-45 | at most one entry per Gradle dependency, one for each exactly when none lacks a group or version |
| GradleTooling.MavenRepositoriesExact | plugin/gradle/tooling/src/main/java/com/jetbrains/packagesearch/plugin/gradle/tooling/PackageSearchGradleModelBuilder.java:63-76 | a (url, name) pair is listed iff a Maven repository with that url and name is declared |
| GradleTooling.AtLeastMonotone | plugin/gradle/tooling/src/main/java/com/jetbrains/packagesearch/plugin/gradle/tooling/PackageSearchGradleModelBuilder.java:47-50 | a capability gated on a Gradle version stays available in every later version |
| GradleTooling.JavaModel.IsJavaApplied | plugin/gradle/tooling/src/main/java/com/jetbrains/packagesearch/plugin/gradle/tooling/PackageSearchGradleJavaModelImpl.java:76-78 | whether Java is applied is answered by the Kotlin JVM plugin flag, and by nothing else |
| GradleTooling.BuildAll | plugin/gradle/tooling/src/main/java/com/jetbrains/packagesearch/plugin/gradle/tooling/PackageSearchGradleModelBuilder.java:30-101 | the snapshot has one configuration per Gradle configuration (with `canBeDeclared` forced true before 8.2), the declared Maven repositories, the identity path from 3.3 on, the build file path only when the file exists, and the four plugin flags |
| GradleToolingLegacy.MavenUrlsAreRepositoryUrls | plugin/gradle/tooling/src/main/java/org/jetbrains/packagesearch/plugin/gradle/tooling/PackageSearchGradleModelBuilder.java:46-54 | the legacy URL list is the URL column of the newer repository list |
| GradleToolingLegacy.MavenUrlsExact | plugin/gradle/tooling/src/main/java/org/jetbrains/packagesearch/plugin/gradle/tooling/PackageSearchGradleModelBuilder.java:46-54 | a URL is listed iff a declared Maven repository has it |
| GradleToolingLegacy.BuildAllLegacy | plugin/gradle/tooling/src/main/java/org/jetbrains/packagesearch/plugin/gradle/tooling/PackageSearchGradleModelBuilder.java:30-69 | the legacy snapshot has one configuration per Gradle configuration, the Maven repository URLs, the identity path and the three Kotlin plugin flags |
| GradleUtils.GenerateAvailableScope | plugin/gradle/src/main/kotlin/com/jetbrains/packagesearch/plugin/gradle/utils/Utils.kt:63-72 | no scope repeats, and a scope is offered iff it is a common configuration the module does not declare or a configuration some dependency uses |
| GradleUtils.UsedConfigurationsOffered | plugin/gradle/src/main/kotlin/com/jetbrains/packagesearch/plugin/gradle/utils/Utils.kt:63-72 | the configuration of every declared dependency is offered |
| GradleUtils.DeclaredUnusedCommonExcluded | plugin/gradle/src/main/kotlin/com/jetbrains/packagesearch/plugin/gradle/utils/Utils.kt:63-72 | a common configuration the module declares and no dependency uses is not offered |
| GradleUtils.MavenId | plugin/gradle/src/main/kotlin/com/jetbrains/packagesearch/plugin/gradle/utils/Utils.kt:74-79 | no id exactly when the group is missing |
| GradleUtils.MavenIdLayout | plugin/gradle/src/main/kotlin/com/jetbrains/packagesearch/plugin/gradle/utils/Utils.kt:78 | the id is "maven:", the group, ':' and the name, at fixed positions |
| GradleUtils.MavenIdInjective | plugin/gradle/src/main/kotlin/com/jetbrains/packagesearch/plugin/gradle/utils/Utils.kt:74-79 | for groups without ':', equal ids mean equal groups and names |
| IntelliJLogger.BuildMessageFrom | plugin/src/main/kotlin/com/jetbrains/packagesearch/plugin/utils/IntelliJLogger.kt:86-98 | a non-blank context is followed by " - " and the body; without one the message is the body alone |
| IntelliJLogger.ContextIsRecoverable | plugin/src/main/kotlin/com/jetbrains/packagesearch/plugin/utils/IntelliJLogger.kt:86-98 | the context can be read back off the front of the message |
| IntelliJLogger.Logger.constructor | plugin/src/main/kotlin/com/jetbrains/packagesearch/plugin/utils/IntelliJLogger.kt:14 | a fresh logger has not warned and has made no call |
| IntelliJLogger.Logger.WarnNotLoggable | plugin/src/main/kotlin/com/jetbrains/packagesearch/plugin/utils/IntelliJLogger.kt:71-83 | the warning is emitted only by the first call; the flag is set afterwards |
| IntelliJLogger.Logger.Log | plugin/src/main/kotlin/com/jetbrains/packagesearch/plugin/utils/IntelliJLogger.kt:16-34 | exactly one message at the given level is forwarded; the flag is unchanged |
| IntelliJLogger.Logger.LogWithContext | plugin/src/main/kotlin/com/jetbrains/packagesearch/plugin/utils/IntelliJLogger.kt:20-38 | error, warning and info messages with a context forward the composed message |
| IntelliJLogger.Logger.LogDebug | plugin/src/main/kotlin/com/jetbrains/packagesearch/plugin/utils/IntelliJLogger.kt:40-51 | the message is forwarded, preceded by the warning when debug output is off and no warning was given yet |
| IntelliJLogger.Logger.LogTrace | plugin/src/main/kotlin/com/jetbrains/packagesearch/plugin/utils/IntelliJLogger.kt:53-61 | the message is forwarded, preceded by the warning when debug logging or trace output is off and no warning was given yet |
| IntelliJLogger.DebugSession | plugin/src/main/kotlin/com/jetbrains/packagesearch/plugin/utils/IntelliJLogger.kt:40-83 | over any run of debug calls the warning appears at most once, and exactly once iff debug output is off and some call was made |
| JpsEdits.LibraryId | plugin/jps/src/main/kotlin/com/jetbrains/packagesearch/plugin/maven/EditJpsModuleContext.kt:54-55 | "group:artifact:version", with each part at its fixed position |
| JpsEdits.LibraryKeys | plugin/jps/src/main/kotlin/com/jetbrains/packagesearch/plugin/maven/PackageSearchJpsModule.kt:65-75 | every key of the module's library map is the library id of one of its libraries |
| JpsEdits.LibraryKeysHasEvery | plugin/jps/src/main/kotlin/com/jetbrains/packagesearch/plugin/maven/PackageSearchJpsModule.kt:65-75 | every library of the module can be found under its library id |
| JpsEdits.RemoveIdAsWritten | plugin/jps/src/main/kotlin/com/jetbrains/packagesearch/plugin/maven/EditJpsModuleContext.kt:69-72 | the removal entry as written is the library id followed by a stray "}" |
| JpsEdits.AsWrittenRemoveMissesLibrary | plugin/jps/src/main/kotlin/com/jetbrains/packagesearch/plugin/maven/EditJpsModuleContext.kt:71 | the as-written removal entry never names the library it was built from |
| JpsEdits.AsWrittenRemoveExample | plugin/jps/src/main/kotlin/com/jetbrains/packagesearch/plugin/maven/EditJpsModuleContext.kt:71 | "g:a:1}" is queued for library g:a:1 and is not among its keys |
| JpsEdits.RemoveFindsLibrary | plugin/jps/src/main/kotlin/com/jetbrains/packagesearch/plugin/maven/PackageSearchJpsModule.kt:81-84 | the corrected removal entry finds the library in the module's map |
| JpsEdits.ModifyFindsLibrary | plugin/jps/src/main/kotlin/com/jetbrains/packagesearch/plugin/maven/PackageSearchJpsModule.kt:76-80 | a queued modification finds its library in the module's map |
| JpsEdits.ScopeNamed | plugin/jps/src/main/kotlin/com/jetbrains/packagesearch/plugin/maven/EditJpsModuleContext.kt:95-97 | a missing scope or one that names no scope gives COMPILE; otherwise the scope whose name equals it ignoring case |
| JpsEdits.FirstNamed | plugin/jps/src/main/kotlin/com/jetbrains/packagesearch/plugin/maven/EditJpsModuleContext.kt:95-97 | finds a scope whose name equals the text ignoring case; none exactly when no scope does |
| JpsEdits.ScopeNamesDistinct | plugin/jps/src/main/kotlin/com/jetbrains/packagesearch/plugin/maven/EditJpsModuleContext.kt:95-97 | no two scopes have names that are equal ignoring case, so the lookup is unambiguous |
| JpsEdits.ScopeNamedOwnName | plugin/jps/src/main/kotlin/com/jetbrains/packagesearch/plugin/maven/EditJpsModuleContext.kt:95-97 | each scope's own name, in upper or lower case, leads back to that scope |
| JpsEdits.VersionNamed | plugin/jps/src/main/kotlin/com/jetbrains/packagesearch/plugin/maven/EditJpsModuleContext.kt:110-111 | finds a remote version with that name; none exactly when no version has it |
| JpsEdits.KnownRepositories | plugin/jps/src/main/kotlin/com/jetbrains/packagesearch/plugin/maven/EditJpsModuleContext.kt:111-114 | a repository is listed iff one of the version's repository ids names it among the known repositories |
| JpsEdits.RepositoriesFor | plugin/jps/src/main/kotlin/com/jetbrains/packagesearch/plugin/maven/EditJpsModuleContext.kt:110-114 | no repository without remote information or without a remote version of that name; with one, exactly the known repositories among that version's repository ids; every listed repository is a known one |
| JpsEdits.JpsActions.constructor | plugin/jps/src/main/kotlin/com/jetbrains/packagesearch/plugin/maven/EditJpsModuleContext.kt:42-45 | all three queues start empty |
| JpsEdits.JpsActions.Remove | plugin/jps/src/main/kotlin/com/jetbrains/packagesearch/plugin/maven/EditJpsModuleContext.kt:69-72 | a package without a declared version queues nothing; otherwise one removal is queued, keyed by the corrected library id (see Findings for the id as written) |
| JpsEdits.JpsActions.Add | plugin/jps/src/main/kotlin/com/jetbrains/packagesearch/plugin/maven/EditJpsModuleContext.kt:74-82 | one addition with the given coordinates, scope and repositories is queued |
| JpsEdits.JpsActions.Modify | plugin/jps/src/main/kotlin/com/jetbrains/packagesearch/plugin/maven/EditJpsModuleContext.kt:84-117 | same version: one modification with the scope read from the declared scope; another version: a removal of the old library and an addition at COMPILE with the new version's known repositories; no declared version: nothing |
| JpsEdits.JpsActions.GetToAdd | plugin/jps/src/main/kotlin/com/jetbrains/packagesearch/plugin/maven/EditJpsModuleContext.kt:119-121 | returns the queued additions |
| JpsEdits.JpsActions.GetToRemove | plugin/jps/src/main/kotlin/com/jetbrains/packagesearch/plugin/maven/EditJpsModuleContext.kt:119-121 | returns the queued removals |
| JpsEdits.JpsActions.GetToModify | plugin/jps/src/main/kotlin/com/jetbrains/packagesearch/plugin/maven/EditJpsModuleContext.kt:119-121 | returns the queued modifications |
| KmpUtils.FlatNamesOfIsUnion | plugin/gradle/kmp/src/main/kotlin/com/jetbrains/packagesearch/plugin/gradle/KMPUtils.kt:63-68 | the names under a group are those under any one of its children |
| KmpUtils.StringValues | plugin/gradle/kmp/src/main/kotlin/com/jetbrains/packagesearch/plugin/gradle/KMPUtils.kt:82 | a value is collected iff a plain attribute with it is a child |
| KmpUtils.NestedChildren | plugin/gradle/kmp/src/main/kotlin/com/jetbrains/packagesearch/plugin/gradle/KMPUtils.kt:83 | the grouped children, and only those, are queued |
| KmpUtils.FlatNamesSplit | plugin/gradle/kmp/src/main/kotlin/com/jetbrains/packagesearch/plugin/gradle/KMPUtils.kt:63-68 | a group's names are its plain children's values plus the names under its grouped children |
| KmpUtils.Flatten | plugin/gradle/kmp/src/main/kotlin/com/jetbrains/packagesearch/plugin/gradle/KMPUtils.kt:78-85 | the breadth-first walk collects exactly the recursively defined names of the group |
| KmpUtils.ContainsIsHereditary | plugin/gradle/kmp/src/main/kotlin/com/jetbrains/packagesearch/plugin/gradle/KMPUtils.kt:75-76 | a set containing a group contains each grouped child and each plain child's value |
| KmpUtils.RawAttributeString | plugin/gradle/kmp/src/main/kotlin/com/jetbrains/packagesearch/plugin/gradle/KMPUtils.kt:47-58 | "jsIr" and "jsLegacy" for the two JavaScript compilers, the target of a native compilation, the platform id otherwise, nothing exactly for the common compilation |
| KmpUtils.BuildAttributeStrings | plugin/gradle/kmp/src/main/kotlin/com/jetbrains/packagesearch/plugin/gradle/KMPUtils.kt:46-58 | a raw name is produced iff some compilation has it |
| KmpUtils.CommonContributesNothing | plugin/gradle/kmp/src/main/kotlin/com/jetbrains/packagesearch/plugin/gradle/KMPUtils.kt:55 | dropping the common compilation leaves the raw names unchanged |
| KmpUtils.FilterNotNullValues | plugin/gradle/kmp/src/main/kotlin/com/jetbrains/packagesearch/plugin/gradle/KMPUtils.kt:87-93 | a key is kept iff its value is not null, with that value |
| KmpUtils.FirstMostFrequent | plugin/gradle/kmp/src/main/kotlin/com/jetbrains/packagesearch/plugin/gradle/KMPUtils.kt:168-170 | picks a most frequent configuration, the first one among equally frequent ones |
| KmpUtils.MostFrequentUsedFirst | plugin/gradle/kmp/src/main/kotlin/com/jetbrains/packagesearch/plugin/gradle/KMPUtils.kt:169 | among equally used configurations, the one picked is the one that appears first |
| KmpUtils.KmpDefaultScope | plugin/gradle/kmp/src/main/kotlin/com/jetbrains/packagesearch/plugin/gradle/KMPUtils.kt:168-171 | "implementation" when offered; else the most used configuration, the first used among equally used ones; else the first offered scope; nothing only when there are neither scopes nor dependencies |
| ModuleTree.AnyDependencyHasUpdates | plugin/src/main/kotlin/com/jetbrains/packagesearch/plugin/ui/model/tree/asTree.kt:78-79 | true iff some declared dependency has updates |
| ModuleTree.AnyVariantHasUpdates | plugin/src/main/kotlin/com/jetbrains/packagesearch/plugin/ui/model/tree/asTree.kt:81-82 | true iff some variant has a dependency with updates |
| ModuleTree.AsViewModel | plugin/src/main/kotlin/com/jetbrains/packagesearch/plugin/ui/model/tree/asTree.kt:73-85 | the row carries the module's identity and name and is flagged iff the module has updates |
| ModuleTree.ChildrenIn | plugin/src/main/kotlin/com/jetbrains/packagesearch/plugin/ui/model/tree/asTree.kt:41-49 | a module is a child iff what remains of its path after the prefix is non-empty and has no ':' |
| ModuleTree.AddElements | plugin/src/main/kotlin/com/jetbrains/packagesearch/plugin/ui/model/tree/asTree.kt:35-71 | a node iff some item is a direct child, else a leaf; a node's children are, in order, one subtree per distinct direct child, headed by that child's row |
| ModuleTree.ChildModules | plugin/src/main/kotlin/com/jetbrains/packagesearch/plugin/ui/model/tree/asTree.kt:41-50 | the direct children of a module, each once: a module is listed iff it is a direct child |
| ModuleTree.AddElementsCoversChildren | plugin/src/main/kotlin/com/jetbrains/packagesearch/plugin/ui/model/tree/asTree.kt:41-63 | every direct child among the items heads exactly one subtree of the node |
| ModuleTree.ModulesOfGroup | plugin/src/main/kotlin/com/jetbrains/packagesearch/plugin/ui/model/tree/asTree.kt:11 | the modules of one build system, and only those |
| ModuleTree.GroupWithoutRootIsFlat | plugin/src/main/kotlin/com/jetbrains/packagesearch/plugin/ui/model/tree/asTree.kt:25-30 | a group without a root module gives one leaf per module, for every module |
| ModuleTree.GroupWithoutRootIsLeaves | plugin/src/main/kotlin/com/jetbrains/packagesearch/plugin/ui/model/tree/asTree.kt:13-30 | a group without a root module is its modules as leaves, sorted by path |
| ModuleTree.GroupWithRootsStartsAtRoots | plugin/src/main/kotlin/com/jetbrains/packagesearch/plugin/ui/model/tree/asTree.kt:14-23 | when a group has root modules, exactly they head its trees, one each |
| ModuleTree.RootsOfGroup | plugin/src/main/kotlin/com/jetbrains/packagesearch/plugin/ui/model/tree/asTree.kt:13-14 | the distinct root modules of a sorted group are exactly its modules at the root path |
| ModuleTree.RootTreesCoverRoots | plugin/src/main/kotlin/com/jetbrains/packagesearch/plugin/ui/model/tree/asTree.kt:16-22 | the trees grown from the roots are headed by exactly the root modules, one each |
| ModuleTree.TreesOfGroupStayInGroup | plugin/src/main/kotlin/com/jetbrains/packagesearch/plugin/ui/model/tree/asTree.kt:11-32 | every top-level element of a group's trees belongs to that build system |
| ModuleTree.HasRoot | plugin/src/main/kotlin/com/jetbrains/packagesearch/plugin/ui/model/tree/asTree.kt:14-15 | true iff some module of the group is at the root path ":" |
| ModuleTree.RootTreesTopLevel | plugin/src/main/kotlin/com/jetbrains/packagesearch/plugin/ui/model/tree/asTree.kt:14-22 | the trees grown from the root modules are headed by exactly those roots |
| ModuleTree.GroupTopLevelWithRoots | plugin/src/main/kotlin/com/jetbrains/packagesearch/plugin/ui/model/tree/asTree.kt:14-23 | a group with a root module has exactly its root modules at top level |
| ModuleTree.GroupTopLevelWithoutRoots | plugin/src/main/kotlin/com/jetbrains/packagesearch/plugin/ui/model/tree/asTree.kt:24-30 | a group without a root module has all of its modules at top level |
| ModuleTree.GroupTopLevel | plugin/src/main/kotlin/com/jetbrains/packagesearch/plugin/ui/model/tree/asTree.kt:13-31 | a group's top-level elements are exactly its modules at the root path, or all of its modules when it has none |
| ModuleTree.TreesOfGroupsMembers | plugin/src/main/kotlin/com/jetbrains/packagesearch/plugin/ui/model/tree/asTree.kt:11-12 | an element is among the trees of several build systems iff it is among the trees of one of them |
| ModuleTree.AsTreeTopLevel | plugin/src/main/kotlin/com/jetbrains/packagesearch/plugin/ui/model/tree/asTree.kt:9-33 | the top-level elements of the whole tree are exactly the modules at the root path of their build system, plus every module of a build system without one |
| MppModifier.FindFrom | kmp-modifier/src/main/kotlin/com/intellij/packageSearch/mppDependencyUpdater/MppDependencyModifier.kt:257-268 | the first matching artifact at or after a position; none exactly when no later artifact matches |
| MppModifier.FindIndex | kmp-modifier/src/main/kotlin/com/intellij/packageSearch/mppDependencyUpdater/MppDependencyModifier.kt:257-268 | the first artifact with the descriptor's group, name, version and configuration; none exactly when none matches |
| MppModifier.FindDependency | kmp-modifier/src/main/kotlin/com/intellij/packageSearch/mppDependencyUpdater/MppDependencyModifier.kt:257-268 | the loop returns the first matching artifact |
| MppModifier.WriteFieldEffect | kmp-modifier/src/main/kotlin/com/intellij/packageSearch/mppDependencyUpdater/MppDependencyModifier.kt:239-255 | the field reads the new value; a variable is rewritten, keeping its kind, exactly when the field is one whole eligible variable, else the field becomes a literal; other fields are untouched |
| MppModifier.WriteFieldIdempotent | kmp-modifier/src/main/kotlin/com/intellij/packageSearch/mppDependencyUpdater/MppDependencyModifier.kt:239-255 | writing the same value again changes nothing |
| MppModifier.UpdateWritesOnlyDifferences | kmp-modifier/src/main/kotlin/com/intellij/packageSearch/mppDependencyUpdater/MppDependencyModifier.kt:221-237 | only fields the descriptors disagree on are written; equal descriptors change nothing |
| MppModifier.UpdateNeverWritesMissingVersion | kmp-modifier/src/main/kotlin/com/intellij/packageSearch/mppDependencyUpdater/MppDependencyModifier.kt:231 | a new descriptor without a version leaves the version as it was |
| MppModifier.UpdateMatchesNew | kmp-modifier/src/main/kotlin/com/intellij/packageSearch/mppDependencyUpdater/MppDependencyModifier.kt:221-237 | an artifact found by the old descriptor is found by the new one after the update, unless the new descriptor drops the version (a null new version keeps the old one) |
| MppModifier.WithArtifacts | kmp-modifier/src/main/kotlin/com/intellij/packageSearch/mppDependencyUpdater/MppDependencyModifier.kt:211-219 | only the named source set's dependencies change, and the set of source sets stays the same |
| MppModifier.PutArtifactTwice | kmp-modifier/src/main/kotlin/com/intellij/packageSearch/mppDependencyUpdater/MppDependencyModifier.kt:239-255 | a second write to the same artifact overrides the first |
| MppModifier.DeclaredSourceSet | kmp-modifier/src/main/kotlin/com/intellij/packageSearch/mppDependencyUpdater/dsl/models/KotlinDslModel.kt:28-50 | a new source set has no dependencies block and is delegated unless it is commonMain or commonTest |
| MppModifier.SourceSetLookup | kmp-modifier/src/main/kotlin/com/intellij/packageSearch/mppDependencyUpdater/MppDependencyModifier.kt:201-209 | an existing source set is found as is; a missing one is created only when asked and the model has a source-sets block |
| MppModifier.BlockLookup | kmp-modifier/src/main/kotlin/com/intellij/packageSearch/mppDependencyUpdater/MppDependencyModifier.kt:211-219 | an existing block is found as is; a missing one is created empty only when asked |
| MppModifier.NewArtifact | kmp-modifier/src/main/kotlin/com/intellij/packageSearch/mppDependencyUpdater/MppDependencyModifier.kt:302-307 | the artifact built from a descriptor matches that descriptor |
| MppModifier.AddThenFound | kmp-modifier/src/main/kotlin/com/intellij/packageSearch/mppDependencyUpdater/MppDependencyModifier.kt:66-89 | after an add to an existing block the block grows by one, nothing before it changes, and the descriptor is found |
| MppModifier.AddWithoutCreateNeedsBlock | kmp-modifier/src/main/kotlin/com/intellij/packageSearch/mppDependencyUpdater/MppDependencyModifier.kt:66-89 | without a block and without creation, an add changes nothing |
| MppModifier.RemoveDeletesOne | kmp-modifier/src/main/kotlin/com/intellij/packageSearch/mppDependencyUpdater/MppDependencyModifier.kt:117-135 | a remove deletes the first matching artifact and nothing else, keeping the others in order, or nothing when none matches |
| MppModifier.UpdateThenFound | kmp-modifier/src/main/kotlin/com/intellij/packageSearch/mppDependencyUpdater/MppDependencyModifier.kt:173-199 | after an update of a found artifact the new descriptor is found, unless the new descriptor drops the version |
| MppModifier.MixedKindUpdateSkipped | kmp-modifier/src/main/kotlin/com/intellij/packageSearch/mppDependencyUpdater/MppDependencyModifier.kt:156 | an update between descriptors of different kinds is skipped |
| MppModifier.AddsCompleteIffMaven | kmp-modifier/src/main/kotlin/com/intellij/packageSearch/mppDependencyUpdater/MppDependencyModifier.kt:50-64 | an add batch completes iff every descriptor is a Maven one |
| MppModifier.RemovesCompleteIffMaven | kmp-modifier/src/main/kotlin/com/intellij/packageSearch/mppDependencyUpdater/MppDependencyModifier.kt:102-115 | a remove batch completes iff every descriptor is a Maven one |
| MppModifier.UpdatesCompleteIffMaven | kmp-modifier/src/main/kotlin/com/intellij/packageSearch/mppDependencyUpdater/MppDependencyModifier.kt:149-171 | an update batch completes iff every pair of descriptors of the same kind is a Maven pair |
| MppModifier.KotlinDslModel.constructor | kmp-modifier/src/main/kotlin/com/intellij/packageSearch/mppDependencyUpdater/dsl/models/KotlinDslModel.kt:15-26 | the model holds the given state |
| MppModifier.KotlinDslModel.GetOrCreateSourceSet | kmp-modifier/src/main/kotlin/com/intellij/packageSearch/mppDependencyUpdater/MppDependencyModifier.kt:201-209 | found iff the lookup succeeds; the state becomes the lookup's result, unchanged when not found |
| MppModifier.KotlinDslModel.GetOrCreateDependenciesBlock | kmp-modifier/src/main/kotlin/com/intellij/packageSearch/mppDependencyUpdater/MppDependencyModifier.kt:211-219 | found iff the block lookup succeeds; the state becomes its result, unchanged when not found |
| MppModifier.KotlinDslModel.AddToKotlinModel | kmp-modifier/src/main/kotlin/com/intellij/packageSearch/mppDependencyUpdater/MppDependencyModifier.kt:66-89 | the state becomes the add specification's result |
| MppModifier.KotlinDslModel.RemoveFromKotlinModel | kmp-modifier/src/main/kotlin/com/intellij/packageSearch/mppDependencyUpdater/MppDependencyModifier.kt:117-135 | the state becomes the remove specification's result |
| MppModifier.KotlinDslModel.UpdateVariableOrValue | kmp-modifier/src/main/kotlin/com/intellij/packageSearch/mppDependencyUpdater/MppDependencyModifier.kt:239-255 | the artifact is replaced by the field write's result, variables included |
| MppModifier.KotlinDslModel.UpdateByDescriptor | kmp-modifier/src/main/kotlin/com/intellij/packageSearch/mppDependencyUpdater/MppDependencyModifier.kt:221-237 | the artifact is replaced by the descriptor update's result |
| MppModifier.KotlinDslModel.UpdateInKotlinModel | kmp-modifier/src/main/kotlin/com/intellij/packageSearch/mppDependencyUpdater/MppDependencyModifier.kt:173-199 | the state becomes the update specification's result |
| MppModifier.KotlinDslModel.AddDependencies | kmp-modifier/src/main/kotlin/com/intellij/packageSearch/mppDependencyUpdater/MppDependencyModifier.kt:50-64 | completes iff every descriptor is a Maven one; then the state is every add applied in order, else the state is restored |
| MppModifier.KotlinDslModel.RemoveDependencies | kmp-modifier/src/main/kotlin/com/intellij/packageSearch/mppDependencyUpdater/MppDependencyModifier.kt:102-115 | completes iff every descriptor is a Maven one; then the state is every removal applied in order, else the state is restored |
| MppModifier.KotlinDslModel.UpdateDependencies | kmp-modifier/src/main/kotlin/com/intellij/packageSearch/mppDependencyUpdater/MppDependencyModifier.kt:149-171 | completes iff no same-kind non-Maven update occurs; then the state is every update applied in order, else the state is restored |
| PackageGroups.State.Toggle | plugin/src/main/kotlin/com/jetbrains/packagesearch/plugin/ui/model/PackageGroup.kt:206-216 | toggling always changes the state |
| PackageGroups.ToggleTwice | plugin/src/main/kotlin/com/jetbrains/packagesearch/plugin/ui/model/PackageGroup.kt:206-216 | toggling twice restores the state |
| PackageGroups.FilterMatching | plugin/src/main/kotlin/com/jetbrains/packagesearch/plugin/ui/model/PackageGroup.kt:85-91 | a dependency is kept iff its id or display name contains the query ignoring case |
| PackageGroups.FilterAllVariants | plugin/src/main/kotlin/com/jetbrains/packagesearch/plugin/ui/model/PackageGroup.kt:140-148 | the matching dependencies of all variants, and only those |
| PackageGroups.VariantGroups | plugin/src/main/kotlin/com/jetbrains/packagesearch/plugin/ui/model/PackageGroup.kt:103-121 | at most one group per variant, each from one of the module's variants, for this module and dependency manager, never empty; every variant with a matching declared dependency gets a group |
| PackageGroups.VariantGroupsAppend | plugin/src/main/kotlin/com/jetbrains/packagesearch/plugin/ui/model/PackageGroup.kt:103-121 | the groups of two lists of variants are the groups of the first followed by those of the second, so the groups keep the variants' order |
| PackageGroups.CompactGroup | plugin/src/main/kotlin/com/jetbrains/packagesearch/plugin/ui/model/PackageGroup.kt:124-151 | the group of a module when several are selected: a plain module's matching dependencies, or all variants' matching dependencies |
| PackageGroups.CompactGroups | plugin/src/main/kotlin/com/jetbrains/packagesearch/plugin/ui/model/PackageGroup.kt:124-152 | one group per selected module, in order |
| PackageGroups.LocalGroups | plugin/src/main/kotlin/com/jetbrains/packagesearch/plugin/ui/model/PackageGroup.kt:80-154 | no group without a selection; one group per module when several are selected |
| PackageGroups.SingleBaseModuleGroup | plugin/src/main/kotlin/com/jetbrains/packagesearch/plugin/ui/model/PackageGroup.kt:84-101 | a single plain module gives exactly one group of its matching dependencies when one matches, none otherwise |
| PackageGroups.DeclaredGroupsMatch | plugin/src/main/kotlin/com/jetbrains/packagesearch/plugin/ui/model/PackageGroup.kt:80-154 | every declared group lists only matching dependencies, and its size is their count |
| PackageGroups.NotDeclared | plugin/src/main/kotlin/com/jetbrains/packagesearch/plugin/ui/model/PackageGroup.kt:47 | a result is kept iff the module does not declare its id |
| PackageGroups.VariantsNamed | plugin/src/main/kotlin/com/jetbrains/packagesearch/plugin/ui/model/PackageGroup.kt:72 | the module's variants whose name is among the compatible variants' names |
| PackageGroups.SearchGroups | plugin/src/main/kotlin/com/jetbrains/packagesearch/plugin/ui/model/PackageGroup.kt:33-78 | no results give no groups; results for several modules give one group of them all; the groups are left unchanged exactly for variant results when the selection is not one module with variants or some result has no compatible variant |
| PackageGroups.BaseResultsDropDeclared | plugin/src/main/kotlin/com/jetbrains/packagesearch/plugin/ui/model/PackageGroup.kt:36-52 | for one plain module, exactly one group, for that module and dependency manager, of exactly the results the module does not declare; for any other selection, no group |
| PackageGroups.VariantGroupsShape | plugin/src/main/kotlin/com/jetbrains/packagesearch/plugin/ui/model/PackageGroup.kt:61-76 | one group per variant result, with its packages, the first compatible variant's attribute values as badges and the module's own variants of those names |
| PackageGroups.RemoteLeTotalPreorder | plugin/src/main/kotlin/com/jetbrains/packagesearch/plugin/ui/model/PackageGroup.kt:163-175 | the group order is a total preorder |
| PackageGroups.FindCommonStrings | plugin/src/main/kotlin/com/jetbrains/packagesearch/plugin/ui/model/PackageGroup.kt:186-199 | the strings present in every list, without repeats, in the order they first occur in the first list, and nothing when there are no lists or one is empty |
| PackageGroups.PackageGroupsBuilder.constructor | plugin/src/main/kotlin/com/jetbrains/packagesearch/plugin/ui/model/PackageGroup.kt:22-31 | a new builder has no groups |
| PackageGroups.PackageGroupsBuilder.SetSearchResults | plugin/src/main/kotlin/com/jetbrains/packagesearch/plugin/ui/model/PackageGroup.kt:33-78 | the remote groups become the search groups; they stay as they were exactly when there are variant results and either the selection is not a single module with variants or some result has no compatible variant |
| PackageGroups.PackageGroupsBuilder.SetLocal | plugin/src/main/kotlin/com/jetbrains/packagesearch/plugin/ui/model/PackageGroup.kt:80-154 | the declared groups become the local groups of the selection |
| PackageGroups.PackageGroupsBuilder.Build | plugin/src/main/kotlin/com/jetbrains/packagesearch/plugin/ui/model/PackageGroup.kt:156-159 | the declared groups, then the remote groups |
| PackageGroups.PackageGroupsBuilder.GetDeclared | plugin/src/main/kotlin/com/jetbrains/packagesearch/plugin/ui/model/PackageGroup.kt:161 | returns the declared groups |
| PackageGroups.PackageGroupsBuilder.GetRemotes | plugin/src/main/kotlin/com/jetbrains/packagesearch/plugin/ui/model/PackageGroup.kt:177 | a permutation of the remote groups, sorted in descending group order |
| PackageGroups.Wrap | plugin/src/main/kotlin/com/jetbrains/packagesearch/plugin/ui/model/PackageGroup.kt:180-184 | the declared groups, then the remote groups, whichever operand comes first |
| PackageItemRow.EvaluateUpgrade | plugin/src/main/kotlin/com/jetbrains/packagesearch/plugin/ui/panels/packages/items/PackageItemRow.kt:204-207 | an upgrade is offered iff the declared version is known and older than the target; it is the target |
| PackageItemRow.UpgradeSettles | plugin/src/main/kotlin/com/jetbrains/packagesearch/plugin/ui/panels/packages/items/PackageItemRow.kt:204-207 | after taking the offered upgrade no further upgrade is offered |
| PackageItemRow.GetLatestVersion | plugin/src/main/kotlin/com/jetbrains/packagesearch/plugin/ui/panels/packages/items/PackageItemRow.kt:213-214 | the latest stable version when asked and known, else the latest |
| PackageItemRow.LatestVersionAgreement | plugin/src/main/kotlin/com/jetbrains/packagesearch/plugin/ui/panels/packages/items/PackageItemRow.kt:213-214 | agrees with the declared package's latest version except where the stable one is missing |
| PackageListUtils.NatToString | plugin/src/main/kotlin/com/jetbrains/packagesearch/plugin/ui/model/packageslist/Utils.kt:30 | the count is a non-empty run of decimal digits |
| PackageListUtils.NatToStringRoundTrip | plugin/src/main/kotlin/com/jetbrains/packagesearch/plugin/ui/model/packageslist/Utils.kt:30 | the count reads back as the same number |
| PackageListUtils.CompatibleVariants | plugin/src/main/kotlin/com/jetbrains/packagesearch/plugin/ui/model/packageslist/Utils.kt:34-38 | the primary variant followed by the additional ones |
| PackageListUtils.VariantsTextSummarizes | plugin/src/main/kotlin/com/jetbrains/packagesearch/plugin/ui/model/packageslist/Utils.kt:25-32 | the text names the first two compatible variants and appends "+k" iff there are more, k being the number left unnamed |
| PackageListUtils.VariantsWithTypes | plugin/src/main/kotlin/com/jetbrains/packagesearch/plugin/ui/model/packageslist/Utils.kt:22-23 | the variants with that package-type list, in order |
| PackageListUtils.VariantsWithTypesAppend | plugin/src/main/kotlin/com/jetbrains/packagesearch/plugin/ui/model/packageslist/Utils.kt:22-23 | filtering two lists of variants is filtering each and concatenating, so the variants keep their order |
| PackageListUtils.GroupingPartitions | plugin/src/main/kotlin/com/jetbrains/packagesearch/plugin/ui/model/packageslist/Utils.kt:22-23 | every variant sits in the group of its own types, each group holds only variants of its key, and no group is empty |
| PackageList.StateForOrOpen | plugin/src/main/kotlin/com/jetbrains/packagesearch/plugin/ui/model/packageslist/PackageListBuilder.kt:31-35 | closed exactly when the user collapsed the header; never loading |
| PackageList.QueryHeaderState | plugin/src/main/kotlin/com/jetbrains/packagesearch/plugin/ui/model/packageslist/PackageListBuilder.kt:260-275 | a pending query's header is loading exactly when the user opened it; never open |
| PackageList.ResultsHeaderState | plugin/src/main/kotlin/com/jetbrains/packagesearch/plugin/ui/model/packageslist/PackageListBuilder.kt:352-355 | a results header is open exactly when the user opened it; never loading |
| PackageList.CountUpdates | plugin/src/main/kotlin/com/jetbrains/packagesearch/plugin/ui/model/packageslist/PackageListBuilder.kt:37-41 | positive iff a matching dependency has updates, and at most the number of dependencies |
| PackageList.UpdatesContent | plugin/src/main/kotlin/com/jetbrains/packagesearch/plugin/ui/model/packageslist/PackageListBuilder.kt:37-41 | present iff a matching dependency has updates, with a positive count |
| PackageList.UpdatesContentOfFiltered | plugin/src/main/kotlin/com/jetbrains/packagesearch/plugin/ui/model/packageslist/PackageListBuilder.kt:37-41 | counting over dependencies already filtered by the query changes nothing |
| PackageList.CountUpdatesOfFiltered | plugin/src/main/kotlin/com/jetbrains/packagesearch/plugin/ui/model/packageslist/PackageListBuilder.kt:37-41 | counting updates over dependencies already filtered by the query changes nothing |
| PackageList.HeaderContent | plugin/src/main/kotlin/com/jetbrains/packagesearch/plugin/ui/model/packageslist/PackageListBuilder.kt:85-88 | "loading" while the header's module is being edited, else the update count; the same choice is made for variant and compact headers at lines 186-189 and 227-231 |
| PackageList.CandidateVersions | plugin/src/main/kotlin/com/jetbrains/packagesearch/plugin/ui/model/packageslist/PackageListBuilder.kt:43-60 | a version is offered iff it is a remote one, and stable when only stable versions are wanted |
| PackageList.AvailableVersionsSorted | plugin/src/main/kotlin/com/jetbrains/packagesearch/plugin/ui/model/packageslist/PackageListBuilder.kt:43-60 | the offered versions are a permutation of the candidates, newest first, stable when asked, none without remote information |
| PackageList.Without | plugin/src/main/kotlin/com/jetbrains/packagesearch/plugin/ui/model/packageslist/PackageListBuilder.kt:132-134 | removes exactly the given value; a null removes nothing |
| PackageList.DeclaredPackageItem | plugin/src/main/kotlin/com/jetbrains/packagesearch/plugin/ui/model/packageslist/PackageListBuilder.kt:111-138 | the row's scopes and versions leave out the selected scope and the declared version, and it is loading iff its package is |
| PackageList.BaseDependencyItems | plugin/src/main/kotlin/com/jetbrains/packagesearch/plugin/ui/model/packageslist/PackageListBuilder.kt:75-109 | one row per dependency, in order |
| PackageList.FilterMatchingIdempotent | plugin/src/main/kotlin/com/jetbrains/packagesearch/plugin/ui/model/packageslist/PackageListBuilder.kt:75-109 | filtering by the query twice is filtering once |
| PackageList.BaseModuleSplit | plugin/src/main/kotlin/com/jetbrains/packagesearch/plugin/ui/model/packageslist/PackageListBuilder.kt:75-109 | a plain module's section is its header (when a dependency matches or the list is compact) followed by its rows |
| PackageList.BaseModuleHeader | plugin/src/main/kotlin/com/jetbrains/packagesearch/plugin/ui/model/packageslist/PackageListBuilder.kt:75-109 | the header comes first exactly when a dependency matches or the list is compact, and rows follow only an open header |
| PackageList.BaseRowsAreRows | plugin/src/main/kotlin/com/jetbrains/packagesearch/plugin/ui/model/packageslist/PackageListBuilder.kt:75-109 | every row is that of a matching dependency, and rows appear only under an open header |
| PackageList.VariantDependencyItems | plugin/src/main/kotlin/com/jetbrains/packagesearch/plugin/ui/model/packageslist/PackageListBuilder.kt:166-214 | one row per dependency of a variant, in order |
| PackageList.VariantSectionSplit | plugin/src/main/kotlin/com/jetbrains/packagesearch/plugin/ui/model/packageslist/PackageListBuilder.kt:176-211 | a variant's section with a match is its header, whose update count covers the matching dependencies only, followed by a row per matching dependency under an open header |
| PackageList.VariantSectionShape | plugin/src/main/kotlin/com/jetbrains/packagesearch/plugin/ui/model/packageslist/PackageListBuilder.kt:166-214 | a variant's section is empty exactly when nothing matches; its header counts matching updates; rows follow only an open header and each is a matching dependency's |
| PackageList.PairsOf | plugin/src/main/kotlin/com/jetbrains/packagesearch/plugin/ui/model/packageslist/PackageListBuilder.kt:216-255 | each dependency paired with its variant, in order |
| PackageList.AllVariantDependencies | plugin/src/main/kotlin/com/jetbrains/packagesearch/plugin/ui/model/packageslist/PackageListBuilder.kt:216-255 | a pair is listed iff the dependency belongs to that variant |
| PackageList.FilterPairs | plugin/src/main/kotlin/com/jetbrains/packagesearch/plugin/ui/model/packageslist/PackageListBuilder.kt:216-255 | a pair is kept iff its dependency matches the query |
| PackageList.Dependencies | plugin/src/main/kotlin/com/jetbrains/packagesearch/plugin/ui/model/packageslist/PackageListBuilder.kt:216-255 | the dependencies of the pairs, in order |
| PackageList.CompactItems | plugin/src/main/kotlin/com/jetbrains/packagesearch/plugin/ui/model/packageslist/PackageListBuilder.kt:216-255 | one row per pair, in order |
| PackageList.CompactModuleShape | plugin/src/main/kotlin/com/jetbrains/packagesearch/plugin/ui/model/packageslist/PackageListBuilder.kt:216-255 | the compact section always has its header; rows follow only an open header, one per matching (variant, dependency) pair |
| PackageList.RemoteBaseRow | plugin/src/main/kotlin/com/jetbrains/packagesearch/plugin/ui/model/packageslist/PackageListBuilder.kt:368-379 | a plain module's result row has the remote id and is loading iff that id is |
| PackageList.RemoteBaseRows | plugin/src/main/kotlin/com/jetbrains/packagesearch/plugin/ui/model/packageslist/PackageListBuilder.kt:364-380 | one row per shown result, in order |
| PackageList.ResultsBaseShape | plugin/src/main/kotlin/com/jetbrains/packagesearch/plugin/ui/model/packageslist/PackageListBuilder.kt:347-382 | the results header first; at most 25 rows, only under an open header, each for one of the first 25 results the module does not declare |
| PackageList.NotDeclaredShrinks | plugin/src/main/kotlin/com/jetbrains/packagesearch/plugin/ui/model/packageslist/PackageListBuilder.kt:366 | dropping declared packages never adds results |
| PackageList.PrimaryVariant | plugin/src/main/kotlin/com/jetbrains/packagesearch/plugin/ui/model/packageslist/PackageListBuilder.kt:312-317 | the primary variant with that name; none exactly when there is no such variant |
| PackageList.AdditionalVariantsFor | plugin/src/main/kotlin/com/jetbrains/packagesearch/plugin/ui/model/packageslist/PackageListBuilder.kt:321-325 | an additional variant is offered iff it exists and does not declare the package |
| PackageList.RemoteVariantRow | plugin/src/main/kotlin/com/jetbrains/packagesearch/plugin/ui/model/packageslist/PackageListBuilder.kt:385-406 | the row has the remote id, is loading iff that id is, is marked installed iff the primary variant declares it, and lists the variants it can still be added to |
| PackageList.RemoteVariantRows | plugin/src/main/kotlin/com/jetbrains/packagesearch/plugin/ui/model/packageslist/PackageListBuilder.kt:318-343 | at most one row per result |
| PackageList.RemoteVariantRowsExact | plugin/src/main/kotlin/com/jetbrains/packagesearch/plugin/ui/model/packageslist/PackageListBuilder.kt:318-343 | a result gets a row exactly when it is not skipped |
| PackageList.ResultsVariantShape | plugin/src/main/kotlin/com/jetbrains/packagesearch/plugin/ui/model/packageslist/PackageListBuilder.kt:295-345 | the results header with the variants summary first; at most 25 rows, only under an open header |
| PackageList.QueryEntryIsHeaderOnly | plugin/src/main/kotlin/com/jetbrains/packagesearch/plugin/ui/model/packageslist/PackageListBuilder.kt:260-278 | a pending query adds exactly its header, loading iff the user opened it |
| PackageList.PackageListBuilder.constructor | plugin/src/main/kotlin/com/jetbrains/packagesearch/plugin/ui/model/packageslist/PackageListBuilder.kt:13-27 | the builder starts with no items and keeps its arguments |
| PackageList.PackageListBuilder.Build | plugin/src/main/kotlin/com/jetbrains/packagesearch/plugin/ui/model/packageslist/PackageListBuilder.kt:29 | returns the items appended so far |
| PackageList.PackageListBuilder.AddHeader | plugin/src/main/kotlin/com/jetbrains/packagesearch/plugin/ui/model/packageslist/PackageListBuilder.kt:140-156 | appends exactly that header |
| PackageList.PackageListBuilder.AddDeclaredPackage | plugin/src/main/kotlin/com/jetbrains/packagesearch/plugin/ui/model/packageslist/PackageListBuilder.kt:111-138 | appends exactly the declared-package row |
| PackageList.PackageListBuilder.AddFromModules | plugin/src/main/kotlin/com/jetbrains/packagesearch/plugin/ui/model/packageslist/PackageListBuilder.kt:64-66 | appends every module's section, in order |
| PackageList.PackageListBuilder.AddFromModule | plugin/src/main/kotlin/com/jetbrains/packagesearch/plugin/ui/model/packageslist/PackageListBuilder.kt:68-73 | appends the section of a plain module, or of a module with variants |
| PackageList.PackageListBuilder.AddFromBaseModule | plugin/src/main/kotlin/com/jetbrains/packagesearch/plugin/ui/model/packageslist/PackageListBuilder.kt:75-109 | appends the plain module's section |
| PackageList.PackageListBuilder.AddBaseRow | plugin/src/main/kotlin/com/jetbrains/packagesearch/plugin/ui/model/packageslist/PackageListBuilder.kt:95-106 | appends the row for one dependency of a plain module, with its base-module package id and the module's scopes |
| PackageList.PackageListBuilder.AddBaseRows | plugin/src/main/kotlin/com/jetbrains/packagesearch/plugin/ui/model/packageslist/PackageListBuilder.kt:92-107 | appends one row per shown dependency of a plain module, in order |
| PackageList.PackageListBuilder.AddFromModuleWithVariants | plugin/src/main/kotlin/com/jetbrains/packagesearch/plugin/ui/model/packageslist/PackageListBuilder.kt:158-164 | appends the compact or the expanded section, as the list is compact or not |
| PackageList.PackageListBuilder.AddFromModuleWithVariantsExpanded | plugin/src/main/kotlin/com/jetbrains/packagesearch/plugin/ui/model/packageslist/PackageListBuilder.kt:166-214 | appends every variant's section, in order |
| PackageList.PackageListBuilder.AddVariantSection | plugin/src/main/kotlin/com/jetbrains/packagesearch/plugin/ui/model/packageslist/PackageListBuilder.kt:169-213 | appends one variant's section |
| PackageList.PackageListBuilder.AddVariantRow | plugin/src/main/kotlin/com/jetbrains/packagesearch/plugin/ui/model/packageslist/PackageListBuilder.kt:195-210 | appends the row for one dependency of a variant, with its variant package id and the variant's scopes |
| PackageList.PackageListBuilder.AddVariantRows | plugin/src/main/kotlin/com/jetbrains/packagesearch/plugin/ui/model/packageslist/PackageListBuilder.kt:192-211 | appends one row per shown dependency of a variant, in order |
| PackageList.PackageListBuilder.AddCompactRow | plugin/src/main/kotlin/com/jetbrains/packagesearch/plugin/ui/model/packageslist/PackageListBuilder.kt:237-252 | appends one compact row |
| PackageList.PackageListBuilder.AddCompactRows | plugin/src/main/kotlin/com/jetbrains/packagesearch/plugin/ui/model/packageslist/PackageListBuilder.kt:234-253 | appends one compact row per pair, in order |
| PackageList.PackageListBuilder.AddFromModuleWithVariantsCompact | plugin/src/main/kotlin/com/jetbrains/packagesearch/plugin/ui/model/packageslist/PackageListBuilder.kt:216-255 | appends the compact section |
| PackageList.PackageListBuilder.AddFromSearch | plugin/src/main/kotlin/com/jetbrains/packagesearch/plugin/ui/model/packageslist/PackageListBuilder.kt:257-293 | appends every search entry's items, in order |
| PackageList.PackageListBuilder.AddSearchEntry | plugin/src/main/kotlin/com/jetbrains/packagesearch/plugin/ui/model/packageslist/PackageListBuilder.kt:258-292 | appends one search entry's items |
| PackageList.PackageListBuilder.AddFromSearchQueryBase | plugin/src/main/kotlin/com/jetbrains/packagesearch/plugin/ui/model/packageslist/PackageListBuilder.kt:347-382 | appends the results header and, under an open header, the rows of the shown results |
| PackageList.PackageListBuilder.AddFromSearchQueryWithVariants | plugin/src/main/kotlin/com/jetbrains/packagesearch/plugin/ui/model/packageslist/PackageListBuilder.kt:295-345 | appends the results header with the variants summary and, under an open header, the rows of the first 25 results not skipped |
| PackageList.PackageListBuilder.AddRemotePackageWithVariants | plugin/src/main/kotlin/com/jetbrains/packagesearch/plugin/ui/model/packageslist/PackageListBuilder.kt:385-406 | appends exactly the remote row with variants |
| PackageList.PackageListBuilder.AddRemoteBasePackage | plugin/src/main/kotlin/com/jetbrains/packagesearch/plugin/ui/model/packageslist/PackageListBuilder.kt:408-423 | appends exactly the remote row |
| RegistryPatch.SetLineAfter | buildSrc/src/main/kotlin/org/jetbrains/packagesearch/gradle/patchIntelliJRegistryFile.kt:18-20 | the same number of lines; only the line after the index becomes "true" |
| RegistryPatch.PatchRegistryLines | buildSrc/src/main/kotlin/org/jetbrains/packagesearch/gradle/patchIntelliJRegistryFile.kt:12-25 | the patched lines always contain the experimental UI key |
| RegistryPatch.PatchWhenPresent | buildSrc/src/main/kotlin/org/jetbrains/packagesearch/gradle/patchIntelliJRegistryFile.kt:16-20 | with the key at its first index, only the next line changes, and it becomes "true" |
| RegistryPatch.PatchWhenAbsent | buildSrc/src/main/kotlin/org/jetbrains/packagesearch/gradle/patchIntelliJRegistryFile.kt:21-22 | without the key, the key and "true" are appended |
| RegistryPatch.PatchKeyOnLastLine | buildSrc/src/main/kotlin/org/jetbrains/packagesearch/gradle/patchIntelliJRegistryFile.kt:16-20 | a key only on the last line leaves the lines as they are |
| RegistryPatch.PatchIdempotent | buildSrc/src/main/kotlin/org/jetbrains/packagesearch/gradle/patchIntelliJRegistryFile.kt:12-25 | patching twice is patching once |

## Left out

- I/O and host services are not modelled:
  - Coroutines, flows and `suspend` are left out. Each operation is modelled as one call.
  - Compose UI, icons and localized bundle texts are left out. A bundle text is
    represented by its message key.
  - PSI and write actions are left out. The Kotlin DSL model is a value: source sets by
    name with an optional artifact list, plus the script's variables.
- Reading and writing the registry file is left out. `RegistryPatch` works on its lines.
- Time outs, cancellation and the IDE logger's output channels are left out. The logger's
  output is a list of calls.
- `NormalizedVersion` comes from an external library, and its ordering is not part of this
  model. It is modelled as `Missing`, or as a known version with a rank and a stability
  flag, with `Missing` lowest.
- `GradleVersion` is modelled as a numeric (major, minor, patch) triple.
- `matchesSearchQuery` and `hasUpdates` are not part of this model. Matching is modelled as
  the id or the display name containing the query, ignoring case. `hasUpdates` is modelled
  by the declared package's stored update flags.
- Case-insensitive comparison folds ASCII letters only. Unicode case folding is not
  modelled.
- `isBlank` treats ASCII whitespace only.
- `BaseGradleModuleProvider.kt` is not part of this model. Its `commonConfigurations` list
  is modelled as the usual Gradle configuration names (`GradleUtils.CommonConfigurations`).
- `PackageSearchGradleModel` is not part of this model. The known-repository filter
  compares the declared repositories' URLs with a repository's alternate URLs.
- The com builder passes 13 arguments to a constructor that takes 11.
  `GradleTooling.BuildAll` models what the builder evidently means: each value stored under
  its own name.
- Kotlin maps become sequences of entries where iteration order matters, such as a
  module's `variants` and the search-result map. `modulesMap` is a Dafny `map`.
  `asTree` groups modules by build system in the order each build system first appears
  (`ModuleTree.AsTree`). The `groupBy` in `groupByCompatiblePackageTypes` becomes a Dafny
  `map`, so the order of its keys is not modelled.
- `asTree` models `toSet()` on modules as removing repeats, keeping the first occurrences.
  The Jewel tree is modelled as a datatype of nodes and leaves.
- `PackageSearchModuleVariant.toString` is modelled by the variant's name. It is used in
  `joinToString` in the group comparator.
- `mergeAttributes` and `parseAttributesFromRawStrings` are not modelled. The parser of raw
  attribute strings is not part of this model. `KmpUtils.BuildAttributeStrings` stops at
  the raw strings.
- `KmpUtils.KmpDefaultScope` does not model the exception of `availableScopes.first()`. On
  an empty list it returns no scope.
- Logging calls inside the core are left out, as is `logTODO`, which reads the thread's
  stack trace.
- The MPP editor has these limits:
  - `MppDependency.kt`, `SourceSetModel` and `DependenciesModel` are not part of this model.
    The descriptor fields come from their uses, and a Maven version may be missing.
  - A `TODO()` on an npm or CocoaPods descriptor is modelled as the batch aborting with the
    model unchanged. The exception means nothing is written.
  - Artifacts are addressed by their index in their source set. Aliasing of PSI elements is
    not modelled.
  - A write through to a variable does not re-resolve other properties that use the same
    variable.
  - A reference to a variable the script does not define is treated as not eligible.
- `modifyKotlinModel`, which finds the build file, the DSL model and runs the write
  command, is left out. A missing build model is left out with it.
- The dependency manager and the module editor are opaque tokens in the package groups.
- `PackageList.PackageListBuilder.AddFromSearch` requires every result entry's header to be
  of the matching kind, because the source casts the header id there. A failing cast is an
  exception and is not modelled.
- `PackageListItem.Header.AdditionalContent.VariantsText` holds the summary string. The
  summary's count is proved to read back as a number
  (`PackageListUtils.NatToStringRoundTrip`).
- `PackageGroups.PackageGroupsBuilder.GetRemotes` sorts with a stable insertion sort and then
  reverses. Its contract states a permutation, sorted in descending order. It does not state
  which way equal groups end up.
- PackageGroups.SearchGroups: `first()` on an empty list of compatible variants throws in
  the source. The model returns no groups (`None`), which leaves the builder's groups
  unchanged.
- JpsEdits.JpsActions.Remove: queues the intended `group:artifact:version` entry. The entry
  as written, with a stray `}`, is `JpsEdits.RemoveIdAsWritten` (see Findings).
- GradleToolingLegacy.BuildAllLegacy: the org builder passes 9 arguments to a constructor
  that takes 8 and has no `rootProjectName`. The model stores each value under its own
  name, including `rootProjectName`.

## Findings

| source | as written | input that shows it | evidently intended | confidence | as-written member | corrected member |
|---|---|---|---|---|---|---|
| plugin/jps/src/main/kotlin/com/jetbrains/packagesearch/plugin/maven/EditJpsModuleContext.kt:71 | `remove` queues `"$groupId:$artifactId:$version}"`, with a stray `}` after the version. The consumer (`plugin/jps/src/main/kotlin/com/jetbrains/packagesearch/plugin/maven/PackageSearchJpsModule.kt:81-84`) looks the entry up among library ids `group:artifact:version`, so the library is never found and never removed | library `g:a:1`: the queued entry is `"g:a:1}"`, which is not a key of the module's library map | queue `"g:a:1"`, the library id, as `Add` and `Modify` do | not executed | `JpsEdits.AsWrittenRemoveMissesLibrary` | `JpsEdits.RemoveFindsLibrary` |

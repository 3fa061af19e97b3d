/**
 * The plugin's shared data model: module identities, normalized versions, the remote
 * package record, declared packages, module variants with their attributes, and the
 * two kinds of module (a plain module and one with variants, such as Kotlin
 * Multiplatform source sets).
 */
module CoreData {
  import opened Wrappers
  import Sorting

  /** `PackageSearchModule.Identity`: the build system ("gradle", "maven", ...) and the module path. */
  datatype Identity = Identity(group: string, path: string)

  /**
   * A normalized version. The comparator lives in an external library; here a missing
   * version sorts before every known one and known versions compare by `rank`.
   */
  datatype NormalizedVersion =
    | Missing
    | Known(name: string, rank: int, stable: bool)
  {
    function VersionName(): string {
      if Missing? then "" else name
    }

    predicate IsStable() {
      Known? && stable
    }
  }

  /** "`a` is not after `b`" in version order. */
  predicate VersionLe(a: NormalizedVersion, b: NormalizedVersion) {
    a.Missing? || (b.Known? && a.rank <= b.rank)
  }

  predicate VersionLess(a: NormalizedVersion, b: NormalizedVersion) {
    !VersionLe(b, a)
  }

  /** Version order is a total preorder, so sorting by it is well defined. */
  lemma VersionLeTotalPreorder()
    ensures Sorting.TotalPreorder(VersionLe)
  {
  }

  /** A strictly greater version is never a missing one. */
  lemma VersionLessNotMissing(a: NormalizedVersion, b: NormalizedVersion)
    requires VersionLess(a, b)
    ensures b.Known?
  {
  }

  /** One published version of a remote package and the repositories that host it. */
  datatype ApiVersion = ApiVersion(normalizedVersion: NormalizedVersion, repositoryIds: seq<string>) {
    function VersionName(): string {
      normalizedVersion.VersionName()
    }
  }

  datatype ApiVersions = ApiVersions(latestStable: Option<ApiVersion>, latest: ApiVersion, all: seq<ApiVersion>)

  /** The remote package record from the search API. */
  datatype ApiPackage = ApiPackage(id: string, name: string, coordinates: string, versions: ApiVersions)

  /**
   * A dependency declared in a build file. `hasUpdates` and `hasStableUpdates` are the
   * answers of `hasUpdates(onlyStable)`, which is computed outside this model.
   */
  datatype DeclaredPackage = DeclaredPackage(
    id: string,
    displayName: string,
    coordinates: string,
    declaredVersion: Option<NormalizedVersion>,
    remoteInfo: Option<ApiPackage>,
    declaredScope: Option<string>,
    configuration: string,
    hasUpdates: bool,
    hasStableUpdates: bool)
  {
    predicate HasUpdates(onlyStable: bool) {
      if onlyStable then hasStableUpdates else hasUpdates
    }
  }

  /**
   * `PackageSearchDeclaredPackage.getLatestVersion(onlyStable)`: the remote latest stable
   * version when only stable versions are wanted, otherwise the remote latest one.
   */
  function DeclaredLatestVersion(p: DeclaredPackage, onlyStable: bool): (r: Option<ApiVersion>)
    ensures p.remoteInfo.None? ==> r.None?
    ensures p.remoteInfo.Some? && !onlyStable ==> r == Some(p.remoteInfo.value.versions.latest)
    ensures p.remoteInfo.Some? && onlyStable ==> r == p.remoteInfo.value.versions.latestStable
  {
    match p.remoteInfo
    case None => None
    case Some(info) => if onlyStable then info.versions.latestStable else Some(info.versions.latest)
  }

  /** A variant attribute: a plain name, or a named group of nested attributes. */
  datatype Attribute =
    | StringAttribute(value: string)
    | NestedAttribute(value: string, children: seq<Attribute>)

  /** The kinds of package a module accepts, as built by `buildPackageTypes`. */
  datatype PackagesType =
    | MavenPackages
    | AndroidPackages
    | JvmGradlePackages(variant: string)
    | GradlePackages(isRootPublication: bool)

  /** A module variant (a Kotlin Multiplatform source set, say). */
  datatype Variant = Variant(
    name: string,
    declaredDependencies: seq<DeclaredPackage>,
    attributes: seq<Attribute>,
    availableScopes: seq<string>,
    compatiblePackageTypes: seq<PackagesType>,
    isPrimary: bool)

  /**
   * `PackageSearchModule`. A `WithVariants` module's variant map is kept as the
   * sequence of its values in map order; the keys are the variant names.
   */
  datatype Module =
    | Base(
        name: string,
        identity: Identity,
        availableScopes: seq<string>,
        defaultScope: Option<string>,
        compatiblePackageTypes: seq<PackagesType>,
        dependencyMustHaveAScope: bool,
        declaredDependencies: seq<DeclaredPackage>)
    | WithVariants(
        name: string,
        identity: Identity,
        availableScopes: seq<string>,
        defaultScope: Option<string>,
        compatiblePackageTypes: seq<PackagesType>,
        dependencyMustHaveAScope: bool,
        variants: seq<Variant>)

  /** The variant stored under `name` (`variants[name]`). */
  function VariantNamed(variants: seq<Variant>, name: string): (r: Option<Variant>)
    ensures r.Some? ==> r.value in variants && r.value.name == name
    ensures r.None? <==> forall v :: v in variants ==> v.name != name
  {
    if variants == [] then None
    else if variants[0].name == name then Some(variants[0])
    else VariantNamed(variants[1..], name)
  }

  predicate AnyHasUpdates(ps: seq<DeclaredPackage>, onlyStable: bool) {
    exists p :: p in ps && p.HasUpdates(onlyStable)
  }

  /** `PackageSearchModule.hasUpdates` / `hasStableUpdates`: some declared dependency, in any variant, has updates. */
  predicate ModuleHasUpdates(m: Module, onlyStable: bool) {
    match m
    case Base(_, _, _, _, _, _, ds) => AnyHasUpdates(ds, onlyStable)
    case WithVariants(_, _, _, _, _, _, vs) => exists v :: v in vs && AnyHasUpdates(v.declaredDependencies, onlyStable)
  }
}

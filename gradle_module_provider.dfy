/**
 * `GradleModuleProvider.transform`: turns the Gradle snapshot of one project into the
 * plugin's Gradle module. It picks the scopes and the default scope, fixes the path
 * of `buildSrc`, and chooses the package types. The flow it emits into becomes an
 * optional result. The build-file dependency loader it calls becomes a parameter:
 * the list that loader returns for the build file.
 */
module GradleModuleProvider {
  import opened Wrappers
  import opened CoreData
  import GradleTooling

  /** A repository the search service knows about; Maven ones list their alternate URLs. */
  datatype KnownRepository =
    | ApiMavenRepository(alternateUrls: seq<string>)
    | OtherApiRepository

  /** `PackageSearchGradleModule`, without its IDE handles. */
  datatype GradleModule = GradleModule(
    name: string,
    identity: Identity,
    buildFilePath: Option<string>,
    declaredRepositories: seq<GradleTooling.DeclaredRepository>,
    declaredDependencies: seq<DeclaredPackage>,
    availableKnownRepositories: map<string, KnownRepository>,
    defaultScope: Option<string>,
    availableScopes: seq<string>,
    compatiblePackageTypes: seq<PackagesType>)

  const BuildSrc := "buildSrc"
  const Implementation := "implementation"

  /** `fixBuildSrc`: the root path of the `buildSrc` project becomes ":buildSrc". */
  function FixBuildSrc(path: string, projectName: string): (r: string)
    ensures projectName == BuildSrc && path == ":" ==> r == ":buildSrc"
    ensures r != path ==> projectName == BuildSrc && path == ":"
  {
    if projectName == BuildSrc && path == ":" then ":buildSrc" else path
  }

  /** Fixing an already fixed path changes nothing. */
  lemma FixBuildSrcIdempotent(path: string, projectName: string)
    ensures FixBuildSrc(FixBuildSrc(path, projectName), projectName) == FixBuildSrc(path, projectName)
  {
  }

  /** The names of the configurations a build script may declare dependencies in, in order. */
  function ConfigurationNames(cs: seq<GradleTooling.Configuration>): seq<string> {
    if cs == [] then []
    else if cs[0].canBeDeclared then [cs[0].name] + ConfigurationNames(cs[1..])
    else ConfigurationNames(cs[1..])
  }

  /** A name is offered iff some declarable configuration carries it. */
  lemma {:induction false} ConfigurationNamesExact(cs: seq<GradleTooling.Configuration>, name: string)
    ensures name in ConfigurationNames(cs) <==> exists c :: c in cs && c.canBeDeclared && c.name == name
  {
    if cs != [] {
      ConfigurationNamesExact(cs[1..], name);
      assert forall c :: c in cs <==> c == cs[0] || c in cs[1..];
    }
  }

  /** The configurations keep their snapshot order. */
  lemma {:induction false} ConfigurationNamesAppend(cs1: seq<GradleTooling.Configuration>, cs2: seq<GradleTooling.Configuration>)
    ensures ConfigurationNames(cs1 + cs2) == ConfigurationNames(cs1) + ConfigurationNames(cs2)
  {
    if cs1 == [] {
      assert cs1 + cs2 == cs2;
    } else {
      ConfigurationNamesAppend(cs1[1..], cs2);
      assert (cs1 + cs2)[0] == cs1[0];
      assert (cs1 + cs2)[1..] == cs1[1..] + cs2;
    }
  }

  /** The default scope: "implementation" when offered, else the first offered scope, else none. */
  function DefaultScope(names: seq<string>): (r: Option<string>)
    ensures r.None? <==> names == []
    ensures r.Some? ==> r.value in names
  {
    if Implementation in names then Some(Implementation)
    else if names == [] then None
    else Some(names[0])
  }

  /** "implementation" wins whenever it is offered; otherwise nothing before the first scope is preferred. */
  lemma DefaultScopePreference(names: seq<string>)
    ensures Implementation in names ==> DefaultScope(names) == Some(Implementation)
    ensures Implementation !in names && names != [] ==> DefaultScope(names) == Some(names[0])
  {
  }

  /** Maven package types, then Android, plain JVM jars, or root Gradle publications. */
  function PackageTypes(model: GradleTooling.JavaModel): (r: seq<PackagesType>)
    ensures |r| == 2 && r[0] == MavenPackages
    ensures model.isKotlinAndroidApplied ==> AndroidPackages in r && JvmGradlePackages("jar") !in r
    ensures !model.isKotlinAndroidApplied && model.IsJavaApplied() ==> r[1] == JvmGradlePackages("jar")
    ensures !model.isKotlinAndroidApplied && !model.IsJavaApplied() ==> r[1] == GradlePackages(true)
  {
    [MavenPackages] +
      if model.isKotlinAndroidApplied then [AndroidPackages]
      else if model.IsJavaApplied() then [JvmGradlePackages("jar")]
      else [GradlePackages(true)]
  }

  predicate SharesUrl(alternateUrls: seq<string>, declared: seq<GradleTooling.DeclaredRepository>) {
    exists u, d :: u in alternateUrls && d in declared && d.url == u
  }

  /** The known Maven repositories one of whose URLs the project declares. */
  function AvailableKnownRepositories(known: map<string, KnownRepository>, declared: seq<GradleTooling.DeclaredRepository>): (r: map<string, KnownRepository>)
    ensures forall k :: k in r <==> k in known && known[k].ApiMavenRepository? && SharesUrl(known[k].alternateUrls, declared)
    ensures forall k :: k in r ==> r[k] == known[k]
  {
    map k | k in known && known[k].ApiMavenRepository? && SharesUrl(known[k].alternateUrls, declared) :: known[k]
  }

  /**
   * `transform`. `loadedDependencies` is what the build-file loader returns for the
   * project's build file; it is only consulted when the snapshot has one.
   */
  function Transform(model: GradleTooling.JavaModel, isKmpEnabled: bool, known: map<string, KnownRepository>,
                     loadedDependencies: seq<DeclaredPackage>): (r: Option<GradleModule>)
    ensures r.None? <==> isKmpEnabled && model.isKotlinMultiplatformApplied
  {
    if isKmpEnabled && model.isKotlinMultiplatformApplied then None
    else
      var names := ConfigurationNames(model.configurations);
      Some(GradleModule(
        model.projectName,
        Identity("gradle", FixBuildSrc(model.projectIdentityPath, model.projectName)),
        model.buildFilePath,
        model.declaredRepositories,
        if model.buildFilePath.Some? then loadedDependencies else [],
        AvailableKnownRepositories(known, model.declaredRepositories),
        DefaultScope(names),
        names,
        PackageTypes(model)))
  }

  /** What an emitted module promises about its scopes, dependencies and identity. */
  lemma TransformProperties(model: GradleTooling.JavaModel, isKmpEnabled: bool, known: map<string, KnownRepository>,
                            loadedDependencies: seq<DeclaredPackage>)
    requires !(isKmpEnabled && model.isKotlinMultiplatformApplied)
    ensures var m := Transform(model, isKmpEnabled, known, loadedDependencies).value;
      && (forall s :: s in m.availableScopes <==> exists c :: c in model.configurations && c.canBeDeclared && c.name == s)
      && (m.defaultScope.Some? ==> m.defaultScope.value in m.availableScopes)
      && (m.defaultScope.None? <==> m.availableScopes == [])
      && (model.buildFilePath.None? ==> m.declaredDependencies == [])
      && m.identity.group == "gradle"
      && m.buildFilePath == model.buildFilePath
  {
    var m := Transform(model, isKmpEnabled, known, loadedDependencies).value;
    forall s ensures s in m.availableScopes <==> exists c :: c in model.configurations && c.canBeDeclared && c.name == s {
      ConfigurationNamesExact(model.configurations, s);
    }
  }
}

/**
 * Scope and id helpers for Gradle modules: the scopes offered for a module, built from
 * the common Gradle configurations and the ones its dependencies already use, and the
 * `maven:` package id of a dependency.
 */
module GradleUtils {
  import opened Wrappers
  import opened CoreData
  import opened Collections

  /** `BaseGradleModuleProvider.commonConfigurations`, in declaration order. */
  const CommonConfigurations: seq<string> := [
    "implementation", "api", "compileOnly", "runtimeOnly",
    "testImplementation", "testCompileOnly", "testRuntimeOnly",
    "annotationProcessor", "detektPlugins", "kapt", "ksp",
    "androidTestImplementation", "androidTestCompileOnly", "androidTestRuntimeOnly"]

  /** The common configurations not among `configurationNames`, in order. */
  function CommonNotDeclared(configurationNames: seq<string>): seq<string> {
    Minus(CommonConfigurations, configurationNames)
  }

  function UsedConfigurations(declared: seq<DeclaredPackage>): (r: seq<string>)
    ensures |r| == |declared|
    ensures forall i :: 0 <= i < |declared| ==> r[i] == declared[i].configuration
  {
    if declared == [] then [] else [declared[0].configuration] + UsedConfigurations(declared[1..])
  }

  /**
   * `generateAvailableScope`: the common configurations the module does not declare
   * itself, then the configurations its dependencies use, without repeats.
   */
  function GenerateAvailableScope(declared: seq<DeclaredPackage>, configurationNames: seq<string>): (r: seq<string>)
    ensures NoDuplicates(r)
    ensures forall x :: x in r <==>
              (x in CommonConfigurations && x !in configurationNames) || x in UsedConfigurations(declared)
  {
    Distinct(CommonNotDeclared(configurationNames) + UsedConfigurations(declared))
  }

  /** Every configuration some dependency uses is offered. */
  lemma UsedConfigurationsOffered(declared: seq<DeclaredPackage>, configurationNames: seq<string>, p: DeclaredPackage)
    requires p in declared
    ensures p.configuration in GenerateAvailableScope(declared, configurationNames)
  {
    var i :| 0 <= i < |declared| && declared[i] == p;
    assert UsedConfigurations(declared)[i] == p.configuration;
  }

  /** A common configuration the module already declares and no dependency uses is not offered. */
  lemma DeclaredUnusedCommonExcluded(declared: seq<DeclaredPackage>, configurationNames: seq<string>, c: string)
    requires c in CommonConfigurations && c in configurationNames
    requires forall p :: p in declared ==> p.configuration != c
    ensures c !in GenerateAvailableScope(declared, configurationNames)
  {
  }

  /** `ArtifactDependencySpec.mavenId`: no id without a group, else "maven:group:name". */
  function MavenId(group: Option<string>, name: string): (r: Option<string>)
    ensures r.None? <==> group.None?
  {
    match group
    case None => None
    case Some(g) => Some("maven:" + g + ":" + name)
  }

  /** Where the group and the separating ':' sit inside an id. */
  lemma MavenIdLayout(g: string, n: string)
    ensures var id := MavenId(Some(g), n).value;
      && |id| == 7 + |g| + |n|
      && id[..6] == "maven:"
      && id[6 + |g|] == ':'
      && (forall i :: 0 <= i < |g| ==> id[6 + i] == g[i])
      && id[7 + |g|..] == n
  {
  }

  /** Two dependencies get the same id only if group and name agree, for groups without ':'. */
  lemma MavenIdInjective(g1: string, n1: string, g2: string, n2: string)
    requires ':' !in g1 && ':' !in g2
    requires MavenId(Some(g1), n1) == MavenId(Some(g2), n2)
    ensures g1 == g2 && n1 == n2
  {
    var s := "maven:" + g1 + ":" + n1;
    var t := "maven:" + g2 + ":" + n2;
    assert s == t;
    MavenIdLayout(g1, n1);
    MavenIdLayout(g2, n2);
    if |g1| != |g2| {
      assert false;
    }
    assert g1 == s[6..6 + |g1|] == t[6..6 + |g2|] == g2;
    assert n1 == s[7 + |g1|..] == t[7 + |g2|..] == n2;
  }
}

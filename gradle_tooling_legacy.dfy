/**
 * The older Gradle tooling model builder (package org.jetbrains...tooling): the same
 * walk as `GradleTooling.BuildAll`, for the older snapshot schema. Configurations carry
 * no capability flags, repositories become a flat list of Maven URLs, and the plugin
 * flags are the three Kotlin plugins.
 */
module GradleToolingLegacy {
  import opened GradleTooling

  const KotlinJvmPluginId := "org.jetbrains.kotlin.jvm"

  /** The older `ConfigurationImpl(name, dependencies)`. */
  datatype LegacyConfiguration = LegacyConfiguration(name: string, dependencies: seq<Dependency>)

  datatype LegacyModel = LegacyModel(
    projectDir: string,
    projectName: string,
    rootProjectName: string,
    projectIdentityPath: string,
    configurations: seq<LegacyConfiguration>,
    repositoryUrls: seq<string>,
    isKotlinJvmApplied: bool,
    isKotlinAndroidApplied: bool,
    isKotlinMultiplatformApplied: bool)

  /** The URLs of the Maven repositories, in declaration order. */
  function MavenUrls(rs: seq<HostRepository>): seq<string> {
    if rs == [] then []
    else if rs[0].MavenRepository? then [rs[0].url] + MavenUrls(rs[1..])
    else MavenUrls(rs[1..])
  }

  /** The flat URL list is the URL column of the newer schema's repository list. */
  lemma {:induction false} MavenUrlsAreRepositoryUrls(rs: seq<HostRepository>)
    ensures |MavenUrls(rs)| == |MavenRepositories(rs)|
    ensures forall i :: 0 <= i < |MavenUrls(rs)| ==> MavenUrls(rs)[i] == MavenRepositories(rs)[i].url
  {
    if rs != [] {
      MavenUrlsAreRepositoryUrls(rs[1..]);
    }
  }

  /** A URL is listed iff some declared Maven repository has it. */
  lemma {:induction false} MavenUrlsExact(rs: seq<HostRepository>, url: string)
    ensures url in MavenUrls(rs) <==> exists r :: r in rs && r.MavenRepository? && r.url == url
  {
    if rs != [] {
      MavenUrlsExact(rs[1..], url);
      assert forall x :: x in rs <==> x == rs[0] || x in rs[1..];
    }
  }

  /** `buildAll` of the older schema. */
  method BuildAllLegacy(project: HostProject, currentGradleVersion: GradleVersion) returns (model: LegacyModel)
    ensures |model.configurations| == |project.configurations|
    ensures forall i :: 0 <= i < |project.configurations| ==>
              model.configurations[i] == LegacyConfiguration(project.configurations[i].name, KeptDependencies(project.configurations[i].dependencies))
    ensures model.repositoryUrls == MavenUrls(project.repositories)
    ensures model.projectIdentityPath == IdentityPathOn(project, currentGradleVersion)
    ensures model.projectDir == project.projectDir && model.projectName == project.name
    ensures model.rootProjectName == project.rootProjectName
    ensures model.isKotlinJvmApplied == (KotlinJvmPluginId in project.appliedPlugins)
    ensures model.isKotlinAndroidApplied == (KotlinAndroidPluginId in project.appliedPlugins)
    ensures model.isKotlinMultiplatformApplied == (KotlinMultiplatformPluginId in project.appliedPlugins)
  {
    var configurations: seq<LegacyConfiguration> := [];
    var i := 0;
    while i < |project.configurations|
      invariant 0 <= i <= |project.configurations|
      invariant |configurations| == i
      invariant forall k :: 0 <= k < i ==>
                  configurations[k] == LegacyConfiguration(project.configurations[k].name, KeptDependencies(project.configurations[k].dependencies))
    {
      var configuration := project.configurations[i];
      var dependencies: seq<Dependency> := [];
      var j := 0;
      while j < |configuration.dependencies|
        invariant 0 <= j <= |configuration.dependencies|
        invariant dependencies == KeptDependencies(configuration.dependencies[..j])
      {
        var dependency := configuration.dependencies[j];
        KeptDependenciesAppend(configuration.dependencies[..j], [dependency]);
        assert configuration.dependencies[..j + 1] == configuration.dependencies[..j] + [dependency];
        j := j + 1;
        if dependency.group.None? || dependency.version.None? {
          continue;
        }
        dependencies := dependencies + [Dependency(dependency.group.value, dependency.name, dependency.version.value)];
      }
      assert configuration.dependencies[..j] == configuration.dependencies;
      configurations := configurations + [LegacyConfiguration(configuration.name, dependencies)];
      i := i + 1;
    }

    var repositories: seq<string> := [];
    var r := 0;
    while r < |project.repositories|
      invariant 0 <= r <= |project.repositories|
      invariant repositories + MavenUrls(project.repositories[r..]) == MavenUrls(project.repositories)
    {
      assert project.repositories[r..][1..] == project.repositories[r + 1..];
      if project.repositories[r].MavenRepository? {
        repositories := repositories + [project.repositories[r].url];
      }
      r := r + 1;
    }

    var projectIdentityPath := if AtLeast(currentGradleVersion, IdentityPathSince) then project.identityPath else project.path;

    model := LegacyModel(
      project.projectDir,
      project.name,
      project.rootProjectName,
      projectIdentityPath,
      configurations,
      repositories,
      KotlinJvmPluginId in project.appliedPlugins,
      KotlinAndroidPluginId in project.appliedPlugins,
      KotlinMultiplatformPluginId in project.appliedPlugins);
  }
}

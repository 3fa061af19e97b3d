/**
 * The Gradle tooling model builder (package com.jetbrains...tooling): one pass over a
 * live Gradle project that copies its configurations, declared dependencies,
 * Maven repositories and applied-plugin flags into an immutable snapshot, gating
 * two fields on the running Gradle version.
 *
 * The live project is given as a value (`HostProject`); Gradle's own objects,
 * `File.exists()` and `GradleVersion.current()` become its fields and a parameter.
 */
module GradleTooling {
  import opened Wrappers

  /** A Gradle release, compared segment by segment as numbers ("8.10" is after "8.2"). */
  datatype GradleVersion = GradleVersion(major: nat, minor: nat, patch: nat)

  /** `current.compareTo(threshold) >= 0`. */
  predicate AtLeast(current: GradleVersion, threshold: GradleVersion) {
    if current.major != threshold.major then current.major > threshold.major
    else if current.minor != threshold.minor then current.minor > threshold.minor
    else current.patch >= threshold.patch
  }

  /** `Configuration.isCanBeDeclared()` exists from Gradle 8.2. */
  const CanBeDeclaredSince := GradleVersion(8, 2, 0)
  /** `ProjectInternal.getIdentityPath()` exists from Gradle 3.3. */
  const IdentityPathSince := GradleVersion(3, 3, 0)

  const JavaPluginId := "org.gradle.java"
  const AmperPluginId := "org.jetbrains.amper.settings.plugin"
  const KotlinMultiplatformPluginId := "org.jetbrains.kotlin.multiplatform"
  const KotlinAndroidPluginId := "org.jetbrains.kotlin.android"

  // ---- What the builder reads from Gradle ----

  /** `org.gradle.api.artifacts.Dependency`: group and version may be null (project dependencies, catalogs). */
  datatype HostDependency = HostDependency(group: Option<string>, name: string, version: Option<string>)

  datatype HostConfiguration = HostConfiguration(
    name: string,
    dependencies: seq<HostDependency>,
    canBeResolved: bool,
    canBeDeclared: bool,
    canBeConsumed: bool)

  /** An `ArtifactRepository`; only `MavenArtifactRepository` carries a URL the snapshot keeps. */
  datatype HostRepository =
    | MavenRepository(url: string, name: string)
    | OtherRepository(name: string)

  datatype HostProject = HostProject(
    projectDir: string,
    name: string,
    rootProjectName: string,
    rootProjectDir: string,
    path: string,
    identityPath: string,
    configurations: seq<HostConfiguration>,
    repositories: seq<HostRepository>,
    buildFileExists: bool,
    buildFileAbsolutePath: string,
    appliedPlugins: set<string>)

  // ---- The snapshot (PackageSearchGradleJavaModelImpl and its nested records) ----

  /** `DependencyImpl`: the getters `getGroupId`, `getArtifactId`, `getVersion` are the fields. */
  datatype Dependency = Dependency(groupId: string, artifactId: string, version: string)

  /** `ConfigurationImpl`: name, dependencies and the three capability flags, stored unchanged. */
  datatype Configuration = Configuration(
    name: string,
    dependencies: seq<Dependency>,
    canBeResolved: bool,
    canBeDeclared: bool,
    canBeConsumed: bool)

  datatype DeclaredRepository = DeclaredRepository(url: string, name: string)

  /**
   * The snapshot the builder returns. Each getter of `PackageSearchGradleJavaModelImpl`
   * is the field of the same name, except `isJavaApplied`, which reads the field the
   * class calls `isKotlinJvmApplied`; the builder stores the "org.gradle.java" flag there.
   */
  datatype JavaModel = JavaModel(
    projectDir: string,
    projectName: string,
    rootProjectName: string,
    projectIdentityPath: string,
    configurations: seq<Configuration>,
    declaredRepositories: seq<DeclaredRepository>,
    isKotlinJvmApplied: bool,
    isAmperApplied: bool,
    isKotlinMultiplatformApplied: bool,
    isKotlinAndroidApplied: bool,
    buildFilePath: Option<string>,
    rootProjectPath: string,
    gradleVersion: GradleVersion)
  {
    /** `isJavaApplied()` answers with the Kotlin JVM plugin flag. */
    function IsJavaApplied(): (r: bool)
      ensures r <==> isKotlinJvmApplied
    {
      isKotlinJvmApplied
    }
  }

  // ---- Specification of one pass ----

  /** A dependency with a known group and version. */
  predicate IsComplete(d: HostDependency) {
    d.group.Some? && d.version.Some?
  }

  /** The dependencies a configuration keeps: the complete ones, in Gradle's order. */
  function KeptDependencies(ds: seq<HostDependency>): seq<Dependency> {
    if ds == [] then []
    else
      var rest := KeptDependencies(ds[1..]);
      if IsComplete(ds[0]) then [Dependency(ds[0].group.value, ds[0].name, ds[0].version.value)] + rest
      else rest
  }

  /** The value of `canBeDeclared` on `version`: the real flag from 8.2, `true` before. */
  function CanBeDeclaredOn(c: HostConfiguration, version: GradleVersion): bool {
    if AtLeast(version, CanBeDeclaredSince) then c.canBeDeclared else true
  }

  function SnapshotOf(c: HostConfiguration, version: GradleVersion): Configuration {
    Configuration(c.name, KeptDependencies(c.dependencies), c.canBeResolved, CanBeDeclaredOn(c, version), c.canBeConsumed)
  }

  /** The Maven repositories, as (url, name), in declaration order. */
  function MavenRepositories(rs: seq<HostRepository>): seq<DeclaredRepository> {
    if rs == [] then []
    else
      var rest := MavenRepositories(rs[1..]);
      if rs[0].MavenRepository? then [DeclaredRepository(rs[0].url, rs[0].name)] + rest else rest
  }

  function IdentityPathOn(p: HostProject, version: GradleVersion): string {
    if AtLeast(version, IdentityPathSince) then p.identityPath else p.path
  }

  // ---- Properties of the specification ----

  /** A kept dependency always came from a host dependency with a group and a version. */
  lemma {:induction false} KeptDependenciesSound(ds: seq<HostDependency>, d: Dependency)
    requires d in KeptDependencies(ds)
    ensures exists h :: h in ds && h.group == Some(d.groupId) && h.name == d.artifactId && h.version == Some(d.version)
  {
    if ds != [] {
      if IsComplete(ds[0]) && d == Dependency(ds[0].group.value, ds[0].name, ds[0].version.value) {
        assert ds[0] in ds;
      } else {
        KeptDependenciesSound(ds[1..], d);
        var h :| h in ds[1..] && h.group == Some(d.groupId) && h.name == d.artifactId && h.version == Some(d.version);
        assert h in ds;
      }
    }
  }

  /** Every host dependency with a group and a version is kept. */
  lemma {:induction false} KeptDependenciesComplete(ds: seq<HostDependency>, h: HostDependency)
    requires h in ds && IsComplete(h)
    ensures Dependency(h.group.value, h.name, h.version.value) in KeptDependencies(ds)
  {
    if ds[0] != h {
      KeptDependenciesComplete(ds[1..], h);
    }
  }

  /** Filtering commutes with concatenation, so Gradle's iteration order is kept. */
  lemma {:induction false} KeptDependenciesAppend(ds1: seq<HostDependency>, ds2: seq<HostDependency>)
    ensures KeptDependencies(ds1 + ds2) == KeptDependencies(ds1) + KeptDependencies(ds2)
  {
    if ds1 == [] {
      assert ds1 + ds2 == ds2;
    } else {
      KeptDependenciesAppend(ds1[1..], ds2);
      assert (ds1 + ds2)[0] == ds1[0];
      assert (ds1 + ds2)[1..] == ds1[1..] + ds2;
    }
  }

  /** At most one entry per host dependency. */
  lemma {:induction false} KeptDependenciesLength(ds: seq<HostDependency>)
    ensures |KeptDependencies(ds)| <= |ds|
    ensures |KeptDependencies(ds)| == |ds| <==> forall h :: h in ds ==> IsComplete(h)
  {
    if ds != [] {
      KeptDependenciesLength(ds[1..]);
      assert forall h :: h in ds <==> h == ds[0] || h in ds[1..];
    }
  }

  /** A repository is listed exactly when a Maven repository with that url and name is declared. */
  lemma {:induction false} MavenRepositoriesExact(rs: seq<HostRepository>, r: DeclaredRepository)
    ensures r in MavenRepositories(rs) <==> MavenRepository(r.url, r.name) in rs
  {
    if rs != [] {
      MavenRepositoriesExact(rs[1..], r);
      assert forall x :: x in rs <==> x == rs[0] || x in rs[1..];
    }
  }

  /** Version gates are monotone: once a capability is present, later releases keep it. */
  lemma {:induction false} AtLeastMonotone(older: GradleVersion, newer: GradleVersion, threshold: GradleVersion)
    requires AtLeast(older, threshold) && AtLeast(newer, older)
    ensures AtLeast(newer, threshold)
  {
  }

  // ---- The builder ----

  /**
   * `buildAll`: walks configurations and their dependencies once, then the repositories,
   * and assembles the snapshot.
   */
  method BuildAll(project: HostProject, currentGradleVersion: GradleVersion) returns (model: JavaModel)
    ensures |model.configurations| == |project.configurations|
    ensures forall i :: 0 <= i < |project.configurations| ==>
              model.configurations[i] == SnapshotOf(project.configurations[i], currentGradleVersion)
    ensures model.declaredRepositories == MavenRepositories(project.repositories)
    ensures model.projectIdentityPath == IdentityPathOn(project, currentGradleVersion)
    ensures model.buildFilePath == if project.buildFileExists then Some(project.buildFileAbsolutePath) else None
    ensures model.projectDir == project.projectDir && model.projectName == project.name
    ensures model.rootProjectName == project.rootProjectName && model.rootProjectPath == project.rootProjectDir
    ensures model.IsJavaApplied() == (JavaPluginId in project.appliedPlugins)
    ensures model.isAmperApplied == (AmperPluginId in project.appliedPlugins)
    ensures model.isKotlinMultiplatformApplied == (KotlinMultiplatformPluginId in project.appliedPlugins)
    ensures model.isKotlinAndroidApplied == (KotlinAndroidPluginId in project.appliedPlugins)
    ensures model.gradleVersion == currentGradleVersion
  {
    var configurations: seq<Configuration> := [];
    var i := 0;
    while i < |project.configurations|
      invariant 0 <= i <= |project.configurations|
      invariant |configurations| == i
      invariant forall k :: 0 <= k < i ==> configurations[k] == SnapshotOf(project.configurations[k], currentGradleVersion)
    {
      var configuration := project.configurations[i];
      var dependencies: seq<Dependency> := [];
      var j := 0;
      while j < |configuration.dependencies|
        invariant 0 <= j <= |configuration.dependencies|
        invariant dependencies == KeptDependencies(configuration.dependencies[..j])
      {
        var dependency := configuration.dependencies[j];
        KeptDependenciesAppend(configuration.dependencies[..j], [dependency]);
        assert configuration.dependencies[..j + 1] == configuration.dependencies[..j] + [dependency];
        if dependency.group.None? || dependency.version.None? {
          j := j + 1;
          continue;
        }
        dependencies := dependencies + [Dependency(dependency.group.value, dependency.name, dependency.version.value)];
        j := j + 1;
      }
      assert configuration.dependencies[..j] == configuration.dependencies;
      var isCanBeDeclared := true;
      if AtLeast(currentGradleVersion, CanBeDeclaredSince) {
        isCanBeDeclared := configuration.canBeDeclared;
      }
      configurations := configurations + [Configuration(configuration.name, dependencies, configuration.canBeResolved, isCanBeDeclared, configuration.canBeConsumed)];
      i := i + 1;
    }

    var repositories: seq<DeclaredRepository> := [];
    var r := 0;
    while r < |project.repositories|
      invariant 0 <= r <= |project.repositories|
      invariant repositories + MavenRepositories(project.repositories[r..]) == MavenRepositories(project.repositories)
    {
      assert project.repositories[r..][1..] == project.repositories[r + 1..];
      var repository := project.repositories[r];
      if repository.MavenRepository? {
        repositories := repositories + [DeclaredRepository(repository.url, repository.name)];
      }
      r := r + 1;
    }

    var projectIdentityPath := if AtLeast(currentGradleVersion, IdentityPathSince) then project.identityPath else project.path;

    var buildFilePath: Option<string> := None;
    if project.buildFileExists {
      buildFilePath := Some(project.buildFileAbsolutePath);
    }

    model := JavaModel(
      project.projectDir,
      project.name,
      project.rootProjectName,
      projectIdentityPath,
      configurations,
      repositories,
      JavaPluginId in project.appliedPlugins,
      AmperPluginId in project.appliedPlugins,
      KotlinMultiplatformPluginId in project.appliedPlugins,
      KotlinAndroidPluginId in project.appliedPlugins,
      buildFilePath,
      project.rootProjectDir,
      currentGradleVersion);
  }
}

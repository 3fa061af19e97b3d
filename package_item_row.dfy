/**
 * The version helpers of a package row: whether a declared package is offered an
 * upgrade, and which remote version counts as "latest".
 */
module PackageItemRow {
  import opened Wrappers
  import opened CoreData

  /** The version an upgrade would move to: the latest stable one, or the latest one. */
  function UpgradeTarget(latestStableVersion: NormalizedVersion, latestVersion: NormalizedVersion, stableOnly: bool): NormalizedVersion {
    if stableOnly then latestStableVersion else latestVersion
  }

  /**
   * `evaluateUpgrade(stableOnly)`: the target version when a known declared version is
   * older than it, otherwise no upgrade.
   */
  function EvaluateUpgrade(declaredVersion: NormalizedVersion, latestStableVersion: NormalizedVersion,
                           latestVersion: NormalizedVersion, stableOnly: bool): (r: Option<NormalizedVersion>)
    ensures declaredVersion.Missing? ==> r.None?
    ensures r.Some? <==> declaredVersion.Known? && VersionLess(declaredVersion, UpgradeTarget(latestStableVersion, latestVersion, stableOnly))
    ensures r.Some? ==> r.value == UpgradeTarget(latestStableVersion, latestVersion, stableOnly) && r.value.Known?
  {
    var targetVersion := if stableOnly then latestStableVersion else latestVersion;
    if declaredVersion.Known? && VersionLess(declaredVersion, targetVersion) then Some(targetVersion) else None
  }

  /** After taking the offered upgrade, no further upgrade is offered. */
  lemma UpgradeSettles(declaredVersion: NormalizedVersion, latestStableVersion: NormalizedVersion,
                       latestVersion: NormalizedVersion, stableOnly: bool)
    requires EvaluateUpgrade(declaredVersion, latestStableVersion, latestVersion, stableOnly).Some?
    ensures var upgraded := EvaluateUpgrade(declaredVersion, latestStableVersion, latestVersion, stableOnly).value;
      EvaluateUpgrade(upgraded, latestStableVersion, latestVersion, stableOnly).None?
  {
  }

  /** `ApiPackage.getLatestVersion(stableOnly)`: the latest stable version if wanted and known, else the latest. */
  function GetLatestVersion(p: ApiPackage, stableOnly: bool): (r: ApiVersion)
    ensures stableOnly && p.versions.latestStable.Some? ==> r == p.versions.latestStable.value
    ensures !(stableOnly && p.versions.latestStable.Some?) ==> r == p.versions.latest
  {
    match p.versions.latestStable
    case Some(stable) => if stableOnly then stable else p.versions.latest
    case None => p.versions.latest
  }

  /**
   * The declared-package variant of "latest" agrees with the remote-package one, except
   * that it has no answer where the remote one falls back from a missing stable version.
   */
  lemma LatestVersionAgreement(d: DeclaredPackage, stableOnly: bool)
    requires d.remoteInfo.Some?
    ensures !stableOnly || d.remoteInfo.value.versions.latestStable.Some? ==>
              DeclaredLatestVersion(d, stableOnly) == Some(GetLatestVersion(d.remoteInfo.value, stableOnly))
    ensures stableOnly && d.remoteInfo.value.versions.latestStable.None? ==>
              DeclaredLatestVersion(d, stableOnly).None? && GetLatestVersion(d.remoteInfo.value, stableOnly) == d.remoteInfo.value.versions.latest
  {
  }
}

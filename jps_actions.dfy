/**
 * The edit recorder of plain IntelliJ (JPS) modules: while an edit runs, removals,
 * additions and scope changes are queued in three lists that the module later applies
 * to its library table, looking libraries up by their "group:artifact:version" key.
 */
module JpsEdits {
  import opened Wrappers
  import opened Text
  import opened CoreData

  /** IntelliJ's `DependencyScope`, in declaration order. */
  datatype DependencyScope = Compile | Test | Runtime | Provided {
    function Name(): string {
      match this
      case Compile => "COMPILE"
      case Test => "TEST"
      case Runtime => "RUNTIME"
      case Provided => "PROVIDED"
    }
  }

  /** `DependencyScope.entries`. */
  const Entries: seq<DependencyScope> := [Compile, Test, Runtime, Provided]

  /** A Maven repository known to the search API. */
  datatype ApiMavenRepository = ApiMavenRepository(id: string, url: string)

  /** The parts of `PackageSearchDeclaredMavenPackage` that the recorder reads. */
  datatype MavenDeclaredPackage = MavenDeclaredPackage(
    groupId: string,
    artifactId: string,
    declaredVersion: Option<NormalizedVersion>,
    declaredScope: Option<string>,
    remoteInfo: Option<ApiPackage>)

  /** The key "group:artifact:version" under which a library of the module is found. */
  function LibraryId(groupId: string, artifactId: string, version: string): (r: string)
    ensures |r| == |groupId| + |artifactId| + |version| + 2
    ensures r[..|groupId|] == groupId && r[|groupId|] == ':'
    ensures r[|groupId| + 1..|groupId| + 1 + |artifactId|] == artifactId && r[|groupId| + 1 + |artifactId|] == ':'
    ensures r[|groupId| + |artifactId| + 2..] == version
  {
    groupId + ":" + artifactId + ":" + version
  }

  /** A queued scope change. */
  datatype QueuedModify = QueuedModify(groupId: string, artifactId: string, version: string,
                           oldScope: DependencyScope, newScope: DependencyScope)
  {
    /** The library key the module looks the change up by. */
    function Id(): string {
      LibraryId(groupId, artifactId, version)
    }
  }

  /** A queued addition, with the repositories to download it from. */
  datatype QueuedAdd = QueuedAdd(groupId: string, artifactId: string, version: string,
                     scope: Option<DependencyScope>, repositories: seq<ApiMavenRepository>)
  {
    /** The library key of the added package. */
    function Id(): string {
      LibraryId(groupId, artifactId, version)
    }
  }

  // ---- What the module does with the queued ids ----

  /** A library of the module's table with Maven coordinates. */
  datatype Library = Library(groupId: string, artifactId: string, version: string)

  /** The lookup table the module builds from its libraries: each one under its key (a later one wins). */
  function LibraryKeys(libs: seq<Library>): (r: map<string, Library>)
    ensures forall k :: k in r ==> exists l :: l in libs && LibraryId(l.groupId, l.artifactId, l.version) == k
  {
    if libs == [] then map[]
    else
      var l := libs[|libs| - 1];
      LibraryKeys(libs[..|libs| - 1])[LibraryId(l.groupId, l.artifactId, l.version) := l]
  }

  /** Every library is reachable under its own key. */
  lemma {:induction false} LibraryKeysHasEvery(libs: seq<Library>, l: Library)
    requires l in libs
    ensures LibraryId(l.groupId, l.artifactId, l.version) in LibraryKeys(libs)
  {
    var last := libs[|libs| - 1];
    if l != last {
      assert l in libs[..|libs| - 1] by {
        var i :| 0 <= i < |libs| && libs[i] == l;
        assert i < |libs| - 1;
        assert libs[..|libs| - 1][i] == l;
      }
      LibraryKeysHasEvery(libs[..|libs| - 1], l);
    }
  }

  // ---- The removal id ----

  /** The removal entry as `remove` builds it: the key followed by a stray "}". */
  function RemoveIdAsWritten(groupId: string, artifactId: string, version: string): (r: string)
    ensures r == LibraryId(groupId, artifactId, version) + "}"
  {
    groupId + ":" + artifactId + ":" + version + "}"
  }

  /** The as-written entry is never the key of the library it names, so `remove` removes nothing. */
  lemma AsWrittenRemoveMissesLibrary(l: Library)
    ensures RemoveIdAsWritten(l.groupId, l.artifactId, l.version) !in LibraryKeys([l])
  {
    var keys := LibraryKeys([l]);
    assert [l][..0] == [];
    assert keys == map[LibraryId(l.groupId, l.artifactId, l.version) := l];
    assert |RemoveIdAsWritten(l.groupId, l.artifactId, l.version)| != |LibraryId(l.groupId, l.artifactId, l.version)|;
  }

  /** A concrete instance: removing "g:a:1" queues "g:a:1}". */
  lemma AsWrittenRemoveExample()
    ensures RemoveIdAsWritten("g", "a", "1") == "g:a:1}"
    ensures RemoveIdAsWritten("g", "a", "1") !in LibraryKeys([Library("g", "a", "1")])
  {
    AsWrittenRemoveMissesLibrary(Library("g", "a", "1"));
  }

  /** The removal entry as `modify` builds it and as the module looks it up. */
  function RemoveId(groupId: string, artifactId: string, version: string): string {
    LibraryId(groupId, artifactId, version)
  }

  /** With the corrected entry, a library in the table is found under the queued removal. */
  lemma RemoveFindsLibrary(libs: seq<Library>, l: Library)
    requires l in libs
    ensures RemoveId(l.groupId, l.artifactId, l.version) in LibraryKeys(libs)
  {
    LibraryKeysHasEvery(libs, l);
  }

  /** A queued scope change finds the library with its coordinates. */
  lemma ModifyFindsLibrary(libs: seq<Library>, m: QueuedModify)
    requires Library(m.groupId, m.artifactId, m.version) in libs
    ensures m.Id() in LibraryKeys(libs)
  {
    LibraryKeysHasEvery(libs, Library(m.groupId, m.artifactId, m.version));
  }

  // ---- Helpers of `modify` ----

  /** `DependencyScope.entries.firstOrNull { it.name.equals(declaredScope, true) } ?: COMPILE`. */
  function ScopeNamed(declaredScope: Option<string>): (r: DependencyScope)
    ensures declaredScope.None? ==> r == Compile
    ensures declaredScope.Some? && (forall e :: e in Entries ==> !EqualsIgnoreCase(e.Name(), declaredScope.value)) ==> r == Compile
    ensures declaredScope.Some? && (exists e :: e in Entries && EqualsIgnoreCase(e.Name(), declaredScope.value)) ==>
              EqualsIgnoreCase(r.Name(), declaredScope.value)
  {
    match declaredScope
    case None => Compile
    case Some(s) => FirstNamed(Entries, s).GetOr(Compile)
  }

  function FirstNamed(entries: seq<DependencyScope>, s: string): (r: Option<DependencyScope>)
    ensures r.Some? ==> r.value in entries && EqualsIgnoreCase(r.value.Name(), s)
    ensures r.None? <==> forall e :: e in entries ==> !EqualsIgnoreCase(e.Name(), s)
  {
    if entries == [] then None
    else if EqualsIgnoreCase(entries[0].Name(), s) then Some(entries[0])
    else
      assert forall e :: e in entries ==> e == entries[0] || e in entries[1..];
      FirstNamed(entries[1..], s)
  }

  /** No two scopes have the same name ignoring case, so at most one entry matches and "first" is "the". */
  lemma ScopeNamesDistinct(a: DependencyScope, b: DependencyScope, s: string)
    requires EqualsIgnoreCase(a.Name(), s) && EqualsIgnoreCase(b.Name(), s)
    ensures a == b
  {
    var la, lb := Lower(a.Name()), Lower(b.Name());
    assert la == lb;
    assert |a.Name()| == |b.Name()|;
    assert la[0] == LowerChar(a.Name()[0]) && lb[0] == LowerChar(b.Name()[0]);
  }

  /** Folding case twice is folding it once. */
  lemma LowerIdempotent(s: string)
    ensures Lower(Lower(s)) == Lower(s)
  {
    assert forall i :: 0 <= i < |s| ==> Lower(Lower(s))[i] == Lower(s)[i];
  }

  /** A scope's own name, in any case, selects that scope. */
  lemma ScopeNamedOwnName(e: DependencyScope)
    ensures ScopeNamed(Some(e.Name())) == e
    ensures ScopeNamed(Some(Lower(e.Name()))) == e
  {
    assert e in Entries;
    ScopeNamesDistinct(ScopeNamed(Some(e.Name())), e, e.Name());
    LowerIdempotent(e.Name());
    assert EqualsIgnoreCase(e.Name(), Lower(e.Name()));
    ScopeNamesDistinct(ScopeNamed(Some(Lower(e.Name()))), e, Lower(e.Name()));
  }

  /** `firstOrNull { it.normalizedVersion.versionName == version }` over the remote versions. */
  function VersionNamed(all: seq<ApiVersion>, version: string): (r: Option<ApiVersion>)
    ensures r.Some? ==> r.value in all && r.value.VersionName() == version
    ensures r.None? <==> forall v :: v in all ==> v.VersionName() != version
  {
    if all == [] then None
    else if all[0].VersionName() == version then Some(all[0])
    else
      assert forall v :: v in all ==> v == all[0] || v in all[1..];
      VersionNamed(all[1..], version)
  }

  /** `repositoryIds.mapNotNull { knownRepositories[it] }`. */
  function KnownRepositories(ids: seq<string>, known: map<string, ApiMavenRepository>): (r: seq<ApiMavenRepository>)
    ensures |r| <= |ids|
    ensures forall x :: x in r <==> exists id :: id in ids && id in known && known[id] == x
  {
    if ids == [] then []
    else
      var rest := KnownRepositories(ids[1..], known);
      assert forall id :: id in ids <==> id == ids[0] || id in ids[1..];
      if ids[0] in known then [known[ids[0]]] + rest else rest
  }

  /** The repositories of the remote version named `version`, or none when it is not listed. */
  function RepositoriesFor(p: MavenDeclaredPackage, version: string, known: map<string, ApiMavenRepository>): (r: seq<ApiMavenRepository>)
    ensures p.remoteInfo.None? ==> r == []
    ensures p.remoteInfo.Some? && VersionNamed(p.remoteInfo.value.versions.all, version).None? ==> r == []
    ensures forall x :: x in r ==> x in known.Values
    ensures p.remoteInfo.Some? && VersionNamed(p.remoteInfo.value.versions.all, version).Some? ==>
              r == KnownRepositories(VersionNamed(p.remoteInfo.value.versions.all, version).value.repositoryIds, known)
  {
    match p.remoteInfo
    case None => []
    case Some(info) =>
      match VersionNamed(info.versions.all, version)
      case None => []
      case Some(v) => KnownRepositories(v.repositoryIds, known)
  }

  /** `JpsActions`: the three queues of an edit. */
  class JpsActions {
    var toRemove: seq<string>
    var toAdd: seq<QueuedAdd>
    var toModify: seq<QueuedModify>

    constructor ()
      ensures toRemove == [] && toAdd == [] && toModify == []
    {
      toRemove := [];
      toAdd := [];
      toModify := [];
    }

    /**
     * `remove`: nothing without a declared version; otherwise one removal entry. The entry
     * is the library key (the as-written entry, with its stray "}", is `RemoveIdAsWritten`).
     */
    method Remove(p: MavenDeclaredPackage)
      modifies this`toRemove
      ensures p.declaredVersion.None? ==> toRemove == old(toRemove)
      ensures p.declaredVersion.Some? ==>
                toRemove == old(toRemove) + [RemoveId(p.groupId, p.artifactId, p.declaredVersion.value.VersionName())]
    {
      if p.declaredVersion.None? {
        return;
      }
      var declaredVersionName := p.declaredVersion.value.VersionName();
      toRemove := toRemove + [RemoveId(p.groupId, p.artifactId, declaredVersionName)];
    }

    /** `add`: exactly one queued addition, in the given scope. */
    method Add(groupId: string, artifactId: string, version: string, scope: DependencyScope,
               repositories: seq<ApiMavenRepository>)
      modifies this`toAdd
      ensures toAdd == old(toAdd) + [QueuedAdd(groupId, artifactId, version, Some(scope), repositories)]
    {
      toAdd := toAdd + [QueuedAdd(groupId, artifactId, version, Some(scope), repositories)];
    }

    /**
     * `modify`: for the declared version, a scope change from the declared scope (matched
     * ignoring case, COMPILE when none matches); for another version, the removal of the
     * declared one and the addition of the new one at COMPILE scope; nothing when no
     * version is declared.
     */
    method Modify(scope: DependencyScope, p: MavenDeclaredPackage, newVersion: string,
                  knownRepositories: map<string, ApiMavenRepository>)
      modifies this`toRemove, this`toAdd, this`toModify
      ensures p.declaredVersion.None? ==>
                toRemove == old(toRemove) && toAdd == old(toAdd) && toModify == old(toModify)
      ensures p.declaredVersion.Some? && newVersion == p.declaredVersion.value.VersionName() ==>
                && toModify == old(toModify) + [QueuedModify(p.groupId, p.artifactId, newVersion, ScopeNamed(p.declaredScope), scope)]
                && toRemove == old(toRemove) && toAdd == old(toAdd)
      ensures p.declaredVersion.Some? && newVersion != p.declaredVersion.value.VersionName() ==>
                && toRemove == old(toRemove) + [RemoveId(p.groupId, p.artifactId, p.declaredVersion.value.VersionName())]
                && toAdd == old(toAdd) + [QueuedAdd(p.groupId, p.artifactId, newVersion, Some(Compile),
                                              RepositoriesFor(p, newVersion, knownRepositories))]
                && toModify == old(toModify)
    {
      if p.declaredVersion.Some? && newVersion == p.declaredVersion.value.VersionName() {
        toModify := toModify + [QueuedModify(p.groupId, p.artifactId, p.declaredVersion.value.VersionName(),
                                       ScopeNamed(p.declaredScope), scope)];
        return;
      }
      if p.declaredVersion.None? {
        return;
      }
      var declaredVersionName := p.declaredVersion.value.VersionName();
      toRemove := toRemove + [RemoveId(p.groupId, p.artifactId, declaredVersionName)];
      toAdd := toAdd + [QueuedAdd(p.groupId, p.artifactId, newVersion, Some(Compile),
                            RepositoriesFor(p, newVersion, knownRepositories))];
    }

    method GetToAdd() returns (r: seq<QueuedAdd>)
      ensures r == toAdd
    {
      r := toAdd;
    }

    method GetToRemove() returns (r: seq<string>)
      ensures r == toRemove
    {
      r := toRemove;
    }

    method GetToModify() returns (r: seq<QueuedModify>)
      ensures r == toModify
    {
      r := toModify;
    }
  }
}

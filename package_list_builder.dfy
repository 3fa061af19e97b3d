/**
 * The packages list: a flat list of headers and package rows built by
 * `PackageListBuilder`. Declared dependencies come first, module by module (or variant
 * by variant), then the remote search results. Each section's header honours the
 * collapse state the user chose, packages are listed only under open headers, and at
 * most 25 search results are considered.
 */
module PackageList {
  import opened Wrappers
  import opened CoreData
  import opened Sorting
  import PackageGroups
  import PackageListUtils

  /** `MAX_SEARCH_RESULTS`. */
  const MaxSearchResults: nat := 25

  /** The message key of the search-results header; its localized text is looked up elsewhere. */
  const SearchResultsTitle := "packagesearch.ui.toolwindow.tab.packages.searchResults"

  /** The collapse state a header was last asked for (`SetHeaderState.TargetState`). */
  datatype TargetState = TargetOpen | TargetClose

  datatype HeaderState = Open | Closed | Loading

  datatype AdditionalContent =
    | VariantsText(text: string)
    | UpdatesAvailableCount(count: nat)
    | LoadingContent

  datatype HeaderId =
    | DeclaredBaseHeader(moduleIdentity: Identity)
    | DeclaredVariantHeader(moduleIdentity: Identity, variantName: string)
    | RemoteBaseHeader(moduleIdentity: Identity)
    | RemoteVariantHeader(moduleIdentity: Identity, compatibleVariantNames: seq<string>)

  datatype PackageId =
    | DeclaredBaseId(moduleIdentity: Identity, packageId: string)
    | DeclaredVariantId(moduleIdentity: Identity, packageId: string, variantName: string)
    | RemoteBaseId(moduleIdentity: Identity, packageId: string, headerId: HeaderId)
    | RemoteVariantId(moduleIdentity: Identity, packageId: string, headerId: HeaderId)

  /** A row of the list. Icons are not modelled. */
  datatype ListItem =
    | Header(title: string, headerId: HeaderId, state: HeaderState, attributes: seq<string>,
             additionalContent: Option<AdditionalContent>)
    | DeclaredItem(title: string, id: PackageId, subtitle: string, isLoading: bool, allowMissingScope: bool,
                   latestVersion: Option<string>, selectedScope: Option<string>, availableScopes: seq<string>,
                   declaredVersion: Option<string>, availableVersions: seq<string>)
    | RemoteBaseItem(title: string, id: PackageId, subtitle: string, isLoading: bool)
    | RemoteVariantItem(title: string, id: PackageId, subtitle: string, isLoading: bool,
                        primaryVariantName: string, isInstalledInPrimaryVariant: bool, additionalVariants: seq<string>)

  /** What the list shows for a remote header: a pending query or its results. */
  datatype Search =
    | QueryBase
    | QueryWithVariants(attributes: seq<string>, primaryVariantName: string, additionalVariants: seq<string>)
    | ResultsBase(packages: seq<ApiPackage>)
    | ResultsWithVariants(packages: seq<ApiPackage>, attributes: seq<string>, primaryVariantName: string,
                          additionalVariants: seq<string>)

  /** One entry of the search-result map, in the map's iteration order. */
  datatype SearchEntry = SearchEntry(headerId: HeaderId, search: Search)

  /** The builder's constructor arguments. */
  datatype Settings = Settings(
    isCompact: bool,
    onlyStable: bool,
    headerCollapsedStates: map<HeaderId, TargetState>,
    packagesLoadingState: set<PackageId>,
    headerLoadingStates: set<HeaderId>,
    searchQuery: string,
    modulesMap: map<Identity, Module>)

  // ---- Header states and contents ----

  /** `getStateForOrOpen`: closed only when the user collapsed the header. */
  function StateForOrOpen(cfg: Settings, id: HeaderId): (r: HeaderState)
    ensures r == Closed <==> id in cfg.headerCollapsedStates && cfg.headerCollapsedStates[id] == TargetClose
    ensures r != Loading
  {
    if id in cfg.headerCollapsedStates && cfg.headerCollapsedStates[id] == TargetClose then Closed else Open
  }

  /** A pending query's header: loading when the user opened it, closed otherwise. */
  function QueryHeaderState(cfg: Settings, id: HeaderId): (r: HeaderState)
    ensures r == Loading <==> id in cfg.headerCollapsedStates && cfg.headerCollapsedStates[id] == TargetOpen
    ensures r != Open
  {
    if id in cfg.headerCollapsedStates && cfg.headerCollapsedStates[id] == TargetOpen then Loading else Closed
  }

  /** A search-results header: open when the user opened it, closed otherwise. */
  function ResultsHeaderState(cfg: Settings, id: HeaderId): (r: HeaderState)
    ensures r == Open <==> id in cfg.headerCollapsedStates && cfg.headerCollapsedStates[id] == TargetOpen
    ensures r != Loading
  {
    if id in cfg.headerCollapsedStates && cfg.headerCollapsedStates[id] == TargetOpen then Open else Closed
  }

  /** The number of dependencies that match the search query and have updates. */
  function CountUpdates(cfg: Settings, deps: seq<DeclaredPackage>): (r: nat)
    ensures r <= |deps|
    ensures r > 0 <==> exists p :: p in deps && PackageGroups.Matches(p, cfg.searchQuery) && p.HasUpdates(cfg.onlyStable)
  {
    if deps == [] then 0
    else
      assert forall p :: p in deps <==> p == deps[0] || p in deps[1..];
      (if PackageGroups.Matches(deps[0], cfg.searchQuery) && deps[0].HasUpdates(cfg.onlyStable) then 1 else 0)
        + CountUpdates(cfg, deps[1..])
  }

  /** `getUpdatesAvailableAdditionalContent`: the count of matching packages with updates, when there is one. */
  function UpdatesContent(cfg: Settings, deps: seq<DeclaredPackage>): (r: Option<AdditionalContent>)
    ensures r.Some? <==> exists p :: p in deps && PackageGroups.Matches(p, cfg.searchQuery) && p.HasUpdates(cfg.onlyStable)
    ensures r.Some? ==> r.value.UpdatesAvailableCount? && 0 < r.value.count <= |deps|
  {
    var count := CountUpdates(cfg, deps);
    if count > 0 then Some(UpdatesAvailableCount(count)) else None
  }

  /** Counting over the dependencies already filtered by the query gives the same content. */
  lemma {:induction false} UpdatesContentOfFiltered(cfg: Settings, deps: seq<DeclaredPackage>)
    ensures UpdatesContent(cfg, PackageGroups.FilterMatching(deps, cfg.searchQuery)) == UpdatesContent(cfg, deps)
  {
    CountUpdatesOfFiltered(cfg, deps);
  }

  lemma {:induction false} CountUpdatesOfFiltered(cfg: Settings, deps: seq<DeclaredPackage>)
    ensures CountUpdates(cfg, PackageGroups.FilterMatching(deps, cfg.searchQuery)) == CountUpdates(cfg, deps)
  {
    if deps != [] {
      CountUpdatesOfFiltered(cfg, deps[1..]);
      var rest := PackageGroups.FilterMatching(deps[1..], cfg.searchQuery);
      if PackageGroups.Matches(deps[0], cfg.searchQuery) {
        assert ([deps[0]] + rest)[1..] == rest;
      }
    }
  }

  /** A declared header's extra content: "loading" while its module is being edited, else the update count. */
  function HeaderContent(cfg: Settings, id: HeaderId, deps: seq<DeclaredPackage>): (r: Option<AdditionalContent>)
    ensures id in cfg.headerLoadingStates ==> r == Some(LoadingContent)
    ensures id !in cfg.headerLoadingStates ==> r == UpdatesContent(cfg, deps)
  {
    if id in cfg.headerLoadingStates then Some(LoadingContent) else UpdatesContent(cfg, deps)
  }

  // ---- Versions and declared rows ----

  predicate VersionGe(a: NormalizedVersion, b: NormalizedVersion) {
    VersionLe(b, a)
  }

  lemma VersionGeTotalPreorder()
    ensures TotalPreorder(VersionGe)
  {
  }

  /** The remote versions offered: all of them, or the stable ones only. */
  function CandidateVersions(all: seq<ApiVersion>, onlyStable: bool): (r: seq<NormalizedVersion>)
    ensures forall v :: v in r <==> (exists a :: a in all && a.normalizedVersion == v) && (onlyStable ==> v.IsStable())
  {
    if all == [] then []
    else
      var rest := CandidateVersions(all[1..], onlyStable);
      assert forall a :: a in all <==> a == all[0] || a in all[1..];
      var v := all[0].normalizedVersion;
      if !onlyStable || v.IsStable() then [v] + rest else rest
  }

  /** The versions offered for a declared package, newest first (`sortedDescending` is stable). */
  function AvailableVersions(p: DeclaredPackage, onlyStable: bool): seq<NormalizedVersion> {
    match p.remoteInfo
    case None => []
    case Some(info) => SortBy(CandidateVersions(info.versions.all, onlyStable), VersionGe)
  }

  /** The offered versions are the remote ones (stable only when asked), newest first. */
  lemma AvailableVersionsSorted(p: DeclaredPackage, onlyStable: bool)
    ensures var r := AvailableVersions(p, onlyStable);
      && (forall i, j :: 0 <= i < j < |r| ==> VersionLe(r[j], r[i]))
      && (p.remoteInfo.None? ==> r == [])
      && (p.remoteInfo.Some? ==> multiset(r) == multiset(CandidateVersions(p.remoteInfo.value.versions.all, onlyStable)))
      && (onlyStable ==> forall v :: v in r ==> v.IsStable())
  {
    if p.remoteInfo.Some? {
      var c := CandidateVersions(p.remoteInfo.value.versions.all, onlyStable);
      VersionGeTotalPreorder();
      SortByCorrect(c, VersionGe);
      var r := AvailableVersions(p, onlyStable);
      forall v | v in r ensures v in c {
        assert v in multiset(r);
      }
    }
  }

  function VersionNames(vs: seq<NormalizedVersion>): (r: seq<string>)
    ensures |r| == |vs| && forall i :: 0 <= i < |vs| ==> r[i] == vs[i].VersionName()
  {
    if vs == [] then [] else [vs[0].VersionName()] + VersionNames(vs[1..])
  }

  /** `getAvailableVersionStrings`. */
  function AvailableVersionStrings(p: DeclaredPackage, onlyStable: bool): seq<string> {
    VersionNames(AvailableVersions(p, onlyStable))
  }

  /** `list.filter { it != value }` for a nullable value: a null removes nothing. */
  function Without(s: seq<string>, value: Option<string>): (r: seq<string>)
    ensures forall x :: x in r <==> x in s && Some(x) != value
    ensures value.None? ==> r == s
    ensures |r| <= |s|
  {
    if s == [] then []
    else
      var rest := Without(s[1..], value);
      assert forall x :: x in s <==> x == s[0] || x in s[1..];
      if Some(s[0]) == value then rest else [s[0]] + rest
  }

  function LatestVersionName(p: DeclaredPackage, onlyStable: bool): Option<string> {
    match DeclaredLatestVersion(p, onlyStable)
    case None => None
    case Some(v) => Some(v.VersionName())
  }

  function DeclaredVersionName(p: DeclaredPackage): Option<string> {
    match p.declaredVersion
    case None => None
    case Some(v) => Some(v.VersionName())
  }

  /** The row `addDeclaredPackage` appends. */
  function DeclaredPackageItem(cfg: Settings, title: string, subtitle: string, id: PackageId, latestVersion: Option<string>,
                               selectedScope: Option<string>, availableScopes: seq<string>, declaredVersion: Option<string>,
                               availableVersions: seq<string>, allowMissingScope: bool): (r: ListItem)
    ensures r.DeclaredItem? && r.id == id && r.title == title && r.subtitle == subtitle
    ensures r.isLoading <==> id in cfg.packagesLoadingState
    ensures r.selectedScope == selectedScope && r.declaredVersion == declaredVersion
    ensures forall s :: s in r.availableScopes <==> s in availableScopes && Some(s) != selectedScope
    ensures forall v :: v in r.availableVersions <==> v in availableVersions && Some(v) != declaredVersion
  {
    DeclaredItem(title, id, subtitle, id in cfg.packagesLoadingState, allowMissingScope, latestVersion,
                 selectedScope, Without(availableScopes, selectedScope), declaredVersion,
                 Without(availableVersions, declaredVersion))
  }

  // ---- Declared sections ----

  function BaseDependencyItem(cfg: Settings, base: Module, d: DeclaredPackage): ListItem {
    DeclaredPackageItem(cfg, d.displayName, d.coordinates, DeclaredBaseId(base.identity, d.id),
                        LatestVersionName(d, cfg.onlyStable), d.declaredScope, base.availableScopes,
                        DeclaredVersionName(d), AvailableVersionStrings(d, cfg.onlyStable), !base.dependencyMustHaveAScope)
  }

  function BaseDependencyItems(cfg: Settings, base: Module, ds: seq<DeclaredPackage>): (r: seq<ListItem>)
    ensures |r| == |ds|
    ensures forall i :: 0 <= i < |ds| ==> r[i] == BaseDependencyItem(cfg, base, ds[i])
  {
    if ds == [] then []
    else BaseDependencyItems(cfg, base, ds[..|ds| - 1]) + [BaseDependencyItem(cfg, base, ds[|ds| - 1])]
  }

  /** Filtering by the query twice keeps what filtering once keeps. */
  lemma {:induction false} FilterMatchingIdempotent(ps: seq<DeclaredPackage>, query: string)
    ensures PackageGroups.FilterMatching(PackageGroups.FilterMatching(ps, query), query) == PackageGroups.FilterMatching(ps, query)
  {
    if ps != [] {
      FilterMatchingIdempotent(ps[1..], query);
      var rest := PackageGroups.FilterMatching(ps[1..], query);
      if PackageGroups.Matches(ps[0], query) {
        assert ([ps[0]] + rest)[1..] == rest;
      }
    }
  }

  /**
   * `addFromBaseModule`: the module's header when it has a matching dependency or the
   * list is compact, then, under an open header, one row per matching dependency.
   */
  function BaseModuleItems(cfg: Settings, base: Module): seq<ListItem>
    requires base.Base?
  {
    var id := DeclaredBaseHeader(base.identity);
    var deps := PackageGroups.FilterMatching(base.declaredDependencies, cfg.searchQuery);
    var state := StateForOrOpen(cfg, id);
    (if deps != [] || cfg.isCompact then [Header(base.name, id, state, [], HeaderContent(cfg, id, deps))] else [])
    + (if state == Open then BaseDependencyItems(cfg, base, PackageGroups.FilterMatching(deps, cfg.searchQuery)) else [])
  }

  /** The rows under a plain module's header: one per matching dependency, and none under a closed header. */
  function BaseRows(cfg: Settings, base: Module): seq<ListItem>
    requires base.Base?
  {
    if StateForOrOpen(cfg, DeclaredBaseHeader(base.identity)) == Open
    then BaseDependencyItems(cfg, base, PackageGroups.FilterMatching(base.declaredDependencies, cfg.searchQuery))
    else []
  }

  lemma BaseModuleSplit(cfg: Settings, base: Module)
    requires base.Base?
    ensures var id := DeclaredBaseHeader(base.identity);
      var deps := PackageGroups.FilterMatching(base.declaredDependencies, cfg.searchQuery);
      BaseModuleItems(cfg, base)
        == (if deps != [] || cfg.isCompact then [Header(base.name, id, StateForOrOpen(cfg, id), [], HeaderContent(cfg, id, deps))] else [])
           + BaseRows(cfg, base)
  {
    FilterMatchingIdempotent(base.declaredDependencies, cfg.searchQuery);
  }

  /**
   * A plain module's section starts with its header exactly when a dependency matches
   * or the list is compact, and has rows only under an open header.
   */
  lemma BaseModuleHeader(cfg: Settings, base: Module)
    requires base.Base?
    ensures var r := BaseModuleItems(cfg, base);
      var deps := PackageGroups.FilterMatching(base.declaredDependencies, cfg.searchQuery);
      var id := DeclaredBaseHeader(base.identity);
      && ((r != [] && r[0].Header?) <==> deps != [] || cfg.isCompact)
      && (r != [] && r[0].Header? ==> r[0] == Header(base.name, id, StateForOrOpen(cfg, id), [], HeaderContent(cfg, id, deps)))
      && (|r| > 1 ==> StateForOrOpen(cfg, id) == Open)
  {
    BaseModuleSplit(cfg, base);
    BaseRowsAreRows(cfg, base);
  }

  /** Every row under a plain module's header is the row of one of its matching dependencies. */
  lemma BaseRowsAreRows(cfg: Settings, base: Module)
    requires base.Base?
    ensures var deps := PackageGroups.FilterMatching(base.declaredDependencies, cfg.searchQuery);
      var rows := BaseRows(cfg, base);
      && |rows| <= |deps|
      && (rows != [] ==> StateForOrOpen(cfg, DeclaredBaseHeader(base.identity)) == Open)
      && forall it :: it in rows ==> it.DeclaredItem? && exists d :: d in deps && it == BaseDependencyItem(cfg, base, d)
  {
    var deps := PackageGroups.FilterMatching(base.declaredDependencies, cfg.searchQuery);
    var rows := BaseRows(cfg, base);
    FilterMatchingIdempotent(base.declaredDependencies, cfg.searchQuery);
    forall it | it in rows ensures it.DeclaredItem? && exists d :: d in deps && it == BaseDependencyItem(cfg, base, d) {
      var i :| 0 <= i < |rows| && rows[i] == it;
    }
  }

  // ---- Modules with variants, one section per variant ----

  function VariantDependencyItem(cfg: Settings, m: Module, v: Variant, d: DeclaredPackage): ListItem {
    DeclaredPackageItem(cfg, d.displayName, d.coordinates, DeclaredVariantId(m.identity, d.id, v.name),
                        LatestVersionName(d, cfg.onlyStable), d.declaredScope, v.availableScopes,
                        DeclaredVersionName(d), AvailableVersionStrings(d, cfg.onlyStable), !m.dependencyMustHaveAScope)
  }

  function VariantDependencyItems(cfg: Settings, m: Module, v: Variant, ds: seq<DeclaredPackage>): (r: seq<ListItem>)
    ensures |r| == |ds|
    ensures forall i :: 0 <= i < |ds| ==> r[i] == VariantDependencyItem(cfg, m, v, ds[i])
  {
    if ds == [] then []
    else VariantDependencyItems(cfg, m, v, ds[..|ds| - 1]) + [VariantDependencyItem(cfg, m, v, ds[|ds| - 1])]
  }

  /**
   * One variant's section in the expanded list: nothing when no dependency of the
   * variant matches; otherwise its header (with the variant's attribute values) and,
   * under an open header, a row per matching dependency.
   */
  function VariantSection(cfg: Settings, m: Module, v: Variant): seq<ListItem> {
    var id := DeclaredVariantHeader(m.identity, v.name);
    var deps := PackageGroups.FilterMatching(v.declaredDependencies, cfg.searchQuery);
    if deps == [] then []
    else
      var state := StateForOrOpen(cfg, id);
      [Header(v.name, id, state, PackageGroups.AttributeValues(v.attributes), HeaderContent(cfg, id, v.declaredDependencies))]
      + (if state == Open then VariantDependencyItems(cfg, m, v, PackageGroups.FilterMatching(v.declaredDependencies, cfg.searchQuery)) else [])
  }

  /** A variant's section with a matching dependency: its header, counting the matching dependencies, then its rows. */
  lemma VariantSectionSplit(cfg: Settings, m: Module, v: Variant)
    requires PackageGroups.FilterMatching(v.declaredDependencies, cfg.searchQuery) != []
    ensures var deps := PackageGroups.FilterMatching(v.declaredDependencies, cfg.searchQuery);
      var id := DeclaredVariantHeader(m.identity, v.name);
      var state := StateForOrOpen(cfg, id);
      VariantSection(cfg, m, v)
        == [Header(v.name, id, state, PackageGroups.AttributeValues(v.attributes), HeaderContent(cfg, id, deps))]
           + (if state == Open then VariantDependencyItems(cfg, m, v, deps) else [])
  {
    UpdatesContentOfFiltered(cfg, v.declaredDependencies);
  }

  /**
   * A variant's section is empty exactly when none of its dependencies matches; its
   * header's update count covers the matching dependencies only; rows follow only an
   * open header and each is the row of a matching dependency.
   */
  lemma VariantSectionShape(cfg: Settings, m: Module, v: Variant)
    ensures var r := VariantSection(cfg, m, v);
      var deps := PackageGroups.FilterMatching(v.declaredDependencies, cfg.searchQuery);
      var id := DeclaredVariantHeader(m.identity, v.name);
      && (r == [] <==> deps == [])
      && (r != [] ==> r[0] == Header(v.name, id, StateForOrOpen(cfg, id), PackageGroups.AttributeValues(v.attributes), HeaderContent(cfg, id, deps)))
      && (|r| > 1 ==> StateForOrOpen(cfg, id) == Open)
      && (forall i :: 0 < i < |r| ==> exists d :: d in deps && r[i] == VariantDependencyItem(cfg, m, v, d))
  {
    var r := VariantSection(cfg, m, v);
    var deps := PackageGroups.FilterMatching(v.declaredDependencies, cfg.searchQuery);
    if deps != [] {
      VariantSectionSplit(cfg, m, v);
      var id := DeclaredVariantHeader(m.identity, v.name);
      var rows := if StateForOrOpen(cfg, id) == Open then VariantDependencyItems(cfg, m, v, deps) else [];
      assert r[1..] == rows;
      forall i | 0 < i < |r| ensures exists d :: d in deps && r[i] == VariantDependencyItem(cfg, m, v, d) {
        assert r[i] == rows[i - 1];
        assert deps[i - 1] in deps;
      }
    }
  }

  /** `addFromModuleWithVariantsExpanded`: the sections of the variants, in order. */
  function ExpandedItems(cfg: Settings, m: Module, vs: seq<Variant>): seq<ListItem> {
    if vs == [] then [] else ExpandedItems(cfg, m, vs[..|vs| - 1]) + VariantSection(cfg, m, vs[|vs| - 1])
  }

  // ---- Modules with variants, compact ----

  /** A declared dependency together with the variant declaring it. */
  datatype VariantDependency = VariantDependency(variant: Variant, dependency: DeclaredPackage)

  function PairsOf(v: Variant, ds: seq<DeclaredPackage>): (r: seq<VariantDependency>)
    ensures |r| == |ds| && forall i :: 0 <= i < |ds| ==> r[i] == VariantDependency(v, ds[i])
  {
    if ds == [] then [] else [VariantDependency(v, ds[0])] + PairsOf(v, ds[1..])
  }

  /** `variants.flatMap { variant -> variant.declaredDependencies.map { variant to it } }`. */
  function AllVariantDependencies(vs: seq<Variant>): (r: seq<VariantDependency>)
    ensures forall p :: p in r <==> p.variant in vs && p.dependency in p.variant.declaredDependencies
  {
    if vs == [] then []
    else
      assert forall v :: v in vs <==> v == vs[0] || v in vs[1..];
      assert forall p :: p in PairsOf(vs[0], vs[0].declaredDependencies) <==>
        p.variant == vs[0] && p.dependency in vs[0].declaredDependencies by {
        forall p | p in PairsOf(vs[0], vs[0].declaredDependencies) ensures p.variant == vs[0] && p.dependency in vs[0].declaredDependencies {
          var i :| 0 <= i < |vs[0].declaredDependencies| && PairsOf(vs[0], vs[0].declaredDependencies)[i] == p;
        }
        forall p: VariantDependency | p.variant == vs[0] && p.dependency in vs[0].declaredDependencies ensures p in PairsOf(vs[0], vs[0].declaredDependencies) {
          var i :| 0 <= i < |vs[0].declaredDependencies| && vs[0].declaredDependencies[i] == p.dependency;
          assert PairsOf(vs[0], vs[0].declaredDependencies)[i] == p;
        }
      }
      PairsOf(vs[0], vs[0].declaredDependencies) + AllVariantDependencies(vs[1..])
  }

  function FilterPairs(ps: seq<VariantDependency>, query: string): (r: seq<VariantDependency>)
    ensures forall p :: p in r <==> p in ps && PackageGroups.Matches(p.dependency, query)
  {
    if ps == [] then []
    else
      var rest := FilterPairs(ps[1..], query);
      assert forall p :: p in ps <==> p == ps[0] || p in ps[1..];
      if PackageGroups.Matches(ps[0].dependency, query) then [ps[0]] + rest else rest
  }

  function Dependencies(ps: seq<VariantDependency>): (r: seq<DeclaredPackage>)
    ensures |r| == |ps| && forall i :: 0 <= i < |ps| ==> r[i] == ps[i].dependency
  {
    if ps == [] then [] else [ps[0].dependency] + Dependencies(ps[1..])
  }

  /** In the compact list a dependency's row shows its variant's name as subtitle. */
  function CompactDependencyItem(cfg: Settings, m: Module, p: VariantDependency): ListItem {
    DeclaredPackageItem(cfg, p.dependency.displayName, p.variant.name, DeclaredVariantId(m.identity, p.dependency.id, p.variant.name),
                        LatestVersionName(p.dependency, cfg.onlyStable), p.dependency.declaredScope, p.variant.availableScopes,
                        DeclaredVersionName(p.dependency), AvailableVersionStrings(p.dependency, cfg.onlyStable),
                        !m.dependencyMustHaveAScope)
  }

  function CompactItems(cfg: Settings, m: Module, ps: seq<VariantDependency>): (r: seq<ListItem>)
    ensures |r| == |ps|
    ensures forall i :: 0 <= i < |ps| ==> r[i] == CompactDependencyItem(cfg, m, ps[i])
  {
    if ps == [] then [] else CompactItems(cfg, m, ps[..|ps| - 1]) + [CompactDependencyItem(cfg, m, ps[|ps| - 1])]
  }

  function MatchingPairs(cfg: Settings, m: Module): seq<VariantDependency>
    requires m.WithVariants?
  {
    FilterPairs(AllVariantDependencies(m.variants), cfg.searchQuery)
  }

  /**
   * `addFromModuleWithVariantsCompact`: one header for the whole module (always), then,
   * under an open header, a row per matching dependency of any variant.
   */
  function CompactModuleItems(cfg: Settings, m: Module): seq<ListItem>
    requires m.WithVariants?
  {
    var id := DeclaredBaseHeader(m.identity);
    var pairs := MatchingPairs(cfg, m);
    var state := StateForOrOpen(cfg, id);
    [Header(m.name, id, state, [], HeaderContent(cfg, id, Dependencies(pairs)))]
    + (if state == Open then CompactItems(cfg, m, FilterPairs(pairs, cfg.searchQuery)) else [])
  }

  /** The compact section always has its header; its rows follow only an open header, one per matching (variant, dependency) pair. */
  lemma CompactModuleShape(cfg: Settings, m: Module)
    requires m.WithVariants?
    ensures var r := CompactModuleItems(cfg, m);
      var id := DeclaredBaseHeader(m.identity);
      && r != [] && r[0].Header? && r[0].headerId == id && r[0].state == StateForOrOpen(cfg, id)
      && (|r| > 1 ==> StateForOrOpen(cfg, id) == Open)
      && (forall i :: 0 < i < |r| ==> exists v, d :: v in m.variants && d in v.declaredDependencies && PackageGroups.Matches(d, cfg.searchQuery)
                                                    && r[i] == CompactDependencyItem(cfg, m, VariantDependency(v, d)))
  {
    var r := CompactModuleItems(cfg, m);
    var id := DeclaredBaseHeader(m.identity);
    var rows := FilterPairs(MatchingPairs(cfg, m), cfg.searchQuery);
    var items := if StateForOrOpen(cfg, id) == Open then CompactItems(cfg, m, rows) else [];
    assert r[1..] == items;
    forall i | 0 < i < |r| ensures exists v, d :: v in m.variants && d in v.declaredDependencies && PackageGroups.Matches(d, cfg.searchQuery)
                                                  && r[i] == CompactDependencyItem(cfg, m, VariantDependency(v, d)) {
      var p := rows[i - 1];
      assert p in rows;
      assert r[i] == items[i - 1] == CompactDependencyItem(cfg, m, p);
      assert p == VariantDependency(p.variant, p.dependency);
    }
  }

  // ---- Modules ----

  /** `addFromModule`: a plain module's section, or a module with variants in compact or expanded form. */
  function ModuleItems(cfg: Settings, m: Module): seq<ListItem> {
    match m
    case Base(_, _, _, _, _, _, _) => BaseModuleItems(cfg, m)
    case WithVariants(_, _, _, _, _, _, _) => if cfg.isCompact then CompactModuleItems(cfg, m) else ExpandedItems(cfg, m, m.variants)
  }

  /** `addFromModules`: the modules' sections, in order. */
  function ModulesItems(cfg: Settings, ms: seq<Module>): seq<ListItem> {
    if ms == [] then [] else ModulesItems(cfg, ms[..|ms| - 1]) + ModuleItems(cfg, ms[|ms| - 1])
  }

  // ---- Search results ----

  function Take<T>(s: seq<T>, n: nat): (r: seq<T>)
    ensures |r| <= n && |r| <= |s|
    ensures r == s[..|r|]
    ensures |s| <= n ==> r == s
    ensures |s| > n ==> |r| == n
  {
    if |s| <= n then s else s[..n]
  }

  function RemoteBaseRow(cfg: Settings, hid: HeaderId, a: ApiPackage): (r: ListItem)
    ensures r.RemoteBaseItem? && r.id == RemoteBaseId(hid.moduleIdentity, a.id, hid)
    ensures r.isLoading <==> r.id in cfg.packagesLoadingState
  {
    var id := RemoteBaseId(hid.moduleIdentity, a.id, hid);
    RemoteBaseItem(a.name, id, a.coordinates, id in cfg.packagesLoadingState)
  }

  function RemoteBaseRows(cfg: Settings, hid: HeaderId, ps: seq<ApiPackage>): (r: seq<ListItem>)
    ensures |r| == |ps|
    ensures forall i :: 0 <= i < |ps| ==> r[i] == RemoteBaseRow(cfg, hid, ps[i])
  {
    if ps == [] then [] else RemoteBaseRows(cfg, hid, ps[..|ps| - 1]) + [RemoteBaseRow(cfg, hid, ps[|ps| - 1])]
  }

  /** The results shown for a plain module: the first 25 results that the module does not already declare. */
  function ShownBaseResults(packages: seq<ApiPackage>, m: Module): seq<ApiPackage>
    requires m.Base?
  {
    PackageGroups.NotDeclared(Take(packages, MaxSearchResults), PackageGroups.PackageIds(m.declaredDependencies))
  }

  /** `addFromSearchQueryBase`: the results header, then, when it is open, a row per shown result. */
  function ResultsBaseItems(cfg: Settings, hid: HeaderId, packages: seq<ApiPackage>, m: Module): seq<ListItem>
    requires m.Base?
  {
    var state := ResultsHeaderState(cfg, hid);
    [Header(SearchResultsTitle, hid, state, [], None)]
    + (if state == Open then RemoteBaseRows(cfg, hid, ShownBaseResults(packages, m)) else [])
  }

  /**
   * A plain module's results: one header, rows only when it is open, at most 25 rows,
   * each for one of the first 25 results and never for a package the module declares.
   */
  lemma ResultsBaseShape(cfg: Settings, hid: HeaderId, packages: seq<ApiPackage>, m: Module)
    requires m.Base?
    ensures var r := ResultsBaseItems(cfg, hid, packages, m);
      && r[0] == Header(SearchResultsTitle, hid, ResultsHeaderState(cfg, hid), [], None)
      && |r| <= 1 + MaxSearchResults
      && (|r| > 1 ==> ResultsHeaderState(cfg, hid) == Open)
      && forall i :: 0 < i < |r| ==>
           exists a :: (&& a in packages[..|Take(packages, MaxSearchResults)|]
                        && (forall d :: d in m.declaredDependencies ==> d.id != a.id)
                        && r[i] == RemoteBaseRow(cfg, hid, a))
  {
    var r := ResultsBaseItems(cfg, hid, packages, m);
    var taken := Take(packages, MaxSearchResults);
    var shown := ShownBaseResults(packages, m);
    assert |shown| <= |taken| by {
      NotDeclaredShrinks(taken, PackageGroups.PackageIds(m.declaredDependencies));
    }
    forall i | 0 < i < |r|
      ensures exists a :: (&& a in packages[..|taken|]
                           && (forall d :: d in m.declaredDependencies ==> d.id != a.id)
                           && r[i] == RemoteBaseRow(cfg, hid, a))
    {
      var a := shown[i - 1];
      assert a in shown;
    }
  }

  lemma {:induction false} NotDeclaredShrinks(results: seq<ApiPackage>, ids: seq<string>)
    ensures |PackageGroups.NotDeclared(results, ids)| <= |results|
  {
    if results != [] {
      NotDeclaredShrinks(results[1..], ids);
    }
  }

  /** The first primary variant with the given name (`firstOrNull { it.isPrimary && it.name == name }`). */
  function PrimaryVariant(vs: seq<Variant>, name: string): (r: Option<Variant>)
    ensures r.Some? ==> r.value in vs && r.value.isPrimary && r.value.name == name
    ensures r.None? <==> forall v :: v in vs ==> !(v.isPrimary && v.name == name)
  {
    if vs == [] then None
    else if vs[0].isPrimary && vs[0].name == name then Some(vs[0])
    else PrimaryVariant(vs[1..], name)
  }

  /** The ids declared in the primary variant the search targets; none when there is no such variant. */
  function PrimaryDeclaredIds(m: Module, primaryVariantName: string): seq<string>
    requires m.WithVariants?
  {
    match PrimaryVariant(m.variants, primaryVariantName)
    case None => []
    case Some(v) => PackageGroups.PackageIds(v.declaredDependencies)
  }

  predicate DeclaresPackage(v: Variant, packageId: string) {
    exists d :: d in v.declaredDependencies && d.id == packageId
  }

  /** The additional variants a result could still be added to: those that exist and do not declare it. */
  function AdditionalVariantsFor(m: Module, names: seq<string>, packageId: string): (r: seq<string>)
    requires m.WithVariants?
    ensures forall n :: n in r <==> n in names && VariantNamed(m.variants, n).Some? && !DeclaresPackage(VariantNamed(m.variants, n).value, packageId)
    ensures |r| <= |names|
  {
    if names == [] then []
    else
      var rest := AdditionalVariantsFor(m, names[1..], packageId);
      assert forall n :: n in names <==> n == names[0] || n in names[1..];
      var v := VariantNamed(m.variants, names[0]);
      if v.Some? && !DeclaresPackage(v.value, packageId) then [names[0]] + rest else rest
  }

  /** A result is left out when the primary variant has it and no additional variant could take it. */
  predicate Skipped(m: Module, s: Search, declaredIds: seq<string>, a: ApiPackage)
    requires m.WithVariants? && s.ResultsWithVariants?
  {
    a.id in declaredIds && AdditionalVariantsFor(m, s.additionalVariants, a.id) == []
  }

  function RemoteVariantRow(cfg: Settings, hid: HeaderId, m: Module, s: Search, declaredIds: seq<string>, a: ApiPackage): (r: ListItem)
    requires m.WithVariants? && s.ResultsWithVariants?
    ensures r.RemoteVariantItem? && r.id == RemoteVariantId(hid.moduleIdentity, a.id, hid)
    ensures r.isLoading <==> r.id in cfg.packagesLoadingState
    ensures r.isInstalledInPrimaryVariant <==> a.id in declaredIds
    ensures r.additionalVariants == AdditionalVariantsFor(m, s.additionalVariants, a.id)
  {
    var id := RemoteVariantId(hid.moduleIdentity, a.id, hid);
    RemoteVariantItem(a.name, id, a.coordinates, id in cfg.packagesLoadingState, s.primaryVariantName,
                      a.id in declaredIds, AdditionalVariantsFor(m, s.additionalVariants, a.id))
  }

  function RemoteVariantRows(cfg: Settings, hid: HeaderId, m: Module, s: Search, declaredIds: seq<string>, ps: seq<ApiPackage>): (r: seq<ListItem>)
    requires m.WithVariants? && s.ResultsWithVariants?
    ensures |r| <= |ps|
  {
    if ps == [] then []
    else
      var rest := RemoteVariantRows(cfg, hid, m, s, declaredIds, ps[..|ps| - 1]);
      var a := ps[|ps| - 1];
      if Skipped(m, s, declaredIds, a) then rest else rest + [RemoteVariantRow(cfg, hid, m, s, declaredIds, a)]
  }

  /** A result gets a row exactly when it is not skipped. */
  lemma {:induction false} RemoteVariantRowsExact(cfg: Settings, hid: HeaderId, m: Module, s: Search, declaredIds: seq<string>, ps: seq<ApiPackage>)
    requires m.WithVariants? && s.ResultsWithVariants?
    ensures var r := RemoteVariantRows(cfg, hid, m, s, declaredIds, ps);
      && (forall it :: it in r ==> exists a :: a in ps && !Skipped(m, s, declaredIds, a) && it == RemoteVariantRow(cfg, hid, m, s, declaredIds, a))
      && (forall a :: a in ps && !Skipped(m, s, declaredIds, a) ==> RemoteVariantRow(cfg, hid, m, s, declaredIds, a) in r)
  {
    if ps != [] {
      var init := ps[..|ps| - 1];
      RemoteVariantRowsExact(cfg, hid, m, s, declaredIds, init);
      assert forall a :: a in ps <==> a in init || a == ps[|ps| - 1];
      var last := ps[|ps| - 1];
      var rest := RemoteVariantRows(cfg, hid, m, s, declaredIds, init);
      var r := RemoteVariantRows(cfg, hid, m, s, declaredIds, ps);
      if !Skipped(m, s, declaredIds, last) {
        assert r == rest + [RemoteVariantRow(cfg, hid, m, s, declaredIds, last)];
        forall it | it in r
          ensures exists a :: a in ps && !Skipped(m, s, declaredIds, a) && it == RemoteVariantRow(cfg, hid, m, s, declaredIds, a)
        {
          if it !in rest {
            assert it == RemoteVariantRow(cfg, hid, m, s, declaredIds, last);
          } else {
            var a :| a in init && !Skipped(m, s, declaredIds, a) && it == RemoteVariantRow(cfg, hid, m, s, declaredIds, a);
            assert a in ps;
          }
        }
      } else {
        assert r == rest;
        forall it | it in r
          ensures exists a :: a in ps && !Skipped(m, s, declaredIds, a) && it == RemoteVariantRow(cfg, hid, m, s, declaredIds, a)
        {
          var a :| a in init && !Skipped(m, s, declaredIds, a) && it == RemoteVariantRow(cfg, hid, m, s, declaredIds, a);
          assert a in ps;
        }
      }
    }
  }

  function VariantsTextOf(s: Search): AdditionalContent
    requires s.QueryWithVariants? || s.ResultsWithVariants?
  {
    VariantsText(PackageListUtils.BuildVariantsText(s.primaryVariantName, s.additionalVariants))
  }

  /** `addFromSearchQueryWithVariants`: the results header with the variants summary, then the rows of the first 25 results. */
  function ResultsVariantItems(cfg: Settings, hid: HeaderId, s: Search, m: Module): seq<ListItem>
    requires m.WithVariants? && s.ResultsWithVariants?
  {
    var state := ResultsHeaderState(cfg, hid);
    [Header(SearchResultsTitle, hid, state, s.attributes, Some(VariantsTextOf(s)))]
    + (if state == Open
       then RemoteVariantRows(cfg, hid, m, s, PrimaryDeclaredIds(m, s.primaryVariantName), Take(s.packages, MaxSearchResults))
       else [])
  }

  /** A module-with-variants' results: one header, rows only when it is open, and at most 25 rows. */
  lemma ResultsVariantShape(cfg: Settings, hid: HeaderId, s: Search, m: Module)
    requires m.WithVariants? && s.ResultsWithVariants?
    ensures var r := ResultsVariantItems(cfg, hid, s, m);
      && r[0] == Header(SearchResultsTitle, hid, ResultsHeaderState(cfg, hid), s.attributes, Some(VariantsTextOf(s)))
      && |r| <= 1 + MaxSearchResults
      && (|r| > 1 ==> ResultsHeaderState(cfg, hid) == Open)
  {
  }

  /** The search-result map must key base results by a base header and variant results by a variant header. */
  predicate WellKeyed(e: SearchEntry) {
    && (e.headerId.RemoteBaseHeader? || e.headerId.RemoteVariantHeader?)
    && (e.search.ResultsBase? ==> e.headerId.RemoteBaseHeader?)
    && (e.search.ResultsWithVariants? ==> e.headerId.RemoteVariantHeader?)
  }

  /**
   * One entry of `addFromSearch`: a pending query shows only its header (loading when
   * opened); results show their section when the header's module is known and of the
   * right kind, and nothing otherwise.
   */
  function SearchEntryItems(cfg: Settings, e: SearchEntry): seq<ListItem>
    requires WellKeyed(e)
  {
    var hid := e.headerId;
    match e.search
    case QueryBase => [Header(SearchResultsTitle, hid, QueryHeaderState(cfg, hid), [], None)]
    case QueryWithVariants(attributes, _, _) =>
      [Header(SearchResultsTitle, hid, QueryHeaderState(cfg, hid), attributes, Some(VariantsTextOf(e.search)))]
    case ResultsBase(packages) =>
      if hid.moduleIdentity in cfg.modulesMap && cfg.modulesMap[hid.moduleIdentity].Base?
      then ResultsBaseItems(cfg, hid, packages, cfg.modulesMap[hid.moduleIdentity])
      else []
    case ResultsWithVariants(_, _, _, _) =>
      if hid.moduleIdentity in cfg.modulesMap && cfg.modulesMap[hid.moduleIdentity].WithVariants?
      then ResultsVariantItems(cfg, hid, e.search, cfg.modulesMap[hid.moduleIdentity])
      else []
  }

  /** A pending query adds exactly its header, loading iff the user opened it. */
  lemma QueryEntryIsHeaderOnly(cfg: Settings, e: SearchEntry)
    requires WellKeyed(e) && (e.search.QueryBase? || e.search.QueryWithVariants?)
    ensures var r := SearchEntryItems(cfg, e);
      && |r| == 1 && r[0].Header? && r[0].headerId == e.headerId
      && (r[0].state == Loading <==> e.headerId in cfg.headerCollapsedStates && cfg.headerCollapsedStates[e.headerId] == TargetOpen)
  {
  }

  function SearchItems(cfg: Settings, entries: seq<SearchEntry>): seq<ListItem>
    requires forall e :: e in entries ==> WellKeyed(e)
  {
    if entries == [] then [] else SearchItems(cfg, entries[..|entries| - 1]) + SearchEntryItems(cfg, entries[|entries| - 1])
  }

  // ---- The builder ----

  lemma AppendAssoc<T>(a: seq<T>, b: seq<T>, c: seq<T>)
    ensures a + b + c == a + (b + c)
  {
  }

  /** `PackageListBuilder`: appends headers and rows to `items`; `build` returns them. */
  class PackageListBuilder {
    const isCompact: bool
    const onlyStable: bool
    const headerCollapsedStates: map<HeaderId, TargetState>
    const packagesLoadingState: set<PackageId>
    const headerLoadingStates: set<HeaderId>
    const searchQuery: string
    const modulesMap: map<Identity, Module>
    var items: seq<ListItem>

    /** The constructor arguments, as the specification functions take them. */
    function Config(): Settings {
      Settings(isCompact, onlyStable, headerCollapsedStates, packagesLoadingState, headerLoadingStates, searchQuery, modulesMap)
    }

    constructor (isCompact: bool, onlyStable: bool, headerCollapsedStates: map<HeaderId, TargetState>,
                 packagesLoadingState: set<PackageId>, headerLoadingStates: set<HeaderId>, searchQuery: string,
                 modulesMap: map<Identity, Module>)
      ensures Config() == Settings(isCompact, onlyStable, headerCollapsedStates, packagesLoadingState,
                                   headerLoadingStates, searchQuery, modulesMap)
      ensures items == []
    {
      this.isCompact := isCompact;
      this.onlyStable := onlyStable;
      this.headerCollapsedStates := headerCollapsedStates;
      this.packagesLoadingState := packagesLoadingState;
      this.headerLoadingStates := headerLoadingStates;
      this.searchQuery := searchQuery;
      this.modulesMap := modulesMap;
      items := [];
    }

    method Build() returns (r: seq<ListItem>)
      ensures r == items
    {
      r := items;
    }

    method AddHeader(title: string, id: HeaderId, state: HeaderState, attributes: seq<string>,
                     additionalContent: Option<AdditionalContent>)
      modifies this`items
      ensures items == old(items) + [Header(title, id, state, attributes, additionalContent)]
    {
      items := items + [Header(title, id, state, attributes, additionalContent)];
    }

    method AddDeclaredPackage(title: string, subtitle: string, id: PackageId, latestVersion: Option<string>,
                              selectedScope: Option<string>, availableScopes: seq<string>, declaredVersion: Option<string>,
                              availableVersions: seq<string>, allowMissingScope: bool)
      modifies this`items
      ensures items == old(items) + [DeclaredPackageItem(Config(), title, subtitle, id, latestVersion, selectedScope,
                                                         availableScopes, declaredVersion, availableVersions, allowMissingScope)]
    {
      items := items + [DeclaredItem(title, id, subtitle, id in packagesLoadingState, allowMissingScope, latestVersion,
                                     selectedScope, Without(availableScopes, selectedScope), declaredVersion,
                                     Without(availableVersions, declaredVersion))];
    }

    method AddFromModules(modules: seq<Module>)
      modifies this`items
      ensures items == old(items) + ModulesItems(Config(), modules)
    {
      for i := 0 to |modules|
        invariant items == old(items) + ModulesItems(Config(), modules[..i])
      {
        ghost var before := items;
        AddFromModule(modules[i]);
        assert modules[..i + 1][..i] == modules[..i];
        assert ModulesItems(Config(), modules[..i + 1]) == ModulesItems(Config(), modules[..i]) + ModuleItems(Config(), modules[i]);
        AppendAssoc(old(items), ModulesItems(Config(), modules[..i]), ModuleItems(Config(), modules[i]));
      }
      assert modules[..|modules|] == modules;
    }

    method AddFromModule(m: Module)
      modifies this`items
      ensures items == old(items) + ModuleItems(Config(), m)
    {
      match m
      case Base(_, _, _, _, _, _, _) => AddFromBaseModule(m);
      case WithVariants(_, _, _, _, _, _, _) => AddFromModuleWithVariants(m);
    }

    method AddFromBaseModule(base: Module)
      requires base.Base?
      modifies this`items
      ensures items == old(items) + BaseModuleItems(Config(), base)
    {
      var id := DeclaredBaseHeader(base.identity);
      var dependenciesToShow := PackageGroups.FilterMatching(base.declaredDependencies, searchQuery);
      var state := StateForOrOpen(Config(), id);
      ghost var header: seq<ListItem> := [];
      if dependenciesToShow != [] || isCompact {
        header := [Header(base.name, id, state, [], HeaderContent(Config(), id, dependenciesToShow))];
        AddHeader(base.name, id, state, [], HeaderContent(Config(), id, dependenciesToShow));
      }
      var shown := PackageGroups.FilterMatching(dependenciesToShow, searchQuery);
      if state == Open {
        AddBaseRows(base, shown);
      }
      ghost var rows := if state == Open then BaseDependencyItems(Config(), base, shown) else [];
      assert BaseModuleItems(Config(), base) == header + rows;
      AppendAssoc(old(items), header, rows);
    }

    /** One row of a base module's section. */
    method AddBaseRow(base: Module, d: DeclaredPackage)
      modifies this`items
      ensures items == old(items) + [BaseDependencyItem(Config(), base, d)]
    {
      AddDeclaredPackage(d.displayName, d.coordinates, DeclaredBaseId(base.identity, d.id),
                         LatestVersionName(d, onlyStable), d.declaredScope, base.availableScopes,
                         DeclaredVersionName(d), AvailableVersionStrings(d, onlyStable), !base.dependencyMustHaveAScope);
    }

    /** The rows of a base module's open section, one per shown dependency, in order. */
    method AddBaseRows(base: Module, shown: seq<DeclaredPackage>)
      modifies this`items
      ensures items == old(items) + BaseDependencyItems(Config(), base, shown)
    {
      for i := 0 to |shown|
        invariant items == old(items) + BaseDependencyItems(Config(), base, shown[..i])
      {
        var d := shown[i];
        AddBaseRow(base, d);
        assert shown[..i + 1][..i] == shown[..i];
        assert BaseDependencyItems(Config(), base, shown[..i + 1])
            == BaseDependencyItems(Config(), base, shown[..i]) + [BaseDependencyItem(Config(), base, d)];
        AppendAssoc(old(items), BaseDependencyItems(Config(), base, shown[..i]), [BaseDependencyItem(Config(), base, d)]);
      }
      assert shown[..|shown|] == shown;
    }

    method AddFromModuleWithVariants(m: Module)
      requires m.WithVariants?
      modifies this`items
      ensures items == old(items) + ModuleItems(Config(), m)
    {
      if isCompact {
        AddFromModuleWithVariantsCompact(m);
      } else {
        AddFromModuleWithVariantsExpanded(m);
      }
    }

    method AddFromModuleWithVariantsExpanded(m: Module)
      requires m.WithVariants?
      modifies this`items
      ensures items == old(items) + ExpandedItems(Config(), m, m.variants)
    {
      for i := 0 to |m.variants|
        invariant items == old(items) + ExpandedItems(Config(), m, m.variants[..i])
      {
        AddVariantSection(m, m.variants[i]);
        assert m.variants[..i + 1][..i] == m.variants[..i];
        assert ExpandedItems(Config(), m, m.variants[..i + 1]) == ExpandedItems(Config(), m, m.variants[..i]) + VariantSection(Config(), m, m.variants[i]);
        AppendAssoc(old(items), ExpandedItems(Config(), m, m.variants[..i]), VariantSection(Config(), m, m.variants[i]));
      }
      assert m.variants[..|m.variants|] == m.variants;
    }

    /** The body of the expanded list's per-variant loop. */
    method AddVariantSection(m: Module, v: Variant)
      modifies this`items
      ensures items == old(items) + VariantSection(Config(), m, v)
    {
      var id := DeclaredVariantHeader(m.identity, v.name);
      var dependenciesToShow := PackageGroups.FilterMatching(v.declaredDependencies, searchQuery);
      if dependenciesToShow == [] {
        return;
      }
      var state := StateForOrOpen(Config(), id);
      ghost var header := [Header(v.name, id, state, PackageGroups.AttributeValues(v.attributes), HeaderContent(Config(), id, v.declaredDependencies))];
      AddHeader(v.name, id, state, PackageGroups.AttributeValues(v.attributes), HeaderContent(Config(), id, v.declaredDependencies));
      var shown := PackageGroups.FilterMatching(v.declaredDependencies, searchQuery);
      if state == Open {
        AddVariantRows(m, v, shown);
      }
      ghost var rows := if state == Open then VariantDependencyItems(Config(), m, v, shown) else [];
      assert VariantSection(Config(), m, v) == header + rows;
      AppendAssoc(old(items), header, rows);
    }

    /** One row of a variant's section. */
    method AddVariantRow(m: Module, v: Variant, d: DeclaredPackage)
      modifies this`items
      ensures items == old(items) + [VariantDependencyItem(Config(), m, v, d)]
    {
      AddDeclaredPackage(d.displayName, d.coordinates, DeclaredVariantId(m.identity, d.id, v.name),
                         LatestVersionName(d, onlyStable), d.declaredScope, v.availableScopes,
                         DeclaredVersionName(d), AvailableVersionStrings(d, onlyStable), !m.dependencyMustHaveAScope);
    }

    /** The rows of a variant's open section, one per shown dependency, in order. */
    method AddVariantRows(m: Module, v: Variant, shown: seq<DeclaredPackage>)
      modifies this`items
      ensures items == old(items) + VariantDependencyItems(Config(), m, v, shown)
    {
      for i := 0 to |shown|
        invariant items == old(items) + VariantDependencyItems(Config(), m, v, shown[..i])
      {
        var d := shown[i];
        AddVariantRow(m, v, d);
        assert shown[..i + 1][..i] == shown[..i];
        assert VariantDependencyItems(Config(), m, v, shown[..i + 1])
            == VariantDependencyItems(Config(), m, v, shown[..i]) + [VariantDependencyItem(Config(), m, v, d)];
        AppendAssoc(old(items), VariantDependencyItems(Config(), m, v, shown[..i]), [VariantDependencyItem(Config(), m, v, d)]);
      }
      assert shown[..|shown|] == shown;
    }

    /** One row of the compact section: the dependency, with its variant's name in the coordinates column. */
    method AddCompactRow(m: Module, p: VariantDependency)
      modifies this`items
      ensures items == old(items) + [CompactDependencyItem(Config(), m, p)]
    {
      AddDeclaredPackage(p.dependency.displayName, p.variant.name, DeclaredVariantId(m.identity, p.dependency.id, p.variant.name),
                         LatestVersionName(p.dependency, onlyStable), p.dependency.declaredScope, p.variant.availableScopes,
                         DeclaredVersionName(p.dependency), AvailableVersionStrings(p.dependency, onlyStable),
                         !m.dependencyMustHaveAScope);
    }

    /** The rows of the compact section, one per (variant, dependency) pair, in order. */
    method AddCompactRows(m: Module, shown: seq<VariantDependency>)
      modifies this`items
      ensures items == old(items) + CompactItems(Config(), m, shown)
    {
      for i := 0 to |shown|
        invariant items == old(items) + CompactItems(Config(), m, shown[..i])
      {
        var p := shown[i];
        AddCompactRow(m, p);
        assert shown[..i + 1][..i] == shown[..i];
        assert CompactItems(Config(), m, shown[..i + 1]) == CompactItems(Config(), m, shown[..i]) + [CompactDependencyItem(Config(), m, p)];
        AppendAssoc(old(items), CompactItems(Config(), m, shown[..i]), [CompactDependencyItem(Config(), m, p)]);
      }
      assert shown[..|shown|] == shown;
    }

    method AddFromModuleWithVariantsCompact(m: Module)
      requires m.WithVariants?
      modifies this`items
      ensures items == old(items) + CompactModuleItems(Config(), m)
    {
      var id := DeclaredBaseHeader(m.identity);
      var dependenciesToShow := MatchingPairs(Config(), m);
      var state := StateForOrOpen(Config(), id);
      ghost var header := [Header(m.name, id, state, [], HeaderContent(Config(), id, Dependencies(dependenciesToShow)))];
      AddHeader(m.name, id, state, [], HeaderContent(Config(), id, Dependencies(dependenciesToShow)));
      ghost var start := items;
      var shown := FilterPairs(dependenciesToShow, searchQuery);
      if state == Open {
        AddCompactRows(m, shown);
      }
      ghost var rows := if state == Open then CompactItems(Config(), m, shown) else [];
      assert items == start + rows;
      assert CompactModuleItems(Config(), m) == header + rows;
      AppendAssoc(old(items), header, rows);
    }

    method AddFromSearch(entries: seq<SearchEntry>)
      requires forall e :: e in entries ==> WellKeyed(e)
      modifies this`items
      ensures items == old(items) + SearchItems(Config(), entries)
    {
      for i := 0 to |entries|
        invariant items == old(items) + SearchItems(Config(), entries[..i])
      {
        var e := entries[i];
        AddSearchEntry(e);
        assert entries[..i + 1][..i] == entries[..i];
        assert SearchItems(Config(), entries[..i + 1]) == SearchItems(Config(), entries[..i]) + SearchEntryItems(Config(), e);
        AppendAssoc(old(items), SearchItems(Config(), entries[..i]), SearchEntryItems(Config(), e));
      }
      assert entries[..|entries|] == entries;
    }

    /** The body of `addFromSearch`'s loop: one entry of the search-result map. */
    method AddSearchEntry(e: SearchEntry)
      requires WellKeyed(e)
      modifies this`items
      ensures items == old(items) + SearchEntryItems(Config(), e)
    {
      var hid := e.headerId;
      match e.search
      case QueryBase =>
        AddHeader(SearchResultsTitle, hid, QueryHeaderState(Config(), hid), [], None);
      case QueryWithVariants(attributes, _, _) =>
        AddHeader(SearchResultsTitle, hid, QueryHeaderState(Config(), hid), attributes, Some(VariantsTextOf(e.search)));
      case ResultsBase(packages) =>
        if hid.moduleIdentity in modulesMap && modulesMap[hid.moduleIdentity].Base? {
          AddFromSearchQueryBase(hid, packages, modulesMap[hid.moduleIdentity]);
        }
      case ResultsWithVariants(_, _, _, _) =>
        if hid.moduleIdentity in modulesMap && modulesMap[hid.moduleIdentity].WithVariants? {
          AddFromSearchQueryWithVariants(hid, e.search, modulesMap[hid.moduleIdentity]);
        }
    }

    method AddFromSearchQueryBase(hid: HeaderId, packages: seq<ApiPackage>, m: Module)
      requires m.Base?
      modifies this`items
      ensures items == old(items) + ResultsBaseItems(Config(), hid, packages, m)
    {
      var state := ResultsHeaderState(Config(), hid);
      AddHeader(SearchResultsTitle, hid, state, [], None);
      ghost var start := items;
      var shown := ShownBaseResults(packages, m);
      if state == Open {
        for i := 0 to |shown|
          invariant items == start + RemoteBaseRows(Config(), hid, shown[..i])
        {
          var a := shown[i];
          AddRemoteBasePackage(a.name, a.coordinates, RemoteBaseId(hid.moduleIdentity, a.id, hid));
          assert shown[..i + 1][..i] == shown[..i];
          assert RemoteBaseRows(Config(), hid, shown[..i + 1]) == RemoteBaseRows(Config(), hid, shown[..i]) + [RemoteBaseRow(Config(), hid, a)];
          AppendAssoc(start, RemoteBaseRows(Config(), hid, shown[..i]), [RemoteBaseRow(Config(), hid, a)]);
        }
        assert shown[..|shown|] == shown;
      }
      ghost var rows := if state == Open then RemoteBaseRows(Config(), hid, shown) else [];
      ghost var header := [Header(SearchResultsTitle, hid, state, [], None)];
      assert ResultsBaseItems(Config(), hid, packages, m) == header + rows;
      AppendAssoc(old(items), header, rows);
    }

    method AddFromSearchQueryWithVariants(hid: HeaderId, s: Search, m: Module)
      requires m.WithVariants? && s.ResultsWithVariants?
      modifies this`items
      ensures items == old(items) + ResultsVariantItems(Config(), hid, s, m)
    {
      var state := ResultsHeaderState(Config(), hid);
      AddHeader(SearchResultsTitle, hid, state, s.attributes, Some(VariantsTextOf(s)));
      ghost var start := items;
      var declaredPackageIds := PrimaryDeclaredIds(m, s.primaryVariantName);
      var taken := Take(s.packages, MaxSearchResults);
      if state == Open {
        for i := 0 to |taken|
          invariant items == start + RemoteVariantRows(Config(), hid, m, s, declaredPackageIds, taken[..i])
        {
          var a := taken[i];
          assert taken[..i + 1][..i] == taken[..i];
          ghost var done := RemoteVariantRows(Config(), hid, m, s, declaredPackageIds, taken[..i]);
          var additionalVariants := AdditionalVariantsFor(m, s.additionalVariants, a.id);
          var isInstalledInPrimaryVariant := a.id in declaredPackageIds;
          if isInstalledInPrimaryVariant && additionalVariants == [] {
            assert RemoteVariantRows(Config(), hid, m, s, declaredPackageIds, taken[..i + 1]) == done;
            continue;
          }
          AddRemotePackageWithVariants(a.name, a.coordinates, RemoteVariantId(hid.moduleIdentity, a.id, hid),
                                       s.primaryVariantName, additionalVariants, isInstalledInPrimaryVariant);
          assert RemoteVariantRows(Config(), hid, m, s, declaredPackageIds, taken[..i + 1])
              == done + [RemoteVariantRow(Config(), hid, m, s, declaredPackageIds, a)];
          AppendAssoc(start, done, [RemoteVariantRow(Config(), hid, m, s, declaredPackageIds, a)]);
        }
        assert taken[..|taken|] == taken;
      }
      ghost var rows := if state == Open then RemoteVariantRows(Config(), hid, m, s, declaredPackageIds, taken) else [];
      ghost var header := [Header(SearchResultsTitle, hid, state, s.attributes, Some(VariantsTextOf(s)))];
      assert ResultsVariantItems(Config(), hid, s, m) == header + rows;
      AppendAssoc(old(items), header, rows);
    }

    method AddRemotePackageWithVariants(title: string, subtitle: string, id: PackageId, primaryVariant: string,
                                        additionalVariants: seq<string>, isInstalledInPrimaryVariant: bool)
      modifies this`items
      ensures items == old(items) + [RemoteVariantItem(title, id, subtitle, id in packagesLoadingState, primaryVariant,
                                                       isInstalledInPrimaryVariant, additionalVariants)]
    {
      items := items + [RemoteVariantItem(title, id, subtitle, id in packagesLoadingState, primaryVariant,
                                          isInstalledInPrimaryVariant, additionalVariants)];
    }

    method AddRemoteBasePackage(title: string, subtitle: string, id: PackageId)
      modifies this`items
      ensures items == old(items) + [RemoteBaseItem(title, id, subtitle, id in packagesLoadingState)]
    {
      items := items + [RemoteBaseItem(title, id, subtitle, id in packagesLoadingState)];
    }
  }
}

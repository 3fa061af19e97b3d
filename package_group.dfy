/**
 * The package groups shown in the packages list: one group per selected module (or
 * per variant) of declared dependencies matching the search filter, and the groups of
 * remote search results. `PackageGroupsBuilder` holds both lists and reassigns them.
 */
module PackageGroups {
  import opened Wrappers
  import opened Text
  import opened CoreData
  import opened Collections
  import Sorting

  /** A group's expansion state. */
  datatype State = Open | Collapsed {
    function Toggle(): (r: State)
      ensures r != this
    {
      if Open? then Collapsed else Open
    }
  }

  lemma ToggleTwice(s: State)
    ensures s.Toggle().Toggle() == s
  {
  }

  /** The handle of the build system's dependency manager; opaque to this model. */
  datatype DependencyManager = DependencyManager(name: string)

  /** `PackageSearchModuleData`: a selected module and its dependency manager. */
  datatype ModuleData = ModuleData(mod: Module, dependencyManager: DependencyManager)

  /** The groups of declared dependencies. */
  datatype DeclaredGroup =
    | FromVariant(mod: Module, variant: Variant, filteredDependencies: seq<DeclaredPackage>, dependencyManager: DependencyManager)
    | FromModuleWithVariantsCompact(mod: Module, filteredDependencies: seq<DeclaredPackage>, dependencyManager: DependencyManager)
    | FromBaseModule(mod: Module, filteredDependencies: seq<DeclaredPackage>, dependencyManager: DependencyManager)
  {
    function Size(): nat {
      |filteredDependencies|
    }
  }

  /** The groups of remote search results. */
  datatype RemoteGroup =
    | RemoteFromBaseModule(mod: Module, packages: seq<ApiPackage>, dependencyManager: DependencyManager)
    | FromVariants(mod: Module, packages: seq<ApiPackage>, badges: seq<string>, compatibleVariants: seq<Variant>, dependencyManager: DependencyManager)
    | FromMultipleModules(moduleData: seq<ModuleData>, packages: seq<ApiPackage>)
  {
    function Size(): nat {
      |packages|
    }
  }

  datatype PackageGroup = Declared(declared: DeclaredGroup) | Remote(remote: RemoteGroup) {
    function Size(): nat {
      match this
      case Declared(d) => d.Size()
      case Remote(r) => r.Size()
    }
  }

  /** The search results of one set of compatible variants. */
  datatype VariantResults = VariantResults(compatibleVariants: seq<Variant>, results: seq<ApiPackage>)

  /** `SearchData.Results`, by the kind of selection the search was made for. */
  datatype SearchResults =
    | Empty
    | SingleBaseModuleResults(results: seq<ApiPackage>)
    | MultipleModulesResults(results: seq<ApiPackage>)
    | SingleModuleWithVariantsResults(variantResults: seq<VariantResults>)

  // ---- Filtering ----

  /** A declared dependency matches the search query when its id or display name contains it, ignoring case. */
  predicate Matches(p: DeclaredPackage, query: string) {
    ContainsIgnoreCase(p.id, query) || ContainsIgnoreCase(p.displayName, query)
  }

  function FilterMatching(ps: seq<DeclaredPackage>, query: string): (r: seq<DeclaredPackage>)
    ensures forall p :: p in r <==> p in ps && Matches(p, query)
    ensures |r| <= |ps|
  {
    if ps == [] then []
    else
      var rest := FilterMatching(ps[1..], query);
      assert forall p :: p in ps <==> p == ps[0] || p in ps[1..];
      if Matches(ps[0], query) then [ps[0]] + rest else rest
  }

  /** The dependencies of every variant that match, variant after variant. */
  function FilterAllVariants(vs: seq<Variant>, query: string): (r: seq<DeclaredPackage>)
    ensures forall p :: p in r <==> Matches(p, query) && exists v :: v in vs && p in v.declaredDependencies
  {
    if vs == [] then []
    else
      var rest := FilterAllVariants(vs[1..], query);
      assert forall v :: v in vs <==> v == vs[0] || v in vs[1..];
      FilterMatching(vs[0].declaredDependencies, query) + rest
  }

  // ---- Declared groups (`setLocal`) ----

  /** One group per variant with a matching dependency, in variant order. */
  function VariantGroups(m: Module, vs: seq<Variant>, query: string, dm: DependencyManager): (r: seq<DeclaredGroup>)
    ensures |r| <= |vs|
    ensures forall g :: g in r ==> g.FromVariant? && g.mod == m && g.dependencyManager == dm && g.variant in vs
                                   && g.filteredDependencies != []
                                   && g.filteredDependencies == FilterMatching(g.variant.declaredDependencies, query)
    ensures forall v :: v in vs && FilterMatching(v.declaredDependencies, query) != [] ==>
              exists g :: g in r && g.variant == v
  {
    if vs == [] then []
    else
      var filtered := FilterMatching(vs[0].declaredDependencies, query);
      var rest := VariantGroups(m, vs[1..], query, dm);
      assert forall v :: v in vs <==> v == vs[0] || v in vs[1..];
      if filtered == [] then rest
      else
        assert FromVariant(m, vs[0], filtered, dm) in [FromVariant(m, vs[0], filtered, dm)] + rest;
        [FromVariant(m, vs[0], filtered, dm)] + rest
  }

  /** The groups of consecutive runs of variants follow one another: variant order is kept. */
  lemma {:induction false} VariantGroupsAppend(m: Module, a: seq<Variant>, b: seq<Variant>, query: string, dm: DependencyManager)
    ensures VariantGroups(m, a + b, query, dm) == VariantGroups(m, a, query, dm) + VariantGroups(m, b, query, dm)
  {
    if a == [] {
      assert a + b == b;
    } else {
      assert (a + b)[0] == a[0];
      assert (a + b)[1..] == a[1..] + b;
      VariantGroupsAppend(m, a[1..], b, query, dm);
    }
  }

  /** The declared group of one module when several modules are selected. */
  function CompactGroup(d: ModuleData, query: string): (r: DeclaredGroup)
    ensures r.mod == d.mod
    ensures d.mod.Base? ==>
      (r.FromBaseModule? && forall p :: p in r.filteredDependencies <==> p in d.mod.declaredDependencies && Matches(p, query))
    ensures d.mod.WithVariants? ==>
      (r.FromModuleWithVariantsCompact? &&
       forall p :: p in r.filteredDependencies <==> Matches(p, query) && exists v :: v in d.mod.variants && p in v.declaredDependencies)
  {
    match d.mod
    case Base(_, _, _, _, _, _, ds) => FromBaseModule(d.mod, FilterMatching(ds, query), d.dependencyManager)
    case WithVariants(_, _, _, _, _, _, vs) => FromModuleWithVariantsCompact(d.mod, FilterAllVariants(vs, query), d.dependencyManager)
  }

  function CompactGroups(selected: seq<ModuleData>, query: string): (r: seq<DeclaredGroup>)
    ensures |r| == |selected|
    ensures forall i :: 0 <= i < |r| ==> r[i] == CompactGroup(selected[i], query)
  {
    if selected == [] then [] else [CompactGroup(selected[0], query)] + CompactGroups(selected[1..], query)
  }

  /** The declared groups `setLocal` computes for the selected modules and the search query. */
  function LocalGroups(selected: seq<ModuleData>, query: string): (r: seq<DeclaredGroup>)
    ensures selected == [] ==> r == []
    ensures |selected| > 1 ==> |r| == |selected| && forall i :: 0 <= i < |r| ==> r[i].mod == selected[i].mod
  {
    if selected == [] then []
    else if |selected| == 1 then
      match selected[0].mod
      case Base(_, _, _, _, _, _, ds) =>
        var filtered := FilterMatching(ds, query);
        if filtered == [] then [] else [FromBaseModule(selected[0].mod, filtered, selected[0].dependencyManager)]
      case WithVariants(_, _, _, _, _, _, vs) =>
        VariantGroups(selected[0].mod, vs, query, selected[0].dependencyManager)
    else CompactGroups(selected, query)
  }

  /**
   * A single plain module gives exactly one group, of exactly its matching
   * dependencies, when one matches, and no group otherwise.
   */
  lemma SingleBaseModuleGroup(d: ModuleData, query: string)
    requires d.mod.Base?
    ensures var r := LocalGroups([d], query);
      && (r == [] <==> forall p :: p in d.mod.declaredDependencies ==> !Matches(p, query))
      && (r != [] ==> |r| == 1 && r[0].FromBaseModule? && r[0].mod == d.mod
                      && forall p :: p in r[0].filteredDependencies <==> p in d.mod.declaredDependencies && Matches(p, query))
  {
    var filtered := FilterMatching(d.mod.declaredDependencies, query);
    if filtered != [] {
      assert filtered[0] in filtered;
    }
  }

  /** Every declared group's size is the number of matching dependencies it lists, all of them matching. */
  lemma DeclaredGroupsMatch(selected: seq<ModuleData>, query: string)
    ensures forall g :: g in LocalGroups(selected, query) ==>
      g.Size() == |g.filteredDependencies| && forall p :: p in g.filteredDependencies ==> Matches(p, query)
  {
    var r := LocalGroups(selected, query);
    forall g | g in r ensures forall p :: p in g.filteredDependencies ==> Matches(p, query) {
      if |selected| > 1 {
        var i :| 0 <= i < |r| && r[i] == g;
        assert g == CompactGroup(selected[i], query);
      }
    }
  }

  // ---- Remote groups (`setSearchResults`) ----

  function PackageIds(ds: seq<DeclaredPackage>): (r: seq<string>)
    ensures forall p :: p in ds ==> p.id in r
    ensures forall id :: id in r ==> exists p :: p in ds && p.id == id
  {
    if ds == [] then [] else [ds[0].id] + PackageIds(ds[1..])
  }

  function NotDeclared(results: seq<ApiPackage>, declaredIds: seq<string>): (r: seq<ApiPackage>)
    ensures forall a :: a in r <==> a in results && a.id !in declaredIds
  {
    if results == [] then []
    else
      var rest := NotDeclared(results[1..], declaredIds);
      assert forall a :: a in results <==> a == results[0] || a in results[1..];
      if results[0].id in declaredIds then rest else [results[0]] + rest
  }

  function Names(vs: seq<Variant>): (r: seq<string>)
    ensures |r| == |vs| && forall i :: 0 <= i < |vs| ==> r[i] == vs[i].name
  {
    if vs == [] then [] else [vs[0].name] + Names(vs[1..])
  }

  function AttributeValues(attributes: seq<Attribute>): (r: seq<string>)
    ensures |r| == |attributes| && forall i :: 0 <= i < |r| ==> r[i] == attributes[i].value
  {
    if attributes == [] then [] else [attributes[0].value] + AttributeValues(attributes[1..])
  }

  /** `module.variants.filterKeys { it in names }.values`: the module's variants with one of the names, in module order. */
  function VariantsNamed(vs: seq<Variant>, names: seq<string>): (r: seq<Variant>)
    ensures forall v :: v in r <==> v in vs && v.name in names
  {
    if vs == [] then []
    else
      var rest := VariantsNamed(vs[1..], names);
      assert forall v :: v in vs <==> v == vs[0] || v in vs[1..];
      if vs[0].name in names then [vs[0]] + rest else rest
  }

  function VariantGroup(m: Module, vr: VariantResults, dm: DependencyManager): (r: RemoteGroup)
    requires m.WithVariants? && vr.compatibleVariants != []
  {
    FromVariants(m, vr.results, AttributeValues(vr.compatibleVariants[0].attributes),
                 VariantsNamed(m.variants, Names(vr.compatibleVariants)), dm)
  }

  function VariantResultGroups(m: Module, vrs: seq<VariantResults>, dm: DependencyManager): (r: seq<RemoteGroup>)
    requires m.WithVariants? && forall vr :: vr in vrs ==> vr.compatibleVariants != []
    ensures |r| == |vrs| && forall i :: 0 <= i < |r| ==> r[i] == VariantGroup(m, vrs[i], dm)
  {
    if vrs == [] then [] else [VariantGroup(m, vrs[0], dm)] + VariantResultGroups(m, vrs[1..], dm)
  }

  /**
   * The remote groups `setSearchResults` assigns, or `None` when it leaves them as
   * they were: the variant results arrive while no single module with variants is
   * selected (the early `return`), or a result set has no compatible variant (`first()`
   * throws before the assignment).
   */
  function SearchGroups(data: SearchResults, selected: seq<ModuleData>): (r: Option<seq<RemoteGroup>>)
    ensures data.Empty? ==> r == Some([])
    ensures data.MultipleModulesResults? ==> r == Some([FromMultipleModules(selected, data.results)])
    ensures r.None? <==>
      && data.SingleModuleWithVariantsResults?
      && (!(|selected| == 1 && selected[0].mod.WithVariants?) || exists vr :: vr in data.variantResults && vr.compatibleVariants == [])
  {
    match data
    case Empty => Some([])
    case SingleBaseModuleResults(results) =>
      if |selected| == 1 && selected[0].mod.Base? then
        var m := selected[0].mod;
        Some([RemoteFromBaseModule(m, NotDeclared(results, PackageIds(m.declaredDependencies)), selected[0].dependencyManager)])
      else Some([])
    case MultipleModulesResults(results) => Some([FromMultipleModules(selected, results)])
    case SingleModuleWithVariantsResults(vrs) =>
      if |selected| == 1 && selected[0].mod.WithVariants? then
        if forall vr :: vr in vrs ==> vr.compatibleVariants != [] then
          Some(VariantResultGroups(selected[0].mod, vrs, selected[0].dependencyManager))
        else None
      else None
  }

  /**
   * Results for a single plain module give one group of exactly the results the module
   * does not already declare; for any other selection they give no group.
   */
  lemma BaseResultsDropDeclared(data: SearchResults, selected: seq<ModuleData>)
    requires data.SingleBaseModuleResults?
    ensures var r := SearchGroups(data, selected);
      && r.Some?
      && (!(|selected| == 1 && selected[0].mod.Base?) ==> r.value == [])
      && (|selected| == 1 && selected[0].mod.Base? ==>
            && |r.value| == 1
            && r.value[0].RemoteFromBaseModule?
            && r.value[0].mod == selected[0].mod
            && r.value[0].dependencyManager == selected[0].dependencyManager
            && forall a :: a in r.value[0].packages <==>
                 a in data.results && forall p :: p in selected[0].mod.declaredDependencies ==> p.id != a.id)
  {
    if |selected| == 1 && selected[0].mod.Base? {
      var ds := selected[0].mod.declaredDependencies;
      var ids := PackageIds(ds);
      forall a: ApiPackage ensures a.id in ids <==> exists p :: p in ds && p.id == a.id {
      }
    }
  }

  /** A variant group's badges are the first compatible variant's attribute values and its variants are the module's own. */
  lemma VariantGroupsShape(data: SearchResults, selected: seq<ModuleData>)
    requires data.SingleModuleWithVariantsResults?
    ensures var r := SearchGroups(data, selected);
      r.Some? ==> |r.value| == |data.variantResults| && forall i :: 0 <= i < |r.value| ==>
        var g := r.value[i];
        var vr := data.variantResults[i];
        && g.FromVariants?
        && g.packages == vr.results
        && g.badges == AttributeValues(vr.compatibleVariants[0].attributes)
        && forall v :: v in g.compatibleVariants <==>
             v in selected[0].mod.variants && exists c :: c in vr.compatibleVariants && c.name == v.name
  {
    var r := SearchGroups(data, selected);
    if r.Some? {
      forall i | 0 <= i < |r.value|
        ensures forall v :: v in r.value[i].compatibleVariants <==>
          v in selected[0].mod.variants && exists c :: c in data.variantResults[i].compatibleVariants && c.name == v.name
      {
        var vr := data.variantResults[i];
        var names := Names(vr.compatibleVariants);
        forall v: Variant ensures v.name in names <==> exists c :: c in vr.compatibleVariants && c.name == v.name {
          if v.name in names {
            var k :| 0 <= k < |names| && names[k] == v.name;
            assert vr.compatibleVariants[k] in vr.compatibleVariants;
          }
        }
      }
    }
  }

  // ---- Ordering of the remote groups ----

  function JoinNames(vs: seq<Variant>): string {
    if vs == [] then ""
    else if |vs| == 1 then vs[0].name
    else vs[0].name + ", " + JoinNames(vs[1..])
  }

  function BadgeCount(g: RemoteGroup): nat {
    if g.FromVariants? then |g.badges| else 0
  }

  function VariantKey(g: RemoteGroup): string {
    if g.FromVariants? then JoinNames(g.compatibleVariants) else ""
  }

  /** `variantGroupComparator`: by number of badges, then by the joined compatible variants. */
  predicate RemoteLe(a: RemoteGroup, b: RemoteGroup) {
    BadgeCount(a) < BadgeCount(b) || (BadgeCount(a) == BadgeCount(b) && StrLe(VariantKey(a), VariantKey(b)))
  }

  lemma RemoteLeTotalPreorder()
    ensures Sorting.TotalPreorder(RemoteLe)
  {
    forall a: RemoteGroup, b: RemoteGroup ensures RemoteLe(a, b) || RemoteLe(b, a) {
      StrLeTotal(VariantKey(a), VariantKey(b));
    }
    forall a: RemoteGroup, b: RemoteGroup, c: RemoteGroup | RemoteLe(a, b) && RemoteLe(b, c) ensures RemoteLe(a, c) {
      if BadgeCount(a) == BadgeCount(b) == BadgeCount(c) {
        StrLeTransitive(VariantKey(a), VariantKey(b), VariantKey(c));
      }
    }
  }

  // ---- findCommonStrings ----

  /**
   * `findCommonStrings`: the strings that occur in every list, in the order of their
   * first occurrence in the first list; nothing when there is no list or one is empty.
   */
  method FindCommonStrings(lists: seq<seq<string>>) returns (r: seq<string>)
    ensures lists == [] || (exists l :: l in lists && l == []) ==> r == []
    ensures forall x :: x in r <==> lists != [] && (forall l :: l in lists ==> l != []) && forall l :: l in lists ==> x in l
    ensures NoDuplicates(r)
    ensures lists != [] ==> InFirstOccurrenceOrder(r, lists[0])
  {
    if lists == [] || exists l :: l in lists && l == [] {
      return [];
    }
    r := Distinct(lists[0]);
    DistinctInOrder(lists[0]);
    for i := 1 to |lists|
      invariant NoDuplicates(r)
      invariant forall x :: x in r <==> forall j :: 0 <= j < i ==> x in lists[j]
      invariant InFirstOccurrenceOrder(r, lists[0])
    {
      RetainInOrder(r, lists[i], lists[0]);
      r := Retain(r, lists[i]);
    }
    forall x | x in r ensures forall l :: l in lists ==> x in l {
      forall l | l in lists ensures x in l {
        var j :| 0 <= j < |lists| && lists[j] == l;
      }
    }
  }

  // ---- The builder ----

  /** `PackageGroupsBuilder`: the declared and remote groups for one search query. */
  class PackageGroupsBuilder {
    const searchQuery: string
    var remotes: seq<RemoteGroup>
    var declared: seq<DeclaredGroup>

    constructor (searchQuery: string)
      ensures this.searchQuery == searchQuery && remotes == [] && declared == []
    {
      this.searchQuery := searchQuery;
      remotes := [];
      declared := [];
    }

    method SetSearchResults(data: SearchResults, selected: seq<ModuleData>)
      modifies this`remotes
      ensures SearchGroups(data, selected).Some? ==> remotes == SearchGroups(data, selected).value
      ensures SearchGroups(data, selected).None? ==> remotes == old(remotes)
    {
      var groups := SearchGroups(data, selected);
      if groups.Some? {
        remotes := groups.value;
      }
    }

    method SetLocal(selected: seq<ModuleData>)
      modifies this`declared
      ensures declared == LocalGroups(selected, searchQuery)
    {
      declared := LocalGroups(selected, searchQuery);
    }

    /** `build`: the declared groups, then the remote groups. */
    method Build() returns (r: seq<PackageGroup>)
      ensures |r| == |declared| + |remotes|
      ensures forall i :: 0 <= i < |declared| ==> r[i] == Declared(declared[i])
      ensures forall i :: 0 <= i < |remotes| ==> r[|declared| + i] == Remote(remotes[i])
    {
      r := [];
      for i := 0 to |declared|
        invariant |r| == i && forall k :: 0 <= k < i ==> r[k] == Declared(declared[k])
      {
        r := r + [Declared(declared[i])];
      }
      for i := 0 to |remotes|
        invariant |r| == |declared| + i
        invariant forall k :: 0 <= k < |declared| ==> r[k] == Declared(declared[k])
        invariant forall k :: 0 <= k < i ==> r[|declared| + k] == Remote(remotes[k])
      {
        r := r + [Remote(remotes[i])];
      }
    }

    method GetDeclared() returns (r: seq<DeclaredGroup>)
      ensures r == declared
    {
      r := declared;
    }

    /** `getRemotes`: the remote groups, most badges first, then by joined variants in descending order. */
    method GetRemotes() returns (r: seq<RemoteGroup>)
      ensures multiset(r) == multiset(remotes)
      ensures forall i, j :: 0 <= i < j < |r| ==> RemoteLe(r[j], r[i])
    {
      var sorted := Sorting.SortBy(remotes, RemoteLe);
      RemoteLeTotalPreorder();
      Sorting.SortByCorrect(remotes, RemoteLe);
      Sorting.ReversePermutes(sorted);
      Sorting.ReverseSortedDescending(sorted, RemoteLe);
      r := Sorting.Reverse(sorted);
    }
  }

  /** `Declared + Remotes` and `Remotes + Declared` both put the declared groups first. */
  function DeclaredPlusRemotes(d: seq<DeclaredGroup>, rs: seq<RemoteGroup>): seq<PackageGroup> {
    Wrap(d, rs)
  }

  function RemotesPlusDeclared(rs: seq<RemoteGroup>, d: seq<DeclaredGroup>): seq<PackageGroup> {
    Wrap(d, rs)
  }

  function Wrap(d: seq<DeclaredGroup>, rs: seq<RemoteGroup>): (r: seq<PackageGroup>)
    ensures |r| == |d| + |rs|
    ensures forall i :: 0 <= i < |d| ==> r[i] == Declared(d[i])
    ensures forall i :: 0 <= i < |rs| ==> r[|d| + i] == Remote(rs[i])
  {
    seq(|d|, i requires 0 <= i < |d| => Declared(d[i])) + seq(|rs|, i requires 0 <= i < |rs| => Remote(rs[i]))
  }
}

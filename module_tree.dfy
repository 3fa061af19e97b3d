/**
 * `asTree`: the modules tree of the tool window. Modules are grouped by build system,
 * each group is sorted by path, and the Gradle-style paths (":app:core") are nested
 * under the root module ":" one segment at a time.
 */
module ModuleTree {
  import opened Wrappers
  import opened Text
  import opened CoreData
  import opened Collections
  import Sorting

  /** `TreeItemModel`, without its icon. */
  datatype TreeItemModel = TreeItemModel(id: Identity, text: string, hasUpdates: bool)

  /** An element of the tree, identified by its module's identity. */
  datatype TreeElement =
    | Leaf(data: TreeItemModel)
    | Node(data: TreeItemModel, children: seq<TreeElement>)

  const RootPath := ":"

  function AnyDependencyHasUpdates(ps: seq<DeclaredPackage>, onlyStable: bool): (r: bool)
    ensures r <==> AnyHasUpdates(ps, onlyStable)
  {
    if ps == [] then false
    else
      assert forall p :: p in ps <==> p == ps[0] || p in ps[1..];
      ps[0].HasUpdates(onlyStable) || AnyDependencyHasUpdates(ps[1..], onlyStable)
  }

  function AnyVariantHasUpdates(vs: seq<Variant>, onlyStable: bool): (r: bool)
    ensures r <==> exists v :: v in vs && AnyHasUpdates(v.declaredDependencies, onlyStable)
  {
    if vs == [] then false
    else
      assert forall v :: v in vs <==> v == vs[0] || v in vs[1..];
      AnyDependencyHasUpdates(vs[0].declaredDependencies, onlyStable) || AnyVariantHasUpdates(vs[1..], onlyStable)
  }

  /** `asViewModel`: a module's row, flagged when any of its dependencies, in any variant, has updates. */
  function AsViewModel(m: Module, onlyStable: bool): (r: TreeItemModel)
    ensures r.id == m.identity && r.text == m.name
    ensures r.hasUpdates == ModuleHasUpdates(m, onlyStable)
  {
    TreeItemModel(m.identity, m.name,
      match m
      case Base(_, _, _, _, _, _, ds) => AnyDependencyHasUpdates(ds, onlyStable)
      case WithVariants(_, _, _, _, _, _, vs) => AnyVariantHasUpdates(vs, onlyStable))
  }

  /** What is stripped from a path to get its name relative to `current`. */
  function ChildPrefix(current: Module, isRoot: bool): string {
    current.identity.path + (if isRoot then "" else ":")
  }

  /** A direct child: what remains after the prefix is non-empty and has no ':'. */
  predicate IsChildPath(path: string, prefix: string) {
    var rest := RemovePrefix(path, prefix);
    |rest| > 0 && !ContainsChar(rest, ':')
  }

  function ChildrenIn(items: seq<Module>, prefix: string): (r: seq<Module>)
    ensures forall m :: m in r <==> m in items && IsChildPath(m.identity.path, prefix)
  {
    if items == [] then []
    else
      var rest := ChildrenIn(items[1..], prefix);
      assert forall m :: m in items <==> m == items[0] || m in items[1..];
      if IsChildPath(items[0].identity.path, prefix) then [items[0]] + rest else rest
  }

  /** The distinct direct children of `current` among `items`, in the order of the items. */
  function ChildModules(items: seq<Module>, current: Module, isRoot: bool): (r: seq<Module>)
    ensures NoDuplicates(r)
    ensures forall m :: m in r <==> m in items && IsChildPath(m.identity.path, ChildPrefix(current, isRoot))
  {
    Distinct(ChildrenIn(items, ChildPrefix(current, isRoot)))
  }

  /**
   * `addElements`: `current` becomes a node over its direct children among `items`
   * (each expanded against the items that are not children), or a leaf when it has none.
   */
  function AddElements(items: seq<Module>, current: Module, onlyStable: bool, isRoot: bool): (r: TreeElement)
    ensures r.data == AsViewModel(current, onlyStable)
    ensures r.Node? <==> exists m :: m in items && IsChildPath(m.identity.path, ChildPrefix(current, isRoot))
    ensures r.Node? ==> var cs := ChildModules(items, current, isRoot);
              |r.children| == |cs| && forall i :: 0 <= i < |cs| ==> r.children[i].data == AsViewModel(cs[i], onlyStable)
    ensures r.Node? ==> forall i :: 0 <= i < |r.children| ==>
              IsChildPath(r.children[i].data.id.path, ChildPrefix(current, isRoot))
              && exists m :: m in items && m.identity == r.children[i].data.id
    decreases |items|
  {
    var children := ChildModules(items, current, isRoot);
    if children == [] then
      Leaf(AsViewModel(current, onlyStable))
    else
      var remaining := Minus(items, children);
      MinusShrinks(items, children, children[0]);
      var subtrees := seq(|children|, i requires 0 <= i < |children| => AddElements(remaining, children[i], onlyStable, false));
      assert forall i :: 0 <= i < |subtrees| ==> subtrees[i].data.id == children[i].identity && children[i] in children;
      Node(AsViewModel(current, onlyStable), subtrees)
  }

  /**
   * Every distinct direct child among the items heads exactly one subtree of the node:
   * the subtrees are in one-to-one correspondence with the distinct children.
   */
  lemma AddElementsCoversChildren(items: seq<Module>, current: Module, onlyStable: bool, isRoot: bool, m: Module)
    requires m in items && IsChildPath(m.identity.path, ChildPrefix(current, isRoot))
    ensures var r := AddElements(items, current, onlyStable, isRoot);
      var cs := ChildModules(items, current, isRoot);
      && r.Node?
      && exists i :: 0 <= i < |r.children| && cs[i] == m && r.children[i].data == AsViewModel(m, onlyStable)
                     && forall j :: 0 <= j < |r.children| && j != i ==> cs[j] != m
  {
    var r := AddElements(items, current, onlyStable, isRoot);
    var cs := ChildModules(items, current, isRoot);
    assert r.Node?;
    var i :| 0 <= i < |cs| && cs[i] == m;
    assert r.children[i].data == AsViewModel(m, onlyStable);
    forall j | 0 <= j < |r.children| && j != i ensures cs[j] != m {
      assert NoDuplicates(cs);
    }
  }

  predicate PathLe(a: Module, b: Module) {
    StrLe(a.identity.path, b.identity.path)
  }

  function Leaves(ms: seq<Module>, onlyStable: bool): (r: seq<TreeElement>)
    ensures |r| == |ms|
    ensures forall i :: 0 <= i < |ms| ==> r[i] == Leaf(AsViewModel(ms[i], onlyStable))
  {
    if ms == [] then [] else [Leaf(AsViewModel(ms[0], onlyStable))] + Leaves(ms[1..], onlyStable)
  }

  function Roots(sorted: seq<Module>): (r: seq<Module>)
    ensures forall m :: m in r <==> m in sorted && m.identity.path == RootPath
  {
    if sorted == [] then []
    else
      var rest := Roots(sorted[1..]);
      assert forall m :: m in sorted <==> m == sorted[0] || m in sorted[1..];
      if sorted[0].identity.path == RootPath then [sorted[0]] + rest else rest
  }

  /** The elements built for one group of modules (one build system). */
  function GroupTree(modules: seq<Module>, onlyStable: bool): seq<TreeElement> {
    var sorted := Sorting.SortBy(modules, PathLe);
    var roots := Distinct(Roots(sorted));
    if roots != [] then RootTrees(Minus(sorted, roots), roots, onlyStable)
    else Leaves(sorted, onlyStable)
  }

  /** One tree per root module, each expanded over the non-root modules. */
  function RootTrees(rest: seq<Module>, roots: seq<Module>, onlyStable: bool): (r: seq<TreeElement>)
    ensures |r| == |roots|
    ensures forall i :: 0 <= i < |r| ==> r[i].data == AsViewModel(roots[i], onlyStable)
  {
    seq(|roots|, i requires 0 <= i < |roots| => AddElements(rest, roots[i], onlyStable, true))
  }

  /** The root modules of a group, after sorting and de-duplication, are exactly its modules at the root path. */
  lemma RootsOfGroup(modules: seq<Module>)
    ensures forall m :: m in Distinct(Roots(Sorting.SortBy(modules, PathLe))) <==> m in modules && m.identity.path == RootPath
  {
    SortedSameModules(modules);
  }

  function ModulesOfGroup(modules: seq<Module>, group: string): (r: seq<Module>)
    ensures forall m :: m in r <==> m in modules && m.identity.group == group
  {
    if modules == [] then []
    else
      var rest := ModulesOfGroup(modules[1..], group);
      assert forall m :: m in modules <==> m == modules[0] || m in modules[1..];
      if modules[0].identity.group == group then [modules[0]] + rest else rest
  }

  function GroupNames(modules: seq<Module>): (r: seq<string>)
    ensures |r| == |modules|
    ensures forall i :: 0 <= i < |modules| ==> r[i] == modules[i].identity.group
  {
    if modules == [] then [] else [modules[0].identity.group] + GroupNames(modules[1..])
  }

  function TreesOfGroups(modules: seq<Module>, groups: seq<string>, onlyStable: bool): seq<TreeElement> {
    if groups == [] then []
    else GroupTree(ModulesOfGroup(modules, groups[0]), onlyStable) + TreesOfGroups(modules, groups[1..], onlyStable)
  }

  /** `asTree`: the group trees, one group per build system in order of first appearance. */
  function AsTree(modules: seq<Module>, onlyStable: bool): seq<TreeElement> {
    TreesOfGroups(modules, Distinct(GroupNames(modules)), onlyStable)
  }

  /** A group without a root module lists every module as a leaf, sorted by path. */
  lemma GroupWithoutRootIsFlat(modules: seq<Module>, onlyStable: bool)
    requires forall m :: m in modules ==> m.identity.path != RootPath
    ensures var r := GroupTree(modules, onlyStable);
      && |r| == |modules|
      && (forall e :: e in r ==> e.Leaf? && exists m :: m in modules && e.data == AsViewModel(m, onlyStable))
      && (forall m :: m in modules ==> Leaf(AsViewModel(m, onlyStable)) in r)
      && (forall i, j :: 0 <= i < j < |r| ==> StrLe(r[i].data.id.path, r[j].data.id.path))
  {
    var sorted := Sorting.SortBy(modules, PathLe);
    GroupWithoutRootIsLeaves(modules, onlyStable);
    var r := GroupTree(modules, onlyStable);
    SortedSameModules(modules);
    forall e | e in r ensures e.Leaf? && exists m :: m in modules && e.data == AsViewModel(m, onlyStable) {
      var i :| 0 <= i < |r| && r[i] == e;
      assert sorted[i] in sorted;
    }
    forall m | m in modules ensures Leaf(AsViewModel(m, onlyStable)) in r {
      var i :| 0 <= i < |sorted| && sorted[i] == m;
      assert r[i] == Leaf(AsViewModel(m, onlyStable));
    }
    PathLeTotalPreorder();
    Sorting.SortByCorrect(modules, PathLe);
    forall i, j | 0 <= i < j < |r| ensures StrLe(r[i].data.id.path, r[j].data.id.path) {
      assert PathLe(sorted[i], sorted[j]);
    }
  }

  lemma GroupWithoutRootIsLeaves(modules: seq<Module>, onlyStable: bool)
    requires forall m :: m in modules ==> m.identity.path != RootPath
    ensures GroupTree(modules, onlyStable) == Leaves(Sorting.SortBy(modules, PathLe), onlyStable)
  {
    SortedSameModules(modules);
  }

  lemma SortedSameModules(modules: seq<Module>)
    ensures forall m :: m in Sorting.SortBy(modules, PathLe) <==> m in modules
  {
    var sorted := Sorting.SortBy(modules, PathLe);
    Sorting.SortByPermutes(modules, PathLe);
    forall m ensures m in sorted <==> m in modules {
      assert m in sorted <==> m in multiset(sorted);
      assert m in modules <==> m in multiset(modules);
    }
  }

  lemma PathLeTotalPreorder()
    ensures Sorting.TotalPreorder(PathLe)
  {
    forall a: Module, b: Module ensures PathLe(a, b) || PathLe(b, a) {
      StrLeTotal(a.identity.path, b.identity.path);
    }
    forall a: Module, b: Module, c: Module | PathLe(a, b) && PathLe(b, c) ensures PathLe(a, c) {
      StrLeTransitive(a.identity.path, b.identity.path, c.identity.path);
    }
  }

  /** Trees grown from exactly the root modules are headed by exactly those modules. */
  lemma RootTreesCoverRoots(modules: seq<Module>, rest: seq<Module>, roots: seq<Module>, onlyStable: bool)
    requires forall m :: m in roots <==> m in modules && m.identity.path == RootPath
    ensures var r := RootTrees(rest, roots, onlyStable);
      && (forall e :: e in r ==> e.data.id.path == RootPath && exists m :: m in modules && e.data == AsViewModel(m, onlyStable))
      && (forall m :: m in modules && m.identity.path == RootPath ==> exists e :: e in r && e.data == AsViewModel(m, onlyStable))
  {
    var r := RootTrees(rest, roots, onlyStable);
    forall e | e in r ensures e.data.id.path == RootPath && exists m :: m in modules && e.data == AsViewModel(m, onlyStable) {
      var i :| 0 <= i < |r| && r[i] == e;
      assert roots[i] in roots;
    }
    forall m | m in modules && m.identity.path == RootPath ensures exists e :: e in r && e.data == AsViewModel(m, onlyStable) {
      var i :| 0 <= i < |roots| && roots[i] == m;
      assert r[i] in r;
    }
  }

  lemma GroupTreeFromRoots(modules: seq<Module>, onlyStable: bool)
    requires Distinct(Roots(Sorting.SortBy(modules, PathLe))) != []
    ensures var sorted := Sorting.SortBy(modules, PathLe);
      var roots := Distinct(Roots(sorted));
      GroupTree(modules, onlyStable) == RootTrees(Minus(sorted, roots), roots, onlyStable)
  {
  }

  /** When a group has root modules, exactly they head the group's trees, and each is expanded. */
  lemma GroupWithRootsStartsAtRoots(modules: seq<Module>, onlyStable: bool)
    requires exists m :: m in modules && m.identity.path == RootPath
    ensures var r := GroupTree(modules, onlyStable);
      && r != []
      && (forall e :: e in r ==> e.data.id.path == RootPath && exists m :: m in modules && e.data == AsViewModel(m, onlyStable))
      && (forall m :: m in modules && m.identity.path == RootPath ==> exists e :: e in r && e.data == AsViewModel(m, onlyStable))
  {
    var sorted := Sorting.SortBy(modules, PathLe);
    var roots := Distinct(Roots(sorted));
    RootsOfGroup(modules);
    var root :| root in modules && root.identity.path == RootPath;
    assert root in roots;
    GroupTreeFromRoots(modules, onlyStable);
    RootTreesCoverRoots(modules, Minus(sorted, roots), roots, onlyStable);
  }

  /** Every top-level element of a group's trees belongs to that group. */
  lemma TreesOfGroupStayInGroup(modules: seq<Module>, group: string, onlyStable: bool)
    ensures forall e :: e in GroupTree(ModulesOfGroup(modules, group), onlyStable) ==> e.data.id.group == group
  {
    var ms := ModulesOfGroup(modules, group);
    var sorted := Sorting.SortBy(ms, PathLe);
    SortedSameModules(ms);
    var roots := Distinct(Roots(sorted));
    var r := GroupTree(ms, onlyStable);
    forall e | e in r ensures e.data.id.group == group {
      var i :| 0 <= i < |r| && r[i] == e;
      if roots != [] {
        assert roots[i] in roots;
      } else {
        assert sorted[i] in sorted;
      }
    }
  }

  /** A module is at the top level of its group's trees: a root module, or any module of a group without one. */
  predicate TopLevelIn(m: Module, group: seq<Module>) {
    m.identity.path == RootPath || !HasRoot(group)
  }

  /** Whether a group has a module at the root path. */
  function HasRoot(group: seq<Module>): (r: bool)
    ensures r <==> exists m :: m in group && m.identity.path == RootPath
  {
    if group == [] then false
    else
      assert forall m :: m in group <==> m == group[0] || m in group[1..];
      group[0].identity.path == RootPath || HasRoot(group[1..])
  }

  /** Trees grown one per root module, in a group with a root, are headed by exactly its top-level modules. */
  lemma RootTreesTopLevel(ms: seq<Module>, roots: seq<Module>, r: seq<TreeElement>, onlyStable: bool)
    requires HasRoot(ms)
    requires forall m :: m in roots <==> m in ms && m.identity.path == RootPath
    requires |r| == |roots| && forall i :: 0 <= i < |r| ==> r[i].data == AsViewModel(roots[i], onlyStable)
    ensures forall e :: e in r ==> exists m :: m in ms && e.data == AsViewModel(m, onlyStable) && TopLevelIn(m, ms)
    ensures forall m :: m in ms && TopLevelIn(m, ms) ==> exists e :: e in r && e.data == AsViewModel(m, onlyStable)
  {
    forall e | e in r ensures exists m :: m in ms && e.data == AsViewModel(m, onlyStable) && TopLevelIn(m, ms) {
      var i :| 0 <= i < |r| && r[i] == e;
      assert roots[i] in roots;
    }
    forall m | m in ms && TopLevelIn(m, ms) ensures exists e :: e in r && e.data == AsViewModel(m, onlyStable) {
      assert m in roots;
      var i :| 0 <= i < |roots| && roots[i] == m;
      assert r[i] in r;
    }
  }

  /** In a group with a root module, exactly the root modules head its trees. */
  lemma GroupTopLevelWithRoots(ms: seq<Module>, onlyStable: bool)
    requires exists m :: m in ms && m.identity.path == RootPath
    ensures var r := GroupTree(ms, onlyStable);
      && (forall e :: e in r ==> exists m :: m in ms && e.data == AsViewModel(m, onlyStable) && TopLevelIn(m, ms))
      && (forall m :: m in ms && TopLevelIn(m, ms) ==> exists e :: e in r && e.data == AsViewModel(m, onlyStable))
  {
    var sorted := Sorting.SortBy(ms, PathLe);
    var roots := Distinct(Roots(sorted));
    RootsOfGroup(ms);
    var root :| root in ms && root.identity.path == RootPath;
    assert root in roots;
    GroupTreeFromRoots(ms, onlyStable);
    RootTreesTopLevel(ms, roots, RootTrees(Minus(sorted, roots), roots, onlyStable), onlyStable);
  }

  /** In a group without a root module, every module is at the top level. */
  lemma GroupTopLevelWithoutRoots(ms: seq<Module>, onlyStable: bool)
    requires forall m :: m in ms ==> m.identity.path != RootPath
    ensures var r := GroupTree(ms, onlyStable);
      && (forall e :: e in r ==> exists m :: m in ms && e.data == AsViewModel(m, onlyStable) && TopLevelIn(m, ms))
      && (forall m :: m in ms && TopLevelIn(m, ms) ==> exists e :: e in r && e.data == AsViewModel(m, onlyStable))
  {
    var r := GroupTree(ms, onlyStable);
    GroupWithoutRootIsFlat(ms, onlyStable);
    forall m | m in ms ensures exists e :: e in r && e.data == AsViewModel(m, onlyStable) {
      assert Leaf(AsViewModel(m, onlyStable)) in r;
    }
  }

  /** The top-level elements of one group's trees are exactly its top-level modules. */
  lemma GroupTopLevel(ms: seq<Module>, onlyStable: bool)
    ensures var r := GroupTree(ms, onlyStable);
      && (forall e :: e in r ==> exists m :: m in ms && e.data == AsViewModel(m, onlyStable) && TopLevelIn(m, ms))
      && (forall m :: m in ms && TopLevelIn(m, ms) ==> exists e :: e in r && e.data == AsViewModel(m, onlyStable))
  {
    if exists m :: m in ms && m.identity.path == RootPath {
      GroupTopLevelWithRoots(ms, onlyStable);
    } else {
      GroupTopLevelWithoutRoots(ms, onlyStable);
    }
  }

  /** The trees of several groups are the trees of each group, together. */
  lemma {:induction false} TreesOfGroupsMembers(modules: seq<Module>, groups: seq<string>, onlyStable: bool)
    ensures forall e :: e in TreesOfGroups(modules, groups, onlyStable) <==>
              exists g :: g in groups && e in GroupTree(ModulesOfGroup(modules, g), onlyStable)
  {
    if groups != [] {
      var head := GroupTree(ModulesOfGroup(modules, groups[0]), onlyStable);
      var tail := TreesOfGroups(modules, groups[1..], onlyStable);
      TreesOfGroupsMembers(modules, groups[1..], onlyStable);
      assert TreesOfGroups(modules, groups, onlyStable) == head + tail;
      forall e ensures e in head + tail <==> exists g :: g in groups && e in GroupTree(ModulesOfGroup(modules, g), onlyStable) {
        if e in head {
          assert groups[0] in groups;
        } else if e in tail {
          var g :| g in groups[1..] && e in GroupTree(ModulesOfGroup(modules, g), onlyStable);
          assert g in groups;
        } else {
          forall g | g in groups ensures e !in GroupTree(ModulesOfGroup(modules, g), onlyStable) {
            if g != groups[0] {
              assert g in groups[1..];
            }
          }
        }
      }
    }
  }

  /** An element among the trees of some build system is headed by a top-level module of it. */
  lemma TopLevelElementFromGroup(modules: seq<Module>, g: string, e: TreeElement, onlyStable: bool)
    requires e in GroupTree(ModulesOfGroup(modules, g), onlyStable)
    ensures exists m :: m in modules && e.data == AsViewModel(m, onlyStable)
                        && TopLevelIn(m, ModulesOfGroup(modules, m.identity.group))
  {
    GroupTopLevel(ModulesOfGroup(modules, g), onlyStable);
    var m :| m in ModulesOfGroup(modules, g) && e.data == AsViewModel(m, onlyStable) && TopLevelIn(m, ModulesOfGroup(modules, g));
    assert m.identity.group == g;
  }

  /** A top-level module of a group heads an element of the group's trees. */
  lemma TopLevelModuleInGroup(ms: seq<Module>, m: Module, onlyStable: bool)
    requires m in ms && TopLevelIn(m, ms)
    ensures exists e :: e in GroupTree(ms, onlyStable) && e.data == AsViewModel(m, onlyStable)
  {
    GroupTopLevel(ms, onlyStable);
  }

  /** Every module's build system is among the build systems the tree is grown for. */
  lemma GroupListed(modules: seq<Module>, m: Module)
    requires m in modules
    ensures m.identity.group in Distinct(GroupNames(modules))
  {
    var i :| 0 <= i < |modules| && modules[i] == m;
    assert GroupNames(modules)[i] == m.identity.group;
  }

  /** An element of one group's trees is an element of the trees of every list naming that group. */
  lemma InTreesOfGroups(modules: seq<Module>, groups: seq<string>, g: string, e: TreeElement, onlyStable: bool)
    requires g in groups && e in GroupTree(ModulesOfGroup(modules, g), onlyStable)
    ensures e in TreesOfGroups(modules, groups, onlyStable)
  {
    TreesOfGroupsMembers(modules, groups, onlyStable);
  }

  /** A top-level module of its build system heads an element of the whole tree. */
  lemma TopLevelModuleInTree(modules: seq<Module>, m: Module, onlyStable: bool)
    requires m in modules && TopLevelIn(m, ModulesOfGroup(modules, m.identity.group))
    ensures exists e :: e in AsTree(modules, onlyStable) && e.data == AsViewModel(m, onlyStable)
  {
    var g := m.identity.group;
    var ms := ModulesOfGroup(modules, g);
    assert m in ms;
    TopLevelModuleInGroup(ms, m, onlyStable);
    var e :| e in GroupTree(ms, onlyStable) && e.data == AsViewModel(m, onlyStable);
    GroupListed(modules, m);
    InTreesOfGroups(modules, Distinct(GroupNames(modules)), g, e, onlyStable);
  }

  /**
   * `asTree`: the top-level elements are exactly the top-level modules of every build
   * system: its root modules, or all of its modules when it has no root.
   */
  lemma AsTreeTopLevel(modules: seq<Module>, onlyStable: bool)
    ensures var r := AsTree(modules, onlyStable);
      && (forall e :: e in r ==> exists m :: m in modules && e.data == AsViewModel(m, onlyStable)
                                           && TopLevelIn(m, ModulesOfGroup(modules, m.identity.group)))
      && (forall m :: m in modules && TopLevelIn(m, ModulesOfGroup(modules, m.identity.group)) ==>
                     exists e :: e in r && e.data == AsViewModel(m, onlyStable))
  {
    var groups := Distinct(GroupNames(modules));
    var r := AsTree(modules, onlyStable);
    TreesOfGroupsMembers(modules, groups, onlyStable);
    forall e | e in r ensures exists m :: m in modules && e.data == AsViewModel(m, onlyStable)
                                         && TopLevelIn(m, ModulesOfGroup(modules, m.identity.group)) {
      var g :| g in groups && e in GroupTree(ModulesOfGroup(modules, g), onlyStable);
      TopLevelElementFromGroup(modules, g, e, onlyStable);
    }
    forall m | m in modules && TopLevelIn(m, ModulesOfGroup(modules, m.identity.group))
      ensures exists e :: e in r && e.data == AsViewModel(m, onlyStable)
    {
      TopLevelModuleInTree(modules, m, onlyStable);
    }
  }
}


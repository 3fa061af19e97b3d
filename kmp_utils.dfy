/**
 * Kotlin Multiplatform helpers: the attribute names a compilation set yields, the
 * names nested inside a grouped attribute (recursively and with a breadth-first
 * queue), the "set contains a grouped attribute" test, dropping null map values, and
 * the default scope of the dependencies block.
 */
module KmpUtils {
  import opened Wrappers
  import opened CoreData
  import opened Collections

  // ---- Attribute names ----

  /** `flatAttributesNames`: a plain attribute's own value, or every name nested under a group. */
  function FlatAttributesNames(a: Attribute): set<string>
    decreases a
  {
    match a
    case StringAttribute(value) => {value}
    case NestedAttribute(_, children) => FlatNamesOf(children)
  }

  function FlatNamesOf(children: seq<Attribute>): set<string>
    decreases children
  {
    if children == [] then {}
    else FlatAttributesNames(children[0]) + FlatNamesOf(children[1..])
  }

  /** The names under a list of attributes are those under any one of them. */
  lemma {:induction false} FlatNamesOfIsUnion(children: seq<Attribute>, x: string)
    ensures x in FlatNamesOf(children) <==> exists c :: c in children && x in FlatAttributesNames(c)
    decreases |children|
  {
    if children != [] {
      FlatNamesOfIsUnion(children[1..], x);
      if x in FlatAttributesNames(children[0]) {
        assert children[0] in children;
      }
      if exists c :: c in children && x in FlatAttributesNames(c) {
        var c :| c in children && x in FlatAttributesNames(c);
        if c != children[0] {
          assert c in children[1..];
        }
      }
    }
  }

  /** The size of an attribute tree, which bounds the work of a breadth-first walk. */
  function Size(a: Attribute): nat
    decreases a
  {
    match a
    case StringAttribute(_) => 1
    case NestedAttribute(_, children) => 1 + SizeOf(children)
  }

  function SizeOf(children: seq<Attribute>): nat
    decreases children
  {
    if children == [] then 0 else Size(children[0]) + SizeOf(children[1..])
  }

  function QueueSize(queue: seq<Attribute>): nat {
    if queue == [] then 0 else Size(queue[0]) + QueueSize(queue[1..])
  }

  lemma {:induction false} QueueSizeAppend(a: seq<Attribute>, b: seq<Attribute>)
    ensures QueueSize(a + b) == QueueSize(a) + QueueSize(b)
  {
    if a == [] {
      assert a + b == b;
    } else {
      QueueSizeAppend(a[1..], b);
      assert (a + b)[1..] == a[1..] + b;
    }
  }

  /** The values of the plain attributes among `children`. */
  function StringValues(children: seq<Attribute>): (r: set<string>)
    ensures forall x :: x in r <==> StringAttribute(x) in children
  {
    if children == [] then {}
    else
      assert forall c :: c in children <==> c == children[0] || c in children[1..];
      (if children[0].StringAttribute? then {children[0].value} else {}) + StringValues(children[1..])
  }

  /** The grouped attributes among `children`, in order. */
  function NestedChildren(children: seq<Attribute>): (r: seq<Attribute>)
    ensures forall c :: c in r <==> c in children && c.NestedAttribute?
  {
    if children == [] then []
    else
      assert forall c :: c in children <==> c == children[0] || c in children[1..];
      (if children[0].NestedAttribute? then [children[0]] else []) + NestedChildren(children[1..])
  }

  lemma {:induction false} NestedChildrenSmaller(children: seq<Attribute>)
    ensures QueueSize(NestedChildren(children)) <= SizeOf(children)
  {
    if children != [] {
      NestedChildrenSmaller(children[1..]);
      if children[0].NestedAttribute? {
        assert NestedChildren(children) == [children[0]] + NestedChildren(children[1..]);
        QueueSizeAppend([children[0]], NestedChildren(children[1..]));
        assert QueueSize([children[0]]) == Size(children[0]) + QueueSize([children[0]][1..]);
      } else {
        assert [] + NestedChildren(children[1..]) == NestedChildren(children[1..]);
        assert NestedChildren(children) == NestedChildren(children[1..]);
      }
    }
  }

  /** The names under every attribute of a queue. */
  function FlatAll(queue: seq<Attribute>): set<string> {
    if queue == [] then {} else FlatAttributesNames(queue[0]) + FlatAll(queue[1..])
  }

  lemma {:induction false} FlatAllAppend(a: seq<Attribute>, b: seq<Attribute>)
    ensures FlatAll(a + b) == FlatAll(a) + FlatAll(b)
  {
    if a == [] {
      assert a + b == b;
    } else {
      FlatAllAppend(a[1..], b);
      assert (a + b)[1..] == a[1..] + b;
    }
  }

  /** A group's names are its plain children's values plus the names under its grouped children. */
  lemma {:induction false} FlatNamesSplit(children: seq<Attribute>)
    ensures FlatNamesOf(children) == StringValues(children) + FlatAll(NestedChildren(children))
  {
    if children != [] {
      FlatNamesSplit(children[1..]);
      var c := children[0];
      if c.NestedAttribute? {
        assert NestedChildren(children) == [c] + NestedChildren(children[1..]);
        FlatAllAppend([c], NestedChildren(children[1..]));
        assert FlatAll([c]) == FlatAttributesNames(c) + FlatAll([c][1..]);
      } else {
        assert [] + NestedChildren(children[1..]) == NestedChildren(children[1..]);
        assert NestedChildren(children) == NestedChildren(children[1..]);
        assert StringValues(children) == {c.value} + StringValues(children[1..]);
        assert FlatNamesOf(children) == {c.value} + FlatNamesOf(children[1..]);
      }
    }
  }

  /**
   * `NestedAttribute.flatten()`: drains a queue of groups, collecting the plain values
   * of each group's children and queueing its grouped children.
   */
  method Flatten(root: Attribute) returns (names: set<string>)
    requires root.NestedAttribute?
    ensures names == FlatAttributesNames(root)
  {
    names := {};
    var queue := [root];
    while queue != []
      invariant forall q :: q in queue ==> q.NestedAttribute?
      invariant names + FlatAll(queue) == FlatAttributesNames(root)
      decreases QueueSize(queue)
    {
      var next := queue[0];
      queue := queue[1..];
      FlatNamesSplit(next.children);
      NestedChildrenSmaller(next.children);
      FlatAllAppend(queue, NestedChildren(next.children));
      QueueSizeAppend(queue, NestedChildren(next.children));
      names := names + StringValues(next.children);
      queue := queue + NestedChildren(next.children);
    }
  }

  /** `Set<String>.contains(attribute)`: every name nested under the group is in the set. */
  predicate ContainsAttribute(s: set<string>, attribute: Attribute)
    requires attribute.NestedAttribute?
  {
    forall x :: x in FlatAttributesNames(attribute) ==> x in s
  }

  /** A set containing a group contains each of its grouped children and each plain child's value. */
  lemma ContainsIsHereditary(s: set<string>, attribute: Attribute)
    requires attribute.NestedAttribute? && ContainsAttribute(s, attribute)
    ensures forall c :: c in attribute.children && c.NestedAttribute? ==> ContainsAttribute(s, c)
    ensures forall c :: c in attribute.children && c.StringAttribute? ==> c.value in s
  {
    forall c, x | c in attribute.children && x in FlatAttributesNames(c)
      ensures x in s
    {
      FlatNamesOfIsUnion(attribute.children, x);
    }
  }

  // ---- Compilations ----

  datatype JsCompiler = IR | Legacy

  /** A compilation of the resolved multiplatform model. */
  datatype Compilation =
    | Js(compiler: JsCompiler)
    | Native(target: string)
    | Common
    | OtherPlatform(platformId: string)

  /** The raw attribute name of one compilation; a common compilation has none. */
  function RawAttributeString(c: Compilation): (r: Option<string>)
    ensures c == Js(IR) ==> r == Some("jsIr")
    ensures c == Js(Legacy) ==> r == Some("jsLegacy")
    ensures c.Native? ==> r == Some(c.target)
    ensures c.Common? <==> r.None?
    ensures c.OtherPlatform? ==> r == Some(c.platformId)
  {
    match c
    case Js(IR) => Some("jsIr")
    case Js(Legacy) => Some("jsLegacy")
    case Native(target) => Some(target)
    case Common => None
    case OtherPlatform(platformId) => Some(platformId)
  }

  /**
   * The raw strings `buildAttributes` hands to the attribute parser (the parser is
   * not part of this model): one name per non-common compilation, as a set.
   */
  function BuildAttributeStrings(compilations: set<Compilation>): (r: set<string>)
    ensures forall x :: x in r <==> exists c :: c in compilations && RawAttributeString(c) == Some(x)
  {
    set c | c in compilations && RawAttributeString(c).Some? :: RawAttributeString(c).value
  }

  /** Common compilations add nothing: dropping them leaves the names unchanged. */
  lemma CommonContributesNothing(compilations: set<Compilation>)
    ensures BuildAttributeStrings(compilations) == BuildAttributeStrings(compilations - {Common})
  {
  }

  // ---- Maps ----

  /** `filterNotNullValues`: copies every entry whose value is not null. */
  method FilterNotNullValues<K, V>(m: map<K, Option<V>>) returns (r: map<K, V>)
    ensures forall k :: k in r <==> k in m && m[k].Some?
    ensures forall k :: k in r ==> m[k] == Some(r[k])
  {
    r := map[];
    var remaining := m.Keys;
    while remaining != {}
      invariant remaining <= m.Keys
      invariant forall k :: k in r <==> k in m && k !in remaining && m[k].Some?
      invariant forall k :: k in r ==> m[k] == Some(r[k])
      decreases remaining
    {
      var key :| key in remaining;
      remaining := remaining - {key};
      if m[key].Some? {
        r := r[key := m[key].value];
      }
    }
  }

  // ---- Default scope of the dependencies block ----

  function Count(s: seq<string>, x: string): nat {
    if s == [] then 0 else (if s[0] == x then 1 else 0) + Count(s[1..], x)
  }

  lemma {:induction false} CountPositive(s: seq<string>, x: string)
    ensures Count(s, x) > 0 <==> x in s
  {
    if s != [] {
      CountPositive(s[1..], x);
    }
  }

  /**
   * `maxByOrNull { count }` over keys in first-occurrence order: the index of the first
   * key with the largest count (a later key replaces the best only when strictly larger).
   */
  function FirstMostFrequent(keys: seq<string>, s: seq<string>): (i: nat)
    requires keys != []
    ensures i < |keys|
    ensures forall j :: 0 <= j < |keys| ==> Count(s, keys[j]) <= Count(s, keys[i])
    ensures forall j :: 0 <= j < i ==> Count(s, keys[j]) < Count(s, keys[i])
  {
    if |keys| == 1 then 0
    else
      var best := FirstMostFrequent(keys[..|keys| - 1], s);
      if Count(s, keys[|keys| - 1]) > Count(s, keys[best]) then |keys| - 1 else best
  }

  /** Among the most used configurations, `maxByOrNull` over the distinct ones picks the one used first. */
  lemma MostFrequentUsedFirst(configurations: seq<string>)
    requires configurations != []
    ensures var keys := Distinct(configurations);
      keys != [] &&
      var best := keys[FirstMostFrequent(keys, configurations)];
      forall c :: c in configurations && Count(configurations, c) == Count(configurations, best) ==>
        FirstIndex(configurations, best) <= FirstIndex(configurations, c)
  {
    var keys := Distinct(configurations);
    assert configurations[0] in keys;
    var i := FirstMostFrequent(keys, configurations);
    DistinctInOrder(configurations);
    forall c | c in configurations && Count(configurations, c) == Count(configurations, keys[i])
      ensures FirstIndex(configurations, keys[i]) <= FirstIndex(configurations, c)
    {
      var j :| 0 <= j < |keys| && keys[j] == c;
      if i < j {
        assert FirstIndex(configurations, keys[i]) < FirstIndex(configurations, keys[j]);
      }
    }
  }

  /**
   * The dependencies block's default scope: "implementation" when offered, else the
   * configuration most used by the declared dependencies, else the first offered scope.
   * With no offered scope and no dependency the source's `first()` throws; that is `None`.
   */
  function KmpDefaultScope(availableScopes: seq<string>, configurations: seq<string>): (r: Option<string>)
    ensures "implementation" in availableScopes ==> r == Some("implementation")
    ensures "implementation" !in availableScopes && configurations != [] ==>
              r.Some? && r.value in configurations
              && (forall c :: c in configurations ==> Count(configurations, c) <= Count(configurations, r.value))
              && forall c :: c in configurations && Count(configurations, c) == Count(configurations, r.value) ==>
                   FirstIndex(configurations, r.value) <= FirstIndex(configurations, c)
    ensures "implementation" !in availableScopes && configurations == [] && availableScopes != [] ==> r == Some(availableScopes[0])
    ensures r.None? <==> availableScopes == [] && configurations == []
  {
    if "implementation" in availableScopes then Some("implementation")
    else if configurations != [] then
      var keys := Distinct(configurations);
      assert configurations[0] in keys;
      MostFrequentUsedFirst(configurations);
      Some(keys[FirstMostFrequent(keys, configurations)])
    else if availableScopes != [] then Some(availableScopes[0])
    else None
  }
}

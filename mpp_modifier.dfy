/**
 * The Kotlin Multiplatform build-script editor: adds, removes and updates Maven
 * dependencies in the `dependencies` blocks of the source sets of a Kotlin DSL model.
 * The DSL model is a value here: source sets by name, each with an optional list of
 * artifact declarations, plus the build script's variables, which a property may
 * reference (so that an update can rewrite `val v = "1.0"` instead of the call site).
 */
module MppModifier {
  import opened Wrappers

  /** `MppDependency`: only Maven descriptors are handled; the other kinds reach a `TODO()`. */
  datatype MppDependency =
    | Maven(groupId: string, artifactId: string, version: Option<string>, configuration: string)
    | Npm
    | Cocoapods

  /** `a::class == b::class`. */
  predicate SameKind(a: MppDependency, b: MppDependency) {
    (a.Maven? && b.Maven?) || (a.Npm? && b.Npm?) || (a.Cocoapods? && b.Cocoapods?)
  }

  /** The DSL's `PropertyType` of a referenced element. */
  datatype PropertyType = Regular | Variable | Derived | Global | PropertiesFile | Fake

  /** A variable of the build script: its kind and its value as a string. */
  datatype DslVariable = DslVariable(kind: PropertyType, value: Option<string>)

  /** A resolved property: its value as a string and the names of the variables its expression uses. */
  datatype Property = Property(value: Option<string>, dependencies: seq<string>)

  /** An artifact declaration `configuration("group:name:version")`. */
  datatype Artifact = Artifact(group: Property, name: Property, version: Property, configuration: string)

  /** A source set: whether it is declared as `val name by getting`, and its `dependencies` block if any. */
  datatype SourceSet = SourceSet(name: string, delegated: bool, dependencies: Option<seq<Artifact>>)

  /** The Kotlin DSL model: the `sourceSets` block (absent or present) and the variables. */
  datatype DslState = DslState(sourceSets: Option<map<string, SourceSet>>, variables: map<string, DslVariable>)

  datatype Field = GroupField | NameField | VersionField

  function Get(a: Artifact, f: Field): Property {
    match f
    case GroupField => a.group
    case NameField => a.name
    case VersionField => a.version
  }

  function With(a: Artifact, f: Field, p: Property): (r: Artifact)
    ensures Get(r, f) == p && r.configuration == a.configuration
    ensures forall g :: g != f ==> Get(r, g) == Get(a, g)
  {
    match f
    case GroupField => a.(group := p)
    case NameField => a.(name := p)
    case VersionField => a.(version := p)
  }

  // ---- findDependency ----

  /** The artifact is the one the Maven descriptor names: group, name, version and configuration all equal. */
  predicate Matches(a: Artifact, d: MppDependency)
    requires d.Maven?
  {
    a.group.value == Some(d.groupId) && a.name.value == Some(d.artifactId)
    && a.version.value == d.version && a.configuration == d.configuration
  }

  /** The first artifact at or after `from` that the descriptor names. */
  function FindFrom(arts: seq<Artifact>, d: MppDependency, from: nat): (r: Option<nat>)
    requires d.Maven? && from <= |arts|
    ensures r.Some? ==> from <= r.value < |arts| && Matches(arts[r.value], d)
    ensures r.Some? ==> forall j :: from <= j < r.value ==> !Matches(arts[j], d)
    ensures r.None? <==> forall j :: from <= j < |arts| ==> !Matches(arts[j], d)
    decreases |arts| - from
  {
    if from == |arts| then None
    else if Matches(arts[from], d) then Some(from)
    else FindFrom(arts, d, from + 1)
  }

  /** The position of the first artifact the descriptor names, if any. */
  function FindIndex(arts: seq<Artifact>, d: MppDependency): (r: Option<nat>)
    requires d.Maven?
    ensures r.Some? ==> r.value < |arts| && Matches(arts[r.value], d)
    ensures r.Some? ==> forall j :: 0 <= j < r.value ==> !Matches(arts[j], d)
    ensures r.None? <==> forall j :: 0 <= j < |arts| ==> !Matches(arts[j], d)
  {
    FindFrom(arts, d, 0)
  }

  /** `DependenciesModel.findDependency`: scans the artifacts in order and stops at the first match. */
  method FindDependency(arts: seq<Artifact>, d: MppDependency) returns (r: Option<nat>)
    requires d.Maven?
    ensures r == FindIndex(arts, d)
  {
    for i := 0 to |arts|
      invariant forall j :: 0 <= j < i ==> !Matches(arts[j], d)
    {
      if arts[i].group.value == Some(d.groupId) && arts[i].name.value == Some(d.artifactId)
         && arts[i].version.value == d.version && arts[i].configuration == d.configuration {
        return Some(i);
      }
    }
    return None;
  }

  // ---- updateVariableOrValue ----

  predicate Eligible(kind: PropertyType) {
    kind == Variable || kind == Regular || kind == PropertiesFile
  }

  /**
   * The property is exactly one eligible variable (not a partial injection such as
   * "${version}-SNAPSHOT"), so the new value is written to the variable.
   */
  predicate WritesThrough(p: Property, vars: map<string, DslVariable>) {
    && |p.dependencies| == 1
    && p.dependencies[0] in vars
    && Eligible(vars[p.dependencies[0]].kind)
    && vars[p.dependencies[0]].value == p.value
  }

  /** A rewritten artifact together with the variables after the write. */
  datatype ArtifactWrite = ArtifactWrite(artifact: Artifact, variables: map<string, DslVariable>)

  /** `updateVariableOrValue` on one field of an artifact. */
  function WriteField(a: Artifact, vars: map<string, DslVariable>, f: Field, value: string): (w: ArtifactWrite)
  {
    var model := Get(a, f);
    if WritesThrough(model, vars) then
      var name := model.dependencies[0];
      ArtifactWrite(With(a, f, Property(Some(value), model.dependencies)), vars[name := vars[name].(value := Some(value))])
    else
      ArtifactWrite(With(a, f, Property(Some(value), [])), vars)
  }

  /**
   * After the write the field reads the new value; a variable is rewritten, keeping its
   * kind, exactly when the field is a whole eligible variable; otherwise the field becomes
   * a literal and no variable changes. The other fields and the configuration are untouched.
   */
  lemma WriteFieldEffect(a: Artifact, vars: map<string, DslVariable>, f: Field, value: string)
    ensures var w := WriteField(a, vars, f, value);
      && Get(w.artifact, f).value == Some(value)
      && w.artifact.configuration == a.configuration
      && (forall g :: g != f ==> Get(w.artifact, g) == Get(a, g))
      && (WritesThrough(Get(a, f), vars) ==>
            var name := Get(a, f).dependencies[0];
            && w.variables.Keys == vars.Keys
            && w.variables[name] == DslVariable(vars[name].kind, Some(value))
            && (forall n :: n in vars && n != name ==> w.variables[n] == vars[n])
            && Get(w.artifact, f).dependencies == Get(a, f).dependencies)
      && (!WritesThrough(Get(a, f), vars) ==> w.variables == vars && Get(w.artifact, f).dependencies == [])
  {
  }

  /** Writing the same value a second time changes nothing more. */
  lemma WriteFieldIdempotent(a: Artifact, vars: map<string, DslVariable>, f: Field, value: string)
    ensures var w := WriteField(a, vars, f, value);
      WriteField(w.artifact, w.variables, f, value) == w
  {
    var w := WriteField(a, vars, f, value);
    var model := Get(a, f);
    if WritesThrough(model, vars) {
      var name := model.dependencies[0];
      assert WritesThrough(Get(w.artifact, f), w.variables);
      assert w.variables[name := w.variables[name].(value := Some(value))] == w.variables;
      assert With(w.artifact, f, Property(Some(value), model.dependencies)) == w.artifact;
    } else {
      assert !WritesThrough(Get(w.artifact, f), w.variables);
      assert With(w.artifact, f, Property(Some(value), [])) == w.artifact;
    }
  }

  // ---- updateByDescriptor ----

  /**
   * `updateByDescriptor`: group, name, version and configuration are written, in that
   * order, each only when the new descriptor differs from the old one; a missing new
   * version is never written.
   */
  function UpdateArtifact(a: Artifact, vars: map<string, DslVariable>, oldD: MppDependency, newD: MppDependency): (w: ArtifactWrite)
    requires oldD.Maven? && newD.Maven?
  {
    var w1 := if oldD.groupId != newD.groupId then WriteField(a, vars, GroupField, newD.groupId) else ArtifactWrite(a, vars);
    var w2 := if oldD.artifactId != newD.artifactId then WriteField(w1.artifact, w1.variables, NameField, newD.artifactId) else w1;
    var w3 := if oldD.version != newD.version && newD.version.Some? then WriteField(w2.artifact, w2.variables, VersionField, newD.version.value) else w2;
    if oldD.configuration != newD.configuration then ArtifactWrite(w3.artifact.(configuration := newD.configuration), w3.variables) else w3
  }

  /** Only the fields that differ are written; with nothing different the artifact and the variables stay as they are. */
  lemma UpdateWritesOnlyDifferences(a: Artifact, vars: map<string, DslVariable>, oldD: MppDependency, newD: MppDependency)
    requires oldD.Maven? && newD.Maven?
    ensures var w := UpdateArtifact(a, vars, oldD, newD);
      && (oldD.groupId == newD.groupId ==> w.artifact.group == a.group)
      && (oldD.artifactId == newD.artifactId ==> w.artifact.name == a.name)
      && (oldD.version == newD.version ==> w.artifact.version == a.version)
      && (oldD.configuration == newD.configuration ==> w.artifact.configuration == a.configuration)
      && (oldD == newD ==> w == ArtifactWrite(a, vars))
  {
    var w1 := if oldD.groupId != newD.groupId then WriteField(a, vars, GroupField, newD.groupId) else ArtifactWrite(a, vars);
    WriteFieldEffect(a, vars, GroupField, newD.groupId);
    var w2 := if oldD.artifactId != newD.artifactId then WriteField(w1.artifact, w1.variables, NameField, newD.artifactId) else w1;
    WriteFieldEffect(w1.artifact, w1.variables, NameField, newD.artifactId);
    if newD.version.Some? {
      WriteFieldEffect(w2.artifact, w2.variables, VersionField, newD.version.value);
    }
  }

  /** A missing new version leaves the version field as it was. */
  lemma UpdateNeverWritesMissingVersion(a: Artifact, vars: map<string, DslVariable>, oldD: MppDependency, newD: MppDependency)
    requires oldD.Maven? && newD.Maven? && newD.version.None?
    ensures UpdateArtifact(a, vars, oldD, newD).artifact.version == a.version
  {
    var w1 := if oldD.groupId != newD.groupId then WriteField(a, vars, GroupField, newD.groupId) else ArtifactWrite(a, vars);
    WriteFieldEffect(a, vars, GroupField, newD.groupId);
    WriteFieldEffect(w1.artifact, w1.variables, NameField, newD.artifactId);
  }

  /**
   * An artifact found by the old descriptor is, after the update, found by the new one,
   * unless the new descriptor drops the version (which is then kept).
   */
  lemma UpdateMatchesNew(a: Artifact, vars: map<string, DslVariable>, oldD: MppDependency, newD: MppDependency)
    requires oldD.Maven? && newD.Maven? && Matches(a, oldD)
    requires newD.version.Some? || newD.version == oldD.version
    ensures Matches(UpdateArtifact(a, vars, oldD, newD).artifact, newD)
  {
    var w1 := if oldD.groupId != newD.groupId then WriteField(a, vars, GroupField, newD.groupId) else ArtifactWrite(a, vars);
    WriteFieldEffect(a, vars, GroupField, newD.groupId);
    var w2 := if oldD.artifactId != newD.artifactId then WriteField(w1.artifact, w1.variables, NameField, newD.artifactId) else w1;
    WriteFieldEffect(w1.artifact, w1.variables, NameField, newD.artifactId);
    if newD.version.Some? {
      WriteFieldEffect(w2.artifact, w2.variables, VersionField, newD.version.value);
    }
  }

  // ---- The state of the DSL model ----

  predicate HasSourceSet(st: DslState, name: string) {
    st.sourceSets.Some? && name in st.sourceSets.value
  }

  predicate HasBlock(st: DslState, name: string) {
    HasSourceSet(st, name) && st.sourceSets.value[name].dependencies.Some?
  }

  function ArtifactsOf(st: DslState, name: string): seq<Artifact>
    requires HasBlock(st, name)
  {
    st.sourceSets.value[name].dependencies.value
  }

  /** The state with the source set's block replaced by `arts` and the variables by `vars`. */
  function WithArtifacts(st: DslState, name: string, arts: seq<Artifact>, vars: map<string, DslVariable>): (r: DslState)
    requires HasSourceSet(st, name)
    ensures HasBlock(r, name) && ArtifactsOf(r, name) == arts && r.variables == vars
    ensures r.sourceSets.value.Keys == st.sourceSets.value.Keys
    ensures forall n :: n in st.sourceSets.value && n != name ==> r.sourceSets.value[n] == st.sourceSets.value[n]
  {
    var s := st.sourceSets.value[name];
    DslState(Some(st.sourceSets.value[name := s.(dependencies := Some(arts))]), vars)
  }

  /** The state with artifact `i` of the source set rewritten as `w` says. */
  function PutArtifact(st: DslState, name: string, i: nat, w: ArtifactWrite): DslState
    requires HasBlock(st, name) && i < |ArtifactsOf(st, name)|
  {
    WithArtifacts(st, name, ArtifactsOf(st, name)[i := w.artifact], w.variables)
  }

  /** Two rewrites of the same artifact are the second one applied to the original state. */
  lemma PutArtifactTwice(st: DslState, name: string, i: nat, w1: ArtifactWrite, w2: ArtifactWrite)
    requires HasBlock(st, name) && i < |ArtifactsOf(st, name)|
    ensures PutArtifact(PutArtifact(st, name, i, w1), name, i, w2) == PutArtifact(st, name, i, w2)
  {
    var s1 := PutArtifact(st, name, i, w1);
    assert ArtifactsOf(s1, name)[i := w2.artifact] == ArtifactsOf(st, name)[i := w2.artifact];
    assert s1.sourceSets.value[name := s1.sourceSets.value[name].(dependencies := Some(ArtifactsOf(st, name)[i := w2.artifact]))]
        == st.sourceSets.value[name := st.sourceSets.value[name].(dependencies := Some(ArtifactsOf(st, name)[i := w2.artifact]))];
  }

  /** The source set a fresh declaration creates: `commonMain { }`/`commonTest { }`, else `val name by getting { }`. */
  function DeclaredSourceSet(name: string): (r: SourceSet)
    ensures r.name == name && r.dependencies.None?
    ensures r.delegated <==> name != "commonMain" && name != "commonTest"
  {
    SourceSet(name, name != "commonMain" && name != "commonTest", None)
  }

  /**
   * `getOrCreateSourceSet`: the state in which the source set exists, or None. A missing
   * source set is declared only when `createIfMissing` holds and the `sourceSets` block exists.
   */
  function SourceSetLookup(st: DslState, name: string, createIfMissing: bool): (r: Option<DslState>)
    ensures r.Some? ==> HasSourceSet(r.value, name)
    ensures HasSourceSet(st, name) ==> r == Some(st)
    ensures !HasSourceSet(st, name) && !createIfMissing ==> r.None?
    ensures !HasSourceSet(st, name) && createIfMissing ==> (r.Some? <==> st.sourceSets.Some?)
    ensures !HasSourceSet(st, name) && r.Some? ==>
              r.value == DslState(Some(st.sourceSets.value[name := DeclaredSourceSet(name)]), st.variables)
  {
    if HasSourceSet(st, name) then Some(st)
    else if !createIfMissing then None
    else if st.sourceSets.None? then None
    else Some(DslState(Some(st.sourceSets.value[name := DeclaredSourceSet(name)]), st.variables))
  }

  /** `getOrCreateDependenciesBlock`: an empty block is added only when `createIfMissing` holds. */
  function BlockLookup(st: DslState, name: string, createIfMissing: bool): (r: Option<DslState>)
    requires HasSourceSet(st, name)
    ensures r.Some? ==> HasBlock(r.value, name)
    ensures HasBlock(st, name) ==> r == Some(st)
    ensures !HasBlock(st, name) ==> (r.Some? <==> createIfMissing)
    ensures !HasBlock(st, name) && createIfMissing ==> r == Some(WithArtifacts(st, name, [], st.variables))
  {
    if HasBlock(st, name) then Some(st)
    else if createIfMissing then Some(WithArtifacts(st, name, [], st.variables))
    else None
  }

  /** The declaration `addArtifact(configuration, spec)` appends. */
  function NewArtifact(d: MppDependency): (a: Artifact)
    requires d.Maven?
    ensures Matches(a, d)
  {
    Artifact(Property(Some(d.groupId), []), Property(Some(d.artifactId), []), Property(d.version, []), d.configuration)
  }

  /** `addToKotlinModel`. */
  function AddSpec(st: DslState, sourceSet: string, d: MppDependency, createIfMissing: bool): DslState
    requires d.Maven?
  {
    match SourceSetLookup(st, sourceSet, createIfMissing)
    case None => st
    case Some(s1) =>
      match BlockLookup(s1, sourceSet, createIfMissing)
      case None => s1
      case Some(s2) => WithArtifacts(s2, sourceSet, ArtifactsOf(s2, sourceSet) + [NewArtifact(d)], s2.variables)
  }

  /** An added dependency is then found in its source set, after every artifact that was there. */
  lemma AddThenFound(st: DslState, sourceSet: string, d: MppDependency)
    requires d.Maven? && HasBlock(st, sourceSet)
    ensures var r := AddSpec(st, sourceSet, d, false);
      && HasBlock(r, sourceSet)
      && ArtifactsOf(r, sourceSet) == ArtifactsOf(st, sourceSet) + [NewArtifact(d)]
      && FindIndex(ArtifactsOf(r, sourceSet), d).Some?
  {
    var r := AddSpec(st, sourceSet, d, false);
    assert ArtifactsOf(r, sourceSet)[|ArtifactsOf(st, sourceSet)|] == NewArtifact(d);
  }

  /** Without `createIfMissing`, a missing source set or block means nothing changes. */
  lemma AddWithoutCreateNeedsBlock(st: DslState, sourceSet: string, d: MppDependency)
    requires d.Maven? && !HasBlock(st, sourceSet)
    ensures AddSpec(st, sourceSet, d, false) == st
  {
  }

  /** `removeFromKotlinModel`: the first artifact the descriptor names is deleted, if there is one. */
  function RemoveSpec(st: DslState, sourceSet: string, d: MppDependency): DslState
    requires d.Maven?
  {
    if !HasBlock(st, sourceSet) then st
    else
      var arts := ArtifactsOf(st, sourceSet);
      match FindIndex(arts, d)
      case None => st
      case Some(i) => WithArtifacts(st, sourceSet, arts[..i] + arts[i + 1..], st.variables)
  }

  /** Removing deletes exactly one matching artifact and keeps the others in order, or changes nothing when none matches. */
  lemma RemoveDeletesOne(st: DslState, sourceSet: string, d: MppDependency)
    requires d.Maven? && HasBlock(st, sourceSet)
    ensures var r := RemoveSpec(st, sourceSet, d);
      var arts := ArtifactsOf(st, sourceSet);
      && HasBlock(r, sourceSet)
      && (FindIndex(arts, d).None? ==> r == st)
      && (FindIndex(arts, d).Some? ==>
            && |ArtifactsOf(r, sourceSet)| == |arts| - 1
            && multiset(ArtifactsOf(r, sourceSet)) + multiset{arts[FindIndex(arts, d).value]} == multiset(arts)
            && ArtifactsOf(r, sourceSet) == arts[..FindIndex(arts, d).value] + arts[FindIndex(arts, d).value + 1..])
  {
    var arts := ArtifactsOf(st, sourceSet);
    if FindIndex(arts, d).Some? {
      var i := FindIndex(arts, d).value;
      assert arts == arts[..i] + [arts[i]] + arts[i + 1..];
    }
  }

  /** `updateInKotlinModel`: the first artifact named by the old descriptor is rewritten by `updateByDescriptor`. */
  function UpdateSpec(st: DslState, sourceSet: string, oldD: MppDependency, newD: MppDependency): DslState
    requires oldD.Maven? && newD.Maven?
  {
    if !HasBlock(st, sourceSet) then st
    else
      var arts := ArtifactsOf(st, sourceSet);
      match FindIndex(arts, oldD)
      case None => st
      case Some(i) => PutArtifact(st, sourceSet, i, UpdateArtifact(arts[i], st.variables, oldD, newD))
  }

  /** After an update that found its artifact, the new descriptor finds an artifact in the same source set. */
  lemma UpdateThenFound(st: DslState, sourceSet: string, oldD: MppDependency, newD: MppDependency)
    requires oldD.Maven? && newD.Maven? && HasBlock(st, sourceSet)
    requires FindIndex(ArtifactsOf(st, sourceSet), oldD).Some?
    requires newD.version.Some? || newD.version == oldD.version
    ensures var r := UpdateSpec(st, sourceSet, oldD, newD);
      HasBlock(r, sourceSet) && FindIndex(ArtifactsOf(r, sourceSet), newD).Some?
  {
    var arts := ArtifactsOf(st, sourceSet);
    var i := FindIndex(arts, oldD).value;
    UpdateMatchesNew(arts[i], st.variables, oldD, newD);
    var r := UpdateSpec(st, sourceSet, oldD, newD);
    assert ArtifactsOf(r, sourceSet)[i] == UpdateArtifact(arts[i], st.variables, oldD, newD).artifact;
  }

  // ---- The batches ----

  datatype AddData = AddData(sourceSet: string, descriptor: MppDependency)

  datatype UpdateData = UpdateData(sourceSet: string, oldDescriptor: MppDependency, newDescriptor: MppDependency)

  /** `addDependencies`: None when a non-Maven descriptor reaches its `TODO()`. */
  function ApplyAdds(st: DslState, data: seq<AddData>, createIfMissing: bool): Option<DslState>
    decreases |data|
  {
    if data == [] then Some(st)
    else if !data[0].descriptor.Maven? then None
    else ApplyAdds(AddSpec(st, data[0].sourceSet, data[0].descriptor, createIfMissing), data[1..], createIfMissing)
  }

  /** `removeDependencies`: None when a non-Maven descriptor reaches its `TODO()`. */
  function ApplyRemoves(st: DslState, data: seq<AddData>): Option<DslState>
    decreases |data|
  {
    if data == [] then Some(st)
    else if !data[0].descriptor.Maven? then None
    else ApplyRemoves(RemoveSpec(st, data[0].sourceSet, data[0].descriptor), data[1..])
  }

  /**
   * `updateDependencies`: pairs of different descriptor kinds are skipped; None when a
   * non-Maven pair reaches its `TODO()`.
   */
  function ApplyUpdates(st: DslState, data: seq<UpdateData>): Option<DslState>
    decreases |data|
  {
    if data == [] then Some(st)
    else if !SameKind(data[0].oldDescriptor, data[0].newDescriptor) then ApplyUpdates(st, data[1..])
    else if !data[0].oldDescriptor.Maven? then None
    else ApplyUpdates(UpdateSpec(st, data[0].sourceSet, data[0].oldDescriptor, data[0].newDescriptor), data[1..])
  }

  /** An update between descriptors of different kinds is skipped: it changes nothing. */
  lemma MixedKindUpdateSkipped(st: DslState, u: UpdateData, rest: seq<UpdateData>)
    requires !SameKind(u.oldDescriptor, u.newDescriptor)
    ensures ApplyUpdates(st, [u] + rest) == ApplyUpdates(st, rest)
  {
    assert ([u] + rest)[1..] == rest;
  }

  /** An add batch completes exactly when every descriptor in it is a Maven one. */
  lemma {:induction false} AddsCompleteIffMaven(st: DslState, data: seq<AddData>, createIfMissing: bool)
    ensures ApplyAdds(st, data, createIfMissing).Some? <==> forall a :: a in data ==> a.descriptor.Maven?
    decreases |data|
  {
    if data != [] {
      assert forall a :: a in data <==> a == data[0] || a in data[1..];
      if data[0].descriptor.Maven? {
        AddsCompleteIffMaven(AddSpec(st, data[0].sourceSet, data[0].descriptor, createIfMissing), data[1..], createIfMissing);
      }
    }
  }

  /** A remove batch completes exactly when every descriptor in it is a Maven one. */
  lemma {:induction false} RemovesCompleteIffMaven(st: DslState, data: seq<AddData>)
    ensures ApplyRemoves(st, data).Some? <==> forall a :: a in data ==> a.descriptor.Maven?
    decreases |data|
  {
    if data != [] {
      assert forall a :: a in data <==> a == data[0] || a in data[1..];
      if data[0].descriptor.Maven? {
        RemovesCompleteIffMaven(RemoveSpec(st, data[0].sourceSet, data[0].descriptor), data[1..]);
      }
    }
  }

  /**
   * An update batch completes exactly when every pair of descriptors of the same kind
   * is a Maven pair: mixed pairs are skipped, so only Maven updates never abort.
   */
  lemma {:induction false} UpdatesCompleteIffMaven(st: DslState, data: seq<UpdateData>)
    ensures ApplyUpdates(st, data).Some? <==>
              forall u :: u in data && SameKind(u.oldDescriptor, u.newDescriptor) ==> u.oldDescriptor.Maven?
    decreases |data|
  {
    if data != [] {
      assert forall u :: u in data <==> u == data[0] || u in data[1..];
      if !SameKind(data[0].oldDescriptor, data[0].newDescriptor) {
        UpdatesCompleteIffMaven(st, data[1..]);
      } else if data[0].oldDescriptor.Maven? {
        UpdatesCompleteIffMaven(UpdateSpec(st, data[0].sourceSet, data[0].oldDescriptor, data[0].newDescriptor), data[1..]);
      }
    }
  }

  /** The Kotlin DSL model of one build script, edited in place. */
  class KotlinDslModel {
    var sourceSets: Option<map<string, SourceSet>>
    var variables: map<string, DslVariable>

    function State(): DslState
      reads this
    {
      DslState(sourceSets, variables)
    }

    constructor (st: DslState)
      ensures State() == st
    {
      sourceSets := st.sourceSets;
      variables := st.variables;
    }

    method GetOrCreateSourceSet(name: string, createIfMissing: bool) returns (found: bool)
      modifies this
      ensures found <==> SourceSetLookup(old(State()), name, createIfMissing).Some?
      ensures found ==> State() == SourceSetLookup(old(State()), name, createIfMissing).value
      ensures !found ==> State() == old(State())
    {
      if sourceSets.Some? && name in sourceSets.value {
        return true;
      }
      if !createIfMissing {
        return false;
      }
      if sourceSets.None? {
        return false;
      }
      sourceSets := Some(sourceSets.value[name := DeclaredSourceSet(name)]);
      return true;
    }

    method GetOrCreateDependenciesBlock(name: string, createIfMissing: bool) returns (found: bool)
      requires HasSourceSet(State(), name)
      modifies this
      ensures found <==> BlockLookup(old(State()), name, createIfMissing).Some?
      ensures found ==> State() == BlockLookup(old(State()), name, createIfMissing).value
      ensures !found ==> State() == old(State())
    {
      var s := sourceSets.value[name];
      if s.dependencies.Some? {
        return true;
      }
      if !createIfMissing {
        return false;
      }
      sourceSets := Some(sourceSets.value[name := s.(dependencies := Some([]))]);
      return true;
    }

    method AddToKotlinModel(sourceSet: string, d: MppDependency, createIfMissing: bool)
      requires d.Maven?
      modifies this
      ensures State() == AddSpec(old(State()), sourceSet, d, createIfMissing)
    {
      var hasSourceSet := GetOrCreateSourceSet(sourceSet, createIfMissing);
      if !hasSourceSet {
        return;
      }
      var hasBlock := GetOrCreateDependenciesBlock(sourceSet, createIfMissing);
      if !hasBlock {
        return;
      }
      var s := sourceSets.value[sourceSet];
      sourceSets := Some(sourceSets.value[sourceSet := s.(dependencies := Some(s.dependencies.value + [NewArtifact(d)]))]);
    }

    method RemoveFromKotlinModel(sourceSet: string, d: MppDependency)
      requires d.Maven?
      modifies this
      ensures State() == RemoveSpec(old(State()), sourceSet, d)
    {
      if sourceSets.None? || sourceSet !in sourceSets.value {
        return;
      }
      var s := sourceSets.value[sourceSet];
      if s.dependencies.None? {
        return;
      }
      var arts := s.dependencies.value;
      var found := FindDependency(arts, d);
      if found.None? {
        return;
      }
      var i := found.value;
      sourceSets := Some(sourceSets.value[sourceSet := s.(dependencies := Some(arts[..i] + arts[i + 1..]))]);
    }

    /** `updateVariableOrValue` on one field of artifact `i` of the source set. */
    method UpdateVariableOrValue(sourceSet: string, i: nat, f: Field, value: string)
      requires HasBlock(State(), sourceSet) && i < |ArtifactsOf(State(), sourceSet)|
      modifies this
      ensures State() == PutArtifact(old(State()), sourceSet, i,
                                     WriteField(ArtifactsOf(old(State()), sourceSet)[i], old(variables), f, value))
    {
      var s := sourceSets.value[sourceSet];
      var arts := s.dependencies.value;
      var model := Get(arts[i], f);
      if |model.dependencies| == 1 && model.dependencies[0] in variables {
        var name := model.dependencies[0];
        var dependency := variables[name];
        if dependency.kind == Variable || dependency.kind == Regular || dependency.kind == PropertiesFile {
          if dependency.value == model.value {
            variables := variables[name := dependency.(value := Some(value))];
            sourceSets := Some(sourceSets.value[sourceSet := s.(dependencies := Some(arts[i := With(arts[i], f, Property(Some(value), model.dependencies))]))]);
            return;
          }
        }
      }
      sourceSets := Some(sourceSets.value[sourceSet := s.(dependencies := Some(arts[i := With(arts[i], f, Property(Some(value), []))]))]);
    }

    method UpdateByDescriptor(sourceSet: string, i: nat, oldD: MppDependency, newD: MppDependency)
      requires oldD.Maven? && newD.Maven?
      requires HasBlock(State(), sourceSet) && i < |ArtifactsOf(State(), sourceSet)|
      modifies this
      ensures State() == PutArtifact(old(State()), sourceSet, i,
                                     UpdateArtifact(ArtifactsOf(old(State()), sourceSet)[i], old(variables), oldD, newD))
    {
      ghost var st0 := State();
      ghost var a := ArtifactsOf(st0, sourceSet)[i];
      ghost var w: ArtifactWrite := ArtifactWrite(a, variables);
      assert PutArtifact(st0, sourceSet, i, w) == st0 by {
        assert ArtifactsOf(st0, sourceSet)[i := a] == ArtifactsOf(st0, sourceSet);
        assert st0.sourceSets.value[sourceSet := st0.sourceSets.value[sourceSet].(dependencies := Some(ArtifactsOf(st0, sourceSet)))]
            == st0.sourceSets.value;
      }
      if oldD.groupId != newD.groupId {
        UpdateVariableOrValue(sourceSet, i, GroupField, newD.groupId);
        w := WriteField(w.artifact, w.variables, GroupField, newD.groupId);
      }
      assert State() == PutArtifact(st0, sourceSet, i, w);
      if oldD.artifactId != newD.artifactId {
        UpdateVariableOrValue(sourceSet, i, NameField, newD.artifactId);
        PutArtifactTwice(st0, sourceSet, i, w, WriteField(w.artifact, w.variables, NameField, newD.artifactId));
        w := WriteField(w.artifact, w.variables, NameField, newD.artifactId);
      }
      assert State() == PutArtifact(st0, sourceSet, i, w);
      if oldD.version != newD.version && newD.version.Some? {
        UpdateVariableOrValue(sourceSet, i, VersionField, newD.version.value);
        PutArtifactTwice(st0, sourceSet, i, w, WriteField(w.artifact, w.variables, VersionField, newD.version.value));
        w := WriteField(w.artifact, w.variables, VersionField, newD.version.value);
      }
      assert State() == PutArtifact(st0, sourceSet, i, w);
      if oldD.configuration != newD.configuration {
        var s := sourceSets.value[sourceSet];
        var arts := s.dependencies.value;
        sourceSets := Some(sourceSets.value[sourceSet := s.(dependencies := Some(arts[i := arts[i].(configuration := newD.configuration)]))]);
        PutArtifactTwice(st0, sourceSet, i, w, ArtifactWrite(w.artifact.(configuration := newD.configuration), w.variables));
        w := ArtifactWrite(w.artifact.(configuration := newD.configuration), w.variables);
      }
      assert w == UpdateArtifact(a, st0.variables, oldD, newD);
    }

    method UpdateInKotlinModel(sourceSet: string, oldD: MppDependency, newD: MppDependency)
      requires oldD.Maven? && newD.Maven?
      modifies this
      ensures State() == UpdateSpec(old(State()), sourceSet, oldD, newD)
    {
      if sourceSets.None? || sourceSet !in sourceSets.value {
        return;
      }
      var s := sourceSets.value[sourceSet];
      if s.dependencies.None? {
        return;
      }
      var found := FindDependency(s.dependencies.value, oldD);
      if found.None? {
        return;
      }
      UpdateByDescriptor(sourceSet, found.value, oldD, newD);
    }

    /**
     * `addDependencies`: the additions in order. A non-Maven descriptor aborts the batch
     * (its `TODO()` throws), and then nothing is written: the state is restored.
     */
    method AddDependencies(data: seq<AddData>, createIfMissing: bool) returns (completed: bool)
      modifies this
      ensures completed <==> ApplyAdds(old(State()), data, createIfMissing).Some?
      ensures completed ==> State() == ApplyAdds(old(State()), data, createIfMissing).value
      ensures !completed ==> State() == old(State())
    {
      var savedSourceSets, savedVariables := sourceSets, variables;
      for i := 0 to |data|
        invariant ApplyAdds(old(State()), data, createIfMissing) == ApplyAdds(State(), data[i..], createIfMissing)
        invariant savedSourceSets == old(sourceSets) && savedVariables == old(variables)
      {
        assert data[i..][1..] == data[i + 1..];
        var item := data[i];
        if !item.descriptor.Maven? {
          sourceSets, variables := savedSourceSets, savedVariables;
          return false;
        }
        AddToKotlinModel(item.sourceSet, item.descriptor, createIfMissing);
      }
      assert data[|data|..] == [];
      return true;
    }

    /** `removeDependencies`, with the same abort rule. */
    method RemoveDependencies(data: seq<AddData>) returns (completed: bool)
      modifies this
      ensures completed <==> ApplyRemoves(old(State()), data).Some?
      ensures completed ==> State() == ApplyRemoves(old(State()), data).value
      ensures !completed ==> State() == old(State())
    {
      var savedSourceSets, savedVariables := sourceSets, variables;
      for i := 0 to |data|
        invariant ApplyRemoves(old(State()), data) == ApplyRemoves(State(), data[i..])
        invariant savedSourceSets == old(sourceSets) && savedVariables == old(variables)
      {
        assert data[i..][1..] == data[i + 1..];
        var item := data[i];
        if !item.descriptor.Maven? {
          sourceSets, variables := savedSourceSets, savedVariables;
          return false;
        }
        RemoveFromKotlinModel(item.sourceSet, item.descriptor);
      }
      assert data[|data|..] == [];
      return true;
    }

    /** `updateDependencies`: pairs of different kinds are skipped; a non-Maven pair aborts the batch. */
    method UpdateDependencies(data: seq<UpdateData>) returns (completed: bool)
      modifies this
      ensures completed <==> ApplyUpdates(old(State()), data).Some?
      ensures completed ==> State() == ApplyUpdates(old(State()), data).value
      ensures !completed ==> State() == old(State())
    {
      var savedSourceSets, savedVariables := sourceSets, variables;
      for i := 0 to |data|
        invariant ApplyUpdates(old(State()), data) == ApplyUpdates(State(), data[i..])
        invariant savedSourceSets == old(sourceSets) && savedVariables == old(variables)
      {
        assert data[i..][1..] == data[i + 1..];
        var item := data[i];
        if !SameKind(item.oldDescriptor, item.newDescriptor) {
          continue;
        }
        if !item.oldDescriptor.Maven? {
          sourceSets, variables := savedSourceSets, savedVariables;
          return false;
        }
        UpdateInKotlinModel(item.sourceSet, item.oldDescriptor, item.newDescriptor);
      }
      assert data[|data|..] == [];
      return true;
    }
  }
}

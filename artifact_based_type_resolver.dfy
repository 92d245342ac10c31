/** The artifact-scoped resolver hooks: a per-compilation-unit map from
    fully-qualified name to Type, seeded from the unit, a copied dependency
    list that gates the store query, and the `requiredBy` bookkeeping. */
module ArtifactBasedTypeResolving {
  import opened JavaModel

  /** The Type nodes among a unit's CONTAINS entries, in list order
      (the `instanceof TypeDescriptor` filter of the constructor's first loop). */
  function TypesOf(files: seq<FileEntry>): seq<TypeDescriptor>
  {
    if files == [] then []
    else
      var rest := TypesOf(files[..|files| - 1]);
      match files[|files| - 1]
      case TypeFile(t) => rest + [t]
      case OtherFile(_) => rest
  }

  /** `m` after `put(t.getFullQualifiedName(), t)` for each `t` of `ts` in order. */
  function PutAll(m: map<string, TypeDescriptor>, ts: seq<TypeDescriptor>): map<string, TypeDescriptor>
  {
    if ts == [] then m
    else
      var last := ts[|ts| - 1];
      PutAll(m, ts[..|ts| - 1])[last.fullQualifiedName := last]
  }

  /** The map the constructor builds: contained types first, required types
      after them. */
  function SeededTypes(contains: seq<FileEntry>, requiresTypes: seq<TypeDescriptor>): map<string, TypeDescriptor>
  {
    PutAll(PutAll(map[], TypesOf(contains)), requiresTypes)
  }

  /** The targets of the DEPENDS_ON relations, in iteration order. */
  function DependencyTargets(relations: seq<DependsOn>): seq<ArtifactDescriptor>
  {
    if relations == [] then []
    else DependencyTargets(relations[..|relations| - 1]) + [relations[|relations| - 1].dependency]
  }

  /** A Type appears among the filtered entries exactly when the unit
      contains it, and nothing else gets through. */
  lemma {:induction false} TypesOfMembership(files: seq<FileEntry>, t: TypeDescriptor)
    ensures t in TypesOf(files) <==> TypeFile(t) in files
  {
    if files != [] {
      var init := files[..|files| - 1];
      assert files == init + [files[|files| - 1]];
      TypesOfMembership(init, t);
    }
  }

  /** Filtering keeps CONTAINS order: the Types of two consecutive runs of
      entries are the first run's Types followed by the second's. */
  lemma {:induction false} TypesOfAppend(a: seq<FileEntry>, b: seq<FileEntry>)
    ensures TypesOf(a + b) == TypesOf(a) + TypesOf(b)
  {
    if b == [] {
      assert a + b == a;
    } else {
      var init := b[..|b| - 1];
      assert (a + b)[..|a + b| - 1] == a + init;
      TypesOfAppend(a, init);
    }
  }

  /** The dependency list holds one entry per relation, in the same order. */
  lemma {:induction false} DependencyTargetsAt(relations: seq<DependsOn>)
    ensures |DependencyTargets(relations)| == |relations|
    ensures forall i :: 0 <= i < |relations| ==> DependencyTargets(relations)[i] == relations[i].dependency
  {
    if relations != [] {
      DependencyTargetsAt(relations[..|relations| - 1]);
    }
  }

  /** A name is a key after the puts exactly when it was a key before or
      some put used it. */
  lemma {:induction false} PutAllKeys(m: map<string, TypeDescriptor>, ts: seq<TypeDescriptor>, k: string)
    ensures k in PutAll(m, ts) <==> k in m || exists i :: 0 <= i < |ts| && ts[i].fullQualifiedName == k
  {
    if ts != [] {
      var init := ts[..|ts| - 1];
      PutAllKeys(m, init, k);
      if k in PutAll(m, ts) && k !in m && k != ts[|ts| - 1].fullQualifiedName {
        var i :| 0 <= i < |init| && init[i].fullQualifiedName == k;
        assert ts[i] == init[i];
      }
      if exists i :: 0 <= i < |init| && init[i].fullQualifiedName == k {
        var i :| 0 <= i < |init| && init[i].fullQualifiedName == k;
        assert ts[i] == init[i];
      }
    }
  }

  /** The last put under a name wins. */
  lemma {:induction false} PutAllLastWins(m: map<string, TypeDescriptor>, ts: seq<TypeDescriptor>, i: nat)
    requires i < |ts|
    requires forall j :: i < j < |ts| ==> ts[j].fullQualifiedName != ts[i].fullQualifiedName
    ensures ts[i].fullQualifiedName in PutAll(m, ts)
    ensures PutAll(m, ts)[ts[i].fullQualifiedName] == ts[i]
  {
    if i < |ts| - 1 {
      var init := ts[..|ts| - 1];
      assert init[i] == ts[i];
      PutAllLastWins(m, init, i);
    }
  }

  /** A name no put used keeps its old binding, or stays absent. */
  lemma {:induction false} PutAllUntouched(m: map<string, TypeDescriptor>, ts: seq<TypeDescriptor>, k: string)
    requires forall i :: 0 <= i < |ts| ==> ts[i].fullQualifiedName != k
    ensures k in PutAll(m, ts) <==> k in m
    ensures k in m ==> PutAll(m, ts)[k] == m[k]
  {
    if ts != [] {
      var init := ts[..|ts| - 1];
      assert forall i :: 0 <= i < |init| ==> init[i] == ts[i];
      PutAllUntouched(m, init, k);
    }
  }

  /** Every contained Type is in the seeded map under its name. */
  lemma ContainedTypeIsSeeded(contains: seq<FileEntry>, requiresTypes: seq<TypeDescriptor>, t: TypeDescriptor)
    requires TypeFile(t) in contains
    ensures t.fullQualifiedName in SeededTypes(contains, requiresTypes)
  {
    var types := TypesOf(contains);
    TypesOfMembership(contains, t);
    var i :| 0 <= i < |types| && types[i] == t;
    PutAllKeys(map[], types, t.fullQualifiedName);
    PutAllKeys(PutAll(map[], types), requiresTypes, t.fullQualifiedName);
  }

  /** The seeded keys are exactly the names of the contained and the
      required Types; non-type entries contribute nothing. */
  lemma SeededKeys(contains: seq<FileEntry>, requiresTypes: seq<TypeDescriptor>, k: string)
    ensures k in SeededTypes(contains, requiresTypes) <==>
              ((exists t :: TypeFile(t) in contains && t.fullQualifiedName == k) ||
               (exists i :: 0 <= i < |requiresTypes| && requiresTypes[i].fullQualifiedName == k))
  {
    var types := TypesOf(contains);
    PutAllKeys(map[], types, k);
    PutAllKeys(PutAll(map[], types), requiresTypes, k);
    if exists i :: 0 <= i < |types| && types[i].fullQualifiedName == k {
      var i :| 0 <= i < |types| && types[i].fullQualifiedName == k;
      TypesOfMembership(contains, types[i]);
    }
    if exists t :: TypeFile(t) in contains && t.fullQualifiedName == k {
      var t :| TypeFile(t) in contains && t.fullQualifiedName == k;
      TypesOfMembership(contains, t);
    }
  }

  /** A required Type overrides a contained Type of the same name: the
      last required Type under a name is what the seeded map holds. */
  lemma RequiredTypeOverridesContained(contains: seq<FileEntry>, requiresTypes: seq<TypeDescriptor>, i: nat)
    requires i < |requiresTypes|
    requires forall j :: i < j < |requiresTypes| ==>
               requiresTypes[j].fullQualifiedName != requiresTypes[i].fullQualifiedName
    ensures requiresTypes[i].fullQualifiedName in SeededTypes(contains, requiresTypes)
    ensures SeededTypes(contains, requiresTypes)[requiresTypes[i].fullQualifiedName] == requiresTypes[i]
  {
    PutAllLastWins(PutAll(map[], TypesOf(contains)), requiresTypes, i);
  }

  /** A contained Type whose name no required Type and no later contained
      Type shares is what the seeded map holds under that name. */
  lemma ContainedTypeSurvives(contains: seq<FileEntry>, requiresTypes: seq<TypeDescriptor>, i: nat)
    requires i < |TypesOf(contains)|
    requires forall j :: i < j < |TypesOf(contains)| ==>
               TypesOf(contains)[j].fullQualifiedName != TypesOf(contains)[i].fullQualifiedName
    requires forall j :: 0 <= j < |requiresTypes| ==>
               requiresTypes[j].fullQualifiedName != TypesOf(contains)[i].fullQualifiedName
    ensures TypesOf(contains)[i].fullQualifiedName in SeededTypes(contains, requiresTypes)
    ensures SeededTypes(contains, requiresTypes)[TypesOf(contains)[i].fullQualifiedName] == TypesOf(contains)[i]
  {
    var types := TypesOf(contains);
    PutAllLastWins(map[], types, i);
    PutAllUntouched(PutAll(map[], types), requiresTypes, types[i].fullQualifiedName);
  }

  class ArtifactBasedTypeResolver {
    const compilationUnit: JavaCompilationUnit
    var dependencies: seq<ArtifactDescriptor>
    var artifactTypes: map<string, TypeDescriptor>

    /** Seeds the map from the unit's contained and required Types and copies
        the targets of its DEPENDS_ON relations. */
    constructor (cu: JavaCompilationUnit)
      ensures compilationUnit == cu
      ensures artifactTypes == SeededTypes(cu.contains, cu.requiresTypes)
      ensures dependencies == DependencyTargets(cu.dependencies)
    {
      compilationUnit := cu;
      artifactTypes := map[];
      dependencies := [];
      new;
      var files := cu.contains;
      for i := 0 to |files|
        invariant artifactTypes == PutAll(map[], TypesOf(files[..i]))
        invariant dependencies == []
      {
        assert files[..i + 1][..i] == files[..i];
        match files[i]
        case TypeFile(t) =>
          artifactTypes := artifactTypes[t.fullQualifiedName := t];
        case OtherFile(_) =>
      }
      assert files[..|files|] == files;
      var contained := artifactTypes;
      var required := cu.requiresTypes;
      for i := 0 to |required|
        invariant artifactTypes == PutAll(contained, required[..i])
        invariant dependencies == []
      {
        assert required[..i + 1][..i] == required[..i];
        artifactTypes := artifactTypes[required[i].fullQualifiedName := required[i]];
      }
      assert required[..|required|] == required;
      var relations := cu.dependencies;
      for i := 0 to |relations|
        invariant dependencies == DependencyTargets(relations[..i])
        invariant artifactTypes == SeededTypes(cu.contains, cu.requiresTypes)
      {
        assert relations[..i + 1][..i] == relations[..i];
        dependencies := dependencies + [relations[i].dependency];
      }
      assert relations[..|relations|] == relations;
    }

    /** Local lookup only: `reads this` shows the store is never consulted. */
    function FindInArtifact(fullQualifiedName: string, store: Store): (r: TypeDescriptor?)
      reads this
      ensures r != null <==> fullQualifiedName in artifactTypes
      ensures r != null ==> r == artifactTypes[fullQualifiedName]
    {
      if fullQualifiedName in artifactTypes then artifactTypes[fullQualifiedName] else null
    }

    /** The first Type the dependency query yields. With no dependencies the
        result is null whatever the query would have answered. */
    function FindInDependencies(fullQualifiedName: string, store: Store): (r: TypeDescriptor?)
      reads this
      ensures dependencies == [] ==> r == null
      ensures dependencies != [] ==>
                (r == null <==> compilationUnit.resolveRequiredType(fullQualifiedName, dependencies) == [])
      ensures r != null ==> r == compilationUnit.resolveRequiredType(fullQualifiedName, dependencies)[0]
    {
      if dependencies == [] then null
      else
        var found := compilationUnit.resolveRequiredType(fullQualifiedName, dependencies);
        if found == [] then null else found[0]
    }

    /** Registers a Type declared in this unit; its `requiredBy` edge is untouched. */
    method AddContainedType(fqn: string, typeDescriptor: TypeDescriptor)
      modifies this`artifactTypes
      ensures artifactTypes == old(artifactTypes)[fqn := typeDescriptor]
      ensures forall store: Store :: FindInArtifact(fqn, store) == typeDescriptor
    {
      artifactTypes := artifactTypes[fqn := typeDescriptor];
    }

    /** Registers a Type this unit requires and points its `requiredBy` edge
        at this resolver's unit. */
    method AddRequiredType(fqn: string, typeDescriptor: TypeDescriptor)
      modifies this`artifactTypes, typeDescriptor`requiredBy
      ensures artifactTypes == old(artifactTypes)[fqn := typeDescriptor]
      ensures typeDescriptor.requiredBy == compilationUnit
      ensures forall store: Store :: FindInArtifact(fqn, store) == typeDescriptor
    {
      artifactTypes := artifactTypes[fqn := typeDescriptor];
      typeDescriptor.requiredBy := compilationUnit;
    }

    /** Clears the `requiredBy` edge; the map entry stays in place. */
    method RemoveRequiredType(fqn: string, typeDescriptor: TypeDescriptor)
      modifies typeDescriptor`requiredBy
      ensures typeDescriptor.requiredBy == null
      ensures artifactTypes == old(artifactTypes) && dependencies == old(dependencies)
      ensures fqn in old(artifactTypes) ==>
                forall store: Store :: FindInArtifact(fqn, store) == old(artifactTypes)[fqn]
    {
      typeDescriptor.requiredBy := null;
    }
  }

  /** Adding a required Type and removing it again leaves the Type findable
      under its name and no longer required by anything. */
  method RequireThenRemove(resolver: ArtifactBasedTypeResolver, fqn: string, t: TypeDescriptor, store: Store)
    modifies resolver`artifactTypes, t`requiredBy
    ensures resolver.FindInArtifact(fqn, store) == t
    ensures t.requiredBy == null
  {
    resolver.AddRequiredType(fqn, t);
    assert t.requiredBy == resolver.compilationUnit;
    resolver.RemoveRequiredType(fqn, t);
  }
}
